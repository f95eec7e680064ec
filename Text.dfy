/** The few ECMAScript string built-ins the research pipeline relies on,
    with strings as sequences of characters: the `\s` character class (which
    is also the set that `String.prototype.trim` strips), `replace(/\s+/g, " ")`,
    `trim()` and `Array.prototype.join`. */
module Text {

  /** ECMAScript WhiteSpace and LineTerminator code points: what `\s` matches
      and what `trim()` removes. */
  predicate IsWhitespace(c: char) {
    c == '\t' || c == '\n' || c == '\U{000B}' || c == '\U{000C}' || c == '\r' ||
    c == ' ' || c == '\U{00A0}' || c == '\U{1680}' ||
    ('\U{2000}' <= c <= '\U{200A}') ||
    c == '\U{2028}' || c == '\U{2029}' || c == '\U{202F}' || c == '\U{205F}' ||
    c == '\U{3000}' || c == '\U{FEFF}'
  }

  predicate AllWhitespace(s: string) {
    forall i :: 0 <= i < |s| ==> IsWhitespace(s[i])
  }

  /** No two adjacent characters are both whitespace. */
  predicate NoDoubleWhitespace(s: string) {
    forall i :: 0 <= i < |s| - 1 ==> !(IsWhitespace(s[i]) && IsWhitespace(s[i + 1]))
  }

  /** The only whitespace character that occurs is the plain space. */
  predicate OnlySpaces(s: string) {
    forall i :: 0 <= i < |s| && IsWhitespace(s[i]) ==> s[i] == ' '
  }

  /** Neither end is whitespace. */
  predicate Trimmed(s: string) {
    s == [] || (!IsWhitespace(s[0]) && !IsWhitespace(s[|s| - 1]))
  }

  /** The non-whitespace characters of `s`, in order. */
  function Visible(s: string): string {
    if s == [] then []
    else (if IsWhitespace(s[0]) then [] else [s[0]]) + Visible(s[1..])
  }

  /** `s.replace(/\s+/g, " ")`: every maximal run of whitespace becomes one space. */
  function CollapseWhitespace(s: string): string
    decreases |s|
  {
    if s == [] then []
    else if IsWhitespace(s[0]) then " " + CollapseWhitespace(TrimStart(s))
    else [s[0]] + CollapseWhitespace(s[1..])
  }

  /** `trimStart()`: `s` minus its maximal run of leading whitespace. */
  function TrimStart(s: string): (r: string)
    ensures |r| <= |s| && r == s[|s| - |r|..]
    ensures AllWhitespace(s[..|s| - |r|])
    ensures r == [] || !IsWhitespace(r[0])
  {
    if s != [] && IsWhitespace(s[0]) then TrimStart(s[1..]) else s
  }

  /** `trimEnd()`: `s` minus its trailing whitespace. */
  function TrimEnd(s: string): (r: string)
    ensures |r| <= |s| && r == s[..|r|]
    ensures AllWhitespace(s[|r|..])
    ensures r == [] || !IsWhitespace(r[|r| - 1])
  {
    if s != [] && IsWhitespace(s[|s| - 1]) then TrimEnd(s[..|s| - 1]) else s
  }

  /** `trim()`. */
  function Trim(s: string): string {
    TrimEnd(TrimStart(s))
  }

  /** `parts.join(sep)`. */
  function Join(sep: string, parts: seq<string>): string {
    if parts == [] then []
    else if |parts| == 1 then parts[0]
    else parts[0] + sep + Join(sep, parts[1..])
  }

  // ---------------------------------------------------------------------
  // Trim

  /** `trim()` removes only whitespace, from both ends, and leaves neither end
      whitespace: it returns the infix `s[i..j]` with `s[..i]` and `s[j..]`
      all whitespace. */
  lemma TrimIsInfix(s: string)
    ensures exists i, j :: (0 <= i <= j <= |s| && Trim(s) == s[i..j] &&
                            AllWhitespace(s[..i]) && AllWhitespace(s[j..]))
    ensures Trimmed(Trim(s))
  {
    var t := TrimStart(s);
    var i := |s| - |t|;
    var r := TrimEnd(t);
    assert t == s[i..];
    assert r == s[i..i + |r|];
    assert s[i + |r|..] == t[|r|..];
    if r != [] {
      assert r[0] == t[0];
    }
  }

  /** A string whose ends are not whitespace is its own trim. */
  lemma TrimOfTrimmed(s: string)
    requires Trimmed(s)
    ensures Trim(s) == s
  {
  }

  /** Trimming whitespace padding around a trimmed string gives that string back. */
  lemma {:induction false} TrimPadded(pre: string, s: string, post: string)
    requires AllWhitespace(pre) && AllWhitespace(post) && Trimmed(s) && s != []
    ensures Trim(pre + s + post) == s
  {
    var t := s + post;
    assert pre + s + post == pre + t;
    assert t[0] == s[0];
    TrimStartPadded(pre, t);
    TrimEndPadded(s, post);
  }

  lemma {:induction false} TrimStartPadded(pre: string, t: string)
    requires AllWhitespace(pre) && t != [] && !IsWhitespace(t[0])
    ensures TrimStart(pre + t) == t
  {
    if pre != [] {
      assert (pre + t)[1..] == pre[1..] + t;
      TrimStartPadded(pre[1..], t);
    }
  }

  lemma {:induction false} TrimEndPadded(t: string, post: string)
    requires AllWhitespace(post) && t != [] && !IsWhitespace(t[|t| - 1])
    ensures TrimEnd(t + post) == t
  {
    if post != [] {
      assert (t + post)[..|t + post| - 1] == t + post[..|post| - 1];
      TrimEndPadded(t, post[..|post| - 1]);
    } else {
      assert t + post == t;
    }
  }

  /** Trimming keeps the property of having no doubled whitespace. */
  lemma TrimKeepsNoDouble(s: string)
    requires NoDoubleWhitespace(s)
    ensures NoDoubleWhitespace(Trim(s))
  {
    TrimIsInfix(s);
    var i, j :| 0 <= i <= j <= |s| && Trim(s) == s[i..j];
    InfixKeepsNoDouble(s, i, j);
  }

  lemma InfixKeepsNoDouble(s: string, i: nat, j: nat)
    requires i <= j <= |s| && NoDoubleWhitespace(s)
    ensures NoDoubleWhitespace(s[i..j])
  {
    var t := s[i..j];
    forall k | 0 <= k < |t| - 1 ensures !(IsWhitespace(t[k]) && IsWhitespace(t[k + 1])) {
      assert t[k] == s[i + k] && t[k + 1] == s[i + k + 1];
    }
  }

  // ---------------------------------------------------------------------
  // Whitespace collapsing

  /** The collapsed string begins with a visible character whenever the input does. */
  lemma CollapseStart(s: string)
    requires s != [] && !IsWhitespace(s[0])
    ensures CollapseWhitespace(s) != [] && CollapseWhitespace(s)[0] == s[0]
  {
  }

  /** `replace(/\s+/g, " ")` never leaves two whitespace characters side by side,
      and the only whitespace it leaves is the plain space. */
  lemma {:induction false} CollapseShape(s: string)
    ensures NoDoubleWhitespace(CollapseWhitespace(s))
    ensures OnlySpaces(CollapseWhitespace(s))
    decreases |s|
  {
    if s == [] {
    } else if IsWhitespace(s[0]) {
      var rest := TrimStart(s);
      CollapseShape(rest);
      var c := CollapseWhitespace(rest);
      if rest != [] {
        CollapseStart(rest);
      }
      PrependKeepsShape(' ', c);
    } else {
      CollapseShape(s[1..]);
      PrependKeepsShape(s[0], CollapseWhitespace(s[1..]));
    }
  }

  lemma PrependKeepsShape(c: char, t: string)
    requires NoDoubleWhitespace(t) && OnlySpaces(t)
    requires IsWhitespace(c) ==> c == ' ' && (t == [] || !IsWhitespace(t[0]))
    ensures NoDoubleWhitespace([c] + t) && OnlySpaces([c] + t)
  {
    var u := [c] + t;
    forall k | 0 < k < |u| ensures u[k] == t[k - 1] {
    }
  }

  /** A string that is already collapsed is left as it is. */
  lemma {:induction false} CollapseOfCollapsed(s: string)
    requires NoDoubleWhitespace(s) && OnlySpaces(s)
    ensures CollapseWhitespace(s) == s
    decreases |s|
  {
    if s != [] {
      InfixKeepsNoDouble(s, 1, |s|);
      InfixKeepsOnlySpaces(s, 1, |s|);
      CollapseOfCollapsed(s[1..]);
      if IsWhitespace(s[0]) {
        if |s| > 1 {
          assert !IsWhitespace(s[1]);
          assert TrimStart(s[1..]) == s[1..];
        }
        assert s == " " + s[1..];
      }
    }
  }

  lemma InfixKeepsOnlySpaces(s: string, i: nat, j: nat)
    requires i <= j <= |s| && OnlySpaces(s)
    ensures OnlySpaces(s[i..j])
  {
    var t := s[i..j];
    forall k | 0 <= k < |t| && IsWhitespace(t[k]) ensures t[k] == ' ' {
      assert t[k] == s[i + k];
    }
  }

  lemma TrimKeepsOnlySpaces(s: string)
    requires OnlySpaces(s)
    ensures OnlySpaces(Trim(s))
  {
    TrimIsInfix(s);
    var i, j :| 0 <= i <= j <= |s| && Trim(s) == s[i..j];
    InfixKeepsOnlySpaces(s, i, j);
  }

  /** Collapsing keeps every visible character, in order, and adds none. */
  lemma {:induction false} CollapseKeepsVisible(s: string)
    ensures Visible(CollapseWhitespace(s)) == Visible(s)
    decreases |s|
  {
    if s == [] {
    } else if IsWhitespace(s[0]) {
      var rest := TrimStart(s);
      CollapseKeepsVisible(rest);
      VisibleOfWhitespacePrefix(s, |s| - |rest|);
      assert Visible(" " + CollapseWhitespace(rest)) == Visible(CollapseWhitespace(rest)) by {
        assert (" " + CollapseWhitespace(rest))[1..] == CollapseWhitespace(rest);
      }
    } else {
      CollapseKeepsVisible(s[1..]);
      assert ([s[0]] + CollapseWhitespace(s[1..]))[1..] == CollapseWhitespace(s[1..]);
    }
  }

  lemma {:induction false} VisibleOfWhitespacePrefix(s: string, n: nat)
    requires n <= |s| && AllWhitespace(s[..n])
    ensures Visible(s) == Visible(s[n..])
    decreases n
  {
    if n > 0 {
      assert s[0] == s[..n][0];
      var w := s[1..][..n - 1];
      assert AllWhitespace(w) by {
        forall k | 0 <= k < n - 1 ensures IsWhitespace(w[k]) {
          assert w[k] == s[..n][k + 1];
        }
      }
      VisibleOfWhitespacePrefix(s[1..], n - 1);
      assert s[1..][n - 1..] == s[n..];
    }
  }

  /** Trimming removes only whitespace, so it keeps every visible character. */
  lemma TrimKeepsVisible(s: string)
    ensures Visible(Trim(s)) == Visible(s)
  {
    var t := TrimStart(s);
    VisibleOfWhitespacePrefix(s, |s| - |t|);
    var r := TrimEnd(t);
    VisibleOfWhitespaceSuffix(t, |r|);
  }

  lemma {:induction false} VisibleOfWhitespaceSuffix(s: string, n: nat)
    requires n <= |s| && AllWhitespace(s[n..])
    ensures Visible(s) == Visible(s[..n])
    decreases |s|
  {
    if n == 0 {
      AllWhitespaceInvisible(s);
    } else {
      assert s[1..][n - 1..] == s[n..];
      VisibleOfWhitespaceSuffix(s[1..], n - 1);
      assert s[..n][0] == s[0];
      assert s[..n][1..] == s[1..][..n - 1];
    }
  }

  lemma {:induction false} AllWhitespaceInvisible(s: string)
    requires AllWhitespace(s)
    ensures Visible(s) == []
    decreases |s|
  {
    if s != [] {
      AllWhitespaceInvisible(s[1..]);
    }
  }

  // ---------------------------------------------------------------------
  // Words

  /** A non-empty run of non-whitespace characters. */
  predicate IsWord(w: string) {
    w != [] && forall i :: 0 <= i < |w| ==> !IsWhitespace(w[i])
  }

  /** The leading run of non-whitespace characters. */
  function Word(s: string): (w: string)
    ensures w <= s && (w == [] || IsWord(w))
    ensures s != [] && !IsWhitespace(s[0]) ==> w != []
    ensures |w| < |s| ==> IsWhitespace(s[|w|])
  {
    if s == [] || IsWhitespace(s[0]) then [] else [s[0]] + Word(s[1..])
  }

  /** The maximal runs of non-whitespace characters of `s`, in order: the
      pieces that `\s+` separates. */
  function Words(s: string): (ws: seq<string>)
    ensures forall k :: 0 <= k < |ws| ==> IsWord(ws[k])
    ensures s != [] && !IsWhitespace(s[0]) ==> ws != [] && ws[0] == Word(s)
    decreases |s|
  {
    if s == [] then []
    else if IsWhitespace(s[0]) then Words(s[1..])
    else
      var w := Word(s);
      [w] + Words(s[|w|..])
  }

  /** Leading whitespace separates no word. */
  lemma {:induction false} WordsTrimStart(s: string)
    ensures Words(TrimStart(s)) == Words(s)
  {
    if s != [] && IsWhitespace(s[0]) {
      WordsTrimStart(s[1..]);
    }
  }

  /** Collapsing copies a leading word unchanged. */
  lemma {:induction false} CollapseWord(s: string)
    requires s != [] && !IsWhitespace(s[0])
    ensures CollapseWhitespace(s) == Word(s) + CollapseWhitespace(s[|Word(s)|..])
  {
    var t := s[1..];
    if t != [] && !IsWhitespace(t[0]) {
      CollapseWord(t);
      assert s[|Word(s)|..] == t[|Word(t)|..];
    }
  }

  /** Trailing whitespace is stripped from the end only. */
  lemma {:induction false} TrimEndAppend(a: string, b: string)
    requires b != [] && !IsWhitespace(b[0])
    ensures TrimEnd(a + b) == a + TrimEnd(b)
    decreases |b|
  {
    if IsWhitespace(b[|b| - 1]) {
      var b' := b[..|b| - 1];
      assert (a + b)[..|a + b| - 1] == a + b';
      TrimEndAppend(a, b');
    }
  }

  /** `s.replace(/\s+/g, " ").trim()` is the words of `s` joined by single
      spaces: each interior whitespace run becomes exactly one space, and
      the runs at either end disappear. */
  lemma {:induction false} CollapseIsJoinOfWords(s: string)
    ensures Trim(CollapseWhitespace(s)) == Join(" ", Words(s))
    decreases |s|
  {
    if s == [] {
    } else if IsWhitespace(s[0]) {
      TrimStartShorter(s);
      CollapseIsJoinOfWords(TrimStart(s));
      LeadingSpaceCase(s);
    } else if |Word(s)| == |s| {
      SingleWordCase(s);
    } else {
      var r := s[|Word(s)|..];
      assert IsWhitespace(r[0]) by { assert r[0] == s[|Word(s)|]; }
      TrimStartShorter(r);
      CollapseIsJoinOfWords(TrimStart(r));
      WordCase(s);
    }
  }

  lemma TrimStartShorter(s: string)
    requires s != [] && IsWhitespace(s[0])
    ensures |TrimStart(s)| < |s|
  {
  }

  lemma LeadingSpaceCase(s: string)
    requires s != [] && IsWhitespace(s[0])
    requires Trim(CollapseWhitespace(TrimStart(s))) == Join(" ", Words(TrimStart(s)))
    ensures Trim(CollapseWhitespace(s)) == Join(" ", Words(s))
  {
    WordsTrimStart(s);
    TrimSpaceFirst(CollapseWhitespace(TrimStart(s)));
  }

  lemma SingleWordCase(s: string)
    requires s != [] && !IsWhitespace(s[0]) && |Word(s)| == |s|
    ensures Trim(CollapseWhitespace(s)) == Join(" ", Words(s))
  {
    var w := Word(s);
    assert w == s;
    CollapseWord(s);
    assert s[|w|..] == [];
    assert Words(s) == [w];
    TrimOfTrimmed(w);
  }

  /** A word followed by whitespace: the word, one space, and then the
      collapsed rest. */
  lemma WordCase(s: string)
    requires s != [] && !IsWhitespace(s[0]) && |Word(s)| < |s|
    requires var u := TrimStart(s[|Word(s)|..]);
      Trim(CollapseWhitespace(u)) == Join(" ", Words(u))
    ensures Trim(CollapseWhitespace(s)) == Join(" ", Words(s))
  {
    var u := TrimStart(s[|Word(s)|..]);
    CollapseAfterWord(s);
    WordsAfterWord(s);
    if u != [] {
      CollapseStart(u);
    }
    WordSpaceJoin(Word(s), CollapseWhitespace(u), Words(u));
  }

  lemma CollapseAfterWord(s: string)
    requires s != [] && !IsWhitespace(s[0]) && |Word(s)| < |s|
    ensures CollapseWhitespace(s) == Word(s) + " " + CollapseWhitespace(TrimStart(s[|Word(s)|..]))
  {
    var w := Word(s);
    var r := s[|w|..];
    assert r[0] == s[|w|];
    CollapseWord(s);
    CollapseRun(r);
    ConcatAssoc(w, " ", CollapseWhitespace(TrimStart(r)));
  }

  /** A leading whitespace run collapses to one space. */
  lemma CollapseRun(r: string)
    requires r != [] && IsWhitespace(r[0])
    ensures CollapseWhitespace(r) == " " + CollapseWhitespace(TrimStart(r))
  {
  }

  lemma ConcatAssoc(a: string, b: string, c: string)
    ensures a + (b + c) == a + b + c
  {
  }

  lemma WordsAfterWord(s: string)
    requires s != [] && !IsWhitespace(s[0]) && |Word(s)| < |s|
    ensures Words(s) == [Word(s)] + Words(TrimStart(s[|Word(s)|..]))
  {
    WordsTrimStart(s[|Word(s)|..]);
  }

  lemma WordSpaceJoin(w: string, c: string, ws: seq<string>)
    requires IsWord(w) && Trim(c) == Join(" ", ws)
    requires c == [] ==> ws == []
    requires c != [] ==> !IsWhitespace(c[0]) && ws != []
    ensures Trim(w + " " + c) == Join(" ", [w] + ws)
  {
    if c == [] {
      assert w + " " + c == w + " ";
      TrimWordEnd(w);
      assert [w] + ws == [w];
    } else {
      TrimWordSpace(w, c);
      JoinCons(w, ws);
    }
  }

  lemma TrimWordEnd(w: string)
    requires IsWord(w)
    ensures Trim(w + " ") == w
  {
    TrimPadded("", w, " ");
    assert "" + w + " " == w + " ";
  }

  lemma TrimSpaceFirst(c: string)
    ensures Trim(" " + c) == Trim(c)
  {
    assert (" " + c)[1..] == c;
  }

  lemma TrimWordSpace(w: string, c: string)
    requires IsWord(w) && c != [] && !IsWhitespace(c[0])
    ensures Trim(w + " " + c) == w + " " + Trim(c)
  {
    TrimEndAppend(w + " ", c);
    assert (w + " " + c)[0] == w[0];
  }

  lemma JoinCons(x: string, xs: seq<string>)
    requires xs != []
    ensures Join(" ", [x] + xs) == x + " " + Join(" ", xs)
  {
    assert ([x] + xs)[1..] == xs;
  }

  // ---------------------------------------------------------------------
  // Join

  /** A one-character separator makes `join` insert it exactly between parts:
      joining `parts` around the part at `k` gives the parts before it, the
      separator, the part, the separator and the parts after it. */
  lemma {:induction false} JoinAround(sep: string, parts: seq<string>, k: nat)
    requires 0 < k < |parts| - 1
    ensures Join(sep, parts) ==
      Join(sep, parts[..k]) + sep + parts[k] + sep + Join(sep, parts[k + 1..])
    decreases k
  {
    if k == 1 {
      assert parts[1..][1..] == parts[2..];
      assert parts[..1] == [parts[0]];
    } else {
      JoinAround(sep, parts[1..], k - 1);
      assert parts[1..][..k - 1] == parts[..k][1..];
      assert parts[1..][k..] == parts[k + 1..];
      assert parts[1..][k - 1] == parts[k];
    }
  }

  /** `join` begins with the first part. */
  lemma JoinStartsWithFirst(sep: string, parts: seq<string>)
    requires parts != []
    ensures parts[0] <= Join(sep, parts)
  {
  }

  /** `t` is a suffix of `s`. */
  predicate EndsWith(s: string, t: string) {
    |t| <= |s| && s[|s| - |t|..] == t
  }

  /** `join` ends with the last part. */
  lemma {:induction false} JoinEndsWithLast(sep: string, parts: seq<string>)
    requires parts != []
    ensures EndsWith(Join(sep, parts), parts[|parts| - 1])
  {
    if |parts| > 1 {
      JoinEndsWithLast(sep, parts[1..]);
      var rest := Join(sep, parts[1..]);
      assert Join(sep, parts) == (parts[0] + sep) + rest;
    }
  }

  /** `join` of one more part. */
  lemma {:induction false} JoinSnoc(sep: string, parts: seq<string>, x: string)
    requires parts != []
    ensures Join(sep, parts + [x]) == Join(sep, parts) + sep + x
    decreases |parts|
  {
    if |parts| > 1 {
      JoinSnoc(sep, parts[1..], x);
      assert (parts + [x])[1..] == parts[1..] + [x];
    }
  }

  /** A template literal that starts and ends with a line break is the
      `join` of its lines with an empty first and last line. */
  lemma JoinPadded(sep: string, parts: seq<string>)
    requires parts != []
    ensures Join(sep, [""] + parts + [""]) == sep + Join(sep, parts) + sep
  {
    var inner := [""] + parts;
    JoinSnoc(sep, inner, "");
    assert inner[1..] == parts;
  }

  /** `l` occurs as a whole line of `s`, with a line break on both sides. */
  ghost predicate IsLineOf(l: string, s: string) {
    exists pre, post :: s == pre + "\n" + l + "\n" + post
  }

  /** Every part of a `join("\n")` other than the first and the last is a
      whole line of it. */
  lemma JoinHasLine(parts: seq<string>, k: nat)
    requires 0 < k < |parts| - 1
    ensures IsLineOf(parts[k], Join("\n", parts))
  {
    JoinAround("\n", parts, k);
    var pre, post := Join("\n", parts[..k]), Join("\n", parts[k + 1..]);
    assert Join("\n", parts) == pre + "\n" + parts[k] + "\n" + post;
  }
}
