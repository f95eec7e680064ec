/** `capEvidenceByDomain` (src/research/research.pipeline.ts): a bounded,
    domain-diverse selection of evidence. The items are grouped into one queue
    per domain (a JavaScript `Map`, whose keys keep insertion order), then a
    rotating index walks the list of domains still in play, taking the front of
    each queue, dropping a domain once its queue is empty or it has supplied
    `maxPerDomain` items, and stopping at `maxTotal` items.

    The item type is generic; `dom` reads an item's domain (`it.domain`). */
module EvidenceCap {

  function Min(a: int, b: int): int {
    if a <= b then a else b
  }

  /** A JavaScript cap compared against a length: negative caps act as zero. */
  function NonNeg(n: int): nat {
    if n < 0 then 0 else n
  }

  predicate Distinct(s: seq<string>) {
    forall a, b :: 0 <= a < b < |s| ==> s[a] != s[b]
  }

  /** The items of `s` whose domain is `d`, in their original order
      (`items.filter(x => x.domain === d)`). */
  function Filter<T(==)>(s: seq<T>, dom: T -> string, d: string): (r: seq<T>)
    ensures |r| <= |s|
  {
    if s == [] then []
    else Filter(s[..|s| - 1], dom, d) + (if dom(s[|s| - 1]) == d then [s[|s| - 1]] else [])
  }

  /** The distinct domains of `s` in order of first appearance: the key order
      of the grouping `Map`. */
  function Domains<T(==)>(s: seq<T>, dom: T -> string): (r: seq<string>)
    ensures Distinct(r)
  {
    if s == [] then []
    else
      var p := Domains(s[..|s| - 1], dom);
      var x := s[|s| - 1];
      if dom(x) in p then p else p + [dom(x)]
  }

  /** The first item of every domain, in order of first appearance. */
  function FirstSeen<T(==)>(s: seq<T>, dom: T -> string): (r: seq<T>)
    ensures |r| == |Domains(s, dom)|
    ensures forall j :: 0 <= j < |r| ==> dom(r[j]) == Domains(s, dom)[j]
  {
    if s == [] then []
    else
      var p := s[..|s| - 1];
      var x := s[|s| - 1];
      if dom(x) in Domains(p, dom) then FirstSeen(p, dom) else FirstSeen(p, dom) + [x]
  }

  /** Σ over `ds` of the number of items of `s` in each domain. */
  function SumUsed<T(==)>(ds: seq<string>, s: seq<T>, dom: T -> string): nat {
    if ds == [] then 0 else |Filter(s, dom, ds[0])| + SumUsed(ds[1..], s, dom)
  }

  /** Σ over `ds` of min(count of the domain in `s`, `cap`). */
  function SumCapped<T(==)>(ds: seq<string>, s: seq<T>, dom: T -> string, cap: nat): nat {
    if ds == [] then 0 else Min(|Filter(s, dom, ds[0])|, cap) + SumCapped(ds[1..], s, dom, cap)
  }

  // ---------------------------------------------------------------------
  // Filter, Domains, FirstSeen

  lemma FilterSnoc<T>(s: seq<T>, dom: T -> string, x: T, d: string)
    ensures Filter(s + [x], dom, d) == Filter(s, dom, d) + (if dom(x) == d then [x] else [])
  {
    assert (s + [x])[..|s + [x]| - 1] == s;
  }

  /** Everything selected comes from `s` and has domain `d`. */
  lemma {:induction false} FilterMembers<T>(s: seq<T>, dom: T -> string, d: string)
    ensures forall x :: x in Filter(s, dom, d) ==> x in s && dom(x) == d
  {
    if s != [] {
      FilterMembers(s[..|s| - 1], dom, d);
      assert forall y :: y in s[..|s| - 1] ==> y in s;
    }
  }

  lemma DomainsSnoc<T>(s: seq<T>, dom: T -> string, x: T)
    ensures Domains(s + [x], dom) ==
      if dom(x) in Domains(s, dom) then Domains(s, dom) else Domains(s, dom) + [dom(x)]
  {
    assert (s + [x])[..|s + [x]| - 1] == s;
  }

  lemma FilterSnocAll<T>(s: seq<T>, dom: T -> string, x: T)
    ensures forall d :: Filter(s + [x], dom, d) == Filter(s, dom, d) + (if dom(x) == d then [x] else [])
  {
    forall d ensures Filter(s + [x], dom, d) == Filter(s, dom, d) + (if dom(x) == d then [x] else []) {
      FilterSnoc(s, dom, x, d);
    }
  }

  /** Every item's domain is listed, and a domain is listed exactly when it
      selects at least one item. */
  lemma {:induction false} DomainsExact<T>(s: seq<T>, dom: T -> string)
    ensures forall x :: x in s ==> dom(x) in Domains(s, dom)
    ensures forall d :: d in Domains(s, dom) <==> Filter(s, dom, d) != []
  {
    if s != [] {
      var p, x := s[..|s| - 1], s[|s| - 1];
      assert s == p + [x];
      DomainsExact(p, dom);
      FilterSnocAll(p, dom, x);
    }
  }

  /** A domain that never occurs in `s` selects nothing. */
  lemma {:induction false} FilterAbsent<T>(s: seq<T>, dom: T -> string, d: string)
    requires forall x :: x in s ==> dom(x) != d
    ensures Filter(s, dom, d) == []
  {
    if s != [] {
      FilterAbsent(s[..|s| - 1], dom, d);
    }
  }

  /** Selecting the domain of `x` keeps every copy of `x`. */
  lemma {:induction false} FilterMultiplicity<T>(s: seq<T>, dom: T -> string, x: T)
    ensures multiset(Filter(s, dom, dom(x)))[x] == multiset(s)[x]
  {
    if s != [] {
      var p, y := s[..|s| - 1], s[|s| - 1];
      assert s == p + [y];
      FilterMultiplicity(p, dom, x);
      if y == x {
        assert multiset(s)[x] == multiset(p)[x] + 1;
      } else {
        assert multiset(s)[x] == multiset(p)[x];
      }
    }
  }

  lemma PrefixMultiplicity<T>(a: seq<T>, b: seq<T>, x: T)
    requires a <= b
    ensures multiset(a)[x] <= multiset(b)[x]
  {
    assert b == a + b[|a|..];
  }

  /** If every domain's selection from `out` is a prefix of its selection
      from `items`, then `out` uses no item more often than `items` has it. */
  lemma FilterPrefixesMultiset<T>(out: seq<T>, items: seq<T>, dom: T -> string)
    requires forall d :: Filter(out, dom, d) <= Filter(items, dom, d)
    ensures multiset(out) <= multiset(items)
  {
    forall x ensures multiset(out)[x] <= multiset(items)[x] {
      FilterMultiplicity(out, dom, x);
      FilterMultiplicity(items, dom, x);
      PrefixMultiplicity(Filter(out, dom, dom(x)), Filter(items, dom, dom(x)), x);
    }
  }

  /** The `j`-th entry of `FirstSeen` is the earliest item of the `j`-th
      distinct domain. */
  lemma {:induction false} FirstSeenIsFirst<T>(s: seq<T>, dom: T -> string, j: nat)
    requires j < |Domains(s, dom)|
    ensures Filter(s, dom, Domains(s, dom)[j]) != []
    ensures FirstSeen(s, dom)[j] == Filter(s, dom, Domains(s, dom)[j])[0]
  {
    var p, x := s[..|s| - 1], s[|s| - 1];
    assert s == p + [x];
    var ps := Domains(p, dom);
    var d := Domains(s, dom)[j];
    FilterSnoc(p, dom, x, d);
    if dom(x) in ps {
      FirstSeenIsFirst(p, dom, j);
    } else if j < |ps| {
      FirstSeenIsFirst(p, dom, j);
    } else {
      DomainsExact(p, dom);
    }
  }

  /** During the first pass (the output so far is the first items of the
      first `|out|` domains) the next domain is still untouched: nothing of it
      has been used and its queue is the whole of its items, which begins with
      its first-seen item. */
  lemma FreshDomain<T>(items: seq<T>, dom: T -> string, out: seq<T>, byDomain: map<string, seq<T>>)
    requires |out| < |Domains(items, dom)|
    requires out == FirstSeen(items, dom)[..|out|]
    requires Domains(items, dom)[|out|] in byDomain
    requires forall e :: e in byDomain ==> Filter(items, dom, e) == Filter(out, dom, e) + byDomain[e]
    ensures Filter(out, dom, Domains(items, dom)[|out|]) == []
    ensures byDomain[Domains(items, dom)[|out|]] != []
    ensures byDomain[Domains(items, dom)[|out|]][0] == FirstSeen(items, dom)[|out|]
  {
    var ks := Domains(items, dom);
    var d := ks[|out|];
    forall x | x in out ensures dom(x) != d {
      var j :| 0 <= j < |out| && out[j] == x;
      assert dom(x) == ks[j];
    }
    FilterAbsent(out, dom, d);
    assert Filter(items, dom, d) == [] + byDomain[d];
    FirstSeenIsFirst(items, dom, |out|);
  }

  // ---------------------------------------------------------------------
  // Sums over the domain list

  lemma {:induction false} SumUsedSnoc<T>(ds: seq<string>, s: seq<T>, dom: T -> string, x: T)
    requires Distinct(ds)
    ensures SumUsed(ds, s + [x], dom) == SumUsed(ds, s, dom) + (if dom(x) in ds then 1 else 0)
  {
    if ds != [] {
      FilterSnoc(s, dom, x, ds[0]);
      assert Distinct(ds[1..]) by {
        forall a, b | 0 <= a < b < |ds| - 1 ensures ds[1..][a] != ds[1..][b] {
          assert ds[1..][a] == ds[a + 1] && ds[1..][b] == ds[b + 1];
        }
      }
      SumUsedSnoc(ds[1..], s, dom, x);
      assert dom(x) in ds <==> dom(x) == ds[0] || dom(x) in ds[1..];
      assert forall b :: 0 <= b < |ds| - 1 ==> ds[1..][b] == ds[b + 1];
    }
  }

  /** Counting per domain over a duplicate-free list of all domains counts
      every item exactly once. */
  lemma {:induction false} SumUsedIsLength<T>(ds: seq<string>, s: seq<T>, dom: T -> string)
    requires Distinct(ds)
    requires forall x :: x in s ==> dom(x) in ds
    ensures SumUsed(ds, s, dom) == |s|
  {
    if s == [] {
      SumUsedEmpty(ds, s, dom);
    } else {
      var p, x := s[..|s| - 1], s[|s| - 1];
      assert s == p + [x];
      SumUsedIsLength(ds, p, dom);
      SumUsedSnoc(ds, p, dom, x);
    }
  }

  lemma {:induction false} SumUsedEmpty<T>(ds: seq<string>, s: seq<T>, dom: T -> string)
    requires s == []
    ensures SumUsed(ds, s, dom) == 0
  {
    if ds != [] {
      SumUsedEmpty(ds[1..], s, dom);
    }
  }

  lemma {:induction false} SumUsedAtMostCapped<T>(ds: seq<string>, out: seq<T>, items: seq<T>, dom: T -> string, cap: nat)
    requires forall d :: d in ds ==> |Filter(out, dom, d)| <= Min(|Filter(items, dom, d)|, cap)
    ensures SumUsed(ds, out, dom) <= SumCapped(ds, items, dom, cap)
  {
    if ds != [] {
      SumUsedAtMostCapped(ds[1..], out, items, dom, cap);
    }
  }

  lemma {:induction false} SumUsedEqualsCapped<T>(ds: seq<string>, out: seq<T>, items: seq<T>, dom: T -> string, cap: nat)
    requires forall d :: d in ds ==> |Filter(out, dom, d)| == Min(|Filter(items, dom, d)|, cap)
    ensures SumUsed(ds, out, dom) == SumCapped(ds, items, dom, cap)
  {
    if ds != [] {
      SumUsedEqualsCapped(ds[1..], out, items, dom, cap);
    }
  }

  lemma {:induction false} SumCappedAtMostUsed<T>(ds: seq<string>, s: seq<T>, dom: T -> string, cap: nat)
    ensures SumCapped(ds, s, dom, cap) <= SumUsed(ds, s, dom)
  {
    if ds != [] {
      SumCappedAtMostUsed(ds[1..], s, dom, cap);
    }
  }

  lemma {:induction false} SumCappedUncapped<T>(ds: seq<string>, s: seq<T>, dom: T -> string, cap: nat)
    requires cap >= |s|
    ensures SumCapped(ds, s, dom, cap) == SumUsed(ds, s, dom)
  {
    if ds != [] {
      SumCappedUncapped(ds[1..], s, dom, cap);
    }
  }

  /** The selection can never be longer than the input. */
  lemma CapTargetAtMostInput<T>(items: seq<T>, dom: T -> string, cap: nat)
    ensures SumCapped(Domains(items, dom), items, dom, cap) <= |items|
  {
    DomainsExact(items, dom);
    SumCappedAtMostUsed(Domains(items, dom), items, dom, cap);
    SumUsedIsLength(Domains(items, dom), items, dom);
  }

  /** With a per-domain cap no domain can reach, the target is every item. */
  lemma CapTargetUncapped<T>(items: seq<T>, dom: T -> string, cap: nat)
    requires cap >= |items|
    ensures SumCapped(Domains(items, dom), items, dom, cap) == |items|
  {
    DomainsExact(items, dom);
    SumCappedUncapped(Domains(items, dom), items, dom, cap);
    SumUsedIsLength(Domains(items, dom), items, dom);
  }

  /** When neither cap can bind, a selection of the target length that uses
      no item more often than the input holds every item exactly as often as
      the input does. */
  lemma SelectionKeepsAllWhenUncapped<T>(items: seq<T>, out: seq<T>, dom: T -> string, maxTotal: int, maxPerDomain: int)
    requires maxTotal >= |items| && maxPerDomain >= |items|
    requires |out| == Min(NonNeg(maxTotal), SumCapped(Domains(items, dom), items, dom, NonNeg(maxPerDomain)))
    requires multiset(out) <= multiset(items)
    ensures multiset(out) == multiset(items)
  {
    CapTargetUncapped(items, dom, NonNeg(maxPerDomain));
    SubMultisetOfSameSize(multiset(out), multiset(items));
  }

  lemma SubMultisetOfSameSize<T>(a: multiset<T>, b: multiset<T>)
    requires a <= b && |a| == |b|
    ensures a == b
  {
    var diff := b - a;
    assert b == a + diff;
  }

  // ---------------------------------------------------------------------
  // The algorithm

  lemma PrefixExtend<T>(fs: seq<T>, out: seq<T>, x: T)
    requires |out| < |fs| && out == fs[..|out|] && x == fs[|out|]
    ensures out + [x] == fs[..|out| + 1]
  {
  }

  lemma AppendKeepsPrefix<T>(out: seq<T>, x: T, n: nat)
    requires n <= |out|
    ensures (out + [x])[..n] == out[..n]
  {
  }

  lemma PrefixOfPrefix<T>(s: seq<T>, n: nat, m: nat)
    requires m <= n <= |s|
    ensures s[..n][..m] == s[..m]
  {
  }

  /** How the loop's two exits close the count: every domain is either
      saturated (no domain left) or the total cap was reached. */
  lemma FinalCount<T>(ks: seq<string>, out: seq<T>, items: seq<T>, dom: T -> string, cap: nat, total: nat, exhausted: bool)
    requires Distinct(ks)
    requires forall x :: x in out ==> dom(x) in ks
    requires forall d :: d in ks ==> |Filter(out, dom, d)| <= Min(|Filter(items, dom, d)|, cap)
    requires exhausted ==> forall d :: d in ks ==> |Filter(out, dom, d)| == Min(|Filter(items, dom, d)|, cap)
    requires |out| <= total
    requires exhausted || |out| >= total
    ensures |out| == Min(total, SumCapped(ks, items, dom, cap))
  {
    SumUsedIsLength(ks, out, dom);
    if exhausted {
      SumUsedEqualsCapped(ks, out, items, dom, cap);
    } else {
      SumUsedAtMostCapped(ks, out, items, dom, cap);
    }
  }

  lemma ModSmall(i: nat, n: nat)
    requires i < n
    ensures i % n == i
  {
  }

  lemma RemoveAt(s: seq<string>, idx: nat)
    requires Distinct(s) && idx < |s|
    ensures Distinct(s[..idx] + s[idx + 1..])
    ensures forall d :: d in s[..idx] + s[idx + 1..] <==> d in s && d != s[idx]
  {
    var t := s[..idx] + s[idx + 1..];
    assert forall k :: 0 <= k < |t| ==> t[k] == if k < idx then s[k] else s[k + 1];
    forall d | d in s && d != s[idx] ensures d in t {
      var k :| 0 <= k < |s| && s[k] == d;
      assert t[if k < idx then k else k - 1] == d;
    }
  }

  /** The grouping pass: one queue per domain holding that domain's items in
      input order, and the domains in the order they were first met. */
  method GroupByDomain<T(==)>(items: seq<T>, dom: T -> string)
    returns (byDomain: map<string, seq<T>>, keys: seq<string>)
    ensures keys == Domains(items, dom)
    ensures forall d :: d in byDomain <==> d in keys
    ensures forall d :: d in byDomain ==> byDomain[d] == Filter(items, dom, d)
  {
    byDomain, keys := map[], [];
    for k := 0 to |items|
      invariant keys == Domains(items[..k], dom)
      invariant forall d :: d in byDomain <==> d in keys
      invariant forall d :: d in byDomain ==> byDomain[d] == Filter(items[..k], dom, d)
    {
      var it := items[k];
      GroupStep(items, dom, k, byDomain, keys);
      var arr := if dom(it) in byDomain then byDomain[dom(it)] else [];
      if dom(it) !in byDomain {
        // `Map.set` on a new key appends it to the key order.
        keys := keys + [dom(it)];
      }
      byDomain := byDomain[dom(it) := arr + [it]];
    }
    assert items[..|items|] == items;
  }

  /** One step of the grouping loop: item `k` joins its domain's queue, and
      its domain joins the key order when it is new. */
  lemma GroupStep<T>(items: seq<T>, dom: T -> string, k: nat, byDomain: map<string, seq<T>>, keys: seq<string>)
    requires k < |items|
    requires keys == Domains(items[..k], dom)
    requires forall d :: d in byDomain <==> d in keys
    requires forall d :: d in byDomain ==> byDomain[d] == Filter(items[..k], dom, d)
    ensures var d := dom(items[k]);
      (if d in byDomain then keys else keys + [d]) == Domains(items[..k + 1], dom)
    ensures var d, it := dom(items[k]), items[k];
      var q := byDomain[d := (if d in byDomain then byDomain[d] else []) + [it]];
      forall e :: e in q ==> q[e] == Filter(items[..k + 1], dom, e)
  {
    var it := items[k];
    assert items[..k + 1] == items[..k] + [it];
    FilterSnocAll(items[..k], dom, it);
    DomainsSnoc(items[..k], dom, it);
    DomainsExact(items[..k], dom);
  }

  /** Moving the front of domain `d`'s queue to the output keeps every
      domain's items accounted for (used so far, then still queued). */
  lemma PushStep<T>(items: seq<T>, dom: T -> string, out: seq<T>, byDomain: map<string, seq<T>>, d: string)
    requires d in byDomain && byDomain[d] != []
    requires forall e :: e in byDomain ==> Filter(items, dom, e) == Filter(out, dom, e) + byDomain[e]
    ensures dom(byDomain[d][0]) == d
    ensures Filter(out + [byDomain[d][0]], dom, d) == Filter(out, dom, d) + [byDomain[d][0]]
    ensures forall e :: e != d ==> Filter(out + [byDomain[d][0]], dom, e) == Filter(out, dom, e)
    ensures forall e :: e in byDomain ==>
      Filter(items, dom, e) == Filter(out + [byDomain[d][0]], dom, e) + byDomain[d := byDomain[d][1..]][e]
  {
    var arr := byDomain[d];
    var x := arr[0];
    var out', q := out + [x], byDomain[d := arr[1..]];
    FrontHasDomain(items, dom, Filter(out, dom, d), arr, d);
    forall e ensures Filter(out', dom, e) == Filter(out, dom, e) + (if e == d then [x] else []) {
      FilterSnoc(out, dom, x, e);
    }
    forall e | e in byDomain ensures Filter(items, dom, e) == Filter(out', dom, e) + q[e] {
      FilterSnoc(out, dom, x, e);
      if e == d {
        MoveFront(Filter(items, dom, e), Filter(out, dom, e), arr);
      }
    }
  }

  /** Moving the front of a queue to the end of what was used keeps the
      concatenation. */
  lemma MoveFront<T>(whole: seq<T>, used: seq<T>, queue: seq<T>)
    requires queue != [] && whole == used + queue
    ensures whole == (used + [queue[0]]) + queue[1..]
  {
    assert queue == [queue[0]] + queue[1..];
  }

  lemma FrontHasDomain<T>(items: seq<T>, dom: T -> string, used: seq<T>, arr: seq<T>, d: string)
    requires Filter(items, dom, d) == used + arr && arr != []
    ensures dom(arr[0]) == d
  {
    assert arr[0] in Filter(items, dom, d);
    FilterMembers(items, dom, d);
  }

  /** The queues' invariant: every item of a domain is either already in the
      output (a prefix of the domain's items) or still queued; only known
      domains are used; no domain has supplied more than `cap`. */
  ghost predicate Accounted<T>(items: seq<T>, dom: T -> string, out: seq<T>,
                               byDomain: map<string, seq<T>>, ks: seq<string>, cap: nat)
  {
    (forall d :: d in byDomain <==> d in ks) &&
    (forall d :: d in byDomain ==> Filter(items, dom, d) == Filter(out, dom, d) + byDomain[d]) &&
    (forall d :: d !in byDomain ==> Filter(out, dom, d) == []) &&
    (forall x :: x in out ==> dom(x) in byDomain) &&
    (forall d :: |Filter(out, dom, d)| <= cap)
  }

  /** The rotation's invariant: the domains still in play are distinct known
      domains, and every domain taken out of play has given all it can. */
  ghost predicate Retired<T>(items: seq<T>, dom: T -> string, out: seq<T>,
                             ks: seq<string>, domains: seq<string>, cap: nat)
  {
    Distinct(domains) && (forall d :: d in domains ==> d in ks) &&
    (forall d :: d in ks && d !in domains ==> |Filter(out, dom, d)| == Min(|Filter(items, dom, d)|, cap))
  }

  lemma PushKeeps<T>(items: seq<T>, dom: T -> string, out: seq<T>, byDomain: map<string, seq<T>>,
                     ks: seq<string>, domains: seq<string>, cap: nat, d: string)
    requires Accounted(items, dom, out, byDomain, ks, cap) && Retired(items, dom, out, ks, domains, cap)
    requires d in domains && |Filter(out, dom, d)| < cap && byDomain[d] != []
    ensures Accounted(items, dom, out + [byDomain[d][0]], byDomain[d := byDomain[d][1..]], ks, cap)
    ensures Retired(items, dom, out + [byDomain[d][0]], ks, domains, cap)
  {
    var x := byDomain[d][0];
    var out', q := out + [x], byDomain[d := byDomain[d][1..]];
    PushStep(items, dom, out, byDomain, d);
    assert forall e :: e in q <==> e in ks;
    forall e ensures |Filter(out', dom, e)| <= cap {
      if e != d {
        assert Filter(out', dom, e) == Filter(out, dom, e);
      }
    }
    forall e | e !in q ensures Filter(out', dom, e) == [] {
      assert Filter(out', dom, e) == Filter(out, dom, e);
    }
    forall y | y in out' ensures dom(y) in q {
      assert y in out || y == x;
    }
    assert Accounted(items, dom, out', q, ks, cap);
    forall e | e in ks && e !in domains
      ensures |Filter(out', dom, e)| == Min(|Filter(items, dom, e)|, cap)
    {
      assert Filter(out', dom, e) == Filter(out, dom, e);
    }
  }

  lemma RetireKeeps<T>(items: seq<T>, dom: T -> string, out: seq<T>, byDomain: map<string, seq<T>>,
                       ks: seq<string>, domains: seq<string>, maxPerDomain: int, idx: nat)
    requires Accounted(items, dom, out, byDomain, ks, NonNeg(maxPerDomain))
    requires Retired(items, dom, out, ks, domains, NonNeg(maxPerDomain))
    requires idx < |domains|
    requires |Filter(out, dom, domains[idx])| >= maxPerDomain || byDomain[domains[idx]] == []
    ensures Retired(items, dom, out, ks, domains[..idx] + domains[idx + 1..], NonNeg(maxPerDomain))
  {
    var d := domains[idx];
    RemoveAt(domains, idx);
    assert |Filter(items, dom, d)| == |Filter(out, dom, d)| + |byDomain[d]|;
  }

  /** Both ways out of the loop (total cap reached, or no domain left in
      play) establish the algorithm's contract. */
  lemma CapCloses<T>(items: seq<T>, dom: T -> string, out: seq<T>, byDomain: map<string, seq<T>>,
                     domains: seq<string>, i: nat, maxTotal: int, maxPerDomain: int)
    requires Accounted(items, dom, out, byDomain, Domains(items, dom), NonNeg(maxPerDomain))
    requires Retired(items, dom, out, Domains(items, dom), domains, NonNeg(maxPerDomain))
    requires |out| <= NonNeg(maxTotal) && (|out| >= maxTotal || domains == [])
    requires FirstPass(items, dom, out, domains, i, maxPerDomain)
    ensures |out| == Min(NonNeg(maxTotal), SumCapped(Domains(items, dom), items, dom, NonNeg(maxPerDomain)))
    ensures forall d :: Filter(out, dom, d) <= Filter(items, dom, d)
    ensures multiset(out) <= multiset(items)
    ensures maxPerDomain >= 1 ==>
      var m := Min(NonNeg(maxTotal), |Domains(items, dom)|);
      m <= |out| && out[..m] == FirstSeen(items, dom)[..m]
  {
    var ks, fs := Domains(items, dom), FirstSeen(items, dom);
    var cap, total := NonNeg(maxPerDomain), NonNeg(maxTotal);
    forall d | d in ks ensures |Filter(out, dom, d)| <= Min(|Filter(items, dom, d)|, cap) {
      assert |Filter(items, dom, d)| == |Filter(out, dom, d)| + |byDomain[d]|;
    }
    FinalCount(ks, out, items, dom, cap, total, domains == []);
    forall d ensures Filter(out, dom, d) <= Filter(items, dom, d) {
      if d in byDomain {
        assert Filter(items, dom, d) == Filter(out, dom, d) + byDomain[d];
      }
    }
    FilterPrefixesMultiset(out, items, dom);
    if maxPerDomain >= 1 {
      var m := Min(total, |ks|);
      if |out| < |ks| {
        PrefixOfPrefix(fs, |out|, m);
      } else {
        PrefixOfPrefix(out, |ks|, m);
      }
    }
  }

  /** CapCloses, together with the uncapped case. */
  lemma CapFinish<T>(items: seq<T>, dom: T -> string, out: seq<T>, byDomain: map<string, seq<T>>,
                     domains: seq<string>, i: nat, maxTotal: int, maxPerDomain: int)
    requires Accounted(items, dom, out, byDomain, Domains(items, dom), NonNeg(maxPerDomain))
    requires Retired(items, dom, out, Domains(items, dom), domains, NonNeg(maxPerDomain))
    requires |out| <= NonNeg(maxTotal) && (|out| >= maxTotal || domains == [])
    requires FirstPass(items, dom, out, domains, i, maxPerDomain)
    ensures |out| == Min(NonNeg(maxTotal), SumCapped(Domains(items, dom), items, dom, NonNeg(maxPerDomain)))
    ensures forall d :: Filter(out, dom, d) <= Filter(items, dom, d)
    ensures multiset(out) <= multiset(items)
    ensures maxPerDomain >= 1 ==>
      var m := Min(NonNeg(maxTotal), |Domains(items, dom)|);
      m <= |out| && out[..m] == FirstSeen(items, dom)[..m]
    ensures maxTotal >= |items| && maxPerDomain >= |items| ==> multiset(out) == multiset(items)
  {
    CapCloses(items, dom, out, byDomain, domains, i, maxTotal, maxPerDomain);
    if maxTotal >= |items| && maxPerDomain >= |items| {
      SelectionKeepsAllWhenUncapped(items, out, dom, maxTotal, maxPerDomain);
    }
  }

  /** The first pass: until every domain has been visited once, nothing has
      been retired, the rotating index equals the output length and the output
      is the domains' first-seen items; afterwards those items stay in front. */
  ghost predicate FirstPass<T>(items: seq<T>, dom: T -> string, out: seq<T>,
                               domains: seq<string>, i: nat, maxPerDomain: int)
  {
    maxPerDomain >= 1 ==>
      if |out| < |Domains(items, dom)| then
        domains == Domains(items, dom) && i == |out| && out == FirstSeen(items, dom)[..|out|]
      else
        out[..|Domains(items, dom)|] == FirstSeen(items, dom)
  }

  /** During the first pass the rotating index lands on an untouched domain,
      so nothing is retired. */
  lemma FirstPassNoRetire<T>(items: seq<T>, dom: T -> string, out: seq<T>, byDomain: map<string, seq<T>>,
                             domains: seq<string>, i: nat, maxPerDomain: int)
    requires Accounted(items, dom, out, byDomain, Domains(items, dom), NonNeg(maxPerDomain))
    requires FirstPass(items, dom, out, domains, i, maxPerDomain)
    requires |domains| > 0
    requires maxPerDomain >= 1 && |out| < |Domains(items, dom)|
    ensures |Filter(out, dom, domains[i % |domains|])| < maxPerDomain
    ensures byDomain[domains[i % |domains|]] != []
    ensures byDomain[domains[i % |domains|]][0] == FirstSeen(items, dom)[|out|]
  {
    ModSmall(i, |domains|);
    FreshDomain(items, dom, out, byDomain);
  }

  lemma FirstPassRetire<T>(items: seq<T>, dom: T -> string, out: seq<T>, byDomain: map<string, seq<T>>,
                           domains: seq<string>, i: nat, maxPerDomain: int)
    requires Accounted(items, dom, out, byDomain, Domains(items, dom), NonNeg(maxPerDomain))
    requires FirstPass(items, dom, out, domains, i, maxPerDomain)
    requires |domains| > 0 && domains[i % |domains|] in byDomain
    requires |Filter(out, dom, domains[i % |domains|])| >= maxPerDomain || byDomain[domains[i % |domains|]] == []
    ensures !(maxPerDomain >= 1 && |out| < |Domains(items, dom)|)
    ensures forall ds :: FirstPass(items, dom, out, ds, i, maxPerDomain)
  {
    if maxPerDomain >= 1 && |out| < |Domains(items, dom)| {
      FirstPassNoRetire(items, dom, out, byDomain, domains, i, maxPerDomain);
    }
  }

  lemma FirstPassPush<T>(items: seq<T>, dom: T -> string, out: seq<T>, byDomain: map<string, seq<T>>,
                         domains: seq<string>, i: nat, maxPerDomain: int)
    requires Accounted(items, dom, out, byDomain, Domains(items, dom), NonNeg(maxPerDomain))
    requires FirstPass(items, dom, out, domains, i, maxPerDomain)
    requires |domains| > 0 && domains[i % |domains|] in byDomain && byDomain[domains[i % |domains|]] != []
    ensures FirstPass(items, dom, out + [byDomain[domains[i % |domains|]][0]], domains, i + 1, maxPerDomain)
  {
    var x := byDomain[domains[i % |domains|]][0];
    var ks, fs := Domains(items, dom), FirstSeen(items, dom);
    if maxPerDomain >= 1 {
      if |out| < |ks| {
        FirstPassNoRetire(items, dom, out, byDomain, domains, i, maxPerDomain);
        PrefixExtend(fs, out, x);
      } else {
        AppendKeepsPrefix(out, x, |ks|);
      }
    }
  }

  method CapEvidenceByDomain<T(==)>(items: seq<T>, dom: T -> string, maxTotal: int, maxPerDomain: int)
    returns (out: seq<T>)
    ensures |out| <= NonNeg(maxTotal)
    ensures |out| == Min(NonNeg(maxTotal), SumCapped(Domains(items, dom), items, dom, NonNeg(maxPerDomain)))
    ensures forall d :: |Filter(out, dom, d)| <= NonNeg(maxPerDomain)
    ensures forall d :: Filter(out, dom, d) <= Filter(items, dom, d)
    ensures multiset(out) <= multiset(items)
    ensures maxPerDomain >= 1 ==>
      var m := Min(NonNeg(maxTotal), |Domains(items, dom)|);
      m <= |out| && out[..m] == FirstSeen(items, dom)[..m]
    ensures maxTotal >= |items| && maxPerDomain >= |items| ==> multiset(out) == multiset(items)
  {
    var cap, total := NonNeg(maxPerDomain), NonNeg(maxTotal);
    ghost var ks := Domains(items, dom);

    var byDomain, keys := GroupByDomain(items, dom);
    var domains := keys;
    out := [];
    var i := 0;
    while |out| < maxTotal && |domains| > 0
      invariant Accounted(items, dom, out, byDomain, ks, cap)
      invariant Retired(items, dom, out, ks, domains, cap)
      invariant |out| <= total
      invariant FirstPass(items, dom, out, domains, i, maxPerDomain)
      decreases total - |out|, |domains|
    {
      var idx := i % |domains|;
      var d := domains[idx];
      var arr := byDomain[d];
      var usedForDomain := |Filter(out, dom, d)|;
      if usedForDomain >= maxPerDomain || |arr| == 0 {
        RetireKeeps(items, dom, out, byDomain, ks, domains, maxPerDomain, idx);
        FirstPassRetire(items, dom, out, byDomain, domains, i, maxPerDomain);
        domains := domains[..idx] + domains[idx + 1..];
        if |domains| == 0 {
          break;
        }
        continue;
      }
      var x := arr[0];
      PushKeeps(items, dom, out, byDomain, ks, domains, cap, d);
      FirstPassPush(items, dom, out, byDomain, domains, i, maxPerDomain);
      out := out + [x];
      byDomain := byDomain[d := arr[1..]];
      i := i + 1;
    }

    CapFinish(items, dom, out, byDomain, domains, i, maxTotal, maxPerDomain);
  }
}
