/** `runResearchPipeline` (src/research/research.pipeline.ts) and the helpers
    it runs: `truncate`, the mode plan, the evidence-normalisation loop, the
    call-validate-repair flow around the language model, and the prompt
    input it builds. The search provider, the URL parser, the language model
    and the JSON/schema validator are parameters. */
module ResearchPipeline {
  import opened Wrappers
  import Text
  import EvidenceCap
  import PromptBuilder
  import ResultBundle

  // ---------------------------------------------------------------------
  // truncate

  const Ellipsis: char := '\U{2026}'

  /** `(s ?? "").replace(/\s+/g, " ").trim()`: the words of the text (its
      maximal runs of non-whitespace) joined by single spaces, so whitespace
      runs between words become single spaces and both ends lose their
      whitespace; the visible characters are those of the input. */
  function Clean(s: Option<string>): (r: string)
    ensures r == Text.Join(" ", Text.Words(s.GetOr("")))
    ensures Text.NoDoubleWhitespace(r) && Text.OnlySpaces(r) && Text.Trimmed(r)
    ensures Text.Visible(r) == Text.Visible(s.GetOr(""))
  {
    var text := s.GetOr("");
    var c := Text.CollapseWhitespace(text);
    Text.CollapseIsJoinOfWords(text);
    Text.CollapseShape(text);
    Text.CollapseKeepsVisible(text);
    Text.TrimKeepsNoDouble(c);
    Text.TrimKeepsOnlySpaces(c);
    Text.TrimIsInfix(c);
    Text.TrimKeepsVisible(c);
    Text.Trim(c)
  }

  /** `truncate(s, max)`: the cleaned text when it fits, otherwise its first
      `max` characters and an ellipsis. */
  function Truncate(s: Option<string>, max: nat): (r: string)
    ensures |r| <= max + 1
    ensures Text.NoDoubleWhitespace(r) && Text.OnlySpaces(r) && Text.Trimmed(r)
    ensures s.None? ==> r == ""
    ensures |Clean(s)| <= max ==> r == Clean(s)
    ensures |Clean(s)| > max ==> |r| == max + 1 && r[..max] == Clean(s)[..max] && r[max] == Ellipsis
  {
    var clean := Clean(s);
    if |clean| > max then
      CutShape(clean, max);
      clean[..max] + [Ellipsis]
    else
      clean
  }

  lemma CutShape(clean: string, max: nat)
    requires Text.NoDoubleWhitespace(clean) && Text.OnlySpaces(clean) && Text.Trimmed(clean)
    requires |clean| > max
    ensures var r := clean[..max] + [Ellipsis];
      Text.NoDoubleWhitespace(r) && Text.OnlySpaces(r) && Text.Trimmed(r)
  {
    var t := clean[..max];
    Text.InfixKeepsNoDouble(clean, 0, max);
    Text.InfixKeepsOnlySpaces(clean, 0, max);
    var r := t + [Ellipsis];
    assert forall k :: 0 <= k < max ==> r[k] == t[k];
    assert r[0] == if max == 0 then Ellipsis else clean[0];
  }

  /** Text that is already clean and fits is returned as it is. */
  lemma TruncateOfClean(t: string, max: nat)
    requires Text.NoDoubleWhitespace(t) && Text.OnlySpaces(t) && Text.Trimmed(t) && |t| <= max
    ensures Truncate(Some(t), max) == t
  {
    Text.CollapseOfCollapsed(t);
    Text.TrimOfTrimmed(t);
  }

  /** Truncating the result again, with room for the ellipsis, changes nothing. */
  lemma TruncateIdempotent(s: Option<string>, max: nat)
    ensures Truncate(Some(Truncate(s, max)), max + 1) == Truncate(s, max)
  {
    TruncateOfClean(Truncate(s, max), max + 1);
  }

  // ---------------------------------------------------------------------
  // The mode plan

  type Mode = PromptBuilder.Mode

  datatype SearchDepth = Basic | Advanced

  datatype SearchRequest = SearchRequest(query: string, maxResults: nat, searchDepth: SearchDepth)

  /** A sampling temperature in hundredths: `Hundredths(15)` is 0.15. */
  datatype Temperature = Hundredths(n: nat)

  datatype Plan = Plan(maxResultsPerQuery: nat, searchDepth: SearchDepth)

  function PlanFor(mode: Mode): Plan {
    if mode == PromptBuilder.Deep then Plan(6, Advanced) else Plan(5, Basic)
  }

  /** The search queries: one for quick mode, two for deep mode, each the
      trimmed prompt, a party-decor phrase and the market. */
  function Queries(mode: Mode, prompt: string, market: string): (qs: seq<string>)
    ensures |qs| == (if mode == PromptBuilder.Deep then 2 else 1)
  {
    var base := Text.Trim(prompt);
    if mode == PromptBuilder.Deep then
      [base + DeepTrendsPhrase + market, base + DeepSellersPhrase + market]
    else
      [base + QuickPhrase + market]
  }

  const QuickPhrase: string := " party decorations trends "
  const DeepTrendsPhrase: string := " party decorations trends themes 2026 "
  const DeepSellersPhrase: string := " party decor best sellers Etsy keywords "

  /** One request per query, in query order, with the mode's result count and depth. */
  function SearchRequests(mode: Mode, prompt: string, market: string): (rs: seq<SearchRequest>)
    ensures |rs| == |Queries(mode, prompt, market)|
    ensures forall k :: 0 <= k < |rs| ==>
      rs[k].query == Queries(mode, prompt, market)[k] &&
      rs[k].maxResults == PlanFor(mode).maxResultsPerQuery && rs[k].searchDepth == PlanFor(mode).searchDepth
  {
    var qs, plan := Queries(mode, prompt, market), PlanFor(mode);
    seq(|qs|, k requires 0 <= k < |qs| => SearchRequest(qs[k], plan.maxResultsPerQuery, plan.searchDepth))
  }

  function EvidenceCapFor(mode: Mode): nat {
    if mode == PromptBuilder.Deep then 25 else 10
  }

  const MaxPerDomain: nat := 3

  function BaseTemperature(mode: Mode): Temperature {
    if mode == PromptBuilder.Deep then Hundredths(15) else Hundredths(20)
  }

  const RepairTemperature: Temperature := Hundredths(0)

  const DefaultLanguage: string := "en"

  /** Every query starts with the trimmed prompt and ends with the market. */
  lemma QueriesFrame(mode: Mode, prompt: string, market: string)
    ensures forall q :: q in Queries(mode, prompt, market) ==> Text.Trim(prompt) <= q && Text.EndsWith(q, market)
  {
    var phrases := if mode == PromptBuilder.Deep then [DeepTrendsPhrase, DeepSellersPhrase] else [QuickPhrase];
    Framed(Text.Trim(prompt), phrases, market, Queries(mode, prompt, market));
  }

  lemma Framed(base: string, phrases: seq<string>, market: string, qs: seq<string>)
    requires |qs| == |phrases| && forall k :: 0 <= k < |qs| ==> qs[k] == base + phrases[k] + market
    ensures forall q :: q in qs ==> base <= q && Text.EndsWith(q, market)
  {
    forall q | q in qs ensures base <= q && Text.EndsWith(q, market) {
      var k :| 0 <= k < |qs| && qs[k] == q;
      assert q[..|base|] == base;
      assert q[|q| - |market|..] == market;
    }
  }

  /** Quick mode: one query, five basic-depth results, ten evidence items, 0.2. */
  lemma QuickPlan(prompt: string, market: string)
    ensures Queries(PromptBuilder.Quick, prompt, market) == [Text.Trim(prompt) + " party decorations trends " + market]
    ensures PlanFor(PromptBuilder.Quick) == Plan(5, Basic)
    ensures SearchRequests(PromptBuilder.Quick, prompt, market) ==
      [SearchRequest(Text.Trim(prompt) + " party decorations trends " + market, 5, Basic)]
    ensures EvidenceCapFor(PromptBuilder.Quick) == 10 && MaxPerDomain == 3
    ensures BaseTemperature(PromptBuilder.Quick) == Hundredths(20)
  {
  }

  /** Deep mode: two queries, six advanced-depth results, 25 evidence items, 0.15. */
  lemma DeepPlan(prompt: string, market: string)
    ensures Queries(PromptBuilder.Deep, prompt, market) ==
      [Text.Trim(prompt) + " party decorations trends themes 2026 " + market,
       Text.Trim(prompt) + " party decor best sellers Etsy keywords " + market]
    ensures PlanFor(PromptBuilder.Deep) == Plan(6, Advanced)
    ensures SearchRequests(PromptBuilder.Deep, prompt, market) ==
      [SearchRequest(Text.Trim(prompt) + " party decorations trends themes 2026 " + market, 6, Advanced),
       SearchRequest(Text.Trim(prompt) + " party decor best sellers Etsy keywords " + market, 6, Advanced)]
    ensures EvidenceCapFor(PromptBuilder.Deep) == 25 && MaxPerDomain == 3
    ensures BaseTemperature(PromptBuilder.Deep) == Hundredths(15)
  {
    var qs := Queries(PromptBuilder.Deep, prompt, market);
    RequestsPair(SearchRequests(PromptBuilder.Deep, prompt, market), qs, 6, Advanced);
  }

  /** Two requests that carry two queries in order, with one count and depth. */
  lemma RequestsPair(rs: seq<SearchRequest>, qs: seq<string>, n: nat, depth: SearchDepth)
    requires |rs| == |qs| == 2
    requires forall k :: 0 <= k < 2 ==> rs[k].query == qs[k] && rs[k].maxResults == n && rs[k].searchDepth == depth
    ensures rs == [SearchRequest(qs[0], n, depth), SearchRequest(qs[1], n, depth)]
  {
  }

  // ---------------------------------------------------------------------
  // Evidence normalisation

  /** A search result; `publishedDate` is the provider's `published_date`. */
  datatype SearchResult = SearchResult(url: string, title: Option<string>, content: Option<string>, publishedDate: Option<string>)

  datatype EvidenceItem = EvidenceItem(
    url: string,
    title: string,
    snippet: string,
    publishedAt: Option<string>,
    capturedAt: string,
    domain: string,
    query: string)

  const TitleMax: nat := 140
  const SnippetMax: nat := 500

  function Domain(e: EvidenceItem): string {
    e.domain
  }

  /** One result as evidence for query `q`. `parseHost` is `new URL(url).hostname`;
      `None` stands for the constructor throwing, which drops the result. */
  function ToEvidence(r: SearchResult, q: string, nowIso: string, parseHost: string -> Option<string>): (e: Option<EvidenceItem>)
    ensures e.Some? <==> parseHost(r.url).Some?
  {
    match parseHost(r.url)
    case None => None
    case Some(host) => Some(MakeItem(r, q, nowIso, host))
  }

  /** The item pushed for a result whose address has host `host`. */
  function MakeItem(r: SearchResult, q: string, nowIso: string, host: string): EvidenceItem {
    EvidenceItem(r.url, Truncate(Some(r.title.GetOr(host)), TitleMax),
                 Truncate(Some(r.content.GetOr("")), SnippetMax), r.publishedDate, nowIso, host, q)
  }

  /** The item keeps the result's address, date and query, takes its domain
      from the host, the title from the result's title or else the host, and
      the snippet from its content, each cleaned and cut to 140 and 500
      characters plus an ellipsis. */
  lemma ItemFields(r: SearchResult, q: string, nowIso: string, host: string)
    ensures var e := MakeItem(r, q, nowIso, host);
      e.url == r.url && e.domain == host && e.query == q && e.capturedAt == nowIso &&
      e.publishedAt == r.publishedDate &&
      e.title == Truncate(Some(if r.title.Some? then r.title.value else host), TitleMax) &&
      e.snippet == Truncate(Some(if r.content.Some? then r.content.value else ""), SnippetMax) &&
      |e.title| <= TitleMax + 1 && |e.snippet| <= SnippetMax + 1
  {
  }

  /** The values of the `Some` entries, in order. */
  function Somes<T>(xs: seq<Option<T>>): (r: seq<T>)
    ensures |r| <= |xs|
  {
    if xs == [] then [] else Somes(xs[..|xs| - 1]) + (match xs[|xs| - 1] case Some(v) => [v] case None => [])
  }

  /** The sequences one after the other. */
  function Concat<T>(xss: seq<seq<T>>): seq<T> {
    if xss == [] then [] else Concat(xss[..|xss| - 1]) + xss[|xss| - 1]
  }

  /** The attempt to turn each result into evidence, result by result. */
  function Attempts(q: string, rs: seq<SearchResult>, nowIso: string, parseHost: string -> Option<string>): (r: seq<Option<EvidenceItem>>)
    ensures |r| == |rs| && forall k :: 0 <= k < |rs| ==> r[k] == ToEvidence(rs[k], q, nowIso, parseHost)
  {
    seq(|rs|, k requires 0 <= k < |rs| => ToEvidence(rs[k], q, nowIso, parseHost))
  }

  /** The evidence one query's results contribute, in result order. */
  function NormalizeQuery(q: string, rs: seq<SearchResult>, nowIso: string, parseHost: string -> Option<string>): seq<EvidenceItem> {
    Somes(Attempts(q, rs, nowIso, parseHost))
  }

  /** `allResults[i] ?? []`. */
  function ResultsAt(allResults: seq<seq<SearchResult>>, i: nat): seq<SearchResult> {
    if i < |allResults| then allResults[i] else []
  }

  function PerQuery(queries: seq<string>, allResults: seq<seq<SearchResult>>, nowIso: string,
                    parseHost: string -> Option<string>): (r: seq<seq<EvidenceItem>>)
    ensures |r| == |queries| &&
      forall i :: 0 <= i < |queries| ==> r[i] == NormalizeQuery(queries[i], ResultsAt(allResults, i), nowIso, parseHost)
  {
    seq(|queries|, i requires 0 <= i < |queries| => NormalizeQuery(queries[i], ResultsAt(allResults, i), nowIso, parseHost))
  }

  /** The evidence of all queries, query by query. */
  function NormalizeAll(queries: seq<string>, allResults: seq<seq<SearchResult>>, nowIso: string,
                        parseHost: string -> Option<string>): seq<EvidenceItem> {
    Concat(PerQuery(queries, allResults, nowIso, parseHost))
  }

  /** The number of results the first `n` queries returned. */
  function TotalResults(allResults: seq<seq<SearchResult>>, n: nat): nat {
    if n == 0 then 0 else TotalResults(allResults, n - 1) + |ResultsAt(allResults, n - 1)|
  }

  /** The number of results whose address parses. */
  function CountParsed(rs: seq<SearchResult>, parseHost: string -> Option<string>): nat {
    if rs == [] then 0
    else CountParsed(rs[..|rs| - 1], parseHost) + (if parseHost(rs[|rs| - 1].url).Some? then 1 else 0)
  }

  /** The nested loop over queries and their results (lines 141-160). */
  method CollectEvidence(queries: seq<string>, allResults: seq<seq<SearchResult>>, nowIso: string,
                         parseHost: string -> Option<string>) returns (evidence: seq<EvidenceItem>)
    ensures evidence == NormalizeAll(queries, allResults, nowIso, parseHost)
  {
    ghost var perQuery := PerQuery(queries, allResults, nowIso, parseHost);
    evidence := [];
    for i := 0 to |queries|
      invariant evidence == Concat(perQuery[..i])
    {
      var q := queries[i];
      var rs := ResultsAt(allResults, i);
      ghost var attempts := Attempts(q, rs, nowIso, parseHost);
      ghost var before := evidence;
      for j := 0 to |rs|
        invariant evidence == before + Somes(attempts[..j])
      {
        var r := rs[j];
        ghost var prev := evidence;
        var host := parseHost(r.url);
        if host.Some? {
          evidence := evidence + [MakeItem(r, q, nowIso, host.value)];
        }
        SomesStep(before, attempts, j, prev, evidence);
      }
      assert attempts[..|rs|] == attempts;
      ConcatStep(perQuery, i);
    }
    assert perQuery[..|queries|] == perQuery;
  }

  /** One more attempt in the inner loop. */
  lemma SomesStep<T>(before: seq<T>, xs: seq<Option<T>>, j: nat, prev: seq<T>, next: seq<T>)
    requires j < |xs| && prev == before + Somes(xs[..j])
    requires next == prev + (match xs[j] case Some(v) => [v] case None => [])
    ensures next == before + Somes(xs[..j + 1])
  {
    assert xs[..j + 1][..j] == xs[..j];
  }

  lemma ConcatStep<T>(xss: seq<seq<T>>, i: nat)
    requires i < |xss|
    ensures Concat(xss[..i + 1]) == Concat(xss[..i]) + xss[i]
  {
    assert xss[..i + 1][..i] == xss[..i];
  }

  lemma {:induction false} SomesAppend<T>(a: seq<Option<T>>, b: seq<Option<T>>)
    ensures Somes(a + b) == Somes(a) + Somes(b)
    decreases |b|
  {
    if b == [] {
      assert a + b == a;
    } else {
      var n := |b| - 1;
      SomesAppend(a, b[..n]);
      assert (a + b)[..|a + b| - 1] == a + b[..n];
    }
  }

  lemma {:induction false} SomesAllSome<T>(xs: seq<Option<T>>)
    requires forall k :: 0 <= k < |xs| ==> xs[k].Some?
    ensures |Somes(xs)| == |xs| && forall k :: 0 <= k < |xs| ==> Somes(xs)[k] == xs[k].value
  {
    if xs != [] {
      SomesAllSome(xs[..|xs| - 1]);
    }
  }

  lemma {:induction false} SomesMembers<T>(xs: seq<Option<T>>)
    ensures forall v :: v in Somes(xs) ==> Some(v) in xs
  {
    if xs != [] {
      var n := |xs| - 1;
      SomesMembers(xs[..n]);
      assert forall v :: Some(v) in xs[..n] ==> Some(v) in xs;
    }
  }

  lemma {:induction false} ConcatPrefix<T>(xss: seq<seq<T>>, i: nat)
    requires i <= |xss|
    ensures Concat(xss[..i]) <= Concat(xss)
    decreases |xss|
  {
    if i < |xss| {
      var n := |xss| - 1;
      ConcatPrefix(xss[..n], i);
      assert xss[..n][..i] == xss[..i];
    } else {
      assert xss[..i] == xss;
    }
  }

  lemma {:induction false} ConcatMembers<T>(xss: seq<seq<T>>)
    ensures forall x :: x in Concat(xss) ==> exists i :: 0 <= i < |xss| && x in xss[i]
  {
    if xss != [] {
      var n := |xss| - 1;
      ConcatMembers(xss[..n]);
      forall x | x in Concat(xss) ensures exists i :: 0 <= i < |xss| && x in xss[i] {
        if x in Concat(xss[..n]) {
          var i :| 0 <= i < n && x in xss[..n][i];
          assert x in xss[i];
        } else {
          assert x in xss[n];
        }
      }
    }
  }

  /** Results keep their order: the evidence of `a + b` is that of `a`, then that of `b`. */
  lemma NormalizeQueryAppend(q: string, a: seq<SearchResult>, b: seq<SearchResult>, nowIso: string,
                             parseHost: string -> Option<string>)
    ensures NormalizeQuery(q, a + b, nowIso, parseHost) ==
            NormalizeQuery(q, a, nowIso, parseHost) + NormalizeQuery(q, b, nowIso, parseHost)
  {
    var xa, xb := Attempts(q, a, nowIso, parseHost), Attempts(q, b, nowIso, parseHost);
    var xs := Attempts(q, a + b, nowIso, parseHost);
    forall k | 0 <= k < |xs| ensures xs[k] == (xa + xb)[k] {
      if k < |a| {
        assert (a + b)[k] == a[k];
      } else {
        assert (a + b)[k] == b[k - |a|];
      }
    }
    assert xs == xa + xb;
    SomesAppend(xa, xb);
  }

  /** A result with an address that does not parse is dropped; every other
      result gives exactly one item. */
  lemma {:induction false} NormalizeQueryCount(q: string, rs: seq<SearchResult>, nowIso: string,
                                               parseHost: string -> Option<string>)
    ensures |NormalizeQuery(q, rs, nowIso, parseHost)| == CountParsed(rs, parseHost)
  {
    if rs != [] {
      var n := |rs| - 1;
      NormalizeQueryCount(q, rs[..n], nowIso, parseHost);
      assert Attempts(q, rs, nowIso, parseHost)[..n] == Attempts(q, rs[..n], nowIso, parseHost);
    }
  }

  /** When every address parses, result `k` becomes item `k`. */
  lemma NormalizeQueryAllParsed(q: string, rs: seq<SearchResult>, nowIso: string,
                                parseHost: string -> Option<string>)
    requires forall k :: 0 <= k < |rs| ==> parseHost(rs[k].url).Some?
    ensures var es := NormalizeQuery(q, rs, nowIso, parseHost);
      |es| == |rs| && forall k :: 0 <= k < |rs| ==> es[k] == MakeItem(rs[k], q, nowIso, parseHost(rs[k].url).value)
  {
    SomesAllSome(Attempts(q, rs, nowIso, parseHost));
  }

  /** Every item is the item made from one of the query's results whose
      address parses. */
  lemma NormalizeQueryOrigin(q: string, rs: seq<SearchResult>, nowIso: string,
                             parseHost: string -> Option<string>)
    ensures forall e :: e in NormalizeQuery(q, rs, nowIso, parseHost) ==>
      exists r :: r in rs && parseHost(r.url).Some? && e == MakeItem(r, q, nowIso, parseHost(r.url).value)
  {
    var xs := Attempts(q, rs, nowIso, parseHost);
    SomesMembers(xs);
    forall e | e in NormalizeQuery(q, rs, nowIso, parseHost)
      ensures exists r :: r in rs && parseHost(r.url).Some? && e == MakeItem(r, q, nowIso, parseHost(r.url).value)
    {
      var k :| 0 <= k < |xs| && xs[k] == Some(e);
      assert rs[k] in rs;
    }
  }

  /** Query order: the evidence of the first `i` queries comes first. */
  lemma NormalizeAllPrefix(queries: seq<string>, allResults: seq<seq<SearchResult>>, nowIso: string,
                           parseHost: string -> Option<string>, i: nat)
    requires i <= |queries|
    ensures NormalizeAll(queries[..i], allResults, nowIso, parseHost) <= NormalizeAll(queries, allResults, nowIso, parseHost)
  {
    var ps := PerQuery(queries, allResults, nowIso, parseHost);
    assert PerQuery(queries[..i], allResults, nowIso, parseHost) == ps[..i];
    ConcatPrefix(ps, i);
  }

  /** Never more items than results. */
  lemma {:induction false} NormalizeAllBound(queries: seq<string>, allResults: seq<seq<SearchResult>>, nowIso: string,
                                             parseHost: string -> Option<string>)
    ensures |NormalizeAll(queries, allResults, nowIso, parseHost)| <= TotalResults(allResults, |queries|)
  {
    if queries != [] {
      var n := |queries| - 1;
      NormalizeAllBound(queries[..n], allResults, nowIso, parseHost);
      var ps := PerQuery(queries, allResults, nowIso, parseHost);
      assert PerQuery(queries[..n], allResults, nowIso, parseHost) == ps[..n];
      assert |ps[n]| <= |ResultsAt(allResults, n)|;
    }
  }

  /** Every item names the query it came from. */
  lemma NormalizeAllQueries(queries: seq<string>, allResults: seq<seq<SearchResult>>, nowIso: string,
                            parseHost: string -> Option<string>)
    ensures forall e :: e in NormalizeAll(queries, allResults, nowIso, parseHost) ==> e.query in queries
  {
    var ps := PerQuery(queries, allResults, nowIso, parseHost);
    ConcatMembers(ps);
    forall e | e in NormalizeAll(queries, allResults, nowIso, parseHost) ensures e.query in queries {
      var i :| 0 <= i < |ps| && e in ps[i];
      NormalizeQueryOrigin(queries[i], ResultsAt(allResults, i), nowIso, parseHost);
    }
  }

  // ---------------------------------------------------------------------
  // The model call and its one repair

  const RepairSuffix: string :=
    "\n\nIMPORTANT: Your previous output was invalid. Return ONLY valid JSON matching the exact schema. Do not include any extra text."

  datatype LlmCall = LlmCall(prompt: string, temperature: Temperature)

  /** The calls made, in order, and what the flow returns or rejects with. */
  datatype Generation<Row> = Generation(calls: seq<LlmCall>, outcome: Result<ResultBundle.ResearchOutput<Row>, string>)

  /** `callLLMJson`: the model's text with the whitespace at both ends
      removed and nothing else; a failed call rejects with its error. */
  function CallLlmJson(llm: LlmCall -> Result<string, string>, call: LlmCall): (r: Result<string, string>)
    ensures r.Ok? <==> llm(call).Ok?
    ensures r.Err? ==> r.error == llm(call).error
    ensures r.Ok? ==> Text.Trimmed(r.value)
    ensures r.Ok? ==>
      exists i, j :: 0 <= i <= j <= |llm(call).value| && r.value == llm(call).value[i..j] &&
                     Text.AllWhitespace(llm(call).value[..i]) && Text.AllWhitespace(llm(call).value[j..])
  {
    match llm(call)
    case Ok(text) =>
      Text.TrimIsInfix(text);
      Ok(Text.Trim(text))
    case Err(e) => Err(e)
  }

  /** A reply with no whitespace at either end is passed on unchanged. */
  lemma CallLlmJsonKeepsTrimmed(llm: LlmCall -> Result<string, string>, call: LlmCall)
    requires llm(call).Ok? && Text.Trimmed(llm(call).value)
    ensures CallLlmJson(llm, call) == llm(call)
  {
    Text.TrimOfTrimmed(llm(call).value);
  }

  /** Lines 189-220. `tryParse` is `JSON.parse` followed by the schema check;
      `None` is either failing. */
  function GenerateWithRepair<Row>(prompt: string, baseTemp: Temperature, llm: LlmCall -> Result<string, string>,
                                   tryParse: string -> Option<ResultBundle.ResearchOutput<Row>>): (g: Generation<Row>)
    ensures 1 <= |g.calls| <= 2 && g.calls[0] == LlmCall(prompt, baseTemp)
    ensures |g.calls| == 2 <==>
      CallLlmJson(llm, g.calls[0]).Ok? && tryParse(CallLlmJson(llm, g.calls[0]).value).None?
    ensures |g.calls| == 2 ==>
      g.calls[1] == LlmCall(prompt + RepairSuffix, RepairTemperature) && prompt < g.calls[1].prompt
  {
    var first := LlmCall(prompt, baseTemp);
    match CallLlmJson(llm, first)
    case Err(e) => Generation([first], Err(e))
    case Ok(raw1) =>
      match tryParse(raw1)
      case Some(out) => Generation([first], Ok(out))
      case None =>
        var second := LlmCall(prompt + RepairSuffix, RepairTemperature);
        match CallLlmJson(llm, second)
        case Err(e) => Generation([first, second], Err(e))
        case Ok(raw2) =>
          match tryParse(raw2)
          case Some(out) => Generation([first, second], Ok(out))
          case None => Generation([first, second], Ok(ResultBundle.EmptyOutput()))
  }

  /** A valid first output is returned unchanged, after one call. */
  lemma FirstValidReturned<Row>(prompt: string, baseTemp: Temperature, llm: LlmCall -> Result<string, string>,
                                tryParse: string -> Option<ResultBundle.ResearchOutput<Row>>, out: ResultBundle.ResearchOutput<Row>)
    requires CallLlmJson(llm, LlmCall(prompt, baseTemp)).Ok?
    requires tryParse(CallLlmJson(llm, LlmCall(prompt, baseTemp)).value) == Some(out)
    ensures GenerateWithRepair(prompt, baseTemp, llm, tryParse) == Generation([LlmCall(prompt, baseTemp)], Ok(out))
  {
  }

  /** Invalid output never makes the flow reject: a rejection is always the
      failure of its last model call. */
  lemma RejectsOnlyOnFailedCall<Row>(prompt: string, baseTemp: Temperature, llm: LlmCall -> Result<string, string>,
                                     tryParse: string -> Option<ResultBundle.ResearchOutput<Row>>)
    ensures var g := GenerateWithRepair(prompt, baseTemp, llm, tryParse);
      g.outcome.Err? ==> llm(g.calls[|g.calls| - 1]) == Err(g.outcome.error)
  {
  }

  /** A failed first call rejects with its error, and nothing more is tried. */
  lemma FirstCallFails<Row>(prompt: string, baseTemp: Temperature, llm: LlmCall -> Result<string, string>,
                            tryParse: string -> Option<ResultBundle.ResearchOutput<Row>>)
    requires llm(LlmCall(prompt, baseTemp)).Err?
    ensures GenerateWithRepair(prompt, baseTemp, llm, tryParse) ==
      Generation([LlmCall(prompt, baseTemp)], Err(llm(LlmCall(prompt, baseTemp)).error))
  {
  }

  /** After an invalid first output, a failed repair call rejects with its
      error. */
  lemma RepairCallFails<Row>(prompt: string, baseTemp: Temperature, llm: LlmCall -> Result<string, string>,
                             tryParse: string -> Option<ResultBundle.ResearchOutput<Row>>)
    requires CallLlmJson(llm, LlmCall(prompt, baseTemp)).Ok?
    requires tryParse(CallLlmJson(llm, LlmCall(prompt, baseTemp)).value).None?
    requires llm(LlmCall(prompt + RepairSuffix, RepairTemperature)).Err?
    ensures GenerateWithRepair(prompt, baseTemp, llm, tryParse) ==
      Generation([LlmCall(prompt, baseTemp), LlmCall(prompt + RepairSuffix, RepairTemperature)],
                 Err(llm(LlmCall(prompt + RepairSuffix, RepairTemperature)).error))
  {
  }

  /** After an invalid first output, a valid repaired output is returned
      unchanged. */
  lemma RepairValidReturned<Row>(prompt: string, baseTemp: Temperature, llm: LlmCall -> Result<string, string>,
                                 tryParse: string -> Option<ResultBundle.ResearchOutput<Row>>, out: ResultBundle.ResearchOutput<Row>)
    requires CallLlmJson(llm, LlmCall(prompt, baseTemp)).Ok?
    requires tryParse(CallLlmJson(llm, LlmCall(prompt, baseTemp)).value).None?
    requires CallLlmJson(llm, LlmCall(prompt + RepairSuffix, RepairTemperature)).Ok?
    requires tryParse(CallLlmJson(llm, LlmCall(prompt + RepairSuffix, RepairTemperature)).value) == Some(out)
    ensures GenerateWithRepair(prompt, baseTemp, llm, tryParse) ==
      Generation([LlmCall(prompt, baseTemp), LlmCall(prompt + RepairSuffix, RepairTemperature)], Ok(out))
  {
  }

  /** The repair call is made only after the first call succeeded. */
  lemma RepairFollowsSuccess<Row>(prompt: string, baseTemp: Temperature, llm: LlmCall -> Result<string, string>,
                                  tryParse: string -> Option<ResultBundle.ResearchOutput<Row>>)
    ensures var g := GenerateWithRepair(prompt, baseTemp, llm, tryParse);
      |g.calls| == 2 ==> llm(g.calls[0]).Ok?
  {
  }

  /** Two invalid outputs give the empty result, after exactly two calls. */
  lemma InvalidOutputDegrades<Row>(prompt: string, baseTemp: Temperature, llm: LlmCall -> Result<string, string>,
                                   tryParse: string -> Option<ResultBundle.ResearchOutput<Row>>)
    requires CallLlmJson(llm, LlmCall(prompt, baseTemp)).Ok?
    requires tryParse(CallLlmJson(llm, LlmCall(prompt, baseTemp)).value).None?
    requires CallLlmJson(llm, LlmCall(prompt + RepairSuffix, RepairTemperature)).Ok?
    requires tryParse(CallLlmJson(llm, LlmCall(prompt + RepairSuffix, RepairTemperature)).value).None?
    ensures GenerateWithRepair(prompt, baseTemp, llm, tryParse) ==
      Generation([LlmCall(prompt, baseTemp), LlmCall(prompt + RepairSuffix, RepairTemperature)], Ok(ResultBundle.EmptyOutput()))
  {
  }

  /** What the flow returns is an output the validator accepted for one of
      the calls, or the empty result. */
  lemma OutcomeValidOrEmpty<Row>(prompt: string, baseTemp: Temperature, llm: LlmCall -> Result<string, string>,
                                 tryParse: string -> Option<ResultBundle.ResearchOutput<Row>>)
    ensures var g := GenerateWithRepair(prompt, baseTemp, llm, tryParse);
      g.outcome.Ok? ==>
        g.outcome.value == ResultBundle.EmptyOutput() ||
        exists k :: 0 <= k < |g.calls| && CallLlmJson(llm, g.calls[k]).Ok? &&
          tryParse(CallLlmJson(llm, g.calls[k]).value) == Some(g.outcome.value)
  {
    var first, second := LlmCall(prompt, baseTemp), LlmCall(prompt + RepairSuffix, RepairTemperature);
    var g := GenerateWithRepair(prompt, baseTemp, llm, tryParse);
    var r1 := CallLlmJson(llm, first);
    if r1.Err? {
      FirstCallFails(prompt, baseTemp, llm, tryParse);
    } else if tryParse(r1.value).Some? {
      FirstValidReturned(prompt, baseTemp, llm, tryParse, tryParse(r1.value).value);
      assert g.calls[0] == first;
    } else {
      var r2 := CallLlmJson(llm, second);
      if r2.Err? {
        RepairCallFails(prompt, baseTemp, llm, tryParse);
      } else if tryParse(r2.value).Some? {
        RepairValidReturned(prompt, baseTemp, llm, tryParse, tryParse(r2.value).value);
        assert g.calls[1] == second;
      } else {
        InvalidOutputDegrades(prompt, baseTemp, llm, tryParse);
      }
    }
  }

  // ---------------------------------------------------------------------
  // The run

  datatype PipelineInput = PipelineInput(
    prompt: string,
    mode: Mode,
    market: string,
    language: Option<string>,
    topic: Option<PromptBuilder.Topic>)

  /** What a run did: the searches it issued, the evidence it kept, the model
      calls it made, and what it returned or rejected with. */
  datatype PipelineRun<Row> = PipelineRun(
    searches: seq<SearchRequest>,
    evidence: seq<EvidenceItem>,
    calls: seq<LlmCall>,
    outcome: Result<ResultBundle.ResearchOutput<Row>, string>)

  /** `Promise.all` over the searches, in query order: the results of every
      search, or the first failure. */
  function SearchAll(requests: seq<SearchRequest>, search: SearchRequest -> Result<seq<SearchResult>, string>):
    (r: Result<seq<seq<SearchResult>>, string>)
    ensures r.Ok? <==> forall k :: 0 <= k < |requests| ==> search(requests[k]).Ok?
    ensures r.Ok? ==> |r.value| == |requests| && forall k :: 0 <= k < |requests| ==> r.value[k] == search(requests[k]).value
  {
    if requests == [] then Ok([])
    else
      match search(requests[0])
      case Err(e) => Err(e)
      case Ok(rs) =>
        match SearchAll(requests[1..], search)
        case Err(e) =>
          assert forall k :: 1 <= k < |requests| ==> requests[k] == requests[1..][k - 1];
          Err(e)
        case Ok(rest) =>
          assert forall k :: 1 <= k < |requests| ==> requests[k] == requests[1..][k - 1];
          Ok([rs] + rest)
  }

  /** The prompt builder's view of an evidence item: everything but `capturedAt`. */
  function ToPromptEvidence(es: seq<EvidenceItem>): (r: seq<PromptBuilder.Evidence>)
    ensures |r| == |es|
    ensures forall k :: 0 <= k < |es| ==>
      r[k] == PromptBuilder.Evidence(es[k].url, es[k].domain, es[k].title, es[k].snippet, es[k].publishedAt, es[k].query)
  {
    if es == [] then []
    else [PromptBuilder.Evidence(es[0].url, es[0].domain, es[0].title, es[0].snippet, es[0].publishedAt, es[0].query)]
         + ToPromptEvidence(es[1..])
  }

  /** Lines 166-181: the language defaults to "en"; the topic is passed on only when given. */
  function PromptInputFor(input: PipelineInput, evidence: seq<EvidenceItem>): (p: PromptBuilder.ResearchPromptInput)
    ensures p.language == (if input.language.Some? then input.language.value else DefaultLanguage)
    ensures p.prompt == input.prompt && p.mode == input.mode && p.market == input.market && p.topic == input.topic
    ensures p.evidence == ToPromptEvidence(evidence)
  {
    PromptBuilder.ResearchPromptInput(input.prompt, input.mode, input.market, input.language.GetOr(DefaultLanguage),
                                      input.topic, ToPromptEvidence(evidence))
  }

  /** What `capEvidenceByDomain(found, cap, 3)` promises about the evidence
      it keeps: as many items as the caps allow, at most three per domain,
      each domain's items a prefix of its items in `found`, no item used more
      often than it occurs, and first the first-seen item of each domain in
      order of first appearance. */
  ghost predicate Selected(kept: seq<EvidenceItem>, found: seq<EvidenceItem>, cap: nat) {
    |kept| <= cap &&
    |kept| == EvidenceCap.Min(cap, EvidenceCap.SumCapped(EvidenceCap.Domains(found, Domain), found, Domain, MaxPerDomain)) &&
    (forall d :: |EvidenceCap.Filter(kept, Domain, d)| <= MaxPerDomain) &&
    (forall d :: EvidenceCap.Filter(kept, Domain, d) <= EvidenceCap.Filter(found, Domain, d)) &&
    multiset(kept) <= multiset(found) &&
    var m := EvidenceCap.Min(cap, |EvidenceCap.Domains(found, Domain)|);
    m <= |kept| && kept[..m] == EvidenceCap.FirstSeen(found, Domain)[..m]
  }

  /** Lines 114-181: the searches, the normalised evidence and its capped
      selection, or the first search failure. */
  method GatherEvidence(input: PipelineInput, nowIso: string, search: SearchRequest -> Result<seq<SearchResult>, string>,
                        parseHost: string -> Option<string>)
    returns (requests: seq<SearchRequest>, gathered: Result<seq<EvidenceItem>, string>)
    ensures requests == SearchRequests(input.mode, input.prompt, input.market)
    ensures SearchAll(requests, search).Err? ==> gathered == Err(SearchAll(requests, search).error)
    ensures SearchAll(requests, search).Ok? ==>
      gathered.Ok? &&
      Selected(gathered.value, NormalizeAll(Queries(input.mode, input.prompt, input.market), SearchAll(requests, search).value, nowIso, parseHost),
               EvidenceCapFor(input.mode))
  {
    var queries := Queries(input.mode, input.prompt, input.market);
    requests := SearchRequests(input.mode, input.prompt, input.market);
    var all := SearchAll(requests, search);
    if all.Err? {
      return requests, Err(all.error);
    }
    var found := CollectEvidence(queries, all.value, nowIso, parseHost);
    var kept := EvidenceCap.CapEvidenceByDomain(found, Domain, EvidenceCapFor(input.mode), MaxPerDomain);
    gathered := Ok(kept);
  }

  /** `runResearchPipeline` with the model client the flow evidently means
      (the argument `callLLMJson` ignores): every search is issued; a failed
      search rejects the run before the model is called; otherwise the kept
      evidence feeds the prompt and the call-validate-repair flow decides
      the outcome. */
  method RunResearchPipeline<Row>(input: PipelineInput, nowIso: string,
                                  search: SearchRequest -> Result<seq<SearchResult>, string>,
                                  parseHost: string -> Option<string>,
                                  stringify: seq<PromptBuilder.JsonObject> -> string,
                                  llm: LlmCall -> Result<string, string>,
                                  tryParse: string -> Option<ResultBundle.ResearchOutput<Row>>)
    returns (run: PipelineRun<Row>)
    ensures run.searches == SearchRequests(input.mode, input.prompt, input.market)
    ensures |run.searches| == (if input.mode == PromptBuilder.Deep then 2 else 1)
    ensures |run.evidence| <= EvidenceCapFor(input.mode)
    ensures SearchAll(run.searches, search).Err? ==>
      run.outcome == Err(SearchAll(run.searches, search).error) && run.calls == [] && run.evidence == []
    ensures SearchAll(run.searches, search).Ok? ==>
      Selected(run.evidence, NormalizeAll(Queries(input.mode, input.prompt, input.market), SearchAll(run.searches, search).value, nowIso, parseHost),
               EvidenceCapFor(input.mode)) &&
      var g := GenerateWithRepair(PromptBuilder.BuildResearchPrompt(PromptInputFor(input, run.evidence), stringify),
                                  BaseTemperature(input.mode), llm, tryParse);
      run.calls == g.calls && run.outcome == g.outcome
  {
    var requests, gathered := GatherEvidence(input, nowIso, search, parseHost);
    if gathered.Err? {
      return PipelineRun(requests, [], [], Err(gathered.error));
    }
    var evidence := gathered.value;
    var prompt := PromptBuilder.BuildResearchPrompt(PromptInputFor(input, evidence), stringify);
    var g := GenerateWithRepair(prompt, BaseTemperature(input.mode), llm, tryParse);
    run := PipelineRun(requests, evidence, g.calls, g.outcome);
  }

  /** `runResearchPipeline` as written: line 189 reads `client`, which no
      declaration in scope defines, so a run whose searches succeed rejects
      there with a ReferenceError before any model call. */
  const ClientUndefined: string := "ReferenceError: client is not defined"

  method RunResearchPipelineAsWritten<Row>(input: PipelineInput, nowIso: string,
                                           search: SearchRequest -> Result<seq<SearchResult>, string>,
                                           parseHost: string -> Option<string>)
    returns (run: PipelineRun<Row>)
    ensures run.searches == SearchRequests(input.mode, input.prompt, input.market)
    ensures run.calls == [] && run.outcome.Err?
    ensures SearchAll(run.searches, search).Ok? ==> run.outcome == Err(ClientUndefined)
  {
    var requests, gathered := GatherEvidence(input, nowIso, search, parseHost);
    if gathered.Err? {
      return PipelineRun(requests, [], [], Err(gathered.error));
    }
    run := PipelineRun(requests, gathered.value, [], Err(ClientUndefined));
  }
}
