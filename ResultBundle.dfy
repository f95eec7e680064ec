/** The research output the language model is asked for (the parts the
    pipeline reads) and `buildResultBundle` (src/research/research.pipeline.ts),
    the summary projection of the top clusters. Arrays the model may leave out
    are `Option`s; `?? []` reads an absent one as empty. */
module ResultBundle {
  import opened Wrappers
  import Text

  datatype Priority = P0 | P1 | P2

  datatype Action = Action(title: string, priority: Priority)

  /** An evidence reference as the model attaches it to a cluster. */
  datatype EvidenceRef = EvidenceRef(url: string, title: string, snippet: Option<string>, publishedAt: Option<string>)

  datatype ClusterBundle = ClusterBundle(
    cluster: string,
    topKeywords: Option<seq<string>>,
    recommendedActions: Option<seq<Action>>,
    topEvidence: Option<seq<EvidenceRef>>)

  /** The validated model output; the row type is left to the schema. */
  datatype ResearchOutput<Row> = ResearchOutput(rows: seq<Row>, clusterBundles: Option<seq<ClusterBundle>>)

  /** `{ rows: [], clusterBundles: [] }`. */
  function EmptyOutput<Row>(): ResearchOutput<Row> {
    ResearchOutput([], Some([]))
  }

  datatype Source = Source(url: string, title: string)

  datatype Bundle = Bundle(title: string, summary: string, nextSteps: seq<string>, sources: seq<Source>)

  const MaxTopClusters: nat := 3
  const MaxSummaryKeywords: nat := 3
  const MaxNextSteps: nat := 5
  const MaxSources: nat := 5

  function Min(a: nat, b: nat): nat {
    if a <= b then a else b
  }

  /** `s.slice(0, n)`. */
  function Take<U>(s: seq<U>, n: nat): (r: seq<U>)
    ensures |r| == Min(|s|, n) && r <= s
  {
    if |s| <= n then s else s[..n]
  }

  function TopClusters<Row>(json: ResearchOutput<Row>): seq<ClusterBundle> {
    Take(json.clusterBundles.GetOr([]), MaxTopClusters)
  }

  /** `• <cluster>: <first three keywords joined by ", ">`. */
  function SummaryLine(c: ClusterBundle): string {
    "\U{2022} " + c.cluster + ": " + Text.Join(", ", Take(c.topKeywords.GetOr([]), MaxSummaryKeywords))
  }

  function SummaryLines(cs: seq<ClusterBundle>): (r: seq<string>)
    ensures |r| == |cs|
    ensures forall k :: 0 <= k < |cs| ==> r[k] == SummaryLine(cs[k])
  {
    if cs == [] then [] else [SummaryLine(cs[0])] + SummaryLines(cs[1..])
  }

  /** `cs.flatMap(c => (c.recommendedActions ?? []).map(a => a.title))`. */
  function ActionTitles(cs: seq<ClusterBundle>): seq<string> {
    if cs == [] then [] else Titles(cs[0].recommendedActions.GetOr([])) + ActionTitles(cs[1..])
  }

  function Titles(actions: seq<Action>): (r: seq<string>)
    ensures |r| == |actions|
    ensures forall k :: 0 <= k < |actions| ==> r[k] == actions[k].title
  {
    if actions == [] then [] else [actions[0].title] + Titles(actions[1..])
  }

  /** `cs.flatMap(c => c.topEvidence ?? [])`. */
  function AllEvidence(cs: seq<ClusterBundle>): seq<EvidenceRef> {
    if cs == [] then [] else cs[0].topEvidence.GetOr([]) + AllEvidence(cs[1..])
  }

  function ToSources(es: seq<EvidenceRef>): (r: seq<Source>)
    ensures |r| == |es|
    ensures forall k :: 0 <= k < |es| ==> r[k] == Source(es[k].url, es[k].title)
  {
    if es == [] then [] else [Source(es[0].url, es[0].title)] + ToSources(es[1..])
  }

  function BuildResultBundle<Row>(json: ResearchOutput<Row>, prompt: string): (r: Bundle)
    ensures |r.nextSteps| <= MaxNextSteps && |r.sources| <= MaxSources
    ensures r.nextSteps <= ActionTitles(json.clusterBundles.GetOr([]))
  {
    var top := TopClusters(json);
    ActionTitlesOfPrefix(json.clusterBundles.GetOr([]), |top|);
    Bundle(
      "Web Research: " + prompt,
      Text.Join("\n", SummaryLines(top)),
      Take(ActionTitles(top), MaxNextSteps),
      ToSources(Take(AllEvidence(top), MaxSources)))
  }

  // ---------------------------------------------------------------------
  // Lemmas

  /** The titles of a prefix of the clusters are a prefix of all the titles. */
  lemma {:induction false} ActionTitlesOfPrefix(cs: seq<ClusterBundle>, n: nat)
    requires n <= |cs|
    ensures ActionTitles(cs[..n]) <= ActionTitles(cs)
  {
    if n > 0 {
      ActionTitlesOfPrefix(cs[1..], n - 1);
      assert cs[..n][1..] == cs[1..][..n - 1];
    }
  }

  /** `k`-th action title in cluster-then-action order. */
  lemma {:induction false} ActionTitlesAt(cs: seq<ClusterBundle>, c: nat, a: nat)
    requires c < |cs| && a < |cs[c].recommendedActions.GetOr([])|
    ensures var k := |ActionTitles(cs[..c])| + a;
      k < |ActionTitles(cs)| && ActionTitles(cs)[k] == cs[c].recommendedActions.GetOr([])[a].title
  {
    if c == 0 {
      assert cs[..0] == [];
    } else {
      ActionTitlesAt(cs[1..], c - 1, a);
      assert cs[..c][1..] == cs[1..][..c - 1];
      assert cs[1..][c - 1] == cs[c];
    }
  }

  /** The bundle: its title names the prompt; the summary has one line per
      used cluster (at most three), each naming the cluster and at most three
      of its keywords, a prefix of them; the next steps and sources are the
      first five action titles and evidence references of the used clusters,
      sources keeping only url and title. */
  lemma BundleShape<Row>(json: ResearchOutput<Row>, prompt: string)
    ensures var r := BuildResultBundle(json, prompt);
      var top := TopClusters(json);
      |top| <= MaxTopClusters && top <= json.clusterBundles.GetOr([]) &&
      r.title == "Web Research: " + prompt &&
      r.summary == Text.Join("\n", SummaryLines(top)) &&
      (forall k :: 0 <= k < |top| ==>
        SummaryLines(top)[k] == "\U{2022} " + top[k].cluster + ": " + Text.Join(", ", Take(top[k].topKeywords.GetOr([]), 3)) &&
        |Take(top[k].topKeywords.GetOr([]), 3)| <= 3 &&
        Take(top[k].topKeywords.GetOr([]), 3) <= top[k].topKeywords.GetOr([])) &&
      |r.nextSteps| == Min(|ActionTitles(top)|, MaxNextSteps) && r.nextSteps <= ActionTitles(top) &&
      |r.sources| == Min(|AllEvidence(top)|, MaxSources) &&
      (forall k :: 0 <= k < |r.sources| ==>
        r.sources[k] == Source(AllEvidence(top)[k].url, AllEvidence(top)[k].title))
  {
    var r := BuildResultBundle(json, prompt);
    var top := TopClusters(json);
    var ev := Take(AllEvidence(top), MaxSources);
    assert r.sources == ToSources(ev);
    assert forall k :: 0 <= k < |ev| ==> ev[k] == AllEvidence(top)[k];
    assert r.summary == Text.Join("\n", SummaryLines(top));
    forall k | 0 <= k < |top|
      ensures SummaryLines(top)[k] == "\U{2022} " + top[k].cluster + ": " + Text.Join(", ", Take(top[k].topKeywords.GetOr([]), 3))
    {
      assert SummaryLines(top)[k] == SummaryLine(top[k]);
    }
  }

  /** Clusters after the third never affect the bundle. */
  lemma BundleIgnoresLaterClusters<Row>(rows: seq<Row>, cs: seq<ClusterBundle>, prompt: string)
    requires |cs| >= MaxTopClusters
    ensures BuildResultBundle(ResearchOutput(rows, Some(cs)), prompt) ==
            BuildResultBundle(ResearchOutput(rows, Some(cs[..MaxTopClusters])), prompt)
  {
    var head := cs[..MaxTopClusters];
    assert Take(head, MaxTopClusters) == head;
    assert Take(cs, MaxTopClusters) == head;
  }

  /** The cluster with each missing array read as an empty one. */
  function Fill(c: ClusterBundle): ClusterBundle {
    ClusterBundle(c.cluster, Some(c.topKeywords.GetOr([])), Some(c.recommendedActions.GetOr([])),
                  Some(c.topEvidence.GetOr([])))
  }

  function FillAll(cs: seq<ClusterBundle>): seq<ClusterBundle> {
    seq(|cs|, k requires 0 <= k < |cs| => Fill(cs[k]))
  }

  /** A missing cluster list reads as an empty one, and in every cluster a
      missing keyword, action or evidence list reads as an empty one. */
  lemma MissingArraysAreEmpty<Row>(rows: seq<Row>, clusters: Option<seq<ClusterBundle>>, prompt: string)
    ensures BuildResultBundle(ResearchOutput(rows, None), prompt) ==
            BuildResultBundle(ResearchOutput(rows, Some([])), prompt)
    ensures BuildResultBundle(ResearchOutput(rows, clusters), prompt) ==
            BuildResultBundle(ResearchOutput(rows, Some(FillAll(clusters.GetOr([])))), prompt)
  {
    var top := Take(clusters.GetOr([]), MaxTopClusters);
    assert Take(FillAll(clusters.GetOr([])), MaxTopClusters) == FillAll(top);
    FillKeepsSummary(top);
    FillKeepsTitles(top);
    FillKeepsEvidence(top);
  }

  lemma FillKeepsSummary(cs: seq<ClusterBundle>)
    ensures SummaryLines(FillAll(cs)) == SummaryLines(cs)
  {
    assert forall k :: 0 <= k < |cs| ==> SummaryLine(FillAll(cs)[k]) == SummaryLine(cs[k]);
  }

  lemma {:induction false} FillKeepsTitles(cs: seq<ClusterBundle>)
    ensures ActionTitles(FillAll(cs)) == ActionTitles(cs)
  {
    if cs != [] {
      assert FillAll(cs)[1..] == FillAll(cs[1..]);
      FillKeepsTitles(cs[1..]);
    }
  }

  lemma {:induction false} FillKeepsEvidence(cs: seq<ClusterBundle>)
    ensures AllEvidence(FillAll(cs)) == AllEvidence(cs)
  {
    if cs != [] {
      assert FillAll(cs)[1..] == FillAll(cs[1..]);
      FillKeepsEvidence(cs[1..]);
    }
  }

  /** With no clusters the bundle carries only its title. */
  lemma EmptyBundle<Row>(rows: seq<Row>, prompt: string)
    ensures BuildResultBundle(ResearchOutput(rows, Some([])), prompt) ==
            Bundle("Web Research: " + prompt, "", [], [])
  {
  }

  /** The next steps never come from a fourth cluster: they are a prefix of
      the action titles of the first three clusters, in cluster-then-action
      order, and when the first clusters already offer five actions those
      five are the next steps. */
  lemma NextStepsFromTopClusters<Row>(json: ResearchOutput<Row>, prompt: string)
    ensures var r := BuildResultBundle(json, prompt);
      r.nextSteps <= ActionTitles(TopClusters(json)) &&
      (|ActionTitles(TopClusters(json))| >= MaxNextSteps ==> |r.nextSteps| == MaxNextSteps)
  {
  }

  /** The summary has exactly one line per used cluster when no cluster name
      or keyword holds a line break. */
  lemma {:induction false} SummaryLineCount(cs: seq<ClusterBundle>)
    requires cs != []
    requires forall k :: 0 <= k < |cs| ==> '\n' !in SummaryLine(cs[k])
    ensures Occurrences(Text.Join("\n", SummaryLines(cs)), '\n') == |cs| - 1
  {
    if |cs| == 1 {
      NoOccurrences(SummaryLine(cs[0]), '\n');
    } else {
      SummaryLineCount(cs[1..]);
      var head, rest := SummaryLine(cs[0]), Text.Join("\n", SummaryLines(cs[1..]));
      assert SummaryLines(cs)[1..] == SummaryLines(cs[1..]);
      NoOccurrences(head, '\n');
      OccurrencesAppend(head, "\n", '\n');
      OccurrencesAppend(head + "\n", rest, '\n');
    }
  }

  function Occurrences(s: string, c: char): nat {
    if s == [] then 0 else (if s[0] == c then 1 else 0) + Occurrences(s[1..], c)
  }

  lemma {:induction false} OccurrencesAppend(a: string, b: string, c: char)
    ensures Occurrences(a + b, c) == Occurrences(a, c) + Occurrences(b, c)
  {
    if a != [] {
      assert (a + b)[0] == a[0] && (a + b)[1..] == a[1..] + b;
      OccurrencesAppend(a[1..], b, c);
    } else {
      assert a + b == b;
    }
  }

  lemma {:induction false} NoOccurrences(s: string, c: char)
    requires c !in s
    ensures Occurrences(s, c) == 0
  {
    if s != [] {
      NoOccurrences(s[1..], c);
    }
  }
}
