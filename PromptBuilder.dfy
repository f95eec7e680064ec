/** `buildResearchPrompt` (src/research/prompt.builder.ts): the instruction
    text sent to the language model. `JSON.stringify` is a parameter; the
    payload it serialises is modelled as an ordered list of key/value
    pairs, the order in which `JSON.stringify` writes an object literal's
    keys. */
module PromptBuilder {
  import opened Wrappers
  import Text

  datatype Mode = Quick | Deep

  datatype Topic = Seasonal | Product | Supplier | General

  datatype Evidence = Evidence(
    url: string,
    domain: string,
    title: string,
    snippet: string,
    publishedAt: Option<string>,
    query: string)

  datatype ResearchPromptInput = ResearchPromptInput(
    prompt: string,
    mode: Mode,
    market: string,
    language: string,
    topic: Option<Topic>,
    evidence: seq<Evidence>)

  /** The JSON values the evidence payload holds. */
  datatype Json = JString(s: string) | JNull

  type JsonObject = seq<(string, Json)>

  function ModeName(mode: Mode): string {
    match mode
    case Quick => "quick"
    case Deep => "deep"
  }

  function TopicName(t: Topic): string {
    match t
    case Seasonal => "seasonal"
    case Product => "product"
    case Supplier => "supplier"
    case General => "general"
  }

  /** `input.topic ?? "general"`. */
  function TopicText(topic: Option<Topic>): string {
    match topic
    case Some(t) => TopicName(t)
    case None => "general"
  }

  function MaxRows(mode: Mode): nat {
    if mode == Deep then 25 else 12
  }

  function MaxClusters(mode: Mode): nat {
    if mode == Deep then 7 else 4
  }

  function ClusterRange(mode: Mode): string {
    if mode == Deep then "3\U{2013}7" else "2\U{2013}4"
  }

  /** Decimal notation of a natural number, as a template literal writes it. */
  function DecimalText(n: nat): (r: string)
    ensures |r| >= 1
    ensures forall k :: 0 <= k < |r| ==> '0' <= r[k] <= '9'
  {
    if n < 10 then [Digit(n)] else DecimalText(n / 10) + [Digit(n % 10)]
  }

  function Digit(d: nat): (c: char)
    requires d < 10
    ensures '0' <= c <= '9' && c as int - '0' as int == d
  {
    ('0' as int + d) as char
  }

  function DecimalValue(s: string): nat
    requires forall k :: 0 <= k < |s| ==> '0' <= s[k] <= '9'
  {
    if s == [] then 0 else 10 * DecimalValue(s[..|s| - 1]) + (s[|s| - 1] as int - '0' as int)
  }

  /** Reading the decimal text back gives the number. */
  lemma {:induction false} DecimalRoundTrip(n: nat)
    ensures DecimalValue(DecimalText(n)) == n
  {
    if n >= 10 {
      DecimalRoundTrip(n / 10);
      var r := DecimalText(n);
      assert r[..|r| - 1] == DecimalText(n / 10);
    }
  }

  // ---------------------------------------------------------------------
  // The evidence payload

  const PayloadKeys: seq<string> := ["url", "domain", "title", "snippet", "publishedAt", "query"]

  function PublishedJson(p: Option<string>): Json {
    match p
    case Some(d) => JString(d)
    case None => JNull
  }

  /** The object literal written for one evidence entry. */
  function PayloadEntry(e: Evidence): JsonObject {
    [("url", JString(e.url)), ("domain", JString(e.domain)), ("title", JString(e.title)),
     ("snippet", JString(e.snippet)), ("publishedAt", PublishedJson(e.publishedAt)),
     ("query", JString(e.query))]
  }

  function EvidencePayload(evidence: seq<Evidence>): (r: seq<JsonObject>)
    ensures |r| == |evidence|
    ensures forall k :: 0 <= k < |evidence| ==> r[k] == PayloadEntry(evidence[k])
  {
    if evidence == [] then [] else [PayloadEntry(evidence[0])] + EvidencePayload(evidence[1..])
  }

  function Keys(obj: JsonObject): (r: seq<string>)
    ensures |r| == |obj|
    ensures forall k :: 0 <= k < |obj| ==> r[k] == obj[k].0
  {
    if obj == [] then [] else [obj[0].0] + Keys(obj[1..])
  }

  /** The value stored under `key`, first occurrence. */
  function Lookup(obj: JsonObject, key: string): Option<Json> {
    if obj == [] then None else if obj[0].0 == key then Some(obj[0].1) else Lookup(obj[1..], key)
  }

  function LookupString(obj: JsonObject, key: string): Option<string> {
    match Lookup(obj, key)
    case Some(JString(s)) => Some(s)
    case _ => None
  }

  /** Reads an evidence entry back from its object; `None` when a field is
      missing or has the wrong kind of value. */
  function DecodeEntry(obj: JsonObject): Option<Evidence> {
    var url, domain, title := LookupString(obj, "url"), LookupString(obj, "domain"), LookupString(obj, "title");
    var snippet, query := LookupString(obj, "snippet"), LookupString(obj, "query");
    var published := Lookup(obj, "publishedAt");
    if url.None? || domain.None? || title.None? || snippet.None? || query.None? || published.None? then None
    else
      match published.value
      case JString(d) => Some(Evidence(url.value, domain.value, title.value, snippet.value, Some(d), query.value))
      case JNull => Some(Evidence(url.value, domain.value, title.value, snippet.value, None, query.value))
  }

  /** The payload loses nothing: one object per entry, in order, each with
      the keys url, domain, title, snippet, publishedAt, query in that order,
      from which the entry is read back unchanged. */
  lemma PayloadRoundTrip(evidence: seq<Evidence>)
    ensures |EvidencePayload(evidence)| == |evidence|
    ensures forall k :: 0 <= k < |evidence| ==>
      Keys(EvidencePayload(evidence)[k]) == PayloadKeys &&
      DecodeEntry(EvidencePayload(evidence)[k]) == Some(evidence[k])
  {
    forall k | 0 <= k < |evidence|
      ensures Keys(EvidencePayload(evidence)[k]) == PayloadKeys
      ensures DecodeEntry(EvidencePayload(evidence)[k]) == Some(evidence[k])
    {
      EntryRoundTrip(evidence[k]);
    }
  }

  lemma EntryRoundTrip(e: Evidence)
    ensures Keys(PayloadEntry(e)) == PayloadKeys
    ensures DecodeEntry(PayloadEntry(e)) == Some(e)
  {
    var obj := PayloadEntry(e);
    EntryKeys(e);
    LookupFirst(obj, 0, "url");
    LookupFirst(obj, 1, "domain");
    LookupFirst(obj, 2, "title");
    LookupFirst(obj, 3, "snippet");
    LookupFirst(obj, 4, "publishedAt");
    LookupFirst(obj, 5, "query");
  }

  lemma EntryKeys(e: Evidence)
    ensures Keys(PayloadEntry(e)) == PayloadKeys
  {
    assert Keys(PayloadEntry(e)) == PayloadKeys;
  }

  /** `Lookup` finds the first entry with the key. */
  lemma {:induction false} LookupFirst(obj: JsonObject, k: nat, key: string)
    requires k < |obj| && obj[k].0 == key
    requires forall i :: 0 <= i < k ==> obj[i].0 != key
    ensures Lookup(obj, key) == Some(obj[k].1)
  {
    if k > 0 {
      LookupFirst(obj[1..], k - 1, key);
    }
  }

  // ---------------------------------------------------------------------
  // The prompt text, line by line

  const Preamble: seq<string> := [
    "You are an analytical research engine for party decorations.",
    "",
    "Rules:",
    "- Use ONLY the provided evidence.",
    "- Do NOT invent search volume or external metrics.",
    "- Output strictly valid JSON only. No markdown. No extra text.",
    "- Keep clusters actionable for an e-commerce seller.",
    "- Prefer long-tail (3\U{2013}6 words) and product-adjacent phrases. Avoid single adjectives.",
    "- Avoid single-word or overly generic terms (e.g., \U{201C}textures\U{201D}, \U{201C}blush pink\U{201D} alone).",
    "- Ensure each cluster has 3\U{2013}7 keywords (deep) or 2\U{2013}5 (quick).",
    "- Order keywords within each cluster by strongest evidence/mentions.",
    "",
    "Context:"
  ]

  function ContextLines(input: ResearchPromptInput): seq<string> {
    ["- Prompt: " + input.prompt,
     "- Topic: " + TopicText(input.topic),
     "- Market: " + input.market,
     "- Language: " + input.language,
     "- Mode: " + ModeName(input.mode)]
  }

  function EvidenceLines(payloadText: string): seq<string> {
    ["", "Evidence (JSON):", payloadText, "", "Task:"]
  }

  /** The task list; only the cluster range depends on the request. */
  function TaskLines(mode: Mode): seq<string> {
    TaskHead + [ClusterLine(mode)] + TaskTail
  }

  const TaskHead: seq<string> := [
    "1) Extract keyword candidates relevant to party decorations and the prompt.",
    "2) Normalize keywords (lowercase, trimmed), deduplicate."
  ]

  function ClusterLine(mode: Mode): string {
    "3) Cluster into semantic groups (" + ClusterRange(mode) + " clusters)."
  }

  const TaskTail: seq<string> := [
    "4) Intent per keyword: buying|inspiration|diy|informational|supplier.",
    "5) mentions: count approximate occurrences across evidence titles/snippets.",
    "6) recencyScore: 0..1 (recent higher; unknown=0.5).",
    "7) researchScore: 0..1 combining mentions + recencyScore (no external stats).",
    "8) For each cluster, propose 1\U{2013}3 actions (P0/P1/P2).",
    "9) Attach topEvidence per row and per cluster (max 2 each).",
    "10) Set researchScore to 0 (placeholder). Backend will compute the final score."
  ]

  const OutputShape: seq<string> := [
    "",
    "Output JSON ONLY in this exact shape:",
    "{",
    "  \"rows\": [",
    "    {",
    "      \"rowId\": \"string\",",
    "      \"cluster\": \"string\",",
    "      \"keyword\": \"string\",",
    "      \"intent\": \"buying|inspiration|diy|informational|supplier\",",
    "      \"mentions\": number,",
    "      \"recencyScore\": number,",
    "      \"researchScore\": number,",
    "      \"sourcesCount\": number,",
    "      \"domainsCount\": number,",
    "      \"topEvidence\": [",
    "        { \"url\": \"string\", \"title\": \"string\", \"snippet\": \"string\", \"publishedAt\": \"YYYY-MM-DD|null\" }",
    "      ]",
    "    }",
    "  ],",
    "  \"clusterBundles\": [",
    "    {",
    "      \"cluster\": \"string\",",
    "      \"topKeywords\": [\"string\"],",
    "      \"recommendedActions\": [",
    "        { \"title\": \"string\", \"priority\": \"P0|P1|P2\" }",
    "      ],",
    "      \"topEvidence\": [",
    "        { \"url\": \"string\", \"title\": \"string\" }",
    "      ]",
    "    }",
    "  ]",
    "}",
    "",
    "Constraints:"
  ]

  function ConstraintLines(mode: Mode): seq<string> {
    ["- rows length <= " + DecimalText(MaxRows(mode)),
     "- clusterBundles length <= " + DecimalText(MaxClusters(mode)),
     LastLine]
  }

  const FirstLine: string := "You are an analytical research engine for party decorations."
  const LastLine: string := "- topKeywords per cluster <= 5"

  /** The template's lines, between its opening and closing line breaks. */
  function PromptLines(input: ResearchPromptInput, stringify: seq<JsonObject> -> string): (r: seq<string>)
  {
    Preamble + ContextLines(input) + EvidenceLines(stringify(EvidencePayload(input.evidence)))
      + TaskLines(input.mode) + OutputShape + ConstraintLines(input.mode)
  }

  lemma SectionSizes()
    ensures |Preamble| == 13 && Preamble[0] == FirstLine
    ensures |TaskHead| == 2 && |TaskTail| == 7 && |OutputShape| == 34
  {
  }

  /** The prompt is the template's lines joined by line breaks: `trim`
      removes exactly the template's leading and trailing line breaks, so it
      starts with the role line and ends with the keyword constraint. */
  function BuildResearchPrompt(input: ResearchPromptInput, stringify: seq<JsonObject> -> string): (r: string)
    ensures r == Text.Join("\n", PromptLines(input, stringify))
    ensures FirstLine <= r && Text.EndsWith(r, LastLine)
  {
    var lines := PromptLines(input, stringify);
    LinesEnds(input, stringify);
    PromptTrimmed(lines);
    Text.Trim(Text.Join("\n", [""] + lines + [""]))
  }

  lemma LinesEnds(input: ResearchPromptInput, stringify: seq<JsonObject> -> string)
    ensures var lines := PromptLines(input, stringify);
      |lines| == 70 && lines[0] == FirstLine && lines[69] == LastLine
  {
    SectionSizes();
  }

  lemma PromptTrimmed(lines: seq<string>)
    requires |lines| == 70 && lines[0] == FirstLine && lines[69] == LastLine
    ensures Text.Trim(Text.Join("\n", [""] + lines + [""])) == Text.Join("\n", lines)
    ensures FirstLine <= Text.Join("\n", lines) && Text.EndsWith(Text.Join("\n", lines), LastLine)
  {
    var body := Text.Join("\n", lines);
    Text.JoinPadded("\n", lines);
    Text.JoinStartsWithFirst("\n", lines);
    Text.JoinEndsWithLast("\n", lines);
    assert body[0] == FirstLine[0];
    assert body[|body| - 1] == LastLine[|LastLine| - 1];
    Text.TrimPadded("\n", body, "\n");
  }

  // ---------------------------------------------------------------------
  // What the prompt says

  /** The mode-dependent lines, written out. */
  lemma ClusterText(mode: Mode)
    ensures ClusterLine(mode) == (if mode == Deep then "3) Cluster into semantic groups (3\U{2013}7 clusters)."
                                  else "3) Cluster into semantic groups (2\U{2013}4 clusters).")
  {
  }

  lemma RowsText(mode: Mode)
    ensures "- rows length <= " + DecimalText(MaxRows(mode)) ==
            (if mode == Deep then "- rows length <= 25" else "- rows length <= 12")
  {
    if mode == Deep {
      assert DecimalText(25) == "25";
    } else {
      assert DecimalText(12) == "12";
    }
  }

  lemma BundlesText(mode: Mode)
    ensures "- clusterBundles length <= " + DecimalText(MaxClusters(mode)) ==
            (if mode == Deep then "- clusterBundles length <= 7" else "- clusterBundles length <= 4")
  {
    if mode == Deep {
      assert DecimalText(7) == "7";
    } else {
      assert DecimalText(4) == "4";
    }
  }

  /** Where the request-dependent lines sit among the template's lines. */
  lemma ContextAt(input: ResearchPromptInput, stringify: seq<JsonObject> -> string)
    ensures var lines := PromptLines(input, stringify);
      |lines| == 70 &&
      lines[13] == "- Prompt: " + input.prompt && lines[14] == "- Topic: " + TopicText(input.topic) &&
      lines[15] == "- Market: " + input.market && lines[16] == "- Language: " + input.language &&
      lines[17] == "- Mode: " + ModeName(input.mode)
  {
    SectionSizes();
  }

  lemma PayloadAt(input: ResearchPromptInput, stringify: seq<JsonObject> -> string)
    ensures var lines := PromptLines(input, stringify);
      |lines| == 70 && lines[20] == stringify(EvidencePayload(input.evidence))
  {
    SectionSizes();
  }

  lemma LimitsAt(input: ResearchPromptInput, stringify: seq<JsonObject> -> string)
    ensures var lines := PromptLines(input, stringify);
      |lines| == 70 && lines[25] == ClusterLine(input.mode) &&
      lines[67] == "- rows length <= " + DecimalText(MaxRows(input.mode)) &&
      lines[68] == "- clusterBundles length <= " + DecimalText(MaxClusters(input.mode))
  {
    SectionSizes();
  }

  /** The context block repeats the request verbatim, each item on a line
      of its own; an absent topic reads as "general". */
  lemma PromptContext(input: ResearchPromptInput, stringify: seq<JsonObject> -> string)
    ensures var r := BuildResearchPrompt(input, stringify);
      Text.IsLineOf("- Prompt: " + input.prompt, r) &&
      Text.IsLineOf("- Topic: " + (if input.topic.Some? then TopicName(input.topic.value) else "general"), r) &&
      Text.IsLineOf("- Market: " + input.market, r) &&
      Text.IsLineOf("- Language: " + input.language, r) &&
      Text.IsLineOf("- Mode: " + (if input.mode == Deep then "deep" else "quick"), r)
  {
    var lines := PromptLines(input, stringify);
    ContextAt(input, stringify);
    Text.JoinHasLine(lines, 13);
    Text.JoinHasLine(lines, 14);
    Text.JoinHasLine(lines, 15);
    Text.JoinHasLine(lines, 16);
    Text.JoinHasLine(lines, 17);
  }

  /** The serialised evidence payload is embedded as a line of its own. */
  lemma PromptEmbedsEvidence(input: ResearchPromptInput, stringify: seq<JsonObject> -> string)
    ensures Text.IsLineOf(stringify(EvidencePayload(input.evidence)), BuildResearchPrompt(input, stringify))
  {
    PayloadAt(input, stringify);
    Text.JoinHasLine(PromptLines(input, stringify), 20);
  }

  /** Deep mode asks for 3 to 7 clusters, at most 25 rows and 7 cluster bundles;
      quick mode for 2 to 4 clusters, at most 12 rows and 4 cluster bundles. */
  lemma PromptLimits(input: ResearchPromptInput, stringify: seq<JsonObject> -> string)
    ensures var r := BuildResearchPrompt(input, stringify);
      if input.mode == Deep then
        Text.IsLineOf("3) Cluster into semantic groups (3\U{2013}7 clusters).", r) &&
        Text.IsLineOf("- rows length <= 25", r) &&
        Text.IsLineOf("- clusterBundles length <= 7", r)
      else
        Text.IsLineOf("3) Cluster into semantic groups (2\U{2013}4 clusters).", r) &&
        Text.IsLineOf("- rows length <= 12", r) &&
        Text.IsLineOf("- clusterBundles length <= 4", r)
  {
    var lines := PromptLines(input, stringify);
    LimitsAt(input, stringify);
    ClusterText(input.mode);
    RowsText(input.mode);
    BundlesText(input.mode);
    Text.JoinHasLine(lines, 25);
    Text.JoinHasLine(lines, 67);
    Text.JoinHasLine(lines, 68);
  }
}
