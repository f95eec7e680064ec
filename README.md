# Stylenya web research pipeline in Dafny

This project models the core of the Stylenya web-research pipeline: the code that turns a research request into a language-model prompt and a validated research output. The request gives a prompt, a mode (`quick` or `deep`), a market, and optionally a language and a topic.

- **Mode plan**: how many search queries each mode issues, with what result count and depth, how much evidence it keeps, and at what sampling temperature it calls the model.
- **Evidence normalisation**: every search result whose address parses becomes an evidence item. Its title and snippet are cleaned with `truncate` (whitespace collapsed and trimmed, cut to 140 and 500 characters plus an ellipsis). Its domain is the address's host.
- **`capEvidenceByDomain`**: a bounded, domain-diverse selection. At most 10 items (quick) or 25 (deep), at most 3 per domain, taken round-robin over the domains in the order they first appear.
- **`buildResearchPrompt`**: the instruction text. It holds the request context, the serialised evidence payload, the task, the output shape and the mode's limits.
- **Call, validate and repair**: one model call at the mode's temperature. If its output does not validate, one repair call follows with a fixed suffix at temperature 0. If that output does not validate either, the result is an empty one. A failed call rejects the run.
- **`buildResultBundle`**: the summary projection of the first three clusters of an output.

The modules follow the source:

- `Text` (`Text.dfy`): the ECMAScript whitespace set, `replace(/\s+/g, " ")`, `trim()` and `join`.
- `EvidenceCap` (`EvidenceCap.dfy`): `capEvidenceByDomain`, as a method with its loop. The domain queues are a `map`, and their insertion order is a `seq` of keys.
- `ResultBundle` (`ResultBundle.dfy`): the output types the pipeline reads, and `buildResultBundle`.
- `PromptBuilder` (`PromptBuilder.dfy`): `buildResearchPrompt` and its input types.
- `ResearchPipeline` (`Pipeline.dfy`): `truncate`, the mode plan, the normalisation loop (a method with nested loops), the repair flow and the run itself.
- `Wrappers` (`Wrappers.dfy`): `Option` and `Result`.

The outside world is passed in as parameters:

- the search provider, as `search`;
- `new URL(url).hostname`, as `parseHost`, where `None` means the constructor throws;
- the clock, as the timestamp `nowIso`;
- `JSON.stringify`, as `stringify`;
- the language model, as `llm`, returning the reply text or an error;
- `JSON.parse` followed by the schema check, as `tryParse`.

## Model

| member | source | states |
|---|---|---|
| ResearchPipeline.Clean | src/research/research.pipeline.ts:32 | `(s ?? "").replace(/\s+/g, " ").trim()` is the input's words (maximal runs of non-whitespace) joined by single spaces, and a missing string gives "": no two whitespace characters side by side, none at either end, and only plain spaces |
| Text.CollapseIsJoinOfWords | src/research/research.pipeline.ts:32 | collapsing every whitespace run to one space and then trimming gives the words of the input joined by single spaces |
| ResearchPipeline.Truncate | src/research/research.pipeline.ts:31-34 | clean text that fits is returned as is; longer text becomes its first `max` characters plus one ellipsis; the result is never longer than `max + 1`, stays clean, and a missing string gives "" |
| ResearchPipeline.TruncateOfClean | src/research/research.pipeline.ts:31-34 | already clean text that fits comes back unchanged |
| ResearchPipeline.TruncateIdempotent | src/research/research.pipeline.ts:31-34 | truncating a truncated result again, with room for the ellipsis, changes nothing |
| Text.TrimIsInfix | src/research/research.pipeline.ts:32 | `trim()` returns an infix whose removed ends are all whitespace, and the result starts and ends with non-whitespace |
| Text.CollapseShape | src/research/research.pipeline.ts:32 | `replace(/\s+/g, " ")` leaves no whitespace run longer than one and only plain spaces |
| ResearchPipeline.Queries | src/research/research.pipeline.ts:121-129 | one query in quick mode and two in deep mode |
| ResearchPipeline.QueriesFrame | src/research/research.pipeline.ts:121-129 | every query starts with the trimmed prompt and ends with the market |
| ResearchPipeline.QuickPlan | src/research/research.pipeline.ts:116-139 | quick mode issues exactly one search, for the trimmed prompt + " party decorations trends " + market, with 5 basic-depth results; evidence capped at 10 with 3 per domain; temperature 0.2 |
| ResearchPipeline.DeepPlan | src/research/research.pipeline.ts:116-139 | deep mode issues exactly two searches, in order, for the trimmed prompt + " party decorations trends themes 2026 " + market and the trimmed prompt + " party decor best sellers Etsy keywords " + market, each with 6 advanced-depth results; evidence capped at 25 with 3 per domain; temperature 0.15 |
| ResearchPipeline.ToEvidence | src/research/research.pipeline.ts:145-155 | a result yields an item exactly when its address parses |
| ResearchPipeline.ItemFields | src/research/research.pipeline.ts:145-155 | the item keeps the address, date and query, takes the host as domain and the capture time; the title is the result's title or else the host, cut to 140; the snippet is the content or "", cut to 500 |
| ResearchPipeline.CollectEvidence | src/research/research.pipeline.ts:141-160 | the nested loop returns exactly the items of every query's parsable results, in query order, then result order |
| ResearchPipeline.NormalizeQueryAppend | src/research/research.pipeline.ts:143-156 | results keep their order: the evidence of `a + b` is that of `a` followed by that of `b` |
| ResearchPipeline.NormalizeQueryCount | src/research/research.pipeline.ts:145-148 | a result whose address does not parse is dropped, and every other result gives exactly one item |
| ResearchPipeline.NormalizeQueryAllParsed | src/research/research.pipeline.ts:143-156 | when every address parses, result `k` becomes item `k` |
| ResearchPipeline.NormalizeQueryOrigin | src/research/research.pipeline.ts:143-156 | every item is made from one of the query's parsable results |
| ResearchPipeline.NormalizeAllPrefix | src/research/research.pipeline.ts:141-160 | the evidence of the first `i` queries is a prefix of all the evidence |
| ResearchPipeline.NormalizeAllBound | src/research/research.pipeline.ts:141-160 | never more items than results |
| ResearchPipeline.NormalizeAllQueries | src/research/research.pipeline.ts:141-160 | every item names one of the issued queries |
| EvidenceCap.GroupByDomain | src/research/research.pipeline.ts:74-81 | one queue per domain holding that domain's items in input order, with the domains in order of first appearance |
| EvidenceCap.CapEvidenceByDomain | src/research/research.pipeline.ts:69-102 | the output has length min(maxTotal, Σ over domains of min(count, maxPerDomain)), with negative caps acting as zero; at most maxPerDomain items per domain; each domain's items a prefix of its items in the input; no item used more often than it occurs; with maxPerDomain ≥ 1 it starts with the first item of each domain, in order of first appearance; when both caps are at least the input length, the output is a permutation of the input |
| EvidenceCap.CapTargetAtMostInput | src/research/research.pipeline.ts:69-102 | the selection is never longer than the input |
| EvidenceCap.CapTargetUncapped | src/research/research.pipeline.ts:69-102 | with a per-domain cap no domain reaches, the target is every item |
| EvidenceCap.SelectionKeepsAllWhenUncapped | src/research/research.pipeline.ts:69-102 | when both caps are at least the input length, a selection of the target length that uses no item more often than the input holds every item exactly as often as the input |
| ResearchPipeline.CallLlmJson | src/research/research.pipeline.ts:20-30 | a failed call rejects with that call's error; a reply gives an infix of its text, with only whitespace removed at either end, that starts and ends with non-whitespace |
| ResearchPipeline.CallLlmJsonKeepsTrimmed | src/research/research.pipeline.ts:20-30 | a reply that has no whitespace at either end is passed on unchanged |
| ResearchPipeline.GenerateWithRepair | src/research/research.pipeline.ts:189-220 | one or two calls; the first uses the prompt at the mode's temperature; a second call happens exactly when the first reply arrives and does not validate, and it uses the prompt plus the repair suffix at temperature 0 |
| ResearchPipeline.FirstValidReturned | src/research/research.pipeline.ts:189-205 | a valid first output is returned unchanged after one call |
| ResearchPipeline.FirstCallFails | src/research/research.pipeline.ts:189 | a failed first call rejects with its error after one call |
| ResearchPipeline.RepairCallFails | src/research/research.pipeline.ts:208-212 | a failed repair call rejects with its error after two calls |
| ResearchPipeline.RepairValidReturned | src/research/research.pipeline.ts:208-217 | a valid repair output is returned after two calls |
| ResearchPipeline.InvalidOutputDegrades | src/research/research.pipeline.ts:219-220 | two invalid outputs give `{ rows: [], clusterBundles: [] }` after two calls |
| ResearchPipeline.RepairFollowsSuccess | src/research/research.pipeline.ts:202-212 | a repair call is only made after a first call that succeeded |
| ResearchPipeline.RejectsOnlyOnFailedCall | src/research/research.pipeline.ts:189-220 | a rejection carries the error of the last call made, which failed |
| ResearchPipeline.OutcomeValidOrEmpty | src/research/research.pipeline.ts:189-220 | a successful outcome is either the empty output or the validated output of one of the calls made |
| ResearchPipeline.SearchAll | src/research/research.pipeline.ts:131-139 | succeeds exactly when every search succeeds, and then holds each search's results in request order |
| ResearchPipeline.ToPromptEvidence | src/research/research.pipeline.ts:167-181 | the prompt receives every kept item, in order, with all fields but the capture time |
| ResearchPipeline.PromptInputFor | src/research/research.pipeline.ts:166-181 | the language defaults to "en"; prompt, mode, market and topic are passed on unchanged; the evidence is the kept items projected field by field, in order |
| ResearchPipeline.GatherEvidence | src/research/research.pipeline.ts:114-164 | issues the mode's searches; a failed search gives its error; otherwise the kept evidence is the domain-capped selection of the normalised results |
| ResearchPipeline.RunResearchPipeline | src/research/research.pipeline.ts:111-220 | a failed search rejects before any model call, with no evidence; otherwise the kept evidence is the capped selection (at most 10 or 25 items), and the calls and outcome are those of the repair flow on the prompt built from it at the mode's temperature |
| ResearchPipeline.RunResearchPipelineAsWritten | src/research/research.pipeline.ts:185-189 | as written, the run never calls the model and always rejects; when the searches succeed it rejects because `client` is undefined |
| ResultBundle.Take | src/research/research.pipeline.ts:37 | `slice(0, n)` is a prefix of length min(length, n) |
| ResultBundle.SummaryLines | src/research/research.pipeline.ts:41-44 | one summary line per cluster, in order |
| ResultBundle.Titles | src/research/research.pipeline.ts:49 | the titles of the actions, one per action, in order |
| ResultBundle.ToSources | src/research/research.pipeline.ts:56-59 | one source per evidence reference, keeping its url and title |
| ResultBundle.BuildResultBundle | src/research/research.pipeline.ts:36-67 | at most five next steps and five sources; the next steps are a prefix of the clusters' action titles |
| ResultBundle.BundleShape | src/research/research.pipeline.ts:36-67 | the title names the prompt; the summary joins one line per used cluster (at most three), each naming its cluster and a prefix of at most three keywords; the next steps and sources are the first five action titles and evidence references of the used clusters, sources keeping url and title |
| ResultBundle.BundleIgnoresLaterClusters | src/research/research.pipeline.ts:37 | clusters after the third never affect the bundle |
| ResultBundle.MissingArraysAreEmpty | src/research/research.pipeline.ts:37-54 | for every output, the bundle is the same as for the output with a missing cluster list replaced by an empty one and, in every cluster, each missing keyword, action or evidence list replaced by an empty one |
| ResultBundle.EmptyBundle | src/research/research.pipeline.ts:36-67 | with no clusters the bundle holds only its title |
| ResultBundle.NextStepsFromTopClusters | src/research/research.pipeline.ts:47-51 | the next steps are a prefix of the top clusters' action titles, and there are five of them whenever the top clusters offer five |
| ResultBundle.ActionTitlesAt | src/research/research.pipeline.ts:47-50 | action `a` of cluster `c` sits at position (titles of the earlier clusters) + `a` of the flattened titles |
| ResultBundle.SummaryLineCount | src/research/research.pipeline.ts:41-45 | when no cluster name or keyword holds a line break, the summary has exactly one line per used cluster |
| PromptBuilder.DecimalText | src/research/prompt.builder.ts:100-101 | a number is written as one or more decimal digits |
| PromptBuilder.DecimalRoundTrip | src/research/prompt.builder.ts:100-101 | reading the written digits back gives the number |
| PromptBuilder.EvidencePayload | src/research/prompt.builder.ts:23-30 | one payload object per evidence entry, in order |
| PromptBuilder.Keys | src/research/prompt.builder.ts:23-30 | an object's keys, in the order they are written |
| PromptBuilder.PayloadRoundTrip | src/research/prompt.builder.ts:23-30 | every payload object has the keys url, domain, title, snippet, publishedAt and query, in that order, and its evidence entry reads back from it unchanged, with a missing date as null |
| PromptBuilder.EntryRoundTrip | src/research/prompt.builder.ts:23-30 | one entry's object has the six keys in order and decodes back to the entry |
| PromptBuilder.BuildResearchPrompt | src/research/prompt.builder.ts:19-104 | the prompt is the template's lines joined by line breaks, because `trim` removes exactly the template's outer line breaks; it starts with the role line and ends with the keyword constraint |
| PromptBuilder.PromptTrimmed | src/research/prompt.builder.ts:32-33 | trimming the padded template gives the joined lines, which start with the first line and end with the last |
| PromptBuilder.PromptContext | src/research/prompt.builder.ts:46-50 | the prompt, topic (absent reads as "general"), market, language and mode each appear as a whole line |
| PromptBuilder.PromptEmbedsEvidence | src/research/prompt.builder.ts:52-53 | the serialised evidence payload appears as a whole line |
| PromptBuilder.PromptLimits | src/research/prompt.builder.ts:20-21 | deep mode asks for 3–7 clusters, at most 25 rows and 7 bundles; quick mode for 2–4 clusters, at most 12 rows and 4 bundles; each as a whole line |
| PromptBuilder.ClusterText | src/research/prompt.builder.ts:58 | the clustering task line for each mode |
| PromptBuilder.RowsText | src/research/prompt.builder.ts:100 | the row-limit line for each mode |
| PromptBuilder.BundlesText | src/research/prompt.builder.ts:101 | the bundle-limit line for each mode |
| Text.JoinHasLine | src/research/prompt.builder.ts:32-103 | every part of a line-break join other than the first and the last is a whole line of it |

## Left out

- Strings are sequences of Dafny characters. JavaScript `length` and `slice` count UTF-16 code units, and `slice` can split a surrogate pair. This model does not represent that.
- `\s` and `trim()` use the ECMAScript whitespace set (WhiteSpace plus LineTerminator), written out as a fixed list of characters.
- `Promise.all` (lines 131-139) is modelled as sequential searches. The rejection is the first failure in query order. The real one is the first failure in time, and concurrency is not modelled.
- The search provider (HTTP, caching, retries and timeouts), the Genkit `Chat` call and its `output_text ?? text ?? content` selection, `new URL`, `JSON.stringify`, `JSON.parse` with the schema, and the clock are parameters. Their own behaviour is not modelled.
- `console.error` at line 219 is a log line. It does not affect the result, so it is left out.
- Lines 222-250 of `research.pipeline.ts` (scoring, ranking, attaching the result bundle) follow `return` statements on every path, so they never run. `buildResultBundle` is modelled on its own.
- The `?? ""` at line 183 never applies, because `buildResearchPrompt` always returns a string.
- EvidenceCap.CapEvidenceByDomain: output order is specified only for the first pass over the domains. `splice` keeps `i` unchanged, so once a domain is retired the order of later passes depends on the index arithmetic. Those later passes are bounded only by the counts, prefixes and multiset stated above.
- Sampling temperatures are written in hundredths (20, 15, 0), not as floating point.
- PromptBuilder.BuildResearchPrompt: its body holds every template line verbatim. The lemmas state the request-dependent lines, the evidence line, the limit lines and both ends. They do not restate each fixed instruction line.
- Persistence, HTTP routes, the server, the rate-limit retry wrapper and the scoring modules are not part of this model.

## Findings

| source | as written | input that shows it | evidently intended | confidence | as-written member | corrected member |
|---|---|---|---|---|---|---|
| src/research/research.pipeline.ts:189 | `callLLMJson(client, …)` reads `client`, but its declaration at line 185 is commented out. Every run whose searches succeed throws a ReferenceError before any model call. | any request whose searches succeed, e.g. quick mode with one successful search | `callLLMJson` ignores its first argument, so the model is called and the validate/repair flow decides the outcome | not executed; high | ResearchPipeline.RunResearchPipelineAsWritten | ResearchPipeline.RunResearchPipeline |
