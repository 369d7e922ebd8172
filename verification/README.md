# SIA core, modelled in Dafny

This project models the core of SIA, the "Strategic Insider Assistant". The model covers the request path from a user query to a response, and the deliberation and graph tooling around it:

- **L0 safety gate** (`Policy`). Input is sanitised: control characters are deleted, whitespace is collapsed and the ends are stripped. The sanitised text is then checked against ordered rule lists, and the first matching rule wins. The output check uses the general list and then a stricter output-only list.
- **Graph-of-Thoughts planner** (`Thoughts`, `Transformations`, `Scoring`, `Planner`). This is a bounded breadth search over an append-only list of thoughts with parent references. Children are scored heuristically and the best of each frontier node are kept. The best leaves are then merged into one synthesis thought.
- **Graph export and rendering** (`GraphExport`, `LayoutEngine`, `ForceGraph`). Each thought becomes a JSON record. Records below a score threshold are pruned, with dangling parents re-set in place. The records are then converted to the 3-D widget's node and link lists.
- **Orchestration** (`StateGraph`, `Supervisor`). The shared pipeline state is a class. The graph's topology is stated as a function. The keyword router and the planning step update the state in place.
- **Conversation window and completion client** (`Context`, `ModelLoader`). The window is a bounded turn history with eviction and rendering. The completion client covers request bounds, the request payload and the precedence of response shapes.
- **Entity and relation extraction** (`EntityExtractor`). A matcher written for the one entity pattern stands in for the regex engine. Entities are deduplicated and capped. Relation triplets are split on case-insensitive phrases.
- **The request pipeline** (`App`). It runs the input gate, the user turn, the graph run and the output gate, then records the assistant turn.

Imperative source becomes methods with loops, proved against specification functions:
- the planner's loops, the scorer loop, `prune_low_score`'s in-place update of the record array;
- the context's eviction loop;
- `extract_entities`, `extract_triplets` and `run_sia`.

Pure source becomes functions and lemmas.

The password rule at l0_alignment/policy.py:6 is word-bounded (`\b...\b`), so "passwords123" passes: `Policy.DefaultRejectsPassword` states the rejecting side and `Policy.DefaultAllowsGluedPassword` the passing one.

## Model

| member | source | states |
|---|---|---|
| Text.Lower | orchestration/supervisor_agent.py:6 | `str.lower()` on ASCII: same length, every character lowered position by position |
| Text.Upper | core_inference/context_manager.py:19 | `str.upper()` on ASCII: same length, every character upper-cased position by position |
| Text.Strip | memory_store/graph_rag/entity_extractor.py:31 | `str.strip()`: the result is a contiguous slice of the input that neither starts nor ends with whitespace, and only whitespace was dropped around it |
| Text.Take | memory_store/graph_rag/entity_extractor.py:28 | Python `xs[:n]`: a prefix; the whole list when `n` reaches its length; exactly `n` elements when `0 <= n <= len` |
| Text.JoinContainsParts | core_inference/context_manager.py:20 | every part of `sep.join(xs)` occurs in the joined text |
| Text.StripKeepsInner | core_inference/context_manager.py:20 | stripping keeps every occurrence of a text that starts and ends with a non-space |
| Policy.RemoveControl | l0_alignment/policy.py:34 | the result holds no character of `[\x00-\x08\x0b\x0c\x0e-\x1f]`, is no longer than the input, and a text without such characters is returned unchanged |
| Policy.RemoveControlChar | l0_alignment/policy.py:34 | a single character is deleted exactly when it is in the control class, and kept otherwise |
| Policy.RemoveControlAppend | l0_alignment/policy.py:34 | deleting distributes over concatenation, so with `RemoveControlChar` the result is exactly the input's non-control characters, in order |
| Policy.Collapse | l0_alignment/policy.py:35 | `re.sub(r"\s+", " ", ...)`: empty exactly when the input is; the first character is a space when the input starts with whitespace, and the input's first character otherwise |
| Policy.CollapseKeeps | l0_alignment/policy.py:35 | only single plain spaces remain; the same non-whitespace characters, in order; no control character is added |
| Policy.CollapseWord | l0_alignment/policy.py:35 | a run of non-whitespace characters is copied as it is and collapsing goes on after it |
| Policy.CollapseRun | l0_alignment/policy.py:35 | a whole whitespace run followed by a non-space (or the end) becomes exactly one `" "` |
| Policy.CollapseUnchanged | l0_alignment/policy.py:35 | a text that is already single-spaced is returned unchanged |
| Policy.Sanitize | l0_alignment/policy.py:32-36 | the result has no control characters, no leading or trailing whitespace and only single spaces, and keeps exactly the non-whitespace characters of the control-free input |
| Text.WordsAreWords | l0_alignment/policy.py:35-36 | every word of `Words` (the maximal whitespace-free runs, as `str.split()` gives them) is non-empty and holds no whitespace |
| Policy.SanitizeWords | l0_alignment/policy.py:32-36 | sanitising is joining the words of the control-free text with single spaces: `sanitize(x) == " ".join(remove_control(x).split())` |
| Policy.StripKeepsClean | l0_alignment/policy.py:35 | stripping a single-spaced control-free text leaves it clean |
| Policy.SanitizeCleanUnchanged | l0_alignment/policy.py:32-36 | a clean text is its own sanitisation |
| Policy.SanitizeIdempotent | l0_alignment/policy.py:32-36 | `sanitize(sanitize(x)) == sanitize(x)` |
| Policy.LowerSanitize | l0_alignment/policy.py:32-36 | lower-casing before or after sanitising gives the same text |
| Policy.FirstMatchFrom | l0_alignment/policy.py:41-43 | the scan returns the first index from `from` whose rule matches, or none when no later rule matches |
| Policy.FirstMatch | l0_alignment/policy.py:41-43 | some index exactly when some rule matches, and then the first matching rule |
| Policy.CheckInput | l0_alignment/policy.py:38-44 | `sanitized` is the sanitised text; allowed exactly when no general rule matches it; the reason is "Allowed" or names the first matching rule's pattern |
| Policy.CheckOutput | l0_alignment/policy.py:46-60 | allowed exactly when neither list matches; a general-list match wins over an output-list match; the reason names the first matching rule of the deciding list with that list's prefix |
| Policy.OutputStricterThanInput | l0_alignment/policy.py:38-60 | whatever the output check allows the input check allows, and whatever the input check rejects the output check rejects |
| Policy.RuleMatchesIgnoresCase | l0_alignment/policy.py:25 | an IGNORECASE rule matches two texts equal up to ASCII case alike |
| Policy.SanitizeIgnoresCase | l0_alignment/policy.py:32-36 | texts equal up to case sanitise to texts equal up to case |
| Policy.CheckIgnoresCase | l0_alignment/policy.py:38-60 | changing the case of ASCII letters never changes either verdict |
| Policy.NewPolicy | l0_alignment/policy.py:24-30 | a missing or empty pattern list falls back to `DEFAULT_BLOCKLIST`; the output-only list is always the two fixed patterns |
| Policy.DefaultRejectsPassword | l0_alignment/policy.py:5-10 | a word-bounded "password" in any letter case is rejected by the default policy, with the first default pattern as the reason |
| Policy.WordRunPhrase | l0_alignment/policy.py:6-9 | inside a run of word characters `\b` holds only at the two ends, so a phrase is found there only when it spans the whole run |
| Policy.WordRunMissesRule | l0_alignment/policy.py:25 | `pat.search` fails on a run of word characters when no phrase of the rule is as long as the run |
| Policy.WordRunAllowed | l0_alignment/policy.py:5-10 | a run of word characters whose length no default phrase has passes the default input check |
| Policy.DefaultAllowsGluedPassword | l0_alignment/policy.py:6 | "passwords123" passes the default input check |
| Scoring.CountPresent | metacognition/graph_of_thoughts/scoring.py:11-12 | the count of present words never exceeds the number of words |
| Scoring.LengthTerm | metacognition/graph_of_thoughts/scoring.py:13 | `min(len/800, 1)`: between 0 and 1, exactly 1 from 800 characters on, `len/800` below |
| Scoring.Score | metacognition/graph_of_thoughts/scoring.py:9-14 | every score lies in [-7.0, 4.5] |
| Scoring.CountPresentEmpty | metacognition/graph_of_thoughts/scoring.py:11-12 | no non-empty word is counted in the empty text |
| Scoring.ScoreOfEmpty | metacognition/graph_of_thoughts/scoring.py:9-14 | the empty text scores exactly 0.5 |
| Scoring.CountPresentByPresence | metacognition/graph_of_thoughts/scoring.py:11-12 | the count depends only on which words are present |
| Scoring.ScoreDependsOnPresenceOnly | metacognition/graph_of_thoughts/scoring.py:9-14 | two texts of equal length with the same risk and clarity words present score the same, however often the words repeat |
| Scoring.ScoreIgnoresCase | metacognition/graph_of_thoughts/scoring.py:10 | texts equal up to ASCII case score the same |
| Scoring.ScoreLongClearText | metacognition/graph_of_thoughts/scoring.py:9-14 | a text of 800 or more characters with no risk word and three clarity words scores exactly 3.0 |
| Scoring.RiskWordCostsOnce | metacognition/graph_of_thoughts/scoring.py:11 | a risk word costs exactly 1.5, once |
| Scoring.ClarityWordCountsOnce | metacognition/graph_of_thoughts/scoring.py:12 | a clarity word adds exactly 0.5, once |
| Thoughts.NewThought | metacognition/graph_of_thoughts/node.py:7-14 | a new node holds the given content, parent and id, the default score 0.0 and an empty `meta` |
| Transformations.FormatSeedPlain | metacognition/graph_of_thoughts/transformations.py:6 | a template without `{` formats to itself |
| Transformations.FormatSeedSplice | metacognition/graph_of_thoughts/transformations.py:6 | a template with one `{seed}` field gets the seed content spliced in its place |
| Transformations.Generate | metacognition/graph_of_thoughts/transformations.py:5-6 | one child per prompt in prompt order; each child's parent is the seed, its content the prompt formatted with the seed's content, its id the next fresh id |
| Transformations.AggregateEmpty | metacognition/graph_of_thoughts/transformations.py:8-10 | the synthesis of nothing is the bare header with no parent |
| Transformations.Aggregate | metacognition/graph_of_thoughts/transformations.py:8-10 | a fresh node with the given id, score 0.0 and empty `meta`, whose content starts with `"SYNTHESIS:\n"` and whose parent is the first merged node's parent, or none for an empty list |
| Transformations.Entries | metacognition/graph_of_thoughts/transformations.py:9 | one `"- (score) content"` entry per merged node, in order |
| Transformations.AggregateQuotesAll | metacognition/graph_of_thoughts/transformations.py:8-10 | the synthesis starts with the header and contains the content of every merged node |
| Planner.SortDesc | metacognition/graph_of_thoughts/planner.py:35 | the sort keeps the number of thoughts |
| Planner.SortDescPermutes | metacognition/graph_of_thoughts/planner.py:35 | the sort is a permutation of its input |
| Planner.SortDescSorted | metacognition/graph_of_thoughts/planner.py:35 | the sort orders by descending score |
| Planner.SortDescStable | metacognition/graph_of_thoughts/planner.py:35 | the sort is stable: thoughts of equal score keep their relative order |
| Planner.GrownGeometric | metacognition/graph_of_thoughts/planner.py:28-36 | when no child is dropped, the levels add `k + k^2 + ... + k^n` thoughts |
| Planner.KeptAll | metacognition/graph_of_thoughts/planner.py:31 | for a non-negative width every generated child is kept: `min(width, 4)` children per node |
| Planner.ScoreAll | metacognition/graph_of_thoughts/planner.py:32-33 | the loop gives every child the scorer's verdict on its content and changes nothing else |
| Planner.ChildrenAt | metacognition/graph_of_thoughts/planner.py:31-33 | child `c` of a node is what prompt `c` makes of it: parent the node, content the prompt formatted with the node's content, score the scorer's verdict on that content, id `next + c` |
| Planner.ChildrenScored | metacognition/graph_of_thoughts/planner.py:31-33 | generating and then running the scoring loop gives those children |
| Planner.LevelGroupsChild | metacognition/graph_of_thoughts/planner.py:29-34 | at one level, child `c` of frontier node `j` points to that node, is built from prompt `c`, and has the id `next + len(prompts) * j + c`: `len(prompts)` children per frontier node, in frontier order |
| Planner.GenerateLevel | metacognition/graph_of_thoughts/planner.py:29-35 | the inner loop appends the groups of children in frontier order and keeps the best `width` of each group, in the same order |
| Planner.KeepBestCounts | metacognition/graph_of_thoughts/planner.py:35 | the next frontier is drawn from the generated children, and is all of them when the width covers every group |
| Planner.ExpandNode | metacognition/graph_of_thoughts/planner.py:30-35 | one inner-loop pass appends the node's scored children to `explored`, with fresh ids by position, and its best `width` to the next frontier |
| Planner.ExpandLevel | metacognition/graph_of_thoughts/planner.py:28-36 | one level is exactly `NextLevel`: `explored` gains every frontier node's group of children, in frontier order, and the new frontier is the concatenation of each group's best `width`; `len(prompts) * len(frontier)` thoughts are added and the frontier is drawn from them |
| Planner.Search | metacognition/graph_of_thoughts/planner.py:17-36 | the loop's states form the trace that starts with the root alone and takes `NextLevel` at every level, ending with the returned `explored` and frontier; ids count up by position and the sizes follow `Grown` and `Pow` |
| Planner.TraceGrows | metacognition/graph_of_thoughts/planner.py:28-36 | a trace extended by the next level of its last state is still the search's trace |
| Planner.SearchTraceUnique | metacognition/graph_of_thoughts/planner.py:17-36 | two traces of the same search agree at every level both reach: the levels are determined by the objective |
| Planner.Plan | metacognition/graph_of_thoughts/planner.py:16-42 | the result is the synthesis of the search's state after `depth` levels (prompts `PROMPTS[:width]`): `explored` is the root, every generated child and the synthesis last, with earlier parents; the final content is the header joined with the entries of the best `max(1, width)` leaves of that frontier; the final score is the scorer's verdict on it |
| Planner.PlannedUnique | metacognition/graph_of_thoughts/planner.py:16-42 | `plan` is deterministic: the same objective, depth, width and scorer give one result |
| Planner.AppendFinal | metacognition/graph_of_thoughts/planner.py:39-41 | appending the synthesis keeps ids by position and parents first |
| Planner.LeafParent | metacognition/graph_of_thoughts/planner.py:38-39 | the synthesis' parent is an existing thought |
| Planner.DefaultPlanSize | metacognition/graph_of_thoughts/planner.py:16 | with `depth=2, width=3` the planner explores 14 thoughts |
| Planner.ExploredCount | metacognition/graph_of_thoughts/planner.py:28-41 | without pruning, `len(explored) == 2 + w + w^2 + ... + w^depth` with `w = min(width, 4)` |
| GraphExport.Label | metacognition/visualization/graph_export.py:11 | the label is the content when at most 80 characters, otherwise its first 80 characters followed by "..." |
| GraphExport.ExportGot | metacognition/visualization/graph_export.py:5-17 | one record per thought, in order |
| GraphExport.ExportAppend | metacognition/visualization/graph_export.py:7-16 | exporting a concatenation is concatenating the exports |
| GraphExport.ExportKeepsForest | metacognition/visualization/graph_export.py:9-10 | thoughts with ids by position and earlier parents export to records whose every parent resolves to an earlier record |
| LayoutEngine.KeptInOrder | metacognition/visualization/layout_engine.py:5 | the kept positions are exactly those whose record has a score of at least `min_score` or no parent, each once, increasing |
| LayoutEngine.KeptNodes | metacognition/visualization/layout_engine.py:5 | the surviving records are the records at the kept positions, in list order |
| LayoutEngine.Reparent | metacognition/visualization/layout_engine.py:8-9 | only `parent` may change; it becomes None exactly when it names a record outside the kept ids; afterwards a present parent names a kept record |
| LayoutEngine.ReparentAll | metacognition/visualization/layout_engine.py:7-9 | every record re-parented against the same ids |
| LayoutEngine.Survivors | metacognition/visualization/layout_engine.py:5 | the filter loop returns the surviving records and their positions |
| LayoutEngine.ReparentInPlace | metacognition/visualization/layout_engine.py:7-9 | the surviving records are updated in place in the array and returned in order; every other array slot is untouched |
| LayoutEngine.PruneLowScore | metacognition/visualization/layout_engine.py:3-10 | a document without nodes prunes to nothing; otherwise the result is the re-parented survivors, the array holds them at their positions, and non-surviving records are untouched |
| LayoutEngine.PrunedClosed | metacognition/visualization/layout_engine.py:6-10 | after pruning every present parent is the id of a record in the result |
| LayoutEngine.Pruned | metacognition/visualization/layout_engine.py:3-10 | pruning never adds records, and every remaining parent is the id of a surviving record |
| LayoutEngine.RootsKept | metacognition/visualization/layout_engine.py:5 | every root survives unchanged |
| LayoutEngine.AllKept | metacognition/visualization/layout_engine.py:5 | a list whose records all pass the filter is kept whole |
| LayoutEngine.ReparentKeepsIds | metacognition/visualization/layout_engine.py:7-9 | re-parenting keeps the set of ids |
| LayoutEngine.ReparentTwice | metacognition/visualization/layout_engine.py:7-9 | re-parenting twice against the same ids is re-parenting once |
| LayoutEngine.PruneIdempotent | metacognition/visualization/layout_engine.py:3-10 | pruning a pruned graph with the same threshold changes nothing |
| ForceGraph.FgNodes | interface/components/force_graph_3d.js:2-7 | one widget node per record, in order, with `id`, `name` from the label, `score` and `content` |
| ForceGraph.ToForceGraph | interface/components/force_graph_3d.js:1-12 | the nodes are the widget nodes of the document's records and the links are their links; a missing document or one without nodes gives neither; never more links than nodes |
| ForceGraph.Links | interface/components/force_graph_3d.js:8-10 | at most one link per record |
| ForceGraph.LinksOfOne | interface/components/force_graph_3d.js:8-10 | a record with a parent gives exactly the link from that parent to it; a record without one gives none |
| ForceGraph.LinksAppend | interface/components/force_graph_3d.js:8-10 | the links of a concatenation are the links of each part in order, so links follow record order |
| ForceGraph.LinksAreParents | interface/components/force_graph_3d.js:8-10 | a link is in the result exactly when some record has that parent as source and its own id as target |
| ForceGraph.PrunedLinksResolve | interface/components/force_graph_3d.js:8-10 | a pruned graph renders without dangling links: every link's source is the id of a drawn node |
| Context.ContextManager.constructor | core_inference/context_manager.py:6-9 | a new history has the given `max_turns` and no turns |
| Context.ContextManager.Add | core_inference/context_manager.py:11-14 | the turns become the newest `max_turns` of the old turns plus the new one; a negative `max_turns` empties them and raises |
| Context.ContextManager.Render | core_inference/context_manager.py:16-20 | the loop builds one block per turn, joined by newlines and stripped |
| Context.RoleTag | core_inference/context_manager.py:19 | the role line is the upper-cased role in brackets, two characters longer than the role |
| Context.WindowShape | core_inference/context_manager.py:11-14 | the history holds `min(len, max_turns)` turns, the newest ones in order, with the newest last |
| Context.DefaultKeepsNewest | core_inference/context_manager.py:6-14 | with the dataclass default `max_turns=24`, a history of more than 24 turns keeps exactly its newest 24, in order |
| Context.AddBelowCapacity | core_inference/context_manager.py:11-14 | below capacity `add` only appends |
| Context.WindowStep | core_inference/context_manager.py:11-14 | evicting before or after an append gives the same history |
| Context.ReplayIsWindow | core_inference/context_manager.py:11-14 | adding turns one by one to a history within capacity keeps the newest `max_turns` of all of them |
| Context.WindowAppend | core_inference/context_manager.py:11-14 | evicting first and then appending more turns gives the same history |
| Context.OverfillKeepsNewest | core_inference/context_manager.py:11-14 | adding `n + 5` turns to an empty history leaves exactly the last `n`, in order |
| Context.RenderedShowsTurn | core_inference/context_manager.py:16-20 | every turn shows up in the rendering: its upper-cased role in brackets and, below it, its stripped content when not blank |
| Context.Rendered | core_inference/context_manager.py:16-20 | the rendering neither starts nor ends with whitespace |
| Context.RenderedKeeps | core_inference/context_manager.py:20 | text inside one block that starts and ends with a non-space survives the final strip |
| Context.BlockParts | core_inference/context_manager.py:19 | a block holds its role line, and the role line followed by the stripped content |
| ModelLoader.NewRequest | core_inference/model_loader.py:7-12 | a request is built exactly when `1 <= max_tokens <= 4096`, `0 <= temperature <= 2` and `0 <= top_p <= 1`, with the given fields |
| ModelLoader.DefaultsValid | core_inference/model_loader.py:9-11 | the defaults 512, 0.2 and 0.95 form a valid request |
| ModelLoader.BuildPayload | core_inference/model_loader.py:19-26 | the payload has the prompt, `n_predict = max_tokens`, temperature and top_p, plus `"stop"` exactly when a non-empty stop list is given |
| ModelLoader.ContentFirst | core_inference/model_loader.py:30-31 | a string `"content"` is returned whatever `"choices"` and `"text"` hold |
| ModelLoader.ChoicesIgnoreTopLevelText | core_inference/model_loader.py:32-34 | otherwise non-empty choices decide: the first choice's truthy `text`, else its `content`, else `""`; top-level `text` is never consulted |
| ModelLoader.TextThird | core_inference/model_loader.py:35-36 | otherwise a string top-level `"text"` is returned |
| ModelLoader.Extract | core_inference/model_loader.py:30-37 | decoding fails only on the choices path: without a string `"content"` and with truthy `"choices"` |
| ModelLoader.ExtractFailsOnlyOnBadChoices | core_inference/model_loader.py:30-37 | decoding fails exactly when the choices branch is taken and the first choice is not an object; every other response decodes, to `str(data)` at worst |
| StateGraph.SiaState.constructor | interface/app.py:86 | the state the graph is invoked with: the query and an empty trace, nothing else |
| StateGraph.Route | orchestration/state_graph.py:21-27 | the node after the supervisor is one of three; retrieval exactly for mode "retrieve", planning exactly for mode "plan", otherwise (also with no mode) the answer |
| StateGraph.Walk | orchestration/state_graph.py:19-32 | every run starts at the supervisor and ends at the answer node, with at least two nodes |
| StateGraph.WalkFollowsEdges | orchestration/state_graph.py:29-32 | every step of a run follows an edge of the graph, and the last node's successor is END |
| StateGraph.WalkVisits | orchestration/state_graph.py:21-31 | a run executes the answer once, at the end, and retrieval or planning exactly in the matching mode, never both |
| Supervisor.Mode | orchestration/supervisor_agent.py:6-11 | the mode is "direct", "plan" or "retrieve" |
| Supervisor.SupervisorNode | orchestration/supervisor_agent.py:5-14 | the state's mode becomes the router's mode, the trace (created when missing) gains `"supervisor_mode"` and keeps every other entry; the other keys are unchanged |
| Supervisor.RoutedPath | orchestration/supervisor_agent.py:8-12 | after the supervisor, retrieval runs exactly when a retrieval keyword occurs, planning exactly when a planning keyword occurs and no retrieval keyword does, and the query is answered directly otherwise |
| Supervisor.KeywordIsSubstring | orchestration/supervisor_agent.py:8 | keywords are substrings: "Plant a sapling" is routed to planning |
| Supervisor.RetrievalOverridesPlanning | orchestration/supervisor_agent.py:8-11 | a query with both kinds of keyword ("What is the plan?") is routed to retrieval |
| Supervisor.PlanNode | orchestration/supervisor_agent.py:16-21 | the result is what the planner gives for the query with depth 2 and width 3 and the heuristic scorer: 14 thoughts, the root holding the query; the plan is the synthesis, which starts with the header; the trace gains `"got_graph"` with the export of all 14, whose parents all resolve; other keys unchanged |
| EntityExtractor.WordEnd | memory_store/graph_rag/entity_extractor.py:5 | `[A-Z][a-z]+` from a position, taking the whole lower-case run; none exactly when no capitalised word starts there |
| EntityExtractor.NextWord | memory_store/graph_rag/entity_extractor.py:5 | `\s+[A-Z][a-z]+` after a word, taking the whole whitespace run and the whole lower-case run; none when no whitespace run is followed by a capitalised word |
| EntityExtractor.LastBoundary | memory_store/graph_rag/entity_extractor.py:5 | the chosen end is the last candidate end at a word boundary; none exactly when no candidate end is at one |
| EntityExtractor.MatchAt | memory_store/graph_rag/entity_extractor.py:5 | the greedy match from a position: it starts at `\b`, and is the longest of the one to four chained words that ends at `\b`; none when the start is not at `\b` or no such end exists |
| EntityExtractor.BacksOffToBoundary | memory_store/graph_rag/entity_extractor.py:5 | the repetition gives words back until `\b` holds: in "Acme Corp9" only "Acme" is matched |
| EntityExtractor.EntityExtend | memory_store/graph_rag/entity_extractor.py:5 | one more whitespace-separated capitalised word extends an entity by one word |
| EntityExtractor.ChainEntities | memory_store/graph_rag/entity_extractor.py:5 | each further chained word yields an entity with one more word |
| EntityExtractor.MatchIsEntity | memory_store/graph_rag/entity_extractor.py:5 | every match is one to four capitalised words separated by whitespace |
| EntityExtractor.FindAllEntities | memory_store/graph_rag/entity_extractor.py:21 | everything `findall` returns is such an entity |
| EntityExtractor.FindAllMatches | memory_store/graph_rag/entity_extractor.py:21 | everything `findall` returns from a position is the text of a match starting at or after it |
| EntityExtractor.Dedup | memory_store/graph_rag/entity_extractor.py:22-27 | deduplication keeps exactly the values of its input |
| EntityExtractor.DedupOrder | memory_store/graph_rag/entity_extractor.py:22-27 | deduplication leaves no duplicates and orders values by their first occurrence |
| EntityExtractor.ExtractEntities | memory_store/graph_rag/entity_extractor.py:20-28 | the seen-set loop and the cut at 50 compute the first 50 distinct matches |
| EntityExtractor.EntitiesShape | memory_store/graph_rag/entity_extractor.py:20-28 | at most 50 entities, no duplicates, each a match of the pattern and an entity, in first-occurrence order; exactly the first `min(50, distinct)` distinct matches, so the cut applies after deduplication |
| EntityExtractor.Entities | memory_store/graph_rag/entity_extractor.py:20-28 | at most 50 entities, each found by `findall` |
| EntityExtractor.FindFrom | memory_store/graph_rag/entity_extractor.py:36 | the leftmost occurrence of the phrase at or after a position, with no occurrence before it |
| EntityExtractor.SplitFrom | memory_store/graph_rag/entity_extractor.py:36 | `re.split` always returns at least one part; the first is the text up to the first occurrence (or the end); when the phrase occurs there is a second part, running from after that occurrence to the next one or the end |
| EntityExtractor.ExtractTriplets | memory_store/graph_rag/entity_extractor.py:30-42 | the loop over `PREDICATES` appends, in order, the triplet each phrase contributes for the stripped text |
| EntityExtractor.RelateOnce | memory_store/graph_rag/entity_extractor.py:35-41 | one pass of the loop body gives the triplet the phrase contributes: none unless the phrase occurs and both sides hold an entity |
| EntityExtractor.TripletsOrdered | memory_store/graph_rag/entity_extractor.py:34-41 | at most one triplet per phrase, so at most five, with relations in `PREDICATES` order and none repeated |
| EntityExtractor.SplitAtFirst | memory_store/graph_rag/entity_extractor.py:35-37 | a phrase present in the lowered text is found, so the split has at least two parts, the first being the text before its first case-insensitive occurrence, where it occurs nowhere |
| EntityExtractor.TripletForCases | memory_store/graph_rag/entity_extractor.py:37-41 | a triplet is produced exactly when the phrase occurs and both parts hold an entity; its subject is the last entity listed for the left part, its relation the phrase's, its object the first entity of the right part |
| App.RunSia | interface/app.py:73-93 | the reply and the new history are those of the pipeline: rejection at once, or the accepted path on the sanitised query |
| App.RunAccepted | interface/app.py:78-93 | the user turn is added, the graph runs on the sanitised query with an empty trace, the output gate is applied, and the final response is added as the assistant turn |
| App.RejectedInputShortCircuits | interface/app.py:74-76 | a rejected query is answered with `"REJECTED by L0 Temple: " + reason` and a trace of exactly `{"l0": reason}`; the history is untouched and the graph is not consulted |
| App.OutputGateOnlyResponse | interface/app.py:88-90 | the output gate changes only `response`: it keeps an allowed one and otherwise replaces it with `"REJECTED by L0 Temple (output): " + reason` |
| App.AcceptedReply | interface/app.py:86-93 | an accepted query's reply is the graph's result for the sanitised query with its trace untouched, and its response is allowed by the output check or is the output rejection |
| App.MissingResponse | interface/app.py:88-92 | `run_sia` fails on `out["response"]` exactly when the graph returns no response and the output check lets `""` through |
| App.TwoTurnsInOrder | interface/app.py:78-92 | a successful accepted run adds exactly two turns, the sanitised query as the user's and then the final response as the assistant's, newest last |
| App.AddTwo | interface/app.py:78-92 | two `add`s in a row keep the newest turns with the two new ones last, in order |
| App.SessionHistoryBounded | interface/app.py:26 | with the session's `max_turns=18`, `run_sia` never raises `IndexError`, and a history of at most 18 turns stays at most 18 turns |

## Left out

- Regular expressions are not run by an engine. Each blocklist rule is its literal alternatives, matched at word boundaries. `ENTITY_RE` is a matcher written for that one pattern.
- `\w`, `[A-Z]`/`[a-z]` and letter case are ASCII only. Python's Unicode word characters and Unicode case mapping (including lowering that changes a string's length) are not modelled. Whitespace follows `str.isspace()`.
- `re.split(..., flags=re.IGNORECASE)` is modelled as occurrences in the ASCII-lowered text. This is equivalent for ASCII text only.
- Floating point is modelled as `real`. `n.score:.2f` formatting is the parameter `fmt`, and `str(data)` is the parameter `stringify`.
- `uuid4()` node ids are numbers from a counter threaded through the planner. `created_ts` (a clock) is not modelled. Ids in the export are treated as non-empty, so a present `parent` is truthy.
- The planner's scorer is a parameter. `plan_node` passes the heuristic scorer.
- The compiled graph is the parameter `graph` of `App.RunSia`. The retrieval and answer nodes (orchestration/retrieval.py, orchestration/respond.py) are not part of this model. Trace entries they write are `Opaque`, and the state's `retrieved` key is not modelled.
- HTTP (`requests.post`, `raise_for_status`, `r.json()`), environment variables, the Streamlit page, `ingest_note`, lancedb and neo4j are left out. Decoding starts from an already-parsed JSON object, and a top-level JSON value that is not an object is not modelled.
- `str.format` is modelled for templates whose only field is `{seed}`. Brace escapes (`{{`) do not occur in the prompts and are not modelled.
- `prune_low_score` is modelled on an array of record values. Aliasing between the input's records and the returned list is represented by writing each updated record back into the array, not by shared references.
- Context.ContextManager.Add: the `IndexError` raised by `popleft()` on an empty deque when `max_turns` is negative is reported as the flag `raised`, not as an exception.
- `supervisor_node` reads `state["user_query"]`, which is always present in the pipeline. A state without that key (a `KeyError`) is not modelled.
- App.RunAccepted: the overwrite of `out["response"]` is applied through the value-level update `Gated`, not a mutable dictionary.
- RemoveControl: its own contract states the absence of control characters and the identity on clean text. That the other characters are kept in order is stated by `Policy.RemoveControlChar` together with `Policy.RemoveControlAppend`.
- Collapse: its own contract states only emptiness and the first character. The full behaviour (words copied, each whitespace run becoming one space) is stated by `Policy.CollapseWord` and `Policy.CollapseRun`.
- Sanitize: its own contract states cleanliness and the kept non-space characters. Where the single spaces go is stated by `Policy.SanitizeWords`.
- EntityExtractor.TripletForCases: the subject is the last element of the deduplicated entity list of the left part, capped at 50. When an entity repeats on the left, or the left part has more than 50 distinct entities, this need not be the entity nearest to the phrase. The contract states the code's choice.
