# curiosity-quest: a verified model of AiService

curiosity-quest turns a learner's question into a "quest map". A language
model draws the map as a graph of questions, and the service stores it and
serves it back. `AiService` is the core of the backend, and this project
models its data-shaping logic in Dafny:

- **getQuest.** The question is first checked by the model: the reply must
  contain "YES" once trimmed and upper-cased. Then the model generates the
  graph as one JSON array of node and edge objects. If that reply arrives in a
  markdown code fence, the fence is cut off. If the reply parses, its elements
  are split into a node list and an edge list (an element is an edge when it
  has a `"source"` field). The two lists are saved as one new quest, and the
  reply text is returned either way.
- **getQuestById.** Both stored lists are parsed and the edges are appended
  after the nodes. `"[]"` stands in for an unknown id or a blob that does not
  parse.
- **getHistory.** Every stored quest, newest first, is projected to its id and
  question.
- **getQuestDetails.** One reply gives a summary and a second gives quizzes.
  They are merged into `{summary, quizzes}`, and any failure gives a fixed
  error payload.

The language model is an oracle. Each of its answers arrives as a parameter
of type `ModelClient.Reply`: the content text, or a failure of the request.
`GetQuest` also returns the list of requests it made, so that "rejected before
the generation request" can be stated. JSON is a small concrete codec in
module `Json`. `Write` is Jackson's compact writer (`writeValueAsString`,
`toString`). `ReadTree` is a recursive-descent parser (`readTree`) that can
fail. Like Jackson with its default features, it reads the first value of the
text and ignores what follows. `ReadTree(Write(j)) == Some(j)` is proved. The repository is the
class `Store.QuestStore`: a map from id to `Quest` plus the next id to hand
out.

Modules, in dependency order:

| file | module | models |
|---|---|---|
| wrappers.dfy | Wrappers | `Option`, `Result` |
| text.dfy | Text | `String.trim`, `toUpperCase`, `startsWith`, `contains` |
| json.dfy | Json | JSON trees, `JsonNode` iteration, `has` and `get`, writer, parser, round trip |
| graph.dfy | Graph | the node/edge split loop and what reassembly does to its order |
| client.dfy | ModelClient | `callOpenAI` after the HTTP exchange: fence stripping and the fatal error |
| validation.dfy | Validation | `isValidQuestion` |
| store.dfy | Store | `Quest`, the repository's save and newest-first listing |
| history.dfy | History | the projection and text of `getHistory` |
| details.dfy | Details | `getQuestDetails` |
| service.dfy | Service | the `AiService` class: `getQuest`, `getQuestById`, `getHistory` |

Java `HashMap` iteration puts `"question"` (hash bucket 4) before `"id"`
(bucket 11). `History.Entry` therefore writes the fields in that order. The
`Map.of` in `getQuestDetails` has no defined order, so a merged detail is a
record, `Details.QuestDetail`. `Details.Renders` admits both key orders.

## Model

| member | source | states |
|---|---|---|
| Text.Trim | curiosity-quest/src/main/java/com/hemhem/curiosity_quest/AiService.java:103 | `trim()` gives the slice after the leading blanks (characters at or below U+0020); everything after the result is blank, and the result is empty or starts and ends with a non-blank |
| Text.TrimSurrounded | curiosity-quest/src/main/java/com/hemhem/curiosity_quest/AiService.java:103 | trimming blanks + body + blanks gives exactly the body when the body has non-blank ends |
| Text.TrimIdempotent | curiosity-quest/src/main/java/com/hemhem/curiosity_quest/AiService.java:103 | trimming twice is trimming once |
| Text.StartsWith | curiosity-quest/src/main/java/com/hemhem/curiosity_quest/AiService.java:163 | `startsWith` holds exactly when every character of the prefix sits at the same index of the text |
| Text.Contains | curiosity-quest/src/main/java/com/hemhem/curiosity_quest/AiService.java:103 | the `contains` scan finds the pattern only when it fits in the text, and always finds it at the front |
| Text.ContainsIff | curiosity-quest/src/main/java/com/hemhem/curiosity_quest/AiService.java:103 | the `contains` scan is true exactly when the substring occurs at some index |
| Text.Upper | curiosity-quest/src/main/java/com/hemhem/curiosity_quest/AiService.java:103 | `toUpperCase` never shortens the text and leaves no lower-case ASCII letter in it |
| Text.UpperAppend | curiosity-quest/src/main/java/com/hemhem/curiosity_quest/AiService.java:103 | `toUpperCase` maps character by character: the upper case of a concatenation is the concatenation of the upper cases |
| Text.UpperBlanks | curiosity-quest/src/main/java/com/hemhem/curiosity_quest/AiService.java:103 | upper-casing leaves blanks unchanged |
| Text.UpperLetterSource | curiosity-quest/src/main/java/com/hemhem/curiosity_quest/AiService.java:103 | an 'E' or 'Y' in the upper-cased text comes from that letter in either case in the original (or from y-with-ring for 'Y') |
| Json.Elements | curiosity-quest/src/main/java/com/hemhem/curiosity_quest/AiService.java:69 | iterating a node visits an array's elements, an object's values in order, and nothing for a scalar |
| Json.Has | curiosity-quest/src/main/java/com/hemhem/curiosity_quest/AiService.java:70 | `has(name)` is true exactly for an object one of whose fields has that name; never for an array or a scalar |
| Json.Get | curiosity-quest/src/main/java/com/hemhem/curiosity_quest/AiService.java:132 | `get(name)` gives a value exactly when the node is an object that has the field |
| Json.LastValue | curiosity-quest/src/main/java/com/hemhem/curiosity_quest/AiService.java:132 | the lookup misses only when no field has the key, and a hit is the value of the last field with that key, as Jackson's object node keeps only the last of duplicated keys |
| Json.Write | curiosity-quest/src/main/java/com/hemhem/curiosity_quest/AiService.java:79-80 | written text is never empty and starts with a token, never with whitespace or a closing bracket; `ReadTreeWrite` proves `ReadTree` is its inverse |
| Json.ReadTree | curiosity-quest/src/main/java/com/hemhem/curiosity_quest/AiService.java:66 | `readTree` finds no tree in blank text, and a tree it reads is the first value in the text |
| Json.TrailingTextIgnored | curiosity-quest/src/main/java/com/hemhem/curiosity_quest/AiService.java:66 | text after a root array, object or string is never read: the value is returned whatever follows |
| Json.RootNumberEnd | curiosity-quest/src/main/java/com/hemhem/curiosity_quest/AiService.java:66 | a root number is read exactly when the text ends or whitespace follows it |
| Json.RootLiteralEnd | curiosity-quest/src/main/java/com/hemhem/curiosity_quest/AiService.java:66 | a root `null`, `true` or `false` is read exactly when no identifier character follows it |
| Json.ReadTreeWrite | curiosity-quest/src/main/java/com/hemhem/curiosity_quest/AiService.java:79-80 | reading back written text gives the same tree: `ReadTree(Write(j)) == Some(j)` for every tree |
| Json.WriteInjective | curiosity-quest/src/main/java/com/hemhem/curiosity_quest/AiService.java:79-80 | different trees are written as different texts |
| Json.WrittenKeyStart | curiosity-quest/src/main/java/com/hemhem/curiosity_quest/AiService.java:135 | a written object shows the first character of its first key at index 2 |
| Graph.IsEdge | curiosity-quest/src/main/java/com/hemhem/curiosity_quest/AiService.java:70 | an element is an edge exactly when `get("source")` gives a value, so `has` and `get` agree |
| Graph.OfKind | curiosity-quest/src/main/java/com/hemhem/curiosity_quest/AiService.java:67-75 | the selected list is no longer than the input and holds only elements of the requested kind (edge exactly when it has "source") |
| Graph.Split | curiosity-quest/src/main/java/com/hemhem/curiosity_quest/AiService.java:66-75 | the loop over the root's elements builds exactly the node list and the edge list of `OfKind` |
| Graph.OfKindIsStable | curiosity-quest/src/main/java/com/hemhem/curiosity_quest/AiService.java:67-75 | each list is the elements of its kind taken at strictly increasing positions of the input, and no element of that kind is skipped |
| Graph.SplitSizes | curiosity-quest/src/main/java/com/hemhem/curiosity_quest/AiService.java:67-75 | node count plus edge count equals the element count |
| Graph.SplitIsPermutation | curiosity-quest/src/main/java/com/hemhem/curiosity_quest/AiService.java:67-75 | the two lists together hold every element exactly as often as the input |
| Graph.NoEdges | curiosity-quest/src/main/java/com/hemhem/curiosity_quest/AiService.java:67-75 | an input without edges goes wholly to the node list |
| Graph.ReassemblyIsIdentityIff | curiosity-quest/src/main/java/com/hemhem/curiosity_quest/AiService.java:199-202 | nodes followed by edges equals the input if and only if no node comes after an edge in it |
| Graph.ReassemblyOfOrdered | curiosity-quest/src/main/java/com/hemhem/curiosity_quest/AiService.java:199-202 | an input with every node before every edge is given back unchanged |
| Graph.OrderedGraphRoundTrips | curiosity-quest/src/main/java/com/hemhem/curiosity_quest/AiService.java:199-202 | a node followed by an edge survives split and reassembly |
| Graph.EdgeFirstIsReordered | curiosity-quest/src/main/java/com/hemhem/curiosity_quest/AiService.java:199-202 | an edge listed before a node comes back after it |
| ModelClient.CallOpenAI | curiosity-quest/src/main/java/com/hemhem/curiosity_quest/AiService.java:162-171 | a failed request is the fatal error; without the generation flag the content is returned unchanged; a result is never longer than the content |
| ModelClient.UnfencedUnchanged | curiosity-quest/src/main/java/com/hemhem/curiosity_quest/AiService.java:163-166 | content not starting with the fence is returned as it is |
| ModelClient.StripFencedBody | curiosity-quest/src/main/java/com/hemhem/curiosity_quest/AiService.java:163-165 | fence + blanks + body + blanks + closing fence strips to exactly the body |
| ModelClient.StripExample | curiosity-quest/src/main/java/com/hemhem/curiosity_quest/AiService.java:163-165 | a fenced `[1,2,3]` with a line break on each side strips to `[1,2,3]` |
| ModelClient.TrailingNewlineKeepsBacktick | curiosity-quest/src/main/java/com/hemhem/curiosity_quest/AiService.java:164 | a line break after the closing fence leaves a backtick at the end of the stripped content |
| ModelClient.ShortFencedReplyFails | curiosity-quest/src/main/java/com/hemhem/curiosity_quest/AiService.java:164-170 | a fenced content shorter than ten characters makes the substring fail, which is rethrown as the fatal error |
| Validation.IsValidQuestion | curiosity-quest/src/main/java/com/hemhem/curiosity_quest/AiService.java:102-103 | the check fails exactly when the request fails, and otherwise is true exactly when the trimmed, upper-cased reply contains "YES" |
| Validation.Accepts | curiosity-quest/src/main/java/com/hemhem/curiosity_quest/AiService.java:103 | the reply is accepted exactly when its upper-case form contains "YES": the trim never decides |
| Validation.ContainsIgnoresBlanks | curiosity-quest/src/main/java/com/hemhem/curiosity_quest/AiService.java:103 | blanks around a text never create or remove an occurrence of "YES" |
| Validation.TrimIrrelevant | curiosity-quest/src/main/java/com/hemhem/curiosity_quest/AiService.java:103 | the trimmed reply's upper case contains "YES" if and only if the untrimmed reply's does |
| Validation.AcceptsAnyCasing | curiosity-quest/src/main/java/com/hemhem/curiosity_quest/AiService.java:103 | "yes" in any casing at any position accepts |
| Validation.RejectsWithoutY | curiosity-quest/src/main/java/com/hemhem/curiosity_quest/AiService.java:103 | a reply without y, Y or y-with-ring is rejected |
| Validation.Examples | curiosity-quest/src/main/java/com/hemhem/curiosity_quest/AiService.java:103 | "NO" rejects and "yes." accepts |
| Store.Listing | curiosity-quest/src/main/java/com/hemhem/curiosity_quest/QuestRepository.java:12 | every listed quest is a stored row |
| Store.ListingIsDescendingAndComplete | curiosity-quest/src/main/java/com/hemhem/curiosity_quest/QuestRepository.java:12 | the listing holds stored rows with ids below the bound, in strictly descending id order, and no such row is missing |
| Store.QuestStore.Save | curiosity-quest/src/main/java/com/hemhem/curiosity_quest/Quest.java:12-23 | a save adds one row under a fresh id (the next id), keeps every other row, and advances the next id by one |
| Store.QuestStore.FindAllByOrderByIdDesc | curiosity-quest/src/main/java/com/hemhem/curiosity_quest/QuestRepository.java:12 | every stored quest, each exactly as stored, in strictly descending id order |
| History.Entry | curiosity-quest/src/main/java/com/hemhem/curiosity_quest/AiService.java:179-182 | an entry is an object with exactly the keys "id" and "question", holding the quest's id and question |
| History.Entries | curiosity-quest/src/main/java/com/hemhem/curiosity_quest/AiService.java:177-184 | one entry per quest, in the listing's order |
| History.HistoryJson | curiosity-quest/src/main/java/com/hemhem/curiosity_quest/AiService.java:185-186 | the history text reads back as the array of entries, one per listed quest in the same order |
| History.HistoryHoldsStoredQuests | curiosity-quest/src/main/java/com/hemhem/curiosity_quest/AiService.java:176-184 | every history entry projects a stored quest under the id it shows |
| History.HistoryIsNewestFirst | curiosity-quest/src/main/java/com/hemhem/curiosity_quest/AiService.java:176 | entry ids strictly descend |
| History.HistoryIsComplete | curiosity-quest/src/main/java/com/hemhem/curiosity_quest/AiService.java:176-184 | every stored quest has its entry in the history |
| Details.GetQuestDetails | curiosity-quest/src/main/java/com/hemhem/curiosity_quest/AiService.java:107-141 | a merged result comes exactly when both requests succeed, the quiz reply parses and has "quizzes"; its summary is the first reply verbatim and its quizzes are that field |
| Details.Renders | curiosity-quest/src/main/java/com/hemhem/curiosity_quest/AiService.java:130-140 | a rendered result is the error payload exactly when it is the error: a written merge, in either key order, never is |
| Details.RenderedDetailReadsBack | curiosity-quest/src/main/java/com/hemhem/curiosity_quest/AiService.java:130-135 | a written merge, in either key order, reads back with the summary and the quizzes under their keys |
| Details.AnyQuizListPassesThrough | curiosity-quest/src/main/java/com/hemhem/curiosity_quest/AiService.java:127-133 | any quiz list under "quizzes", of any length, is passed on unchanged |
| Details.QuizTrailingTextIgnored | curiosity-quest/src/main/java/com/hemhem/curiosity_quest/AiService.java:129-133 | text after the quiz object is never read: the details are the same as for the object alone |
| Details.MissingQuizzesFails | curiosity-quest/src/main/java/com/hemhem/curiosity_quest/AiService.java:130-140 | valid JSON without a "quizzes" field ends in the error payload |
| Details.FencedQuizReplyFails | curiosity-quest/src/main/java/com/hemhem/curiosity_quest/AiService.java:127-129 | a quiz reply in a code fence is not stripped, does not parse, and ends in the error payload |
| Service.QuestById | curiosity-quest/src/main/java/com/hemhem/curiosity_quest/AiService.java:194-209 | an unknown id gives "[]"; the cast error can only come when both blobs parse |
| Service.StoredRecord | curiosity-quest/src/main/java/com/hemhem/curiosity_quest/AiService.java:77-80 | the saved record holds the question under its id, and its two blobs read back as the node list and the edge list |
| Service.LookupNeverFails | curiosity-quest/src/main/java/com/hemhem/curiosity_quest/AiService.java:199-202 | when every stored blob is an array, the lookup never throws |
| Service.UnparseableBlobGivesEmpty | curiosity-quest/src/main/java/com/hemhem/curiosity_quest/AiService.java:203-206 | a blob that does not parse gives "[]" |
| Service.LookupOfStoredRecord | curiosity-quest/src/main/java/com/hemhem/curiosity_quest/AiService.java:199-202 | a saved graph comes back as its node list followed by its edge list |
| Service.LookupIsIdentityIff | curiosity-quest/src/main/java/com/hemhem/curiosity_quest/AiService.java:199-202 | a saved array comes back as the same text if and only if no node in it follows an edge |
| Service.LookupIsPermutation | curiosity-quest/src/main/java/com/hemhem/curiosity_quest/AiService.java:199-202 | a saved graph always comes back as an array with the same elements, each as often |
| Service.TrailingNewlineReplyIsSaved | curiosity-quest/src/main/java/com/hemhem/curiosity_quest/AiService.java:66-81 | a fenced reply with a line break after the closing fence keeps a backtick, which is never read: `[1]` is saved as nodes `[1]` and edges `[]` |
| Service.EmptyGraphRoundTrips | curiosity-quest/src/main/java/com/hemhem/curiosity_quest/AiService.java:199-202 | an empty array is stored and looked up as "[]" |
| Service.AiService.GetQuest | curiosity-quest/src/main/java/com/hemhem/curiosity_quest/AiService.java:33-89 | a failed validation request or a "no" throws before the generation request and leaves the store unchanged. Otherwise the stripped generation reply is returned. A reply that parses adds exactly one record under the next id, holding the question and the written node and edge lists. A reply that does not parse saves nothing. Every stored blob stays an array |
| Service.AiService.GetQuestById | curiosity-quest/src/main/java/com/hemhem/curiosity_quest/AiService.java:194-209 | the method agrees with `QuestById` and, over a store getQuest filled, never throws |
| Service.AiService.GetHistory | curiosity-quest/src/main/java/com/hemhem/curiosity_quest/AiService.java:175-191 | the text is the written entries of the newest-first listing of the store |

## Left out

- The HTTP exchange in `callOpenAI` (AiService.java:146-160) is not modelled: the request body, the bearer header, the POST and the extraction of the content from the response envelope. Its outcome is the `Reply` parameter.
- Prompt wording (AiService.java:39-60, 93-100, 109, 112-126) is not modelled. `getQuest`'s requests are named by `Prompt` values; the summary and quiz requests of `getQuestDetails` are not listed. Node counts, the subject list and whether edges point at existing nodes are never checked by the source, so they are not stated either.
- Numbers in JSON are integers. Fractions, exponents and Jackson's number width are left out, as are `\u` escapes that encode surrogate pairs.
- Json.ReadTree: text with no content at all (empty, or whitespace only) reads as a missing node in recent Jackson versions; `ReadTree` treats it as a parse failure. In getQuest, Jackson would then save a quest with blobs `"[]"` and `"[]"`, whose lookup gives `"[]"`; the model saves nothing. A missing node would only reach getQuestById's cast from an empty stored blob, and getQuest never writes one.
- Json.IsIdentPart: the check after a root literal uses Java's identifier characters; the model knows the ASCII ones (digits, letters, `_`). Non-ASCII letters and the ignorable control characters from U+007F are left out.
- Jackson's object node keeps one value per key, the last one. `Get` agrees, but the parser keeps duplicate keys in the tree, so re-writing such an object keeps them.
- Strings are sequences of Unicode scalar values, not UTF-16 code units. The fence offsets agree with Java whenever the last three characters are not part of a surrogate pair.
- Text.UpperChar: `toUpperCase` is modelled for ASCII letters and for the characters whose upper case contains an ASCII "S" or "Y" (ß, ſ, ﬅ, ﬆ, ẙ). Other characters keep their form, and locale-specific mappings are left out. This is enough to decide the "YES" test for most replies.
- The 1000-character limit on the question column (Quest.java:16) is not modelled. A longer question makes the database save throw, and that error is outside the model.
- A null id or null stored blob is not modelled. `Quest` fields are always strings.
- The `"[]"` fallback of getHistory (AiService.java:187-190) cannot be reached in the model, because writing a tree cannot fail.
- Logging through `System.err` and `printStackTrace` is left out: it has no behaviour to state.
- `HelloController.java` (HTTP routing and status codes) is not part of this model.
- Concurrency and database transactions are left out. Each method runs alone against the store.
