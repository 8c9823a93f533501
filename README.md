# APIGo request assembly engine, in Dafny

APIGo is a browser-based HTTP client. The user composes a request (method,
URL, a header list, a body) in a workspace. Before the request goes to the
server-side proxy, it is assembled:

1. The active environment's variables replace `{{key}}` placeholders in the
   URL, the headers and the structured body.
2. The global secrets do the same.
3. The environment's own headers and the global headers are added as two
   further layers.

Around this engine sit:

- the structured-body codec;
- the hook that turns the assembled request into the proxy payload;
- an in-memory rate limiter for public mock endpoints;
- the Postman importer;
- the server's parent-id → tree builder for stored collections;
- several list-editing state holders: secrets, global headers, the headers
  editor, the environment editor and the mock-endpoint editor.

This project models each of these in Dafny and proves what each promises.
Where the code works by mutating state (a loop, a React state cell, a `Map`
updated in place), the model is a method or a class. Each method is proved
against a function that specifies it.

Modules, one per source file:

| module | file |
|---|---|
| `Options`, `Text`, `Filters` | shared: `Option`, the JavaScript string operations used (`startsWith`, `includes`, `split`, `join`), and `Array.prototype.filter` |
| `VariableSubstitution` | `src/utils/variable-substitution.ts` |
| `RequestTypes` | `src/utils/request-types.ts` |
| `Workspace` | `src/app/page.tsx` |
| `UseRequest` | `src/hooks/useRequest.ts` |
| `RateLimiter` | `src/utils/rate-limiter.ts` |
| `PostmanParser` | `src/utils/postman-parser.ts` (also the `CollectionItem` tree) |
| `CollectionsRoute` | `buildTree` in `src/app/api/collections/route.ts` |
| `ParamList` | the key/value/enabled list edits shared by the next four |
| `SecretsContext`, `GlobalHeadersContext` | `src/context/SecretsContext.tsx`, `src/context/GlobalHeadersContext.tsx` |
| `HeadersEditor` | `src/components/request-composer/HeadersEditor.tsx` |
| `EnvironmentModal` | `src/components/environments/EnvironmentModal.tsx` |
| `MockupEditor` | `src/components/mockup/MockupEditor.tsx` |

How the model handles things outside the program:

- **JSON.** `JSON.parse` and `JSON.stringify` come from the runtime. They
  are a `JsonCodec` pair of functions. A lemma that needs the round trip
  requires `Lawful(codec)`: decoding undoes encoding, and the empty text
  does not decode.
- **Fresh ids and the clock.** Fresh ids (`crypto.randomUUID`, `uuidv4`)
  and the current time (`Date.now`, `new Date()`) become parameters.
- **The sweep timer.** The rate limiter's `setInterval` body becomes the
  `Limiter.Sweep` method.
- **Saves and callbacks.** The backend `saveAll` calls and the `onChange`
  callback are recorded as a log of the lists handed to them.

## Model

| member | source | states |
|---|---|---|
| VariableSubstitution.FindEnvironment | src/app/page.tsx:144 | a found environment is in the list and has the active id; nothing is found exactly when no environment has that id (a null id matches none) |
| VariableSubstitution.FindEnvironmentFirst | src/app/page.tsx:144 | `find` returns the first environment with the id |
| VariableSubstitution.SubstituteVariables | src/utils/variable-substitution.ts:18-48 | the `while`/`for` loop returns `Substitute(content, vars)`: passes over the variables in list order, repeated while a pass changed something, at most five |
| VariableSubstitution.Substitute | src/utils/variable-substitution.ts:18-48 | the value `substituteVariables` returns: the content itself on the early return, else `Run` with the budget of five; `SubstituteVariables` is proved to compute it, and `SubstituteNoVariables`, `SubstituteMiss`, `DisabledAreInert`, `ChainedForward` and `ChainedBackward` state its behaviour |
| VariableSubstitution.Run | src/utils/variable-substitution.ts:31-45 | passes repeated while the last one changed something, within the budget; specified by `RunIgnoresDisabled`, `SelfReferenceRun` and the loop invariant of `SubstituteVariables` |
| VariableSubstitution.Pass | src/utils/variable-substitution.ts:35-44 | one turn of the `for` loop over the list; specified by `PassMiss`, `PassIgnoresDisabled` and `FirstVariableSplitJoin` |
| VariableSubstitution.Apply | src/utils/variable-substitution.ts:36-43 | one variable: skipped when disabled, otherwise every occurrence of its placeholder replaced when there is one; specified through `FirstVariableSplitJoin` and `Text.ReplaceAllIsSplitJoin` |
| VariableSubstitution.Placeholder | src/utils/variable-substitution.ts:38 | `{{key}}`, four characters longer than the key; `DistinctPlaceholders` and `PlaceholderMiss` state how placeholders of different keys relate |
| VariableSubstitution.PassCount | src/utils/variable-substitution.ts:22-33 | the loop makes at most five passes, and none exactly when the content or the variable list is empty |
| VariableSubstitution.Passes | src/utils/variable-substitution.ts:31-33 | the number of passes is at most the budget, and at least one when there is budget |
| VariableSubstitution.SubstituteNoVariables | src/utils/variable-substitution.ts:22-24 | with no variables the content comes back unchanged after zero passes |
| VariableSubstitution.PassMiss | src/utils/variable-substitution.ts:35-44 | a pass in which no enabled placeholder occurs changes nothing and reports no change |
| VariableSubstitution.SubstituteMiss | src/utils/variable-substitution.ts:31-44 | when no enabled variable's `{{key}}` occurs, the result is the content, after at most one pass |
| VariableSubstitution.PassIgnoresDisabled | src/utils/variable-substitution.ts:36 | a pass over the list equals a pass over its enabled entries |
| VariableSubstitution.RunIgnoresDisabled | src/utils/variable-substitution.ts:31-45 | the whole bounded loop equals the loop over the enabled entries |
| VariableSubstitution.DisabledAreInert | src/utils/variable-substitution.ts:36 | the result equals the result with only the enabled variables |
| VariableSubstitution.Enabled | src/utils/variable-substitution.ts:36 | the enabled entries, no more than the list: exactly the members that are enabled |
| VariableSubstitution.EnabledIsFilter | src/utils/variable-substitution.ts:36 | the enabled entries are `filter(v => v.isEnabled)`, so in list order and each once (by `Filters.FilterInOrder`) |
| Filters.FilterInOrder | src/app/page.tsx:160 | a filter's j-th result is the element at its j-th kept position; the positions strictly increase and include every element the predicate keeps |
| VariableSubstitution.FirstVariableSplitJoin | src/utils/variable-substitution.ts:38-43 | a pass replaces the first variable's placeholder everywhere by `split(p).join(value)`, counts as a change, then goes on with the rest in order |
| VariableSubstitution.SelfReferenceRun | src/utils/variable-substitution.ts:31-45 | a variable whose value holds its own placeholder uses up the whole budget and leaves the placeholder in the text |
| VariableSubstitution.SelfReferenceStops | src/utils/variable-substitution.ts:29-33 | a self-referencing variable still ends the loop, after exactly five passes, the placeholder still present |
| VariableSubstitution.DistinctPlaceholders | src/utils/variable-substitution.ts:38 | the placeholder of a brace-free key contains no other key's placeholder |
| VariableSubstitution.NoBraceUntouched | src/utils/variable-substitution.ts:39 | a text without `{` contains no placeholder |
| VariableSubstitution.TwoPlaceholders | src/utils/variable-substitution.ts:31-45 | `a{{h}}b{{i}}` with brace-free parts gives `a`+h+`b`+i after one changing pass and one idle pass |
| VariableSubstitution.ChainedForward | src/utils/variable-substitution.ts:16-45 | recursive substitution, one level: with `k` → `{{o}}` listed before `o` → v, `a{{k}}b` becomes `a`+v+`b` after two passes |
| VariableSubstitution.ChainedBackward | src/utils/variable-substitution.ts:16-45 | the same chain with `o` → v listed first is still resolved, after three passes, within the limit of five |
| VariableSubstitution.PlaceholderMiss | src/utils/variable-substitution.ts:39 | between brace-free texts, one key's placeholder does not contain another brace-free key's placeholder, so `includes` finds nothing for it |
| VariableSubstitution.SubstituteHeaders | src/utils/variable-substitution.ts:54-63 | same length and order; each entry's key and value substituted, its `isEnabled` kept |
| Text.ReplaceAllIsSplitJoin | src/utils/variable-substitution.ts:41 | the replace-all used by the model is exactly `s.split(p).join(r)` |
| Text.JoinSplit | src/utils/variable-substitution.ts:41 | joining the split pieces with the same separator gives the string back |
| Text.SplitPiecesAreFree | src/utils/variable-substitution.ts:41 | no piece of `s.split(p)` contains `p` |
| Text.ReplaceAllMiss | src/utils/variable-substitution.ts:39-41 | replacing a string that does not occur changes nothing |
| Text.ReplaceAllKeeps | src/utils/variable-substitution.ts:41 | when the text and the replacement both contain `p`, so does the result |
| Text.StartsWith | src/hooks/useRequest.ts:54 | `startsWith`: the prefix is the first characters of the text; used by `UseRequest.ProcessUrl`, whose contract rests on it |
| Text.Contains | src/utils/variable-substitution.ts:39 | `includes`: some suffix starts with the pattern; `ReplaceAllMiss` and `NoBraceUntouched` state what its absence means |
| Text.Split | src/utils/variable-substitution.ts:41 | `split` with a non-empty separator gives at least one piece; specified by `JoinSplit` and `SplitPiecesAreFree` |
| Text.Join | src/utils/variable-substitution.ts:41 | `join`; specified by `JoinSplit` (it undoes `Split`) |
| Text.ReplaceAll | src/utils/variable-substitution.ts:41 | left-to-right replacement of every occurrence; specified by `ReplaceAllIsSplitJoin` (it equals `split(p).join(r)`), `ReplaceAllMiss` and `ReplaceAllKeeps` |
| Filters.Filter | src/app/page.tsx:160 | `Array.prototype.filter`; specified by `FilterInOrder` |
| RequestTypes.ParseBodyContent | src/utils/request-types.ts:17-44 | the fallback paths: the empty text gives the `none` body, and a non-empty text that does not decode to an object with a string `type` gives the `raw` body holding the text (the structured path is `ParseStructured`) |
| RequestTypes.Fallback | src/utils/request-types.ts:35-43 | the catch branch: the text as a raw body, or the none body for the empty text; stated through `ParseBodyContent`'s contract |
| RequestTypes.RawOf | src/utils/request-types.ts:29 | `parsed.raw`, or "" when it is falsy; stated through `ParseStructured` |
| RequestTypes.ItemsOf | src/utils/request-types.ts:30-31 | the array itself, else []; stated through `ParseStructured` |
| RequestTypes.BodyToJson | src/utils/request-types.ts:49 | the object `JSON.stringify` is given, all four fields present; specified by `ParseStringify` (parsing its encoding gives the body back) |
| RequestTypes.StringifyBodyContent | src/utils/request-types.ts:46-50 | specified by `EncodedNotEmpty`, `ParseStringify` and `StringifyStable` |
| RequestTypes.ParseStructured | src/utils/request-types.ts:21-32 | a structured text keeps its `type`; a truthy string `raw` is kept and a falsy or missing one becomes ""; a `urlencoded`/`formdata` array is kept element for element, untouched, and anything else there becomes [] |
| RequestTypes.EncodedNotEmpty | src/utils/request-types.ts:46-50 | under a lawful codec, a stringified body is never the empty text |
| RequestTypes.ParseStringify | src/utils/request-types.ts:21-50 | under a lawful codec, parsing what was stringified gives back the same body, rows and all |
| RequestTypes.StringifyStable | src/utils/request-types.ts:46-50 | stringify ∘ parse ∘ stringify = stringify: a stored body does not drift |
| RequestTypes.SubstituteStructuredBody | src/utils/request-types.ts:52-70 | same `type` and list lengths; the transform applied to `raw` and to each row as `SubstituteRow`, whatever the row's `isEnabled` |
| RequestTypes.SubstituteRows | src/utils/request-types.ts:59-68 | same number of rows |
| RequestTypes.SubstituteRow | src/utils/request-types.ts:59-68 | a row object keeps its set of fields; a string `key` or `value` goes through the transform, any other value there is kept, and every other field (`isEnabled`, `type`, extras) is kept |
| RequestTypes.SubstituteKeyValRow | src/utils/request-types.ts:59-63 | on a row of the app's `KeyVal` shape, substitution transforms the key and value and keeps `isEnabled` and `type` |
| RequestTypes.SubstituteRowCompose | src/utils/request-types.ts:59-68 | substituting a row twice is substituting it once with the composed transform |
| RequestTypes.SubstituteIdentity | src/utils/request-types.ts:56-69 | substituting with the identity gives the body back |
| RequestTypes.SubstituteExtensional | src/utils/request-types.ts:56-69 | two transforms that agree on every string give the same body |
| RequestTypes.SubstituteCompose | src/utils/request-types.ts:56-69 | two substitutions in a row are one substitution with the composed transform |
| Workspace.CapHistory | src/app/page.tsx:134 | the new entry is first, the old entries follow in order, and the length is min(old + 1, 50) |
| Workspace.Assemble | src/app/page.tsx:138-224 | the URL, method, merged headers and body `handleSend` hands to `sendRequest`; specified by `NothingToSubstitute`, `MergedHeaderLayers` and the stage lemmas below, and used by `Home.Send` |
| Workspace.Staged | src/app/page.tsx:147-182 | specified by `StagedIsEnvThenSecrets` |
| Workspace.StagedHeaders | src/app/page.tsx:150-177 | specified by `StagedHeadersFields` |
| Workspace.StagedBody | src/app/page.tsx:141-182 | specified by `StagedBodyIsEnvThenSecrets` |
| Workspace.EnvLayer | src/app/page.tsx:158-171 | specified by `EnvLayerCount` and `EnvLayerIgnoresSecrets` |
| Workspace.GlobalLayer | src/app/page.tsx:189-210 | specified by `GlobalLayerStaged` |
| Workspace.EnabledLayer | src/app/page.tsx:159-165 | the enabled entries with `isEnabled` forced to true |
| Workspace.EnabledLayerIsEnabled | src/app/page.tsx:189-195 | forcing `isEnabled` on already-enabled entries changes nothing |
| Workspace.StagedIsEnvThenSecrets | src/app/page.tsx:147-155 | the URL goes out substituted with the environment's variables, then the secrets; the emptiness guards make no difference |
| Workspace.StagedHeadersFields | src/app/page.tsx:150-177 | request headers keep length and flags; each key and value is substituted environment-first, then with secrets |
| Workspace.StagedBodyIsEnvThenSecrets | src/app/page.tsx:141-182 | the body is the parsed body with every text field substituted environment-first, then with secrets |
| Workspace.EnvLayerCount | src/app/page.tsx:158-171 | the environment layer has one enabled entry per enabled environment header, none without an environment |
| Workspace.EnvLayerIgnoresSecrets | src/app/page.tsx:158-171 | secrets never reach the environment layer: changing them leaves that slice of the merged headers as it is |
| Workspace.GlobalLayerStaged | src/app/page.tsx:189-210 | one entry per enabled global header, enabled, its key and value substituted environment-first, then with secrets |
| Workspace.MergedHeaderLayers | src/app/page.tsx:212-216 | merged headers = request headers ++ environment layer ++ global layer, the length being the sum, with disabled request headers kept |
| Workspace.NothingToSubstitute | src/app/page.tsx:121-224 | with no environment and no secrets, the URL and headers go out as composed with the enabled global headers appended, and the body as `stringifyBodyContent(parseBodyContent(body))`, so a plain text "hello" is sent as the JSON of a `raw` body holding it |
| Workspace.UpdateItemInList | src/app/page.tsx:229-251 | same length, ids, names and types kept; the node with the id gets the composer's method, URL, headers and body and its children are not searched; any other node keeps its request fields, is unchanged without children, and has its children updated the same way, so the result is fixed at every depth |
| Workspace.UpdateKeepsOutline | src/app/page.tsx:229-251 | every id and name at every depth is unchanged, in order |
| Workspace.UpdateMissing | src/app/page.tsx:229-251 | an id not in the tree changes nothing |
| Workspace.EditItemInList | src/app/page.tsx:314-325 | same length, ids and types kept; the node with the id takes the new name and nothing else changes on it; any other node keeps its name, is unchanged without children, and has its children renamed the same way, so the result is fixed at every depth |
| Workspace.EditKeepsSize | src/app/page.tsx:314-325 | a rename keeps the number of nodes at every depth |
| Workspace.AddItemToList | src/app/page.tsx:293-306 | same length, ids, names and types kept; the node with the parent id gets the new node appended after its children (an absent list read as empty) and those children are not searched; any other node is unchanged without children and has the add applied to its children otherwise, so a nested parent gets the new node last among its children |
| Workspace.AddGrowsTree | src/app/page.tsx:293-306 | the tree grows by one node for each parent reached |
| Workspace.ParentReached | src/app/page.tsx:293-306 | a parent id present in the tree is reached at least once |
| Workspace.SizeAppend | src/app/page.tsx:384 | appending node lists adds their node counts |
| Workspace.DeleteItemFromList | src/app/page.tsx:332-341 | no longer than before |
| Workspace.DeleteRemovesEverywhere | src/app/page.tsx:332-341 | no node with the id remains at any depth |
| Workspace.DeleteKeepsOrder | src/app/page.tsx:332-341 | the top level is the old one with the id filtered out, in order |
| Workspace.DeleteKeepsSurvivors | src/app/page.tsx:332-341 | the j-th remaining node is the j-th top-level node without the id, unchanged when it has no children and with its children pruned the same way otherwise, so surviving nodes keep their order and contents at every depth |
| Workspace.Survivors | src/app/page.tsx:333-334 | the kept siblings are nodes of the list, none with the id, and no more than the list |
| Workspace.PrunedFrom | src/app/page.tsx:335-340 | the `.map` step: a node without children is kept, a node with children keeps everything but has them pruned recursively; used by `DeleteKeepsSurvivors` |
| Workspace.DeleteMissing | src/app/page.tsx:332-341 | an id not in the tree changes nothing |
| Workspace.NewItem | src/app/page.tsx:267-280 | a new node is well shaped (request fields or children, not both) and a single node |
| Workspace.Home.constructor | src/app/page.tsx:43-62 | GET, empty URL, the JSON content-type header, empty body, and empty history, collections and environments |
| Workspace.Home.Send | src/app/page.tsx:121-224 | an empty URL changes nothing and sends nothing; otherwise the raw request heads the capped history and the assembled request is sent; the composer, collections and environments are unchanged |
| Workspace.Home.Save | src/app/page.tsx:226-256 | without an active item nothing changes; otherwise the collections are `UpdateItemInList` with the composer's fields |
| Workspace.Home.CreateCollectionItem | src/app/page.tsx:263-312 | appended at the top level without a parent id, else under the parent; a new request becomes active |
| Workspace.Home.EditCollectionItem | src/app/page.tsx:314-329 | the collections become `EditItemInList`; nothing else changes |
| Workspace.Home.DeleteCollectionItem | src/app/page.tsx:331-355 | the collections become `DeleteItemFromList`; deleting the active item also resets the composer and clears the active item |
| Workspace.Home.LoadHistoryItem | src/app/page.tsx:357-363 | the composer takes the entry's method, URL, headers and body; no item is active |
| Workspace.Home.LoadCollectionItem | src/app/page.tsx:365-371 | the node becomes active; the composer takes its fields, with a falsy method read as GET and falsy URL and body as "" |
| Workspace.Home.ImportFile | src/app/page.tsx:378-394 | the imported nodes are appended (the node count adds up); a file on which the callback throws, whether `JSON.parse` rejects it or the importer throws on it, changes nothing |
| UseRequest.HeaderRecord | src/hooks/useRequest.ts:50-52 | the record's keys are exactly the keys of the enabled entries with a non-empty key |
| UseRequest.HeaderRecordLastWins | src/hooks/useRequest.ts:52 | a duplicated key holds the value of the last such entry |
| UseRequest.HeaderRecordSkips | src/hooks/useRequest.ts:51 | an entry that is disabled or has an empty key leaves the record unchanged |
| UseRequest.ProcessUrl | src/hooks/useRequest.ts:54 | a URL starting with `http` is kept, otherwise `https://` is prefixed; the result always starts with `http` |
| UseRequest.ProcessUrlIdempotent | src/hooks/useRequest.ts:54 | prefixing twice is prefixing once |
| UseRequest.BodyFor | src/hooks/useRequest.ts:65 | no body exactly for GET and HEAD, the text verbatim otherwise |
| UseRequest.Payload | src/hooks/useRequest.ts:50-66 | the posted URL starts with `http`, the method is passed on, the headers are `HeaderRecord` of the list, and the body is absent exactly for GET and HEAD and the text otherwise |
| UseRequest.ContentType | src/hooks/useRequest.ts:86 | the `content-type` response header when present and non-empty, else null |
| UseRequest.Settle | src/hooks/useRequest.ts:69-89 | exactly one of response and error is set and an error is never empty; an ok reply gives the response with the reply's status, status text, headers and body, the request headers sent and `ContentType` of the reply headers; a failed reply gives `data.error` or "Failed to fetch"; a thrown error gives its message or "Something went wrong" |
| UseRequest.FailedReplyMessage | src/hooks/useRequest.ts:74-75 | a failed reply reports the proxy's error, or "Failed to fetch" |
| UseRequest.RequestState.constructor | src/hooks/useRequest.ts:33-35 | not loading, no response and no error |
| UseRequest.RequestState.Begin | src/hooks/useRequest.ts:43-45 | loading, with response and error cleared |
| UseRequest.RequestState.SendRequest | src/hooks/useRequest.ts:43-93 | posts `Payload(...)`, ends not loading whatever the outcome, and with the response/error given by `Settle` |
| RateLimiter.Transition | src/utils/rate-limiter.ts:19-55 | the key is in the table afterwards and `reset` is its reset time; every other key is untouched |
| RateLimiter.NewWindow | src/utils/rate-limiter.ts:27-39 | with no entry or a past window: allowed, count 1, reset one window from now, remaining limit−1 |
| RateLimiter.FullWindow | src/utils/rate-limiter.ts:41-47 | a full window: denied, remaining 0, the table unchanged |
| RateLimiter.CountedInWindow | src/utils/rate-limiter.ts:49-54 | room in the window: the count goes up by one, the reset time is kept, remaining = limit − count |
| RateLimiter.ResetTimeIsInside | src/utils/rate-limiter.ts:27 | a call exactly at the reset time still belongs to the old (full) window |
| RateLimiter.TransitionKeepsBounded | src/utils/rate-limiter.ts:27-54 | for limit ≥ 1, every stored count stays within 1..limit |
| RateLimiter.WindowBudget | src/utils/rate-limiter.ts:41-54 | inside one window, no more calls are allowed than the room the window has left |
| RateLimiter.AtMostLimitPerWindow | src/utils/rate-limiter.ts:27-54 | at most `limit` calls are allowed in a window opened by the first call |
| RateLimiter.DefaultsAllowHundredPerMinute | src/utils/rate-limiter.ts:19-23 | with the default limit and window, at most 100 calls are allowed in the minute a call opens |
| RateLimiter.Expire | src/utils/rate-limiter.ts:61-66 | a sweep keeps exactly the entries with `now` ≤ reset + 300000, unchanged |
| RateLimiter.SweepKeepsOpenWindows | src/utils/rate-limiter.ts:62 | an entry whose window is still open survives a sweep |
| RateLimiter.Limiter.constructor | src/utils/rate-limiter.ts:10 | the table starts empty |
| RateLimiter.Limiter.Check | src/utils/rate-limiter.ts:19-55 | the in-place update and the answer are those of `Transition` |
| RateLimiter.Limiter.Sweep | src/utils/rate-limiter.ts:58-67 | the loop deleting stale entries leaves the table `Expire(old table, now)` |
| PostmanParser.ConvertHeaders | src/utils/postman-parser.ts:89-94 | a missing header list gives []; an array gives the same length and order, with `isEnabled` = not `disabled`; a non-array makes the item fail |
| PostmanParser.BodyText | src/utils/postman-parser.ts:96-99 | the body text is the raw text exactly when the body is in raw mode with non-empty text, "" otherwise |
| PostmanParser.UrlText | src/utils/postman-parser.ts:82-87 | the string URL, else `url.raw`, else ""; stated through `Mirrors` in `ConvertItem` and `TraverseFollowsInput` |
| PostmanParser.MethodOf | src/utils/postman-parser.ts:80 | the `method` field, or "GET" when it is falsy; stated through `Mirrors` |
| PostmanParser.NodeName | src/utils/postman-parser.ts:103 | the item's name, else "Untitled Request" or "Untitled Folder"; stated through `Mirrors` |
| PostmanParser.RequestNode | src/utils/postman-parser.ts:101-109 | the pushed request node; `ConvertItem` proves it mirrors its item |
| PostmanParser.Converts | src/utils/postman-parser.ts:77-113 | which items yield a node; `ConvertItem` states one node exactly when it holds |
| PostmanParser.ConvertItem | src/utils/postman-parser.ts:76-121 | at most one node per item, one exactly when it is a convertible request or a folder; the node takes id `mint(next)` and mirrors the item; a request uses one id, a failed item none, a folder's children are traversed from the next id on |
| PostmanParser.TraverseList | src/utils/postman-parser.ts:71-72 | a value that is not an array gives no nodes |
| PostmanParser.TraverseSeq | src/utils/postman-parser.ts:74-123 | ids only move forward |
| PostmanParser.ParsePostmanCollection | src/utils/postman-parser.ts:126-130 | a collection without an `item` (or with a non-array one) gives [] |
| PostmanParser.PushItem | src/utils/postman-parser.ts:77-121 | one loop turn appends the item's converted node, if any, and hands on the next id |
| PostmanParser.Traverse | src/utils/postman-parser.ts:71-124 | the push loop with its recursion into folders computes `TraverseList` |
| PostmanParser.Kept | src/utils/postman-parser.ts:76-121 | the convertible items are no more than the items |
| PostmanParser.TraverseFollowsInput | src/utils/postman-parser.ts:76-123 | one node per kept item, in input order, carrying that item's name (or the default), and for a request its method (or GET), URL text, converted headers and body text; never more nodes than items |
| PostmanParser.TraverseSeqWellShaped | src/utils/postman-parser.ts:101-120 | every imported node, at every depth, is a request with request fields and no children, or a folder with children and no request fields |
| PostmanParser.RequestWinsOverFolder | src/utils/postman-parser.ts:77-113 | an item with both `request` and `item` becomes a request without children |
| CollectionsRoute.OrUndefined | src/app/api/collections/route.ts:60-62 | `value \|\| undefined`: defined exactly when non-null and non-empty, and then unchanged |
| CollectionsRoute.Matching | src/app/api/collections/route.ts:53 | the filtered indices are in range and name the parent |
| CollectionsRoute.MatchingFacts | src/app/api/collections/route.ts:53 | the filter keeps input order and misses no item with the parent id |
| CollectionsRoute.ChildExtendsChain | src/app/api/collections/route.ts:48-71 | with distinct ids, a child is not already on the path of parents, so the recursion visits fewer items each time and terminates |
| CollectionsRoute.Node | src/app/api/collections/route.ts:54-70 | the mapped node keeps its item's id and type |
| CollectionsRoute.BuildFrom | src/app/api/collections/route.ts:48-71 | one node per item with the parent id |
| CollectionsRoute.NodeUnfold | src/app/api/collections/route.ts:54-70 | a node is its item mapped over the children built below it |
| CollectionsRoute.BuildFromMatched | src/app/api/collections/route.ts:52-54 | a matching item yields the next node |
| CollectionsRoute.BuildFromSkipped | src/app/api/collections/route.ts:53 | a non-matching item is left out |
| CollectionsRoute.NodeIsMapped | src/app/api/collections/route.ts:52-71 | the k-th node built is the node of the k-th matching item |
| CollectionsRoute.NodeFields | src/app/api/collections/route.ts:54-70 | id, name, type and headers are copied; a falsy method, URL or body becomes undefined; children exactly when a folder, and then they are the items naming it as parent, in order |
| CollectionsRoute.Mapped | src/app/api/collections/route.ts:56-69 | the mapped record; specified by `NodeFields` |
| CollectionsRoute.BuildTree | src/app/api/collections/route.ts:73 | specified by `TopLevelIsParentless`, `BuildTreeFolderShaped` and `BuildTreeSize` |
| CollectionsRoute.TopLevelIsParentless | src/app/api/collections/route.ts:53-73 | the roots are exactly the items with a null parent id, in input order |
| CollectionsRoute.BuildFromFolderShaped | src/app/api/collections/route.ts:67-69 | children only on folders, at every depth |
| CollectionsRoute.BuildTreeFolderShaped | src/app/api/collections/route.ts:67-73 | request nodes never carry children in the returned tree |
| CollectionsRoute.UsedWithin | src/app/api/collections/route.ts:48-71 | every item that becomes a node is an input item off the current path |
| CollectionsRoute.ChainUnique | src/app/api/collections/route.ts:53-55 | with distinct ids, an item's chain of parents up to a root is unique |
| CollectionsRoute.UsedChain | src/app/api/collections/route.ts:53-55 | an item placed below a parent is reached by a parent chain through it |
| CollectionsRoute.SubtreeApart | src/app/api/collections/route.ts:52-55 | a matching item's subtree and its later siblings' subtrees share no item |
| CollectionsRoute.SplitUsed | src/app/api/collections/route.ts:52-69 | the items used split into the item, its subtree and its later siblings, disjointly |
| CollectionsRoute.SizeIsUsed | src/app/api/collections/route.ts:48-71 | the nodes built, at every depth, are the used items, each used once |
| CollectionsRoute.BuildTreeSize | src/app/api/collections/route.ts:48-73 | with distinct ids, every node is a distinct input item, so the tree has at most as many nodes as there are items |
| ParamList.WithField | src/context/SecretsContext.tsx:61 | `{ ...row, [field]: value }` changes only that field |
| ParamList.Append | src/context/SecretsContext.tsx:52 | the old rows untouched, a blank enabled row last |
| ParamList.SetAt | src/context/SecretsContext.tsx:60-61 | same length; the row at the index is updated; every other row kept |
| ParamList.Toggle | src/components/request-composer/HeadersEditor.tsx:39-46 | same length; only that row's `isEnabled` is flipped |
| ParamList.ToggleTwice | src/components/request-composer/HeadersEditor.tsx:39-46 | toggling the same row twice restores the list |
| ParamList.RemoveAtDropsRow | src/context/SecretsContext.tsx:66 | removing an existing index: one shorter, rows before kept in place, rows after shifted up by one |
| ParamList.RemoveAt | src/context/SecretsContext.tsx:66 | specified by `RemoveAtDropsRow`, `RemoveAtPastEnd` and `RemoveAppended` |
| ParamList.RemoveAtPastEnd | src/context/SecretsContext.tsx:66 | removing an index past the end changes nothing |
| ParamList.RemoveAppended | src/context/SecretsContext.tsx:52-66 | removing the row just added restores the list |
| ParamList.Visible | src/components/request-composer/HeadersEditor.tsx:68-69 | exactly the enabled rows with a non-empty key |
| ParamList.VisibleIsFilter | src/components/request-composer/HeadersEditor.tsx:68-69 | the shown rows are the in-order `filter` of enabled rows with a key (by `Filters.FilterInOrder`) |
| ParamList.FindEnabledValue | src/context/SecretsContext.tsx:70-73 | null exactly when no enabled row has the key |
| ParamList.FindEnabledValueFirst | src/context/SecretsContext.tsx:71-72 | the value is that of the first enabled row with the key |
| SecretsContext.SecretsStore.constructor | src/context/SecretsContext.tsx:35 | no secrets and nothing saved |
| SecretsContext.SecretsStore.SaveSecrets | src/context/SecretsContext.tsx:44-49 | the state becomes the list, which is also handed to the save-all call |
| SecretsContext.SecretsStore.AddSecret | src/context/SecretsContext.tsx:51-53 | a blank enabled secret is appended and saved |
| SecretsContext.SecretsStore.UpdateSecret | src/context/SecretsContext.tsx:55-63 | only the field of that secret changes, and the list is saved |
| SecretsContext.SecretsStore.RemoveSecret | src/context/SecretsContext.tsx:65-68 | that index is removed, and the list is saved |
| SecretsContext.SecretsStore.GetSecretValue | src/context/SecretsContext.tsx:70-73 | a found value belongs to an enabled secret with the key; null exactly when there is none |
| SecretsContext.FindEnabledValueWitness | src/context/SecretsContext.tsx:71-72 | a found value is the value of an enabled row with the key |
| GlobalHeadersContext.GlobalHeadersStore.constructor | src/context/GlobalHeadersContext.tsx:37 | no headers and nothing saved |
| GlobalHeadersContext.GlobalHeadersStore.SaveHeaders | src/context/GlobalHeadersContext.tsx:49-54 | the state is replaced by the list before it is handed to the save-all call |
| GlobalHeadersContext.GlobalHeadersStore.AddGlobalHeader | src/context/GlobalHeadersContext.tsx:56-58 | an empty enabled header is appended and saved |
| GlobalHeadersContext.GlobalHeadersStore.UpdateGlobalHeader | src/context/GlobalHeadersContext.tsx:60-68 | only the named field at the index changes |
| GlobalHeadersContext.GlobalHeadersStore.RemoveGlobalHeader | src/context/GlobalHeadersContext.tsx:70-73 | exactly that index is removed, order kept |
| HeadersEditor.Editor.constructor | src/components/request-composer/HeadersEditor.tsx:19-24 | the editor shows the list it is given |
| HeadersEditor.Editor.OnChange | src/components/request-composer/HeadersEditor.tsx:14 | the page stores each list handed to `onChange` |
| HeadersEditor.Editor.AddHeader | src/components/request-composer/HeadersEditor.tsx:25-27 | a blank enabled header appended |
| HeadersEditor.Editor.UpdateHeader | src/components/request-composer/HeadersEditor.tsx:29-37 | only the key or the value of that row changes |
| HeadersEditor.Editor.ToggleHeader | src/components/request-composer/HeadersEditor.tsx:39-46 | only that row's flag flips |
| HeadersEditor.Editor.RemoveHeader | src/components/request-composer/HeadersEditor.tsx:48-51 | exactly that index removed |
| HeadersEditor.DisplayedHeaders | src/components/request-composer/HeadersEditor.tsx:68-100 | the read-only environment and global rows are exactly the enabled ones with a key |
| EnvironmentModal.WithList | src/components/environments/EnvironmentModal.tsx:86-106 | `{ ...e, [type]: list }` replaces the chosen list only |
| EnvironmentModal.ListOf | src/components/environments/EnvironmentModal.tsx:100 | the chosen list, `e[type]`; `WithList` states that it reads back what was written |
| EnvironmentModal.AddRow | src/components/environments/EnvironmentModal.tsx:74-90 | the edit `addItem` applies to the selected environment; `Editor.AddItem` states its effect |
| EnvironmentModal.Editor.SelectedEnv | src/components/environments/EnvironmentModal.tsx:45 | `find` by the selected id; specified by `VariableSubstitution.FindEnvironment` and `FindEnvironmentFirst` |
| EnvironmentModal.MapSelected | src/components/environments/EnvironmentModal.tsx:66-107 | same length; environments with the selected id are edited, the rest kept |
| EnvironmentModal.RemoveEnvironment | src/components/environments/EnvironmentModal.tsx:59 | never longer than before |
| EnvironmentModal.RemoveEnvironmentMembers | src/components/environments/EnvironmentModal.tsx:59 | exactly the environments with another id remain |
| EnvironmentModal.RemoveEnvironmentPosition | src/components/environments/EnvironmentModal.tsx:59 | every kept environment is still in the list, no later than before |
| EnvironmentModal.RemoveEnvironmentKeepsOrder | src/components/environments/EnvironmentModal.tsx:59 | two kept environments keep their relative order |
| EnvironmentModal.SelectionAfterDelete | src/components/environments/EnvironmentModal.tsx:61-63 | a deleted selection moves to the first remaining environment, or to null; any other selection stays |
| EnvironmentModal.DeleteKeepsSelectionValid | src/components/environments/EnvironmentModal.tsx:58-64 | if the selection named an environment, it still does after a delete (or is null) |
| EnvironmentModal.MapSelectedKeepsIds | src/components/environments/EnvironmentModal.tsx:66-121 | edits that keep ids keep a valid selection valid |
| EnvironmentModal.RowEditTouchesOnlyChosenList | src/components/environments/EnvironmentModal.tsx:74-121 | a row edit changes only the chosen list of the selected environment; its id, name and other list, and every other environment, are kept |
| EnvironmentModal.Editor.constructor | src/components/environments/EnvironmentModal.tsx:23-27 | the working copy of the input, with the first environment selected (null for none) |
| EnvironmentModal.Editor.Sync | src/components/environments/EnvironmentModal.tsx:33-41 | the working copy is reset to the input; an empty selection moves to the first environment |
| EnvironmentModal.Editor.AddEnvironment | src/components/environments/EnvironmentModal.tsx:47-56 | an empty "New Environment" is appended and selected |
| EnvironmentModal.Editor.DeleteEnvironment | src/components/environments/EnvironmentModal.tsx:58-64 | the environments with the id are removed; the selection follows `SelectionAfterDelete` and stays valid |
| EnvironmentModal.Editor.UpdateEnvName | src/components/environments/EnvironmentModal.tsx:66-71 | only the selected environment is renamed; a no-op without a selection |
| EnvironmentModal.Editor.AddItem | src/components/environments/EnvironmentModal.tsx:74-90 | a blank row appended to the chosen list of the selected environment; a no-op without a selection |
| EnvironmentModal.Editor.UpdateItem | src/components/environments/EnvironmentModal.tsx:93-109 | that row of the selected environment's chosen list is updated; a no-op without a selection |
| EnvironmentModal.Editor.RemoveItem | src/components/environments/EnvironmentModal.tsx:112-121 | that row of the selected environment's chosen list is removed; a no-op without a selection |
| MockupEditor.Loaded | src/components/mockup/MockupEditor.tsx:36-40 | the stored responses, or the single default 200 response when there are none |
| MockupEditor.Fresh | src/components/mockup/MockupEditor.tsx:59 | a response with the status, an empty body and no headers; specified through `Added` and `AddsKeepNumbering` |
| MockupEditor.Added | src/components/mockup/MockupEditor.tsx:55-62 | the old responses kept, plus a fresh one with status 200 + old length |
| MockupEditor.AddsKeepNumbering | src/components/mockup/MockupEditor.tsx:55-62 | repeated adds on a form numbered from 200 keep it numbered 200, 201, 202, … |
| MockupEditor.ActiveAfterRemove | src/components/mockup/MockupEditor.tsx:67-69 | the index is in range whenever the list is non-empty, kept when it still fits, 0 for an empty list |
| MockupEditor.WithResponseField | src/components/mockup/MockupEditor.tsx:74-77 | only the given field of the response changes |
| MockupEditor.RemoveBeforeActive | src/components/mockup/MockupEditor.tsx:64-70 | removing a response before the active one leaves the index in place, so it now selects the response that came after (or the new last one) |
| MockupEditor.Editor.constructor | src/components/mockup/MockupEditor.tsx:21-29 | path `/`, GET, one 200 response, index 0, rate limit 100 |
| MockupEditor.Editor.Load | src/components/mockup/MockupEditor.tsx:31-53 | fills the form from the data (default response when it has none) or resets it; index 0 and rate limit 100 either way |
| MockupEditor.Editor.AddResponse | src/components/mockup/MockupEditor.tsx:55-62 | responses become `Added(old)`, and the new one is active |
| MockupEditor.Editor.RemoveResponse | src/components/mockup/MockupEditor.tsx:64-70 | exactly that index removed; the active index follows `ActiveAfterRemove` and stays valid while a response remains |
| MockupEditor.Editor.UpdateResponse | src/components/mockup/MockupEditor.tsx:72-79 | only the given field of the active response changes |
| MockupEditor.Editor.SaveDraft | src/components/mockup/MockupEditor.tsx:81-91 | the draft carries the form's responses, the id being edited, and the fixed rate limit |

## Left out

- JSON grammar: `JSON.parse`/`JSON.stringify` are a codec parameter, and the round-trip law is a precondition (`Lawful`), not something proved. JSON numbers are integers. A JSON object is a map from key to value, so the field order of the text `JSON.stringify` emits is not represented: a row kept as the JSON value it is loses its original field order when it is sent. Nothing in the modelled code depends on that order.
- RequestTypes.ParseBodyContent: a structured text whose `raw` is truthy but not a string is read as "" rather than carried through as that value. The rows of `urlencoded` and `formdata` are kept as the JSON values they are.
- RequestTypes.SubstituteRow: body rows the app did not write are kept as they are, where the source behaves differently. Substitution runs only when `handleSend` substitutes at all: on a non-empty environment variable list or a non-empty secrets list, enabled or not (src/app/page.tsx:148-154, :175-181). When it runs, the source has three error paths, each a TypeError:
  - a `null` row throws when `item.key` is read (src/utils/request-types.ts:61, :66);
  - a truthy `key` or `value` that is a number, `true` or an object throws at `result.includes` (src/utils/variable-substitution.ts:39), but only when at least one variable in the list is enabled, because disabled variables are skipped before that call (:36);
  - an array `key` or `value` with an element equal to an enabled variable's placeholder passes `includes` and throws at `result.split` (:41).

  In all three cases the source's `handleSend` throws before `sendRequest` (src/app/page.tsx:218), after the history entry was already written (:134-136), so nothing is sent. The model sends the row unchanged instead. Other non-object rows (numbers, booleans, strings, arrays) become a new object in the source (`{}`, or index-keyed fields for a string or an array, the `undefined` key and value dropped by `JSON.stringify`); the model leaves them as they are.
- Workspace.Home.Send: inherits the `RequestTypes.SubstituteRow` gap above. Where the source throws during substitution, it records the history entry and sends nothing; the model records the entry and returns the request with the offending rows unchanged.
- Network, timing and sizes: `fetch`, the proxy route, `performance.now` and the `Blob` byte size are left out. The outcome of the round trip is a parameter of `SendRequest`.
- Persistence and auth: localStorage reads and writes, the Prisma route handlers around `buildTree`, Firebase auth, and the effects that load secrets and global headers. The backend save-all calls appear only as a log of the lists handed to them.
- Rendering: JSX, theme, landing pages, the sidebar and the response viewers.
- Concurrency: overlapping `sendRequest` calls racing to set the response are not modelled; each call is one atomic step.
- MockupEditor.Editor.UpdateResponse: requires the active index to be in range. The sparse-array write past the end, reachable only after removing the only response (which the UI offers no way to do), is not modelled.
- Out-of-range `updateSecret`/`updateGlobalHeader`/`updateHeader`/`toggleHeader`/`updateItem` writes: these require an existing row. The rendered rows only pass existing indices, and JavaScript would create a hole. Out-of-range removes are modelled as the no-ops they are.
- Ill-typed updates (`[field]: value` with a value of the wrong type) are excluded: each field is set only to a value of its own type.
- The mock editor's inline header-row editing inside the response panel (which mutates the shared row objects in place), and the plain input setters for path, method, description and visibility, are not modelled. `rateLimit` is always 100 in the form (the effect resets it to 100), so `Valid()` fixes it.
- The environment modal's `handleSave` (hand the working copy to `onSave`) and the page's `handleImportCollections`, `handleSaveEnvironments` and `handleSetActiveEnvironment` are plain state writes plus storage and are not modelled.
- A missing `headers` on a stored environment is modelled as the empty list. A missing `headers` or `body` on a history entry is likewise modelled as the empty list or the empty text, which is what `loadHistoryItem` falls back to.
- EnvironmentModal.Editor.Sync: takes the React effect as written, so it can leave a selection naming an environment that is no longer in the list. The model states this behaviour and does not claim the selection stays valid.
- `handleSend` hands `stringifyBodyContent(finalStructuredBody)` to `sendRequest` unchanged; no `urlencoded`/`formdata` encoding or `Content-Type` rewrite is performed, so none is modelled.
- The mocks route's path normalisation and the public mock route are not part of this model.
- PostmanParser.PostmanItem: the input types cannot hold `null` elements. A `null` in an `item` array makes `item.request` throw outside the per-item `try` (src/utils/postman-parser.ts:77), so the whole import throws and the page's catch leaves the collections unchanged; the model covers this only as the `None` argument of `Workspace.Home.ImportFile`. A `null` in a `header` array throws inside the `try` (:91), so only that request is skipped; the model does not represent that input.
- CollectionsRoute.BuildTree: requires pairwise distinct ids, as the database's primary key guarantees. Without them the source's recursion need not terminate. For example, A (id 1, no parent) and B (id 1, parent 1) make the recursion below B find B again, forever.
