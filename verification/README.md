# Server-list parsing of the Nerevar API, in Dafny

This project models the core of the `GET /api/v1/servers/list` route
(`src/app/api/v1/servers/list/route.ts`). The route relays the TES3MP
master server's list of game servers. The upstream body is meant to be
`{"list servers": {"<ip>:<port>": {...}, ...}}`, but it is often
malformed, so the route recovers it in up to three stages:

1. **Direct parse**: `JSON.parse` of the whole body.
2. **Entry repair** (`fixMalformedJsonEntries`):
   - match the fixed wrapper `{"list servers":{` … `}}`;
   - cut its content into `"key" … {…}` entries with a string-aware brace scanner;
   - keep only the entries that parse on their own to an object under their key;
   - join the kept entries again and parse the result.
3. **Permissive extraction** (`extractServersPermissive`):
   - find every `"a.b.c.d:port": {` in the text;
   - scan the object that follows it and check its syntax with `JSON.parse`;
   - build a record from eight regex field probes, kept when at least three fields are found.

The GET handler answers 200 with `serversData["list servers"]`, or 500.

The model follows the source file by file.

- `wrappers.dfy`: `Option`.
- `json.dfy`: JSON values and the property read the pipeline does.
- `text.dfy`:
  - `indexOf`;
  - greedy character-class runs (`\s*`, `\d+`, `[^"]*`);
  - leftmost regex search;
  - `join`;
  - `parseInt` of digits.
- `scanner.dfy`: the brace-matching loop, which the source writes out three times, twice on the live path (135-169, 224-258); it is modelled once.
  - `Run` and `Close` are its specification.
  - `MatchBrace` is the loop, proved against them.
- `repair.dfy`: `fixMalformedJsonEntries`.
  - The walk over the content is a function of the content alone: `Candidates`.
  - Acceptance is a filter over it: `Accepted`.
  - `Gather` is what the loop pushes, one iteration at a time; `GatherKept` ties it to the filter.
  - The method `FixMalformedJsonEntries` is the loop, proved equal to `RepairedText`.
- `permissive.dfy`: `extractServersPermissive`.
  - `KeySignatureAt` is the key regex tried at one position.
  - `Harvest` is the global `exec` loop: it resumes just past each match's `{`.
  - `ServerAt` and `EntryAt` give the record read for a match.
  - The method `ExtractServersPermissive` is proved equal to `PermissiveJson`.
- `pipeline.dfy`:
  - `parseServersJson` as the three-stage chain `ParseServers`;
  - the GET handler as `Respond`.

`JSON.parse` is a library call whose grammar is not modelled. Every stage takes it as a parameter `parse: Parser`, a total function from text to `Option<Json>`, where `None` means "throws". Every property below holds for every such parser.

Two consequences of the code are worth stating up front:

- **A 2xx body that is not valid JSON and has neither the wrapper nor any `ip:port` key.** A body that does parse never reaches the permissive stage: `null` makes the lookup of `"list servers"` throw (500), and `{}` is answered 200 with no list. For a body that does not parse, the permissive stage returns `{"list servers": {}}` and never throws, so the route answers 200 with an empty list (`ServerList.NoKeysEmptyList`). The "Unable to parse server data" error (route.ts:89-92) is unreachable.
- **Manual extraction.** `extractServersManually` (318-352) has no call site, so it is not part of the chain.

## Model

| member | source | states |
|---|---|---|
| Text.IndexOfFirst | src/app/api/v1/servers/list/route.ts:122-131 | `indexOf` finds the first occurrence at or after the start index, and reports none only when there is none |
| Text.RunEndIs | src/app/api/v1/servers/list/route.ts:210 | a greedy class run (`\s*`, `\d+`, `[^"]*`) ends exactly at the first character outside the class |
| Text.LeftmostFirst | src/app/api/v1/servers/list/route.ts:272 | a regex search reports the leftmost position where the pattern matches, with that match's value, and none when nothing matches |
| Text.LeftmostAgree | src/app/api/v1/servers/list/route.ts:213 | the leftmost search depends only on the pattern's verdicts inside the searched range |
| Text.JoinChars | src/app/api/v1/servers/list/route.ts:198 | joining with `,` introduces no characters other than the parts' and the separator's |
| Text.DecimalRoundTrip | src/app/api/v1/servers/list/route.ts:279 | `parseInt` reads every decimal rendering back to its number |
| BraceScanner.StepDepth | src/app/api/v1/servers/list/route.ts:143-167 | one scanned character moves the depth by at most one; it lowers it only on a `}` and raises it only on a `{`, each outside a string and not escaped |
| BraceScanner.FirstCloseFirst | src/app/api/v1/servers/list/route.ts:161-166 | the loop stops at the first character that brings the depth back to 0 |
| BraceScanner.CloseDepths | src/app/api/v1/servers/list/route.ts:224-258 | from the `{` up to its close the depth stays positive; without a close it stays positive to the end of the text |
| BraceScanner.CloseIs | src/app/api/v1/servers/list/route.ts:140-169 | the close is the first index after which the depth is 0, and any such first index is the close |
| BraceScanner.CloseSkipsQuotedBrace | src/app/api/v1/servers/list/route.ts:135-169 | a `}` inside a quoted value is not a closer: `{"a": "x}y", "b": 1}` closes at its last character, index 19 |
| BraceScanner.MatchBrace | src/app/api/v1/servers/list/route.ts:135-169 | the loop ends with count 0 exactly when the `{` closes, and then `braceEnd` is the close; otherwise the count is the positive depth left at the end of the text |
| EntryRepair.MatchWrapper | src/app/api/v1/servers/list/route.ts:102-110 | a match gives content that rebuilds the text between the 17-character prefix and `}}`, and that has no line terminator |
| EntryRepair.WrapperRoundTrip | src/app/api/v1/servers/list/route.ts:102-110 | wrapping content and matching it again gives back the content exactly when it has no line terminator |
| EntryRepair.VisitWellFormed | src/app/api/v1/servers/list/route.ts:122-169 | each iteration finds two quotes, a `{` after the key and, when balanced, a `}` closing it, all in order inside the content |
| EntryRepair.StepsAdvance | src/app/api/v1/servers/list/route.ts:188-191 | every iteration that does not stop moves `currentPos` strictly forward and stays within the content, so the walk terminates |
| EntryRepair.WalkFinds | src/app/api/v1/servers/list/route.ts:120-193 | a property of every balanced candidate the loop can visit holds for every candidate of the walk |
| EntryRepair.WalkOrdered | src/app/api/v1/servers/list/route.ts:120-193 | the candidates are visited in text order and do not overlap |
| EntryRepair.CandidatesWellFormed | src/app/api/v1/servers/list/route.ts:122-173 | every candidate cut from the content is a well-formed `"key"` … `{…}` span inside it |
| EntryRepair.AcceptedSound | src/app/api/v1/servers/list/route.ts:171-188 | only candidates the walk visited are kept, and each kept entry, wrapped in braces, parses to a value whose property under the raw key is a truthy object |
| EntryRepair.AcceptedComplete | src/app/api/v1/servers/list/route.ts:171-188 | every candidate that passes the acceptance test is kept |
| EntryRepair.AcceptedOrdered | src/app/api/v1/servers/list/route.ts:179 | the kept entries keep their text order |
| EntryRepair.AcceptedAfter | src/app/api/v1/servers/list/route.ts:179 | filtering keeps the lower bound shared by all the candidates |
| EntryRepair.GatherWalk | src/app/api/v1/servers/list/route.ts:120-193 | what the loop pushes is, in order, what each visited candidate contributes |
| EntryRepair.ConcatKeep | src/app/api/v1/servers/list/route.ts:171-188 | pushing each candidate's entry when it is accepted gives the entries of the accepted candidates, in order |
| EntryRepair.GatherKept | src/app/api/v1/servers/list/route.ts:120-193 | the entries the loop pushes are the entries of the accepted candidates of the walk |
| EntryRepair.TextsAt | src/app/api/v1/servers/list/route.ts:173 | the `k`-th kept text is the `k`-th candidate's `substring(keyStart, braceEnd + 1)` |
| EntryRepair.JoinedTextsRewrap | src/app/api/v1/servers/list/route.ts:197-201 | the rebuilt text passes the wrapper match again, with the joined entries as its content |
| EntryRepair.RepairOutput | src/app/api/v1/servers/list/route.ts:102-201 | unwrapped text comes back unchanged; otherwise the kept entries are the accepted candidates' texts, those candidates are ordered non-overlapping spans of the content, and the output re-matches the wrapper |
| EntryRepair.FixMalformedJsonEntries | src/app/api/v1/servers/list/route.ts:98-202 | the loop returns `RepairedText`, the specification the lemmas above describe |
| EntryRepair.NextVisit | src/app/api/v1/servers/list/route.ts:122-169 | one iteration's searches give exactly the visit the specification walk takes at that position |
| PermissiveExtraction.DigitGroupsDigits | src/app/api/v1/servers/list/route.ts:210 | every group `[0-9]+` captures is a non-empty run of digits |
| PermissiveExtraction.DigitGroupsSpelt | src/app/api/v1/servers/list/route.ts:210 | the text from the first digit spells the groups found, each followed by its separator |
| PermissiveExtraction.DigitGroupsComplete | src/app/api/v1/servers/list/route.ts:210 | wherever the text spells non-empty digit groups with non-digit separators, exactly those groups are found |
| PermissiveExtraction.PatternSound | src/app/api/v1/servers/list/route.ts:210 | a match of the pattern, for any separators ending in a quote, is a quote, delimited digit groups spelled in the text, `:`, white space and `{`, with the key before the last separator |
| PermissiveExtraction.KeySignatureSound | src/app/api/v1/servers/list/route.ts:210 | a key match is a quote, five non-empty digit groups separated by `.`,`.`,`.`,`:`, a quote, `:`, white space and `{`; the captured key is the groups so separated |
| PermissiveExtraction.KeySignatureComplete | src/app/api/v1/servers/list/route.ts:210 | every such text is a match, with that key and that `{` |
| PermissiveExtraction.SignatureInterior | src/app/api/v1/servers/list/route.ts:210 | inside a match no `{` precedes the final one, and its only inner quote is followed by `:` |
| PermissiveExtraction.SignaturesApart | src/app/api/v1/servers/list/route.ts:213 | no match starts after another's quote and at or before its `{`, so resuming after the `{` misses no match |
| PermissiveExtraction.BraceFound | src/app/api/v1/servers/list/route.ts:219-221 | `indexOf("{", startPos)` finds the match's own `{`, so the `continue` never runs |
| PermissiveExtraction.StringAtMeans | src/app/api/v1/servers/list/route.ts:272-276 | a string probe captures `v` exactly when the text holds `"name":`, white space and `v` between quotes, with no quote in `v` |
| PermissiveExtraction.IntAtMeans | src/app/api/v1/servers/list/route.ts:278-286 | a number probe yields `n` exactly when the text holds `"name":`, white space and a maximal digit run whose value is `n` |
| PermissiveExtraction.BoolAtMeans | src/app/api/v1/servers/list/route.ts:291-292 | the flag probe yields `b` exactly when the text holds `"name":`, white space and `true` or `false` as `b` |
| PermissiveExtraction.RecordObject | src/app/api/v1/servers/list/route.ts:269-299 | the record object has exactly the fields found, each with its value, and its key count is the number of fields found |
| PermissiveExtraction.ServerAtMeans | src/app/api/v1/servers/list/route.ts:219-266 | the record read for a match is the entry opened by the match's own `{` |
| PermissiveExtraction.SignaturesProgress | src/app/api/v1/servers/list/route.ts:213-215 | every match ends at a `{` after its start, so `lastIndex` moves forward |
| PermissiveExtraction.PermissiveExact | src/app/api/v1/servers/list/route.ts:213-300 | a key is extracted exactly when some match for it yields a record, and it holds the record of the last such match |
| PermissiveExtraction.PermissiveKeys | src/app/api/v1/servers/list/route.ts:210-300 | every extracted key has the `a.b.c.d:port` digit-group shape |
| PermissiveExtraction.PermissiveFields | src/app/api/v1/servers/list/route.ts:260-307 | every extracted server has at least three of the eight fields, as the `Object.keys(serverObj).length >= 3` gate demands |
| PermissiveExtraction.ExtractServersPermissive | src/app/api/v1/servers/list/route.ts:205-315 | the `exec` loop returns `{"list servers": servers}` with the servers of `PermissiveExact` |
| PermissiveExtraction.Exec | src/app/api/v1/servers/list/route.ts:213 | `exec` from `lastIndex` gives the leftmost match at or after it |
| PermissiveExtraction.ReadServer | src/app/api/v1/servers/list/route.ts:219-304 | one match's body of the loop stores exactly the record `ServerAt` gives |
| PermissiveExtraction.ReadEntry | src/app/api/v1/servers/list/route.ts:260-304 | a record is kept only for a balanced entry that parses and yields at least three fields |
| PermissiveExtraction.ReadFields | src/app/api/v1/servers/list/route.ts:269-296 | the eight probes in source order give the record of the fields found |
| ServerList.ParseServersJson | src/app/api/v1/servers/list/route.ts:57-93 | the three attempts return `ParseServers`: direct parse, else repaired parse, else permissive extraction |
| ServerList.UnwrappedGoesPermissive | src/app/api/v1/servers/list/route.ts:66-88 | a body that neither parses nor has the wrapper shape yields the permissive extraction |
| ServerList.FallbackShape | src/app/api/v1/servers/list/route.ts:84-88 | when both parses fail the result is `{"list servers": {...}}`, whose keys are `a.b.c.d:port` keys each holding its extracted record |
| ServerList.NoKeysEmptyList | src/app/api/v1/servers/list/route.ts:66-92 | when both parses fail and the text holds no key match, wrapped or not, the result is an empty server list, not an error |
| ServerList.StatusCode | src/app/api/v1/servers/list/route.ts:511-525 | the handler answers 200 or 500 |
| ServerList.Get | src/app/api/v1/servers/list/route.ts:474-526 | the handler returns `Respond`: 500 for a failed fetch, a non-2xx status or a null parse, otherwise 200 with `["list servers"]` |
| ServerList.FailsOnlyOnNull | src/app/api/v1/servers/list/route.ts:490-509 | with a 2xx response the handler fails exactly when the direct or the repaired parse yields null |
| ServerList.MalformedStillServed | src/app/api/v1/servers/list/route.ts:474-515 | a 2xx body that neither parses nor has the wrapper shape is answered 200 with exactly the permissively extracted servers |

## Left out

- Logging: every `console.log` and `console.error` call is left out, since they affect no result.
- The upstream fetch is a parameter of type `Upstream`:
  - a network failure or timeout (including the 10-second abort) is `NoResponse`;
  - the URL, headers and status text are not modelled.
- The reply's `timestamp` and its error message are not modelled. `Reply` keeps only the success flag (200 or 500) and `data`.
- The JSON grammar is not modelled. `JSON.parse` is a parameter (see above).
- Object key order: objects are maps, so JavaScript's insertion order of the reply's keys is not captured.
- Number precision:
  - `parseInt` results are exact naturals, so precision loss above 2^53 is not modelled;
  - JSON numbers are reals with no floating-point rounding.
- Uncalled helpers of route.ts are not part of this model, since the route never calls them:
  - `escapeJsonString` (4-13);
  - `fixMalformedJson` (16-54);
  - `extractServersManually`, `extractFromContent`, `cleanServerData` and `isValidServerObject` (318-472).
- The other files of the repository (the home page, the theme switch, the release routes, the auth client) are not part of this model.
- EntryRepair.RepairOutput: states what the repaired text contains, not that repairing it a second time changes nothing. Idempotence of the repair is not proved.
