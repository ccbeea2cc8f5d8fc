# dev-watchdog, modelled in Dafny

The dev watchdog is a FiveM server resource. It watches the `resources` tree
and decides, for each file change, whether the change touches a resource. It
does this by reading the resource's `fxmanifest.lua`. When the change is
relevant, it restarts that resource after a debounce delay, and it runs the
privileged `refresh` command first when the manifest itself changed.

This project models the two pieces of logic in that program and proves what
they promise:

- `text.dfy` (module `Text`) holds the JavaScript string primitives the
  program relies on, over `seq<char>`. These are `split` and `join` on one
  character, `indexOf`, `includes`, `endsWith`, `replace` with a string
  pattern (first occurrence only) and `replaceAll` of one character.
- `fxmanifest_parser.dfy` (module `FxManifestParser`) models
  `src/server/fxmanifest-parser.ts`:
  - the comment stripper;
  - the tokenizer, whose three token kinds make up the `Tok` datatype;
  - the directive recogniser for `key "v"`, `key { ... }` and `key( ... )`;
  - key normalisation and the accumulating `add`.
  
  The source's loops are methods (`Tokenize`, `ReadArray`,
  `ParseFxManifest`). Each is proved equal to a specification function
  (`Tokens`, `ArrayAt`, `Parse`), and the properties are proved about those
  functions.
- `rendering.dfy` (module `Rendering`) lays tokens out as text, with one
  space after each lexeme. It proves that the tokenizer reads such text back
  unchanged, and that the four directive syntaxes parse from text as they do
  from tokens.
- `watchdog.dfy` (module `Watchdog`) models the change handler of
  `src/server/index.ts`:
  - `slp`;
  - the segment split and filter that yields the resource name;
  - `shouldRestartResource`, as an ordered chain of guards over an abstract
    `Host`;
  - the stop / refresh / start protocol of `restartResource`;
  - the `ensureTimers` debounce map, as the class `Watchdog`. Its field
    `timers` maps each resource to its pending timer, and its field `log`
    records the host calls made. Each change event receives the `Host` as it
    finds it, so the manifest is read and the glob is expanded afresh for
    every change, as the handler does.

The handler's behaviour, as the code has it:

- The refresh flag is latest-wins. It comes from the segments of the change
  that armed the timer last; earlier changes coalesced into the same timer do
  not contribute.
- The flag is `parts[1]` after filtering.
- A change to `<name>/fxmanifest.lua` is relevant only past the name, self,
  manifest and empty-expansion guards. It is tested last, and the test is a
  substring test.
- The path is split on the platform separator after the root prefix is
  removed, without turning its separators into `/` first.
- The segment filter drops any segment that starts with `[` or ends with `]`,
  whether or not it is wrapped in brackets on both sides.

Some behaviour is modelled as written:

- The comment stripper ignores quotes, so a `//` or `--` inside a string
  literal cuts the line there.
- `\s` is the exact ECMAScript whitespace and line-terminator set.

## Model

| member | source | states |
|---|---|---|
| Text.IndexOf | src/server/fxmanifest-parser.ts:87-88 | the index of the first occurrence of the pattern, or -1 exactly when it does not occur |
| Text.Split | src/server/fxmanifest-parser.ts:85 | `split` on one character gives at least one piece, and no piece holds the separator |
| Text.SplitJoin | src/server/fxmanifest-parser.ts:85-92 | splitting undoes joining when no piece holds the separator |
| Text.JoinEnds | src/server/fxmanifest-parser.ts:92 | `join` starts with the first piece and ends with the last |
| Text.JoinSeparators | src/server/fxmanifest-parser.ts:92 | joining separator-free pieces yields exactly one separator fewer than there are pieces, so the pieces are separated one by one |
| Text.JoinSplit | src/server/fxmanifest-parser.ts:85-92 | joining undoes splitting |
| Text.ReplaceFirst | src/server/index.ts:111 | `replace` with a string pattern replaces exactly the first occurrence, and leaves the string alone when the pattern is absent |
| Text.ReplaceChar | src/server/index.ts:14 | `replaceAll` of one character keeps the length and changes exactly the positions holding that character |
| FxManifestParser.StripLine | src/server/fxmanifest-parser.ts:86-91 | a line is cut at its earliest `//` or `--`: the result is a prefix with no marker starting before its end, a marker starts right where it ends, and a line with neither marker is kept whole |
| FxManifestParser.StripLines | src/server/fxmanifest-parser.ts:86-91 | every line is cut on its own, and the number of lines is kept |
| FxManifestParser.StripComments | src/server/fxmanifest-parser.ts:83-93 | the `\n`-separated lines of the result are exactly the input's lines, each cut by `StripLine` |
| FxManifestParser.StripCommentsLines | src/server/fxmanifest-parser.ts:83-93 | stripping keeps the number of `\n`-separated lines; each output line is its input line cut at the earliest comment marker, so it is a prefix of it and holds no marker |
| FxManifestParser.StripCommentsIdempotent | src/server/fxmanifest-parser.ts:83-93 | stripping twice is stripping once |
| Rendering.StripNoComment | src/server/fxmanifest-parser.ts:83-93 | a text with no newline and no comment marker is left unchanged |
| FxManifestParser.StringBody | src/server/fxmanifest-parser.ts:119-127 | the scan of a string body stops within the input, and the value is never longer than the characters consumed |
| FxManifestParser.IdentEnd | src/server/fxmanifest-parser.ts:135 | the identifier run is maximal: every character in it matches `[A-Za-z0-9_.]`, and the next one does not (or the input ends) |
| FxManifestParser.TokensFrom | src/server/fxmanifest-parser.ts:100-144 | there are never more tokens than characters left |
| FxManifestParser.Tokenize | src/server/fxmanifest-parser.ts:100-144 | the tokenizer loop yields exactly `Tokens(s)` |
| FxManifestParser.ReadIdent | src/server/fxmanifest-parser.ts:132-136 | the identifier loop stops at the first character outside `[A-Za-z0-9_.]` (or the end of the input) and yields the text from the start character to there |
| FxManifestParser.ReadQuoted | src/server/fxmanifest-parser.ts:118-127 | the string-literal loop yields the value and end index `StringBody` describes |
| FxManifestParser.TokensWellFormed | src/server/fxmanifest-parser.ts:110-138 | every identifier token is non-empty and matches `[A-Za-z_][A-Za-z0-9_.]*`; every punctuation token is one of `{ } ( , )` |
| FxManifestParser.PlainStringBody | src/server/fxmanifest-parser.ts:122-127 | a string body with no quote and no backslash is taken as it stands, up to the closing quote or to the end of the input |
| FxManifestParser.UnterminatedString | src/server/fxmanifest-parser.ts:118-129 | an unterminated string runs to the end of the input and is still emitted as a string token |
| FxManifestParser.EscapedQuote | src/server/fxmanifest-parser.ts:124 | a backslash copies the next character, so an escaped quote does not end the string |
| FxManifestParser.NormalizeKey | src/server/fxmanifest-parser.ts:146-150 | the result is never `file` and never ends in `_script`; such a key is returned unchanged; any other key gets an `s` appended |
| FxManifestParser.NormalizeKeyIdempotent | src/server/fxmanifest-parser.ts:146-150 | normalising is idempotent; `client_scripts` and `files` are unchanged; `shared_script` becomes `shared_scripts` |
| FxManifestParser.Add | src/server/fxmanifest-parser.ts:152-155 | the key is present afterwards; its earlier values are kept in order and followed by the new ones; every other key is unchanged |
| FxManifestParser.AddAsWritten | src/server/fxmanifest-parser.ts:152-155 | on a plain object the call throws exactly when the key is an inherited `Object.prototype` name not yet set; otherwise it agrees with `Add` |
| FxManifestParser.InheritedKeyThrows | src/server/fxmanifest-parser.ts:15-23 | the directive `toString "x"` reaches `add` with the key `toString`, where the code as written throws |
| FxManifestParser.ArrayAt | src/server/fxmanifest-parser.ts:157-181 | the next index is never before the start, and every collected value is the contents of a string token |
| FxManifestParser.ReadArray | src/server/fxmanifest-parser.ts:157-181 | the `readArray` loop yields exactly `ArrayAt` |
| FxManifestParser.ArrayAtMeaning | src/server/fxmanifest-parser.ts:157-181 | `readArray` returns, in order, the string tokens from the start up to the first `}`; the next index is just past that `}`, or the token count when there is none |
| FxManifestParser.CallArgs | src/server/fxmanifest-parser.ts:38-68 | pattern C's scan stops within the tokens, keeps the values already collected in front, and adds only string-token contents |
| FxManifestParser.ReadCallArgs | src/server/fxmanifest-parser.ts:38-68 | pattern C's inner loop yields exactly `CallArgs` |
| FxManifestParser.Step | src/server/fxmanifest-parser.ts:14-75 | one iteration of the main loop strictly advances the index and stays within the tokens; it only appends to the map and only adds values drawn from the tokens |
| FxManifestParser.ParseFxManifest | src/server/fxmanifest-parser.ts:7-79 | for every input the loop terminates and returns the map `Parse` describes, accumulating with the corrected `Add` of the Findings row |
| FxManifestParser.ParseFromAppends | src/server/fxmanifest-parser.ts:13-76 | the main loop never drops a key, and it keeps every key's earlier values as a prefix |
| FxManifestParser.ParseFromSourced | src/server/fxmanifest-parser.ts:13-76 | the main loop keeps every key a normalised identifier name and every value a string token's contents |
| FxManifestParser.ParseResult | src/server/fxmanifest-parser.ts:7-79 | every output key is normalised (never `file`, never ending in `_script`) and names an identifier of the stripped text; every value is a string literal's contents |
| FxManifestParser.SyntaxesAgree | src/server/fxmanifest-parser.ts:21-73 | `k "v"`, `k { "v" }`, `k("v")` and `k({ "v" })` each append exactly `[v]` under `normalizeKey(k)` and resume just past the directive |
| FxManifestParser.KeyBracesStep | src/server/fxmanifest-parser.ts:28-34 | `k { "v" }` appends `[v]` and resumes past the `}` |
| FxManifestParser.CallStringStep | src/server/fxmanifest-parser.ts:36-73 | `k("v")` appends `[v]` and resumes past the `)` |
| FxManifestParser.CallBracesStep | src/server/fxmanifest-parser.ts:36-73 | `k({ "v" })` appends `[v]` and resumes past the `)` |
| FxManifestParser.EmptyForms | src/server/fxmanifest-parser.ts:28-73 | `k { }` creates the key with an empty list, while `k()` leaves the map unchanged |
| Rendering.TokenizeRender | src/server/fxmanifest-parser.ts:100-144 | a text holding the lexemes of well-formed tokens, each followed by one space, is tokenized back to exactly those tokens (strings without quotes or backslashes) |
| Rendering.FourSyntaxes | src/server/fxmanifest-parser.ts:7-79 | any text laying out one of the four syntaxes with a space after each token, with no newline or comment marker, parses to the single entry `normalizeKey(k)` holding `[v]` |
| Watchdog.Slp | src/server/index.ts:13-15 | the result holds no backslash, has the input's length, and differs from it only where the input has a backslash, which becomes `/` |
| Watchdog.SlpIdempotent | src/server/index.ts:13-15 | normalising twice is normalising once |
| Watchdog.SlpAll | src/server/index.ts:49-52 | `files.map(slp)` normalises each expanded path and keeps their number |
| Watchdog.KeepSegment | src/server/index.ts:113 | a segment is kept unless it is `resources`, starts with `[` or ends with `]`; an empty segment is kept |
| Watchdog.FilterSegments | src/server/index.ts:113 | a segment survives exactly when it is not `resources`, does not start with `[` and does not end with `]` |
| Watchdog.FilterSegmentsConcat | src/server/index.ts:113 | survivors keep their relative order |
| Watchdog.FirstSegment | src/server/index.ts:115 | the resource name is `parts[0]`, absent when there is no segment |
| Watchdog.FirstSurvivor | src/server/index.ts:110-115 | the resource name is absent exactly when no segment survives; otherwise it is the first surviving segment |
| Watchdog.Segments | src/server/index.ts:110-113 | the segments of a changed path: every one survives the filter and holds no platform separator |
| Watchdog.RootPrefix | src/server/index.ts:111 | the removed prefix is the root plus one character, and ends in the platform separator |
| Watchdog.SegmentsBelowRoot | src/server/index.ts:110-113 | for a path under the resource root, the segments are the filtered pieces of the path below the root |
| Watchdog.ManifestChangeSegments | src/server/index.ts:110-131 | a change to `<root>/[category]/<name>/fxmanifest.lua` names the resource `<name>` and sets the refresh flag |
| Watchdog.ManifestPatterns | src/server/index.ts:41-46 | a pattern is passed to the glob exactly when it is a value of `shared_scripts`, `client_scripts`, `server_scripts` or `files` |
| Watchdog.NoTrackedKeyNoPatterns | src/server/index.ts:41-46 | missing keys contribute nothing |
| Watchdog.PatternsIgnoreUntracked | src/server/index.ts:41-46 | values under any other key never reach the glob |
| Watchdog.PatternsAre | src/server/index.ts:41-46 | the patterns are the `shared_scripts`, `client_scripts`, `server_scripts` and `files` values concatenated in that order, a missing key giving none |
| Watchdog.PatternsOrder | src/server/index.ts:41-46 | `files` values come last and `shared_scripts` values come first, in the order they were added |
| Watchdog.ShouldRestartResource | src/server/index.ts:22-66 | no name or an empty one gives `NoResourceName`, whatever else holds; the watchdog's own name gives `OwnResource`; `Referenced` requires a name other than its own and a non-empty manifest |
| Watchdog.ManifestAndFiles | src/server/index.ts:40-65 | past those guards, an empty expansion rules the change out even when it is the manifest itself; otherwise the change is relevant iff its normalised path is among the normalised expanded files or contains `<name>/fxmanifest.lua`, and a manifest change always is |
| Watchdog.SlashInsensitive | src/server/index.ts:30 | the verdict for a path equals the verdict for its slash-normalised form |
| Watchdog.RestartActions | src/server/index.ts:78-98 | there are three actions when a refresh is wanted and two otherwise; the resource is stopped first and only then, and started last and only then; `refresh` runs iff a refresh is wanted and permitted; the permission error shows iff a refresh is wanted and not permitted |
| Watchdog.Watchdog.constructor | src/server/index.ts:103 | the timer map starts empty and no host call has been made; the watchdog's own resource name is fixed |
| Watchdog.Watchdog.HandleChange | src/server/index.ts:109-145 | judged against the host as this event finds it (manifest and glob of the moment), a relevant change arms the timer of its resource with its segments; any other change changes nothing; the log is untouched; the timer invariant is kept |
| Watchdog.Watchdog.Arm | src/server/index.ts:125-144 | arming replaces the resource's pending entry with the new one, leaves every other entry as it was, and makes no host call |
| Watchdog.RefreshFlag | src/server/index.ts:131 | the refresh flag is set exactly when the second filtered segment is `fxmanifest.lua` |
| Watchdog.Watchdog.Fire | src/server/index.ts:130-142 | firing logs one restart of the resource, with the refresh flag of the change that armed it last, then removes that entry and only it; the resource is never unnamed and never the watchdog itself |
| Watchdog.Watchdog.RestartResource | src/server/index.ts:78-98 | the host calls are appended to the log in the order `RestartActions` gives |
| Watchdog.DebounceKeepsLatest | src/server/index.ts:125-144 | two arms of one resource before it fires give one restart, using the later change's refresh flag |
| Watchdog.IndependentResources | src/server/index.ts:125-144 | pending restarts of two different resources fire independently, one restart each |

## Left out

- Watchdog.ShouldRestartResource: it returns a `Verdict` that names the deciding guard, where the source returns a boolean. The source's `true` is `Referenced`. The name is an `Option`, standing for `parts[0]` being `undefined`.
- Watchdog.ManifestPatterns: its own contract states membership only. `PatternsAre` states the full order of the four groups, and `PatternsOrder` where added values land.
- FxManifestParser.ParseFxManifest: it, `Parse` and `Watchdog.ShouldRestartResource` use the corrected `Add` of the Findings row. For a manifest with a directive keyed by an inherited `Object.prototype` name, such as `toString "x"`, they return a map, where the source throws a `TypeError` out of `parseFxManifest`, `shouldRestartResource` and the watch handler.
- Rendering.FourSyntaxes: it is stated for texts with one space after each token, and for a value with no quote, backslash, newline or comment marker. `SyntaxesAgree` states the same at the token level, whatever surrounds the directive.
- Time is not modelled. The 500 ms debounce and the 250 ms settle delays are abstract. `Fire` is an explicit event, and the `Start` entry is logged in the same step as the refresh. How delayed starts of different resources interleave is not modelled.
- The filesystem watch is not modelled. This covers the chokidar subscription, its options and its extension glob (`src/server/index.ts:102-109`). The handler receives the changed path as a parameter.
- Glob expansion is not modelled. It is a foreign library, so it is the `glob` field of `Host`.
- The FiveM natives are not modelled.
  - `GetCurrentResourceName`, `GetResourcePath` and `LoadResourceFile` are fields of `Host`.
  - `StopResource`, `StartResource`, `ExecuteCommand('refresh')` and the permission error are entries of the action log.
  - The result of `IsPrincipalAceAllowed` is a parameter of `Fire`.
- Logging is not modelled. This covers the console output, the colour table `CONST_EVENT_COLORS`, and the file name built only for the log line (`src/server/index.ts:122`).
- The derivation of the resource root is not modelled (`src/server/index.ts:17-20`). It depends on host natives, so the root and the platform separator are constructor parameters.
- The startup permission check is not modelled (`src/server/index.ts:148-154`). It depends on host natives.
- `src/server/fxmanifest-mock.ts` is a string constant with no logic. It is not part of this model.
- Characters are Unicode scalar values, while JavaScript indexes UTF-16 code units. No character outside the Basic Multilingual Plane matches a class the tokenizer tests, so both kinds of characters are skipped or copied alike.
- FxManifestParser.Add: it is a function on map values. The source mutates the local `out` object in place, and nothing else holds a reference to it.
- The variable `closed` of pattern C (`src/server/fxmanifest-parser.ts:40,62`) is never read, so it is not modelled.
- The `!k` and `!tk` tests (`src/server/fxmanifest-parser.ts:16,44,163`) never hold inside the loop bounds, so they are not modelled.
- Three inner loops of the source are separate methods here. They are the string-literal scan of `tokenize` (`ReadQuoted`), its identifier scan (`ReadIdent`) and the argument scan of pattern C (`ReadCallArgs`).

## Findings

| source | as written | input that shows it | evidently intended | confidence | as-written member | corrected member |
|---|---|---|---|---|---|---|
| src/server/fxmanifest-parser.ts:152-155 | `add` tests `!out[key]` on a plain object literal. For a key such as `toString`, `constructor` or `__proto__` that test sees the member inherited from `Object.prototype`, so no array is created, and `out[key].push` throws a `TypeError` out of `parseFxManifest` | the manifest line `toString "x"` | every identifier is an ordinary key: the line yields `{ toString: ["x"] }`, and the parser never throws | not executed | FxManifestParser.AddAsWritten, FxManifestParser.InheritedKeyThrows | FxManifestParser.Add |
