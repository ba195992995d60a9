# steam-stuff: simple VDF, Steam library scans and backup checks

This project models, in Dafny, the core of the `steam-stuff` Go repository:

- **sVDF** reads "simple VDF" files. These are Valve's text key/value files where every name and every leaf value is a double-quoted string and `{ }` nests name/value lists.
  - `parser.go` is a recursive-descent parser with an escape-aware string scanner and an advisory whitespace checker. The checker only logs warnings and never stops the parse.
  - `api.go` is the path accessor (`Lookup`, `HaveString`, `LookupNVL`, `HaveNVL`, `Names`, `Get`) and `FromFile`, which rejects a file whose top name is not one of the expected names.
- **steamfiles** reads what Steam leaves on disk.
  - `appmanifests.go` scans a Steam library folder for `appmanifest_<N>.acf` files. It keeps the newest manifest of each app and tells a callback about duplicates.
  - `backups.go` scans a backups directory for `sku.sis` files and lets a callback choose between two backups of the same app.
  - `types.go` parses app numbers.
- **check-backups** and **steam-backups-tool** are two programs with one job. Each scans the installed apps and the backups, then reports three kinds of problem, sorted by app name: an installed app with no backup, a backup older than its app's files, and (with `-r`) a backup of an app that is not installed.

Each Go function becomes a Dafny function over values, or a method where the Go code loops or updates state.

- The parser is the class `VdfParser.Parser`, with fields for the buffer, cursor, brace depth and warnings. Each of its methods is proved to leave exactly the state that a pure function of the old state describes.
- The maps the scanners fill are fields of the classes `AppManifests.InstalledApps` and `Backups.BackupsByApp`. Their methods are proved against folds over the per-entry outcomes.
- The problem list is the class `Problems.ProblemLog`.

Some inputs come from outside the code, so they are parameters of the model:

- the names in a directory, the result of each `Lstat` probe, and each file's modification time and contents;
- `AppNewerThan`, which walks the file system.

Go's panics and exits are explicit outcomes in the model:

- an index out of range in the parser;
- an app number that overflows `int32`;
- `dirList[1:]` on an empty list;
- `DieIf`.

## Model

| member | source | states |
|---|---|---|
| GoText.BytesToStringChars | sVDF/parser.go:104 | `string(b)` keeps one character per byte, in order |
| GoText.Digits | steamfiles/backups.go:123 | `strconv.Itoa` of a natural number is a non-empty string of decimal digits, with a leading zero only for 0 |
| GoText.DigitsRoundTrip | steamfiles/backups.go:123 | reading back the decimal digits of `n` gives `n` |
| GoText.Atoi | steamfiles/types.go:35 | `strconv.Atoi` succeeds only with a value in the 64-bit range |
| GoText.AtoiItoa | steamfiles/types.go:35 | `Atoi(Itoa(n)) == n` for every 64-bit `n` |
| GoText.ItoaInjective | steamfiles/appmanifests.go:89 | two numbers with the same decimal text are equal, so comparing `Itoa(appNum)` with the digits of the file name compares the numbers |
| GoText.LessIrreflexive | sVDF/api.go:37 | Go's byte-wise string `<` is irreflexive |
| GoText.LessTransitive | sVDF/api.go:37 | and transitive |
| GoText.LessTotal | sVDF/api.go:37 | and total on distinct strings |
| GoText.LessAsymmetric | check-backups/check-backups.go:345-348 | and asymmetric, so it is the strict order `sort.Slice` is given |
| GoText.InsertSorted | sVDF/api.go:37 | inserting a new string into a strictly sorted list keeps it strictly sorted and adds exactly that string |
| GoText.SortedUnique | sVDF/api.go:29-38 | two strictly sorted lists with the same elements are equal |
| SteamTypes.ParseAppNum | steamfiles/types.go:34-46 | succeeds exactly when the text is an integer in 1..MaxInt32, with that value. Non-integer text is the "need integer" error. A value above MaxInt32 is the panic and one at most 0 is the "!?" error, each carrying that value |
| SteamTypes.ParseAppNumItoa | steamfiles/types.go:34-46 | every valid app number, written in decimal, parses back to itself |
| VdfParser.LastNewline | sVDF/parser.go:261 | `bytes.LastIndex(buf, "\n")`: -1 or the index of a newline |
| VdfParser.DecodeRune | sVDF/parser.go:263 | `utf8.DecodeRune` consumes 0 bytes on empty input and otherwise 1 to 4 bytes. An ASCII byte is its own rune, and every rune is at most U+10FFFF |
| VdfParser.LineStart | sVDF/parser.go:261 | the start of the current line lies at or before the position |
| VdfParser.ScanString | sVDF/parser.go:52-96 | the string loop ends in one of four ways, each stated. At a closing quote, with at most one decoded byte per input byte. At a backslash that is the last byte. At a byte after a backslash that is not in the escape table. Or at the end of the buffer |
| VdfParser.TabsEnd | sVDF/parser.go:180-186 | the run of tabs ends at the end of the buffer or at a non-tab |
| VdfParser.SpaceEnd | sVDF/parser.go:227-236 | the `skippingExtra` loop stops at the end of the buffer or at a byte that is not space, tab, CR or LF |
| VdfParser.AtLineStart | sVDF/parser.go:203-225 | the indentation check after a newline keeps the brace depth and never moves the cursor back |
| VdfParser.SkipWs | sVDF/parser.go:165-243 | `skipWhitespace` keeps the brace depth and never moves the cursor back |
| VdfParser.AfterTab | sVDF/parser.go:178-190 | likewise for the branch taken at a tab |
| VdfParser.ParseStringF | sVDF/parser.go:46-105 | `parseString` keeps the depth. It fails at an offset within the buffer, and on success it has moved past the opening quote. At the end of the buffer it is an index panic, and a byte other than `"` fails with "expected '"'" at that byte; both leave the state unchanged |
| VdfParser.ScannedF | sVDF/parser.go:52-105 | the same, once the string loop has run |
| VdfParser.ParseValueF | sVDF/parser.go:112-161 | `parseValue` fails at an offset within the buffer. On success it has advanced, and the indentation depth is back to its starting value |
| VdfParser.NodeF | sVDF/parser.go:123-160 | the same for a braced name/value list |
| VdfParser.MembersF | sVDF/parser.go:131-160 | the member loop succeeds only when it starts at a name's quote or at a closing brace. It does not move back, and leaves the depth one less |
| VdfParser.MemberF | sVDF/parser.go:133-144 | the same after one member, name and value |
| VdfParser.ParseDocument | sVDF/parser.go:22-31 | a failed parse reports an offset within the buffer |
| VdfParser.ParseSimpleVdfF | sVDF/parser.go:15-31 | a parsed document starts with a quote; a failed parse is never an unreadable file, a syntax error carries the file's path, an offset within the buffer and a line number of at least 1, and an index panic's offset is within the buffer |
| VdfParser.ErrorAt | sVDF/parser.go:258-278 | the error keeps the path, offset and diagnostic it is given, and its line and rune numbers count from 1 |
| VdfParser.Plural | sVDF/parser.go:293-298 | one thing reads "one <noun>"; any other count starts with a digit or minus sign, and the phrase is at least three bytes longer than the noun |
| VdfParser.Unescape | sVDF/parser.go:62-89 | a known escape letter gives either itself or a control byte below 0x20, and it gives itself exactly for `"`, `\\`, `?` and `'` |
| VdfParser.ToMap | sVDF/parser.go:144 | every name of the list is in the map, and a name given twice keeps its last value |
| VdfParser.Parser.constructor | sVDF/parser.go:22 | a new parser over the buffer starts at offset 0, depth 0, with no warnings |
| VdfParser.Parser.WarnOddWS | sVDF/parser.go:280-292 | `warnOddWS` appends exactly one warning, at the given offset, and changes nothing else |
| VdfParser.Parser.SkipExtraFrom | sVDF/parser.go:226-237 | the cursor ends where `SpaceEnd` says |
| VdfParser.Parser.CheckIndent | sVDF/parser.go:203-225 | leaves the state `AtLineStart` gives |
| VdfParser.Parser.SkipWhitespace | sVDF/parser.go:165-243 | leaves the state `SkipWs` gives: the same cursor and the same warnings |
| VdfParser.Parser.ScanQuoted | sVDF/parser.go:52-92 | its loop computes `ScanString` |
| VdfParser.Parser.ParseString | sVDF/parser.go:46-105 | gives the result and state `ParseStringF` gives |
| VdfParser.Parser.FinishString | sVDF/parser.go:93-105 | gives the result and state `ScannedF` gives |
| VdfParser.Parser.ParseValue | sVDF/parser.go:112-161 | gives the result and state `ParseValueF` gives |
| VdfParser.Parser.ParseNvl | sVDF/parser.go:123-160 | its loop gives the result and state `NodeF` gives |
| VdfParser.Parser.ParseMembers | sVDF/parser.go:131-160 | its loop over the members gives the result and state `MembersF` gives: the map of the members read, or the first error |
| VdfParser.Parser.ParseMember | sVDF/parser.go:133-144 | one member. It advances, and the rest of the list is `MembersF` from the new state with the member appended. Or it fails as `MemberF` says |
| VdfParser.ParseSimpleVdf | sVDF/parser.go:15-31 | gives the result and warnings of `ParseSimpleVdfF` |
| VdfParserFacts.EscapeLetterInverse | sVDF/parser.go:62-89 | every byte that needs escaping has an escape letter that the table maps back to it, and quote and backslash always need one |
| VdfParserFacts.Escape | sVDF/parser.go:62-89 | escaping at most doubles the length |
| VdfParserFacts.ScanEscaped | sVDF/parser.go:52-92 | scanning the escaped form of any bytes, followed by a quote, gives back exactly those bytes and stops at that quote |
| VdfParserFacts.QuotedRoundTrip | sVDF/parser.go:46-105 | `parseString` of the quoted, escaped form of any byte string gives that string, then skips whitespace after the closing quote |
| VdfParserFacts.EscapeStep | sVDF/parser.go:56-89 | a backslash and a letter of the escape table add the byte the table gives and the scan goes on after the letter; any other letter is a bad escape at the letter |
| VdfParserFacts.SelfEscapes | sVDF/parser.go:62-89 | the body `\?\'` of a quoted string reads as `?'` |
| VdfParserFacts.StringSpan | sVDF/parser.go:46-105 | a parsed string lies between two quotes, is no longer than the bytes between them, and parsing continues after the closing one |
| VdfParserFacts.StringBadEscape | sVDF/parser.go:56-88 | a bad escape is reported at the byte after a backslash, a byte not in the table, and the sequence shown is the backslash alone. "\ just before EOF" is reported at the end of the buffer, after a final backslash |
| VdfParserFacts.StringUnterminated | sVDF/parser.go:93-96 | "Unterminated string" is reported at the opening quote, the state is unchanged, and every later quote comes right after a backslash |
| VdfParserFacts.SkipWsFindsNextToken | sVDF/parser.go:165-243 | `skipWhitespace` either leaves the cursor alone or moves it to the first non-space byte after the token. It always does the latter when one exists |
| VdfParserFacts.SkipWsMoves | sVDF/parser.go:165-243 | `skipWhitespace` never moves the cursor backwards and never past the end of the buffer |
| VdfParserFacts.SkipWsAtEnd | sVDF/parser.go:174-176 | at the last byte, it changes nothing |
| VdfParserFacts.IndentChecked | sVDF/parser.go:191-225 | after a newline, it warns exactly once when the number of tabs differs from the depth (one less before `}`), and about a tab at end of file. Otherwise it does not warn |
| VdfParserFacts.PluralInjective | sVDF/parser.go:293-298 | `plural` gives different text for different counts |
| VdfParserFacts.MismatchPhrasesDiffer | sVDF/parser.go:219-224 | every tab-count warning names two different counts |
| VdfParserFacts.RuneCountBounds | sVDF/parser.go:262 | a non-empty byte string holds between 1 rune and one rune per byte |
| VdfParserFacts.LineSteps | sVDF/parser.go:260 | line numbers start at 1 and grow by one after each newline |
| VdfParserFacts.RuneSteps | sVDF/parser.go:261-262 | rune numbers start at 1, restart at 1 after a newline, and grow by one after an ASCII byte |
| VdfParserFacts.ErrorPosition | sVDF/parser.go:258-278 | a `ParseError` carries the offset, one more than the newlines before it as line number, and a rune number between 1 and the bytes since the line start plus one |
| VdfParserFacts.ToMapKeys | sVDF/parser.go:144 | the list's names are exactly the names parsed |
| VdfParserFacts.LastWriteWins | sVDF/parser.go:144 | for a repeated name, the value parsed last is kept |
| VdfParserFacts.NodeErrors | sVDF/parser.go:112-160 | a value starting with neither a quote nor `{` fails with `ExpectedQuoteOrBrace` at its offset, and a value expected at the end of the buffer panics. A list entry that is neither a name nor `}` fails with `ExpectedMemberOrClose` at its offset. The end of the buffer inside a list fails with `UnexpectedEOFInNVL` after the trailing whitespace |
| VdfParserFacts.DocumentBalanced | sVDF/parser.go:15-31 | after a successful parse the indentation depth is back to its starting value, 0, and the cursor lies within the buffer. This counts levels; it does not match each `{` with a `}` (see `FinalBraceClosesAll`) |
| VdfParserFacts.LastBraceStays | sVDF/parser.go:145-175 | a `}` that is the file's last byte ends the member loop one level shallower, with the cursor left on that same `}` |
| VdfParserFacts.FinalBraceClosesAll | sVDF/parser.go:112-175 | as written, a 13-byte file that opens lists at offsets 4 and 10 and closes one, at 12, parses to `"a"` holding `"b"` holding an empty list: the final `}` closes both lists |
| VdfParserFacts.SkipWsLog | sVDF/parser.go:165-243 | every warning offset lies within the buffer |
| VdfParserFacts.StringLog | sVDF/parser.go:46-105 | likewise after `parseString` |
| VdfParserFacts.ValueLog | sVDF/parser.go:112-161 | likewise after `parseValue`, by induction over the nesting |
| VdfParserFacts.DocumentLog | sVDF/parser.go:15-31 | likewise for a whole file |
| VdfParserFacts.WarningLines | sVDF/parser.go:280-291 | each warning line gives the offset and the line number, one more than the newlines before that offset |
| VdfApi.SortStrings | sVDF/api.go:37 | `sort.Strings` gives a strictly sorted permutation of distinct names |
| VdfApi.Names | sVDF/api.go:32-39 | `Names()` lists each name of the list exactly once, strictly sorted |
| VdfApi.NamesUnique | sVDF/api.go:32-39 | so the result of `Names()` does not depend on map order |
| VdfApi.Get | sVDF/api.go:42-45 | `Get` finds a value exactly when the name is present, and it is that name's value |
| VdfApi.WalkTo | sVDF/api.go:119-139 | the descent stops at a string or a missing name, at an index before the end |
| VdfApi.WalkAt | sVDF/api.go:119-139 | the descent reaches a value exactly when the path leads to one. A string stop is a string at that prefix, and a missing-name stop is a list without the next name |
| VdfApi.WalkStops | sVDF/api.go:119-139 | once stopped, a longer path stops at the same place |
| VdfApi.LookupFindsString | sVDF/api.go:117-148 | `Lookup` succeeds exactly when the path leads to a string, and returns it |
| VdfApi.LookupNvlFindsList | sVDF/api.go:188-219 | `LookupNVL` succeeds exactly when the path leads to a list, and returns it |
| VdfApi.LookupErrors | sVDF/api.go:122-146 | `IsStringError` names a proper prefix ending at a string. `UnknownNameError` names a proper prefix ending at a list without the next name. `NotStringError` names the whole path. The same holds for `LookupNVL` |
| VdfApi.LookupOf | sVDF/api.go:117-148 | an error's name path is a prefix of the names asked for; a `NotStringError` names the whole path, any other error a shorter one |
| VdfApi.LookupNvlOf | sVDF/api.go:188-219 | an error is never a `NotStringError`; its name path is a prefix of the names asked for, and shorter than them for an unknown name |
| VdfApi.Lookup | sVDF/api.go:117-148 | its loop gives `LookupOf` |
| VdfApi.HaveString | sVDF/api.go:152-178 | true exactly when `Lookup` would succeed |
| VdfApi.LookupNvl | sVDF/api.go:188-219 | its loop gives `LookupNvlOf` |
| VdfApi.HaveNvl | sVDF/api.go:223-249 | true exactly when `LookupNVL` would succeed |
| VdfApi.NamesPathOf | sVDF/api.go:303-308 | `namesPath` quotes the names and joins them by arrows, starting with the first name. It panics exactly on an empty list |
| VdfApi.UnknownReported | sVDF/api.go:297-308 | `UnknownNameError.Error()` succeeds exactly on a path of two or more names, and names the last element at the `namesPath` text of the rest |
| VdfApi.UnknownNameMisreported | sVDF/api.go:128-131 | as written, `Error()` panics, or it names the last name that was found rather than the missing one |
| VdfApi.UnknownNamePanics | sVDF/api.go:297-308 | for `a→b` with `a` an empty list, the path is `[a]` and `Error()` panics |
| VdfApi.NamesPathFixed | sVDF/api.go:303-308 | corrected: `namesPath` gives the empty text exactly for an empty list, and otherwise what `namesPath` gives |
| VdfApi.UnknownReportedFixed | sVDF/api.go:297-301 | corrected: `Error()` names the last element, at an empty place exactly for a one-name path, and agrees with `Error()` as written wherever that does not panic |
| VdfApi.MissingNameReported | sVDF/api.go:128-131 | corrected: the reported name is the missing one, at the text of a path to a list that lacks it. The place is empty exactly for a missing top-level name |
| VdfApi.LookupFixedAgrees | sVDF/api.go:117-148 | the correction changes nothing but the path in `UnknownNameError` |
| VdfApi.Quoted | sVDF/api.go:96-98 | `%q` of a name puts it between double quotes |
| VdfApi.ExpectedText | sVDF/api.go:96-99 | the expected names, quoted and joined by " or " |
| VdfApi.ExpectedTextLength | sVDF/api.go:96-99 | its length: the quoted names plus four per separator |
| VdfApi.FromParsed | sVDF/api.go:69-107 | `FromFile` succeeds exactly when the file was opened, examined, read and parsed and the top name is expected or none is, with the path, time, size, top name and value. A file that cannot be opened, examined or read gives a `CannotError` naming the step and the path. A parse failure is passed on. A wrong top name gives `WrongTopNameError` with the expected text |
| VdfApi.FromFile | sVDF/api.go:69-107 | a parsed file records its path and its size in bytes |
| Backups.IgnoreOlderDupe | steamfiles/backups.go:64-66 | with no handler, the new backup always replaces the old one |
| Backups.SkuLocation | steamfiles/backups.go:88-102 | `sku.sis` is taken from the backup folder, else from `Disk_1`. Neither existing means the folder is skipped, and a failed probe is the "find sku.sis file for" error |
| Backups.AppListKey | steamfiles/backups.go:114-121 | the list is under `apps` when `apps/0` is a string, else under `Apps`, else the scan fails |
| Backups.IndexText | steamfiles/backups.go:122-130 | there is a text exactly when the list named `key` holds a string under the decimal index, and the text is that string |
| Backups.IndexTextLookup | steamfiles/backups.go:122-130 | `HaveString(key, i)` followed by `Lookup` finds exactly the string at `key/i` |
| Backups.AppNumbersFrom | steamfiles/backups.go:122-136 | every number read is a valid app number |
| Backups.AppNumbersStop | steamfiles/backups.go:124-126 | the loop stops at the first index with no string |
| Backups.AppNumbersInOrder | steamfiles/backups.go:122-136 | the i-th number is the parsed text at index i |
| Backups.AppNumbersError | steamfiles/backups.go:131-134 | an error is the `parseAppNum` error of some index's text |
| Backups.ReadBackupOf | steamfiles/backups.go:80-155 | a backup read from an entry is a folder with a `sku.sis`, at `dir/name`, with the time of its `sku.sis` and at least one valid app number. Its name is the sku's `name` string, and its app numbers are those read from index 0 of the list `AppListKey` chooses. An entry that cannot be examined is an error, and a non-folder or a folder without `sku.sis` is skipped. A failed probe gives `SkuNotFound`, a bad file or top name `BadSku`, a missing name `NoBackupName`, no list `NoAppList`, and a bad number `BadAppNum` |
| Backups.NoAppNumbersUnreachable | steamfiles/backups.go:137-139 | "get any app numbers" never happens, because `apps/0` or `Apps/0` was found first |
| Backups.RecordFrame | steamfiles/backups.go:148-155 | recording a backup touches only its app numbers, each holding either the new backup or the old value |
| Backups.RecordOf | steamfiles/backups.go:148-155 | recording never drops an app, and every app then maps to the new backup or to what it had before |
| Backups.RecordCallsMeaning | steamfiles/backups.go:148-155 | every handler call is about the new backup and one of its apps; an app listed once is asked about exactly when it already had a backup, and then with that backup |
| Backups.RecordDecides | steamfiles/backups.go:148-155 | for each app number the handler decides: the old value stays exactly when the handler says no |
| Backups.RecordWithoutHandler | steamfiles/backups.go:64-66 | with no handler, every app number gets the new backup |
| Backups.RecordLast | steamfiles/backups.go:148-155 | a handler that always says yes lets the new backup win |
| Backups.ScanOutcome | steamfiles/backups.go:78-163 | the scan stops at the first entry it cannot read and returns that entry's error. It fails with "find any Steam backups" when no backup was found. It only ever adds apps |
| Backups.ScanFrom | steamfiles/backups.go:78-163 | the loop never drops an app; it ends without error only when every entry read; entries that hold no backup leave the map as it was, with `NoBackupsFound` when nothing was found before |
| Backups.ScanBackupsDirOf | steamfiles/backups.go:59-163 | the scan never drops an app; a directory that cannot be opened or read gives an error and leaves the map alone; an empty directory gives `NoBackupsFound` |
| Backups.ScanCallsMeaning | steamfiles/backups.go:148-161 | every handler call is about a backup read from an entry before the first unreadable one, and one of that backup's apps |
| Backups.ScanStopsAt | steamfiles/backups.go:79-107 | when every entry before the i-th reads and the i-th does not, the scan returns exactly the i-th entry's error |
| Backups.UnreadableSkuStops | steamfiles/backups.go:104-107 | a `sku.sis` that cannot be opened, examined or read stops `ScanBackupsDir` with the `CannotError` of that step and path, when the entries before it read |
| Backups.ScanRecordsBackups | steamfiles/backups.go:148-155 | every app in the map was there before, or holds a backup read from some entry that lists it |
| Backups.ScanBackupsDirFillsMap | steamfiles/backups.go:59-163 | a successful scan into an empty map gives a non-empty map of valid app numbers. Each entry holds a backup that lists it and lies in the directory |
| Backups.ScanNonEmpty | steamfiles/backups.go:148-161 | a backup found means a non-empty map |
| Backups.ReadAppNumbers | steamfiles/backups.go:122-136 | its loop gives `AppNumbersFrom` |
| Backups.ReadBackup | steamfiles/backups.go:80-146 | gives `ReadBackupOf` |
| Backups.BackupsByApp.constructor | steamfiles/backups.go:59-63 | an empty map |
| Backups.BackupsByApp.Record | steamfiles/backups.go:148-155 | the map becomes `RecordOf` the old one, and the handler calls made are appended in order (`RecordCalls`) |
| Backups.BackupsByApp.ScanBackupsDir | steamfiles/backups.go:59-163 | the error and the new map are `ScanBackupsDirOf` the old map, and the handler calls made are appended in order |
| Backups.BackupsByApp.ScanEntries | steamfiles/backups.go:79-161 | the loop over the entries gives `ScanFrom`'s error and map, and appends `ScanCalls`' handler calls |
| Backups.BackupsByApp.ScanEntry | steamfiles/backups.go:80-155 | one turn of the loop reads an entry and records its backup: the rest of the scan, and of its handler calls, goes on from the next entry unless this one stops it |
| AppManifests.ManifestDigits | steamfiles/appmanifests.go:133 | the regular expression matches exactly `appmanifest_<digits>.acf` and yields the digits |
| AppManifests.ManifestDigitsOfName | steamfiles/appmanifests.go:133 | every such name matches |
| AppManifests.ParseManifestOf | steamfiles/appmanifests.go:138-170 | `parseManifest` succeeds exactly when the file parses with top name `AppState` and `appid`, `name` and `installdir` are strings with a valid app number. It returns those values and the file's time, with no library folders |
| AppManifests.ReadManifestOf | steamfiles/appmanifests.go:81-92 | a name that does not match is skipped. A manifest read has a valid number whose decimal text is the file name's. A `wrong appid` error means the two differ |
| AppManifests.MergeKeepsNewest | steamfiles/appmanifests.go:94-113 | on a duplicate, the newer manifest is kept, or the one read later on a tie. Its folder list gains the new folder, at the front when the new one is used. The callback gets the old value and the new one with just this folder |
| AppManifests.StoreOf | steamfiles/appmanifests.go:94-117 | storing adds the app's number and leaves every other app alone; a first sighting makes no handler call and lists only this folder; a duplicate makes one call about the stored entry and the current manifest with only this folder, and adds one folder |
| AppManifests.ReadAll | steamfiles/appmanifests.go:80-81 | one outcome per directory entry |
| AppManifests.ScanKeepsWellFormed | steamfiles/appmanifests.go:80-118 | every app in the map has a valid number, its own key and at least one folder. The map only grows, and the callback calls are appended |
| AppManifests.ScanOutcome | steamfiles/appmanifests.go:80-126 | the scan stops at the first unreadable manifest with its error. It fails with "see any appmanifest_<N>.acf files" when none was found, and otherwise succeeds |
| AppManifests.ScanFrom | steamfiles/appmanifests.go:80-126 | the loop ends without error only when every name read; names that are not manifests change nothing, with `NoManifests` when none was found before |
| AppManifests.ScanSteamLibDirOf | steamfiles/appmanifests.go:63-127 | a folder that cannot be opened or read gives an error and changes nothing; an empty folder gives `NoManifests` |
| AppManifests.ScanStopsAt | steamfiles/appmanifests.go:80-88 | when every name before the i-th reads and the i-th does not, the scan returns exactly the i-th name's error |
| AppManifests.UnreadableManifestStops | steamfiles/appmanifests.go:139-142 | a manifest that cannot be opened, examined or read stops `ScanSteamLibDir` with `BadManifest` holding the `CannotError` of that step and path, when the names before it read |
| AppManifests.ScanKeepsNewest | steamfiles/appmanifests.go:94-116 | after the scan, every app's manifest is at least as new as every one read for it and as the one it had |
| AppManifests.ScanLeavesOthers | steamfiles/appmanifests.go:94-116 | apps with no manifest in the folder are untouched |
| AppManifests.ReadAllNamed | steamfiles/appmanifests.go:81-92 | every manifest read names its own file |
| AppManifests.ScanSteamLibDirFillsMap | steamfiles/appmanifests.go:63-127 | scanning a folder into an empty map gives a well-formed map and well-formed callback calls. Success means at least one app, and each app has a manifest file named after it |
| AppManifests.ScanSteamLibDirKeepsWellFormed | steamfiles/appmanifests.go:63-127 | scanning another folder keeps the map well formed, only adds apps, and appends callback calls about this folder |
| AppManifests.ParseManifest | steamfiles/appmanifests.go:138-170 | gives `ParseManifestOf` |
| AppManifests.ReadManifest | steamfiles/appmanifests.go:81-92 | gives `ReadManifestOf` |
| AppManifests.InstalledApps.constructor | steamfiles/appmanifests.go:36 | an empty map and no callback calls |
| AppManifests.InstalledApps.Store | steamfiles/appmanifests.go:94-117 | the map and the callback log become `StoreOf` the old ones |
| AppManifests.InstalledApps.ScanSteamLibDir | steamfiles/appmanifests.go:63-127 | the error, map and callback log are `ScanSteamLibDirOf` the old ones |
| AppManifests.InstalledApps.ScanNames | steamfiles/appmanifests.go:80-126 | its loop over the names gives the fold `ScanFrom` |
| Problems.ExpectedProblemsRules | check-backups/check-backups.go:185-210 | a problem is recorded exactly when one of three rules holds. An installed app has no backup. Its manifest is newer than its backup and `AppNewerThan` says its files are too. Or, with `-r`, a backup's app is not installed |
| Problems.ManifestProblem | check-backups/check-backups.go:185-201 | an installed app gets a problem under its own name, never `NotInstalled`; `NoBackup` exactly when it has no backup; `OldBackup` only when both its manifest and its files are newer than the backup; no problem only when a backup exists and one of these is not newer |
| Problems.BackupProblem | check-backups/check-backups.go:204-210 | a backup gets a problem exactly when its app is not installed, and then a `NotInstalled` problem under the backup's name and number |
| Problems.ExpectedProblems | check-backups/check-backups.go:185-210 | a `NotInstalled` problem appears only with `-r`, for a backup of an app that is not installed; an `OldBackup` problem is about an app that is both installed and backed up |
| Problems.ExpectedProblemsByKey | check-backups/check-backups.go:185-210 | the same, read as one loop over the installed apps and one over the backups |
| Problems.RecordedAreExpected | check-backups/check-backups.go:185-210 | what the two loops append is exactly the expected problems |
| Problems.InsertByName | check-backups/check-backups.go:345-348 | inserting a problem keeps the list sorted by name and adds just that problem |
| Problems.SortByName | check-backups/check-backups.go:345-348 | the list sorted by app name is a permutation of the problems recorded |
| Problems.CollectMeaning | check-backups/check-backups.go:185-201 | a loop over a map records the problem of each key once, whatever the order |
| Problems.CollectCount | check-backups/check-backups.go:185-201 | it records as many problems as there are keys with one |
| Problems.NextKey | check-backups/check-backups.go:185 | the next key of a map iteration is one not yet visited |
| Problems.ProblemLog.constructor | check-backups/check-backups.go:325 | no problems |
| Problems.ProblemLog.RecordProblem | check-backups/check-backups.go:327-333 | appends exactly one problem |
| Problems.ProblemLog.RecordManifestProblems | check-backups/check-backups.go:185-201 | appends exactly the manifest problems, one per installed app that has one |
| Problems.ProblemLog.RecordBackupProblems | check-backups/check-backups.go:204-210 | appends exactly the not-installed problems, one per such backup |
| Problems.ProblemLog.RecordEach | check-backups/check-backups.go:185-210 | its loop visits every key of the map once, in some order |
| Problems.ProblemLog.ReportProblems | check-backups/check-backups.go:334-355 | no problems: "No problems found" only with `-v`. Otherwise the count and the list, sorted by app name |
| Problems.RecordAndReport | check-backups/check-backups.go:185-212 | the problems recorded are exactly the expected ones, as many as the keys with a problem, reported sorted by name |
| CheckBackups.ReportCountDistinct | check-backups/check-backups.go:358-369 | `reportCount` lines for different counts differ |
| CheckBackups.ReportCount | check-backups/check-backups.go:358-369 | the line starts " Found ", ends with a newline, and says "one" for a count of one |
| CheckBackups.WherePart | check-backups/check-backups.go:359-363 | no place gives nothing; a place starting "in " is put after a space as it is; any other place is quoted after " in " |
| CheckBackups.PluralLine | check-backups/check-backups.go:366-368 | for counts other than one, the line is " Found N nouns" and the place |
| CheckBackups.LibDirsToScan | check-backups/check-backups.go:154-156 | with `-s`, the first folder is skipped. An empty list then panics |
| CheckBackups.ScanLibDirsOf | check-backups/check-backups.go:151-172 | without an error every folder was scanned; an error stops the loop before the last folder's count |
| CheckBackups.ScanLibDirsKeepsWellFormed | check-backups/check-backups.go:157-167 | scanning the folders in turn keeps the map well formed. Each folder scanned without error has its count, and the scan stops at the first error |
| CheckBackups.ScanLibDirsCalls | check-backups/check-backups.go:157-167 | every `reportOldManifest` call is about one of the folders |
| CheckBackups.ScanLibDirsCounts | check-backups/check-backups.go:159-166 | the per-folder counts are never negative and add up to the apps found |
| CheckBackups.CountReports | check-backups/check-backups.go:161-164 | one count line per folder scanned, naming it |
| CheckBackups.ScanSteamLibraryDirs | check-backups/check-backups.go:151-172 | a fresh map filled from the folders, stopping at the first failure. The `-v` lines give each folder's count and, for more than one folder, the total |
| CheckBackups.ScanDirs | check-backups/check-backups.go:157-171 | its loop gives `ScanLibDirsOf` and the `-v` lines |
| CheckBackups.ScanEach | check-backups/check-backups.go:157-167 | the loop over the folders gives `ScanLibDirsOf` and, with `-v`, one count line per folder scanned |
| CheckBackups.VerbReads | check-backups/check-backups.go:251-258 | corrected verb: it starts with the word "Found", says "using" exactly when the details differ and the new manifest is used, and is just "Found" when they do not differ |
| CheckBackups.VerbAsWritten | check-backups/check-backups.go:251-258 | the verb starts "Found", is just "Found" exactly when the details agree, and otherwise runs straight on with "and ..." |
| CheckBackups.Heading | check-backups/check-backups.go:222-227 | the heading is "a second manifest" exactly for the second, and otherwise "manifest #" and a number |
| CheckBackups.DetailOf | check-backups/check-backups.go:228-246 | the details are the same exactly when name and install directory agree. A changed install directory alone is given with its new and old values. A changed name is given with the earlier name, marked when the install directory changed too |
| CheckBackups.VerbAsWrittenRunsOn | check-backups/check-backups.go:251-258 | as written, a changed manifest is announced with the run-on word "Foundand" |
| CheckBackups.OldManifestNoteFacts | check-backups/check-backups.go:220-256 | `reportOldManifest` names the folder just scanned and lists the earlier ones. It says "the same details" exactly when name and install directory agree, and otherwise it gives the old values. It says "using" exactly when the details differ and the new manifest is not older |
| CheckBackups.HeadingCounts | check-backups/check-backups.go:222-227 | "a second manifest" after one folder, else "manifest #n" with the count |
| CheckBackups.KeptPrefersSingleThenNewest | check-backups/check-backups.go:264-286 | `handleDupeBackup` keeps one of the two. A single-app backup beats a multi-app one. Otherwise the newer is kept, and on a tie the one read later |
| CheckBackups.HandleDupeBackup | check-backups/check-backups.go:264-286 | a single-app backup beats a multi-app one whichever came first; otherwise the current backup is used unless the earlier one is newer |
| CheckBackups.KeptSymmetric | check-backups/check-backups.go:264-286 | the choice does not depend on which backup came first, except on a tie |
| CheckBackups.RecordKeepsPreferred | check-backups/check-backups.go:178-179 | after recording a backup, each of its apps holds the preferred of the old and new backups |
| CheckBackups.BackupChoiceNamesKept | check-backups/check-backups.go:264-304 | corrected report: "Using" names the backup kept and "Ignoring" the other. A single-app backup is used over a multi-app one, otherwise the used one is labelled newer with a time no earlier. The name is a guess exactly when the app is not installed |
| CheckBackups.BackupChoiceAsWrittenMisleads | check-backups/check-backups.go:279-284 | as written, when the backup read earlier is newer, the newer, earlier-read one is kept, yet "Using" shows the older one, which is dropped. When the backup just read is newer and kept, it is called the older backup, with the other's time |
| CheckBackups.ChoicesAsWritten | check-backups/check-backups.go:264-304 | one report per handler call, each about that call's app and naming the two backups of the call |
| CheckBackups.InstalledView | check-backups/check-backups.go:185-195 | the checker reads each manifest's app, name, time, first library folder and install directory |
| CheckBackups.SavedView | check-backups/check-backups.go:186-192 | and each backup's name and time |
| CheckBackups.Check | check-backups/check-backups.go:176-213 | a failed backup scan records nothing. Otherwise the backups are the scan's, the count line appears only with `-v`, the problems are exactly the expected ones, sorted by name, as many as the keys with a problem, and the report follows `reportProblems`. The backup choices are those `reportBackupChoice` prints, as written, for the handler calls of the scan |
| SteamBackupsTool.ParseAppId | steam-backups-tool/steam-backups-tool.go:379-390 | succeeds only with a valid app number that is the text's value. Otherwise it is a bad-file error or the too-big exit |
| SteamBackupsTool.ParseAppIdItoa | steam-backups-tool/steam-backups-tool.go:379-390 | a valid app number in decimal parses back to itself |
| SteamBackupsTool.ParseAppIdAgrees | steam-backups-tool/steam-backups-tool.go:379-390 | `parseAppId` accepts and rejects exactly what `parseAppNum` does, with the same value and corresponding errors |
| SteamBackupsTool.ParseManifest | steam-backups-tool/steam-backups-tool.go:258-293 | success means top name `AppState`, a valid app number, and the file's name, install directory and time. Another top name is the "not AppState" error |
| SteamBackupsTool.ParseManifestAgrees | steam-backups-tool/steam-backups-tool.go:258-293 | this tool's `parseManifest` succeeds exactly when the library's does, with the same fields |
| SteamBackupsTool.Fill | steam-backups-tool/steam-backups-tool.go:242-253 | the map loop stops at its first error and otherwise reads every entry |
| SteamBackupsTool.FillStopped | steam-backups-tool/steam-backups-tool.go:242-253 | after an error nothing more is read |
| SteamBackupsTool.FillStopsAtFirstError | steam-backups-tool/steam-backups-tool.go:242-253 | the error returned is that of the first entry that fails |
| SteamBackupsTool.FillStopsAt | steam-backups-tool/steam-backups-tool.go:242-253 | the first entry that fails is the one whose error the loop returns |
| SteamBackupsTool.UnreadableManifestStops | steam-backups-tool/steam-backups-tool.go:259-262 | a manifest that cannot be opened, examined or read stops `scanAppsLibDir` with the `CannotError` of that step and path, when the names before it read |
| SteamBackupsTool.FillLastWins | steam-backups-tool/steam-backups-tool.go:247 | an app is in the map exactly when some entry gives it. Its value, keyed by its own number, comes from the last such entry |
| SteamBackupsTool.ReadManifestEntry | steam-backups-tool/steam-backups-tool.go:242-246 | names that do not match are skipped, and a manifest read carries its file's time |
| SteamBackupsTool.ReadAllManifests | steam-backups-tool/steam-backups-tool.go:242-246 | one outcome per entry |
| SteamBackupsTool.WarningOf | steam-backups-tool/steam-backups-tool.go:249-251 | at most one warning per manifest |
| SteamBackupsTool.ScanAppsLibDir | steam-backups-tool/steam-backups-tool.go:226-256 | its loop gives `ScanAppsLibDirOf` |
| SteamBackupsTool.ScanAppsLibDirOf | steam-backups-tool/steam-backups-tool.go:226-256 | a folder that cannot be opened or read gives an error and no warning; an empty folder gives an empty map and no warning |
| SteamBackupsTool.MismatchOnlyWarns | steam-backups-tool/steam-backups-tool.go:247-251 | a manifest whose appid differs from its file name is still stored and only warned about, where the library's scan fails |
| SteamBackupsTool.WarningsMeaning | steam-backups-tool/steam-backups-tool.go:249-251 | the warnings are exactly those of the entries read |
| SteamBackupsTool.NoManifestsIsFine | steam-backups-tool/steam-backups-tool.go:254 | a folder with no manifests gives an empty map and no warning, where the library's scan fails |
| SteamBackupsTool.AppNumText | steam-backups-tool/steam-backups-tool.go:354-358 | `apps/0`, retried as `Apps/0` only when the first lookup failed for an unknown name |
| SteamBackupsTool.AppNumTextFinds | steam-backups-tool/steam-backups-tool.go:354-358 | what it finds is the string at `apps/0` or, when `apps/0` does not exist, at `Apps/0`. It agrees with the library's choice of list |
| SteamBackupsTool.AppsOtherThanListBlocksRetry | steam-backups-tool/steam-backups-tool.go:355-358 | when `apps/0` fails for a reason other than an unknown name (`apps` or `apps/0` is a string where a list is needed, or `apps/0` is a list), `Apps` is not tried, although steamfiles' `ScanBackupsDir` finds no string at `apps/0` and would go on to `Apps` |
| SteamBackupsTool.ReadSku | steam-backups-tool/steam-backups-tool.go:338-372 | success means top name `sku` or `SKU`, the name, the first app number and the time. Another top name is the "not sku" error |
| SteamBackupsTool.ReadBackupEntry | steam-backups-tool/steam-backups-tool.go:314-337 | an entry that cannot be examined is an error, and a non-folder or a folder without `sku.sis` is skipped. A backup read carries the folder's name |
| SteamBackupsTool.ReadSkuOutcome | steam-backups-tool/steam-backups-tool.go:338-372 | a backup read carries the folder's name |
| SteamBackupsTool.ReadAllBackups | steam-backups-tool/steam-backups-tool.go:313-372 | one outcome per entry |
| SteamBackupsTool.ScanBackupsDir | steam-backups-tool/steam-backups-tool.go:299-375 | its loop gives `ScanBackupsDirOf` |
| SteamBackupsTool.ScanBackupsDirOf | steam-backups-tool/steam-backups-tool.go:299-375 | a directory that cannot be opened or read gives an error; an empty directory gives an empty map |
| SteamBackupsTool.ScanBackupsDirLastWins | steam-backups-tool/steam-backups-tool.go:367-371 | an app is in the map exactly when some backup gives it, as its first app number. Its value is from the last such backup and names one of the folders |
| SteamBackupsTool.UnreadableSkuStops | steam-backups-tool/steam-backups-tool.go:338-341 | a `sku.sis` that cannot be opened, examined or read stops `scanBackupsDir` with the `CannotError` of that step and path, when the entries before it read |
| SteamBackupsTool.ScanAppsLibDirLastWins | steam-backups-tool/steam-backups-tool.go:247 | an app is in the map exactly when some manifest gives it, and its value is from the last one |
| SteamBackupsTool.ReportCountAsNewer | steam-backups-tool/steam-backups-tool.go:392-398 | this `reportCount` prints what check-backups' prints with no place, and different counts give different lines |
| SteamBackupsTool.ReportCount | steam-backups-tool/steam-backups-tool.go:392-398 | the line starts " Found ", ends with a newline, and says "one" exactly for a count of one |
| SteamBackupsTool.InstalledView | steam-backups-tool/steam-backups-tool.go:142-157 | the classification reads each app's name, number, time, the library folder and its install directory |
| SteamBackupsTool.SavedView | steam-backups-tool/steam-backups-tool.go:142-166 | and each backup's name and time |
| SteamBackupsTool.Check | steam-backups-tool/steam-backups-tool.go:121-169 | the warnings are the manifest scan's. A failed scan ends the run with its error. Otherwise the problems are exactly the expected ones, sorted by name and counted as in check-backups, with the `-v` count lines |

## Left out

- File system and I/O. Directory listings, `Lstat` probes, file times and sizes, and file contents are inputs. A directory's `os.Open` or `Readdirnames` failure and a single file's `os.Open`, `Stat` or `ReadAll` failure (`VdfParser.FileStep`) are input outcomes. The OS error inside a `CannotError` is not modelled.
- Message text. `Error()` strings, `%q` quoting, `%#v` runes and time formatting are not modelled. Warnings and reports are values holding the facts they print: offsets, line numbers, counts, names and paths.
- `AppNewerThan` and `appNewerThan` walk an app's files. They are a total function parameter, and their errors, which `WarnIf` only prints, are not modelled.
- Go map iteration order is unspecified. The loops over the maps take keys in any order, and their contracts hold for every order.
- Problems.SortByName: `sort.Slice` is not stable. The model sorts stably, which is one order `sort.Slice` may give. The contracts state only sortedness and permutation.
- Pointer aliasing. A backup listing several apps is one `*AppBackup` shared by their map entries, and when an older manifest is kept `ScanSteamLibDir` updates the earlier `*InstalledApp` in place. The model stores equal values, so later writes through one pointer are not visible through the others (the code makes none).
- `steamfiles/libraryfolders.go`, `getSteamLibDirs`, `warnBadSLF`, `main` and the docopt command lines are not part of this model. The list of library folders is an input.
- `DieIf`, `Die2` and process exit are the failure outcomes of the methods. The exit status is not modelled.
- `dumpMap` and the `debugging` output of steam-backups-tool are not modelled.
- `NotStringError.Error()` and `IsStringError.Error()` are not modelled. They only format text.
- The default branch of `Lookup`, which panics on a value neither string nor list, cannot happen in the model's value type.
- VdfApi.FromFile: it is stated only to record the path and size. Its full meaning is stated on `FromParsed`, which takes the parse result. The file-reading members take files already parsed, so that the parser does not enter their proofs.
- UTF-8 is modelled only as far as `utf8.DecodeRune` and `utf8.RuneCount` decide rune lengths. Strings hold one character per byte, with one exception: the arrow `→` that `namesPath` joins names with is one character, not its three UTF-8 bytes. `VdfApi.NamesPathOf` drops that one character where Go's `text[len("→"):]` drops three bytes, so both drop exactly the leading arrow.
- Times are integers. Go's `time.Time` comparisons `After` and `Before` become `>` and `<`.

## Findings

| source | as written | input that shows it | evidently intended | confidence | as-written member | corrected member |
|---|---|---|---|---|---|---|
| sVDF/api.go:128-131, 297-308 | `UnknownNameError.NamePath` is `names[:i]`, without the missing name, yet `Error()` takes the last element as the unknown name and the rest as its place | `Lookup("a", "b")` where `a` is an empty list: `NamePath` is `["a"]`, and `namesPath` of the empty place slices past the end of `""` and panics. A missing top-level name gives an empty path and `Error()` indexes `-1` | `NamePath` is `names[:i+1]`, and `namesPath` gives the empty text for an empty list (the top level), so `Error()` names the missing key and its parent without a panic | high (not executed) | VdfApi.UnknownNamePanics | VdfApi.MissingNameReported |
| check-backups/check-backups.go:279-284 | when the times decide, `handleDupeBackup` always passes `curr` with the "older" label as the "Using" backup and `prev` with the "newer" label as the "Ignoring" one | two single-app backups of app 440, the earlier-read one at time 20 and the later one at time 10: the newer, earlier-read one is kept, yet "Using" shows the older one, which is dropped. With the times swapped, the kept backup is labelled "older backup" with the other's time | "Using" shows the kept backup with its own time, "Ignoring" the other | high (not executed) | CheckBackups.BackupChoiceAsWrittenMisleads | CheckBackups.BackupChoiceNamesKept |
| check-backups/check-backups.go:251-258 | `verb += "and using"` with no leading space | any duplicate manifest whose name or install directory changed prints "Foundand using" or "Foundand ignoring" | "Found and using" and "Found and ignoring" | high (not executed) | CheckBackups.VerbAsWrittenRunsOn | CheckBackups.VerbReads |

The rest of the model only asks whether a lookup failed, and whether it failed on an unknown name. `VdfApi.LookupFixedAgrees` proves that those answers are the same with and without the first correction.

Where the code and its documentation differ, the model follows the code:

- A bad escape reports the sequence as the backslash alone (`p.buf[pos-1:pos]`), not the two bytes.
- Out-of-range indexing in `parseString` and `parseValue` at end of file, and an app number above `MaxInt32`, are panics, not error values.
- A `}` that is the last byte of a file closes every list still open. `skipWhitespace` does not move the cursor at the end of the buffer, so each enclosing member loop reads the same `}` again and lowers the depth once more. A file cut off right after an inner `}` is accepted (`VdfParserFacts.FinalBraceClosesAll`).
- steam-backups-tool accepts a library folder with no manifests and a manifest whose appid differs from its name. The library's scan rejects both.
