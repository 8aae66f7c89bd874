# Bruker ParaVision acquisition parameters, modelled in Dafny

py_Bruker_acqp reads the text parameter files that a Bruker ParaVision MRI
scanner writes for each scan: `acqp` and `method`, whose records look like
`##$Name=value`. It turns them into one record per scan and writes a CSV
table for the whole study. After the scan rows it writes the earliest and
latest save time, and a block of study information taken from the study's
`subject` file.

This project models that core and proves properties of the model.

- **The pattern library** (`paramRE.py`). It has nine template builders.
  Each one is the escaped parameter name, `=`, and one value shape built
  from fixed fragments: a count prefix `( n )`, a word run, an `<…>` label,
  a list of floats, a text run, or an `<…>` comment. `ParamPatterns`
  models each shape as its own scanner, `MatchAt`. `Search` returns the
  leftmost match, as `re.search` does. The scanners follow Python's
  backtracking: a repetition with nothing after it takes items greedily.
  `ParamPatterns` also holds the two patterns that `py_acqp.py` writes out
  itself: the save-time pattern and the software-version pattern.
  `PatternSpecs` describes what each shape matches without using the
  scanners: a finite automaton for numbers, predicates on positions for
  the other fragments, and chains of items for the two repetitions.
  `PatternProperties` proves, shape by shape, that every match a scanner
  returns fits its description. For each fragment it also proves the
  converse, that the description fixes the scanner's result (the number,
  the count prefix, the labels and tokens, the float list, the token run,
  the save time, the version label). For the array templates and the
  comment the converse lemma proves only that a match exists. The
  capture lemma then fixes what that match is.
- **The scan record** (`Acqp` in `py_acqp.py`). `ScanRecord.Acqp` is a
  class with three fields:
  - `parameters` and `csvParameters`, each a `map<string, Value>`;
  - `notices`, the lines the program prints.

  `readParameters` is written as two tables of field reads, kept in
  source order. The specification function `Extract` folds over them, and
  the methods `ReadField` and `ReadFields` carry out the same reads on
  the object. For each field:
  - an unguarded read (`.search(...).group(1)` with no check) is fatal
    when the pattern is absent;
  - a guarded read stores `''` and prints a notice instead;
  - `ExcitationPulse` prints nothing;
  - `RareFactor`'s notice names `nEvolutionCycles`, as the source does.

  A singlepulse pulse program returns early. Otherwise the PV version is
  read and the reportable fields are copied into `csvParameters`.
  `ScanRecordProperties` proves what a whole pass leaves in the two
  dictionaries.
- **The study summary.** `Study.SaveTimeRange` is the min/max loop over
  the scans' save times, with its `elif`. `Study.ReadStudyInfo` gives the
  study-information rows and the notices for the fields that are missing.

The specification functions of `ScanRecord` and `Study` take the search as
a parameter `find`, so what is proved about them holds for any search.
`Acqp.ReadParameters` passes `Search`. So do the lemmas that depend on
what the patterns match (`VersionFields`, `CommentMatchText`).

## Model

| member | source | states |
|---|---|---|
| `Text.Span` | paramRE.py:18 | The end of the longest run of a character class from k: every character before it is in the class, and the character at it is not. |
| `Text.SpanUnique` | paramRE.py:18 | Any end with that property is the end `Span` finds, so greedy and maximal agree. |
| `Text.SpanCovers` | paramRE.py:23 | A run made wholly of class characters ends no later than `Span`. |
| `Text.StripNewlines` | py_acqp.py:160 | `.replace('\n','')` leaves no line break, never lengthens, and leaves a text with no line break unchanged. |
| `Text.StripNewlinesAppend` | py_acqp.py:160 | Removing line breaks distributes over concatenation. |
| `Text.StripNewlinesIdempotent` | py_acqp.py:160 | Removing line breaks twice is the same as once. |
| `Text.StripNewlinesKeepsOthers` | py_acqp.py:160 | The result has exactly the characters of the input, line breaks excepted, each as often (a multiset equality). |
| `Text.Lower` | py_acqp.py:188 | `.lower()` keeps the length of the text. |
| `Text.LowerKeepsContains` | py_acqp.py:188 | A text that contains a word still contains it once both are lowered. |
| `ParamPatterns.AngleLabelEnd` | paramRE.py:19 | When `<([\w\.\+\-]+)>` matches at j, it ends at least three characters later, within the text. `AngleLabelExact` gives the exact shape. |
| `ParamPatterns.CountPrefixEnd` | paramRE.py:17 | When the count prefix matches at j, it ends at least five characters later, within the text. `CountPrefixExact` gives the exact shape. |
| `ParamPatterns.FloatEnd` | paramRE.py:25 | When `-*\d+\.*\d*` matches at q, it takes at least one character, within the text. `FloatEndLongest` gives the exact match. |
| `ParamPatterns.AngleTokenEnd` | paramRE.py:22 | When `<(?:\w*\s)+\w*>` matches at q, it takes at least two characters, within the text. `AngleTokenExact` gives the exact shape. |
| `ParamPatterns.ItemEnd` | paramRE.py:22-24 | One item of a repetition takes at least one character, within the text. |
| `ParamPatterns.Repeat` | paramRE.py:22-24 | A repetition's last item starts no earlier than the repetition and ends with it. An empty repetition has no item. `FloatItemsExact` and `AngleItemsExact` give the exact run. |
| `ParamPatterns.LastIndexOf` | paramRE.py:20 | Where `.*>` gives characters back: the last `>` before the end of the line, or None when the line has none. |
| `ParamPatterns.PrefixThenSpace` | paramRE.py:33-54 | The count prefix and the whitespace character after it, which is at least five characters after j. |
| `ParamPatterns.OneLineAngleTextAt` | paramRE.py:29-30 | A oneLineAngleText value starts at the template's start and ends after the `=`, within the text. `OneLineAngleTextShape` gives its exact shape. |
| `ParamPatterns.OneLineTextAt` | paramRE.py:35-36 | A oneLineText value ends no earlier than the `=`, within the text. `OneLineTextShape` gives its exact shape. |
| `ParamPatterns.OneFloatAt` | paramRE.py:47-48 | A oneFloat value ends after the `=`, within the text. `OneFloatShape` gives its exact shape. |
| `ParamPatterns.NextLineAt` | paramRE.py:50-51 | A nextLine value ends after the `=`, within the text. `NextLineShape` gives its exact shape. |
| `ParamPatterns.AngleTextAt` | paramRE.py:38-39 | An angleText value ends after the `=`, within the text. `AngleTextCaptures` gives its exact shape. |
| `ParamPatterns.TextArrayAt` | paramRE.py:41-42 | A textArray value ends after the `=`, within the text. `TextArrayCaptures` gives its exact shape. |
| `ParamPatterns.FloatArrayAt` | paramRE.py:44-45 | A floatArray value ends after the `=`, within the text. `FloatArrayCaptures` gives its exact shape. |
| `ParamPatterns.AngleTextArrayAt` | paramRE.py:32-33 | An angleTextArray value ends after the `=`, within the text. `AngleTextArrayPrefix` and `AngleTextArrayItems` give its exact shape. |
| `ParamPatterns.AngleRunAt` | paramRE.py:22 | A run of token items ends after its start, within the text. `AngleRunGroups` gives its groups. |
| `ParamPatterns.CommentAt` | paramRE.py:53-54 | A comment value ends after the `=`, within the text. `CommentCaptures` gives its exact shape. |
| `ParamPatterns.ShapeAt` | paramRE.py:16-54 | Every value shape's match starts at the template's start and ends no earlier than the `=`, within the text. |
| `ParamPatterns.SaveTimeAt` | py_acqp.py:185 | The save-time value ends after `##OWNER=`, within the text. `SaveTimeCaptures` gives its exact shape. |
| `ParamPatterns.ParenNumberEnd` | py_acqp.py:375 | When `\(\s\d+\s\)` matches at j, it ends at least five characters later. `ParenNumberExact` gives the exact shape. |
| `ParamPatterns.VersionLabelAt` | py_acqp.py:375 | A version label ends after its start, within the text. `VersionLabelCaptures` and `VersionLabelMatches` give the exact shape. |
| `ParamPatterns.VersionAt` | py_acqp.py:375 | A version value ends after the version literal, within the text. `VersionCaptures` gives its exact shape. |
| `ParamPatterns.MatchAt` | paramRE.py:29-54 | A template match starts only where the literal `name=` stands. Its end lies after that literal and within the text. |
| `ParamPatterns.Search` | py_acqp.py:156 | `re.search`: the match returned is the one `MatchAt` gives at its start, no earlier position matches, and None means no position matches. |
| `PatternProperties.SearchOnlyAtAnchor` | paramRE.py:29-54 | A search succeeds only at a literal occurrence of the escaped name and `=` (so `#`, `$` stand for themselves). A text without that literal gives None. |
| `PatternProperties.TemplateAt` | paramRE.py:29-54 | At a literal `name=`, a template matches exactly what its value shape matches just after the `=`. |
| `PatternProperties.SearchAfterAnchor` | paramRE.py:29-54 | A found match is what the pattern's part after its literal yields at that start. |
| `PatternProperties.RepeatEnds` | paramRE.py:22-24 | A `(?:item)+` repetition ends right after its last item, and no further item can start there. |
| `PatternProperties.FloatRunAt` | paramRE.py:25 | The float scanner's state at k is the independent float automaton run over the text from j to k. |
| `PatternProperties.FloatEndLongest` | paramRE.py:25 | `-*\d+\.*\d*` matches at q iff some prefix from q is a float text. What it takes is the longest such prefix. |
| `PatternProperties.OneFloatShape` | paramRE.py:47-48 | One float matches iff a number starts right after the `=` (no whitespace allowed). Group 1 is the longest float text there. |
| `PatternProperties.ParenNumberExact` | paramRE.py:16 | `\(\s\d+\s\)` ends at b iff the text from j to b is `(`, whitespace, one or more digits, whitespace, `)`. |
| `PatternProperties.CountPrefixExact` | paramRE.py:17 | The count-prefix scanner ends at b iff the text from j to b is a count prefix: `(`, whitespace, a digit-led run of digits, commas and spaces with no comma right after a space, whitespace, `)`. |
| `PatternProperties.AngleLabelExact` | paramRE.py:19 | `<([\w\.\+\-]+)>` ends at b iff the text from j to b is `<`, a non-empty run of word characters or `.+-`, and `>`. |
| `PatternProperties.OneLineAngleTextShape` | paramRE.py:29-30 | Matches iff an angle label follows the `=` directly. Group 1 is the label without its brackets. |
| `PatternProperties.OneLineTextShape` | paramRE.py:35-36 | Matches at every `name=`. Group 1 is the longest (possibly empty) word run after it. |
| `PatternProperties.AngleTextCaptures` | paramRE.py:38-39 | A match is a count prefix, one whitespace character, and an angle label. Group 1 is the label's content. |
| `PatternProperties.AngleTextMatches` | paramRE.py:38-39 | Conversely, a count prefix, one whitespace character and an angle label give exactly that match. |
| `PatternProperties.TextArrayCaptures` | paramRE.py:41-42 | Group 1 follows a count prefix and one whitespace character. It is the longest non-empty run of word and whitespace characters. |
| `PatternProperties.TextArrayMatches` | paramRE.py:41-42 | A count prefix, whitespace, and one word-or-space character are enough for a match. |
| `PatternProperties.FloatRepeatChars` | paramRE.py:24 | Every character a float list covers is a digit, `-`, `.` or whitespace. |
| `PatternProperties.FloatRepeatChain` | paramRE.py:24 | The repeated float items form a chain. Each item is the longest float text at its start plus all the whitespace after it, and the chain ends where the repetition does. |
| `PatternProperties.LongestNumberUnique` | paramRE.py:25 | At most one float text from a position is the longest. |
| `PatternProperties.FloatChainStarts` | paramRE.py:24 | A non-empty chain of float items starts with a number. |
| `PatternProperties.FloatChainUnique` | paramRE.py:24 | Two chains of float items from the same start, each followed by no number, end at the same place. |
| `PatternProperties.FloatItemsExact` | paramRE.py:24 | The float repetition from q ends at e iff the text from q to e is a non-empty chain of float items after which no number starts. |
| `PatternProperties.FloatArrayCaptures` | paramRE.py:44-45 | Group 1 follows a count prefix and one whitespace character. It is a non-empty chain of float items, each the longest float text at its start plus all the whitespace after it, with no number after the chain. Line breaks and trailing whitespace are kept. |
| `PatternProperties.FloatArrayMatches` | paramRE.py:44-45 | A count prefix, whitespace and a number are enough for a match. |
| `PatternProperties.AngleTokenExact` | paramRE.py:22 | `<(?:\w*\s)+\w*>` ends at b iff the text from q to b is such a token. |
| `PatternProperties.AngleRepeatChain` | paramRE.py:22 | The repeated token items form a chain. Each item is a bracketed token plus one whitespace character, and the last token starts where the repetition's last item does. |
| `PatternProperties.AngleChainUnique` | paramRE.py:22 | Two chains of token items from the same start, each followed by no further item, end at the same place with the same last token. |
| `PatternProperties.AngleRepeatStops` | paramRE.py:22 | No token item starts where the repetition stops. |
| `PatternProperties.AngleChainRepeats` | paramRE.py:22 | Where a chain of token items starts, the repetition takes at least one item. |
| `PatternProperties.AngleItemsExact` | paramRE.py:22 | The token repetition from q ends at e with its last token at g iff the text from q to e is a chain of token items ending with that token, after which no item starts. |
| `PatternProperties.AngleRunGroups` | paramRE.py:22 | Group 1 is the whole chain of token items, and group 2 is its last token. |
| `PatternProperties.AngleTextArrayPrefix` | paramRE.py:32-33 | An angle-text-array match starts with a count prefix and one whitespace character. Group 1 follows them. |
| `PatternProperties.AngleTextArrayItems` | paramRE.py:32-33 | Group 1 of an angle-text-array match is a chain of token items, each a bracketed token plus one whitespace character, after which no item starts. Group 2 is its last token. |
| `PatternProperties.AngleTextArrayMatches` | paramRE.py:32-33 | A count prefix, whitespace, a token and whitespace are enough for a match. |
| `PatternProperties.NextLineShape` | paramRE.py:50-51 | Matches iff a word run and a line break follow the `=`. Groups 1 and 2 are the word runs either side of that one line break. |
| `PatternProperties.CommentCaptures` | paramRE.py:53-54 | A comment match is a count prefix, a line break, `<`, and text up to a `>` on that line. No later `>` is on the line (`.*` is greedy and does not cross a line break). |
| `PatternProperties.CommentMatches` | paramRE.py:53-54 | Conversely, such a line gives a match. |
| `PatternProperties.SaveTimeCaptures` | py_acqp.py:185 | After `##OWNER=` come a non-empty word run, one whitespace character, `$$` and one whitespace character. Group 1 is the longest non-empty run of characters from space to `:`. |
| `PatternProperties.SaveTimeMatches` | py_acqp.py:185 | Conversely, such an owner field and run give exactly that match. |
| `PatternProperties.VersionLabelCaptures` | py_acqp.py:375 | After `<`, the version label is `PV `, a digit run (group 2), `.`, then a `\d+\.*\d*` text (one or more digits, dots, digits), then `>`. Group 1 is everything inside the brackets. |
| `PatternProperties.DigitsDotsDigits` | py_acqp.py:375 | From a digit, the runs of digits, dots and digits form a `\d+\.*\d*` text. |
| `PatternProperties.DigitsDotsDigitsEnd` | py_acqp.py:375 | Such a text followed by a character that is neither a digit nor a dot ends where those runs end. |
| `PatternProperties.VersionLabelMatches` | py_acqp.py:375 | Conversely, a version label followed by `>` is exactly what the label scanner matches there, with those groups. |
| `PatternProperties.VersionParts` | py_acqp.py:375 | A version match consists of the count prefix, whitespace and `<` before the label, then the label's groups. |
| `PatternProperties.VersionCaptures` | py_acqp.py:375 | Every version match has that structure. |
| `PatternProperties.VersionGroupsText` | py_acqp.py:375 | The version groups, read on their own: group 1 is `PV `, then group 2 (a non-empty digit run), then `.`, then a `\d+\.*\d*` text. |
| `PatternProperties.VersionAnchorCaptures` | py_acqp.py:375-377 | After the version literal, whatever the version pattern captures has the version-label shape. |
| `PatternProperties.VersionMatchAtCaptures` | py_acqp.py:375-377 | So does a match of the whole version pattern at any start. |
| `PatternProperties.VersionSearchCaptures` | py_acqp.py:375-380 | Whatever the version search finds satisfies that relation between group 1 and group 2. |
| `ScanRecord.InitialParameters` | py_acqp.py:63-115 | `parameters` as built by `__init__`: exactly the declared keys, ScanNumber the constructor argument, every other entry `''`. |
| `ScanRecord.InitialCsv` | py_acqp.py:117-148 | `csvParameters` as built by `__init__`: exactly its declared keys, ScanNumber 0, every other entry `''`. |
| `ScanRecord.InitialRecord` | py_acqp.py:61-148 | A new object: every key of `csvParameters` is also a key of `parameters`. |
| `ScanRecord.CsvKeysAreParameterKeys` | py_acqp.py:117-148 | Every key of `csvParameters` is a key of `parameters`, so the final copy never looks up a missing key. |
| `ScanRecord.Decoded` | py_acqp.py:160 | `group(1)` stored as is, with line breaks removed (no `\n` left, never longer), or parsed as a date (None iff the parser fails). |
| `ScanRecord.Step` | py_acqp.py:154-184 | One field read succeeds iff the capture decodes, or the field is guarded and not found. On success its key holds the decoded group 1, or `''` when nothing was found. The notices grow by the field's message exactly when it was not found and announces that. No other entry changes. A failure is Missing exactly when the search found nothing on an unguarded field, and otherwise a date that does not parse. |
| `ScanRecord.VersionStep` | py_acqp.py:374-384 | The version read sets PVver and `Major PV ver` and leaves every other entry and `csvParameters` alone. |
| `ScanRecord.CopyCsv` | py_acqp.py:386-387 | After the copy, every `csvParameters` entry equals the `parameters` entry of the same key. The keys, `parameters` and the notices are unchanged. |
| `ScanRecord.Acqp.constructor` | py_acqp.py:61-148 | The new object holds the initial dictionaries and no notices. |
| `ScanRecord.Acqp.ReadField` | py_acqp.py:154-184 | The object's new state is the one `Step` gives. A failed read leaves it unchanged. |
| `ScanRecord.Acqp.ReadFields` | py_acqp.py:154-372 | The loop over a table leaves the object where the `RunReads` fold says and reports the same failure (invariant: the fold over the rows read so far). |
| `ScanRecord.Acqp.ReadVersion` | py_acqp.py:374-384 | The object's new state is the one `VersionStep` gives with the program's search. |
| `ScanRecord.Acqp.CopyToCsv` | py_acqp.py:386-387 | The in-place loop over the keys, taken in any order, ends in the state `CopyCsv` describes and keeps the dictionaries' keys. |
| `ScanRecord.Acqp.ReadParameters` | py_acqp.py:150-387 | The new state and outcome are exactly those of `Extract`: fatal at the first failing read, early return for singlepulse, otherwise complete. The keys are kept. |
| `ScanRecord.TableKeysAreParameterKeys` | py_acqp.py:63-115 | Every key either table writes is a key that `__init__` declares. |
| `ScanRecord.RunReadsKeepsKeys` | py_acqp.py:63-148 | A table whose keys are declared keeps the key sets of both dictionaries. |
| `ScanRecord.VersionStepKeepsKeys` | py_acqp.py:374-384 | So does the version read. |
| `ScanRecord.RunReadsStops` | py_acqp.py:154-372 | After the first failing read, further rows leave the fold unchanged (the exception ends `readParameters`). |
| `ScanRecord.KeysOfLast` | py_acqp.py:154-372 | The keys of a table are those of its rows before the last, plus the last row's key. |
| `ScanRecord.RunReads` | py_acqp.py:154-372 | The rows in order, stopping at the first failure. A table never touches `csvParameters` and loses no key of `parameters`. |
| `ScanRecord.RunReadsFrame` | py_acqp.py:154-372 | A table adds only its own keys to `parameters`. |
| `ScanRecord.RunReadsStores` | py_acqp.py:154-372 | After a table read without failure, a row's key holds what that row's read stores, unless a later row reads the same key. |
| `ScanRecord.SinglePulseAnyCase` | py_acqp.py:188 | The singlepulse test ignores case: a record whose PulseProg contains `singlepulse` in any mix of cases passes it. `SinglePulseReturnsEarly` shows that such a pass returns early. |
| `ScanRecord.Extract` | py_acqp.py:150-387 | `readParameters` as a whole: it loses no key and leaves `csvParameters` alone unless it completes. An early return happens only for a singlepulse program. `SinglePulseReturnsEarly` gives the converse, and `EarlyReturnStores` what that return leaves. |
| `ScanRecord.ExtractWith` | py_acqp.py:150-387 | The same, for any two tables. |
| `ScanRecord.RunReadsKeepsOthers` | py_acqp.py:154-372 | Entries whose key is not in the table keep their value. |
| `ScanRecordProperties.RunReadsCompletes` | py_acqp.py:154-372 | A table completes iff every row succeeds. |
| `ScanRecordProperties.RunReadsLastStep` | py_acqp.py:154-372 | A table completes iff all rows but the last do and the last read succeeds. |
| `ScanRecordProperties.RunReadsFirstFailure` | py_acqp.py:154-372 | The reported failure is that of the first row that fails, applied to the state the rows before it left. |
| `ScanRecordProperties.RunReadsFailureKey` | py_acqp.py:154-372 | A table stops only on an unguarded key whose search found nothing, or on a date key that does not parse. |
| `ScanRecordProperties.RunReadsNotices` | py_acqp.py:168-372 | A table that completes appends exactly one notice per missing guarded field with a notice, in row order, and none otherwise. |
| `ScanRecordProperties.StrippedReadHasNoNewline` | py_acqp.py:160 | A field read with `.replace('\n','')` stores text with no line break. |
| `ScanRecordProperties.UnguardedFields` | py_acqp.py:156-346 | A row is fatal when absent iff its key is one of the 25 unguarded fields. This holds in both tables. |
| `ScanRecordProperties.UnguardedEarly` | py_acqp.py:154-186 | An early row is fatal when absent iff its key is unguarded. |
| `ScanRecordProperties.UnguardedLate` | py_acqp.py:193-372 | So is each late row in a given range of rows. |
| `ScanRecordProperties.UnguardedListed` | py_acqp.py:156-346 | Each of the 25 unguarded fields is read by some row. |
| `ScanRecordProperties.DateFields` | py_acqp.py:185-186 | SaveTime is the only field parsed as a date. |
| `ScanRecordProperties.EarlyFields` | py_acqp.py:154-189 | Before the singlepulse check exactly PulseProg, RepTime, nAverages, acqProtocol, nRepetitions and SaveTime are read. |
| `ScanRecordProperties.UnreadFields` | py_acqp.py:63-64 | ScanNumber is never read from the texts, and SaveTime is not read again after the check. |
| `ScanRecordProperties.ArrayFieldsStripNewlines` | py_acqp.py:160-313 | Every float-array and text-array field is stored with its line breaks removed. |
| `ScanRecordProperties.EarlyNotices` | py_acqp.py:168-182 | Each early row is fatal or prints `<key> not found, leaving blank`. |
| `ScanRecordProperties.LateNotices` | py_acqp.py:193-372 | Each late row is fatal or prints its own key's notice. The exceptions are ExcitationPulse, which is silent, and RareFactor, whose notice names nEvolutionCycles. |
| `ScanRecordProperties.CsvColumns` | py_acqp.py:428-435 | The keys of `csvParameters` are the CSV fieldnames. |
| `ScanRecordProperties.ExtractFailureKey` | py_acqp.py:154-372 | A fatal pass failed on an unguarded key of one of the tables, or on a date key. |
| `ScanRecordProperties.FatalOnlyUnguarded` | py_acqp.py:156-346 | `readParameters` fails only on a missing unguarded field or an unparsable SaveTime. |
| `ScanRecordProperties.ExtractFrame` | py_acqp.py:150-387 | A pass only adds keys. `csvParameters` changes only on completion, keeping its keys. Entries no read writes keep their value. |
| `ScanRecordProperties.EarlyReturnKeys` | py_acqp.py:188-189 | An early return keeps the declared key set. |
| `ScanRecordProperties.EarlyReturnLeavesRest` | py_acqp.py:188-189 | After a singlepulse early return from a new object, `csvParameters` is still the initial one (ScanNumber 0). ScanNumber is the argument, and every entry not read before the check is still `''`. |
| `ScanRecordProperties.SinglePulseReturnsEarlyWith` | py_acqp.py:150-189 | For any tables whose row k reads PulseProg as is and aborts when it is absent: once the early table is read, row k's search has found a match. The pass then returns early iff that capture, lowered, contains `singlepulse`. |
| `ScanRecordProperties.SinglePulseReturnsEarly` | py_acqp.py:150-189 | Once the six early reads of a new object succeed, the `##$PULPROG` search has found a match. `readParameters` returns early iff that capture, lowered, contains `singlepulse`. |
| `ScanRecordProperties.EarlyReturnStoresWith` | py_acqp.py:150-189 | For any early table with distinct keys, an early return leaves every early row's key at what its read stores. |
| `ScanRecordProperties.EarlyReturnStores` | py_acqp.py:150-189 | After the early return every early field holds its decoded group 1, or `''` for a guarded field whose search found nothing. |
| `ScanRecordProperties.CompletedCsvMatches` | py_acqp.py:386-387 | After a complete pass, `csvParameters` keys are `parameters` keys and each entry equals its `parameters` entry. |
| `ScanRecordProperties.CompletedCopiesCsv` | py_acqp.py:386-387 | After a complete pass from a new object, `csvParameters` covers exactly the fieldnames. Its entries are copies, and ScanNumber is the constructor argument in both dictionaries. |
| `ScanRecordProperties.LateKeysApartFirst` | py_acqp.py:193-372 | The late rows 0-2 read keys that no later row reads. |
| `ScanRecordProperties.LateKeysApartSecond` | py_acqp.py:193-372 | So do the late rows 3-5. |
| `ScanRecordProperties.LateKeysApartThird` | py_acqp.py:193-372 | So do the late rows 6-9. |
| `ScanRecordProperties.LateKeysApartFourth` | py_acqp.py:193-372 | So do the late rows 10-19. |
| `ScanRecordProperties.LateKeysApartFifth` | py_acqp.py:193-372 | So do the late rows 20-29. |
| `ScanRecordProperties.EarlyKeysApart` | py_acqp.py:154-372 | The early table reads each key once and shares no key with the late table. |
| `ScanRecordProperties.VersionKeysUnread` | py_acqp.py:154-384 | Neither table reads PVver or `Major PV ver`. |
| `ScanRecordProperties.TableKeysDistinct` | py_acqp.py:154-372 | Each table reads each key at most once. |
| `ScanRecordProperties.CompletedStoresWith` | py_acqp.py:150-387 | After a complete pass with tables whose keys are distinct and apart, every row's key holds what its read stores. |
| `ScanRecordProperties.CompletedStores` | py_acqp.py:150-387 | After a complete pass, every field of both tables holds its decoded group 1, or `''` for a guarded field whose search found nothing. |
| `ScanRecordProperties.SaveTimeParsedWith` | py_acqp.py:185-186 | When the save-time row is the last early row and no late row writes SaveTime, a non-fatal pass found the owner line, parsed its capture and stored that time. |
| `ScanRecordProperties.SaveTimeIsParsed` | py_acqp.py:185-186 | Every non-fatal pass stores SaveTime as the parsed capture of the save-time pattern. |
| `ScanRecordProperties.VersionFieldsPaired` | py_acqp.py:374-384 | For any search, PVver and `Major PV ver` hold groups 1 and 2 when found. Each is `''` exactly when not found or its group is empty. |
| `ScanRecordProperties.VersionFields` | py_acqp.py:374-384 | With the program's search, PVver and `Major PV ver` are both `''` or both set. When set, `Major PV ver` is the digit run right after `PV ` in PVver. |
| `Study.SaveTimes` | py_acqp.py:457-463 | The list has a save time for every scan exactly when every scan holds a parsed time, in list order. |
| `Study.Elapsed` | py_acqp.py:468 | `maxTime - minTime` is not negative iff the start is not after the finish. |
| `Study.SaveTimeRange` | py_acqp.py:457-469 | No result iff the list is empty. Otherwise start and finish are save times of the list, bound every time in it, and the elapsed difference is not negative. |
| `Study.ValueRow` | py_acqp.py:482 | A `[caption, '', value]` row: three cells, none holding a line break. The middle cell is empty and the value is group 1 with its line breaks removed. |
| `Study.CommentRow` | py_acqp.py:502-508 | The caption alone iff the comment is missing. The row holds no line break. |
| `Study.StudyRows` | py_acqp.py:481-516 | Six rows with a weight and five without. No row holds a line break. |
| `Study.StudyRowsCells` | py_acqp.py:481-516 | Each row's cells: subject id, study name, sex and weight are `[caption, '', group 1 without line breaks]`. The sex row is empty when sex is missing. The two comment rows are the comment rows of the two comment matches. |
| `Study.StudyRowsLayout` | py_acqp.py:481-516 | The rows in order: subject and study name first; then sex (empty when missing); weight when found; subject comments and study comments last, each the caption alone when missing. |
| `Study.StudyNotices` | py_acqp.py:487-516 | One notice per missing optional field, and each field's notice is there iff that field is missing. |
| `Study.ReadStudyInfo` | py_acqp.py:481-516 | A missing subject id or study name is fatal, and a missing id is reported first. Otherwise the row count depends on the weight and no cell holds a line break. The notices are exactly those of the four optional lookups, one per missing field. The subject id, study name, sex and weight rows hold their search's group 1 without line breaks after an empty cell. The sex row is empty exactly when sex is missing. |
| `Study.ReadStudyInfoComments` | py_acqp.py:502-516 | The last two rows of a successful lookup are the subject-comments row and the study-comments row. Each holds the whole comment match without line breaks, or only its caption when the comment is missing. |
| `Study.StripKeepsEnds` | py_acqp.py:505 | Removing line breaks keeps a first part without a line break at the front and a last character other than a line break at the end. |
| `Study.CommentAtShaped` | paramRE.py:53-54 | A comment match read at a literal `name=` starts with `name=` and ends with `>`. |
| `Study.CommentMatchText` | py_acqp.py:502-505 | With the program's search, the whole match of a comment field starts with `name=` and ends with the closing `>`. |
| `Study.CommentCellText` | py_acqp.py:505 | A found comment's cell still starts with `name=` and ends with `>` after its line breaks are removed. |

## Left out

- Regular expressions in general: each of the nine templates and the two
  patterns of `py_acqp.py` has its own scanner. `\w` and `\s` are ASCII
  only: the 63 word characters and the six ASCII whitespace characters.
  Python's Unicode classes are not modelled.
- `\d` is ASCII only (`0` to `9`). Python's `\d` on `str` patterns also
  matches other Unicode decimal digits.
- `Text.Lower`: only ASCII `A` to `Z` are lowered. Python's `.lower()`
  lowers every Unicode letter.
- `Study.SaveTimeRange`: on an empty scan list `acqpList[0]` raises
  `IndexError`. The model returns None instead.
- `dateutil.parser.parse` is a parameter of type `string -> Option<int>`.
  A timestamp is an `int`.
- Directory listing, the `isnumeric` filter and reading files: the texts
  are parameters.
- The PyQt directory dialog.
- CSV writing. The model keeps the row contents, not the file. The order
  of a DictWriter's columns and the partial file left behind by a fatal
  read are not modelled.
- `print` is modelled as the `notices` log of the object or the study.
  The newline that `print` adds is not part of a notice.
- A fatal read (an `AttributeError` on `None.group`) is a `Fatal` outcome
  or an `Err` result rather than an exception.
- `strftime`, `.date()` and the elapsed minutes as a float formatted with
  `{0:.1f}`. `Elapsed` is the integer difference of the two timestamps.
- Comparing a blank save time with a timestamp raises `TypeError`.
  `Study.SaveTimes` instead gives no list when any scan lacks a parsed
  time.
- The dictionary keys that are declared but never assigned (SlicepackVec,
  dwiBvals and others) stay `''`. No lemma is stated about them beyond
  `ExtractFrame`.
- `Study.ReadStudyInfo`, `Study.StudyNotices`, `ScanRecord.Step` and the
  other specification functions take the search as a parameter. Only the
  lemmas that name `Search` (`VersionFields`, `CommentMatchText`) and
  `Acqp.ReadParameters` tie them to the modelled patterns.
