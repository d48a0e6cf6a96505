# Timetable spreadsheet conversion, modelled in Dafny

`scripts/convert-data.js` turns the university's exported timetable workbooks
into one JSON course list. It has two stages, and this project models both.

1. **The row classifier and course builder.** Only the first sheet of each
   workbook is read, and the workbooks are taken in directory-listing order.
   For each such sheet the converter walks the decoded rows with a `currentCourse` cursor. A row is one of four kinds:
   - a course header: cell 0 trims to four upper-case letters and four
     digits, and cell 1 is truthy;
   - a time row, while a course is open: cell 0 contains `dd:dd`;
   - a terminator, while a course is open: cell 0, lower-cased, mentions
     "course code" or "college requirement", or is empty while cell 1 is
     truthy;
   - anything else, which is ignored.

   A header seals the open course and opens a new flat record. A time row
   appends its time, and its room if there is one. A terminator seals the
   open course. The end of the sheet seals it too. The records of all these
   sheets, one per workbook, go into one list.
2. **`processCourses`.** It folds the flat records into an object of courses
   keyed by code. Each course holds an object of sections keyed by section.
   The first record of a `(code, section)` pair creates the section. A later
   record with the same pair only appends its time, and only when that time
   is not already contained. The result lists the courses, each with its
   sections, in `Object.values` order.

The modules:

- `Cells` models what the converter does to a cell: JavaScript truthiness,
  `String(x || '')`, `trim()`, `toLowerCase()` on ASCII, `includes`, `join`
  and the two regular expressions.
- `Classifier` gives the row kinds a specification, `Classify`, `Step`,
  `RunFrom` and `BuildSheet`. `Classifier.ConvertSheet` is the imperative row
  loop, proved equal to that specification.
- `JsObject` models a plain `{}` used as a dictionary. It keeps its own keys
  in creation order. Enumeration follows ECMAScript OrdinaryOwnPropertyKeys:
  array-index keys first, in ascending numeric order, then the others in
  creation order.
- `Aggregator` gives the fold a specification, `AddRecord` and `Aggregate`.
  `Aggregator.ProcessCourses` is the `forEach` loop, proved equal to
  `Project(Aggregate(flatData))`.
- `Pipeline.ConvertData` chains the two stages. Its input holds the decoded
  first sheet of each workbook, in file order.

Two consequences of JavaScript semantics are easy to miss:

- A section is listed where `Object.values` puts it, which is not always
  first-seen order. Sections spelled as array indices come first, in
  ascending numeric order. An array index is a canonical decimal with no
  leading zero, at most 2^32 - 2, such as "2" or "10". All other sections
  follow in first-seen order; a zero-padded "01" is one of them
  (`Aggregator.SectionOrder`, `JsObject.NumericKeysFirst`). Course codes
  always start with a letter, so courses do come out in first-seen order
  (`Aggregator.CoursesInFirstSeenOrder`).
- The text "0" in cell 1 is truthy in JavaScript, so it does make a header.
  Only the number 0, `false`, an empty text and a missing cell are falsy
  (`Cells.Truthy`).

## Model

| member | source | states |
|---|---|---|
| Cells.ToStr | scripts/convert-data.js:152 | the string of a cell is empty exactly when the cell is falsy; a truthy text cell gives its own text |
| Cells.NatToString | scripts/convert-data.js:152 | `String(n)` of a natural number is a non-empty string of digits |
| Cells.NatToStringValue | scripts/convert-data.js:152 | those digits denote `n`, with no leading zero except for 0 itself, as `String` spells every safe integer (up to 2^53) |
| Cells.IntToString | scripts/convert-data.js:152 | `String(n)` of an integer is digits, after a minus sign when negative |
| Cells.TrimSpec | scripts/convert-data.js:152 | `trim()` returns the infix of its input that neither starts nor ends with whitespace, with only whitespace around it |
| Cells.TrimUnchanged | scripts/convert-data.js:152 | a string without whitespace at either end is left unchanged by `trim()` |
| Cells.TrimIdempotent | scripts/convert-data.js:152 | trimming twice gives the same as trimming once |
| Cells.TrimAllSpace | scripts/convert-data.js:167 | a string of whitespace alone trims to the empty string |
| Cells.IncludesConcat | scripts/convert-data.js:252 | `includes` survives extending the string on either side |
| Cells.IncludesPrefix | scripts/convert-data.js:252-253 | a string that only grows at its end keeps containing what it contained |
| Cells.IncludesTrans | scripts/convert-data.js:252 | containment is transitive |
| Cells.SpacesExclude | scripts/convert-data.js:199 | whitespace alone contains no pattern that starts with a non-space |
| Cells.Join | scripts/convert-data.js:226-227 | `join` of no parts is empty; of one part, that part; of several, at least one separator long |
| Cells.JoinIncludesParts | scripts/convert-data.js:226 | every part occurs in the joined string |
| Cells.JoinEmpty | scripts/convert-data.js:226 | with a non-empty separator the join is empty exactly for no parts or one empty part |
| Classifier.Classify | scripts/convert-data.js:152-199 | a header whatever the cursor; a time row, terminator or ignored row only in that priority order and only while a course is open; each as an if-and-only-if |
| Classifier.SpacesCellNotTerminator | scripts/convert-data.js:198-199 | cell 0 is not trimmed for the terminator test, so a cell 0 of spaces alone leaves an open course untouched |
| Classifier.OpenRecord | scripts/convert-data.js:165-172 | a header opens a record with no times and no rooms |
| Classifier.BlankSectionHeader | scripts/convert-data.js:157-167 | cell 1 is tested before it is trimmed: a section of spaces alone makes a header whose section is empty |
| Classifier.AddTime | scripts/convert-data.js:178-190 | a time row appends its trimmed cell 0 to `times`, appends its trimmed cell 1 to `rooms` only when that is non-empty, and changes no other field |
| Classifier.Sealed | scripts/convert-data.js:208-210 | sealing emits the open record, and nothing when no course is open |
| Classifier.Step | scripts/convert-data.js:159-205 | a header seals then opens; a time row grows the open record and emits nothing; a terminator seals and closes; an ignored row changes neither cursor nor output |
| Classifier.ConvertSheet | scripts/convert-data.js:141-210 | the loop over one sheet appends to the accumulated list exactly `BuildSheet(rows)`, with the cursor starting empty for the sheet |
| Classifier.RunFromAppend | scripts/convert-data.js:146-206 | the loop over `a + b` is the loop over `a` continued over `b` |
| Classifier.RunFromHeadings | scripts/convert-data.js:159-205 | the emitted records plus the open one are, once their times and rooms are cleared, the records opened by the header rows seen so far |
| Classifier.RecordsFollowHeaders | scripts/convert-data.js:159-210 | each header row yields exactly one record, in header order, carrying its code, section, name and instructor; a sheet yields as many records as it has headers |
| Classifier.AddTimeWellFormed | scripts/convert-data.js:184-190 | a time row keeps the open record well formed |
| Classifier.StepWellFormed | scripts/convert-data.js:157-190 | every row keeps every emitted and open record well formed |
| Classifier.SheetWellFormed | scripts/convert-data.js:157-190 | every record of a sheet has a course code and at most as many rooms as times; each time contains a clock time and each room is non-empty |
| Classifier.AllRecordsWellFormed | scripts/convert-data.js:132-190 | the same for the records of all the sheets read, one per workbook, together |
| Classifier.IdleUntilHeader | scripts/convert-data.js:159-173 | with no course open, rows that are not headers change nothing |
| Classifier.TerminatorThenIgnored | scripts/convert-data.js:173-203 | after a terminator no course is open, and every row up to the next header is ignored |
| JsObject.Empty | scripts/convert-data.js:220 | `{}` has no keys |
| JsObject.Put | scripts/convert-data.js:230-241 | assignment stores the value; a new key goes to the end of the creation order and an existing key keeps its place |
| JsObject.PutTwice | scripts/convert-data.js:230-241 | assigning a key twice leaves the second value |
| JsObject.LetterKeyNotIndex | scripts/convert-data.js:259 | a key that starts with a letter is never an array index |
| JsObject.SplitKeys | scripts/convert-data.js:263 | splitting the keys into array indices and the rest loses and adds nothing |
| JsObject.InsertIndex | scripts/convert-data.js:263 | inserting a key into an ascending list keeps it ascending |
| JsObject.InsertIndexPerm | scripts/convert-data.js:263 | insertion adds the key and loses nothing |
| JsObject.SortIndexKeys | scripts/convert-data.js:263 | the array-index keys are sorted into ascending numeric order as a permutation |
| JsObject.OwnKeys | scripts/convert-data.js:259-263 | `Object.values` visits a permutation of the own keys |
| JsObject.OwnKeysOrder | scripts/convert-data.js:259-263 | array-index keys come first, ascending by value, then the other keys in creation order |
| JsObject.OwnKeysCreationOrder | scripts/convert-data.js:259 | without array-index keys the order is the creation order |
| JsObject.Values | scripts/convert-data.js:259-263 | `Object.values` lists the value of each own key, in that order |
| JsObject.NumericKeysFirst | scripts/convert-data.js:263 | sections "10", "2", "L1", assigned in that order to `{}`, are listed as "2", "10", "L1" |
| Aggregator.MergeTime | scripts/convert-data.js:251-254 | the time changes exactly when the new time is non-empty and not contained; the result contains any non-empty new time; the old time stays as a prefix |
| Aggregator.MergeTimeIntoEmpty | scripts/convert-data.js:252-253 | merging into an empty time leaves a leading time separator |
| Aggregator.MergeTimeAppends | scripts/convert-data.js:252-253 | a different time, at least as long as the old one, is always appended after the time separator |
| Aggregator.SectionsOf | scripts/convert-data.js:238-240 | a code's sections are filed under their own identifiers with empty exams |
| Aggregator.MergeSection | scripts/convert-data.js:240-255 | a new section is created from the record's fields at the end of the order; a duplicate changes its `time` alone, through `MergeTime`; the other sections are untouched |
| Aggregator.AddRecord | scripts/convert-data.js:222-256 | one record: a new code gets a course at the end of the order, named by the record or its code; an existing course keeps its name; other courses are untouched; the code's sections absorb the record |
| Aggregator.AggregateFrom | scripts/convert-data.js:222-256 | folding records keeps every course filed under its code, with id and code equal to the key |
| Aggregator.Aggregate | scripts/convert-data.js:220-256 | the same from `{}` |
| Aggregator.Project | scripts/convert-data.js:259-264 | one output course per key, in `Object.values` order, carrying the id, code, name and section values |
| Aggregator.ProcessCourses | scripts/convert-data.js:219-265 | the `forEach` loop and the projection compute `Project(Aggregate(flatData))` |
| Aggregator.AddRecordCovers | scripts/convert-data.js:240-254 | after a record is added, its course and section exist and the section's time contains its joined times |
| Aggregator.AddRecordKeepsCovered | scripts/convert-data.js:248-254 | adding a record never removes what earlier records contributed |
| Aggregator.CoveredUnchanged | scripts/convert-data.js:248-254 | a record whose time is already contained changes nothing |
| Aggregator.AggregateCovers | scripts/convert-data.js:222-256 | every input record is contained in the result |
| Aggregator.TimesNeverLost | scripts/convert-data.js:226-254 | every time slot of every record appears in its section's time |
| Aggregator.AggregateFromCovered | scripts/convert-data.js:248-254 | records that are all already contained change nothing |
| Aggregator.AggregateFromAppend | scripts/convert-data.js:222 | folding `a + b` is folding `a`, then `b` |
| Aggregator.AggregateTwice | scripts/convert-data.js:222-256 | feeding the same records twice gives the same courses as feeding them once |
| Aggregator.Codes | scripts/convert-data.js:223 | the codes of the records, in order |
| Aggregator.Pairs | scripts/convert-data.js:223 | the `(code, section)` pairs of the records, in order |
| Aggregator.FirstSeen | scripts/convert-data.js:229-236 | the distinct codes, each once |
| Aggregator.AggregateKeys | scripts/convert-data.js:229-236 | one course per distinct code, created in first-seen order |
| Aggregator.SectionsFromRecords | scripts/convert-data.js:240-247 | every section in the result was named by a record of its code |
| Aggregator.NameFromFirstRecord | scripts/convert-data.js:229-238 | a course's name is its first record's name, or the code when that is empty; later records never change it |
| Aggregator.AddRecordKeepsSection | scripts/convert-data.js:248-255 | a later record keeps a section's instructor, room and exam, and only extends its time |
| Aggregator.FirstSectionFields | scripts/convert-data.js:226-247 | the first record of a pair fixes the section's instructor and joined rooms, its joined times start the time, and the exam is empty |
| Aggregator.CoursesInFirstSeenOrder | scripts/convert-data.js:259-262 | with course codes, the output lists one course per distinct code in first-seen order, with id and code equal to it |
| Aggregator.SectionsSeen | scripts/convert-data.js:240 | the distinct sections of one code, each once |
| Aggregator.SectionKeys | scripts/convert-data.js:240-247 | a code's sections are created in first-seen order |
| Aggregator.SectionOrder | scripts/convert-data.js:263 | a course's sections come out array-index identifiers (canonical decimals, no leading zero) first, ascending, then the others in first-seen order; in plain first-seen order when none is an array index |
| Aggregator.AddRecordAsWritten | scripts/convert-data.js:229-255 | as written, a new section named like an inherited `Object.prototype` member throws when the record has times and is dropped, leaving the code's sections as they were, when it has none; this holds for the first record of a code too, and an inherited name as a new code throws |
| Aggregator.AggregateAsWritten | scripts/convert-data.js:222-256 | as written, the fold stops at the first throw; every completed state keeps courses filed under their codes |
| Aggregator.AsWrittenAgrees | scripts/convert-data.js:229-240 | away from inherited names, the code as written agrees with own-key lookups |
| Aggregator.AggregateAsWrittenAgrees | scripts/convert-data.js:222-256 | the same for a whole input |
| Aggregator.ConstructorSectionThrows | scripts/convert-data.js:240-252 | a section "constructor" with a time throws as written and is kept with its time by own-key lookups |
| Aggregator.ToStringSectionDropped | scripts/convert-data.js:240-254 | a section "toString" without times vanishes as written and is kept by own-key lookups |
| Pipeline.ConvertData | scripts/convert-data.js:132-213 | the first sheet of each workbook goes through the classifier, in file order, and then through `processCourses`; the result has one course per distinct code, in first-seen order |

## Left out

- File handling and logging are not modelled: the directory check, listing
  the workbooks, reading them, `sheet_to_json`, writing the JSON, `console`
  and `process.exit` (lines 117-130, 135-139, 215-216). The model takes the
  decoded rows of each sheet as its input and returns the course list. The
  converter reads only the first sheet of each workbook (lines 137-139); the
  other sheets of a workbook are never read, so they are not part of the
  input either.
- The block at lines 19-115 sits after `process.exit(1)` and is never run. It
  repeats the live logic and is not modelled twice.
- The call `convertData()` at line 269, made when the script is loaded, is not
  modelled.
- `scripts/inspect-data.js` is not part of this model. It only prints rows
  of a fixed workbook.
- Cells.ToStr: numeric cells are integers. Fractional numbers and the
  exponent form `String` uses from 1e21 up are not modelled. Integers
  beyond 2^53 are not spelled as `String` spells them: it writes the
  double's shortest digits, padded with zeros. Integers that no double can
  hold are accepted as cells.
- Cells.LowerAscii: lower-cases ASCII letters only, whereas `toLowerCase()`
  maps every Unicode letter. The two tested phrases are ASCII either way.
- Classifier.ConvertSheet: records are values. The source mutates the open
  record in place, but it never touches a record again once it is pushed, so
  nothing observable depends on aliasing.
- Aggregator.ProcessCourses: `existing.time +=` mutates the stored section in
  place. The model writes the updated section back into its map, with the
  same result.
- Aggregator.AddRecord, Aggregator.ProcessCourses, Pipeline.ConvertData: look
  codes and sections up as own keys, the evidently intended behaviour; the
  loop in `ProcessCourses` is the corrected `forEach`. The lookups as written are modelled
  separately, in `Aggregator.AddRecordAsWritten` (see Findings).
- Aggregator.AddRecordAsWritten: models the inherited names of
  `Object.prototype` in Node.js. A name a global script adds to
  `Object.prototype` at run time is outside the model.
- The exception a `TypeError` raises ends the whole conversion. It is modelled
  as the outcome `TypeError`, without the stack or the message.

## Findings

| source | as written | input that shows it | evidently intended | confidence | as-written member | corrected member |
|---|---|---|---|---|---|---|
| scripts/convert-data.js:240-254 | `!course.sectionsMap[section]` also reads members inherited from `Object.prototype`, so a new section named like one takes the duplicate branch and reads `existing.time` as `undefined` | a header row `BSCR3001`, section `constructor`, with the time row `MON 13:00-13:50`: `undefined.includes(...)` throws a `TypeError` and aborts the conversion; with no time row, a section `toString` is silently dropped | create the section as for any other new identifier, as a map with no inherited members does (`Object.create(null)` or a `Map`); an own-property test alone would still lose "__proto__", whose assignment on a `{}` calls the prototype setter | not executed | Aggregator.AddRecordAsWritten | Aggregator.AddRecord |

`Aggregator.ConstructorSectionThrows` and `Aggregator.ToStringSectionDropped`
exhibit the two cases. The same lookup at line 229 cannot misfire: every
code that reaches it passed the course-code pattern, and no inherited name
has that shape.
