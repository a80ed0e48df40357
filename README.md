# INI file parser: a verified model

This project models the INI-file parser of `ini_parser.cpp` in Dafny. The parser reads a
configuration text one character at a time through an eight-state machine (`ReadingMode`).
It builds a table from section name, then key, to value string. `get_value_string` parses
lazily, only while that table is empty, and then answers one section/key lookup.

Layout, one module per component:

- `wrappers.dfy` (`Wrappers`): `Option` and `Result`, which stand in for the C++ exceptions.
- `decimal.dfy` (`Decimal`): `itos` as a loop (`Itos`). Its specification is `DecimalString`, which has
  an inverse (`DecimalValue`).
- `syntax_error.dfy` (`SyntaxErrors`): the `parse_syntax_error` value and its constructor
  (`NewSyntaxError`). `ParseFullMessage` is a parser for the full message; the round-trip lemma
  shows that the full message determines the row and the message.
- `transitions.dfy` (`Transitions`): the machine as pure functions: one function per handler
  (`NewLineStep` … `WaitValStep`), the driver's dispatch with its two table writes (`Step`), and
  the driver loop as a left fold over the input (`RunFrom`, `Parse`).
- `run_facts.dfy` (`RunFacts`): how `RunFrom` splits over concatenation, how an error stops the
  rest of the input, and how a run of characters is absorbed by one mode.
- `parser_properties.dfy` (`ParserProperties`): row counting, the invariant of a parse pass, the
  error table, comments, and the effect of whole lines (headers, assignments, comments).
- `lookup.dfy` (`TableLookup`): the key order of the table, the "maybe you meant" message and the
  lookup result.
- `ini_parser.dfy` (`IniParser`): the `ini_parser` object as a class. The mode, the row counter,
  the buffers `section`, `variable` (the source's `var`) and `value`, and the table `data` are its
  fields. Each handler is a method that updates them in place. `RunParse` is the driver loop and
  `GetValueString` is the lookup. The functions of `Transitions` are the specification of these
  methods: every method is proved against the transition function of its handler. In the source,
  `section`, `var` and `value` are local to `get_value_string` (ini_parser.cpp:163-165). Each parse
  pass resets them, so the class can hold them as fields.
- `scenarios.dfy` (`Scenarios`) and `clients.dfy` (`Clients`): whole inputs over arbitrary
  section, key and value names, and two callers that look up twice on one parser object.

The model follows the code at these edges:

- A bare key followed by a newline or `;` is a syntax error (ini_parser.cpp:80, 131). So is a
  newline inside a header. At the end of the input, a bare key is dropped. If one space follows it,
  the key is stored as `""`.
- A syntax error does not discard the table. Entries stored before it stay. When there are any,
  the table is non-empty, so later lookups do not parse again.
- A value cut off by the end of the input is not stored. The empty placeholder written when the
  key ended (at the first `' '` or `=` after it) stays in the table.
- `;` starts a comment only in NEW_LINE, END_SECT, WAIT_VAL and READ_VAL (and is ignored in SKIP).
  Elsewhere it is an error.
- `[]` is accepted and leaves the current section name empty, so a key after it is an error.
- A section with no keys never gets an entry in the table, so a lookup of it reports
  "section is not found".
- The "maybe you meant" list follows the table's iteration order, not the order in which the keys
  appear in the file. The model takes this order to be ascending string order; "## Left out" says
  why this is an assumption.

## Model

| member | source | states |
|---|---|---|
| `Decimal.DecimalString` | ini_parser.cpp:3-13 | the decimal spelling is non-empty and all digits; it starts with `'0'` exactly when the number is 0, and 0 is spelled `"0"` |
| `Decimal.Itos` | ini_parser.cpp:3-13 | the insert-at-front loop returns exactly `DecimalString(number)`, a canonical digit string |
| `Decimal.DecimalValueOfString` | ini_parser.cpp:3-13 | reading the digits back gives the number: the formatter loses nothing |
| `Decimal.StringOfDecimalValue` | ini_parser.cpp:3-13 | every canonical digit string is the output of `itos` for its value, so the output has no leading zeros and nothing else |
| `SyntaxErrors.NewSyntaxError` | ini_parser.cpp:15-17 | the error keeps row and message, and its full message is `"row " + itos(row) + ": " + message` |
| `SyntaxErrors.FullMessageRoundTrip` | ini_parser.cpp:15-17 | the row and the message can be parsed back from the full message |
| `SyntaxErrors.FullMessageInjective` | ini_parser.cpp:15-17 | two errors with the same full message have the same row and message |
| `Transitions.Store` | ini_parser.cpp:178-186 | `data[section][key] = value` creates the section's map if needed, sets that one entry and leaves every other entry unchanged |
| `Transitions.NewLineStep` | ini_parser.cpp:25-52 | `new_line` as a function: it throws exactly on a letter with no open section, or on a character that is not a letter, white space, `;` or `[`; the error carries the current row; it never stores or touches the table or the value; it counts a row exactly for `'\n'` |
| `Transitions.ReadSectStep` | ini_parser.cpp:54-64 | `read_sect`: throws "wrong section syntax" exactly on a character that is neither `]` nor a name character; otherwise the table, row and key stay as they are |
| `Transitions.ReadVarStep` | ini_parser.cpp:66-82 | `read_var`: throws "wrong variable syntax" exactly on a character that is not a name character, `' '` or `=`; reports the end of the key exactly on `' '` and `=`, with the key buffer unchanged; the table, row and section stay as they are |
| `Transitions.ReadValStep` | ini_parser.cpp:84-98 | `read_val` never throws; it reports the end of the value exactly on `'\n'` and `;`, leaving the buffer with the whole value read so far; section, key and table stay the same; it counts a row exactly for `'\n'` |
| `Transitions.SkipStep` | ini_parser.cpp:100-105 | `skip` never throws or stores; it leaves the state alone except on `'\n'`, which counts a row and returns to NEW_LINE |
| `Transitions.EndSectStep` | ini_parser.cpp:107-121 | `end_sect`: throws "wrong section syntax" exactly on a character that is neither white space nor `;`; it leaves the table and section alone and counts a row exactly for `'\n'` |
| `Transitions.EndVarStep` | ini_parser.cpp:123-133 | `end_var`: throws "wrong variable syntax" exactly on a character other than `' '` and `=`; the table, row and key stay as they are |
| `Transitions.WaitValStep` | ini_parser.cpp:135-151 | `wait_val` never throws or stores; any character but `'\n'`, `;` and `' '` starts READ_VAL with a value of just that character; it counts a row exactly for `'\n'` |
| `Transitions.Step` | ini_parser.cpp:168-204 | one iteration of the driver's switch: the row count never goes down and an error carries the current row; the table changes only when `read_var` or `read_val` reports the end of a key or value, and then exactly by storing `""` or the complete value under the current section and key |
| `Transitions.RunFrom` | ini_parser.cpp:167-205 | the loop over the characters as a fold: the row count never drops below its start; a stop happens at a position inside the input, and its error reports the row the parser was on |
| `Transitions.Parse` | ini_parser.cpp:161-205 | one parse pass from the reset state `Start` (NEW_LINE, row 1, empty buffers, empty table): every reported row is at least 1 and every stop is at a character of the input |
| `IniParser.IniParser.constructor` | ini_parser.cpp:23 | a new parser starts in NEW_LINE with row counter 0 and an empty table |
| `IniParser.IniParser.HandleNewLine` | ini_parser.cpp:25-52 | `new_line`, in place: counts `'\n'`, enters SKIP on `;`, opens a header on `[`, starts a key on a letter only under a non-empty section, ignores spaces, otherwise throws; a throw changes nothing |
| `IniParser.IniParser.HandleReadSect` | ini_parser.cpp:54-64 | `read_sect`: `]` ends the header, alphanumerics and `_` extend the name, anything else throws "wrong section syntax" |
| `IniParser.IniParser.HandleReadVar` | ini_parser.cpp:66-82 | `read_var`: `=` and `' '` end the key and report a store, alphanumerics and `_` extend it, anything else throws "wrong variable syntax" |
| `IniParser.IniParser.HandleReadVal` | ini_parser.cpp:84-98 | `read_val`: `'\n'` (counted) and `;` end the value and report a store; every other character is appended |
| `IniParser.IniParser.HandleSkip` | ini_parser.cpp:100-105 | `skip`: only `'\n'` is acted on, counted and back to NEW_LINE |
| `IniParser.IniParser.HandleEndSect` | ini_parser.cpp:107-121 | `end_sect`: newline, comment or white space after `]`, anything else throws "wrong section syntax" |
| `IniParser.IniParser.HandleEndVar` | ini_parser.cpp:123-133 | `end_var`: `=` goes to WAIT_VAL, spaces are skipped, anything else throws "wrong variable syntax" |
| `IniParser.IniParser.HandleWaitVal` | ini_parser.cpp:135-151 | `wait_val`: newline, comment and spaces; any other character starts the value afresh |
| `IniParser.IniParser.StoreEntry` | ini_parser.cpp:178-186 | the driver's two table writes (the placeholder `""` at line 179, the value at line 185) change only `data`, to `Store(data, section, var, v)` |
| `IniParser.IniParser.Dispatch` | ini_parser.cpp:168-204 | the loop body is one `Step`: on an error the fields are as before, otherwise they are the step's next state |
| `IniParser.IniParser.RunParse` | ini_parser.cpp:161-205 | resets the mode to NEW_LINE and the row counter to 1, then leaves exactly the fold `RunFrom` of the input; the first error is returned and stops the loop |
| `IniParser.IniParser.GetValueString` | ini_parser.cpp:153-229 | parses only if the table is empty; a syntax error is reported with the table left as the parse left it; otherwise the result is `Lookup` of the table; with a non-empty table nothing changes |
| `RunFacts.RunFromAppend` | ini_parser.cpp:167-205 | feeding `a + b` is feeding `a` and then `b`, with positions shifted; an error in `a` ends the pass |
| `RunFacts.RunFromStoppedPrefix` | ini_parser.cpp:207-210 | once a prefix has thrown, the characters after it are never read |
| `RunFacts.RunAbsorbs` | ini_parser.cpp:25-151 | characters a mode absorbs (name characters in a header or key, value characters, comment text, spaces) stay in that mode and only extend its buffer |
| `ParserProperties.StepRows` | ini_parser.cpp:25-151 | a step adds one row exactly for `'\n'`, an accepted `'\n'` always ends in NEW_LINE, and an error carries the current row |
| `ParserProperties.NewlineRejectedExactly` | ini_parser.cpp:25-151 | `'\n'` throws exactly in READ_SECT, READ_VAR and END_VAR |
| `ParserProperties.RunRows` | ini_parser.cpp:161-205 | while no error has occurred the row counter is the start row plus the newlines read; an error comes from one character, after a clean prefix, with that prefix's row |
| `ParserProperties.ParseRows` | ini_parser.cpp:161-205 | in a parse pass an error reports 1 + the number of newlines before the offending character, its 1-based line |
| `ParserProperties.StepErrorsExactly` | ini_parser.cpp:25-151 | a step throws exactly where the error table (by mode and character class) says, with that message and the current row |
| `ParserProperties.SkipStepIgnores` | ini_parser.cpp:100-105 | SKIP never throws and never stores; it leaves only on `'\n'`, back to NEW_LINE |
| `ParserProperties.SemicolonStartsComment` | ini_parser.cpp:25-151 | `;` leads to SKIP exactly from NEW_LINE, END_SECT, WAIT_VAL, READ_VAL and SKIP |
| `ParserProperties.StorePreservesWellFormed` | ini_parser.cpp:178-186 | a store of a well-formed section, key and value keeps the table well formed |
| `ParserProperties.StepPreservesInv` | ini_parser.cpp:25-151 | every handler keeps the invariant: in the key modes the section is non-empty and the key well formed; a value being read is non-empty with no newline, `;` or leading space; the table is well formed |
| `ParserProperties.RunPreservesInv` | ini_parser.cpp:167-205 | the invariant holds after every prefix and in the state an error leaves |
| `ParserProperties.ParseTableWellFormed` | ini_parser.cpp:167-205 | every stored section name is non-empty and made of alphanumerics and `_`; every key is a letter then alphanumerics or `_`; no value has a newline, `;` or a leading space; this holds also for the partial table after an error |
| `ParserProperties.OpenHeader` | ini_parser.cpp:54-64 | `[` and name characters leave READ_SECT holding exactly that name |
| `ParserProperties.SectionHeader` | ini_parser.cpp:32-34 | `[name]` and a newline set the current section to `name` and change nothing else but the row |
| `ParserProperties.UnterminatedHeader` | ini_parser.cpp:62 | a header cut off by a newline throws "wrong section syntax" on its own row |
| `ParserProperties.KeyBeforeAnySection` | ini_parser.cpp:43 | a letter after only blank lines throws "no section for variable" with the 1-based row of that letter |
| `ParserProperties.ReadKey` | ini_parser.cpp:36-41 | a key under an open section is read into the key buffer in READ_VAR |
| `ParserProperties.KeyCutOffAtEnd` | ini_parser.cpp:66-82 | a key that the input ends inside is never stored: the table is as before |
| `ParserProperties.KeyThenSpace` | ini_parser.cpp:71-74 | a key followed by one space has already stored the placeholder `""` under that key, in END_VAR |
| `ParserProperties.KeyThenEquals` | ini_parser.cpp:66-74 | a key, optional spaces and `=` reach WAIT_VAL and store the empty placeholder |
| `ParserProperties.SpacesThenValue` | ini_parser.cpp:143-149 | leading spaces are skipped and the value buffer holds exactly the value; nothing is stored yet |
| `ParserProperties.KeyAndValue` | ini_parser.cpp:84-98 | `key = value` read up to its terminator: READ_VAL, the value in the buffer, the placeholder in the table |
| `ParserProperties.AssignmentLine` | ini_parser.cpp:184-186 | the terminating newline stores the value under the current section and key, replacing what was there |
| `ParserProperties.StoreOverwrites` | ini_parser.cpp:185 | a second store for the same section and key replaces the first |
| `ParserProperties.EmptyValueLine` | ini_parser.cpp:135-139 | `key =` with only spaces before the newline stores `""` |
| `ParserProperties.ValueThenComment` | ini_parser.cpp:90-92 | `;` ends the value with its trailing spaces kept, and the comment changes nothing |
| `ParserProperties.ValueCutOffAtEnd` | ini_parser.cpp:167 | when the input ends inside a value, the table holds the placeholder `""`, not the value |
| `ParserProperties.BareKeyRejected` | ini_parser.cpp:80 | a key alone on its line throws "wrong variable syntax" on that row |
| `ParserProperties.CommentLine` | ini_parser.cpp:29-30 | a comment line changes nothing but the row counter |
| `TableLookup.Less` | ini_parser.cpp:220 | the assumed key order of the table: a "less" pair is never equal, and a proper prefix comes first |
| `TableLookup.LessTotal` | ini_parser.cpp:220 | any two different keys are ordered one way or the other (with `LessIrreflexive` and `LessTransitive`: a strict total order) |
| `TableLookup.LeastExists` | ini_parser.cpp:220 | every non-empty key set has a first key in string order |
| `TableLookup.LeastUnique` | ini_parser.cpp:220 | that first key is unique |
| `TableLookup.SortedKeys` | ini_parser.cpp:220 | iterating a section lists each of its keys exactly once, in strictly ascending order |
| `TableLookup.JoinLines` | ini_parser.cpp:219-222 | the appended part of the message is empty exactly when there are no keys, and otherwise starts with `'\n'` followed by the first key |
| `TableLookup.NotFoundMessage` | ini_parser.cpp:218-223 | the "variable is not found" message starts with its fixed header, and is longer than it exactly when the section has keys |
| `TableLookup.BuildNotFoundMessage` | ini_parser.cpp:219-222 | the loop produces the header followed by `'\n' + key` for every key of the section, in key order |
| `TableLookup.LinesOfJoin` | ini_parser.cpp:219-222 | a message built that way splits at newlines back into the header and the keys |
| `TableLookup.SuggestionsListEveryKey` | ini_parser.cpp:218-224 | for a missing key in a present section the message's lines are the header, then every key of the section exactly once, ascending |
| `TableLookup.Lookup` | ini_parser.cpp:214-228 | the result is the stored value exactly when section and key are both present; otherwise it is a runtime error, and its text is "section is not found" exactly when the section is missing |
| `TableLookup.EmptyTableHasNoSection` | ini_parser.cpp:226-228 | with an empty table every lookup reports "section is not found" |
| `Scenarios.HeaderFirst` | ini_parser.cpp:32-34 | a header at the start of the input opens its section on row 2 |
| `Scenarios.LineRuns` | ini_parser.cpp:183-186 | a `key = value` line stores the value under the open section |
| `Scenarios.LastWriteWins` | ini_parser.cpp:185 | two lines for one key: the lookup gives the second value |
| `Scenarios.LastOccurrenceInFile` | ini_parser.cpp:184-186 | for a file with a header and then `k = v1` and `k = v2`, looking up `k` gives `v2` |
| `Scenarios.TwoLines` | ini_parser.cpp:183-186 | a header and two lines leave exactly the two stores in the table |
| `Scenarios.TwoKeysBothFound` | ini_parser.cpp:214-216 | two different keys are each found with their own value |
| `Scenarios.TrailingSpacesKept` | ini_parser.cpp:84-98 | for `k = v   ;c` the stored value is `v` plus its trailing spaces |
| `Scenarios.LastLineWithoutNewline` | ini_parser.cpp:178-180 | a last line without a newline is found with `""`, not with its value |
| `Scenarios.EmptyValueIsFound` | ini_parser.cpp:214-216 | `k =` is found with `""`: an empty value is not a missing key |
| `Scenarios.SectionWithoutKeysIsNotFound` | ini_parser.cpp:226-228 | a header without keys is reported as "section is not found" |
| `Scenarios.KeyOnSecondRowWithoutSection` | ini_parser.cpp:15-52 | a key on row 2 before any header throws with row 2, whatever follows it, and the full message is `"row 2: no section for variable"` |
| `Scenarios.SortedPair` | ini_parser.cpp:220 | two keys are listed smaller first |
| `Scenarios.PairSuggestions` | ini_parser.cpp:218-223 | the message for a missing key under two stored keys lists them in ascending order |
| `Scenarios.SuggestionsInKeyOrder` | ini_parser.cpp:218-223 | keys written `b` then `a` are suggested as `a` then `b` |
| `Scenarios.ErrorKeepsEarlierEntries` | ini_parser.cpp:207-210 | a syntax error on row 3 stops the pass, and the entry stored on row 2 stays in the table |
| `Clients.LookupAfterSyntaxError` | ini_parser.cpp:153-212 | the first lookup reports the syntax error; the second does not parse again and finds the key stored before the error |
| `Clients.LookupOnKeylessFile` | ini_parser.cpp:153-228 | a file with only a header keeps the table empty, so every lookup parses again and reports "section is not found" |

## Left out

- File input: opening the file, the "failed to open file" error, the stream iterator and `close`
  (ini_parser.cpp:155-160, 208, 211). The file's characters are the constant field `input`.
- `get_value<T>` with a `"Section.key"` name, `set_requirements`, `requiredSect/Var/Value` and
  `possibleVars` (ini_parser.h:22-27, 48-49). They are declared but not defined in the source, so
  there is no integer or floating-point conversion to model.
- main.cpp is not part of this model: it only calls the lookup and prints the result.
- The base-class message `std::exception("syntax error")` and `what()` returning a C string. The full
  message is a field of the error value instead.
- Exceptions: a thrown `parse_syntax_error` or `std::runtime_error` is an `Err` result. The model
  keeps the kind of error and its text.
- `itos` on negative numbers. Rows are `nat`, and the counter never goes below 1 while parsing. The
  constructor sets it to 0, but 0 is never reported.
- Character classes are ASCII predicates. Locale-dependent `isalpha`/`isalnum`/`isspace` and
  negative `char` values are not modelled.
- The type of the table. The source never declares `data` (`get_value_string` is missing from the
  class in ini_parser.h:18-50). The model assumes `std::map<std::string, std::map<std::string,
  std::string>>`. Its keys then iterate in ascending order by character code, which for the ASCII
  names the parser can store is the byte order of `std::string`. `TableLookup.Less`, `SortedKeys`,
  `BuildNotFoundMessage`, `SuggestionsListEveryKey` and `Scenarios.SuggestionsInKeyOrder` all rest
  on this assumption. With an unordered map, only the statement that every key is listed once would
  still hold.
- `rowsCount` is a C++ `int` (ini_parser.h:24), incremented without a bound (ini_parser.cpp:27, 86,
  102, 109, 137). The model counts rows with an unbounded `nat`, so it does not model the overflow
  after more than INT_MAX newlines.
