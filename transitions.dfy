/**
 * The parser's finite-state machine as pure functions: one function per handler of
 * `ini_parser`, the driver's dispatch of one character (including its two table writes),
 * and the fold of the driver over an input.
 */
module Transitions {
  import opened SyntaxErrors
  import Decimal

  /** `ReadingMode`: the eight states of the machine. */
  datatype ReadingMode = NewLine | ReadSect | ReadVar | ReadVal | Skip | EndSect | EndVar | WaitVal

  /** The table: section name, then key name, to value. */
  type Table = map<string, map<string, string>>

  /** Everything a parse pass changes: mode, row counter, the three buffers and the table. */
  datatype ParserState = ParserState(
    mode: ReadingMode,
    rows: nat,
    section: string,
    key: string,
    value: string,
    data: Table)

  const NoSectionForVariable := "no section for variable"
  const WrongSyntax := "wrong syntax"
  const WrongSectionSyntax := "wrong section syntax"
  const WrongVariableSyntax := "wrong variable syntax"

  // Character classes, as the C library classifies ASCII.

  predicate IsAlpha(c: char) {
    'A' <= c <= 'Z' || 'a' <= c <= 'z'
  }

  predicate IsAlnum(c: char) {
    IsAlpha(c) || Decimal.IsDigit(c)
  }

  /** `isspace`: space, tab, newline, vertical tab, form feed and carriage return. */
  predicate IsSpace(c: char) {
    c == ' ' || c == '\t' || c == '\n' || c == '\U{B}' || c == '\U{C}' || c == '\r'
  }

  /** A character allowed inside a section name or after the first letter of a key. */
  predicate IsNameChar(c: char) {
    IsAlnum(c) || c == '_'
  }

  /** What one handler does with one character: the next state and whether the driver must store, or an error. */
  datatype StepResult = Next(next: ParserState, emitted: bool) | Error(error: SyntaxError)

  /** `new_line`: the start of a line. */
  function NewLineStep(st: ParserState, c: char): (r: StepResult)
    ensures r.Error? <==> (IsAlpha(c) && st.section == "") || !(IsAlpha(c) || IsSpace(c) || c == ';' || c == '[')
    ensures r.Error? ==> r.error.row == st.rows
    ensures r.Next? ==> !r.emitted && r.next.data == st.data && r.next.value == st.value
    ensures r.Next? ==> r.next.rows == st.rows + (if c == '\n' then 1 else 0)
  {
    if c == '\n' then Next(st.(rows := st.rows + 1), false)
    else if c == ';' then Next(st.(mode := Skip), false)
    else if c == '[' then Next(st.(mode := ReadSect, section := ""), false)
    else if IsAlpha(c) then
      if |st.section| != 0 then Next(st.(mode := ReadVar, key := [c]), false)
      else Error(SyntaxErrorAt(st.rows, NoSectionForVariable))
    else if IsSpace(c) then Next(st, false)
    else Error(SyntaxErrorAt(st.rows, WrongSyntax))
  }

  /** `read_sect`: inside `[...]`. */
  function ReadSectStep(st: ParserState, c: char): (r: StepResult)
    ensures r.Error? <==> !IsNameChar(c) && c != ']'
    ensures r.Error? ==> r.error == SyntaxErrorAt(st.rows, WrongSectionSyntax)
    ensures r.Next? ==> !r.emitted && r.next.data == st.data && r.next.rows == st.rows && r.next.key == st.key
  {
    if c == ']' then Next(st.(mode := EndSect), false)
    else if IsNameChar(c) then Next(st.(section := st.section + [c]), false)
    else Error(SyntaxErrorAt(st.rows, WrongSectionSyntax))
  }

  /** `read_var`: inside a key; the result says whether the key has ended and must be stored. */
  function ReadVarStep(st: ParserState, c: char): (r: StepResult)
    ensures r.Error? <==> !IsNameChar(c) && c != ' ' && c != '='
    ensures r.Error? ==> r.error == SyntaxErrorAt(st.rows, WrongVariableSyntax)
    ensures r.Next? ==> (r.emitted <==> c == ' ' || c == '=')
    ensures r.Next? ==> r.next.data == st.data && r.next.rows == st.rows && r.next.section == st.section
    ensures r.Next? && r.emitted ==> r.next.key == st.key
  {
    if c == '=' then Next(st.(mode := WaitVal), true)
    else if c == ' ' then Next(st.(mode := EndVar), true)
    else if IsNameChar(c) then Next(st.(key := st.key + [c]), false)
    else Error(SyntaxErrorAt(st.rows, WrongVariableSyntax))
  }

  /** `read_val`: inside a value; the result says whether the value has ended and must be stored. */
  function ReadValStep(st: ParserState, c: char): (r: StepResult)
    ensures r.Next? && (r.emitted <==> c == '\n' || c == ';')
    ensures r.next.data == st.data && r.next.section == st.section && r.next.key == st.key
    ensures r.next.rows == st.rows + (if c == '\n' then 1 else 0)
    ensures r.emitted ==> r.next.value == st.value
  {
    if c == '\n' then Next(st.(rows := st.rows + 1, mode := NewLine), true)
    else if c == ';' then Next(st.(mode := Skip), true)
    else Next(st.(value := st.value + [c]), false)
  }

  /** `skip`: inside a comment. */
  function SkipStep(st: ParserState, c: char): (r: StepResult)
    ensures r.Next? && !r.emitted
    ensures r.next == (if c == '\n' then st.(rows := st.rows + 1, mode := NewLine) else st)
  {
    if c == '\n' then Next(st.(rows := st.rows + 1, mode := NewLine), false)
    else Next(st, false)
  }

  /** `end_sect`: after `]`. */
  function EndSectStep(st: ParserState, c: char): (r: StepResult)
    ensures r.Error? <==> !IsSpace(c) && c != ';'
    ensures r.Error? ==> r.error == SyntaxErrorAt(st.rows, WrongSectionSyntax)
    ensures r.Next? ==> !r.emitted && r.next.data == st.data && r.next.section == st.section
    ensures r.Next? ==> r.next.rows == st.rows + (if c == '\n' then 1 else 0)
  {
    if c == '\n' then Next(st.(rows := st.rows + 1, mode := NewLine), false)
    else if c == ';' then Next(st.(mode := Skip), false)
    else if IsSpace(c) then Next(st, false)
    else Error(SyntaxErrorAt(st.rows, WrongSectionSyntax))
  }

  /** `end_var`: between a key and `=`. */
  function EndVarStep(st: ParserState, c: char): (r: StepResult)
    ensures r.Error? <==> c != ' ' && c != '='
    ensures r.Error? ==> r.error == SyntaxErrorAt(st.rows, WrongVariableSyntax)
    ensures r.Next? ==> !r.emitted && r.next.data == st.data && r.next.rows == st.rows && r.next.key == st.key
  {
    if c == '=' then Next(st.(mode := WaitVal), false)
    else if c == ' ' then Next(st, false)
    else Error(SyntaxErrorAt(st.rows, WrongVariableSyntax))
  }

  /** `wait_val`: after `=`, before the value. */
  function WaitValStep(st: ParserState, c: char): (r: StepResult)
    ensures r.Next? && !r.emitted
    ensures r.next.data == st.data && r.next.section == st.section && r.next.key == st.key
    ensures r.next.rows == st.rows + (if c == '\n' then 1 else 0)
    ensures c != '\n' && c != ';' && c != ' ' ==> r.next.mode == ReadVal && r.next.value == [c]
  {
    if c == '\n' then Next(st.(rows := st.rows + 1, mode := NewLine), false)
    else if c == ';' then Next(st.(mode := Skip), false)
    else if c == ' ' then Next(st, false)
    else Next(st.(mode := ReadVal, value := [c]), false)
  }

  /** `data[section][key] = value`, creating the section's entry when it is missing. */
  function Store(d: Table, section: string, key: string, value: string): (r: Table)
    ensures section in r && key in r[section] && r[section][key] == value
    ensures r.Keys == d.Keys + {section}
    ensures forall s :: s in d && s != section ==> r[s] == d[s]
    ensures section in d ==> r[section].Keys == d[section].Keys + {key}
    ensures section in d ==> forall k :: k in d[section] && k != key ==> r[section][k] == d[section][k]
    ensures section !in d ==> r[section] == map[key := value]
  {
    d[section := (if section in d then d[section] else map[])[key := value]]
  }

  /** The driver's loop body: dispatch on the mode, and store when `read_var` or `read_val` reports it. */
  function Step(st: ParserState, c: char): (r: StepResult)
    ensures r.Error? ==> r.error.row == st.rows
    ensures r.Next? ==> r.next.rows >= st.rows
    ensures r.Next? && r.emitted ==> (st.mode == ReadVar || st.mode == ReadVal)
    ensures r.Next? ==>
      r.next.data == (if r.emitted then Store(st.data, st.section, st.key, if st.mode == ReadVal then st.value else "") else st.data)
  {
    match st.mode
    case NewLine => NewLineStep(st, c)
    case ReadSect => ReadSectStep(st, c)
    case ReadVar =>
      var r := ReadVarStep(st, c);
      if r.Next? && r.emitted then Next(r.next.(data := Store(r.next.data, r.next.section, r.next.key, "")), true)
      else r
    case ReadVal =>
      var r := ReadValStep(st, c);
      if r.Next? && r.emitted then Next(r.next.(data := Store(r.next.data, r.next.section, r.next.key, r.next.value)), true)
      else r
    case Skip => SkipStep(st, c)
    case EndSect => EndSectStep(st, c)
    case EndVar => EndVarStep(st, c)
    case WaitVal => WaitValStep(st, c)
  }

  /** The result of feeding a sequence of characters: still running, or stopped by the error of character `at`. */
  datatype Outcome = Running(state: ParserState) | Stopped(error: SyntaxError, state: ParserState, at: nat)

  /** The driver loop applied to `input` from `start`, one character at a time; an error ends it. */
  function RunFrom(start: ParserState, input: seq<char>): (r: Outcome)
    ensures r.state.rows >= start.rows
    ensures r.Stopped? ==> r.at < |input| && r.error.row == r.state.rows
    decreases |input|
  {
    if input == [] then Running(start)
    else
      match RunFrom(start, input[..|input| - 1])
      case Stopped(e, st, at) => Stopped(e, st, at)
      case Running(st) =>
        match Step(st, input[|input| - 1])
        case Error(e) => Stopped(e, st, |input| - 1)
        case Next(st', _) => Running(st')
  }

  /** The state a parse pass starts from: NEW_LINE, row 1, empty buffers, and the table as it is. */
  function Start(d: Table): ParserState {
    ParserState(NewLine, 1, "", "", "", d)
  }

  /** One parse pass over `input`, starting from an empty table. */
  function Parse(input: seq<char>): (r: Outcome)
    ensures r.state.rows >= 1
    ensures r.Stopped? ==> r.at < |input| && r.error.row >= 1
  {
    RunFrom(Start(map[]), input)
  }
}
