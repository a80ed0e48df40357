/**
 * The `ini_parser` object: its reading mode, row counter, the three buffers and the table are
 * fields; each handler is a method that updates them in place, `RunParse` is the driver loop,
 * and `GetValueString` parses lazily and answers one lookup.
 */
module IniParser {
  import opened Wrappers
  import opened SyntaxErrors
  import opened Transitions
  import opened RunFacts
  import opened TableLookup

  /** A handler's effect seen as a step: the error it threw, or the state it left and whether to store. */
  function AsStep(err: Option<SyntaxError>, emitted: bool, after: ParserState): StepResult {
    if err.Some? then Error(err.value) else Next(after, emitted)
  }

  class IniParser {
    /** The characters of the configuration file, in place of its name. */
    const input: seq<char>
    var readingMode: ReadingMode
    var rowsCount: nat
    var section: string
    var variable: string
    var value: string
    var data: Table

    /** The fields as one value, to compare with the transition functions. */
    function State(): ParserState
      reads this
    {
      ParserState(readingMode, rowsCount, section, variable, value, data)
    }

    constructor (input: seq<char>)
      ensures this.input == input
      ensures readingMode == NewLine && rowsCount == 0 && data == map[]
      ensures section == "" && variable == "" && value == ""
    {
      this.input := input;
      readingMode := NewLine;
      rowsCount := 0;
      section, variable, value := "", "", "";
      data := map[];
    }

    method HandleNewLine(symb: char) returns (err: Option<SyntaxError>)
      modifies this
      ensures AsStep(err, false, State()) == NewLineStep(old(State()), symb)
      ensures err.Some? ==> State() == old(State())
    {
      err := None;
      if symb == '\n' {
        rowsCount := rowsCount + 1;
      } else if symb == ';' {
        readingMode := Skip;
      } else if symb == '[' {
        readingMode := ReadSect;
        section := "";
      } else if IsAlpha(symb) {
        if |section| != 0 {
          readingMode := ReadVar;
          variable := "";
          variable := variable + [symb];
        } else {
          var e := NewSyntaxError(rowsCount, NoSectionForVariable);
          err := Some(e);
        }
      } else if IsSpace(symb) {
        return;
      } else {
        var e := NewSyntaxError(rowsCount, WrongSyntax);
        err := Some(e);
      }
    }

    method HandleReadSect(symb: char) returns (err: Option<SyntaxError>)
      modifies this
      ensures AsStep(err, false, State()) == ReadSectStep(old(State()), symb)
      ensures err.Some? ==> State() == old(State())
    {
      err := None;
      if symb == ']' {
        readingMode := EndSect;
      } else if IsAlnum(symb) || symb == '_' {
        section := section + [symb];
      } else {
        var e := NewSyntaxError(rowsCount, WrongSectionSyntax);
        err := Some(e);
      }
    }

    /** Reports `true` when the key is complete and the driver must store the empty placeholder. */
    method HandleReadVar(symb: char) returns (emitted: bool, err: Option<SyntaxError>)
      modifies this
      ensures AsStep(err, emitted, State()) == ReadVarStep(old(State()), symb)
      ensures err.Some? ==> State() == old(State())
    {
      err := None;
      if symb == '=' {
        readingMode := WaitVal;
        return true, err;
      } else if symb == ' ' {
        readingMode := EndVar;
        return true, err;
      } else if IsAlnum(symb) || symb == '_' {
        variable := variable + [symb];
        return false, err;
      } else {
        var e := NewSyntaxError(rowsCount, WrongVariableSyntax);
        return false, Some(e);
      }
    }

    /** Reports `true` when the value is complete and the driver must store it. */
    method HandleReadVal(symb: char) returns (emitted: bool)
      modifies this
      ensures Next(State(), emitted) == ReadValStep(old(State()), symb)
    {
      if symb == '\n' {
        rowsCount := rowsCount + 1;
        readingMode := NewLine;
        return true;
      } else if symb == ';' {
        readingMode := Skip;
        return true;
      } else {
        value := value + [symb];
        return false;
      }
    }

    method HandleSkip(symb: char)
      modifies this
      ensures Next(State(), false) == SkipStep(old(State()), symb)
    {
      if symb == '\n' {
        rowsCount := rowsCount + 1;
        readingMode := NewLine;
      }
    }

    method HandleEndSect(symb: char) returns (err: Option<SyntaxError>)
      modifies this
      ensures AsStep(err, false, State()) == EndSectStep(old(State()), symb)
      ensures err.Some? ==> State() == old(State())
    {
      err := None;
      if symb == '\n' {
        rowsCount := rowsCount + 1;
        readingMode := NewLine;
      } else if symb == ';' {
        readingMode := Skip;
      } else if IsSpace(symb) {
        return;
      } else {
        var e := NewSyntaxError(rowsCount, WrongSectionSyntax);
        err := Some(e);
      }
    }

    method HandleEndVar(symb: char) returns (err: Option<SyntaxError>)
      modifies this
      ensures AsStep(err, false, State()) == EndVarStep(old(State()), symb)
      ensures err.Some? ==> State() == old(State())
    {
      err := None;
      if symb == '=' {
        readingMode := WaitVal;
      } else if symb == ' ' {
        return;
      } else {
        var e := NewSyntaxError(rowsCount, WrongVariableSyntax);
        err := Some(e);
      }
    }

    method HandleWaitVal(symb: char)
      modifies this
      ensures Next(State(), false) == WaitValStep(old(State()), symb)
    {
      if symb == '\n' {
        rowsCount := rowsCount + 1;
        readingMode := NewLine;
      } else if symb == ';' {
        readingMode := Skip;
      } else if symb == ' ' {
        return;
      } else {
        readingMode := ReadVal;
        value := "";
        value := value + [symb];
      }
    }

    /** The driver: `data[section][var] = v`, creating the section's map if it is missing. */
    method StoreEntry(v: string)
      modifies this
      ensures State() == old(State()).(data := Store(old(data), section, variable, v))
    {
      var entries := if section in data then data[section] else map[];
      data := data[section := entries[variable := v]];
    }

    /** The body of the driver loop: the current mode's handler, then the store it asks for. */
    method Dispatch(symb: char) returns (err: Option<SyntaxError>)
      modifies this
      ensures Step(old(State()), symb).Error? ==>
        err == Some(Step(old(State()), symb).error) && State() == old(State())
      ensures Step(old(State()), symb).Next? ==>
        err == None && State() == Step(old(State()), symb).next
    {
      ghost var before := State();
      var emitted := false;
      err := None;
      match readingMode {
        case NewLine =>
          err := HandleNewLine(symb);
        case ReadSect =>
          err := HandleReadSect(symb);
        case ReadVar =>
          emitted, err := HandleReadVar(symb);
          if err.None? && emitted {
            StoreEntry("");
          }
        case ReadVal =>
          emitted := HandleReadVal(symb);
          if emitted {
            StoreEntry(value);
          }
        case Skip =>
          HandleSkip(symb);
        case EndSect =>
          err := HandleEndSect(symb);
        case EndVar =>
          err := HandleEndVar(symb);
        case WaitVal =>
          HandleWaitVal(symb);
      }
    }

    /**
     * One parse pass: reset the mode and the row counter, then feed every character to the
     * handler of the current mode. The first error ends the pass and leaves the fields as they
     * were before that character.
     */
    method RunParse() returns (err: Option<SyntaxError>)
      modifies this
      ensures State() == RunFrom(Start(old(data)), input).state
      ensures err == if RunFrom(Start(old(data)), input).Stopped? then Some(RunFrom(Start(old(data)), input).error) else None
    {
      readingMode := NewLine;
      rowsCount := 1;
      section, variable, value := "", "", "";
      ghost var start := State();
      err := None;
      var i := 0;
      while i < |input|
        invariant 0 <= i <= |input|
        invariant start == Start(old(data))
        invariant err == None
        invariant RunFrom(start, input[..i]) == Running(State())
      {
        var symb := input[i];
        err := Dispatch(symb);
        RunFromSnoc(start, input[..i], symb);
        assert input[..i + 1] == input[..i] + [symb];
        if err.Some? {
          RunFromStoppedPrefix(start, input, i + 1);
          return;
        }
        i := i + 1;
      }
      assert input[..i] == input;
    }

    /**
     * `get_value_string`: parse only while the table is empty, then return the stored string,
     * or report a missing section or a missing key.
     */
    method GetValueString(aSection: string, aVar: string) returns (r: Result<string, LookupError>)
      modifies this
      ensures old(data) != map[] ==> State() == old(State()) && r == Lookup(data, aSection, aVar)
      ensures old(data) == map[] ==> State() == Parse(input).state
      ensures old(data) == map[] && Parse(input).Stopped? ==> r == Err(Syntax(Parse(input).error))
      ensures old(data) == map[] && Parse(input).Running? ==> r == Lookup(Parse(input).state.data, aSection, aVar)
    {
      if data == map[] {
        var err := RunParse();
        if err.Some? {
          return Err(Syntax(err.value));
        }
      }
      if aSection in data {
        if aVar in data[aSection] {
          return Ok(data[aSection][aVar]);
        } else {
          var error := BuildNotFoundMessage(data[aSection]);
          return Err(RuntimeError(error));
        }
      } else {
        return Err(RuntimeError(SectionNotFound));
      }
    }
  }
}
