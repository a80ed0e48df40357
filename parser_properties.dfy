/**
 * What the state machine guarantees: row bookkeeping, the shape of every name and value it
 * stores, exactly when it raises which error, and how a line of input changes the table.
 */
module ParserProperties {
  import opened Wrappers
  import opened SyntaxErrors
  import opened Transitions
  import opened RunFacts

  // ---------------------------------------------------------------- row counting

  /** A handler counts a character as a row exactly when it is a newline, and an accepted newline ends in NEW_LINE. */
  lemma {:induction false} StepRows(st: ParserState, c: char)
    ensures Step(st, c).Next? ==> Step(st, c).next.rows == st.rows + (if c == '\n' then 1 else 0)
    ensures Step(st, c).Next? && c == '\n' ==> Step(st, c).next.mode == NewLine
    ensures Step(st, c).Error? ==> Step(st, c).error.row == st.rows
  {
  }

  /** A newline is rejected exactly inside a section header, a key, or after a key. */
  lemma {:induction false} NewlineRejectedExactly(st: ParserState)
    ensures Step(st, '\n').Error? <==> st.mode == ReadSect || st.mode == ReadVar || st.mode == EndVar
  {
  }

  /**
   * While no error has occurred the row counter is the starting row plus the newlines read;
   * an error is raised by some character `at`, after a prefix that ran cleanly, and carries the
   * row that character is on.
   */
  lemma {:induction false} RunRows(start: ParserState, s: seq<char>)
    ensures RunFrom(start, s).Running? ==> RunFrom(start, s).state.rows == start.rows + CountNewlines(s)
    ensures RunFrom(start, s).Stopped? ==>
      var Stopped(e, st, at) := RunFrom(start, s);
      at < |s| &&
      RunFrom(start, s[..at]) == Running(st) &&
      Step(st, s[at]) == Error(e) &&
      e.row == st.rows == start.rows + CountNewlines(s[..at])
    decreases |s|
  {
    if s != [] {
      var s' := s[..|s| - 1];
      RunRows(start, s');
      if RunFrom(start, s').Running? {
        StepRows(RunFrom(start, s').state, s[|s| - 1]);
        assert s[..|s| - 1] == s';
      } else {
        var at := RunFrom(start, s').at;
        assert s'[..at] == s[..at];
        assert s'[at] == s[at];
      }
    }
  }

  /** A parse pass numbers rows from 1: the error of character `at` reports 1 + the newlines before it. */
  lemma {:induction false} ParseRows(s: seq<char>)
    ensures Parse(s).Running? ==> Parse(s).state.rows == 1 + CountNewlines(s)
    ensures Parse(s).Stopped? ==>
      Parse(s).at < |s| && Parse(s).error.row == 1 + CountNewlines(s[..Parse(s).at])
  {
    RunRows(Start(map[]), s);
  }

  // ---------------------------------------------------------------- the error table

  /** The error each mode raises on each character class, written out by error rather than by handler. */
  function ExpectedError(st: ParserState, c: char): Option<string> {
    if st.mode == NewLine && IsAlpha(c) && st.section == "" then Some(NoSectionForVariable)
    else if st.mode == NewLine && !IsAlpha(c) && !IsSpace(c) && c != ';' && c != '[' then Some(WrongSyntax)
    else if st.mode == ReadSect && !IsNameChar(c) && c != ']' then Some(WrongSectionSyntax)
    else if st.mode == EndSect && !IsSpace(c) && c != ';' then Some(WrongSectionSyntax)
    else if st.mode == ReadVar && !IsNameChar(c) && c != ' ' && c != '=' then Some(WrongVariableSyntax)
    else if st.mode == EndVar && c != ' ' && c != '=' then Some(WrongVariableSyntax)
    else None
  }

  /** Step raises an error exactly where the table says, with that message and the current row; otherwise it leaves the state alone. */
  lemma {:induction false} StepErrorsExactly(st: ParserState, c: char)
    ensures Step(st, c).Error? <==> ExpectedError(st, c).Some?
    ensures Step(st, c).Error? ==> Step(st, c).error == SyntaxErrorAt(st.rows, ExpectedError(st, c).value)
  {
  }

  /** SKIP never raises an error and leaves only on a newline, back to NEW_LINE; nothing else changes but the row. */
  lemma {:induction false} SkipStepIgnores(st: ParserState, c: char)
    requires st.mode == Skip
    ensures Step(st, c).Next? && !Step(st, c).emitted
    ensures Step(st, c).next == if c == '\n' then st.(mode := NewLine, rows := st.rows + 1) else st
  {
  }

  /** `;` opens a comment in NEW_LINE, END_SECT, WAIT_VAL and READ_VAL, and nowhere else. */
  lemma {:induction false} SemicolonStartsComment(st: ParserState)
    ensures (Step(st, ';').Next? && Step(st, ';').next.mode == Skip) <==>
      st.mode in {NewLine, EndSect, WaitVal, ReadVal, Skip}
  {
  }

  // ---------------------------------------------------------------- invariants of a parse pass

  /** A section name: alphanumerics and underscores (possibly none, as `[]` allows). */
  predicate IsSectionName(s: string) {
    forall i :: 0 <= i < |s| ==> IsNameChar(s[i])
  }

  /** A key: one letter, then alphanumerics and underscores. */
  predicate IsKeyName(k: string) {
    |k| >= 1 && IsAlpha(k[0]) && forall i :: 1 <= i < |k| ==> IsNameChar(k[i])
  }

  /** A stored value: no newline or `;`, and no leading space. */
  predicate IsStoredValue(v: string) {
    (forall i :: 0 <= i < |v| ==> v[i] != '\n' && v[i] != ';') &&
    (|v| > 0 ==> v[0] != ' ')
  }

  /** Every section in the table is a non-empty name with at least one key; keys and values are well formed. */
  predicate WellFormedTable(d: Table) {
    forall s :: s in d ==>
      s != "" && IsSectionName(s) && d[s] != map[] &&
      forall k :: k in d[s] ==> IsKeyName(k) && IsStoredValue(d[s][k])
  }

  /** The key modes: a key has been started under an open section. */
  predicate InKey(mode: ReadingMode) {
    mode == ReadVar || mode == EndVar || mode == WaitVal || mode == ReadVal
  }

  ghost predicate Inv(st: ParserState) {
    st.rows >= 1 &&
    IsSectionName(st.section) &&
    (InKey(st.mode) ==> st.section != "" && IsKeyName(st.key)) &&
    (st.mode == ReadVal ==> st.value != "" && IsStoredValue(st.value)) &&
    WellFormedTable(st.data)
  }

  lemma {:induction false} StorePreservesWellFormed(d: Table, s: string, k: string, v: string)
    requires WellFormedTable(d)
    requires s != "" && IsSectionName(s) && IsKeyName(k) && IsStoredValue(v)
    ensures WellFormedTable(Store(d, s, k, v))
  {
    var r := Store(d, s, k, v);
    forall s' | s' in r
      ensures s' != "" && IsSectionName(s') && r[s'] != map[]
      ensures forall k' :: k' in r[s'] ==> IsKeyName(k') && IsStoredValue(r[s'][k'])
    {
      if s' == s {
        assert k in r[s];
      }
    }
  }

  /** Every handler, with the driver's stores, keeps the invariant. */
  lemma {:induction false} StepPreservesInv(st: ParserState, c: char)
    requires Inv(st)
    requires Step(st, c).Next?
    ensures Inv(Step(st, c).next)
  {
    var n := Step(st, c).next;
    match st.mode
    case NewLine =>
    case ReadSect =>
      if IsNameChar(c) {
        assert n.section == st.section + [c];
      }
    case ReadVar =>
      if c == '=' || c == ' ' {
        StorePreservesWellFormed(st.data, st.section, st.key, "");
      } else {
        assert n.key == st.key + [c];
      }
    case ReadVal =>
      if c == '\n' || c == ';' {
        StorePreservesWellFormed(st.data, st.section, st.key, st.value);
      } else {
        assert n.value == st.value + [c];
      }
    case Skip =>
    case EndSect =>
    case EndVar =>
    case WaitVal =>
  }

  /** The invariant holds after every prefix, and in the state an error leaves behind. */
  lemma {:induction false} RunPreservesInv(start: ParserState, s: seq<char>)
    requires Inv(start)
    ensures Inv(RunFrom(start, s).state)
    decreases |s|
  {
    if s != [] {
      var s' := s[..|s| - 1];
      RunPreservesInv(start, s');
      var o := RunFrom(start, s');
      if o.Running? && Step(o.state, s[|s| - 1]).Next? {
        StepPreservesInv(o.state, s[|s| - 1]);
      }
    }
  }

  /**
   * Whatever a parse pass leaves in the table, finished or stopped by an error, has only
   * non-empty section names of alphanumerics and `_`, keys that start with a letter, and values
   * without newline, `;` or a leading space.
   */
  lemma {:induction false} ParseTableWellFormed(s: seq<char>)
    ensures WellFormedTable(Parse(s).state.data)
    ensures Parse(s).Running? ==> Inv(Parse(s).state)
  {
    RunPreservesInv(Start(map[]), s);
  }

  // ---------------------------------------------------------------- lines of input

  predicate AllSpaces(t: string) {
    forall i :: 0 <= i < |t| ==> t[i] == ' '
  }

  predicate NoNewline(t: string) {
    forall i :: 0 <= i < |t| ==> t[i] != '\n'
  }

  /** A header `[name]` and a newline open section `name`; the table is unchanged. */
  lemma {:induction false} SectionHeader(st: ParserState, name: string)
    requires st.mode == NewLine && IsSectionName(name)
    ensures RunFrom(st, "[" + name + "]\n") == Running(st.(section := name, rows := st.rows + 1))
  {
    var s1 := st.(mode := ReadSect, section := "");
    OpenHeader(st, name);
    var s2 := s1.(section := name);
    var s3 := s2.(mode := EndSect);
    assert Step(s2, ']').next == s3;
    RunFromNext(st, "[" + name, ']', s2, s3);
    assert Step(s3, '\n').next == st.(section := name, rows := st.rows + 1);
    RunFromNext(st, "[" + name + "]", '\n', s3, st.(section := name, rows := st.rows + 1));
    assert "[" + name + "]\n" == "[" + name + "]" + ['\n'];
  }

  /** `[` and the characters of a name leave READ_SECT holding that name. */
  lemma {:induction false} OpenHeader(st: ParserState, name: string)
    requires st.mode == NewLine && IsSectionName(name)
    ensures RunFrom(st, "[" + name) == Running(st.(mode := ReadSect, section := name))
  {
    var s1 := st.(mode := ReadSect, section := "");
    assert Step(st, '[').next == s1;
    RunFromNext(st, [], '[', st, s1);
    assert [] + ['['] == "[";
    RunAbsorbs(s1, name);
    RunFromAppend(st, "[", name);
    assert "" + name == name;
  }

  /** A header cut off by the end of its line is rejected on that line. */
  lemma {:induction false} UnterminatedHeader(st: ParserState, name: string)
    requires st.mode == NewLine && IsSectionName(name)
    ensures RunFrom(st, "[" + name + ['\n']) ==
      Stopped(SyntaxErrorAt(st.rows, WrongSectionSyntax), st.(mode := ReadSect, section := name), |name| + 1)
  {
    OpenHeader(st, name);
    var s2 := st.(mode := ReadSect, section := name);
    assert Step(s2, '\n') == Error(SyntaxErrorAt(st.rows, WrongSectionSyntax));
    RunFromError(st, "[" + name, '\n', s2, SyntaxErrorAt(st.rows, WrongSectionSyntax));
  }

  /** A key outside every section: after blank lines only, its first letter stops the pass with the row it is on. */
  lemma {:induction false} KeyBeforeAnySection(blank: string, c: char)
    requires forall i :: 0 <= i < |blank| ==> IsSpace(blank[i])
    requires IsAlpha(c)
    ensures Parse(blank + [c]) ==
      Stopped(SyntaxErrorAt(1 + CountNewlines(blank), NoSectionForVariable),
              Start(map[]).(rows := 1 + CountNewlines(blank)), |blank|)
  {
    var st := Start(map[]).(rows := 1 + CountNewlines(blank));
    assert AllAbsorbed(NewLine, blank);
    RunAbsorbs(Start(map[]), blank);
    assert Step(st, c) == Error(SyntaxErrorAt(st.rows, NoSectionForVariable));
    RunFromError(Start(map[]), blank, c, st, SyntaxErrorAt(st.rows, NoSectionForVariable));
  }

  /** The letters of a key at line start, under an open section, leave READ_VAR holding the key. */
  lemma {:induction false} ReadKey(st: ParserState, k: string)
    requires st.mode == NewLine && st.section != "" && IsKeyName(k)
    ensures RunFrom(st, k) == Running(st.(mode := ReadVar, key := k))
  {
    var s1 := st.(mode := ReadVar, key := [k[0]]);
    assert Step(st, k[0]).next == s1;
    RunFromNext(st, [], k[0], st, s1);
    assert [] + [k[0]] == [k[0]];
    assert AllAbsorbed(ReadVar, k[1..]);
    RunAbsorbs(s1, k[1..]);
    RunFromAppend(st, [k[0]], k[1..]);
    assert [k[0]] + k[1..] == k;
  }

  /** Reading a key and `=`, with optional spaces between, leaves WAIT_VAL and stores the empty placeholder. */
  lemma {:induction false} KeyThenEquals(st: ParserState, k: string, sp: string)
    requires st.mode == NewLine && st.section != ""
    requires IsKeyName(k) && AllSpaces(sp)
    ensures RunFrom(st, k + sp + "=") ==
      Running(st.(mode := WaitVal, key := k, data := Store(st.data, st.section, k, "")))
  {
    ReadKey(st, k);
    var s2 := st.(mode := ReadVar, key := k);
    var stored := Store(st.data, st.section, k, "");
    var goal := st.(mode := WaitVal, key := k, data := stored);
    if sp == [] {
      assert Step(s2, '=').next == goal;
      RunFromNext(st, k, '=', s2, goal);
      assert k + sp + "=" == k + ['='];
    } else {
      var s3 := s2.(mode := EndVar, data := stored);
      assert Step(s2, ' ').next == s3;
      RunFromNext(st, k, ' ', s2, s3);
      assert AllAbsorbed(EndVar, sp[1..]);
      RunAbsorbs(s3, sp[1..]);
      RunFromAppend(st, k + [' '], sp[1..]);
      assert k + [' '] + sp[1..] == k + sp;
      assert Step(s3, '=').next == goal;
      RunFromNext(st, k + sp, '=', s3, goal);
      assert k + sp + "=" == k + sp + ['='];
    }
  }

  /** In WAIT_VAL, spaces then the first character of a value start READ_VAL with that character. */
  lemma {:induction false} SpacesThenFirst(st: ParserState, sp: string, c: char)
    requires st.mode == WaitVal && AllSpaces(sp)
    requires c != ' ' && c != '\n' && c != ';'
    ensures RunFrom(st, sp + [c]) == Running(st.(mode := ReadVal, value := [c]))
  {
    assert AllAbsorbed(WaitVal, sp);
    RunAbsorbs(st, sp);
    assert Absorbed(st, sp) == st;
    var s1 := st.(mode := ReadVal, value := [c]);
    assert Step(st, c).next == s1;
    RunFromNext(st, sp, c, st, s1);
  }

  /** In WAIT_VAL, spaces then a value leave READ_VAL holding exactly that value; nothing is stored yet. */
  lemma {:induction false} SpacesThenValue(st: ParserState, sp: string, v: string)
    requires st.mode == WaitVal && AllSpaces(sp)
    requires v != "" && IsStoredValue(v)
    ensures RunFrom(st, sp + v) == Running(st.(mode := ReadVal, value := v))
  {
    StoredValueParts(v);
    SpacesThenChars(st, sp, v[0], v[1..]);
    assert sp + [v[0]] + v[1..] == sp + v;
  }

  /** The same for a value given as its first character and the rest. */
  lemma {:induction false} SpacesThenChars(st: ParserState, sp: string, c: char, t: string)
    requires st.mode == WaitVal && AllSpaces(sp)
    requires c != ' ' && c != '\n' && c != ';'
    requires AllAbsorbed(ReadVal, t)
    ensures RunFrom(st, sp + [c] + t) == Running(st.(mode := ReadVal, value := [c] + t))
  {
    var s1 := st.(mode := ReadVal, value := [c]);
    SpacesThenFirst(st, sp, c);
    RunAbsorbs(s1, t);
    RunFromChain(st, sp + [c], t, s1, st.(mode := ReadVal, value := [c] + t));
  }

  /** A stored value is a first character that starts READ_VAL, then characters READ_VAL absorbs. */
  lemma {:induction false} StoredValueParts(v: string)
    requires v != "" && IsStoredValue(v)
    ensures v[0] != ' ' && v[0] != '\n' && v[0] != ';'
    ensures AllAbsorbed(ReadVal, v[1..])
    ensures [v[0]] + v[1..] == v
  {
    assert forall i :: 0 <= i < |v| - 1 ==> v[1..][i] == v[i + 1];
  }

  /** `key = value` read up to just before its terminator: READ_VAL holds the value, the placeholder is stored. */
  lemma {:induction false} KeyAndValue(st: ParserState, k: string, sp1: string, sp2: string, v: string)
    requires st.mode == NewLine && st.section != ""
    requires IsKeyName(k) && AllSpaces(sp1) && AllSpaces(sp2)
    requires v != "" && IsStoredValue(v)
    ensures RunFrom(st, k + sp1 + "=" + sp2 + v) ==
      Running(st.(mode := ReadVal, key := k, value := v, data := Store(st.data, st.section, k, "")))
  {
    KeyThenEquals(st, k, sp1);
    var s1 := st.(mode := WaitVal, key := k, data := Store(st.data, st.section, k, ""));
    SpacesThenValue(s1, sp2, v);
    RunFromChain(st, k + sp1 + "=", sp2 + v, s1,
      st.(mode := ReadVal, key := k, value := v, data := Store(st.data, st.section, k, "")));
    assert k + sp1 + "=" + (sp2 + v) == k + sp1 + "=" + sp2 + v;
  }

  /** A key and one space: the key has ended, so the placeholder `""` is already stored under it. */
  lemma {:induction false} KeyThenSpace(st: ParserState, k: string)
    requires st.mode == NewLine && st.section != "" && IsKeyName(k)
    ensures RunFrom(st, k + " ") ==
      Running(st.(mode := EndVar, key := k, data := Store(st.data, st.section, k, "")))
  {
    ReadKey(st, k);
    var s2 := st.(mode := ReadVar, key := k);
    var s3 := st.(mode := EndVar, key := k, data := Store(st.data, st.section, k, ""));
    assert Step(s2, ' ').next == s3;
    RunFromNext(st, k, ' ', s2, s3);
    assert k + " " == k + [' '];
  }

  /** A key that the input ends inside is never stored: the table is as before. */
  lemma {:induction false} KeyCutOffAtEnd(st: ParserState, k: string)
    requires st.mode == NewLine && st.section != "" && IsKeyName(k)
    ensures RunFrom(st, k).Running? && RunFrom(st, k).state.data == st.data
  {
    ReadKey(st, k);
  }

  /** A whole assignment line: `key = value` and a newline store `value` under the open section, last write wins. */
  lemma {:induction false} AssignmentLine(st: ParserState, k: string, sp1: string, sp2: string, v: string)
    requires st.mode == NewLine && st.section != ""
    requires IsKeyName(k) && AllSpaces(sp1) && AllSpaces(sp2)
    requires v != "" && IsStoredValue(v)
    ensures RunFrom(st, k + sp1 + "=" + sp2 + v + "\n") ==
      Running(st.(rows := st.rows + 1, key := k, value := v, data := Store(st.data, st.section, k, v)))
  {
    KeyAndValue(st, k, sp1, sp2, v);
    var s1 := st.(mode := ReadVal, key := k, value := v, data := Store(st.data, st.section, k, ""));
    StoreOverwrites(st.data, st.section, k, "", v);
    var goal := st.(rows := st.rows + 1, key := k, value := v, data := Store(st.data, st.section, k, v));
    assert Step(s1, '\n').next == goal;
    RunFromNext(st, k + sp1 + "=" + sp2 + v, '\n', s1, goal);
    assert k + sp1 + "=" + sp2 + v + "\n" == k + sp1 + "=" + sp2 + v + ['\n'];
  }

  /** Storing twice under the same section and key keeps only the second value. */
  lemma {:induction false} StoreOverwrites(d: Table, s: string, k: string, v1: string, v2: string)
    ensures Store(Store(d, s, k, v1), s, k, v2) == Store(d, s, k, v2)
  {
    var inner := if s in d then d[s] else map[];
    assert inner[k := v1][k := v2] == inner[k := v2];
  }

  /** `key =` with nothing after it but spaces stores the empty string. */
  lemma {:induction false} EmptyValueLine(st: ParserState, k: string, sp1: string, sp2: string)
    requires st.mode == NewLine && st.section != ""
    requires IsKeyName(k) && AllSpaces(sp1) && AllSpaces(sp2)
    ensures RunFrom(st, k + sp1 + "=" + sp2 + "\n") ==
      Running(st.(rows := st.rows + 1, key := k, data := Store(st.data, st.section, k, "")))
  {
    KeyThenEquals(st, k, sp1);
    var s1 := st.(mode := WaitVal, key := k, data := Store(st.data, st.section, k, ""));
    assert AllAbsorbed(WaitVal, sp2);
    RunAbsorbs(s1, sp2);
    RunFromAppend(st, k + sp1 + "=", sp2);
    var goal := st.(rows := st.rows + 1, key := k, data := Store(st.data, st.section, k, ""));
    assert Step(s1, '\n').next == goal;
    RunFromNext(st, k + sp1 + "=" + sp2, '\n', s1, goal);
    assert k + sp1 + "=" + sp2 + "\n" == k + sp1 + "=" + sp2 + ['\n'];
  }

  /** A value ended by `;` is stored with every character before the `;`, trailing spaces included; the comment changes nothing. */
  lemma {:induction false} ValueThenComment(st: ParserState, k: string, sp1: string, sp2: string, v: string, comment: string)
    requires st.mode == NewLine && st.section != ""
    requires IsKeyName(k) && AllSpaces(sp1) && AllSpaces(sp2)
    requires v != "" && IsStoredValue(v)
    requires NoNewline(comment)
    ensures RunFrom(st, k + sp1 + "=" + sp2 + v + ";" + comment) ==
      Running(st.(mode := Skip, key := k, value := v, data := Store(st.data, st.section, k, v)))
  {
    var line := k + sp1 + "=" + sp2 + v;
    KeyAndValue(st, k, sp1, sp2, v);
    var s1 := st.(mode := ReadVal, key := k, value := v, data := Store(st.data, st.section, k, ""));
    StoreOverwrites(st.data, st.section, k, "", v);
    var s2 := st.(mode := Skip, key := k, value := v, data := Store(st.data, st.section, k, v));
    assert Step(s1, ';').next == s2;
    RunFromNext(st, line, ';', s1, s2);
    assert AllAbsorbed(Skip, comment);
    RunAbsorbs(s2, comment);
    RunFromAppend(st, line + [';'], comment);
    assert line + [';'] + comment == k + sp1 + "=" + sp2 + v + ";" + comment;
  }

  /** A value still being read when the input ends is never stored: the placeholder written at `=` stays. */
  lemma {:induction false} ValueCutOffAtEnd(st: ParserState, k: string, sp1: string, sp2: string, v: string)
    requires st.mode == NewLine && st.section != ""
    requires IsKeyName(k) && AllSpaces(sp1) && AllSpaces(sp2)
    requires v != "" && IsStoredValue(v)
    ensures RunFrom(st, k + sp1 + "=" + sp2 + v).state.data == Store(st.data, st.section, k, "")
    ensures st.section in st.data && k in st.data[st.section] ==>
      RunFrom(st, k + sp1 + "=" + sp2 + v).state.data[st.section][k] == ""
  {
    KeyAndValue(st, k, sp1, sp2, v);
  }

  /** A key alone on its line is a syntax error on that line: the newline is not allowed after a key. */
  lemma {:induction false} BareKeyRejected(st: ParserState, k: string)
    requires st.mode == NewLine && st.section != ""
    requires IsKeyName(k)
    ensures RunFrom(st, k + ['\n']) ==
      Stopped(SyntaxErrorAt(st.rows, WrongVariableSyntax), st.(mode := ReadVar, key := k), |k|)
  {
    ReadKey(st, k);
    var s1 := st.(mode := ReadVar, key := k);
    assert Step(s1, '\n') == Error(SyntaxErrorAt(st.rows, WrongVariableSyntax));
    RunFromError(st, k, '\n', s1, SyntaxErrorAt(st.rows, WrongVariableSyntax));
  }

  /** A comment line changes nothing but the row counter. */
  lemma {:induction false} CommentLine(st: ParserState, comment: string)
    requires st.mode == NewLine && NoNewline(comment)
    ensures RunFrom(st, ";" + comment + "\n") == Running(st.(rows := st.rows + 1))
  {
    var s1 := st.(mode := Skip);
    assert Step(st, ';').next == s1;
    RunFromNext(st, [], ';', st, s1);
    assert [] + [';'] == ";";
    assert AllAbsorbed(Skip, comment);
    RunAbsorbs(s1, comment);
    RunFromAppend(st, ";", comment);
    assert Step(s1, '\n').next == st.(rows := st.rows + 1);
    RunFromNext(st, ";" + comment, '\n', s1, st.(rows := st.rows + 1));
    assert ";" + comment + "\n" == ";" + comment + ['\n'];
  }
}
