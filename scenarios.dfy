/** Whole inputs run through the parser and then looked up; each pins down one behaviour of the code. */
module Scenarios {
  import opened Wrappers
  import opened SyntaxErrors
  import opened Transitions
  import opened RunFacts
  import opened ParserProperties
  import opened TableLookup

  /** `key = value` and a newline. */
  function Line(k: string, v: string): string {
    k + " = " + v + "\n"
  }

  /** `[name]` and a newline. */
  function Header(name: string): string {
    "[" + name + "]\n"
  }

  /** The state after a header at the very start of the input. */
  function AfterHeader(name: string): ParserState {
    Start(map[]).(section := name, rows := 2)
  }

  /** A value as it can be stored after `=`: non-empty, no newline or `;`, no leading space. */
  predicate IsValueText(v: string) {
    v != "" && IsStoredValue(v)
  }

  lemma {:induction false} HeaderFirst(name: string)
    requires IsSectionName(name)
    ensures RunFrom(Start(map[]), Header(name)) == Running(AfterHeader(name))
  {
    SectionHeader(Start(map[]), name);
  }

  lemma {:induction false} LineRuns(st: ParserState, k: string, v: string)
    requires st.mode == NewLine && st.section != ""
    requires IsKeyName(k) && IsValueText(v)
    ensures RunFrom(st, Line(k, v)) ==
      Running(st.(rows := st.rows + 1, key := k, value := v, data := Store(st.data, st.section, k, v)))
  {
    AssignmentLine(st, k, " ", " ", v);
    assert k + " " + "=" + " " + v + "\n" == Line(k, v);
  }

  /** Two lines for one key: the second value is the one looked up. */
  lemma {:induction false} LastWriteWins(st: ParserState, k: string, v1: string, v2: string)
    requires st.mode == NewLine && st.section != ""
    requires IsKeyName(k) && IsValueText(v1) && IsValueText(v2)
    ensures RunFrom(st, Line(k, v1) + Line(k, v2)).Running?
    ensures Lookup(RunFrom(st, Line(k, v1) + Line(k, v2)).state.data, st.section, k) == Ok(v2)
  {
    LineRuns(st, k, v1);
    var mid := st.(rows := st.rows + 1, key := k, value := v1, data := Store(st.data, st.section, k, v1));
    LineRuns(mid, k, v2);
    RunFromChain(st, Line(k, v1), Line(k, v2), mid,
      mid.(rows := mid.rows + 1, key := k, value := v2, data := Store(mid.data, st.section, k, v2)));
  }

  /** `[S]`, `k = v1`, `k = v2`: looking up `k` in `S` gives `v2`. */
  lemma {:induction false} LastOccurrenceInFile(s: string, k: string, v1: string, v2: string)
    requires s != "" && IsSectionName(s) && IsKeyName(k) && IsValueText(v1) && IsValueText(v2)
    ensures Parse(Header(s) + Line(k, v1) + Line(k, v2)).Running?
    ensures Lookup(Parse(Header(s) + Line(k, v1) + Line(k, v2)).state.data, s, k) == Ok(v2)
  {
    HeaderFirst(s);
    LastWriteWins(AfterHeader(s), k, v1, v2);
    RunFromAppend(Start(map[]), Header(s), Line(k, v1) + Line(k, v2));
    assert Header(s) + (Line(k, v1) + Line(k, v2)) == Header(s) + Line(k, v1) + Line(k, v2);
  }

  /** A header and two assignment lines leave both stores in the table. */
  lemma {:induction false} TwoLines(s: string, k1: string, v1: string, k2: string, v2: string)
    requires s != "" && IsSectionName(s)
    requires IsKeyName(k1) && IsKeyName(k2) && IsValueText(v1) && IsValueText(v2)
    ensures Parse(Header(s) + Line(k1, v1) + Line(k2, v2)).Running?
    ensures Parse(Header(s) + Line(k1, v1) + Line(k2, v2)).state.data == Store(Store(map[], s, k1, v1), s, k2, v2)
  {
    var s0 := AfterHeader(s);
    HeaderFirst(s);
    LineRuns(s0, k1, v1);
    var s1 := s0.(rows := 3, key := k1, value := v1, data := Store(s0.data, s, k1, v1));
    LineRuns(s1, k2, v2);
    var s2 := s1.(rows := 4, key := k2, value := v2, data := Store(s1.data, s, k2, v2));
    RunFromChain(Start(map[]), Header(s), Line(k1, v1), s0, s1);
    RunFromChain(Start(map[]), Header(s) + Line(k1, v1), Line(k2, v2), s1, s2);
  }

  /** Two different keys under one header are both found with their own values. */
  lemma {:induction false} TwoKeysBothFound(s: string, k1: string, v1: string, k2: string, v2: string)
    requires s != "" && IsSectionName(s)
    requires IsKeyName(k1) && IsKeyName(k2) && k1 != k2
    requires IsValueText(v1) && IsValueText(v2)
    ensures Parse(Header(s) + Line(k1, v1) + Line(k2, v2)).Running?
    ensures Lookup(Parse(Header(s) + Line(k1, v1) + Line(k2, v2)).state.data, s, k1) == Ok(v1)
    ensures Lookup(Parse(Header(s) + Line(k1, v1) + Line(k2, v2)).state.data, s, k2) == Ok(v2)
  {
    TwoLines(s, k1, v1, k2, v2);
  }

  /** `k = v   ;comment`: the value keeps the spaces before the comment. */
  lemma {:induction false} TrailingSpacesKept(s: string, k: string, v: string, spaces: string, comment: string)
    requires s != "" && IsSectionName(s) && IsKeyName(k) && IsValueText(v)
    requires AllSpaces(spaces) && NoNewline(comment)
    ensures Parse(Header(s) + k + " = " + v + spaces + ";" + comment).Running?
    ensures Lookup(Parse(Header(s) + k + " = " + v + spaces + ";" + comment).state.data, s, k) == Ok(v + spaces)
  {
    var st := AfterHeader(s);
    HeaderFirst(s);
    assert IsValueText(v + spaces) by {
      assert (v + spaces)[0] == v[0];
    }
    ValueThenComment(st, k, " ", " ", v + spaces, comment);
    var rest := k + " " + "=" + " " + (v + spaces) + ";" + comment;
    RunFromAppend(Start(map[]), Header(s), rest);
    RegroupTrailing(Header(s), k, v, spaces, comment);
  }

  /** The text of `TrailingSpacesKept`, regrouped as the header and the line `ValueThenComment` reads. */
  lemma RegroupTrailing(h: string, k: string, v: string, spaces: string, comment: string)
    ensures h + k + " = " + v + spaces + ";" + comment == h + (k + " " + "=" + " " + (v + spaces) + ";" + comment)
  {
    assert " = " == " " + "=" + " ";
  }

  /** A last line without its newline: the key is there with the empty placeholder, not with its value. */
  lemma {:induction false} LastLineWithoutNewline(s: string, k: string, v: string)
    requires s != "" && IsSectionName(s) && IsKeyName(k) && IsValueText(v)
    ensures Parse(Header(s) + k + " = " + v).Running?
    ensures Lookup(Parse(Header(s) + k + " = " + v).state.data, s, k) == Ok("")
  {
    var st := AfterHeader(s);
    HeaderFirst(s);
    KeyAndValue(st, k, " ", " ", v);
    RunFromAppend(Start(map[]), Header(s), k + " " + "=" + " " + v);
    assert Header(s) + (k + " " + "=" + " " + v) == Header(s) + k + " = " + v;
  }

  /** `k =` with nothing after it is found, with the empty string: an empty value is not a missing key. */
  lemma {:induction false} EmptyValueIsFound(s: string, k: string)
    requires s != "" && IsSectionName(s) && IsKeyName(k)
    ensures Parse(Header(s) + k + " =\n").Running?
    ensures Lookup(Parse(Header(s) + k + " =\n").state.data, s, k) == Ok("")
  {
    var st := AfterHeader(s);
    HeaderFirst(s);
    EmptyValueLine(st, k, " ", "");
    RunFromAppend(Start(map[]), Header(s), k + " " + "=" + "" + "\n");
    assert Header(s) + (k + " " + "=" + "" + "\n") == Header(s) + k + " =\n";
  }

  /** A section without keys never reaches the table, so it is reported as not found. */
  lemma {:induction false} SectionWithoutKeysIsNotFound(s: string, k: string)
    requires IsSectionName(s)
    ensures Parse(Header(s)).Running?
    ensures Lookup(Parse(Header(s)).state.data, s, k) == Err(RuntimeError(SectionNotFound))
  {
    HeaderFirst(s);
  }

  /** The text of the error a key on row 2 raises before any header. */
  lemma RowTwoMessage()
    ensures SyntaxErrorAt(2, NoSectionForVariable).fullMessage == "row 2: " + NoSectionForVariable
  {
    assert Decimal.DecimalString(2) == "2";
    assert "row " + "2" + ": " == "row 2: ";
  }

  /** A key on row 2, after an empty first row and before any header, stops the pass: "row 2: no section for variable". */
  lemma {:induction false} KeyOnSecondRowWithoutSection(c: char, rest: string)
    requires IsAlpha(c)
    ensures Parse("\n" + [c] + rest).Stopped?
    ensures Parse("\n" + [c] + rest).error == SyntaxErrorAt(2, NoSectionForVariable)
    ensures Parse("\n" + [c] + rest).error.fullMessage == "row 2: " + NoSectionForVariable
  {
    var input := "\n" + [c] + rest;
    KeyBeforeAnySection("\n", c);
    assert CountNewlines("\n") == 1 by {
      assert "\n"[..0] == [];
    }
    assert input[..2] == "\n" + [c];
    RunFromStoppedPrefix(Start(map[]), input, 2);
    RowTwoMessage();
  }

  /** The keys of a two-key section, in key order. */
  lemma SortedPair(a: string, b: string)
    requires Less(a, b)
    ensures SortedKeys({a, b}) == [a, b]
    ensures JoinLines(SortedKeys({a, b})) == "\n" + a + "\n" + b
  {
    var ks := SortedKeys({a, b});
    LessIrreflexive(a);
    if Less(b, a) {
      LessTransitive(a, b, a);
    }
    assert a != b;
    assert |{a, b}| == 2;
    assert ks[0] in {a, b} && ks[1] in {a, b};
    assert ks == [a, b];
    assert ks[1..] == [b] && ks[1..][1..] == [];
    assert JoinLines([b]) == "\n" + b by {
      assert JoinLines([]) == "";
    }
  }

  /** The table a `b` line then an `a` line leave: a missing key is answered with `a` before `b`. */
  lemma PairSuggestions(s: string, a: string, va: string, b: string, vb: string, k: string)
    requires Less(a, b)
    requires k != a && k != b
    ensures Lookup(Store(Store(map[], s, b, vb), s, a, va), s, k) ==
      Err(RuntimeError(VariableNotFound + "\n" + a + "\n" + b))
  {
    var d1 := Store(map[], s, b, vb);
    assert d1[s] == map[b := vb];
    var d := Store(d1, s, a, va);
    assert d[s].Keys == {a, b};
    assert s in d && k !in d[s];
    assert Lookup(d, s, k) == Err(RuntimeError(NotFoundMessage({a, b})));
    SortedPair(a, b);
    HeadedPair(VariableNotFound, a, b);
  }

  /** A header and the two-line join, spelled out. */
  lemma HeadedPair(h: string, a: string, b: string)
    ensures h + JoinLines([a, b]) == h + "\n" + a + "\n" + b
  {
    assert [a, b][1..] == [b];
    assert JoinLines([b]) == "\n" + b by {
      assert [b][1..] == [];
    }
  }

  /** Asking for a missing key lists the section's keys in ascending order, whatever order the file has them in. */
  lemma {:induction false} SuggestionsInKeyOrder(s: string, a: string, va: string, b: string, vb: string, k: string)
    requires s != "" && IsSectionName(s)
    requires IsKeyName(a) && IsKeyName(b) && Less(a, b)
    requires IsValueText(va) && IsValueText(vb)
    requires k != a && k != b
    ensures Parse(Header(s) + Line(b, vb) + Line(a, va)).Running?
    ensures Lookup(Parse(Header(s) + Line(b, vb) + Line(a, va)).state.data, s, k) ==
      Err(RuntimeError(VariableNotFound + "\n" + a + "\n" + b))
  {
    TwoLines(s, b, vb, a, va);
    PairSuggestions(s, a, va, b, vb, k);
  }

  /** A syntax error on row 3, after one assignment line: the pass stops, and the entry already stored stays. */
  lemma {:induction false} ErrorKeepsEarlierEntries(s: string, k: string, v: string, c: char)
    requires s != "" && IsSectionName(s) && IsKeyName(k) && IsValueText(v)
    requires !IsAlpha(c) && !IsSpace(c) && c != ';' && c != '['
    ensures Parse(Header(s) + Line(k, v) + [c]).Stopped?
    ensures Parse(Header(s) + Line(k, v) + [c]).error == SyntaxErrorAt(3, WrongSyntax)
    ensures Parse(Header(s) + Line(k, v) + [c]).state.data == Store(map[], s, k, v)
  {
    var s0 := AfterHeader(s);
    HeaderFirst(s);
    LineRuns(s0, k, v);
    var s1 := s0.(rows := 3, key := k, value := v, data := Store(s0.data, s, k, v));
    RunFromChain(Start(map[]), Header(s), Line(k, v), s0, s1);
    assert Step(s1, c) == Error(SyntaxErrorAt(3, WrongSyntax));
    RunFromError(Start(map[]), Header(s) + Line(k, v), c, s1, SyntaxErrorAt(3, WrongSyntax));
  }
}
