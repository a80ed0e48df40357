/**
 * Resolving a section/key pair against the parsed table, including the "maybe you meant"
 * message that lists the section's keys in the table's (ascending) key order.
 */
module TableLookup {
  import opened Wrappers
  import opened SyntaxErrors
  import opened Transitions
  import opened ParserProperties

  /** What `get_value_string` throws: the parser's syntax error, or a runtime error with its text. */
  datatype LookupError = Syntax(error: SyntaxError) | RuntimeError(what: string)

  const SectionNotFound := "section is not found"
  const VariableNotFound := "variable is not found; maybe you meant:"

  // ---------------------------------------------------------------- key order

  /** `operator<` on strings: lexicographic by character, a proper prefix first. */
  function Less(a: string, b: string): (r: bool)
    ensures r ==> a != b
    ensures |a| < |b| && a == b[..|a|] ==> r
    decreases |a|
  {
    if a == [] then b != []
    else b != [] && (a[0] < b[0] || (a[0] == b[0] && Less(a[1..], b[1..])))
  }

  lemma {:induction false} LessIrreflexive(a: string)
    ensures !Less(a, a)
    decreases |a|
  {
    if a != [] {
      LessIrreflexive(a[1..]);
    }
  }

  lemma {:induction false} LessTransitive(a: string, b: string, c: string)
    requires Less(a, b) && Less(b, c)
    ensures Less(a, c)
    decreases |a|
  {
    if a != [] && a[0] == b[0] && b[0] == c[0] {
      LessTransitive(a[1..], b[1..], c[1..]);
    }
  }

  lemma {:induction false} LessTotal(a: string, b: string)
    ensures a == b || Less(a, b) || Less(b, a)
    decreases |a|
  {
    if a != [] && b != [] && a[0] == b[0] {
      LessTotal(a[1..], b[1..]);
      if a[1..] == b[1..] {
        assert a == [a[0]] + a[1..] && b == [b[0]] + b[1..];
      }
    }
  }

  /** `k` is the first of `ks` in key order. */
  predicate IsLeast(k: string, ks: set<string>) {
    k in ks && forall k' :: k' in ks && k' != k ==> Less(k, k')
  }

  lemma {:induction false} LeastExists(ks: set<string>)
    requires ks != {}
    ensures exists k :: IsLeast(k, ks)
    decreases |ks|
  {
    var x :| x in ks;
    if ks != {x} {
      var rest := ks - {x};
      LeastExists(rest);
      var m :| IsLeast(m, rest);
      LessTotal(x, m);
      if Less(x, m) {
        forall k' | k' in ks && k' != x
          ensures Less(x, k')
        {
          if k' != m {
            LessTransitive(x, m, k');
          }
        }
        assert IsLeast(x, ks);
      } else {
        assert IsLeast(m, ks);
      }
    } else {
      assert IsLeast(x, ks);
    }
  }

  lemma LeastUnique(k1: string, k2: string, ks: set<string>)
    requires IsLeast(k1, ks) && IsLeast(k2, ks)
    ensures k1 == k2
  {
    if k1 != k2 {
      LessTransitive(k1, k2, k1);
      LessIrreflexive(k1);
    }
  }

  ghost function Least(ks: set<string>): (k: string)
    requires ks != {}
    ensures IsLeast(k, ks)
  {
    LeastExists(ks);
    var k :| IsLeast(k, ks);
    k
  }

  /** The keys of a section in the order the table iterates them: each exactly once, ascending. */
  ghost function SortedKeys(ks: set<string>): (r: seq<string>)
    ensures |r| == |ks|
    ensures forall i :: 0 <= i < |r| ==> r[i] in ks
    ensures forall k :: k in ks ==> k in r
    ensures forall i, j :: 0 <= i < j < |r| ==> Less(r[i], r[j])
    decreases |ks|
  {
    if ks == {} then []
    else
      var m := Least(ks);
      [m] + SortedKeys(ks - {m})
  }

  // ---------------------------------------------------------------- the suggestion message

  /** Each key on a line of its own after the header: `'\n' + name` for every key in turn. */
  function JoinLines(ks: seq<string>): (r: string)
    ensures r == [] <==> ks == []
    ensures ks != [] ==> |r| > |ks[0]| && r[0] == '\n' && r[1..1 + |ks[0]|] == ks[0]
    decreases |ks|
  {
    if ks == [] then "" else ['\n'] + ks[0] + JoinLines(ks[1..])
  }

  /** The "variable is not found" text for a section holding the keys `ks`. */
  ghost function NotFoundMessage(ks: set<string>): (r: string)
    ensures |r| >= |VariableNotFound| && r[..|VariableNotFound|] == VariableNotFound
    ensures |r| > |VariableNotFound| <==> ks != {}
  {
    VariableNotFound + JoinedKeys(ks)
  }

  /** The message lines for the keys `ks`, in key order. */
  ghost function JoinedKeys(ks: set<string>): string {
    JoinLines(SortedKeys(ks))
  }

  /** The loop that appends `'\n' + name` for every key of the section, in key order. */
  method BuildNotFoundMessage(section: map<string, string>) returns (error: string)
    ensures error == NotFoundMessage(section.Keys)
  {
    error := VariableNotFound;
    var rest := section.Keys;
    ghost var goal := NotFoundMessage(section.Keys);
    while rest != {}
      invariant error + JoinedKeys(rest) == goal
      decreases |rest|
    {
      LeastExists(rest);
      var k :| k in rest && IsLeast(k, rest);
      AppendLeastLine(error, rest, k);
      error := error + (['\n'] + k);
      rest := rest - {k};
    }
    assert JoinedKeys(rest) == "";
  }

  /** The least remaining key is the next line of the message. */
  lemma JoinSortedKeysStep(ks: set<string>, k: string)
    requires IsLeast(k, ks)
    ensures JoinedKeys(ks) == ['\n'] + k + JoinedKeys(ks - {k})
  {
    LeastUnique(k, Least(ks), ks);
    var tail := SortedKeys(ks - {k});
    assert SortedKeys(ks) == [k] + tail;
    assert ([k] + tail)[1..] == tail;
  }

  /** Appending the least remaining key's line to `e` leaves the lines of the other keys to go. */
  lemma AppendLeastLine(e: string, ks: set<string>, k: string)
    requires IsLeast(k, ks)
    ensures e + JoinedKeys(ks) == e + (['\n'] + k) + JoinedKeys(ks - {k})
  {
    JoinSortedKeysStep(ks, k);
    ConcatAssoc(e, ['\n'] + k, JoinedKeys(ks - {k}));
  }

  lemma ConcatAssoc(a: string, b: string, c: string)
    ensures a + (b + c) == a + b + c
  {
  }

  /** Splits a text at its newlines. */
  function FirstNewline(s: string): (i: nat)
    ensures i <= |s|
    ensures forall j :: 0 <= j < i ==> s[j] != '\n'
    ensures i < |s| ==> s[i] == '\n'
  {
    if s == [] || s[0] == '\n' then 0 else 1 + FirstNewline(s[1..])
  }

  function Lines(s: string): seq<string>
    decreases |s|
  {
    var i := FirstNewline(s);
    if i == |s| then [s] else [s[..i]] + Lines(s[i + 1..])
  }

  /** A newline-free text is a single line. */
  lemma LinesOfLine(p: string)
    requires NoNewline(p)
    ensures Lines(p) == [p]
  {
    assert FirstNewline(p) == |p|;
  }

  /** A newline-free line, a newline and a text split into that line and the lines of the text. */
  lemma LinesAfterLine(p: string, t: string)
    requires NoNewline(p)
    ensures Lines(p + ['\n'] + t) == [p] + Lines(t)
  {
    var w := p + ['\n'] + t;
    assert forall j :: 0 <= j < |p| ==> w[j] == p[j] && w[j] != '\n';
    assert w[|p|] == '\n';
    assert FirstNewline(w) == |p|;
    assert w[..|p|] == p;
    assert w[|p| + 1..] == t;
  }

  /** The joined names after a header: a newline, the first name and the join of the rest. */
  lemma JoinLinesCons(p: string, ks: seq<string>)
    requires ks != []
    ensures p + JoinLines(ks) == p + ['\n'] + (ks[0] + JoinLines(ks[1..]))
  {
  }

  /** Joining newline-free names after a newline-free header can be split back into header and names. */
  lemma {:induction false} LinesOfJoin(p: string, ks: seq<string>)
    requires NoNewline(p)
    requires forall i :: 0 <= i < |ks| ==> NoNewline(ks[i])
    ensures Lines(p + JoinLines(ks)) == [p] + ks
    decreases |ks|
  {
    if ks == [] {
      assert p + JoinLines(ks) == p;
      LinesOfLine(p);
    } else {
      var rest := ks[0] + JoinLines(ks[1..]);
      calc {
        Lines(p + JoinLines(ks));
        { JoinLinesCons(p, ks); }
        Lines(p + ['\n'] + rest);
        { LinesAfterLine(p, rest); }
        [p] + Lines(rest);
        { LinesOfJoin(ks[0], ks[1..]); }
        [p] + ([ks[0]] + ks[1..]);
        { assert [ks[0]] + ks[1..] == ks; }
        [p] + ks;
      }
    }
  }

  // ---------------------------------------------------------------- lookup

  /** The tail of `get_value_string`: the stored string, or which of the two lookups failed. */
  ghost function Lookup(d: Table, section: string, key: string): (r: Result<string, LookupError>)
    ensures r.Ok? <==> section in d && key in d[section]
    ensures r.Ok? ==> r.value == d[section][key]
    ensures r.Err? ==> r.error.RuntimeError?
    ensures r.Err? ==> (r.error.what == SectionNotFound <==> section !in d)
  {
    if section in d then
      if key in d[section] then Ok(d[section][key])
      else Err(RuntimeError(NotFoundMessage(d[section].Keys)))
    else Err(RuntimeError(SectionNotFound))
  }

  /** A header followed by key names splits back into the header and the names. */
  lemma {:induction false} KeyLines(p: string, ks: set<string>)
    requires NoNewline(p)
    requires forall k :: k in ks ==> IsKeyName(k)
    ensures Lines(p + JoinLines(SortedKeys(ks))) == [p] + SortedKeys(ks)
  {
    var r := SortedKeys(ks);
    forall i | 0 <= i < |r|
      ensures NoNewline(r[i])
    {
      assert IsKeyName(r[i]);
    }
    LinesOfJoin(p, r);
  }

  /** Put after a header line, the sorted keys are each key once, ascending. */
  lemma {:induction false} SortedAfterHeader(p: string, ks: set<string>)
    ensures var lines := [p] + SortedKeys(ks);
      |lines| == 1 + |ks| && lines[0] == p &&
      (forall k :: k in ks <==> k in lines[1..]) &&
      (forall i, j :: 1 <= i < j < |lines| ==> Less(lines[i], lines[j]))
  {
    var r := SortedKeys(ks);
    var lines := [p] + r;
    assert lines[1..] == r;
    forall i, j | 1 <= i < j < |lines|
      ensures Less(lines[i], lines[j])
    {
      assert lines[i] == r[i - 1] && lines[j] == r[j - 1];
    }
  }

  /** The lines of a header followed by the sorted names: the header, then each name of `ks` once, ascending. */
  lemma {:induction false} SortedLines(p: string, ks: set<string>)
    requires NoNewline(p)
    requires forall k :: k in ks ==> IsKeyName(k)
    ensures var lines := Lines(p + JoinLines(SortedKeys(ks)));
      |lines| == 1 + |ks| && lines[0] == p &&
      (forall k :: k in ks <==> k in lines[1..]) &&
      (forall i, j :: 1 <= i < j < |lines| ==> Less(lines[i], lines[j]))
  {
    KeyLines(p, ks);
    SortedAfterHeader(p, ks);
  }

  /**
   * Looking up a missing key in a present section of a well-formed table reports, one per line
   * after the header, every key of that section exactly once, in ascending order.
   */
  lemma SuggestionsListEveryKey(d: Table, section: string, key: string)
    requires WellFormedTable(d)
    requires section in d && key !in d[section]
    ensures Lookup(d, section, key).Err?
    ensures Lookup(d, section, key).error.RuntimeError?
    ensures var lines := Lines(Lookup(d, section, key).error.what);
      |lines| == 1 + |d[section]| && lines[0] == VariableNotFound &&
      (forall k :: k in d[section] <==> k in lines[1..]) &&
      (forall i, j :: 1 <= i < j < |lines| ==> Less(lines[i], lines[j]))
  {
    SortedLines(VariableNotFound, d[section].Keys);
  }

  /** An empty table answers every lookup with "section is not found". */
  lemma EmptyTableHasNoSection(section: string, key: string)
    ensures Lookup(map[], section, key) == Err(RuntimeError(SectionNotFound))
  {
  }
}
