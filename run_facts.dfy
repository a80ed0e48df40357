/** Structural facts about the fold `RunFrom`: splitting an input, and runs of characters a mode absorbs. */
module RunFacts {
  import opened SyntaxErrors
  import opened Transitions

  /** The number of newline characters in `s`. */
  function CountNewlines(s: seq<char>): nat
    decreases |s|
  {
    if s == [] then 0
    else CountNewlines(s[..|s| - 1]) + (if s[|s| - 1] == '\n' then 1 else 0)
  }

  /** Moves the position of a stopping error by `offset` characters. */
  function Shift(o: Outcome, offset: nat): Outcome {
    match o
    case Running(st) => Running(st)
    case Stopped(e, st, at) => Stopped(e, st, at + offset)
  }

  /** Continues the outcome `o` of a first part with the characters `b` that follow it at `offset`. */
  function Then(o: Outcome, b: seq<char>, offset: nat): Outcome {
    match o
    case Stopped(_, _, _) => o
    case Running(st) => Shift(RunFrom(st, b), offset)
  }

  /** Running over `a + b` is running over `a` and then over `b`; an error in `a` stops the rest. */
  lemma {:induction false} RunFromAppend(start: ParserState, a: seq<char>, b: seq<char>)
    ensures RunFrom(start, a + b) == Then(RunFrom(start, a), b, |a|)
    decreases |b|
  {
    if b == [] {
      assert a + b == a;
    } else {
      var b' := b[..|b| - 1];
      var w := a + b;
      assert w[..|w| - 1] == a + b';
      assert w[|w| - 1] == b[|b| - 1];
      RunFromAppend(start, a, b');
    }
  }

  /** One more character after a prefix that did not stop. */
  lemma RunFromSnoc(start: ParserState, a: seq<char>, c: char)
    requires RunFrom(start, a).Running?
    ensures RunFrom(start, a + [c]) ==
      match Step(RunFrom(start, a).state, c)
      case Error(e) => Stopped(e, RunFrom(start, a).state, |a|)
      case Next(n, _) => Running(n)
  {
    assert (a + [c])[..|a|] == a;
  }

  /** A character the current state accepts moves the run to the handler's next state. */
  lemma RunFromNext(start: ParserState, a: seq<char>, c: char, st: ParserState, n: ParserState)
    requires RunFrom(start, a) == Running(st)
    requires Step(st, c).Next? && Step(st, c).next == n
    ensures RunFrom(start, a + [c]) == Running(n)
  {
    RunFromSnoc(start, a, c);
  }

  /** A character the current state rejects stops the run there. */
  lemma RunFromError(start: ParserState, a: seq<char>, c: char, st: ParserState, e: SyntaxError)
    requires RunFrom(start, a) == Running(st)
    requires Step(st, c) == Error(e)
    ensures RunFrom(start, a + [c]) == Stopped(e, st, |a|)
  {
    RunFromSnoc(start, a, c);
  }

  /** Two parts that each run cleanly run cleanly together. */
  lemma RunFromChain(start: ParserState, a: seq<char>, b: seq<char>, mid: ParserState, end: ParserState)
    requires RunFrom(start, a) == Running(mid)
    requires RunFrom(mid, b) == Running(end)
    ensures RunFrom(start, a + b) == Running(end)
  {
    RunFromAppend(start, a, b);
  }

  /** Once a prefix of the input has stopped, the whole input stops the same way. */
  lemma RunFromStoppedPrefix(start: ParserState, s: seq<char>, n: nat)
    requires n <= |s|
    requires RunFrom(start, s[..n]).Stopped?
    ensures RunFrom(start, s) == RunFrom(start, s[..n])
  {
    assert s == s[..n] + s[n..];
    RunFromAppend(start, s[..n], s[n..]);
  }

  /** The characters a mode consumes without leaving it, raising an error or storing anything. */
  predicate Absorbs(mode: ReadingMode, c: char) {
    match mode
    case NewLine => IsSpace(c)
    case ReadSect => IsNameChar(c)
    case ReadVar => IsNameChar(c)
    case ReadVal => c != '\n' && c != ';'
    case Skip => c != '\n'
    case EndSect => IsSpace(c) && c != '\n'
    case EndVar => c == ' '
    case WaitVal => c == ' '
  }

  predicate AllAbsorbed(mode: ReadingMode, t: seq<char>) {
    forall i :: 0 <= i < |t| ==> Absorbs(mode, t[i])
  }

  /** The state after absorbing `t`: the mode's buffer grows by `t`, or only blank lines are counted. */
  function Absorbed(st: ParserState, t: seq<char>): ParserState {
    match st.mode
    case NewLine => st.(rows := st.rows + CountNewlines(t))
    case ReadSect => st.(section := st.section + t)
    case ReadVar => st.(key := st.key + t)
    case ReadVal => st.(value := st.value + t)
    case _ => st
  }

  /** Characters a mode absorbs leave it in that mode with only its buffer (or row count) extended. */
  lemma {:induction false} RunAbsorbs(st: ParserState, t: seq<char>)
    requires AllAbsorbed(st.mode, t)
    ensures RunFrom(st, t) == Running(Absorbed(st, t))
    decreases |t|
  {
    if t != [] {
      var t' := t[..|t| - 1];
      var c := t[|t| - 1];
      assert AllAbsorbed(st.mode, t');
      RunAbsorbs(st, t');
      assert t == t' + [c];
      RunFromSnoc(st, t', c);
      match st.mode
      case NewLine =>
      case ReadSect => assert st.section + t' + [c] == st.section + t;
      case ReadVar => assert st.key + t' + [c] == st.key + t;
      case ReadVal => assert st.value + t' + [c] == st.value + t;
      case Skip =>
      case EndSect =>
      case EndVar =>
      case WaitVal =>
    }
  }
}
