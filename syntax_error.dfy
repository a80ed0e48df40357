/** The `parse_syntax_error` value: the row where parsing stopped, a message, and the text shown to the user. */
module SyntaxErrors {
  import opened Wrappers
  import opened Decimal

  datatype SyntaxError = SyntaxError(row: nat, message: string, fullMessage: string)

  /** The user-facing text of an error raised at `row` with `message`. */
  function FullMessage(row: nat, message: string): string {
    "row " + DecimalString(row) + ": " + message
  }

  /** The error value the parser raises; its full message is derived as the constructor derives it. */
  function SyntaxErrorAt(row: nat, message: string): SyntaxError {
    SyntaxError(row, message, FullMessage(row, message))
  }

  /** The constructor of `parse_syntax_error`: stores row and message and formats the full message with `itos`. */
  method NewSyntaxError(row: nat, message: string) returns (e: SyntaxError)
    ensures e.row == row && e.message == message
    ensures e.fullMessage == "row " + DecimalString(row) + ": " + message
    ensures e == SyntaxErrorAt(row, message)
  {
    var digits := Itos(row);
    e := SyntaxError(row, message, "row " + digits + ": " + message);
  }

  /** The length of the longest run of digits at the start of `s`. */
  function DigitRun(s: string): (k: nat)
    ensures k <= |s|
    ensures forall i :: 0 <= i < k ==> IsDigit(s[i])
    ensures k < |s| ==> !IsDigit(s[k])
  {
    if s != [] && IsDigit(s[0]) then 1 + DigitRun(s[1..]) else 0
  }

  /** Recovers row and message from a full message, if it has the shape `"row <digits>: <message>"`. */
  function ParseFullMessage(s: string): Option<(nat, string)> {
    if |s| >= 4 && s[..4] == "row " then
      var rest := s[4..];
      var k := DigitRun(rest);
      if k >= 1 && |rest| >= k + 2 && rest[k..k + 2] == ": " then
        Some((DecimalValue(rest[..k]), rest[k + 2..]))
      else None
    else None
  }

  lemma {:induction false} DigitRunOfDigits(d: string, t: string)
    requires forall i :: 0 <= i < |d| ==> IsDigit(d[i])
    requires t != [] && !IsDigit(t[0])
    ensures DigitRun(d + t) == |d|
    decreases |d|
  {
    if d != [] {
      assert (d + t)[1..] == d[1..] + t;
      DigitRunOfDigits(d[1..], t);
    } else {
      assert d + t == t;
    }
  }

  /** After the `"row "` prefix: the digits, then `": "`, then the message. */
  lemma {:induction false} AfterRowPrefix(d: string, message: string)
    requires forall i :: 0 <= i < |d| ==> IsDigit(d[i])
    ensures var rest := d + ": " + message;
      DigitRun(rest) == |d| && rest[..|d|] == d && |rest| >= |d| + 2 &&
      rest[|d|..|d| + 2] == ": " && rest[|d| + 2..] == message
  {
    var rest := d + ": " + message;
    DigitRunOfDigits(d, ": " + message);
    assert rest == d + (": " + message);
  }

  /** The full message determines the row and the message it was built from. */
  lemma FullMessageRoundTrip(row: nat, message: string)
    ensures ParseFullMessage(FullMessage(row, message)) == Some((row, message))
  {
    var d := DecimalString(row);
    var rest := d + ": " + message;
    var s := FullMessage(row, message);
    assert s == "row " + rest;
    assert s[..4] == "row " && s[4..] == rest;
    AfterRowPrefix(d, message);
    DecimalValueOfString(row);
  }

  /** Two errors with the same full message were raised at the same row with the same message. */
  lemma FullMessageInjective(row1: nat, message1: string, row2: nat, message2: string)
    requires FullMessage(row1, message1) == FullMessage(row2, message2)
    ensures row1 == row2 && message1 == message2
  {
    FullMessageRoundTrip(row1, message1);
    FullMessageRoundTrip(row2, message2);
  }
}
