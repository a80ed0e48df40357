/** Two lookups on one parser object: what the lazy parse means for a caller. */
module Clients {
  import opened Wrappers
  import opened SyntaxErrors
  import opened Transitions
  import opened ParserProperties
  import opened TableLookup
  import opened Scenarios
  import opened IniParser

  /**
   * The first lookup hits a syntax error and reports it; the entries stored before the error
   * stay in the table, so the second lookup does not parse again and finds the key.
   */
  method LookupAfterSyntaxError(s: string, k: string, v: string, c: char)
    returns (first: Result<string, LookupError>, second: Result<string, LookupError>)
    requires s != "" && IsSectionName(s) && IsKeyName(k) && IsValueText(v)
    requires !IsAlpha(c) && !IsSpace(c) && c != ';' && c != '['
    ensures first == Err(Syntax(SyntaxErrorAt(3, WrongSyntax)))
    ensures second == Ok(v)
  {
    var parser := new IniParser(Header(s) + Line(k, v) + [c]);
    ErrorKeepsEarlierEntries(s, k, v, c);
    first := parser.GetValueString(s, k);
    assert parser.data == Store(map[], s, k, v);
    second := parser.GetValueString(s, k);
  }

  /** A file whose only line is a header leaves the table empty: every lookup parses again, and the section is not found. */
  method LookupOnKeylessFile(s: string, k: string)
    returns (first: Result<string, LookupError>, second: Result<string, LookupError>)
    requires IsSectionName(s)
    ensures first == Err(RuntimeError(SectionNotFound))
    ensures second == first
  {
    var parser := new IniParser(Header(s));
    HeaderFirst(s);
    first := parser.GetValueString(s, k);
    assert parser.data == map[];
    second := parser.GetValueString(s, k);
  }
}
