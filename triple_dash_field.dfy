/** TripleDashField and its subclasses (sphinx_rosmsgs/file_parser/triple_dash_field.py). */
module TripleDashFields {
  import opened Wrappers
  import opened Strings
  import opened Tokens

  /**
   * The pattern `^-{3}\s*$`, matched with its greedy `\s*`: three dashes, then
   * the longest whitespace run, which must reach where `$` holds.
   */
  predicate Matches(line: string)
  {
    |line| >= 3 && line[..3] == "---" && AtEnd(line, Span(line, 3, Space))
  }

  /**
   * TripleDashField.parse called through one of the three classes: a fresh
   * payload-free instance of that class, or None.
   */
  function Parse(variant: Dash, line: string): (r: Option<Dash>)
    ensures r.Some? <==> |line| >= 3 && line[..3] == "---" && AllIn(line, 3, |line|, Space)
    ensures r.Some? ==> r.value == variant
  {
    MatchesAllSpace(line);
    if Matches(line) then Some(variant) else None
  }

  /** `$` can only hold where the greedy `\s*` stops if it ran to the end: a final newline is whitespace too. */
  lemma MatchesAllSpace(line: string)
    ensures Matches(line) <==> |line| >= 3 && line[..3] == "---" && AllIn(line, 3, |line|, Space)
  {
    if |line| >= 3 {
      SpanFacts(line, 3, Space);
      if AllIn(line, 3, |line|, Space) {
        SpanUnique(line, 3, |line|, Space);
      }
    }
  }

  /** `__str__` of the three classes, the only thing that tells them apart. */
  function Str(variant: Dash): (r: string)
    ensures |r| == 9 && r[..4] == "--- " && r[5..] == " ---"
    ensures variant == TripleDash <==> r[4] == '0'
    ensures variant == FirstTripleDash <==> r[4] == '1'
    ensures variant == SecondTripleDash <==> r[4] == '2'
  {
    match variant
    case TripleDash => "--- 0 ---"
    case FirstTripleDash => "--- 1 ---"
    case SecondTripleDash => "--- 2 ---"
  }

  /** The subclasses inherit `parse`: all three accept exactly the same lines. */
  lemma VariantsAcceptSameLines(line: string, a: Dash, b: Dash)
    ensures Parse(a, line).Some? <==> Parse(b, line).Some?
  {
  }

  /** The greedy match agrees with the pattern read as a language: some `\s*` run reaches `$`. */
  lemma MatchesIff(line: string)
    ensures Matches(line) <==>
      (|line| >= 3 && line[..3] == "---" && exists k :: 3 <= k <= |line| && AllIn(line, 3, k, Space) && AtEnd(line, k))
  {
    if |line| >= 3 && line[..3] == "---" {
      var j := Span(line, 3, Space);
      SpanFacts(line, 3, Space);
      if k :| 3 <= k <= |line| && AllIn(line, 3, k, Space) && AtEnd(line, k) {
        SpanAtLeast(line, 3, k, Space);
        assert AtEnd(line, j);
      }
    }
  }
}
