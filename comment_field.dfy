/** CommentField (sphinx_rosmsgs/file_parser/comment_field.py). */
module CommentFields {
  import opened Wrappers
  import opened Strings
  import opened Tokens

  /**
   * CommentField.parse: the pattern `^#\s{0,1}(?P<line>.*)$`. The optional
   * whitespace character is tried first (greedy) and given back only if the
   * rest fails; the captured `line` group is right-stripped.
   */
  function Parse(line: string): (r: Option<Comment>)
    ensures r.Some? ==> |r.value.lines| == 1
  {
    if |line| == 0 || line[0] != '#' then None
    else if |line| >= 2 && IsSpace(line[1]) && AtEnd(line, Span(line, 2, Dot)) then
      Some(Comment([RStrip(line[2..Span(line, 2, Dot)])]))
    else if AtEnd(line, Span(line, 1, Dot)) then
      Some(Comment([RStrip(line[1..Span(line, 1, Dot)])]))
    else None
  }

  /** CommentField.empty: a comment with no line. */
  function Empty(): (r: Comment)
    ensures |r.lines| == 0
  {
    Comment([])
  }

  /** CommentField.join: the other comment's lines after this one's, in order. */
  function Join(self: Comment, other: Comment): (r: Comment)
    ensures |r.lines| == |self.lines| + |other.lines|
    ensures r.lines[..|self.lines|] == self.lines && r.lines[|self.lines|..] == other.lines
  {
    Comment(self.lines + other.lines)
  }

  /** CommentField.text: the lines joined with the line separator ("\n" here). */
  function Text(c: Comment): (r: string)
    ensures c.lines == [] ==> r == ""
  {
    JoinLines(c.lines)
  }

  /**
   * A line is a comment exactly when it starts with `#` and has no newline
   * from its third character up to its last one (a newline right after `#` is
   * taken by `\s`); an indented `#` is not a comment.
   */
  lemma ParseAcceptsIff(line: string)
    ensures Parse(line).Some? <==>
      |line| > 0 && line[0] == '#' && forall m :: 2 <= m < |line| - 1 ==> line[m] != '\n'
  {
    if |line| > 0 && line[0] == '#' {
      DotRunEnd(line, 1);
      if |line| >= 2 {
        DotRunEnd(line, 2);
      }
    }
  }

  /**
   * On a line without newline (what splitlines produces) the comment is the
   * rest of the line after `#` and at most one whitespace character, right-stripped.
   */
  lemma ParseOneLine(line: string)
    requires |line| > 0 && line[0] == '#'
    requires forall m :: 0 <= m < |line| ==> line[m] != '\n'
    ensures var skip := if |line| >= 2 && IsSpace(line[1]) then 2 else 1;
            Parse(line) == Some(Comment([RStrip(line[skip..])]))
  {
    if |line| >= 2 {
      SpanUnique(line, 2, |line|, Dot);
      assert line[2..Span(line, 2, Dot)] == line[2..];
    }
    SpanUnique(line, 1, |line|, Dot);
    assert line[1..Span(line, 1, Dot)] == line[1..];
  }

  /** Joined comments render as their texts separated by one line separator. */
  lemma TextOfJoin(a: Comment, b: Comment)
    requires |a.lines| >= 1 && |b.lines| >= 1
    ensures Text(Join(a, b)) == Text(a) + "\n" + Text(b)
  {
    JoinLinesAppend(a.lines, b.lines);
  }

  /** The text of a comment whose lines hold no newline determines those lines. */
  lemma TextRoundTrip(c: Comment)
    requires |c.lines| >= 1
    requires forall i, m :: 0 <= i < |c.lines| && 0 <= m < |c.lines[i]| ==> c.lines[i][m] != '\n'
    ensures SplitLines(Text(c)) == c.lines
  {
    SplitJoin(c.lines);
  }
}
