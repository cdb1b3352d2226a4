/** EmptyLineField (sphinx_rosmsgs/file_parser/empty_line_field.py). */
module EmptyLineFields {
  import opened Tokens

  /**
   * EmptyLineField.parse: the fallback recogniser. Its argument defaults to
   * the empty string, is discarded, and the call never fails.
   */
  function Parse(line: string := ""): (r: EmptyLine)
    ensures r == EmptyLine
  {
    EmptyLine
  }

  /** Two calls give the same token whatever their arguments, including the default one. */
  lemma ParseIgnoresItsInput(a: string, b: string)
    ensures Parse(a) == Parse(b) == Parse()
  {
  }
}
