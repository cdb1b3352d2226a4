/**
 * The values the line recognisers produce. In the source each kind of line is
 * a class (CommentField, MessageField, TripleDashField and its two subclasses,
 * EmptyLineField) and the block state machine tells them apart with
 * `isinstance`; here they form one closed datatype.
 */
module Tokens {

  /** A CommentField: its lines, each without the `#` marker and right-stripped. */
  datatype Comment = Comment(lines: seq<string>)

  /**
   * MessageField._size: the integer 0 it is initialised with, or the text of
   * the `list_size` group once a bracket has been seen.
   */
  datatype Size = Zero | Digits(text: string)

  /** A MessageField: one field definition line, with the comment attached to it. */
  datatype Field = Field(
    typ: string,
    name: string,
    isList: bool,
    hasDefault: bool,
    isVariable: bool,
    size: Size,
    default: string,
    text: Comment)

  /** TripleDashField and its subclasses FirstTripleDashField and SecondTripleDashField. */
  datatype Dash = TripleDash | FirstTripleDash | SecondTripleDash

  /** EmptyLineField carries no data. */
  datatype EmptyLine = EmptyLine

  /** One recognised line. */
  datatype Token =
    | CommentLine(comment: Comment)
    | Definition(field: Field)
    | Separator(dash: Dash)
    | Blank(empty: EmptyLine)
}
