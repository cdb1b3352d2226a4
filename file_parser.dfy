/**
 * FileParser (sphinx_rosmsgs/file_parser/file_parser.py): reads a message,
 * service or action file and routes its lines into three blocks.
 *
 * The file system is a parameter: a map from path to the lines of the file
 * (what `read().splitlines()` returns); a path missing from the map is a file
 * that cannot be opened.
 */
module FileParsers {
  import opened Wrappers
  import opened Strings
  import opened Tokens
  import opened BlockParsers
  import CommentFields
  import MessageFields
  import TripleDashFields
  import EmptyLineFields

  /** What `_parse_line` does with one line: a token for the current block, or a move to the next block. */
  datatype LineOutcome = Emit(token: Token) | Advance

  /**
   * FileParser._parse_line: a comment, else a field definition (built by
   * `MessageField.parse` as written, so `T[]` is a list of size "" that is not
   * variable-length), else (in the
   * first two blocks only) a separator, else an empty line. A separator
   * produces no token; it moves to the next block.
   */
  function Classify(line: string, current: nat): (r: LineOutcome)
    ensures r.Emit? ==> !r.token.Separator?
    ensures r.Advance? ==> current < 2
  {
    match CommentFields.Parse(line)
    case Some(c) => Emit(CommentLine(c))
    case None =>
      match MessageFields.ParseAsWritten(line)
      case Some(f) => Emit(Definition(f))
      case None =>
        if current == 0 && TripleDashFields.Parse(FirstTripleDash, line).Some? then Advance
        else if current == 1 && TripleDashFields.Parse(SecondTripleDash, line).Some? then Advance
        else Emit(Blank(EmptyLineFields.Parse(line)))
  }

  /**
   * The precedence of `_parse_line`: every line has exactly one outcome, a
   * comment wins over a definition, a definition over a separator, and an
   * empty line is what is left.
   */
  lemma ClassifyPrecedence(line: string, current: nat)
    ensures CommentFields.Parse(line).Some? ==> Classify(line, current) == Emit(CommentLine(CommentFields.Parse(line).value))
    ensures CommentFields.Parse(line).None? && MessageFields.ParseAsWritten(line).Some? ==>
      Classify(line, current) == Emit(Definition(MessageFields.ParseAsWritten(line).value))
    ensures CommentFields.Parse(line).None? && MessageFields.ParseAsWritten(line).None? ==>
      (Classify(line, current).Advance? <==> current < 2 && TripleDashFields.Matches(line))
    ensures Classify(line, current).Emit? && Classify(line, current).token.Blank? <==>
      CommentFields.Parse(line).None? && MessageFields.ParseAsWritten(line).None?
      && !(current < 2 && TripleDashFields.Matches(line))
  {
  }

  /** A `---` line moves to the next block from the first two blocks, and is an empty line in the third. */
  lemma ThirdSeparatorIsEmpty()
    ensures Classify("---", 0) == Advance && Classify("---", 1) == Advance
    ensures Classify("---", 2) == Emit(Blank(EmptyLine))
  {
    var s := "---";
    assert CommentFields.Parse(s).None?;
    assert MessageFields.Match(s).None? by {
      assert !In(Space, s[0]) && !In(FieldChar, s[0]);
      SpanUnique(s, 0, 0, Space);
      SpanUnique(s, 0, 0, FieldChar);
    }
    TripleDashFields.MatchesAllSpace(s);
  }

  // ---------------------------------------------------------------------------
  // The loop of `parse`, on values.

  /** `_blocks` and `_current_block`. */
  datatype RunState = RunState(blocks: seq<BlockState>, current: nat)

  predicate RunOk(rs: RunState)
  {
    |rs.blocks| == 3 && rs.current <= 2
    && Invariant(rs.blocks[0]) && Invariant(rs.blocks[1]) && Invariant(rs.blocks[2])
  }

  /** Three fresh blocks, the first one current. */
  function Start(): (rs: RunState)
    ensures RunOk(rs) && rs.current == 0
  {
    RunState([Initial(), Initial(), Initial()], 0)
  }

  /** One iteration of the loop of `parse`. */
  function StepLine(rs: RunState, line: string): (r: RunState)
    requires RunOk(rs)
    ensures RunOk(r)
  {
    match Classify(line, rs.current)
    case Advance => rs.(current := rs.current + 1)
    case Emit(t) => rs.(blocks := rs.blocks[rs.current := Step(rs.blocks[rs.current], t)])
  }

  /** The loop of `parse` over lines, from rs. */
  function RunFrom(rs: RunState, lines: seq<string>): (r: RunState)
    requires RunOk(rs)
    ensures RunOk(r)
    decreases |lines|
  {
    if lines == [] then rs else StepLine(RunFrom(rs, lines[..|lines| - 1]), lines[|lines| - 1])
  }

  function Run(lines: seq<string>): (r: RunState)
    ensures RunOk(r)
  {
    RunFrom(Start(), lines)
  }

  /** The number of lines taken as separators, each line classified with the count before it. */
  function Separators(lines: seq<string>): (n: nat)
    ensures n <= 2
    decreases |lines|
  {
    if lines == [] then 0
    else
      var init := lines[..|lines| - 1];
      var seen := Separators(init);
      seen + if Classify(lines[|lines| - 1], seen).Advance? then 1 else 0
  }

  /** The tokens that reach block k: those of the lines with exactly k separators before them. */
  function Routed(lines: seq<string>, k: nat): seq<Token>
    decreases |lines|
  {
    if lines == [] then []
    else
      var init := lines[..|lines| - 1];
      var seen := Separators(init);
      match Classify(lines[|lines| - 1], seen)
      case Emit(t) => Routed(init, k) + if seen == k then [t] else []
      case Advance => Routed(init, k)
  }

  lemma FeedSnoc(st: BlockState, ts: seq<Token>, t: Token)
    requires Invariant(st)
    ensures Feed(st, ts + [t]) == Step(Feed(st, ts), t)
  {
    assert (ts + [t])[..|ts|] == ts;
  }

  /** The current block is the number of lines taken as separators so far. */
  lemma {:induction false} CurrentCountsSeparators(lines: seq<string>)
    ensures Run(lines).current == Separators(lines)
    decreases |lines|
  {
    if lines != [] {
      var init := lines[..|lines| - 1];
      CurrentCountsSeparators(init);
      assert Run(lines) == StepLine(Run(init), lines[|lines| - 1]);
    }
  }

  /**
   * Every line that is not a separator is appended to the block numbered by
   * the separators before it, so each block is what its own tokens build.
   */
  lemma {:induction false} BlockFollowsRouting(lines: seq<string>, k: nat)
    requires k < 3
    ensures Run(lines).blocks[k] == Feed(Initial(), Routed(lines, k))
    decreases |lines|
  {
    if lines != [] {
      var init := lines[..|lines| - 1];
      var line := lines[|lines| - 1];
      BlockFollowsRouting(init, k);
      CurrentCountsSeparators(init);
      var rs := Run(init);
      assert Run(lines) == StepLine(rs, line);
      match Classify(line, rs.current)
      case Advance =>
      case Emit(t) =>
        if k == rs.current {
          assert Routed(lines, k) == Routed(init, k) + [t];
          FeedSnoc(Initial(), Routed(init, k), t);
        } else {
          assert Routed(lines, k) == Routed(init, k);
        }
    }
  }

  /** A token that is not a separator leaves an unlocked block unlocked. */
  lemma StepStaysUnlocked(st: BlockState, t: Token)
    requires Invariant(st) && !st.locked && !t.Separator?
    ensures !Step(st, t).locked
  {
  }

  /** Separators never reach a block, so no block of a file is ever locked. */
  lemma {:induction false} NeverLocked(lines: seq<string>, k: nat)
    requires k < 3
    ensures !Run(lines).blocks[k].locked
    decreases |lines|
  {
    if lines != [] {
      var init := lines[..|lines| - 1];
      var line := lines[|lines| - 1];
      NeverLocked(init, k);
      var rs := Run(init);
      assert Run(lines) == StepLine(rs, line);
      match Classify(line, rs.current)
      case Advance =>
      case Emit(t) =>
        if k == rs.current {
          StepStaysUnlocked(rs.blocks[k], t);
        }
    }
  }

  /** No separator line is stored: a line taken as a separator leaves every block as it was. */
  lemma SeparatorStoresNothing(rs: RunState, line: string)
    requires RunOk(rs) && Classify(line, rs.current).Advance?
    ensures StepLine(rs, line).blocks == rs.blocks
    ensures StepLine(rs, line).current == rs.current + 1
  {
  }

  /** `parsed_type`: the kind of file the number of separators seen makes it. */
  function ParsedTypeOf(current: nat): (r: string)
    requires current <= 2
    ensures current == 0 <==> r == "message"
    ensures current == 1 <==> r == "service"
    ensures current == 2 <==> r == "action"
  {
    ["message", "service", "action"][current]
  }

  // ---------------------------------------------------------------------------
  // The object.

  /** The `message_path` argument: a path, or an object that is not one (`open` raises TypeError). */
  datatype PathArg = FilePath(path: string) | NotAPath

  /** Why `open` fails. */
  datatype FileError = FileNotFound(path: string) | TypeError

  /** What a call of `parse` ends with. */
  datatype ParseReturn = ReturnedNone | ReturnedSelf | Raised(error: FileError)

  /** The RuntimeError the accessors raise before `parse` has run. */
  datatype AccessError = NotParsed

  class FileParser {
    const name: string
    const messageType: string
    const messagePath: PathArg
    var content: seq<string>
    const blocks: seq<BlockParser>
    var current: nat
    var parseLock: bool

    ghost predicate Valid()
      reads this, blocks
    {
      |blocks| == 3 && blocks[0] != blocks[1] && blocks[0] != blocks[2] && blocks[1] != blocks[2]
      && RunOk(State())
      && (!parseLock ==> State() == Start() && content == [])
    }

    function State(): RunState
      reads this, blocks
      requires |blocks| == 3
    {
      RunState([blocks[0].Model(), blocks[1].Model(), blocks[2].Model()], current)
    }

    /** FileParser.__init__: three fresh blocks, the first current, not parsed. */
    constructor(messageName: string, path: PathArg, kind: string := "message")
      ensures Valid() && fresh(blocks)
      ensures name == messageName && messagePath == path && messageType == kind
      ensures !parseLock && content == [] && State() == Start()
    {
      name := messageName;
      messageType := kind;
      messagePath := path;
      content := [];
      var b0 := new BlockParser();
      var b1 := new BlockParser();
      var b2 := new BlockParser();
      blocks := [b0, b1, b2];
      current := 0;
      parseLock := false;
    }

    /** FileParser._parse_line: the token for the current block, or None after moving to the next block. */
    method ParseLine(line: string) returns (t: Option<Token>)
      requires Valid() && parseLock
      modifies this
      ensures Valid()
      ensures t == (match Classify(line, old(current)) case Emit(tok) => Some(tok) case Advance => None)
      ensures State() == (match Classify(line, old(current))
                          case Emit(_) => old(State())
                          case Advance => old(State()).(current := old(current) + 1))
      ensures content == old(content) && parseLock == old(parseLock)
    {
      var c := CommentFields.Parse(line);
      if c.Some? {
        return Some(CommentLine(c.value));
      }
      var f := MessageFields.ParseAsWritten(line);
      if f.Some? {
        return Some(Definition(f.value));
      }
      var dash: Option<Dash> := None;
      if current == 0 {
        dash := TripleDashFields.Parse(FirstTripleDash, line);
      }
      if current == 1 {
        dash := TripleDashFields.Parse(SecondTripleDash, line);
      }
      if dash.Some? {
        current := current + 1;
        return None;
      }
      return Some(Blank(EmptyLineFields.Parse(line)));
    }

    /** One iteration of the loop of `parse`: the line's token, if any, goes to the current block. */
    method ParseNext(line: string)
      requires Valid() && parseLock
      modifies this, blocks
      ensures Valid() && parseLock && content == old(content)
      ensures State() == StepLine(old(State()), line)
    {
      ghost var next := StepLine(State(), line);
      var t := ParseLine(line);
      if t.Some? {
        blocks[current].Append(t.value);
      }
      assert State() == next;
    }

    /**
     * FileParser.parse. A second call returns None and changes nothing. The
     * first call sets the flag before opening the file, so a failed open
     * leaves the object parsed with its blocks empty; otherwise every line goes
     * through the loop and the object is returned.
     */
    method Parse(fs: map<string, seq<string>>) returns (r: ParseReturn)
      requires Valid()
      modifies this, blocks
      ensures Valid() && parseLock
      ensures old(parseLock) ==> r == ReturnedNone && State() == old(State()) && content == old(content)
      ensures !old(parseLock) ==>
        match messagePath
        case NotAPath => r == Raised(TypeError) && State() == Start() && content == []
        case FilePath(p) =>
          if p !in fs then r == Raised(FileNotFound(p)) && State() == Start() && content == []
          else r == ReturnedSelf && content == fs[p] && State() == Run(fs[p])
    {
      if parseLock {
        return ReturnedNone;
      }
      parseLock := true;
      if messagePath.NotAPath? {
        return Raised(TypeError);
      }
      var p := messagePath.path;
      if p !in fs {
        return Raised(FileNotFound(p));
      }
      content := fs[p];
      var i := 0;
      while i < |content|
        invariant 0 <= i <= |content| && content == fs[p] && parseLock
        invariant Valid()
        invariant State() == RunFrom(Start(), content[..i])
      {
        assert content[..i + 1][..i] == content[..i];
        ParseNext(content[i]);
        i := i + 1;
      }
      assert content[..i] == content;
      return ReturnedSelf;
    }

    /** FileParser.name: available at any time. */
    function Name(): (r: string)
      reads this
      ensures r == name
    {
      name
    }

    /** FileParser.request: the first block, once `parse` has run. */
    function Request(): (r: Result<BlockParser, AccessError>)
      requires Valid()
      reads this, blocks
      ensures r.Ok? <==> parseLock
      ensures r.Ok? ==> r.value == blocks[0]
    {
      if !parseLock then Err(NotParsed) else Ok(blocks[0])
    }

    /** FileParser.message: an alias of `request`. */
    function Message(): (r: Result<BlockParser, AccessError>)
      requires Valid()
      reads this, blocks
      ensures r == Request()
    {
      Request()
    }

    /** FileParser.response: the second block, once `parse` has run. */
    function Response(): (r: Result<BlockParser, AccessError>)
      requires Valid()
      reads this, blocks
      ensures r.Ok? <==> parseLock
      ensures r.Ok? ==> r.value == blocks[1]
    {
      if !parseLock then Err(NotParsed) else Ok(blocks[1])
    }

    /** FileParser.feedback: the third block, once `parse` has run. */
    function Feedback(): (r: Result<BlockParser, AccessError>)
      requires Valid()
      reads this, blocks
      ensures r.Ok? <==> parseLock
      ensures r.Ok? ==> r.value == blocks[2]
    {
      if !parseLock then Err(NotParsed) else Ok(blocks[2])
    }

    /** FileParser.parsed_type: "message", "service" or "action" for 0, 1 or 2 separators seen. */
    function ParsedType(): (r: Result<string, AccessError>)
      requires Valid()
      reads this, blocks
      ensures r.Ok? <==> parseLock
      ensures r.Ok? ==> r.value == ParsedTypeOf(current)
    {
      if !parseLock then Err(NotParsed) else Ok(ParsedTypeOf(current))
    }
  }
}
