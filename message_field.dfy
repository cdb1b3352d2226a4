/**
 * MessageField (sphinx_rosmsgs/file_parser/message_field.py): the grammar of a
 * field definition line and the values the constructor extracts from a match.
 *
 * The pattern is
 *   ^\s*(?P<type>[a-zA-Z0-9/_]+)(?P<is_list>\[(?P<list_size>[0-9]*)\]){0,1}
 *   \s*(?P<name>[a-zA-Z0-9/_]+)\s*(?P<is_equal>=\s*(?P<value>.*)){0,1}$
 * Whitespace between type and name is optional, so where the type ends is
 * decided by Python's backtracking: the longest type first, with the bracket
 * group before without it. `Match` is a hand-written recogniser that follows
 * that order; `FieldMatch` reads the pattern as a language (every way of
 * splitting a line that the pattern allows), and `MatchIsPythonsChoice`
 * connects the two.
 */
module MessageFields {
  import opened Wrappers
  import opened Strings
  import opened Tokens
  import CommentFields

  /** The optional `=` group: the `=` at k, the `value` group at [v, ve); k == ve when absent. */
  datatype ValuePart = ValuePart(k: nat, v: Option<nat>, ve: nat)

  /** The `name` group at [n0, n1) and what follows it. */
  datatype Tail = Tail(n0: nat, n1: nat, rest: ValuePart)

  /** One way of splitting a line: the `type` group at [t0, t1), the `]` of the optional bracket group at close. */
  datatype FieldSplit = FieldSplit(t0: nat, t1: nat, close: Option<nat>, tail: Tail)

  // ---------------------------------------------------------------------------
  // The pattern read as a language.

  /** `\s*(?P<is_equal>=\s*(?P<value>.*)){0,1}$` from position p. */
  predicate ValueMatch(s: string, p: nat, vp: ValuePart)
  {
    p <= vp.k <= |s| && AllIn(s, p, vp.k, Space) &&
    match vp.v
    case Some(v) =>
      vp.k < |s| && s[vp.k] == '=' && vp.k + 1 <= v <= vp.ve <= |s|
      && AllIn(s, vp.k + 1, v, Space) && AllIn(s, v, vp.ve, Dot) && AtEnd(s, vp.ve)
    case None => vp.ve == vp.k && AtEnd(s, vp.k)
  }

  /** `\s*(?P<name>[a-zA-Z0-9/_]+)` and the value part, from position b. */
  predicate TailMatch(s: string, b: nat, t: Tail)
  {
    b <= t.n0 < t.n1 <= |s| && AllIn(s, b, t.n0, Space) && AllIn(s, t.n0, t.n1, FieldChar)
    && ValueMatch(s, t.n1, t.rest)
  }

  /** The whole pattern, anchored at both ends. */
  predicate FieldMatch(s: string, d: FieldSplit)
  {
    d.t0 < d.t1 <= |s| && AllIn(s, 0, d.t0, Space) && AllIn(s, d.t0, d.t1, FieldChar)
    && match d.close
       case Some(c) =>
         d.t1 < c < |s| && s[d.t1] == '[' && AllIn(s, d.t1 + 1, c, Digit) && s[c] == ']'
         && TailMatch(s, c + 1, d.tail)
       case None => TailMatch(s, d.t1, d.tail)
  }

  /**
   * m is the split Python's matcher reaches no later than d: a longer type,
   * or the same type, bracket and name, the same choice about the default, and
   * no fewer spaces eaten after `=`.
   */
  predicate Preferred(m: FieldSplit, d: FieldSplit)
  {
    d.t1 < m.t1 ||
    (d.t1 == m.t1 && d.close == m.close && SameTail(m.tail, d.tail))
  }

  /** t is reached no later than u: the same name, the same choice about the default, no fewer spaces after `=`. */
  predicate SameTail(t: Tail, u: Tail)
  {
    u.n0 == t.n0 && u.n1 == t.n1 && u.rest.v.Some? == t.rest.v.Some?
    && (u.rest.v.Some? ==> u.rest.v.value <= t.rest.v.value)
  }

  // ---------------------------------------------------------------------------
  // The recogniser, in the order the backtracking matcher tries alternatives.

  /** The value part from p: greedy `\s*`, then `=` if present, greedy `\s*`, greedy `.*`, `$`. */
  function ValueTail(s: string, p: nat): (r: Option<ValuePart>)
    requires p <= |s|
  {
    var k := Span(s, p, Space);
    if k < |s| && s[k] == '=' then
      var v := Span(s, k + 1, Space);
      var ve := Span(s, v, Dot);
      if AtEnd(s, ve) then Some(ValuePart(k, Some(v), ve)) else None
    else if AtEnd(s, k) then Some(ValuePart(k, None, k))
    else None
  }

  /** Greedy `\s*`, then the longest name, then the value part. */
  function NameTail(s: string, b: nat): (r: Option<Tail>)
    requires b <= |s|
  {
    var n0 := Span(s, b, Space);
    var n1 := Span(s, n0, FieldChar);
    if n1 == n0 then None
    else
      match ValueTail(s, n1)
      case None => None
      case Some(vp) => Some(Tail(n0, n1, vp))
  }

  /** `\[(?P<list_size>[0-9]*)\]` at position i: the index of its `]`. */
  function Bracket(s: string, i: nat): (r: Option<nat>)
    requires i <= |s|
  {
    if i < |s| && s[i] == '[' then
      var c := Span(s, i + 1, Digit);
      if c < |s| && s[c] == ']' then Some(c) else None
    else None
  }

  /** The two alternatives at one end j of the type: with the bracket group first, then without it. */
  function TryAt(s: string, t0: nat, j: nat): (r: Option<FieldSplit>)
    requires t0 < j <= |s|
    ensures r.Some? ==> r.value.t0 == t0 && r.value.t1 == j
  {
    var close := Bracket(s, j);
    if close.Some? && NameTail(s, close.value + 1).Some? then
      Some(FieldSplit(t0, j, close, NameTail(s, close.value + 1).value))
    else
      match NameTail(s, j)
      case Some(t) => Some(FieldSplit(t0, j, None, t))
      case None => None
  }

  /** Backtracking over the end of the type, from j down to one character after t0. */
  function Backtrack(s: string, t0: nat, j: nat): (r: Option<FieldSplit>)
    requires t0 <= j <= |s|
    ensures r.Some? ==> r.value.t0 == t0 && t0 < r.value.t1 <= j
    decreases j
  {
    if j == t0 then None
    else
      match TryAt(s, t0, j)
      case Some(m) => Some(m)
      case None => Backtrack(s, t0, j - 1)
  }

  /**
   * `PARSER.match(line)`: the leading whitespace, then the longest run of
   * type characters, given back one character at a time until the rest of
   * the pattern matches.
   */
  function Match(s: string): (r: Option<FieldSplit>)
    ensures r.Some? ==> FieldMatch(s, r.value)
  {
    var t0 := Span(s, 0, Space);
    var e := Span(s, t0, FieldChar);
    SpanFacts(s, 0, Space);
    SpanFacts(s, t0, FieldChar);
    BacktrackSound(s, t0, e);
    Backtrack(s, t0, e)
  }

  // ---------------------------------------------------------------------------
  // What the recogniser returns is a split the pattern allows.

  lemma ValueTailSound(s: string, p: nat)
    requires p <= |s|
    ensures ValueTail(s, p).Some? ==> ValueMatch(s, p, ValueTail(s, p).value)
  {
    var k := Span(s, p, Space);
    SpanFacts(s, p, Space);
    if k < |s| && s[k] == '=' {
      SpanFacts(s, k + 1, Space);
      SpanFacts(s, Span(s, k + 1, Space), Dot);
    }
  }

  lemma NameTailSound(s: string, b: nat)
    requires b <= |s|
    ensures NameTail(s, b).Some? ==> TailMatch(s, b, NameTail(s, b).value)
  {
    var n0 := Span(s, b, Space);
    SpanFacts(s, b, Space);
    SpanFacts(s, n0, FieldChar);
    ValueTailSound(s, Span(s, n0, FieldChar));
  }

  lemma BracketSound(s: string, i: nat)
    requires i <= |s|
    ensures Bracket(s, i).Some? ==>
      var c := Bracket(s, i).value;
      i < c < |s| && s[i] == '[' && AllIn(s, i + 1, c, Digit) && s[c] == ']'
  {
    if i < |s| {
      SpanFacts(s, i + 1, Digit);
    }
  }

  /** The split TryAt builds with the bracket group satisfies the pattern. */
  lemma BracketedSound(s: string, t0: nat, j: nat, c: nat)
    requires t0 < j <= |s|
    requires AllIn(s, 0, t0, Space) && AllIn(s, t0, j, FieldChar)
    requires Bracket(s, j) == Some(c) && c + 1 <= |s| && NameTail(s, c + 1).Some?
    ensures FieldMatch(s, FieldSplit(t0, j, Some(c), NameTail(s, c + 1).value))
  {
    BracketSound(s, j);
    NameTailSound(s, c + 1);
  }

  /** The split TryAt builds without the bracket group satisfies the pattern. */
  lemma PlainSound(s: string, t0: nat, j: nat)
    requires t0 < j <= |s|
    requires AllIn(s, 0, t0, Space) && AllIn(s, t0, j, FieldChar)
    requires NameTail(s, j).Some?
    ensures FieldMatch(s, FieldSplit(t0, j, None, NameTail(s, j).value))
  {
    NameTailSound(s, j);
  }

  lemma TryAtSound(s: string, t0: nat, j: nat)
    requires t0 < j <= |s|
    requires AllIn(s, 0, t0, Space) && AllIn(s, t0, j, FieldChar)
    ensures TryAt(s, t0, j).Some? ==> FieldMatch(s, TryAt(s, t0, j).value)
  {
    var close := Bracket(s, j);
    if close.Some? && NameTail(s, close.value + 1).Some? {
      var m := FieldSplit(t0, j, close, NameTail(s, close.value + 1).value);
      assert TryAt(s, t0, j) == Some(m);
      BracketedSound(s, t0, j, close.value);
    } else if NameTail(s, j).Some? {
      var m := FieldSplit(t0, j, None, NameTail(s, j).value);
      assert TryAt(s, t0, j) == Some(m);
      PlainSound(s, t0, j);
    } else {
      assert TryAt(s, t0, j).None?;
    }
  }

  /** Backtracking returns what the two alternatives give at the type end it stops at. */
  lemma {:induction false} BacktrackStops(s: string, t0: nat, j: nat)
    requires t0 <= j <= |s|
    ensures Backtrack(s, t0, j).Some? ==> Backtrack(s, t0, j) == TryAt(s, t0, Backtrack(s, t0, j).value.t1)
    decreases j
  {
    if j > t0 && TryAt(s, t0, j).None? {
      BacktrackStops(s, t0, j - 1);
    }
  }

  lemma BacktrackSound(s: string, t0: nat, j: nat)
    requires t0 <= j <= |s|
    requires AllIn(s, 0, t0, Space) && AllIn(s, t0, j, FieldChar)
    ensures Backtrack(s, t0, j).Some? ==> FieldMatch(s, Backtrack(s, t0, j).value)
  {
    BacktrackStops(s, t0, j);
    if Backtrack(s, t0, j).Some? {
      var t1 := Backtrack(s, t0, j).value.t1;
      TryAtSound(s, t0, t1);
    }
  }

  // ---------------------------------------------------------------------------
  // The recogniser finds a split whenever there is one, and the first one.

  lemma ValueTailComplete(s: string, p: nat, vp: ValuePart)
    requires p <= |s| && ValueMatch(s, p, vp)
    ensures ValueTail(s, p).Some?
    ensures ValueTail(s, p).value.v.Some? == vp.v.Some?
    ensures vp.v.Some? ==> vp.v.value <= ValueTail(s, p).value.v.value
  {
    var k := Span(s, p, Space);
    SpanAtLeast(s, p, vp.k, Space);
    match vp.v
    case Some(v) =>
      SpanUnique(s, p, vp.k, Space);
      var w := Span(s, k + 1, Space);
      SpanAtLeast(s, k + 1, v, Space);
      SpanFacts(s, k + 1, Space);
      if w <= vp.ve {
        SpanUnique(s, w, vp.ve, Dot);
      } else {
        assert In(Space, s[vp.ve]);
        assert w == |s|;
      }
    case None =>
      if vp.k < |s| {
        assert s[vp.k] == '\n';
        SpanAtLeast(s, p, vp.k + 1, Space);
      }
  }

  lemma NameTailComplete(s: string, b: nat, t: Tail)
    requires b <= |s| && TailMatch(s, b, t)
    ensures NameTail(s, b).Some? && SameTail(NameTail(s, b).value, t)
  {
    assert In(FieldChar, s[t.n0]);
    SpanUnique(s, b, t.n0, Space);
    if t.rest.k == t.n1 {
      assert t.n1 == |s| || s[t.n1] == '=' || s[t.n1] == '\n';
    } else {
      assert In(Space, s[t.n1]);
    }
    SpanUnique(s, t.n0, t.n1, FieldChar);
    ValueTailComplete(s, t.n1, t.rest);
  }

  /** At the type end of d, TryAt succeeds with d's own bracket and name. */
  lemma TryAtComplete(s: string, d: FieldSplit)
    requires FieldMatch(s, d)
    ensures TryAt(s, d.t0, d.t1).Some? && Preferred(TryAt(s, d.t0, d.t1).value, d)
  {
    match d.close
    case Some(c) =>
      assert Bracket(s, d.t1) == Some(c) by {
        assert !In(Digit, ']');
        SpanUnique(s, d.t1 + 1, c, Digit);
      }
      NameTailComplete(s, c + 1, d.tail);
    case None =>
      assert Bracket(s, d.t1).None? by {
        if d.tail.n0 == d.t1 {
          assert In(FieldChar, s[d.t1]);
        } else {
          assert In(Space, s[d.t1]);
        }
      }
      NameTailComplete(s, d.t1, d.tail);
  }

  /** Backtracking from any type end at or after d's reaches a split no later than d. */
  lemma {:induction false} BacktrackComplete(s: string, j: nat, d: FieldSplit)
    requires d.t0 < d.t1 <= j <= |s|
    requires TryAt(s, d.t0, d.t1).Some? && Preferred(TryAt(s, d.t0, d.t1).value, d)
    ensures Backtrack(s, d.t0, j).Some? && Preferred(Backtrack(s, d.t0, j).value, d)
    decreases j
  {
    if TryAt(s, d.t0, j).None? {
      BacktrackComplete(s, j - 1, d);
    }
  }

  /** Every split the pattern allows is the one Match finds or one it would try later. */
  lemma MatchComplete(s: string, d: FieldSplit)
    requires FieldMatch(s, d)
    ensures Match(s).Some? && Preferred(Match(s).value, d)
  {
    assert In(FieldChar, s[d.t0]);
    SpanUnique(s, 0, d.t0, Space);
    var e := Span(s, d.t0, FieldChar);
    SpanAtLeast(s, d.t0, d.t1, FieldChar);
    TryAtComplete(s, d);
    BacktrackComplete(s, e, d);
  }

  /**
   * The recogniser agrees with the pattern: it succeeds exactly when some
   * split exists, and the split it returns is the one Python's matcher
   * reaches first, so its groups are the ones `match.group` reports.
   */
  lemma MatchIsPythonsChoice(s: string)
    ensures Match(s).Some? <==> exists d :: FieldMatch(s, d)
    ensures forall d :: FieldMatch(s, d) ==> Match(s).Some? && Preferred(Match(s).value, d)
  {
    forall d | FieldMatch(s, d) ensures Match(s).Some? && Preferred(Match(s).value, d) {
      MatchComplete(s, d);
    }
  }

  // ---------------------------------------------------------------------------
  // The groups of a match and the values MessageField.__init__ keeps.

  /** What `match.group(...)` reports for each named group; None for a group that took no part. */
  datatype Groups = Groups(
    typ: string,
    isList: Option<string>,
    listSize: Option<string>,
    name: string,
    isEqual: Option<string>,
    value: Option<string>)

  /** The positions of d are ordered and inside s, so that its groups can be sliced out. */
  predicate InBounds(s: string, d: FieldSplit)
  {
    d.t0 <= d.t1 <= |s| && d.tail.n0 <= d.tail.n1 <= |s|
    && (d.close.Some? ==> d.t1 + 1 <= d.close.value < |s|)
    && (d.tail.rest.v.Some? ==> d.tail.rest.k <= d.tail.rest.v.value <= d.tail.rest.ve <= |s|)
  }

  /** The groups of the split d of line s. */
  function GroupsOf(s: string, d: FieldSplit): (g: Groups)
    requires InBounds(s, d)
    ensures g.isList.Some? <==> d.close.Some?
    ensures g.isEqual.Some? <==> d.tail.rest.v.Some?
    ensures g.isList.Some? <==> g.listSize.Some?
    ensures g.isEqual.Some? <==> g.value.Some?
  {
    Groups(
      s[d.t0..d.t1],
      if d.close.Some? then Some(s[d.t1..d.close.value + 1]) else None,
      if d.close.Some? then Some(s[d.t1 + 1..d.close.value]) else None,
      s[d.tail.n0..d.tail.n1],
      if d.tail.rest.v.Some? then Some(s[d.tail.rest.k..d.tail.rest.ve]) else None,
      if d.tail.rest.v.Some? then Some(s[d.tail.rest.v.value..d.tail.rest.ve]) else None)
  }

  /**
   * MessageField.__init__ as written: `is_variable` is `list_size is None`,
   * which never holds once `is_list` took part, because `[0-9]*` matches the
   * empty string (AsWrittenNeverVariable).
   */
  function FromGroupsAsWritten(g: Groups): (f: Field)
    requires g.isEqual.Some? ==> g.value.Some?
    ensures f.isList <==> g.isList.Some?
    ensures f.hasDefault <==> g.isEqual.Some?
    ensures f.isVariable <==> g.isList.Some? && g.listSize.None?
    ensures f.typ == g.typ && f.name == g.name
    ensures f.size == if g.isList.Some? && g.listSize.Some? then Digits(g.listSize.value) else Zero
    ensures f.default == if g.isEqual.Some? then g.value.value else ""
    ensures f.text == CommentFields.Empty()
  {
    var isList := g.isList.Some?;
    var hasDefault := g.isEqual.Some?;
    var isVariable := isList && g.listSize.None?;
    Field(g.typ, g.name, isList, hasDefault, isVariable,
      if isList && !isVariable then Digits(g.listSize.value) else Zero,
      if hasDefault then g.value.value else "",
      CommentFields.Empty())
  }

  /**
   * MessageField.__init__ as evidently intended: an array whose brackets hold
   * no digits is variable-length and keeps the size 0.
   */
  function FromGroups(g: Groups): (f: Field)
    requires g.isEqual.Some? ==> g.value.Some?
    ensures f.isList <==> g.isList.Some?
    ensures f.hasDefault <==> g.isEqual.Some?
    ensures f.isVariable <==> g.isList.Some? && (g.listSize.None? || g.listSize == Some(""))
    ensures f.typ == g.typ && f.name == g.name
    ensures f.size == if g.isList.Some? && g.listSize.Some? && g.listSize != Some("") then Digits(g.listSize.value) else Zero
    ensures f.default == if g.isEqual.Some? then g.value.value else ""
    ensures f.text == CommentFields.Empty()
  {
    var isList := g.isList.Some?;
    var hasDefault := g.isEqual.Some?;
    var isVariable := isList && (g.listSize.None? || g.listSize == Some(""));
    Field(g.typ, g.name, isList, hasDefault, isVariable,
      if isList && !isVariable then Digits(g.listSize.value) else Zero,
      if hasDefault then g.value.value else "",
      CommentFields.Empty())
  }

  /** MessageField.parse as written: None when the line does not match. */
  function ParseAsWritten(line: string): (r: Option<Field>)
    ensures r.Some? <==> Match(line).Some?
  {
    match Match(line)
    case None => None
    case Some(d) => Some(FromGroupsAsWritten(GroupsOf(line, d)))
  }

  /** MessageField.parse with the intended constructor: `T[]` is variable-length. */
  function Parse(line: string): (r: Option<Field>)
    ensures r.Some? <==> Match(line).Some?
  {
    match Match(line)
    case None => None
    case Some(d) => Some(FromGroups(GroupsOf(line, d)))
  }

  /** MessageField.set_text: only a CommentField replaces the attached comment. */
  function SetText(f: Field, arg: Token): (r: Field)
    ensures r.text == (if arg.CommentLine? then arg.comment else f.text)
    ensures r.(text := f.text) == f
  {
    if arg.CommentLine? then f.(text := arg.comment) else f
  }

  /** `str(self.size)`: the initial integer 0 prints as "0", a captured size as its digits. */
  function SizeText(z: Size): string
  {
    match z
    case Zero => "0"
    case Digits(t) => t
  }

  /** The text between the brackets of `type_text`: the size of a fixed-length array, nothing for a variable one. */
  function SizeDigits(f: Field): string
  {
    if !f.isVariable then SizeText(f.size) else ""
  }

  /** The bracket suffix of `type_text`: nothing, `[]`, or `[N]`. */
  function BracketText(f: Field): string
  {
    if f.isList then "[" + SizeDigits(f) + "]" else ""
  }

  /** MessageField.type_text: the type, then the brackets of an array with the size of a fixed one. */
  function TypeText(f: Field): (r: string)
    ensures |r| >= |f.typ| && r[..|f.typ|] == f.typ
    ensures f.isList <==> |r| > |f.typ|
  {
    f.typ + BracketText(f)
  }

  /** MessageField.default_text: empty, or `= ` and the default value. */
  function DefaultText(f: Field): (r: string)
    ensures !f.hasDefault ==> r == ""
    ensures f.hasDefault ==> |r| >= 2 && r[..2] == "= " && r[2..] == f.default
  {
    if f.hasDefault then "= " + f.default else ""
  }

  /** MessageField.__str__: the declaration, then the attached comment between parentheses. */
  function Str(f: Field): (r: string)
    ensures var head := TypeText(f) + " " + f.name + " ";
      |head| <= |r| && r[..|head|] == head
    ensures var tail := CommentFields.Text(f.text) + "\n)\n";
      |tail| <= |r| && r[|r| - |tail|..] == tail
    ensures var head, mid := TypeText(f) + " " + f.name + " ", DefaultText(f) + " (\n";
      |r| == |head| + |mid| + |CommentFields.Text(f.text)| + 3 && r[|head|..|head| + |mid|] == mid
  {
    TypeText(f) + " " + f.name + " " + DefaultText(f) + " (\n" + CommentFields.Text(f.text) + "\n)\n"
  }

  // ---------------------------------------------------------------------------
  // Properties of parsing.

  /** Parse succeeds exactly on the lines the pattern matches. */
  lemma ParseAcceptsIff(line: string)
    ensures Parse(line).Some? <==> exists d :: FieldMatch(line, d)
    ensures ParseAsWritten(line).Some? <==> exists d :: FieldMatch(line, d)
  {
    MatchIsPythonsChoice(line);
  }

  /** As written, `is_variable` is never set: `int32[] data` is a list of size "" and not variable. */
  lemma AsWrittenNeverVariable(line: string)
    ensures ParseAsWritten(line).Some? ==> !ParseAsWritten(line).value.isVariable
  {
  }

  /**
   * The intended constructor differs from the written one only in the
   * variable-length flag and the size of `T[]`, and both render the same
   * type text.
   */
  lemma ParseAgreesWithAsWritten(line: string)
    ensures Parse(line).Some? <==> ParseAsWritten(line).Some?
    ensures Parse(line).Some? ==>
      var f := Parse(line).value;
      var w := ParseAsWritten(line).value;
      f.(isVariable := w.isVariable, size := w.size) == w && TypeText(f) == TypeText(w)
  {
  }

  /**
   * `int32[] data`: as written a list of size "" that is not variable-length;
   * with the intended constructor a variable-length list of size 0.
   */
  lemma EmptyBracketsExample()
    ensures ParseAsWritten("int32[] data") == Some(Field("int32", "data", true, false, false, Digits(""), "", Comment([])))
    ensures Parse("int32[] data") == Some(Field("int32", "data", true, false, true, Zero, "", Comment([])))
  {
    var f := Field("int32", "data", true, false, true, Zero, "", Comment([]));
    assert CanonicalLine(f) == "int32[] data";
    CanonicalLineRoundTrip(f);
    var d := Match("int32[] data").value;
    var g := GroupsOf("int32[] data", d);
    assert FromGroups(g) == f;
    assert g.listSize == Some("");
  }

  /** A type or a name: one or more of `[a-zA-Z0-9/_]`. */
  predicate IsToken(x: string)
  {
    |x| > 0 && forall m :: 0 <= m < |x| ==> In(FieldChar, x[m])
  }

  /** The size of a fixed-length array: one or more digits. */
  predicate IsDigits(x: string)
  {
    |x| > 0 && forall m :: 0 <= m < |x| ==> In(Digit, x[m])
  }

  /** A default value: one line, not starting with whitespace (the spaces after `=` are not part of it). */
  predicate IsValue(x: string)
  {
    (forall m :: 0 <= m < |x| ==> In(Dot, x[m])) && (x == [] || !In(Space, x[0]))
  }

  /** A scalar has size 0; an array is variable-length with size 0 or has a size of digits. */
  predicate SizeOk(f: Field)
  {
    if !f.isList then !f.isVariable && f.size == Zero
    else if f.isVariable then f.size == Zero
    else f.size.Digits? && IsDigits(f.size.text)
  }

  predicate DefaultOk(f: Field)
  {
    if f.hasDefault then IsValue(f.default) else f.default == ""
  }

  /** The fields Parse produces. */
  predicate WellFormed(f: Field)
  {
    IsToken(f.typ) && IsToken(f.name) && SizeOk(f) && DefaultOk(f) && f.text == Comment([])
  }

  /** A whitespace character at the start of the value group can go to the `\s*` after `=` instead. */
  lemma OneMoreSpace(s: string, p: nat, vp: ValuePart)
    requires ValueMatch(s, p, vp) && vp.v.Some? && vp.v.value < vp.ve && In(Space, s[vp.v.value])
    ensures ValueMatch(s, p, vp.(v := Some(vp.v.value + 1)))
  {
  }

  /** Replacing the value part of a split by another one that matches after the name keeps a match. */
  lemma WithRest(s: string, d: FieldSplit, rest: ValuePart)
    requires FieldMatch(s, d) && ValueMatch(s, d.tail.n1, rest)
    ensures FieldMatch(s, d.(tail := d.tail.(rest := rest)))
  {
  }

  /** The value group of the chosen split starts after every space that follows `=`. */
  lemma MatchValueAfterSpaces(line: string)
    requires Match(line).Some? && Match(line).value.tail.rest.v.Some?
    ensures var vp := Match(line).value.tail.rest;
            vp.v.value == vp.ve || !In(Space, line[vp.v.value])
  {
    var d := Match(line).value;
    var vp := d.tail.rest;
    if vp.v.value < vp.ve && In(Space, line[vp.v.value]) {
      var rest := vp.(v := Some(vp.v.value + 1));
      OneMoreSpace(line, d.tail.n1, vp);
      WithRest(line, d, rest);
      MatchComplete(line, d.(tail := d.tail.(rest := rest)));
      assert false;
    }
  }

  /** The values built from the groups of a split are well formed. */
  lemma GroupsWellFormed(s: string, d: FieldSplit)
    requires FieldMatch(s, d)
    requires d.tail.rest.v.Some? ==> d.tail.rest.v.value == d.tail.rest.ve || !In(Space, s[d.tail.rest.v.value])
    ensures WellFormed(FromGroups(GroupsOf(s, d)))
  {
    var g := GroupsOf(s, d);
    forall m | 0 <= m < |g.typ| ensures In(FieldChar, g.typ[m]) {
      assert g.typ[m] == s[d.t0 + m];
    }
    forall m | 0 <= m < |g.name| ensures In(FieldChar, g.name[m]) {
      assert g.name[m] == s[d.tail.n0 + m];
    }
    if d.close.Some? {
      var z := g.listSize.value;
      forall m | 0 <= m < |z| ensures In(Digit, z[m]) {
        assert z[m] == s[d.t1 + 1 + m];
      }
    }
    if d.tail.rest.v.Some? {
      var value := g.value.value;
      forall m | 0 <= m < |value| ensures In(Dot, value[m]) {
        assert value[m] == s[d.tail.rest.v.value + m];
      }
    }
  }

  /** Every parsed field is well formed. */
  lemma ParseWellFormed(line: string)
    ensures Parse(line).Some? ==> WellFormed(Parse(line).value)
  {
    if Match(line).Some? {
      if Match(line).value.tail.rest.v.Some? {
        MatchValueAfterSpaces(line);
      }
      GroupsWellFormed(line, Match(line).value);
    }
  }

  /** The line a well-formed field is written as: its type text, a space, its name, and ` = value` for a default. */
  function CanonicalLine(f: Field): string
  {
    TypeText(f) + " " + f.name + DefaultPart(f)
  }

  /** What follows the name in the canonical line: ` = ` and the default, if there is one. */
  function DefaultPart(f: Field): (r: string)
    ensures f.hasDefault ==> r == " " + DefaultText(f)
  {
    if f.hasDefault then " = " + f.default else ""
  }

  // The canonical line, piece by piece.

  lemma {:induction false} SpanShift(a: string, b: string, i: nat, k: Class)
    requires i <= |b|
    ensures Span(a + b, |a| + i, k) == |a| + Span(b, i, k)
    decreases |b| - i
  {
    if i < |b| {
      assert (a + b)[|a| + i] == b[i];
      if In(k, b[i]) {
        SpanShift(a, b, i + 1, k);
      }
    }
  }

  /** A whole run of class-k characters, followed by nothing or by a character outside k. */
  lemma RunFirst(x: string, q: string, k: Class)
    requires forall m :: 0 <= m < |x| ==> In(k, x[m])
    requires q == [] || !In(k, q[0])
    ensures Span(x + q, 0, k) == |x|
  {
    forall m | 0 <= m < |x| ensures In(k, (x + q)[m]) {
      assert (x + q)[m] == x[m];
    }
    if q != [] {
      assert (x + q)[|x|] == q[0];
    }
    SpanUnique(x + q, 0, |x|, k);
  }

  lemma Regroup(p: string, x: string, q: string)
    ensures p + x + q == p + (x + q)
  {
  }

  /** A run of class-k characters x after p and before a character outside k is what Span consumes. */
  lemma RunAt(p: string, x: string, q: string, k: Class)
    requires forall m :: 0 <= m < |x| ==> In(k, x[m])
    requires q == [] || !In(k, q[0])
    ensures Span(p + x + q, |p|, k) == |p| + |x|
  {
    RunFirst(x, q, k);
    Regroup(p, x, q);
    SpanShift(p, x + q, 0, k);
  }

  /** ` = value` after p, up to the end. */
  lemma ValueTailOfDefault(p: string, value: string)
    requires forall m :: 0 <= m < |value| ==> In(Dot, value[m])
    requires value == [] || !In(Space, value[0])
    ensures ValueTail(p + (" = " + value), |p|) == Some(ValuePart(|p| + 1, Some(|p| + 3), |p| + 3 + |value|))
  {
    var s := p + (" = " + value);
    assert s == p + " " + ("= " + value);
    RunAt(p, " ", "= " + value, Space);
    assert s[|p| + 1] == '=';
    assert s == (p + " =") + " " + value;
    RunAt(p + " =", " ", value, Space);
    assert s == (p + " = ") + value + [];
    RunAt(p + " = ", value, [], Dot);
  }

  /** Nothing after p. */
  lemma ValueTailOfNothing(p: string)
    ensures ValueTail(p, |p|) == Some(ValuePart(|p|, None, |p|))
  {
  }

  /** A space and the name after p, followed by rest, which starts with a space if anything. */
  lemma NameTailOfName(p: string, name: string, rest: string)
    requires |name| > 0 && forall m :: 0 <= m < |name| ==> In(FieldChar, name[m])
    requires rest == [] || rest[0] == ' '
    requires ValueTail(p + " " + name + rest, |p| + 1 + |name|).Some?
    ensures NameTail(p + " " + name + rest, |p|) ==
      Some(Tail(|p| + 1, |p| + 1 + |name|, ValueTail(p + " " + name + rest, |p| + 1 + |name|).value))
  {
    var s := p + " " + name + rest;
    assert !In(Space, name[0]);
    assert s == p + " " + (name + rest);
    RunAt(p, " ", name + rest, Space);
    assert s == (p + " ") + name + rest;
    RunAt(p + " ", name, rest, FieldChar);
  }

  /** `[digits]` after p. */
  lemma BracketOfDigits(p: string, digits: string, rest: string)
    requires forall m :: 0 <= m < |digits| ==> In(Digit, digits[m])
    ensures Bracket(p + "[" + digits + "]" + rest, |p|) == Some(|p| + 1 + |digits|)
  {
    var s := p + "[" + digits + "]" + rest;
    assert s == (p + "[") + digits + ("]" + rest);
    RunAt(p + "[", digits, "]" + rest, Digit);
    assert s[|p|] == '[' && s[|p| + 1 + |digits|] == ']';
  }

  /** Where the groups of a canonical line are. */
  function CanonicalSplit(f: Field): FieldSplit
  {
    var e := |f.typ|;
    var b := |TypeText(f)|;
    var n1 := b + 1 + |f.name|;
    FieldSplit(0, e, if f.isList then Some(b - 1) else None,
      Tail(b + 1, n1,
        if f.hasDefault then ValuePart(n1 + 1, Some(n1 + 3), n1 + 3 + |f.default|)
        else ValuePart(n1, None, n1)))
  }

  /** The type of a canonical line, then the rest: a bracket or the space before the name. */
  lemma TypeRun(typ: string, rest: string)
    requires IsToken(typ)
    requires |rest| > 0 && (rest[0] == '[' || rest[0] == ' ')
    ensures Span(typ + rest, 0, Space) == 0
    ensures Span(typ + rest, 0, FieldChar) == |typ|
  {
    assert (typ + rest)[0] == typ[0];
    assert !In(Space, typ[0]);
    SpanUnique(typ + rest, 0, 0, Space);
    RunFirst(typ, rest, FieldChar);
  }

  lemma RegroupAfterType(typ: string, br: string, name: string, dp: string)
    ensures typ + br + " " + name + dp == typ + (br + " " + name + dp)
    ensures (br + " " + name + dp)[0] == (if br == [] then ' ' else br[0])
  {
  }

  lemma RegroupBracket(typ: string, z: string, name: string, dp: string)
    ensures typ + ("[" + z + "]") + " " + name + dp == typ + "[" + z + "]" + (" " + name + dp)
  {
  }

  /** The leading whitespace and the run of type characters of a canonical line. */
  lemma CanonicalType(f: Field)
    requires IsToken(f.typ)
    ensures Span(CanonicalLine(f), 0, Space) == 0
    ensures Span(CanonicalLine(f), 0, FieldChar) == |f.typ|
  {
    RegroupAfterType(f.typ, BracketText(f), f.name, DefaultPart(f));
    TypeRun(f.typ, BracketText(f) + " " + f.name + DefaultPart(f));
  }

  /** The bracket group of a canonical line closes where type_text ends. */
  lemma CanonicalBracket(f: Field)
    requires SizeOk(f)
    ensures Bracket(CanonicalLine(f), |f.typ|) == CanonicalSplit(f).close
  {
    if f.isList {
      var z := SizeDigits(f);
      RegroupBracket(f.typ, z, f.name, DefaultPart(f));
      BracketOfDigits(f.typ, z, " " + f.name + DefaultPart(f));
    } else {
      RegroupAfterType(f.typ, BracketText(f), f.name, DefaultPart(f));
    }
  }

  /** After p: a space, the name, and ` = value` when there is a default. */
  lemma TailAfter(p: string, name: string, hasDefault: bool, value: string, line: string, t: Tail)
    requires IsToken(name)
    requires hasDefault ==> IsValue(value)
    requires line == p + " " + name + (if hasDefault then " = " + value else "")
    requires var n1 := |p| + 1 + |name|;
      t == Tail(|p| + 1, n1,
        if hasDefault then ValuePart(n1 + 1, Some(n1 + 3), n1 + 3 + |value|) else ValuePart(n1, None, n1))
    ensures NameTail(line, |p|) == Some(t)
  {
    if hasDefault {
      ValueTailOfDefault(p + " " + name, value);
    } else {
      ValueTailOfNothing(p + " " + name);
    }
    NameTailOfName(p, name, if hasDefault then " = " + value else "");
  }

  /** The name and what follows it sit where the canonical line puts them. */
  lemma CanonicalTail(f: Field)
    requires IsToken(f.name) && DefaultOk(f)
    ensures NameTail(CanonicalLine(f), |TypeText(f)|) == Some(CanonicalSplit(f).tail)
  {
    TailAfter(TypeText(f), f.name, f.hasDefault, f.default, CanonicalLine(f), CanonicalSplit(f).tail);
  }

  /** A line with no leading whitespace whose longest type succeeds at once: Match takes that type end. */
  lemma MatchAtLongest(s: string, e: nat, close: Option<nat>, tail: Tail)
    requires 0 < e <= |s| && Span(s, 0, Space) == 0 && Span(s, 0, FieldChar) == e
    requires Bracket(s, e) == close
    requires close.Some? ==> NameTail(s, close.value + 1) == Some(tail)
    requires close.None? ==> NameTail(s, e) == Some(tail)
    ensures Match(s) == Some(FieldSplit(0, e, close, tail))
  {
    assert TryAt(s, 0, e) == Some(FieldSplit(0, e, close, tail));
    assert Backtrack(s, 0, e) == TryAt(s, 0, e);
  }

  /** Match finds the canonical split of a canonical line. */
  lemma CanonicalMatch(f: Field)
    requires WellFormed(f)
    ensures Match(CanonicalLine(f)) == Some(CanonicalSplit(f))
  {
    CanonicalType(f);
    CanonicalBracket(f);
    CanonicalTail(f);
    var d := CanonicalSplit(f);
    assert d.close.Some? ==> d.close.value + 1 == |TypeText(f)|;
    assert d.close.None? ==> |f.typ| == |TypeText(f)|;
    MatchAtLongest(CanonicalLine(f), |f.typ|, d.close, d.tail);
  }

  // Where the groups of the canonical line sit, on its pieces typ + br + " " + name + dp.

  lemma LayoutSlices(typ: string, br: string, name: string, dp: string)
    ensures var s := typ + br + " " + name + dp;
      s[0..|typ|] == typ && s[|typ|..|typ| + |br|] == br
      && s[|typ| + |br| + 1..|typ| + |br| + 1 + |name|] == name
  {
    var s := typ + br + " " + name + dp;
    assert s[0..|typ|] == typ;
    assert s[|typ|..|typ| + |br|] == br;
    assert s[|typ| + |br| + 1..|typ| + |br| + 1 + |name|] == name;
  }

  lemma LayoutSize(typ: string, z: string, name: string, dp: string)
    ensures (typ + ("[" + z + "]") + " " + name + dp)[|typ| + 1..|typ| + 1 + |z|] == z
  {
    var s := typ + ("[" + z + "]") + " " + name + dp;
    assert s[|typ| + 1..|typ| + 1 + |z|] == z;
  }

  lemma LayoutDefault(typ: string, br: string, name: string, value: string)
    ensures var s := typ + br + " " + name + (" = " + value);
      var n1 := |typ| + |br| + 1 + |name|;
      |s| == n1 + 3 + |value| && s[n1 + 1..n1 + 3 + |value|] == "= " + value
      && s[n1 + 3..n1 + 3 + |value|] == value
  {
    var s := typ + br + " " + name + (" = " + value);
    var n1 := |typ| + |br| + 1 + |name|;
    assert s[n1 + 1..n1 + 3 + |value|] == "= " + value;
    assert s[n1 + 3..n1 + 3 + |value|] == value;
  }

  /** The groups `match.group` reports for the canonical line of f. */
  function CanonicalGroupsOf(f: Field): Groups
  {
    Groups(f.typ,
      if f.isList then Some("[" + SizeDigits(f) + "]") else None,
      if f.isList then Some(SizeDigits(f)) else None,
      f.name,
      if f.hasDefault then Some("= " + f.default) else None,
      if f.hasDefault then Some(f.default) else None)
  }

  lemma CanonicalGroups(f: Field)
    requires InBounds(CanonicalLine(f), CanonicalSplit(f))
    ensures GroupsOf(CanonicalLine(f), CanonicalSplit(f)) == CanonicalGroupsOf(f)
  {
    LayoutSlices(f.typ, BracketText(f), f.name, DefaultPart(f));
    if f.isList {
      LayoutSize(f.typ, SizeDigits(f), f.name, DefaultPart(f));
    }
    if f.hasDefault {
      LayoutDefault(f.typ, BracketText(f), f.name, f.default);
    }
  }

  lemma FromCanonicalGroups(f: Field)
    requires WellFormed(f)
    ensures FromGroups(CanonicalGroupsOf(f)) == f
  {
  }

  /**
   * Writing a well-formed field as its canonical line and parsing that line
   * gives the field back: type, array-ness, size, name and default survive.
   */
  lemma CanonicalLineRoundTrip(f: Field)
    requires WellFormed(f)
    ensures Parse(CanonicalLine(f)) == Some(f)
  {
    CanonicalMatch(f);
    CanonicalGroups(f);
    FromCanonicalGroups(f);
  }

  /** The canonical line is a normal form: re-parsing it reproduces what the original line parsed to. */
  lemma CanonicalLineNormalForm(line: string)
    ensures Parse(line).Some? ==> Parse(CanonicalLine(Parse(line).value)) == Parse(line)
  {
    if Parse(line).Some? {
      ParseWellFormed(line);
      CanonicalLineRoundTrip(Parse(line).value);
    }
  }
}
