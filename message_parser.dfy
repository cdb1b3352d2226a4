/**
 * MessageParser (sphinx_rosmsgs/file_parser/message_parser.py): the older
 * copy of the block state machine. Its `append` performs the same
 * transition as BlockParser's, so it is specified by `BlockParsers.Step`; on
 * top of it the class can be unlocked and rendered.
 */
module MessageParsers {
  import opened Tokens
  import opened Strings
  import CommentFields
  import MessageFields
  import opened BlockParsers

  /** `obj.__class__.__name__` of an entry. */
  function ClassName(e: Entry): (r: string)
    ensures r == "MessageField" <==> e.Defined?
    ensures r == "CommentField" <==> e.Floating?
  {
    match e
    case Floating(_) => "CommentField"
    case Defined(_) => "MessageField"
  }

  /** `str(obj)` of an entry: the text of a comment, the rendering of a definition. */
  function EntryText(e: Entry): string
  {
    match e
    case Floating(c) => CommentFields.Text(c)
    case Defined(f) => MessageFields.Str(f)
  }

  /** MessageParser.directive_output: every entry, in order, paired with its class name. */
  function DirectiveOutputOf(fields: seq<Entry>): (r: seq<(string, Entry)>)
    ensures |r| == |fields|
    ensures forall i :: 0 <= i < |r| ==> r[i].1 == fields[i] && r[i].0 == ClassName(fields[i])
  {
    if fields == [] then [] else [(ClassName(fields[0]), fields[0])] + DirectiveOutputOf(fields[1..])
  }

  /** `[str(f) for f in self._fields]`. */
  function Texts(fields: seq<Entry>): (r: seq<string>)
    ensures |r| == |fields| && forall i :: 0 <= i < |r| ==> r[i] == EntryText(fields[i])
  {
    if fields == [] then [] else [EntryText(fields[0])] + Texts(fields[1..])
  }

  /** MessageParser.__str__: the renderings of the entries, one per line. */
  function StrOf(fields: seq<Entry>): (r: string)
    ensures fields == [] ==> r == ""
    ensures |fields| == 1 ==> r == EntryText(fields[0])
  {
    JoinLines(Texts(fields))
  }

  /** Appending an entry adds its rendering on a line of its own. */
  lemma StrOfAppend(fields: seq<Entry>, e: Entry)
    requires fields != []
    ensures StrOf(fields + [e]) == StrOf(fields) + "\n" + EntryText(e)
  {
    assert Texts(fields + [e]) == Texts(fields) + Texts([e]);
    JoinLinesAppend(Texts(fields), Texts([e]));
  }

  /** With two or more entries, the rendering is that of all but the last, a newline, and the last one's. */
  lemma StrOfLast(fields: seq<Entry>)
    ensures |fields| >= 2 ==>
      StrOf(fields) == StrOf(fields[..|fields| - 1]) + "\n" + EntryText(fields[|fields| - 1])
  {
    if |fields| >= 2 {
      var n := |fields| - 1;
      assert fields == fields[..n] + [fields[n]];
      StrOfAppend(fields[..n], fields[n]);
    }
  }

  /** `unlock` makes a locked parser take tokens again: a definition with no comment before it is appended. */
  lemma UnlockReenables(st: BlockState, f: Field)
    requires Invariant(st) && !st.prev.CommentLine?
    ensures Invariant(st.(locked := false))
    ensures Step(st.(locked := false), Definition(f)).fields == st.fields + [Defined(f)]
  {
  }

  /** The MessageParser object. */
  class MessageParser {
    var fields: seq<Entry>
    var defs: map<string, Field>
    var keys: seq<string>
    var prevLine: Token
    var locked: bool

    function Model(): BlockState
      reads this
    {
      BlockState(fields, defs, keys, prevLine, locked)
    }

    predicate Valid()
      reads this
    {
      Invariant(Model())
    }

    /** MessageParser.__init__. */
    constructor()
      ensures Valid() && Model() == Initial()
    {
      fields := [];
      defs := map[];
      keys := [];
      prevLine := Blank(EmptyLine);
      locked := false;
    }

    /** MessageParser.append: the transition of BlockParser.append. */
    method Append(t: Token)
      requires Valid()
      modifies this
      ensures Valid() && Model() == Step(old(Model()), t)
    {
      var next := Step(Model(), t);
      fields, defs, keys, prevLine, locked := next.fields, next.defs, next.keys, next.prev, next.locked;
    }

    /** MessageParser.unlock: only the lock changes. */
    method Unlock()
      requires Valid()
      modifies this
      ensures Valid() && Model() == old(Model()).(locked := false)
    {
      locked := false;
    }

    /** MessageParser.__len__: the number of entries, which is the range `__getitem__` accepts. */
    function Length(): (n: nat)
      reads this
      ensures forall i: int :: -(n as int) <= i < n <==> Get(Model(), Index(i)).Found?
    {
      |fields|
    }

    /** MessageParser.__getitem__. */
    function GetItem(key: Key): (r: Lookup)
      reads this
      ensures key.Index? ==> (r.Found? <==> -|fields| <= key.i < |fields|) && (r.IndexError? <==> !r.Found?)
      ensures key.Index? && 0 <= key.i < |fields| ==> r == Found(fields[key.i])
      ensures key.Index? && -|fields| <= key.i < 0 ==> r == Found(fields[|fields| + key.i])
      ensures key.Name? ==> r == if key.n in defs then Found(Defined(defs[key.n])) else KeyError
      ensures key.OtherKey? ==> r == NoValue
    {
      Get(Model(), key)
    }

    /** MessageParser.directive_output. */
    function DirectiveOutput(): (r: seq<(string, Entry)>)
      reads this
      ensures |r| == |fields|
      ensures forall i :: 0 <= i < |r| ==> r[i].1 == fields[i] && r[i].0 == ClassName(fields[i])
    {
      DirectiveOutputOf(fields)
    }

    /** MessageParser.__str__. */
    function Str(): (r: string)
      reads this
      ensures fields == [] ==> r == ""
      ensures |fields| == 1 ==> r == EntryText(fields[0])
      ensures |fields| >= 2 ==> r == StrOf(fields[..|fields| - 1]) + "\n" + EntryText(fields[|fields| - 1])
      ensures r == StrOf(fields)
    {
      var fs := fields;
      StrOfLast(fs);
      StrOf(fs)
    }

    /** MessageParser.header. */
    method Header() returns (h: seq<Entry>)
      ensures |h| <= |fields| && h == fields[..|h|]
      ensures forall i :: 0 <= i < |h| ==> h[i].Floating?
      ensures |h| == |fields| || fields[|h|].Defined?
    {
      h := HeaderOf(fields);
    }

    /** MessageParser.definitions. */
    function Definitions(): (r: seq<Field>)
      requires Valid()
      reads this
      ensures |r| == |keys| && forall i :: 0 <= i < |r| ==> r[i] == defs[keys[i]]
    {
      DefinitionsOf(defs, keys)
    }
  }
}
