/**
 * BlockParser (sphinx_rosmsgs/file_parser/block_parser.py): one block of a
 * message file, fed one token at a time.
 *
 * `Step` is the transition table of `append` on values; the class
 * `BlockParser` holds the same state in fields and its `Append` is proved to
 * perform `Step`. Tokens are values here: the comment object that Python
 * shares between `_prev_field` and the last entry of `_fields` is kept in both
 * places, and `Invariant` says the two copies agree.
 */
module BlockParsers {
  import opened Tokens
  import CommentFields
  import MessageFields

  /** What `_fields` holds: a comment with no definition after it, or a definition. */
  datatype Entry = Floating(comment: Comment) | Defined(field: Field)

  /**
   * `_fields`, `_message_fields` (a dict, so `keys` keeps the order in which
   * its keys were first inserted), `_prev_field` and `_lock`.
   */
  datatype BlockState = BlockState(
    fields: seq<Entry>,
    defs: map<string, Field>,
    keys: seq<string>,
    prev: Token,
    locked: bool)

  /**
   * What every reachable state satisfies: a previous comment is the last
   * entry, the key order lists each key of the map once, and every registered
   * definition is stored in `_fields` under its own name.
   */
  predicate Invariant(st: BlockState)
  {
    (st.prev.CommentLine? ==> |st.fields| > 0 && st.fields[|st.fields| - 1] == Floating(st.prev.comment))
    && (forall i, j :: 0 <= i < j < |st.keys| ==> st.keys[i] != st.keys[j])
    && (forall k :: k in st.keys ==> k in st.defs)
    && (forall k :: k in st.defs ==> k in st.keys && st.defs[k].name == k && Defined(st.defs[k]) in st.fields)
  }

  /** `BlockParser()`: no entry, nothing registered, the previous field an empty line, unlocked. */
  function Initial(): (st: BlockState)
    ensures Invariant(st)
    ensures st.fields == [] && st.defs == map[] && !st.locked && !st.prev.CommentLine?
  {
    BlockState([], map[], [], Blank(EmptyLine), false)
  }

  /** The entry a comment or a definition token is stored as. */
  function EntryOf(t: Token): Entry
    requires t.CommentLine? || t.Definition?
  {
    if t.CommentLine? then Floating(t.comment) else Defined(t.field)
  }

  /** `_message_fields[f.name] = f`, with the key order of a dict. */
  function Register(st: BlockState, f: Field): (r: BlockState)
    ensures r.defs == st.defs[f.name := f]
    ensures r.keys == if f.name in st.keys then st.keys else st.keys + [f.name]
    ensures r.fields == st.fields && r.prev == st.prev && r.locked == st.locked
  {
    st.(defs := st.defs[f.name := f], keys := if f.name in st.keys then st.keys else st.keys + [f.name])
  }

  /** `self._prev_field.join(curr_field)`: the comment that is the last entry takes the new lines. */
  function Merge(st: BlockState, c: Comment): (r: BlockState)
    requires Invariant(st) && st.prev.CommentLine?
    ensures Invariant(r)
  {
    var merged := CommentFields.Join(st.prev.comment, c);
    st.(fields := st.fields[..|st.fields| - 1] + [Floating(merged)], prev := CommentLine(merged))
  }

  /**
   * The comment that is the last entry leaves `_fields`, becomes the text of
   * the definition, which is appended, registered and becomes the previous field.
   */
  function Attach(st: BlockState, f: Field): (r: BlockState)
    requires Invariant(st) && st.prev.CommentLine?
    ensures Invariant(r)
  {
    var g := MessageFields.SetText(f, st.prev);
    var kept := st.fields[..|st.fields| - 1];
    assert forall k :: k in st.defs ==> Defined(st.defs[k]) in kept;
    Register(st.(fields := kept + [Defined(g)], prev := Definition(g)), g)
  }

  /**
   * BlockParser.append: the transition table, in the order of its tests.
   * Locked: nothing. Comment after comment: merged into the previous one.
   * Definition after comment: the comment leaves `_fields` and becomes the
   * definition's text, and the definition is registered by name. Empty line:
   * only the previous field changes. Separator: locks. Otherwise appended.
   */
  function Step(st: BlockState, t: Token): (r: BlockState)
    requires Invariant(st)
    ensures Invariant(r)
  {
    if st.locked then st
    else if st.prev.CommentLine? && t.CommentLine? then Merge(st, t.comment)
    else if st.prev.CommentLine? && t.Definition? then Attach(st, t.field)
    else if t.Blank? then st.(prev := t)
    else if t.Separator? then st.(prev := t, locked := true)
    else st.(prev := t, fields := st.fields + [EntryOf(t)])
  }

  /** Appending the tokens of ts one after the other. */
  function Feed(st: BlockState, ts: seq<Token>): (r: BlockState)
    requires Invariant(st)
    ensures Invariant(r)
    decreases |ts|
  {
    if ts == [] then st else Step(Feed(st, ts[..|ts| - 1]), ts[|ts| - 1])
  }

  // ---------------------------------------------------------------------------
  // The rows of the transition table.

  /** Once locked, a block ignores every further token. */
  lemma {:induction false} LockedFeedIgnored(st: BlockState, ts: seq<Token>)
    requires Invariant(st) && st.locked
    ensures Feed(st, ts) == st
    decreases |ts|
  {
    if ts != [] {
      LockedFeedIgnored(st, ts[..|ts| - 1]);
    }
  }

  /** A separator locks the block and adds no entry. */
  lemma SeparatorLocks(st: BlockState, d: Dash)
    requires Invariant(st)
    ensures var r := Step(st, Separator(d));
      r.locked && r.fields == st.fields && r.defs == st.defs
  {
  }

  /** A comment right after a comment joins its lines to the last entry; the length is unchanged. */
  lemma CommentsMerge(st: BlockState, c: Comment)
    requires Invariant(st) && !st.locked && st.prev.CommentLine?
    ensures var r := Step(st, CommentLine(c));
      var n := |st.fields|;
      |r.fields| == n && r.fields[..n - 1] == st.fields[..n - 1]
      && r.fields[n - 1] == Floating(Comment(st.prev.comment.lines + c.lines))
      && r.defs == st.defs
  {
  }

  /**
   * A definition right after a comment takes the comment's place in `_fields`
   * with the comment as its text, and is registered under its name.
   */
  lemma CommentAttaches(st: BlockState, f: Field)
    requires Invariant(st) && !st.locked && st.prev.CommentLine?
    ensures var r := Step(st, Definition(f));
      var n := |st.fields|;
      var g := f.(text := st.prev.comment);
      |r.fields| == n && r.fields[..n - 1] == st.fields[..n - 1] && r.fields[n - 1] == Defined(g)
      && st.fields[n - 1] == Floating(st.prev.comment)
      && r.defs == st.defs[f.name := g] && r.prev == Definition(g)
  {
  }

  /** An empty line adds nothing; it only ends the run of comments before it. */
  lemma BlankOnlyResets(st: BlockState, e: EmptyLine)
    requires Invariant(st) && !st.locked
    ensures var r := Step(st, Blank(e));
      r.fields == st.fields && r.defs == st.defs && !r.prev.CommentLine?
  {
  }

  /** A comment or definition that does not follow a comment is appended as it is. */
  lemma OthersAppended(st: BlockState, t: Token)
    requires Invariant(st) && !st.locked && !st.prev.CommentLine?
    requires t.CommentLine? || t.Definition?
    ensures var r := Step(st, t);
      r.fields == st.fields + [EntryOf(t)] && r.defs == st.defs && r.prev == t
  {
  }

  /** Only a definition that directly follows a comment is registered, and its latest value wins. */
  lemma OnlyCommentedDefinitionsRegistered(st: BlockState, t: Token)
    requires Invariant(st)
    ensures var r := Step(st, t);
      r.defs != st.defs ==>
        !st.locked && st.prev.CommentLine? && t.Definition?
        && r.defs[t.field.name].text == st.prev.comment
  {
  }

  /** The number of entries never grows by more than one per token. */
  lemma {:induction false} FeedLength(st: BlockState, ts: seq<Token>)
    requires Invariant(st)
    ensures |Feed(st, ts).fields| <= |st.fields| + |ts|
    decreases |ts|
  {
    if ts != [] {
      FeedLength(st, ts[..|ts| - 1]);
    }
  }

  // ---------------------------------------------------------------------------
  // The reads.

  /** The keys `__getitem__` distinguishes: an `int`, a `str`, anything else. */
  datatype Key = Index(i: int) | Name(n: string) | OtherKey

  /** What `__getitem__` gives: a value, `None` (neither int nor str), or a raised error. */
  datatype Lookup = Found(entry: Entry) | NoValue | IndexError | KeyError

  /**
   * BlockParser.__getitem__: Python list indexing (negative indices count from
   * the end) or a lookup among the registered definitions.
   */
  function Get(st: BlockState, key: Key): (r: Lookup)
    ensures key.Index? && 0 <= key.i < |st.fields| ==> r == Found(st.fields[key.i])
    ensures key.Index? && -|st.fields| <= key.i < 0 ==> r == Found(st.fields[|st.fields| + key.i])
    ensures key.Index? && !(-|st.fields| <= key.i < |st.fields|) ==> r == IndexError
    ensures key.Name? ==> r == if key.n in st.defs then Found(Defined(st.defs[key.n])) else KeyError
    ensures key.OtherKey? ==> r == NoValue
  {
    match key
    case Index(i) =>
      if 0 <= i < |st.fields| then Found(st.fields[i])
      else if -|st.fields| <= i < 0 then Found(st.fields[|st.fields| + i])
      else IndexError
    case Name(n) => if n in st.defs then Found(Defined(st.defs[n])) else KeyError
    case OtherKey => NoValue
  }

  /** `list(_message_fields.values())`: the registered definitions in key order. */
  function DefinitionsOf(defs: map<string, Field>, keys: seq<string>): (r: seq<Field>)
    requires forall k :: k in keys ==> k in defs
    ensures |r| == |keys| && forall i :: 0 <= i < |keys| ==> r[i] == defs[keys[i]]
  {
    if keys == [] then [] else [defs[keys[0]]] + DefinitionsOf(defs, keys[1..])
  }

  /**
   * The definitions a block lists are the comment-preceded ones it stores,
   * one per name: each appears among the entries and carries the name it is
   * registered under, and there is one for every registered name.
   */
  lemma DefinitionsAreStored(st: BlockState)
    requires Invariant(st)
    ensures var ds := DefinitionsOf(st.defs, st.keys);
      |ds| == |st.defs.Keys|
      && (forall i :: 0 <= i < |ds| ==> Defined(ds[i]) in st.fields && ds[i] == st.defs[ds[i].name])
      && (forall i, j :: 0 <= i < j < |ds| ==> ds[i].name != ds[j].name)
  {
    var ds := DefinitionsOf(st.defs, st.keys);
    KeysCount(st.keys, st.defs.Keys);
    forall i | 0 <= i < |ds|
      ensures Defined(ds[i]) in st.fields && ds[i] == st.defs[ds[i].name]
    {
      assert st.keys[i] in st.defs;
    }
    forall i, j | 0 <= i < j < |ds|
      ensures ds[i].name != ds[j].name
    {
      assert st.keys[i] in st.defs && st.keys[j] in st.defs;
    }
  }

  lemma {:induction false} KeysCount(keys: seq<string>, ks: set<string>)
    requires forall i, j :: 0 <= i < j < |keys| ==> keys[i] != keys[j]
    requires forall k :: k in keys <==> k in ks
    ensures |keys| == |ks|
    decreases |keys|
  {
    if keys != [] {
      var rest := keys[1..];
      forall k ensures k in rest <==> k in ks - {keys[0]} {
        if k in rest {
          var j :| 0 <= j < |rest| && rest[j] == k;
          assert keys[j + 1] == k;
        }
        if k in ks - {keys[0]} {
          var j :| 0 <= j < |keys| && keys[j] == k;
          assert j > 0 && rest[j - 1] == k;
        }
      }
      KeysCount(rest, ks - {keys[0]});
    }
  }

  /**
   * The `header` loop: entries are copied until the first definition. The
   * result is the longest prefix of `fields` that holds no definition.
   */
  method HeaderOf(fields: seq<Entry>) returns (h: seq<Entry>)
    ensures |h| <= |fields| && h == fields[..|h|]
    ensures forall i :: 0 <= i < |h| ==> h[i].Floating?
    ensures |h| == |fields| || fields[|h|].Defined?
  {
    h := [];
    var i := 0;
    while i < |fields|
      invariant i == |h| <= |fields| && h == fields[..i]
      invariant forall k :: 0 <= k < i ==> fields[k].Floating?
    {
      if fields[i].Defined? {
        break;
      }
      h := h + [fields[i]];
      i := i + 1;
    }
  }

  /** The BlockParser object; `Append` performs `Step` on its fields. */
  class BlockParser {
    var fields: seq<Entry>
    var defs: map<string, Field>
    var keys: seq<string>
    var prev: Token
    var locked: bool

    function Model(): BlockState
      reads this
    {
      BlockState(fields, defs, keys, prev, locked)
    }

    predicate Valid()
      reads this
    {
      Invariant(Model())
    }

    /** BlockParser.__init__. */
    constructor()
      ensures Valid() && Model() == Initial()
    {
      fields := [];
      defs := map[];
      keys := [];
      prev := Blank(EmptyLine);
      locked := false;
    }

    /** BlockParser.append. */
    method Append(t: Token)
      requires Valid()
      modifies this
      ensures Valid() && Model() == Step(old(Model()), t)
    {
      ghost var next := Step(Model(), t);
      if locked {
        return;
      }
      if prev.CommentLine? && t.CommentLine? {
        var merged := CommentFields.Join(prev.comment, t.comment);
        fields := fields[..|fields| - 1] + [Floating(merged)];
        prev := CommentLine(merged);
        assert Model() == next;
        return;
      }
      if prev.CommentLine? && t.Definition? {
        fields := fields[..|fields| - 1];
        var f := MessageFields.SetText(t.field, prev);
        fields := fields + [Defined(f)];
        if f.name !in keys {
          keys := keys + [f.name];
        }
        defs := defs[f.name := f];
        prev := Definition(f);
        assert Model() == next;
        return;
      }
      if t.Blank? {
        prev := t;
        assert Model() == next;
        return;
      }
      if t.Separator? {
        prev := t;
        locked := true;
        assert Model() == next;
        return;
      }
      prev := t;
      fields := fields + [EntryOf(t)];
      assert Model() == next;
    }

    /** BlockParser.__len__: the number of entries, which is the range `__getitem__` accepts. */
    function Length(): (n: nat)
      reads this
      ensures forall i: int :: -(n as int) <= i < n <==> Get(Model(), Index(i)).Found?
    {
      |fields|
    }

    /** BlockParser.__getitem__. */
    function GetItem(key: Key): (r: Lookup)
      reads this
      ensures key.Index? ==> (r.Found? <==> -|fields| <= key.i < |fields|) && (r.IndexError? <==> !r.Found?)
      ensures key.Index? && 0 <= key.i < |fields| ==> r == Found(fields[key.i])
      ensures key.Index? && -|fields| <= key.i < 0 ==> r == Found(fields[|fields| + key.i])
      ensures key.Name? ==> r == if key.n in defs then Found(Defined(defs[key.n])) else KeyError
      ensures key.OtherKey? ==> r == NoValue
    {
      Get(Model(), key)
    }

    /** BlockParser.header. */
    method Header() returns (h: seq<Entry>)
      ensures |h| <= |fields| && h == fields[..|h|]
      ensures forall i :: 0 <= i < |h| ==> h[i].Floating?
      ensures |h| == |fields| || fields[|h|].Defined?
    {
      h := HeaderOf(fields);
    }

    /** BlockParser.definitions. */
    function Definitions(): (r: seq<Field>)
      requires Valid()
      reads this
      ensures |r| == |keys| && forall i :: 0 <= i < |r| ==> r[i] == defs[keys[i]]
    {
      DefinitionsOf(defs, keys)
    }
  }
}
