/**
 * MessageIndexer (sphinx_rosmsgs/message_indexer.py): finds the message,
 * service and action files under a list of ROS package directories and
 * indexes them by `package/Name`.
 *
 * The file system is a parameter: a map from each root path that exists to
 * what the indexer reads there, namely the `name` element of its
 * `package.xml` and, for each extension, the paths that `glob` lists.
 */
module MessageIndexers {
  import opened Wrappers
  import opened Strings
  import FileParsers

  /** `extension_list`, and `message_type_list` in the same order: zipped, `.msg` is a message, `.srv` a service, `.action` an action. */
  const Extensions: seq<string> := [".msg", ".srv", ".action"]
  const Kinds: seq<string> := ["message", "service", "action"]

  lemma ExtensionKinds()
    ensures |Extensions| == |Kinds| == 3
    ensures forall x :: 0 <= x < 3 ==> |Extensions[x]| > 1 && Extensions[x][0] == '.'
    ensures Kinds[0] == "message" && Kinds[1] == "service" && Kinds[2] == "action"
  {
  }

  // ---------------------------------------------------------------------------
  // The name pattern `(([a-zA-Z_0-9-\.]+)\/)+(?P<name>[a-zA-Z_0-9]+)\.ext`,
  // applied with `match`: anchored at the start of the path only.

  /** The literal extension occurs at e. */
  predicate HasAt(s: string, e: nat, ext: string)
  {
    e + |ext| <= |s| && s[e..e + |ext|] == ext
  }

  /**
   * s[i..p] is one or more `seg/` groups: it starts with a segment
   * character, ends with '/', holds only segment characters and '/', and
   * never two '/' in a row.
   */
  predicate ChainFrom(s: string, i: nat, p: nat)
  {
    i < p <= |s| && s[i] != '/' && s[p - 1] == '/'
    && (forall m :: i <= m < p ==> s[m] == '/' || In(SegChar, s[m]))
    && (forall m :: i < m < p && s[m] == '/' ==> s[m - 1] != '/')
  }

  /** The group `name` can be s[p..e]: a non-empty run of name characters, then the extension. */
  predicate NameAt(s: string, ext: string, p: nat, e: nat)
  {
    p < e <= |s| && AllIn(s, p, e, NameChar) && HasAt(s, e, ext)
  }

  /** The pattern, read as a language, matches a prefix of s with the group `name` at s[p..e]. */
  predicate NameMatch(s: string, ext: string, p: nat, e: nat)
  {
    ChainFrom(s, 0, p) && NameAt(s, ext, p, e)
  }

  /** Where the group `name` lies in a matched path. */
  datatype NameSpan = NameSpan(start: nat, end: nat)

  /**
   * The positions just after each `seg/` group the greedy `(...)+` takes from
   * i on, in increasing order: each `[...]+` takes its longest run, which
   * must be followed by '/'.
   */
  function Ends(s: string, i: nat): (r: seq<nat>)
    requires i <= |s|
    ensures forall n :: 0 <= n < |r| ==> i < r[n] <= |s|
    ensures forall a, b :: 0 <= a < b < |r| ==> r[a] < r[b]
    decreases |s| - i
  {
    var j := Span(s, i, SegChar);
    if i < j < |s| && s[j] == '/' then [j + 1] + Ends(s, j + 1) else []
  }

  /**
   * The backtracking of `match`: the group count is given up one at a time,
   * from the largest, and at each candidate start the name is the longest
   * run of name characters, which must be followed by the extension.
   */
  function TryLast(s: string, ext: string, ends: seq<nat>): (r: Option<NameSpan>)
    requires forall n :: 0 <= n < |ends| ==> ends[n] <= |s|
    ensures r.Some? ==> r.value.start in ends && r.value.end == Span(s, r.value.start, NameChar)
    ensures r.Some? ==> NameAt(s, ext, r.value.start, r.value.end)
    decreases |ends|
  {
    if ends == [] then None
    else
      var p := ends[|ends| - 1];
      var e := Span(s, p, NameChar);
      SpanFacts(s, p, NameChar);
      if p < e && HasAt(s, e, ext) then Some(NameSpan(p, e)) else TryLast(s, ext, ends[..|ends| - 1])
  }

  /** `name_parser.match(message)`, as the span of the group `name`. */
  function Locate(s: string, ext: string): (r: Option<NameSpan>)
    ensures r.Some? ==> NameMatch(s, ext, r.value.start, r.value.end)
  {
    var r := TryLast(s, ext, Ends(s, 0));
    if r.Some? then EndsAreChains(s, 0, r.value.start); r else r
  }

  /** `name_match.group('name')`, or None when the path does not match. */
  function NameOf(s: string, ext: string): (r: Option<string>)
    ensures r.Some? ==> |r.value| > 0 && forall m :: 0 <= m < |r.value| ==> In(NameChar, r.value[m])
  {
    match Locate(s, ext)
    case None => None
    case Some(m) => Some(s[m.start..m.end])
  }

  /** A chain from i begins with the group the greedy `[...]+` takes: a run of segment characters, then '/'. */
  lemma ChainStartsWithGroup(s: string, i: nat, p: nat)
    requires ChainFrom(s, i, p)
    ensures var j := Span(s, i, SegChar); i < j < p && s[j] == '/'
  {
    var j := Span(s, i, SegChar);
    SpanFacts(s, i, SegChar);
    SpanStopsAt(s, i, p - 1, SegChar);
    assert In(SegChar, s[i]);
    assert j < p;
    assert !In(SegChar, s[j]);
  }

  /** Every end the greedy groups reach closes a chain of `seg/` groups. */
  lemma {:induction false} EndsAreChains(s: string, i: nat, p: nat)
    requires i <= |s| && p in Ends(s, i)
    ensures ChainFrom(s, i, p)
    decreases |s| - i
  {
    var j := Span(s, i, SegChar);
    SpanFacts(s, i, SegChar);
    assert Ends(s, i) == [j + 1] + Ends(s, j + 1);
    if p != j + 1 {
      EndsAreChains(s, j + 1, p);
    }
  }

  /** Every chain of `seg/` groups ends where the greedy groups reach. */
  lemma {:induction false} ChainsAreEnds(s: string, i: nat, p: nat)
    requires i <= |s| && ChainFrom(s, i, p)
    ensures p in Ends(s, i)
    decreases |s| - i
  {
    var j := Span(s, i, SegChar);
    ChainStartsWithGroup(s, i, p);
    assert Ends(s, i) == [j + 1] + Ends(s, j + 1);
    if p != j + 1 {
      assert s[j + 1] != '/';
      assert ChainFrom(s, j + 1, p);
      ChainsAreEnds(s, j + 1, p);
    }
  }

  /** With an extension that starts with '.', the name can only end where the run of name characters ends. */
  lemma NameEndsAtRun(s: string, ext: string, p: nat, e: nat)
    requires |ext| > 0 && ext[0] == '.'
    requires NameAt(s, ext, p, e)
    ensures e == Span(s, p, NameChar)
  {
    assert s[e] == s[e..e + |ext|][0];
    SpanUnique(s, p, e, NameChar);
  }

  /** Trying the candidates from the last, a start q that admits a name is found, or a later one is. */
  lemma {:induction false} TryLastFinds(s: string, ext: string, ends: seq<nat>, q: nat, e: nat)
    requires |ext| > 0 && ext[0] == '.'
    requires forall n :: 0 <= n < |ends| ==> ends[n] <= |s|
    requires forall a, b :: 0 <= a < b < |ends| ==> ends[a] < ends[b]
    requires q in ends && NameAt(s, ext, q, e)
    ensures TryLast(s, ext, ends).Some? && q <= TryLast(s, ext, ends).value.start
    decreases |ends|
  {
    var p := ends[|ends| - 1];
    NameEndsAtRun(s, ext, q, e);
    if q != p {
      assert q in ends[..|ends| - 1];
      TryLastFinds(s, ext, ends[..|ends| - 1], q, e);
    }
  }

  /**
   * `match` finds the name exactly when the pattern matches a prefix, and it
   * picks the match with the most `seg/` groups, so the name after the last
   * '/' that can start one.
   */
  lemma LocateIsPythonsMatch(s: string, ext: string, p: nat, e: nat)
    requires ext in Extensions
    requires NameMatch(s, ext, p, e)
    ensures Locate(s, ext).Some? && p <= Locate(s, ext).value.start
    ensures Locate(s, ext).value.end == Span(s, Locate(s, ext).value.start, NameChar)
  {
    ChainsAreEnds(s, 0, p);
    TryLastFinds(s, ext, Ends(s, 0), p, e);
  }

  /** A path that starts with '/' (an absolute root) never matches: the first group needs a segment character. */
  lemma AbsolutePathFails(s: string, ext: string)
    requires |s| > 0 && s[0] == '/'
    ensures NameOf(s, ext).None?
  {
  }

  /** A relative path to a message file (what `glob` lists under the root `.`) gives the file's stem. */
  lemma RelativeMessagePath()
    ensures NameOf("msg/Foo.msg", ".msg") == Some("Foo")
  {
    MessagePathEnds();
    MessagePathTries();
    assert "msg/Foo.msg"[4..7] == "Foo";
  }

  lemma MessagePathTries()
    ensures TryLast("msg/Foo.msg", ".msg", [4]) == Some(NameSpan(4, 7))
  {
    assert Span("msg/Foo.msg", 4, NameChar) == 7;
    assert HasAt("msg/Foo.msg", 7, ".msg");
  }

  lemma MessagePathEnds()
    ensures Ends("msg/Foo.msg", 0) == [4]
  {
    assert Span("msg/Foo.msg", 4, SegChar) == 11;
    assert Ends("msg/Foo.msg", 4) == [];
    assert Span("msg/Foo.msg", 0, SegChar) == 3;
  }

  /** A '-' in the stem makes the path unparsable: the name cannot contain it, and no other '/' leads to the extension. */
  lemma DashInStemFails()
    ensures NameOf("msg/my-msg.msg", ".msg").None?
  {
    DashPathEnds();
    DashTries();
  }

  lemma DashTries()
    ensures TryLast("msg/my-msg.msg", ".msg", [4]) == None
  {
    assert Span("msg/my-msg.msg", 4, NameChar) == 6;
    assert !HasAt("msg/my-msg.msg", 6, ".msg");
  }

  lemma DashPathEnds()
    ensures Ends("msg/my-msg.msg", 0) == [4]
  {
    assert Span("msg/my-msg.msg", 4, SegChar) == 14;
    assert Ends("msg/my-msg.msg", 4) == [];
    assert Span("msg/my-msg.msg", 0, SegChar) == 3;
  }

  // ---------------------------------------------------------------------------
  // The index, on values.

  /** What `ElementTree` yields for `package.xml`. */
  datatype PackageXml =
    | NoPackageXml                     // the file does not exist
    | InvalidPackageXml                // parsing fails, or there is no `name` element
    | NameElement(text: Option<string>) // the `.text` of `./name`, None for an empty element

  /** A root directory that exists: its `package.xml` and the paths the recursive `glob` lists for each extension. */
  datatype RootDir = RootDir(xml: PackageXml, messages: seq<string>, services: seq<string>, actions: seq<string>)

  function Files(dir: RootDir, x: nat): seq<string>
  {
    if x == 0 then dir.messages else if x == 1 then dir.services else dir.actions
  }

  /** The RuntimeErrors `index_path` raises. */
  datatype IndexError =
    | PathMissing(root: string)
    | PackageXmlMissing(root: string)
    | PackageXmlInvalid(root: string)
    | NameUnparsable(file: string)

  /** `index` (key to path) and `type_index` (key to kind). */
  datatype Index = Index(paths: map<string, string>, kinds: map<string, string>)

  /** Where a run of registrations stopped: the maps so far, and the error that ended it, if any. */
  datatype Outcome = Outcome(ix: Index, error: Option<IndexError>)

  /** Both maps have the same keys, and every recorded kind is one of the three. */
  predicate IndexOk(ix: Index)
  {
    ix.paths.Keys == ix.kinds.Keys && forall k :: k in ix.kinds ==> ix.kinds[k] in Kinds
  }

  /** f-string formatting of the `name` text: None prints as "None". */
  function PackageName(text: Option<string>): (r: string)
    ensures text.Some? ==> r == text.value
    ensures text.None? ==> r == "None"
  {
    match text
    case None => "None"
    case Some(t) => t
  }

  /** `name_match.group('name')` for each file of a list, None where the pattern fails. */
  function NamesOf(files: seq<string>, ext: string): (r: seq<Option<string>>)
    ensures |r| == |files| && forall j :: 0 <= j < |r| ==> r[j] == NameOf(files[j], ext)
  {
    if files == [] then [] else [NameOf(files[0], ext)] + NamesOf(files[1..], ext)
  }

  /**
   * The inner loop of `index_path` over the files of one extension, given
   * the name the pattern finds in each, from the first file on: each file is
   * registered under `package_name + "/" + name` with the kind, and the first
   * file without a name raises.
   */
  function RegisterNames(ix: Index, pkg: string, kind: string, files: seq<string>, names: seq<Option<string>>): (o: Outcome)
    requires |names| == |files|
    ensures IndexOk(ix) && kind in Kinds ==> IndexOk(o.ix)
    decreases |files|
  {
    if files == [] then Outcome(ix, None)
    else
      match names[0]
      case None => Outcome(ix, Some(NameUnparsable(files[0])))
      case Some(n) =>
        var key := pkg + "/" + n;
        RegisterNames(Index(ix.paths[key := files[0]], ix.kinds[key := kind]), pkg, kind, files[1..], names[1..])
  }

  /** The files of extension x, registered with its kind. */
  function RegisterFiles(ix: Index, pkg: string, x: nat, files: seq<string>): (o: Outcome)
    requires x < 3
    ensures IndexOk(ix) ==> IndexOk(o.ix)
  {
    RegisterNames(ix, pkg, Kinds[x], files, NamesOf(files, Extensions[x]))
  }

  /** The outer loop of `index_path`, from extension x on: the three extensions in order, stopping at the first error. */
  function RegisterFrom(ix: Index, pkg: string, dir: RootDir, x: nat): (o: Outcome)
    requires x <= 3
    ensures IndexOk(ix) ==> IndexOk(o.ix)
    decreases 3 - x
  {
    if x == 3 then Outcome(ix, None)
    else
      var o := RegisterFiles(ix, pkg, x, Files(dir, x));
      if o.error.Some? then o else RegisterFrom(o.ix, pkg, dir, x + 1)
  }

  /** MessageIndexer.index_path on values: the root must exist and hold a readable `package.xml`. */
  function IndexRoot(ix: Index, env: map<string, RootDir>, root: string): (o: Outcome)
    ensures IndexOk(ix) ==> IndexOk(o.ix)
  {
    if root !in env then Outcome(ix, Some(PathMissing(root)))
    else
      match env[root].xml
      case NoPackageXml => Outcome(ix, Some(PackageXmlMissing(root)))
      case InvalidPackageXml => Outcome(ix, Some(PackageXmlInvalid(root)))
      case NameElement(text) => RegisterFrom(ix, PackageName(text), env[root], 0)
  }

  /** MessageIndexer.index_all on values: the roots in order, stopping at the first error. */
  function IndexRoots(ix: Index, env: map<string, RootDir>, roots: seq<string>): (o: Outcome)
    ensures IndexOk(ix) ==> IndexOk(o.ix)
    decreases |roots|
  {
    if roots == [] then Outcome(ix, None)
    else
      var o := IndexRoot(ix, env, roots[0]);
      if o.error.Some? then o else IndexRoots(o.ix, env, roots[1..])
  }

  /** A root that does not exist, or has no readable `package.xml`, raises before anything is registered. */
  lemma FailedRootAddsNothing(ix: Index, env: map<string, RootDir>, root: string)
    requires root !in env || !env[root].xml.NameElement?
    ensures IndexRoot(ix, env, root).ix == ix
    ensures IndexRoot(ix, env, root).error.Some?
    ensures root !in env ==> IndexRoot(ix, env, root).error == Some(PathMissing(root))
  {
  }

  /**
   * Registration is last-wins: the entry under `package_name + "/" + n` is
   * the last file of the list named n, with the kind of the list.
   */
  lemma {:induction false} LastWins(ix: Index, pkg: string, kind: string, files: seq<string>, names: seq<Option<string>>, i: nat, n: string)
    requires |names| == |files| && i < |files|
    requires RegisterNames(ix, pkg, kind, files, names).error.None?
    requires names[i] == Some(n)
    requires forall j :: i < j < |files| ==> names[j] != Some(n)
    ensures var o := RegisterNames(ix, pkg, kind, files, names);
      pkg + "/" + n in o.ix.paths && pkg + "/" + n in o.ix.kinds
      && o.ix.paths[pkg + "/" + n] == files[i] && o.ix.kinds[pkg + "/" + n] == kind
    decreases |files|
  {
    var key0 := pkg + "/" + names[0].value;
    var next := Index(ix.paths[key0 := files[0]], ix.kinds[key0 := kind]);
    assert RegisterNames(ix, pkg, kind, files, names) == RegisterNames(next, pkg, kind, files[1..], names[1..]);
    if i == 0 {
      forall j | 0 <= j < |files| - 1 && names[1..][j].Some?
        ensures pkg + "/" + names[1..][j].value != pkg + "/" + n
      {
        KeyInjective(pkg, names[1..][j].value, n);
      }
      KeepsOtherKeys(next, pkg, kind, files[1..], names[1..], pkg + "/" + n);
    } else {
      LastWins(next, pkg, kind, files[1..], names[1..], i - 1, n);
    }
  }

  /** Two keys of one package are equal only for equal names. */
  lemma KeyInjective(pkg: string, a: string, b: string)
    ensures pkg + "/" + a == pkg + "/" + b <==> a == b
  {
    if pkg + "/" + a == pkg + "/" + b {
      assert a == (pkg + "/" + a)[|pkg| + 1..];
    }
  }

  /** A key that no file of the list is registered under keeps its entries, or its absence. */
  lemma {:induction false} KeepsOtherKeys(ix: Index, pkg: string, kind: string, files: seq<string>, names: seq<Option<string>>, key: string)
    requires |names| == |files|
    requires forall j :: 0 <= j < |files| && names[j].Some? ==> pkg + "/" + names[j].value != key
    ensures var o := RegisterNames(ix, pkg, kind, files, names);
      (key in o.ix.paths <==> key in ix.paths) && (key in o.ix.kinds <==> key in ix.kinds)
      && (key in ix.paths ==> o.ix.paths[key] == ix.paths[key])
      && (key in ix.kinds ==> o.ix.kinds[key] == ix.kinds[key])
    decreases |files|
  {
    if files != [] && names[0].Some? {
      var key0 := pkg + "/" + names[0].value;
      var next := Index(ix.paths[key0 := files[0]], ix.kinds[key0 := kind]);
      assert RegisterNames(ix, pkg, kind, files, names) == RegisterNames(next, pkg, kind, files[1..], names[1..]);
      KeepsOtherKeys(next, pkg, kind, files[1..], names[1..], key);
    }
  }

  /** Every key a list adds is `package_name + "/" + name` for the name of one of its files. */
  lemma OnlyFileKeysAdded(ix: Index, pkg: string, kind: string, files: seq<string>, names: seq<Option<string>>, key: string)
    requires |names| == |files|
    requires key in RegisterNames(ix, pkg, kind, files, names).ix.paths && key !in ix.paths
    ensures exists j :: 0 <= j < |files| && names[j].Some? && key == pkg + "/" + names[j].value
  {
    if forall j :: 0 <= j < |files| && names[j].Some? ==> pkg + "/" + names[j].value != key {
      KeepsOtherKeys(ix, pkg, kind, files, names, key);
      assert false;
    }
  }

  /**
   * Last-wins across the extensions of one root: a file of extension y named
   * n owns `package_name + "/" + n` once every extension from x on is
   * registered, when no later file of its list and no file of a later
   * extension is named n. So a `.srv` file overwrites a `.msg` file with the
   * same stem, with the kind "service".
   */
  lemma {:induction false} LaterExtensionWins(ix: Index, pkg: string, dir: RootDir, x: nat, y: nat, i: nat, n: string)
    requires x <= y < 3 && i < |Files(dir, y)|
    requires RegisterFrom(ix, pkg, dir, x).error.None?
    requires NameOf(Files(dir, y)[i], Extensions[y]) == Some(n)
    requires forall j :: i < j < |Files(dir, y)| ==> NameOf(Files(dir, y)[j], Extensions[y]) != Some(n)
    requires forall z, j :: y < z < 3 && 0 <= j < |Files(dir, z)| ==> NameOf(Files(dir, z)[j], Extensions[z]) != Some(n)
    ensures var o := RegisterFrom(ix, pkg, dir, x);
      pkg + "/" + n in o.ix.paths && pkg + "/" + n in o.ix.kinds
      && o.ix.paths[pkg + "/" + n] == Files(dir, y)[i] && o.ix.kinds[pkg + "/" + n] == Kinds[y]
    decreases 3 - x
  {
    var o := RegisterFiles(ix, pkg, x, Files(dir, x));
    assert o.error.None? && RegisterFrom(ix, pkg, dir, x) == RegisterFrom(o.ix, pkg, dir, x + 1);
    if x < y {
      LaterExtensionWins(o.ix, pkg, dir, x + 1, y, i, n);
    } else {
      LastWins(ix, pkg, Kinds[y], Files(dir, y), NamesOf(Files(dir, y), Extensions[y]), i, n);
      LaterExtensionsKeepKey(o.ix, pkg, dir, x + 1, n);
    }
  }

  /** Extensions from x on whose files are never named n leave `package_name + "/" + n` as it was. */
  lemma {:induction false} LaterExtensionsKeepKey(ix: Index, pkg: string, dir: RootDir, x: nat, n: string)
    requires x <= 3
    requires forall z, j :: x <= z < 3 && 0 <= j < |Files(dir, z)| ==> NameOf(Files(dir, z)[j], Extensions[z]) != Some(n)
    ensures var key, o := pkg + "/" + n, RegisterFrom(ix, pkg, dir, x);
      (key in o.ix.paths <==> key in ix.paths) && (key in o.ix.kinds <==> key in ix.kinds)
      && (key in ix.paths ==> o.ix.paths[key] == ix.paths[key])
      && (key in ix.kinds ==> o.ix.kinds[key] == ix.kinds[key])
    decreases 3 - x
  {
    if x < 3 {
      var files := Files(dir, x);
      var names := NamesOf(files, Extensions[x]);
      forall j | 0 <= j < |files| && names[j].Some?
        ensures pkg + "/" + names[j].value != pkg + "/" + n
      {
        KeyInjective(pkg, names[j].value, n);
      }
      KeepsOtherKeys(ix, pkg, Kinds[x], files, names, pkg + "/" + n);
      var o := RegisterFiles(ix, pkg, x, files);
      if o.error.None? {
        LaterExtensionsKeepKey(o.ix, pkg, dir, x + 1, n);
      }
    }
  }

  /**
   * The first file without a name ends the loop with its RuntimeError; what
   * the files before it registered stays in the maps.
   */
  lemma {:induction false} FirstUnparsableRaises(ix: Index, pkg: string, kind: string, files: seq<string>, names: seq<Option<string>>, i: nat)
    requires |names| == |files| && i < |files|
    requires names[i].None? && forall j :: 0 <= j < i ==> names[j].Some?
    ensures RegisterNames(ix, pkg, kind, files, names)
      == Outcome(RegisterNames(ix, pkg, kind, files[..i], names[..i]).ix, Some(NameUnparsable(files[i])))
    decreases |files|
  {
    if i > 0 {
      var key0 := pkg + "/" + names[0].value;
      var next := Index(ix.paths[key0 := files[0]], ix.kinds[key0 := kind]);
      assert files[..i][1..] == files[1..][..i - 1];
      assert names[..i][1..] == names[1..][..i - 1];
      FirstUnparsableRaises(next, pkg, kind, files[1..], names[1..], i - 1);
    }
  }

  /** A list whose every file has a name completes without error. */
  lemma {:induction false} AllNamedCompletes(ix: Index, pkg: string, kind: string, files: seq<string>, names: seq<Option<string>>)
    requires |names| == |files|
    requires forall j :: 0 <= j < |files| ==> names[j].Some?
    ensures RegisterNames(ix, pkg, kind, files, names).error.None?
    decreases |files|
  {
    if files != [] {
      var key0 := pkg + "/" + names[0].value;
      var next := Index(ix.paths[key0 := files[0]], ix.kinds[key0 := kind]);
      AllNamedCompletes(next, pkg, kind, files[1..], names[1..]);
    }
  }

  // ---------------------------------------------------------------------------
  // The objects.

  /** The class-level tables `init_class` fills: the extensions and, for each, its compiled name pattern. */
  class IndexerClass {
    var isInit: bool
    var extensionList: seq<string>
    /** The extension each entry of `parser_list` was compiled for. */
    var parserList: seq<string>

    /** The class as defined: not initialised, no tables yet. */
    constructor()
      ensures !isInit && extensionList == [] && parserList == []
    {
      isInit := false;
      extensionList := [];
      parserList := [];
    }

    /** MessageIndexer.init_class: fills the tables on the first call only. */
    method InitClass()
      modifies this
      ensures isInit
      ensures !old(isInit) ==> extensionList == Extensions && parserList == Extensions
      ensures old(isInit) ==> extensionList == old(extensionList) && parserList == old(parserList)
    {
      if !isInit {
        isInit := true;
        extensionList := Extensions;
        parserList := Extensions;
      }
    }
  }

  /** The KeyError of `get_path` and `get_type`. */
  datatype KeyError = KeyError(key: string)

  class MessageIndexer {
    const pathList: seq<string>
    var index: map<string, string>
    var typeIndex: map<string, string>

    function Model(): Index
      reads this
    {
      Index(index, typeIndex)
    }

    predicate Valid()
      reads this
    {
      IndexOk(Model())
    }

    /** The part of `__init__` before `index_all`: the path list kept, both maps empty. */
    constructor Empty(paths: seq<string>)
      ensures Valid() && pathList == paths && index == map[] && typeIndex == map[]
    {
      pathList := paths;
      index := map[];
      typeIndex := map[];
    }

    /**
     * MessageIndexer(path_list): initialise the class, then index every root.
     * An error escapes `__init__`, so no object is returned.
     */
    static method Create(cls: IndexerClass, env: map<string, RootDir>, paths: seq<string>)
      returns (r: Result<MessageIndexer, IndexError>)
      modifies cls
      ensures cls.isInit
      ensures var o := IndexRoots(Index(map[], map[]), env, paths);
        match r
        case Ok(m) => fresh(m) && m.Valid() && m.pathList == paths && m.Model() == o.ix && o.error.None?
        case Err(e) => o.error == Some(e)
    {
      cls.InitClass();
      var m := new MessageIndexer.Empty(paths);
      var err := m.IndexAll(env);
      if err.Some? {
        return Err(err.value);
      }
      return Ok(m);
    }

    /** MessageIndexer.index_all: index_path for each root of `path_list`, until one raises. */
    method IndexAll(env: map<string, RootDir>) returns (err: Option<IndexError>)
      requires Valid()
      modifies this
      ensures Valid()
      ensures Outcome(Model(), err) == IndexRoots(old(Model()), env, pathList)
    {
      var n := 0;
      while n < |pathList|
        invariant 0 <= n <= |pathList| && Valid()
        invariant IndexRoots(Model(), env, pathList[n..]) == IndexRoots(old(Model()), env, pathList)
      {
        assert pathList[n..][1..] == pathList[n + 1..];
        err := IndexPath(env, pathList[n]);
        if err.Some? {
          return;
        }
        n := n + 1;
      }
      return None;
    }

    /** MessageIndexer.index_path for one root. */
    method IndexPath(env: map<string, RootDir>, root: string) returns (err: Option<IndexError>)
      requires Valid()
      modifies this
      ensures Valid()
      ensures Outcome(Model(), err) == IndexRoot(old(Model()), env, root)
    {
      if root !in env {
        return Some(PathMissing(root));
      }
      var dir := env[root];
      if dir.xml.NoPackageXml? {
        return Some(PackageXmlMissing(root));
      }
      if dir.xml.InvalidPackageXml? {
        return Some(PackageXmlInvalid(root));
      }
      var pkg := PackageName(dir.xml.text);
      ghost var target := RegisterFrom(Model(), pkg, dir, 0);
      var x := 0;
      while x < 3
        invariant 0 <= x <= 3 && Valid()
        invariant RegisterFrom(Model(), pkg, dir, x) == target
      {
        var files := Files(dir, x);
        ghost var names := NamesOf(files, Extensions[x]);
        ghost var before := Model();
        var i := 0;
        while i < |files|
          invariant 0 <= i <= |files| && Valid()
          invariant RegisterNames(Model(), pkg, Kinds[x], files[i..], names[i..])
                 == RegisterNames(before, pkg, Kinds[x], files, names)
        {
          assert files[i..][1..] == files[i + 1..] && names[i..][1..] == names[i + 1..];
          var name := NameOf(files[i], Extensions[x]);
          if name.None? {
            return Some(NameUnparsable(files[i]));
          }
          var key := pkg + "/" + name.value;
          index := index[key := files[i]];
          typeIndex := typeIndex[key := Kinds[x]];
          i := i + 1;
        }
        x := x + 1;
      }
      return None;
    }

    /** MessageIndexer.get_path: the path of a key, KeyError when it is not indexed. */
    function GetPath(name: string): (r: Result<string, KeyError>)
      reads this
      ensures r.Ok? <==> name in index
      ensures r.Ok? ==> r.value == index[name]
      ensures r.Err? ==> r.error == KeyError(name)
    {
      if name in index then Ok(index[name]) else Err(KeyError(name))
    }

    /** MessageIndexer.get_type: the kind of a key, KeyError when it is not indexed. */
    function GetType(name: string): (r: Result<string, KeyError>)
      requires Valid()
      reads this
      ensures r.Ok? <==> name in index
      ensures r.Ok? ==> r.value == typeIndex[name] && r.value in Kinds
      ensures r.Err? ==> r.error == KeyError(name)
    {
      if name in typeIndex then Ok(typeIndex[name]) else Err(KeyError(name))
    }

    /**
     * MessageIndexer.parse as written: an unknown name gives None; a known one
     * builds a FileParser with the indexer itself as the path, and `open`
     * raises TypeError on it.
     */
    method ParseAsWritten(name: string, fs: map<string, seq<string>>)
      returns (r: Result<Option<FileParsers.FileParser>, FileParsers.FileError>)
      ensures name !in index ==> r == Ok(None)
      ensures name in index ==> r == Err(FileParsers.TypeError)
    {
      if name !in index {
        return Ok(None);
      }
      var parser := new FileParsers.FileParser(name, FileParsers.NotAPath);
      var outcome := parser.Parse(fs);
      if outcome.Raised? {
        return Err(outcome.error);
      }
      return Ok(Some(parser));
    }

    /**
     * MessageIndexer.parse with the indexed path (and kind) handed to the
     * FileParser: an unknown name gives None, a known one a parsed FileParser
     * over the file's lines, or the error of opening it.
     */
    method Parse(name: string, fs: map<string, seq<string>>)
      returns (r: Result<Option<FileParsers.FileParser>, FileParsers.FileError>)
      requires Valid()
      ensures name !in index ==> r == Ok(None)
      ensures name in index && index[name] !in fs ==> r == Err(FileParsers.FileNotFound(index[name]))
      ensures name in index && index[name] in fs ==>
        r.Ok? && r.value.Some? && fresh(r.value.value) && r.value.value.Valid()
        && r.value.value.name == name && r.value.value.messageType == typeIndex[name]
        && r.value.value.parseLock && r.value.value.content == fs[index[name]]
        && r.value.value.State() == FileParsers.Run(fs[index[name]])
    {
      if name !in index {
        return Ok(None);
      }
      var parser := new FileParsers.FileParser(name, FileParsers.FilePath(index[name]), typeIndex[name]);
      var outcome := parser.Parse(fs);
      if outcome.Raised? {
        return Err(outcome.error);
      }
      return Ok(Some(parser));
    }
  }
}
