/**
 * Character classes and string helpers shared by the line recognisers.
 *
 * The recognisers in the source are Python regular expressions over `str`.
 * In such a pattern `\s` matches every character for which `str.isspace()`
 * holds, `.` matches every character except a newline, and `$` matches at the
 * end of the string or just before a newline that ends it. `str.rstrip()`
 * strips the same whitespace set as `\s`.
 */
module Strings {

  /** `str.isspace()`, which is also the class `\s` of a str pattern. */
  predicate IsSpace(c: char)
  {
    ('\t' <= c <= '\r') || ('\U{1C}' <= c <= ' ') || c == '\U{85}' || c == '\U{A0}'
    || c == '\U{1680}' || ('\U{2000}' <= c <= '\U{200A}') || c == '\U{2028}' || c == '\U{2029}'
    || c == '\U{202F}' || c == '\U{205F}' || c == '\U{3000}'
  }

  predicate IsAsciiAlnum(c: char)
  {
    ('a' <= c <= 'z') || ('A' <= c <= 'Z') || ('0' <= c <= '9')
  }

  /** The character classes the patterns of the parser and the indexer use. */
  datatype Class =
    | Space      // \s
    | FieldChar  // [a-zA-Z0-9/_], the type and name of a field definition
    | Digit      // [0-9], the size of a fixed-length array
    | SegChar    // [a-zA-Z_0-9-\.], one directory of a message file path
    | NameChar   // [a-zA-Z_0-9], the bare name of a message file
    | Dot        // . (no DOTALL): anything but a newline

  predicate In(k: Class, c: char)
  {
    match k
    case Space => IsSpace(c)
    case FieldChar => IsAsciiAlnum(c) || c == '/' || c == '_'
    case Digit => '0' <= c <= '9'
    case SegChar => IsAsciiAlnum(c) || c == '_' || c == '-' || c == '.'
    case NameChar => IsAsciiAlnum(c) || c == '_'
    case Dot => c != '\n'
  }

  /** Every character of s[i..j] belongs to class k. */
  predicate AllIn(s: string, i: int, j: int, k: Class)
    requires 0 <= i <= j <= |s|
  {
    forall m {:trigger In(k, s[m])} :: i <= m < j ==> In(k, s[m])
  }

  /** The end of the longest run of class-k characters starting at i: what `k*` consumes greedily. */
  function Span(s: string, i: nat, k: Class): (j: nat)
    requires i <= |s|
    ensures i <= j <= |s|
    decreases |s| - i
  {
    if i == |s| || !In(k, s[i]) then i else Span(s, i + 1, k)
  }

  /** Span consumes only class-k characters and stops at the end or at a character outside k. */
  lemma {:induction false} SpanFacts(s: string, i: nat, k: Class)
    requires i <= |s|
    ensures AllIn(s, i, Span(s, i, k), k)
    ensures Span(s, i, k) == |s| || !In(k, s[Span(s, i, k)])
    decreases |s| - i
  {
    if i < |s| && In(k, s[i]) {
      SpanFacts(s, i + 1, k);
    }
  }

  /** A run of class-k characters that cannot be extended is the one Span finds. */
  lemma {:induction false} SpanUnique(s: string, i: nat, j: nat, k: Class)
    requires i <= j <= |s|
    requires AllIn(s, i, j, k)
    requires j == |s| || !In(k, s[j])
    ensures Span(s, i, k) == j
    decreases j - i
  {
    if i < j {
      assert In(k, s[i]);
      SpanUnique(s, i + 1, j, k);
    }
  }

  /** A greedy run reaches at least as far as any run of the class. */
  lemma {:induction false} SpanAtLeast(s: string, i: nat, j: nat, k: Class)
    requires i <= j <= |s|
    requires AllIn(s, i, j, k)
    ensures Span(s, i, k) >= j
    decreases j - i
  {
    if i < j {
      assert In(k, s[i]);
      SpanAtLeast(s, i + 1, j, k);
    }
  }

  /** A run of class-k characters stops at the first character outside k. */
  lemma {:induction false} SpanStopsAt(s: string, i: nat, q: nat, k: Class)
    requires i <= q < |s| && !In(k, s[q])
    ensures Span(s, i, k) <= q
    decreases q - i
  {
    if i < q && In(k, s[i]) {
      SpanStopsAt(s, i + 1, q, k);
    }
  }

  /** Where `$` matches (no MULTILINE): at the end, or before a final newline. */
  predicate AtEnd(s: string, i: nat)
  {
    i == |s| || (i + 1 == |s| && s[i] == '\n')
  }

  /** `.*$` matches from i exactly when the greedy `.*` stops where `$` holds. */
  lemma DotRunEnd(s: string, i: nat)
    requires i <= |s|
    ensures AtEnd(s, Span(s, i, Dot)) <==> (forall m :: i <= m < |s| - 1 ==> s[m] != '\n')
  {
    var j := Span(s, i, Dot);
    SpanFacts(s, i, Dot);
    if AtEnd(s, j) {
      forall m | i <= m < |s| - 1 ensures s[m] != '\n' {
        assert m < j;
        assert In(Dot, s[m]);
      }
    }
  }

  /** `str.rstrip()`: drop trailing whitespace. */
  function RStrip(s: string): (r: string)
    ensures |r| <= |s| && r == s[..|r|]
    ensures r == [] || !IsSpace(r[|r| - 1])
    ensures forall m :: |r| <= m < |s| ==> IsSpace(s[m])
  {
    if |s| > 0 && IsSpace(s[|s| - 1]) then RStrip(s[..|s| - 1]) else s
  }

  /** `"\n".join(parts)`. */
  function JoinLines(parts: seq<string>): string
  {
    if |parts| == 0 then ""
    else if |parts| == 1 then parts[0]
    else parts[0] + "\n" + JoinLines(parts[1..])
  }

  /** `s.split("\n")`, the inverse of JoinLines. */
  function SplitLines(s: string): (r: seq<string>)
    ensures |r| >= 1
  {
    if |s| == 0 then [""]
    else
      var rest := SplitLines(s[1..]);
      if s[0] == '\n' then [""] + rest else [[s[0]] + rest[0]] + rest[1..]
  }

  lemma {:induction false} SplitWithoutNewline(p: string, t: string)
    requires forall m :: 0 <= m < |p| ==> p[m] != '\n'
    ensures SplitLines(p) == [p]
    ensures SplitLines(p + "\n" + t) == [p] + SplitLines(t)
  {
    if |p| > 0 {
      SplitWithoutNewline(p[1..], t);
      assert (p + "\n" + t)[1..] == p[1..] + "\n" + t;
      assert [p[0]] + p[1..] == p;
    } else {
      assert p + "\n" + t == "\n" + t;
      assert ("\n" + t)[1..] == t;
    }
  }

  /** Joining lines that hold no newline and splitting again gives the lines back. */
  lemma {:induction false} SplitJoin(parts: seq<string>)
    requires |parts| >= 1
    requires forall i, m :: 0 <= i < |parts| && 0 <= m < |parts[i]| ==> parts[i][m] != '\n'
    ensures SplitLines(JoinLines(parts)) == parts
  {
    if |parts| == 1 {
      SplitWithoutNewline(parts[0], "");
    } else {
      SplitJoin(parts[1..]);
      SplitWithoutNewline(parts[0], JoinLines(parts[1..]));
    }
  }

  /** Joining two non-empty runs of lines puts one newline between their joins. */
  lemma {:induction false} JoinLinesAppend(a: seq<string>, b: seq<string>)
    requires |a| >= 1 && |b| >= 1
    ensures JoinLines(a + b) == JoinLines(a) + "\n" + JoinLines(b)
  {
    if |a| == 1 {
      assert (a + b)[1..] == b;
    } else {
      assert (a + b)[1..] == a[1..] + b;
      JoinLinesAppend(a[1..], b);
    }
  }
}
