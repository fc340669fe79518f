/** Character classes, literal atoms and the priority order between matches
    that the hand-written pattern scanners are built from.

    Positions are `int`s into a `string`; every predicate checks its own bounds. */
module Scan {

  datatype Option<T> = None | Some(value: T)

  /** Unicode White_Space, which is what `\s` and `\S` test in the regex crate. */
  predicate IsSpace(c: char)
  {
    ('\t' <= c <= '\r') || c == ' ' || c == '\U{85}' || c == '\U{A0}' || c == '\U{1680}'
    || ('\U{2000}' <= c <= '\U{200A}') || c == '\U{2028}' || c == '\U{2029}'
    || c == '\U{202F}' || c == '\U{205F}' || c == '\U{3000}'
  }

  predicate IsAsciiAlnum(c: char)
  {
    ('a' <= c <= 'z') || ('A' <= c <= 'Z') || ('0' <= c <= '9')
  }

  predicate IsWordChar(c: char)
  {
    IsAsciiAlnum(c) || c == '_'
  }

  /** The character classes the patterns repeat. */
  datatype Class =
    | NotNewline   // `.`
    | NonSpace     // `\S`
    | Word         // `\w`
    | Digit        // `\d`
    | HostChar     // `[\w\-\.]`
    | SamlChar     // `[a-zA-Z0-9+=\-_]`
    | RelayChar    // `[a-zA-Z0-9\-]`

  predicate InClass(c: char, k: Class)
  {
    match k
    case NotNewline => c != '\n'
    case NonSpace => !IsSpace(c)
    case Word => IsWordChar(c)
    case Digit => '0' <= c <= '9'
    case HostChar => IsWordChar(c) || c == '-' || c == '.'
    case SamlChar => IsAsciiAlnum(c) || c == '+' || c == '=' || c == '-' || c == '_'
    case RelayChar => IsAsciiAlnum(c) || c == '-'
  }

  /** s[lo..hi] is a valid slice made only of characters of class k. */
  predicate AllIn(s: string, lo: int, hi: int, k: Class)
  {
    0 <= lo <= hi <= |s| && forall j :: lo <= j < hi ==> InClass(s[j], k)
  }

  /** One position of a literal stretch of a pattern: a fixed character, `.` or `\s`. */
  datatype Atom = Lit(c: char) | Dot | Space

  predicate Accepts(a: Atom, c: char)
  {
    match a
    case Lit(l) => c == l
    case Dot => c != '\n'
    case Space => IsSpace(c)
  }

  /** The literal stretch p matches s at position i. */
  predicate AtomsAt(s: string, i: int, p: seq<Atom>)
  {
    0 <= i && i + |p| <= |s| && forall k :: 0 <= k < |p| ==> Accepts(p[k], s[i + k])
  }

  /** A plain word as a literal stretch. */
  function Literal(w: string): (p: seq<Atom>)
    ensures |p| == |w|
    ensures forall k :: 0 <= k < |w| ==> p[k] == Lit(w[k])
  {
    seq(|w|, k requires 0 <= k < |w| => Lit(w[k]))
  }

  /** Position list a comes strictly after b in lexicographic order. */
  predicate LexGreater(a: seq<int>, b: seq<int>)
    decreases |a|
  {
    |a| > 0 && |b| > 0 && (a[0] > b[0] || (a[0] == b[0] && LexGreater(a[1..], b[1..])))
  }

  /** Leftmost-first priority between two matches given as position lists: the
      earlier start wins, and from the same start the later choice of each
      greedy repetition wins, in pattern order. */
  predicate Preferred(a: seq<int>, b: seq<int>)
  {
    |a| > 0 && |b| > 0 && (a[0] < b[0] || (a[0] == b[0] && LexGreater(a[1..], b[1..])))
  }

  /** Lists that agree before position k and where a is greater at k are lexicographically ordered. */
  lemma {:induction false} LexGreaterAt(a: seq<int>, b: seq<int>, k: nat)
    requires k < |a| && k < |b| && a[..k] == b[..k] && a[k] > b[k]
    ensures LexGreater(a, b)
    decreases k
  {
    if k > 0 {
      assert a[0] == a[..k][0] && b[0] == b[..k][0];
      assert a[1..][..k - 1] == a[..k][1..] && b[1..][..k - 1] == b[..k][1..];
      LexGreaterAt(a[1..], b[1..], k - 1);
    }
  }

  /** When a is not preferred to b and they agree before position k > 0, a is not greater at k. */
  lemma NotPreferredAt(a: seq<int>, b: seq<int>, k: nat)
    requires 0 < k < |a| && k < |b| && a[..k] == b[..k] && !Preferred(a, b)
    ensures a[k] <= b[k]
  {
    assert a[0] == a[..k][0] && b[0] == b[..k][0];
    if a[k] > b[k] {
      assert a[1..][..k - 1] == a[..k][1..] && b[1..][..k - 1] == b[..k][1..];
      LexGreaterAt(a[1..], b[1..], k - 1);
    }
  }

  /** A slice is all of class k exactly when every character of the sliced text is. */
  lemma AllInSlice(s: string, lo: int, hi: int, k: Class)
    requires 0 <= lo <= hi <= |s|
    ensures AllIn(s, lo, hi, k) <==> forall j :: 0 <= j < hi - lo ==> InClass(s[lo..hi][j], k)
  {
    assert forall j :: lo <= j < hi ==> s[j] == s[lo..hi][j - lo];
  }
}
