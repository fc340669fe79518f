/** The four patterns of src/lib.rs all have one shape: a field, then a gap and
    a field, then a gap and a field, and so on, where a field is a literal
    opening stretch, a captured repetition of one character class, and a literal
    closing stretch, and a gap is `.*` (same line) or `[\s\S]*` (anything).
    This module states what a match of such a pattern is, which match the
    regex crate's leftmost-first rule selects, and searches for that match. */
module Patterns {
  import opened Scan

  /** What may stand between two fields: `.*` or `[\s\S]*`. */
  datatype Gap = SameLine | AnyText

  /** open, then the captured repetition of `body` (at least minLen characters), then close. */
  datatype Field = Field(open: seq<Atom>, body: Class, minLen: nat, close: seq<Atom>)

  /** Fields in pattern order, each preceded by the gap that may come before it. */
  datatype Chain = End | Next(gap: Gap, field: Field, rest: Chain)

  /** A pattern is its first field followed by a chain; it is searched for anywhere in the text. */
  datatype Pattern = Pattern(head: Field, tail: Chain)

  /** Field f starts at x and its capture ends at e: the captured text is s[x + |f.open|..e]. */
  predicate FieldAt(s: string, f: Field, x: int, e: int)
  {
    AtomsAt(s, x, f.open) && x + |f.open| + f.minLen <= e
    && AllIn(s, x + |f.open|, e, f.body) && AtomsAt(s, e, f.close)
  }

  /** s[p..x] may be skipped by gap g. */
  predicate GapAt(s: string, g: Gap, p: int, x: int)
  {
    match g
    case SameLine => AllIn(s, p, x, NotNewline)
    case AnyText => 0 <= p <= x <= |s|
  }

  /** t holds, for each field of fs in turn, its start and its capture end; the first gap starts at p. */
  predicate TailAt(s: string, fs: Chain, p: int, t: seq<int>)
    decreases fs
  {
    match fs
    case End => t == []
    case Next(g, f, rest) =>
      |t| >= 2 && GapAt(s, g, p, t[0]) && FieldAt(s, f, t[0], t[1])
      && TailAt(s, rest, t[1] + |f.close|, t[2..])
  }

  /** The whole pattern as one chain: the unanchored start is a gap of any text from position 0. */
  function AsChain(pat: Pattern): (c: Chain)
    ensures c.Next? && c.field == pat.head && c.rest == pat.tail
  {
    Next(AnyText, pat.head, pat.tail)
  }

  /** t places every field of pat in s. */
  predicate IsMatch(s: string, pat: Pattern, t: seq<int>)
  {
    TailAt(s, AsChain(pat), 0, t)
  }

  /** The greatest placement of fs whose first field starts at x and whose first
      capture ends at e or before. */
  function EndsFrom(s: string, fs: Chain, x: int, e: int): Option<seq<int>>
    requires fs.Next?
    decreases fs, 0, e + 1
  {
    if e < 0 then None
    else if FieldAt(s, fs.field, x, e) && TailSearch(s, fs.rest, e + |fs.field.close|).Some? then
      Some([x, e] + TailSearch(s, fs.rest, e + |fs.field.close|).value)
    else EndsFrom(s, fs, x, e - 1)
  }

  /** The greatest placement of fs after p whose first field starts at x or before. */
  function StartsFrom(s: string, fs: Chain, p: int, x: int): Option<seq<int>>
    requires fs.Next?
    decreases fs, 1, x + 1
  {
    if x < 0 then None
    else if GapAt(s, fs.gap, p, x) && EndsFrom(s, fs, x, |s|).Some? then EndsFrom(s, fs, x, |s|)
    else StartsFrom(s, fs, p, x - 1)
  }

  /** Places fs after p the way a backtracking matcher does: the latest start of
      the first field, then its longest capture, then the rest likewise. */
  function TailSearch(s: string, fs: Chain, p: int): Option<seq<int>>
    decreases fs, 2
  {
    if fs.End? then Some([]) else StartsFrom(s, fs, p, |s|)
  }

  /** The placement of c starting earliest from x on, with the greedy choices after its start. */
  function FirstStart(s: string, c: Chain, x: int): Option<seq<int>>
    requires c.Next?
    decreases |s| - x
  {
    if x < 0 || x > |s| then None
    else if EndsFrom(s, c, x, |s|).Some? then EndsFrom(s, c, x, |s|)
    else FirstStart(s, c, x + 1)
  }

  /** Searches s for pat and returns the positions of the match the regex crate reports. */
  function Search(s: string, pat: Pattern): Option<seq<int>>
  {
    FirstStart(s, AsChain(pat), 0)
  }

  // ---------------------------------------------------------------------------
  // Correctness of the searches

  /** EndsFrom returns the placement with the greatest capture end not after e. */
  lemma {:induction false} EndsFromSpec(s: string, fs: Chain, x: int, e: int)
    requires fs.Next?
    ensures var r := EndsFrom(s, fs, x, e);
            r.Some? ==> |r.value| >= 2 && r.value[0] == x && 0 <= r.value[1] <= e
                        && FieldAt(s, fs.field, x, r.value[1])
                        && TailSearch(s, fs.rest, r.value[1] + |fs.field.close|) == Some(r.value[2..])
    ensures forall e' :: 0 <= e' <= e && FieldAt(s, fs.field, x, e')
                         && TailSearch(s, fs.rest, e' + |fs.field.close|).Some? ==>
              EndsFrom(s, fs, x, e).Some? && e' <= EndsFrom(s, fs, x, e).value[1]
    decreases e + 1
  {
    if e >= 0 && !(FieldAt(s, fs.field, x, e) && TailSearch(s, fs.rest, e + |fs.field.close|).Some?) {
      EndsFromSpec(s, fs, x, e - 1);
    }
  }

  /** StartsFrom returns the placement with the greatest start not after x that its gap allows. */
  lemma {:induction false} StartsFromSpec(s: string, fs: Chain, p: int, x: int)
    requires fs.Next?
    ensures var r := StartsFrom(s, fs, p, x);
            r.Some? ==> |r.value| >= 2 && 0 <= r.value[0] <= x && GapAt(s, fs.gap, p, r.value[0])
                        && r == EndsFrom(s, fs, r.value[0], |s|)
    ensures forall x' :: 0 <= x' <= x && GapAt(s, fs.gap, p, x') && EndsFrom(s, fs, x', |s|).Some? ==>
              StartsFrom(s, fs, p, x).Some? && x' <= StartsFrom(s, fs, p, x).value[0]
    decreases x + 1
  {
    if x >= 0 {
      EndsFromSpec(s, fs, x, |s|);
      if !(GapAt(s, fs.gap, p, x) && EndsFrom(s, fs, x, |s|).Some?) {
        StartsFromSpec(s, fs, p, x - 1);
      }
    }
  }

  /** A placement u of fs makes EndsFrom succeed at u's first start, with nothing lexicographically greater. */
  lemma {:induction false} EndsFromGreatest(s: string, fs: Chain, p: int, u: seq<int>)
    requires fs.Next? && TailAt(s, fs, p, u)
    ensures EndsFrom(s, fs, u[0], |s|).Some? && |EndsFrom(s, fs, u[0], |s|).value| >= 2
    ensures !LexGreater(u[1..], EndsFrom(s, fs, u[0], |s|).value[1..])
    decreases fs, 0
  {
    var x, e', c := u[0], u[1], |fs.field.close|;
    TailSearchGreatest(s, fs.rest, e' + c, u[2..]);
    EndsFromSpec(s, fs, x, |s|);
    var r := EndsFrom(s, fs, x, |s|).value;
    if e' == r[1] {
      assert u[1..][1..] == u[2..] && r[1..][1..] == r[2..];
    }
  }

  /** What TailSearch returns is a placement of fs after p. */
  lemma {:induction false} TailSearchSound(s: string, fs: Chain, p: int)
    requires TailSearch(s, fs, p).Some?
    ensures TailAt(s, fs, p, TailSearch(s, fs, p).value)
    decreases fs
  {
    if fs.Next? {
      StartsFromSpec(s, fs, p, |s|);
      var r := TailSearch(s, fs, p).value;
      EndsFromSpec(s, fs, r[0], |s|);
      TailSearchSound(s, fs.rest, r[1] + |fs.field.close|);
    }
  }

  /** Whenever fs can be placed after p, TailSearch finds a placement, and no
      placement is lexicographically greater than the one it finds. */
  lemma {:induction false} TailSearchGreatest(s: string, fs: Chain, p: int, u: seq<int>)
    requires TailAt(s, fs, p, u)
    ensures TailSearch(s, fs, p).Some? && !LexGreater(u, TailSearch(s, fs, p).value)
    decreases fs, 1
  {
    if fs.Next? {
      EndsFromGreatest(s, fs, p, u);
      StartsFromSpec(s, fs, p, |s|);
    }
  }

  /** FirstStart returns, from x on, the placement with the least start, as EndsFrom builds it there. */
  lemma {:induction false} FirstStartSpec(s: string, c: Chain, x: int)
    requires c.Next? && 0 <= x
    ensures var r := FirstStart(s, c, x);
            r.Some? ==> |r.value| >= 2 && x <= r.value[0] <= |s| && r == EndsFrom(s, c, r.value[0], |s|)
    ensures forall x' :: x <= x' <= |s| && EndsFrom(s, c, x', |s|).Some? ==>
              FirstStart(s, c, x).Some? && FirstStart(s, c, x).value[0] <= x'
    decreases |s| - x
  {
    if x <= |s| {
      EndsFromSpec(s, c, x, |s|);
      if EndsFrom(s, c, x, |s|).None? {
        FirstStartSpec(s, c, x + 1);
      }
    }
  }

  /** Search finds a match exactly when there is one, and the one it finds is
      the match leftmost-first priority selects: no other match is preferred to it. */
  lemma SearchCorrect(s: string, pat: Pattern)
    ensures Search(s, pat).Some? ==> IsMatch(s, pat, Search(s, pat).value)
    ensures Search(s, pat).Some? ==> forall t :: IsMatch(s, pat, t) ==> !Preferred(t, Search(s, pat).value)
    ensures Search(s, pat).None? ==> forall t :: !IsMatch(s, pat, t)
  {
    var c := AsChain(pat);
    FirstStartSpec(s, c, 0);
    if Search(s, pat).Some? {
      var r := Search(s, pat).value;
      EndsFromSpec(s, c, r[0], |s|);
      TailSearchSound(s, c.rest, r[1] + |c.field.close|);
    }
    forall t | IsMatch(s, pat, t)
      ensures Search(s, pat).Some? && !Preferred(t, Search(s, pat).value)
    {
      EndsFromGreatest(s, c, 0, t);
    }
  }

  // ---------------------------------------------------------------------------
  // Captured text

  /** The fields of a chain in order. */
  function Fields(fs: Chain): seq<Field>
    decreases fs
  {
    match fs
    case End => []
    case Next(_, f, rest) => [f] + Fields(rest)
  }

  /** The text each field of a placement captures: one entry per field, each at least
      as long as the field demands and made only of the field's class. */
  function Captures(s: string, fs: Chain, p: int, t: seq<int>): (caps: seq<string>)
    requires TailAt(s, fs, p, t)
    ensures |caps| == |Fields(fs)|
    ensures forall k :: 0 <= k < |caps| ==> |caps[k]| >= Fields(fs)[k].minLen
    ensures forall k :: 0 <= k < |caps| ==> forall j :: 0 <= j < |caps[k]| ==> InClass(caps[k][j], Fields(fs)[k].body)
    decreases fs
  {
    match fs
    case End => []
    case Next(_, f, rest) =>
      var x, e := t[0], t[1];
      var c := s[x + |f.open|..e];
      assert forall j :: 0 <= j < |c| ==> c[j] == s[x + |f.open| + j];
      [c] + Captures(s, rest, e + |f.close|, t[2..])
  }

  /** The captures of the match the regex crate reports, or None when pat does not occur. */
  function Captured(s: string, pat: Pattern): (c: Option<seq<string>>)
    ensures c.Some? ==> |c.value| == |Fields(AsChain(pat))|
    ensures c.Some? ==> forall k :: 0 <= k < |c.value| ==> |c.value[k]| >= Fields(AsChain(pat))[k].minLen
    ensures c.Some? ==> forall k :: 0 <= k < |c.value| ==>
              forall j :: 0 <= j < |c.value[k]| ==> InClass(c.value[k][j], Fields(AsChain(pat))[k].body)
  {
    SearchCorrect(s, pat);
    match Search(s, pat)
    case None => None
    case Some(t) => Some(Captures(s, AsChain(pat), 0, t))
  }

  /** Captured fails exactly when pat occurs nowhere in s, and otherwise returns the
      captures of the match leftmost-first priority selects. */
  lemma CapturedSpec(s: string, pat: Pattern)
    ensures Captured(s, pat).None? <==> forall t :: !IsMatch(s, pat, t)
    ensures Captured(s, pat).Some? ==>
              exists t :: IsMatch(s, pat, t) && (forall u :: IsMatch(s, pat, u) ==> !Preferred(u, t))
                          && Captured(s, pat).value == Captures(s, AsChain(pat), 0, t)
  {
    SearchCorrect(s, pat);
  }

  /** t[0] is the first position where field f occurs, and t[1] the last end f can have from there. */
  ghost predicate FirstOccurrence(s: string, f: Field, x: int, e: int)
  {
    FieldAt(s, f, x, e)
    && (forall x', e' :: x' < x ==> !FieldAt(s, f, x', e'))
    && (forall e' :: e < e' ==> !FieldAt(s, f, x, e'))
  }

  /** For a pattern of one field, the reported match is the field's first occurrence,
      taken to the last end it can have there. */
  lemma OneFieldSearch(s: string, f: Field)
    ensures Search(s, Pattern(f, End)).None? <==> forall x, e :: !FieldAt(s, f, x, e)
    ensures Search(s, Pattern(f, End)).Some? ==>
              var t := Search(s, Pattern(f, End)).value;
              |t| == 2 && FirstOccurrence(s, f, t[0], t[1])
  {
    var pat := Pattern(f, End);
    SearchCorrect(s, pat);
    forall x, e | FieldAt(s, f, x, e)
      ensures IsMatch(s, pat, [x, e])
    {
      assert [x, e][2..] == [];
    }
    if Search(s, pat).Some? {
      var t := Search(s, pat).value;
      assert TailAt(s, AsChain(pat), 0, t);
      assert TailAt(s, End, t[1] + |f.close|, t[2..]);
      assert |t| == 2;
      forall x, e | x < t[0]
        ensures !FieldAt(s, f, x, e)
      {
        if FieldAt(s, f, x, e) {
          assert Preferred([x, e], t);
        }
      }
      forall e | t[1] < e
        ensures !FieldAt(s, f, t[0], e)
      {
        if FieldAt(s, f, t[0], e) {
          assert [t[0], e][1..] == [e];
          assert Preferred([t[0], e], t);
        }
      }
    }
  }

  /** Capture k of a placement is the text between the end of field k's opening and its capture end. */
  lemma {:induction false} CapturesAt(s: string, fs: Chain, p: int, t: seq<int>, k: nat)
    requires TailAt(s, fs, p, t) && k < |Fields(fs)|
    ensures 2 * k + 1 < |t| && 0 <= t[2 * k] + |Fields(fs)[k].open| <= t[2 * k + 1] <= |s|
    ensures Captures(s, fs, p, t)[k] == s[t[2 * k] + |Fields(fs)[k].open|..t[2 * k + 1]]
    ensures p <= t[0] && (k > 0 ==> t[2 * k - 1] <= t[2 * k])
    decreases k
  {
    if k > 0 {
      CapturesAt(s, fs.rest, t[1] + |fs.field.close|, t[2..], k - 1);
    }
  }

  /** A placement holds two positions per field. */
  lemma {:induction false} TailAtLength(s: string, fs: Chain, p: int, t: seq<int>)
    requires TailAt(s, fs, p, t)
    ensures |t| == 2 * |Fields(fs)|
    decreases fs
  {
    if fs.Next? {
      TailAtLength(s, fs.rest, t[1] + |fs.field.close|, t[2..]);
    }
  }

  /** Capture k of the reported match, located in s. */
  lemma CapturedAt(s: string, pat: Pattern, k: nat)
    requires Captured(s, pat).Some? && k < |Fields(AsChain(pat))|
    ensures Search(s, pat).Some?
    ensures var t := Search(s, pat).value;
            |t| == 2 * |Fields(AsChain(pat))| && 0 <= t[2 * k] + |Fields(AsChain(pat))[k].open| <= t[2 * k + 1] <= |s|
            && (k > 0 ==> t[2 * k - 1] <= t[2 * k])
            && Captured(s, pat).value[k] == s[t[2 * k] + |Fields(AsChain(pat))[k].open|..t[2 * k + 1]]
  {
    SearchCorrect(s, pat);
    var t := Search(s, pat).value;
    TailAtLength(s, AsChain(pat), 0, t);
    CapturesAt(s, AsChain(pat), 0, t, k);
  }
}
