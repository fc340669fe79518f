/** `parse_redirect_url` of src/util.rs: split a URL with the pattern
    `(\w*).{3}([\w\-\.]*):?(\d*)?(/\S*)\?` into its four capture groups
    (scheme, host, port, path).

    A match is described by six positions t = [i, a, b, c, d, q]:
    the scheme is s[i..a], three arbitrary characters s[a..a+3] (the `://`),
    the host s[a+3..b], an optional `:` between b and c, the port s[c..d],
    the path s[d..q] starting with `/`, and the `?` at q. */
module Util {
  import opened Scan

  /** `:?` between the host and the port: taken (c == b + 1) or skipped (c == b). */
  predicate PortSep(s: string, b: int, c: int)
  {
    c == b || (c == b + 1 && 0 <= b < |s| && s[b] == ':')
  }

  /** `(/\S*)\?`: the path s[d..q] starts with `/`, has no white space, and is followed by `?` at q. */
  predicate PathAt(s: string, d: int, q: int)
  {
    0 <= d < q < |s| && s[d] == '/' && AllIn(s, d + 1, q, NonSpace) && s[q] == '?'
  }

  /** The stages of the pattern, each a greedy repetition whose end is chosen
      before the stages after it. */
  datatype Stage = Scheme | Host | Port | Path

  function Rank(g: Stage): nat
  {
    match g
    case Path => 0
    case Port => 1
    case Host => 2
    case Scheme => 3
  }

  /** t lists the end positions chosen for stage g and every later stage, the stage starting at lo. */
  predicate StageAt(s: string, g: Stage, lo: int, t: seq<int>)
    decreases Rank(g)
  {
    |t| >= 1 &&
    match g
    case Path => |t| == 1 && PathAt(s, lo, t[0])
    case Port => AllIn(s, lo, t[0], Digit) && StageAt(s, Path, t[0], t[1..])
    case Host =>
      |t| >= 2 && AllIn(s, lo, t[0], HostChar) && PortSep(s, t[0], t[1])
      && StageAt(s, Port, t[1], t[2..])
    case Scheme =>
      AllIn(s, lo, t[0], Word) && AllIn(s, t[0], t[0] + 3, NotNewline)
      && StageAt(s, Host, t[0] + 3, t[1..])
  }

  /** t = [i, a, b, c, d, q] places the whole pattern in s. */
  predicate UrlMatch(s: string, t: seq<int>)
  {
    |t| == 6 && StageAt(s, Scheme, t[0], t[1..])
  }

  /** The later stages' positions when stage g, started at lo, ends at y; None if they cannot be placed. */
  function Accept(s: string, g: Stage, lo: int, y: int): Option<seq<int>>
    decreases Rank(g), 0, 0
  {
    match g
    case Path => if PathAt(s, lo, y) then Some([]) else None
    case Port =>
      if AllIn(s, lo, y, Digit) && Greatest(s, Path, y, |s|).Some? then Greatest(s, Path, y, |s|) else None
    case Host =>
      if AllIn(s, lo, y, HostChar) then PortFrom(s, y) else None
    case Scheme =>
      if AllIn(s, lo, y, Word) && AllIn(s, y, y + 3, NotNewline) && Greatest(s, Host, y + 3, |s|).Some?
      then Greatest(s, Host, y + 3, |s|)
      else None
  }

  /** After a host ending at b: take the `:` if the rest still matches, else skip it. */
  function PortFrom(s: string, b: int): Option<seq<int>>
    decreases Rank(Port), 2, 0
  {
    if 0 <= b < |s| && s[b] == ':' && Greatest(s, Port, b + 1, |s|).Some? then
      Some([b + 1] + Greatest(s, Port, b + 1, |s|).value)
    else if Greatest(s, Port, b, |s|).Some? then
      Some([b] + Greatest(s, Port, b, |s|).value)
    else None
  }

  /** The greatest end y' <= y of stage g (started at lo) after which the later stages can be placed. */
  function Greatest(s: string, g: Stage, lo: int, y: int): Option<seq<int>>
    decreases Rank(g), 1, y - lo + 1
  {
    if y < lo then None
    else if Accept(s, g, lo, y).Some? then Some([y] + Accept(s, g, lo, y).value)
    else Greatest(s, g, lo, y - 1)
  }

  /** The match the regex crate reports: the least start from i on, then the greedy choices. */
  function UrlFrom(s: string, i: int): Option<seq<int>>
    decreases |s| - i
  {
    if i < 0 || i > |s| then None
    else if Greatest(s, Scheme, i, |s|).Some? then Some([i] + Greatest(s, Scheme, i, |s|).value)
    else UrlFrom(s, i + 1)
  }

  function UrlSearch(s: string): Option<seq<int>>
  {
    UrlFrom(s, 0)
  }

  // ---------------------------------------------------------------------------
  // Correctness of the search

  /** Greatest returns the latest end not after y that the later stages accept. */
  lemma {:induction false} GreatestSpec(s: string, g: Stage, lo: int, y: int)
    ensures var r := Greatest(s, g, lo, y);
            r.Some? ==> |r.value| >= 1 && lo <= r.value[0] <= y && Accept(s, g, lo, r.value[0]) == Some(r.value[1..])
    ensures forall y' :: lo <= y' <= y && Accept(s, g, lo, y').Some? ==>
              Greatest(s, g, lo, y).Some? && y' <= Greatest(s, g, lo, y).value[0]
    decreases y - lo + 1
  {
    if lo <= y {
      if Accept(s, g, lo, y).Some? {
        assert ([y] + Accept(s, g, lo, y).value)[1..] == Accept(s, g, lo, y).value;
      } else {
        GreatestSpec(s, g, lo, y - 1);
      }
    }
  }

  /** What Greatest returns from the end of s places stage g and the later ones. */
  lemma {:induction false} GreatestSound(s: string, g: Stage, lo: int)
    requires Greatest(s, g, lo, |s|).Some?
    ensures StageAt(s, g, lo, Greatest(s, g, lo, |s|).value)
    decreases Rank(g), 1
  {
    GreatestSpec(s, g, lo, |s|);
    var r := Greatest(s, g, lo, |s|).value;
    AcceptSound(s, g, lo, r[0]);
  }

  /** An end y that Accept takes is completed by the later stages it returns. */
  lemma {:induction false} AcceptSound(s: string, g: Stage, lo: int, y: int)
    requires Accept(s, g, lo, y).Some?
    ensures StageAt(s, g, lo, [y] + Accept(s, g, lo, y).value)
    decreases Rank(g), 0
  {
    var t := [y] + Accept(s, g, lo, y).value;
    assert t[1..] == Accept(s, g, lo, y).value;
    match g
    case Path =>
    case Port => GreatestSound(s, Path, y);
    case Host =>
      var b := y;
      if 0 <= b < |s| && s[b] == ':' && Greatest(s, Port, b + 1, |s|).Some? {
        GreatestSound(s, Port, b + 1);
      } else {
        GreatestSound(s, Port, b);
      }
      assert t[2..] == t[1..][1..];
    case Scheme => GreatestSound(s, Host, y + 3);
  }

  /** Any placement u of stage g and the later ones is accepted, and is not
      lexicographically greater than what Greatest returns from the end of s. */
  lemma {:induction false} GreatestIsGreatest(s: string, g: Stage, lo: int, u: seq<int>)
    requires StageAt(s, g, lo, u)
    ensures Greatest(s, g, lo, |s|).Some? && !LexGreater(u, Greatest(s, g, lo, |s|).value)
    decreases Rank(g), 1
  {
    AcceptGreatest(s, g, lo, u);
    GreatestSpec(s, g, lo, |s|);
    var r := Greatest(s, g, lo, |s|).value;
    if u[0] == r[0] {
      assert !LexGreater(u[1..], r[1..]);
    }
  }

  /** A placement u is accepted at its own end u[0], and the rest Accept returns there is not smaller. */
  lemma {:induction false} AcceptGreatest(s: string, g: Stage, lo: int, u: seq<int>)
    requires StageAt(s, g, lo, u)
    ensures lo <= u[0] <= |s|
    ensures Accept(s, g, lo, u[0]).Some? && !LexGreater(u[1..], Accept(s, g, lo, u[0]).value)
    decreases Rank(g), 0
  {
    var y := u[0];
    match g
    case Path =>
      assert u[1..] == [];
    case Port =>
      GreatestIsGreatest(s, Path, y, u[1..]);
    case Host =>
      var c := u[1];
      GreatestIsGreatest(s, Port, c, u[2..]);
      assert u[1..][1..] == u[2..];
      if 0 <= y < |s| && s[y] == ':' && Greatest(s, Port, y + 1, |s|).Some? {
        var r := [y + 1] + Greatest(s, Port, y + 1, |s|).value;
        assert r[1..] == Greatest(s, Port, y + 1, |s|).value;
      } else {
        var r := [y] + Greatest(s, Port, y, |s|).value;
        assert r[1..] == Greatest(s, Port, y, |s|).value;
        assert c == y;
      }
    case Scheme =>
      GreatestIsGreatest(s, Host, y + 3, u[1..]);
  }

  /** UrlFrom returns the match with the least start from i on. */
  lemma {:induction false} UrlFromSpec(s: string, i: int)
    requires 0 <= i
    ensures var r := UrlFrom(s, i);
            r.Some? ==> |r.value| >= 1 && i <= r.value[0] <= |s|
                        && Greatest(s, Scheme, r.value[0], |s|) == Some(r.value[1..])
    ensures forall i' :: i <= i' <= |s| && Greatest(s, Scheme, i', |s|).Some? ==>
              UrlFrom(s, i).Some? && UrlFrom(s, i).value[0] <= i'
    decreases |s| - i
  {
    if i <= |s| {
      if Greatest(s, Scheme, i, |s|).Some? {
        assert ([i] + Greatest(s, Scheme, i, |s|).value)[1..] == Greatest(s, Scheme, i, |s|).value;
      } else {
        UrlFromSpec(s, i + 1);
      }
    }
  }

  /** UrlSearch finds a match exactly when there is one, and no other match is preferred to it. */
  lemma UrlSearchCorrect(s: string)
    ensures UrlSearch(s).Some? ==> UrlMatch(s, UrlSearch(s).value)
    ensures UrlSearch(s).Some? ==> forall t :: UrlMatch(s, t) ==> !Preferred(t, UrlSearch(s).value)
    ensures UrlSearch(s).None? ==> forall t :: !UrlMatch(s, t)
  {
    UrlFromSpec(s, 0);
    if UrlSearch(s).Some? {
      var r := UrlSearch(s).value;
      GreatestSound(s, Scheme, r[0]);
      GreatestSpec(s, Scheme, r[0], |s|);
    }
    forall t | UrlMatch(s, t)
      ensures UrlSearch(s).Some? && !Preferred(t, UrlSearch(s).value)
    {
      GreatestIsGreatest(s, Scheme, t[0], t[1..]);
      AcceptGreatest(s, Scheme, t[0], t[1..]);
    }
  }

  // ---------------------------------------------------------------------------
  // The match read flat, its capture groups, and parse_redirect_url

  /** The six positions of a match, read left to right. */
  predicate UrlShape(s: string, t: seq<int>)
  {
    |t| == 6 && AllIn(s, t[0], t[1], Word) && AllIn(s, t[1], t[1] + 3, NotNewline)
    && AllIn(s, t[1] + 3, t[2], HostChar) && PortSep(s, t[2], t[3])
    && AllIn(s, t[3], t[4], Digit) && PathAt(s, t[4], t[5])
  }

  /** The stage-by-stage description of a match is the flat one. */
  lemma UrlMatchIsShape(s: string, t: seq<int>)
    ensures UrlMatch(s, t) <==> UrlShape(s, t)
  {
    if |t| == 6 {
      assert t[1..][1..] == t[2..] && t[2..][2..] == t[4..] && t[4..][1..] == t[5..];
    }
  }

  /** The spans of capture groups 0 to 4 of a match: the whole match, then scheme, host, port and path. */
  function Groups(s: string, t: seq<int>): (g: seq<(int, int)>)
    requires UrlShape(s, t)
    ensures |g| == 5
    ensures forall k :: 0 <= k < 5 ==> 0 <= g[k].0 <= g[k].1 <= |s|
    ensures g[0].0 <= g[1].0 && g[1].1 < g[2].0 && g[2].1 <= g[3].0 && g[3].1 <= g[4].0 && g[4].1 <= g[0].1
  {
    [(t[0], t[5] + 1), (t[0], t[1]), (t[1] + 3, t[2]), (t[3], t[4]), (t[4], t[5])]
  }

  /** The text of capture groups 1 to 4 of a match. */
  function Slices(s: string, t: seq<int>): (parts: seq<string>)
    requires UrlShape(s, t)
    ensures |parts| == 4
    ensures forall k :: 0 <= k < 4 ==> parts[k] == s[Groups(s, t)[k + 1].0 .. Groups(s, t)[k + 1].1]
  {
    seq(4, k requires 0 <= k < 4 => s[Groups(s, t)[k + 1].0 .. Groups(s, t)[k + 1].1])
  }

  /** What parse_redirect_url returns: None without a match, else the four captured slices. */
  function UrlParts(url: string): Option<seq<string>>
  {
    UrlSearchCorrect(url);
    match UrlSearch(url)
    case None => None
    case Some(t) =>
      UrlMatchIsShape(url, t);
      Some(Slices(url, t))
  }

  /** parse_redirect_url: search once, then push the text of every capture group after group 0. */
  method ParseRedirectUrl(url: string) returns (parts: Option<seq<string>>)
    ensures parts == UrlParts(url)
  {
    UrlSearchCorrect(url);
    match UrlSearch(url)
    case None =>
      parts := None;
    case Some(t) =>
      UrlMatchIsShape(url, t);
      var caps := Groups(url, t);
      var acc: seq<string> := [];
      for k := 1 to |caps|
        invariant acc == Slices(url, t)[..k - 1]
      {
        acc := acc + [url[caps[k].0 .. caps[k].1]];
      }
      assert Slices(url, t)[..4] == Slices(url, t);
      parts := Some(acc);
  }

  /** parse_redirect_url fails exactly when the pattern occurs nowhere; otherwise it returns
      the capture groups of the match the regex crate prefers. */
  lemma UrlPartsSpec(url: string)
    ensures UrlParts(url).None? <==> forall t :: !UrlMatch(url, t)
    ensures UrlParts(url).Some? ==>
              exists t :: UrlMatch(url, t) && UrlShape(url, t)
                          && (forall t' :: UrlMatch(url, t') ==> !Preferred(t', t))
                          && UrlParts(url).value == Slices(url, t)
  {
    UrlSearchCorrect(url);
    if UrlSearch(url).Some? {
      UrlMatchIsShape(url, UrlSearch(url).value);
    }
  }

  /** The four slices of a match: a word-character run, a host run, a digit run, and a path
      that starts with `/` and holds no white space. */
  lemma SlicesContent(s: string, t: seq<int>)
    requires UrlShape(s, t)
    ensures var p := Slices(s, t);
            (forall j :: 0 <= j < |p[0]| ==> IsWordChar(p[0][j]))
            && (forall j :: 0 <= j < |p[1]| ==> InClass(p[1][j], HostChar))
            && (forall j :: 0 <= j < |p[2]| ==> '0' <= p[2][j] <= '9')
            && |p[3]| >= 1 && p[3][0] == '/' && (forall j :: 0 <= j < |p[3]| ==> !IsSpace(p[3][j]))
  {
    var p := Slices(s, t);
    assert forall j :: 0 <= j < |p[0]| ==> p[0][j] == s[t[0] + j];
    assert forall j :: 0 <= j < |p[1]| ==> p[1][j] == s[t[1] + 3 + j];
    assert forall j :: 0 <= j < |p[2]| ==> p[2][j] == s[t[3] + j];
    assert forall j :: 0 <= j < |p[3]| ==> p[3][j] == s[t[4] + j];
  }

  /** Every successful result has four entries with the contents SlicesContent describes. */
  lemma UrlPartsContent(url: string)
    requires UrlParts(url).Some?
    ensures var p := UrlParts(url).value;
            |p| == 4
            && (forall j :: 0 <= j < |p[0]| ==> IsWordChar(p[0][j]))
            && (forall j :: 0 <= j < |p[1]| ==> InClass(p[1][j], HostChar))
            && (forall j :: 0 <= j < |p[2]| ==> '0' <= p[2][j] <= '9')
            && |p[3]| >= 1 && p[3][0] == '/' && (forall j :: 0 <= j < |p[3]| ==> !IsSpace(p[3][j]))
  {
    UrlPartsSpec(url);
    var t :| UrlShape(url, t) && UrlParts(url).value == Slices(url, t);
    SlicesContent(url, t);
  }

  /** The four entries are slices of the input at the positions of the reported match, in
      input order and none overlapping the next, with the three separator characters
      between the first two and the `?` right after the last. */
  lemma UrlPartsPlacement(url: string)
    requires UrlParts(url).Some?
    ensures UrlSearch(url).Some?
    ensures var t := UrlSearch(url).value;
            |t| == 6 && 0 <= t[0] <= t[1] && t[1] + 3 <= t[2] <= t[3] <= t[4] < t[5] < |url| && url[t[5]] == '?'
            && UrlParts(url).value == [url[t[0]..t[1]], url[t[1] + 3..t[2]], url[t[3]..t[4]], url[t[4]..t[5]]]
  {
    UrlSearchCorrect(url);
    var t := UrlSearch(url).value;
    UrlMatchIsShape(url, t);
    var parts := Slices(url, t);
    assert parts == [parts[0], parts[1], parts[2], parts[3]];
  }

  /** The path is cut at the last `?` it can reach: no later `?` would still leave a path. */
  lemma PathEndsAtLastQuery(url: string)
    requires UrlSearch(url).Some?
    ensures var t := UrlSearch(url).value;
            |t| == 6 && forall q :: t[5] < q ==> !PathAt(url, t[4], q)
  {
    UrlSearchCorrect(url);
    var t := UrlSearch(url).value;
    UrlMatchIsShape(url, t);
    forall q | t[5] < q
      ensures !PathAt(url, t[4], q)
    {
      if PathAt(url, t[4], q) {
        var u := t[..5] + [q];
        UrlMatchIsShape(url, u);
        assert UrlMatch(url, u);
        assert u[1..][..4] == t[1..][..4];
        LexGreaterAt(u[1..], t[1..], 4);
      }
    }
  }

  // ---------------------------------------------------------------------------
  // Redirect URLs of the usual layout

  /** `scheme://host[:port]path?query` as text. */
  function Layout(scheme: string, host: string, colon: bool, port: string, path: string, query: string): string
  {
    scheme + "://" + host + (if colon then ":" else "") + port + path + "?" + query
  }

  /** A match t starting at 0 whose every greedy stage stops where its run of characters ends,
      and whose `?` is the last one, is the match the regex crate reports. */
  lemma {:induction false} PinnedMatch(url: string, t: seq<int>)
    requires UrlShape(url, t) && t[0] == 0
    requires t[1] < |url| && !IsWordChar(url[t[1]])
    requires t[2] < |url| && !InClass(url[t[2]], HostChar)
    requires t[3] == t[2] ==> url[t[2]] != ':'
    requires forall j :: t[5] < j < |url| ==> url[j] != '?'
    ensures UrlSearch(url) == Some(t)
  {
    UrlMatchIsShape(url, t);
    UrlSearchCorrect(url);
    var r := UrlSearch(url).value;
    UrlMatchIsShape(url, r);
    assert r[0] == 0;
    // Each stage of r stops no later than the end of its run, and no earlier, or t would be preferred.
    NotPreferredAt(t, r, 1);
    assert r[1] == t[1];
    assert r[..2] == t[..2];
    NotPreferredAt(t, r, 2);
    assert r[2] == t[2];
    assert r[..3] == t[..3];
    NotPreferredAt(t, r, 3);
    assert r[3] == t[3];
    assert r[..4] == t[..4];
    NotPreferredAt(t, r, 4);
    assert r[4] == t[4];
    assert r[..5] == t[..5];
    NotPreferredAt(t, r, 5);
    assert r == t;
  }

  /** The positions of the pieces of a laid-out URL. */
  function LayoutPositions(scheme: string, host: string, colon: bool, port: string, path: string): seq<int>
  {
    var b := |scheme| + 3 + |host|;
    var c := b + (if colon then 1 else 0);
    [0, |scheme|, b, c, c + |port|, c + |port| + |path|]
  }

  /** The pieces of a laid-out URL form a match. */
  lemma {:induction false} LayoutShape(scheme: string, host: string, colon: bool, port: string, path: string, query: string)
    requires forall j :: 0 <= j < |scheme| ==> IsWordChar(scheme[j])
    requires forall j :: 0 <= j < |host| ==> InClass(host[j], HostChar)
    requires forall j :: 0 <= j < |port| ==> '0' <= port[j] <= '9'
    requires !colon ==> port == ""
    requires |path| >= 1 && path[0] == '/' && forall j :: 0 <= j < |path| ==> !IsSpace(path[j])
    ensures UrlShape(Layout(scheme, host, colon, port, path, query), LayoutPositions(scheme, host, colon, port, path))
  {
    LayoutFront(scheme, host, colon, port, path, query);
    LayoutBack(scheme, host, colon, port, path, query);
  }

  /** The scheme, the three separator characters and the host of a laid-out URL are runs of their classes. */
  lemma {:induction false} LayoutFront(scheme: string, host: string, colon: bool, port: string, path: string, query: string)
    requires forall j :: 0 <= j < |scheme| ==> IsWordChar(scheme[j])
    requires forall j :: 0 <= j < |host| ==> InClass(host[j], HostChar)
    ensures var url := Layout(scheme, host, colon, port, path, query);
            var t := LayoutPositions(scheme, host, colon, port, path);
            AllIn(url, t[0], t[1], Word) && AllIn(url, t[1], t[1] + 3, NotNewline) && AllIn(url, t[1] + 3, t[2], HostChar)
  {
    var url := Layout(scheme, host, colon, port, path, query);
    var t := LayoutPositions(scheme, host, colon, port, path);
    LayoutPieces(scheme, host, colon, port, path, query);
    AllInSlice(url, 0, t[1], Word);
    AllInSlice(url, t[1], t[1] + 3, NotNewline);
    AllInSlice(url, t[1] + 3, t[2], HostChar);
  }

  /** The optional `:`, the port and the path of a laid-out URL fit their parts of the pattern. */
  lemma {:induction false} LayoutBack(scheme: string, host: string, colon: bool, port: string, path: string, query: string)
    requires forall j :: 0 <= j < |port| ==> '0' <= port[j] <= '9'
    requires !colon ==> port == ""
    requires |path| >= 1 && path[0] == '/' && forall j :: 0 <= j < |path| ==> !IsSpace(path[j])
    ensures var url := Layout(scheme, host, colon, port, path, query);
            var t := LayoutPositions(scheme, host, colon, port, path);
            PortSep(url, t[2], t[3]) && AllIn(url, t[3], t[4], Digit) && PathAt(url, t[4], t[5])
  {
    var url := Layout(scheme, host, colon, port, path, query);
    var t := LayoutPositions(scheme, host, colon, port, path);
    var d, q := t[4], t[5];
    LayoutPieces(scheme, host, colon, port, path, query);
    if colon {
      assert url[t[2]] == url[t[2]..t[3]][0];
    }
    AllInSlice(url, t[3], d, Digit);
    AllInSlice(url, d + 1, q, NonSpace);
    assert url[d + 1..q] == path[1..];
  }

  /** In a laid-out URL every stage of the pattern stops at a character its run cannot take,
      and no `?` follows the query mark. */
  lemma {:induction false} LayoutStops(scheme: string, host: string, colon: bool, port: string, path: string, query: string)
    requires !colon ==> port == ""
    requires |path| >= 1 && path[0] == '/'
    requires forall j :: 0 <= j < |query| ==> query[j] != '?'
    ensures var url := Layout(scheme, host, colon, port, path, query);
            var t := LayoutPositions(scheme, host, colon, port, path);
            t[1] < |url| && !IsWordChar(url[t[1]])
            && t[2] < |url| && !InClass(url[t[2]], HostChar)
            && (t[3] == t[2] ==> url[t[2]] != ':')
            && (forall j :: t[5] < j < |url| ==> url[j] != '?')
  {
    var url := Layout(scheme, host, colon, port, path, query);
    var t := LayoutPositions(scheme, host, colon, port, path);
    LayoutPieces(scheme, host, colon, port, path, query);
    assert url[t[2]] == (if colon then ':' else '/') by {
      if colon { assert url[t[2]] == url[t[2]..t[3]][0]; }
    }
    assert forall j :: t[5] < j < |url| ==> url[j] == url[t[5] + 1..][j - t[5] - 1];
  }

  /** The captured slices of a laid-out URL are its pieces. */
  lemma {:induction false} LayoutSlices(scheme: string, host: string, colon: bool, port: string, path: string, query: string)
    requires UrlShape(Layout(scheme, host, colon, port, path, query), LayoutPositions(scheme, host, colon, port, path))
    ensures Slices(Layout(scheme, host, colon, port, path, query), LayoutPositions(scheme, host, colon, port, path))
            == [scheme, host, port, path]
  {
    LayoutPieces(scheme, host, colon, port, path, query);
  }

  /** A URL laid out as scheme, `://`, host, an optional `:` and port, a path and a query
      without `?` splits into exactly those four pieces; without a port the third entry is
      empty, so the result has four entries with or without a port. */
  lemma {:induction false} SplitLayout(scheme: string, host: string, colon: bool, port: string, path: string, query: string)
    requires forall j :: 0 <= j < |scheme| ==> IsWordChar(scheme[j])
    requires forall j :: 0 <= j < |host| ==> InClass(host[j], HostChar)
    requires forall j :: 0 <= j < |port| ==> '0' <= port[j] <= '9'
    requires !colon ==> port == ""
    requires |path| >= 1 && path[0] == '/' && forall j :: 0 <= j < |path| ==> !IsSpace(path[j])
    requires forall j :: 0 <= j < |query| ==> query[j] != '?'
    ensures UrlParts(Layout(scheme, host, colon, port, path, query)) == Some([scheme, host, port, path])
  {
    var url := Layout(scheme, host, colon, port, path, query);
    var t := LayoutPositions(scheme, host, colon, port, path);
    LayoutShape(scheme, host, colon, port, path, query);
    LayoutStops(scheme, host, colon, port, path, query);
    LayoutSlices(scheme, host, colon, port, path, query);
    PinnedMatch(url, t);
    UrlMatchIsShape(url, t);
  }

  /** Where each piece of a laid-out URL sits. */
  lemma LayoutPieces(scheme: string, host: string, colon: bool, port: string, path: string, query: string)
    ensures var url := Layout(scheme, host, colon, port, path, query);
            var a := |scheme|;
            var b := a + 3 + |host|;
            var c := b + (if colon then 1 else 0);
            var d := c + |port|;
            var q := d + |path|;
            |url| == q + 1 + |query|
            && url[..a] == scheme && url[a] == ':' && url[a..a + 3] == "://" && url[a + 3..b] == host
            && url[b..c] == (if colon then ":" else "") && url[c..d] == port && url[d..q] == path
            && url[q] == '?' && url[q + 1..] == query
            && (|path| > 0 ==> url[b + |port| + (if colon then 1 else 0)] == path[0])
            && (|port| == 0 && !colon && |path| > 0 ==> url[b] == path[0])
  {
  }

  // ---------------------------------------------------------------------------
  // The origin callers build from the split

  /** `scheme://host` from the first two entries of the split, as the login builds it
      for the form action and for the security-code request; None where the split fails. */
  function Origin(url: string): Option<string>
  {
    match UrlParts(url)
    case None => None
    case Some(parts) =>
      UrlPartsContent(url);
      Some(parts[0] + "://" + parts[1])
  }

  /** The origin of a laid-out URL is its scheme and host, whether or not a port follows. */
  lemma OriginOfLayout(scheme: string, host: string, colon: bool, port: string, path: string, query: string)
    requires forall j :: 0 <= j < |scheme| ==> IsWordChar(scheme[j])
    requires forall j :: 0 <= j < |host| ==> InClass(host[j], HostChar)
    requires forall j :: 0 <= j < |port| ==> '0' <= port[j] <= '9'
    requires !colon ==> port == ""
    requires |path| >= 1 && path[0] == '/' && forall j :: 0 <= j < |path| ==> !IsSpace(path[j])
    requires forall j :: 0 <= j < |query| ==> query[j] != '?'
    ensures Origin(Layout(scheme, host, colon, port, path, query)) == Some(scheme + "://" + host)
  {
    SplitLayout(scheme, host, colon, port, path, query);
  }
}
