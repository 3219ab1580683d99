/** Window selection of `get_vlc_geometry` (ambilight.py:17-36): the first
    client whose lower-cased class contains "vlc", rendered as the `X,Y WxH`
    geometry string that the screenshot tool takes. Running `hyprctl` and
    decoding its JSON are not part of this model; it starts from the decoded
    list of clients. */
module WindowLocator {
  import opened Text

  datatype Pair = Pair(first: int, second: int)

  /** One decoded entry of `hyprctl clients -j`. `cls` is "" when the key is
      absent (`client.get('class', '')`). `at` and `size` are None when the key
      is absent or holds fewer than two numbers: indexing it then raises, and
      the `except` around the whole search returns None. */
  datatype Client = Client(cls: string, at: Option<Pair>, size: Option<Pair>)

  /** `str.lower` on one character, for ASCII text. */
  function LowerChar(ch: char): (lc: char)
    ensures 'A' <= ch <= 'Z' ==> lc as int == ch as int + 32
    ensures !('A' <= ch <= 'Z') ==> lc == ch
  {
    if 'A' <= ch <= 'Z' then (ch as int + 32) as char else ch
  }

  function Lower(s: string): (r: string)
    ensures |r| == |s|
    ensures forall i :: 0 <= i < |s| ==> r[i] == LowerChar(s[i])
  {
    if s == [] then [] else [LowerChar(s[0])] + Lower(s[1..])
  }

  /** Python's `t in s` for strings: `t` occurs in `s` at some offset. */
  predicate Contains(s: string, t: string)
    decreases |s|
  {
    t <= s || (|s| > 0 && Contains(s[1..], t))
  }

  /** The test at ambilight.py:29-30: "vlc" occurs at some offset of the
      lower-cased class. */
  function IsVlc(c: Client): (b: bool)
    ensures b <==> exists i :: OccursAt(Lower(c.cls), "vlc", i)
  {
    ContainsAt(Lower(c.cls), "vlc");
    Contains(Lower(c.cls), "vlc")
  }

  predicate IsFirstVlc(clients: seq<Client>, i: int) {
    0 <= i < |clients| && IsVlc(clients[i]) && forall j :: 0 <= j < i ==> !IsVlc(clients[j])
  }

  /** The position of the client the `for` loop stops at, if any. */
  function FirstVlc(clients: seq<Client>): (r: Option<nat>)
    ensures r.Some? ==> IsFirstVlc(clients, r.value)
    ensures r.None? <==> forall i :: 0 <= i < |clients| ==> !IsVlc(clients[i])
  {
    if clients == [] then None
    else if IsVlc(clients[0]) then Some(0)
    else match FirstVlc(clients[1..])
      case None => None
      case Some(i) => Some(i + 1)
  }

  /** `f"{at[0]},{at[1]} {size[0]}x{size[1]}"`: the string carries exactly
      the window's position and size. */
  function Geometry(at: Pair, size: Pair): (s: string)
    ensures ParseGeometry(s) == Some((at, size))
  {
    var xs, ys := IntToString(at.first), IntToString(at.second);
    var ws, hs := IntToString(size.first), IntToString(size.second);
    IntToStringHasNo(at.first, ',');
    IntToStringHasNo(at.second, ' ');
    IntToStringHasNo(size.first, 'x');
    SplitAtJoin(xs, ',', ys + " " + (ws + "x" + hs));
    SplitAtJoin(ys, ' ', ws + "x" + hs);
    SplitAtJoin(ws, 'x', hs);
    IntToStringRoundTrip(at.first);
    IntToStringRoundTrip(at.second);
    IntToStringRoundTrip(size.first);
    IntToStringRoundTrip(size.second);
    xs + "," + (ys + " " + (ws + "x" + hs))
  }

  /** The result of `get_vlc_geometry` once the client list is decoded. */
  function VlcGeometry(clients: seq<Client>): (g: Option<string>)
    ensures g.Some? <==> exists i :: IsFirstVlc(clients, i) && clients[i].at.Some? && clients[i].size.Some?
    ensures forall i :: IsFirstVlc(clients, i) && clients[i].at.Some? && clients[i].size.Some?
              ==> g == Some(Geometry(clients[i].at.value, clients[i].size.value))
  {
    match FirstVlc(clients)
    case None => None
    case Some(i) =>
      var c := clients[i];
      if c.at.Some? && c.size.Some? then Some(Geometry(c.at.value, c.size.value)) else None
  }

  /** Reads `X,Y WxH` back into a position and a size: the inverse of
      `Geometry`, defined here to state what the string carries. */
  function ParseGeometry(s: string): Option<(Pair, Pair)> {
    match SplitAt(s, ',')
    case None => None
    case Some((xs, rest)) =>
      match SplitAt(rest, ' ')
      case None => None
      case Some((ys, dims)) =>
        match SplitAt(dims, 'x')
        case None => None
        case Some((ws, hs)) =>
          match (ParseInt(xs), ParseInt(ys), ParseInt(ws), ParseInt(hs))
          case (Some(x), Some(y), Some(w), Some(h)) => Some((Pair(x, y), Pair(w, h)))
          case _ => None
  }

  /** The search returns the first VLC client's geometry and nothing from a later client. */
  lemma FirstMatchWins(clients: seq<Client>, i: nat)
    requires IsFirstVlc(clients, i)
    ensures VlcGeometry(clients).Some? <==> clients[i].at.Some? && clients[i].size.Some?
    ensures VlcGeometry(clients).Some? ==>
      ParseGeometry(VlcGeometry(clients).value) == Some((clients[i].at.value, clients[i].size.value))
  {
  }

  /** `t` sits in `s` starting at offset `i`. */
  predicate OccursAt(s: string, t: string, i: int) {
    0 <= i <= |s| - |t| && s[i..i + |t|] == t
  }

  /** `Contains` holds exactly when `t` occurs in `s` at some offset. */
  lemma {:induction false} ContainsAt(s: string, t: string)
    ensures Contains(s, t) <==> exists i :: OccursAt(s, t, i)
    decreases |s|
  {
    if t <= s {
      assert OccursAt(s, t, 0);
    } else if |s| > 0 {
      ContainsAt(s[1..], t);
      if exists i :: OccursAt(s, t, i) {
        var i :| OccursAt(s, t, i);
        assert i != 0;
        assert OccursAt(s[1..], t, i - 1);
      }
      if exists i :: OccursAt(s[1..], t, i) {
        var i :| OccursAt(s[1..], t, i);
        assert OccursAt(s, t, i + 1);
      }
    } else {
      assert forall i :: !OccursAt(s, t, i);
    }
  }

  /** A class whose three characters at offset `n` lower-case to "vlc" matches. */
  lemma MatchAt(cls: string, n: nat, at: Option<Pair>, size: Option<Pair>)
    requires n + 3 <= |cls|
    requires LowerChar(cls[n]) == 'v' && LowerChar(cls[n + 1]) == 'l' && LowerChar(cls[n + 2]) == 'c'
    ensures IsVlc(Client(cls, at, size))
  {
    var lower := Lower(cls);
    assert lower[n..n + 3] == "vlc";
    assert OccursAt(lower, "vlc", n);
    ContainsAt(lower, "vlc");
  }

  /** A class holding "vlc" or "VLC" anywhere, as "org.videolan.VLC" does, matches. */
  lemma VlcAnywhereMatches(before: string, after: string, at: Option<Pair>, size: Option<Pair>)
    ensures IsVlc(Client(before + "VLC" + after, at, size))
    ensures IsVlc(Client(before + "vlc" + after, at, size))
  {
    var n := |before|;
    var upper, lower := before + "VLC" + after, before + "vlc" + after;
    assert upper[n] == 'V' && upper[n + 1] == 'L' && upper[n + 2] == 'C';
    MatchAt(upper, n, at, size);
    assert lower[n] == 'v' && lower[n + 1] == 'l' && lower[n + 2] == 'c';
    MatchAt(lower, n, at, size);
  }

  /** A class without the letter v, in either case, never matches. */
  lemma NoVNoMatch(c: Client)
    requires forall i :: 0 <= i < |c.cls| ==> c.cls[i] != 'v' && c.cls[i] != 'V'
    ensures !IsVlc(c)
  {
    var lower := Lower(c.cls);
    assert forall i :: 0 <= i < |lower| ==> lower[i] != 'v';
    forall i ensures !OccursAt(lower, "vlc", i) {
      if 0 <= i <= |lower| - 3 {
        assert lower[i..i + 3][0] == lower[i];
      }
    }
    ContainsAt(lower, "vlc");
  }
}
