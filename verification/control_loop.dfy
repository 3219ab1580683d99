/** The state update of the `main` loop (ambilight.py:157-197). The loop keeps
    two variables across iterations, the last colour sent and the number of
    consecutive iterations without a VLC window; each iteration consults the
    window locator and the screen capture, computes a colour and sends it.
    Here one iteration is `Ambilight.Step`, whose inputs are the outcomes of
    those external calls, and `Next` is the function it is proved against. */
module ControlLoop {
  import opened Colors
  import opened Text
  import opened EdgeBands
  import opened Smoothing
  import opened BulbCommand
  import WindowLocator

  /** The status lines the loop prints (the banner and shutdown lines aside). */
  datatype Notice =
    | Waiting            // "Waiting for VLC window..."
    | Detected           // "VLC window detected!"
    | Shown(color: Color) // "R=.. G=.. B=..", after a send that returned True
    | SendFailed         // "Failed to send color: ...", printed by the sender

  /** What one iteration does that can be seen from outside: the lines it
      prints and the datagram text it attempts to send, if any. */
  datatype Effects = Effects(notices: seq<Notice>, datagram: Option<string>)

  /** Outcomes of the external calls of one iteration: the locator's geometry
      string, the captured frame after resizing, and whether the send returned
      True. An outcome the iteration never asks for is ignored. */
  datatype Observation = Observation(geometry: Option<string>, frame: Option<Grid>, sendOk: bool)

  datatype LoopState = LoopState(lastColor: Color, missCount: nat)

  /** `last_color = (0, 0, 0)`, `no_vlc_count = 0` (ambilight.py:157-159). */
  const INITIAL := LoopState(BLACK, 0)

  /** Python's truthiness of the locator's result (`if not geometry`). */
  predicate Found(geometry: Option<string>) {
    geometry.Some? && geometry.value != ""
  }

  /** The loop's `if not geometry` is a test for None: the locator never
      returns an empty string, since every string it returns reads back as
      a geometry and the empty string does not. */
  lemma LocatorResultFound(clients: seq<WindowLocator.Client>)
    ensures Found(WindowLocator.VlcGeometry(clients)) <==> WindowLocator.VlcGeometry(clients).Some?
  {
    var g := WindowLocator.VlcGeometry(clients);
    if g.Some? {
      assert WindowLocator.ParseGeometry(g.value).Some?;
      assert WindowLocator.ParseGeometry("").None?;
    }
  }

  predicate WellFormed(obs: Observation) {
    obs.frame.Some? ==> IsFrame(obs.frame.value)
  }

  predicate AllWellFormed(obs: seq<Observation>) {
    forall i :: 0 <= i < |obs| ==> WellFormed(obs[i])
  }

  /** `enhance_color` returns `int(x * 255)` of values clamped to [0, 1]. */
  ghost predicate PreservesGamut(enhance: Color -> Color) {
    forall c {:trigger enhance(c)} :: InGamut(c) ==> InGamut(enhance(c))
  }

  /** One iteration of the loop, as a function of the state before it. */
  function Next(s: LoopState, obs: Observation, enhance: Color -> Color): (r: (LoopState, Effects))
    requires InGamut(s.lastColor) && WellFormed(obs)
    // a miss: the counter goes up, "waiting" on misses 1, 11, 21, ..., nothing else changes
    ensures !Found(obs.geometry) ==>
      && r.0 == LoopState(s.lastColor, s.missCount + 1)
      && (Waiting in r.1.notices <==> (s.missCount + 1) % 10 == 1)
      && r.1.notices <= [Waiting] && r.1.datagram.None?
    // a find: the counter is reset; "detected" is printed first, and only
    // after at least one miss, then the outcome of the send if a frame was
    // captured; never "waiting"
    ensures Found(obs.geometry) ==>
      && r.0.missCount == 0
      && r.1.notices
         == (if s.missCount > 0 then [Detected] else [])
          + (if obs.frame.None? then [] else [if obs.sendOk then Shown(r.0.lastColor) else SendFailed])
    // a failed capture keeps the colour and sends nothing
    ensures Found(obs.geometry) && obs.frame.None? ==>
      r.0.lastColor == s.lastColor && r.1.datagram.None?
    // a completed cycle sends and keeps the enhanced, smoothed edge average,
    // whether or not the send succeeded
    ensures Found(obs.geometry) && obs.frame.Some? ==>
      && r.0.lastColor == enhance(Smooth(EdgeAverage(obs.frame.value), s.lastColor))
      && r.1.datagram == Some(Payload(r.0.lastColor))
  {
    if !Found(obs.geometry) then
      var misses := s.missCount + 1;
      (LoopState(s.lastColor, misses), Effects(if misses % 10 == 1 then [Waiting] else [], None))
    else
      var detected := if s.missCount > 0 then [Detected] else [];
      match obs.frame
      case None => (LoopState(s.lastColor, 0), Effects(detected, None))
      case Some(frame) =>
        var color := enhance(Smooth(EdgeAverage(frame), s.lastColor));
        var report := if obs.sendOk then Shown(color) else SendFailed;
        (LoopState(color, 0), Effects(detected + [report], Some(Payload(color))))
  }

  /** On a find, "detected" is printed exactly when there were misses, never
      "waiting", and a completed cycle reports the colour exactly when the
      send succeeded. */
  lemma FindNotices(s: LoopState, obs: Observation, enhance: Color -> Color)
    requires InGamut(s.lastColor) && WellFormed(obs) && Found(obs.geometry)
    ensures Detected in Next(s, obs, enhance).1.notices <==> s.missCount > 0
    ensures Waiting !in Next(s, obs, enhance).1.notices
    ensures obs.frame.Some? ==>
      (Shown(Next(s, obs, enhance).0.lastColor) in Next(s, obs, enhance).1.notices <==> obs.sendOk)
  {
    var r := Next(s, obs, enhance);
    var sent: seq<Notice> := if obs.frame.None? then [] else [if obs.sendOk then Shown(r.0.lastColor) else SendFailed];
    Membership(s.missCount > 0, sent);
  }

  lemma Membership(missed: bool, sent: seq<Notice>)
    requires Detected !in sent && Waiting !in sent
    ensures Detected in (if missed then [Detected] else []) + sent <==> missed
    ensures Waiting !in (if missed then [Detected] else []) + sent
    ensures forall n :: n in sent ==> n in (if missed then [Detected] else []) + sent
  {
  }

  /** The first |obs| iterations from state `s`: the state after them and what
      each of them did. */
  function Run(s: LoopState, obs: seq<Observation>, enhance: Color -> Color): (r: (LoopState, seq<Effects>))
    requires InGamut(s.lastColor) && AllWellFormed(obs) && PreservesGamut(enhance)
    ensures InGamut(r.0.lastColor) && |r.1| == |obs|
    decreases |obs|
  {
    if obs == [] then (s, [])
    else
      var before := Run(s, obs[..|obs| - 1], enhance);
      var after := Next(before.0, obs[|obs| - 1], enhance);
      (after.0, before.1 + [after.1])
  }

  /** Every line printed, in order. */
  function Notices(log: seq<Effects>): seq<Notice> {
    if log == [] then [] else Notices(log[..|log| - 1]) + log[|log| - 1].notices
  }

  lemma NoticesAppend(log: seq<Effects>, e: Effects)
    ensures Notices(log + [e]) == Notices(log) + e.notices
  {
    assert (log + [e])[..|log|] == log;
  }

  predicate AllMisses(obs: seq<Observation>) {
    forall i :: 0 <= i < |obs| ==> !Found(obs[i].geometry)
  }

  /** How many of the miss counts m+1..m+k print "waiting": those that are 1
      modulo 10, that is 1, 11, 21, ... */
  function WaitsBetween(m: nat, k: nat): nat {
    if k == 0 then 0 else WaitsBetween(m, k - 1) + (if (m + k) % 10 == 1 then 1 else 0)
  }

  lemma {:induction false} WaitsClosedForm(m: nat, k: nat)
    ensures WaitsBetween(m, k) == (m + k + 9) / 10 - (m + 9) / 10
  {
    if k > 0 {
      WaitsClosedForm(m, k - 1);
    }
  }

  /** A miss: the counter goes up and at most a "waiting" line is printed. */
  lemma MissStep(s: LoopState, obs: Observation, enhance: Color -> Color)
    requires InGamut(s.lastColor) && WellFormed(obs) && !Found(obs.geometry)
    ensures Next(s, obs, enhance).0 == LoopState(s.lastColor, s.missCount + 1)
    ensures Next(s, obs, enhance).1 == Effects(if (s.missCount + 1) % 10 == 1 then [Waiting] else [], None)
  {
  }

  /** What k misses in a row print and send, from miss count m. */
  function MissLog(m: nat, k: nat): (log: seq<Effects>)
    ensures |log| == k
  {
    if k == 0 then []
    else MissLog(m, k - 1) + [Effects(if (m + k) % 10 == 1 then [Waiting] else [], None)]
  }

  lemma {:induction false} MissRun(s: LoopState, obs: seq<Observation>, enhance: Color -> Color)
    requires InGamut(s.lastColor) && AllWellFormed(obs) && PreservesGamut(enhance) && AllMisses(obs)
    ensures Run(s, obs, enhance) == (LoopState(s.lastColor, s.missCount + |obs|), MissLog(s.missCount, |obs|))
    decreases |obs|
  {
    if obs != [] {
      var n := |obs|;
      var prefix := obs[..n - 1];
      assert AllWellFormed(prefix) && AllMisses(prefix);
      MissRun(s, prefix, enhance);
      var before := Run(s, prefix, enhance);
      MissStep(before.0, obs[n - 1], enhance);
      assert Run(s, obs, enhance) == (Next(before.0, obs[n - 1], enhance).0, before.1 + [Next(before.0, obs[n - 1], enhance).1]);
    }
  }

  lemma {:induction false} MissLogLength(m: nat, k: nat)
    ensures |Notices(MissLog(m, k))| == WaitsBetween(m, k)
    decreases k
  {
    if k > 0 {
      MissLogLength(m, k - 1);
      var prev := MissLog(m, k - 1);
      var e := Effects(if (m + k) % 10 == 1 then [Waiting] else [], None);
      assert MissLog(m, k) == prev + [e];
      NoticesAppend(prev, e);
    }
  }

  lemma {:induction false} MissLogOnlyWaiting(m: nat, k: nat)
    ensures forall i :: 0 <= i < |Notices(MissLog(m, k))| ==> Notices(MissLog(m, k))[i] == Waiting
    decreases k
  {
    if k > 0 {
      MissLogOnlyWaiting(m, k - 1);
      var prev := MissLog(m, k - 1);
      var e := Effects(if (m + k) % 10 == 1 then [Waiting] else [], None);
      assert MissLog(m, k) == prev + [e];
      NoticesAppend(prev, e);
    }
  }

  lemma {:induction false} MissLogSilent(m: nat, k: nat)
    ensures forall i :: 0 <= i < k ==> MissLog(m, k)[i].datagram.None?
    decreases k
  {
    if k > 0 {
      MissLogSilent(m, k - 1);
      assert forall i :: 0 <= i < k - 1 ==> MissLog(m, k)[i] == MissLog(m, k - 1)[i];
    }
  }

  /** A run of k misses starting at miss count m raises the count by k, keeps
      the colour, sends nothing and prints only "waiting" lines, one for each
      count in m+1..m+k that is 1 modulo 10. */
  lemma MissStreak(s: LoopState, obs: seq<Observation>, enhance: Color -> Color)
    requires InGamut(s.lastColor) && AllWellFormed(obs) && PreservesGamut(enhance) && AllMisses(obs)
    ensures Run(s, obs, enhance).0 == LoopState(s.lastColor, s.missCount + |obs|)
    ensures |Notices(Run(s, obs, enhance).1)| == WaitsBetween(s.missCount, |obs|)
    ensures forall i :: 0 <= i < |Notices(Run(s, obs, enhance).1)| ==> Notices(Run(s, obs, enhance).1)[i] == Waiting
    ensures forall i :: 0 <= i < |obs| ==> Run(s, obs, enhance).1[i].datagram.None?
  {
    MissRun(s, obs, enhance);
    MissLogLength(s.missCount, |obs|);
    MissLogOnlyWaiting(s.missCount, |obs|);
    MissLogSilent(s.missCount, |obs|);
  }

  /** From startup, two misses and then a window whose capture fails print
      "waiting" once, then "detected", and leave the loop in its initial state. */
  lemma MissMissFind(miss: Observation, find: Observation, enhance: Color -> Color)
    requires !Found(miss.geometry) && WellFormed(miss)
    requires Found(find.geometry) && find.frame.None?
    requires PreservesGamut(enhance)
    ensures Run(INITIAL, [miss, miss, find], enhance).0 == INITIAL
    ensures Notices(Run(INITIAL, [miss, miss, find], enhance).1) == [Waiting, Detected]
  {
    var obs := [miss, miss, find];
    assert obs[..2] == [miss, miss];
    var before := Run(INITIAL, [miss, miss], enhance);
    MissStreak(INITIAL, [miss, miss], enhance);
    var after := Next(before.0, find, enhance);
    assert Run(INITIAL, obs, enhance) == (after.0, before.1 + [after.1]);
    assert after.1.notices == [Detected];
    NoticesAppend(before.1, after.1);
  }

  /** A solid blue frame (of any size) seen right after startup: the edge average is
      pure blue, smoothing against black gives (0, 0, 191), and the datagram
      carries the enhancement of that. */
  lemma BlueFrameAfterStartup(frame: Grid, geometry: string, sendOk: bool, enhance: Color -> Color)
    requires IsFrame(frame) && Uniform(frame, Color(0, 0, 255)) && geometry != ""
    ensures Smooth(EdgeAverage(frame), BLACK) == Color(0, 0, 191)
    ensures Next(INITIAL, Observation(Some(geometry), Some(frame), sendOk), enhance).1.datagram
         == Some(Payload(enhance(Color(0, 0, 191))))
  {
    UniformFrameAverage(frame, Color(0, 0, 255));
    var obs := Observation(Some(geometry), Some(frame), sendOk);
    assert Found(obs.geometry);
  }

  /** The enhancement that leaves every colour as it is. */
  function Unenhanced(c: Color): Color {
    c
  }

  /** With the enhancement switched off, passes that each capture a frame of
      one colour `c` do nothing but iterate `smooth_color`: the stored colour
      is `Settle` of the starting colour on each channel. */
  lemma {:induction false} SmoothingOnlyRun(s: LoopState, obs: seq<Observation>, c: Color)
    requires InGamut(s.lastColor) && InGamut(c) && AllWellFormed(obs)
    requires forall i :: 0 <= i < |obs| ==>
      Found(obs[i].geometry) && obs[i].frame.Some? && Uniform(obs[i].frame.value, c)
    ensures Run(s, obs, Unenhanced).0.lastColor == SettleColor(c, s.lastColor, |obs|)
    decreases |obs|
  {
    if obs != [] {
      var n := |obs|;
      var prefix := obs[..n - 1];
      assert AllWellFormed(prefix);
      SmoothingOnlyRun(s, prefix, c);
      var before := Run(s, prefix, Unenhanced);
      var last := obs[n - 1];
      UniformFrameAverage(last.frame.value, c);
      assert Run(s, obs, Unenhanced).0 == Next(before.0, last, Unenhanced).0;
      SettleLast(c.r, s.lastColor.r, n - 1);
      SettleLast(c.g, s.lastColor.g, n - 1);
      SettleLast(c.b, s.lastColor.b, n - 1);
    }
  }

  /** Since the last "detected" line (or since startup) a "waiting" line has
      been printed. */
  predicate Pending(ns: seq<Notice>) {
    if ns == [] then false
    else if ns[|ns| - 1] == Waiting then true
    else if ns[|ns| - 1] == Detected then false
    else Pending(ns[..|ns| - 1])
  }

  /** Every "detected" line follows a "waiting" line printed after the
      previous "detected" line. */
  predicate Bracketed(ns: seq<Notice>) {
    ns == [] || (Bracketed(ns[..|ns| - 1]) && (ns[|ns| - 1] == Detected ==> Pending(ns[..|ns| - 1])))
  }

  lemma BracketedAppend(ns: seq<Notice>, n: Notice)
    requires Bracketed(ns) && (n == Detected ==> Pending(ns))
    ensures Bracketed(ns + [n])
    ensures Pending(ns + [n]) == (n == Waiting || (n != Detected && Pending(ns)))
  {
    assert (ns + [n])[..|ns|] == ns;
  }

  /** Appending "detected" (allowed only while a "waiting" line is pending)
      and then a line of neither kind keeps the bracketing. */
  lemma AppendFound(ns: seq<Notice>, detected: seq<Notice>, rest: seq<Notice>)
    requires Bracketed(ns)
    requires detected == [] || (detected == [Detected] && Pending(ns))
    requires rest == [] || (|rest| == 1 && rest[0] != Detected && rest[0] != Waiting)
    ensures Bracketed(ns + (detected + rest))
  {
    assert ns + (detected + rest) == ns + detected + rest;
    if detected != [] {
      BracketedAppend(ns, Detected);
    } else {
      assert ns + detected == ns;
    }
    if rest != [] {
      BracketedAppend(ns + detected, rest[0]);
      assert rest == [rest[0]];
    } else {
      assert ns + detected + rest == ns + detected;
    }
  }

  /** One iteration keeps the bracketing of the printed lines, and leaves a
      "waiting" line pending whenever its miss counter is positive. */
  lemma NextKeepsBracketed(s: LoopState, obs: Observation, enhance: Color -> Color, ns: seq<Notice>)
    requires InGamut(s.lastColor) && WellFormed(obs)
    requires Bracketed(ns) && (s.missCount > 0 ==> Pending(ns))
    ensures Bracketed(ns + Next(s, obs, enhance).1.notices)
    ensures Next(s, obs, enhance).0.missCount > 0 ==> Pending(ns + Next(s, obs, enhance).1.notices)
  {
    if !Found(obs.geometry) {
      MissStep(s, obs, enhance);
      if (s.missCount + 1) % 10 == 1 {
        BracketedAppend(ns, Waiting);
      } else {
        assert ns + [] == ns;
      }
    } else {
      AppendFound(ns, if s.missCount > 0 then [Detected] else [],
        if obs.frame.None? then [] else [if obs.sendOk then Shown(Next(s, obs, enhance).0.lastColor) else SendFailed]);
    }
  }

  /** From startup, "detected" is only ever printed after "waiting", and once
      per outage: a positive miss counter means a "waiting" line is pending. */
  lemma {:induction false} DetectedFollowsWaiting(obs: seq<Observation>, enhance: Color -> Color)
    requires AllWellFormed(obs) && PreservesGamut(enhance)
    ensures Bracketed(Notices(Run(INITIAL, obs, enhance).1))
    ensures Run(INITIAL, obs, enhance).0.missCount > 0 ==> Pending(Notices(Run(INITIAL, obs, enhance).1))
    decreases |obs|
  {
    if obs != [] {
      var n := |obs|;
      var before := Run(INITIAL, obs[..n - 1], enhance);
      DetectedFollowsWaiting(obs[..n - 1], enhance);
      var after := Next(before.0, obs[n - 1], enhance);
      assert Run(INITIAL, obs, enhance) == (after.0, before.1 + [after.1]);
      NoticesAppend(before.1, after.1);
      NextKeepsBracketed(before.0, obs[n - 1], enhance, Notices(before.1));
    }
  }

  /** Observations that differ at most in the send outcomes. */
  predicate SameButSends(a: seq<Observation>, b: seq<Observation>) {
    |a| == |b| && forall i :: 0 <= i < |a| ==> a[i].geometry == b[i].geometry && a[i].frame == b[i].frame
  }

  /** Whether sends succeed changes neither the loop's state nor what it
      sends: a dropped datagram does not freeze the smoothing. */
  lemma {:induction false} SendOutcomeIrrelevant(s: LoopState, a: seq<Observation>, b: seq<Observation>, enhance: Color -> Color)
    requires InGamut(s.lastColor) && AllWellFormed(a) && AllWellFormed(b) && PreservesGamut(enhance)
    requires SameButSends(a, b)
    ensures Run(s, a, enhance).0 == Run(s, b, enhance).0
    ensures forall i :: 0 <= i < |a| ==> Run(s, a, enhance).1[i].datagram == Run(s, b, enhance).1[i].datagram
    decreases |a|
  {
    if a != [] {
      var n := |a|;
      SendOutcomeIrrelevant(s, a[..n - 1], b[..n - 1], enhance);
    }
  }

  class Ambilight {
    var lastColor: Color
    var missCount: nat
    const enhance: Color -> Color

    ghost predicate Valid()
      reads this
    {
      InGamut(lastColor) && PreservesGamut(enhance)
    }

    function State(): LoopState
      reads this
    {
      LoopState(lastColor, missCount)
    }

    constructor (enhance: Color -> Color)
      requires PreservesGamut(enhance)
      ensures Valid() && State() == INITIAL && this.enhance == enhance
    {
      this.enhance := enhance;
      lastColor := BLACK;
      missCount := 0;
    }

    /** One pass of the `while True` body. */
    method Step(obs: Observation) returns (effects: Effects)
      requires Valid() && WellFormed(obs)
      modifies this
      ensures Valid()
      ensures (State(), effects) == Next(old(State()), obs, enhance)
    {
      if !Found(obs.geometry) {
        missCount := missCount + 1;
        var notices := if missCount % 10 == 1 then [Waiting] else [];
        return Effects(notices, None);
      }
      var notices := [];
      if missCount > 0 {
        notices := [Detected];
        missCount := 0;
      }
      if obs.frame.None? {
        return Effects(notices, None);
      }
      var average := EdgeAverage(obs.frame.value);
      var smoothed := Smooth(average, lastColor);
      var color := enhance(smoothed);
      var payload := Payload(color);
      notices := notices + [if obs.sendOk then Shown(color) else SendFailed];
      lastColor := color;
      effects := Effects(notices, Some(payload));
    }

    /** The loop run for as many iterations as there are observations. */
    method RunAll(observations: seq<Observation>) returns (log: seq<Effects>)
      requires Valid() && AllWellFormed(observations)
      modifies this
      ensures Valid()
      ensures (State(), log) == Run(old(State()), observations, enhance)
    {
      log := [];
      var i := 0;
      while i < |observations|
        invariant 0 <= i <= |observations| && Valid()
        invariant (State(), log) == Run(old(State()), observations[..i], enhance)
      {
        assert observations[..i + 1][..i] == observations[..i];
        var effects := Step(observations[i]);
        log := log + [effects];
        i := i + 1;
      }
      assert observations[..i] == observations;
    }
  }
}
