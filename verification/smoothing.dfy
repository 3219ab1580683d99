/** Temporal smoothing, `smooth_color` (ambilight.py:143-146), with the fixed
    blend factor alpha = 0.75 that the control loop passes. */
module Smoothing {
  import opened Colors

  function Min(a: int, b: int): int {
    if a <= b then a else b
  }

  function Max(a: int, b: int): int {
    if a <= b then b else a
  }

  /** `int(0.75 * n + 0.25 * o)` on one channel. For 8-bit operands both
      products and their sum are exact binary fractions, and the value is not
      negative, so `int` truncates it to the integer quotient of 3n + o by 4. */
  function SmoothChannel(n: int, o: int): (s: int)
    requires IsByte(n) && IsByte(o)
    ensures 4 * s <= 3 * n + o < 4 * s + 4
    ensures Min(n, o) <= s <= Max(n, o)
    ensures o < n ==> s < n
    ensures n < o ==> s < o
  {
    (3 * n + o) / 4
  }

  /** The new colour blended with the previous one, channel by channel. */
  function Smooth(next: Color, prev: Color): (s: Color)
    requires InGamut(next) && InGamut(prev)
    ensures InGamut(s)
    ensures forall k :: Min(Get(next, k), Get(prev, k)) <= Get(s, k) <= Max(Get(next, k), Get(prev, k))
    ensures next == prev ==> s == next
  {
    Color(SmoothChannel(next.r, prev.r), SmoothChannel(next.g, prev.g), SmoothChannel(next.b, prev.b))
  }

  /** Channel `o` after `smooth_color` has been applied `steps` times on its
      own toward a constant `n`. The loop applies `enhance_color` after each
      blend, so this is the loop's behaviour only when the enhancement leaves
      colours unchanged (`ControlLoop.SmoothingOnlyRun`). */
  function Settle(n: int, o: int, steps: nat): (s: int)
    requires IsByte(n) && IsByte(o)
    ensures IsByte(s)
    decreases steps
  {
    if steps == 0 then o else Settle(n, SmoothChannel(n, o), steps - 1)
  }

  /** Settling counted from the last step: one more application of the blend. */
  lemma {:induction false} SettleLast(n: int, o: int, steps: nat)
    requires IsByte(n) && IsByte(o)
    ensures Settle(n, o, steps + 1) == SmoothChannel(n, Settle(n, o, steps))
    decreases steps
  {
    if steps > 0 {
      SettleLast(n, SmoothChannel(n, o), steps - 1);
    }
  }

  /** `Settle` on each channel of a colour. */
  function SettleColor(next: Color, prev: Color, steps: nat): (s: Color)
    requires InGamut(next) && InGamut(prev)
    ensures InGamut(s)
    ensures steps == 0 ==> s == prev
  {
    Color(Settle(next.r, prev.r, steps), Settle(next.g, prev.g, steps), Settle(next.b, prev.b, steps))
  }

  /** Because the blend is truncated, a channel rising toward a steady value
      never reaches it: it stops one short when it starts one short. */
  lemma {:induction false} RisingStaysBelow(n: int, o: int, steps: nat)
    requires IsByte(n) && IsByte(o) && o < n
    ensures o <= Settle(n, o, steps) < n
    ensures o == n - 1 ==> Settle(n, o, steps) == n - 1
    decreases steps
  {
    if steps > 0 {
      RisingStaysBelow(n, SmoothChannel(n, o), steps - 1);
    }
  }

  /** A channel falling toward a steady value gets there: each application of
      the blend divides the distance by four, truncating, so four applications
      close any 8-bit gap. */
  lemma {:induction false} FallingSettles(n: int, o: int, steps: nat)
    requires IsByte(n) && IsByte(o) && n <= o
    ensures n <= Settle(n, o, steps)
    ensures (Settle(n, o, steps) - n) * Pow4(steps) <= o - n
    decreases steps
  {
    if steps > 0 {
      var o' := SmoothChannel(n, o);
      var rest, p := Settle(n, o', steps - 1) - n, Pow4(steps - 1);
      assert 4 * (o' - n) <= o - n;
      FallingSettles(n, o', steps - 1);
      assert Pow4(steps) == 4 * p;
      Regroup(rest, p);
    }
  }

  lemma Regroup(x: int, p: int)
    ensures x * (4 * p) == 4 * (x * p)
  {
  }

  function Pow4(k: nat): (p: nat)
    ensures p >= 1
  {
    if k == 0 then 1 else 4 * Pow4(k - 1)
  }

  lemma FallingSettlesInFourSteps(n: int, o: int)
    requires IsByte(n) && IsByte(o) && n <= o
    ensures Settle(n, o, 4) == n
  {
    FallingSettles(n, o, 4);
    assert Pow4(4) == 256;
  }
}
