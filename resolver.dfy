/** The scene resolver: maps an elapsed time to the active scene, the time
    within it and the normalised progress within it, by scanning the
    catalog and accumulating durations. */
module Resolver {
  import opened Basics
  import opened Catalog

  /** The cumulative-duration scan of the frame renderer. The loop breaks at
      the first scene whose window `[acc, acc + d)` ends after `t`; when none
      does (t at or past the total) it never breaks, and the result is scene
      0 with `acc` equal to the total. The local time is `t - acc` clamped to
      `[0, d]`, and the progress is `local / d`, or 0 for a zero duration. */
  method ResolveScene(scenes: seq<Scene>, t: real) returns (index: nat, acc: nat, local: real, p: real)
    requires |scenes| > 0
    ensures index < |scenes|
    // the smallest scene whose window ends after t, with acc the sum before it
    ensures t < TotalDuration(scenes) as real ==>
              && (t < PrefixSum(scenes, index + 1) as real)
              && (forall j :: 0 < j <= index ==> PrefixSum(scenes, j) as real <= t)
              && acc == PrefixSum(scenes, index)
    ensures 0.0 <= t < TotalDuration(scenes) as real ==>
              acc as real <= t < (acc + scenes[index].durationMs) as real && local == t - acc as real
    // no scene window contains t
    ensures t >= TotalDuration(scenes) as real ==> index == 0 && acc == TotalDuration(scenes)
    ensures t >= TotalDuration(scenes) as real ==>
              local == Min(t - TotalDuration(scenes) as real, scenes[0].durationMs as real)
    ensures t == TotalDuration(scenes) as real ==> local == 0.0 && p == 0.0
    ensures t < 0.0 ==> index == 0 && local == 0.0 && p == 0.0
    // clamping
    ensures 0.0 <= local <= scenes[index].durationMs as real
    ensures 0.0 <= p <= 1.0
    ensures p == Fraction(local, scenes[index].durationMs)
  {
    acc, index := 0, 0;
    var i := 0;
    while i < |scenes|
      invariant 0 <= i <= |scenes|
      invariant acc == PrefixSum(scenes, i)
      invariant forall j :: 0 < j <= i ==> PrefixSum(scenes, j) as real <= t
      invariant index == 0
    {
      var d := scenes[i].durationMs;
      if t < (acc + d) as real {
        index := i;
        PrefixSumMonotone(scenes, i + 1, |scenes|);
        PrefixSumMonotone(scenes, 0, i);
        break;
      }
      acc := acc + d;
      i := i + 1;
    }
    var d := scenes[index].durationMs;
    local := Min(Max(t - acc as real, 0.0), d as real);
    if d != 0 {
      FractionBounds(local, d as real);
      p := local / d as real;
    } else {
      p := 0.0;
    }
  }

  /** The share of a duration `d` that `local` is: `local / d`, or 0 for a
      zero duration. A time within the duration is a share in [0, 1]. */
  function Fraction(local: real, d: nat): (p: real)
    ensures d == 0 ==> p == 0.0
    ensures 0.0 <= local <= d as real ==> 0.0 <= p <= 1.0
  {
    if d == 0 then 0.0
    else
      assert 0.0 <= local <= d as real ==> 0.0 <= local / d as real <= 1.0 by {
        if 0.0 <= local <= d as real { FractionBounds(local, d as real); }
      }
      local / d as real
  }

  /** For a positive duration, the share times the duration gives back the
      time. */
  lemma FractionScales(local: real, d: nat)
    requires d > 0
    ensures Fraction(local, d) * d as real == local
  {
  }

  /** A part of a positive whole is a fraction in [0, 1] of it. */
  lemma FractionBounds(part: real, whole: real)
    requires 0.0 <= part <= whole && whole > 0.0
    ensures 0.0 <= part / whole <= 1.0
  {
    assert (part / whole) * whole == part;
  }

  /** The two-scene example: durations 1000 ms and 2000 ms, at t = 1500 the
      second scene is active, 500 ms into it, a quarter of the way through. */
  method TwoSceneExample() returns (index: nat, local: real, p: real)
    ensures index == 1 && local == 500.0 && p == 0.25
  {
    var a := Scene("a", "first", 1000, 1.0, 1.0, 0.0, 0.0, 0.0, 0.0);
    var b := Scene("b", "second", 2000, 1.0, 1.0, 0.0, 0.0, 0.0, 0.0);
    var acc;
    assert PrefixSum([a, b], 1) == 1000;
    index, acc, local, p := ResolveScene([a, b], 1500.0);
  }
}
