/** The timeline clock: the elapsed time a frame is drawn at and the overall
    progress value written back after each frame. */
module Timeline {
  import opened Basics
  import opened Catalog

  /** The total duration, in milliseconds, as a real for the clock math. */
  const Total: real := TotalDuration(Scenes) as real

  /** The elapsed time of a frame: while playing, the time since the anchor;
      while paused, the stored progress scaled to the total, clamped to it. */
  function Elapsed(isPlaying: bool, now: real, startTs: real, progress: real, total: real): (t: real)
    ensures isPlaying ==> t == now - startTs
    ensures !isPlaying ==> t <= total
    ensures !isPlaying && progress <= 1.0 && total >= 0.0 ==> t == progress * total
  {
    if isPlaying then now - startTs
    else
      assert progress <= 1.0 && total >= 0.0 ==> progress * total <= total by {
        if progress <= 1.0 && total >= 0.0 { assert (1.0 - progress) * total >= 0.0; }
      }
      Min(progress * total, total)
  }

  /** The progress value: the elapsed fraction of the total, at most 1. */
  function Progress(t: real, total: real): (prog: real)
    requires total > 0.0
    ensures prog <= 1.0
    ensures t >= 0.0 ==> prog >= 0.0
    ensures t <= total ==> prog * total == t
    ensures t >= total ==> prog == 1.0
  {
    Min(t / total, 1.0)
  }

  /** A paused frame writes back exactly the progress it was drawn from, so
      drawing it changes no state. */
  lemma PausedFrameKeepsProgress(now: real, startTs: real, p: real, total: real)
    requires 0.0 <= p <= 1.0 && total > 0.0
    ensures Progress(Elapsed(false, now, startTs, p, total), total) == p
  {
    var t := Elapsed(false, now, startTs, p, total);
    assert t == p * total;
    assert t <= total by { assert (1.0 - p) * total >= 0.0; }
    assert t / total == p;
  }

  /** The anchor taken when playback resumes: the clock is pushed back by the
      stored progress scaled to the total, so the next frame continues where
      the last one stopped. */
  function ResumeAnchor(now: real, progress: real, total: real): (startTs: real)
    ensures 0.0 <= progress && 0.0 <= total ==> startTs <= now
    ensures Elapsed(true, now, startTs, progress, total) == progress * total
    ensures 0.0 <= progress <= 1.0 && total > 0.0 ==>
              Progress(Elapsed(true, now, startTs, progress, total), total) == progress
  {
    assert 0.0 <= progress <= 1.0 && total > 0.0 ==> progress * total <= total by {
      if 0.0 <= progress <= 1.0 && total > 0.0 { assert (1.0 - progress) * total >= 0.0; }
    }
    now - progress * total
  }

  /** Writing back the progress of a playing frame drawn at `now` and
      re-anchoring on it at `later` moves the anchor by exactly `later -
      now`: each frame that writes back a new progress sets the loop back by
      the time between the frame and the draw-loop effect's re-run. */
  lemma ReanchorAfterFrame(now: real, later: real, startTs: real, total: real)
    requires total > 0.0 && 0.0 <= now - startTs < total
    ensures ResumeAnchor(later, Progress(Elapsed(true, now, startTs, 0.0, total), total), total)
            == startTs + (later - now)
  {
    var t := Elapsed(true, now, startTs, 0.0, total);
    assert Progress(t, total) * total == t;
  }

  lemma TotalValue()
    ensures Total == 46600.0
  {
    CatalogFacts();
  }
}
