/** The playback, narration and export controller of the page: the React
    state (`isPlaying`, `isRecording`, `progress`, `error`), the recorder
    reference and its chunk list, and the locals of the draw-loop and
    narration effects. Timers, animation frames, recorder events and
    utterance ends are explicit event methods; each event ends by re-running
    the effects whose dependencies it changed, as a render would
    (draw loop: `isPlaying`, `progress`; narration: `isPlaying`, voices). */
module Player {
  import opened Basics
  import opened Catalog
  import opened Voices
  import opened Narration
  import opened Timeline

  /** What is handed to the speech provider. */
  datatype SpeechEvent = Speak(utterance: Utterance) | CancelSpeech

  /** A media chunk delivered by the recorder; only its size matters here. */
  datatype Chunk = Chunk(size: nat)

  /** An exception thrown while setting up or starting the recorder, with
      its message if it has one. */
  datatype Thrown = Thrown(message: Option<string>)

  /** The recorder the page holds: none yet, inactive (never started, or
      finished), recording, or stopped and about to deliver its last data. */
  datatype RecorderState = NoRecorder | Inactive | Recording | Stopping

  /** One live run of the narration effect: the voice it picked, its utterances, the closure's
      `index`, whether the settle timer is still pending, and whether the
      utterance last spoken still has its end handler attached. */
  datatype Chain = Chain(voice: Option<Voice>, utterances: seq<Utterance>, index: nat, settlePending: bool, speaking: bool)

  const RestartDelayMs: nat := 50
  const StartSettleMs: nat := 100
  const StopMarginMs: nat := 250

  /** The stop timer's delay for this catalog: its total plus the margin. */
  lemma StopDelayValue()
    ensures TotalDuration(Scenes) + StopMarginMs == 46850
  {
    CatalogFacts();
  }

  const ExportFailure: string := "Failed to export video"

  /** The error text shown for a thrown exception. */
  function ErrorMessage(e: Thrown): (m: string)
    ensures e.message.Some? ==> m == e.message.value
    ensures e.message.None? ==> m == ExportFailure
  {
    match e.message
    case Some(text) => text
    case None => ExportFailure
  }

  /** A narration run of the effect built over `scenes` with its voice: one
      utterance per scene in order; the settle timer is pending only before
      the first utterance, and once no end handler is attached every
      utterance has been spoken. */
  ghost predicate ChainValid(c: Chain, scenes: seq<Scene>) {
    && |c.utterances| == |scenes|
    && (forall i :: 0 <= i < |scenes| ==> c.utterances[i] == UtteranceFor(scenes[i], c.voice))
    && c.index <= |c.utterances|
    && (c.settlePending <==> c.index == 0)
    && (c.settlePending ==> !c.speaking)
    && (!c.speaking && !c.settlePending ==> c.index == |c.utterances|)
  }

  /** The frame loop runs exactly while playing, and so does narration. */
  ghost predicate PlaybackValid(scenes: seq<Scene>, progress: real, framePending: bool, isPlaying: bool,
                                startTs: real, clock: real, narration: Option<Chain>) {
    && 0.0 <= progress <= 1.0
    && (framePending <==> isPlaying)
    && (framePending ==> startTs <= clock)
    && (isPlaying <==> narration.Some?)
    && (narration.Some? ==> ChainValid(narration.value, scenes))
  }

  /** The recorder is live exactly while recording, and its timers run in
      sequence. */
  ghost predicate RecorderValid(stopDelay: nat, chunks: seq<Chunk>, isRecording: bool, recorder: RecorderState,
                                startDelay: Option<nat>, stopTimer: Option<nat>) {
    && (forall k :: 0 <= k < |chunks| ==> chunks[k].size > 0)
    && (isRecording <==> recorder == Recording || recorder == Stopping)
    && (startDelay.Some? ==> startDelay == Some(StartSettleMs) && recorder == Recording && stopTimer.None?)
    && (stopTimer.Some? ==> stopTimer == Some(stopDelay) && recorder == Recording)
  }

  class Player {
    // the scene catalog and its total duration, fixed at construction
    const scenes: seq<Scene>
    const total: real
    // the preferred voice names, in preference order
    const preferred: seq<string>
    // the stop timer's delay
    const stopDelay: nat
    // React state
    var isPlaying: bool
    var isRecording: bool
    var progress: real
    var error: Option<string>
    // refs: the recorder and its chunks
    var recorder: RecorderState
    var chunks: seq<Chunk>
    // draw-loop effect: its anchor and whether an animation frame is requested
    var startTs: real
    var framePending: bool
    // the elapsed time of every frame drawn, in order
    var frames: seq<real>
    // the speech provider's voice list and what was handed to it
    var voices: seq<Voice>
    var narration: Option<Chain>
    var speech: seq<SpeechEvent>
    // timers: pending deferred plays of restart, the post-start wait, the stop timer
    var restartTimers: nat
    var startDelay: Option<nat>
    var stopTimer: Option<nat>
    // the recordings handed to the download link
    var downloads: seq<seq<Chunk>>
    // the latest time an event was seen
    var clock: real

    ghost predicate Valid()
      reads this
    {
      && |scenes| > 0 && total > 0.0
      && PlaybackValid(scenes, progress, framePending, isPlaying, startTs, clock, narration)
      && RecorderValid(stopDelay, chunks, isRecording, recorder, startDelay, stopTimer)
    }

    /** Mounting the page: paused at progress 0, a static frame drawn at 0,
        and the narration effect's first run cancelling any speech. The
        voice hook's first update then stores the provider's list, a new
        array, so the narration effect runs once more and cancels again. */
    constructor (now: real, initialVoices: seq<Voice>)
      ensures Valid() && scenes == Scenes && total == Total && preferred == Preferred
      ensures total == TotalDuration(scenes) as real && stopDelay == TotalDuration(scenes) + StopMarginMs
      ensures !isPlaying && !isRecording && progress == 0.0 && error == None
      ensures recorder == NoRecorder && chunks == [] && downloads == []
      ensures frames == [0.0] && speech == [CancelSpeech, CancelSpeech] && narration == None
      ensures voices == initialVoices && clock == now
      ensures restartTimers == 0 && startDelay == None && stopTimer == None
    {
      scenes, total, preferred, stopDelay := Scenes, Total, Preferred, TotalDuration(Scenes) + StopMarginMs;
      TotalValue();
      isPlaying, isRecording, progress, error := false, false, 0.0, None;
      recorder, chunks := NoRecorder, [];
      startTs, framePending, frames := now, false, [Elapsed(false, now, now, 0.0, Total)];
      voices, narration, speech := initialVoices, None, [CancelSpeech, CancelSpeech];
      restartTimers, startDelay, stopTimer := 0, None, None;
      downloads, clock := [], now;
    }

    /** The draw-loop effect re-running: the old frame request is cancelled;
        when playing, the clock is anchored so that the next frame continues
        from the stored progress and a frame is requested; when paused, one
        static frame is drawn at the stored progress, which it leaves as it
        is. */
    method DrawEffect(now: real)
      requires 0.0 <= progress <= 1.0 && total > 0.0
      modifies this`startTs, this`framePending, this`frames, this`progress
      ensures progress == old(progress)
      ensures framePending == isPlaying
      ensures isPlaying ==> startTs == ResumeAnchor(now, progress, total) && frames == old(frames)
      ensures !isPlaying ==> startTs == now && frames == old(frames) + [Elapsed(false, now, now, progress, total)]
    {
      framePending := false;
      startTs := 0.0;
      if isPlaying {
        startTs := ResumeAnchor(now, progress, total);
        framePending := true;
      } else {
        startTs := now;
        var t := Elapsed(false, now, startTs, progress, total);
        PausedFrameKeepsProgress(now, startTs, progress, total);
        frames := frames + [t];
        progress := Progress(t, total);
      }
    }

    /** The narration effect re-running: the previous run, if any, has its
        timer cleared, its end handlers detached and speech cancelled; when
        paused, speech is cancelled once more; when playing, the utterances
        are built with the picked voice and the settle timer is armed. */
    method NarrationEffect()
      modifies this`narration, this`speech
      ensures isPlaying <==> narration.Some?
      ensures isPlaying ==> && narration.value.voice == PickVoice(preferred, voices)
                            && narration.value.index == 0 && narration.value.settlePending
                            && ChainValid(narration.value, scenes)
      ensures speech == old(speech) + (if old(narration).Some? then [CancelSpeech] else [])
                                    + (if isPlaying then [] else [CancelSpeech])
    {
      if narration.Some? {
        speech := speech + [CancelSpeech];
        narration := None;
      }
      if !isPlaying {
        speech := speech + [CancelSpeech];
      } else {
        var voice := PickVoice(preferred, voices);
        var us := BuildUtterances(scenes, voice);
        narration := Some(Chain(voice, us, 0, true, false));
      }
    }

    /** The render after a handler: the draw-loop effect re-runs when
        `isPlaying` or `progress` changed, the narration effect when
        `isPlaying` did. */
    method Commit(now: real, wasPlaying: bool, wasProgress: real)
      requires 0.0 <= progress <= 1.0 && total > 0.0 && clock == now
      // what the effects that do not re-run leave in place
      requires isPlaying == wasPlaying && progress == wasProgress ==>
                 (framePending <==> isPlaying) && (framePending ==> startTs <= clock)
      requires isPlaying == wasPlaying ==>
                 (isPlaying <==> narration.Some?) && (narration.Some? ==> ChainValid(narration.value, scenes))
      modifies this`startTs, this`framePending, this`frames, this`progress, this`narration, this`speech
      ensures progress == old(progress)
      ensures isPlaying == wasPlaying && progress == wasProgress ==>
                unchanged(this`startTs, this`framePending, this`frames)
      ensures isPlaying != wasPlaying || progress != wasProgress ==>
                && framePending == isPlaying
                && (isPlaying ==> startTs == ResumeAnchor(now, progress, total) && frames == old(frames))
                && (!isPlaying ==> startTs == now && frames == old(frames) + [Elapsed(false, now, now, progress, total)])
      ensures isPlaying == wasPlaying ==> unchanged(this`narration, this`speech)
      ensures isPlaying != wasPlaying ==>
                && (isPlaying <==> narration.Some?)
                && (isPlaying ==> && narration.value.voice == PickVoice(preferred, voices)
                                  && narration.value.index == 0 && narration.value.settlePending
                                  && ChainValid(narration.value, scenes))
                && speech == old(speech) + (if old(narration).Some? then [CancelSpeech] else [])
                                         + (if isPlaying then [] else [CancelSpeech])
      // a render while playing draws nothing at once, and speaks nothing unless it ends a run
      ensures isPlaying ==> frames == old(frames)
      ensures isPlaying && (isPlaying == wasPlaying || old(narration).None?) ==> speech == old(speech)
      ensures PlaybackValid(scenes, progress, framePending, isPlaying, startTs, clock, narration)
    {
      if isPlaying != wasPlaying || progress != wasProgress {
        DrawEffect(now);
      }
      if isPlaying != wasPlaying {
        NarrationEffect();
      }
    }

    /** The Play button: clears the error and starts playing; resuming
        anchors the clock so the first frame continues from the stored
        progress, and starts narration from the first scene. */
    method Play(now: real)
      requires Valid() && now >= clock
      modifies this`clock, this`error, this`isPlaying, this`progress
      modifies this`startTs, this`framePending, this`frames, this`narration, this`speech
      ensures Valid() && clock == now
      ensures isPlaying && framePending && error == None
      ensures !old(isPlaying) ==> startTs == ResumeAnchor(now, progress, total)
      ensures !old(isPlaying) ==> && narration.value.voice == PickVoice(preferred, voices)
                                  && narration.value.index == 0 && narration.value.settlePending
      ensures old(isPlaying) ==> unchanged(this`startTs, this`narration)
      ensures unchanged(this`progress, this`frames, this`speech)
    {
      clock := now;
      var was := isPlaying;
      error := None;
      isPlaying := true;
      Commit(now, was, progress);
    }

    /** The Pause button: stops the frame loop with progress frozen at the
        last frame's value, draws one static frame there, and cancels the
        narration. The export session, if any, goes on. */
    method Pause(now: real)
      requires Valid() && now >= clock
      modifies this`clock, this`isPlaying, this`progress
      modifies this`startTs, this`framePending, this`frames, this`narration, this`speech
      ensures Valid() && clock == now
      ensures !isPlaying && !framePending && narration == None
      ensures old(isPlaying) ==> && speech == old(speech) + [CancelSpeech, CancelSpeech]
                                 && frames == old(frames) + [Elapsed(false, now, now, progress, total)]
                                 && startTs == now
      ensures !old(isPlaying) ==> unchanged(this`startTs, this`speech, this`frames)
      ensures unchanged(this`progress)
    {
      clock := now;
      var was := isPlaying;
      isPlaying := false;
      Commit(now, was, progress);
    }

    /** The Restart button: stops playback and rewinds to 0 now, and arms a
        timer that will set playing later. */
    method Restart(now: real)
      requires Valid() && now >= clock
      modifies this`clock, this`isPlaying, this`progress, this`restartTimers
      modifies this`startTs, this`framePending, this`frames, this`narration, this`speech
      ensures Valid() && clock == now
      ensures !isPlaying && progress == 0.0 && !framePending && narration == None
      ensures restartTimers == old(restartTimers) + 1
      ensures old(isPlaying) || old(progress) != 0.0 ==> frames == old(frames) + [0.0] && startTs == now
      ensures !old(isPlaying) && old(progress) == 0.0 ==> unchanged(this`frames, this`startTs)
      ensures old(isPlaying) ==> speech == old(speech) + [CancelSpeech, CancelSpeech]
      ensures !old(isPlaying) ==> unchanged(this`speech)
    {
      clock := now;
      var wasPlaying, wasProgress := isPlaying, progress;
      isPlaying := false;
      progress := 0.0;
      restartTimers := restartTimers + 1;
      Commit(now, wasPlaying, wasProgress);
    }

    /** A restart timer firing: playing is set, from whatever progress is
        stored then (0 unless something ran in between). */
    method RestartTimerFired(now: real)
      requires Valid() && now >= clock
      modifies this`clock, this`restartTimers, this`isPlaying, this`progress
      modifies this`startTs, this`framePending, this`frames, this`narration, this`speech
      ensures Valid() && clock == now
      ensures old(restartTimers) == 0 ==>
                unchanged(this`restartTimers, this`isPlaying, this`framePending, this`startTs, this`narration)
      ensures old(restartTimers) > 0 ==> restartTimers == old(restartTimers) - 1 && isPlaying && framePending
      ensures old(restartTimers) > 0 && !old(isPlaying) ==>
                && startTs == ResumeAnchor(now, progress, total)
                && narration.value.voice == PickVoice(preferred, voices)
                && narration.value.index == 0 && narration.value.settlePending
      ensures old(restartTimers) > 0 && old(isPlaying) ==> unchanged(this`startTs, this`narration)
      ensures unchanged(this`progress, this`frames, this`speech)
    {
      clock := now;
      if restartTimers > 0 {
        restartTimers := restartTimers - 1;
        var was := isPlaying;
        isPlaying := true;
        Commit(now, was, progress);
      }
    }

    /** An animation frame at `now`, and the render it causes, whose
        effects read the clock at `later`. A cancelled request never fires.
        Otherwise the frame is drawn at `now - startTs` (the anchor taken as
        `now` when it is 0) and its progress written back. Before the total
        the loop goes on; when the progress changed, the draw-loop effect
        re-anchors at `later`, which moves the anchor on by `later - now`.
        At or past the total playing stops, a last static frame is drawn at
        the total and the narration is cancelled. */
    method AnimationFrame(now: real, later: real)
      requires Valid() && now >= clock && later >= now
      modifies this`clock, this`isPlaying, this`progress, this`startTs, this`framePending, this`frames
      modifies this`narration, this`speech
      ensures Valid()
      ensures !old(framePending) ==>
                && clock == now
                && unchanged(this`isPlaying, this`progress, this`startTs, this`framePending, this`frames)
                && unchanged(this`narration, this`speech)
      ensures old(framePending) ==>
                var anchor := if old(startTs) == 0.0 then now else old(startTs);
                var t := now - anchor;
                && clock == later && progress == Progress(t, total)
                && (t < total ==> && isPlaying && framePending
                                  && startTs == anchor + (if progress != old(progress) then later - now else 0.0)
                                  && frames == old(frames) + [t]
                                  && unchanged(this`narration, this`speech))
                && (t >= total ==> && !isPlaying && !framePending && progress == 1.0 && narration == None
                                   && startTs == later
                                   && frames == old(frames) + [t, total]
                                   && speech == old(speech) + [CancelSpeech, CancelSpeech])
    {
      clock := now;
      if !framePending {
        return;
      }
      var wasPlaying, wasProgress := isPlaying, progress;
      var t := DrawPlayingFrame(now);
      clock := later;
      Commit(later, wasPlaying, wasProgress);
      if t < total && progress != wasProgress {
        ReanchorAfterFrame(now, later, now - t, total);
      } else if t >= total {
        assert Elapsed(false, later, later, 1.0, total) == total;
      }
    }

    /** The frame callback of a running loop: the anchor is taken as `now`
        when it is 0, the frame is drawn at the elapsed time since it and its
        progress written back; before the total the next frame is requested,
        at or past it playing is cleared. */
    method DrawPlayingFrame(now: real) returns (t: real)
      requires total > 0.0
      modifies this`startTs, this`frames, this`progress, this`isPlaying, this`framePending
      ensures startTs == (if old(startTs) == 0.0 then now else old(startTs))
      ensures t == now - startTs && frames == old(frames) + [t] && progress == Progress(t, total)
      ensures t < total ==> isPlaying == old(isPlaying) && framePending
      ensures t >= total ==> !isPlaying && !framePending
    {
      framePending := false;
      if startTs == 0.0 {
        startTs := now;
      }
      t := Elapsed(true, now, startTs, progress, total);
      frames := frames + [t];
      progress := Progress(t, total);
      if t >= total {
        isPlaying := false;
      } else {
        framePending := true;
      }
    }

    /** The narration closure's `speakNext` on a live run: past the last
        utterance it does nothing more; otherwise it hands the next
        utterance to the speech provider and attaches its end handler. */
    method SpeakNext(c: Chain)
      requires ChainValid(c.(settlePending := c.index == 0), scenes) && !c.settlePending
      modifies this`narration, this`speech
      ensures c.index >= |c.utterances| ==> narration == Some(c.(speaking := false)) && speech == old(speech)
      ensures c.index < |c.utterances| ==>
                && narration == Some(c.(index := c.index + 1, speaking := true))
                && speech == old(speech) + [Speak(c.utterances[c.index])]
    {
      if c.index >= |c.utterances| {
        narration := Some(c.(speaking := false));
      } else {
        var u := c.utterances[c.index];
        speech := speech + [Speak(u)];
        narration := Some(c.(index := c.index + 1, speaking := true));
      }
    }

    /** The settle timer firing: the first utterance, that of scene 0. */
    method SettleTimerFired(now: real)
      requires Valid() && now >= clock
      modifies this`clock, this`narration, this`speech
      ensures Valid() && clock == now
      ensures old(narration).Some? && old(narration).value.settlePending ==>
                && narration == Some(old(narration).value.(index := 1, settlePending := false, speaking := true))
                && speech == old(speech) + [Speak(UtteranceFor(scenes[0], old(narration).value.voice))]
      ensures !(old(narration).Some? && old(narration).value.settlePending) ==> unchanged(this`narration, this`speech)
    {
      clock := now;
      if narration.Some? && narration.value.settlePending {
        SpeakNext(narration.value.(settlePending := false));
      }
    }

    /** The utterance being spoken ends: its handler speaks the next scene's
        caption, in catalog order, each at most once. With no live run (after
        a pause) or no attached handler nothing is spoken. */
    method UtteranceEnded(now: real)
      requires Valid() && now >= clock
      modifies this`clock, this`narration, this`speech
      ensures Valid() && clock == now
      ensures old(narration).Some? && old(narration).value.speaking && old(narration).value.index < |scenes| ==>
                var i := old(narration).value.index;
                && narration == Some(old(narration).value.(index := i + 1))
                && speech == old(speech) + [Speak(UtteranceFor(scenes[i], old(narration).value.voice))]
      ensures old(narration).Some? && old(narration).value.speaking && old(narration).value.index >= |scenes| ==>
                && narration == Some(old(narration).value.(speaking := false))
                && old(narration).value.index == |scenes| && unchanged(this`speech)
      ensures !(old(narration).Some? && old(narration).value.speaking) ==> unchanged(this`narration, this`speech)
    {
      clock := now;
      if narration.Some? && narration.value.speaking {
        SpeakNext(narration.value);
      }
    }

    /** The speech provider's voice list changing: the narration effect
        re-runs, so a live narration starts over from the first scene with
        the newly picked voice. */
    method VoicesChanged(now: real, newVoices: seq<Voice>)
      requires Valid() && now >= clock
      modifies this`clock, this`voices, this`narration, this`speech
      ensures Valid() && clock == now && voices == newVoices
      ensures isPlaying ==> && narration.value.voice == PickVoice(preferred, newVoices)
                            && narration.value.index == 0 && narration.value.settlePending
      ensures speech == old(speech) + [CancelSpeech]
    {
      clock := now;
      voices := newVoices;
      NarrationEffect();
    }

    /** The export button (disabled while recording). With no canvas it only
        clears the error. If building the stream or the recorder throws, the
        error is shown and nothing else changes. Otherwise the chunk list is
        emptied, recording and playing from 0 are set, and the recorder is
        started; if starting throws, the error is shown and recording is
        cleared, but playing from 0 stays set. On success the post-start wait
        is pending. */
    method Export(now: real, hasCanvas: bool, setupError: Option<Thrown>, startError: Option<Thrown>)
      requires Valid() && now >= clock && !isRecording
      modifies this`clock, this`chunks, this`recorder, this`isRecording, this`isPlaying, this`progress
      modifies this`error, this`startDelay, this`startTs, this`framePending, this`frames, this`narration, this`speech
      ensures Valid() && clock == now
      ensures !hasCanvas ==> error == None
      ensures hasCanvas && setupError.Some? ==> error == Some(ErrorMessage(setupError.value))
      ensures !hasCanvas || setupError.Some? ==>
                && unchanged(this`isPlaying, this`progress, this`startTs, this`framePending)
                && unchanged(this`narration, this`recorder, this`chunks)
                && !isRecording && startDelay == None && stopTimer == None
      ensures hasCanvas && setupError.None? ==> isPlaying && framePending && progress == 0.0 && chunks == []
      ensures hasCanvas && setupError.None? && startError.Some? ==>
                && error == Some(ErrorMessage(startError.value))
                && !isRecording && recorder == Inactive && startDelay == None && stopTimer == None
      ensures hasCanvas && setupError.None? && startError.None? ==>
                && error == None && isRecording && recorder == Recording
                && startDelay == Some(StartSettleMs) && stopTimer == None
      ensures hasCanvas && setupError.None? && (!old(isPlaying) || old(progress) != 0.0) ==> startTs == now
      ensures hasCanvas && setupError.None? && old(isPlaying) && old(progress) == 0.0 ==> unchanged(this`startTs)
      ensures hasCanvas && setupError.None? && !old(isPlaying) ==>
                && narration.value.voice == PickVoice(preferred, voices)
                && narration.value.index == 0 && narration.value.settlePending
      ensures old(isPlaying) ==> unchanged(this`narration)
      // starting playback draws no frame and speaks nothing yet
      ensures unchanged(this`frames, this`speech)
    {
      clock := now;
      error := None;
      if !hasCanvas {
        return;
      }
      if setupError.Some? {
        error := Some(ErrorMessage(setupError.value));
        isRecording := false;
        return;
      }
      StartRecording(now, startError);
    }

    /** The export handler once the recorder is built: the chunk list is
        emptied, recording and playing from 0 are set and the recorder is
        started; a throwing start shows the error and clears recording.
        Then the render. */
    method StartRecording(now: real, startError: Option<Thrown>)
      requires Valid() && now == clock && !isRecording
      modifies this`chunks, this`recorder, this`isRecording, this`isPlaying, this`progress, this`error, this`startDelay
      modifies this`startTs, this`framePending, this`frames, this`narration, this`speech
      ensures Valid()
      ensures isPlaying && framePending && progress == 0.0 && chunks == [] && stopTimer == None
      ensures startError.Some? ==>
                && error == Some(ErrorMessage(startError.value))
                && !isRecording && recorder == Inactive && startDelay == None
      ensures startError.None? ==>
                && error == old(error) && isRecording && recorder == Recording && startDelay == Some(StartSettleMs)
      ensures !old(isPlaying) || old(progress) != 0.0 ==> startTs == now
      // already playing from 0, neither effect re-runs and the live anchor stays
      ensures old(isPlaying) && old(progress) == 0.0 ==> unchanged(this`startTs)
      ensures !old(isPlaying) ==>
                && narration.value.voice == PickVoice(preferred, voices)
                && narration.value.index == 0 && narration.value.settlePending
      ensures old(isPlaying) ==> unchanged(this`narration)
      ensures unchanged(this`frames, this`speech)
    {
      var wasPlaying, wasProgress := isPlaying, progress;
      ArmRecorder(startError);
      isPlaying := true;
      progress := 0.0;
      Commit(now, wasPlaying, wasProgress);
    }

    /** The recorder part of the export handler: the chunk list is emptied
        and recording is set; a throwing start shows the error and clears
        recording, a successful one leaves the recorder running with the
        post-start wait pending. */
    method ArmRecorder(startError: Option<Thrown>)
      requires startDelay == None
      modifies this`chunks, this`recorder, this`isRecording, this`error, this`startDelay
      ensures chunks == []
      ensures startError.Some? ==>
                && error == Some(ErrorMessage(startError.value))
                && !isRecording && recorder == Inactive && startDelay == None
      ensures startError.None? ==>
                && error == old(error) && isRecording && recorder == Recording && startDelay == Some(StartSettleMs)
    {
      chunks := [];
      recorder := Inactive;
      isRecording := true;
      if startError.Some? {
        error := Some(ErrorMessage(startError.value));
        isRecording := false;
      } else {
        recorder := Recording;
        startDelay := Some(StartSettleMs);
      }
    }

    /** The post-start wait elapsing: only now is the stop timer armed, for
        the total duration plus the margin. */
    method StartDelayElapsed(now: real)
      requires Valid() && now >= clock
      modifies this`clock, this`startDelay, this`stopTimer
      ensures Valid() && clock == now && startDelay == None
      ensures old(startDelay).Some? ==> stopTimer == Some(stopDelay)
      ensures old(startDelay).None? ==> unchanged(this`stopTimer)
    {
      clock := now;
      if startDelay.Some? {
        startDelay := None;
        stopTimer := Some(stopDelay);
      }
    }

    /** The stop timer firing: the recorder is stopped and playing is
        cleared, whatever happened to playback meanwhile. Recording stays
        set until the recorder reports that it stopped. */
    method StopTimerFired(now: real)
      requires Valid() && now >= clock
      modifies this`clock, this`stopTimer, this`recorder, this`isPlaying, this`progress
      modifies this`startTs, this`framePending, this`frames, this`narration, this`speech
      ensures Valid() && clock == now && stopTimer == None
      ensures old(stopTimer).Some? ==>
                && recorder == Stopping && isRecording && !isPlaying && !framePending && narration == None
      ensures old(stopTimer).Some? && old(isPlaying) ==>
                && speech == old(speech) + [CancelSpeech, CancelSpeech]
                && frames == old(frames) + [Elapsed(false, now, now, progress, total)]
                && startTs == now
      ensures old(stopTimer).None? || !old(isPlaying) ==>
                unchanged(this`isPlaying, this`startTs, this`framePending, this`narration, this`speech, this`frames)
      ensures old(stopTimer).None? ==> unchanged(this`recorder)
      ensures unchanged(this`progress)
    {
      clock := now;
      if stopTimer.Some? {
        stopTimer := None;
        recorder := Stopping;
        var was := isPlaying;
        isPlaying := false;
        Commit(now, was, progress);
      }
    }

    /** The recorder delivering data: kept only when the recorder is live
        and the chunk is not empty. */
    method DataAvailable(now: real, size: nat)
      requires Valid() && now >= clock
      modifies this`clock, this`chunks
      ensures Valid() && clock == now
      ensures chunks == old(chunks) + (if (recorder == Recording || recorder == Stopping) && size > 0
                                       then [Chunk(size)] else [])
    {
      clock := now;
      if (recorder == Recording || recorder == Stopping) && size > 0 {
        chunks := chunks + [Chunk(size)];
      }
    }

    /** The recorder reporting that it stopped: the chunks, in order, become
        the downloaded recording and recording is cleared. */
    method RecorderStopped(now: real)
      requires Valid() && now >= clock
      modifies this`clock, this`downloads, this`isRecording, this`recorder
      ensures Valid() && clock == now
      ensures old(recorder) == Stopping ==>
                && downloads == old(downloads) + [chunks] && !isRecording && recorder == Inactive
                && forall c :: c in downloads[|downloads| - 1] ==> c.size > 0
      ensures old(recorder) != Stopping ==> unchanged(this`downloads, this`isRecording, this`recorder)
    {
      clock := now;
      if recorder == Stopping {
        downloads := downloads + [chunks];
        isRecording := false;
        recorder := Inactive;
      }
    }
  }
}
