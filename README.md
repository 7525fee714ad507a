# Konark Maker's Story: playback timeline model

This project models the playback timeline of a single-page Ken-Burns
slideshow in Dafny and proves properties of it. The slideshow shows nine
narrated scenes of the Konark Sun Temple on a 1280×720 canvas. Its core
sits in `app/page.tsx`:

- the scene catalog and its total duration (module `Catalog`);
- the scene resolver, which maps an elapsed time to the active scene, the
  time within that scene and the in-scene progress (`Resolver`);
- the camera interpolation and the "cover" fit of the image (`Camera`);
- the caption wrapper and the bottom-up caption placement (`Captions`);
- the narration voice picker (`Voices`);
- the frame clock and the progress value (`Timeline`);
- the numbers one frame computes: scene, image rectangle, captions and
  progress-bar fill (`Render`);
- the per-scene utterances of the narration (`Narration`);
- the controller for play, pause, restart, the draw loop, the narration
  chain and the export sequence (`Player`).

`Player.Player` is a class. Its fields are the page's React state
(`isPlaying`, `isRecording`, `progress`, `error`), the recorder reference
and its chunk list, and the locals of the draw-loop and narration effects.
Timers, animation frames, recorder events and utterance ends are explicit
event methods. Each event ends by re-running the effects whose
dependencies changed, as a React commit does:

- the draw loop re-runs when `isPlaying` or `progress` changed;
- the narration re-runs when `isPlaying` or the voice list changed.

Every event keeps the class invariant `Valid()`. The invariant says three
things:

- a frame is requested exactly while playing;
- a narration run is live exactly while playing, and its utterances are
  those of the catalog;
- the recorder is live exactly while recording, its timers are armed in
  sequence, and every stored chunk is non-empty.

Each event method's `modifies` clause names only the fields the event may
change, so every other field is unchanged by the frame alone. A field that
an event passes through a shared helper but leaves as it was (`Play` keeps
`progress`, for instance) is stated unchanged in that event's `ensures`.

At an elapsed time at or past the total, the resolver's scan never breaks,
so the frame shows scene 0 with the accumulator at the total, not the last
scene.

## Model

| member | source | states |
|---|---|---|
| Catalog.TotalDuration | app/page.tsx:182 | the total of the reduce is at least each scene's duration, and is zero exactly when every duration is; with PrefixSumMonotone, PrefixSumSplit and CatalogFacts it is the left-to-right sum of the durations, 46600 ms for the page |
| Catalog.PrefixSumBounds | app/page.tsx:182 | each duration within a prefix is at most the prefix's sum, which is zero exactly when those durations are |
| Catalog.PrefixSumMonotone | app/page.tsx:182 | cumulative durations never decrease, so no prefix exceeds the total |
| Catalog.PrefixSumSplit | app/page.tsx:182 | a cumulative duration splits at any scene into the part before it plus the sum over the scenes after it |
| Catalog.CatalogFacts | app/page.tsx:18-136 | the catalog has nine scenes, each with a positive duration, positive zooms and pans within [-1, 1], totalling 46600 ms |
| Timeline.TotalValue | app/page.tsx:182 | the total playback duration is 46600 ms |
| Resolver.ResolveScene | app/page.tsx:203-215 | for 0 ≤ t < total: the smallest scene whose window ends after t, with acc the sum of the earlier durations, acc ≤ t < acc + d and local = t − acc; for t ≥ total: scene 0 with acc = total and local = min(t − total, d₀), so local = p = 0 at t = total; for t < 0: scene 0 at p = 0; local is clamped to [0, d] and p is local's share of d, in [0, 1] |
| Resolver.Fraction | app/page.tsx:215 | a zero duration gives progress 0, and a local time within the duration gives a progress in [0, 1] |
| Resolver.FractionScales | app/page.tsx:215 | for a positive duration, the progress times the duration gives back the local time |
| Resolver.TwoSceneExample | app/page.tsx:203-215 | with durations 1000 and 2000 ms, t = 1500 resolves to the second scene, 500 ms in, at progress 0.25 |
| Camera.Lerp | app/page.tsx:224-226 | interpolation gives the start value at p = 0 and the end value at p = 1, and stays between them for p in [0, 1] |
| Camera.LerpMonotonic | app/page.tsx:224-226 | with ordered endpoints, a later progress never gives a smaller value |
| Camera.CameraAt | app/page.tsx:224-226 | zoom, pan x and pan y start at the scene's start values, end at its end values and stay between them |
| Camera.CameraOfWellFormedScene | app/page.tsx:224-226 | for a catalog-shaped scene the zoom stays positive and both pans stay within [-1, 1] over the whole scene |
| Camera.ZoomHalfway | app/page.tsx:224 | zooming from 1.0 to 1.2 is at 1.1 halfway |
| Camera.CoverRect | app/page.tsx:228-246 | the rectangle keeps the image's aspect ratio, is at least the canvas size times the zoom on both axes, exactly so on the height for an image wider than the canvas and on the width otherwise, and is centred on the canvas centre displaced by 15% of each axis times the pan |
| Camera.CoverSize | app/page.tsx:228-241 | the drawn size keeps the image's aspect ratio and, for a non-negative zoom, is at least the canvas size times the zoom on both axes; for an image wider than the canvas (by aspect) the height is exactly the canvas height times the zoom, otherwise the width is exactly the canvas width times the zoom |
| Camera.CoverCentreDamped | app/page.tsx:243-246 | with pans in [-1, 1], the rectangle's centre lies within 15% of each axis of the canvas centre |
| Captions.Split | app/page.tsx:347 | splitting on spaces yields at least one word and no word contains a space |
| Captions.JoinSplit | app/page.tsx:347 | joining the split words with single spaces gives the text back |
| Captions.SplitJoin | app/page.tsx:347 | splitting the join of a non-empty list of space-free words gives the words back |
| Captions.SplitAppend | app/page.tsx:347 | a space splits a text into the words before it followed by the words after it |
| Captions.SplitWord | app/page.tsx:347 | a space-free word splits to itself |
| Captions.SplitJoinLines | app/page.tsx:347-360 | the words of the joined lines are the words of each line, in order |
| Captions.JoinSnoc | app/page.tsx:351 | appending a word to a list of words appends a space and the word to their join |
| Captions.NoEmptyWordsIffSingleSpaced | app/page.tsx:347 | the split has no empty word exactly when the text is non-empty, has no leading or trailing space and no two adjacent spaces |
| Captions.WrapText | app/page.tsx:346-361 | lines are non-empty and no more numerous than the words; each line fits the width or holds no space; on single-spaced text the joined lines equal the text and their words are the text's words in order; for a measure that never shrinks as text is added: one line per word when every word alone is too wide, and a single line equal to the text when the whole text fits; on single-spaced text a line is broken only where the next line's first word does not fit behind it (the greedy break) |
| Captions.GreedyCommit | app/page.tsx:352-354 | pushing the open line because the word does not fit behind it keeps every pushed line greedy, with the word opening the next line |
| Captions.GreedyExtend | app/page.tsx:355-357 | extending the open line by a word keeps its first word, so every pushed line stays greedy |
| Captions.PackWords | app/page.tsx:349-358 | the loop over the words keeps every pushed line, and the open line when non-empty, either within the width or free of spaces, with no more lines than words; on clean input its lines and the open line join back to the words, and, for a measure that never shrinks as text is added, are the words themselves when every word alone is too wide and leave everything on the open line when the whole text fits; on clean input every pushed line was pushed because the first word of the line after it, pushed or open, did not fit behind it |
| Captions.PlaceCaptions | app/page.tsx:264-268 | line i of n is drawn at x = 24, y = height − 24 − 30·(n − 1 − i), the last line first and lowest, each earlier line higher |
| Voices.ContainsAt | app/page.tsx:141 | the substring search holds exactly when the substring occurs at some position |
| Voices.FallbackIsEnOrIndia | app/page.tsx:144 | the fallback pattern en, india or indian matches exactly when the joined name and language contain "en" or "india" |
| Voices.FindFirst | app/page.tsx:141 | the search returns the first index satisfying the test, or none when no element does |
| Voices.PickVoice | app/page.tsx:138-145 | no voice is picked exactly when no preferred name is found and no voice mentions English or India; which voice is picked is given by PickVoicePreferred, PickVoiceFallback and PickVoiceListed |
| Voices.PickVoicePreferred | app/page.tsx:140-143 | the first preferred name, in preference order, found in some voice's name, ignoring case, decides: the pick is the first voice in list order whose name contains it |
| Voices.PickVoiceFallback | app/page.tsx:144 | when no preferred name is found, the pick is the first voice mentioning English or India, or none if no voice does |
| Voices.PickVoiceListed | app/page.tsx:138-145 | a picked voice is always one of the listed voices |
| Timeline.Elapsed | app/page.tsx:200 | while playing, the frame time is the time since the anchor; while paused it is the stored progress times the total, never above the total |
| Timeline.Progress | app/page.tsx:271 | the written progress is at most 1, non-negative for a non-negative time, times the total gives the time until the total, and is 1 from the total on |
| Timeline.PausedFrameKeepsProgress | app/page.tsx:271-272 | a paused frame writes back exactly the progress it was drawn from |
| Timeline.ResumeAnchor | app/page.tsx:289 | resuming anchors the clock no later than now, so that the first frame's time is progress times total and its written progress is the stored progress (no jump) |
| Timeline.ReanchorAfterFrame | app/page.tsx:279-289 | re-anchoring at a later clock reading on the progress a playing frame wrote back before the total moves the anchor on by exactly the time between the frame and the re-anchoring |
| Render.FillWidth | app/page.tsx:276 | the bar fill is empty at progress 0, lies within [0, 1232] for a progress in [0, 1] and is full at progress 1 |
| Render.FillWidthIncreasing | app/page.tsx:276 | a larger progress always gives a wider fill |
| Render.ImageRect | app/page.tsx:222-249 | an image is drawn exactly when it is complete with a known width, and then keeps its aspect ratio, covers the canvas at the camera's zoom (exactly on the side the image is narrower on) and is centred on the canvas centre moved by 15% of each axis times the camera's pan |
| Render.DrawFrame | app/page.tsx:198-276 | for any catalog of well-formed scenes with a positive total (the page's catalog is one, by Catalog.CatalogFacts), a frame shows the scene whose window holds t (scene 0 at or past the total, and before time 0), at the in-scene progress that is the time into the scene as a share of its duration; its image when ready, sized and centred by that scene's camera at that progress as ImageRect states; its caption wrapped to 1232 px, each line fitting or a single word, non-empty, no more lines than words, broken greedily (the next line's first word does not fit behind a line) when single-spaced, joining back to the caption and giving back its words when single-spaced, placed bottom-up; and the clamped progress with the bar fill of that progress |
| Narration.BuildUtterances | app/page.tsx:318-325 | one utterance per scene, in catalog order, carrying its caption, the picked voice, rate 0.95, pitch 1 and volume 1 |
| Player.StopDelayValue | app/page.tsx:412-415 | the stop timer fires 46850 ms after being armed: the total plus 250 ms |
| Player.Player.constructor | app/page.tsx:162-167 | the page mounts paused at progress 0 with no error, recorder or chunks; one static frame is drawn at time 0 and speech is cancelled twice: by the narration effect's first run and again after the voice hook's first update |
| Player.Player.DrawEffect | app/page.tsx:288-294 | when playing, the loop re-anchors as resuming does and waits for a frame; when paused, one static frame is drawn at the stored progress, which stays unchanged |
| Player.Player.NarrationEffect | app/page.tsx:300-344 | a live run is cleaned up by cancelling speech; when playing, a fresh run starts with the picked voice, the catalog's utterances, index 0 and the settle timer pending; when paused, speech is cancelled |
| Player.Player.Commit | app/page.tsx:297-344 | the draw effect re-runs exactly when playing or progress changed, and the narration effect exactly when playing changed, starting a run with the picked voice; a render while playing draws no frame at once and, unless it ends a run, speaks nothing |
| Player.Player.Play | app/page.tsx:363-366 | play clears the error and starts the loop, drawing no frame and speaking nothing yet, with progress kept; from pause, the clock resumes at the stored progress and the narration starts from the first scene with the picked voice; while playing, the anchor and the narration are kept |
| Player.Player.Pause | app/page.tsx:367 | pause stops the loop and the narration, cancels speech and draws one static frame at the stored progress, anchored at that instant; progress is kept, and pausing a paused page changes no anchor, frame or speech |
| Player.Player.Restart | app/page.tsx:368-372 | restart stops playing, sets progress to 0, draws a static frame at 0 when anything changed, cancels speech twice when it was playing and leaves speech alone otherwise, and arms one deferred play |
| Player.Player.RestartTimerFired | app/page.tsx:371 | a pending deferred play starts playing from the stored progress, with the narration from the first scene with the picked voice; no frame is drawn and nothing is spoken yet; with none pending nothing changes |
| Player.Player.AnimationFrame | app/page.tsx:279-294 | a frame at time t since the anchor writes back the progress of t; before the total the loop goes on, with the anchor moved on by the time until the draw-loop effect re-reads the clock when the progress changed; at or past it, playing stops at progress 1, a static frame is drawn at the total and anchored at the draw-loop effect's time, and the narration is cancelled |
| Player.Player.DrawPlayingFrame | app/page.tsx:198-284 | the frame callback takes now as the anchor when it is 0, records the frame time and its progress, and requests the next frame only before the total |
| Player.Player.SpeakNext | app/page.tsx:329-335 | the next utterance is spoken and the index advances by one, or, past the last, nothing is spoken and no handler stays attached |
| Player.Player.SettleTimerFired | app/page.tsx:338 | after the settle delay the first scene's caption is spoken, with the run's voice |
| Player.Player.UtteranceEnded | app/page.tsx:334 | the end handler speaks the next scene's caption in catalog order, each at most once; after a pause nothing is spoken |
| Player.Player.VoicesChanged | app/page.tsx:344 | a new voice list cancels speech and restarts a live narration from the first scene with the voice picked from the new list; playback is untouched |
| Player.Player.Export | app/page.tsx:374-421 | export clears the error; without a canvas nothing else changes; a setup error is shown and nothing else changes; otherwise chunks are emptied and playback runs from 0, and a start() error is shown with recording cleared while a successful start arms the 100 ms wait; a thrown error shows its message or "Failed to export video"; export draws no frame and speaks nothing at once, and starts the narration from the first scene with the picked voice when it was paused; the anchor is reset unless the page was already playing at progress 0, when it is kept |
| Player.Player.StartRecording | app/page.tsx:386-408 | the recorder is set up and started while playing from 0 is set; a start() error leaves recording off but playing on; no frame is drawn and nothing is spoken at once, and a paused page starts its narration with the picked voice; the anchor is reset to now unless the page was already playing at progress 0, when it is kept |
| Player.Player.ArmRecorder | app/page.tsx:386-420 | the chunk list is emptied and recording set; a start() error is shown and clears recording with the recorder inactive; a successful start leaves it recording with the 100 ms wait pending |
| Player.Player.StartDelayElapsed | app/page.tsx:410-412 | the stop timer is armed, at total + 250 ms, only after the 100 ms wait |
| Player.Player.StopTimerFired | app/page.tsx:412-415 | the stop timer stops the recorder and playing, cancelling speech and drawing one static frame anchored now when it was playing; with no stop timer pending, or on a paused page, playback, anchor, frames and speech are kept |
| Player.Player.DataAvailable | app/page.tsx:389-391 | a chunk is kept only while the recorder runs and only when its size is positive |
| Player.Player.RecorderStopped | app/page.tsx:392-401 | a stopped recorder hands over its non-empty chunks for download and clears recording |

## Left out

- React's scheduling is not modelled. Each event is followed at once by
  its commit, and no other event can interleave between a state update and
  the effects it triggers.
- The JSX layout, the buttons' `disabled` flags beyond the preconditions
  they imply, and `app/layout.tsx` are not modelled. They are static UI.
- Canvas pixels are not modelled. The background, the gradient, the fonts,
  smoothing and the fill calls are left out; only the computed numbers are
  kept: the scene, its image rectangle, the caption baselines and the fill
  width.
- Image loading is an input. Each image is given as complete or not,
  with its natural size.
- Render.ImageRect and Render.DrawFrame: both require that an image with a
  known width also has a known height. The browser reports both together,
  and the aspect-ratio division would otherwise divide by zero.
- The internals of the Web Speech API and the `useVoices` hook are not
  modelled. The voice list is a field changed by `VoicesChanged`.
  `pickVoice` reads `getVoices()` directly; the model identifies that call
  with the voice-list state. `speak` and `cancel` are recorded as events in
  `speech`.
- `MediaRecorder`, `captureStream`, `Blob`, object URLs and the download
  anchor are browser APIs. They are modelled abstractly:
  - the recorder as a state;
  - chunks by their size;
  - a download as the chunk list handed over;
  - construction and `start()` failures as optional thrown errors passed
    to `Export`.
- Real time is not modelled. `requestAnimationFrame`, `setTimeout` and
  `performance.now` become event methods that are called with the current
  time. An animation frame gets a second, later time for the render it
  causes, when the draw-loop effect reads `performance.now` again. The recorder timers carry their delays as values; nothing checks
  that the caller fires them at those delays.
- Numbers are `real`, not IEEE-754 doubles, so rounding is not modelled.
  Durations are whole milliseconds.
- Lower-casing in the voice picker covers the ASCII letters only; `toLowerCase`
  on other scripts is not modelled.
- Captions.WrapText: a line too wide for the bound is stated to contain no
  space. The contract does not state that the line is one of the words.
- Catalog.CatalogFacts states the durations, zooms, pans and total of the
  catalog, but not that its captions are single-spaced. Unfolding the long
  caption literals character by character is beyond the verifier here, so
  Render.DrawFrame's join-back clauses stay conditional on single spacing
  for the page's own catalog too.
- The console logging of an export error is left out.
- A start() failure in export happens after playing from 0 was requested.
  In the code, the error therefore leaves `isPlaying` true. Only a failure
  while setting up the stream or the recorder leaves playback as it was.
  The model follows the code.
