/** The narration utterances: one per scene, carrying the scene's caption,
    the picked voice and the fixed rate, pitch and volume. */
module Narration {
  import opened Basics
  import opened Catalog
  import opened Voices

  datatype Utterance = Utterance(text: string, voice: Option<Voice>, rate: real, pitch: real, volume: real)

  /** The preferred voice names, in preference order. The fifth entry is
      kept as the source has it. */
  const Preferred: seq<string> := [
    "Google UK English Male",
    "Microsoft Heera",
    "Microsoft Ravi",
    "Microsoft Prabhat",
    "Google ?????????",
    "English (India)"
  ]

  const Rate: real := 0.95
  const Pitch: real := 1.0
  const Volume: real := 1.0

  /** Delay before the first utterance, letting the voice list settle. */
  const SettleDelayMs: nat := 250

  /** The utterance for one scene: its caption, with the voice when one was
      picked. */
  function UtteranceFor(scene: Scene, voice: Option<Voice>): Utterance {
    Utterance(scene.subtitle, voice, Rate, Pitch, Volume)
  }

  /** The loop over the catalog building one utterance per scene, in
      catalog order. */
  method BuildUtterances(scenes: seq<Scene>, voice: Option<Voice>) returns (us: seq<Utterance>)
    ensures |us| == |scenes|
    ensures forall i :: 0 <= i < |scenes| ==> us[i] == UtteranceFor(scenes[i], voice)
  {
    us := [];
    var i := 0;
    while i < |scenes|
      invariant 0 <= i <= |scenes|
      invariant |us| == i
      invariant forall k :: 0 <= k < i ==> us[k] == UtteranceFor(scenes[k], voice)
    {
      us := us + [UtteranceFor(scenes[i], voice)];
      i := i + 1;
    }
  }
}
