/** The scene catalog of the slideshow: nine immutable scene records and
    the total playback duration, the sum of their durations. */
module Catalog {

  /** One scene: an image, its caption, its time budget in milliseconds and
      the camera motion (zoom and normalised pan) from its start to its end. */
  datatype Scene = Scene(
    imageUrl: string,
    subtitle: string,
    durationMs: nat,
    zoomStart: real,
    zoomEnd: real,
    panXStart: real,
    panXEnd: real,
    panYStart: real,
    panYEnd: real)

  const Scenes: seq<Scene> := [
    Scene("https://upload.wikimedia.org/wikipedia/commons/thumb/6/68/Konark_Temple.JPG/1280px-Konark_Temple.JPG",
          "I am the chief sthapati, leading the great wheel of Surya's chariot to rise from stone.",
          5000, 1.0, 1.15, -0.1, 0.1, 0.0, 0.0),
    Scene("https://upload.wikimedia.org/wikipedia/commons/thumb/5/5f/Konark_Temple_-_Another_View.jpg/1280px-Konark_Temple_-_Another_View.jpg",
          "Our craftsmen carve chlorite and khondalite, chisels singing as the sun crosses the sky.",
          5200, 1.05, 1.2, 0.0, 0.0, -0.05, 0.05),
    Scene("https://upload.wikimedia.org/wikipedia/commons/thumb/6/66/Konark_Sun_Temple_Front_View.jpg/1280px-Konark_Sun_Temple_Front_View.jpg",
          "Twelve pairs of stone wheels mark the hours; each spoke a measure of time and devotion.",
          5200, 1.0, 1.1, -0.05, 0.05, 0.02, -0.02),
    Scene("https://upload.wikimedia.org/wikipedia/commons/thumb/9/97/Konark_Sun_Temple_Stone_Wheel.jpg/1280px-Konark_Sun_Temple_Stone_Wheel.jpg",
          "Each wheel is a cosmos?axle, rim, and spokes aligned with the cycles of life.",
          5200, 1.1, 1.2, 0.05, -0.05, 0.0, 0.0),
    Scene("https://upload.wikimedia.org/wikipedia/commons/thumb/d/d3/Konark_Sun_Temple_Sculptures.jpg/1280px-Konark_Sun_Temple_Sculptures.jpg",
          "Dancers and musicians emerge from stone?ritual, rhythm, and the warmth of Surya.",
          5200, 1.0, 1.12, 0.0, 0.0, 0.05, -0.05),
    Scene("https://upload.wikimedia.org/wikipedia/commons/thumb/f/f9/Konark_temple_ruins.JPG/1280px-Konark_temple_ruins.JPG",
          "We raise the natamandira and jagamohana first; the sanctum will crown the journey.",
          5200, 1.0, 1.1, 0.05, -0.05, 0.0, 0.0),
    Scene("https://upload.wikimedia.org/wikipedia/commons/thumb/e/e4/Konark_Sun_Temple_Wheel.jpg/1280px-Konark_Sun_Temple_Wheel.jpg",
          "Iron clamps bind the blocks; hidden channels drain the monsoon?strength in every joint.",
          5200, 1.1, 1.18, -0.04, 0.04, 0.02, -0.02),
    Scene("https://upload.wikimedia.org/wikipedia/commons/thumb/1/10/Konark_Sun_Temple_Nataplan.jpg/1024px-Konark_Sun_Temple_Nataplan.jpg",
          "Proportions follow shilpa shastra; each measure aligns with the course of the sun.",
          5200, 1.0, 1.1, 0.0, 0.0, -0.03, 0.03),
    Scene("https://upload.wikimedia.org/wikipedia/commons/thumb/7/7d/Konark_Sun_Temple_Ruins.jpg/1280px-Konark_Sun_Temple_Ruins.jpg",
          "As the chariot nears completion, we consecrate the space with light and mantra.",
          5200, 1.05, 1.18, 0.03, -0.03, 0.0, 0.0)
  ]

  /** The sum of the durations of the first `i` scenes, accumulated from the
      left as the catalog's reduce does. */
  function PrefixSum(scenes: seq<Scene>, i: nat): nat
    requires i <= |scenes|
  {
    if i == 0 then 0 else PrefixSum(scenes, i - 1) + scenes[i - 1].durationMs
  }

  /** The total playback duration in milliseconds: no scene lasts longer
      than the whole, and the whole is zero only when every scene is. */
  function TotalDuration(scenes: seq<Scene>): (total: nat)
    ensures forall k :: 0 <= k < |scenes| ==> scenes[k].durationMs <= total
    ensures total == 0 <==> forall k :: 0 <= k < |scenes| ==> scenes[k].durationMs == 0
  {
    PrefixSumBounds(scenes, |scenes|);
    PrefixSum(scenes, |scenes|)
  }

  /** Each duration within a prefix is at most its sum, and the sum is zero
      exactly when each of those durations is. */
  lemma {:induction false} PrefixSumBounds(scenes: seq<Scene>, i: nat)
    requires i <= |scenes|
    ensures forall k :: 0 <= k < i ==> scenes[k].durationMs <= PrefixSum(scenes, i)
    ensures PrefixSum(scenes, i) == 0 <==> forall k :: 0 <= k < i ==> scenes[k].durationMs == 0
  {
    if i > 0 {
      PrefixSumBounds(scenes, i - 1);
    }
  }

  /** Prefix sums never decrease, so no prefix exceeds the total. */
  lemma {:induction false} PrefixSumMonotone(scenes: seq<Scene>, i: nat, j: nat)
    requires i <= j <= |scenes|
    ensures PrefixSum(scenes, i) <= PrefixSum(scenes, j)
  {
    if i < j {
      PrefixSumMonotone(scenes, i, j - 1);
    }
  }

  /** A prefix sum splits at any point into the sum before it and the sum
      over the rest of the catalog. */
  lemma {:induction false} PrefixSumSplit(scenes: seq<Scene>, i: nat, j: nat)
    requires i <= j <= |scenes|
    ensures PrefixSum(scenes, j) == PrefixSum(scenes, i) + PrefixSum(scenes[i..], j - i)
  {
    if i < j {
      PrefixSumSplit(scenes, i, j - 1);
      assert scenes[i..][j - 1 - i] == scenes[j - 1];
    }
  }

  /** A usable scene: a positive duration, positive zooms and pans within
      [-1, 1], the range the Scene type's comment gives for pans. */
  predicate WellFormed(s: Scene) {
    s.durationMs > 0 && s.zoomStart > 0.0 && s.zoomEnd > 0.0
    && -1.0 <= s.panXStart <= 1.0 && -1.0 <= s.panXEnd <= 1.0
    && -1.0 <= s.panYStart <= 1.0 && -1.0 <= s.panYEnd <= 1.0
  }

  lemma CatalogFacts()
    ensures |Scenes| == 9
    ensures forall i :: 0 <= i < |Scenes| ==> WellFormed(Scenes[i])
    ensures TotalDuration(Scenes) == 46600
  {
    assert PrefixSum(Scenes, 1) == 5000;
    assert PrefixSum(Scenes, 3) == 15400;
    assert PrefixSum(Scenes, 5) == 25800;
    assert PrefixSum(Scenes, 7) == 36200;
  }
}
