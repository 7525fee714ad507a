/** The narration voice picker: the first preferred name, in preference
    order, that is a case-insensitive substring of some voice's name picks
    the first such voice; failing that, the first voice whose name and
    language mention English or India; failing that, no voice. */
module Voices {
  import opened Basics

  /** A speech-synthesis voice as the speech provider lists it. */
  datatype Voice = Voice(name: string, lang: string)

  function LowerChar(c: char): char {
    if 'A' <= c <= 'Z' then (c as int + 32) as char else c
  }

  /** Lower-casing, on the ASCII letters. */
  function Lower(s: string): (r: string)
    ensures |r| == |s| && forall i :: 0 <= i < |s| ==> r[i] == LowerChar(s[i])
  {
    seq(|s|, i requires 0 <= i < |s| => LowerChar(s[i]))
  }

  predicate StartsWith(s: string, prefix: string) {
    |prefix| <= |s| && s[..|prefix|] == prefix
  }

  /** Substring search, as `String.prototype.includes`: the empty string is
      in every string. */
  predicate Contains(s: string, sub: string)
    decreases |s|
  {
    StartsWith(s, sub) || (|s| > 0 && Contains(s[1..], sub))
  }

  /** `sub` occurs in `s` starting at position `i`. */
  predicate OccursAt(s: string, sub: string, i: int) {
    0 <= i && i + |sub| <= |s| && s[i..i + |sub|] == sub
  }

  /** The search agrees with the positional definition of a substring. */
  lemma {:induction false} ContainsAt(s: string, sub: string)
    ensures Contains(s, sub) <==> exists i :: OccursAt(s, sub, i)
    decreases |s|
  {
    if StartsWith(s, sub) {
      assert OccursAt(s, sub, 0);
    } else if |s| > 0 {
      ContainsAt(s[1..], sub);
      if exists i :: OccursAt(s, sub, i) {
        var i :| OccursAt(s, sub, i);
        assert i != 0;
        assert OccursAt(s[1..], sub, i - 1);
      }
      if exists i :: OccursAt(s[1..], sub, i) {
        var i :| OccursAt(s[1..], sub, i);
        assert OccursAt(s, sub, i + 1);
      }
    }
  }

  /** A string containing `a` contains every prefix of `a`. */
  lemma {:induction false} ContainsPrefix(s: string, a: string, b: string)
    requires Contains(s, a + b)
    ensures Contains(s, a)
    decreases |s|
  {
    if StartsWith(s, a + b) {
      assert s[..|a|] == (a + b)[..|a|];
      assert (a + b)[..|a|] == a;
    } else {
      ContainsPrefix(s[1..], a, b);
    }
  }

  /** Whether a voice's name contains the preferred name, ignoring case. */
  predicate NameMatches(v: Voice, name: string) {
    Contains(Lower(v.name), Lower(name))
  }

  /** The fallback test `/en|india|indian/i` on the voice's name and
      language joined by a space. */
  predicate FallbackMatches(v: Voice) {
    var s := Lower(v.name + " " + v.lang);
    Contains(s, "en") || Contains(s, "india") || Contains(s, "indian")
  }

  /** The third alternative of the fallback pattern is subsumed by the
      second: the test is "mentions en or india". */
  lemma FallbackIsEnOrIndia(v: Voice)
    ensures FallbackMatches(v) <==>
              var s := Lower(v.name + " " + v.lang);
              Contains(s, "en") || Contains(s, "india")
  {
    var s := Lower(v.name + " " + v.lang);
    if Contains(s, "indian") {
      assert "indian" == "india" + "n";
      ContainsPrefix(s, "india", "n");
    }
  }

  /** `Array.prototype.find`: the index of the first element satisfying
      `pred`, if any. */
  function FindFirst(voices: seq<Voice>, pred: Voice -> bool): (r: Option<nat>)
    ensures r.Some? ==> r.value < |voices| && pred(voices[r.value])
                        && forall j :: 0 <= j < r.value ==> !pred(voices[j])
    ensures r.None? ==> forall j :: 0 <= j < |voices| ==> !pred(voices[j])
  {
    if |voices| == 0 then None
    else if pred(voices[0]) then Some(0)
    else match FindFirst(voices[1..], pred)
      case None => None
      case Some(k) => Some(k + 1)
  }

  function Find(voices: seq<Voice>, pred: Voice -> bool): Option<Voice> {
    match FindFirst(voices, pred)
    case None => None
    case Some(k) => if k < |voices| then Some(voices[k]) else None
  }

  /** The loop over the preferred names, returning on the first that finds a
      voice. */
  function PickPreferred(preferred: seq<string>, voices: seq<Voice>): Option<Voice> {
    if |preferred| == 0 then None
    else match Find(voices, v => NameMatches(v, preferred[0]))
      case Some(v) => Some(v)
      case None => PickPreferred(preferred[1..], voices)
  }

  /** `pickVoice`: the preferred names first, then the English/India
      fallback. No voice is picked exactly when no preferred name is
      available and no voice mentions English or India. */
  function PickVoice(preferred: seq<string>, voices: seq<Voice>): (r: Option<Voice>)
    ensures r.None? <==> (forall k :: 0 <= k < |preferred| ==> !Available(voices, preferred[k]))
                         && (forall j :: 0 <= j < |voices| ==> !FallbackMatches(voices[j]))
  {
    PickPreferredNone(preferred, voices);
    match PickPreferred(preferred, voices)
    case Some(v) => Some(v)
    case None => Find(voices, FallbackMatches)
  }

  /** Some voice matches the preferred name. */
  ghost predicate Available(voices: seq<Voice>, name: string) {
    exists j :: 0 <= j < |voices| && NameMatches(voices[j], name)
  }

  /** `voices[j]` is the first voice matching the preferred name. */
  ghost predicate FirstNameMatch(voices: seq<Voice>, name: string, j: int) {
    0 <= j < |voices| && NameMatches(voices[j], name)
    && forall j' :: 0 <= j' < j ==> !NameMatches(voices[j'], name)
  }

  /** The first available preferred name decides: the voice picked is the
      first voice, in list order, whose name contains it. */
  lemma {:induction false} PickVoicePreferred(preferred: seq<string>, voices: seq<Voice>, k: nat)
    requires k < |preferred| && Available(voices, preferred[k])
    requires forall k' :: 0 <= k' < k ==> !Available(voices, preferred[k'])
    ensures exists j :: FirstNameMatch(voices, preferred[k], j) && PickVoice(preferred, voices) == Some(voices[j])
  {
    PickPreferredAt(preferred, voices, k);
  }

  lemma {:induction false} PickPreferredAt(preferred: seq<string>, voices: seq<Voice>, k: nat)
    requires k < |preferred| && Available(voices, preferred[k])
    requires forall k' :: 0 <= k' < k ==> !Available(voices, preferred[k'])
    ensures exists j :: FirstNameMatch(voices, preferred[k], j) && PickPreferred(preferred, voices) == Some(voices[j])
  {
    var name := preferred[0];
    var r := FindFirst(voices, v => NameMatches(v, name));
    if k == 0 {
      var j :| 0 <= j < |voices| && NameMatches(voices[j], name);
      assert (v => NameMatches(v, name))(voices[j]);
      assert r.Some?;
      assert FirstNameMatch(voices, name, r.value);
    } else {
      assert !Available(voices, name);
      PickPreferredAt(preferred[1..], voices, k - 1);
    }
  }

  /** When no preferred name is available, no preferred name is tried
      successfully. */
  lemma {:induction false} PickPreferredNone(preferred: seq<string>, voices: seq<Voice>)
    ensures PickPreferred(preferred, voices) == None <==>
            forall k :: 0 <= k < |preferred| ==> !Available(voices, preferred[k])
  {
    if |preferred| > 0 {
      var name := preferred[0];
      var r := FindFirst(voices, v => NameMatches(v, name));
      PickPreferredNone(preferred[1..], voices);
      if r.None? {
        assert !Available(voices, name) by {
          forall j | 0 <= j < |voices| ensures !NameMatches(voices[j], name) {
            assert !(v => NameMatches(v, name))(voices[j]);
          }
        }
        assert forall k :: 1 <= k < |preferred| ==> preferred[k] == preferred[1..][k - 1];
      } else {
        assert Available(voices, name) by {
          assert (v => NameMatches(v, name))(voices[r.value]);
        }
      }
    }
  }

  /** Only when no preferred name is available does the fallback apply: the
      first voice mentioning English or India, or no voice at all. */
  lemma PickVoiceFallback(preferred: seq<string>, voices: seq<Voice>)
    requires forall k :: 0 <= k < |preferred| ==> !Available(voices, preferred[k])
    ensures forall j :: 0 <= j < |voices| && FallbackMatches(voices[j])
                        && (forall j' :: 0 <= j' < j ==> !FallbackMatches(voices[j'])) ==>
                        PickVoice(preferred, voices) == Some(voices[j])
  {
    PickPreferredNone(preferred, voices);
  }

  /** A picked voice is always one of the listed voices. */
  lemma {:induction false} PickVoiceListed(preferred: seq<string>, voices: seq<Voice>)
    ensures PickVoice(preferred, voices).Some? ==> PickVoice(preferred, voices).value in voices
  {
    PickPreferredListed(preferred, voices);
  }

  lemma {:induction false} PickPreferredListed(preferred: seq<string>, voices: seq<Voice>)
    ensures PickPreferred(preferred, voices).Some? ==> PickPreferred(preferred, voices).value in voices
  {
    if |preferred| > 0 {
      PickPreferredListed(preferred[1..], voices);
    }
  }
}
