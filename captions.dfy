/** The caption layouter: the caption is split on single spaces, words are
    packed greedily into lines no wider than a bound under a measuring
    function supplied by the canvas, and the lines are placed bottom-up at a
    fixed pitch. */
module Captions {

  /** Splits on every space, as JavaScript's `split(' ')` does: always at
      least one word, empty words between adjacent spaces and at the ends. */
  function Split(s: string): (words: seq<string>)
    ensures |words| >= 1
    ensures forall k :: 0 <= k < |words| ==> ' ' !in words[k]
    decreases |s|
  {
    if s == [] then [""]
    else if s[0] == ' ' then [""] + Split(s[1..])
    else
      var rest := Split(s[1..]);
      [[s[0]] + rest[0]] + rest[1..]
  }

  /** Joins words with single spaces. */
  function Join(words: seq<string>): string {
    if |words| == 0 then ""
    else if |words| == 1 then words[0]
    else words[0] + " " + Join(words[1..])
  }

  /** The words of each line, in order, one list. */
  function WordsOf(lines: seq<string>): seq<string> {
    if lines == [] then [] else Split(lines[0]) + WordsOf(lines[1..])
  }

  predicate NoEmptyWords(words: seq<string>) {
    forall k :: 0 <= k < |words| ==> words[k] != ""
  }

  /** Splitting then joining gives the text back. */
  lemma {:induction false} JoinSplit(s: string)
    ensures Join(Split(s)) == s
    decreases |s|
  {
    if s == [] {
    } else if s[0] == ' ' {
      JoinSplit(s[1..]);
      assert s == " " + s[1..];
    } else {
      var rest := Split(s[1..]);
      JoinSplit(s[1..]);
      if |rest| == 1 {
        assert s == [s[0]] + rest[0];
      } else {
        assert [[s[0]] + rest[0]] + rest[1..] == [[s[0]] + rest[0]] + rest[1..];
        assert Join(rest) == rest[0] + " " + Join(rest[1..]);
        assert ([[s[0]] + rest[0]] + rest[1..])[1..] == rest[1..];
        assert s == [s[0]] + s[1..];
      }
    }
  }

  /** A space splits a text into the words before it and the words after. */
  lemma {:induction false} SplitAppend(a: string, b: string)
    ensures Split(a + " " + b) == Split(a) + Split(b)
    decreases |a|
  {
    if a == [] {
      assert a + " " + b == " " + b;
      assert (" " + b)[1..] == b;
    } else {
      var s := a + " " + b;
      assert s[0] == a[0] && s[1..] == a[1..] + " " + b;
      SplitAppend(a[1..], b);
    }
  }

  /** A word without spaces splits to itself. */
  lemma {:induction false} SplitWord(w: string)
    requires ' ' !in w
    ensures Split(w) == [w]
    decreases |w|
  {
    if w != [] {
      assert ' ' !in w[1..];
      SplitWord(w[1..]);
      assert w == [w[0]] + w[1..];
    }
  }

  /** Joining space-free words then splitting gives the words back, the
      converse of JoinSplit. */
  lemma {:induction false} SplitJoin(words: seq<string>)
    requires |words| >= 1
    requires forall k :: 0 <= k < |words| ==> ' ' !in words[k]
    ensures Split(Join(words)) == words
  {
    SplitWord(words[0]);
    if |words| > 1 {
      SplitJoin(words[1..]);
      SplitAppend(words[0], Join(words[1..]));
    }
  }

  /** The words of a joined list of lines are the words of its lines in
      order. */
  lemma {:induction false} SplitJoinLines(lines: seq<string>)
    requires |lines| >= 1
    ensures Split(Join(lines)) == WordsOf(lines)
  {
    if |lines| == 1 {
      assert WordsOf(lines[1..]) == [];
    } else {
      SplitJoinLines(lines[1..]);
      SplitAppend(lines[0], Join(lines[1..]));
    }
  }

  /** Extending a list by one element adds a space and that element. */
  lemma {:induction false} JoinSnoc(words: seq<string>, w: string)
    requires |words| >= 1
    ensures Join(words + [w]) == Join(words) + " " + w
  {
    if |words| == 1 {
      assert (words + [w])[1..] == [w];
    } else {
      assert (words + [w])[1..] == words[1..] + [w];
      JoinSnoc(words[1..], w);
    }
  }

  /** A text has no empty words exactly when it is not empty, neither starts
      nor ends with a space and has no two adjacent spaces. */
  predicate SingleSpaced(s: string) {
    s != [] && s[0] != ' ' && s[|s| - 1] != ' ' && NoDoubleSpace(s)
  }

  predicate NoDoubleSpace(s: string) {
    forall i :: 0 <= i < |s| - 1 ==> !(s[i] == ' ' && s[i + 1] == ' ')
  }

  /** Dropping the first character keeps the adjacent pairs after it. */
  lemma NoDoubleSpaceTail(s: string)
    requires |s| >= 1
    ensures NoDoubleSpace(s) <==> NoDoubleSpace(s[1..]) && !(|s| >= 2 && s[0] == ' ' && s[1] == ' ')
  {
    var tail := s[1..];
    if NoDoubleSpace(tail) && !(|s| >= 2 && s[0] == ' ' && s[1] == ' ') {
      forall i | 0 <= i < |s| - 1 ensures !(s[i] == ' ' && s[i + 1] == ' ') {
        if i >= 1 { assert s[i] == tail[i - 1] && s[i + 1] == tail[i]; }
      }
    }
    if NoDoubleSpace(s) {
      forall i | 0 <= i < |tail| - 1 ensures !(tail[i] == ' ' && tail[i + 1] == ' ') {
        assert tail[i] == s[i + 1] && tail[i + 1] == s[i + 2];
      }
    }
  }

  lemma {:induction false} NoEmptyWordsIffSingleSpaced(s: string)
    ensures NoEmptyWords(Split(s)) <==> SingleSpaced(s)
    decreases |s|
  {
    if s == [] || s[0] == ' ' {
      assert Split(s)[0] == "";
    } else if |s| == 1 {
      assert Split(s) == [s] by { SplitWord(s); }
    } else if s[1] == ' ' {
      var tail := s[2..];
      NoEmptyWordsIffSingleSpaced(tail);
      assert s[1..] == [' '] + tail;
      assert Split(s[1..]) == [""] + Split(tail);
      assert Split(s)[1..] == Split(tail);
      NoDoubleSpaceTail(s);
      NoDoubleSpaceTail(s[1..]);
      assert s[1..][1..] == tail;
    } else {
      var tail := s[1..];
      NoEmptyWordsIffSingleSpaced(tail);
      assert Split(s)[1..] == Split(tail)[1..];
      assert Split(tail)[0] != "";
      NoDoubleSpaceTail(s);
    }
  }

  /** The greedy packer. For each word it tries the current line extended by
      a space and the word (or the word alone on an empty line); if that is
      wider than `maxWidth` it commits the current line, if any, and starts
      a new line with the word, otherwise the extension becomes the line.
      The last line is committed if not empty. */
  method WrapText(text: string, maxWidth: real, measure: string -> real) returns (lines: seq<string>)
    ensures forall k :: 0 <= k < |lines| ==> lines[k] != ""
    ensures |lines| <= |Split(text)|
    // a line too wide for the bound is a single word
    ensures forall k :: 0 <= k < |lines| ==> measure(lines[k]) <= maxWidth || ' ' !in lines[k]
    // on single-spaced text no word is lost, added or reordered
    ensures NoEmptyWords(Split(text)) ==> Join(lines) == text && WordsOf(lines) == Split(text)
    // when every word alone is too wide, every word has a line of its own
    ensures NoEmptyWords(Split(text)) && GrowsWithText(measure) && AllTooWide(Split(text), maxWidth, measure) ==>
              lines == Split(text)
    // when the whole caption fits, it is one line
    ensures NoEmptyWords(Split(text)) && GrowsWithText(measure) && measure(text) <= maxWidth ==>
              lines == [text]
    // a line is broken only where the next line's first word does not fit behind it
    ensures NoEmptyWords(Split(text)) ==>
              forall k :: 0 <= k < |lines| - 1 ==> measure(lines[k] + " " + Split(lines[k + 1])[0]) > maxWidth
  {
    var words := Split(text);
    var line;
    lines, line := PackWords(words, maxWidth, measure);
    if NoEmptyWords(words) {
      JoinSplit(text);
      SplitJoinLines(lines + [line]);
    }
    if line != "" {
      var all := lines + [line];
      forall k | 0 <= k < |all| - 1 && NoEmptyWords(words)
        ensures measure(all[k] + " " + Split(all[k + 1])[0]) > maxWidth
      {
        assert all[k] == lines[k] && all[k + 1] == After(lines, line, k);
      }
      lines := all;
    }
  }

  /** Adding text at either end of a string never makes it narrower, as
      with any measure of rendered width. */
  ghost predicate GrowsWithText(measure: string -> real) {
    forall a: string, b: string :: measure(a) <= measure(a + b) && measure(b) <= measure(a + b)
  }

  /** Every word alone is wider than the bound. */
  predicate AllTooWide(words: seq<string>, maxWidth: real, measure: string -> real) {
    forall k :: 0 <= k < |words| ==> measure(words[k]) > maxWidth
  }

  /** The line after committed line `k`: the next committed line, or the
      open line after the last one. */
  function After(lines: seq<string>, line: string, k: nat): string
    requires k < |lines|
  {
    if k + 1 < |lines| then lines[k + 1] else line
  }

  /** Each committed line was closed because the first word of the line
      after it did not fit behind it. */
  ghost predicate Greedy(lines: seq<string>, line: string, maxWidth: real, measure: string -> real) {
    forall k {:trigger After(lines, line, k)} :: 0 <= k < |lines| ==>
      measure(lines[k] + " " + Split(After(lines, line, k))[0]) > maxWidth
  }

  /** A committed line: not empty, and within the bound unless it is a
      single word. */
  predicate GoodLine(l: string, maxWidth: real, measure: string -> real) {
    l != "" && (measure(l) <= maxWidth || ' ' !in l)
  }

  /** The packer's loop over the words: the committed lines and the line
      still open at the end. */
  method PackWords(words: seq<string>, maxWidth: real, measure: string -> real) returns (lines: seq<string>, line: string)
    requires forall k :: 0 <= k < |words| ==> ' ' !in words[k]
    ensures forall k :: 0 <= k < |lines| ==> GoodLine(lines[k], maxWidth, measure)
    ensures |lines| + (if line != "" then 1 else 0) <= |words|
    ensures line != "" ==> GoodLine(line, maxWidth, measure)
    ensures NoEmptyWords(words) && |words| > 0 ==> line != "" && Join(lines + [line]) == Join(words)
    ensures NoEmptyWords(words) && GrowsWithText(measure) && AllTooWide(words, maxWidth, measure) ==>
              lines + (if line != "" then [line] else []) == words
    ensures NoEmptyWords(words) && GrowsWithText(measure) && measure(Join(words)) <= maxWidth ==> lines == []
    ensures NoEmptyWords(words) ==> Greedy(lines, line, maxWidth, measure)
  {
    ghost var clean := NoEmptyWords(words);
    ghost var tooNarrow := GrowsWithText(measure) && AllTooWide(words, maxWidth, measure);
    ghost var wide := GrowsWithText(measure) && measure(Join(words)) <= maxWidth;
    lines := [];
    line := "";
    var i := 0;
    while i < |words|
      invariant 0 <= i <= |words|
      invariant forall k :: 0 <= k < |lines| ==> GoodLine(lines[k], maxWidth, measure)
      invariant |lines| + (if line != "" then 1 else 0) <= i
      invariant line != "" ==> GoodLine(line, maxWidth, measure)
      invariant clean && i == 0 ==> lines == [] && line == ""
      invariant clean && i > 0 ==> line != "" && Join(lines + [line]) == Join(words[..i])
      invariant clean && tooNarrow ==> lines + (if line != "" then [line] else []) == words[..i]
      invariant clean && wide ==> lines == []
      invariant clean ==> Greedy(lines, line, maxWidth, measure)
    {
      var word := words[i];
      assert words[..i + 1] == words[..i] + [word];
      var test := if line != "" then line + " " + word else word;
      if clean && wide { FitsStep(words, i, lines, line, maxWidth, measure); }
      if clean && tooNarrow { TooWideStep(line, word, maxWidth, measure); }
      if measure(test) > maxWidth {
        if line != "" {
          if clean {
            CommitStepJoin(lines, line, word, words[..i]);
            GreedyCommit(lines, line, word, maxWidth, measure);
          }
          lines := lines + [line];
        }
        line := word;
      } else {
        if clean && i > 0 {
          ExtendStepJoin(lines, line, word, words[..i]);
          GreedyExtend(lines, line, word, maxWidth, measure);
        }
        line := test;
      }
      i := i + 1;
    }
    assert words[..i] == words;
  }

  /** Committing the open line because the word did not fit behind it keeps
      the packing greedy, the word opening the next line. */
  lemma GreedyCommit(lines: seq<string>, line: string, word: string, maxWidth: real, measure: string -> real)
    requires Greedy(lines, line, maxWidth, measure)
    requires ' ' !in word && measure(line + " " + word) > maxWidth
    ensures Greedy(lines + [line], word, maxWidth, measure)
  {
    SplitWord(word);
    var lines' := lines + [line];
    forall k | 0 <= k < |lines'|
      ensures measure(lines'[k] + " " + Split(After(lines', word, k))[0]) > maxWidth
    {
      if k < |lines| {
        assert lines'[k] == lines[k] && After(lines', word, k) == After(lines, line, k);
      }
    }
  }

  /** Extending the open line by a word keeps its first word, so the
      packing stays greedy. */
  lemma GreedyExtend(lines: seq<string>, line: string, word: string, maxWidth: real, measure: string -> real)
    requires Greedy(lines, line, maxWidth, measure)
    ensures Greedy(lines, line + " " + word, maxWidth, measure)
  {
    SplitAppend(line, word);
    assert Split(line + " " + word)[0] == Split(line)[0];
    forall k | 0 <= k < |lines|
      ensures measure(lines[k] + " " + Split(After(lines, line + " " + word, k))[0]) > maxWidth
    {
      if k + 1 == |lines| {
        assert After(lines, line + " " + word, k) == line + " " + word;
        assert After(lines, line, k) == line;
      } else {
        assert After(lines, line + " " + word, k) == After(lines, line, k);
      }
    }
  }

  /** Joining two non-empty lists puts a space between their joins. */
  lemma {:induction false} JoinAppend(a: seq<string>, b: seq<string>)
    requires |a| >= 1 && |b| >= 1
    ensures Join(a + b) == Join(a) + (" " + Join(b))
  {
    if |a| == 1 {
      assert (a + b)[1..] == b;
    } else {
      assert (a + b)[1..] == a[1..] + b;
      JoinAppend(a[1..], b);
    }
  }

  /** When all the words fit on one line, so does each candidate the packer
      measures: the open line holds exactly the words before `i`, and the
      candidate is a prefix of the joined words. */
  lemma FitsStep(words: seq<string>, i: nat, lines: seq<string>, line: string, maxWidth: real, measure: string -> real)
    requires i < |words| && GrowsWithText(measure) && measure(Join(words)) <= maxWidth
    requires lines == [] && (i == 0 ==> line == "")
    requires i > 0 ==> line != "" && Join(lines + [line]) == Join(words[..i])
    ensures measure(if line != "" then line + " " + words[i] else words[i]) <= maxWidth
  {
    if i > 0 {
      assert lines + [line] == [line];
      JoinSnoc(words[..i], words[i]);
    }
    assert words[..i] + [words[i]] == words[..i + 1];
    PrefixFits(words, i, measure);
  }

  /** A too-wide word stays too wide with the open line in front of it. */
  lemma TooWideStep(line: string, word: string, maxWidth: real, measure: string -> real)
    requires GrowsWithText(measure) && measure(word) > maxWidth
    ensures measure(if line != "" then line + " " + word else word) > maxWidth
  {
    if line != "" {
      assert measure(word) <= measure((line + " ") + word);
    }
  }

  /** The words up to and including word `i`, joined, are no wider than all
      of them joined. */
  lemma PrefixFits(words: seq<string>, i: nat, measure: string -> real)
    requires i < |words| && GrowsWithText(measure)
    ensures measure(Join(words[..i + 1])) <= measure(Join(words))
  {
    if i + 1 < |words| {
      JoinAppend(words[..i + 1], words[i + 1..]);
      assert words[..i + 1] + words[i + 1..] == words;
    } else {
      assert words[..i + 1] == words;
    }
  }

  /** Committing the open line and opening one with the next word keeps the
      joined lines equal to the joined words consumed so far. */
  lemma CommitStepJoin(lines: seq<string>, line: string, word: string, done: seq<string>)
    requires |done| >= 1 && Join(lines + [line]) == Join(done)
    ensures Join(lines + [line] + [word]) == Join(done + [word])
  {
    JoinSnoc(done, word);
    JoinSnoc(lines + [line], word);
  }

  /** Extending the open line by a space and the next word keeps the joined
      lines equal to the joined words consumed so far. */
  lemma ExtendStepJoin(lines: seq<string>, line: string, word: string, done: seq<string>)
    requires |done| >= 1 && Join(lines + [line]) == Join(done)
    ensures Join(lines + [line + " " + word]) == Join(done + [word])
  {
    JoinSnoc(done, word);
    if lines != [] {
      JoinSnoc(lines, line + " " + word);
      JoinSnoc(lines, line);
    } else {
      assert lines + [line] == [line];
      assert lines + [line + " " + word] == [line + " " + word];
    }
  }

  /** Where caption line `i` of `n` has its baseline: the last line at
      `height - 24`, each earlier one 30 px higher. */
  const LinePitch: int := 30
  const BottomMargin: int := 24
  const LeftMargin: int := 24

  datatype Caption = Caption(text: string, x: int, y: int)

  /** The caption loop: from the last line to the first, each drawn at the
      current baseline, which then moves up one pitch. The result lists the
      lines in the order they are drawn, so the k-th drawn is line n-1-k:
      line i of n has its baseline at `height - 24 - 30 * (n - 1 - i)`. */
  method PlaceCaptions(lines: seq<string>, height: int) returns (drawn: seq<Caption>)
    ensures |drawn| == |lines|
    ensures forall k :: 0 <= k < |drawn| ==>
              drawn[k] == Caption(lines[|lines| - 1 - k], LeftMargin, height - BottomMargin - LinePitch * k)
    // the last line is drawn first and lowest; each earlier line sits higher
    ensures forall k, m :: 0 <= k < m < |drawn| ==> drawn[m].y < drawn[k].y <= height - BottomMargin
  {
    var n := |lines|;
    drawn := [];
    var y := height - BottomMargin;
    var i := n - 1;
    while i >= 0
      invariant -1 <= i < n
      invariant |drawn| == n - 1 - i
      invariant y == height - BottomMargin - LinePitch * |drawn|
      invariant forall k :: 0 <= k < |drawn| ==>
                  drawn[k] == Caption(lines[n - 1 - k], LeftMargin, height - BottomMargin - LinePitch * k)
    {
      drawn := drawn + [Caption(lines[i], LeftMargin, y)];
      y := y - LinePitch;
      i := i - 1;
    }
  }
}
