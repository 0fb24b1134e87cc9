// The find-the-mistake challenge of screens/FindTheMistakeScreen.tsx: the text
// is split into words on single spaces, the player toggles word indices, and
// "check" compares the selected words, with punctuation removed, against the
// mistakes not found yet.
module FindTheMistake {
  import opened Common
  import opened Content

  /** The render guard: the fallback screen shows for a missing payload, an
      empty challenge text, or a missing or empty mistakes array. */
  predicate IsPlayable(data: Option<FindTheMistakeData>)
    ensures data.None? ==> !IsPlayable(data)
    ensures data.Some? && data.value.challengeText == "" ==> !IsPlayable(data)
    ensures data.Some? && data.value.mistakes.None? ==> !IsPlayable(data)
    ensures data.Some? && data.value.mistakes == Some([]) ==> !IsPlayable(data)
    ensures (&& data.Some? && data.value.challengeText != ""
             && data.value.mistakes.Some? && data.value.mistakes.value != [])
            ==> IsPlayable(data)
  {
    data.Some? && data.value.challengeText != "" && data.value.mistakes.Some? && |data.value.mistakes.value| > 0
  }

  // ----- punctuation -----

  /** The characters of the class `[.,/#!$%^&*;:{}=\-_`~()]`. */
  predicate IsPunct(c: char)
  {
    c in ".,/#!$%^&*;:{}=-_`~()"
  }

  /** `s.replace(/[.,/#!$%^&*;:{}=\-_`~()]/g, "")`. */
  function StripPunct(s: string): (r: string)
    ensures |r| <= |s|
    ensures forall c :: c in r <==> c in s && !IsPunct(c)
  {
    if s == [] then []
    else if IsPunct(s[0]) then StripPunct(s[1..])
    else [s[0]] + StripPunct(s[1..])
  }

  /** Stripping works character by character, keeping order and repeats: a
      punctuation mark is dropped, any other character is kept, and the
      result for a concatenation is the concatenation of the results. */
  lemma {:induction false} StripPunctDistributes(a: string, b: string)
    ensures StripPunct(a + b) == StripPunct(a) + StripPunct(b)
    ensures forall c :: StripPunct([c]) == if IsPunct(c) then "" else [c]
  {
    if a != [] {
      assert (a + b)[0] == a[0] && (a + b)[1..] == a[1..] + b;
      StripPunctDistributes(a[1..], b);
    } else {
      assert a + b == b;
    }
  }

  /** Text without punctuation is left as it is, so stripping twice is stripping once. */
  lemma {:induction false} StripPunctIdempotent(s: string)
    ensures StripPunct(StripPunct(s)) == StripPunct(s)
  {
    StripPunctOfClean(StripPunct(s));
  }

  lemma {:induction false} StripPunctOfClean(s: string)
    requires forall c :: c in s ==> !IsPunct(c)
    ensures StripPunct(s) == s
  {
    if s != [] {
      assert s[0] in s;
      StripPunctOfClean(s[1..]);
    }
  }

  // ----- selection -----

  predicate StrictlySorted(xs: seq<nat>)
  {
    forall i, j :: 0 <= i < j < |xs| ==> xs[i] < xs[j]
  }

  /** `[...prev, index].sort((a, b) => a - b)` for a sorted `prev` without `index`. */
  function InsertSorted(xs: seq<nat>, x: nat): (r: seq<nat>)
    requires StrictlySorted(xs) && x !in xs
    ensures StrictlySorted(r)
    ensures forall y :: y in r <==> y in xs || y == x
    ensures |r| == |xs| + 1
  {
    if xs == [] || x < xs[0] then [x] + xs
    else
      var rest := InsertSorted(xs[1..], x);
      assert forall y :: y in xs[1..] ==> xs[0] < y;
      ConsSorted(xs[0], rest);
      [xs[0]] + rest
  }

  /** `prev.filter(i => i !== index)`. */
  function Remove(xs: seq<nat>, x: nat): (r: seq<nat>)
    ensures forall y :: y in r <==> y in xs && y != x
    ensures StrictlySorted(xs) ==> StrictlySorted(r)
  {
    if xs == [] then []
    else
      var rest := Remove(xs[1..], x);
      assert StrictlySorted(xs) ==> forall y :: y in xs[1..] ==> xs[0] < y;
      if xs[0] == x then rest
      else
        if StrictlySorted(xs) then ConsSorted(xs[0], rest); [xs[0]] + rest
        else [xs[0]] + rest
  }

  lemma ConsSorted(h: nat, t: seq<nat>)
    requires StrictlySorted(t) && forall y :: y in t ==> h < y
    ensures StrictlySorted([h] + t)
  {
    var s := [h] + t;
    forall i, j | 0 <= i < j < |s|
      ensures s[i] < s[j]
    {
      if i == 0 {
        assert s[j] == t[j - 1];
        assert t[j - 1] in t;
      }
    }
  }

  /** A click toggles one index: the selection stays sorted and duplicate-free. */
  function Toggle(xs: seq<nat>, x: nat): (r: seq<nat>)
    requires StrictlySorted(xs)
    ensures StrictlySorted(r)
    ensures x in r <==> x !in xs
    ensures forall y :: y != x ==> (y in r <==> y in xs)
  {
    if x in xs then Remove(xs, x) else InsertSorted(xs, x)
  }

  /** Word `index` lies inside the words of an already found mistake: some
      window of the text starting at `i` spells that mistake and covers `index`. */
  predicate InFoundSpan(words: seq<string>, found: seq<Mistake>, index: nat)
  {
    exists j, i :: 0 <= j < |found| && 0 <= i < |words| && SpansAt(words, found[j], i, index)
  }

  /** `words.slice(i, i + n).join(' ') === m.incorrectText`, with `n` the number
      of words of the mistake, and `i <= index < i + n`. */
  predicate SpansAt(words: seq<string>, m: Mistake, i: int, index: nat)
  {
    var n := |SplitSpace(m.incorrectText)|;
    0 <= i < |words| && i <= index < i + n && JoinSpace(words[i..Min(i + n, |words|)]) == m.incorrectText
  }

  // ----- checking -----

  /** `words[i]` inside `join`: an index past the last word reads
      `undefined`, which `join` writes as the empty string. */
  function WordOrEmpty(words: seq<string>, i: nat): string
  {
    if i < |words| then words[i] else ""
  }

  /** The selected words, in index order, joined with spaces and stripped. */
  function SelectedText(words: seq<string>, sel: seq<nat>): string
  {
    StripPunct(JoinSpace(seq(|sel|, k requires 0 <= k < |sel| => WordOrEmpty(words, sel[k]))))
  }

  /** Some found mistake has this text. */
  predicate TextFound(found: seq<Mistake>, text: string)
  {
    exists fm :: fm in found && fm.incorrectText == text
  }

  /** `unfoundMistakes.find(m => stripped(m.incorrectText) === text)`: the first
      mistake whose text was not found yet and matches. */
  function FirstMatch(mistakes: seq<Mistake>, found: seq<Mistake>, text: string): (r: Option<Mistake>)
    ensures r.Some? ==> r.value in mistakes && !TextFound(found, r.value.incorrectText)
                        && StripPunct(r.value.incorrectText) == text
    ensures r.None? ==> forall m :: m in mistakes && !TextFound(found, m.incorrectText) ==>
                          StripPunct(m.incorrectText) != text
  {
    if mistakes == [] then None
    else if !TextFound(found, mistakes[0].incorrectText) && StripPunct(mistakes[0].incorrectText) == text
    then Some(mistakes[0])
    else FirstMatch(mistakes[1..], found, text)
  }

  /** `find` returns the first candidate: when the `k`-th mistake is unfound
      and matches and no earlier one does, the match is that mistake. */
  lemma {:induction false} FirstMatchIsFirst(mistakes: seq<Mistake>, found: seq<Mistake>, text: string, k: nat)
    requires k < |mistakes| && !TextFound(found, mistakes[k].incorrectText) && StripPunct(mistakes[k].incorrectText) == text
    requires forall j :: 0 <= j < k ==> TextFound(found, mistakes[j].incorrectText) || StripPunct(mistakes[j].incorrectText) != text
    ensures FirstMatch(mistakes, found, text) == Some(mistakes[k])
  {
    if k > 0 {
      assert TextFound(found, mistakes[0].incorrectText) || StripPunct(mistakes[0].incorrectText) != text;
      var tail := mistakes[1..];
      assert tail[k - 1] == mistakes[k];
      forall j | 0 <= j < k - 1
        ensures TextFound(found, tail[j].incorrectText) || StripPunct(tail[j].incorrectText) != text
      {
        assert tail[j] == mistakes[j + 1];
      }
      FirstMatchIsFirst(tail, found, text, k - 1);
    }
  }

  /** No two found mistakes share a text. */
  predicate DistinctTexts(found: seq<Mistake>)
  {
    forall i, j :: 0 <= i < j < |found| ==> found[i].incorrectText != found[j].incorrectText
  }

  /** Found mistakes never repeat: a match is a mistake whose text was not found. */
  lemma MatchKeepsTextsDistinct(mistakes: seq<Mistake>, found: seq<Mistake>, text: string)
    requires DistinctTexts(found)
    ensures FirstMatch(mistakes, found, text).Some? ==> DistinctTexts(found + [FirstMatch(mistakes, found, text).value])
  {
    var r := FirstMatch(mistakes, found, text);
    if r.Some? {
      var f := found + [r.value];
      forall i, j | 0 <= i < j < |f|
        ensures f[i].incorrectText != f[j].incorrectText
      {
        if j == |found| {
          assert f[i] in found;
        }
      }
    }
  }

  /** Two mistakes with the same text can never both be found by checking:
      once one is found the other is filtered out of the candidates. */
  lemma {:induction false} DuplicateTextNeverFound(mistakes: seq<Mistake>, found: seq<Mistake>, text: string, m: Mistake)
    requires m in mistakes && TextFound(found, m.incorrectText)
    ensures FirstMatch(mistakes, found, text) != Some(m)
  {
  }

  // ----- rendering -----

  /** A piece of the rendered text: a found mistake starting at word `start`,
      or the clickable word `start`. */
  datatype Segment = MistakeSpan(start: nat, mistake: Mistake) | WordSpan(start: nat)

  /** The number of words a segment covers. */
  function Width(s: Segment): nat
  {
    match s
    case MistakeSpan(_, m) => |SplitSpace(m.incorrectText)|
    case WordSpan(_) => 1
  }

  /** `foundMistakes.find(m => remainingWords.startsWith(m.incorrectText))`. */
  function FoundAt(found: seq<Mistake>, rest: string): (r: Option<Mistake>)
    ensures r.Some? ==> r.value in found && r.value.incorrectText <= rest
    ensures r.None? ==> forall m :: m in found ==> !(m.incorrectText <= rest)
  {
    if found == [] then None
    else if found[0].incorrectText <= rest then Some(found[0])
    else FoundAt(found[1..], rest)
  }

  /** `find` returns the first found mistake the rest of the text starts
      with, so with "the" found before "the cat" only "the" is struck. */
  lemma {:induction false} FoundAtIsFirst(found: seq<Mistake>, rest: string, k: nat)
    requires k < |found| && found[k].incorrectText <= rest
    requires forall j :: 0 <= j < k ==> !(found[j].incorrectText <= rest)
    ensures FoundAt(found, rest) == Some(found[k])
  {
    if k > 0 {
      assert !(found[0].incorrectText <= rest);
      var tail := found[1..];
      assert tail[k - 1] == found[k];
      forall j | 0 <= j < k - 1
        ensures !(tail[j].incorrectText <= rest)
      {
        assert tail[j] == found[j + 1];
      }
      FoundAtIsFirst(tail, rest, k - 1);
    }
  }

  /** Segment `s` starts at a word of the text, and it is a mistake span
      exactly when the text from that word on starts with a found mistake. */
  ghost predicate Fits(words: seq<string>, found: seq<Mistake>, s: Segment)
  {
    s.start < |words| &&
    FoundAt(found, JoinSpace(words[s.start..])) == if s.MistakeSpan? then Some(s.mistake) else None
  }

  /** Each segment starts where the previous one ends. */
  ghost predicate Chained(segs: seq<Segment>)
  {
    forall k :: 0 < k < |segs| ==> segs[k].start == segs[k - 1].start + Width(segs[k - 1])
  }

  /** The end of the last segment, or 0 for none. */
  function End(segs: seq<Segment>): nat
  {
    if segs == [] then 0 else segs[|segs| - 1].start + Width(segs[|segs| - 1])
  }

  /** The segments tile the text from word 0 to its end, and every one fits. */
  ghost predicate Tiles(words: seq<string>, found: seq<Mistake>, segs: seq<Segment>)
  {
    && (segs != [] ==> segs[0].start == 0)
    && Chained(segs)
    && End(segs) >= |words|
    && forall k :: 0 <= k < |segs| ==> Fits(words, found, segs[k])
  }

  /** The segment the scan puts at word `i`. */
  function SegmentAt(words: seq<string>, found: seq<Mistake>, i: nat): Segment
    requires i < |words|
  {
    var m := FoundAt(found, JoinSpace(words[i..]));
    if m.Some? then MistakeSpan(i, m.value) else WordSpan(i)
  }

  /** The value of the scan's `i` when the loop stops, starting from `i`: at
      or past the last word, since each step covers at least one word. */
  function ScanEnd(words: seq<string>, found: seq<Mistake>, i: nat): (e: nat)
    ensures e >= i && e >= |words|
    decreases |words| - i
  {
    if i >= |words| then i
    else
      var seg := SegmentAt(words, found, i);
      assert Width(seg) >= 1;
      ScanEnd(words, found, i + Width(seg))
  }


  /** The one `let i` of `renderText` after the scan: every word's click
      handler closes over this binding, so each click reads this value. */
  function StaleIndex(words: seq<string>, found: seq<Mistake>): nat
  {
    ScanEnd(words, found, 0)
  }

  /** The `while (i < words.length)` scan of `renderText`. Each step advances
      by at least one word, since splitting never yields an empty list. */
  method RenderText(words: seq<string>, found: seq<Mistake>) returns (segs: seq<Segment>)
    ensures Tiles(words, found, segs)
    ensures End(segs) == StaleIndex(words, found)
  {
    segs := [];
    var i := 0;
    while i < |words|
      invariant i == End(segs)
      invariant segs != [] ==> segs[0].start == 0
      invariant Chained(segs)
      invariant forall k :: 0 <= k < |segs| ==> Fits(words, found, segs[k])
      decreases |words| - i
    {
      var remainingWords := JoinSpace(words[i..]);
      var mistakeFound := FoundAt(found, remainingWords);
      var seg := if mistakeFound.Some? then MistakeSpan(i, mistakeFound.value) else WordSpan(i);
      assert seg == SegmentAt(words, found, i);
      assert Fits(words, found, seg);
      Extend(words, found, segs, seg);
      segs := segs + [seg];
      i := i + Width(seg);
    }
    TilesEndAtStaleIndex(words, found, segs);
  }

  /** A tiling ends where the scan's index ends. */
  lemma TilesEndAtStaleIndex(words: seq<string>, found: seq<Mistake>, segs: seq<Segment>)
    requires Tiles(words, found, segs)
    ensures End(segs) == StaleIndex(words, found)
  {
    if segs != [] {
      ScanFromSegment(words, found, segs, 0);
    }
  }

  /** From segment `k` on, the scan steps through the remaining segments one
      by one and stops where the last one ends. */
  lemma {:induction false} ScanFromSegment(words: seq<string>, found: seq<Mistake>, segs: seq<Segment>, k: nat)
    requires Tiles(words, found, segs) && k < |segs|
    ensures ScanEnd(words, found, segs[k].start) == End(segs)
    decreases |segs| - k
  {
    var s := segs[k];
    assert Fits(words, found, s);
    assert s == SegmentAt(words, found, s.start);
    var next := s.start + Width(s);
    assert ScanEnd(words, found, s.start) == ScanEnd(words, found, next);
    if k + 1 < |segs| {
      assert segs[k + 1].start == next;
      ScanFromSegment(words, found, segs, k + 1);
    } else {
      assert End(segs) == next;
    }
  }

  /** Appending a fitting segment where the last one ends keeps the chain. */
  lemma Extend(words: seq<string>, found: seq<Mistake>, segs: seq<Segment>, seg: Segment)
    requires segs != [] ==> segs[0].start == 0
    requires Chained(segs) && seg.start == End(segs) && Fits(words, found, seg)
    requires forall k :: 0 <= k < |segs| ==> Fits(words, found, segs[k])
    ensures var t := segs + [seg];
      && t[0].start == 0 && Chained(t) && End(t) == seg.start + Width(seg)
      && forall k :: 0 <= k < |t| ==> Fits(words, found, t[k])
  {
    var t := segs + [seg];
    forall k | 0 <= k < |t|
      ensures Fits(words, found, t[k])
    {
      if k < |segs| {
        assert t[k] == segs[k];
      }
    }
    forall k | 0 < k < |t|
      ensures t[k].start == t[k - 1].start + Width(t[k - 1])
    {
      if k < |segs| {
        assert t[k] == segs[k] && t[k - 1] == segs[k - 1];
      }
    }
  }

  /** No found mistake covers an index at or past the end of the text: a
      window spelling a mistake of `n` words holds `n` words of the text. */
  lemma NoFoundSpanPastText(words: seq<string>, found: seq<Mistake>, index: nat)
    requires forall k :: 0 <= k < |words| ==> ' ' !in words[k]
    requires index >= |words|
    ensures !InFoundSpan(words, found, index)
  {
    forall j, i | 0 <= j < |found| && 0 <= i < |words|
      ensures !SpansAt(words, found[j], i, index)
    {
      var n := |SplitSpace(found[j].incorrectText)|;
      var hi := Min(i + n, |words|);
      var xs := words[i..hi];
      forall k | 0 <= k < |xs|
        ensures ' ' !in xs[k]
      {
        assert xs[k] == words[i + k];
      }
      SplitJoin(xs);
    }
  }

  /** A selection of indices past the last word reads as the empty text. */
  lemma {:induction false} SelectionPastTextReadsEmpty(words: seq<string>, e: nat)
    requires e >= |words|
    ensures SelectedText(words, [e]) == ""
  {
    var picked := seq(1, k requires 0 <= k < 1 => WordOrEmpty(words, [e][k]));
    assert picked == [""];
    assert JoinSpace(picked) == "";
  }

  /** Checking the selection the rendered handlers make finds only a mistake
      whose text is nothing but punctuation. */
  lemma StaleCheckFindsOnlyEmptyMistakes(mistakes: seq<Mistake>, found: seq<Mistake>, words: seq<string>)
    ensures var r := FirstMatch(mistakes, found, SelectedText(words, [StaleIndex(words, found)]));
      r.Some? ==> StripPunct(r.value.incorrectText) == ""
  {
    SelectionPastTextReadsEmpty(words, StaleIndex(words, found));
  }

  /** With the text "a b" and nothing found, clicking the first word hands
      the handler the index 2, not 0. */
  lemma ClickOnFirstWordReadsIndexTwo()
    ensures StaleIndex(["a", "b"], []) == 2
  {
    assert ScanEnd(["a", "b"], [], 0) == ScanEnd(["a", "b"], [], 1);
    assert ScanEnd(["a", "b"], [], 1) == ScanEnd(["a", "b"], [], 2);
  }

  // ----- the screen's state -----

  class Challenge {
    const words: seq<string>
    const mistakes: seq<Mistake>
    var selectedIndices: seq<nat>
    var foundMistakes: seq<Mistake>
    var incorrectAttempt: bool

    /** The words hold no space; the selection is sorted; found mistakes
        come from the payload; a wrong attempt leaves nothing selected. */
    ghost predicate Valid()
      reads this
    {
      && (forall k :: 0 <= k < |words| ==> ' ' !in words[k])
      && StrictlySorted(selectedIndices)
      && (forall m :: m in foundMistakes ==> m in mistakes)
      && (incorrectAttempt ==> selectedIndices == [])
    }

    constructor (data: FindTheMistakeData)
      requires IsPlayable(Some(data))
      ensures words == SplitSpace(data.challengeText) && mistakes == data.mistakes.value
      ensures selectedIndices == [] && foundMistakes == [] && !incorrectAttempt
      ensures Valid()
    {
      words := SplitSpace(data.challengeText);
      mistakes := data.mistakes.value;
      selectedIndices, foundMistakes, incorrectAttempt := [], [], false;
    }

    /** `allFound`. */
    predicate AllFound()
      reads this
    {
      |foundMistakes| == |mistakes|
    }

    /** `handleWordClick(index)`: the wrong-attempt flag is cleared; an index
        inside a found mistake is otherwise ignored, any other is toggled. */
    method HandleWordClick(index: nat)
      requires Valid()
      modifies this
      ensures Valid() && !incorrectAttempt && foundMistakes == old(foundMistakes)
      ensures InFoundSpan(words, foundMistakes, index) ==> selectedIndices == old(selectedIndices)
      ensures !InFoundSpan(words, foundMistakes, index) ==> selectedIndices == Toggle(old(selectedIndices), index)
    {
      if incorrectAttempt {
        incorrectAttempt := false;
      }
      if InFoundSpan(words, foundMistakes, index) {
        return;
      }
      selectedIndices := Toggle(selectedIndices, index);
    }

    /** A click on a rendered word as the component wires it: the handler
        reads the scan's `i` after the scan, so whichever word is clicked the
        index toggled is `StaleIndex`, and no rendered word changes. */
    method WordClick()
      requires Valid()
      modifies this
      ensures Valid() && !incorrectAttempt && foundMistakes == old(foundMistakes)
      ensures selectedIndices == Toggle(old(selectedIndices), StaleIndex(words, foundMistakes))
      ensures forall k :: 0 <= k < |words| ==> (k in selectedIndices <==> k in old(selectedIndices))
    {
      var segs := RenderText(words, foundMistakes);
      var i := End(segs);
      NoFoundSpanPastText(words, foundMistakes, i);
      HandleWordClick(i);
    }

    /** A click on word `index` as the handler evidently means it, each word
        passing its own index: the word's selection flips unless it lies in
        a found mistake, and no other index changes. */
    method ClickWord(index: nat)
      requires Valid() && index < |words|
      modifies this
      ensures Valid() && !incorrectAttempt && foundMistakes == old(foundMistakes)
      ensures InFoundSpan(words, foundMistakes, index) ==> selectedIndices == old(selectedIndices)
      ensures !InFoundSpan(words, foundMistakes, index) ==>
                (index in selectedIndices <==> index !in old(selectedIndices))
      ensures forall k :: k != index ==> (k in selectedIndices <==> k in old(selectedIndices))
    {
      HandleWordClick(index);
    }

    /** "Check Answer". */
    method CheckAnswer()
      requires Valid()
      modifies this
      ensures Valid()
      ensures old(selectedIndices) == [] ==>
                selectedIndices == [] && foundMistakes == old(foundMistakes) && incorrectAttempt == old(incorrectAttempt)
      ensures old(selectedIndices) != [] ==> (
                var r := FirstMatch(mistakes, old(foundMistakes), SelectedText(words, old(selectedIndices)));
                && selectedIndices == []
                && (r.Some? ==> foundMistakes == old(foundMistakes) + [r.value] && incorrectAttempt == old(incorrectAttempt))
                && (r.None? ==> foundMistakes == old(foundMistakes) && incorrectAttempt))
    {
      if |selectedIndices| == 0 {
        return;
      }
      var selectedText := SelectedText(words, selectedIndices);
      var found := FirstMatch(mistakes, foundMistakes, selectedText);
      if found.Some? {
        foundMistakes := foundMistakes + [found.value];
      } else {
        incorrectAttempt := true;
      }
      selectedIndices := [];
    }

    /** The one-second timer after a wrong attempt. */
    method ClearFlash()
      requires Valid()
      modifies this
      ensures Valid() && !incorrectAttempt
      ensures selectedIndices == old(selectedIndices) && foundMistakes == old(foundMistakes)
    {
      incorrectAttempt := false;
    }

    /** "Reveal Answers". */
    method RevealAnswers()
      requires Valid()
      modifies this
      ensures Valid() && foundMistakes == mistakes && selectedIndices == [] && AllFound()
      ensures incorrectAttempt == old(incorrectAttempt)
    {
      foundMistakes := mistakes;
      selectedIndices := [];
    }

    /** A rendered word is shown red when it is selected during a wrong attempt. */
    predicate IsWordRed(index: nat)
      reads this
    {
      incorrectAttempt && index in selectedIndices
    }
  }

  /** The red highlight of a wrong attempt never shows: the check that raises
      the flag also empties the selection, and a click lowers the flag. */
  lemma WrongAttemptNeverRed(c: Challenge, index: nat)
    requires c.Valid()
    ensures !c.IsWordRed(index)
  {
  }
}
