// The matching puzzle of components/puzzles/MatchingPuzzle.tsx: terms and
// definitions carry the index of their pair as id, both columns are shuffled
// in place by `shuffleArray`, and a term/definition click sequence records the
// ids matched so far.
module Matching {
  import opened Common
  import opened Content

  /** A term or a definition with the index of its pair. */
  datatype Item = Item(id: int, text: string)

  // ----- shuffleArray -----

  /** `s` with positions `i` and `j` exchanged. */
  function Swap<T>(s: seq<T>, i: nat, j: nat): (r: seq<T>)
    requires i < |s| && j < |s|
    ensures |r| == |s| && r[i] == s[j] && r[j] == s[i]
    ensures forall k :: 0 <= k < |s| && k != i && k != j ==> r[k] == s[k]
  {
    s[i := s[j]][j := s[i]]
  }

  lemma SwapPermutes<T>(s: seq<T>, i: nat, j: nat)
    requires i < |s| && j < |s|
    ensures multiset(Swap(s, i, j)) == multiset(s)
  {
    if i != j {
      calc {
        multiset(Swap(s, i, j));
        multiset(s[i := s[j]][j := s[i]]);
        multiset(s[i := s[j]]) - multiset{s[i := s[j]][j]} + multiset{s[i]};
        multiset(s) - multiset{s[i]} + multiset{s[j]} - multiset{s[j]} + multiset{s[i]};
        multiset(s);
      }
    }
  }

  /** The random draws a shuffle of `n` elements consumes: at step `k` (current
      index `n - k`) `Math.floor(Math.random() * currentIndex)` is below the
      current index. */
  predicate DrawsFit(draws: seq<nat>, n: nat)
  {
    |draws| == n && forall k :: 0 <= k < n ==> draws[k] < n - k
  }

  /** The remaining `current` steps of the shuffle loop, on a value: swap the
      last unshuffled position with the drawn one, then continue. */
  function Shuffled<T>(s: seq<T>, draws: seq<nat>, current: nat): (r: seq<T>)
    requires current <= |s| && DrawsFit(draws, current)
    ensures |r| == |s|
    ensures r[current..] == s[current..]
    decreases current
  {
    if current == 0 then s
    else Shuffled(Swap(s, current - 1, draws[0]), draws[1..], current - 1)
  }

  /** The shuffle only rearranges: the result is a permutation of the input. */
  lemma {:induction false} ShuffledPermutes<T>(s: seq<T>, draws: seq<nat>, current: nat)
    requires current <= |s| && DrawsFit(draws, current)
    ensures |Shuffled(s, draws, current)| == |s|
    ensures multiset(Shuffled(s, draws, current)) == multiset(s)
    decreases current
  {
    if current > 0 {
      SwapPermutes(s, current - 1, draws[0]);
      ShuffledPermutes(Swap(s, current - 1, draws[0]), draws[1..], current - 1);
    }
  }

  /** `shuffleArray`, in place, with the random draws supplied by the caller. */
  method ShuffleArray<T>(a: array<T>, draws: seq<nat>)
    requires DrawsFit(draws, a.Length)
    modifies a
    ensures a[..] == Shuffled(old(a[..]), draws, a.Length)
    ensures multiset(a[..]) == multiset(old(a[..]))
  {
    ghost var original := a[..];
    ghost var rest := draws;
    var currentIndex := a.Length;
    while currentIndex != 0
      invariant 0 <= currentIndex <= a.Length
      invariant rest == draws[a.Length - currentIndex..] && DrawsFit(rest, currentIndex)
      invariant Shuffled(a[..], rest, currentIndex) == Shuffled(original, draws, a.Length)
    {
      var randomIndex := draws[a.Length - currentIndex];
      assert randomIndex == rest[0];
      ghost var before := a[..];
      currentIndex := currentIndex - 1;
      a[currentIndex], a[randomIndex] := a[randomIndex], a[currentIndex];
      SwappedArray(before, a[..], currentIndex, randomIndex);
      DrawsFitTail(rest, currentIndex + 1);
      rest := rest[1..];
    }
    ShuffledPermutes(original, draws, a.Length);
  }

  /** A sequence that agrees with `s` swapped at `i` and `j` is that swap. */
  lemma SwappedArray<T>(s: seq<T>, t: seq<T>, i: nat, j: nat)
    requires i < |s| && j < |s| && |t| == |s|
    requires t[i] == s[j] && t[j] == s[i]
    requires forall k :: 0 <= k < |s| && k != i && k != j ==> t[k] == s[k]
    ensures t == Swap(s, i, j)
  {
  }

  lemma DrawsFitTail(draws: seq<nat>, n: nat)
    requires n > 0 && DrawsFit(draws, n)
    ensures DrawsFit(draws[1..], n - 1)
  {
    forall k | 0 <= k < n - 1
      ensures draws[1..][k] < n - 1 - k
    {
      assert draws[1..][k] == draws[k + 1];
    }
  }

  // ----- the click rules -----

  /** The ids in play are the pair indices `0 .. n-1`; `matched` lists distinct ids. */
  predicate MatchesValid(n: nat, matched: seq<int>)
  {
    NoDuplicates(matched) && forall k :: 0 <= k < |matched| ==> 0 <= matched[k] < n
  }

  /** The selection, the matched ids and the wrong-pair flash. */
  datatype ClickState = ClickState(selectedTerm: Option<Item>, matchedPairs: seq<int>, incorrectMatch: Option<(int, int)>)

  /** `handleTermClick`. */
  function TermClicked(st: ClickState, term: Item): (r: ClickState)
    ensures term.id in st.matchedPairs ==> r == st
    ensures term.id !in st.matchedPairs ==> r.selectedTerm == Some(term) && r.incorrectMatch.None?
    ensures r.matchedPairs == st.matchedPairs
  {
    if term.id in st.matchedPairs then st
    else st.(selectedTerm := Some(term), incorrectMatch := None)
  }

  /** `handleDefinitionClick`. */
  function DefinitionClicked(st: ClickState, def: Item): (r: ClickState)
    ensures st.selectedTerm.None? || def.id in st.matchedPairs ==> r == st
    ensures st.selectedTerm.Some? && def.id !in st.matchedPairs ==> r.selectedTerm.None?
    ensures (st.selectedTerm.Some? && def.id !in st.matchedPairs && st.selectedTerm.value.id == def.id) ==>
              r.matchedPairs == st.matchedPairs + [def.id] && r.incorrectMatch.None?
    ensures (st.selectedTerm.Some? && def.id !in st.matchedPairs && st.selectedTerm.value.id != def.id) ==>
              r.matchedPairs == st.matchedPairs && r.incorrectMatch == Some((st.selectedTerm.value.id, def.id))
  {
    if st.selectedTerm.None? || def.id in st.matchedPairs then st
    else if st.selectedTerm.value.id == def.id then
      ClickState(None, st.matchedPairs + [st.selectedTerm.value.id], None)
    else
      ClickState(None, st.matchedPairs, Some((st.selectedTerm.value.id, def.id)))
  }

  /** The flash timer's callback. */
  function FlashCleared(st: ClickState): ClickState
  {
    st.(incorrectMatch := None)
  }

  /** The selection and the clicked definition are items of the columns, so
      their ids are pair indices; then the matched ids stay valid. */
  lemma ClicksKeepMatchesValid(n: nat, st: ClickState, term: Item, def: Item)
    requires MatchesValid(n, st.matchedPairs)
    requires st.selectedTerm.Some? ==> 0 <= st.selectedTerm.value.id < n
    ensures MatchesValid(n, TermClicked(st, term).matchedPairs)
    ensures MatchesValid(n, DefinitionClicked(st, def).matchedPairs)
  {
  }

  /** Distinct ids below `n` number at most `n`: the puzzle can never record
      more matches than there are pairs. */
  lemma {:induction false} MatchesAtMostPairs(n: nat, matched: seq<int>)
    requires MatchesValid(n, matched)
    ensures |matched| <= n
  {
    var ids := set k | 0 <= k < |matched| :: matched[k];
    DistinctCount(matched);
    RangeCount(n, ids);
  }

  lemma {:induction false} DistinctCount(s: seq<int>)
    requires NoDuplicates(s)
    ensures |set k | 0 <= k < |s| :: s[k]| == |s|
  {
    if s != [] {
      var t := s[..|s| - 1];
      DistinctCount(t);
      var last := s[|s| - 1];
      assert (set k | 0 <= k < |s| :: s[k]) == (set k | 0 <= k < |t| :: t[k]) + {last};
      forall k | 0 <= k < |t|
        ensures t[k] != last
      {
        assert t[k] == s[k];
      }
    }
  }

  lemma {:induction false} RangeCount(n: nat, ids: set<int>)
    requires forall x :: x in ids ==> 0 <= x < n
    ensures |ids| <= n
    decreases n
  {
    if n > 0 {
      RangeCount(n - 1, ids - {n - 1});
    } else {
      assert forall x :: x !in ids;
      assert ids == {};
    }
  }

  /** The colour of a term: matched, then selected, then flashed wrong. */
  datatype ItemClass = MatchedClass | SelectedClass | WrongClass | PlainClass

  function TermClass(st: ClickState, term: Item): (k: ItemClass)
    ensures k == MatchedClass <==> term.id in st.matchedPairs
    ensures k == SelectedClass <==>
              term.id !in st.matchedPairs && st.selectedTerm.Some? && st.selectedTerm.value.id == term.id
    ensures k == WrongClass <==>
              term.id !in st.matchedPairs && !(st.selectedTerm.Some? && st.selectedTerm.value.id == term.id)
              && st.incorrectMatch.Some? && st.incorrectMatch.value.0 == term.id
  {
    if term.id in st.matchedPairs then MatchedClass
    else if st.selectedTerm.Some? && st.selectedTerm.value.id == term.id then SelectedClass
    else if st.incorrectMatch.Some? && st.incorrectMatch.value.0 == term.id then WrongClass
    else PlainClass
  }

  /** The colour of a definition: matched, then flashed wrong. */
  function DefinitionClass(st: ClickState, def: Item): (k: ItemClass)
    ensures k != SelectedClass
    ensures k == MatchedClass <==> def.id in st.matchedPairs
    ensures k == WrongClass <==>
              def.id !in st.matchedPairs && st.incorrectMatch.Some? && st.incorrectMatch.value.1 == def.id
  {
    if def.id in st.matchedPairs then MatchedClass
    else if st.incorrectMatch.Some? && st.incorrectMatch.value.1 == def.id then WrongClass
    else PlainClass
  }

  /** A right pair turns both items green; a wrong pair leaves both unmatched. */
  lemma MatchColoursBothItems(st: ClickState, term: Item, def: Item)
    requires st.selectedTerm == Some(term) && def.id !in st.matchedPairs
    ensures term.id == def.id ==>
              TermClass(DefinitionClicked(st, def), term) == MatchedClass
              && DefinitionClass(DefinitionClicked(st, def), def) == MatchedClass
    ensures term.id != def.id && term.id !in st.matchedPairs ==>
              TermClass(DefinitionClicked(st, def), term) == WrongClass
              && DefinitionClass(DefinitionClicked(st, def), def) == WrongClass
  {
  }

  /** The pairs as items: entry `i` has id `i`. */
  function Indexed(texts: seq<string>): (r: seq<Item>)
    ensures |r| == |texts|
    ensures forall i :: 0 <= i < |texts| ==> r[i] == Item(i, texts[i])
  {
    seq(|texts|, i requires 0 <= i < |texts| => Item(i, texts[i]))
  }

  function Terms(pairs: seq<Pair>): seq<string>
  {
    seq(|pairs|, i requires 0 <= i < |pairs| => pairs[i].term)
  }

  function Definitions(pairs: seq<Pair>): seq<string>
  {
    seq(|pairs|, i requires 0 <= i < |pairs| => pairs[i].definition)
  }

  /** One column of the mount effect: the items of `texts`, shuffled. */
  method ShuffledColumn(texts: seq<string>, draws: seq<nat>) returns (items: seq<Item>)
    requires DrawsFit(draws, |texts|)
    ensures items == Shuffled(Indexed(texts), draws, |texts|)
    ensures multiset(items) == multiset(Indexed(texts))
    ensures forall x :: x in items ==> 0 <= x.id < |texts|
  {
    var column := new Item[|texts|](i requires 0 <= i < |texts| => Item(i, texts[i]));
    assert column[..] == Indexed(texts);
    ShuffleArray(column, draws);
    items := column[..];
    forall x | x in items
      ensures 0 <= x.id < |texts|
    {
      assert x in multiset(Indexed(texts));
    }
  }

  class Puzzle {
    const pairs: seq<Pair>
    var terms: seq<Item>
    var definitions: seq<Item>
    var selectedTerm: Option<Item>
    var matchedPairs: seq<int>
    var incorrectMatch: Option<(int, int)>

    function State(): ClickState
      reads this
    {
      ClickState(selectedTerm, matchedPairs, incorrectMatch)
    }

    /** Every shown item, and the selection, has a pair index as id; the
        matched ids are valid. */
    ghost predicate Valid()
      reads this
    {
      && (forall t :: t in terms ==> 0 <= t.id < |pairs|)
      && (forall d :: d in definitions ==> 0 <= d.id < |pairs|)
      && (selectedTerm.Some? ==> 0 <= selectedTerm.value.id < |pairs|)
      && MatchesValid(|pairs|, matchedPairs)
    }

    /** The mount effect: both columns are the pairs' items, shuffled; the
        selection, the matches and the flash are reset. */
    constructor (data: MatchingData, termDraws: seq<nat>, definitionDraws: seq<nat>)
      requires DrawsFit(termDraws, |data.pairs|) && DrawsFit(definitionDraws, |data.pairs|)
      ensures pairs == data.pairs
      ensures terms == Shuffled(Indexed(Terms(pairs)), termDraws, |pairs|)
      ensures definitions == Shuffled(Indexed(Definitions(pairs)), definitionDraws, |pairs|)
      ensures multiset(terms) == multiset(Indexed(Terms(pairs)))
      ensures multiset(definitions) == multiset(Indexed(Definitions(pairs)))
      ensures State() == ClickState(None, [], None)
      ensures Valid()
    {
      var ts := ShuffledColumn(Terms(data.pairs), termDraws);
      var ds := ShuffledColumn(Definitions(data.pairs), definitionDraws);
      pairs, terms, definitions := data.pairs, ts, ds;
      selectedTerm, matchedPairs, incorrectMatch := None, [], None;
    }

    method TermClick(term: Item)
      requires Valid() && term in terms
      modifies this
      ensures Valid() && State() == TermClicked(old(State()), term)
      ensures terms == old(terms) && definitions == old(definitions)
    {
      if term.id in matchedPairs {
        return;
      }
      selectedTerm := Some(term);
      incorrectMatch := None;
    }

    method DefinitionClick(def: Item)
      requires Valid() && def in definitions
      modifies this
      ensures Valid() && State() == DefinitionClicked(old(State()), def)
      ensures terms == old(terms) && definitions == old(definitions)
    {
      if selectedTerm.None? || def.id in matchedPairs {
        return;
      }
      if selectedTerm.value.id == def.id {
        matchedPairs := matchedPairs + [selectedTerm.value.id];
        selectedTerm := None;
        incorrectMatch := None;
      } else {
        incorrectMatch := Some((selectedTerm.value.id, def.id));
        selectedTerm := None;
      }
    }

    /** The one-second timer after a wrong pair. */
    method ClearFlash()
      requires Valid()
      modifies this
      ensures Valid() && State() == FlashCleared(old(State()))
      ensures terms == old(terms) && definitions == old(definitions)
    {
      incorrectMatch := None;
    }

    /** `handleReset`: the columns keep their order. */
    method Reset()
      requires Valid()
      modifies this
      ensures Valid() && State() == ClickState(None, [], None)
      ensures terms == old(terms) && definitions == old(definitions)
    {
      selectedTerm, matchedPairs, incorrectMatch := None, [], None;
    }
  }
}
