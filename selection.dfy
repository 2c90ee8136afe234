/** BigTwoTable's card selection: one flag per card of the local player, turned
    into the list of card indices that makeMove takes. */
module Selection {
  import opened Wrappers
  import Engine

  /** The number of set flags. */
  function CountTrue(s: seq<bool>): (n: nat)
    ensures n <= |s|
  {
    if s == [] then 0 else CountTrue(s[..|s| - 1]) + (if s[|s| - 1] then 1 else 0)
  }

  /** The positions of the set flags, in increasing order. */
  function SelectedIndices(s: seq<bool>): (r: seq<int>)
    ensures |r| <= |s|
  {
    if s == [] then [] else SelectedIndices(s[..|s| - 1]) + (if s[|s| - 1] then [|s| - 1] else [])
  }

  /** One index per set flag. */
  lemma {:induction false} SelectedIndicesLength(s: seq<bool>)
    ensures |SelectedIndices(s)| == CountTrue(s)
  {
    if s != [] {
      SelectedIndicesLength(s[..|s| - 1]);
    }
  }

  /** The indices lie within the flags and strictly increase. */
  lemma {:induction false} SelectedIndicesIncreasing(s: seq<bool>)
    ensures forall k :: 0 <= k < |SelectedIndices(s)| ==> 0 <= SelectedIndices(s)[k] < |s|
    ensures forall k, m :: 0 <= k < m < |SelectedIndices(s)| ==> SelectedIndices(s)[k] < SelectedIndices(s)[m]
  {
    if s != [] {
      SelectedIndicesIncreasing(s[..|s| - 1]);
    }
  }

  /** An index is listed exactly when its flag is set. */
  lemma {:induction false} SelectedIndicesMembers(s: seq<bool>, i: int)
    ensures i in SelectedIndices(s) <==> 0 <= i < |s| && s[i]
  {
    if s != [] {
      var p := s[..|s| - 1];
      SelectedIndicesMembers(p, i);
      SelectedIndicesIncreasing(p);
      if 0 <= i < |p| {
        assert s[i] == p[i];
      }
    }
  }

  /** There is nothing to list exactly when no flag is set. */
  lemma {:induction false} CountTrueZero(s: seq<bool>)
    ensures CountTrue(s) == 0 <==> forall i :: 0 <= i < |s| ==> !s[i]
  {
    if s != [] {
      var p := s[..|s| - 1];
      CountTrueZero(p);
      assert forall i :: 0 <= i < |p| ==> p[i] == s[i];
    }
  }

  /** Counting a prefix finds no more set flags than counting the whole. */
  lemma {:induction false} CountTruePrefix(s: seq<bool>, i: int)
    requires 0 <= i <= |s|
    ensures CountTrue(s[..i]) <= CountTrue(s)
    decreases |s|
  {
    if i < |s| {
      var p := s[..|s| - 1];
      assert s[..i] == p[..i];
      CountTruePrefix(p, i);
    } else {
      assert s[..i] == s;
    }
  }

  /** The indices of a selection over a player's cards all point into those cards,
      so makeMove can take them. */
  lemma SelectionFitsTheCards(s: seq<bool>)
    ensures Engine.IndicesIn(Some(SelectedIndices(s)), |s|)
  {
    SelectedIndicesIncreasing(s);
  }

  /** Adding one flag at the end. */
  lemma SnocFlag(s: seq<bool>, i: int)
    requires 0 <= i < |s|
    ensures CountTrue(s[..i + 1]) == CountTrue(s[..i]) + (if s[i] then 1 else 0)
    ensures SelectedIndices(s[..i + 1]) == SelectedIndices(s[..i]) + (if s[i] then [i] else [])
  {
    assert s[..i + 1][..i] == s[..i];
  }

  class BigTwoTable {
    /** selected[i] holds when the local player's card i is selected; null until the
        local player holds cards. */
    var selected: array?<bool>

    /** The table as its constructor leaves the selection: reset for the local
        player's numOfCards cards. */
    constructor (numOfCards: nat)
      ensures numOfCards > 0 ==> selected != null && selected.Length == numOfCards
      ensures numOfCards > 0 ==> forall i :: 0 <= i < selected.Length ==> !selected[i]
      ensures numOfCards == 0 ==> selected == null
    {
      selected := null;
      new;
      ResetSelected(numOfCards);
    }

    /** resetSelected: a fresh all-false selection for numOfCards cards, or no change
        when the local player holds none. */
    method ResetSelected(numOfCards: nat)
      modifies this
      ensures numOfCards > 0 ==> fresh(selected) && selected.Length == numOfCards
      ensures numOfCards > 0 ==> forall i :: 0 <= i < selected.Length ==> !selected[i]
      ensures numOfCards == 0 ==> selected == old(selected)
    {
      if numOfCards > 0 {
        selected := new bool[numOfCards](_ => false);
      }
    }

    /** getSelected: null when no card is selected, otherwise a new array of the
        selected indices, counted by a first pass and filled by a second. */
    method GetSelected() returns (r: array?<int>)
      requires selected != null
      ensures r == null <==> CountTrue(selected[..]) == 0
      ensures r != null ==> fresh(r) && r[..] == SelectedIndices(selected[..])
    {
      var s := selected;
      var count := 0;
      var i := 0;
      while i < s.Length
        invariant 0 <= i <= s.Length
        invariant count == CountTrue(s[..i])
      {
        SnocFlag(s[..], i);
        if s[i] {
          count := count + 1;
        }
        i := i + 1;
      }
      assert s[..s.Length] == s[..];
      r := null;
      if count != 0 {
        r := new int[count];
        count := 0;
        i := 0;
        while i < s.Length
          invariant 0 <= i <= s.Length
          invariant count == CountTrue(s[..i]) <= r.Length
          invariant count == |SelectedIndices(s[..i])|
          invariant r[..count] == SelectedIndices(s[..i])
          modifies r
        {
          SnocFlag(s[..], i);
          CountTruePrefix(s[..], i + 1);
          SelectedIndicesLength(s[..i + 1]);
          if s[i] {
            r[count] := i;
            count := count + 1;
          }
          i := i + 1;
        }
        assert r[..] == r[..count];
      }
    }
  }
}
