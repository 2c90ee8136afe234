/** Lists of cards (CardList): the in-order sort by compareTo, membership,
    removal by (suit, rank) and reading cards at given indices. */
module CardLists {
  import opened Cards

  /** Non-decreasing under compareTo. */
  predicate Sorted(s: seq<Card>) {
    forall i, j :: 0 <= i < j < |s| ==> CompareTo(s[i], s[j]) <= 0
  }

  /** No two identical (suit, rank) pairs. */
  predicate Distinct(s: seq<Card>) {
    forall i, j :: 0 <= i < j < |s| ==> s[i] != s[j]
  }

  function Insert(c: Card, s: seq<Card>): (r: seq<Card>)
    ensures multiset(r) == multiset(s) + multiset{c}
    ensures |r| == |s| + 1
  {
    if s == [] then [c]
    else if CompareTo(c, s[0]) <= 0 then [c] + s
    else
      assert s == [s[0]] + s[1..];
      [s[0]] + Insert(c, s[1..])
  }

  /** A card at or below every card of a sorted list can go in front of it. */
  lemma ConsSorted(x: Card, s: seq<Card>)
    requires Sorted(s)
    requires forall k :: 0 <= k < |s| ==> CompareTo(x, s[k]) <= 0
    ensures Sorted([x] + s)
  {
    var r := [x] + s;
    forall i, j | 0 <= i < j < |r| ensures CompareTo(r[i], r[j]) <= 0 {
      assert r[j] == s[j - 1];
      if i > 0 {
        assert r[i] == s[i - 1];
      }
    }
  }

  /** Inserting into a sorted list keeps it sorted. */
  lemma {:induction false} InsertSorted(c: Card, s: seq<Card>)
    requires Sorted(s)
    ensures Sorted(Insert(c, s))
  {
    if s == [] {
    } else if CompareTo(c, s[0]) <= 0 {
      forall k | 0 <= k < |s| ensures CompareTo(c, s[k]) <= 0 {
        CompareTransitive(c, s[0], s[k]);
      }
      ConsSorted(c, s);
    } else {
      var tail := s[1..];
      assert s == [s[0]] + tail;
      assert Sorted(tail) by {
        forall i, j | 0 <= i < j < |tail| ensures CompareTo(tail[i], tail[j]) <= 0 {
          assert tail[i] == s[i + 1] && tail[j] == s[j + 1];
        }
      }
      InsertSorted(c, tail);
      var rest := Insert(c, tail);
      forall k | 0 <= k < |rest| ensures CompareTo(s[0], rest[k]) <= 0 {
        var x := rest[k];
        assert x in multiset(rest);
        if x != c {
          assert x in multiset(tail);
          var m :| 0 <= m < |tail| && tail[m] == x;
          assert s[m + 1] == x;
        } else {
          CompareAntisymmetric(c, s[0]);
        }
      }
      ConsSorted(s[0], rest);
    }
  }

  /** CardList.sort, modelled by an insertion sort by compareTo; SortedUnique makes every such sort agree. */
  function SortCards(s: seq<Card>): (r: seq<Card>)
    ensures Sorted(r)
    ensures multiset(r) == multiset(s)
    ensures |r| == |s|
  {
    if s == [] then []
    else
      assert s == [s[0]] + s[1..];
      InsertSorted(s[0], SortCards(s[1..]));
      Insert(s[0], SortCards(s[1..]))
  }

  /** The head of a sorted list lies at or below every member of it. */
  lemma SortedHeadIsLeast(s: seq<Card>, x: Card)
    requires Sorted(s) && x in s
    ensures CompareTo(s[0], x) <= 0
  {
    var k :| 0 <= k < |s| && s[k] == x;
  }

  lemma SortedTail(s: seq<Card>)
    requires Sorted(s) && s != []
    ensures Sorted(s[1..])
    ensures multiset(s[1..]) == multiset(s) - multiset{s[0]}
  {
    assert s == [s[0]] + s[1..];
    forall i, j | 0 <= i < j < |s[1..]| ensures CompareTo(s[1..][i], s[1..][j]) <= 0 {
      assert s[1..][i] == s[i + 1] && s[1..][j] == s[j + 1];
    }
  }

  /** Two sorted arrangements of one multiset start with the same card. */
  lemma SortedHeads(s: seq<Card>, t: seq<Card>)
    requires Sorted(s) && Sorted(t) && s != []
    requires multiset(s) == multiset(t)
    ensures t != [] && s[0] == t[0]
  {
    assert s[0] in multiset(t);
    assert t != [];
    assert t[0] in multiset(s);
    SortedHeadIsLeast(s, t[0]);
    SortedHeadIsLeast(t, s[0]);
    CompareAntisymmetric(s[0], t[0]);
  }

  /** There is only one sorted arrangement of a multiset of cards. */
  lemma {:induction false} SortedUnique(s: seq<Card>, t: seq<Card>)
    requires Sorted(s) && Sorted(t)
    requires multiset(s) == multiset(t)
    ensures s == t
    decreases |s|
  {
    if s == [] {
      assert |multiset(t)| == 0;
    } else {
      SortedHeads(s, t);
      SortedTail(s);
      SortedTail(t);
      SortedUnique(s[1..], t[1..]);
      assert s == [s[0]] + s[1..] && t == [t[0]] + t[1..];
    }
  }

  /** Sorting a sorted list changes nothing. */
  lemma SortCardsOfSorted(s: seq<Card>)
    requires Sorted(s)
    ensures SortCards(s) == s
  {
    SortedUnique(SortCards(s), s);
  }

  /** Lists with the same cards sort to the same list. */
  lemma SortCardsOfPermutation(s: seq<Card>, t: seq<Card>)
    requires multiset(s) == multiset(t)
    ensures SortCards(s) == SortCards(t)
  {
    SortedUnique(SortCards(s), SortCards(t));
  }

  lemma SortCardsIdempotent(s: seq<Card>)
    ensures SortCards(SortCards(s)) == SortCards(s)
  {
    SortCardsOfSorted(SortCards(s));
  }

  /** Membership is preserved by a permutation. */
  lemma PermutationMembers(s: seq<Card>, t: seq<Card>)
    requires multiset(s) == multiset(t)
    ensures forall x :: x in s <==> x in t
  {
    forall x ensures x in s <==> x in t {
      assert x in s <==> x in multiset(s);
      assert x in t <==> x in multiset(t);
    }
  }

  /** A distinct list holds each of its cards exactly once. */
  lemma {:induction false} DistinctCount(s: seq<Card>, x: Card)
    requires Distinct(s)
    ensures multiset(s)[x] == if x in s then 1 else 0
  {
    if s != [] {
      assert s == [s[0]] + s[1..];
      assert Distinct(s[1..]) by {
        forall i, j | 0 <= i < j < |s[1..]| ensures s[1..][i] != s[1..][j] {
          assert s[1..][i] == s[i + 1] && s[1..][j] == s[j + 1];
        }
      }
      DistinctCount(s[1..], x);
    }
  }

  /** A list in which every card occurs at most once is distinct. */
  lemma CountOneDistinct(s: seq<Card>)
    requires forall x :: multiset(s)[x] <= 1
    ensures Distinct(s)
  {
    forall i, j | 0 <= i < j < |s| ensures s[i] != s[j] {
      assert s == s[..j] + s[j..];
      assert multiset(s)[s[j]] == multiset(s[..j])[s[j]] + multiset(s[j..])[s[j]];
      assert s[j..][0] == s[j];
      assert multiset(s[j..])[s[j]] >= 1;
      assert s[..j][i] == s[i];
      assert multiset(s[..j])[s[i]] >= 1;
    }
  }

  /** Distinctness depends only on the cards, not on their order. */
  lemma DistinctPermutation(s: seq<Card>, t: seq<Card>)
    requires Distinct(s) && multiset(s) == multiset(t)
    ensures Distinct(t)
  {
    forall x ensures multiset(t)[x] <= 1 {
      DistinctCount(s, x);
    }
    CountOneDistinct(t);
  }

  /** The number of cards of rank r. */
  function RankCount(s: seq<Card>, r: Rank): (n: nat)
    ensures n <= |s|
  {
    if s == [] then 0
    else (if s[0].rank == r then 1 else 0) + RankCount(s[1..], r)
  }

  /** The rank count is the sum of the four (suit, rank) multiplicities. */
  lemma {:induction false} RankCountBySuits(s: seq<Card>, r: Rank)
    ensures RankCount(s, r) == multiset(s)[Card(0, r)] + multiset(s)[Card(1, r)]
                             + multiset(s)[Card(2, r)] + multiset(s)[Card(3, r)]
  {
    if s != [] {
      assert s == [s[0]] + s[1..];
      RankCountBySuits(s[1..], r);
    }
  }

  lemma RankCountPermutation(s: seq<Card>, t: seq<Card>, r: Rank)
    requires multiset(s) == multiset(t)
    ensures RankCount(s, r) == RankCount(t, r)
  {
    RankCountBySuits(s, r);
    RankCountBySuits(t, r);
  }

  /** The rank count of a five-card list, position by position. */
  lemma RankCountFive(s: seq<Card>, r: Rank)
    requires |s| == 5
    ensures RankCount(s, r) == (if s[0].rank == r then 1 else 0) + (if s[1].rank == r then 1 else 0)
                             + (if s[2].rank == r then 1 else 0) + (if s[3].rank == r then 1 else 0)
                             + (if s[4].rank == r then 1 else 0)
  {
    var s1, s2, s3, s4 := s[1..], s[2..], s[3..], s[4..];
    assert s1[1..] == s2 && s2[1..] == s3 && s3[1..] == s4 && s4[1..] == [];
    assert RankCount(s4, r) == if s[4].rank == r then 1 else 0;
    assert RankCount(s3, r) == (if s[3].rank == r then 1 else 0) + RankCount(s4, r);
    assert RankCount(s2, r) == (if s[2].rank == r then 1 else 0) + RankCount(s3, r);
    assert RankCount(s1, r) == (if s[1].rank == r then 1 else 0) + RankCount(s2, r);
  }

  /** CardList.removeCard: drop the first card equal to c, if any. */
  function RemoveCard(s: seq<Card>, c: Card): (r: seq<Card>)
    ensures multiset(r) == multiset(s) - multiset{c}
    ensures |r| == if c in s then |s| - 1 else |s|
  {
    if s == [] then []
    else if s[0] == c then
      assert s == [s[0]] + s[1..];
      s[1..]
    else
      assert s == [s[0]] + s[1..];
      [s[0]] + RemoveCard(s[1..], c)
  }

  /** CardList.removeCards: remove each card of t in turn. */
  function RemoveCards(s: seq<Card>, t: seq<Card>): (r: seq<Card>)
    ensures multiset(r) == multiset(s) - multiset(t)
    decreases |t|
  {
    if t == [] then s
    else
      assert t == [t[0]] + t[1..];
      RemoveCards(RemoveCard(s, t[0]), t[1..])
  }

  /** Removing cards that are all held leaves one card fewer for each. */
  lemma RemoveCardsSize(s: seq<Card>, t: seq<Card>)
    requires multiset(t) <= multiset(s)
    ensures |RemoveCards(s, t)| == |s| - |t|
    ensures multiset(RemoveCards(s, t)) + multiset(t) == multiset(s)
  {
    var r := RemoveCards(s, t);
    assert multiset(r) + multiset(t) == multiset(s);
    assert |multiset(r) + multiset(t)| == |multiset(r)| + |multiset(t)|;
  }

  /** removeCard keeps the other cards in their order, so a sorted list stays sorted. */
  lemma {:induction false} RemoveCardSorted(s: seq<Card>, c: Card)
    requires Sorted(s)
    ensures Sorted(RemoveCard(s, c))
  {
    if s != [] {
      SortedTail(s);
      if s[0] != c {
        var r := RemoveCard(s[1..], c);
        RemoveCardSorted(s[1..], c);
        forall k | 0 <= k < |r| ensures CompareTo(s[0], r[k]) <= 0 {
          assert r[k] in multiset(r);
          assert r[k] in s;
          SortedHeadIsLeast(s, r[k]);
        }
        ConsSorted(s[0], r);
      }
    }
  }

  /** removeCards keeps a sorted hand sorted. */
  lemma {:induction false} RemoveCardsSorted(s: seq<Card>, t: seq<Card>)
    requires Sorted(s)
    ensures Sorted(RemoveCards(s, t))
    decreases |t|
  {
    if t != [] {
      RemoveCardSorted(s, t[0]);
      RemoveCardsSorted(RemoveCard(s, t[0]), t[1..]);
    }
  }

  /** Indices that are strictly increasing and each below n (what a selection produces). */
  predicate IncreasingWithin(idx: seq<int>, n: int) {
    (forall k :: 0 <= k < |idx| ==> 0 <= idx[k] < n) &&
    (forall k, l :: 0 <= k < l < |idx| ==> idx[k] < idx[l])
  }

  /** The cards of s at the given indices, in the order of the indices. */
  function Pick(s: seq<Card>, idx: seq<int>): (r: seq<Card>)
    requires forall k :: 0 <= k < |idx| ==> 0 <= idx[k] < |s|
    ensures |r| == |idx|
    ensures forall k :: 0 <= k < |idx| ==> r[k] == s[idx[k]]
  {
    seq(|idx|, k requires 0 <= k < |idx| => s[idx[k]])
  }

  lemma FrontWithin(idx: seq<int>, n: int)
    requires idx != [] && IncreasingWithin(idx, n)
    ensures IncreasingWithin(idx[..|idx| - 1], idx[|idx| - 1])
  {
    var m := |idx| - 1;
    assert forall k :: 0 <= k < m ==> idx[..m][k] == idx[k];
  }

  lemma PickSnoc(s: seq<Card>, idx: seq<int>)
    requires idx != [] && IncreasingWithin(idx, |s|)
    ensures IncreasingWithin(idx[..|idx| - 1], idx[|idx| - 1])
    ensures Pick(s, idx) == Pick(s[..idx[|idx| - 1]], idx[..|idx| - 1]) + [s[idx[|idx| - 1]]]
  {
    FrontWithin(idx, |s|);
    var n := |idx| - 1;
    var last, front := idx[n], idx[..n];
    var t := s[..last];
    var q := Pick(t, front);
    var p := q + [s[last]];
    var r := Pick(s, idx);
    forall k | 0 <= k < |idx| ensures r[k] == p[k] {
      if k < n {
        assert q[k] == t[front[k]];
        assert front[k] == idx[k];
      }
    }
  }

  /** Distinct indices pick a sub-multiset of the list. */
  lemma {:induction false} PickSubMultiset(s: seq<Card>, idx: seq<int>)
    requires IncreasingWithin(idx, |s|)
    ensures multiset(Pick(s, idx)) <= multiset(s)
    decreases |idx|
  {
    if idx != [] {
      var n := |idx| - 1;
      var last, front := idx[n], idx[..n];
      PickSnoc(s, idx);
      PickSubMultiset(s[..last], front);
      var m := multiset(Pick(s[..last], front));
      assert multiset(Pick(s, idx)) == m + multiset{s[last]};
      assert s == s[..last] + [s[last]] + s[last + 1..];
      assert multiset(s) == multiset(s[..last]) + multiset{s[last]} + multiset(s[last + 1..]);
    }
  }

  /** Distinct indices into a distinct list pick distinct cards. */
  lemma PickDistinct(s: seq<Card>, idx: seq<int>)
    requires IncreasingWithin(idx, |s|) && Distinct(s)
    ensures Distinct(Pick(s, idx))
  {
    var p := Pick(s, idx);
    forall i, j | 0 <= i < j < |p| ensures p[i] != p[j] {
      assert idx[i] < idx[j];
    }
  }
}
