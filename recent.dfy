/**
 * The most-recently-used list of channel names kept in the settings record
 * (`addToRecentChannels` in src/main.js). A list value is most recent first.
 */
module RecentChannels {

  /** How many channels the list keeps (`slice(0, 5)`). */
  const MaxRecent: nat := 5

  /** `list.filter(c => c !== channel)`: every occurrence of `c` removed, order kept. */
  function Without(list: seq<string>, c: string): (r: seq<string>)
    ensures |r| <= |list|
    ensures c !in r
    ensures forall x :: x in r <==> x in list && x != c
  {
    if list == [] then []
    else if list[0] == c then Without(list[1..], c)
    else [list[0]] + Without(list[1..], c)
  }

  /** Filtering keeps the count of every other channel and drops every `c`. */
  lemma {:induction false} WithoutCounts(list: seq<string>, c: string)
    ensures forall x :: x != c ==> multiset(Without(list, c))[x] == multiset(list)[x]
    ensures |Without(list, c)| == |list| - multiset(list)[c]
  {
    if list != [] {
      WithoutCounts(list[1..], c);
      assert list == [list[0]] + list[1..];
      if list[0] != c {
        assert Without(list, c) == [list[0]] + Without(list[1..], c);
      }
    }
  }

  /** The list after `addToRecentChannels(c)`: `c` moved (or put) in front, cut to `MaxRecent`. */
  function AddRecent(list: seq<string>, c: string): (r: seq<string>)
    ensures 0 < |r| <= MaxRecent
    ensures r[0] == c && c !in r[1..]
  {
    var moved := [c] + Without(list, c);
    if |moved| <= MaxRecent then moved
    else
      assert moved[..MaxRecent][1..] == Without(list, c)[..MaxRecent - 1];
      moved[..MaxRecent]
  }

  /** No channel occurs twice. */
  ghost predicate NoDuplicates(list: seq<string>)
  {
    forall x :: multiset(list)[x] <= 1
  }

  /** The invariant the list keeps while it is only changed by adding and clearing. */
  ghost predicate WellFormed(list: seq<string>)
  {
    |list| <= MaxRecent && NoDuplicates(list)
  }

  /** `a` is `b` with some entries dropped, the rest in the same relative order. */
  ghost predicate IsSubsequence(a: seq<string>, b: seq<string>)
    decreases |b|
  {
    if a == [] then true
    else if b == [] then false
    else (a[0] == b[0] && IsSubsequence(a[1..], b[1..])) || IsSubsequence(a, b[1..])
  }

  /** The list after adding each channel of `channels` in turn. */
  function AddAll(list: seq<string>, channels: seq<string>): seq<string>
    decreases |channels|
  {
    if channels == [] then list
    else AddAll(AddRecent(list, channels[0]), channels[1..])
  }

  lemma {:induction false} WithoutAbsent(list: seq<string>, c: string)
    requires c !in list
    ensures Without(list, c) == list
  {
    if list != [] {
      WithoutAbsent(list[1..], c);
      assert list == [list[0]] + list[1..];
    }
  }

  lemma {:induction false} WithoutIsSubsequence(list: seq<string>, c: string)
    ensures IsSubsequence(Without(list, c), list)
  {
    if list != [] {
      WithoutIsSubsequence(list[1..], c);
      var rest := Without(list[1..], c);
      if list[0] != c {
        assert ([list[0]] + rest)[1..] == rest;
      }
    }
  }

  lemma {:induction false} PrefixIsSubsequence(a: seq<string>, b: seq<string>, k: nat)
    requires k <= |a|
    requires IsSubsequence(a, b)
    ensures IsSubsequence(a[..k], b)
    decreases |b|
  {
    if k > 0 && b != [] {
      if a[0] == b[0] && IsSubsequence(a[1..], b[1..]) {
        PrefixIsSubsequence(a[1..], b[1..], k - 1);
        assert a[..k][1..] == a[1..][..k - 1];
      } else {
        PrefixIsSubsequence(a, b[1..], k);
      }
    }
  }

  lemma MultisetPrefix(s: seq<string>, k: nat)
    requires k <= |s|
    ensures multiset(s[..k]) <= multiset(s)
  {
    assert s == s[..k] + s[k..];
  }

  /**
   * After adding `c`, the entries behind `c` are entries of the old list in
   * their old relative order: nothing is invented and nothing is reordered.
   */
  lemma AddRecentKeepsOrder(list: seq<string>, c: string)
    ensures IsSubsequence(AddRecent(list, c)[1..], list)
  {
    var w := Without(list, c);
    var r := AddRecent(list, c);
    WithoutIsSubsequence(list, c);
    if |w| + 1 <= MaxRecent {
      assert r[1..] == w;
    } else {
      assert r[1..] == w[..MaxRecent - 1];
      PrefixIsSubsequence(w, list, MaxRecent - 1);
    }
  }

  /**
   * Eviction: on a list within the bound only its last (oldest) entry can
   * be dropped, and none is dropped when `c` was already present.
   */
  lemma AddRecentEvictsOnlyOldest(list: seq<string>, c: string)
    requires |list| <= MaxRecent
    ensures forall x :: x in AddRecent(list, c) ==> x == c || x in list
    ensures forall x :: x in list && x != list[|list| - 1] ==> x in AddRecent(list, c)
    ensures c in list ==> forall x :: x in list ==> x in AddRecent(list, c)
  {
    var w := Without(list, c);
    var r := AddRecent(list, c);
    WithoutCounts(list, c);
    if |w| + 1 > MaxRecent {
      assert multiset(list)[c] == 0;
      WithoutAbsent(list, c);
      assert r == [c] + list[..MaxRecent - 1];
      forall x | x in list && x != list[|list| - 1]
        ensures x in r
      {
        var i :| 0 <= i < |list| && list[i] == x;
        assert list[..MaxRecent - 1][i] == x;
      }
      forall x | x in r ensures x == c || x in list {
        if x != c {
          assert x in list[..MaxRecent - 1];
        }
      }
    } else {
      assert r == [c] + w;
    }
  }

  /** Adding `c` to a list without duplicates yields a list without duplicates. */
  lemma AddRecentKeepsNoDuplicates(list: seq<string>, c: string)
    requires NoDuplicates(list)
    ensures NoDuplicates(AddRecent(list, c))
  {
    var w := Without(list, c);
    var moved := [c] + w;
    var r := AddRecent(list, c);
    WithoutCounts(list, c);
    assert forall x :: multiset(moved)[x] <= 1 by {
      forall x ensures multiset(moved)[x] <= 1 {
        assert multiset(moved)[x] == multiset([c])[x] + multiset(w)[x];
        if x == c { assert multiset(w)[x] == 0; }
      }
    }
    if |moved| > MaxRecent {
      MultisetPrefix(moved, MaxRecent);
    }
    assert forall x :: multiset(r)[x] <= multiset(moved)[x];
  }

  /** Adding keeps the list within its bound and free of duplicates. */
  lemma AddRecentKeepsWellFormed(list: seq<string>, c: string)
    requires NoDuplicates(list)
    ensures WellFormed(AddRecent(list, c))
  {
    AddRecentKeepsNoDuplicates(list, c);
  }

  /** Adding the channel that is already in front changes nothing. */
  lemma AddRecentIdempotent(list: seq<string>, c: string)
    ensures AddRecent(AddRecent(list, c), c) == AddRecent(list, c)
  {
    var r := AddRecent(list, c);
    assert r == [r[0]] + r[1..];
    WithoutAbsent(r[1..], c);
    assert Without(r, c) == r[1..];
  }

  /** Whatever sequence of channels is added, a well-formed list stays well-formed. */
  lemma {:induction false} AddAllKeepsWellFormed(list: seq<string>, channels: seq<string>)
    requires WellFormed(list)
    ensures WellFormed(AddAll(list, channels))
    decreases |channels|
  {
    if channels != [] {
      AddRecentKeepsWellFormed(list, channels[0]);
      AddAllKeepsWellFormed(AddRecent(list, channels[0]), channels[1..]);
    }
  }

  /** Adding a channel that is not in the list puts it in front of the (cut) list. */
  lemma AddRecentFresh(list: seq<string>, c: string)
    requires c !in list
    ensures AddRecent(list, c)
         == if |list| < MaxRecent then [c] + list else [c] + list[..MaxRecent - 1]
  {
    WithoutAbsent(list, c);
  }

  /** Adding `c` and then `rest` is adding `[c] + rest`. */
  lemma AddAllStep(list: seq<string>, c: string, rest: seq<string>)
    ensures AddAll(list, [c] + rest) == AddAll(AddRecent(list, c), rest)
  {
    assert ([c] + rest)[1..] == rest;
  }

  /** A new channel added to a full list evicts its last (oldest) entry. */
  lemma AddRecentToFull(list: seq<string>, c: string)
    requires |list| == MaxRecent && c !in list
    ensures AddRecent(list, c) == [c, list[0], list[1], list[2], list[3]]
  {
    AddRecentFresh(list, c);
  }

  /** Five distinct channels added in turn to an empty list fill it, newest first. */
  lemma FiveChannelsFill(c1: string, c2: string, c3: string, c4: string, c5: string)
    requires c1 != c2 && c1 != c3 && c1 != c4 && c1 != c5
    requires c2 != c3 && c2 != c4 && c2 != c5
    requires c3 != c4 && c3 != c5
    requires c4 != c5
    ensures AddRecent([], c1) == [c1]
    ensures AddRecent([c1], c2) == [c2, c1]
    ensures AddRecent([c2, c1], c3) == [c3, c2, c1]
    ensures AddRecent([c3, c2, c1], c4) == [c4, c3, c2, c1]
    ensures AddRecent([c4, c3, c2, c1], c5) == [c5, c4, c3, c2, c1]
  {
    AddRecentFresh([], c1);
    AddRecentFresh([c1], c2);
    AddRecentFresh([c2, c1], c3);
    AddRecentFresh([c3, c2, c1], c4);
    AddRecentFresh([c4, c3, c2, c1], c5);
  }

  /**
   * Six distinct channels added in turn to an empty list: the list holds the
   * last five, newest first, and the first one is evicted.
   */
  lemma SixChannelsEvictFirst(c1: string, c2: string, c3: string, c4: string, c5: string, c6: string)
    requires c1 != c2 && c1 != c3 && c1 != c4 && c1 != c5 && c1 != c6
    requires c2 != c3 && c2 != c4 && c2 != c5 && c2 != c6
    requires c3 != c4 && c3 != c5 && c3 != c6
    requires c4 != c5 && c4 != c6
    requires c5 != c6
    ensures AddAll([], [c1, c2, c3, c4, c5, c6]) == [c6, c5, c4, c3, c2]
  {
    FiveChannelsFill(c1, c2, c3, c4, c5);
    AddRecentToFull([c5, c4, c3, c2, c1], c6);
    AddAllStep([c5, c4, c3, c2, c1], c6, []);
    AddAllStep([c4, c3, c2, c1], c5, [c6]);
    AddAllStep([c3, c2, c1], c4, [c5, c6]);
    AddAllStep([c2, c1], c3, [c4, c5, c6]);
    AddAllStep([c1], c2, [c3, c4, c5, c6]);
    AddAllStep([], c1, [c2, c3, c4, c5, c6]);
  }

  /** Re-adding an earlier channel moves it to the front instead of duplicating it. */
  lemma ReAddMovesToFront(c1: string, c2: string)
    requires c1 != c2
    ensures AddAll([], [c1, c2, c1]) == [c1, c2]
  {
    AddRecentFresh([], c1);
    AddRecentFresh([c1], c2);
    assert Without([c2, c1], c1) == [c2];
    AddAllStep([], c1, [c2, c1]);
    AddAllStep([c1], c2, [c1]);
    AddAllStep([c2, c1], c1, []);
  }
}
