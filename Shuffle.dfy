/**
 * The shuffle and deal helpers of the simulator: `makeRandomIndices` (a Fisher–Yates shuffle of
 * the indices 0..n-1) and `setupCards` (pop indices off the end and pick the ids they name).
 * `Math.random` is replaced by an oracle: `js[i]` is the value of
 * `Math.floor(Math.random() * (i + 1))` drawn at step `i`, so `js[i] <= i`.
 */
module Shuffle {
  import opened Decks

  function Iota(n: nat): seq<nat> {
    seq(n, i => i)
  }

  predicate IsPermutation(r: seq<nat>, n: nat) {
    |r| == n && multiset(r) == multiset(Iota(n))
  }

  /** What `Math.floor(Math.random() * (i + 1))` can return at each step `i < n`. */
  predicate ValidOracle(js: seq<nat>, n: nat) {
    |js| == n && forall i :: 0 <= i < n ==> js[i] <= i
  }

  /** `[a[i], a[j]] = [a[j], a[i]]`. */
  function Swap<T>(a: seq<T>, i: nat, j: nat): seq<T>
    requires i < |a| && j < |a|
  {
    a[i := a[j]][j := a[i]]
  }

  /** The swaps of the shuffle loop for `i = k - 1` down to `0`: they only rearrange `a`. */
  function SwapsDown<T>(a: seq<T>, k: nat, js: seq<nat>): (r: seq<T>)
    requires k <= |a| && k <= |js| && forall i :: 0 <= i < k ==> js[i] <= i
    ensures |r| == |a|
    ensures multiset(r) == multiset(a)
    decreases k
  {
    if k == 0 then a
    else
      var b := Swap(a, k - 1, js[k - 1]);
      assert multiset(b) == multiset(a);
      SwapsDown(b, k - 1, js)
  }

  /** The ids that the positions `p` name in `s`. */
  function Gather<T>(s: seq<T>, p: seq<nat>): seq<T>
    requires forall k :: 0 <= k < |p| ==> p[k] < |s|
  {
    seq(|p|, k requires 0 <= k < |p| => s[p[k]])
  }

  // ---------------------------------------------------------------------------------------------
  // The shuffle yields a permutation

  lemma {:induction false} IotaCount(n: nat, x: nat)
    ensures multiset(Iota(n))[x] == if x < n then 1 else 0
  {
    if n > 0 {
      assert Iota(n) == Iota(n - 1) + [n - 1];
      IotaCount(n - 1, x);
    }
  }

  lemma TwiceCounted(r: seq<nat>, i: nat, j: nat)
    requires i < j < |r| && r[i] == r[j]
    ensures multiset(r)[r[i]] >= 2
  {
    assert r == r[..i] + [r[i]] + r[i + 1..j] + [r[j]] + r[j + 1..];
  }

  /** A permutation of `0..n-1` holds each index below `n` exactly once. */
  lemma PermutationDistinct(r: seq<nat>, n: nat)
    requires IsPermutation(r, n)
    ensures forall i :: 0 <= i < n ==> r[i] < n
    ensures forall i, j :: 0 <= i < j < n ==> r[i] != r[j]
  {
    forall i | 0 <= i < n ensures r[i] < n {
      assert r[i] in multiset(r);
      IotaCount(n, r[i]);
    }
    forall i, j | 0 <= i < j < n ensures r[i] != r[j] {
      if r[i] == r[j] {
        TwiceCounted(r, i, j);
        IotaCount(n, r[i]);
      }
    }
  }

  /** The result of the shuffle loop, for every oracle: a permutation of `0..n-1`. */
  function FisherYates(n: nat, js: seq<nat>): (r: seq<nat>)
    requires ValidOracle(js, n)
    ensures IsPermutation(r, n)
    ensures forall i :: 0 <= i < n ==> r[i] < n
    ensures forall i, j :: 0 <= i < j < n ==> r[i] != r[j]
  {
    PermutationDistinct(SwapsDown<nat>(Iota(n), n, js), n);
    SwapsDown<nat>(Iota(n), n, js)
  }

  /** `makeRandomIndices(n)`: fill `0..n-1`, then swap from the top down with the oracle's choices. */
  method MakeRandomIndices(n: nat, js: seq<nat>) returns (r: seq<nat>)
    requires ValidOracle(js, n)
    ensures r == FisherYates(n, js)
    ensures IsPermutation(r, n)
  {
    var result := new nat[n];
    for i := 0 to n
      invariant forall k :: 0 <= k < i ==> result[k] == k
    {
      result[i] := i;
    }
    assert result[..] == Iota(n);
    ghost var shuffled := SwapsDown<nat>(Iota(n), n, js);
    var i: int := n - 1;
    while i >= 0
      invariant -1 <= i < n
      invariant SwapsDown<nat>(result[..], i + 1, js) == shuffled
    {
      var j := js[i];
      ghost var before := result[..];
      assert SwapsDown<nat>(before, i + 1, js) == SwapsDown<nat>(Swap<nat>(before, i, j), i, js);
      var t := result[i];
      result[i] := result[j];
      result[j] := t;
      assert result[..] == Swap<nat>(before, i, j);
      i := i - 1;
    }
    r := result[..];
    assert r == FisherYates(n, js);
  }

  // ---------------------------------------------------------------------------------------------
  // Picking ids through the shuffled indices permutes the ids

  lemma {:induction false} GatherSwapsDown<T>(s: seq<T>, a: seq<nat>, k: nat, js: seq<nat>)
    requires k <= |a| && k <= |js| && forall i :: 0 <= i < k ==> js[i] <= i
    requires forall m :: 0 <= m < |a| ==> a[m] < |s|
    ensures forall m :: 0 <= m < |a| ==> SwapsDown<nat>(a, k, js)[m] < |s|
    ensures forall m :: 0 <= m < |a| ==> s[SwapsDown<nat>(a, k, js)[m]] == SwapsDown(Gather(s, a), k, js)[m]
    decreases k
  {
    if k > 0 {
      var i, j := k - 1, js[k - 1];
      var b := Swap<nat>(a, i, j);
      var g := Gather(s, a);
      assert Gather(s, b) == Swap(g, i, j) by {
        forall m | 0 <= m < |a| ensures Gather(s, b)[m] == Swap(g, i, j)[m] {
          if m == j {
          } else if m == i {
          }
        }
      }
      GatherSwapsDown(s, b, i, js);
      assert SwapsDown<nat>(a, k, js) == SwapsDown<nat>(b, i, js);
      assert SwapsDown(g, k, js) == SwapsDown(Swap(g, i, j), i, js);
    }
  }

  /** The shuffled expansion `idArray[perm[0]], idArray[perm[1]], ...` holds the same ids as `idArray`. */
  lemma ShuffledIds(s: seq<CardId>, js: seq<nat>)
    requires ValidOracle(js, |s|)
    ensures multiset(Gather(s, FisherYates(|s|, js))) == multiset(s)
  {
    var n := |s|;
    assert Gather(s, Iota(n)) == s;
    GatherSwapsDown(s, Iota(n), n, js);
    assert Gather(s, FisherYates(n, js)) == SwapsDown(s, n, js);
  }

  // ---------------------------------------------------------------------------------------------
  // Dealing

  /** `setupCards(n, idArray, randomIndices)`: `n` times, pop the last index and take the id it names. */
  method SetupCards(n: nat, idArray: seq<CardId>, randomIndices: seq<nat>)
      returns (cards: seq<CardId>, remaining: seq<nat>)
    requires n <= |randomIndices|
    requires forall k :: 0 <= k < |randomIndices| ==> randomIndices[k] < |idArray|
    ensures remaining == randomIndices[..|randomIndices| - n]
    ensures |cards| == n
    ensures forall k :: 0 <= k < n ==> cards[k] == idArray[randomIndices[|randomIndices| - 1 - k]]
  {
    cards, remaining := [], randomIndices;
    for i := 0 to n
      invariant remaining == randomIndices[..|randomIndices| - i]
      invariant |cards| == i
      invariant forall k :: 0 <= k < i ==> cards[k] == idArray[randomIndices[|randomIndices| - 1 - k]]
    {
      var index := remaining[|remaining| - 1];
      remaining := remaining[..|remaining| - 1];
      cards := cards + [idArray[index]];
    }
  }

  /** `setupGuardians`: four cards. */
  method SetupGuardians(idArray: seq<CardId>, randomIndices: seq<nat>)
      returns (cards: seq<CardId>, remaining: seq<nat>)
    requires 4 <= |randomIndices|
    requires forall k :: 0 <= k < |randomIndices| ==> randomIndices[k] < |idArray|
    ensures remaining == randomIndices[..|randomIndices| - 4]
    ensures |cards| == 4
    ensures forall k :: 0 <= k < 4 ==> cards[k] == idArray[randomIndices[|randomIndices| - 1 - k]]
  {
    cards, remaining := SetupCards(4, idArray, randomIndices);
  }

  /** `setupHands`: six cards. */
  method SetupHands(idArray: seq<CardId>, randomIndices: seq<nat>)
      returns (cards: seq<CardId>, remaining: seq<nat>)
    requires 6 <= |randomIndices|
    requires forall k :: 0 <= k < |randomIndices| ==> randomIndices[k] < |idArray|
    ensures remaining == randomIndices[..|randomIndices| - 6]
    ensures |cards| == 6
    ensures forall k :: 0 <= k < 6 ==> cards[k] == idArray[randomIndices[|randomIndices| - 1 - k]]
  {
    cards, remaining := SetupCards(6, idArray, randomIndices);
  }
}
