/**
 * The saved-recipes tab: the pure list part of "deduplicate and reset ids", and the card count of
 * one part of a saved deck.
 */
module SavedDecks {
  import opened Wrappers
  import opened Decks

  /**
   * One stored recipe. `code` is `None` when the record has no code: every such record then
   * falls under one and the same key of the `Set` that tracks seen codes.
   */
  datatype SavedDeck = SavedDeck(
    id: int, key: int, code: Option<string>, timestamp: int, main: Deck, side: Deck)

  type Code = Option<string>

  /** Either the "nothing saved" alert, or the list written back and the list sent to the API. */
  datatype DedupOutcome =
    | NothingSaved
    | Rewritten(stored: seq<SavedDeck>, sent: seq<SavedDeck>)

  function Reverse(ds: seq<SavedDeck>): (r: seq<SavedDeck>)
    ensures |r| == |ds|
    ensures forall i :: 0 <= i < |ds| ==> r[i] == ds[|ds| - 1 - i]
  {
    if ds == [] then [] else Reverse(ds[1..]) + [ds[0]]
  }

  /** The codes that occur in a list. */
  function Codes(ds: seq<SavedDeck>): set<Code> {
    if ds == [] then {} else {ds[0].code} + Codes(ds[1..])
  }

  /** The `forEach` over the list with the `seenCodes` set: keep a deck whose code is not seen yet. */
  function KeepFirst(ds: seq<SavedDeck>, seen: set<Code>): seq<SavedDeck> {
    if ds == [] then []
    else if ds[0].code in seen then KeepFirst(ds[1..], seen)
    else [ds[0]] + KeepFirst(ds[1..], seen + {ds[0].code})
  }

  /** The position of the first deck with code `c`, or -1. */
  function FirstIndex(ds: seq<SavedDeck>, c: Code): (r: int)
    ensures -1 <= r < |ds|
    ensures r == -1 <==> c !in Codes(ds)
    ensures r >= 0 ==> ds[r].code == c && forall j :: 0 <= j < r ==> ds[j].code != c
  {
    if ds == [] then -1
    else if ds[0].code == c then 0
    else
      var r := FirstIndex(ds[1..], c);
      if r == -1 then -1 else r + 1
  }

  /** The `map` that writes the kept decks back: ids and keys become 1, 2, ..., the rest is copied. */
  function Renumber(ds: seq<SavedDeck>): seq<SavedDeck> {
    seq(|ds|, i requires 0 <= i < |ds| => ds[i].(id := i + 1, key := i + 1))
  }

  /**
   * `handleDeduplicateAndResetIds` on the live query's list (`undefined` before it has loaded,
   * in descending id order after): reverse it, keep the first deck per code, write the kept decks
   * back renumbered, and send the kept decks (with their old ids) to the API.
   */
  function Deduplicate(decksSaved: Option<seq<SavedDeck>>): DedupOutcome {
    if decksSaved.None? || |decksSaved.value| == 0 then NothingSaved
    else
      var unique := KeepFirst(Reverse(decksSaved.value), {});
      Rewritten(Renumber(unique), unique)
  }

  // ---------------------------------------------------------------------------------------------
  // What keeping the first deck per code achieves

  lemma {:induction false} CodesIndex(ds: seq<SavedDeck>, c: Code)
    ensures c in Codes(ds) <==> exists i :: 0 <= i < |ds| && ds[i].code == c
  {
    if ds != [] {
      CodesIndex(ds[1..], c);
      if c in Codes(ds[1..]) {
        var i :| 0 <= i < |ds[1..]| && ds[1..][i].code == c;
        assert ds[i + 1].code == c;
      }
      if exists i :: 0 <= i < |ds| && ds[i].code == c {
        var i :| 0 <= i < |ds| && ds[i].code == c;
        if i > 0 {
          assert ds[1..][i - 1].code == c;
        }
      }
    }
  }

  /** The kept decks are at most the input and cover exactly the codes not seen before. */
  lemma {:induction false} KeepFirstCodes(ds: seq<SavedDeck>, seen: set<Code>)
    ensures var r := KeepFirst(ds, seen);
      |r| <= |ds| && Codes(r) == Codes(ds) - seen
  {
    if ds != [] {
      var d, rest := ds[0], ds[1..];
      if d.code in seen {
        KeepFirstCodes(rest, seen);
      } else {
        var tail := KeepFirst(rest, seen + {d.code});
        KeepFirstCodes(rest, seen + {d.code});
        assert KeepFirst(ds, seen) == [d] + tail;
        assert Codes([d] + tail) == {d.code} + Codes(tail);
      }
    }
  }

  /** Each kept deck is the first deck of its code, unseen before, in first-occurrence order. */
  lemma {:induction false} KeepFirstPicks(ds: seq<SavedDeck>, seen: set<Code>)
    ensures forall k :: 0 <= k < |KeepFirst(ds, seen)| ==>
      && KeepFirst(ds, seen)[k].code !in seen
      && 0 <= FirstIndex(ds, KeepFirst(ds, seen)[k].code)
      && ds[FirstIndex(ds, KeepFirst(ds, seen)[k].code)] == KeepFirst(ds, seen)[k]
    ensures forall k1, k2 :: 0 <= k1 < k2 < |KeepFirst(ds, seen)| ==>
      FirstIndex(ds, KeepFirst(ds, seen)[k1].code) < FirstIndex(ds, KeepFirst(ds, seen)[k2].code)
  {
    if ds != [] {
      var r := KeepFirst(ds, seen);
      var d, rest := ds[0], ds[1..];
      if d.code in seen {
        KeepFirstPicks(rest, seen);
        forall k | 0 <= k < |r| ensures FirstIndex(ds, r[k].code) == FirstIndex(rest, r[k].code) + 1 {
        }
      } else {
        var seen' := seen + {d.code};
        KeepFirstPicks(rest, seen');
        var tail := KeepFirst(rest, seen');
        assert r == [d] + tail;
        assert FirstIndex(ds, d.code) == 0;
        forall k | 0 <= k < |tail|
          ensures FirstIndex(ds, tail[k].code) == FirstIndex(rest, tail[k].code) + 1
        {
          assert tail[k].code != d.code;
        }
      }
    }
  }

  /**
   * The kept decks cover exactly the codes not seen before, each kept deck is the first deck of
   * its code, and they come in the order their codes first occur; so no code is kept twice.
   */
  lemma KeepFirstSpec(ds: seq<SavedDeck>, seen: set<Code>)
    ensures var r := KeepFirst(ds, seen);
      && |r| <= |ds|
      && Codes(r) == Codes(ds) - seen
      && (forall k :: 0 <= k < |r| ==>
            r[k].code !in seen && 0 <= FirstIndex(ds, r[k].code) && ds[FirstIndex(ds, r[k].code)] == r[k])
      && (forall k1, k2 :: 0 <= k1 < k2 < |r| ==>
            FirstIndex(ds, r[k1].code) < FirstIndex(ds, r[k2].code))
  {
    KeepFirstCodes(ds, seen);
    KeepFirstPicks(ds, seen);
  }

  /** No two kept decks share a code. */
  lemma KeepFirstDistinct(ds: seq<SavedDeck>)
    ensures var r := KeepFirst(ds, {});
      forall k1, k2 :: 0 <= k1 < k2 < |r| ==> r[k1].code != r[k2].code
  {
    KeepFirstSpec(ds, {});
  }

  /**
   * The live query lists decks by descending id. If the ids are indeed strictly decreasing,
   * deduplication keeps, for every code, the deck with the lowest id.
   */
  lemma KeepsOldestPerCode(decksSaved: seq<SavedDeck>)
    requires forall i, j :: 0 <= i < j < |decksSaved| ==> decksSaved[i].id > decksSaved[j].id
    ensures var unique := KeepFirst(Reverse(decksSaved), {});
      forall k, i :: 0 <= k < |unique| && 0 <= i < |decksSaved| && decksSaved[i].code == unique[k].code ==>
        unique[k].id <= decksSaved[i].id
  {
    var n, asc := |decksSaved|, Reverse(decksSaved);
    var unique := KeepFirst(asc, {});
    KeepFirstPicks(asc, {});
    forall k, i | 0 <= k < |unique| && 0 <= i < n && decksSaved[i].code == unique[k].code
      ensures unique[k].id <= decksSaved[i].id
    {
      var f := FirstIndex(asc, unique[k].code);
      var i' := n - 1 - i;
      assert asc[i'] == decksSaved[i];
      assert asc[f] == unique[k];
      assert f <= i';
      assert asc[f] == decksSaved[n - 1 - f];
      assert i <= n - 1 - f;
    }
  }

  /** The written-back decks carry ids and keys 1..n and are otherwise the kept decks. */
  lemma RenumberSpec(ds: seq<SavedDeck>)
    ensures var r := Renumber(ds);
      && |r| == |ds|
      && (forall i :: 0 <= i < |r| ==> r[i].id == i + 1 && r[i].key == i + 1)
      && (forall i :: 0 <= i < |r| ==>
            && r[i].code == ds[i].code && r[i].timestamp == ds[i].timestamp
            && r[i].main == ds[i].main && r[i].side == ds[i].side)
      && (forall i, j :: 0 <= i < j < |r| ==> r[i].id < r[j].id)
  {
  }

  /**
   * The alert is shown exactly for a missing or empty list; otherwise the stored list has one
   * deck per code of the input, ids 1..n, and the sent list is the same decks with their old ids.
   */
  lemma DeduplicateSpec(decksSaved: Option<seq<SavedDeck>>)
    ensures var o := Deduplicate(decksSaved);
      && (o.NothingSaved? <==> decksSaved.None? || |decksSaved.value| == 0)
      && (o.Rewritten? ==>
            && |o.stored| == |o.sent| <= |decksSaved.value|
            && Codes(o.sent) == Codes(decksSaved.value)
            && (forall k1, k2 :: 0 <= k1 < k2 < |o.stored| ==> o.stored[k1].code != o.stored[k2].code)
            && (forall i :: 0 <= i < |o.stored| ==>
                  o.stored[i].id == o.stored[i].key == i + 1
                  && o.stored[i] == o.sent[i].(id := i + 1, key := i + 1)))
  {
    if decksSaved.Some? && |decksSaved.value| > 0 {
      var ds := decksSaved.value;
      var unique := KeepFirst(Reverse(ds), {});
      KeepFirstSpec(Reverse(ds), {});
      ReverseCodes(ds);
      RenumberSpec(unique);
    }
  }

  lemma ReverseCodes(ds: seq<SavedDeck>)
    ensures Codes(Reverse(ds)) == Codes(ds)
  {
    forall c ensures c in Codes(Reverse(ds)) <==> c in Codes(ds) {
      CodesIndex(ds, c);
      CodesIndex(Reverse(ds), c);
      if c in Codes(ds) {
        var i :| 0 <= i < |ds| && ds[i].code == c;
        assert Reverse(ds)[|ds| - 1 - i].code == c;
      }
      if c in Codes(Reverse(ds)) {
        var i :| 0 <= i < |ds| && Reverse(ds)[i].code == c;
        assert ds[|ds| - 1 - i].code == c;
      }
    }
  }

  /** The handler's loop: `seenCodes` and `uniqueDecks` built deck by deck. */
  method DeduplicateAndResetIds(decksSaved: Option<seq<SavedDeck>>) returns (outcome: DedupOutcome)
    ensures outcome == Deduplicate(decksSaved)
  {
    if decksSaved.None? || |decksSaved.value| == 0 {
      return NothingSaved;
    }
    var reversed := Reverse(decksSaved.value);
    var uniqueDecks: seq<SavedDeck> := [];
    var seenCodes: set<Code> := {};
    for i := 0 to |reversed|
      invariant uniqueDecks + KeepFirst(reversed[i..], seenCodes) == KeepFirst(reversed, {})
    {
      var deck := reversed[i];
      assert reversed[i..] == [deck] + reversed[i + 1..];
      if deck.code !in seenCodes {
        seenCodes := seenCodes + {deck.code};
        uniqueDecks := uniqueDecks + [deck];
      }
    }
    assert reversed[|reversed|..] == [];
    outcome := Rewritten(Renumber(uniqueDecks), uniqueDecks);
  }

  // ---------------------------------------------------------------------------------------------
  // The heading of a saved deck's part

  /** `sum(deckSaved.values())`: as many as the part lists cards, copies counted. */
  function PartCount(part: Deck): (r: nat)
    ensures r == |Expand(part)|
  {
    ExpandLength(part);
    Total(part)
  }

  /** The heading's count is the sum of the per-card counts the part shows. */
  lemma PartCountCopies(part: Deck, id: CardId)
    requires WellFormed(part)
    ensures CopiesOf(part, id) <= PartCount(part)
    ensures CopiesOf(part, id) == multiset(Expand(part))[id]
  {
    ExpandCount(part, id);
    assert multiset(Expand(part))[id] <= |multiset(Expand(part))|;
  }
}
