/**
 * A deck is a JavaScript `Map` from card id to number of copies. The model keeps the map as the
 * list of its entries in insertion (iteration) order, so that the order in which `makeIdArray`
 * expands it is explicit. `Map.set` on an existing key keeps the entry in place; `Map.delete`
 * drops it.
 */
module Decks {

  /** Card ids are opaque strings resolved by the card catalog, which is not part of this model. */
  type CardId = string

  datatype Entry = Entry(id: CardId, copies: nat)

  type Deck = seq<Entry>

  /** The invariant of a deck map: keys are distinct and every stored count is positive. */
  predicate WellFormed(d: Deck) {
    && (forall i :: 0 <= i < |d| ==> d[i].copies > 0)
    && (forall i, j :: 0 <= i < j < |d| ==> d[i].id != d[j].id)
  }

  predicate HasId(d: Deck, id: CardId) {
    exists i :: 0 <= i < |d| && d[i].id == id
  }

  /** `sum(deck.values())`: the number of cards in the deck. */
  function Total(d: Deck): nat {
    if d == [] then 0 else Total(d[..|d| - 1]) + d[|d| - 1].copies
  }

  function Repeat(id: CardId, n: nat): seq<CardId> {
    seq(n, _ => id)
  }

  /** The flat list of ids of a deck: each entry's id repeated its count, entries in map order. */
  function Expand(d: Deck): seq<CardId> {
    if d == [] then [] else Expand(d[..|d| - 1]) + Repeat(d[|d| - 1].id, d[|d| - 1].copies)
  }

  /** `deck.has(id) ? deck.get(id) : 0`. */
  function CopiesOf(d: Deck, id: CardId): nat {
    if d == [] then 0 else if d[0].id == id then d[0].copies else CopiesOf(d[1..], id)
  }

  /** One step of `excludeCards`: a count above 1 is decremented in place, otherwise the key is deleted. */
  function RemoveOne(d: Deck, id: CardId): Deck {
    if d == [] then []
    else if d[0].id == id then
      if d[0].copies > 1 then [Entry(id, d[0].copies - 1)] + d[1..] else d[1..]
    else [d[0]] + RemoveOne(d[1..], id)
  }

  /** `excludeCards(cards, deck)`: one `RemoveOne` per element of `cards`, in order. */
  function Exclude(cards: seq<CardId>, d: Deck): Deck {
    if cards == [] then d else Exclude(cards[1..], RemoveOne(d, cards[0]))
  }

  // ---------------------------------------------------------------------------------------------
  // Expansion

  lemma {:induction false} ExpandConcat(a: Deck, b: Deck)
    ensures Expand(a + b) == Expand(a) + Expand(b)
    decreases |b|
  {
    if b == [] {
      assert a + b == a;
    } else {
      var b' := b[..|b| - 1];
      assert (a + b)[..|a + b| - 1] == a + b';
      ExpandConcat(a, b');
    }
  }

  lemma ExpandCons(e: Entry, rest: Deck)
    ensures Expand([e] + rest) == Repeat(e.id, e.copies) + Expand(rest)
  {
    ExpandConcat([e], rest);
    assert [e][..0] == [];
  }

  lemma {:induction false} RepeatCount(id: CardId, n: nat, x: CardId)
    ensures multiset(Repeat(id, n))[x] == if x == id then n else 0
  {
    if n > 0 {
      assert Repeat(id, n) == Repeat(id, n - 1) + [id];
      RepeatCount(id, n - 1, x);
    }
  }

  /** The expansion has exactly as many ids as the deck has cards. */
  lemma {:induction false} ExpandLength(d: Deck)
    ensures |Expand(d)| == Total(d)
  {
    if d != [] {
      ExpandLength(d[..|d| - 1]);
    }
  }

  lemma {:induction false} CopiesOfAbsent(d: Deck, id: CardId)
    requires forall i :: 0 <= i < |d| ==> d[i].id != id
    ensures CopiesOf(d, id) == 0
  {
    if d != [] {
      CopiesOfAbsent(d[1..], id);
    }
  }

  /** In a well-formed deck each id occurs in the expansion exactly its count. */
  lemma {:induction false} ExpandCount(d: Deck, id: CardId)
    requires WellFormed(d)
    ensures multiset(Expand(d))[id] == CopiesOf(d, id)
  {
    if d != [] {
      assert d == [d[0]] + d[1..];
      ExpandCons(d[0], d[1..]);
      RepeatCount(d[0].id, d[0].copies, id);
      ExpandCount(d[1..], id);
      if d[0].id == id {
        CopiesOfAbsent(d[1..], id);
      }
    }
  }

  /** A key is present in a well-formed deck exactly when its counter is positive. */
  lemma {:induction false} HasIdIffCopies(d: Deck, id: CardId)
    requires WellFormed(d)
    ensures HasId(d, id) <==> CopiesOf(d, id) > 0
  {
    if d != [] {
      HasIdIffCopies(d[1..], id);
      if d[0].id != id && HasId(d, id) {
        var i :| 0 <= i < |d| && d[i].id == id;
        assert d[1..][i - 1].id == id;
      }
      if d[0].id != id && HasId(d[1..], id) {
        var i :| 0 <= i < |d[1..]| && d[1..][i].id == id;
        assert d[i + 1].id == id;
      }
    }
  }

  // ---------------------------------------------------------------------------------------------
  // Removing copies

  lemma {:induction false} RemoveOneIds(d: Deck, x: CardId, y: CardId)
    requires forall i :: 0 <= i < |d| ==> d[i].id != y
    ensures forall i :: 0 <= i < |RemoveOne(d, x)| ==> RemoveOne(d, x)[i].id != y
  {
    if d != [] && d[0].id != x {
      RemoveOneIds(d[1..], x, y);
      var r := RemoveOne(d[1..], x);
      assert RemoveOne(d, x) == [d[0]] + r;
    }
  }

  /** A deck with a first entry is well formed when that entry and the rest are, and its key is new. */
  lemma WellFormedCons(e: Entry, rest: Deck)
    ensures WellFormed([e] + rest) <==>
      e.copies > 0 && WellFormed(rest) && forall i :: 0 <= i < |rest| ==> rest[i].id != e.id
  {
    var d := [e] + rest;
    if WellFormed(d) {
      forall i | 0 <= i < |rest| ensures rest[i].id != e.id && rest[i].copies > 0 {
        assert d[i + 1] == rest[i];
      }
      forall i, j | 0 <= i < j < |rest| ensures rest[i].id != rest[j].id {
        assert d[i + 1] == rest[i] && d[j + 1] == rest[j];
      }
    }
    if e.copies > 0 && WellFormed(rest) && forall i :: 0 <= i < |rest| ==> rest[i].id != e.id {
      forall i | 0 <= i < |d| ensures d[i].copies > 0 {
        if i > 0 { assert d[i] == rest[i - 1]; }
      }
      forall i, j | 0 <= i < j < |d| ensures d[i].id != d[j].id {
        assert d[j] == rest[j - 1];
        if i > 0 { assert d[i] == rest[i - 1]; }
      }
    }
  }

  /** Removing one copy keeps a deck well-formed: a count that would reach 0 is deleted, never stored. */
  lemma {:induction false} RemoveOneWellFormed(d: Deck, x: CardId)
    requires WellFormed(d)
    ensures WellFormed(RemoveOne(d, x))
  {
    if d != [] {
      var rest := d[1..];
      assert d == [d[0]] + rest;
      WellFormedCons(d[0], rest);
      if d[0].id == x {
        if d[0].copies > 1 {
          WellFormedCons(Entry(x, d[0].copies - 1), rest);
        }
      } else {
        var r := RemoveOne(rest, x);
        RemoveOneWellFormed(rest, x);
        RemoveOneIds(rest, x, d[0].id);
        assert RemoveOne(d, x) == [d[0]] + r;
        WellFormedCons(d[0], r);
      }
    }
  }

  /** Removing one copy of the first entry's card takes one occurrence of it out of the expansion. */
  lemma RemoveOneHead(e: Entry, rest: Deck)
    requires e.copies > 0
    ensures multiset(Expand([e] + rest)) == multiset(Expand(RemoveOne([e] + rest, e.id))) + multiset{e.id}
  {
    var x, c := e.id, e.copies;
    assert ([e] + rest)[1..] == rest;
    ExpandCons(e, rest);
    assert Repeat(x, c) == Repeat(x, c - 1) + [x];
    if c > 1 {
      ExpandCons(Entry(x, c - 1), rest);
    } else {
      assert Repeat(x, c - 1) == [];
    }
  }

  /** Removing one copy of a listed card takes exactly one occurrence of it out of the expansion. */
  lemma {:induction false} RemoveOnePresent(d: Deck, x: CardId)
    requires forall i :: 0 <= i < |d| ==> d[i].copies > 0
    requires HasId(d, x)
    ensures multiset(Expand(d)) == multiset(Expand(RemoveOne(d, x))) + multiset{x}
  {
    var rest := d[1..];
    assert d == [d[0]] + rest;
    if d[0].id == x {
      RemoveOneHead(d[0], rest);
    } else {
      var i :| 0 <= i < |d| && d[i].id == x;
      assert rest[i - 1].id == x;
      var r := RemoveOne(rest, x);
      RemoveOnePresent(rest, x);
      ExpandCons(d[0], rest);
      ExpandCons(d[0], r);
      assert RemoveOne(d, x) == [d[0]] + r;
      var head := multiset(Repeat(d[0].id, d[0].copies));
      assert multiset(Expand(d)) == head + multiset(Expand(rest));
      assert multiset(Expand(RemoveOne(d, x))) == head + multiset(Expand(r));
    }
  }

  /** Removing a card that is not in the deck leaves the deck as it was (`Map.delete` of no key). */
  lemma {:induction false} RemoveOneAbsent(d: Deck, x: CardId)
    requires !HasId(d, x)
    ensures RemoveOne(d, x) == d
  {
    if d != [] {
      assert d[0].id != x;
      RemoveOneAbsent(d[1..], x);
      assert d == [d[0]] + d[1..];
    }
  }

  /** Removing one copy takes exactly one occurrence of `x` out of the expansion, if there is one. */
  lemma RemoveOneExpand(d: Deck, x: CardId)
    requires WellFormed(d)
    ensures multiset(Expand(RemoveOne(d, x))) == multiset(Expand(d)) - multiset{x}
  {
    var m', m := multiset(Expand(RemoveOne(d, x))), multiset(Expand(d));
    if HasId(d, x) {
      RemoveOnePresent(d, x);
      assert m == m' + multiset{x};
      forall y ensures m'[y] == (m - multiset{x})[y] {
        assert m[y] == m'[y] + multiset{x}[y];
      }
    } else {
      RemoveOneAbsent(d, x);
      HasIdIffCopies(d, x);
      ExpandCount(d, x);
      assert m' == m && m[x] == 0;
      forall y ensures m'[y] == (m - multiset{x})[y] {
        if y == x {
          assert (m - multiset{x})[y] == 0;
        }
      }
    }
  }

  /** Taking out the first card, then the rest, takes out all of them. */
  lemma SubtractInTurn(m: multiset<CardId>, cards: seq<CardId>)
    requires cards != []
    ensures (m - multiset{cards[0]}) - multiset(cards[1..]) == m - multiset(cards)
  {
    var c, rest := cards[0], cards[1..];
    assert cards == [c] + rest;
    var mc, mr := multiset(cards), multiset(rest);
    forall x ensures ((m - multiset{c}) - mr)[x] == (m - mc)[x] {
      assert mc[x] == multiset{c}[x] + mr[x];
    }
  }

  /** `excludeCards` takes exactly the listed cards out of a well-formed deck (as multisets). */
  lemma {:induction false} ExcludeSpec(cards: seq<CardId>, d: Deck)
    requires WellFormed(d)
    ensures WellFormed(Exclude(cards, d))
    ensures multiset(Expand(Exclude(cards, d))) == multiset(Expand(d)) - multiset(cards)
  {
    if cards != [] {
      RemoveOneWellFormed(d, cards[0]);
      RemoveOneExpand(d, cards[0]);
      ExcludeSpec(cards[1..], RemoveOne(d, cards[0]));
      SubtractInTurn(multiset(Expand(d)), cards);
    }
  }

  /** Per id, the remaining count is the old count less the copies listed, never below zero. */
  lemma ExcludeCopies(cards: seq<CardId>, d: Deck, id: CardId)
    requires WellFormed(d)
    ensures CopiesOf(Exclude(cards, d), id)
         == if CopiesOf(d, id) > multiset(cards)[id] then CopiesOf(d, id) - multiset(cards)[id] else 0
  {
    ExcludeSpec(cards, d);
    ExpandCount(d, id);
    ExpandCount(Exclude(cards, d), id);
  }

  // ---------------------------------------------------------------------------------------------
  // The two loops of the source

  /** `makeIdArray`: the nested loops push each id once per copy, entries in map order. */
  method MakeIdArray(deck: Deck) returns (result: seq<CardId>)
    ensures result == Expand(deck)
    ensures |result| == Total(deck)
    ensures WellFormed(deck) ==> forall id :: multiset(result)[id] == CopiesOf(deck, id)
  {
    result := [];
    for k := 0 to |deck|
      invariant result == Expand(deck[..k])
    {
      var id, numCopies := deck[k].id, deck[k].copies;
      for i := 0 to numCopies
        invariant result == Expand(deck[..k]) + Repeat(id, i)
      {
        assert Repeat(id, i + 1) == Repeat(id, i) + [id];
        result := result + [id];
      }
      assert deck[..k + 1][..k] == deck[..k];
    }
    assert deck[..|deck|] == deck;
    ExpandLength(deck);
    forall id | WellFormed(deck) ensures multiset(result)[id] == CopiesOf(deck, id) {
      ExpandCount(deck, id);
    }
  }

  /** `excludeCards(array, deck)`, applied (as in the source) to a fresh copy of the deck. */
  method ExcludeCards(cards: seq<CardId>, deck: Deck) returns (result: Deck)
    ensures result == Exclude(cards, deck)
    ensures WellFormed(deck) ==> WellFormed(result)
    ensures WellFormed(deck) ==> multiset(Expand(result)) == multiset(Expand(deck)) - multiset(cards)
  {
    result := deck;
    for i := 0 to |cards|
      invariant Exclude(cards[i..], result) == Exclude(cards, deck)
    {
      assert cards[i..][0] == cards[i] && cards[i..][1..] == cards[i + 1..];
      result := RemoveOne(result, cards[i]);
    }
    assert cards[|cards|..] == [];
    if WellFormed(deck) {
      ExcludeSpec(cards, deck);
    }
  }
}
