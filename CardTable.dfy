/**
 * The card table: which rows the four filters show, and the per-deck counter with its minus
 * button.
 */
module CardTable {
  import opened Decks

  // ---------------------------------------------------------------------------------------------
  // Colours as bit sets

  function Pow2(k: nat): nat {
    if k == 0 then 1 else 2 * Pow2(k - 1)
  }

  /** Bit `k` of `x`. */
  function Bit(x: nat, k: nat): nat {
    if k == 0 then x % 2 else Bit(x / 2, k - 1)
  }

  /** The bitwise `&` of two non-negative numbers. */
  function BitAnd(a: nat, b: nat): nat {
    if a == 0 || b == 0 then 0
    else 2 * BitAnd(a / 2, b / 2) + (if a % 2 == 1 && b % 2 == 1 then 1 else 0)
  }

  lemma {:induction false} BitOfAnd(a: nat, b: nat, k: nat)
    ensures Bit(BitAnd(a, b), k) == if Bit(a, k) == 1 && Bit(b, k) == 1 then 1 else 0
  {
    if a == 0 || b == 0 {
      ZeroBits(k);
    } else if k > 0 {
      BitOfAnd(a / 2, b / 2, k - 1);
    }
  }

  lemma {:induction false} ZeroBits(k: nat)
    ensures Bit(0, k) == 0
  {
    if k > 0 {
      ZeroBits(k - 1);
    }
  }

  lemma {:induction false} BitIsBinary(x: nat, k: nat)
    ensures Bit(x, k) <= 1
  {
    if k > 0 {
      BitIsBinary(x / 2, k - 1);
    }
  }

  lemma NoBitsOfZero()
    ensures forall k: nat :: Bit(0, k) == 0
  {
    forall k: nat ensures Bit(0, k) == 0 {
      ZeroBits(k);
    }
  }

  /** Two numbers with the same bits are equal. */
  lemma {:induction false} BitsDetermine(x: nat, y: nat)
    requires forall k: nat :: Bit(x, k) == Bit(y, k)
    ensures x == y
    decreases x + y
  {
    assert Bit(x, 0) == Bit(y, 0);
    if x / 2 != x || y / 2 != y {
      forall k: nat ensures Bit(x / 2, k) == Bit(y / 2, k) {
        assert Bit(x, k + 1) == Bit(y, k + 1);
      }
      if x > 0 || y > 0 {
        BitsDetermine(x / 2, y / 2);
      }
    }
  }

  /** `(color & selected) === selected` holds exactly when every bit of `selected` is set in `color`. */
  lemma ColourCovers(color: nat, selected: nat)
    ensures BitAnd(color, selected) == selected <==>
            forall k: nat :: Bit(selected, k) == 1 ==> Bit(color, k) == 1
  {
    var both := BitAnd(color, selected);
    forall k: nat ensures Bit(both, k) == if Bit(color, k) == 1 && Bit(selected, k) == 1 then 1 else 0 {
      BitOfAnd(color, selected, k);
    }
    if forall k: nat :: Bit(selected, k) == 1 ==> Bit(color, k) == 1 {
      forall k: nat ensures Bit(both, k) == Bit(selected, k) {
        BitIsBinary(selected, k);
      }
      BitsDetermine(both, selected);
    } else {
      var k: nat :| Bit(selected, k) == 1 && Bit(color, k) != 1;
      assert Bit(both, k) != Bit(selected, k);
    }
  }

  lemma {:induction false} BitOfPow2(j: nat, k: nat)
    ensures Bit(Pow2(j), k) == if k == j then 1 else 0
  {
    if j > 0 && k > 0 {
      BitOfPow2(j - 1, k - 1);
    } else if j > 0 {
      assert Pow2(j) % 2 == 0 by { assert Pow2(j) == 2 * Pow2(j - 1); }
    } else if k > 0 {
      ZeroBits(k - 1);
    }
  }

  /** The colour buttons: "all" (0), then red, blue, green, yellow, purple, multicolour, colourless. */
  const ColourOptions: seq<nat> := [0, 1, 2, 4, 8, 16, 32, 64]

  /** Each colour button but "all" stands for one bit, and it keeps a card exactly when that bit is set. */
  lemma ColourOptionIsOneBit(i: nat, color: nat)
    requires 1 <= i < |ColourOptions|
    ensures ColourOptions[i] == Pow2(i - 1)
    ensures BitAnd(color, ColourOptions[i]) == ColourOptions[i] <==> Bit(color, i - 1) == 1
  {
    assert Pow2(1) == 2 && Pow2(2) == 4 && Pow2(3) == 8;
    assert Pow2(4) == 16 && Pow2(5) == 32 && Pow2(6) == 64;
    var p := Pow2(i - 1);
    ColourCovers(color, p);
    forall k: nat ensures Bit(p, k) == if k == i - 1 then 1 else 0 {
      BitOfPow2(i - 1, k);
    }
  }

  // ---------------------------------------------------------------------------------------------
  // The rows

  datatype CardRow = CardRow(id: CardId, expansion: nat, color: nat, cardType: nat, term: nat)

  /** The four selected filter values; 0 is "all" for each. */
  datatype Selection = Selection(expansion: nat, color: nat, cardType: nat, term: nat)

  /** `show` of `TableRowCard`. */
  function Show(card: CardRow, sel: Selection): (r: bool)
    ensures r <==>
      && (sel.expansion == 0 || card.expansion == sel.expansion)
      && (forall k: nat :: Bit(sel.color, k) == 1 ==> Bit(card.color, k) == 1)
      && (sel.cardType == 0 || card.cardType == sel.cardType)
      && (sel.term == 0 || card.term == sel.term)
  {
    ColourCovers(card.color, sel.color);
    NoBitsOfZero();
    && (sel.expansion == 0 || card.expansion == sel.expansion)
    && (sel.color == 0 || BitAnd(card.color, sel.color) == sel.color)
    && (sel.cardType == 0 || card.cardType == sel.cardType)
    && (sel.term == 0 || card.term == sel.term)
  }

  /** With every filter on "all" the whole table is shown. */
  lemma AllFiltersOff(card: CardRow)
    ensures Show(card, Selection(0, 0, 0, 0))
  {
    NoBitsOfZero();
  }

  /** Narrowing a filter from "all" to a value never shows more rows. */
  lemma NarrowingHides(card: CardRow, sel: Selection, sel': Selection)
    requires sel'.expansion == sel.expansion || sel.expansion == 0
    requires sel'.color == sel.color || sel.color == 0
    requires sel'.cardType == sel.cardType || sel.cardType == 0
    requires sel'.term == sel.term || sel.term == 0
    ensures Show(card, sel') ==> Show(card, sel)
  {
    NoBitsOfZero();
  }

  // ---------------------------------------------------------------------------------------------
  // The counter of `FormControlCounter`

  /** The minus button is disabled when `counter <= 0`, `counter` being `CopiesOf`. */
  function MinusDisabled(deck: Deck, id: CardId): (r: bool)
    ensures WellFormed(deck) ==> (r <==> !HasId(deck, id))
    ensures WellFormed(deck) ==> (r <==> id !in multiset(Expand(deck)))
  {
    if WellFormed(deck) then
      HasIdIffCopies(deck, id);
      ExpandCount(deck, id);
      CopiesOf(deck, id) <= 0
    else
      CopiesOf(deck, id) <= 0
  }
}
