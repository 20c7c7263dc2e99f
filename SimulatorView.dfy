/**
 * The simulator view as an object: one field per state hook (and the `logIdRef` counter, and the
 * log's queued updaters), one method per handler. Each handler method runs the handler and then
 * the render React performs after it, and is proved to move the fields exactly as the event's
 * function of `SimulatorState` says, and to keep the invariant proved there.
 */
module SimulatorView {
  import opened Wrappers
  import opened Decks
  import opened Shuffle
  import opened SimulatorState
  import opened SimulatorProperties

  /**
   * One side's block of `handleClickStart`: four guardians and six hand cards popped from the
   * indices left after `from` pops, then the library from a fresh copy of the deck without them.
   */
  method SetupSide(deck: Deck, idArray: seq<CardId>, randomIndices: seq<nat>,
                   ghost perm: seq<nat>, ghost from: nat)
      returns (deal: Deal, remaining: seq<nat>)
    requires from + 10 <= |perm|
    requires forall k :: 0 <= k < |perm| ==> perm[k] < |idArray|
    requires randomIndices == perm[..|perm| - from]
    ensures deal == DealSide(deck, idArray, perm, from)
    ensures remaining == perm[..|perm| - from - 10]
  {
    var guardians, hand, afterGuardians;
    guardians, afterGuardians := SetupGuardians(idArray, randomIndices);
    hand, remaining := SetupHands(idArray, afterGuardians);
    var n := |perm|;
    forall k | 0 <= k < 4 ensures guardians[k] == Popped(idArray, perm, from, 4)[k] {
      assert randomIndices[|randomIndices| - 1 - k] == perm[n - 1 - from - k];
    }
    forall k | 0 <= k < 6 ensures hand[k] == Popped(idArray, perm, from + 4, 6)[k] {
      assert afterGuardians[|afterGuardians| - 1 - k] == perm[n - 1 - (from + 4) - k];
    }
    assert guardians == Popped(idArray, perm, from, 4);
    assert hand == Popped(idArray, perm, from + 4, 6);
    var rest := ExcludeCards(hand, deck);
    rest := ExcludeCards(guardians, rest);
    var library := MakeIdArray(rest);
    deal := Deal(guardians, hand, library);
  }

  /**
   * The dealing part of `handleClickStart` once the deck holds enough cards: one expansion, one
   * shuffle of its positions, then the player's side and the enemy's from the indices left over.
   */
  method SetupMatch(deck: Deck, js: seq<nat>) returns (p: Deal, e: Deal)
    requires Total(deck) >= MinDeckSize && ValidOracle(js, Total(deck))
    ensures |Expand(deck)| == Total(deck)
    ensures p == DealSide(deck, Expand(deck), FisherYates(Total(deck), js), 0)
    ensures e == DealSide(deck, Expand(deck), FisherYates(Total(deck), js), 10)
  {
    var numCards := Total(deck);
    var idArray := MakeIdArray(deck);
    var randomIndices := MakeRandomIndices(numCards, js);
    ghost var perm := randomIndices;
    assert randomIndices == perm[..|perm| - 0];
    p, randomIndices := SetupSide(deck, idArray, randomIndices, perm, 0);
    e, randomIndices := SetupSide(deck, idArray, randomIndices, perm, 10);
  }

  class TabPaneSimulator {
    var player: Side
    var enemy: Side
    var magicPlacementRights: int
    var summonRights: int
    var turn: Turn
    var battleLog: seq<LogEntry>
    var queuedLog: seq<Message>
    var errorMessage: Option<ErrorMessage>
    var logIdRef: nat

    function State(): SimState
      reads this
    {
      SimState(player, enemy, magicPlacementRights, summonRights, turn, battleLog, queuedLog,
               errorMessage, logIdRef)
    }

    ghost predicate Valid()
      reads this
    {
      Invariant(State())
    }

    /** Mounting the view: every hook at its initial value, `useRef(0)`. */
    constructor ()
      ensures State() == InitialState() && Valid()
    {
      player, enemy := EmptySide, EmptySide;
      magicPlacementRights, summonRights := 1, 1;
      turn, battleLog, queuedLog, errorMessage, logIdRef := Player, [], [], None, 0;
    }

    /** `setBattleLog(prev => ...)` queues its updater; `logIdRef.current += 1` takes effect at once. */
    method Log(m: Message)
      modifies this
      ensures State() == QueueLog(old(State()), m)
    {
      queuedLog := queuedLog + [m];
      logIdRef := logIdRef + 1;
    }

    /**
     * The render after a handler: the queued updaters run one after the other, each appending its
     * message under `logIdRef.current` as the handler left it.
     */
    method Rerender()
      modifies this
      ensures State() == Rendered(old(State()))
    {
      var log := battleLog;
      var i := 0;
      while i < |queuedLog|
        invariant 0 <= i <= |queuedLog|
        invariant log == battleLog + SharingId(queuedLog[..i], logIdRef)
      {
        assert queuedLog[..i + 1] == queuedLog[..i] + [queuedLog[i]];
        log := log + [LogEntry(logIdRef, queuedLog[i])];
        i := i + 1;
      }
      assert queuedLog[..i] == queuedLog;
      battleLog, queuedLog := log, [];
    }

    method HandleClickReset() returns (action: Action)
      requires Valid()
      modifies this
      ensures (State(), action) == ClickReset(old(State()))
      ensures Valid()
    {
      player, enemy := EmptySide, EmptySide;
      magicPlacementRights, summonRights := 1, 1;
      turn, battleLog, queuedLog, errorMessage := Player, [], [], None;
      action := Reset;
    }

    /**
     * The deck prop and the shuffle's draws `js` come in as parameters. The indices are drawn
     * once, and the player's and then the enemy's piles pop them in turn.
     */
    method HandleClickStart(deck: Deck, js: seq<nat>) returns (action: Action)
      requires Valid()
      requires Total(deck) >= MinDeckSize ==> ValidOracle(js, Total(deck))
      modifies this
      ensures (State(), action) == ClickStart(old(State()), deck, js)
      ensures Valid()
    {
      ghost var s0 := State();
      if Total(deck) < MinDeckSize {
        return CheckMainDeck;
      }
      var p, e := SetupMatch(deck, js);
      player := WithDeal(player, p);
      enemy := WithDeal(enemy, e);
      action := Start;
      StartSetsDeals(s0, deck, js);
      assert State() == s0.(player := WithDeal(s0.player, p), enemy := WithDeal(s0.enemy, e));
      StartKeepsZones(s0, deck, js);
    }

    /**
     * The body of `handleClickNextTurn` as a closure of the render in which the turn was
     * `snapshot`: its branch follows the snapshot, not the field.
     */
    method NextTurnAs(snapshot: Turn)
      requires CanAdvance(State(), snapshot)
      modifies this
      ensures State() == Advance(old(State()), snapshot)
    {
      if snapshot == Player {
        magicPlacementRights, summonRights := 1, 1;
        if |player.library.value| > 0 {
          var newCard := player.library.value[0];
          player := player.(library := Some(player.library.value[1..]));
          player := player.(hand := Some(player.hand.value + [newCard]));
          Log(PlayerDrew);
        } else {
          Log(PlayerDeckExhausted);
        }
      } else {
        if |enemy.library.value| > 0 {
          var newCard := enemy.library.value[0];
          enemy := enemy.(library := Some(enemy.library.value[1..]));
          enemy := enemy.(hand := Some(enemy.hand.value + [newCard]));
          Log(EnemyDrew);
        } else {
          Log(EnemyDeckExhausted);
        }
        turn := Player;
        Log(EnemyTurnEnded);
      }
    }

    method HandleClickNextTurn()
      requires Valid() && CanAdvance(State(), turn)
      modifies this
      ensures State() == Step(old(State()), OnNextTurn)
      ensures Valid()
    {
      StepPreservesInvariant(State(), OnNextTurn);
      NextTurnAs(turn);
      Rerender();
    }

    /** The nested call to the next-turn handler still sees the turn of the render it came from. */
    method HandleEndPlayerTurn()
      requires Valid() && CanAdvance(State(), turn)
      modifies this
      ensures State() == Step(old(State()), OnEndTurn)
      ensures Valid()
    {
      StepPreservesInvariant(State(), OnEndTurn);
      var snapshot := turn;
      turn := Enemy;
      Log(PlayerTurnEnded);
      NextTurnAs(snapshot);
      Rerender();
    }

    method HandlePlayCard(card: CardId, zone: Zone)
      requires Valid() && (turn == Player ==> player.hand.Some?)
      modifies this
      ensures State() == Step(old(State()), OnPlayCard(card, zone))
      ensures Valid()
    {
      StepPreservesInvariant(State(), OnPlayCard(card, zone));
      PlayCardBody(card, zone);
      Rerender();
    }

    /** The body of `handlePlayCard`: its checks in order, each failure setting its error and returning. */
    method PlayCardBody(card: CardId, zone: Zone)
      requires turn == Player ==> player.hand.Some?
      modifies this
      ensures State() == PlayCard(old(State()), card, zone)
    {
      if turn != Player {
        errorMessage := Some(NotYourTurn);
        return;
      }
      var hand := player.hand.value;
      var cardIndex := IndexOf(hand, card);
      if cardIndex == -1 {
        errorMessage := Some(NotInHand);
        return;
      }
      if zone == MagicZone {
        if !HasRight(State(), MagicZone) {
          errorMessage := Some(NoMagicPlacementRight);
          return;
        }
        magicPlacementRights := magicPlacementRights - 1;
        player := player.(magicZone := player.magicZone + [card]);
        player := player.(hand := Some(RemoveAt(hand, cardIndex)));
        Log(PlacedInMagicZone(card));
      } else {
        if !HasRight(State(), Battlefield) {
          errorMessage := Some(NoSummonRight);
          return;
        }
        summonRights := summonRights - 1;
        player := player.(battlefield := player.battlefield + [card]);
        player := player.(hand := Some(RemoveAt(hand, cardIndex)));
        Log(SummonedToBattlefield(card));
      }
    }
  }
}
