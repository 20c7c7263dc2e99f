/** What the simulator's handlers promise, proved about the state functions of `SimulatorState`. */
module SimulatorProperties {
  import opened Wrappers
  import opened Decks
  import opened Shuffle
  import opened SimulatorState

  // ---------------------------------------------------------------------------------------------
  // Start: dealing

  lemma PoppedSplit(idArray: seq<CardId>, perm: seq<nat>, from: nat, c1: nat, c2: nat)
    requires from + c1 + c2 <= |perm|
    requires forall k :: 0 <= k < |perm| ==> perm[k] < |idArray|
    ensures Popped(idArray, perm, from, c1) + Popped(idArray, perm, from + c1, c2)
         == Popped(idArray, perm, from, c1 + c2)
  {
  }

  /** A sequence that lists `t[hi - 1]`, `t[hi - 2]`, ... holds the ids of the block ending at `hi`. */
  lemma {:induction false} BackwardsBlock(u: seq<CardId>, t: seq<CardId>, hi: nat)
    requires |u| <= hi <= |t|
    requires forall k :: 0 <= k < |u| ==> u[k] == t[hi - 1 - k]
    ensures multiset(u) == multiset(t[hi - |u| .. hi])
  {
    if u != [] {
      var m := |u| - 1;
      BackwardsBlock(u[..m], t, hi);
      assert u == u[..m] + [t[hi - |u|]];
      assert t[hi - |u| .. hi] == [t[hi - |u|]] + t[hi - m .. hi];
    }
  }

  /** The ids of `count` pops are those of a block of the shuffled expansion, read backwards. */
  lemma PoppedBlock(idArray: seq<CardId>, perm: seq<nat>, from: nat, count: nat)
    requires from + count <= |perm|
    requires forall k :: 0 <= k < |perm| ==> perm[k] < |idArray|
    ensures multiset(Popped(idArray, perm, from, count))
         == multiset(Gather(idArray, perm)[|perm| - from - count .. |perm| - from])
  {
    var n, t, u := |perm|, Gather(idArray, perm), Popped(idArray, perm, from, count);
    forall k | 0 <= k < count ensures u[k] == t[n - from - 1 - k] {
      assert u[k] == idArray[perm[n - 1 - from - k]];
    }
    BackwardsBlock(u, t, n - from);
  }

  /** Cards drawn from one block of the shuffled ids are among the ids. */
  lemma BlockIsSubMultiset(t: seq<CardId>, lo: nat, hi: nat)
    requires lo <= hi <= |t|
    ensures multiset(t[lo..hi]) <= multiset(t)
  {
    assert t == t[..lo] + t[lo..hi] + t[hi..];
  }

  lemma AddBack(m: multiset<CardId>, g: multiset<CardId>, h: multiset<CardId>)
    requires g + h <= m
    ensures g + h + ((m - h) - g) == m
  {
    assert forall x :: (g + h + ((m - h) - g))[x] == m[x];
  }

  /** Taking the hand, then the guardians, out of the deck leaves exactly the rest of it. */
  lemma LibraryCompletesDeal(deck: Deck, guardians: seq<CardId>, hand: seq<CardId>)
    requires WellFormed(deck)
    requires multiset(guardians + hand) <= multiset(Expand(deck))
    ensures multiset(guardians + hand + Expand(Exclude(guardians, Exclude(hand, deck))))
         == multiset(Expand(deck))
  {
    ExcludeSpec(hand, deck);
    ExcludeSpec(guardians, Exclude(hand, deck));
    AddBack(multiset(Expand(deck)), multiset(guardians), multiset(hand));
  }

  /** The ten cards of one side's deal are drawn from the expansion. */
  lemma DealTakenFromDeck(idArray: seq<CardId>, perm: seq<nat>, from: nat)
    requires from + 10 <= |perm|
    requires forall k :: 0 <= k < |perm| ==> perm[k] < |idArray|
    requires multiset(Gather(idArray, perm)) == multiset(idArray)
    ensures multiset(Popped(idArray, perm, from, 4) + Popped(idArray, perm, from + 4, 6))
         <= multiset(idArray)
  {
    var n, t := |perm|, Gather(idArray, perm);
    PoppedSplit(idArray, perm, from, 4, 6);
    PoppedBlock(idArray, perm, from, 10);
    BlockIsSubMultiset(t, n - from - 10, n - from);
  }

  lemma SameSize(a: seq<CardId>, b: seq<CardId>)
    requires multiset(a) == multiset(b)
    ensures |a| == |b|
  {
    assert |multiset(a)| == |a| && |multiset(b)| == |b|;
  }

  /**
   * One side's deal takes four guardians and six hand cards from one block of ten positions of the
   * shuffled expansion, and its library is what the deck holds besides them, in deck order.
   */
  lemma SideDealPartition(deck: Deck, perm: seq<nat>, from: nat)
    requires WellFormed(deck)
    requires |perm| == |Expand(deck)| && from + 10 <= |perm|
    requires forall k :: 0 <= k < |perm| ==> perm[k] < |Expand(deck)|
    requires multiset(Gather(Expand(deck), perm)) == multiset(Expand(deck))
    ensures var d := DealSide(deck, Expand(deck), perm, from);
      && |d.guardians| == 4 && |d.hand| == 6 && |d.library| == |perm| - 10
      && multiset(d.guardians + d.hand + d.library) == multiset(Expand(deck))
  {
    var idArray := Expand(deck);
    var d := DealSide(deck, idArray, perm, from);
    DealTakenFromDeck(idArray, perm, from);
    LibraryCompletesDeal(deck, d.guardians, d.hand);
    SameSize(d.guardians + d.hand + d.library, idArray);
  }

  /** Same hooks, apart from the three per side that `handleClickStart` sets. */
  predicate SameButDeal(r: SimState, s: SimState) {
    && r == s.(player := r.player, enemy := r.enemy)
    && r.player == s.player.(guardians := r.player.guardians, hand := r.player.hand,
                             library := r.player.library)
    && r.enemy == s.enemy.(guardians := r.enemy.guardians, hand := r.enemy.hand,
                           library := r.enemy.library)
  }

  /** With at least 20 cards, start hands each side its deal from the one shuffle and changes nothing else. */
  lemma StartSetsDeals(s: SimState, deck: Deck, js: seq<nat>)
    requires Total(deck) >= MinDeckSize && ValidOracle(js, Total(deck))
    ensures |Expand(deck)| == Total(deck)
    ensures var perm := FisherYates(Total(deck), js);
      ClickStart(s, deck, js) == (s.(player := WithDeal(s.player, DealSide(deck, Expand(deck), perm, 0)),
                                     enemy := WithDeal(s.enemy, DealSide(deck, Expand(deck), perm, 10))),
                                  Start)
  {
    ExpandLength(deck);
  }

  /** With fewer than 20 cards, start dispatches CHECK_MAIN_DECK and changes nothing. */
  lemma StartTooFewCards(s: SimState, deck: Deck, js: seq<nat>)
    requires Total(deck) < MinDeckSize
    ensures ClickStart(s, deck, js) == (s, CheckMainDeck)
  {
  }

  /**
   * With at least 20 cards, start dispatches START and gives each side four guardians, six hand
   * cards and a library of the other `total - 10` cards in deck order: together exactly the deck.
   */
  lemma StartDealsEachSide(s: SimState, deck: Deck, js: seq<nat>)
    requires WellFormed(deck) && Total(deck) >= MinDeckSize && ValidOracle(js, Total(deck))
    ensures var (r, a) := ClickStart(s, deck, js);
      && a == Start && Dealt(r) && SameButDeal(r, s)
      && |r.player.guardians.value| == 4 && |r.player.hand.value| == 6
      && |r.player.library.value| == Total(deck) - 10
      && |r.enemy.guardians.value| == 4 && |r.enemy.hand.value| == 6
      && |r.enemy.library.value| == Total(deck) - 10
      && multiset(r.player.guardians.value + r.player.hand.value + r.player.library.value)
         == multiset(Expand(deck))
      && multiset(r.enemy.guardians.value + r.enemy.hand.value + r.enemy.library.value)
         == multiset(Expand(deck))
      && r.player.library.value == Expand(Exclude(r.player.guardians.value, Exclude(r.player.hand.value, deck)))
      && r.enemy.library.value == Expand(Exclude(r.enemy.guardians.value, Exclude(r.enemy.hand.value, deck)))
  {
    ExpandLength(deck);
    var perm := FisherYates(Total(deck), js);
    ShuffledIds(Expand(deck), js);
    SideDealPartition(deck, perm, 0);
    SideDealPartition(deck, perm, 10);
  }

  /** The indices in the order `pop()` returns them. */
  function PopOrder(perm: seq<nat>, count: nat): seq<nat>
    requires count <= |perm|
  {
    seq(count, k requires 0 <= k < count => perm[|perm| - 1 - k])
  }

  /** Distinct pop positions of a duplicate-free permutation. */
  lemma PopOrderDistinct(perm: seq<nat>, n: nat, count: nat)
    requires count <= |perm| == n
    requires forall i :: 0 <= i < n ==> perm[i] < n
    requires forall i, j :: 0 <= i < j < n ==> perm[i] != perm[j]
    ensures forall k :: 0 <= k < count ==> PopOrder(perm, count)[k] < n
    ensures forall i, j :: 0 <= i < j < count ==> PopOrder(perm, count)[i] != PopOrder(perm, count)[j]
  {
    var p := PopOrder(perm, count);
    forall i, j | 0 <= i < j < count ensures p[i] != p[j] {
      assert perm[n - 1 - j] != perm[n - 1 - i];
    }
  }

  /** The four dealt piles of `handleClickStart`, as pops of the one shuffle. */
  lemma StartPops(s: SimState, deck: Deck, js: seq<nat>)
    requires Total(deck) >= MinDeckSize && ValidOracle(js, Total(deck))
    ensures |Expand(deck)| == Total(deck)
    ensures var perm, idArray := FisherYates(Total(deck), js), Expand(deck);
      var r := ClickStart(s, deck, js).0;
      && r.player.guardians == Some(Popped(idArray, perm, 0, 4))
      && r.player.hand == Some(Popped(idArray, perm, 4, 6))
      && r.enemy.guardians == Some(Popped(idArray, perm, 10, 4))
      && r.enemy.hand == Some(Popped(idArray, perm, 14, 6))
  {
    ExpandLength(deck);
  }

  lemma PoppedAtPositions(idArray: seq<CardId>, perm: seq<nat>, from: nat, count: nat, total: nat)
    requires from + count <= total <= |perm|
    requires forall k :: 0 <= k < |perm| ==> perm[k] < |idArray|
    ensures forall k :: 0 <= k < count ==>
      PopOrder(perm, total)[from + k] < |idArray|
      && Popped(idArray, perm, from, count)[k] == idArray[PopOrder(perm, total)[from + k]]
  {
    var order, popped := PopOrder(perm, total), Popped(idArray, perm, from, count);
    forall k | 0 <= k < count
      ensures order[from + k] < |idArray| && popped[k] == idArray[order[from + k]]
    {
      assert order[from + k] == perm[|perm| - 1 - (from + k)];
      assert popped[k] == idArray[perm[|perm| - 1 - from - k]];
    }
  }

  /** The four piles of the deal, each read through its own stretch of the first twenty pops. */
  lemma PilesAtPositions(idArray: seq<CardId>, perm: seq<nat>, pg: seq<CardId>, ph: seq<CardId>,
                         eg: seq<CardId>, eh: seq<CardId>)
    requires 20 <= |perm| == |idArray|
    requires forall i :: 0 <= i < |perm| ==> perm[i] < |perm|
    requires forall i, j :: 0 <= i < j < |perm| ==> perm[i] != perm[j]
    requires pg == Popped(idArray, perm, 0, 4) && ph == Popped(idArray, perm, 4, 6)
    requires eg == Popped(idArray, perm, 10, 4) && eh == Popped(idArray, perm, 14, 6)
    ensures var p := PopOrder(perm, 20);
      && (forall k :: 0 <= k < 20 ==> p[k] < |perm|)
      && (forall i, j :: 0 <= i < j < 20 ==> p[i] != p[j])
      && (forall k :: 0 <= k < 4 ==> pg[k] == idArray[p[k]] && eg[k] == idArray[p[10 + k]])
      && (forall k :: 0 <= k < 6 ==> ph[k] == idArray[p[4 + k]] && eh[k] == idArray[p[14 + k]])
  {
    PopOrderDistinct(perm, |perm|, 20);
    PoppedAtPositions(idArray, perm, 0, 4, 20);
    PoppedAtPositions(idArray, perm, 4, 6, 20);
    PoppedAtPositions(idArray, perm, 10, 4, 20);
    PoppedAtPositions(idArray, perm, 14, 6, 20);
  }

  /**
   * The first twenty pops are twenty distinct positions of the one expansion: the player's cards
   * come from the first ten, the enemy's from the next ten, so no position is dealt twice.
   */
  lemma StartUsesDistinctPositions(s: SimState, deck: Deck, js: seq<nat>)
    requires Total(deck) >= MinDeckSize && ValidOracle(js, Total(deck))
    ensures var n := Total(deck);
      var p := PopOrder(FisherYates(n, js), 20);
      var r := ClickStart(s, deck, js).0;
      && (forall k :: 0 <= k < 20 ==> p[k] < n)
      && (forall i, j :: 0 <= i < j < 20 ==> p[i] != p[j])
      && |Expand(deck)| == n
      && (forall k :: 0 <= k < 4 ==>
            r.player.guardians.value[k] == Expand(deck)[p[k]]
            && r.enemy.guardians.value[k] == Expand(deck)[p[10 + k]])
      && (forall k :: 0 <= k < 6 ==>
            r.player.hand.value[k] == Expand(deck)[p[4 + k]]
            && r.enemy.hand.value[k] == Expand(deck)[p[14 + k]])
  {
    StartPops(s, deck, js);
    var r := ClickStart(s, deck, js).0;
    PilesAtPositions(Expand(deck), FisherYates(Total(deck), js), r.player.guardians.value,
                     r.player.hand.value, r.enemy.guardians.value, r.enemy.hand.value);
  }

  // ---------------------------------------------------------------------------------------------
  // What each event logs

  /** The messages next turn logs when it reads the turn `t`: a draw (or "exhausted"), and on the enemy's turn its end. */
  function AdvanceMessages(s: SimState, t: Turn): seq<Message>
    requires CanAdvance(s, t)
  {
    match t
    case Player => [if |s.player.library.value| > 0 then PlayerDrew else PlayerDeckExhausted]
    case Enemy => [if |s.enemy.library.value| > 0 then EnemyDrew else EnemyDeckExhausted, EnemyTurnEnded]
  }

  /** The messages each event logs, in order. */
  function EventMessages(s: SimState, e: Event): seq<Message>
    requires StepAllowed(s, e)
  {
    match e
    case OnReset => []
    case OnStart(_, _) => []
    case OnNextTurn => AdvanceMessages(s, s.turn)
    case OnEndTurn => [PlayerTurnEnded] + AdvanceMessages(s, s.turn)
    case OnPlayCard(card, zone) =>
      if s.turn == Player && card in s.player.hand.value && HasRight(s, zone) then
        [if zone == MagicZone then PlacedInMagicZone(card) else SummonedToBattlefield(card)]
      else []
  }

  /**
   * `r` is `s` after a handler that queued the log updaters for `ms`: the log itself is not touched
   * yet, and the counter moved on by one per updater.
   */
  predicate QueuedOnly(r: SimState, s: SimState, ms: seq<Message>) {
    r.battleLog == s.battleLog && r.queuedLog == s.queuedLog + ms && r.logIdRef == s.logIdRef + |ms|
  }

  lemma AdvanceQueues(s: SimState, t: Turn)
    requires CanAdvance(s, t)
    ensures QueuedOnly(Advance(s, t), s, AdvanceMessages(s, t))
  {
    if t == Enemy {
      var ms := AdvanceMessages(s, t);
      assert s.queuedLog + [ms[0]] + [ms[1]] == s.queuedLog + ms;
    }
  }

  /** Every handler but reset queues exactly the event's messages and bumps the counter once for each. */
  lemma HandleQueues(s: SimState, e: Event)
    requires StepAllowed(s, e) && !e.OnReset?
    ensures QueuedOnly(Handle(s, e), s, EventMessages(s, e))
  {
    match e
    case OnStart(deck, js) =>
      assert s.queuedLog + [] == s.queuedLog;
    case OnNextTurn =>
      AdvanceQueues(s, s.turn);
    case OnEndTurn =>
      var s1 := QueueLog(s.(turn := Enemy), PlayerTurnEnded);
      AdvanceQueues(s1, s.turn);
      assert AdvanceMessages(s1, s.turn) == AdvanceMessages(s, s.turn);
      assert s1.queuedLog + AdvanceMessages(s, s.turn) == s.queuedLog + EventMessages(s, e);
    case OnPlayCard(card, zone) =>
      assert s.queuedLog + [] == s.queuedLog;
  }

  /**
   * One event, as the code is written: the old log is kept (a reset keeps nothing), the counter
   * moves on by one per message, and every entry the event appends carries the counter's value
   * after the handler, the one value the queued updaters read.
   */
  lemma StepLog(s: SimState, e: Event)
    requires StepAllowed(s, e) && s.queuedLog == []
    ensures var r, ms := Step(s, e), EventMessages(s, e);
      var kept := if e.OnReset? then [] else s.battleLog;
      && r.queuedLog == [] && r.logIdRef == s.logIdRef + |ms|
      && r.battleLog == kept + SharingId(ms, r.logIdRef)
  {
    if !e.OnReset? {
      HandleQueues(s, e);
    }
  }

  /** One event under the intended ids: the entries it appends are numbered on from the counter. */
  lemma StepCapturedLog(s: SimState, e: Event)
    requires StepAllowed(s, e) && s.queuedLog == []
    ensures var r, ms := StepCaptured(s, e), EventMessages(s, e);
      var kept := if e.OnReset? then [] else s.battleLog;
      && r.queuedLog == [] && r.logIdRef == s.logIdRef + |ms|
      && r.battleLog == kept + Numbered(ms, s.logIdRef)
  {
    if !e.OnReset? {
      HandleQueues(s, e);
    }
  }

  // ---------------------------------------------------------------------------------------------
  // Next turn and end of turn

  /**
   * `r` is `s` after one draw: the library's first card moved to the end of the hand, or nothing
   * moved when the library is empty.
   */
  predicate DrawnFrom(r: Side, s: Side)
    requires s.library.Some?
  {
    var library := s.library.value;
    if |library| > 0 then
      s.hand.Some? && r == s.(hand := Some(s.hand.value + [library[0]]), library := Some(library[1..]))
    else
      r == s
  }

  /**
   * Next turn on the player's turn: both rights back to 1, one draw (or one "exhausted" entry), the
   * turn stays the player's, the enemy and the other zones are untouched. The entry carries the
   * counter after its own increment.
   */
  lemma NextTurnOnPlayerTurn(s: SimState)
    requires s.turn == Player && CanAdvance(s, Player) && s.queuedLog == []
    ensures var r := Step(s, OnNextTurn);
      && r == s.(player := r.player, magicPlacementRights := 1, summonRights := 1,
                 battleLog := r.battleLog, logIdRef := s.logIdRef + 1)
      && DrawnFrom(r.player, s.player)
      && r.battleLog == s.battleLog + [LogEntry(s.logIdRef + 1,
           if |s.player.library.value| > 0 then PlayerDrew else PlayerDeckExhausted)]
  {
  }

  /**
   * Next turn on the enemy's turn: the enemy draws (or the log says its library is exhausted), the
   * turn passes to the player, and "enemy turn ended" follows; rights are untouched. Both entries
   * carry the counter after both increments.
   */
  lemma NextTurnOnEnemyTurn(s: SimState)
    requires s.turn == Enemy && CanAdvance(s, Enemy) && s.queuedLog == []
    ensures var r := Step(s, OnNextTurn);
      && r == s.(enemy := r.enemy, turn := Player, battleLog := r.battleLog,
                 logIdRef := s.logIdRef + 2)
      && DrawnFrom(r.enemy, s.enemy)
      && r.battleLog == s.battleLog + [LogEntry(s.logIdRef + 2,
           if |s.enemy.library.value| > 0 then EnemyDrew else EnemyDeckExhausted),
           LogEntry(s.logIdRef + 2, EnemyTurnEnded)]
  {
    StepLog(s, OnNextTurn);
  }

  /**
   * Ending the player's turn sets the turn to the enemy and logs it; the nested next-turn call still
   * reads the player's turn, so it resets the rights and makes the PLAYER draw. Both entries carry
   * the counter after both increments.
   */
  lemma EndTurnRunsPlayerBranch(s: SimState)
    requires s.turn == Player && CanAdvance(s, Player) && s.queuedLog == []
    ensures var r := Step(s, OnEndTurn);
      && r == s.(player := r.player, turn := Enemy, magicPlacementRights := 1, summonRights := 1,
                 battleLog := r.battleLog, logIdRef := s.logIdRef + 2)
      && DrawnFrom(r.player, s.player)
      && r.battleLog == s.battleLog + [LogEntry(s.logIdRef + 2, PlayerTurnEnded),
           LogEntry(s.logIdRef + 2,
             if |s.player.library.value| > 0 then PlayerDrew else PlayerDeckExhausted)]
  {
    StepLog(s, OnEndTurn);
  }

  /**
   * As written, the two entries of ending the turn share one id, so the log's list items carry the
   * same `key` and the log's ids no longer strictly increase.
   */
  lemma EndTurnDuplicatesIds(s: SimState)
    requires s.turn == Player && CanAdvance(s, Player) && s.queuedLog == []
    ensures var r, n := Step(s, OnEndTurn), |s.battleLog|;
      && |r.battleLog| == n + 2
      && r.battleLog[n].id == r.battleLog[n + 1].id == s.logIdRef + 2
      && !IdsIncreasing(r.battleLog)
  {
    EndTurnRunsPlayerBranch(s);
    var r, n := Step(s, OnEndTurn), |s.battleLog|;
    assert r.battleLog[n].id == r.battleLog[n + 1].id;
  }

  /** Under the intended ids, ending the turn logs its two entries with the counter and the next value. */
  lemma EndTurnCapturedIds(s: SimState)
    requires s.turn == Player && CanAdvance(s, Player) && s.queuedLog == []
    ensures StepCaptured(s, OnEndTurn).battleLog == s.battleLog + [LogEntry(s.logIdRef, PlayerTurnEnded),
      LogEntry(s.logIdRef + 1, if |s.player.library.value| > 0 then PlayerDrew else PlayerDeckExhausted)]
    ensures StepCaptured(s, OnEndTurn).logIdRef == s.logIdRef + 2
  {
    StepCapturedLog(s, OnEndTurn);
  }

  /**
   * A whole round as the controls allow it: "end turn", then "next turn". The player draws, then
   * the enemy, the turn is the player's again, and four entries are logged: the first two carry
   * the counter plus two, the last two the counter plus four.
   */
  lemma EndTurnThenNextTurn(s: SimState)
    requires s.turn == Player && Dealt(s) && s.queuedLog == []
    ensures CanAdvance(Step(s, OnEndTurn), Enemy)
    ensures var r := Step(Step(s, OnEndTurn), OnNextTurn);
      var pl, el, n, c := s.player.library.value, s.enemy.library.value, |s.battleLog|, s.logIdRef;
      && r.turn == Player && r.magicPlacementRights == 1 && r.summonRights == 1
      && r.logIdRef == c + 4 && |r.battleLog| == n + 4
      && r.battleLog[..n] == s.battleLog
      && r.battleLog[n] == LogEntry(c + 2, PlayerTurnEnded)
      && r.battleLog[n + 1] == LogEntry(c + 2, if |pl| > 0 then PlayerDrew else PlayerDeckExhausted)
      && r.battleLog[n + 2] == LogEntry(c + 4, if |el| > 0 then EnemyDrew else EnemyDeckExhausted)
      && r.battleLog[n + 3] == LogEntry(c + 4, EnemyTurnEnded)
      && r.player.hand.value == s.player.hand.value + pl[..if |pl| > 0 then 1 else 0]
      && r.enemy.hand.value == s.enemy.hand.value + el[..if |el| > 0 then 1 else 0]
  {
    var e := Step(s, OnEndTurn);
    EndTurnRunsPlayerBranch(s);
    NextTurnOnEnemyTurn(e);
    var r := Step(e, OnNextTurn);
    var n := |s.battleLog|;
    assert r.battleLog[..n] == s.battleLog;
  }

  // ---------------------------------------------------------------------------------------------
  // Playing a card

  /**
   * A play is rejected exactly when it is not the player's turn, the card is not in the hand, or
   * the zone's right is used up; a rejection sets the error (the first failing check's) and
   * nothing else.
   */
  lemma PlayCardRejected(s: SimState, card: CardId, zone: Zone)
    requires (s.turn == Player ==> s.player.hand.Some?) && s.queuedLog == []
    ensures var r := Step(s, OnPlayCard(card, zone));
      var accepted := s.turn == Player && card in s.player.hand.value && HasRight(s, zone);
      && (accepted <==> r.logIdRef == s.logIdRef + 1)
      && (!accepted ==> r == s.(errorMessage := r.errorMessage) && r.errorMessage.Some?)
      && (s.turn != Player ==> r.errorMessage == Some(NotYourTurn))
      && (s.turn == Player && card !in s.player.hand.value ==> r.errorMessage == Some(NotInHand))
      && (s.turn == Player && card in s.player.hand.value && !HasRight(s, zone) ==>
            r.errorMessage == Some(if zone == MagicZone then NoMagicPlacementRight else NoSummonRight))
  {
    StepLog(s, OnPlayCard(card, zone));
  }

  /**
   * An accepted play spends one right of its zone, appends the card to that zone, takes the first
   * copy of it out of the hand and logs one entry, carrying the counter after its increment; the
   * hand's other cards keep their order.
   */
  lemma PlayCardAccepted(s: SimState, card: CardId, zone: Zone)
    requires s.turn == Player && s.player.hand.Some? && card in s.player.hand.value && HasRight(s, zone)
    requires s.queuedLog == []
    ensures var r := Step(s, OnPlayCard(card, zone)); var hand := s.player.hand.value;
      var i := IndexOf(hand, card);
      && 0 <= i < |hand| && hand[i] == card && card !in hand[..i]
        && r.player.hand == Some(hand[..i] + hand[i + 1..])
        && multiset(r.player.hand.value) + multiset{card} == multiset(hand)
        && r.logIdRef == s.logIdRef + 1
        && (zone == MagicZone ==>
              r == s.(magicPlacementRights := s.magicPlacementRights - 1,
                      player := s.player.(magicZone := s.player.magicZone + [card],
                                          hand := r.player.hand),
                      battleLog := s.battleLog + [LogEntry(s.logIdRef + 1, PlacedInMagicZone(card))],
                      logIdRef := r.logIdRef))
        && (zone == Battlefield ==>
              r == s.(summonRights := s.summonRights - 1,
                      player := s.player.(battlefield := s.player.battlefield + [card],
                                          hand := r.player.hand),
                      battleLog := s.battleLog + [LogEntry(s.logIdRef + 1, SummonedToBattlefield(card))],
                      logIdRef := r.logIdRef))
  {
    var hand := s.player.hand.value;
    var i := IndexOf(hand, card);
    assert hand == hand[..i] + [card] + hand[i + 1..];
    StepLog(s, OnPlayCard(card, zone));
  }

  // ---------------------------------------------------------------------------------------------
  // The rendered controls

  /** Start and reset are never enabled together, and one of them always is. */
  lemma StartXorReset(phase: Phase)
    ensures EnabledStart(phase) != EnabledReset(phase)
  {
  }

  /** "Next turn" and the player's controls are never offered at the same time. */
  lemma NextTurnExcludesPlayerControls(phase: Phase, turn: Turn)
    ensures !(EnabledNextTurn(phase, turn) && ShowPlayerControls(phase, turn))
    ensures EnabledNextTurn(phase, turn) ==> turn == Enemy
    ensures ShowPlayerControls(phase, turn) ==> turn == Player
  {
  }

  /** A play button the view renders enabled, for a card the hand holds, is never rejected. */
  lemma EnabledPlayIsAccepted(phase: Phase, s: SimState, card: CardId, zone: Zone)
    requires s.player.hand.Some? && card in s.player.hand.value && EnabledPlay(phase, s, zone)
    requires s.queuedLog == []
    ensures Step(s, OnPlayCard(card, zone)).errorMessage == s.errorMessage
    ensures Step(s, OnPlayCard(card, zone)).logIdRef == s.logIdRef + 1
  {
    PlayCardRejected(s, card, zone);
  }

  // ---------------------------------------------------------------------------------------------
  // Invariants over any sequence of clicks

  lemma InitialStateInvariant()
    ensures Invariant(InitialState()) && CapturedInvariant(InitialState())
    ensures Undealt(InitialState()) && InitialState().battleLog == [] && InitialState().logIdRef == 0
  {
  }

  /** `handleClickReset` empties every zone and the log, restores both rights and the player's turn, and leaves the log counter. */
  lemma ResetClears(s: SimState)
    ensures var (r, a) := ClickReset(s);
      && a == Reset && Undealt(r) && Invariant(r) && CapturedInvariant(r)
      && r.player.magicZone == r.player.battlefield == r.player.graveyard == []
      && r.enemy.magicZone == r.enemy.battlefield == r.enemy.graveyard == []
      && r.magicPlacementRights == 1 && r.summonRights == 1 && r.turn == Player
      && r.battleLog == [] && r.errorMessage == None && r.logIdRef == s.logIdRef
  {
  }

  /** The body of next turn, for either branch, keeps the rights non-negative and the zones dealt or not. */
  lemma AdvanceKeepsZones(s: SimState, t: Turn)
    requires ZonesInvariant(s) && CanAdvance(s, t)
    ensures ZonesInvariant(Advance(s, t))
  {
  }

  lemma StartKeepsZones(s: SimState, deck: Deck, js: seq<nat>)
    requires ZonesInvariant(s) && (Total(deck) >= MinDeckSize ==> ValidOracle(js, Total(deck)))
    ensures ZonesInvariant(ClickStart(s, deck, js).0)
  {
    var r := ClickStart(s, deck, js).0;
    if Total(deck) >= MinDeckSize {
      assert r.magicPlacementRights == s.magicPlacementRights && r.summonRights == s.summonRights;
      assert Dealt(r);
    }
  }

  lemma EndTurnKeepsZones(s: SimState)
    requires ZonesInvariant(s) && CanAdvance(s, s.turn)
    ensures ZonesInvariant(EndPlayerTurn(s))
  {
    AdvanceKeepsZones(QueueLog(s.(turn := Enemy), PlayerTurnEnded), s.turn);
  }

  lemma PlayCardKeepsZones(s: SimState, card: CardId, zone: Zone)
    requires ZonesInvariant(s) && (s.turn == Player ==> s.player.hand.Some?)
    ensures ZonesInvariant(PlayCard(s, card, zone))
  {
  }

  /** Every handler keeps the rights non-negative and the zones all dealt or all null. */
  lemma HandleKeepsZones(s: SimState, e: Event)
    requires ZonesInvariant(s) && StepAllowed(s, e)
    ensures ZonesInvariant(Handle(s, e))
  {
    match e
    case OnReset =>
    case OnStart(deck, js) =>
      StartKeepsZones(s, deck, js);
    case OnNextTurn =>
      AdvanceKeepsZones(s, s.turn);
    case OnEndTurn =>
      EndTurnKeepsZones(s);
    case OnPlayCard(card, zone) =>
      PlayCardKeepsZones(s, card, zone);
  }

  /** Entries that all carry a counter value no smaller than any earlier id keep the ids non-decreasing. */
  lemma AppendSharingKeepsIds(log: seq<LogEntry>, ms: seq<Message>, c: nat, c': nat)
    requires IdsNondecreasing(log) && IdsWithin(log, 0, c + 1) && c <= c'
    ensures IdsNondecreasing(log + SharingId(ms, c')) && IdsWithin(log + SharingId(ms, c'), 0, c' + 1)
  {
    var r := log + SharingId(ms, c');
    forall i, j | 0 <= i < j < |r| ensures r[i].id <= r[j].id {
      if j >= |log| {
        assert r[j].id == c';
      }
    }
  }

  /** Entries numbered on from the counter keep the ids increasing and below the new counter. */
  lemma AppendNumberedKeepsIds(log: seq<LogEntry>, ms: seq<Message>, c: nat)
    requires IdsIncreasing(log) && IdsWithin(log, 0, c)
    ensures IdsIncreasing(log + Numbered(ms, c)) && IdsWithin(log + Numbered(ms, c), 0, c + |ms|)
  {
    var r := log + Numbered(ms, c);
    forall i, j | 0 <= i < j < |r| ensures r[i].id < r[j].id {
      if j >= |log| {
        assert r[j].id == c + (j - |log|);
        if i >= |log| {
          assert r[i].id == c + (i - |log|);
        }
      }
    }
  }

  /**
   * Every event keeps the invariant of the code as written: no updater left pending, log ids
   * never decreasing and bounded by the counter, rights non-negative, zones all null or all dealt.
   */
  lemma StepPreservesInvariant(s: SimState, e: Event)
    requires Invariant(s) && StepAllowed(s, e)
    ensures Invariant(Step(s, e))
  {
    HandleKeepsZones(s, e);
    StepLog(s, e);
    var r := Step(s, e);
    var kept := if e.OnReset? then [] else s.battleLog;
    AppendSharingKeepsIds(kept, EventMessages(s, e), s.logIdRef, r.logIdRef);
  }

  /** Under the intended ids every event keeps them strictly increasing and below the counter. */
  lemma StepCapturedPreservesInvariant(s: SimState, e: Event)
    requires CapturedInvariant(s) && StepAllowed(s, e)
    ensures CapturedInvariant(StepCaptured(s, e))
  {
    HandleKeepsZones(s, e);
    StepCapturedLog(s, e);
    var kept := if e.OnReset? then [] else s.battleLog;
    AppendNumberedKeepsIds(kept, EventMessages(s, e), s.logIdRef);
  }

  /** So does any sequence of clicks. */
  lemma {:induction false} RunPreservesInvariant(s: SimState, es: seq<Event>)
    requires Invariant(s) && RunAllowed(s, es)
    ensures Invariant(Run(s, es))
    decreases |es|
  {
    if es != [] {
      StepPreservesInvariant(s, es[0]);
      RunPreservesInvariant(Step(s, es[0]), es[1..]);
    }
  }

  lemma {:induction false} RunCapturedPreservesInvariant(s: SimState, es: seq<Event>)
    requires CapturedInvariant(s) && RunCapturedAllowed(s, es)
    ensures CapturedInvariant(RunCaptured(s, es))
    decreases |es|
  {
    if es != [] {
      StepCapturedPreservesInvariant(s, es[0]);
      RunCapturedPreservesInvariant(StepCaptured(s, es[0]), es[1..]);
    }
  }

  // ---------------------------------------------------------------------------------------------
  // The log counter over runs

  /** Ids that never decrease, each above `lo` and at most `hi`. */
  predicate LaterIds(entries: seq<LogEntry>, lo: nat, hi: nat) {
    IdsNondecreasing(entries) && IdsWithin(entries, lo + 1, hi + 1)
  }

  lemma LaterIdsConcat(a: seq<LogEntry>, b: seq<LogEntry>, lo: nat, mid: nat, hi: nat)
    requires lo <= mid <= hi && LaterIds(a, lo, mid) && LaterIds(b, mid, hi)
    ensures LaterIds(a + b, lo, hi)
  {
    var r := a + b;
    forall i, j | 0 <= i < j < |r| ensures r[i].id <= r[j].id {
      if i < |a| && j >= |a| {
        assert r[i].id == a[i].id && r[j].id == b[j - |a|].id;
      }
    }
  }

  /** One event's entries, all on the counter after it, lie above the counter before it. */
  lemma SharingIdLater(ms: seq<Message>, lo: nat, hi: nat)
    requires hi == lo + |ms|
    ensures LaterIds(SharingId(ms, hi), lo, hi)
  {
  }

  lemma ConsecutiveConcat(a: seq<LogEntry>, b: seq<LogEntry>, lo: nat, mid: nat, hi: nat)
    requires Consecutive(a, lo, mid) && Consecutive(b, mid, hi)
    ensures Consecutive(a + b, lo, hi)
  {
  }

  /** A log that starts with `a + b` is `a` followed by `b` and the rest. */
  lemma PrefixSplit(a: seq<LogEntry>, b: seq<LogEntry>, r: seq<LogEntry>)
    requires |a| + |b| <= |r| && r[..|a| + |b|] == a + b
    ensures |a| <= |r| && r[..|a|] == a && r[|a|..] == b + r[|a| + |b|..]
  {
    assert r[..|a|] == r[..|a| + |b|][..|a|];
    assert r[|a|..] == r[|a|..|a| + |b|] + r[|a| + |b|..];
    assert r[|a|..|a| + |b|] == r[..|a| + |b|][|a|..];
  }

  lemma ContainsResetCons(es: seq<Event>)
    requires es != []
    ensures ContainsReset(es) <==> es[0].OnReset? || ContainsReset(es[1..])
  {
    if ContainsReset(es[1..]) {
      var i :| 0 <= i < |es[1..]| && es[1..][i].OnReset?;
      assert es[i + 1].OnReset?;
    }
    if ContainsReset(es) && !es[0].OnReset? {
      var i :| 0 <= i < |es| && es[i].OnReset?;
      assert es[1..][i - 1].OnReset?;
    }
  }

  /**
   * Over any run, as the code is written, the counter only grows. Without a reset the old log is
   * kept and the new entries carry non-decreasing ids above the old counter and up to the new
   * one; after a reset the whole log does.
   */
  lemma {:induction false} RunLog(s: SimState, es: seq<Event>)
    requires RunAllowed(s, es) && s.queuedLog == []
    ensures var r := Run(s, es);
      && s.logIdRef <= r.logIdRef && r.queuedLog == []
      && (!ContainsReset(es) ==>
            && |s.battleLog| <= |r.battleLog| && r.battleLog[..|s.battleLog|] == s.battleLog
            && LaterIds(r.battleLog[|s.battleLog|..], s.logIdRef, r.logIdRef))
      && (ContainsReset(es) ==> LaterIds(r.battleLog, s.logIdRef, r.logIdRef))
    decreases |es|
  {
    var r := Run(s, es);
    if es == [] {
      assert s.battleLog[|s.battleLog|..] == [];
    } else {
      var s1 := Step(s, es[0]);
      var ms := EventMessages(s, es[0]);
      var kept := if es[0].OnReset? then [] else s.battleLog;
      StepLog(s, es[0]);
      SharingIdLater(ms, s.logIdRef, s1.logIdRef);
      RunLog(s1, es[1..]);
      ContainsResetCons(es);
      if !ContainsReset(es[1..]) {
        var part := SharingId(ms, s1.logIdRef);
        PrefixSplit(kept, part, r.battleLog);
        LaterIdsConcat(part, r.battleLog[|s1.battleLog|..], s.logIdRef, s1.logIdRef, r.logIdRef);
      }
    }
  }

  /**
   * `logIdRef` survives a reset, so an entry logged after a reset never carries the id of an
   * entry logged before it.
   */
  lemma ResetNeverReusesIds(s: SimState, es: seq<Event>)
    requires Invariant(s) && RunAllowed(s, es) && ContainsReset(es)
    ensures var r := Run(s, es);
      forall i, j :: 0 <= i < |s.battleLog| && 0 <= j < |r.battleLog| ==>
        s.battleLog[i].id < r.battleLog[j].id
  {
    RunLog(s, es);
  }

  /**
   * Over any run under the intended ids the counter only grows. Without a reset the old log is
   * kept and the new entries carry consecutive ids from the old counter; after a reset the whole
   * log carries consecutive ids ending at the counter and starting no lower than the old counter.
   */
  lemma {:induction false} RunCapturedLog(s: SimState, es: seq<Event>)
    requires RunCapturedAllowed(s, es) && s.queuedLog == []
    ensures var r := RunCaptured(s, es);
      && s.logIdRef <= r.logIdRef && r.queuedLog == []
      && (!ContainsReset(es) ==>
            && |s.battleLog| <= |r.battleLog| && r.battleLog[..|s.battleLog|] == s.battleLog
            && Consecutive(r.battleLog[|s.battleLog|..], s.logIdRef, r.logIdRef))
      && (ContainsReset(es) ==>
            && |r.battleLog| <= r.logIdRef - s.logIdRef
            && Consecutive(r.battleLog, r.logIdRef - |r.battleLog|, r.logIdRef))
    decreases |es|
  {
    var r := RunCaptured(s, es);
    if es == [] {
      assert s.battleLog[|s.battleLog|..] == [];
    } else {
      var s1 := StepCaptured(s, es[0]);
      var ms := EventMessages(s, es[0]);
      var kept := if es[0].OnReset? then [] else s.battleLog;
      StepCapturedLog(s, es[0]);
      RunCapturedLog(s1, es[1..]);
      ContainsResetCons(es);
      if !ContainsReset(es[1..]) {
        var part := Numbered(ms, s.logIdRef);
        PrefixSplit(kept, part, r.battleLog);
        ConsecutiveConcat(part, r.battleLog[|s1.battleLog|..], s.logIdRef, s1.logIdRef, r.logIdRef);
      }
    }
  }

  // ---------------------------------------------------------------------------------------------
  // Cards are neither created nor lost during a match

  lemma DrawConserves(hand: seq<CardId>, library: seq<CardId>)
    requires |library| > 0
    ensures Cards(Some(hand + [library[0]])) + Cards(Some(library[1..]))
         == Cards(Some(hand)) + Cards(Some(library))
  {
    assert library == [library[0]] + library[1..];
  }

  lemma Regroup(a: multiset<CardId>, b': multiset<CardId>, c': multiset<CardId>,
                b: multiset<CardId>, c: multiset<CardId>, rest: multiset<CardId>)
    requires b' + c' == b + c
    ensures a + b' + c' + rest == a + b + c + rest
  {
    forall x ensures (a + b' + c' + rest)[x] == (a + b + c + rest)[x] {
      assert (b' + c')[x] == (b + c)[x];
    }
  }

  /** A draw moves the library's first card to the hand: the side holds the same cards. */
  lemma DrawConservesSide(side: Side)
    requires CanDraw(side) && |side.library.value| > 0
    ensures SideCards(Draw(side)) == SideCards(side)
  {
    var d := Draw(side);
    DrawConserves(side.hand.value, side.library.value);
    var rest := multiset(side.magicZone) + multiset(side.battlefield) + multiset(side.graveyard);
    Regroup(Cards(side.guardians), Cards(d.hand), Cards(d.library),
            Cards(side.hand), Cards(side.library), rest);
    assert SideCards(d) == Cards(side.guardians) + Cards(d.hand) + Cards(d.library) + rest;
    assert SideCards(side) == Cards(side.guardians) + Cards(side.hand) + Cards(side.library) + rest;
  }

  /** The body of next turn moves at most one card from a library to its hand. */
  lemma AdvanceConservesCards(s: SimState, t: Turn)
    requires CanAdvance(s, t)
    ensures SideCards(Advance(s, t).player) == SideCards(s.player)
    ensures SideCards(Advance(s, t).enemy) == SideCards(s.enemy)
  {
    if t == Player && |s.player.library.value| > 0 {
      DrawConservesSide(s.player);
    } else if t == Enemy && |s.enemy.library.value| > 0 {
      DrawConservesSide(s.enemy);
    }
  }

  lemma MoveOne(g: multiset<CardId>, h: multiset<CardId>, h': multiset<CardId>, l: multiset<CardId>,
                m: multiset<CardId>, m': multiset<CardId>, b: multiset<CardId>, b': multiset<CardId>,
                y: multiset<CardId>, card: CardId)
    requires h == h' + multiset{card} && m' + b' == m + b + multiset{card}
    ensures g + h' + l + m' + b' + y == g + h + l + m + b + y
  {
    forall x ensures (g + h' + l + m' + b' + y)[x] == (g + h + l + m + b + y)[x] {
      assert h[x] == h'[x] + multiset{card}[x];
      assert (m' + b')[x] == (m + b + multiset{card})[x];
    }
  }

  /** Moving one card from the hand to the magic zone or the battlefield keeps the side's cards. */
  lemma HandToZone(side: Side, r: Side, card: CardId)
    requires side.hand.Some? && r.hand.Some?
    requires r.guardians == side.guardians && r.library == side.library && r.graveyard == side.graveyard
    requires multiset(r.hand.value) + multiset{card} == multiset(side.hand.value)
    requires || (r.magicZone == side.magicZone + [card] && r.battlefield == side.battlefield)
             || (r.battlefield == side.battlefield + [card] && r.magicZone == side.magicZone)
    ensures SideCards(r) == SideCards(side)
  {
    var m, m', b, b' := multiset(side.magicZone), multiset(r.magicZone),
                        multiset(side.battlefield), multiset(r.battlefield);
    if r.magicZone == side.magicZone + [card] {
      assert m' == m + multiset{card};
    } else {
      assert b' == b + multiset{card};
    }
    MoveOne(Cards(side.guardians), Cards(side.hand), Cards(r.hand), Cards(side.library),
            m, m', b, b', multiset(side.graveyard), card);
  }

  /** A play moves one card from the hand to a zone; a rejected one moves nothing. */
  lemma PlayCardConservesCards(s: SimState, card: CardId, zone: Zone)
    requires s.turn == Player ==> s.player.hand.Some?
    ensures SideCards(PlayCard(s, card, zone).player) == SideCards(s.player)
    ensures SideCards(PlayCard(s, card, zone).enemy) == SideCards(s.enemy)
  {
    if s.turn == Player && card in s.player.hand.value && HasRight(s, zone) {
      var hand := s.player.hand.value;
      var i := IndexOf(hand, card);
      assert hand == hand[..i] + [card] + hand[i + 1..];
      HandToZone(s.player, PlayCard(s, card, zone).player, card);
    }
  }

  /** Next turn, end turn and playing a card move cards between one side's zones, nothing more. */
  lemma TurnStepConservesCards(s: SimState, e: Event)
    requires IsTurnEvent(e) && StepAllowed(s, e)
    ensures SideCards(Step(s, e).player) == SideCards(s.player)
    ensures SideCards(Step(s, e).enemy) == SideCards(s.enemy)
  {
    match e
    case OnNextTurn =>
      AdvanceConservesCards(s, s.turn);
    case OnEndTurn =>
      AdvanceConservesCards(QueueLog(s.(turn := Enemy), PlayerTurnEnded), s.turn);
    case OnPlayCard(card, zone) =>
      PlayCardConservesCards(s, card, zone);
  }

  predicate AllTurnEvents(es: seq<Event>) {
    forall i :: 0 <= i < |es| ==> IsTurnEvent(es[i])
  }

  lemma {:induction false} TurnRunConservesCards(s: SimState, es: seq<Event>)
    requires AllTurnEvents(es) && RunAllowed(s, es)
    ensures SideCards(Run(s, es).player) == SideCards(s.player)
    ensures SideCards(Run(s, es).enemy) == SideCards(s.enemy)
    decreases |es|
  {
    if es != [] {
      TurnStepConservesCards(s, es[0]);
      assert AllTurnEvents(es[1..]) by {
        forall i | 0 <= i < |es[1..]| ensures IsTurnEvent(es[1..][i]) {
          assert es[1..][i] == es[i + 1];
        }
      }
      TurnRunConservesCards(Step(s, es[0]), es[1..]);
    }
  }

  lemma DealtSideCards(side: Side)
    requires SideDealt(side) && side.magicZone == side.battlefield == side.graveyard == []
    ensures SideCards(side) == multiset(side.guardians.value + side.hand.value + side.library.value)
  {
  }

  /**
   * After reset and start, each side holds exactly the deck's cards, and it keeps holding exactly
   * them through any clicks of the match.
   */
  lemma MatchHoldsTheDeck(s: SimState, deck: Deck, js: seq<nat>, es: seq<Event>)
    requires WellFormed(deck) && Total(deck) >= MinDeckSize && ValidOracle(js, Total(deck))
    requires AllTurnEvents(es) && RunAllowed(Step(Step(s, OnReset), OnStart(deck, js)), es)
    ensures var r := Run(Step(Step(s, OnReset), OnStart(deck, js)), es);
      SideCards(r.player) == multiset(Expand(deck)) && SideCards(r.enemy) == multiset(Expand(deck))
  {
    var s0 := Step(s, OnReset);
    var s1 := Step(s0, OnStart(deck, js));
    StartDealsEachSide(s0, deck, js);
    DealtSideCards(s1.player);
    DealtSideCards(s1.enemy);
    TurnRunConservesCards(s1, es);
  }
}
