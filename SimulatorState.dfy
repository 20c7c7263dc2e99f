/**
 * The state of the match simulator view and what each of its event handlers does to it, as pure
 * functions from the state before the event to the state after it.
 *
 * React `useState` semantics: a handler reads the values of the render it was created in and its
 * setters take effect afterwards, so every function below computes the new state from the old one.
 * The battle log is updated through `setBattleLog(prev => [...prev, {id: logIdRef.current, ...}])`:
 * the updater is queued and runs when React renders after the handler, while `logIdRef` is a
 * mutable ref bumped at once. So an updater reads the counter as the handler left it, not as it
 * was when the updater was queued. `QueueLog` is the call, `Rendered` the render that follows.
 */
module SimulatorState {
  import opened Wrappers
  import opened Decks
  import opened Shuffle

  datatype Turn = Player | Enemy

  /** The two zones `handlePlayCard` is called with: `'magic'` and `'battlefield'`. */
  datatype Zone = MagicZone | Battlefield

  /** The phases of the lifecycle reducer, which is not part of this model. */
  datatype Phase = Initial | LessThanTen | Running | Aborted | Finished

  /** The actions the simulator view dispatches to the reducer. */
  datatype Action = CheckMainDeck | Start | Reset

  /** Log texts; a card's display name is looked up in the catalog from its id. */
  datatype Message =
    | PlayerDrew | PlayerDeckExhausted
    | EnemyDrew | EnemyDeckExhausted | EnemyTurnEnded
    | PlayerTurnEnded
    | PlacedInMagicZone(card: CardId) | SummonedToBattlefield(card: CardId)

  datatype ErrorMessage = NotYourTurn | NotInHand | NoMagicPlacementRight | NoSummonRight

  datatype LogEntry = LogEntry(id: nat, message: Message)

  /**
   * The six hooks each side has: guardians, hand and library (`null` until dealt, modelled as
   * `None`), then the magic zone, the battlefield and the graveyard.
   */
  datatype Side = Side(
    guardians: Option<seq<CardId>>,
    hand: Option<seq<CardId>>,
    library: Option<seq<CardId>>,
    magicZone: seq<CardId>,
    battlefield: seq<CardId>,
    graveyard: seq<CardId>)

  /**
   * Every `useState` of the view and the `logIdRef` counter: the player's and the enemy's six
   * hooks, the player's two rights, the turn, the log, the log's updaters queued since the last
   * render (by the message each appends) and the error message.
   */
  datatype SimState = SimState(
    player: Side,
    enemy: Side,
    magicPlacementRights: int,
    summonRights: int,
    turn: Turn,
    battleLog: seq<LogEntry>,
    queuedLog: seq<Message>,
    errorMessage: Option<ErrorMessage>,
    logIdRef: nat)

  const EmptySide := Side(None, None, None, [], [], [])

  /** The values the state hooks start with, and the log counter `logId`. */
  function Cleared(logId: nat): SimState {
    SimState(EmptySide, EmptySide, 1, 1, Player, [], [], None, logId)
  }

  /** The state of a freshly mounted view: `useRef(0)` for the counter. */
  function InitialState(): SimState {
    Cleared(0)
  }

  /**
   * `setBattleLog(prev => [...prev, {id: logIdRef.current, message}]); logIdRef.current += 1`:
   * the updater is queued and the counter moves on at once.
   */
  function QueueLog(s: SimState, m: Message): SimState {
    s.(queuedLog := s.queuedLog + [m], logIdRef := s.logIdRef + 1)
  }

  /** Entries for `messages`, all carrying `id`. */
  function SharingId(messages: seq<Message>, id: nat): seq<LogEntry> {
    seq(|messages|, k requires 0 <= k < |messages| => LogEntry(id, messages[k]))
  }

  /**
   * The render after a handler: React runs the queued updaters in order, and each reads
   * `logIdRef.current` as the handler left it.
   */
  function Rendered(s: SimState): SimState {
    s.(battleLog := s.battleLog + SharingId(s.queuedLog, s.logIdRef), queuedLog := [])
  }

  /** Entries for `messages`, carrying `from`, `from + 1`, ... in turn. */
  function Numbered(messages: seq<Message>, from: nat): seq<LogEntry> {
    seq(|messages|, k requires 0 <= k < |messages| => LogEntry(from + k, messages[k]))
  }

  /**
   * The render as the log's ids evidently intend it: each updater carries the counter's value at
   * the moment it was queued (`const id = logIdRef.current` before `setBattleLog`), which for a
   * handler that started at counter `from` is `from` plus the number of updaters queued before it.
   */
  function RenderedCaptured(s: SimState, from: nat): SimState {
    s.(battleLog := s.battleLog + Numbered(s.queuedLog, from), queuedLog := [])
  }

  // ---------------------------------------------------------------------------------------------
  // The handlers

  /** `handleClickReset`: every hook back to its initial value, except the log counter. */
  function ClickReset(s: SimState): (SimState, Action) {
    (Cleared(s.logIdRef), Reset)
  }

  const MinDeckSize: nat := 20

  datatype Deal = Deal(guardians: seq<CardId>, hand: seq<CardId>, library: seq<CardId>)

  /**
   * The ids taken by `count` successive `pop()`s after `from` earlier ones: the `(from + k)`-th pop
   * returns the index at position `|perm| - 1 - (from + k)`.
   */
  function Popped(idArray: seq<CardId>, perm: seq<nat>, from: nat, count: nat): seq<CardId>
    requires from + count <= |perm|
    requires forall k :: 0 <= k < |perm| ==> perm[k] < |idArray|
  {
    seq(count, k requires 0 <= k < count => idArray[perm[|perm| - 1 - from - k]])
  }

  /**
   * One side's setup after `from` pops: four guardians, six hand cards, and the library, which is
   * the expansion (in deck order, not shuffled) of a copy of the deck without those ten cards.
   */
  function DealSide(deck: Deck, idArray: seq<CardId>, perm: seq<nat>, from: nat): Deal
    requires from + 10 <= |perm|
    requires forall k :: 0 <= k < |perm| ==> perm[k] < |idArray|
  {
    var guardians := Popped(idArray, perm, from, 4);
    var hand := Popped(idArray, perm, from + 4, 6);
    Deal(guardians, hand, Expand(Exclude(guardians, Exclude(hand, deck))))
  }

  /**
   * `handleClickStart` with the deck prop and the shuffle's oracle: too few cards dispatch
   * CHECK_MAIN_DECK and change nothing; otherwise the player and then the enemy are dealt from one
   * shuffle of one expansion, and START is dispatched.
   */
  function ClickStart(s: SimState, deck: Deck, js: seq<nat>): (SimState, Action)
    requires Total(deck) >= MinDeckSize ==> ValidOracle(js, Total(deck))
  {
    if Total(deck) < MinDeckSize then (s, CheckMainDeck)
    else
      ExpandLength(deck);
      var idArray := Expand(deck);
      var perm := FisherYates(Total(deck), js);
      var p := DealSide(deck, idArray, perm, 0);
      var e := DealSide(deck, idArray, perm, 10);
      (s.(player := WithDeal(s.player, p), enemy := WithDeal(s.enemy, e)), Start)
  }

  /** The three `set...` calls that hand a side its deal. */
  function WithDeal(side: Side, d: Deal): Side {
    side.(guardians := Some(d.guardians), hand := Some(d.hand), library := Some(d.library))
  }

  /**
   * What `handleClickNextTurn` dereferences without a null check: the library, and the hand
   * when there is a card to draw into it.
   */
  predicate CanDraw(side: Side) {
    side.library.Some? && (|side.library.value| > 0 ==> side.hand.Some?)
  }

  /** `library[0]` to the end of the hand, the rest of the library kept. */
  function Draw(side: Side): Side
    requires CanDraw(side) && |side.library.value| > 0
  {
    var library := side.library.value;
    side.(library := Some(library[1..]), hand := Some(side.hand.value + [library[0]]))
  }

  function SideOf(s: SimState, t: Turn): Side {
    match t
    case Player => s.player
    case Enemy => s.enemy
  }

  predicate CanAdvance(s: SimState, t: Turn) {
    CanDraw(SideOf(s, t))
  }

  /** The body of `handleClickNextTurn` when it reads `turn === t`. */
  function Advance(s: SimState, t: Turn): SimState
    requires CanAdvance(s, t)
  {
    match t
    case Player =>
      var s1 := s.(magicPlacementRights := 1, summonRights := 1);
      if |s.player.library.value| > 0 then QueueLog(s1.(player := Draw(s.player)), PlayerDrew)
      else QueueLog(s1, PlayerDeckExhausted)
    case Enemy =>
      var s1 :=
        if |s.enemy.library.value| > 0 then QueueLog(s.(enemy := Draw(s.enemy)), EnemyDrew)
        else QueueLog(s, EnemyDeckExhausted);
      QueueLog(s1.(turn := Player), EnemyTurnEnded)
  }

  /** `handleClickNextTurn`, before the render. */
  function ClickNextTurn(s: SimState): SimState
    requires CanAdvance(s, s.turn)
  {
    Advance(s, s.turn)
  }

  /**
   * `handleEndPlayerTurn`: `setTurn('enemy')`, the "your turn ended" entry, then the nested
   * `handleClickNextTurn()`, which still reads the turn of the event's render; before the render.
   */
  function EndPlayerTurn(s: SimState): SimState
    requires CanAdvance(s, s.turn)
  {
    Advance(QueueLog(s.(turn := Enemy), PlayerTurnEnded), s.turn)
  }

  /** `array.findIndex(x => x === card)`. */
  function IndexOf(a: seq<CardId>, card: CardId): (r: int)
    ensures -1 <= r < |a|
    ensures r == -1 <==> card !in a
    ensures r >= 0 ==> a[r] == card && forall j :: 0 <= j < r ==> a[j] != card
  {
    if a == [] then -1
    else if a[0] == card then 0
    else
      var r := IndexOf(a[1..], card);
      if r == -1 then -1 else r + 1
  }

  /** `array.splice(i, 1)` on a copy. */
  function RemoveAt(a: seq<CardId>, i: nat): seq<CardId>
    requires i < |a|
  {
    a[..i] + a[i + 1..]
  }

  /** The zone's right is not used up: `playerMagicPlacementRights` or `playerIjinSummonRights` at least 1. */
  predicate HasRight(s: SimState, zone: Zone) {
    match zone
    case MagicZone => s.magicPlacementRights >= 1
    case Battlefield => s.summonRights >= 1
  }

  /** `handlePlayCard(card, zone)`, before the render. */
  function PlayCard(s: SimState, card: CardId, zone: Zone): SimState
    requires s.turn == Player ==> s.player.hand.Some?
  {
    if s.turn != Player then s.(errorMessage := Some(NotYourTurn))
    else
      var hand := s.player.hand.value;
      var index := IndexOf(hand, card);
      if index == -1 then s.(errorMessage := Some(NotInHand))
      else
        match zone
        case MagicZone =>
          if !HasRight(s, MagicZone) then s.(errorMessage := Some(NoMagicPlacementRight))
          else
            QueueLog(s.(magicPlacementRights := s.magicPlacementRights - 1,
                         player := s.player.(magicZone := s.player.magicZone + [card],
                                             hand := Some(RemoveAt(hand, index)))),
                      PlacedInMagicZone(card))
        case Battlefield =>
          if !HasRight(s, Battlefield) then s.(errorMessage := Some(NoSummonRight))
          else
            QueueLog(s.(summonRights := s.summonRights - 1,
                         player := s.player.(battlefield := s.player.battlefield + [card],
                                             hand := Some(RemoveAt(hand, index)))),
                      SummonedToBattlefield(card))
  }

  // ---------------------------------------------------------------------------------------------
  // Enable and show flags of the rendered controls

  function EnabledStart(phase: Phase): bool { phase == Initial }

  function EnabledReset(phase: Phase): bool { phase != Initial }

  /** The "next turn" button: the match runs and the turn is the enemy's. */
  function EnabledNextTurn(phase: Phase, turn: Turn): bool { phase == Running && turn == Enemy }

  function ShowBattlefield(phase: Phase): bool { phase == Running || phase == Finished }

  /** The "end turn" button and the hand's play buttons are rendered only on the player's turn. */
  function ShowPlayerControls(phase: Phase, turn: Turn): bool { ShowBattlefield(phase) && turn == Player }

  /** A hand card's play button for `zone`: rendered, and not disabled by an exhausted right. */
  function EnabledPlay(phase: Phase, s: SimState, zone: Zone): bool {
    ShowPlayerControls(phase, s.turn) && HasRight(s, zone)
  }

  // ---------------------------------------------------------------------------------------------
  // Events and runs

  datatype Event =
    | OnReset
    | OnStart(deck: Deck, js: seq<nat>)
    | OnNextTurn
    | OnEndTurn
    | OnPlayCard(card: CardId, zone: Zone)

  predicate StepAllowed(s: SimState, e: Event) {
    match e
    case OnReset => true
    case OnStart(deck, js) => Total(deck) >= MinDeckSize ==> ValidOracle(js, Total(deck))
    case OnNextTurn => CanAdvance(s, s.turn)
    case OnEndTurn => CanAdvance(s, s.turn)
    case OnPlayCard(_, _) => s.turn == Player ==> s.player.hand.Some?
  }

  /** The handler an event runs, before React renders. */
  function Handle(s: SimState, e: Event): SimState
    requires StepAllowed(s, e)
  {
    match e
    case OnReset => ClickReset(s).0
    case OnStart(deck, js) => ClickStart(s, deck, js).0
    case OnNextTurn => ClickNextTurn(s)
    case OnEndTurn => EndPlayerTurn(s)
    case OnPlayCard(card, zone) => PlayCard(s, card, zone)
  }

  /** One event: its handler, then the render that runs the log updaters it queued. */
  function Step(s: SimState, e: Event): SimState
    requires StepAllowed(s, e)
  {
    Rendered(Handle(s, e))
  }

  /** One event under the intended log ids, captured when each updater is queued. */
  function StepCaptured(s: SimState, e: Event): SimState
    requires StepAllowed(s, e)
  {
    RenderedCaptured(Handle(s, e), s.logIdRef)
  }

  predicate RunAllowed(s: SimState, es: seq<Event>)
    decreases |es|
  {
    es == [] || (StepAllowed(s, es[0]) && RunAllowed(Step(s, es[0]), es[1..]))
  }

  function Run(s: SimState, es: seq<Event>): SimState
    requires RunAllowed(s, es)
    decreases |es|
  {
    if es == [] then s else Run(Step(s, es[0]), es[1..])
  }

  predicate RunCapturedAllowed(s: SimState, es: seq<Event>)
    decreases |es|
  {
    es == [] || (StepAllowed(s, es[0]) && RunCapturedAllowed(StepCaptured(s, es[0]), es[1..]))
  }

  function RunCaptured(s: SimState, es: seq<Event>): SimState
    requires RunCapturedAllowed(s, es)
    decreases |es|
  {
    if es == [] then s else RunCaptured(StepCaptured(s, es[0]), es[1..])
  }

  predicate ContainsReset(es: seq<Event>) {
    exists i :: 0 <= i < |es| && es[i].OnReset?
  }

  /** A match event: neither a start nor a reset. */
  predicate IsTurnEvent(e: Event) {
    e.OnNextTurn? || e.OnEndTurn? || e.OnPlayCard?
  }

  // ---------------------------------------------------------------------------------------------
  // Invariants

  predicate IdsNondecreasing(log: seq<LogEntry>) {
    forall i, j :: 0 <= i < j < |log| ==> log[i].id <= log[j].id
  }

  predicate IdsIncreasing(log: seq<LogEntry>) {
    forall i, j :: 0 <= i < j < |log| ==> log[i].id < log[j].id
  }

  predicate IdsWithin(log: seq<LogEntry>, lo: nat, hi: nat) {
    forall i :: 0 <= i < |log| ==> lo <= log[i].id < hi
  }

  /** `entries` carry the ids `lo, lo + 1, ..., hi - 1`, one each, in order. */
  predicate Consecutive(entries: seq<LogEntry>, lo: nat, hi: nat) {
    lo <= hi && |entries| == hi - lo && forall k :: 0 <= k < |entries| ==> entries[k].id == lo + k
  }

  predicate SideDealt(side: Side) {
    side.guardians.Some? && side.hand.Some? && side.library.Some?
  }

  predicate SideUndealt(side: Side) {
    side.guardians.None? && side.hand.None? && side.library.None?
  }

  predicate Dealt(s: SimState) {
    SideDealt(s.player) && SideDealt(s.enemy)
  }

  predicate Undealt(s: SimState) {
    SideUndealt(s.player) && SideUndealt(s.enemy)
  }

  /** No right is negative, and the dealt zones are either all null or all dealt. */
  predicate ZonesInvariant(s: SimState) {
    && s.magicPlacementRights >= 0 && s.summonRights >= 0
    && (Dealt(s) || Undealt(s))
  }

  /**
   * What holds in every state the view renders: no log updater is pending, the log's ids never
   * decrease and none exceeds the counter, and the zones invariant.
   */
  predicate Invariant(s: SimState) {
    && s.queuedLog == []
    && IdsNondecreasing(s.battleLog) && IdsWithin(s.battleLog, 0, s.logIdRef + 1)
    && ZonesInvariant(s)
  }

  /** The same under the intended log ids: they strictly increase and stay below the counter. */
  predicate CapturedInvariant(s: SimState) {
    && s.queuedLog == []
    && IdsIncreasing(s.battleLog) && IdsWithin(s.battleLog, 0, s.logIdRef)
    && ZonesInvariant(s)
  }

  function Cards(zone: Option<seq<CardId>>): multiset<CardId> {
    if zone.Some? then multiset(zone.value) else multiset{}
  }

  /** Every card a side holds, zone by zone. */
  function SideCards(side: Side): multiset<CardId> {
    Cards(side.guardians) + Cards(side.hand) + Cards(side.library)
    + multiset(side.magicZone) + multiset(side.battlefield) + multiset(side.graveyard)
  }
}
