/**
 * Safety of the offer protocol over every run: any order of handler runs, with any requests,
 * clocks, relay replies and database failures, and any number of refund handlers suspended at
 * their relay call while everything else goes on.
 */
module OfferRuns {
  import opened Common
  import opened EscrowContract
  import opened Relay
  import opened OfferProtocol
  import Sompi

  datatype Step =
    | StepPending(makerRelay: string, minutes: int, now: int, inserted: bool)
    | StepLegacy(makerRelay: string, makerAddr: Address, endDateMs: int, broadcast: TxId)
    | StepHandshake(addr: Option<Address>, now: int, db: Db)
    | StepPublish(publish: PublishRequest, now: int, tries: Tries, db: Db)
    | StepStake(stake: StakeRequest, tries: Tries, db: Db)
    | StepConfirm(relay: string, addr: Option<Address>, winner: int, dispatch: Dispatch)
    | StepRefundSend(now: int)
    | StepRefundResume(handler: nat, tx: Option<TxId>, db: Db)
    | StepAccept(taker: Option<Address>, verified: bool, autoFire: bool, ack: bool, db: Db)
    | StepReopen
    | StepRemoteAccept(taker: Option<Address>, passes: bool)
    | StepMove(to: Status, settleTx: Option<TxId>)
    | StepSettlerRead
    | StepSettlerWrite(k: nat)
    | StepForeign(payments: seq<Payment>)

  function Apply(w: World, step: Step): Outcome {
    match step
    case StepPending(makerRelay, minutes, now, inserted) => PendingOffer(w, makerRelay, minutes, now, inserted)
    case StepLegacy(makerRelay, makerAddr, endDateMs, broadcast) => LegacyOffer(w, makerRelay, makerAddr, endDateMs, broadcast)
    case StepHandshake(addr, now, db) => TakerHandshake(w, addr, now, db)
    case StepPublish(r, now, tries, db) => PublishV2(w, r, now, tries, db)
    case StepStake(r, tries, db) => TakerStake(w, r, tries, db)
    case StepConfirm(relay, addr, winner, d) => Confirm(w, relay, addr, winner, d)
    case StepRefundSend(now) => RefundSend(w, now)
    case StepRefundResume(handler, tx, db) => RefundResume(w, handler, tx, db)
    case StepAccept(taker, verified, autoFire, ack, db) => Accept(w, taker, verified, autoFire, ack, db)
    case StepReopen => Reopen(w)
    case StepRemoteAccept(taker, passes) => RemoteAccept(w, taker, passes)
    case StepMove(to, settleTx) => Move(w, to, settleTx)
    case StepSettlerRead => SettlerRead(w)
    case StepSettlerWrite(k) => SettlerWrite(w, k)
    case StepForeign(payments) => Foreign(w, payments)
  }

  /** What the relay pays is what double arithmetic makes of the amount it was asked for. */
  ghost predicate Possible(w: World, step: Step) {
    match step
    case StepPublish(r, _, _, _) =>
      BakedSompi(r) >= 0 ==> Sompi.Moves(BakedSompi(r), r.moved)
    case StepStake(r, _, _) =>
      w.offer.Some? && w.offer.value.meta.baked.Some? && w.offer.value.meta.baked.value.takerSompi >= 0 ==>
      Sompi.Moves(w.offer.value.meta.baked.value.takerSompi, r.moved)
    case _ => true
  }

  function Run(w: World, steps: seq<Step>): World
    decreases |steps|
  {
    if steps == [] then w else Run(Apply(w, steps[0]).world, steps[1..])
  }

  ghost predicate PossibleRun(w: World, steps: seq<Step>)
    decreases |steps|
  {
    steps != [] ==> Possible(w, steps[0]) && PossibleRun(Apply(w, steps[0]).world, steps[1..])
  }

  /** No offer yet; the ledger may already hold anything. */
  function Start(ledger: seq<Payment>): World { World(None, ledger, [], {}, [], []) }

  // ---------- what a step may touch ----------

  /**
   * The ledger only grows; a row never disappears; a written refund id stays; new script
   * arguments come from the compiler; votes are kept, or start afresh while none can exist; and
   * at most one event is recorded, never a vote; and what the settler sees is what the row shows.
   */
  ghost predicate Frame(w: World, w': World) {
    && w.ledger <= w'.ledger
    && (w'.events == w.events || GainsPlainEvent(w.events, w'.events))
    && (w.offer.Some? ==> w'.offer.Some? && RowFrame(w.offer.value, w'.offer.value))
    && (w.offer.None? ==> w'.events == w.events && (w'.offer.Some? ==> w'.offer.value.meta == EMPTY_META))
    && (w'.seen == w.seen || SeesMore(w, w'))
  }

  /** The settler reads the metadata of an offer it is about to settle. */
  ghost predicate SeesMore(w: World, w': World) {
    && w.offer.Some? && w.offer.value.status in {Matched, Verifying, CollectingSigs}
    && w' == w.(seen := w.seen + [w.offer.value.meta])
  }

  ghost predicate GainsPlainEvent(events: seq<Event>, events': seq<Event>) {
    && |events'| == |events| + 1
    && var e := events'[|events|];
    && events' == events + [e] && !e.Voted? && !e.Dispatched? && !e.PutBack?
  }

  ghost predicate RowFrame(o: Offer, o': Offer) {
    && (o.refundTx.Some? ==> o'.refundTx == o.refundTx)
    && (o'.meta.baked == o.meta.baked
        || (o.status == HandshakeDone && o'.meta.baked.Some? && ValidCtor(o'.meta.baked.value.script)))
    && (o'.meta.votes == o.meta.votes || (o.status == HandshakeDone && o'.meta.votes == Votes(None, None)))
  }

  lemma {:induction false} HandshakeFrame(w: World, addr: Option<Address>, now: int, db: Db)
    ensures Frame(w, TakerHandshake(w, addr, now, db).world)
  {
  }

  /** What passing all checks of publish-v2 means. */
  lemma {:induction false} TargetFacts(offer: Option<Offer>, r: PublishRequest, now: int)
    requires PublishTarget(offer, r, now).Ok?
    ensures
      var c := PublishTarget(offer, r, now).value;
      && offer.Some? && offer.value.status == HandshakeDone && offer.value.pendingPk == Some(c.takerPk)
      && r.makerAddr == Some(Wallet(c.makerPk))
      && r.endDateMs.Some? && c.deadline == r.endDateMs.value / 1000
      && ValidCtor(c) && c.makerStake == c.takerStake == BakedSompi(r) && c.minerFee != 0
  {
  }

  lemma {:induction false} PaidFrame(w: World, r: PublishRequest, c: Ctor, sent: Sent<Payment>, db: Db)
    requires w.offer.Some? && w.offer.value.status == HandshakeDone && w.ledger <= sent.ledger && ValidCtor(c)
    ensures Frame(w, PublishPaid(w, r, c, sent, db).world)
  {
  }

  lemma {:induction false} PublishFrame(w: World, r: PublishRequest, now: int, tries: Tries, db: Db)
    ensures Frame(w, PublishV2(w, r, now, tries, db).world)
  {
    match PublishTarget(w.offer, r, now)
    case Err(_) =>
    case Ok(c) =>
      TargetFacts(w.offer, r, now);
      PaidFrame(w, r, c, Lock(w.ledger, c.makerPk, P2sh(c), r.moved, tries), db);
  }

  lemma {:induction false} StakeFrame(w: World, r: StakeRequest, tries: Tries, db: Db)
    ensures Frame(w, TakerStake(w, r, tries, db).world)
  {
  }

  lemma {:induction false} RefundFrame(w: World, handler: nat, tx: Option<TxId>, db: Db)
    ensures Frame(w, RefundResume(w, handler, tx, db).world)
  {
  }

  lemma {:induction false} AcceptFrame(w: World, taker: Option<Address>, verified: bool, autoFire: bool, ack: bool, db: Db)
    ensures Frame(w, Accept(w, taker, verified, autoFire, ack, db).world)
  {
  }

  lemma {:induction false} MoveFrame(w: World, to: Status, settleTx: Option<TxId>)
    ensures Frame(w, Move(w, to, settleTx).world)
  {
  }

  /** A vote changes the row's votes and the status, and nothing else in it. */
  lemma {:induction false} ConfirmFrame(w: World, relay: string, addr: Option<Address>, winner: int, d: Dispatch)
    ensures
      var w' := Confirm(w, relay, addr, winner, d).world;
      && w'.ledger == w.ledger && w'.seen == w.seen && w'.offer.Some? == w.offer.Some?
      && (w.offer.Some? ==>
            && w'.offer.value.refundTx == w.offer.value.refundTx
            && w'.offer.value.meta.baked == w.offer.value.meta.baked)
      && (w.offer.Some? && w.offer.value.status != Matched && w.offer.value.status != Verifying ==> w' == w)
  {
  }

  lemma {:induction false} StepFrame(w: World, step: Step)
    requires !step.StepConfirm? && !step.StepSettlerWrite?
    ensures Frame(w, Apply(w, step).world)
  {
    match step
    case StepHandshake(addr, now, db) => HandshakeFrame(w, addr, now, db);
    case StepPublish(r, now, tries, db) => PublishFrame(w, r, now, tries, db);
    case StepStake(r, tries, db) => StakeFrame(w, r, tries, db);
    case StepRefundResume(handler, tx, db) => RefundFrame(w, handler, tx, db);
    case StepAccept(taker, verified, autoFire, ack, db) => AcceptFrame(w, taker, verified, autoFire, ack, db);
    case StepMove(to, settleTx) => MoveFrame(w, to, settleTx);
    case _ =>
  }

  // ---------- what every step keeps ----------

  /** The named payment was made by `payer` to `to`, and of exactly `stake` when that is below 2^52. */
  ghost predicate Locked(ledger: seq<Payment>, tx: Option<TxId>, payer: Key, to: Address, stake: int) {
    && tx.Some? && tx.value < |ledger|
    && var p := ledger[tx.value];
    && p.payer == payer && p.to == to
    && (stake < Sompi.TWO_TO_52 ==> p.sompi == stake)
  }

  /** The row agrees with the script it published and names the maker's payment into it. */
  ghost predicate Escrowed(o: Offer, ledger: seq<Payment>) {
    && o.escrow.Some? && o.meta.baked.Some?
    && var b := o.meta.baked.value; var c := b.script;
    && o.escrow.value == P2sh(c)
    && 1 <= b.makerSompi == b.takerSompi == c.makerStake == c.takerStake
    && b.minerFee == c.minerFee != 0
    && o.makerAddr == Some(Wallet(c.makerPk)) && o.pendingPk == Some(c.takerPk)
    && 1 <= c.deadline && !o.endDate.Missing? && (o.endDate.Millis? ==> c.deadline == o.endDate.ms / 1000)
    && Locked(ledger, o.lockTx, c.makerPk, P2sh(c), c.makerStake)
  }

  /** The row names the payment of the script's taker into it, whatever the taker column says. */
  ghost predicate TakerLocked(o: Offer, ledger: seq<Payment>) {
    && o.escrow.Some? && o.meta.baked.Some?
    && var c := o.meta.baked.value.script;
    && Locked(ledger, o.takerLockTx, c.takerPk, P2sh(c), c.takerStake)
  }

  /** States only reached through `matched`. */
  ghost predicate PastMatch(s: Status) {
    match s
    case Matched | Verifying | CollectingSigs | Delivering | Verified => true
    case AwaitingManualConfirm | AwaitingOracle | Completed | Disputed | Failed => true
    case _ => false
  }

  ghost predicate BeforeMatch(s: Status) {
    s == PendingTaker || s == HandshakeDone || s == Open || s == OpenAwaitingTakerStake
  }

  /**
   * What the events say about matching: the taker column as it was last written by a match or a
   * reopening (None before the first match), and whether the offer was ever reopened.
   */
  datatype Match = Match(taker: Option<Option<Address>>, reopened: bool)

  ghost function MatchOf(events: seq<Event>): Match {
    if events == [] then Match(None, false)
    else NextMatch(MatchOf(events[..|events| - 1]), events[|events| - 1])
  }

  ghost function NextMatch(m: Match, e: Event): Match {
    match e
    case BecameMatched(taker) => m.(taker := Some(taker))
    case Reopened => Match(Some(None), true)
    case _ => m
  }

  lemma {:induction false} MatchStep(events: seq<Event>, e: Event)
    ensures MatchOf(events + [e]) == NextMatch(MatchOf(events), e)
  {
    assert (events + [e])[..|events|] == events;
  }

  ghost predicate RowInv(o: Offer, ledger: seq<Payment>, m: Match) {
    && (o.escrow.None? ==> o.takerLockTx.None? && o.status != OpenAwaitingTakerStake)
    && (o.escrow.Some? ==> Escrowed(o, ledger) && o.status != PendingTaker && (o.status == Open ==> m.reopened))
    && (o.status == PendingTaker || o.status == HandshakeDone ==> o.takerLockTx.None?)
    && (o.takerLockTx.Some? ==> TakerLocked(o, ledger))
    && (PastMatch(o.status) || m.reopened ==> m.taker.Some?)
    && (m.taker.Some? ==> MatchedRow(o, m))
    && (o.refundTx.None? ==> o.status != Refunded)
  }

  /**
   * A row that was matched: its taker column is the one last written, which for an escrowed offer
   * that was never reopened is the script's taker; and only reopening takes it back to `open`.
   */
  ghost predicate MatchedRow(o: Offer, m: Match)
    requires m.taker.Some?
  {
    && o.taker == m.taker.value
    && (BeforeMatch(o.status) ==> o.status == Open && m.reopened)
    && (o.escrow.Some? ==>
          && o.takerLockTx.Some? && o.meta.baked.Some?
          && (!m.reopened ==> o.taker == Some(Wallet(o.meta.baked.value.script.takerPk))))
  }

  /**
   * An order spends a published script; with an end date that reads, not before the script allows
   * it and not from the future, and otherwise with lock time zero.
   * A refund of both stakes names the two recorded payments; unless the offer was reopened, it
   * pays the two keys of the script.
   */
  ghost predicate SoundOrder(r: RefundOrder, ledger: seq<Payment>, reopened: bool) {
    && var c := r.script;
    && r.from == P2sh(c) && c.minerFee != 0 && 1 <= c.makerStake == c.takerStake && 1 <= c.deadline
    && !r.endDate.Missing?
    && (r.endDate.Millis? ==> c.deadline * 1000 == r.lockTime <= r.sentAt)
    && (r.endDate.Unreadable? ==> r.lockTime == 0)
    && r.makerTo == Wallet(c.makerPk)
    && (r.branch == 1 || r.branch == 2)
    && (r.branch == 1 ==>
          && |r.inputs| == 2
          && Locked(ledger, r.inputs[0], c.makerPk, P2sh(c), c.makerStake)
          && Locked(ledger, r.inputs[1], c.takerPk, P2sh(c), c.takerStake)
          && r.takerTo.Some? && (!reopened ==> r.takerTo == Some(Wallet(c.takerPk)))
          && [TxOut(c.makerPk, r.makerSompi), TxOut(c.takerPk, r.takerSompi)]
             == RefundBothOutputs(c.makerPk, c.takerPk, c))
  }

  ghost predicate Inv(w: World) {
    && (w.offer.None? ==> w.orders == [] && w.waiting == {} && w.events == [])
    && (w.offer.Some? ==> RowInv(w.offer.value, w.ledger, MatchOf(w.events)))
    && (w.offer.Some? ==> Written(w.events) == if w.offer.value.refundTx.Some? then [w.offer.value.refundTx.value] else [])
    && forall i :: 0 <= i < |w.orders| ==> SoundOrder(w.orders[i], w.ledger, MatchOf(w.events).reopened)
  }

  /** What the settler has seen was a matched offer's metadata, whose script and amounts are for good. */
  ghost predicate SeenInv(w: World) {
    w.seen != [] ==> MatchOf(w.events).taker.Some? && w.offer.Some? && AllBaked(w.seen, w.offer.value.meta.baked)
  }

  ghost predicate AllBaked(seen: seq<Meta>, baked: Option<Baked>) {
    forall k :: 0 <= k < |seen| ==> seen[k].baked == baked
  }

  /** The refund ids written so far, in order. */
  ghost function Written(events: seq<Event>): seq<TxId> {
    if events == [] then []
    else
      var last := events[|events| - 1];
      Written(events[..|events| - 1]) + if last.RefundWritten? then [last.tx] else []
  }

  lemma {:induction false} WrittenStep(events: seq<Event>, e: Event)
    ensures Written(events + [e]) == Written(events) + if e.RefundWritten? then [e.tx] else []
  {
    assert (events + [e])[..|events|] == events;
  }

  /** Recorded locks outlive any growth of the ledger. */
  lemma {:induction false} LockedGrows(ledger: seq<Payment>, more: seq<Payment>, tx: Option<TxId>, payer: Key, to: Address, stake: int)
    requires Locked(ledger, tx, payer, to, stake)
    ensures Locked(ledger + more, tx, payer, to, stake)
  {
  }

  lemma {:induction false} OrdersGrow(orders: seq<RefundOrder>, ledger: seq<Payment>, more: seq<Payment>, before: bool, now: bool)
    requires before ==> now
    requires forall i :: 0 <= i < |orders| ==> SoundOrder(orders[i], ledger, before)
    ensures forall i :: 0 <= i < |orders| ==> SoundOrder(orders[i], ledger + more, now)
  {
  }

  lemma {:induction false} RowGrows(o: Offer, ledger: seq<Payment>, more: seq<Payment>, m: Match)
    requires RowInv(o, ledger, m)
    ensures RowInv(o, ledger + more, m)
  {
  }

  /** A transfer that comes back with an id is the payment the caller wanted. */
  lemma {:induction false} LockPays(ledger: seq<Payment>, payer: Key, to: Address, moved: Option<nat>, tries: Tries, stake: int)
    requires stake >= 1 && Sompi.Moves(stake, moved)
    ensures
      var sent := Lock(ledger, payer, to, moved, tries);
      && ledger <= sent.ledger
      && (sent.tx.Some? ==> Locked(sent.ledger, sent.tx, payer, to, stake))
  {
    if stake < Sompi.TWO_TO_52 {
      Sompi.MovesExactly(stake, moved);
    }
  }

  /** A step that only writes the row, the ledger and events of other kinds. */
  lemma {:induction false} RowWritten(w: World, o: Offer, ledger: seq<Payment>, events: seq<Event>)
    requires Inv(w) && w.offer.Some? && o.refundTx == w.offer.value.refundTx
    requires w.ledger <= ledger && RowInv(o, ledger, MatchOf(events))
    requires Written(events) == Written(w.events)
    requires MatchOf(w.events).reopened ==> MatchOf(events).reopened
    ensures Inv(World(Some(o), ledger, w.orders, w.waiting, w.seen, events))
  {
    OrdersGrow(w.orders, w.ledger, ledger[|w.ledger|..], MatchOf(w.events).reopened, MatchOf(events).reopened);
    assert w.ledger + ledger[|w.ledger|..] == ledger;
  }

  lemma {:induction false} PublishedRow(o: Offer, r: PublishRequest, c: Ctor, ledger: seq<Payment>, tx: TxId, m: Match)
    requires RowInv(o, ledger, m) && o.status == HandshakeDone && o.pendingPk == Some(c.takerPk)
    requires r.makerAddr == Some(Wallet(c.makerPk)) && r.endDateMs.Some? && 1 <= c.deadline == r.endDateMs.value / 1000
    requires 1 <= c.makerStake == c.takerStake && c.minerFee != 0
    requires Locked(ledger, Some(tx), c.makerPk, P2sh(c), c.makerStake)
    ensures
      var o' := Published(o, r, c, tx);
      && RowInv(o', ledger, m) && RowInv(Transition(o', OpenAwaitingTakerStake), ledger, m)
  {
    var o' := Published(o, r, c, tx);
    assert Escrowed(o', ledger);
    assert Transition(o', OpenAwaitingTakerStake) == o'.(status := OpenAwaitingTakerStake);
  }

  lemma {:induction false} PaidKeeps(w: World, r: PublishRequest, c: Ctor, sent: Sent<Payment>, db: Db)
    requires Inv(w) && w.ledger <= sent.ledger
    requires w.offer.Some? && w.offer.value.status == HandshakeDone && w.offer.value.pendingPk == Some(c.takerPk)
    requires r.makerAddr == Some(Wallet(c.makerPk)) && r.endDateMs.Some? && 1 <= c.deadline == r.endDateMs.value / 1000
    requires 1 <= c.makerStake == c.takerStake && c.minerFee != 0
    requires sent.tx.Some? ==> Locked(sent.ledger, sent.tx, c.makerPk, P2sh(c), c.makerStake)
    ensures Inv(PublishPaid(w, r, c, sent, db).world)
  {
    var o := w.offer.value;
    var more := sent.ledger[|w.ledger|..];
    assert sent.ledger == w.ledger + more;
    var m := MatchOf(w.events);
    RowGrows(o, w.ledger, more, m);
    RowWritten(w, o, sent.ledger, w.events);
    if sent.tx.Some? {
      PublishedRow(o, r, c, sent.ledger, sent.tx.value, m);
      var o' := Published(o, r, c, sent.tx.value);
      RowWritten(w, o', sent.ledger, w.events);
      RowWritten(w, Transition(o', OpenAwaitingTakerStake), sent.ledger, w.events);
    }
  }

  lemma {:induction false} PublishKeeps(w: World, r: PublishRequest, now: int, tries: Tries, db: Db)
    requires Inv(w) && Possible(w, StepPublish(r, now, tries, db))
    ensures Inv(PublishV2(w, r, now, tries, db).world)
  {
    match PublishTarget(w.offer, r, now)
    case Err(_) =>
    case Ok(c) =>
      TargetFacts(w.offer, r, now);
      LockPays(w.ledger, c.makerPk, P2sh(c), r.moved, tries, c.makerStake);
      PaidKeeps(w, r, c, Lock(w.ledger, c.makerPk, P2sh(c), r.moved, tries), db);
  }

  lemma {:induction false} StakedRow(o: Offer, r: StakeRequest, ledger: seq<Payment>, tx: TxId, m: Match)
    requires RowInv(o, ledger, m) && o.status == OpenAwaitingTakerStake
    requires o.meta.baked.Some? && r.takerAddr == Some(Wallet(o.meta.baked.value.script.takerPk))
    requires var c := o.meta.baked.value.script; Locked(ledger, Some(tx), c.takerPk, P2sh(c), c.takerStake)
    ensures RowInv(Staked(o, r, tx), ledger, m)
    ensures RowInv(Transition(Staked(o, r, tx), Matched), ledger, m.(taker := Some(r.takerAddr)))
  {
    var o' := Staked(o, r, tx);
    assert Escrowed(o', ledger) && TakerLocked(o', ledger);
    assert Transition(o', Matched) == o'.(status := Matched);
  }

  lemma {:induction false} StakePaidKeeps(w: World, r: StakeRequest, sent: Sent<Payment>, db: Db)
    requires Inv(w) && w.offer.Some? && w.offer.value.status == OpenAwaitingTakerStake && w.ledger <= sent.ledger
    requires r.takerAddr == Some(Wallet(w.offer.value.meta.baked.value.script.takerPk))
    requires
      var c := w.offer.value.meta.baked.value.script;
      sent.tx.Some? ==> Locked(sent.ledger, sent.tx, c.takerPk, P2sh(c), c.takerStake)
    ensures Inv(StakePaid(w, r, sent, db).world)
  {
    var o := w.offer.value;
    var more := sent.ledger[|w.ledger|..];
    assert sent.ledger == w.ledger + more;
    var m := MatchOf(w.events);
    RowGrows(o, w.ledger, more, m);
    RowWritten(w, o, sent.ledger, w.events);
    if sent.tx.Some? {
      StakedRow(o, r, sent.ledger, sent.tx.value, m);
      var o' := Staked(o, r, sent.tx.value);
      RowWritten(w, o', sent.ledger, w.events);
      var e := BecameMatched(r.takerAddr);
      WrittenStep(w.events, e);
      MatchStep(w.events, e);
      RowWritten(w, Transition(o', Matched), sent.ledger, w.events + [e]);
    }
  }

  lemma {:induction false} StakeKeeps(w: World, r: StakeRequest, tries: Tries, db: Db)
    requires Inv(w) && Possible(w, StepStake(r, tries, db))
    ensures Inv(TakerStake(w, r, tries, db).world)
  {
    if StakeRefusal(w.offer, r).None? {
      var c := w.offer.value.meta.baked.value.script;
      assert r.takerAddr == Some(Wallet(c.takerPk)) && w.offer.value.escrow == Some(P2sh(c));
      LockPays(w.ledger, c.takerPk, P2sh(c), r.moved, tries, c.takerStake);
      StakePaidKeeps(w, r, Lock(w.ledger, c.takerPk, P2sh(c), r.moved, tries), db);
    }
  }

  /** Writing votes and following status edges past `matched` leaves the row's invariant alone. */
  lemma {:induction false} VotedRow(o: Offer, ledger: seq<Payment>, votes: Votes, d: Dispatch, m: Match)
    requires RowInv(o, ledger, m) && (o.status == Matched || o.status == Verifying)
    ensures RowInv(WithVotes(o, votes), ledger, m)
    ensures RowInv(ApplyDispatch(WithVotes(o, votes), d), ledger, m)
    ensures ApplyDispatch(WithVotes(o, votes), d).refundTx == o.refundTx
  {
    var o' := WithVotes(o, votes);
    assert RowInv(o', ledger, m);
    var o'' := ApplyDispatch(o', d);
    assert o'' == o'.(status := o''.status, settleTx := o''.settleTx);
    assert o''.status == Matched || o''.status == Verifying || o''.status == CollectingSigs || o''.status == Completed;
  }

  lemma {:induction false} VotesAreNoMatch(events: seq<Event>, e: Event)
    requires e.Voted? || e.Dispatched?
    ensures Written(events + [e]) == Written(events) && MatchOf(events + [e]) == MatchOf(events)
  {
    WrittenStep(events, e);
    MatchStep(events, e);
    assert Written(events) + [] == Written(events);
  }

  lemma {:induction false} CastVoteKeeps(w: World, role: Role, winner: int, d: Dispatch)
    requires Inv(w) && w.offer.Some? && (w.offer.value.status == Matched || w.offer.value.status == Verifying)
    ensures Inv(CastVote(w, role, winner, d).world)
  {
    var o := w.offer.value;
    var votes := o.meta.votes.Set(role, winner);
    var events := w.events + [Voted(role, winner)];
    VotedRow(o, w.ledger, votes, d, MatchOf(w.events));
    VotesAreNoMatch(w.events, Voted(role, winner));
    if !votes.Agree() {
      RowWritten(w, WithVotes(o, votes), w.ledger, events);
    } else {
      var e := Dispatched(votes.maker.value);
      VotesAreNoMatch(events, e);
      RowWritten(w, ApplyDispatch(WithVotes(o, votes), d), w.ledger, events + [e]);
    }
  }

  lemma {:induction false} ConfirmKeeps(w: World, relay: string, addr: Option<Address>, winner: int, d: Dispatch)
    requires Inv(w)
    ensures Inv(Confirm(w, relay, addr, winner, d).world)
  {
    match VoteTarget(w.offer, relay, addr, winner)
    case Err(_) =>
    case Ok(role) => CastVoteKeeps(w, role, winner, d);
  }

  lemma {:induction false} OrderIsSound(o: Offer, ledger: seq<Payment>, m: Match, now: int)
    requires RowInv(o, ledger, m) && RefundRefusal(Some(o), now).None?
    ensures SoundOrder(OrderOf(o, now), ledger, m.reopened)
  {
    var r, c := OrderOf(o, now), o.meta.baked.value.script;
    assert Escrowed(o, ledger);
    assert r.script == c;
    if r.branch == 1 {
      assert TakerLocked(o, ledger);
      var outputs := RefundBothOutputs(c.makerPk, c.takerPk, c);
      assert outputs[0] == TxOut(c.makerPk, r.makerSompi) && outputs[1] == TxOut(c.takerPk, r.takerSompi);
    }
  }

  lemma {:induction false} RefundSendKeeps(w: World, now: int)
    requires Inv(w)
    ensures Inv(RefundSend(w, now).world)
  {
    if RefundRefusal(w.offer, now).None? {
      OrderIsSound(w.offer.value, w.ledger, MatchOf(w.events), now);
      var order := OrderOf(w.offer.value, now);
      assert forall i :: 0 <= i < |w.orders| + 1 ==> SoundOrder((w.orders + [order])[i], w.ledger, MatchOf(w.events).reopened);
    }
  }

  lemma {:induction false} RefundedRow(o: Offer, ledger: seq<Payment>, m: Match, tx: TxId)
    requires RowInv(o, ledger, m)
    ensures
      var o' := o.(refundTx := Some(tx));
      && RowInv(o', ledger, m) && RowInv(Transition(o', Refunded), ledger, m)
  {
    var o' := o.(refundTx := Some(tx));
    assert Transition(o', Refunded) == o'.(status := Transition(o', Refunded).status);
  }

  lemma {:induction false} RefundResumeKeeps(w: World, handler: nat, tx: Option<TxId>, db: Db)
    requires Inv(w)
    ensures Inv(RefundResume(w, handler, tx, db).world)
  {
    if handler in w.waiting && w.offer.Some? && tx.Some? {
      RefundedRow(w.offer.value, w.ledger, MatchOf(w.events), tx.value);
      WrittenStep(w.events, RefundWritten(tx.value));
      MatchStep(w.events, RefundWritten(tx.value));
    }
  }

  lemma {:induction false} CreateKeeps(w: World, o: Offer)
    requires Inv(w) && w.offer.None?
    requires RowInv(o, w.ledger, Match(None, false)) && o.refundTx.None?
    ensures Inv(w.(offer := Some(o)))
  {
  }

  lemma {:induction false} HandshakeKeeps(w: World, addr: Option<Address>, now: int, db: Db)
    requires Inv(w)
    ensures Inv(TakerHandshake(w, addr, now, db).world)
  {
    var w' := TakerHandshake(w, addr, now, db).world;
    if w' != w {
      var o := w.offer.value;
      var o' := o.(pendingPk := Some(addr.value.key), taker := addr);
      assert RowInv(o', w.ledger, MatchOf(w.events));
      RowWritten(w, o', w.ledger, w.events);
      RowWritten(w, o'.(status := HandshakeDone), w.ledger, w.events);
    }
  }

  lemma {:induction false} AcceptedRow(o: Offer, ledger: seq<Payment>, m: Match, taker: Option<Address>)
    requires RowInv(o, ledger, m) && o.status == Open
    ensures RowInv(o.(status := Matched, taker := taker), ledger, m.(taker := Some(taker)))
  {
  }

  /** An accept, by the handler or by a message of the general exchange. */
  /** What an accept leaves, by the handler or by a message. */
  function Accepted(w: World, taker: Option<Address>): World
    requires w.offer.Some?
  {
    w.(offer := Some(w.offer.value.(status := Matched, taker := taker)), events := w.events + [BecameMatched(taker)])
  }

  lemma {:induction false} AcceptEffect(w: World, taker: Option<Address>, verified: bool, autoFire: bool, ack: bool, db: Db)
    ensures
      var w' := Accept(w, taker, verified, autoFire, ack, db).world;
      w' == w || (w.offer.Some? && w.offer.value.status == Open && w' == Accepted(w, taker))
  {
  }

  lemma {:induction false} RemoteAcceptEffect(w: World, taker: Option<Address>, passes: bool)
    ensures
      var w' := RemoteAccept(w, taker, passes).world;
      w' == w || (w.offer.Some? && w.offer.value.status == Open && w' == Accepted(w, taker))
  {
  }

  lemma {:induction false} AcceptanceKeeps(w: World, taker: Option<Address>)
    requires Inv(w) && w.offer.Some? && w.offer.value.status == Open
    ensures Inv(Accepted(w, taker))
  {
    var o, e := w.offer.value, BecameMatched(taker);
    AcceptedRow(o, w.ledger, MatchOf(w.events), taker);
    WrittenStep(w.events, e);
    MatchStep(w.events, e);
    RowWritten(w, o.(status := Matched, taker := taker), w.ledger, w.events + [e]);
  }

  lemma {:induction false} ReopenedRow(o: Offer, ledger: seq<Payment>, m: Match)
    requires RowInv(o, ledger, m) && o.status == Matched
    ensures RowInv(o.(status := Open, taker := None), ledger, Match(Some(None), true))
  {
    var o' := o.(status := Open, taker := None);
    assert o.escrow.Some? ==> Escrowed(o', ledger) && TakerLocked(o', ledger);
  }

  lemma {:induction false} ReopenKeeps(w: World)
    requires Inv(w)
    ensures Inv(Reopen(w).world)
  {
    if w.offer.Some? && w.offer.value.status == Matched {
      ReopenedRow(w.offer.value, w.ledger, MatchOf(w.events));
      WrittenStep(w.events, Reopened);
      MatchStep(w.events, Reopened);
      RowWritten(w, w.offer.value.(status := Open, taker := None), w.ledger, w.events + [Reopened]);
    }
  }

  lemma {:induction false} AcceptKeeps(w: World, taker: Option<Address>, verified: bool, autoFire: bool, ack: bool, db: Db)
    requires Inv(w)
    ensures Inv(Accept(w, taker, verified, autoFire, ack, db).world)
  {
    AcceptEffect(w, taker, verified, autoFire, ack, db);
    if w.offer.Some? && w.offer.value.status == Open { AcceptanceKeeps(w, taker); }
  }

  lemma {:induction false} RemoteAcceptKeeps(w: World, taker: Option<Address>, passes: bool)
    requires Inv(w)
    ensures Inv(RemoteAccept(w, taker, passes).world)
  {
    RemoteAcceptEffect(w, taker, passes);
    if w.offer.Some? && w.offer.value.status == Open { AcceptanceKeeps(w, taker); }
  }

  lemma {:induction false} TableEdges(s: Status, to: Status)
    requires OutsideMove(to) && (to in Successors(s) || DirectWrite(s, to))
    ensures PastMatch(to) ==> PastMatch(s)
    ensures !BeforeMatch(to) && to != Refunded
  {
  }

  /** The other moves outside the handlers neither enter nor re-enter the states the handlers guard. */
  lemma {:induction false} OutsideEdges(w: World, to: Status, settleTx: Option<TxId>)
    requires w.offer.Some? && OutsideMove(to)
    ensures
      var o := w.offer.value; var o' := Move(w, to, settleTx).world.offer.value;
      && o' == o.(status := o'.status, settleTx := o'.settleTx)
      && (PastMatch(o'.status) ==> PastMatch(o.status))
      && (BeforeMatch(o'.status) || o'.status == Refunded ==> o'.status == o.status)
  {
    var s := w.offer.value.status;
    if to in Successors(s) || DirectWrite(s, to) { TableEdges(s, to); }
  }

  lemma {:induction false} MovedRow(o: Offer, ledger: seq<Payment>, m: Match, s: Status, settleTx: Option<TxId>)
    requires RowInv(o, ledger, m)
    requires PastMatch(s) ==> PastMatch(o.status)
    requires BeforeMatch(s) || s == Refunded ==> s == o.status
    ensures RowInv(o.(status := s, settleTx := settleTx), ledger, m)
  {
  }

  lemma {:induction false} MoveKeeps(w: World, to: Status, settleTx: Option<TxId>)
    requires Inv(w)
    ensures Inv(Move(w, to, settleTx).world)
  {
    if w.offer.Some? && OutsideMove(to) {
      var o' := Move(w, to, settleTx).world.offer.value;
      OutsideEdges(w, to, settleTx);
      MovedRow(w.offer.value, w.ledger, MatchOf(w.events), o'.status, o'.settleTx);
      RowWritten(w, o', w.ledger, w.events);
    }
  }

  /** Writing back metadata of the same script changes neither what the row promises nor the refund. */
  lemma {:induction false} PutBackRow(o: Offer, ledger: seq<Payment>, m: Match, meta: Meta)
    requires RowInv(o, ledger, m) && meta.baked == o.meta.baked
    ensures RowInv(o.(meta := meta), ledger, m)
  {
  }

  lemma {:induction false} SettlerWriteKeeps(w: World, k: nat)
    requires Inv(w) && SeenInv(w)
    ensures Inv(SettlerWrite(w, k).world)
  {
    if w.offer.Some? && k < |w.seen| {
      var e := PutBack(w.seen[k].votes);
      PutBackRow(w.offer.value, w.ledger, MatchOf(w.events), w.seen[k]);
      WrittenStep(w.events, e);
      MatchStep(w.events, e);
      RowWritten(w, w.offer.value.(meta := w.seen[k]), w.ledger, w.events + [e]);
    }
  }

  /** Once matched, always matched: events are only added, and none of them takes it back. */
  lemma {:induction false} FrameKeepsMatch(w: World, w': World)
    requires Frame(w, w') && MatchOf(w.events).taker.Some?
    ensures MatchOf(w'.events).taker.Some?
  {
    if w'.events != w.events { MatchStep(w.events, w'.events[|w.events|]); }
  }

  lemma {:induction false} FrameKeepsSeen(w: World, w': World)
    requires Inv(w) && SeenInv(w) && Frame(w, w')
    ensures SeenInv(w')
  {
    if w'.seen == w.seen {
      if w.seen != [] { FrameKeepsMatch(w, w'); }
    } else {
      assert MatchOf(w.events).taker.Some?;
    }
  }

  lemma {:induction false} CastVoteKeepsMatch(w: World, role: Role, winner: int, d: Dispatch)
    requires w.offer.Some?
    ensures MatchOf(CastVote(w, role, winner, d).world.events) == MatchOf(w.events)
  {
    var votes := w.offer.value.meta.votes.Set(role, winner);
    VotesAreNoMatch(w.events, Voted(role, winner));
    if votes.Agree() {
      VotesAreNoMatch(w.events + [Voted(role, winner)], Dispatched(votes.maker.value));
    }
  }

  lemma {:induction false} ConfirmKeepsSeen(w: World, relay: string, addr: Option<Address>, winner: int, d: Dispatch)
    requires SeenInv(w)
    ensures SeenInv(Confirm(w, relay, addr, winner, d).world)
  {
    ConfirmFrame(w, relay, addr, winner, d);
    match VoteTarget(w.offer, relay, addr, winner)
    case Err(_) =>
    case Ok(role) => CastVoteKeepsMatch(w, role, winner, d);
  }

  lemma {:induction false} SettlerWriteKeepsSeen(w: World, k: nat)
    requires SeenInv(w)
    ensures SeenInv(SettlerWrite(w, k).world)
  {
    if w.offer.Some? && k < |w.seen| { MatchStep(w.events, PutBack(w.seen[k].votes)); }
  }

  lemma {:induction false} StepKeepsSeen(w: World, step: Step)
    requires Inv(w) && SeenInv(w)
    ensures SeenInv(Apply(w, step).world)
  {
    if step.StepConfirm? {
      ConfirmKeepsSeen(w, step.relay, step.addr, step.winner, step.dispatch);
    } else if step.StepSettlerWrite? {
      SettlerWriteKeepsSeen(w, step.k);
    } else {
      StepFrame(w, step);
      FrameKeepsSeen(w, Apply(w, step).world);
    }
  }

  predicate OfHandler(step: Step) {
    step.StepPending? || step.StepLegacy? || step.StepHandshake? || step.StepPublish? || step.StepStake? || step.StepConfirm?
  }

  lemma {:induction false} HandlerKeeps(w: World, step: Step)
    requires Inv(w) && Possible(w, step) && OfHandler(step)
    ensures Inv(Apply(w, step).world)
  {
    match step
    case StepPending(makerRelay, minutes, now, inserted) =>
      var w' := PendingOffer(w, makerRelay, minutes, now, inserted).world;
      if w' != w { CreateKeeps(w, w'.offer.value); }
    case StepLegacy(makerRelay, makerAddr, endDateMs, broadcast) =>
      var w' := LegacyOffer(w, makerRelay, makerAddr, endDateMs, broadcast).world;
      if w' != w { CreateKeeps(w, w'.offer.value); }
    case StepHandshake(addr, now, db) => HandshakeKeeps(w, addr, now, db);
    case StepPublish(r, now, tries, db) => PublishKeeps(w, r, now, tries, db);
    case StepStake(r, tries, db) => StakeKeeps(w, r, tries, db);
    case StepConfirm(relay, addr, winner, d) => ConfirmKeeps(w, relay, addr, winner, d);
  }

  lemma {:induction false} ForeignKeeps(w: World, payments: seq<Payment>)
    requires Inv(w)
    ensures Inv(Foreign(w, payments).world)
  {
    OrdersGrow(w.orders, w.ledger, payments, MatchOf(w.events).reopened, MatchOf(w.events).reopened);
    if w.offer.Some? {
      RowGrows(w.offer.value, w.ledger, payments, MatchOf(w.events));
    }
  }

  lemma {:induction false} OtherStepKeeps(w: World, step: Step)
    requires Inv(w) && SeenInv(w) && !OfHandler(step)
    ensures Inv(Apply(w, step).world)
  {
    match step
    case StepRefundSend(now) => RefundSendKeeps(w, now);
    case StepRefundResume(handler, tx, db) => RefundResumeKeeps(w, handler, tx, db);
    case StepAccept(taker, verified, autoFire, ack, db) => AcceptKeeps(w, taker, verified, autoFire, ack, db);
    case StepReopen => ReopenKeeps(w);
    case StepRemoteAccept(taker, passes) => RemoteAcceptKeeps(w, taker, passes);
    case StepMove(to, settleTx) => MoveKeeps(w, to, settleTx);
    case StepSettlerRead =>
    case StepSettlerWrite(k) => SettlerWriteKeeps(w, k);
    case StepForeign(payments) => ForeignKeeps(w, payments);
  }

  lemma {:induction false} StepKeeps(w: World, step: Step)
    requires Inv(w) && SeenInv(w) && Possible(w, step)
    ensures Inv(Apply(w, step).world) && SeenInv(Apply(w, step).world)
  {
    StepKeepsSeen(w, step);
    if OfHandler(step) {
      HandlerKeeps(w, step);
    } else {
      OtherStepKeeps(w, step);
    }
  }

  lemma {:induction false} RunKeeps(w: World, steps: seq<Step>)
    requires Inv(w) && SeenInv(w) && PossibleRun(w, steps)
    ensures Inv(Run(w, steps)) && SeenInv(Run(w, steps))
    decreases |steps|
  {
    if steps != [] {
      StepKeeps(w, steps[0]);
      RunKeeps(Apply(w, steps[0]).world, steps[1..]);
    }
  }
}
