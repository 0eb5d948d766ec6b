/**
 * The prediction-offer escrow protocol: one offer row, the ledger of chain payments, and the
 * refund handlers that are waiting for their relay.  One handler run is one step, given as a
 * function of the world before it and of everything outside the console decides: request
 * fields, clock, table lookups, relay replies and database failures.
 */
module OfferProtocol {
  import opened Common
  import opened EscrowContract
  import opened Relay
  import Sompi

  // ---------- addresses and payments ----------

  /** A wallet's address determines its key; a script's address determines what was compiled. */
  datatype Address = Wallet(key: Key) | P2sh(script: Ctor) | Malformed(text: string)

  datatype Payment = Payment(payer: Key, to: Address, sompi: nat)

  // ---------- status machine ----------

  datatype Status =
    | PendingTaker | HandshakeDone | OpenAwaitingTakerStake | Open | Matched | Verifying
    | CollectingSigs | Delivering | Verified | AwaitingManualConfirm | AwaitingOracle
    | Completed | Disputed | TimedOut | Failed | Cancelled | Expired | Refunded

  function Successors(s: Status): set<Status> {
    match s
    case Open => {Matched, Cancelled, Expired, Refunded, TimedOut}
    case Matched => {Verifying, AwaitingManualConfirm, AwaitingOracle, Refunded}
    case Verifying => {Delivering, CollectingSigs, Disputed, TimedOut, Refunded}
    case Delivering => {Completed, Verified, Disputed, Refunded}
    case Verified => {Delivering, Disputed, TimedOut, Refunded}
    case AwaitingManualConfirm => {Completed, Disputed, TimedOut, Refunded}
    case AwaitingOracle => {Completed, Failed, TimedOut, Refunded}
    case PendingTaker => {HandshakeDone, Cancelled, Expired}
    case HandshakeDone => {OpenAwaitingTakerStake, Cancelled, Expired}
    case OpenAwaitingTakerStake => {Matched, Refunded, Expired, TimedOut}
    case CollectingSigs => {Completed, Verifying, Refunded, TimedOut}
    case _ => {}
  }

  // ---------- the row ----------

  datatype Role = Maker | Taker

  datatype Votes = Votes(maker: Option<int>, taker: Option<int>) {
    function Of(role: Role): Option<int> { if role == Maker then maker else taker }

    function Set(role: Role, winner: int): Votes {
      if role == Maker then this.(maker := Some(winner)) else this.(taker := Some(winner))
    }

    predicate Agree() { maker.Some? && taker.Some? && maker == taker }
  }

  /** What publish-v2 writes into the metadata column. */
  datatype Baked = Baked(script: Ctor, makerSompi: int, takerSompi: int, minerFee: int)

  datatype Meta = Meta(baked: Option<Baked>, votes: Votes, takerRelay: Option<string>)

  const EMPTY_META: Meta := Meta(None, Votes(None, None), None)

  /**
   * The end date as the row keeps it.  A date given as a number becomes text that does not read as
   * a date any more.
   */
  datatype EndDate = Missing | Millis(ms: int) | Unreadable

  datatype Offer = Offer(
    status: Status,
    makerRelay: string, makerAddr: Option<Address>,
    taker: Option<Address>, pendingPk: Option<Key>, handshakeExpiresAt: int,
    endDate: EndDate,
    escrow: Option<Address>, lockTx: Option<TxId>, takerLockTx: Option<TxId>,
    meta: Meta, refundTx: Option<TxId>, settleTx: Option<TxId>)

  /** exchange-machine's transition(): an edge outside the table is dropped without an error. */
  function Transition(o: Offer, to: Status): Offer {
    if to in Successors(o.status) then o.(status := to) else o
  }

  // ---------- the world ----------

  /**
   * `BecameMatched` carries the taker column as it was written; `Reopened` cleared it; `PutBack`
   * carries the votes of a metadata column that was written from an earlier reading.
   */
  datatype Event =
    | BecameMatched(taker: Option<Address>)
    | Reopened
    | Voted(role: Role, winner: int)
    | Dispatched(winner: int)
    | RefundWritten(tx: TxId)
    | PutBack(votes: Votes)

  /** A refund transaction handed to the relay, with the end date the row then showed. */
  datatype RefundOrder = RefundOrder(
    branch: int, from: Address, script: Ctor, endDate: EndDate, lockTime: int, sentAt: int,
    inputs: seq<Option<TxId>>, makerTo: Address, makerSompi: int, takerTo: Option<Address>, takerSompi: int)

  /**
   * `waiting` holds the positions in `orders` of the refund handlers inside their await, and
   * `seen` what the settler has read of the metadata.
   */
  datatype World = World(
    offer: Option<Offer>, ledger: seq<Payment>,
    orders: seq<RefundOrder>, waiting: set<nat>, seen: seq<Meta>, events: seq<Event>)

  datatype Why =
    | MissingField | NotFound | WrongStatus | HandshakeExpired | BadAddress | DatabaseFailed
    | BadOracles | BadEndDate | BadFee | BadKey | BadPrice | StakeTooLarge | CompileFailed
    | LockFailed | NotHandshakeTaker | BadStake | BroadcastFailed
    | BadWinner | NotAParty | DispatchFailed
    | AlreadyRefunded | NoEscrow | NoMaker | BeforeDeadline | MissingTakerLock | NoScript
    | RelayFailed | LostRace | VerifyFailed | AckRequired

  datatype Reply = Done | Refused(code: int, why: Why)

  datatype Outcome = Outcome(world: World, reply: Reply)

  /** How far the database part of a handler gets. */
  datatype Db = UpdateFails | TransitionFails | Commits

  // ---------- POST /api/prediction/pending-offer ----------

  function Min(a: int, b: int): int { if a < b then a else b }

  function Max(a: int, b: int): int { if a > b then a else b }

  function PendingOffer(w: World, makerRelay: string, minutes: int, now: int, inserted: bool): Outcome {
    if makerRelay == "" then Outcome(w, Refused(400, MissingField))
    else if w.offer.Some? || !inserted then Outcome(w, Refused(500, DatabaseFailed))
    else
      var expires := now + Max(5, Min(60, OrElse(minutes, 30))) * 60_000;
      var draft := Offer(PendingTaker, makerRelay, None, None, None, expires, Missing, None, None, None,
                         EMPTY_META, None, None);
      Outcome(w.(offer := Some(draft)), Done)
  }

  /** A row inserted by the older publish route: open, and without an escrow script. */
  function LegacyOffer(w: World, makerRelay: string, makerAddr: Address, endDateMs: int, broadcast: TxId): Outcome {
    if w.offer.Some? then Outcome(w, Refused(500, DatabaseFailed))
    else
      var row := Offer(Open, makerRelay, Some(makerAddr), None, None, 0, Millis(endDateMs), None,
                       Some(broadcast), None, EMPTY_META, None, None);
      Outcome(w.(offer := Some(row)), Done)
  }

  // ---------- POST /api/prediction/taker-handshake ----------

  function TakerHandshake(w: World, addr: Option<Address>, now: int, db: Db): Outcome {
    if addr.None? then Outcome(w, Refused(400, MissingField))
    else if w.offer.None? then Outcome(w, Refused(404, NotFound))
    else
      var o := w.offer.value;
      if o.status != PendingTaker then Outcome(w, Refused(409, WrongStatus))
      else if o.handshakeExpiresAt < now then Outcome(w, Refused(410, HandshakeExpired))
      else if !addr.value.Wallet? then Outcome(w, Refused(400, BadAddress))
      else if db == UpdateFails then Outcome(w, Refused(500, DatabaseFailed))
      else
        var o' := o.(pendingPk := Some(addr.value.key), taker := addr);
        if db == TransitionFails then Outcome(w.(offer := Some(o')), Refused(500, DatabaseFailed))
        else Outcome(w.(offer := Some(Transition(o', HandshakeDone))), Done)
  }

  // ---------- POST /api/prediction/publish-v2 ----------

  /**
   * `stake` is the double computed from price, size and the KAS quote, and `stakeProduct` the
   * double stake * 1e8; `moved` is the amount the relay reads from the printed sompi / 1e8 (see
   * Sompi.Moves).  Numbers that do not parse are None; an absent oracle fee arrives as its
   * default, 100.
   */
  datatype PublishRequest = PublishRequest(
    complete: bool, makerRelay: string, brokerRelay: string,
    oracleRelays: Option<seq<string>>, oraclesAlive: bool,
    endDateMs: Option<int>, endDateIsText: bool, brokerFeePct: Option<int>, oracleFeePct: Option<int>, minerFee: int,
    makerAddr: Option<Address>, brokerAddr: Option<Address>, oracleKeys: Option<seq<Key>>,
    hasPendingId: bool, price: Option<real>, sizeKas: Option<real>,
    stake: Option<real>, maxStake: real, stakeProduct: real, moved: Option<nat>, compiles: bool)

  function RequestRefusal(r: PublishRequest, now: int): Option<Reply> {
    if !r.complete then Some(Refused(400, MissingField))
    else if r.oracleRelays.None? || |r.oracleRelays.value| != 5 then Some(Refused(400, BadOracles))
    else if |set id | id in r.oracleRelays.value| != 5 then Some(Refused(400, BadOracles))
    else if r.makerRelay in r.oracleRelays.value || r.brokerRelay in r.oracleRelays.value then Some(Refused(400, BadOracles))
    else if r.makerRelay == r.brokerRelay then Some(Refused(400, BadOracles))
    else if !r.oraclesAlive then Some(Refused(400, BadOracles))
    else if r.endDateMs.None? || r.endDateMs.value < now + 15 * 60_000 then Some(Refused(400, BadEndDate))
    else if r.brokerFeePct.None? || !(0 <= r.brokerFeePct.value < 10000) then Some(Refused(400, BadFee))
    else if r.oracleFeePct.None? || !(0 <= r.oracleFeePct.value < 10000) then Some(Refused(400, BadFee))
    else if r.makerAddr.None? || r.brokerAddr.None? then Some(Refused(400, BadAddress))
    else if !r.makerAddr.value.Wallet? || !r.brokerAddr.value.Wallet? || r.oracleKeys.None? then Some(Refused(500, BadKey))
    else if !r.hasPendingId then Some(Refused(400, MissingField))
    else None
  }

  function OfferRefusal(offer: Option<Offer>, now: int): Option<Reply> {
    if offer.None? then Some(Refused(404, NotFound))
    else
      var o := offer.value;
      if o.status != HandshakeDone then Some(Refused(409, WrongStatus))
      else if o.pendingPk.None? || |o.pendingPk.value| != 64 then Some(Refused(400, BadKey))
      else if o.handshakeExpiresAt < now then Some(Refused(410, HandshakeExpired))
      else None
  }

  function PriceRefusal(r: PublishRequest): Option<Reply> {
    if r.price.None? || r.price.value <= 0.0 || r.price.value >= 1.0 then Some(Refused(400, BadPrice))
    else if r.sizeKas.None? || r.sizeKas.value <= 0.0 then Some(Refused(400, BadPrice))
    else if r.stake.None? || r.stake.value <= 0.0 then Some(Refused(400, BadPrice))
    else if r.stake.value > r.maxStake then Some(Refused(400, StakeTooLarge))
    else None
  }

  function BakedSompi(r: PublishRequest): int { Sompi.MathRound(r.stakeProduct) }

  /** The script arguments; both stakes are the same amount. */
  function CtorOf(r: PublishRequest, takerPk: Key): Ctor
    requires r.makerAddr.Some? && r.makerAddr.value.Wallet?
    requires r.brokerAddr.Some? && r.brokerAddr.value.Wallet? && r.oracleKeys.Some?
    requires r.endDateMs.Some? && r.brokerFeePct.Some? && r.oracleFeePct.Some?
  {
    Ctor(r.makerAddr.value.key, takerPk, r.brokerAddr.value.key, r.oracleKeys.value,
         r.endDateMs.value / 1000, OrElse(r.minerFee, 1_000_000),
         r.brokerFeePct.value, r.oracleFeePct.value, BakedSompi(r), BakedSompi(r))
  }

  /** The relay pays the amount it read, if there is one to pay. */
  function Lock(ledger: seq<Payment>, payer: Key, to: Address, moved: Option<nat>, tries: Tries): Sent<Payment> {
    if moved.None? then Sent(ledger, None)
    else Send(ledger, Payment(payer, to, moved.value), tries)
  }

  function EndDateOf(r: PublishRequest): EndDate {
    if r.endDateMs.None? then Missing else if r.endDateIsText then Millis(r.endDateMs.value) else Unreadable
  }

  function Published(o: Offer, r: PublishRequest, c: Ctor, lockTx: TxId): Offer {
    o.(makerRelay := r.makerRelay, makerAddr := r.makerAddr, endDate := EndDateOf(r),
       escrow := Some(P2sh(c)), lockTx := Some(lockTx),
       meta := Meta(Some(Baked(c, c.makerStake, c.takerStake, c.minerFee)), Votes(None, None), None))
  }

  /** Everything checked before money moves; the result is what the script is compiled from. */
  function PublishTarget(offer: Option<Offer>, r: PublishRequest, now: int): Result<Ctor, Reply> {
    var refusal := RequestRefusal(r, now);
    if refusal.Some? then Err(refusal.value) else
    var refusal := OfferRefusal(offer, now);
    if refusal.Some? then Err(refusal.value) else
    var refusal := PriceRefusal(r);
    if refusal.Some? then Err(refusal.value) else
    var c := CtorOf(r, offer.value.pendingPk.value);
    if !ValidCtor(c) || !r.compiles then Err(Refused(500, CompileFailed)) else Ok(c)
  }

  function PublishPaid(w: World, r: PublishRequest, c: Ctor, sent: Sent<Payment>, db: Db): Outcome
    requires w.offer.Some?
  {
    var paid := w.(ledger := sent.ledger);
    if sent.tx.None? then Outcome(paid, Refused(503, LockFailed))
    else if db == UpdateFails then Outcome(paid, Refused(500, DatabaseFailed))
    else
      var o' := Published(w.offer.value, r, c, sent.tx.value);
      if db == TransitionFails then Outcome(paid.(offer := Some(o')), Refused(500, DatabaseFailed))
      else Outcome(paid.(offer := Some(Transition(o', OpenAwaitingTakerStake))), Done)
  }

  function PublishV2(w: World, r: PublishRequest, now: int, tries: Tries, db: Db): Outcome {
    match PublishTarget(w.offer, r, now)
    case Err(reply) => Outcome(w, reply)
    case Ok(c) => PublishPaid(w, r, c, Lock(w.ledger, c.makerPk, P2sh(c), r.moved, tries), db)
  }

  // ---------- POST /api/prediction/taker-stake ----------

  datatype StakeRequest = StakeRequest(
    takerRelay: string, takerAddr: Option<Address>, moved: Option<nat>, relayStored: bool, emitted: bool)

  function StakeRefusal(offer: Option<Offer>, r: StakeRequest): Option<Reply> {
    if r.takerRelay == "" then Some(Refused(400, MissingField))
    else if offer.None? then Some(Refused(404, NotFound))
    else
      var o := offer.value;
      if o.status != OpenAwaitingTakerStake then Some(Refused(409, WrongStatus))
      else if r.takerAddr.None? || !r.takerAddr.value.Wallet? then Some(Refused(400, BadAddress))
      else if o.pendingPk != Some(r.takerAddr.value.key) then Some(Refused(403, NotHandshakeTaker))
      else if o.meta.baked.None? || o.meta.baked.value.takerSompi <= 0 then Some(Refused(500, BadStake))
      else if o.escrow.None? then Some(Refused(503, LockFailed))
      else None
  }

  function Staked(o: Offer, r: StakeRequest, tx: TxId): Offer {
    o.(takerLockTx := Some(tx), taker := r.takerAddr,
       meta := if r.relayStored then o.meta.(takerRelay := Some(r.takerRelay)) else o.meta)
  }

  function StakePaid(w: World, r: StakeRequest, sent: Sent<Payment>, db: Db): Outcome
    requires w.offer.Some?
  {
    var paid := w.(ledger := sent.ledger);
    if sent.tx.None? then Outcome(paid, Refused(503, LockFailed))
    else if db == UpdateFails then Outcome(paid, Refused(500, DatabaseFailed))
    else
      var o' := Staked(w.offer.value, r, sent.tx.value);
      if !r.emitted then Outcome(paid.(offer := Some(o')), Refused(503, BroadcastFailed))
      else if db == TransitionFails then Outcome(paid.(offer := Some(o')), Refused(500, DatabaseFailed))
      else Outcome(paid.(offer := Some(Transition(o', Matched)), events := w.events + [BecameMatched(r.takerAddr)]), Done)
  }

  function TakerStake(w: World, r: StakeRequest, tries: Tries, db: Db): Outcome {
    var refusal := StakeRefusal(w.offer, r);
    if refusal.Some? then Outcome(w, refusal.value)
    else StakePaid(w, r, Lock(w.ledger, r.takerAddr.value.key, w.offer.value.escrow.value, r.moved, tries), db)
  }

  // ---------- POST /api/prediction/consensual-confirm ----------

  /** How far the settler's dispatch of an agreed outcome gets. */
  datatype Dispatch = Threw | OnlyVerifying | Collecting | Settled(tx: TxId)

  function ApplyDispatch(o: Offer, d: Dispatch): Offer {
    var o1 := if o.status == Matched && d != Threw then Transition(o, Verifying) else o;
    match d
    case Threw => o1
    case OnlyVerifying => o1
    case Collecting => Transition(o1, CollectingSigs)
    case Settled(tx) => Transition(Transition(o1, CollectingSigs).(settleTx := Some(tx)), Completed)
  }

  function RoleOf(o: Offer, relay: string, addr: Address): Option<Role> {
    if relay == o.makerRelay then Some(Maker)
    else if Some(addr) == o.taker then Some(Taker)
    else None
  }

  function VoteTarget(offer: Option<Offer>, relay: string, addr: Option<Address>, winner: int): Result<Role, Reply> {
    if relay == "" then Err(Refused(400, MissingField))
    else if winner != 0 && winner != 1 then Err(Refused(400, BadWinner))
    else if offer.None? then Err(Refused(404, NotFound))
    else
      var o := offer.value;
      if o.status != Matched && o.status != Verifying then Err(Refused(409, WrongStatus))
      else if addr.None? then Err(Refused(404, NotFound))
      else match RoleOf(o, relay, addr.value)
        case None => Err(Refused(403, NotAParty))
        case Some(role) => Ok(role)
  }

  function WithVotes(o: Offer, votes: Votes): Offer { o.(meta := o.meta.(votes := votes)) }

  /** Records the vote, and dispatches the settlement when both sides now name one winner. */
  function CastVote(w: World, role: Role, winner: int, d: Dispatch): Outcome
    requires w.offer.Some?
  {
    var votes := w.offer.value.meta.votes.Set(role, winner);
    var o' := WithVotes(w.offer.value, votes);
    var events := w.events + [Voted(role, winner)];
    if !votes.Agree() then Outcome(w.(offer := Some(o'), events := events), Done)
    else Outcome(w.(offer := Some(ApplyDispatch(o', d)), events := events + [Dispatched(votes.maker.value)]),
                 if d == Threw then Refused(500, DispatchFailed) else Done)
  }

  function Confirm(w: World, relay: string, addr: Option<Address>, winner: int, d: Dispatch): Outcome {
    match VoteTarget(w.offer, relay, addr, winner)
    case Err(reply) => Outcome(w, reply)
    case Ok(role) => CastVote(w, role, winner, d)
  }

  // ---------- POST /api/prediction/refund, before and after its await ----------

  /** A missing end date reads as the epoch; one that does not read blocks nothing. */
  predicate DeadlineBlocks(o: Offer, now: int) {
    match o.endDate
    case Missing => 0 > now
    case Millis(ms) => ms > now
    case Unreadable => false
  }

  /** The lock time in milliseconds, from whole seconds; what is not a number reaches the relay as zero. */
  function LockTimeOf(o: Offer): int { if o.endDate.Millis? then o.endDate.ms / 1000 * 1000 else 0 }

  function RefundRefusal(offer: Option<Offer>, now: int): Option<Reply> {
    if offer.None? then Some(Refused(404, NotFound))
    else
      var o := offer.value;
      if o.refundTx.Some? then Some(Refused(409, AlreadyRefunded))
      else if o.escrow.None? then Some(Refused(400, NoEscrow))
      else if o.makerRelay == "" || o.makerAddr.None? then Some(Refused(400, NoMaker))
      else if o.status == OpenAwaitingTakerStake then
        if DeadlineBlocks(o, now) then Some(Refused(403, BeforeDeadline))
        else if o.meta.baked.None? then Some(Refused(500, NoScript))
        else None
      else if o.status == Matched || o.status == Verifying then
        if DeadlineBlocks(o, now) then Some(Refused(403, BeforeDeadline))
        else if o.taker.None? || o.takerLockTx.None? then Some(Refused(400, MissingTakerLock))
        else if o.meta.baked.None? then Some(Refused(500, NoScript))
        else None
      else Some(Refused(409, WrongStatus))
  }

  function OrderOf(o: Offer, now: int): RefundOrder
    requires RefundRefusal(Some(o), now).None?
  {
    var b := o.meta.baked.value;
    var lockTime := LockTimeOf(o);
    if o.status == OpenAwaitingTakerStake then
      RefundOrder(2, o.escrow.value, b.script, o.endDate, lockTime, now, [], o.makerAddr.value, 0, None, 0)
    else
      var halfFee := OrElse(b.minerFee, 1_000_000) / 2;
      RefundOrder(1, o.escrow.value, b.script, o.endDate, lockTime, now, [o.lockTx, o.takerLockTx],
                  o.makerAddr.value, b.makerSompi - halfFee, o.taker, b.takerSompi - halfFee)
  }

  function RefundSend(w: World, now: int): Outcome {
    var refusal := RefundRefusal(w.offer, now);
    if refusal.Some? then Outcome(w, refusal.value)
    else Outcome(w.(orders := w.orders + [OrderOf(w.offer.value, now)],
                    waiting := w.waiting + {|w.orders|}), Done)
  }

  function RefundResume(w: World, handler: nat, tx: Option<TxId>, db: Db): Outcome {
    if handler !in w.waiting || w.offer.None? then Outcome(w, Refused(404, NotFound))
    else
      var w' := w.(waiting := w.waiting - {handler});
      var o := w.offer.value;
      if tx.None? then Outcome(w', Refused(503, RelayFailed))
      else if db == UpdateFails then Outcome(w', Refused(500, DatabaseFailed))
      else if o.refundTx.Some? then Outcome(w', Refused(409, LostRace))
      else
        var o' := o.(refundTx := tx);
        var written := w'.(events := w.events + [RefundWritten(tx.value)]);
        if db == TransitionFails then Outcome(written.(offer := Some(o')), Refused(500, DatabaseFailed))
        else Outcome(written.(offer := Some(Transition(o', Refunded))), Done)
  }

  // ---------- POST /api/prediction/accept (older offers) ----------

  function Accept(w: World, taker: Option<Address>, verified: bool, autoFire: bool, ack: bool, db: Db): Outcome {
    if w.offer.None? then Outcome(w, Refused(404, NotFound))
    else
      var o := w.offer.value;
      if o.status != Open then Outcome(w, Refused(409, WrongStatus))
      else if !verified then Outcome(w, Refused(403, VerifyFailed))
      else if !autoFire && !ack then Outcome(w, Refused(403, AckRequired))
      else if db != Commits then Outcome(w, Refused(500, DatabaseFailed))
      else Outcome(w.(offer := Some(Transition(o, Matched).(taker := taker)), events := w.events + [BecameMatched(taker)]), Done)
  }

  // ---------- services outside the handlers ----------

  /** The sweep of stale matches, and a timeout broadcast: `matched` goes back to `open`, without a taker. */
  function Reopen(w: World): Outcome {
    if w.offer.None? || w.offer.value.status != Matched then Outcome(w, Refused(409, WrongStatus))
    else Outcome(w.(offer := Some(w.offer.value.(status := Open, taker := None)), events := w.events + [Reopened]), Done)
  }

  /** An accept message of the general exchange: it matches any open offer that passes its checks. */
  function RemoteAccept(w: World, taker: Option<Address>, passes: bool): Outcome {
    if w.offer.None? then Outcome(w, Refused(404, NotFound))
    else if w.offer.value.status != Open || !passes then Outcome(w, Refused(409, WrongStatus))
    else Outcome(w.(offer := Some(Transition(w.offer.value, Matched).(taker := taker)),
                    events := w.events + [BecameMatched(taker)]), Done)
  }

  /** Two writes that bypass the table: a delivery message, and the resolution of a dispute. */
  predicate DirectWrite(from: Status, to: Status) {
    || (from in {Matched, Verifying, Delivering} && to == Completed)
    || (from == Disputed && to in {Completed, Cancelled})
  }

  /** The settler and the sweeps move an offer along the table, except onto a handler's own edge. */
  predicate OutsideMove(to: Status) {
    to !in {HandshakeDone, OpenAwaitingTakerStake, Matched, Refunded}
  }

  function Move(w: World, to: Status, settleTx: Option<TxId>): Outcome {
    if w.offer.None? || !OutsideMove(to) then Outcome(w, Refused(404, NotFound))
    else
      var o := w.offer.value;
      var o' := if settleTx.Some? then o.(settleTx := settleTx) else o;
      var o'' := if DirectWrite(o.status, to) then o'.(status := to) else Transition(o', to);
      Outcome(w.(offer := Some(o'')), Done)
  }

  /** The settler reads an offer it is about to settle. */
  function SettlerRead(w: World): Outcome {
    if w.offer.None? || w.offer.value.status !in {Matched, Verifying, CollectingSigs} then Outcome(w, Refused(409, WrongStatus))
    else Outcome(w.(seen := w.seen + [w.offer.value.meta]), Done)
  }

  /** After its relay call it writes the metadata it read, with its own fields, over what is there. */
  function SettlerWrite(w: World, k: nat): Outcome {
    if w.offer.None? || k >= |w.seen| then Outcome(w, Refused(404, NotFound))
    else Outcome(w.(offer := Some(w.offer.value.(meta := w.seen[k])), events := w.events + [PutBack(w.seen[k].votes)]), Done)
  }

  /** Payments of strangers to the console. */
  function Foreign(w: World, payments: seq<Payment>): Outcome {
    Outcome(w.(ledger := w.ledger + payments), Done)
  }
}
