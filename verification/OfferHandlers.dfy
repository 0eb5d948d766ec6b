/**
 * What the handlers of the offer protocol answer and leave behind, said of the request and the
 * row alone: exactly when a handler accepts, which columns it then writes, and that a refusal
 * writes nothing.  The script arguments, the deadline and the parties are spelled out here.
 */
module OfferHandlers {
  import opened Common
  import opened EscrowContract
  import opened Relay
  import opened OfferProtocol

  // ---------- drafts and handshakes ----------

  /** A row before its handshake: nothing is known of a taker, a script or a transaction. */
  predicate Blank(o: Offer) {
    && o.taker == None && o.pendingPk == None
    && o.escrow == None && o.takerLockTx == None && o.refundTx == None && o.settleTx == None
    && o.meta.baked == None && o.meta.takerRelay == None && o.meta.votes.maker == None && o.meta.votes.taker == None
  }

  /** A draft waits for its taker between five minutes and an hour, by default half an hour. */
  lemma {:induction false} DraftIff(w: World, makerRelay: string, minutes: int, now: int, inserted: bool)
    ensures
      var (w', reply) := Both(PendingOffer(w, makerRelay, minutes, now, inserted));
      && (reply == Done <==> makerRelay != "" && w.offer == None && inserted)
      && (reply == Refused(400, MissingField) <==> makerRelay == "")
      && (reply == Done || reply == Refused(400, MissingField) || reply == Refused(500, DatabaseFailed))
      && (reply != Done ==> w' == w)
      && (reply == Done ==>
            && w'.offer.Some? && w' == w.(offer := w'.offer)
            && var o := w'.offer.value;
            && Blank(o) && o.status == PendingTaker && o.makerRelay == makerRelay && o.makerAddr == None
            && o.lockTx == None && o.endDate == Missing
            && Window(o.handshakeExpiresAt - now, minutes))
  {
  }

  predicate Window(ms: int, minutes: int) {
    && 300_000 <= ms <= 3_600_000
    && (minutes == 0 ==> ms == 1_800_000)
    && (minutes != 0 && minutes < 5 ==> ms == 300_000)
    && (5 <= minutes <= 60 ==> ms == minutes * 60_000)
    && (60 < minutes ==> ms == 3_600_000)
  }

  function Both(out: Outcome): (World, Reply) { (out.world, out.reply) }

  lemma {:induction false} LegacyIff(w: World, makerRelay: string, makerAddr: Address, endDateMs: int, broadcast: TxId)
    ensures
      var (w', reply) := Both(LegacyOffer(w, makerRelay, makerAddr, endDateMs, broadcast));
      && (reply == Done <==> w.offer == None) && (reply != Done ==> w' == w && reply == Refused(500, DatabaseFailed))
      && (reply == Done ==>
            && w'.offer.Some? && w' == w.(offer := w'.offer)
            && var o := w'.offer.value;
            && Blank(o) && o.status == Open && o.makerRelay == makerRelay && o.makerAddr == Some(makerAddr)
            && o.lockTx == Some(broadcast) && o.endDate == Millis(endDateMs) && o.handshakeExpiresAt == 0)
  {
  }

  /** The handshake binds the offer to the key of the first wallet that calls in time. */
  lemma {:induction false} HandshakeIff(w: World, addr: Option<Address>, now: int, db: Db)
    ensures
      var (w', reply) := Both(TakerHandshake(w, addr, now, db));
      var waits := w.offer.Some? && w.offer.value.status == PendingTaker;
      var inTime := waits && now <= w.offer.value.handshakeExpiresAt;
      var bound := inTime && addr.Some? && addr.value.Wallet?;
      && (reply == Done <==> bound && db == Commits)
      && (reply == Refused(400, MissingField) <==> addr == None)
      && (reply == Refused(404, NotFound) <==> addr != None && w.offer == None)
      && (reply == Refused(409, WrongStatus) <==> addr != None && w.offer != None && !waits)
      && (reply == Refused(410, HandshakeExpired) <==> addr != None && waits && !inTime)
      && (reply == Refused(400, BadAddress) <==> addr != None && inTime && !bound)
      && (reply == Refused(500, DatabaseFailed) <==> bound && db != Commits)
      && (w' != w ==> bound && db != UpdateFails)
      && (bound && db != UpdateFails ==>
            w' == w.(offer := Some(w.offer.value.(pendingPk := Some(addr.value.key), taker := addr,
                                                  status := if db == Commits then HandshakeDone else PendingTaker))))
  {
  }

  // ---------- publishing ----------

  /** The script arguments are the request's, field by field. */
  ghost predicate Requested(c: Ctor, r: PublishRequest) {
    && r.makerAddr == Some(Wallet(c.makerPk)) && r.brokerAddr == Some(Wallet(c.brokerPk))
    && r.oracleKeys == Some(c.oraclePks)
    && r.brokerFeePct == Some(c.brokerFeePct) && r.oracleFeePct == Some(c.oracleFeePct)
    && (if r.minerFee == 0 then c.minerFee == 1_000_000 else c.minerFee == r.minerFee)
    && c.makerStake as real - 0.5 <= r.stakeProduct < c.makerStake as real + 0.5
    && c.takerStake == c.makerStake
    && r.endDateMs.Some? && c.deadline * 1000 <= r.endDateMs.value < c.deadline * 1000 + 1000
  }

  /** Five different live oracles, none of them a party. */
  predicate SoundOracles(r: PublishRequest) {
    && r.oraclesAlive && r.oracleRelays.Some? && |r.oracleRelays.value| == 5
    && (forall i, j :: 0 <= i < j < 5 ==> r.oracleRelays.value[i] != r.oracleRelays.value[j])
    && (forall i :: 0 <= i < 5 ==> r.oracleRelays.value[i] != r.makerRelay && r.oracleRelays.value[i] != r.brokerRelay)
    && r.makerRelay != r.brokerRelay
  }

  /** A deadline a quarter of an hour ahead. */
  predicate SoundDate(r: PublishRequest, now: int) { r.endDateMs.Some? && r.endDateMs.value - now >= 900_000 }

  /** Rates below the whole. */
  predicate SoundRates(r: PublishRequest) {
    && r.brokerFeePct.Some? && 0 <= r.brokerFeePct.value <= 9999
    && r.oracleFeePct.Some? && 0 <= r.oracleFeePct.value <= 9999
  }

  predicate SoundTerms(r: PublishRequest, now: int) {
    && r.complete && r.hasPendingId && SoundOracles(r) && SoundDate(r, now) && SoundRates(r)
    && r.makerAddr.Some? && r.makerAddr.value.Wallet? && r.brokerAddr.Some? && r.brokerAddr.value.Wallet? && r.oracleKeys.Some?
  }

  predicate SoundAmounts(r: PublishRequest) {
    && r.price.Some? && 0.0 < r.price.value < 1.0 && r.sizeKas.Some? && 0.0 < r.sizeKas.value
    && r.stake.Some? && 0.0 < r.stake.value
  }

  predicate SoundPrice(r: PublishRequest) { SoundAmounts(r) && r.stake.value <= r.maxStake }

  predicate SoundRequest(r: PublishRequest, now: int) { SoundTerms(r, now) && SoundPrice(r) }

  predicate Bound(offer: Option<Offer>, now: int) {
    && offer.Some? && offer.value.status == HandshakeDone && now <= offer.value.handshakeExpiresAt
    && offer.value.pendingPk.Some? && |offer.value.pendingPk.value| == 64
  }

  lemma {:induction false} FiveDifferent(ids: seq<string>)
    requires |ids| == 5
    ensures |set id | id in ids| == 5 <==> forall i, j :: 0 <= i < j < 5 ==> ids[i] != ids[j]
  {
    assert (set id | id in ids) == {ids[0], ids[1], ids[2], ids[3], ids[4]};
    assert ids[0] in ids && ids[1] in ids && ids[2] in ids && ids[3] in ids && ids[4] in ids;
  }

  lemma {:induction false} SoundIff(r: PublishRequest, now: int)
    ensures SoundTerms(r, now) <==> RequestRefusal(r, now).None?
    ensures SoundPrice(r) <==> PriceRefusal(r).None?
  {
    if r.oracleRelays.Some? && |r.oracleRelays.value| == 5 {
      FiveDifferent(r.oracleRelays.value);
    }
  }

  /** The arguments publish-v2 compiles are the requested ones, with the handshake's taker. */
  lemma {:induction false} CompiledIsRequested(r: PublishRequest, takerPk: Key, now: int)
    requires SoundRequest(r, now)
    ensures Requested(CtorOf(r, takerPk), r) && CtorOf(r, takerPk).takerPk == takerPk
  {
  }

  /** And the request leaves no choice. */
  lemma {:induction false} RequestDetermines(c: Ctor, d: Ctor, r: PublishRequest)
    requires Requested(c, r) && Requested(d, r) && c.takerPk == d.takerPk
    ensures c == d
  {
  }

  /** Every check passes, and `c` is the script to be funded. */
  ghost predicate Publishable(offer: Option<Offer>, r: PublishRequest, now: int, c: Ctor) {
    && SoundRequest(r, now) && Bound(offer, now) && r.compiles
    && Requested(c, r) && offer.value.pendingPk == Some(c.takerPk) && ValidCtor(c)
  }

  /** Publishing gets as far as its transfer for exactly the sound requests whose script compiles. */
  lemma {:induction false} TargetIff(offer: Option<Offer>, r: PublishRequest, now: int, c: Ctor)
    ensures PublishTarget(offer, r, now) == Ok(c) <==> Publishable(offer, r, now, c)
  {
    SoundIff(r, now);
    if SoundRequest(r, now) && Bound(offer, now) {
      var d := CtorOf(r, offer.value.pendingPk.value);
      CompiledIsRequested(r, offer.value.pendingPk.value, now);
      if Requested(c, r) && offer.value.pendingPk == Some(c.takerPk) { RequestDetermines(c, d, r); }
    }
  }

  /** The row after publishing. */
  ghost predicate Publishes(o: Offer, o': Offer, r: PublishRequest, c: Ctor, committed: bool) {
    && o'.makerRelay == r.makerRelay && o'.makerAddr == r.makerAddr
    && o'.taker == o.taker && o'.pendingPk == o.pendingPk && o'.handshakeExpiresAt == o.handshakeExpiresAt
    && o'.takerLockTx == o.takerLockTx && o'.refundTx == o.refundTx && o'.settleTx == o.settleTx
    && r.endDateMs.Some? && o'.endDate == (if r.endDateIsText then Millis(r.endDateMs.value) else Unreadable)
    && o'.escrow == Some(P2sh(c))
    && o'.meta.baked.Some? && o'.meta.baked.value.script == c
    && o'.meta.baked.value.makerSompi == c.makerStake && o'.meta.baked.value.takerSompi == c.makerStake
    && o'.meta.baked.value.minerFee == c.minerFee
    && o'.meta.votes.maker == None && o'.meta.votes.taker == None && o'.meta.takerRelay == None
    && o'.status == if committed then OpenAwaitingTakerStake else HandshakeDone
  }

  /**
   * For a publishable request the maker's stake is sent to the script of the requested arguments,
   * and once that is acknowledged the row records exactly that script.
   */
  lemma {:induction false} PublishIff(w: World, r: PublishRequest, now: int, tries: Tries, db: Db, c: Ctor)
    requires Publishable(w.offer, r, now, c)
    ensures
      var (w', reply) := Both(PublishV2(w, r, now, tries, db));
      var sent := r.moved.Some? && Acked in tries;
      && (reply == Done <==> sent && db == Commits)
      && (reply == Refused(503, LockFailed) <==> !sent)
      && (reply == Refused(500, DatabaseFailed) <==> sent && db != Commits)
      && w'.ledger == w.ledger + (if r.moved.Some? then Copies(Payment(c.makerPk, P2sh(c), r.moved.value), Landed(tries)) else [])
      && w' == w.(ledger := w'.ledger, offer := w'.offer)
      && (w'.offer != w.offer ==> sent && db != UpdateFails)
      && (sent && db != UpdateFails ==>
            && w'.offer.Some? && Publishes(w.offer.value, w'.offer.value, r, c, db == Commits)
            && NewPayment(w, w', w'.offer.value.lockTx, Payment(c.makerPk, P2sh(c), r.moved.value)))
  {
    TargetIff(w.offer, r, now, c);
  }

  /** `tx` names a payment that was not there before. */
  predicate NewPayment(w: World, w': World, tx: Option<TxId>, p: Payment) {
    tx.Some? && |w.ledger| <= tx.value < |w'.ledger| && w'.ledger[tx.value] == p
  }

  /** The answer to unsound terms names the first check that failed. */
  predicate NamesFirstFailure(r: PublishRequest, now: int, reply: Reply) {
    if !r.complete then reply == Refused(400, MissingField)
    else if !SoundOracles(r) then reply == Refused(400, BadOracles)
    else if !SoundDate(r, now) then reply == Refused(400, BadEndDate)
    else if !SoundRates(r) then reply == Refused(400, BadFee)
    else if r.makerAddr == None || r.brokerAddr == None then reply == Refused(400, BadAddress)
    else if !r.makerAddr.value.Wallet? || !r.brokerAddr.value.Wallet? || r.oracleKeys == None then reply == Refused(500, BadKey)
    else reply == Refused(400, MissingField)
  }

  /** Any other request is refused without a payment or a write. */
  lemma {:induction false} UnpublishableIsRefused(w: World, r: PublishRequest, now: int, tries: Tries, db: Db)
    requires forall c :: !Publishable(w.offer, r, now, c)
    ensures
      var (w', reply) := Both(PublishV2(w, r, now, tries, db));
      var waits := SoundTerms(r, now) && w.offer.Some? && w.offer.value.status == HandshakeDone;
      var keyed := waits && w.offer.value.pendingPk.Some? && |w.offer.value.pendingPk.value| == 64;
      && w' == w && reply.Refused?
      && (!SoundTerms(r, now) ==> NamesFirstFailure(r, now, reply))
      && (SoundTerms(r, now) && w.offer == None ==> reply == Refused(404, NotFound))
      && (SoundTerms(r, now) && w.offer.Some? && !waits ==> reply == Refused(409, WrongStatus))
      && (waits && !keyed ==> reply == Refused(400, BadKey))
      && (keyed && !Bound(w.offer, now) ==> reply == Refused(410, HandshakeExpired))
      && (keyed && Bound(w.offer, now) && !SoundPrice(r) ==>
            reply == Refused(400, if SoundAmounts(r) then StakeTooLarge else BadPrice))
      && (keyed && Bound(w.offer, now) && SoundPrice(r) ==> reply == Refused(500, CompileFailed))
  {
    SoundIff(r, now);
    if !SoundTerms(r, now) { TermsAnswer(r, now); }
    match PublishTarget(w.offer, r, now)
    case Err(_) =>
    case Ok(c) => TargetIff(w.offer, r, now, c);
  }

  lemma {:induction false} TermsAnswer(r: PublishRequest, now: int)
    requires !SoundTerms(r, now)
    ensures RequestRefusal(r, now).Some? && NamesFirstFailure(r, now, RequestRefusal(r, now).value)
  {
    if r.oracleRelays.Some? && |r.oracleRelays.value| == 5 {
      FiveDifferent(r.oracleRelays.value);
    }
  }

  // ---------- the taker's stake ----------

  /** The handshake's key pays the recorded amount into the recorded address. */
  predicate Stakeable(offer: Option<Offer>, r: StakeRequest) {
    && r.takerRelay != "" && offer.Some? && offer.value.status == OpenAwaitingTakerStake && offer.value.escrow.Some?
    && r.takerAddr.Some? && r.takerAddr.value.Wallet? && offer.value.pendingPk == Some(r.takerAddr.value.key)
    && offer.value.meta.baked.Some? && 0 < offer.value.meta.baked.value.takerSompi
  }

  lemma {:induction false} StakeIff(w: World, r: StakeRequest, tries: Tries, db: Db)
    requires Stakeable(w.offer, r)
    ensures
      var (w', reply) := Both(TakerStake(w, r, tries, db));
      var o := w.offer.value;
      var sent := r.moved.Some? && Acked in tries;
      && (reply == Done <==> sent && r.emitted && db == Commits)
      && (reply == Refused(503, LockFailed) <==> !sent)
      && (reply == Refused(503, BroadcastFailed) <==> sent && db != UpdateFails && !r.emitted)
      && (reply == Refused(500, DatabaseFailed) <==> sent && (db == UpdateFails || (r.emitted && db == TransitionFails)))
      && w'.ledger == w.ledger +
           (if r.moved.Some? then Copies(Payment(r.takerAddr.value.key, o.escrow.value, r.moved.value), Landed(tries)) else [])
      && w'.offer.Some?
      && w' == w.(ledger := w'.ledger, offer := w'.offer,
                  events := w.events + if reply == Done then [BecameMatched(r.takerAddr)] else [])
      && (!sent || db == UpdateFails ==> w'.offer == w.offer)
      && (sent && db != UpdateFails ==>
            && NewPayment(w, w', w'.offer.value.takerLockTx, Payment(r.takerAddr.value.key, o.escrow.value, r.moved.value))
            && w'.offer.value == o.(
                 takerLockTx := w'.offer.value.takerLockTx, taker := r.takerAddr,
                 meta := Meta(o.meta.baked, o.meta.votes, if r.relayStored then Some(r.takerRelay) else o.meta.takerRelay),
                 status := if reply == Done then Matched else OpenAwaitingTakerStake))
  {
  }

  lemma {:induction false} UnstakeableIsRefused(w: World, r: StakeRequest, tries: Tries, db: Db)
    requires !Stakeable(w.offer, r)
    ensures
      var (w', reply) := Both(TakerStake(w, r, tries, db));
      var waits := r.takerRelay != "" && w.offer.Some? && w.offer.value.status == OpenAwaitingTakerStake;
      var wallet := r.takerAddr.Some? && r.takerAddr.value.Wallet?;
      && w' == w
      && (reply == Refused(400, MissingField) <==> r.takerRelay == "")
      && (reply == Refused(404, NotFound) <==> r.takerRelay != "" && w.offer == None)
      && (reply == Refused(409, WrongStatus) <==> r.takerRelay != "" && w.offer.Some? && !waits)
      && (reply == Refused(400, BadAddress) <==> waits && !wallet)
      && (reply == Refused(403, NotHandshakeTaker) <==> waits && wallet && w.offer.value.pendingPk != Some(r.takerAddr.value.key))
      && (reply == Refused(500, BadStake) || reply == Refused(503, LockFailed)
          <==> waits && wallet && w.offer.value.pendingPk == Some(r.takerAddr.value.key))
      && (reply == Refused(500, BadStake) ==>
            w.offer.value.meta.baked == None || w.offer.value.meta.baked.value.takerSompi <= 0)
      && (reply == Refused(503, LockFailed) ==>
            && w.offer.value.escrow == None
            && w.offer.value.meta.baked.Some? && 0 < w.offer.value.meta.baked.value.takerSompi)
  {
  }

  // ---------- votes ----------

  /** The offer takes votes, and the caller's relay is known. */
  predicate Votable(offer: Option<Offer>, relay: string, addr: Option<Address>, winner: int) {
    && relay != "" && (winner == 0 || winner == 1) && addr.Some?
    && offer.Some? && (offer.value.status == Matched || offer.value.status == Verifying)
  }

  predicate Records(w: World, w': World, e: Event) {
    |w.events| < |w'.events| && w'.events[..|w.events|] == w.events && w'.events[|w.events|] == e
  }

  /**
   * Who votes: a call counts as the maker's vote exactly when it comes from the row's maker relay,
   * as the taker's exactly when another relay calls whose address is in the taker column, and any
   * other call is refused and changes nothing.
   */
  lemma {:induction false} VoteIff(w: World, relay: string, addr: Option<Address>, winner: int, d: Dispatch)
    ensures
      var (w', reply) := Both(Confirm(w, relay, addr, winner, d));
      var open := Votable(w.offer, relay, addr, winner);
      var maker := open && relay == w.offer.value.makerRelay;
      var taker := open && relay != w.offer.value.makerRelay && addr == w.offer.value.taker;
      && (forall x :: Records(w, w', Voted(Maker, x)) <==> maker && x == winner)
      && (forall x :: Records(w, w', Voted(Taker, x)) <==> taker && x == winner)
      && (!maker && !taker ==> w' == w)
      && (reply == Refused(403, NotAParty) <==> open && !maker && !taker)
      && (reply == Refused(400, MissingField) <==> relay == "")
      && (reply == Refused(400, BadWinner) <==> relay != "" && winner != 0 && winner != 1)
      && (reply == Done || reply == Refused(500, DispatchFailed) <==> maker || taker)
  {
    if w.offer.Some? && Votable(w.offer, relay, addr, winner) {
      var o := w.offer.value;
      if relay == o.makerRelay {
        VoteEffect(w, relay, addr, Maker, winner, d);
      } else if addr == o.taker {
        VoteEffect(w, relay, addr, Taker, winner, d);
      }
    }
  }

  /** The answers to calls that name no votable offer. */
  lemma {:induction false} VoteRefusals(w: World, relay: string, addr: Option<Address>, winner: int, d: Dispatch)
    requires relay != "" && (winner == 0 || winner == 1)
    ensures
      var (w', reply) := Both(Confirm(w, relay, addr, winner, d));
      var open := w.offer.Some? && (w.offer.value.status == Matched || w.offer.value.status == Verifying);
      && (reply == Refused(409, WrongStatus) <==> w.offer.Some? && !open)
      && (reply == Refused(404, NotFound) <==> w.offer == None || (open && addr == None))
  {
  }

  predicate MayVote(o: Offer, relay: string, addr: Option<Address>, role: Role) {
    match role
    case Maker => relay == o.makerRelay
    case Taker => relay != o.makerRelay && addr == o.taker
  }

  /** Where a dispatch of an agreed outcome leaves the offer. */
  function StatusAfter(before: Status, d: Dispatch): Status {
    match d
    case Threw => before
    case OnlyVerifying => Verifying
    case Collecting => CollectingSigs
    case Settled(_) => Completed
  }

  lemma {:induction false} DispatchEffect(o: Offer, d: Dispatch)
    requires o.status == Matched || o.status == Verifying
    ensures ApplyDispatch(o, d)
         == o.(status := StatusAfter(o.status, d), settleTx := if d.Settled? then Some(d.tx) else o.settleTx)
  {
  }

  /**
   * What a vote does: it replaces the caller's vote and no other; and exactly when the other
   * side's vote on the row is the same, the outcome is dispatched, once, and the row moves on.
   */
  lemma {:induction false} VoteEffect(w: World, relay: string, addr: Option<Address>, role: Role, winner: int, d: Dispatch)
    requires Votable(w.offer, relay, addr, winner) && MayVote(w.offer.value, relay, addr, role)
    ensures
      var (w', reply) := Both(Confirm(w, relay, addr, winner, d));
      var o := w.offer.value;
      var agreed := (if role == Maker then o.meta.votes.taker else o.meta.votes.maker) == Some(winner);
      && w'.offer.Some?
      && w'.offer.value == o.(
           meta := o.meta.(votes := Votes(if role == Maker then Some(winner) else o.meta.votes.maker,
                                          if role == Taker then Some(winner) else o.meta.votes.taker)),
           status := if agreed then StatusAfter(o.status, d) else o.status,
           settleTx := if agreed && d.Settled? then Some(d.tx) else o.settleTx)
      && w' == w.(offer := w'.offer, events := w.events + [Voted(role, winner)] + if agreed then [Dispatched(winner)] else [])
      && reply == if agreed && d == Threw then Refused(500, DispatchFailed) else Done
  {
    var votes := w.offer.value.meta.votes;
    var voted := WithVotes(w.offer.value, votes.Set(role, winner));
    assert VoteTarget(w.offer, relay, addr, winner) == Ok(role);
    DispatchEffect(voted, d);
    assert w.events + [Voted(role, winner)] + [] == w.events + [Voted(role, winner)];
  }

  // ---------- refunds ----------

  /** The end date, where it reads as a date, has come; a missing one counts as the epoch. */
  predicate DatePassed(o: Offer, now: int) {
    (o.endDate.Millis? ==> o.endDate.ms <= now) && (o.endDate.Missing? ==> 0 <= now)
  }

  /** An escrowed offer that was not refunded and whose maker is known. */
  predicate Refundable(offer: Option<Offer>) {
    && offer.Some? && offer.value.refundTx == None && offer.value.escrow.Some?
    && offer.value.makerRelay != "" && offer.value.makerAddr.Some?
  }

  predicate InRefundState(o: Offer) {
    o.status == OpenAwaitingTakerStake || o.status == Matched || o.status == Verifying
  }

  predicate TakerMissing(o: Offer) {
    o.status != OpenAwaitingTakerStake && (o.taker == None || o.takerLockTx == None)
  }

  /** When a refund is sent, and why it is not. */
  lemma {:induction false} RefundIff(w: World, now: int)
    ensures
      var (w', reply) := Both(RefundSend(w, now));
      var known := Refundable(w.offer);
      var due := known && InRefundState(w.offer.value) && DatePassed(w.offer.value, now);
      && (reply == Done <==> due && !TakerMissing(w.offer.value) && w.offer.value.meta.baked.Some?)
      && (reply == Refused(403, BeforeDeadline) <==>
            known && InRefundState(w.offer.value) && !DatePassed(w.offer.value, now))
      && (reply == Refused(400, MissingTakerLock) <==> due && TakerMissing(w.offer.value))
      && (reply == Refused(500, NoScript) <==> due && !TakerMissing(w.offer.value) && w.offer.value.meta.baked == None)
      && (reply == Refused(409, WrongStatus) <==> known && !InRefundState(w.offer.value))
      && (reply == Refused(404, NotFound) <==> w.offer == None)
      && (reply == Refused(409, AlreadyRefunded) <==> w.offer.Some? && w.offer.value.refundTx.Some?)
      && (reply == Refused(400, NoEscrow) || reply == Refused(400, NoMaker)
          <==> w.offer.Some? && w.offer.value.refundTx == None && !known)
      && (reply == Refused(400, NoEscrow) ==> w.offer.value.escrow == None)
      && (reply == Refused(400, NoMaker) ==> w.offer.value.escrow.Some?)
      && (reply != Done ==> w' == w)
      && (reply == Done ==>
            && |w'.orders| == |w.orders| + 1
            && w' == w.(orders := w.orders + [w'.orders[|w.orders|]], waiting := w.waiting + {|w.orders|})
            && OrderFor(w.offer.value, w'.orders[|w.orders|], now))
  {
    if RefundRefusal(w.offer, now).None? { OrderIsFor(w.offer.value, now); }
  }

  /** What the refund of a row asks the relay to send. */
  predicate OrderFor(o: Offer, r: RefundOrder, now: int) {
    && o.escrow == Some(r.from) && o.makerAddr == Some(r.makerTo) && r.sentAt == now && r.endDate == o.endDate
    && o.meta.baked.Some? && r.script == o.meta.baked.value.script
    && WholeSeconds(o.endDate, r.lockTime)
    && (o.status == OpenAwaitingTakerStake ==>
          r.branch == 2 && r.inputs == [] && r.takerTo == None && r.makerSompi == r.takerSompi == 0)
    && (o.status != OpenAwaitingTakerStake ==>
          && r.branch == 1 && r.inputs == [o.lockTx, o.takerLockTx] && r.takerTo == o.taker
          && r.makerSompi == o.meta.baked.value.makerSompi - HalfFee(o.meta.baked.value.minerFee)
          && r.takerSompi == o.meta.baked.value.takerSompi - HalfFee(o.meta.baked.value.minerFee))
  }

  /** The date in milliseconds, cut to whole seconds; zero for one that does not read. */
  predicate WholeSeconds(d: EndDate, ms: int) {
    && ms % 1000 == 0
    && (d.Millis? ==> ms <= d.ms < ms + 1000)
    && (!d.Millis? ==> ms == 0)
  }

  function HalfFee(fee: int): int { if fee == 0 then 500_000 else fee / 2 }

  lemma {:induction false} OrderIsFor(o: Offer, now: int)
    requires RefundRefusal(Some(o), now).None?
    ensures OrderFor(o, OrderOf(o, now), now)
  {
  }

  /** The second half writes the id it was given, once, and marks the offer where it can be marked. */
  lemma {:induction false} ResumeIff(w: World, handler: nat, tx: Option<TxId>, db: Db)
    requires handler in w.waiting && w.offer.Some?
    ensures
      var (w', reply) := Both(RefundResume(w, handler, tx, db));
      var o := w.offer.value;
      var first := tx.Some? && db != UpdateFails && o.refundTx == None;
      && (reply == Done <==> first && db == Commits)
      && (reply == Refused(503, RelayFailed) <==> tx == None)
      && (reply == Refused(409, LostRace) <==> tx.Some? && db != UpdateFails && o.refundTx.Some?)
      && (reply == Refused(500, DatabaseFailed) <==> tx.Some? && (db == UpdateFails || (first && db == TransitionFails)))
      && (!first ==> w' == w.(waiting := w.waiting - {handler}))
      && (first ==>
            w' == w.(waiting := w.waiting - {handler}, events := w.events + [RefundWritten(tx.value)],
                     offer := Some(o.(refundTx := tx,
                                      status := if db == Commits && CanBeRefunded(o.status) then Refunded else o.status))))
  {
    EdgesInto(w.offer.value.status, Refunded);
  }

  lemma {:induction false} NobodyToResume(w: World, handler: nat, tx: Option<TxId>, db: Db)
    requires handler !in w.waiting || w.offer == None
    ensures RefundResume(w, handler, tx, db) == Outcome(w, Refused(404, NotFound))
  {
  }

  // ---------- the status table, by target ----------

  predicate CanBeRefunded(s: Status) {
    s in {Open, OpenAwaitingTakerStake, Matched, Verifying, CollectingSigs, Delivering, Verified,
          AwaitingManualConfirm, AwaitingOracle}
  }

  function Predecessors(to: Status): set<Status> {
    match to
    case PendingTaker => {}
    case HandshakeDone => {PendingTaker}
    case OpenAwaitingTakerStake => {HandshakeDone}
    case Open => {}
    case Matched => {Open, OpenAwaitingTakerStake}
    case Verifying => {Matched, CollectingSigs}
    case CollectingSigs => {Verifying}
    case Delivering => {Verifying, Verified}
    case Verified => {Delivering}
    case AwaitingManualConfirm => {Matched}
    case AwaitingOracle => {Matched}
    case Completed => {Delivering, AwaitingManualConfirm, AwaitingOracle, CollectingSigs}
    case Disputed => {Verifying, Delivering, Verified, AwaitingManualConfirm}
    case TimedOut =>
      {Open, Verifying, Verified, AwaitingManualConfirm, AwaitingOracle, OpenAwaitingTakerStake, CollectingSigs}
    case Failed => {AwaitingOracle}
    case Cancelled => {Open, PendingTaker, HandshakeDone}
    case Expired => {Open, PendingTaker, HandshakeDone, OpenAwaitingTakerStake}
    case Refunded => set s | CanBeRefunded(s)
  }

  lemma {:induction false} EdgesForward(s: Status, to: Status)
    requires to in Successors(s)
    ensures s in Predecessors(to)
  {
  }

  lemma {:induction false} EdgesBack(s: Status, to: Status)
    requires s in Predecessors(to)
    ensures to in Successors(s)
  {
  }

  /** The table read backwards. */
  lemma {:induction false} EdgesInto(s: Status, to: Status)
    ensures to in Successors(s) <==> s in Predecessors(to)
  {
    if to in Successors(s) { EdgesForward(s, to); }
    if s in Predecessors(to) { EdgesBack(s, to); }
  }

  // ---------- accepts, reopenings and the other services ----------

  lemma {:induction false} AcceptIff(w: World, taker: Option<Address>, verified: bool, autoFire: bool, ack: bool, db: Db)
    ensures
      var (w', reply) := Both(Accept(w, taker, verified, autoFire, ack, db));
      var open := w.offer.Some? && w.offer.value.status == Open;
      && (reply == Done <==> open && verified && (autoFire || ack) && db == Commits)
      && (reply == Refused(404, NotFound) <==> w.offer == None)
      && (reply == Refused(409, WrongStatus) <==> w.offer.Some? && !open)
      && (reply == Refused(403, VerifyFailed) <==> open && !verified)
      && (reply == Refused(403, AckRequired) <==> open && verified && !autoFire && !ack)
      && (reply == Refused(500, DatabaseFailed) <==> open && verified && (autoFire || ack) && db != Commits)
      && (reply != Done ==> w' == w)
      && (reply == Done ==> Rematched(w, w', taker))
  {
  }

  predicate Rematched(w: World, w': World, taker: Option<Address>) {
    && w.offer.Some?
    && w' == w.(offer := Some(w.offer.value.(status := Matched, taker := taker)), events := w.events + [BecameMatched(taker)])
  }

  lemma {:induction false} RemoteAcceptIff(w: World, taker: Option<Address>, passes: bool)
    ensures
      var w' := RemoteAccept(w, taker, passes).world;
      if w.offer.Some? && w.offer.value.status == Open && passes then Rematched(w, w', taker) else w' == w
  {
  }

  lemma {:induction false} ReopenIff(w: World)
    ensures
      var w' := Reopen(w).world;
      if w.offer.Some? && w.offer.value.status == Matched
      then w' == w.(offer := Some(w.offer.value.(status := Open, taker := None)), events := w.events + [Reopened])
      else w' == w
  {
  }

  /** The statuses only a handler of an offer gives it. */
  predicate OfHandlers(to: Status) {
    to == HandshakeDone || to == OpenAwaitingTakerStake || to == Matched || to == Refunded
  }

  /** A status another service may give an offer: along the table, or by one of the two direct writes. */
  predicate ReachableOutside(s: Status, to: Status) {
    && !OfHandlers(to)
    && (s in Predecessors(to)
        || (to == Completed && (s == Matched || s == Verifying || s == Delivering || s == Disputed))
        || (to == Cancelled && s == Disputed))
  }

  lemma {:induction false} MoveIff(w: World, to: Status, settleTx: Option<TxId>)
    requires w.offer.Some?
    ensures
      var w' := Move(w, to, settleTx).world; var o := w.offer.value;
      && w'.offer.Some? && w' == w.(offer := w'.offer)
      && var o' := w'.offer.value;
      && o' == o.(status := o'.status, settleTx := o'.settleTx)
      && o'.status == (if ReachableOutside(o.status, to) then to else o.status)
      && o'.settleTx == (if settleTx.Some? && !OfHandlers(to) then settleTx else o.settleTx)
  {
    EdgesInto(w.offer.value.status, to);
  }
}
