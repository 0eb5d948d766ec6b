/**
 * The prediction handlers as the console runs them: methods that check, talk to the relay and
 * update the offer row in place.  Each is proved to do exactly its step of the protocol.
 */
module OfferDesk {
  import opened Common
  import opened EscrowContract
  import opened Relay
  import opened OfferProtocol
  import opened OfferRuns

  class Desk {
    var offer: Option<Offer>
    var ledger: seq<Payment>
    var orders: seq<RefundOrder>
    var waiting: set<nat>
    var seen: seq<Meta>
    var events: seq<Event>

    function Snapshot(): World
      reads this
    {
      World(offer, ledger, orders, waiting, seen, events)
    }

    constructor (ledger: seq<Payment>)
      ensures Snapshot() == Start(ledger) && Inv(Snapshot())
    {
      this.offer, this.ledger, orders, waiting, seen, events := None, ledger, [], {}, [], [];
    }

    method PostPendingOffer(makerRelay: string, minutes: int, now: int, inserted: bool) returns (reply: Reply)
      modifies this
      ensures Outcome(Snapshot(), reply) == PendingOffer(old(Snapshot()), makerRelay, minutes, now, inserted)
    {
      if makerRelay == "" { return Refused(400, MissingField); }
      if offer.Some? || !inserted { return Refused(500, DatabaseFailed); }
      var handshakeMinutes := OrElse(minutes, 30);
      if handshakeMinutes > 60 { handshakeMinutes := 60; }
      if handshakeMinutes < 5 { handshakeMinutes := 5; }
      offer := Some(Offer(PendingTaker, makerRelay, None, None, None, now + handshakeMinutes * 60_000,
                          Missing, None, None, None, EMPTY_META, None, None));
      return Done;
    }

    method PostTakerHandshake(addr: Option<Address>, now: int, db: Db) returns (reply: Reply)
      modifies this
      ensures Outcome(Snapshot(), reply) == TakerHandshake(old(Snapshot()), addr, now, db)
    {
      if addr.None? { return Refused(400, MissingField); }
      if offer.None? { return Refused(404, NotFound); }
      var o := offer.value;
      if o.status != PendingTaker { return Refused(409, WrongStatus); }
      if o.handshakeExpiresAt < now { return Refused(410, HandshakeExpired); }
      if !addr.value.Wallet? { return Refused(400, BadAddress); }
      if db == UpdateFails { return Refused(500, DatabaseFailed); }
      o := o.(pendingPk := Some(addr.value.key), taker := addr);
      offer := Some(o);
      if db == TransitionFails { return Refused(500, DatabaseFailed); }
      offer := Some(Transition(o, HandshakeDone));
      return Done;
    }

    /** Has the relay pay, if it can read the amount, and returns the transaction it names. */
    method LockStake(payer: Key, to: Address, moved: Option<nat>, tries: Tries) returns (tx: Option<TxId>)
      modifies this`ledger
      ensures Sent(ledger, tx) == Lock(old(ledger), payer, to, moved, tries)
    {
      tx := None;
      if moved.Some? {
        ledger, tx := SendWithRetry(ledger, Payment(payer, to, moved.value), tries);
      }
    }

    method PostPublishV2(r: PublishRequest, now: int, tries: Tries, db: Db) returns (reply: Reply)
      modifies this
      ensures Outcome(Snapshot(), reply) == PublishV2(old(Snapshot()), r, now, tries, db)
    {
      var target := PublishTarget(offer, r, now);
      if target.Err? { return target.error; }
      var c := target.value;
      TargetFacts(offer, r, now);
      var o := offer.value;
      var tx := LockStake(c.makerPk, P2sh(c), r.moved, tries);
      ghost var sent := Lock(old(ledger), c.makerPk, P2sh(c), r.moved, tries);
      assert PublishV2(old(Snapshot()), r, now, tries, db) == PublishPaid(old(Snapshot()), r, c, sent, db);
      if tx.None? { return Refused(503, LockFailed); }
      if db == UpdateFails { return Refused(500, DatabaseFailed); }
      o := o.(makerRelay := r.makerRelay, makerAddr := r.makerAddr, endDate := EndDateOf(r));
      o := o.(escrow := Some(P2sh(c)), lockTx := tx);
      o := o.(meta := Meta(Some(Baked(c, c.makerStake, c.takerStake, c.minerFee)), Votes(None, None), None));
      assert o == Published(old(offer).value, r, c, tx.value);
      offer := Some(o);
      if db == TransitionFails { return Refused(500, DatabaseFailed); }
      offer := Some(Transition(o, OpenAwaitingTakerStake));
      return Done;
    }

    method PostTakerStake(r: StakeRequest, tries: Tries, db: Db) returns (reply: Reply)
      modifies this
      ensures Outcome(Snapshot(), reply) == TakerStake(old(Snapshot()), r, tries, db)
    {
      var refusal := StakeRefusal(offer, r);
      if refusal.Some? { return refusal.value; }
      var o := offer.value;
      var tx := LockStake(r.takerAddr.value.key, o.escrow.value, r.moved, tries);
      if tx.None? { return Refused(503, LockFailed); }
      if db == UpdateFails { return Refused(500, DatabaseFailed); }
      o := o.(takerLockTx := tx, taker := r.takerAddr);
      if r.relayStored { o := o.(meta := o.meta.(takerRelay := Some(r.takerRelay))); }
      offer := Some(o);
      if !r.emitted { return Refused(503, BroadcastFailed); }
      if db == TransitionFails { return Refused(500, DatabaseFailed); }
      offer := Some(Transition(o, Matched));
      events := events + [BecameMatched(r.takerAddr)];
      return Done;
    }

    method PostConsensualConfirm(relay: string, addr: Option<Address>, winner: int, d: Dispatch) returns (reply: Reply)
      modifies this
      ensures Outcome(Snapshot(), reply) == Confirm(old(Snapshot()), relay, addr, winner, d)
    {
      var target := VoteTarget(offer, relay, addr, winner);
      if target.Err? { return target.error; }
      var role := target.value;
      var o := offer.value;
      var votes := o.meta.votes.Set(role, winner);
      o := WithVotes(o, votes);
      offer := Some(o);
      events := events + [Voted(role, winner)];
      if votes.Agree() {
        events := events + [Dispatched(votes.maker.value)];
        offer := Some(ApplyDispatch(o, d));
        if d == Threw { return Refused(500, DispatchFailed); }
      }
      return Done;
    }

    /** The refund handler up to its relay call. */
    method PostRefund(now: int) returns (reply: Reply)
      modifies this
      ensures Outcome(Snapshot(), reply) == RefundSend(old(Snapshot()), now)
    {
      var refusal := RefundRefusal(offer, now);
      if refusal.Some? { return refusal.value; }
      waiting := waiting + {|orders|};
      orders := orders + [OrderOf(offer.value, now)];
      return Done;
    }

    /** The same handler once its relay call returns, on whatever the row is by then. */
    method ResumeRefund(handler: nat, tx: Option<TxId>, db: Db) returns (reply: Reply)
      modifies this
      ensures Outcome(Snapshot(), reply) == RefundResume(old(Snapshot()), handler, tx, db)
    {
      if handler !in waiting || offer.None? { return Refused(404, NotFound); }
      waiting := waiting - {handler};
      if tx.None? { return Refused(503, RelayFailed); }
      if db == UpdateFails { return Refused(500, DatabaseFailed); }
      var o := offer.value;
      if o.refundTx.Some? { return Refused(409, LostRace); }
      o := o.(refundTx := tx);
      offer := Some(o);
      events := events + [RefundWritten(tx.value)];
      if db == TransitionFails { return Refused(500, DatabaseFailed); }
      offer := Some(Transition(o, Refunded));
      return Done;
    }

    method PostAccept(taker: Option<Address>, verified: bool, autoFire: bool, ack: bool, db: Db) returns (reply: Reply)
      modifies this
      ensures Outcome(Snapshot(), reply) == Accept(old(Snapshot()), taker, verified, autoFire, ack, db)
    {
      if offer.None? { return Refused(404, NotFound); }
      var o := offer.value;
      if o.status != Open { return Refused(409, WrongStatus); }
      if !verified { return Refused(403, VerifyFailed); }
      if !autoFire && !ack { return Refused(403, AckRequired); }
      if db != Commits { return Refused(500, DatabaseFailed); }
      offer := Some(Transition(o, Matched).(taker := taker));
      events := events + [BecameMatched(taker)];
      return Done;
    }
  }
}
