/** What the offer protocol guarantees in every run, and where it stops short. */
module OfferTheorems {
  import opened Common
  import opened EscrowContract
  import opened Relay
  import opened OfferProtocol
  import opened OfferHandlers
  import opened OfferRuns

  // ---------- both stakes are on chain before an offer is matched ----------

  /** `MatchOf` read off the events: whether the offer was ever matched, and whether it was reopened. */
  lemma {:induction false} MatchOfMeans(events: seq<Event>)
    ensures MatchOf(events).reopened <==> Reopened in events
    ensures MatchOf(events).taker.Some? <==> exists e :: e in events && (e.BecameMatched? || e == Reopened)
  {
    if events != [] {
      var init, last := events[..|events| - 1], events[|events| - 1];
      MatchOfMeans(init);
      assert forall e :: e in events <==> e in init || e == last;
    }
  }

  /** The offer is locked in an escrow script, and was matched at some time. */
  ghost predicate MatchedInEscrow(w: World) {
    w.offer.Some? && w.offer.value.escrow.Some?
    && (PastMatch(w.offer.value.status) || MatchOf(w.events).taker.Some?)
  }

  /**
   * In every run, an offer that has an escrow address and has been matched records a payment of
   * the maker and one of the taker, each of the baked amount and into that address, whose script
   * names the payers' keys; the taker's is the key given at the handshake.  Neither a reopening
   * nor a later match with somebody else changes that.
   */
  lemma {:induction false} MatchedOffersAreFullyLocked(ledger: seq<Payment>, steps: seq<Step>)
    requires PossibleRun(Start(ledger), steps)
    ensures
      var w := Run(Start(ledger), steps);
      MatchedInEscrow(w) ==>
        var o := w.offer.value;
        && Escrowed(o, w.ledger) && TakerLocked(o, w.ledger)
        && o.pendingPk == Some(o.meta.baked.value.script.takerPk)
  {
    RunKeeps(Start(ledger), steps);
  }

  /**
   * The taker column of such an offer names the script's taker exactly when the offer was never
   * reopened, or was last matched, after its reopening, with that same taker.
   */
  lemma {:induction false} TakerColumnIff(ledger: seq<Payment>, steps: seq<Step>)
    requires PossibleRun(Start(ledger), steps)
    ensures
      var w := Run(Start(ledger), steps);
      MatchedInEscrow(w) ==>
        && w.offer.value.meta.baked.Some?
        && var taker := Some(Wallet(w.offer.value.meta.baked.value.script.takerPk));
        && (w.offer.value.taker == taker <==> Reopened !in w.events || MatchOf(w.events).taker == Some(taker))
  {
    RunKeeps(Start(ledger), steps);
    MatchOfMeans(Run(Start(ledger), steps).events);
  }

  /** While it is reopened, no refund and no vote is accepted, though both stakes stay in the script. */
  lemma {:induction false} ReopenedOfferIsStranded(ledger: seq<Payment>, steps: seq<Step>, now: int, relay: string,
                                addr: Option<Address>, winner: int, d: Dispatch)
    requires PossibleRun(Start(ledger), steps)
    requires
      var w := Run(Start(ledger), steps);
      w.offer.Some? && w.offer.value.escrow.Some? && w.offer.value.status == Matched
    ensures
      var w := Reopen(Run(Start(ledger), steps)).world; var o := w.offer.value;
      && o.status == Open && o.taker == None && Escrowed(o, w.ledger) && TakerLocked(o, w.ledger)
      && RefundSend(w, now).world == w && RefundSend(w, now).reply != Done
      && Confirm(w, relay, addr, winner, d).world == w
  {
    RunKeeps(Start(ledger), steps);
    var w := Run(Start(ledger), steps);
    ReopenedRow(w.offer.value, w.ledger, MatchOf(w.events));
    OpenIsIdle(Reopen(w).world, now, relay, addr, winner, d);
  }

  lemma {:induction false} OpenIsIdle(w: World, now: int, relay: string, addr: Option<Address>, winner: int, d: Dispatch)
    requires w.offer.Some? && w.offer.value.status == Open
    ensures RefundSend(w, now).world == w && RefundSend(w, now).reply != Done
    ensures Confirm(w, relay, addr, winner, d).world == w
  {
    ConfirmFrame(w, relay, addr, winner, d);
  }

  /** The world after a draft, a handshake and a publish that met no failure. */
  function AfterPublish(ledger: seq<Payment>, makerRelay: string, key: Key, r: PublishRequest, now: int, tries: Tries): World {
    var w1 := PendingOffer(Start(ledger), makerRelay, 30, now, true).world;
    var w2 := TakerHandshake(w1, Some(Wallet(key)), now, Commits).world;
    PublishV2(w2, r, now, tries, Commits).world
  }

  /** All checks pass and every outside call succeeds. */
  predicate AllGoesWell(makerRelay: string, key: Key, r: PublishRequest, s: StakeRequest, now: int, mt: Tries, tt: Tries) {
    && makerRelay != "" && |key| == 64
    && RequestRefusal(r, now).None? && PriceRefusal(r).None?
    && ValidCtor(CtorOf(r, key)) && r.compiles && r.moved.Some? && Acked in mt
    && s.takerRelay != "" && s.takerAddr == Some(Wallet(key)) && s.moved.Some? && s.emitted && Acked in tt
  }

  lemma {:induction false} HandshakePassesChecks(ledger: seq<Payment>, makerRelay: string, key: Key, r: PublishRequest,
                              s: StakeRequest, now: int, mt: Tries, tt: Tries)
    requires AllGoesWell(makerRelay, key, r, s, now, mt, tt)
    ensures
      var w1 := PendingOffer(Start(ledger), makerRelay, 30, now, true).world;
      var w := TakerHandshake(w1, Some(Wallet(key)), now, Commits).world;
      && w.ledger == ledger && w.offer.Some? && w.offer.value.status == HandshakeDone
      && w.offer.value.pendingPk == Some(key) && w.offer.value.takerLockTx.None?
      && PublishTarget(w.offer, r, now) == Ok(CtorOf(r, key))
  {
    var w1 := PendingOffer(Start(ledger), makerRelay, 30, now, true).world;
    var w2 := TakerHandshake(w1, Some(Wallet(key)), now, Commits).world;
    assert OfferRefusal(w2.offer, now).None?;
  }

  lemma {:induction false} PublishReachesTaker(ledger: seq<Payment>, makerRelay: string, key: Key, r: PublishRequest,
                            s: StakeRequest, now: int, mt: Tries, tt: Tries)
    requires AllGoesWell(makerRelay, key, r, s, now, mt, tt)
    ensures
      var w := AfterPublish(ledger, makerRelay, key, r, now, mt);
      && w.offer.Some? && w.offer.value.status == OpenAwaitingTakerStake && StakeRefusal(w.offer, s).None?
      && w.offer.value.escrow == Some(P2sh(CtorOf(r, key)))
      && w.ledger == ledger + Copies(Payment(CtorOf(r, key).makerPk, P2sh(CtorOf(r, key)), r.moved.value), Landed(mt))
  {
    HandshakePassesChecks(ledger, makerRelay, key, r, s, now, mt, tt);
  }

  /** Then the taker's stake matches the offer. */
  lemma {:induction false} SuccessfulCallsMatch(ledger: seq<Payment>, makerRelay: string, key: Key, r: PublishRequest,
                             s: StakeRequest, now: int, mt: Tries, tt: Tries)
    requires AllGoesWell(makerRelay, key, r, s, now, mt, tt)
    ensures
      var last := TakerStake(AfterPublish(ledger, makerRelay, key, r, now, mt), s, tt, Commits);
      last.reply == Done && last.world.offer.Some? && last.world.offer.value.status == Matched
  {
    PublishReachesTaker(ledger, makerRelay, key, r, s, now, mt, tt);
  }

  /**
   * But when the broadcast after the taker's lock fails, the lock is recorded, the offer is not
   * matched, and the retry that matches it pays once more and overwrites the recorded lock.
   */
  lemma {:induction false} UnannouncedStakeHappens(ledger: seq<Payment>, makerRelay: string, key: Key, r: PublishRequest,
                                s: StakeRequest, now: int, mt: Tries, tt: Tries)
    requires AllGoesWell(makerRelay, key, r, s, now, mt, tt)
    ensures
      var lost := TakerStake(AfterPublish(ledger, makerRelay, key, r, now, mt), s.(emitted := false), tt, Commits).world;
      var again := TakerStake(lost, s, tt, Commits).world;
      && lost.offer.Some? && lost.offer.value.status == OpenAwaitingTakerStake && lost.offer.value.takerLockTx.Some?
      && again.offer.Some? && again.offer.value.status == Matched && again.offer.value.takerLockTx.Some?
      && lost.offer.value.takerLockTx.value < |lost.ledger| <= again.offer.value.takerLockTx.value
  {
    PublishReachesTaker(ledger, makerRelay, key, r, s, now, mt, tt);
    LostThenAgain(AfterPublish(ledger, makerRelay, key, r, now, mt), s, tt);
  }

  lemma {:induction false} LostThenAgain(w: World, s: StakeRequest, tries: Tries)
    requires StakeRefusal(w.offer, s).None? && s.moved.Some? && s.emitted && Acked in tries
    ensures
      var lost := TakerStake(w, s.(emitted := false), tries, Commits).world;
      var again := TakerStake(lost, s, tries, Commits).world;
      && lost.offer.Some? && lost.offer.value.status == OpenAwaitingTakerStake && lost.offer.value.takerLockTx.Some?
      && again.offer.Some? && again.offer.value.status == Matched && again.offer.value.takerLockTx.Some?
      && lost.offer.value.takerLockTx.value < |lost.ledger| <= again.offer.value.takerLockTx.value
  {
    var lost := TakerStake(w, s.(emitted := false), tries, Commits).world;
    assert StakeRefusal(lost.offer, s).None?;
  }

  /** One call of taker-stake: what its three tries do, and whether the broadcast after a lock succeeds. */
  datatype StakeTry = StakeTry(tries: Tries, announced: bool)

  /** The taker calls taker-stake again and again. */
  function Stakes(w: World, s: StakeRequest, calls: seq<StakeTry>): World
    decreases |calls|
  {
    if calls == [] then w
    else Stakes(Attempted(w, s, calls[0]), s, calls[1..])
  }

  predicate Matches(call: StakeTry) { call.announced && Acked in call.tries }

  /** The last call matches the offer, and none before it does. */
  predicate LastMatches(calls: seq<StakeTry>) {
    calls != [] && Matches(calls[|calls| - 1]) && forall k :: 0 <= k < |calls| - 1 ==> !Matches(calls[k])
  }

  function LandedIn(calls: seq<StakeTry>): nat {
    if calls == [] then 0 else Landed(calls[0].tries) + LandedIn(calls[1..])
  }

  lemma {:induction false} StakePays(w: World, s: StakeRequest, call: StakeTry)
    requires StakeRefusal(w.offer, s).None? && s.moved.Some?
    ensures
      var w1 := Attempted(w, s, call);
      && w1.ledger == w.ledger + Copies(Payment(s.takerAddr.value.key, w.offer.value.escrow.value, s.moved.value), Landed(call.tries))
      && w1.offer.Some? && w1.offer.value.escrow == w.offer.value.escrow
      && (if Matches(call) then w1.offer.value.status == Matched else StakeRefusal(w1.offer, s).None?)
  {
  }

  lemma {:induction false} PaymentsJoin(ledger: seq<Payment>, p: Payment, m: nat, n: nat)
    ensures ledger + Copies(p, m) + Copies(p, n) == ledger + Copies(p, m + n)
  {
  }

  /** The taker's part of one call, and what the next call starts from. */
  function Attempted(w: World, s: StakeRequest, call: StakeTry): World {
    TakerStake(w, s.(emitted := call.announced), call.tries, Commits).world
  }

  /** Every try that landed in any of the calls is one more payment of the taker. */
  lemma {:induction false} StakesPay(w: World, s: StakeRequest, calls: seq<StakeTry>)
    requires StakeRefusal(w.offer, s).None? && s.moved.Some? && LastMatches(calls)
    ensures
      var w' := Stakes(w, s, calls);
      && w'.offer.Some? && w'.offer.value.status == Matched
      && w'.ledger == w.ledger + Copies(Payment(s.takerAddr.value.key, w.offer.value.escrow.value, s.moved.value), LandedIn(calls))
    decreases |calls|
  {
    var p := Payment(s.takerAddr.value.key, w.offer.value.escrow.value, s.moved.value);
    StakePays(w, s, calls[0]);
    PaymentsJoin(w.ledger, p, Landed(calls[0].tries), LandedIn(calls[1..]));
    if |calls| > 1 {
      assert !Matches(calls[0]);
      RestMatches(calls);
      StakesPay(Attempted(w, s, calls[0]), s, calls[1..]);
    } else {
      LastStakePays(w, s, calls);
    }
  }

  lemma {:induction false} LastStakePays(w: World, s: StakeRequest, calls: seq<StakeTry>)
    requires |calls| == 1
    ensures Stakes(w, s, calls) == Attempted(w, s, calls[0]) && LandedIn(calls) == Landed(calls[0].tries)
  {
    assert calls[1..] == [];
    assert Stakes(Attempted(w, s, calls[0]), s, []) == Attempted(w, s, calls[0]);
  }

  lemma {:induction false} RestMatches(calls: seq<StakeTry>)
    requires LastMatches(calls) && |calls| > 1
    ensures LastMatches(calls[1..])
  {
  }

  /** One landing in all, when the last call was acknowledged, leaves nothing for the others. */
  lemma {:induction false} OneLandingIff(calls: seq<StakeTry>)
    requires LastMatches(calls)
    ensures LandedIn(calls) >= 1
    ensures LandedIn(calls) == 1 <==>
      && (forall k :: 0 <= k < |calls| ==> NothingLost(calls[k].tries))
      && (forall k :: 0 <= k < |calls| - 1 ==> Acked !in calls[k].tries)
    decreases |calls|
  {
    if |calls| == 1 {
      AckedLands(calls[0].tries);
      assert calls[1..] == [];
    } else {
      OneLandingIff(calls[1..]);
      if Acked in calls[0].tries { AckedLands(calls[0].tries); }
      assert forall k :: 0 <= k < |calls| - 1 ==> calls[1..][k] == calls[k + 1];
      assert forall k :: 1 <= k < |calls| ==> calls[k] == calls[1..][k - 1];
    }
  }

  /**
   * From draft to match the ledger gains exactly one payment of the maker and one of the taker,
   * both into the script, exactly when no attempt landed without acknowledgement and the first
   * lock that was recorded was also announced.
   */
  lemma {:induction false} OnePaymentEachIff(ledger: seq<Payment>, makerRelay: string, key: Key, r: PublishRequest,
                          s: StakeRequest, now: int, mt: Tries, calls: seq<StakeTry>)
    requires LastMatches(calls)
    requires AllGoesWell(makerRelay, key, r, s, now, mt, calls[|calls| - 1].tries)
    ensures
      var end := Stakes(AfterPublish(ledger, makerRelay, key, r, now, mt), s, calls);
      var c := CtorOf(r, key);
      && end.offer.Some? && end.offer.value.status == Matched
      && (end.ledger == ledger + [Payment(c.makerPk, P2sh(c), r.moved.value)] + [Payment(key, P2sh(c), s.moved.value)]
          <==>
          && NothingLost(mt) && (forall k :: 0 <= k < |calls| ==> NothingLost(calls[k].tries))
          && (forall k :: 0 <= k < |calls| - 1 ==> Acked !in calls[k].tries))
  {
    var w := AfterPublish(ledger, makerRelay, key, r, now, mt);
    var c := CtorOf(r, key);
    PublishReachesTaker(ledger, makerRelay, key, r, s, now, mt, calls[|calls| - 1].tries);
    StakesPay(w, s, calls);
    OneLandingIff(calls);
    AckedLands(mt);
    TwoRuns(ledger, Payment(c.makerPk, P2sh(c), r.moved.value), Landed(mt), Payment(key, P2sh(c), s.moved.value), LandedIn(calls));
  }

  lemma {:induction false} TwoRuns(ledger: seq<Payment>, p: Payment, m: nat, q: Payment, n: nat)
    requires m >= 1 && n >= 1
    ensures ledger + Copies(p, m) + Copies(q, n) == ledger + [p] + [q] <==> m == 1 && n == 1
  {
    if m == 1 && n == 1 {
      assert Copies(p, 1) == [p] && Copies(q, 1) == [q];
    } else {
      assert |ledger + Copies(p, m) + Copies(q, n)| > |ledger + [p] + [q]|;
    }
  }

  /**
   * Publishing moves money only after every check: five different oracles, none of them a party,
   * a deadline a quarter of an hour ahead, a live handshake, a price between 0 and 1 and a stake
   * within its limit.  All it moves is the maker's stake, into the script it then records.
   */
  lemma {:induction false} PublishPaysOnlyWhenChecked(w: World, r: PublishRequest, now: int, tries: Tries, db: Db)
    ensures
      var after := PublishV2(w, r, now, tries, db).world;
      after.ledger != w.ledger ==>
        && r.oracleRelays.Some? && |r.oracleRelays.value| == |set id | id in r.oracleRelays.value| == 5
        && r.makerRelay !in r.oracleRelays.value && r.brokerRelay !in r.oracleRelays.value && r.makerRelay != r.brokerRelay
        && r.endDateMs.Some? && now + 15 * 60_000 <= r.endDateMs.value
        && w.offer.Some? && w.offer.value.status == HandshakeDone && now <= w.offer.value.handshakeExpiresAt
        && r.price.Some? && 0.0 < r.price.value < 1.0
        && r.stake.Some? && 0.0 < r.stake.value <= r.maxStake && r.moved.Some?
        && exists c :: ValidCtor(c) && w.offer.value.pendingPk == Some(c.takerPk) && r.makerAddr == Some(Wallet(c.makerPk))
             && after.ledger == w.ledger + Copies(Payment(c.makerPk, P2sh(c), r.moved.value), Landed(tries))
             && after.offer.Some?
             && (after.offer == w.offer || (after.offer.value.escrow == Some(P2sh(c)) && Acked in tries))
  {
    match PublishTarget(w.offer, r, now)
    case Err(_) =>
    case Ok(c) =>
      TargetFacts(w.offer, r, now);
      var sent := Lock(w.ledger, c.makerPk, P2sh(c), r.moved, tries);
      assert r.moved.None? ==> PublishPaid(w, r, c, sent, db).world.ledger == w.ledger;
  }

  /** The guard on one row. */
  lemma {:induction false} GuardedRow(o: Offer, ledger: seq<Payment>, m: Match, now: int)
    requires RowInv(o, ledger, m)
    ensures
      && (RefundRefusal(Some(o), now) == Some(Refused(400, MissingTakerLock)) <==>
            && o.refundTx.None? && o.escrow.Some? && o.makerRelay != ""
            && (o.status == Matched || o.status == Verifying) && DatePassed(o, now)
            && m.taker == Some(None))
      && (RefundRefusal(Some(o), now) == Some(Refused(400, MissingTakerLock)) ==> m.reopened && o.takerLockTx.Some?)
      && RefundRefusal(Some(o), now) != Some(Refused(500, NoScript))
  {
  }

  /**
   * The refund handler reports a missing taker lock exactly for an offer past its deadline whose
   * last match, after a reopening, named no taker; the lock itself is never missing, nor is the
   * script.
   */
  lemma {:induction false} TakerLockGuardIff(ledger: seq<Payment>, steps: seq<Step>, now: int)
    requires PossibleRun(Start(ledger), steps)
    ensures
      var w := Run(Start(ledger), steps);
      && (RefundSend(w, now).reply == Refused(400, MissingTakerLock) <==>
            && w.offer.Some? && var o := w.offer.value;
            && o.refundTx.None? && o.escrow.Some? && o.makerRelay != ""
            && (o.status == Matched || o.status == Verifying) && DatePassed(o, now)
            && MatchOf(w.events).taker == Some(None))
      && (RefundSend(w, now).reply == Refused(400, MissingTakerLock) ==>
            Reopened in w.events && w.offer.value.takerLockTx.Some?)
      && RefundSend(w, now).reply != Refused(500, NoScript)
  {
    var w := Run(Start(ledger), steps);
    RunKeeps(Start(ledger), steps);
    MatchOfMeans(w.events);
    if w.offer.Some? { GuardedRow(w.offer.value, w.ledger, MatchOf(w.events), now); }
  }

  /** It does happen: a reopened offer accepted again without naming a taker. */
  lemma {:induction false} RematchWithoutTakerHitsTheGuard(ledger: seq<Payment>, steps: seq<Step>, now: int)
    requires PossibleRun(Start(ledger), steps)
    requires
      var w := Run(Start(ledger), steps);
      && w.offer.Some? && var o := w.offer.value;
      && o.status == Matched && o.escrow.Some? && o.refundTx.None? && o.makerRelay != "" && DatePassed(o, now)
    ensures
      var w := Reopen(Run(Start(ledger), steps)).world;
      RefundSend(Accept(w, None, true, true, true, Commits).world, now).reply == Refused(400, MissingTakerLock)
  {
    RunKeeps(Start(ledger), steps);
    var w := Run(Start(ledger), steps);
    assert Escrowed(w.offer.value, w.ledger);
    NamelessMatchIsRefused(w.offer.value.(status := Matched, taker := None), now);
  }

  lemma {:induction false} NamelessMatchIsRefused(o: Offer, now: int)
    requires o.status == Matched && o.taker == None && DatePassed(o, now)
    requires o.escrow.Some? && o.refundTx.None? && o.makerRelay != "" && o.makerAddr.Some?
    ensures RefundRefusal(Some(o), now) == Some(Refused(400, MissingTakerLock))
  {
  }

  /** The script arguments were accepted by the compiler. */
  ghost predicate ScriptCompiled(w: World) {
    && (w.offer.Some? ==> Compiled(w.offer.value.meta))
    && forall k :: 0 <= k < |w.seen| ==> Compiled(w.seen[k])
  }

  ghost predicate Compiled(meta: Meta) { meta.baked.Some? ==> ValidCtor(meta.baked.value.script) }

  lemma {:induction false} PublishedScriptsAreValid(w: World, steps: seq<Step>)
    requires ScriptCompiled(w)
    ensures ScriptCompiled(Run(w, steps))
    decreases |steps|
  {
    if steps != [] {
      StepKeepsScript(w, steps[0]);
      PublishedScriptsAreValid(Apply(w, steps[0]).world, steps[1..]);
    }
  }

  lemma {:induction false} FrameKeepsScript(w: World, w': World)
    requires ScriptCompiled(w) && Frame(w, w')
    ensures ScriptCompiled(w')
  {
  }

  lemma {:induction false} StepKeepsScript(w: World, step: Step)
    requires ScriptCompiled(w)
    ensures ScriptCompiled(Apply(w, step).world)
  {
    if step.StepConfirm? {
      ConfirmFrame(w, step.relay, step.addr, step.winner, step.dispatch);
    } else if !step.StepSettlerWrite? {
      StepFrame(w, step);
      FrameKeepsScript(w, Apply(w, step).world);
    }
  }

  /**
   * The settler pays the addresses of the row, the script demands its own keys.  On a matched
   * offer a settlement is accepted exactly when the address of the winner is the script's and the
   * baked fees allow it; the address can only differ for the taker of a reopened offer.
   */
  lemma {:induction false} SettlementAcceptedIff(ledger: seq<Payment>, steps: seq<Step>, winner: int, to: Key)
    requires PossibleRun(Start(ledger), steps) && (winner == 0 || winner == 1)
    requires
      var w := Run(Start(ledger), steps);
      && w.offer.Some? && w.offer.value.escrow.Some? && PastMatch(w.offer.value.status)
      && w.offer.value.meta.baked.Some? && w.offer.value.meta.baked.value.script.makerStake < Sompi.TWO_TO_52
      && (if winner == 0 then w.offer.value.makerAddr else w.offer.value.taker) == Some(Wallet(to))
    ensures
      var w := Run(Start(ledger), steps); var o := w.offer.value;
      var c := o.meta.baked.value.script;
      && o.lockTx.Some? && o.takerLockTx.Some?
      && o.lockTx.value < |w.ledger| && o.takerLockTx.value < |w.ledger| && |c.oraclePks| == 5
      && var inputs := [w.ledger[o.lockTx.value].sompi, w.ledger[o.takerLockTx.value].sompi];
      && var spendable := c.makerStake + c.takerStake - c.minerFee;
      && (winner == 0 || Reopened !in w.events ==> to == WinnerKey(c, winner))
      && (Satisfies(c, SettleConsensual, Spend([c.makerPk, c.takerPk], winner, inputs, ConsensualOutputs(c, to), 0))
          <==> to == WinnerKey(c, winner) && spendable >= 0 && (c.brokerFeePct != 0 || spendable < 100))
      && (Satisfies(c, SettleDispute, Spend(c.oraclePks, winner, inputs, DisputeOutputs(c, to), 0))
          <==> to == WinnerKey(c, winner) && spendable * c.oracleFeePct >= ORACLE_FLOOR
               && c.brokerFeePct + c.oracleFeePct <= 10000)
  {
    var w := Run(Start(ledger), steps);
    var c := w.offer.value.meta.baked.value.script;
    MatchedOffersAreFullyLocked(ledger, steps);
    TakerColumnIff(ledger, steps);
    PublishedScriptsAreValid(Start(ledger), steps);
    ConsensualAcceptedIff(c, winner, to);
    DisputeAcceptedIff(c, winner, to);
  }

  // ---------- refunds ----------

  /**
   * With any number of refund handlers suspended at their relay call, the refund id is written at
   * most once, the row shows what was written, and a refunded offer has one.
   */
  lemma {:induction false} RefundIsWrittenAtMostOnce(ledger: seq<Payment>, steps: seq<Step>)
    requires PossibleRun(Start(ledger), steps)
    ensures
      var w := Run(Start(ledger), steps);
      && |Written(w.events)| <= 1
      && (w.offer.Some? ==> (w.offer.value.refundTx.Some? <==> |Written(w.events)| == 1))
      && (w.offer.Some? && w.offer.value.status == Refunded ==> w.offer.value.refundTx.Some?)
  {
    RunKeeps(Start(ledger), steps);
  }

  lemma {:induction false} StepKeepsRefund(w: World, step: Step)
    requires w.offer.Some? && w.offer.value.refundTx.Some?
    ensures Apply(w, step).world.offer.Some?
    ensures Apply(w, step).world.offer.value.refundTx == w.offer.value.refundTx
  {
    if step.StepConfirm? {
      ConfirmFrame(w, step.relay, step.addr, step.winner, step.dispatch);
    } else if !step.StepSettlerWrite? {
      StepFrame(w, step);
    }
  }

  /** Once written, the refund id never changes. */
  lemma {:induction false} RefundNeverChanges(w: World, steps: seq<Step>)
    requires w.offer.Some? && w.offer.value.refundTx.Some?
    ensures Run(w, steps).offer.Some?
    ensures Run(w, steps).offer.value.refundTx == w.offer.value.refundTx
    decreases |steps|
  {
    if steps != [] {
      StepKeepsRefund(w, steps[0]);
      RefundNeverChanges(Apply(w, steps[0]).world, steps[1..]);
    }
  }

  /**
   * A refund order of a run meets the script's deadline exactly when the row's end date read as a
   * date, and then its lock time is not in the future either; otherwise it carries lock time zero.
   * An order of both stakes spends the two recorded locks, and pays the script's taker unless the
   * offer was reopened.
   */
  lemma {:induction false} RefundOrdersAreTimely(ledger: seq<Payment>, steps: seq<Step>, i: nat)
    requires PossibleRun(Start(ledger), steps) && i < |Run(Start(ledger), steps).orders|
    ensures
      var w := Run(Start(ledger), steps); var r := w.orders[i]; var c := r.script;
      && SoundOrder(r, w.ledger, MatchOf(w.events).reopened)
      && (c.deadline * 1000 <= r.lockTime <==> r.endDate.Millis?)
      && (if r.endDate.Millis? then c.deadline * 1000 == r.lockTime <= r.sentAt else r.endDate.Unreadable? && r.lockTime == 0)
      && (r.branch == 1 ==>
            && |r.inputs| == 2 && Locked(w.ledger, r.inputs[0], c.makerPk, P2sh(c), c.makerStake)
            && Locked(w.ledger, r.inputs[1], c.takerPk, P2sh(c), c.takerStake)
            && (Reopened !in w.events ==> r.takerTo == Some(Wallet(c.takerPk))))
  {
    RunKeeps(Start(ledger), steps);
    MatchOfMeans(Run(Start(ledger), steps).events);
    assert SoundOrder(Run(Start(ledger), steps).orders[i], Run(Start(ledger), steps).ledger,
                      MatchOf(Run(Start(ledger), steps).events).reopened);
  }

  /** A published end date that does not read lets a refund be sent at any time, before the deadline too. */
  lemma {:induction false} UnreadableDateRefundsAtOnce(ledger: seq<Payment>, steps: seq<Step>, now: int)
    requires PossibleRun(Start(ledger), steps)
    requires
      var w := Run(Start(ledger), steps);
      && w.offer.Some? && w.offer.value.status == OpenAwaitingTakerStake && w.offer.value.refundTx.None?
      && w.offer.value.makerRelay != "" && w.offer.value.endDate.Unreadable?
    ensures
      var w := Run(Start(ledger), steps); var sent := RefundSend(w, now);
      && sent.reply == Done && |sent.world.orders| == |w.orders| + 1
      && sent.world.orders[|w.orders|].lockTime == 0
  {
    RunKeeps(Start(ledger), steps);
  }

  /** A transaction the relay may build for an order: the maker signs alone, and names the order's branch. */
  ghost predicate Realizes(r: RefundOrder, ledger: seq<Payment>, tx: Spend) {
    && r.makerTo.Wallet? && tx.signers == [r.makerTo.key] && tx.time == r.lockTime
    && (r.branch == 1 ==>
          && |r.inputs| == |tx.inputs| == 2 && r.takerTo.Some? && r.takerTo.value.Wallet?
          && (forall k :: 0 <= k < 2 ==> AmountOf(ledger, r.inputs[k]) == Some(tx.inputs[k]))
          && tx.outputs == [TxOut(r.makerTo.key, r.makerSompi), TxOut(r.takerTo.value.key, r.takerSompi)])
    && (r.branch == 2 ==>
          && |tx.inputs| == 1 && tx.inputs[0] > RELAY_REFUND_FEE
          && tx.outputs == [TxOut(r.makerTo.key, tx.inputs[0] - RELAY_REFUND_FEE)])
  }

  ghost function AmountOf(ledger: seq<Payment>, tx: Option<TxId>): Option<int> {
    if tx.Some? && tx.value < |ledger| then Some(ledger[tx.value].sompi) else None
  }

  /**
   * No refund the console sends, in any run, is accepted by its script: the branch number selects
   * an entry that wants another transaction.
   */
  lemma {:induction false} NoRefundIsEverAccepted(ledger: seq<Payment>, steps: seq<Step>, i: nat, tx: Spend)
    requires PossibleRun(Start(ledger), steps) && i < |Run(Start(ledger), steps).orders|
    requires Realizes(Run(Start(ledger), steps).orders[i], Run(Start(ledger), steps).ledger, tx)
    ensures
      var r := Run(Start(ledger), steps).orders[i];
      0 <= r.branch < |ENTRIES| && !Satisfies(r.script, ENTRIES[r.branch], tx)
  {
    RefundOrdersAreTimely(ledger, steps, i);
    var r := Run(Start(ledger), steps).orders[i];
    if r.branch == 1 {
      RefundBranchesMissTheirEntries(r.script, tx, tx.(inputs := [0]));
    } else {
      RefundBranchesMissTheirEntries(r.script, tx.(signers := [r.makerTo.key]), tx);
    }
  }

  /** The entry a branch number is meant to select. */
  function Intended(branch: int): Entry { if branch == 1 then RefundBoth else RefundMakerUnjoined }

  /**
   * Were the branch numbers corrected, a refund would be accepted exactly when the row's end date
   * reads and, of both stakes, the row still names the script's taker and the baked miner fee is
   * even and within the pot, or, of one stake, the baked fee is the relay's own.
   */
  lemma {:induction false} CorrectedRefundAcceptedIff(ledger: seq<Payment>, steps: seq<Step>, i: nat, tx: Spend)
    requires PossibleRun(Start(ledger), steps) && i < |Run(Start(ledger), steps).orders|
    requires
      var w := Run(Start(ledger), steps);
      w.orders[i].script.makerStake < Sompi.TWO_TO_52 && Realizes(w.orders[i], w.ledger, tx)
    ensures
      var r := Run(Start(ledger), steps).orders[i]; var c := r.script;
      Satisfies(c, Intended(r.branch), tx) <==>
        && r.endDate.Millis?
        && if r.branch == 1 then r.takerTo == Some(Wallet(c.takerPk)) && c.minerFee % 2 == 0 && c.minerFee / 2 <= c.makerStake
           else c.minerFee == RELAY_REFUND_FEE
  {
    RefundOrdersAreTimely(ledger, steps, i);
    var w := Run(Start(ledger), steps);
    CorrectedOrder(w.orders[i], w.ledger, tx);
  }

  lemma {:induction false} CorrectedOrder(r: RefundOrder, ledger: seq<Payment>, tx: Spend)
    requires SoundOrder(r, ledger, true) && Realizes(r, ledger, tx) && r.script.makerStake < Sompi.TWO_TO_52
    ensures
      var c := r.script;
      Satisfies(c, Intended(r.branch), tx) <==>
        && r.endDate.Millis?
        && if r.branch == 1 then r.takerTo == Some(Wallet(c.takerPk)) && c.minerFee % 2 == 0 && c.minerFee / 2 <= c.makerStake
           else c.minerFee == RELAY_REFUND_FEE
  {
    var c := r.script;
    if r.endDate.Unreadable? {
      assert tx.time < c.deadline * 1000;
    } else if r.branch == 1 {
      var taker := r.takerTo.value.key;
      RefundBothWouldBeAcceptedIff(c, taker, r.lockTime);
      assert RefundBothOutputs(c.makerPk, c.takerPk, c)[0] == RefundBothOutputs(c.makerPk, taker, c)[0];
      assert AmountOf(ledger, r.inputs[0]) == Some(tx.inputs[0]) && AmountOf(ledger, r.inputs[1]) == Some(tx.inputs[1]);
      assert tx.inputs == [c.makerStake, c.takerStake] && tx.outputs == RefundBothOutputs(c.makerPk, taker, c);
      WinnerPlaysNoPart(c, RefundBoth, tx);
    } else {
      UnjoinedWouldBeAcceptedIff(c, tx.inputs[0], r.lockTime);
      assert tx.inputs == [tx.inputs[0]];
      WinnerPlaysNoPart(c, RefundMakerUnjoined, tx);
    }
  }

  lemma {:induction false} WinnerPlaysNoPart(c: Ctor, entry: Entry, tx: Spend)
    requires entry == RefundBoth || entry == RefundMakerUnjoined
    ensures Satisfies(c, entry, tx) <==> Satisfies(c, entry, Spend(tx.signers, 0, tx.inputs, tx.outputs, tx.time))
  {
  }

  /**
   * A resumed refund that writes its id marks the offer refunded exactly when the offer has not
   * meanwhile reached a state without a refund edge; otherwise the id stands beside that state.
   */
  lemma {:induction false} RefundMarksIff(w: World, handler: nat, tx: TxId)
    requires w.offer.Some? && handler in w.waiting && w.offer.value.refundTx.None?
    ensures
      var o' := RefundResume(w, handler, Some(tx), Commits).world.offer.value;
      && o'.refundTx == Some(tx)
      && (o'.status == Refunded <==> w.offer.value.status == Refunded || Refunded in Successors(w.offer.value.status))
  {
  }

  /** For instance when the settler completes the offer during the relay call. */
  lemma {:induction false} CompletedOfferCanShowARefund(w: World, handler: nat, tx: TxId, settleTx: TxId)
    requires w.offer.Some? && w.offer.value.status == Verifying && w.offer.value.refundTx.None?
    requires handler in w.waiting
    ensures
      var collecting := Move(w, CollectingSigs, None).world;
      var completed := Move(collecting, Completed, Some(settleTx)).world;
      var o' := RefundResume(completed, handler, Some(tx), Commits).world.offer.value;
      o'.status == Completed && o'.refundTx == Some(tx) && o'.settleTx == Some(settleTx)
  {
    var collecting := Move(w, CollectingSigs, None).world;
    assert collecting.offer.value.status == CollectingSigs;
    assert Move(collecting, Completed, Some(settleTx)).world.offer.value.status == Completed;
  }

  // ---------- votes ----------

  /** The last vote recorded for a role. */
  ghost function LastVote(events: seq<Event>, role: Role): Option<int> {
    if events == [] then None
    else match events[|events| - 1]
      case Voted(r, winner) => if r == role then Some(winner) else LastVote(events[..|events| - 1], role)
      case _ => LastVote(events[..|events| - 1], role)
  }

  lemma {:induction false} LastVoteStep(events: seq<Event>, e: Event, role: Role)
    ensures LastVote(events + [e], role) == if e.Voted? && e.role == role then Some(e.winner) else LastVote(events, role)
  {
    assert (events + [e])[..|events|] == events;
  }

  /** The votes the row shows: each is recorded as it is cast, and all are overwritten by a `PutBack`. */
  ghost function RowVotes(events: seq<Event>): Votes {
    if events == [] then Votes(None, None)
    else NextVotes(RowVotes(events[..|events| - 1]), events[|events| - 1])
  }

  ghost function NextVotes(votes: Votes, e: Event): Votes {
    match e
    case Voted(role, winner) => votes.Set(role, winner)
    case PutBack(earlier) => earlier
    case _ => votes
  }

  /** The last votes put back since the role's last vote, if any were. */
  ghost function PutBackSince(events: seq<Event>, role: Role): Option<Votes> {
    if events == [] then None
    else match events[|events| - 1]
      case Voted(r, _) => if r == role then None else PutBackSince(events[..|events| - 1], role)
      case PutBack(votes) => Some(votes)
      case _ => PutBackSince(events[..|events| - 1], role)
  }

  /** Since a role's last vote the settler has put back another one. */
  ghost predicate Displaced(events: seq<Event>, role: Role) {
    PutBackSince(events, role).Some? && PutBackSince(events, role).value.Of(role) != LastVote(events, role)
  }

  lemma {:induction false} RowVotesStep(events: seq<Event>, e: Event)
    ensures RowVotes(events + [e]) == NextVotes(RowVotes(events), e)
  {
    assert (events + [e])[..|events|] == events;
  }

  /** The row shows a role's latest vote exactly when that vote was not displaced. */
  lemma {:induction false} RowShowsVoteIff(events: seq<Event>, role: Role)
    ensures RowVotes(events).Of(role)
         == match PutBackSince(events, role) case Some(votes) => votes.Of(role) case None => LastVote(events, role)
    ensures RowVotes(events).Of(role) == LastVote(events, role) <==> !Displaced(events, role)
    ensures PutBackSince(events, role).Some? ==> exists e :: e in events && e.PutBack?
  {
    if events != [] {
      var init, last := events[..|events| - 1], events[|events| - 1];
      RowShowsVoteIff(init, role);
      assert forall e :: e in init ==> e in events;
      assert last in events;
    }
  }

  /** Every dispatch so far had both votes of the row behind it. */
  ghost predicate Backed(events: seq<Event>) {
    forall i :: 0 <= i < |events| && events[i].Dispatched? ==> BackedAt(events, i)
  }

  ghost predicate BackedAt(events: seq<Event>, i: nat)
    requires i < |events| && events[i].Dispatched?
  {
    RowVotes(events[..i]) == Votes(Some(events[i].winner), Some(events[i].winner))
  }

  /** What `VoteInv` says of the events and votes alone. */
  ghost predicate VotesShown(events: seq<Event>, votes: Votes) {
    Backed(events) && votes == RowVotes(events)
  }

  ghost predicate VoteInv(w: World) {
    && (w.offer.None? ==> w.events == [])
    && (w.offer.Some? ==>
          && VotesShown(w.events, w.offer.value.meta.votes)
          && (MatchOf(w.events).taker.None? ==> w.offer.value.meta.votes == Votes(None, None)))
  }

  lemma {:induction false} BackedStep(events: seq<Event>, e: Event)
    requires Backed(events)
    requires e.Dispatched? ==> RowVotes(events) == Votes(Some(e.winner), Some(e.winner))
    ensures Backed(events + [e])
  {
    var events' := events + [e];
    forall i | 0 <= i < |events'| && events'[i].Dispatched?
      ensures BackedAt(events', i)
    {
      assert events'[..i] == events[..i];
      assert i < |events| ==> BackedAt(events, i);
      assert events[..|events|] == events;
    }
  }

  lemma {:induction false} VoteShows(events: seq<Event>, votes: Votes, role: Role, winner: int)
    requires VotesShown(events, votes)
    ensures VotesShown(events + [Voted(role, winner)], votes.Set(role, winner))
  {
    var e := Voted(role, winner);
    BackedStep(events, e);
    RowVotesStep(events, e);
  }

  lemma {:induction false} DispatchShows(events: seq<Event>, votes: Votes)
    requires VotesShown(events, votes) && votes.Agree()
    ensures VotesShown(events + [Dispatched(votes.maker.value)], votes)
  {
    var e := Dispatched(votes.maker.value);
    BackedStep(events, e);
    RowVotesStep(events, e);
  }

  lemma {:induction false} CastVoteKeepsVotes(w: World, role: Role, winner: int, d: Dispatch)
    requires VoteInv(w) && w.offer.Some? && MatchOf(w.events).taker.Some?
    ensures VoteInv(CastVote(w, role, winner, d).world)
  {
    var votes := w.offer.value.meta.votes.Set(role, winner);
    var events := w.events + [Voted(role, winner)];
    VoteShows(w.events, w.offer.value.meta.votes, role, winner);
    VotesAreNoMatch(w.events, Voted(role, winner));
    if votes.Agree() {
      DispatchShows(events, votes);
      VotesAreNoMatch(events, Dispatched(votes.maker.value));
      DispatchKeepsMeta(WithVotes(w.offer.value, votes), d);
    }
  }

  lemma {:induction false} DispatchKeepsMeta(o: Offer, d: Dispatch)
    ensures ApplyDispatch(o, d).meta == o.meta
  {
  }

  lemma {:induction false} FrameKeepsVotes(w: World, w': World)
    requires Inv(w) && VoteInv(w) && Frame(w, w')
    ensures VoteInv(w')
  {
    if w'.events != w.events {
      var e := w'.events[|w.events|];
      BackedStep(w.events, e);
      RowVotesStep(w.events, e);
      MatchStep(w.events, e);
    }
  }

  lemma {:induction false} PutBackKeepsVotes(w: World, k: nat)
    requires SeenInv(w) && VoteInv(w)
    ensures VoteInv(SettlerWrite(w, k).world)
  {
    if w.offer.Some? && k < |w.seen| {
      var e := PutBack(w.seen[k].votes);
      BackedStep(w.events, e);
      RowVotesStep(w.events, e);
      MatchStep(w.events, e);
    }
  }

  lemma {:induction false} ConfirmKeepsVotes(w: World, relay: string, addr: Option<Address>, winner: int, d: Dispatch)
    requires Inv(w) && VoteInv(w)
    ensures VoteInv(Confirm(w, relay, addr, winner, d).world)
  {
    match VoteTarget(w.offer, relay, addr, winner)
    case Err(_) =>
    case Ok(role) => CastVoteKeepsVotes(w, role, winner, d);
  }

  lemma {:induction false} StepKeepsVotes(w: World, step: Step)
    requires Inv(w) && SeenInv(w) && VoteInv(w)
    ensures VoteInv(Apply(w, step).world)
  {
    if step.StepConfirm? {
      ConfirmKeepsVotes(w, step.relay, step.addr, step.winner, step.dispatch);
    } else if step.StepSettlerWrite? {
      PutBackKeepsVotes(w, step.k);
    } else {
      StepFrame(w, step);
      FrameKeepsVotes(w, Apply(w, step).world);
    }
  }

  lemma {:induction false} RunKeepsVotes(w: World, steps: seq<Step>)
    requires Inv(w) && SeenInv(w) && VoteInv(w) && PossibleRun(w, steps)
    ensures VoteInv(Run(w, steps))
    decreases |steps|
  {
    if steps != [] {
      StepKeeps(w, steps[0]);
      StepKeepsVotes(w, steps[0]);
      RunKeepsVotes(Apply(w, steps[0]).world, steps[1..]);
    }
  }

  /** A role's latest vote is for the winner of a dispatch exactly when it was not displaced before. */
  ghost predicate LatestAt(events: seq<Event>, i: nat, role: Role)
    requires i < |events| && events[i].Dispatched?
  {
    LastVote(events[..i], role) == Some(events[i].winner) <==> !Displaced(events[..i], role)
  }

  /**
   * Over any interleaving of votes, re-votes and settler writes, an outcome is dispatched only when
   * the row shows it as the vote of both sides; that is a side's latest vote exactly when the
   * settler had not, since that vote, put back another one.  The same holds of what the row shows
   * at the end.
   */
  lemma {:induction false} DispatchesHaveBothVotes(ledger: seq<Payment>, steps: seq<Step>)
    requires PossibleRun(Start(ledger), steps)
    ensures
      var w := Run(Start(ledger), steps);
      && (forall i :: 0 <= i < |w.events| && w.events[i].Dispatched? ==>
            BackedAt(w.events, i) && LatestAt(w.events, i, Maker) && LatestAt(w.events, i, Taker))
      && (w.offer.Some? ==> forall role ::
            w.offer.value.meta.votes.Of(role) == LastVote(w.events, role) <==> !Displaced(w.events, role))
  {
    RunKeepsVotes(Start(ledger), steps);
    var w := Run(Start(ledger), steps);
    forall i | 0 <= i < |w.events| && w.events[i].Dispatched?
      ensures BackedAt(w.events, i) && LatestAt(w.events, i, Maker) && LatestAt(w.events, i, Taker)
    {
      RowShowsVoteIff(w.events[..i], Maker);
      RowShowsVoteIff(w.events[..i], Taker);
    }
    forall role ensures RowVotes(w.events).Of(role) == LastVote(w.events, role) <==> !Displaced(w.events, role) {
      RowShowsVoteIff(w.events, role);
    }
  }

  /** Without a settler write, then, every dispatch has both latest votes behind it. */
  lemma {:induction false} UndisturbedDispatches(ledger: seq<Payment>, steps: seq<Step>, i: nat)
    requires PossibleRun(Start(ledger), steps)
    requires forall e :: e in Run(Start(ledger), steps).events ==> !e.PutBack?
    requires i < |Run(Start(ledger), steps).events| && Run(Start(ledger), steps).events[i].Dispatched?
    ensures
      var events := Run(Start(ledger), steps).events; var winner := events[i].winner;
      LastVote(events[..i], Maker) == LastVote(events[..i], Taker) == Some(winner)
  {
    DispatchesHaveBothVotes(ledger, steps);
    var events := Run(Start(ledger), steps).events;
    assert LatestAt(events, i, Maker) && LatestAt(events, i, Taker);
    assert forall e :: e in events[..i] ==> e in events;
    RowShowsVoteIff(events[..i], Maker);
    RowShowsVoteIff(events[..i], Taker);
  }

  /**
   * With one it can go wrong: the maker votes 0, the settler reads, the maker votes 1, the settler
   * writes, the taker votes 0, and 0 is dispatched against the maker's latest vote.
   */
  lemma {:induction false} DisplacedVoteIsDispatched(w: World, d: Dispatch)
    requires w.offer.Some? && w.offer.value.status == Matched && w.offer.value.meta.votes == Votes(None, None)
    ensures
      var w1 := SettlerRead(CastVote(w, Maker, 0, d).world).world;
      var w2 := SettlerWrite(CastVote(w1, Maker, 1, d).world, |w.seen|).world;
      var w3 := CastVote(w2, Taker, 0, d).world;
      && w3.events == w.events + [Voted(Maker, 0), Voted(Maker, 1), PutBack(Votes(Some(0), None)), Voted(Taker, 0), Dispatched(0)]
      && LastVote(w3.events, Maker) == Some(1)
  {
    var events := w.events + [Voted(Maker, 0), Voted(Maker, 1), PutBack(Votes(Some(0), None)), Voted(Taker, 0), Dispatched(0)];
    var e1 := w.events + [Voted(Maker, 0)];
    var e2 := e1 + [Voted(Maker, 1)];
    var e3 := e2 + [PutBack(Votes(Some(0), None))];
    var e4 := e3 + [Voted(Taker, 0)];
    assert events == e4 + [Dispatched(0)];
    LastVoteStep(e1, Voted(Maker, 1), Maker);
    LastVoteStep(e2, PutBack(Votes(Some(0), None)), Maker);
    LastVoteStep(e3, Voted(Taker, 0), Maker);
    LastVoteStep(e4, Dispatched(0), Maker);
  }

  // ---------- a taker whose stake was recorded but not announced ----------

  /** A payment into `to` by `payer` at or after position `from`. */
  ghost predicate PaidSince(ledger: seq<Payment>, from: nat, payer: Key, to: Address) {
    exists j :: from <= j < |ledger| && ledger[j].payer == payer && ledger[j].to == to
  }

  /** The offer still waits for its taker, or has left that state for good without a match. */
  ghost predicate AwaitingOrGone(w: World, payer: Key, to: Address) {
    && w.offer.Some? && MatchOf(w.events).taker.None?
    && var o := w.offer.value;
    && (o.status == OpenAwaitingTakerStake ==> o.pendingPk == Some(payer) && o.escrow == Some(to))
    && (o.status == OpenAwaitingTakerStake || o.status == Expired || o.status == TimedOut || o.status == Refunded)
  }

  lemma {:induction false} StakeFromAwaiting(w: World, r: StakeRequest, tries: Tries, db: Db, payer: Key, to: Address, from: nat)
    requires AwaitingOrGone(w, payer, to) && from <= |w.ledger|
    ensures
      var w' := TakerStake(w, r, tries, db).world;
      AwaitingOrGone(w', payer, to) || PaidSince(w'.ledger, from, payer, to)
  {
    if StakeRefusal(w.offer, r).None? {
      var sent := Lock(w.ledger, payer, to, r.moved, tries);
      if sent.tx.Some? {
        var p := sent.ledger[sent.tx.value];
        assert from <= sent.tx.value && p.payer == payer && p.to == to;
      }
    }
  }

  lemma {:induction false} ResumeFromAwaiting(w: World, handler: nat, tx: Option<TxId>, db: Db, payer: Key, to: Address)
    requires AwaitingOrGone(w, payer, to)
    ensures AwaitingOrGone(RefundResume(w, handler, tx, db).world, payer, to)
  {
    if handler in w.waiting && tx.Some? && db != UpdateFails && w.offer.value.refundTx.None? {
      MatchStep(w.events, RefundWritten(tx.value));
      RefundedStaysGone(w.offer.value.(refundTx := tx));
    }
  }

  lemma {:induction false} RefundedStaysGone(o: Offer)
    requires o.status in {OpenAwaitingTakerStake, Expired, TimedOut, Refunded}
    ensures
      var o' := Transition(o, Refunded);
      && o' == o.(status := o'.status)
      && (o'.status == OpenAwaitingTakerStake ==> o.status == OpenAwaitingTakerStake)
      && o'.status in {OpenAwaitingTakerStake, Expired, TimedOut, Refunded}
  {
  }

  lemma {:induction false} MoveFromAwaiting(w: World, target: Status, settleTx: Option<TxId>, payer: Key, to: Address)
    requires AwaitingOrGone(w, payer, to)
    ensures AwaitingOrGone(Move(w, target, settleTx).world, payer, to)
  {
    if OutsideMove(target) {
      OutsideEdges(w, target, settleTx);
      assert !DirectWrite(w.offer.value.status, target);
    }
  }

  /** The other steps leave such an offer alone. */
  lemma {:induction false} IdleFromAwaiting(w: World, step: Step, payer: Key, to: Address)
    requires AwaitingOrGone(w, payer, to)
    requires !step.StepStake? && !step.StepRefundResume? && !step.StepMove? && !step.StepConfirm? && !step.StepSettlerWrite?
    ensures Apply(w, step).world.offer == w.offer && Apply(w, step).world.events == w.events
  {
  }

  lemma {:induction false} PutBackFromAwaiting(w: World, k: nat, payer: Key, to: Address)
    requires AwaitingOrGone(w, payer, to)
    ensures AwaitingOrGone(SettlerWrite(w, k).world, payer, to)
  {
    if k < |w.seen| { MatchStep(w.events, PutBack(w.seen[k].votes)); }
  }

  lemma {:induction false} StepFromAwaiting(w: World, step: Step, payer: Key, to: Address, from: nat)
    requires AwaitingOrGone(w, payer, to) && from <= |w.ledger|
    ensures
      var w' := Apply(w, step).world;
      AwaitingOrGone(w', payer, to) || PaidSince(w'.ledger, from, payer, to)
  {
    if step.StepStake? {
      StakeFromAwaiting(w, step.stake, step.tries, step.db, payer, to, from);
    } else if step.StepRefundResume? {
      ResumeFromAwaiting(w, step.handler, step.tx, step.db, payer, to);
    } else if step.StepMove? {
      MoveFromAwaiting(w, step.to, step.settleTx, payer, to);
    } else if step.StepConfirm? {
      ConfirmFrame(w, step.relay, step.addr, step.winner, step.dispatch);
    } else if step.StepSettlerWrite? {
      PutBackFromAwaiting(w, step.k, payer, to);
    } else {
      IdleFromAwaiting(w, step, payer, to);
    }
  }

  lemma {:induction false} RunFromAwaiting(w: World, steps: seq<Step>, payer: Key, to: Address, from: nat)
    requires AwaitingOrGone(w, payer, to) || PaidSince(w.ledger, from, payer, to)
    requires from <= |w.ledger|
    ensures AwaitingOrGone(Run(w, steps), payer, to) || PaidSince(Run(w, steps).ledger, from, payer, to)
    decreases |steps|
  {
    if steps != [] {
      var w' := Apply(w, steps[0]).world;
      LedgerOnlyGrows(w, steps[0]);
      if PaidSince(w.ledger, from, payer, to) {
        var j :| from <= j < |w.ledger| && w.ledger[j].payer == payer && w.ledger[j].to == to;
        assert w'.ledger[j] == w.ledger[j];
      } else {
        StepFromAwaiting(w, steps[0], payer, to, from);
      }
      RunFromAwaiting(w', steps[1..], payer, to, from);
    }
  }

  lemma {:induction false} LedgerOnlyGrows(w: World, step: Step)
    ensures w.ledger <= Apply(w, step).world.ledger
  {
    match step
    case StepConfirm(relay, addr, winner, d) => ConfirmFrame(w, relay, addr, winner, d);
    case StepSettlerWrite(k) =>
    case _ => StepFrame(w, step);
  }

  /**
   * A taker whose lock was recorded while the parameter broadcast failed cannot be matched
   * without paying again: every run that reaches `matched` from there contains a second payment
   * of the same key into the same script, and the row then names only one of the two.
   */
  lemma {:induction false} UnannouncedStakeIsPaidAgain(w: World, steps: seq<Step>)
    requires Inv(w) && PossibleRun(w, steps)
    requires w.offer.Some? && w.offer.value.status == OpenAwaitingTakerStake && w.offer.value.takerLockTx.Some?
    requires MatchOf(Run(w, steps).events).taker.Some?
    ensures
      var c := w.offer.value.meta.baked.value.script;
      && Locked(w.ledger, w.offer.value.takerLockTx, c.takerPk, P2sh(c), c.takerStake)
      && PaidSince(Run(w, steps).ledger, |w.ledger|, c.takerPk, P2sh(c))
  {
    var c := w.offer.value.meta.baked.value.script;
    RunFromAwaiting(w, steps, c.takerPk, P2sh(c), |w.ledger|);
  }

  /**
   * Meanwhile the recorded lock is not the taker's to get back: once the deadline has passed, the
   * script's one-sided refund lets the maker's signature alone claim it.
   */
  lemma {:induction false} UnannouncedLockGoesToTheMaker(w: World, time: int)
    requires Inv(w)
    requires w.offer.Some? && w.offer.value.status == OpenAwaitingTakerStake && w.offer.value.takerLockTx.Some?
    ensures
      var c := w.offer.value.meta.baked.value.script;
      && Locked(w.ledger, w.offer.value.takerLockTx, c.takerPk, P2sh(c), c.takerStake)
      && var amount := w.ledger[w.offer.value.takerLockTx.value].sompi;
      (Satisfies(c, RefundMakerUnjoined, Spend([c.makerPk], 0, [amount], [TxOut(c.makerPk, amount - c.minerFee)], time))
       <==> time >= c.deadline * 1000 && amount >= c.minerFee)
  {
    var c := w.offer.value.meta.baked.value.script;
    UnjoinedTakesAnyInputIff(c, w.ledger[w.offer.value.takerLockTx.value].sompi, time);
  }
}
