/**
 * Who and what stands behind the outcome of an offer, over whole runs: the request its script was
 * compiled from, what a settlement then pays, whose calls brought a dispatch about, and when a
 * refund is sent.
 */
module OfferParties {
  import opened Common
  import opened EscrowContract
  import opened Relay
  import opened OfferProtocol
  import opened OfferHandlers
  import opened OfferRuns
  import opened OfferTheorems

  // ---------- the request behind a script ----------

  ghost predicate RequestedIn(steps: seq<Step>, c: Ctor) {
    exists i :: 0 <= i < |steps| && steps[i].StepPublish? && Requested(c, steps[i].publish)
  }

  function BakedOf(w: World): Option<Baked> { if w.offer.Some? then w.offer.value.meta.baked else None }

  lemma {:induction false} PublishBakes(w: World, r: PublishRequest, now: int, tries: Tries, db: Db)
    ensures
      var baked := BakedOf(PublishV2(w, r, now, tries, db).world);
      baked == BakedOf(w) || (baked.Some? && Requested(baked.value.script, r))
  {
    match PublishTarget(w.offer, r, now)
    case Err(_) =>
    case Ok(c) =>
      TargetIff(w.offer, r, now, c);
      PublishIff(w, r, now, tries, db, c);
  }

  lemma {:induction false} StakeKeepsBaked(w: World, r: StakeRequest, tries: Tries, db: Db)
    ensures BakedOf(TakerStake(w, r, tries, db).world) == BakedOf(w)
  {
    if Stakeable(w.offer, r) { StakeIff(w, r, tries, db); } else { UnstakeableIsRefused(w, r, tries, db); }
  }

  lemma {:induction false} HandshakeKeepsBaked(w: World, addr: Option<Address>, now: int, db: Db)
    ensures BakedOf(TakerHandshake(w, addr, now, db).world) == BakedOf(w)
  {
    HandshakeIff(w, addr, now, db);
  }

  lemma {:induction false} ResumeKeepsBaked(w: World, handler: nat, tx: Option<TxId>, db: Db)
    ensures BakedOf(RefundResume(w, handler, tx, db).world) == BakedOf(w)
  {
  }

  lemma {:induction false} MoveKeepsBaked(w: World, to: Status, settleTx: Option<TxId>)
    ensures BakedOf(Move(w, to, settleTx).world) == BakedOf(w)
  {
    if w.offer.Some? { MoveIff(w, to, settleTx); }
  }

  lemma {:induction false} ConfirmKeepsBaked(w: World, relay: string, addr: Option<Address>, winner: int, d: Dispatch)
    ensures BakedOf(Confirm(w, relay, addr, winner, d).world) == BakedOf(w)
  {
    ConfirmFrame(w, relay, addr, winner, d);
  }

  lemma {:induction false} StepBakes(w: World, step: Step)
    requires SeenInv(w)
    ensures
      var baked := BakedOf(Apply(w, step).world);
      baked == BakedOf(w) || (step.StepPublish? && baked.Some? && Requested(baked.value.script, step.publish))
  {
    match step
    case StepHandshake(addr, now, db) => HandshakeKeepsBaked(w, addr, now, db);
    case StepPublish(r, now, tries, db) => PublishBakes(w, r, now, tries, db);
    case StepStake(r, tries, db) => StakeKeepsBaked(w, r, tries, db);
    case StepConfirm(relay, addr, winner, d) => ConfirmKeepsBaked(w, relay, addr, winner, d);
    case StepRefundResume(handler, tx, db) => ResumeKeepsBaked(w, handler, tx, db);
    case StepMove(to, settleTx) => MoveKeepsBaked(w, to, settleTx);
    case _ =>
  }

  lemma {:induction false} RunBakes(w: World, steps: seq<Step>)
    requires Inv(w) && SeenInv(w) && PossibleRun(w, steps)
    ensures
      var baked := BakedOf(Run(w, steps));
      baked == BakedOf(w) || (baked.Some? && RequestedIn(steps, baked.value.script))
    decreases |steps|
  {
    if steps != [] {
      StepKeeps(w, steps[0]);
      StepBakes(w, steps[0]);
      RunBakes(Apply(w, steps[0]).world, steps[1..]);
      assert forall i :: 0 <= i < |steps| - 1 ==> steps[1..][i] == steps[i + 1];
    }
  }

  /** In every run, the script an offer is locked in was compiled from the arguments of one request. */
  lemma {:induction false} ScriptsAreRequested(ledger: seq<Payment>, steps: seq<Step>)
    requires PossibleRun(Start(ledger), steps)
    ensures
      var w := Run(Start(ledger), steps);
      && (BakedOf(w).Some? ==> RequestedIn(steps, BakedOf(w).value.script))
      && (w.offer.Some? && w.offer.value.escrow.Some? ==>
            BakedOf(w).Some? && w.offer.value.escrow == Some(P2sh(BakedOf(w).value.script)))
  {
    RunKeeps(Start(ledger), steps);
    RunBakes(Start(ledger), steps);
  }

  // ---------- what a settlement pays ----------

  /** `v` is the share of `rate` ten-thousandths of the pot, one `parts`-th of it, rounded down. */
  predicate IsShare(v: int, pot: int, rate: int, parts: int) {
    v * (10000 * parts) <= pot * rate < (v + 1) * (10000 * parts)
  }

  predicate WinnerPaid(r: PublishRequest, takerPk: Key, tx: Spend)
    requires |tx.outputs| > 0
  {
    if tx.winner == 0 then r.makerAddr == Some(Wallet(tx.outputs[0].to)) else tx.outputs[0].to == takerPk
  }

  /** A consensual settlement: the broker gets the requested rate of the pot, the winner all the rest. */
  predicate PaysConsensually(r: PublishRequest, takerPk: Key, tx: Spend) {
    && |tx.inputs| == 2 && |tx.outputs| == 2 && WinnerPaid(r, takerPk, tx)
    && r.brokerAddr == Some(Wallet(tx.outputs[1].to)) && r.brokerFeePct.Some?
    && var pot := tx.inputs[0] + tx.inputs[1] - (if r.minerFee == 0 then 1_000_000 else r.minerFee);
    && IsShare(tx.outputs[1].value, pot, r.brokerFeePct.value, 1)
    && tx.outputs[0].value + tx.outputs[1].value == pot
  }

  /** A dispute settlement: besides, each of the five oracles gets a fifth of the requested oracle rate. */
  predicate PaysDisputed(r: PublishRequest, takerPk: Key, tx: Spend) {
    && |tx.inputs| == 2 && |tx.outputs| == 7 && WinnerPaid(r, takerPk, tx)
    && r.brokerAddr == Some(Wallet(tx.outputs[1].to)) && r.brokerFeePct.Some?
    && r.oracleKeys.Some? && |r.oracleKeys.value| == 5 && r.oracleFeePct.Some?
    && var pot := tx.inputs[0] + tx.inputs[1] - (if r.minerFee == 0 then 1_000_000 else r.minerFee);
    && IsShare(tx.outputs[1].value, pot, r.brokerFeePct.value, 1)
    && (forall i :: 0 <= i < 5 ==>
          && tx.outputs[2 + i].to == r.oracleKeys.value[i]
          && IsShare(tx.outputs[2 + i].value, pot, r.oracleFeePct.value, 5))
    && 0 <= pot - tx.outputs[0].value - tx.outputs[1].value - 5 * tx.outputs[2].value < 5
  }

  lemma {:induction false} ShareOf(pot: int, rate: int)
    requires pot >= 0 && rate >= 0
    ensures
      var q := Quot(pot * rate, 10000);
      && q >= 0 && IsShare(q, pot, rate, 1) && Quot(q, 5) >= 0 && IsShare(Quot(q, 5), pot, rate, 5)
      && 0 <= q - 5 * Quot(q, 5) < 5
  {
    assert pot * rate >= 0;
  }

  lemma {:induction false} ConsensualPays(c: Ctor, r: PublishRequest, tx: Spend)
    requires Requested(c, r) && ValidCtor(c) && Satisfies(c, SettleConsensual, tx)
    ensures PaysConsensually(r, c.takerPk, tx)
  {
    var pot := tx.inputs[0] + tx.inputs[1] - c.minerFee;
    assert tx.outputs[0].value + tx.outputs[1].value == pot;
    ShareOf(pot, c.brokerFeePct);
  }

  lemma {:induction false} DisputePays(c: Ctor, r: PublishRequest, tx: Spend)
    requires Requested(c, r) && ValidCtor(c) && Satisfies(c, SettleDispute, tx)
    ensures PaysDisputed(r, c.takerPk, tx)
  {
    var pot := tx.inputs[0] + tx.inputs[1] - c.minerFee;
    var broker, oracles := Quot(pot * c.brokerFeePct, 10000), Quot(pot * c.oracleFeePct, 10000);
    PotIsThere(pot, c.oracleFeePct);
    ShareOf(pot, c.brokerFeePct);
    ShareOf(pot, c.oracleFeePct);
    DisputeSplit(c, tx, pot, broker, oracles);
  }

  lemma {:induction false} DisputeSplit(c: Ctor, tx: Spend, pot: int, broker: int, oracles: int)
    requires SatisfiesDispute(c, tx) && pot == tx.inputs[0] + tx.inputs[1] - c.minerFee
    requires broker == Quot(pot * c.brokerFeePct, 10000) && oracles == Quot(pot * c.oracleFeePct, 10000)
    ensures tx.outputs[0].value == pot - broker - oracles && tx.outputs[1].value == broker
    ensures forall i :: 0 <= i < 5 ==> tx.outputs[2 + i] == TxOut(c.oraclePks[i], Quot(oracles, 5))
    ensures tx.outputs[2].value == Quot(oracles, 5)
  {
    assert tx.outputs[2 + 0] == TxOut(c.oraclePks[0], Quot(oracles, 5));
  }

  lemma {:induction false} PotIsThere(pot: int, rate: int)
    requires 0 <= rate && pot * rate >= ORACLE_FLOOR
    ensures pot >= 0
  {
    assert pot < 0 ==> pot * rate <= 0;
  }

  ghost predicate SettledAsRequested(steps: seq<Step>, entry: Entry, takerPk: Key, tx: Spend) {
    exists i :: 0 <= i < |steps| && steps[i].StepPublish? &&
      if entry == SettleConsensual then PaysConsensually(steps[i].publish, takerPk, tx)
      else PaysDisputed(steps[i].publish, takerPk, tx)
  }

  /**
   * Whatever settlement the script of an offer accepts pays the shares that were requested when
   * it was published: the broker's rate of the pot, the oracles' rate in fifths, to the requested
   * addresses, and the rest to the winner.
   */
  lemma {:induction false} SettlementsPayAsRequested(ledger: seq<Payment>, steps: seq<Step>, entry: Entry, tx: Spend)
    requires PossibleRun(Start(ledger), steps)
    requires
      var w := Run(Start(ledger), steps);
      && BakedOf(w).Some? && (entry == SettleConsensual || entry == SettleDispute)
      && Satisfies(BakedOf(w).value.script, entry, tx)
    ensures SettledAsRequested(steps, entry, BakedOf(Run(Start(ledger), steps)).value.script.takerPk, tx)
  {
    var c := BakedOf(Run(Start(ledger), steps)).value.script;
    ScriptsAreRequested(ledger, steps);
    PublishedScriptsAreValid(Start(ledger), steps);
    var i :| 0 <= i < |steps| && steps[i].StepPublish? && Requested(c, steps[i].publish);
    if entry == SettleConsensual {
      ConsensualPays(c, steps[i].publish, tx);
    } else {
      DisputePays(c, steps[i].publish, tx);
    }
  }

  // ---------- the calls behind a dispatch ----------

  /** The caller is a party of the offer: its maker's relay, or somebody it was matched with. */
  ghost predicate IsParty(w: World, relay: string, addr: Option<Address>, role: Role) {
    && w.offer.Some?
    && match role
       case Maker => relay == w.offer.value.makerRelay
       case Taker =>
         && relay != w.offer.value.makerRelay && addr.Some? && BecameMatched(addr) in w.events
         && (Reopened !in w.events ==> addr == w.offer.value.taker)
  }

  ghost predicate CalledBy(w: World, past: seq<Step>, role: Role, x: int) {
    exists i :: 0 <= i < |past| && past[i].StepConfirm? && past[i].winner == x
      && IsParty(w, past[i].relay, past[i].addr, role)
  }

  ghost predicate VotersInv(w: World, past: seq<Step>) {
    forall role, x :: Voted(role, x) in w.events ==> MatchOf(w.events).taker.Some? && CalledBy(w, past, role, x)
  }

  /** Parties stay parties once an offer was matched. */
  ghost predicate PartiesStay(w: World, w': World) {
    && w.events <= w'.events
    && (MatchOf(w.events).taker.Some? && w.offer.Some? ==>
          && MatchOf(w'.events).taker.Some? && w'.offer.Some?
          && w'.offer.value.makerRelay == w.offer.value.makerRelay
          && (w'.offer.value.taker == w.offer.value.taker || Reopened in w'.events))
  }

  lemma {:induction false} CallersStay(w: World, w': World, past: seq<Step>, step: Step, role: Role, x: int)
    requires PartiesStay(w, w') && MatchOf(w.events).taker.Some? && CalledBy(w, past, role, x)
    ensures CalledBy(w', past + [step], role, x)
  {
    var i :| 0 <= i < |past| && past[i].StepConfirm? && past[i].winner == x && IsParty(w, past[i].relay, past[i].addr, role);
    assert forall e :: e in w.events ==> e in w'.events;
    assert (past + [step])[i] == past[i];
    assert IsParty(w', past[i].relay, past[i].addr, role);
  }

  /** A step that is no vote. */
  lemma {:induction false} MatchKept(w: World, step: Step)
    requires Inv(w) && !step.StepConfirm?
    ensures w.events <= Apply(w, step).world.events
    ensures MatchOf(w.events).taker.Some? ==> MatchOf(Apply(w, step).world.events).taker.Some?
    ensures w.offer.Some? ==> Apply(w, step).world.offer.Some?
  {
    if step.StepSettlerWrite? {
      if w.offer.Some? && step.k < |w.seen| { MatchStep(w.events, PutBack(w.seen[step.k].votes)); }
    } else {
      StepFrame(w, step);
      if MatchOf(w.events).taker.Some? { FrameKeepsMatch(w, Apply(w, step).world); }
    }
  }

  /** Once matched, an offer is no draft any more, and open only after a reopening. */
  lemma {:induction false} MatchedStatus(w: World)
    requires Inv(w) && w.offer.Some? && MatchOf(w.events).taker.Some?
    ensures
      var s := w.offer.value.status;
      && s != PendingTaker && s != HandshakeDone && s != OpenAwaitingTakerStake && (s == Open ==> Reopened in w.events)
  {
    MatchOfMeans(w.events);
  }

  predicate SameParties(o: Offer, o': Offer) { o'.makerRelay == o.makerRelay && o'.taker == o.taker }

  lemma {:induction false} UnmatchableSteps(w: World, step: Step)
    requires w.offer.Some? && w.offer.value.status != PendingTaker && w.offer.value.status != HandshakeDone
    requires w.offer.value.status != OpenAwaitingTakerStake
    requires step.StepHandshake? || step.StepPublish? || step.StepStake?
    ensures Apply(w, step).world == w
  {
    match step
    case StepHandshake(addr, now, db) => HandshakeIff(w, addr, now, db);
    case StepPublish(r, now, tries, db) => UnpublishableIsRefused(w, r, now, tries, db);
    case StepStake(r, tries, db) => UnstakeableIsRefused(w, r, tries, db);
  }

  lemma {:induction false} RematchSteps(w: World, step: Step)
    requires w.offer.Some? && (w.offer.value.status == Open ==> Reopened in w.events)
    requires step.StepAccept? || step.StepRemoteAccept? || step.StepReopen?
    ensures
      var w' := Apply(w, step).world;
      w'.offer.Some? && (SameParties(w.offer.value, w'.offer.value)
                         || (w'.offer.value.makerRelay == w.offer.value.makerRelay && Reopened in w'.events))
  {
    match step
    case StepAccept(taker, verified, autoFire, ack, db) => AcceptIff(w, taker, verified, autoFire, ack, db);
    case StepRemoteAccept(taker, passes) => RemoteAcceptIff(w, taker, passes);
    case StepReopen => ReopenIff(w);
  }

  lemma {:induction false} OtherSteps(w: World, step: Step)
    requires w.offer.Some? && !step.StepConfirm?
    requires !step.StepHandshake? && !step.StepPublish? && !step.StepStake?
    requires !step.StepAccept? && !step.StepRemoteAccept? && !step.StepReopen?
    ensures Apply(w, step).world.offer.Some? && SameParties(w.offer.value, Apply(w, step).world.offer.value)
  {
    match step
    case StepMove(to, settleTx) => MoveIff(w, to, settleTx);
    case StepRefundResume(handler, tx, db) => if handler in w.waiting { ResumeIff(w, handler, tx, db); }
    case _ =>
  }

  lemma {:induction false} StepKeepsParties(w: World, step: Step)
    requires Inv(w) && !step.StepConfirm?
    ensures PartiesStay(w, Apply(w, step).world)
  {
    MatchKept(w, step);
    if MatchOf(w.events).taker.Some? && w.offer.Some? {
      MatchedStatus(w);
      if step.StepHandshake? || step.StepPublish? || step.StepStake? {
        UnmatchableSteps(w, step);
      } else if step.StepAccept? || step.StepRemoteAccept? || step.StepReopen? {
        RematchSteps(w, step);
      } else {
        OtherSteps(w, step);
      }
    }
  }

  lemma {:induction false} VoteKeepsMatch(w: World, relay: string, addr: Option<Address>, winner: int, d: Dispatch, role: Role)
    requires VoteTarget(w.offer, relay, addr, winner) == Ok(role)
    ensures MatchOf(Confirm(w, relay, addr, winner, d).world.events) == MatchOf(w.events)
  {
    CastVoteKeepsMatch(w, role, winner, d);
  }

  /** A vote changes no party, and its caller is one. */
  lemma {:induction false} VoteKeepsParties(w: World, relay: string, addr: Option<Address>, winner: int, d: Dispatch)
    requires Inv(w)
    ensures
      var w' := Confirm(w, relay, addr, winner, d).world;
      && PartiesStay(w, w')
      && (forall role, x :: Voted(role, x) in w'.events ==>
            Voted(role, x) in w.events || (x == winner && IsParty(w', relay, addr, role)))
      && (w' != w ==> MatchOf(w'.events).taker.Some?)
  {
    VoteIff(w, relay, addr, winner, d);
    if Confirm(w, relay, addr, winner, d).world != w {
      var o := w.offer.value;
      var role := if relay == o.makerRelay then Maker else Taker;
      VoteEffect(w, relay, addr, role, winner, d);
      VoteKeepsMatch(w, relay, addr, winner, d, role);
      TakerIsMatched(w);
    }
  }

  /** The taker column of an offer that takes votes is that of a match. */
  lemma {:induction false} TakerIsMatched(w: World)
    requires Inv(w) && w.offer.Some? && (w.offer.value.status == Matched || w.offer.value.status == Verifying)
    ensures MatchOf(w.events).taker.Some? && (w.offer.value.taker.Some? ==> BecameMatched(w.offer.value.taker) in w.events)
  {
    LastMatchIsRecorded(w.events);
  }

  lemma {:induction false} LastMatchIsRecorded(events: seq<Event>)
    ensures
      var t := MatchOf(events).taker;
      t.Some? && t.value.Some? ==> BecameMatched(t.value) in events
  {
    if events != [] {
      LastMatchIsRecorded(events[..|events| - 1]);
      assert forall e :: e in events[..|events| - 1] ==> e in events;
    }
  }

  lemma {:induction false} PlainStepRecordsNoVote(w: World, step: Step)
    requires !step.StepConfirm?
    ensures forall role, x :: Voted(role, x) in Apply(w, step).world.events ==> Voted(role, x) in w.events
  {
    if !step.StepSettlerWrite? { StepFrame(w, step); }
  }

  lemma {:induction false} StepKeepsVoters(w: World, past: seq<Step>, step: Step)
    requires Inv(w) && VotersInv(w, past)
    ensures VotersInv(Apply(w, step).world, past + [step])
  {
    var w' := Apply(w, step).world;
    if step.StepConfirm? {
      VoteKeepsParties(w, step.relay, step.addr, step.winner, step.dispatch);
    } else {
      StepKeepsParties(w, step);
      PlainStepRecordsNoVote(w, step);
    }
    forall role, x | Voted(role, x) in w'.events
      ensures MatchOf(w'.events).taker.Some? && CalledBy(w', past + [step], role, x)
    {
      if Voted(role, x) in w.events {
        CallersStay(w, w', past, step, role, x);
      } else {
        assert (past + [step])[|past|] == step;
      }
    }
  }

  /** What holds after the steps of `past`. */
  ghost predicate Good(w: World, past: seq<Step>) { Inv(w) && SeenInv(w) && VotersInv(w, past) }

  lemma {:induction false} StepStaysGood(w: World, past: seq<Step>, step: Step)
    requires Good(w, past) && Possible(w, step)
    ensures Good(Apply(w, step).world, past + [step])
  {
    StepKeeps(w, step);
    StepKeepsVoters(w, past, step);
  }

  lemma {:induction false} PastGrows(past: seq<Step>, steps: seq<Step>)
    requires steps != []
    ensures past + [steps[0]] + steps[1..] == past + steps
  {
  }

  lemma {:induction false} RunStaysGood(w: World, past: seq<Step>, steps: seq<Step>)
    requires PossibleRun(w, steps) && Good(w, past)
    ensures Good(Run(w, steps), past + steps)
    decreases |steps|
  {
    if steps == [] {
      assert past + steps == past;
    } else {
      StepStaysGood(w, past, steps[0]);
      RunStaysGood(Apply(w, steps[0]).world, past + [steps[0]], steps[1..]);
      PastGrows(past, steps);
    }
  }

  /** Every vote that is shown, was ever seen by the settler, or led to a dispatch, was cast. */
  ghost predicate VotesCast(w: World) {
    && (w.offer.Some? ==> Cast(w.events, w.offer.value.meta.votes))
    && (forall k :: 0 <= k < |w.seen| ==> Cast(w.events, w.seen[k].votes))
    && forall x :: Dispatched(x) in w.events ==> Voted(Maker, x) in w.events && Voted(Taker, x) in w.events
  }

  ghost predicate Cast(events: seq<Event>, votes: Votes) {
    && (votes.maker.Some? ==> Voted(Maker, votes.maker.value) in events)
    && (votes.taker.Some? ==> Voted(Taker, votes.taker.value) in events)
  }

  lemma {:induction false} FrameKeepsCast(w: World, w': World)
    requires VotesCast(w) && Frame(w, w')
    ensures VotesCast(w')
  {
    assert forall e :: e in w.events ==> e in w'.events;
  }

  lemma {:induction false} VoteKeepsCast(w: World, relay: string, addr: Option<Address>, winner: int, d: Dispatch)
    requires VotesCast(w)
    ensures VotesCast(Confirm(w, relay, addr, winner, d).world)
  {
    var w' := Confirm(w, relay, addr, winner, d).world;
    VoteIff(w, relay, addr, winner, d);
    if w' != w {
      VoteEffect(w, relay, addr, if relay == w.offer.value.makerRelay then Maker else Taker, winner, d);
      assert forall e :: e in w.events ==> e in w'.events;
    }
  }

  lemma {:induction false} RunKeepsCast(w: World, steps: seq<Step>)
    requires VotesCast(w)
    ensures VotesCast(Run(w, steps))
    decreases |steps|
  {
    if steps != [] {
      StepKeepsCast(w, steps[0]);
      RunKeepsCast(Apply(w, steps[0]).world, steps[1..]);
    }
  }

  lemma {:induction false} StepKeepsCast(w: World, step: Step)
    requires VotesCast(w)
    ensures VotesCast(Apply(w, step).world)
  {
    if step.StepConfirm? {
      VoteKeepsCast(w, step.relay, step.addr, step.winner, step.dispatch);
    } else if !step.StepSettlerWrite? {
      StepFrame(w, step);
      FrameKeepsCast(w, Apply(w, step).world);
    }
  }

  /**
   * Nothing is dispatched without both parties: for a dispatched outcome there was a call naming
   * it from the maker's relay, and one from another relay with the address of a matched taker.
   * In a run without a reopening that is the taker of the script.
   */
  lemma {:induction false} DispatchNeedsBothParties(ledger: seq<Payment>, steps: seq<Step>, x: int)
    requires PossibleRun(Start(ledger), steps) && Dispatched(x) in Run(Start(ledger), steps).events
    ensures
      var w := Run(Start(ledger), steps);
      && CalledBy(w, steps, Maker, x) && CalledBy(w, steps, Taker, x)
      && (w.offer.value.escrow.Some? && Reopened !in w.events ==>
            BakedOf(w).Some? && w.offer.value.taker == Some(Wallet(BakedOf(w).value.script.takerPk)))
  {
    RunStaysGood(Start(ledger), [], steps);
    RunKeepsCast(Start(ledger), steps);
    TakerColumnIff(ledger, steps);
    assert [] + steps == steps;
  }

  // ---------- when a refund is sent ----------

  /**
   * In every run, for an escrowed offer that was not refunded and whose end date reads as a date,
   * while it waits for its taker's stake or, matched or in verification, its last match named a
   * taker: a refund is sent exactly from the end date on, and refused as too early exactly before.
   */
  lemma {:induction false} RefundIsSentFromTheDeadline(ledger: seq<Payment>, steps: seq<Step>, now: int, ms: int)
    requires PossibleRun(Start(ledger), steps)
    requires
      var w := Run(Start(ledger), steps);
      && w.offer.Some? && var o := w.offer.value;
      && o.makerRelay != "" && o.refundTx == None && o.endDate == Millis(ms)
      && (o.status == OpenAwaitingTakerStake
          || ((o.status == Matched || o.status == Verifying) && o.escrow.Some? && MatchOf(w.events).taker != Some(None)))
    ensures
      var w := Run(Start(ledger), steps);
      && (RefundSend(w, now).reply == Done <==> ms <= now)
      && (RefundSend(w, now).reply == Refused(403, BeforeDeadline) <==> now < ms)
  {
    RunKeeps(Start(ledger), steps);
    RefundIff(Run(Start(ledger), steps), now);
  }

  // ---------- runs ----------

  /** A run takes one step after the other, each the handler's or service's own. */
  lemma {:induction false} RunStep(w: World, steps: seq<Step>, step: Step)
    ensures Run(w, steps + [step]) == Apply(Run(w, steps), step).world
  {
    RunAppends(w, steps, [step]);
    OneStep(Run(w, steps), step);
  }

  lemma {:induction false} ApplyMeans(w: World, step: Step)
    ensures
      var out := Apply(w, step);
      match step
      case StepPending(makerRelay, minutes, now, inserted) => out == PendingOffer(w, makerRelay, minutes, now, inserted)
      case StepLegacy(makerRelay, addr, endDateMs, broadcast) => out == LegacyOffer(w, makerRelay, addr, endDateMs, broadcast)
      case StepHandshake(addr, now, db) => out == TakerHandshake(w, addr, now, db)
      case StepPublish(r, now, tries, db) => out == PublishV2(w, r, now, tries, db)
      case StepStake(r, tries, db) => out == TakerStake(w, r, tries, db)
      case StepConfirm(relay, addr, winner, d) => out == Confirm(w, relay, addr, winner, d)
      case StepRefundSend(now) => out == RefundSend(w, now)
      case StepRefundResume(handler, tx, db) => out == RefundResume(w, handler, tx, db)
      case StepAccept(taker, verified, autoFire, ack, db) => out == Accept(w, taker, verified, autoFire, ack, db)
      case StepReopen => out == Reopen(w)
      case StepRemoteAccept(taker, passes) => out == RemoteAccept(w, taker, passes)
      case StepMove(to, settleTx) => out == Move(w, to, settleTx)
      case StepSettlerRead =>
        out.world == if w.offer.Some? && (w.offer.value.status == Matched || w.offer.value.status == Verifying
                                          || w.offer.value.status == CollectingSigs)
                     then w.(seen := w.seen + [w.offer.value.meta]) else w
      case StepSettlerWrite(k) =>
        out.world == if w.offer.Some? && k < |w.seen|
                     then w.(offer := Some(w.offer.value.(meta := w.seen[k])), events := w.events + [PutBack(w.seen[k].votes)])
                     else w
      case StepForeign(payments) => out.world == w.(ledger := w.ledger + payments)
  {
  }

  /** Below 2^52 sompi, what a relay may move for a publish is exactly the stake; no run is ruled out otherwise. */
  lemma {:induction false} PossibleIff(w: World, r: PublishRequest, now: int, tries: Tries, db: Db)
    requires 1 <= BakedSompi(r) < Sompi.TWO_TO_52
    ensures Possible(w, StepPublish(r, now, tries, db)) <==> r.moved == Some(BakedSompi(r))
  {
    Sompi.MovesIff(BakedSompi(r), r.moved);
  }

  lemma {:induction false} PossibleStakeIff(w: World, s: StakeRequest, tries: Tries, db: Db)
    requires BakedOf(w).Some? && 1 <= BakedOf(w).value.takerSompi < Sompi.TWO_TO_52
    ensures Possible(w, StepStake(s, tries, db)) <==> s.moved == Some(BakedOf(w).value.takerSompi)
  {
    Sompi.MovesIff(BakedOf(w).value.takerSompi, s.moved);
  }

  /** Every other step is possible in any world. */
  lemma {:induction false} OthersArePossible(w: World, step: Step)
    requires !step.StepPublish? && !step.StepStake?
    ensures Possible(w, step)
  {
  }

  lemma {:induction false} RunAppends(w: World, first: seq<Step>, second: seq<Step>)
    ensures Run(w, first + second) == Run(Run(w, first), second)
    ensures PossibleRun(w, first + second) <==> PossibleRun(w, first) && PossibleRun(Run(w, first), second)
    decreases |first|
  {
    if first == [] {
      assert first + second == second;
    } else {
      assert (first + second)[1..] == first[1..] + second;
      RunAppends(Apply(w, first[0]).world, first[1..], second);
    }
  }

  lemma {:induction false} OneStep(w: World, step: Step)
    ensures Run(w, [step]) == Apply(w, step).world && (PossibleRun(w, [step]) <==> Possible(w, step))
  {
    assert [step][1..] == [];
  }

  /** Draft, handshake and publish. */
  function Opening(makerRelay: string, key: Key, r: PublishRequest, now: int, mt: Tries): seq<Step> {
    [StepPending(makerRelay, 30, now, true), StepHandshake(Some(Wallet(key)), now, Commits), StepPublish(r, now, mt, Commits)]
  }

  /** The taker's stake, and two agreeing votes. */
  function Closing(r: PublishRequest, s: StakeRequest, tt: Tries, makerAddr: Address, x: int, tx: TxId): seq<Step> {
    [StepStake(s, tt, Commits), StepConfirm(r.makerRelay, Some(makerAddr), x, Collecting),
     StepConfirm(s.takerRelay, s.takerAddr, x, Settled(tx))]
  }

  lemma {:induction false} ThreeSteps(w: World, a: Step, b: Step, c: Step)
    ensures
      var w1 := Apply(w, a).world; var w2 := Apply(w1, b).world;
      && Run(w, [a, b, c]) == Apply(w2, c).world
      && (PossibleRun(w, [a, b, c]) <==> Possible(w, a) && Possible(w1, b) && Possible(w2, c))
  {
    assert [a, b, c] == [a] + [b] + [c];
    RunAppends(w, [a] + [b], [c]);
    RunAppends(w, [a], [b]);
    OneStep(w, a);
    OneStep(Apply(w, a).world, b);
    OneStep(Apply(Apply(w, a).world, b).world, c);
  }

  lemma {:induction false} StakedWorld(ledger: seq<Payment>, makerRelay: string, key: Key, r: PublishRequest, s: StakeRequest,
                                       now: int, mt: Tries, tt: Tries)
    requires AllGoesWell(makerRelay, key, r, s, now, mt, tt)
    ensures
      var before := AfterPublish(ledger, makerRelay, key, r, now, mt);
      var w := TakerStake(before, s, tt, Commits).world;
      && BakedOf(before).Some? && BakedOf(before).value.takerSompi == BakedSompi(r)
      && w.offer.Some? && w.offer.value.status == Matched && w.offer.value.makerRelay == r.makerRelay
      && w.offer.value.taker == Some(Wallet(key)) && w.offer.value.meta.votes == Votes(None, None)
      && w.events == [BecameMatched(Some(Wallet(key)))]
  {
    HandshakePassesChecks(ledger, makerRelay, key, r, s, now, mt, tt);
    PublishReachesTaker(ledger, makerRelay, key, r, s, now, mt, tt);
  }

  lemma {:induction false} TwoVotesSettle(w: World, makerRelay: string, makerAddr: Address, takerRelay: string, taker: Address,
                                          x: int, tx: TxId)
    requires w.offer.Some? && w.offer.value.status == Matched && w.offer.value.meta.votes == Votes(None, None)
    requires makerRelay != "" && takerRelay != "" && makerRelay != takerRelay && (x == 0 || x == 1)
    requires w.offer.value.makerRelay == makerRelay && w.offer.value.taker == Some(taker)
    ensures
      var one := Confirm(w, makerRelay, Some(makerAddr), x, Collecting).world;
      var two := Confirm(one, takerRelay, Some(taker), x, Settled(tx)).world;
      && two.offer.Some? && two.offer.value.status == Completed && two.offer.value.settleTx == Some(tx)
      && two.events == w.events + [Voted(Maker, x), Voted(Taker, x), Dispatched(x)]
  {
    VoteEffect(w, makerRelay, Some(makerAddr), Maker, x, Collecting);
    var one := Confirm(w, makerRelay, Some(makerAddr), x, Collecting).world;
    VoteEffect(one, takerRelay, Some(taker), Taker, x, Settled(tx));
  }

  lemma {:induction false} OpeningRuns(ledger: seq<Payment>, makerRelay: string, key: Key, r: PublishRequest, now: int,
                                       mt: Tries)
    requires 1 <= BakedSompi(r) < Sompi.TWO_TO_52 && r.moved == Some(BakedSompi(r))
    ensures
      var steps := Opening(makerRelay, key, r, now, mt);
      Run(Start(ledger), steps) == AfterPublish(ledger, makerRelay, key, r, now, mt) && PossibleRun(Start(ledger), steps)
  {
    var w0 := Start(ledger);
    var a, b := StepPending(makerRelay, 30, now, true), StepHandshake(Some(Wallet(key)), now, Commits);
    var c := StepPublish(r, now, mt, Commits);
    ThreeSteps(w0, a, b, c);
    PossibleIff(Apply(Apply(w0, a).world, b).world, r, now, mt, Commits);
  }

  lemma {:induction false} ClosingRuns(w: World, r: PublishRequest, s: StakeRequest, tt: Tries, makerAddr: Address, key: Key,
                                       x: int, tx: TxId)
    requires s.takerAddr == Some(Wallet(key)) && r.makerRelay != "" && s.takerRelay != "" && s.takerRelay != r.makerRelay
    requires BakedOf(w).Some? && 1 <= BakedOf(w).value.takerSompi < Sompi.TWO_TO_52
    requires s.moved == Some(BakedOf(w).value.takerSompi)
    requires x == 0 || x == 1
    requires
      var staked := TakerStake(w, s, tt, Commits).world;
      && staked.offer.Some? && staked.offer.value.status == Matched && staked.offer.value.makerRelay == r.makerRelay
      && staked.offer.value.taker == Some(Wallet(key)) && staked.offer.value.meta.votes == Votes(None, None)
    ensures
      var steps := Closing(r, s, tt, makerAddr, x, tx); var end := Run(w, steps);
      && PossibleRun(w, steps)
      && end.offer.Some? && end.offer.value.status == Completed && end.offer.value.settleTx == Some(tx)
      && end.events == TakerStake(w, s, tt, Commits).world.events + [Voted(Maker, x), Voted(Taker, x), Dispatched(x)]
  {
    ThreeSteps(w, StepStake(s, tt, Commits), StepConfirm(r.makerRelay, Some(makerAddr), x, Collecting),
               StepConfirm(s.takerRelay, s.takerAddr, x, Settled(tx)));
    PossibleStakeIff(w, s, tt, Commits);
    TwoVotesSettle(TakerStake(w, s, tt, Commits).world, r.makerRelay, makerAddr, s.takerRelay, Wallet(key), x, tx);
  }

  /** An offer that waits for the stake of `s` alone. */
  ghost predicate ReadyFor(w: World, r: PublishRequest, s: StakeRequest, tt: Tries, key: Key) {
    && BakedOf(w).Some? && 1 <= BakedOf(w).value.takerSompi < Sompi.TWO_TO_52 && s.moved == Some(BakedOf(w).value.takerSompi)
    && StakeMatches(TakerStake(w, s, tt, Commits).world, r, key)
  }

  ghost predicate StakeMatches(w: World, r: PublishRequest, key: Key) {
    && w.offer.Some? && w.offer.value.status == Matched && w.offer.value.makerRelay == r.makerRelay
    && w.offer.value.taker == Some(Wallet(key)) && w.offer.value.meta.votes == Votes(None, None)
    && w.events == [BecameMatched(Some(Wallet(key)))]
  }

  ghost predicate Completes(w: World, steps: seq<Step>, key: Key, x: int, tx: TxId) {
    var end := Run(w, steps);
    && PossibleRun(w, steps)
    && end.offer.Some? && end.offer.value.status == Completed && end.offer.value.settleTx == Some(tx)
    && end.events == [BecameMatched(Some(Wallet(key))), Voted(Maker, x), Voted(Taker, x), Dispatched(x)]
  }

  lemma {:induction false} OpeningIsReady(ledger: seq<Payment>, makerRelay: string, key: Key, r: PublishRequest, s: StakeRequest,
                                          now: int, mt: Tries, tt: Tries)
    requires AllGoesWell(makerRelay, key, r, s, now, mt, tt)
    requires 1 <= BakedSompi(r) < Sompi.TWO_TO_52 && r.moved == s.moved == Some(BakedSompi(r))
    ensures
      var steps := Opening(makerRelay, key, r, now, mt);
      PossibleRun(Start(ledger), steps) && ReadyFor(Run(Start(ledger), steps), r, s, tt, key)
  {
    OpeningRuns(ledger, makerRelay, key, r, now, mt);
    StakedWorld(ledger, makerRelay, key, r, s, now, mt, tt);
  }

  lemma {:induction false} ClosingCompletes(w: World, r: PublishRequest, s: StakeRequest, tt: Tries, makerAddr: Address,
                                            key: Key, x: int, tx: TxId)
    requires s.takerAddr == Some(Wallet(key)) && r.makerRelay != "" && s.takerRelay != "" && s.takerRelay != r.makerRelay
    requires (x == 0 || x == 1) && ReadyFor(w, r, s, tt, key)
    ensures Completes(w, Closing(r, s, tt, makerAddr, x, tx), key, x, tx)
  {
    ClosingRuns(w, r, s, tt, makerAddr, key, x, tx);
  }

  lemma {:induction false} JoinedRun(w: World, first: seq<Step>, second: seq<Step>, key: Key, x: int, tx: TxId)
    requires PossibleRun(w, first) && Completes(Run(w, first), second, key, x, tx)
    ensures Completes(w, first + second, key, x, tx)
  {
    RunAppends(w, first, second);
  }

  /** Such a run is possible, and it completes the offer. */
  lemma {:induction false} WholeRunCompletes(ledger: seq<Payment>, makerRelay: string, key: Key, r: PublishRequest, s: StakeRequest,
                                             now: int, mt: Tries, tt: Tries, makerAddr: Address, x: int, tx: TxId)
    requires AllGoesWell(makerRelay, key, r, s, now, mt, tt) && r.makerRelay != "" && s.takerRelay != r.makerRelay
    requires 1 <= BakedSompi(r) < Sompi.TWO_TO_52 && r.moved == s.moved == Some(BakedSompi(r)) && (x == 0 || x == 1)
    ensures Completes(Start(ledger), Opening(makerRelay, key, r, now, mt) + Closing(r, s, tt, makerAddr, x, tx), key, x, tx)
  {
    var first := Opening(makerRelay, key, r, now, mt);
    OpeningIsReady(ledger, makerRelay, key, r, s, now, mt, tt);
    ClosingCompletes(Run(Start(ledger), first), r, s, tt, makerAddr, key, x, tx);
    JoinedRun(Start(ledger), first, Closing(r, s, tt, makerAddr, x, tx), key, x, tx);
  }
}
