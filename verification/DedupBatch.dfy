/**
 * The operator's batch that sends maker refunds for duplicate markets.  Between one dispatch and
 * the next the database may change in any way, and a dispatch may throw.
 */
module DedupBatch {
  import opened Common
  import opened RefundEvidence

  datatype Market = Market(status: string, metadata: Metadata, sides: seq<Side>)

  type Markets = map<string, Market>

  /** What one dispatch did, and the database found after it. */
  datatype Outcome = Outcome(error: Option<string>, after: Markets)

  datatype Finding =
    | NotFound
    | UnexpectedStatus(status: string)
    | RealSides(count: nat)
    | Dispatched(found: Option<string>)
    | Threw(error: string)

  datatype Row = Row(id: string, verdict: Finding)
  {
    predicate Ok() { verdict == Dispatched(Some("refunding")) }

    predicate WasSent() { verdict.Dispatched? || verdict.Threw? }
  }

  /** A maker refund handed to the settler, with the market as it then stood. */
  datatype Dispatch = Dispatch(id: string, market: Market)

  datatype State = State(markets: Markets, dispatches: seq<Dispatch>)

  const STANDARD := ["pending_bettors", "verifying", "pending_oracle_deposits"]

  // ---------- what a batch should do ----------

  /** Nobody bet, or every bettor has demonstrably been refunded. */
  predicate MakerAlone(m: Market) {
    m.sides == [] || (m.status == "refunded" && Covers(EvidenceOf(m.metadata), m.sides))
  }

  predicate MayDispatch(m: Market) {
    && MakerAlone(m)
    && (m.sides == [] ==> m.status in STANDARD)
  }

  /** Reading the evidence of this market throws, outside the guarded part of the loop. */
  predicate Aborts(st: State, id: string) {
    id in st.markets && var m := st.markets[id]; m.status == "refunded" && m.sides != [] && m.metadata.JsonNull?
  }

  function StatusAfter(id: string, after: Markets): Option<string> {
    if id in after then Some(after[id].status) else None
  }

  function Step(st: State, id: string, o: Outcome): (State, Row) {
    if id !in st.markets then (st, Row(id, NotFound))
    else
      var m := st.markets[id];
      if MayDispatch(m) then
        (State(o.after, st.dispatches + [Dispatch(id, m)]),
         Row(id, match o.error case None => Dispatched(StatusAfter(id, o.after)) case Some(e) => Threw(e)))
      else (st, Row(id, if m.status in STANDARD then RealSides(|m.sides|) else UnexpectedStatus(m.status)))
  }

  /** The state after the first `i` ids; repeated ids meet the database the earlier ones left. */
  function After(st: State, ids: seq<string>, outcomes: seq<Outcome>, i: nat): State
    requires i <= |ids| == |outcomes|
  {
    if i == 0 then st else Step(After(st, ids, outcomes, i - 1), ids[i - 1], outcomes[i - 1]).0
  }

  /** The first id whose market aborts the batch; the number of ids when none does. */
  function FirstAbort(st: State, ids: seq<string>, outcomes: seq<Outcome>, from: nat): (i: nat)
    requires from <= |ids| == |outcomes|
    ensures from <= i <= |ids|
    decreases |ids| - from
  {
    if from == |ids| || AbortsAt(st, ids, outcomes, from) then from else FirstAbort(st, ids, outcomes, from + 1)
  }

  predicate AbortsAt(st: State, ids: seq<string>, outcomes: seq<Outcome>, i: nat)
    requires i < |ids| == |outcomes|
  {
    Aborts(After(st, ids, outcomes, i), ids[i])
  }

  function Answer(st: State, ids: seq<string>, outcomes: seq<Outcome>, i: nat): Row
    requires i < |ids| == |outcomes|
  {
    Step(After(st, ids, outcomes, i), ids[i], outcomes[i]).1
  }

  // ---------- the endpoint ----------

  class DedupDesk {
    var markets: Markets
    var dispatches: seq<Dispatch>

    function Now(): State
      reads this
    {
      State(markets, dispatches)
    }

    /**
     * Err is the 400 reply to a missing or empty list, or the 500 of a batch that aborts: then no
     * result is reported, and the dispatches made before stand.
     */
    method PostDedupRefund(ids: Option<seq<string>>, outcomes: seq<Outcome>) returns (r: Result<seq<Row>, int>)
      requires ids.Some? ==> |outcomes| == |ids.value|
      modifies this
      ensures r == Err(400) <==> ids.None? || ids.value == []
      ensures r == Err(400) ==> Now() == old(Now())
      ensures r != Err(400) ==>
        var stop := FirstAbort(old(Now()), ids.value, outcomes, 0);
        && Now() == After(old(Now()), ids.value, outcomes, stop)
        && (if stop < |ids.value| then r == Err(500) else r.Ok? && |r.value| == |ids.value|)
      ensures r.Ok? ==> forall i :: 0 <= i < |ids.value| ==> r.value[i] == Answer(old(Now()), ids.value, outcomes, i)
    {
      if ids.None? || ids.value == [] {
        return Err(400);
      }
      var results: seq<Row> := [];
      var k := 0;
      while k < |ids.value|
        invariant 0 <= k <= |ids.value| && |results| == k
        invariant FirstAbort(old(Now()), ids.value, outcomes, 0) == FirstAbort(old(Now()), ids.value, outcomes, k)
        invariant Now() == After(old(Now()), ids.value, outcomes, k)
        invariant forall i :: 0 <= i < k ==> results[i] == Answer(old(Now()), ids.value, outcomes, i)
      {
        var found := Handle(ids.value[k], outcomes[k]);
        if found.None? { return Err(500); }
        results := results + [Row(ids.value[k], found.value)];
        k := k + 1;
      }
      return Ok(results);
    }

    /** The body of the loop; None stands for an exception that leaves the loop. */
    method Handle(id: string, o: Outcome) returns (r: Option<Finding>)
      modifies this
      ensures r.None? <==> Aborts(old(Now()), id)
      ensures r.None? ==> Now() == old(Now())
      ensures r.Some? ==> (Now(), Row(id, r.value)) == Step(old(Now()), id, o)
    {
      if id !in markets { return Some(NotFound); }
      var market := markets[id];
      var betCount := |market.sides|;
      var isStandard := market.status in STANDARD;
      var isPostContainer2 := false;
      if market.status == "refunded" && betCount > 0 {
        var verdict := HasVerifiedEvidence(market.metadata, market.sides);
        if verdict == Throws { return None; }
        isPostContainer2 := verdict == Accepts;
      }
      if !isStandard && !isPostContainer2 { return Some(UnexpectedStatus(market.status)); }
      if betCount > 0 && !isPostContainer2 { return Some(RealSides(betCount)); }
      dispatches := dispatches + [Dispatch(id, market)];
      markets := o.after;
      match o.error {
        case None => return Some(Dispatched(StatusAfter(id, markets)));
        case Some(e) => return Some(Threw(e));
      }
    }
  }

  // ---------- over all runs ----------

  predicate Safe(st: State) {
    forall i :: 0 <= i < |st.dispatches| ==> MakerAlone(st.dispatches[i].market)
  }

  lemma {:induction false} StepFacts(st: State, id: string, o: Outcome)
    ensures var (after, row) := Step(st, id, o);
      && row.id == id
      && (if row.WasSent() then
            id in st.markets && MakerAlone(st.markets[id])
            && after == State(o.after, st.dispatches + [Dispatch(id, st.markets[id])])
          else after == st)
  {
  }

  /**
   * When an id is dispatched, and what is reported: a market in a standard status without bettors,
   * or one whose bettors were refunded on accepted evidence, and no other.  Reading evidence that
   * throws is what aborts a batch.
   */
  lemma {:induction false} DispatchIff(st: State, id: string, o: Outcome)
    requires id in st.markets
    ensures
      var (after, row) := Step(st, id, o); var m := st.markets[id];
      var standard := m.status == "pending_bettors" || m.status == "verifying" || m.status == "pending_oracle_deposits";
      var settled := m.status == "refunded" && m.sides != [] && VerdictOf(m.metadata, m.sides) == Accepts;
      && row.id == id
      && (row.verdict == UnexpectedStatus(m.status) <==> !standard && !settled)
      && (row.verdict == RealSides(|m.sides|) <==> standard && m.sides != [])
      && (after.dispatches != st.dispatches <==> (standard && m.sides == []) || settled)
      && (if after.dispatches != st.dispatches then
            && after == State(o.after, st.dispatches + [Dispatch(id, m)])
            && row.verdict == if o.error.Some? then Threw(o.error.value)
                              else Dispatched(if id in o.after then Some(o.after[id].status) else None)
          else after == st)
      && (Aborts(st, id) <==> m.status == "refunded" && m.sides != [] && VerdictOf(m.metadata, m.sides) == Throws)
  {
    RefundedIsNotStandard();
    assert STANDARD[0] in STANDARD && STANDARD[1] in STANDARD && STANDARD[2] in STANDARD;
  }

  lemma {:induction false} RefundedIsNotStandard()
    ensures "refunded" !in STANDARD
  {
    assert |"refunded"| == 8 && |STANDARD[0]| == 15 && |STANDARD[1]| == 9 && |STANDARD[2]| == 23;
  }

  lemma {:induction false} UnknownIsNotFound(st: State, id: string, o: Outcome)
    requires id !in st.markets
    ensures Step(st, id, o) == (st, Row(id, NotFound)) && !Aborts(st, id)
  {
  }

  /** How many of the first `n` results report a dispatch. */
  function Sent(st: State, ids: seq<string>, outcomes: seq<Outcome>, n: nat): nat
    requires n <= |ids| == |outcomes|
  {
    if n == 0 then 0
    else Sent(st, ids, outcomes, n - 1) + (if Answer(st, ids, outcomes, n - 1).WasSent() then 1 else 0)
  }

  /** The results name the ids in order and account for every dispatch made. */
  lemma {:induction false} ResultsAccountForDispatches(st: State, ids: seq<string>, outcomes: seq<Outcome>, n: nat)
    requires n <= |ids| == |outcomes|
    ensures forall i :: 0 <= i < n ==> Answer(st, ids, outcomes, i).id == ids[i]
    ensures |After(st, ids, outcomes, n).dispatches| == |st.dispatches| + Sent(st, ids, outcomes, n)
    ensures st.dispatches <= After(st, ids, outcomes, n).dispatches
    ensures Safe(st) ==> Safe(After(st, ids, outcomes, n))
  {
    if n != 0 {
      ResultsAccountForDispatches(st, ids, outcomes, n - 1);
      StepFacts(After(st, ids, outcomes, n - 1), ids[n - 1], outcomes[n - 1]);
    }
  }

  /** A batch answers at all exactly when none of the markets it meets has the metadata text `null` to read. */
  lemma {:induction false} AnswersIff(st: State, ids: seq<string>, outcomes: seq<Outcome>, from: nat)
    requires from <= |ids| == |outcomes|
    ensures FirstAbort(st, ids, outcomes, from) == |ids| <==>
      forall i :: from <= i < |ids| ==> !AbortsAt(st, ids, outcomes, i)
    decreases |ids| - from
  {
    if from < |ids| && !AbortsAt(st, ids, outcomes, from) {
      AnswersIff(st, ids, outcomes, from + 1);
    }
  }

  /** One request: the database it meets, its ids, and what its dispatches will do. */
  datatype Request = Request(markets: Markets, ids: seq<string>, outcomes: seq<Outcome>)

  predicate Fits(reqs: seq<Request>) {
    forall i :: 0 <= i < |reqs| ==> |reqs[i].ids| == |reqs[i].outcomes|
  }

  function Serve(st: State, reqs: seq<Request>): State
    requires Fits(reqs)
  {
    if reqs == [] then st
    else
      var r := reqs[|reqs| - 1];
      var met := Serve(st, reqs[..|reqs| - 1]).(markets := r.markets);
      After(met, r.ids, r.outcomes, FirstAbort(met, r.ids, r.outcomes, 0))
  }

  /** No sequence of batches ever refunds a maker while a bettor's stake is unaccounted for. */
  lemma {:induction false} EveryDispatchIsSafe(st: State, reqs: seq<Request>)
    requires Safe(st) && Fits(reqs)
    ensures Safe(Serve(st, reqs))
  {
    if reqs != [] {
      var r := reqs[|reqs| - 1];
      EveryDispatchIsSafe(st, reqs[..|reqs| - 1]);
      var met := Serve(st, reqs[..|reqs| - 1]).(markets := r.markets);
      ResultsAccountForDispatches(met, r.ids, r.outcomes, FirstAbort(met, r.ids, r.outcomes, 0));
    }
  }

  predicate KeepsRefunding(before: Markets, after: Markets) {
    forall id :: id in before && before[id].status == "refunding" ==> id in after && after[id].status == "refunding"
  }

  /** Nothing that happens during a batch takes a market out of `refunding`. */
  predicate Settling(st: State, ids: seq<string>, outcomes: seq<Outcome>)
    requires |ids| == |outcomes|
  {
    forall i :: 0 <= i < |ids| ==> StepSettles(st, ids, outcomes, i)
  }

  predicate StepSettles(st: State, ids: seq<string>, outcomes: seq<Outcome>, i: nat)
    requires i < |ids| == |outcomes|
  {
    KeepsRefunding(After(st, ids, outcomes, i).markets, outcomes[i].after)
  }

  lemma {:induction false} RefundingStays(st: State, ids: seq<string>, outcomes: seq<Outcome>, i: nat, j: nat)
    requires |ids| == |outcomes| && Settling(st, ids, outcomes) && i <= j <= |ids|
    ensures KeepsRefunding(After(st, ids, outcomes, i).markets, After(st, ids, outcomes, j).markets)
    decreases j
  {
    if i < j {
      RefundingStays(st, ids, outcomes, i, j - 1);
      StepFacts(After(st, ids, outcomes, j - 1), ids[j - 1], outcomes[j - 1]);
      assert StepSettles(st, ids, outcomes, j - 1);
    }
  }

  /** An id repeated in a batch is refunded once: after a success it is refused. */
  lemma {:induction false} RepeatedIdIsRefundedOnce(st: State, ids: seq<string>, outcomes: seq<Outcome>, i: nat, j: nat)
    requires |ids| == |outcomes| && Settling(st, ids, outcomes)
    requires i < j < |ids| && ids[i] == ids[j]
    requires Answer(st, ids, outcomes, i).Ok()
    ensures Answer(st, ids, outcomes, j).verdict == UnexpectedStatus("refunding")
  {
    var after := After(st, ids, outcomes, i + 1).markets;
    assert ids[i] in after && after[ids[i]].status == "refunding";
    RefundingStays(st, ids, outcomes, i + 1, j);
    assert "refunding" !in STANDARD by { NotStandard(); }
    assert "refunding" != "refunded" by { assert |"refunding"| != |"refunded"|; }
  }

  lemma {:induction false} NotStandard()
    ensures "refunding" !in STANDARD
  {
    assert |"refunding"| == 9 && |STANDARD[0]| == 15 && |STANDARD[1]| == 9 && |STANDARD[2]| == 23;
    assert "refunding"[0] != STANDARD[1][0];
  }

  /** A batch does what it is for: a lone market in verification, without bettors, is refunded. */
  lemma {:induction false} LoneMarketIsRefunded(st: State, markets: Markets, id: string, o: Outcome)
    requires id in markets && markets[id].status == "verifying" && markets[id].sides == []
    ensures Serve(st, [Request(markets, [id], [o])]) == State(o.after, st.dispatches + [Dispatch(id, markets[id])])
  {
    var reqs := [Request(markets, [id], [o])];
    var met := st.(markets := markets);
    assert Serve(st, reqs[..0]) == st;
    DispatchIff(met, id, o);
    assert After(met, [id], [o], 0) == met;
    assert FirstAbort(met, [id], [o], 1) == 1;
    assert After(met, [id], [o], 1) == Step(met, id, o).0;
  }
}
