/**
 * A maker's profit and loss report, and the market totals another endpoint computes separately.
 * Amounts are integers of sompi.
 */
module MakerPnl {
  import opened Common
  import opened Sums

  /** Whether the two transaction ids are set, and the payout the settler recorded, if it can be read. */
  datatype Market = Market(id: string, stake: int, settled: bool, refunded: bool, bshard: bool, payout: Option<int>)

  datatype Status = Refunded | Settled | EconomicLayerPending | SettledPendingPayout | Active

  datatype Line = Line(id: string, stake: int, payout: Option<int>, pnl: Option<int>, status: Status)

  datatype Report = Report(realizedNet: int, realizedN: nat, atRisk: int, pendingN: nat, refundedN: nat, byMarket: seq<Line>)

  // ---------- what the report should say ----------

  function Count(p: Market -> bool, rows: seq<Market>): (n: nat)
    ensures n <= |rows|
  {
    if rows == [] then 0 else Count(p, rows[..|rows| - 1]) + (if p(rows[|rows| - 1]) then 1 else 0)
  }

  predicate IsRefunded(m: Market) { m.refunded }

  predicate IsRealized(m: Market) { m.settled && !m.refunded && m.payout.Some? }

  predicate IsUnsupported(m: Market) { m.settled && !m.refunded && m.payout.None? && m.bshard }

  predicate IsUnpaid(m: Market) { m.settled && !m.refunded && m.payout.None? && !m.bshard }

  predicate IsActive(m: Market) { !m.settled && !m.refunded }

  predicate Is(s: Status, m: Market) {
    match s
    case Refunded => IsRefunded(m)
    case Settled => IsRealized(m)
    case EconomicLayerPending => IsUnsupported(m)
    case SettledPendingPayout => IsUnpaid(m)
    case Active => IsActive(m)
  }

  function PaidOut(m: Market): int { if IsRealized(m) then m.payout.value else 0 }

  function StakedIn(m: Market): int { if IsRealized(m) then m.stake else 0 }

  function AtRisk(m: Market): int { if IsActive(m) then m.stake else 0 }

  // ---------- the endpoints ----------

  /** The accumulation loop of the pnl endpoint. */
  method ComputePnl(rows: seq<Market>) returns (r: Report)
    ensures r.realizedNet == Sum(PaidOut, rows) - Sum(StakedIn, rows)
    ensures r.realizedN == Count(IsRealized, rows)
    ensures r.atRisk == Sum(AtRisk, rows)
    ensures r.pendingN == Count(IsActive, rows)
    ensures r.refundedN == Count(IsRefunded, rows)
    ensures |r.byMarket| == |rows|
    ensures forall i :: 0 <= i < |rows| ==>
      var l := r.byMarket[i];
      && l.id == rows[i].id && l.stake == rows[i].stake && Is(l.status, rows[i])
      && l.payout == (if l.status.Settled? then rows[i].payout else None)
      && (l.pnl.Some? <==> l.status.Settled? || l.status.Refunded?)
      && (l.pnl.Some? ==> l.pnl.value == PaidOut(rows[i]) - StakedIn(rows[i]))
  {
    var net, realizedN, atRisk, pendingN, refundedN := 0, 0, 0, 0, 0;
    var byMarket: seq<Line> := [];
    var n := 0;
    while n < |rows|
      invariant 0 <= n <= |rows| && |byMarket| == n
      invariant net == Sum(PaidOut, rows[..n]) - Sum(StakedIn, rows[..n])
      invariant realizedN == Count(IsRealized, rows[..n])
      invariant atRisk == Sum(AtRisk, rows[..n]) && pendingN == Count(IsActive, rows[..n])
      invariant refundedN == Count(IsRefunded, rows[..n])
      invariant forall i :: 0 <= i < n ==>
        var l := byMarket[i];
        && l.id == rows[i].id && l.stake == rows[i].stake && Is(l.status, rows[i])
        && l.payout == (if l.status.Settled? then rows[i].payout else None)
        && (l.pnl.Some? <==> l.status.Settled? || l.status.Refunded?)
        && (l.pnl.Some? ==> l.pnl.value == PaidOut(rows[i]) - StakedIn(rows[i]))
    {
      var m := rows[n];
      var payoutSompi := if m.settled then m.payout else None;
      var status, pnl, payout := Active, None, None;
      if m.refunded {
        status, pnl := Refunded, Some(0);
        refundedN := refundedN + 1;
      } else if m.settled && payoutSompi.Some? {
        status, pnl, payout := Settled, Some(payoutSompi.value - m.stake), payoutSompi;
        net := net + (payoutSompi.value - m.stake);
        realizedN := realizedN + 1;
      } else if m.settled && m.bshard {
        status := EconomicLayerPending;
      } else if m.settled {
        status := SettledPendingPayout;
      } else {
        atRisk := atRisk + m.stake;
        pendingN := pendingN + 1;
      }
      assert rows[..n + 1][..n] == rows[..n];
      byMarket := byMarket + [Line(m.id, m.stake, payout, pnl, status)];
      n := n + 1;
    }
    assert rows[..n] == rows;
    r := Report(net, realizedN, atRisk, pendingN, refundedN, byMarket);
  }

  datatype Totals = Totals(active: nat, settled: nat, refunded: nat)

  /** The totals of the markets endpoint. */
  function MarketTotals(rows: seq<Market>): Totals {
    Totals(Count((m: Market) => !m.settled && !m.refunded, rows),
           Count((m: Market) => m.settled, rows),
           Count((m: Market) => m.refunded, rows))
  }

  // ---------- agreement ----------

  lemma {:induction false} CountsAlike(p: Market -> bool, q: Market -> bool, rows: seq<Market>)
    requires forall m :: p(m) == q(m)
    ensures Count(p, rows) == Count(q, rows)
  {
    if rows != [] { CountsAlike(p, q, rows[..|rows| - 1]); }
  }

  /** Every market is in exactly one of the five statuses. */
  lemma {:induction false} OneStatus(m: Market)
    ensures exists s :: Is(s, m) && forall t :: Is(t, m) ==> t == s
  {
    var s := if m.refunded then Refunded else if !m.settled then Active else if m.payout.Some? then Settled
             else if m.bshard then EconomicLayerPending else SettledPendingPayout;
    assert Is(s, m);
  }

  /** The status and the sums of one row, case by case. */
  lemma {:induction false} RowBooks(m: Market)
    ensures m.refunded ==> Is(Refunded, m) && PaidOut(m) == StakedIn(m) == AtRisk(m) == 0
    ensures !m.refunded && !m.settled ==> Is(Active, m) && AtRisk(m) == m.stake && PaidOut(m) == StakedIn(m) == 0
    ensures !m.refunded && m.settled ==> AtRisk(m) == 0
    ensures !m.refunded && m.settled && m.payout.Some? ==>
      Is(Settled, m) && PaidOut(m) == m.payout.value && StakedIn(m) == m.stake
    ensures !m.refunded && m.settled && m.payout.None? ==>
      PaidOut(m) == StakedIn(m) == 0 && (if m.bshard then Is(EconomicLayerPending, m) else Is(SettledPendingPayout, m))
  {
  }

  predicate IsBoth(m: Market) { m.settled && m.refunded }

  lemma {:induction false} FiveWays(rows: seq<Market>)
    ensures Count(IsRefunded, rows) + Count(IsRealized, rows) + Count(IsUnsupported, rows) + Count(IsUnpaid, rows)
         + Count(IsActive, rows) == |rows|
    ensures Count((m: Market) => m.settled, rows)
         == Count(IsRealized, rows) + Count(IsUnsupported, rows) + Count(IsUnpaid, rows) + Count(IsBoth, rows)
  {
    if rows != [] {
      FiveWays(rows[..|rows| - 1]);
    }
  }

  /** The two reports agree on what is pending and refunded; a market counted twice was both settled and refunded. */
  lemma {:induction false} TotalsAgree(rows: seq<Market>)
    ensures MarketTotals(rows).active == Count(IsActive, rows)
    ensures MarketTotals(rows).refunded == Count(IsRefunded, rows)
    ensures MarketTotals(rows).settled
         == Count(IsRealized, rows) + Count(IsUnsupported, rows) + Count(IsUnpaid, rows) + Count(IsBoth, rows)
    ensures MarketTotals(rows).active + MarketTotals(rows).settled + MarketTotals(rows).refunded
         == |rows| + Count(IsBoth, rows)
  {
    CountsAlike((m: Market) => !m.settled && !m.refunded, IsActive, rows);
    CountsAlike((m: Market) => m.refunded, IsRefunded, rows);
    FiveWays(rows);
  }

  // ---------- order ----------

  lemma {:induction false} CountAsSum(p: Market -> bool, rows: seq<Market>)
    ensures Count(p, rows) == Sum((m: Market) => if p(m) then 1 else 0, rows)
  {
    if rows != [] { CountAsSum(p, rows[..|rows| - 1]); }
  }

  lemma {:induction false} CountIgnoresOrder(p: Market -> bool, a: seq<Market>, b: seq<Market>)
    requires multiset(a) == multiset(b)
    ensures Count(p, a) == Count(p, b)
  {
    CountAsSum(p, a);
    CountAsSum(p, b);
    SumIgnoresOrder((m: Market) => if p(m) then 1 else 0, a, b);
  }

  function InStatus(s: Status, rows: seq<Market>): nat { Count(m => Is(s, m), rows) }

  /** Whatever order the rows come in, the report's sums and counts and the totals are the same. */
  lemma {:induction false} ReportIgnoresOrder(a: seq<Market>, b: seq<Market>)
    requires multiset(a) == multiset(b)
    ensures Sum(PaidOut, a) - Sum(StakedIn, a) == Sum(PaidOut, b) - Sum(StakedIn, b)
    ensures Sum(AtRisk, a) == Sum(AtRisk, b)
    ensures forall s :: InStatus(s, a) == InStatus(s, b)
    ensures MarketTotals(a) == MarketTotals(b)
  {
    SumIgnoresOrder(PaidOut, a, b);
    SumIgnoresOrder(StakedIn, a, b);
    SumIgnoresOrder(AtRisk, a, b);
    forall s ensures InStatus(s, a) == InStatus(s, b) {
      CountIgnoresOrder(m => Is(s, m), a, b);
    }
    CountIgnoresOrder((m: Market) => !m.settled && !m.refunded, a, b);
    CountIgnoresOrder((m: Market) => m.settled, a, b);
    CountIgnoresOrder((m: Market) => m.refunded, a, b);
  }
}
