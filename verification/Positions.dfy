/**
 * Simulated positions: an approved adjustment closes one, the owner closes all of a relay's at
 * once, and the profit or loss of a closed position is fixed for good.
 */
module Positions {
  import opened Common

  /** Rows are appended and never deleted, so a row number identifies a position or an adjustment. */
  type Id = nat

  datatype Closing = Closing(reason: string, pnl: real)

  /** `active`: its direction is not SKIP and its size is positive. */
  datatype Position = Position(relay: string, active: bool, closing: Option<Closing>)

  datatype Decision = Pending | Approved | Rejected

  datatype Adjustment = Adjustment(position: Id, decision: Decision)

  /** The latest snapshot's unrealized result of each position; zero when there is none. */
  type Marks = Id -> real

  datatype State = State(positions: seq<Position>, adjustments: seq<Adjustment>)

  datatype Refusal = BadRequest | NotFound | AlreadyDecided(decision: Decision)

  datatype CloseAllReply = CloseAllReply(count: nat, total: real, closed: seq<(Id, real)>)

  datatype Event =
    | Open(p: Position)
    | Propose(a: Adjustment)
    | Decide(id: Id, decision: string, marks: Marks)
    | CloseAll(relay: Option<string>, marks: Marks)

  // ---------- closing ----------

  predicate IsOpen(p: Position) { p.closing.None? }

  predicate Selected(p: Position, relay: string) { p.relay == relay && IsOpen(p) && p.active }

  /** The rows the close-all query returns, with the result each is closed at. */
  function Opens(ps: seq<Position>, relay: string, marks: Marks): seq<(Id, real)> {
    if ps == [] then []
    else
      var n := |ps| - 1;
      Opens(ps[..n], relay, marks) + (if Selected(ps[n], relay) then [(n, marks(n))] else [])
  }

  predicate AreSelected(r: seq<(Id, real)>, ps: seq<Position>, relay: string, marks: Marks) {
    && (forall k :: 0 <= k < |r| ==> r[k].0 < |ps| && Selected(ps[r[k].0], relay) && r[k].1 == marks(r[k].0))
    && (forall i :: 0 <= i < |ps| && Selected(ps[i], relay) ==> (i, marks(i)) in r)
    && (forall j, k :: 0 <= j < k < |r| ==> r[j].0 < r[k].0)
  }

  lemma {:induction false} OpensAreSelected(ps: seq<Position>, relay: string, marks: Marks)
    ensures AreSelected(Opens(ps, relay, marks), ps, relay, marks)
  {
    if ps != [] {
      var n := |ps| - 1;
      OpensAreSelected(ps[..n], relay, marks);
      var rest, r := Opens(ps[..n], relay, marks), Opens(ps, relay, marks);
      assert forall i :: 0 <= i < n ==> ps[..n][i] == ps[i];
      assert r == rest + (if Selected(ps[n], relay) then [(n, marks(n))] else []);
      assert forall e :: e in rest ==> e in r;
      assert Selected(ps[n], relay) ==> r[|rest|] == (n, marks(n));
    }
  }

  function Total(items: seq<(Id, real)>): real {
    if items == [] then 0.0 else Total(items[..|items| - 1]) + items[|items| - 1].1
  }

  function Closed(p: Position, reason: string, pnl: real): Position { p.(closing := Some(Closing(reason, pnl))) }

  /** Every selected position closed at its mark, the others untouched. */
  function AllClosed(ps: seq<Position>, relay: string, marks: Marks): (r: seq<Position>)
    ensures |r| == |ps|
    ensures forall i :: 0 <= i < |ps| ==>
      r[i] == if Selected(ps[i], relay) then Closed(ps[i], "manual_close_all", marks(i)) else ps[i]
  {
    seq(|ps|, i requires 0 <= i < |ps| =>
      if Selected(ps[i], relay) then Closed(ps[i], "manual_close_all", marks(i)) else ps[i])
  }

  // ---------- the handlers ----------

  function OnDecide(st: State, id: Id, decision: string, marks: Marks): (State, Result<Decision, Refusal>) {
    if decision !in {"approve", "reject"} then (st, Err(BadRequest))
    else if id >= |st.adjustments| then (st, Err(NotFound))
    else if st.adjustments[id].decision != Pending then (st, Err(AlreadyDecided(st.adjustments[id].decision)))
    else
      var a := st.adjustments[id];
      var verdict := if decision == "approve" then Approved else Rejected;
      var adjustments := st.adjustments[id := a.(decision := verdict)];
      if verdict == Approved && a.position < |st.positions| && IsOpen(st.positions[a.position]) then
        (State(st.positions[a.position := Closed(st.positions[a.position], "stop_loss", marks(a.position))], adjustments),
         Ok(verdict))
      else (State(st.positions, adjustments), Ok(verdict))
  }

  function OnCloseAll(st: State, relay: Option<string>, marks: Marks): (State, Result<CloseAllReply, Refusal>) {
    if relay.None? || relay.value == "" then (st, Err(BadRequest))
    else
      var opens := Opens(st.positions, relay.value, marks);
      (st.(positions := AllClosed(st.positions, relay.value, marks)), Ok(CloseAllReply(|opens|, Total(opens), opens)))
  }

  class PositionDesk {
    var positions: seq<Position>
    var adjustments: seq<Adjustment>

    function Now(): State
      reads this
    {
      State(positions, adjustments)
    }

    method PostDecide(id: Id, decision: string, marks: Marks) returns (r: Result<Decision, Refusal>)
      modifies this
      ensures (Now(), r) == OnDecide(old(Now()), id, decision, marks)
    {
      if decision != "approve" && decision != "reject" { return Err(BadRequest); }
      if id >= |adjustments| { return Err(NotFound); }
      var adj := adjustments[id];
      if adj.decision != Pending { return Err(AlreadyDecided(adj.decision)); }
      var verdict := if decision == "approve" then Approved else Rejected;
      adjustments := adjustments[id := adj.(decision := verdict)];
      if decision == "approve" && adj.position < |positions| && IsOpen(positions[adj.position]) {
        positions := positions[adj.position := Closed(positions[adj.position], "stop_loss", marks(adj.position))];
      }
      return Ok(verdict);
    }

    method PostCloseAll(relay: Option<string>, marks: Marks) returns (r: Result<CloseAllReply, Refusal>)
      modifies this
      ensures (Now(), r) == OnCloseAll(old(Now()), relay, marks)
    {
      if relay.None? || relay.value == "" { return Err(BadRequest); }
      var opens := Opens(positions, relay.value, marks);
      OpensAreSelected(positions, relay.value, marks);
      if |opens| == 0 {
        assert AllClosed(positions, relay.value, marks) == positions;
        return Ok(CloseAllReply(0, 0.0, []));
      }
      positions := CloseEach(positions, relay.value, marks, opens);
      var total := SumUp(opens);
      return Ok(CloseAllReply(|opens|, total, opens));
    }
  }

  /** The transaction over the selected rows. */
  method CloseEach(ps: seq<Position>, relay: string, marks: Marks, opens: seq<(Id, real)>) returns (r: seq<Position>)
    requires opens == Opens(ps, relay, marks)
    ensures r == AllClosed(ps, relay, marks)
  {
    OpensAreSelected(ps, relay, marks);
    ghost var goal := AllClosed(ps, relay, marks);
    r := ps;
    var n := 0;
    while n < |opens|
      invariant 0 <= n <= |opens| && |r| == |ps|
      invariant forall k :: 0 <= k < n ==> r[opens[k].0] == goal[opens[k].0]
      invariant forall k :: n <= k < |opens| ==> r[opens[k].0] == ps[opens[k].0]
      invariant forall i :: 0 <= i < |ps| && !Selected(ps[i], relay) ==> r[i] == goal[i]
    {
      var (id, pnl) := opens[n];
      assert forall k :: 0 <= k < |opens| && k != n ==> opens[k].0 != id;
      r := r[id := Closed(r[id], "manual_close_all", pnl)];
      n := n + 1;
    }
    forall i | 0 <= i < |ps| ensures r[i] == goal[i] {
      if Selected(ps[i], relay) {
        var k :| 0 <= k < |opens| && opens[k] == (i, marks(i));
      }
    }
  }

  method SumUp(opens: seq<(Id, real)>) returns (total: real)
    ensures total == Total(opens)
  {
    total := 0.0;
    var n := 0;
    while n < |opens|
      invariant 0 <= n <= |opens| && total == Total(opens[..n])
    {
      assert opens[..n + 1][..n] == opens[..n];
      total := total + opens[n].1;
      n := n + 1;
    }
    assert opens[..n] == opens;
  }

  // ---------- every run ----------

  function Step(st: State, e: Event): State {
    match e
    case Open(p) => if IsOpen(p) then st.(positions := st.positions + [p]) else st
    case Propose(a) => if a.decision == Pending then st.(adjustments := st.adjustments + [a]) else st
    case Decide(id, decision, marks) => OnDecide(st, id, decision, marks).0
    case CloseAll(relay, marks) => OnCloseAll(st, relay, marks).0
  }

  function Run(st: State, events: seq<Event>): State {
    if events == [] then st else Step(Run(st, events[..|events| - 1]), events[|events| - 1])
  }

  /** Positions only get appended, and those closed before stay exactly as they were. */
  predicate Extends(before: State, after: State) {
    && |before.positions| <= |after.positions|
    && forall i :: 0 <= i < |before.positions| ==>
      && after.positions[i].relay == before.positions[i].relay
      && (!IsOpen(before.positions[i]) ==> after.positions[i] == before.positions[i])
  }

  lemma {:induction false} StepExtends(st: State, e: Event)
    ensures Extends(st, Step(st, e))
  {
  }

  /** A position is closed at most once: from then on its row never changes. */
  lemma {:induction false} ClosedStaysAsItIs(st: State, events: seq<Event>)
    ensures Extends(st, Run(st, events))
  {
    if events != [] {
      ClosedStaysAsItIs(st, events[..|events| - 1]);
      StepExtends(Run(st, events[..|events| - 1]), events[|events| - 1]);
    }
  }

  function Pnl(p: Position): real { if IsOpen(p) then 0.0 else p.closing.value.pnl }

  function Realized(ps: seq<Position>): real {
    if ps == [] then 0.0 else Realized(ps[..|ps| - 1]) + Pnl(ps[|ps| - 1])
  }

  /** What an event adds to the books, read off its reply or its adjustment. */
  function Booked(st: State, e: Event): real {
    match e
    case Open(_) => 0.0
    case Propose(_) => 0.0
    case CloseAll(relay, marks) =>
      var (_, reply) := OnCloseAll(st, relay, marks);
      if reply.Ok? then reply.value.total else 0.0
    case Decide(id, decision, marks) =>
      if OnDecide(st, id, decision, marks).1 == Ok(Approved)
         && st.adjustments[id].position < |st.positions| && IsOpen(st.positions[st.adjustments[id].position])
      then marks(st.adjustments[id].position) else 0.0
  }

  function AllBooked(st: State, events: seq<Event>): real {
    if events == [] then 0.0
    else AllBooked(st, events[..|events| - 1]) + Booked(Run(st, events[..|events| - 1]), events[|events| - 1])
  }

  lemma {:induction false} TotalOfOpens(ps: seq<Position>, n: nat, relay: string, marks: Marks)
    requires |ps| == n + 1
    ensures Total(Opens(ps, relay, marks))
         == Total(Opens(ps[..n], relay, marks)) + (if Selected(ps[n], relay) then marks(n) else 0.0)
  {
    var rest := Opens(ps[..n], relay, marks);
    if Selected(ps[n], relay) {
      assert (rest + [(n, marks(n))])[..|rest|] == rest;
    } else {
      assert rest + [] == rest;
    }
  }

  lemma {:induction false} RealizedOfClosed(ps: seq<Position>, n: nat, relay: string, marks: Marks)
    requires |ps| == n + 1
    ensures Realized(AllClosed(ps, relay, marks))
         == Realized(AllClosed(ps[..n], relay, marks)) + (if Selected(ps[n], relay) then marks(n) else Pnl(ps[n]))
  {
    assert AllClosed(ps, relay, marks)[..n] == AllClosed(ps[..n], relay, marks);
  }

  lemma {:induction false} CloseAllAdds(ps: seq<Position>, relay: string, marks: Marks)
    ensures Realized(AllClosed(ps, relay, marks)) == Realized(ps) + Total(Opens(ps, relay, marks))
  {
    if ps != [] {
      var n := |ps| - 1;
      CloseAllAdds(ps[..n], relay, marks);
      TotalOfOpens(ps, n, relay, marks);
      RealizedOfClosed(ps, n, relay, marks);
      assert Selected(ps[n], relay) ==> Pnl(ps[n]) == 0.0;
    }
  }

  lemma {:induction false} ClosingOneAdds(ps: seq<Position>, i: Id, reason: string, pnl: real)
    requires i < |ps| && IsOpen(ps[i])
    ensures Realized(ps[i := Closed(ps[i], reason, pnl)]) == Realized(ps) + pnl
  {
    var n := |ps| - 1;
    var after := ps[i := Closed(ps[i], reason, pnl)];
    if i < n {
      ClosingOneAdds(ps[..n], i, reason, pnl);
      assert after[..n] == ps[..n][i := Closed(ps[i], reason, pnl)];
    } else {
      assert after[..n] == ps[..n];
    }
  }

  lemma {:induction false} StepBooks(st: State, e: Event)
    ensures Realized(Step(st, e).positions) == Realized(st.positions) + Booked(st, e)
  {
    match e
    case Open(p) => assert (st.positions + [p])[..|st.positions|] == st.positions;
    case Propose(_) =>
    case CloseAll(relay, marks) => if relay.Some? { CloseAllAdds(st.positions, relay.value, marks); }
    case Decide(id, decision, marks) =>
      if id < |st.adjustments| {
        var i := st.adjustments[id].position;
        if i < |st.positions| && IsOpen(st.positions[i]) {
          ClosingOneAdds(st.positions, i, "stop_loss", marks(i));
        }
      }
  }

  /** The total realized result is, at any time, what the replies and approvals booked. */
  lemma {:induction false} BooksBalance(st: State, events: seq<Event>)
    ensures Realized(Run(st, events).positions) == Realized(st.positions) + AllBooked(st, events)
  {
    if events != [] {
      BooksBalance(st, events[..|events| - 1]);
      StepBooks(Run(st, events[..|events| - 1]), events[|events| - 1]);
    }
  }

  lemma {:induction false} NothingOpen(ps: seq<Position>, relay: string, marks: Marks)
    requires forall i :: 0 <= i < |ps| ==> !Selected(ps[i], relay)
    ensures Opens(ps, relay, marks) == []
  {
    if ps != [] {
      var n := |ps| - 1;
      assert forall i :: 0 <= i < n ==> ps[..n][i] == ps[i];
      NothingOpen(ps[..n], relay, marks);
    }
  }

  /** After a close-all nothing the relay traded is open, and an immediate second one closes nothing. */
  lemma {:induction false} CloseAllLeavesNothing(st: State, relay: string, marks: Marks, marks': Marks)
    requires relay != ""
    ensures
      var (after, _) := OnCloseAll(st, Some(relay), marks);
      OnCloseAll(after, Some(relay), marks') == (after, Ok(CloseAllReply(0, 0.0, [])))
  {
    var after := AllClosed(st.positions, relay, marks);
    assert forall i :: 0 <= i < |after| ==> !Selected(after[i], relay);
    NothingOpen(after, relay, marks');
    assert AllClosed(after, relay, marks') == after;
  }

  // ---------- the handlers, said of the rows alone ----------

  /** When a decision is taken, and what it changes: its adjustment, and on approval the open position of it. */
  lemma {:induction false} DecideIff(st: State, id: Id, decision: string, marks: Marks)
    ensures
      var (after, r) := OnDecide(st, id, decision, marks);
      var valid := decision == "approve" || decision == "reject";
      && (r.Ok? <==> valid && id < |st.adjustments| && st.adjustments[id].decision == Pending)
      && (r == Err(BadRequest) <==> !valid)
      && (r == Err(NotFound) <==> valid && id >= |st.adjustments|)
      && (r.Err? ==> after == st)
      && (r.Err? && r.error.AlreadyDecided? ==> id < |st.adjustments| && r.error.decision == st.adjustments[id].decision)
      && (r.Ok? ==>
            && r.value == (if decision == "approve" then Approved else Rejected)
            && after.adjustments == st.adjustments[id := Adjustment(st.adjustments[id].position, r.value)]
            && |after.positions| == |st.positions|
            && forall i :: 0 <= i < |st.positions| ==>
                 after.positions[i] ==
                 if decision == "approve" && i == st.adjustments[id].position && st.positions[i].closing == None
                 then Position(st.positions[i].relay, st.positions[i].active, Some(Closing("stop_loss", marks(i))))
                 else st.positions[i])
  {
    assert "approve"[0] != "reject"[0];
  }

  /** A close-all takes the relay's own positions that are open and active, and no others. */
  predicate Picked(p: Position, relay: Option<string>) { Some(p.relay) == relay && p.closing == None && p.active }

  lemma {:induction false} CloseAllIff(st: State, relay: Option<string>, marks: Marks)
    ensures
      var (after, r) := OnCloseAll(st, relay, marks);
      && (r.Ok? <==> relay != None && relay != Some(""))
      && (r.Err? ==> after == st && r.error == BadRequest)
      && (r.Ok? ==>
            && after.adjustments == st.adjustments && |after.positions| == |st.positions|
            && (forall i :: 0 <= i < |st.positions| ==>
                  after.positions[i] ==
                  if Picked(st.positions[i], relay)
                  then Position(st.positions[i].relay, true, Some(Closing("manual_close_all", marks(i))))
                  else st.positions[i])
            && ListsPicked(st.positions, relay, marks, r.value.closed)
            && r.value.count == |r.value.closed| && r.value.total == Total(r.value.closed))
  {
    if relay.Some? { OpensAreSelected(st.positions, relay.value, marks); }
  }

  /** `closed` names the picked positions, in order and each with its mark. */
  predicate ListsPicked(ps: seq<Position>, relay: Option<string>, marks: Marks, closed: seq<(Id, real)>) {
    && (forall k :: 0 <= k < |closed| ==>
          closed[k].0 < |ps| && Picked(ps[closed[k].0], relay) && closed[k].1 == marks(closed[k].0))
    && (forall i :: 0 <= i < |ps| && Picked(ps[i], relay) ==> (i, marks(i)) in closed)
    && (forall j, k :: 0 <= j < k < |closed| ==> closed[j].0 < closed[k].0)
  }

  /** What one more event of a run does. */
  lemma {:induction false} RunStep(st: State, events: seq<Event>, e: Event)
    ensures Run(st, []) == st
    ensures
      var before, after := Run(st, events), Run(st, events + [e]);
      match e
      case Open(p) => after == if p.closing == None then State(before.positions + [p], before.adjustments) else before
      case Propose(a) => after == if a.decision == Pending then State(before.positions, before.adjustments + [a]) else before
      case Decide(id, decision, marks) => after == OnDecide(before, id, decision, marks).0
      case CloseAll(relay, marks) => after == OnCloseAll(before, relay, marks).0
  {
    assert (events + [e])[..|events|] == events;
  }
}
