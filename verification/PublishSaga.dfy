/**
 * The older publish route: pay the escrow, broadcast the offer, insert the row, each in a
 * bounded retry loop, with replies that must say which irreversible steps are already done.
 */
module PublishSaga {
  import opened Common
  import opened Relay

  datatype Effect = EscrowPaid(offer: string) | OfferBroadcast(offer: string, escrowTx: TxId)

  datatype Row = Row(escrowTx: TxId, broadcastTx: TxId)

  datatype State = State(rows: map<string, Row>, chain: seq<Effect>)

  /** A failure names the transactions its caller must know about. */
  datatype Reply =
    | Published(escrowTx: TxId, broadcastTx: TxId)
    | Failed(code: int, escrow: Option<TxId>, broadcast: Option<TxId>)

  /** What the outside decides during one publish. */
  datatype Weather = Weather(
    escrowConfigured: bool, escrowTries: Tries, relayImported: bool, broadcastTries: Tries, inserts: Inserts)

  /** Which of the three insert attempts the database would accept. */
  type Inserts = b: seq<bool> | |b| == 3 witness [true, true, true]

  datatype Result = Result(state: State, reply: Reply)

  function Publish(s: State, id: string, env: Weather): Result {
    if !env.escrowConfigured then Result(s, Failed(503, None, None)) else
    var paid := Send(s.chain, EscrowPaid(id), env.escrowTries);
    if paid.tx.None? then Result(s.(chain := paid.ledger), Failed(503, None, None)) else
    if !env.relayImported then Result(s.(chain := paid.ledger), Failed(500, paid.tx, None)) else
    var cast := Send(paid.ledger, OfferBroadcast(id, paid.tx.value), env.broadcastTries);
    var s' := s.(chain := cast.ledger);
    if cast.tx.None? then Result(s', Failed(503, paid.tx, None))
    else if id in s.rows || true !in env.inserts then Result(s', Failed(500, paid.tx, cast.tx))
    else Result(s'.(rows := s.rows[id := Row(paid.tx.value, cast.tx.value)]), Published(paid.tx.value, cast.tx.value))
  }

  class PublishDesk {
    var rows: map<string, Row>
    var chain: seq<Effect>

    function Snapshot(): State
      reads this
    {
      State(rows, chain)
    }

    constructor ()
      ensures Snapshot() == State(map[], [])
    {
      rows, chain := map[], [];
    }

    method PostPublish(id: string, env: Weather) returns (reply: Reply)
      modifies this
      ensures Result(Snapshot(), reply) == Publish(old(Snapshot()), id, env)
    {
      if !env.escrowConfigured { return Failed(503, None, None); }
      var escrowTx, broadcastTx;
      chain, escrowTx := SendWithRetry(chain, EscrowPaid(id), env.escrowTries);
      if escrowTx.None? { return Failed(503, None, None); }
      if !env.relayImported { return Failed(500, escrowTx, None); }
      chain, broadcastTx := SendWithRetry(chain, OfferBroadcast(id, escrowTx.value), env.broadcastTries);
      if broadcastTx.None? { return Failed(503, escrowTx, None); }
      var attempt := 0;
      while attempt < 3
        invariant 0 <= attempt <= 3
        invariant id in old(rows) || true !in env.inserts[..attempt]
        invariant rows == old(rows)
        invariant chain == Publish(old(Snapshot()), id, env).state.chain
      {
        assert env.inserts[..attempt + 1] == env.inserts[..attempt] + [env.inserts[attempt]];
        if env.inserts[attempt] && id !in rows {
          rows := rows[id := Row(escrowTx.value, broadcastTx.value)];
          return Published(escrowTx.value, broadcastTx.value);
        }
        attempt := attempt + 1;
      }
      assert env.inserts[..3] == env.inserts;
      return Failed(500, escrowTx, broadcastTx);
    }
  }

  // ---------- rows and effects ----------

  /** A row names an escrow payment for its offer and a broadcast that names that payment. */
  predicate RowBacked(chain: seq<Effect>, id: string, r: Row) {
    && r.escrowTx < |chain| && chain[r.escrowTx] == EscrowPaid(id)
    && r.broadcastTx < |chain| && chain[r.broadcastTx] == OfferBroadcast(id, r.escrowTx)
  }

  ghost predicate Backed(s: State) {
    forall id :: id in s.rows ==> RowBacked(s.chain, id, s.rows[id])
  }

  lemma {:induction false} BackedGrows(chain: seq<Effect>, more: seq<Effect>, id: string, r: Row)
    requires RowBacked(chain, id, r)
    ensures RowBacked(chain + more, id, r)
  {
  }

  datatype Call = Call(id: string, env: Weather)

  function Run(s: State, calls: seq<Call>): State
    decreases |calls|
  {
    if calls == [] then s else Run(Publish(s, calls[0].id, calls[0].env).state, calls[1..])
  }

  /** The chain only grows, and a row that appears names the two effects of its own run. */
  lemma {:induction false} PublishFrame(s: State, id: string, env: Weather)
    ensures
      var s' := Publish(s, id, env).state;
      && s.chain <= s'.chain
      && (s'.rows == s.rows
          || (id !in s.rows && id in s'.rows && s'.rows == s.rows[id := s'.rows[id]] && RowBacked(s'.chain, id, s'.rows[id])))
  {
  }

  lemma {:induction false} PublishKeepsBacked(s: State, id: string, env: Weather)
    requires Backed(s)
    ensures Backed(Publish(s, id, env).state)
  {
    var s' := Publish(s, id, env).state;
    PublishFrame(s, id, env);
    assert s'.chain == s.chain + s'.chain[|s.chain|..];
    forall x | x in s'.rows ensures RowBacked(s'.chain, x, s'.rows[x]) {
      if x in s.rows { BackedGrows(s.chain, s'.chain[|s.chain|..], x, s.rows[x]); }
    }
  }

  /** No sequence of publishes, however their calls fail, leaves a row without both transactions. */
  lemma {:induction false} RowsAreAlwaysBacked(s: State, calls: seq<Call>)
    requires Backed(s)
    ensures Backed(Run(s, calls))
    decreases |calls|
  {
    if calls != [] {
      PublishKeepsBacked(s, calls[0].id, calls[0].env);
      RowsAreAlwaysBacked(Publish(s, calls[0].id, calls[0].env).state, calls[1..]);
    }
  }

  /** Success is reported exactly when every stage succeeded, and a failure leaves the rows alone. */
  lemma {:induction false} SuccessIff(s: State, id: string, env: Weather)
    ensures
      var r := Publish(s, id, env);
      && (r.reply.Published? <==>
            && env.escrowConfigured && env.relayImported && id !in s.rows
            && Acked in env.escrowTries && Acked in env.broadcastTries && true in env.inserts)
      && (r.reply.Published? ==> r.state.rows == s.rows[id := Row(r.reply.escrowTx, r.reply.broadcastTx)])
      && (r.reply.Failed? ==> r.state.rows == s.rows)
  {
  }

  /** The chain transactions a reply names. */
  function Named(reply: Reply): set<TxId> {
    match reply
    case Published(e, b) => {e, b}
    case Failed(_, e, b) => (if e.Some? then {e.value} else {}) + (if b.Some? then {b.value} else {})
  }

  predicate Within(t: nat, from: nat, to: nat) { from <= t < to }

  /** The positions a run of the handler added to the chain. */
  function Added(before: State, after: State): set<TxId> {
    set t: nat | |before.chain| <= t < |after.chain| && Within(t, |before.chain|, |after.chain|)
  }

  /** The tries of the stages the handler got to. */
  predicate ReachedTriesLostNothing(env: Weather) {
    && (env.escrowConfigured ==> NothingLost(env.escrowTries))
    && (env.escrowConfigured && env.relayImported && Acked in env.escrowTries ==> NothingLost(env.broadcastTries))
  }

  /**
   * Success or failure, a reply names every irreversible effect of its run exactly when no
   * attempt took effect without being acknowledged.
   */
  lemma {:induction false} RepliesNameEveryEffectIff(s: State, id: string, env: Weather)
    ensures
      var r := Publish(s, id, env);
      && Named(r.reply) <= Added(s, r.state)
      && (Named(r.reply) == Added(s, r.state) <==> ReachedTriesLostNothing(env))
  {
    var r := Publish(s, id, env);
    var n := |s.chain|;
    if env.escrowConfigured {
      if Acked in env.escrowTries { AckedLands(env.escrowTries); }
      if Acked in env.broadcastTries { AckedLands(env.broadcastTries); }
      var paid := Send(s.chain, EscrowPaid(id), env.escrowTries);
      var cast := if env.relayImported && paid.tx.Some?
                  then Send(paid.ledger, OfferBroadcast(id, paid.tx.value), env.broadcastTries)
                  else Sent(paid.ledger, None);
      assert r.state.chain == cast.ledger;
      assert Named(r.reply) == (if paid.tx.Some? then {paid.tx.value} else {}) + (if cast.tx.Some? then {cast.tx.value} else {});
      OneEachIff(n, |paid.ledger|, |cast.ledger|, paid.tx, cast.tx, Added(s, r.state), Named(r.reply));
    }
  }

  /** Two adjacent stretches hold only the named positions exactly when each is one long, or empty. */
  lemma {:induction false} OneEachIff(a: nat, b: nat, c: nat, x: Option<nat>, y: Option<nat>, added: set<nat>, named: set<nat>)
    requires a <= b <= c
    requires x.Some? ==> a <= x.value < b
    requires y.Some? ==> b <= y.value < c
    requires added == set t: nat | a <= t < c && Within(t, a, c)
    requires named == (if x.Some? then {x.value} else {}) + (if y.Some? then {y.value} else {})
    ensures named <= added
    ensures named == added <==> b - a == (if x.Some? then 1 else 0) && c - b == (if y.Some? then 1 else 0)
  {
    if named == added {
      assert b - a >= 1 ==> a in added && b - 1 in added;
      assert c - b >= 1 ==> b in added && c - 1 in added;
    } else {
      var t :| t in added && t !in named;
    }
  }

  /** The transactions a reply names: an escrow payment of this offer, and a broadcast of it that names the payment. */
  predicate NamesOwn(chain: seq<Effect>, id: string, escrow: Option<TxId>, broadcast: Option<TxId>) {
    && (escrow.Some? ==> escrow.value < |chain| && chain[escrow.value] == EscrowPaid(id))
    && (broadcast.Some? ==>
          && escrow.Some?
          && broadcast.value < |chain| && chain[broadcast.value] == OfferBroadcast(id, escrow.value))
  }

  /** How far a publish got, and what its reply says of that. */
  lemma {:induction false} RepliesSayHowFar(s: State, id: string, env: Weather)
    ensures
      var r := Publish(s, id, env);
      var paid := env.escrowConfigured && Acked in env.escrowTries;
      var cast := paid && env.relayImported && Acked in env.broadcastTries;
      match r.reply
      case Published(escrow, broadcast) => paid && cast && NamesOwn(r.state.chain, id, Some(escrow), Some(broadcast))
      case Failed(code, escrow, broadcast) =>
        && (escrow.Some? <==> paid) && (broadcast.Some? <==> cast) && NamesOwn(r.state.chain, id, escrow, broadcast)
        && (code == 500 <==> paid && (!env.relayImported || cast)) && (code == 503 <==> code != 500)
  {
  }

  /** What it put on chain: a payment for each try that landed, and after an acknowledged one as many broadcasts of it. */
  lemma {:induction false} ChainAfter(s: State, id: string, env: Weather)
    ensures
      var r := Publish(s, id, env);
      var paid := s.chain + Copies(EscrowPaid(id), Landed(env.escrowTries));
      if !env.escrowConfigured then r.state.chain == s.chain
      else if Acked !in env.escrowTries || !env.relayImported then r.state.chain == paid
      else exists t :: Within(t, |s.chain|, |paid|)
             && r.state.chain == paid + Copies(OfferBroadcast(id, t), Landed(env.broadcastTries))
  {
    var sent := Send(s.chain, EscrowPaid(id), env.escrowTries);
    if sent.tx.Some? { assert Within(sent.tx.value, |s.chain|, |sent.ledger|); }
  }

  /** A run takes one call after the other. */
  lemma {:induction false} RunStep(s: State, calls: seq<Call>, call: Call)
    ensures Run(s, calls + [call]) == Publish(Run(s, calls), call.id, call.env).state
    decreases |calls|
  {
    if calls == [] {
      assert [call][1..] == [];
    } else {
      assert (calls + [call])[1..] == calls[1..] + [call];
      RunStep(Publish(s, calls[0].id, calls[0].env).state, calls[1..], call);
    }
  }
}
