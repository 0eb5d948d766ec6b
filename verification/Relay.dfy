/**
 * Commands sent to a relay, retried a bounded number of times.
 *
 * A handler asks a relay to put something on chain and only learns of it from the reply.  An
 * attempt can be acknowledged with a transaction id, or come back without one; in the second
 * case the effect may nevertheless have landed.  A transaction id is the position of the effect
 * in the ledger, so a recorded id keeps naming the same effect while the ledger grows.
 */
module Relay {
  import opened Common

  type TxId = nat

  datatype Attempt = Acked | Unacked(landed: bool)

  /** The three tries every retry loop of the handlers makes. */
  type Tries = t: seq<Attempt> | |t| == 3 witness [Acked, Acked, Acked]

  datatype Sent<E> = Sent(ledger: seq<E>, tx: Option<TxId>)

  /** The tries that are made (the first acknowledged one ends the loop) and landed. */
  function Landed(tries: seq<Attempt>): nat {
    if tries == [] then 0
    else match tries[0]
      case Acked => 1
      case Unacked(landed) => (if landed then 1 else 0) + Landed(tries[1..])
  }

  /** Every try that put something on chain also returned its transaction id. */
  predicate NothingLost(tries: seq<Attempt>) {
    Landed(tries) == if Acked in tries then 1 else 0
  }

  lemma {:induction false} AckedLands(tries: seq<Attempt>)
    requires Acked in tries
    ensures Landed(tries) >= 1
  {
    if tries[0] != Acked {
      assert Acked in tries[1..];
      AckedLands(tries[1..]);
    }
  }

  function Copies<E>(effect: E, n: nat): seq<E> { seq(n, _ => effect) }

  /** Attempts the command until a try is acknowledged. */
  function Send<E>(ledger: seq<E>, effect: E, tries: seq<Attempt>): (r: Sent<E>)
    ensures r.ledger == ledger + Copies(effect, Landed(tries))
    ensures r.tx.Some? <==> Acked in tries
    ensures r.tx.Some? ==> |ledger| <= r.tx.value < |r.ledger| && r.ledger[r.tx.value] == effect
    decreases |tries|
  {
    if tries == [] then Sent(ledger, None)
    else match tries[0]
      case Acked => Sent(ledger + [effect], Some(|ledger|))
      case Unacked(landed) => Send(if landed then ledger + [effect] else ledger, effect, tries[1..])
  }

  /** The loop of the handlers: `for attempt = 1..3 { try { send; if (txId) break } catch {} }`. */
  method SendWithRetry<E>(ledger: seq<E>, effect: E, tries: Tries) returns (ledger': seq<E>, tx: Option<TxId>)
    ensures Sent(ledger', tx) == Send(ledger, effect, tries)
  {
    ledger', tx := ledger, None;
    var attempt := 0;
    while attempt < 3
      invariant 0 <= attempt <= 3
      invariant tx == None
      invariant Send(ledger, effect, tries) == Send(ledger', effect, tries[attempt..])
    {
      match tries[attempt] {
        case Acked =>
          tx := Some(|ledger'|);
          ledger' := ledger' + [effect];
          break;
        case Unacked(landed) =>
          if landed { ledger' := ledger' + [effect]; }
      }
      attempt := attempt + 1;
    }
  }
}
