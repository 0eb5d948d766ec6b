/**
 * The on-chain escrow script of a prediction offer, and the transactions the console builds
 * to spend it.  `Satisfies` is the script; the `...Outputs` functions are the amounts the
 * settler and the refund handler compute on their own.  The lemmas say for which baked
 * parameters the two sides agree.
 */
module EscrowContract {
  import opened Common

  /** An x-only public key in hexadecimal. */
  type Key = string

  /** The arguments compiled into one offer's script. */
  datatype Ctor = Ctor(
    makerPk: Key, takerPk: Key, brokerPk: Key, oraclePks: seq<Key>,
    deadline: int, minerFee: int, brokerFeePct: int, oracleFeePct: int,
    makerStake: int, takerStake: int)

  const MAX_MINER_FEE: int := 10_000_000
  const MAX_SAFE_INTEGER: int := 0x1F_FFFF_FFFF_FFFF
  const ORACLE_FLOOR: int := 1_250_000_000_000

  predicate IsKey(k: Key) { |k| == 64 && forall i :: 0 <= i < |k| ==> IsHex(k[i]) }

  /** What the compiler wrapper insists on before it derives an address. */
  predicate ValidCtor(c: Ctor) {
    && IsKey(c.makerPk) && IsKey(c.takerPk) && IsKey(c.brokerPk)
    && |c.oraclePks| == 5 && (forall i :: 0 <= i < 5 ==> IsKey(c.oraclePks[i]))
    && |{c.makerPk, c.takerPk, c.brokerPk} + (set k | k in c.oraclePks)| == 8
    && 1 <= c.deadline <= MAX_SAFE_INTEGER
    && 0 <= c.minerFee <= MAX_MINER_FEE
    && 0 <= c.brokerFeePct <= 9999 && 0 <= c.oracleFeePct <= 9999
    && 1 <= c.makerStake <= MAX_SAFE_INTEGER && 1 <= c.takerStake <= MAX_SAFE_INTEGER
  }

  /** The eight keys of a script. */
  function KeysOf(c: Ctor): seq<Key> { [c.makerPk, c.takerPk, c.brokerPk] + c.oraclePks }

  predicate IsHexKey(k: Key) { |k| == 64 && forall i :: 0 <= i < |k| ==> k[i] in HEX_DIGITS }

  lemma {:induction false} KeyIff(k: Key)
    ensures IsKey(k) <==> IsHexKey(k)
  {
    forall i | 0 <= i < |k| ensures IsHex(k[i]) <==> k[i] in HEX_DIGITS { HexIff(k[i]); }
  }

  lemma {:induction false} DistinctIff(keys: seq<Key>)
    ensures |set k | k in keys| <= |keys|
    ensures |set k | k in keys| == |keys| <==> forall i, j :: 0 <= i < j < |keys| ==> keys[i] != keys[j]
  {
    if keys != [] {
      var init, last := keys[..|keys| - 1], keys[|keys| - 1];
      DistinctIff(init);
      assert forall k :: k in keys <==> k in init || k == last;
      assert (set k | k in keys) == (set k | k in init) + {last};
      if last in init {
        var i :| 0 <= i < |init| && init[i] == last;
        assert keys[i] == keys[|keys| - 1];
      }
    }
  }

  lemma {:induction false} EightKeys(c: Ctor)
    requires |c.oraclePks| == 5
    ensures (forall n :: 0 <= n < 8 ==> IsHexKey(KeysOf(c)[n])) <==>
      IsKey(c.makerPk) && IsKey(c.takerPk) && IsKey(c.brokerPk) && forall i :: 0 <= i < 5 ==> IsKey(c.oraclePks[i])
  {
    var keys := KeysOf(c);
    forall n | 0 <= n < 8 ensures IsKey(keys[n]) <==> IsHexKey(keys[n]) { KeyIff(keys[n]); }
    assert keys[0] == c.makerPk && keys[1] == c.takerPk && keys[2] == c.brokerPk;
    assert forall i :: 0 <= i < 5 ==> c.oraclePks[i] == keys[3 + i];
    assert forall n :: 3 <= n < 8 ==> keys[n] == c.oraclePks[n - 3];
  }

  lemma {:induction false} EightDifferent(c: Ctor)
    requires |c.oraclePks| == 5
    ensures |{c.makerPk, c.takerPk, c.brokerPk} + (set k | k in c.oraclePks)| == 8 <==>
      forall m, n :: 0 <= m < n < 8 ==> KeysOf(c)[m] != KeysOf(c)[n]
  {
    var keys := KeysOf(c);
    DistinctIff(keys);
    assert forall k :: k in keys <==> k == c.makerPk || k == c.takerPk || k == c.brokerPk || k in c.oraclePks by {
      assert keys[0] == c.makerPk && keys[1] == c.takerPk && keys[2] == c.brokerPk;
      assert forall k :: k in keys <==> k in [c.makerPk, c.takerPk, c.brokerPk] || k in c.oraclePks;
    }
    assert {c.makerPk, c.takerPk, c.brokerPk} + (set k | k in c.oraclePks) == (set k | k in keys);
  }

  /** A script compiles for eight different keys of 64 hexadecimal digits, a fee and rates in bounds, and positive stakes. */
  lemma {:induction false} ValidIff(c: Ctor)
    ensures ValidCtor(c) <==>
      && |c.oraclePks| == 5
      && (forall n :: 0 <= n < 8 ==> IsHexKey(KeysOf(c)[n]))
      && (forall m, n :: 0 <= m < n < 8 ==> KeysOf(c)[m] != KeysOf(c)[n])
      && 0 <= c.minerFee <= 10_000_000 && 0 <= c.brokerFeePct < 10_000 && 0 <= c.oracleFeePct < 10_000
      && 0 < c.deadline < 0x20_0000_0000_0000
      && 0 < c.makerStake < 0x20_0000_0000_0000 && 0 < c.takerStake < 0x20_0000_0000_0000
  {
    if |c.oraclePks| == 5 {
      EightKeys(c);
      EightDifferent(c);
    }
  }

  // ---------- the script ----------

  datatype Entry = SettleDispute | SettleConsensual | RefundBoth | RefundMakerUnjoined

  /** Entrypoints in declaration order; a spend names one by its position. */
  const ENTRIES: seq<Entry> := [SettleDispute, SettleConsensual, RefundBoth, RefundMakerUnjoined]

  datatype TxOut = TxOut(to: Key, value: int)

  datatype Spend = Spend(signers: seq<Key>, winner: int, inputs: seq<int>, outputs: seq<TxOut>, time: int)

  function Paid(outputs: seq<TxOut>): int {
    if outputs == [] then 0 else outputs[0].value + Paid(outputs[1..])
  }

  /** Division of script numbers and of BigInt: truncation towards zero. */
  function Quot(a: int, b: int): int
    requires b > 0
  {
    if a >= 0 then a / b else -(-a / b)
  }

  predicate Satisfies(c: Ctor, entry: Entry, tx: Spend) {
    && (forall i :: 0 <= i < |tx.outputs| ==> tx.outputs[i].value >= 0)
    && match entry
       case SettleDispute => SatisfiesDispute(c, tx)
       case SettleConsensual => SatisfiesConsensual(c, tx)
       case RefundBoth => SatisfiesRefundBoth(c, tx)
       case RefundMakerUnjoined => SatisfiesRefundUnjoined(c, tx)
  }

  predicate SatisfiesDispute(c: Ctor, tx: Spend) {
    && tx.signers == c.oraclePks && |c.oraclePks| == 5
    && (tx.winner == 0 || tx.winner == 1)
    && |tx.inputs| == 2 && |tx.outputs| == 7
    && var spendable := tx.inputs[0] + tx.inputs[1] - c.minerFee;
    && spendable * c.oracleFeePct >= ORACLE_FLOOR
    && var broker := Quot(spendable * c.brokerFeePct, 10000);
    && var oracles := Quot(spendable * c.oracleFeePct, 10000);
    && tx.outputs[0] == TxOut(if tx.winner == 0 then c.makerPk else c.takerPk, spendable - broker - oracles)
    && tx.outputs[1] == TxOut(c.brokerPk, broker)
    && forall i :: 0 <= i < 5 ==> tx.outputs[2 + i] == TxOut(c.oraclePks[i], Quot(oracles, 5))
  }

  predicate SatisfiesConsensual(c: Ctor, tx: Spend) {
    && tx.signers == [c.makerPk, c.takerPk]
    && (tx.winner == 0 || tx.winner == 1)
    && |tx.inputs| == 2
    && var spendable := tx.inputs[0] + tx.inputs[1] - c.minerFee;
    && var broker := Quot(spendable * c.brokerFeePct, 10000);
    && tx.outputs == [TxOut(if tx.winner == 0 then c.makerPk else c.takerPk, spendable - broker),
                      TxOut(c.brokerPk, broker)]
  }

  predicate SatisfiesRefundBoth(c: Ctor, tx: Spend) {
    && tx.signers == [c.makerPk]
    && tx.time >= c.deadline * 1000
    && |tx.inputs| == 2
    && var spendable := tx.inputs[0] + tx.inputs[1] - c.minerFee;
    && c.makerStake + c.takerStake > 0
    && var maker := Quot(spendable * c.makerStake, c.makerStake + c.takerStake);
    && tx.outputs == [TxOut(c.makerPk, maker), TxOut(c.takerPk, spendable - maker)]
  }

  predicate SatisfiesRefundUnjoined(c: Ctor, tx: Spend) {
    && tx.signers == [c.makerPk]
    && tx.time >= c.deadline * 1000
    && |tx.inputs| == 1
    && tx.outputs == [TxOut(c.makerPk, tx.inputs[0] - c.minerFee)]
  }

  // ---------- what the console sends ----------

  /** JavaScript's `parseInt(field) || fallback`. */
  function OrElse(n: int, fallback: int): int { if n == 0 then fallback else n }

  function RefundBothOutputs(maker: Key, taker: Key, c: Ctor): seq<TxOut> {
    var halfFee := OrElse(c.minerFee, 1_000_000) / 2;
    [TxOut(maker, c.makerStake - halfFee), TxOut(taker, c.takerStake - halfFee)]
  }

  function ConsensualOutputs(c: Ctor, winner: Key): seq<TxOut> {
    var spendable := c.makerStake + c.takerStake - OrElse(c.minerFee, 1_000_000);
    var broker := Quot(spendable * OrElse(c.brokerFeePct, 100), 10000);
    [TxOut(winner, spendable - broker), TxOut(c.brokerPk, broker)]
  }

  function DisputeOutputs(c: Ctor, winner: Key): seq<TxOut>
    requires |c.oraclePks| == 5
  {
    var spendable := c.makerStake + c.takerStake - OrElse(c.minerFee, 1_000_000);
    var broker := Quot(spendable * c.brokerFeePct, 10000);
    var oracles := Quot(spendable * OrElse(c.oracleFeePct, 100), 10000);
    [TxOut(winner, spendable - broker - oracles), TxOut(c.brokerPk, broker)]
    + seq(5, i requires 0 <= i < 5 => TxOut(c.oraclePks[i], Quot(oracles, 5)))
  }

  /** The relay's single-input refund withholds this much, whatever the script baked. */
  const RELAY_REFUND_FEE: int := 100_000

  // ---------- agreement ----------

  lemma {:induction false} QuotCancels(x: int, y: int, s: int)
    requires x >= 0 && y > 0 && s > 0
    ensures y * s > 0 && Quot(x * s, y * s) == x / y
  {
    var q, r := x / y, x % y;
    assert x == y * q + r;
    assert x * s == (y * s) * q + r * s;
    assert 0 <= r * s < y * s;
    QuotientIs(x * s, y * s, q, r * s);
  }

  lemma {:induction false} QuotientIs(n: int, d: int, q: int, r: int)
    requires d > 0 && 0 <= r < d && n == d * q + r
    ensures n / d == q
  {
    var q', r' := n / d, n % d;
    assert d * (q - q') == r' - r;
    assert q - q' >= 1 ==> d * (q - q') >= d;
    assert q - q' <= -1 ==> d * (q - q') <= -d;
  }

  /**
   * The entry meant for a refund of both stakes, with the equal stakes that publish-v2 bakes,
   * would accept it exactly when it pays the script's taker and the miner fee is even and within
   * the pot: the script rounds the maker's half down, the handler rounds the halved fee down, and
   * the two differ by one sompi on an odd fee.
   */
  lemma {:induction false} RefundBothWouldBeAcceptedIff(c: Ctor, taker: Key, time: int)
    requires c.minerFee != 0 && c.makerStake == c.takerStake >= 1 && time >= c.deadline * 1000
    ensures
      var tx := Spend([c.makerPk], 0, [c.makerStake, c.takerStake], RefundBothOutputs(c.makerPk, taker, c), time);
      Satisfies(c, RefundBoth, tx) <==> taker == c.takerPk && c.minerFee % 2 == 0 && c.minerFee / 2 <= c.makerStake
  {
    var s, f := c.makerStake, c.minerFee;
    var tx := Spend([c.makerPk], 0, [s, s], RefundBothOutputs(c.makerPk, taker, c), time);
    assert tx.outputs == [TxOut(c.makerPk, s - f / 2), TxOut(taker, s - f / 2)];
    assert tx.outputs[1].to == taker;
    if f / 2 <= s && 2 * s - f >= 0 {
      QuotCancels(2 * s - f, 2, s);
      assert Quot((2 * s - f) * s, s + s) == (2 * s - f) / 2;
    } else if f / 2 > s {
      assert tx.outputs[0].value < 0;
    } else {
      // An odd fee one above both stakes: nothing is left, and the script's split is negative.
      assert 2 * s - f == -1;
      assert (2 * s - f) * s == -s;
      assert Quot(-s, s + s) == 0 by { QuotientIs(s, s + s, 0, s); }
    }
  }

  /** What the refund leaves to the miners: the baked fee, less one sompi when it is odd. */
  lemma {:induction false} RefundBothConserves(c: Ctor)
    requires c.minerFee != 0
    ensures Paid(RefundBothOutputs(c.makerPk, c.takerPk, c)) + c.minerFee - c.minerFee % 2
            == c.makerStake + c.takerStake
  {
    var o := RefundBothOutputs(c.makerPk, c.takerPk, c);
    assert Paid(o) == o[0].value + Paid(o[1..]) && Paid(o[1..]) == o[1].value + Paid(o[2..]);
  }

  /**
   * Whatever refund of both stakes the script accepts: the maker alone signs, after the deadline,
   * and with equal stakes the two parties share what is left after the fee, to within one sompi.
   */
  lemma {:induction false} RefundBothSplitsEvenly(c: Ctor, tx: Spend)
    requires c.makerStake == c.takerStake >= 1 && Satisfies(c, RefundBoth, tx)
    ensures tx.signers == [c.makerPk] && c.deadline * 1000 <= tx.time && |tx.inputs| == 2 && |tx.outputs| == 2
    ensures tx.outputs[0].to == c.makerPk && tx.outputs[1].to == c.takerPk
    ensures tx.outputs[0].value + tx.outputs[1].value + c.minerFee == tx.inputs[0] + tx.inputs[1]
    ensures 0 <= tx.outputs[1].value - tx.outputs[0].value <= 1
  {
    var s, spendable := c.makerStake, tx.inputs[0] + tx.inputs[1] - c.minerFee;
    assert tx.outputs[0].value + tx.outputs[1].value == spendable;
    QuotCancels(spendable, 2, s);
    assert 2 * s == s + s;
  }

  /** A settlement is signed by both parties, or by all five oracles. */
  lemma {:induction false} SettlementSigners(c: Ctor, tx: Spend)
    ensures Satisfies(c, SettleConsensual, tx) ==>
      tx.signers == [c.makerPk, c.takerPk] && tx.winner in {0, 1} && |tx.inputs| == 2 && |tx.outputs| == 2
    ensures Satisfies(c, SettleDispute, tx) ==>
      tx.signers == c.oraclePks && |tx.signers| == 5 && tx.winner in {0, 1} && |tx.inputs| == 2 && |tx.outputs| == 7
  {
  }

  /** A product of fee points never exceeds the whole. */
  lemma {:induction false} ShareBounds(spendable: int, pct: int)
    requires 0 <= pct <= 9999
    ensures spendable >= 0 ==> 0 <= Quot(spendable * pct, 10000) <= spendable
    ensures spendable < 0 ==> spendable < Quot(spendable * pct, 10000) <= 0
  {
    if spendable >= 0 {
      assert 0 <= spendable * pct <= spendable * 9999;
    } else {
      assert 0 <= -spendable * pct <= -spendable * 9999;
      assert -(spendable * pct) == -spendable * pct;
    }
  }

  /** The key the script demands for the winner's output. */
  function WinnerKey(c: Ctor, winner: int): Key { if winner == 0 then c.makerPk else c.takerPk }

  /**
   * The consensual settlement is accepted exactly when it pays the script's winner and a broker
   * fee was baked (the settler reads a baked zero as one percent) or the pot is too small for one
   * percent to be a sompi.
   */
  lemma {:induction false} ConsensualAcceptedIff(c: Ctor, winner: int, to: Key)
    requires ValidCtor(c) && c.minerFee != 0 && (winner == 0 || winner == 1)
    ensures
      var tx := Spend([c.makerPk, c.takerPk], winner, [c.makerStake, c.takerStake], ConsensualOutputs(c, to), 0);
      var spendable := c.makerStake + c.takerStake - c.minerFee;
      Satisfies(c, SettleConsensual, tx) <==>
      to == WinnerKey(c, winner) && spendable >= 0 && (c.brokerFeePct != 0 || spendable < 100)
  {
    ConsensualSpendFits(c, winner, to);
  }

  lemma {:induction false} ConsensualSpendFits(c: Ctor, winner: int, to: Key)
    requires 0 <= c.brokerFeePct <= 9999 && c.minerFee != 0 && (winner == 0 || winner == 1)
    ensures
      var tx := Spend([c.makerPk, c.takerPk], winner, [c.makerStake, c.takerStake], ConsensualOutputs(c, to), 0);
      var spendable := c.makerStake + c.takerStake - c.minerFee;
      Satisfies(c, SettleConsensual, tx) <==>
      to == WinnerKey(c, winner) && spendable >= 0 && (c.brokerFeePct != 0 || spendable < 100)
  {
    var spendable := c.makerStake + c.takerStake - c.minerFee;
    var sent := Quot(spendable * OrElse(c.brokerFeePct, 100), 10000);
    var baked := Quot(spendable * c.brokerFeePct, 10000);
    ShareBounds(spendable, OrElse(c.brokerFeePct, 100));
    ShareBounds(spendable, c.brokerFeePct);
    var o := ConsensualOutputs(c, to);
    assert o[0].to == to;
    assert o == [TxOut(to, spendable - sent), TxOut(c.brokerPk, sent)];
    assert spendable < 0 ==> o[0].value < 0;
    if spendable >= 0 {
      assert c.brokerFeePct == 0 ==> baked == 0 && sent == spendable / 100;
      assert o == [TxOut(to, spendable - baked), TxOut(c.brokerPk, baked)] <==> o[1].value == baked;
    }
  }

  /** Whatever the fees, a consensual settlement pays out the whole pot less the miner fee. */
  lemma {:induction false} ConsensualConserves(c: Ctor, winner: Key)
    requires c.minerFee != 0
    ensures Paid(ConsensualOutputs(c, winner)) + c.minerFee == c.makerStake + c.takerStake
  {
    var o := ConsensualOutputs(c, winner);
    assert Paid(o) == o[0].value + Paid(o[1..]) && Paid(o[1..]) == o[1].value + Paid(o[2..]);
  }

  /**
   * The dispute settlement is accepted exactly when it pays the script's winner, the pot meets the
   * script's floor for the five oracle outputs and the two fee rates are at most the whole.
   */
  lemma {:induction false} DisputeAcceptedIff(c: Ctor, winner: int, to: Key)
    requires ValidCtor(c) && c.minerFee != 0 && (winner == 0 || winner == 1)
    ensures
      var tx := Spend(c.oraclePks, winner, [c.makerStake, c.takerStake], DisputeOutputs(c, to), 0);
      var spendable := c.makerStake + c.takerStake - c.minerFee;
      Satisfies(c, SettleDispute, tx) <==>
      to == WinnerKey(c, winner) && spendable * c.oracleFeePct >= 1_250_000_000_000 && c.brokerFeePct + c.oracleFeePct <= 10000
  {
    var spendable := c.makerStake + c.takerStake - c.minerFee;
    if spendable * c.oracleFeePct >= ORACLE_FLOOR {
      assert c.oracleFeePct != 0;
      assert Quot(spendable * c.brokerFeePct, 10000) >= 0 && Quot(spendable * c.oracleFeePct, 10000) >= 0
        && (Quot(spendable * c.brokerFeePct, 10000) + Quot(spendable * c.oracleFeePct, 10000) <= spendable
            <==> c.brokerFeePct + c.oracleFeePct <= 10000)
      by {
        FloorMeansLargePot(spendable, c.oracleFeePct);
        ShareBounds(spendable, c.brokerFeePct);
        ShareBounds(spendable, c.oracleFeePct);
        TwoShares(spendable, c.brokerFeePct, c.oracleFeePct);
      }
      DisputeSpendFits(c, winner, to, spendable);
    }
  }

  lemma {:induction false} DisputeSpendFits(c: Ctor, winner: int, to: Key, spendable: int)
    requires |c.oraclePks| == 5 && c.oracleFeePct != 0 && c.minerFee != 0 && (winner == 0 || winner == 1)
    requires spendable == c.makerStake + c.takerStake - c.minerFee
    requires spendable * c.oracleFeePct >= ORACLE_FLOOR
    requires 0 <= Quot(spendable * c.brokerFeePct, 10000) && 0 <= Quot(spendable * c.oracleFeePct, 10000)
    ensures
      var tx := Spend(c.oraclePks, winner, [c.makerStake, c.takerStake], DisputeOutputs(c, to), 0);
      Satisfies(c, SettleDispute, tx) <==>
      to == WinnerKey(c, winner) &&
      Quot(spendable * c.brokerFeePct, 10000) + Quot(spendable * c.oracleFeePct, 10000) <= spendable
  {
    var o := DisputeOutputs(c, to);
    var broker := Quot(spendable * c.brokerFeePct, 10000);
    var oracles := Quot(spendable * c.oracleFeePct, 10000);
    assert o[0] == TxOut(to, spendable - broker - oracles);
    assert forall i :: 0 <= i < 5 ==> o[2 + i] == TxOut(c.oraclePks[i], Quot(oracles, 5));
    assert forall i :: 1 <= i < 7 ==> o[i].value >= 0;
  }

  lemma {:induction false} FloorMeansLargePot(spendable: int, pct: int)
    requires 0 <= pct <= 9999 && spendable * pct >= ORACLE_FLOOR
    ensures spendable > 100_000_000
  {
    assert spendable <= 100_000_000 ==> spendable * pct <= 100_000_000 * pct;
  }

  /** On a large pot two rounded shares fit into the whole exactly when their rates do. */
  lemma {:induction false} TwoShares(spendable: int, b: int, o: int)
    requires spendable > 100_000_000 && 0 <= b && 0 <= o
    ensures Quot(spendable * b, 10000) + Quot(spendable * o, 10000) <= spendable <==> b + o <= 10000
  {
    var x, y := spendable * b, spendable * o;
    assert x >= 0 && y >= 0;
    assert x + y == spendable * (b + o);
    RateOfPot(spendable, b + o);
    TwoQuotients(x, y, spendable);
  }

  lemma {:induction false} RateOfPot(spendable: int, rate: int)
    requires spendable > 0
    ensures rate <= 10000 ==> spendable * rate <= spendable * 10000
    ensures rate > 10000 ==> spendable * rate >= spendable * 10001
  {
  }

  lemma {:induction false} TwoQuotients(x: int, y: int, whole: int)
    requires x >= 0 && y >= 0 && whole > 20000
    ensures x + y <= whole * 10000 ==> Quot(x, 10000) + Quot(y, 10000) <= whole
    ensures x + y >= whole * 10001 ==> Quot(x, 10000) + Quot(y, 10000) > whole
  {
  }

  /** The five equal oracle payments leave at most four sompi of the pot to the miners. */
  lemma {:induction false} DisputeConserves(c: Ctor, winner: Key)
    requires ValidCtor(c) && c.minerFee != 0 && c.makerStake + c.takerStake >= c.minerFee
    ensures
      var oracles := Quot((c.makerStake + c.takerStake - c.minerFee) * OrElse(c.oracleFeePct, 100), 10000);
      Paid(DisputeOutputs(c, winner)) + c.minerFee + oracles % 5 == c.makerStake + c.takerStake
  {
    var spendable := c.makerStake + c.takerStake - c.minerFee;
    var pct := OrElse(c.oracleFeePct, 100);
    ShareBounds(spendable, pct);
    var oracles := Quot(spendable * pct, 10000);
    var o := DisputeOutputs(c, winner);
    PaidOfSeven(o);
    assert Quot(oracles, 5) * 5 + oracles % 5 == oracles;
  }

  lemma {:induction false} PaidOfSeven(o: seq<TxOut>)
    requires |o| == 7
    ensures Paid(o) == o[0].value + o[1].value + o[2].value + o[3].value + o[4].value + o[5].value + o[6].value
  {
    assert Paid(o) == o[0].value + Paid(o[1..]);
    assert Paid(o[1..]) == o[1].value + Paid(o[2..]);
    assert Paid(o[2..]) == o[2].value + Paid(o[3..]);
    assert Paid(o[3..]) == o[3].value + Paid(o[4..]);
    assert Paid(o[4..]) == o[4].value + Paid(o[5..]);
    assert Paid(o[5..]) == o[5].value + Paid(o[6..]);
    assert Paid(o[6..]) == o[6].value + Paid(o[7..]);
  }

  /** The entry meant for the one-sided refund would accept it exactly when the relay's fixed fee is the baked one. */
  lemma {:induction false} UnjoinedWouldBeAcceptedIff(c: Ctor, locked: int, time: int)
    requires locked > RELAY_REFUND_FEE && time >= c.deadline * 1000
    ensures
      var tx := Spend([c.makerPk], 0, [locked], [TxOut(c.makerPk, locked - RELAY_REFUND_FEE)], time);
      Satisfies(c, RefundMakerUnjoined, tx) <==> c.minerFee == 100_000
  {
    var tx := Spend([c.makerPk], 0, [locked], [TxOut(c.makerPk, locked - RELAY_REFUND_FEE)], time);
    assert tx.outputs[0].value == locked - RELAY_REFUND_FEE;
  }

  /**
   * That entry does not say whose input it spends: after the deadline the maker's signature alone
   * returns any one payment into the script to the maker, less the fee.
   */
  lemma {:induction false} UnjoinedTakesAnyInputIff(c: Ctor, amount: int, time: int)
    ensures
      var tx := Spend([c.makerPk], 0, [amount], [TxOut(c.makerPk, amount - c.minerFee)], time);
      Satisfies(c, RefundMakerUnjoined, tx) <==> time >= c.deadline * 1000 && amount >= c.minerFee
  {
    var tx := Spend([c.makerPk], 0, [amount], [TxOut(c.makerPk, amount - c.minerFee)], time);
    assert tx.outputs[0].value == amount - c.minerFee;
  }

  /**
   * The branch numbers the refund handler sends (1 for both stakes, 2 for the maker's alone) are
   * positions of an older script.  At those positions the script has other entries: the first
   * wants two signers, the second two inputs.
   */
  lemma {:induction false} RefundBranchesMissTheirEntries(c: Ctor, both: Spend, alone: Spend)
    requires |both.signers| == 1 && |alone.inputs| == 1
    ensures ENTRIES == [SettleDispute, SettleConsensual, RefundBoth, RefundMakerUnjoined]
    ensures !Satisfies(c, ENTRIES[1], both) && !Satisfies(c, ENTRIES[2], alone)
  {
    assert |[c.makerPk, c.takerPk]| == 2;
  }
}
