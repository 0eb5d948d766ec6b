/**
 * The check that a market's bettors have already been refunded: the refunds listed in the
 * market's metadata are compared with the actual bettor sides, through a map, a set and two
 * length tests.
 */
module RefundEvidence {
  import opened Common
  import opened Sums

  /** A bettor side, and a refund entry; amounts are their decimal texts. */
  datatype Side = Side(pk: string, stake: string)

  datatype Refund = Refund(pk: string, amount: string)

  /** A refund entry that is not an object with a text key is None; so are fields of a wrong type. */
  datatype Evidence = Evidence(complete: bool, cancelTxid: Option<string>, refunds: Option<seq<Option<Refund>>>)

  /**
   * The metadata text: not JSON, the text `null` (whose fields cannot be read), or a value with or
   * without an evidence object.
   */
  datatype Metadata = Unparsable | JsonNull | Parsed(evidence: Option<Evidence>)

  /** The evidence object, if there is one. */
  function EvidenceOf(m: Metadata): Option<Evidence> { if m.Parsed? then m.evidence else None }

  function LowerChar(c: char): char {
    if 'A' <= c <= 'Z' then (c as int + 32) as char else c
  }

  function Lower(s: string): (r: string)
    ensures |r| == |s|
  {
    seq(|s|, i requires 0 <= i < |s| => LowerChar(s[i]))
  }

  predicate IsHex64(s: string) {
    && |s| == 64
    && forall i :: 0 <= i < 64 ==> IsHex(s[i])
  }

  // ---------- what the evidence should mean ----------

  /** A key, lower-cased, and an amount. */
  datatype Entry = Entry(key: string, amount: string)

  function SideEntries(sides: seq<Side>): (r: seq<Entry>)
    ensures |r| == |sides|
  {
    seq(|sides|, i requires 0 <= i < |sides| => Entry(Lower(sides[i].pk), sides[i].stake))
  }

  function RefundEntry(r: Refund): Entry { Entry(Lower(r.pk), r.amount) }

  function RefundEntries(refunds: seq<Option<Refund>>): (r: seq<Entry>)
    requires forall i :: 0 <= i < |refunds| ==> refunds[i].Some?
    ensures |r| == |refunds|
  {
    seq(|refunds|, i requires 0 <= i < |refunds| => RefundEntry(refunds[i].value))
  }

  predicate DistinctKeys(entries: seq<Entry>) {
    forall i, j :: 0 <= i < j < |entries| ==> entries[i].key != entries[j].key
  }

  /** The header is final: marked complete, with a transaction id of 64 hexadecimal digits. */
  predicate WellFormed(ev: Option<Evidence>) {
    && ev.Some? && ev.value.complete
    && ev.value.cancelTxid.Some? && IsHex64(ev.value.cancelTxid.value)
    && ev.value.refunds.Some?
    && forall i :: 0 <= i < |ev.value.refunds.value| ==> ev.value.refunds.value[i].Some?
  }

  /** The refunds are the sides, in some order, and no key occurs twice. */
  predicate Covers(ev: Option<Evidence>, sides: seq<Side>) {
    && WellFormed(ev)
    && DistinctKeys(SideEntries(sides))
    && multiset(RefundEntries(ev.value.refunds.value)) == multiset(SideEntries(sides))
  }

  // ---------- the map of the checker ----------

  function Keys(entries: seq<Entry>): set<string> { set e | e in entries :: e.key }

  lemma {:induction false} KeysOfAppend(init: seq<Entry>, last: Entry)
    ensures Keys(init + [last]) == Keys(init) + {last.key}
  {
    assert forall e :: e in init + [last] <==> e in init || e == last;
  }

  /** `new Map(sides.map(...))`: a repeated key keeps its last amount. */
  function StakeByKey(entries: seq<Entry>): (m: map<string, string>)
    ensures m.Keys == Keys(entries)
    ensures forall k :: k in m ==> Entry(k, m[k]) in entries
  {
    if entries == [] then map[]
    else
      var init, last := entries[..|entries| - 1], entries[|entries| - 1];
      assert entries == init + [last];
      KeysOfAppend(init, last);
      StakeByKey(init)[last.key := last.amount]
  }

  lemma {:induction false} SharedKey(entries: seq<Entry>, i: nat, j: nat)
    requires i < j < |entries| && entries[i].key == entries[j].key
    ensures !DistinctKeys(entries)
  {
  }

  lemma {:induction false} DistinctAppend(init: seq<Entry>, last: Entry)
    ensures DistinctKeys(init + [last]) <==> DistinctKeys(init) && last.key !in Keys(init)
  {
    var all := init + [last];
    assert forall i :: 0 <= i < |init| ==> all[i] == init[i] && init[i] in init;
    if last.key in Keys(init) {
      var e :| e in init && e.key == last.key;
      var i :| 0 <= i < |init| && init[i] == e;
      SharedKey(all, i, |init|);
    }
  }

  /** The pigeonhole: there are as many keys as entries exactly when no key repeats. */
  lemma {:induction false} KeysCount(entries: seq<Entry>)
    ensures |Keys(entries)| <= |entries|
    ensures |Keys(entries)| == |entries| <==> DistinctKeys(entries)
  {
    if entries != [] {
      var init, last := entries[..|entries| - 1], entries[|entries| - 1];
      assert entries == init + [last];
      KeysCount(init);
      KeysOfAppend(init, last);
      DistinctAppend(init, last);
    }
  }

  // ---------- permutations ----------

  lemma {:induction false} PermutationKeepsDistinct(a: seq<Entry>, b: seq<Entry>)
    requires DistinctKeys(a) && multiset(a) == multiset(b)
    ensures DistinctKeys(b)
  {
    assert forall e :: e in a <==> e in multiset(a);
    assert forall e :: e in b <==> e in multiset(b);
    assert Keys(a) == Keys(b);
    assert |a| == |multiset(a)| && |b| == |multiset(b)|;
    KeysCount(a);
    KeysCount(b);
  }

  lemma {:induction false} DistinctMeansOnce(a: seq<Entry>, e: Entry)
    requires DistinctKeys(a)
    ensures multiset(a)[e] <= 1
  {
    if a != [] {
      var init, last := a[..|a| - 1], a[|a| - 1];
      assert a == init + [last];
      DistinctMeansOnce(init, e);
      forall i | 0 <= i < |init| ensures init[i] != last {
        assert a[i].key != a[|a| - 1].key;
      }
    }
  }

  /** Equally many entries with distinct keys, each one of the others, are a permutation. */
  lemma {:induction false} DistinctSubsetIsPermutation(a: seq<Entry>, b: seq<Entry>)
    requires DistinctKeys(a) && |a| == |b|
    requires forall e :: e in a ==> e in b
    ensures multiset(a) == multiset(b)
  {
    forall e ensures multiset(a)[e] <= multiset(b)[e] {
      DistinctMeansOnce(a, e);
      assert e in multiset(a) <==> e in a;
      assert e in multiset(b) <==> e in b;
    }
    var extra := multiset(b) - multiset(a);
    assert multiset(b) == multiset(a) + extra;
    assert |extra| == 0;
  }

  // ---------- the checker ----------

  /** What the loop knows after reading the first entries: they are sides, each with its own key. */
  ghost predicate Matched(read: seq<Entry>, sides: seq<Entry>, seen: set<string>) {
    && DistinctKeys(read)
    && seen == Keys(read)
    && forall e :: e in read ==> e in sides
  }

  ghost predicate Progress(refunds: seq<Option<Refund>>, n: nat, sides: seq<Entry>, seen: set<string>) {
    && n <= |refunds|
    && (forall i :: 0 <= i < n ==> refunds[i].Some?)
    && Matched(RefundEntries(refunds[..n]), sides, seen)
  }

  datatype Verdict = Accepts | Rejects | Throws

  function VerdictOf(m: Metadata, sides: seq<Side>): Verdict {
    if m.JsonNull? then Throws else if Covers(EvidenceOf(m), sides) then Accepts else Rejects
  }

  /**
   * The checker accepts exactly when the header is well formed and the refunds are a permutation
   * of the sides by lower-cased key and exact amount, with no key repeated among the sides; it
   * throws exactly on the metadata text `null`.
   */
  method HasVerifiedEvidence(m: Metadata, sides: seq<Side>) returns (v: Verdict)
    ensures v == VerdictOf(m, sides)
  {
    if m.JsonNull? { return Throws; }
    if m.Unparsable? || m.evidence.None? { return Rejects; }
    var ok := EvidenceCovers(m.evidence, sides);
    return if ok then Accepts else Rejects;
  }

  /** The rest of the checker, once an evidence object is there. */
  method EvidenceCovers(m: Option<Evidence>, sides: seq<Side>) returns (ok: bool)
    requires m.Some?
    ensures ok <==> Covers(m, sides)
  {
    var ev := m.value;
    if !ev.complete { return false; }
    if ev.cancelTxid.None? || !IsHex64(ev.cancelTxid.value) { return false; }
    if ev.refunds.None? { return false; }
    var refunds := ev.refunds.value;
    if |refunds| != |sides| {
      LengthsDiffer(m, sides);
      return false;
    }
    var expected := StakeByKey(SideEntries(sides));
    var seen: set<string> := {};
    var n := 0;
    while n < |refunds|
      invariant Progress(refunds, n, SideEntries(sides), seen)
    {
      if refunds[n].None? { return false; }
      var pk := Lower(refunds[n].value.pk);
      if pk in seen {
        RepeatedRefund(m, sides, n);
        return false;
      }
      if pk !in expected || refunds[n].value.amount != expected[pk] {
        UnexpectedRefund(m, sides, n);
        return false;
      }
      OneMore(refunds, n, SideEntries(sides), seen);
      seen := seen + {pk};
      n := n + 1;
    }
    AllMatchedCovers(m, sides, seen);
    ok := |seen| == |sides|;
  }

  lemma {:induction false} LengthsDiffer(m: Option<Evidence>, sides: seq<Side>)
    requires m.Some? && m.value.refunds.Some? && |m.value.refunds.value| != |sides|
    ensures !Covers(m, sides)
  {
    assert WellFormed(m) ==> |multiset(RefundEntries(m.value.refunds.value))| == |m.value.refunds.value|;
    assert |multiset(SideEntries(sides))| == |sides|;
  }

  lemma {:induction false} OneMore(refunds: seq<Option<Refund>>, n: nat, sides: seq<Entry>, seen: set<string>)
    requires Progress(refunds, n, sides, seen) && n < |refunds| && refunds[n].Some?
    requires var e := RefundEntry(refunds[n].value);
      e.key !in seen && e.key in StakeByKey(sides) && StakeByKey(sides)[e.key] == e.amount
    ensures Progress(refunds, n + 1, sides, seen + {RefundEntry(refunds[n].value).key})
  {
    var read, e := RefundEntries(refunds[..n]), RefundEntry(refunds[n].value);
    assert RefundEntries(refunds[..n + 1]) == read + [e];
    KeysOfAppend(read, e);
    assert forall i :: 0 <= i < |read| ==> read[i] in read;
    assert forall x :: x in read + [e] <==> x in read || x == e;
  }

  /** In covering evidence no entry repeats the key of an earlier one. */
  lemma {:induction false} RepeatedRefund(m: Option<Evidence>, sides: seq<Side>, n: nat)
    requires m.Some? && m.value.refunds.Some?
    requires var refunds := m.value.refunds.value;
      && n < |refunds|
      && (forall i :: 0 <= i <= n ==> refunds[i].Some?)
      && RefundEntry(refunds[n].value).key in Keys(RefundEntries(refunds[..n]))
    ensures !Covers(m, sides)
  {
    var refunds := m.value.refunds.value;
    var earlier := RefundEntries(refunds[..n]);
    var e :| e in earlier && e.key == RefundEntry(refunds[n].value).key;
    var i :| 0 <= i < n && earlier[i] == e;
    if Covers(m, sides) {
      SharedKey(RefundEntries(refunds), i, n);
      PermutationKeepsDistinct(SideEntries(sides), RefundEntries(refunds));
      assert false;
    }
  }

  /** In covering evidence every entry is a side, and the map holds that side's amount. */
  lemma {:induction false} UnexpectedRefund(m: Option<Evidence>, sides: seq<Side>, n: nat)
    requires m.Some? && m.value.refunds.Some?
    requires n < |m.value.refunds.value| && m.value.refunds.value[n].Some?
    requires
      var e := RefundEntry(m.value.refunds.value[n].value);
      var expected := StakeByKey(SideEntries(sides));
      e.key in expected ==> e.amount != expected[e.key]
    ensures !Covers(m, sides)
  {
    if Covers(m, sides) {
      var a, b := RefundEntries(m.value.refunds.value), SideEntries(sides);
      assert a[n] in multiset(a);
      assert a[n] in b;
      MapHoldsTheAmount(b, a[n]);
      assert false;
    }
  }

  lemma {:induction false} MapHoldsTheAmount(entries: seq<Entry>, e: Entry)
    requires DistinctKeys(entries) && e in entries
    ensures e.key in StakeByKey(entries) && StakeByKey(entries)[e.key] == e.amount
  {
    assert e.key in Keys(entries);
    var e' := Entry(e.key, StakeByKey(entries)[e.key]);
    var i :| 0 <= i < |entries| && entries[i] == e;
    var j :| 0 <= j < |entries| && entries[j] == e';
    assert i == j;
  }

  /** As many distinct refunds as sides, each of them a side, leave no side out. */
  lemma {:induction false} AllMatchedCovers(m: Option<Evidence>, sides: seq<Side>, seen: set<string>)
    requires m.Some? && m.value.complete && m.value.refunds.Some? && |m.value.refunds.value| == |sides|
    requires m.value.cancelTxid.Some? && IsHex64(m.value.cancelTxid.value)
    requires Progress(m.value.refunds.value, |sides|, SideEntries(sides), seen)
    ensures Covers(m, sides) && |seen| == |sides|
  {
    assert m.value.refunds.value[..|sides|] == m.value.refunds.value;
    var a, b := RefundEntries(m.value.refunds.value), SideEntries(sides);
    KeysCount(a);
    DistinctSubsetIsPermutation(a, b);
    PermutationKeepsDistinct(a, b);
  }

  // ---------- the verdict on the raw texts ----------

  /** One character, or one ASCII letter in its two cases. */
  predicate SameLetter(a: char, b: char) {
    || a == b
    || ('A' <= a <= 'Z' && 'a' <= b <= 'z' && a as int - 'A' as int == b as int - 'a' as int)
    || ('a' <= a <= 'z' && 'A' <= b <= 'Z' && a as int - 'a' as int == b as int - 'A' as int)
  }

  predicate SameKey(s: string, t: string) { |s| == |t| && forall i :: 0 <= i < |s| ==> SameLetter(s[i], t[i]) }

  lemma {:induction false} LowerSameIff(s: string, t: string)
    ensures Lower(s) == Lower(t) <==> SameKey(s, t)
  {
    if |s| == |t| {
      forall i | 0 <= i < |s| ensures Lower(s)[i] == Lower(t)[i] <==> SameLetter(s[i], t[i]) {
      }
      if Lower(s) == Lower(t) {
        assert forall i :: 0 <= i < |s| ==> Lower(s)[i] == Lower(t)[i];
      }
    }
  }

  lemma {:induction false} TxidIff(s: string)
    ensures IsHex64(s) <==> |s| == 64 && forall i :: 0 <= i < |s| ==> s[i] in HEX_DIGITS
  {
    forall i | 0 <= i < |s| ensures IsHex(s[i]) <==> s[i] in HEX_DIGITS { HexIff(s[i]); }
  }

  /** A final header: complete, a transaction id of 64 hexadecimal digits, and as many entries as sides. */
  predicate FinalHeader(ev: Evidence, n: nat) {
    && ev.complete && ev.cancelTxid.Some? && |ev.cancelTxid.value| == 64
    && (forall i :: 0 <= i < |ev.cancelTxid.value| ==> ev.cancelTxid.value[i] in HEX_DIGITS)
    && ev.refunds.Some? && |ev.refunds.value| == n && forall i :: 0 <= i < n ==> ev.refunds.value[i].Some?
  }

  predicate OneEach(sides: seq<Side>) {
    forall i, j :: 0 <= i < j < |sides| ==> !SameKey(sides[i].pk, sides[j].pk)
  }

  /** `p` sends the refunds to the sides, one to one, by key up to case and by exact amount. */
  predicate Matches(refunds: seq<Option<Refund>>, sides: seq<Side>, p: seq<nat>)
    requires |refunds| == |sides| && forall i :: 0 <= i < |refunds| ==> refunds[i].Some?
  {
    && |p| == |sides|
    && (forall i :: 0 <= i < |p| ==>
          && p[i] < |sides|
          && SameKey(refunds[i].value.pk, sides[p[i]].pk) && refunds[i].value.amount == sides[p[i]].stake)
    && forall i, j :: 0 <= i < j < |p| ==> p[i] != p[j]
  }

  lemma {:induction false} OneEachIff(sides: seq<Side>)
    ensures DistinctKeys(SideEntries(sides)) <==> OneEach(sides)
  {
    forall i, j | 0 <= i < j < |sides|
      ensures SideEntries(sides)[i].key == SideEntries(sides)[j].key <==> SameKey(sides[i].pk, sides[j].pk)
    {
      LowerSameIff(sides[i].pk, sides[j].pk);
    }
    if !OneEach(sides) {
      var i, j :| 0 <= i < j < |sides| && SameKey(sides[i].pk, sides[j].pk);
      assert SideEntries(sides)[i].key == SideEntries(sides)[j].key;
    }
  }

  lemma {:induction false} SameEntryIff(r: Refund, s: Side)
    ensures RefundEntry(r) == Entry(Lower(s.pk), s.stake) <==> SameKey(r.pk, s.pk) && r.amount == s.stake
  {
    LowerSameIff(r.pk, s.pk);
  }

  /** Covering evidence comes with a matching. */
  lemma {:induction false} CoveringMatches(refunds: seq<Option<Refund>>, sides: seq<Side>)
    requires forall i :: 0 <= i < |refunds| ==> refunds[i].Some?
    requires DistinctKeys(SideEntries(sides))
    requires multiset(RefundEntries(refunds)) == multiset(SideEntries(sides))
    ensures |refunds| == |sides| && exists p :: Matches(refunds, sides, p)
  {
    var a, b := RefundEntries(refunds), SideEntries(sides);
    assert |a| == |multiset(a)| && |b| == |multiset(b)|;
    PermutationKeepsDistinct(b, a);
    forall i | 0 <= i < |a| ensures a[i] in b {
      assert a[i] in multiset(a);
    }
    var p := PlacesOf(a, b);
    forall i | 0 <= i < |p| ensures SameKey(refunds[i].value.pk, sides[p[i]].pk) && refunds[i].value.amount == sides[p[i]].stake {
      SameEntryIff(refunds[i].value, sides[p[i]]);
    }
    assert forall i, j :: 0 <= i < j < |p| ==> a[i].key != a[j].key;
    assert Matches(refunds, sides, p);
  }

  /** For each entry of `a`, where it first stands in `b`. */
  function PlacesOf(a: seq<Entry>, b: seq<Entry>): (p: seq<nat>)
    requires forall i :: 0 <= i < |a| ==> a[i] in b
    ensures |p| == |a| && forall i :: 0 <= i < |a| ==> p[i] < |b| && b[p[i]] == a[i]
  {
    seq(|a|, i requires 0 <= i < |a| => assert a[i] in b; FirstIndex(b, a[i]))
  }

  lemma {:induction false} MatchingCovers(refunds: seq<Option<Refund>>, sides: seq<Side>, p: seq<nat>)
    requires |refunds| == |sides| && forall i :: 0 <= i < |refunds| ==> refunds[i].Some?
    requires DistinctKeys(SideEntries(sides)) && Matches(refunds, sides, p)
    ensures multiset(RefundEntries(refunds)) == multiset(SideEntries(sides))
  {
    var a, b := RefundEntries(refunds), SideEntries(sides);
    forall i | 0 <= i < |a| ensures a[i] == b[p[i]] {
      SameEntryIff(refunds[i].value, sides[p[i]]);
    }
    forall i, j | 0 <= i < j < |a| ensures a[i].key != a[j].key {
      assert b[p[i]].key != b[p[j]].key;
    }
    DistinctSubsetIsPermutation(a, b);
  }

  /**
   * The verdict, on the texts as they stand: evidence is accepted exactly when its header is
   * final, no key occurs twice among the sides, and refunds and sides match one to one, keys equal
   * up to the case of ASCII letters and amounts equal.
   */
  lemma {:induction false} AcceptsIff(m: Metadata, sides: seq<Side>)
    ensures VerdictOf(m, sides) == Accepts <==>
      && m.Parsed? && m.evidence.Some? && FinalHeader(m.evidence.value, |sides|) && OneEach(sides)
      && exists p :: Matches(m.evidence.value.refunds.value, sides, p)
    ensures VerdictOf(m, sides) == Throws <==> m == JsonNull
  {
    OneEachIff(sides);
    if m.Parsed? && m.evidence.Some? && m.evidence.value.cancelTxid.Some? { TxidIff(m.evidence.value.cancelTxid.value); }
    if m.Parsed? && WellFormed(m.evidence) && OneEach(sides) {
      var refunds := m.evidence.value.refunds.value;
      if Covers(m.evidence, sides) { CoveringMatches(refunds, sides); }
      if |refunds| == |sides| && exists p :: Matches(refunds, sides, p) {
        var p :| Matches(refunds, sides, p);
        MatchingCovers(refunds, sides, p);
      }
    }
  }

  // ---------- money ----------

  /** The total under any reading of amounts as integers. */
  function Total(amount: string -> int, entries: seq<Entry>): int { Sum((e: Entry) => amount(e.amount), entries) }

  /** Accepted evidence refunds exactly what was staked, however amounts are read. */
  lemma {:induction false} CoveringRefundsTheStakes(amount: string -> int, m: Option<Evidence>, sides: seq<Side>)
    requires Covers(m, sides)
    ensures Total(amount, RefundEntries(m.value.refunds.value)) == Total(amount, SideEntries(sides))
  {
    SumIgnoresOrder((e: Entry) => amount(e.amount), RefundEntries(m.value.refunds.value), SideEntries(sides));
  }
}
