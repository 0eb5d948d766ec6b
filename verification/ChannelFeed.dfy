/**
 * The polling subscription of the channel client, against the server's append-only channel log.
 */
module ChannelFeed {
  import opened Common

  type TxId = string

  datatype Message = Message(txid: TxId, stamp: int)

  /** The public messages of one channel, in the order of their creation stamps. */
  type Log = seq<Message>

  const POLL_LIMIT := 50

  // ---------- the server ----------

  function IndexOf(log: Log, txid: TxId): (i: nat)
    ensures i <= |log|
    ensures i < |log| ==> log[i].txid == txid
    ensures forall j :: 0 <= j < i ==> log[j].txid != txid
  {
    if log == [] || log[0].txid == txid then 0 else 1 + IndexOf(log[1..], txid)
  }

  function Newer(log: Log, stamp: int): Log {
    if log == [] then [] else (if log[0].stamp > stamp then [log[0]] else []) + Newer(log[1..], stamp)
  }

  /** The messages created after the cursor's; all of them when the cursor is absent or unknown. */
  function Fetch(log: Log, since: Option<TxId>, limit: nat): Log {
    var i := if since.Some? then IndexOf(log, since.value) else |log|;
    var rows := if i < |log| then Newer(log, log[i].stamp) else log;
    rows[..if limit < |rows| then limit else |rows|]
  }

  /** `cursor` of the reply: the id of its last message. */
  function LastId(messages: Log): Option<TxId> {
    if messages == [] then None else Some(messages[|messages| - 1].txid)
  }

  // ---------- the subscription ----------

  datatype Phase =
    | Starting            // the first fetch is out
    | Scheduled           // a tick is due
    | Polling(asked: nat) // a poll is out, sent when the log had this length
    | Ended               // nothing more will happen

  datatype Sub = Sub(cursor: Option<TxId>, stopped: bool, phase: Phase, delivered: Log)

  /** A reply answers from the log as it was at some moment since the request; None is a failure. */
  datatype Event =
    | Append(m: Message)
    | FirstReply(seen: Option<nat>)
    | Tick
    | PollReply(seen: Option<nat>)
    | Stop

  datatype World = World(log: Log, sub: Sub)

  const START := Sub(None, false, Starting, [])

  function OnFirst(s: Sub, reply: Option<Log>): Sub {
    match reply
    case None => s.(phase := Ended)
    case Some(messages) => s.(cursor := LastId(messages), phase := Scheduled)
  }

  function OnTick(s: Sub, asked: nat): Sub {
    s.(phase := if s.stopped then Ended else Polling(asked))
  }

  function OnPoll(s: Sub, reply: Option<Log>): Sub {
    var next := if s.stopped then Ended else Scheduled;
    match reply
    case None => s.(phase := next)
    case Some(messages) =>
      s.(delivered := s.delivered + messages,
         cursor := if LastId(messages).Some? then LastId(messages) else s.cursor,
         phase := next)
  }

  /** Events that cannot happen in a state leave it as it is. */
  function Step(w: World, e: Event): World {
    var World(log, s) := w;
    match e
    case Append(m) => World(log + [m], s)
    case Stop => World(log, s.(stopped := true))
    case Tick => if s.phase.Scheduled? then World(log, OnTick(s, |log|)) else w
    case FirstReply(seen) =>
      if !s.phase.Starting? then w
      else if seen.None? then World(log, OnFirst(s, None))
      else if seen.value <= |log| then World(log, OnFirst(s, Some(Fetch(log[..seen.value], None, 1))))
      else w
    case PollReply(seen) =>
      if !s.phase.Polling? then w
      else if seen.None? then World(log, OnPoll(s, None))
      else if s.phase.asked <= seen.value <= |log| then
        World(log, OnPoll(s, Some(Fetch(log[..seen.value], s.cursor, POLL_LIMIT))))
      else w
  }

  function Run(w: World, events: seq<Event>): World {
    if events == [] then w else Step(Run(w, events[..|events| - 1]), events[|events| - 1])
  }

  class Subscription {
    var cursor: Option<TxId>
    var stopped: bool
    var phase: Phase
    var delivered: Log

    function View(): Sub
      reads this
    {
      Sub(cursor, stopped, phase, delivered)
    }

    constructor ()
      ensures View() == START
    {
      cursor, stopped, phase, delivered := None, false, Starting, [];
    }

    method Stop()
      modifies this
      ensures View() == old(View()).(stopped := true)
    {
      stopped := true;
    }

    /** The continuation of the first fetch; a failed one is left unhandled. */
    method FirstFetched(reply: Option<Log>)
      modifies this
      ensures View() == OnFirst(old(View()), reply)
    {
      if reply.None? {
        phase := Ended;
        return;
      }
      cursor := LastId(reply.value);
      phase := Scheduled;
    }

    method Tick(asked: nat)
      modifies this
      ensures View() == OnTick(old(View()), asked)
    {
      if stopped {
        phase := Ended;
        return;
      }
      phase := Polling(asked);
    }

    /** The rest of the tick: the callback for each message in turn, then the cursor. */
    method Fetched(reply: Option<Log>)
      modifies this
      ensures View() == OnPoll(old(View()), reply)
    {
      if reply.Some? {
        var messages, i := reply.value, 0;
        while i < |messages|
          invariant 0 <= i <= |messages|
          invariant View() == old(View()).(delivered := old(delivered) + messages[..i])
        {
          delivered := delivered + [messages[i]];
          i := i + 1;
        }
        assert messages[..i] == messages;
        var newCursor := LastId(messages);
        if newCursor.Some? { cursor := newCursor; }
      }
      phase := if stopped then Ended else Scheduled;
    }
  }

  // ---------- fetches ----------

  predicate Ordered(log: Log) {
    forall i, j :: 0 <= i < j < |log| ==> log[i].stamp <= log[j].stamp && log[i].txid != log[j].txid
  }

  /** No two messages share a creation stamp. */
  predicate Strict(log: Log) {
    Ordered(log) && forall i, j :: 0 <= i < j < |log| ==> log[i].stamp != log[j].stamp
  }

  lemma {:induction false} NewerThanAll(log: Log, stamp: int)
    requires forall i :: 0 <= i < |log| ==> log[i].stamp > stamp
    ensures Newer(log, stamp) == log
  {
    if log != [] { NewerThanAll(log[1..], stamp); }
  }

  /** Against an ordered log the newer messages are a suffix, and every tie is left out of it. */
  lemma {:induction false} NewerIsSuffix(log: Log, stamp: int, k: nat)
    requires k <= |log|
    requires forall i :: 0 <= i < k ==> log[i].stamp <= stamp
    requires forall i :: k <= i < |log| ==> log[i].stamp > stamp
    ensures Newer(log, stamp) == log[k..]
  {
    if k == 0 {
      NewerThanAll(log, stamp);
    } else {
      NewerIsSuffix(log[1..], stamp, k - 1);
      assert log[k..] == log[1..][k - 1..];
    }
  }

  /** Where the first undelivered message stands. */
  function Position(log: Log, cursor: Option<TxId>): nat {
    if cursor.None? then 0 else IndexOf(log, cursor.value) + 1
  }

  function Upto(log: Log, from: nat, limit: nat): Log
    requires from <= |log|
  {
    log[from..if from + limit < |log| then from + limit else |log|]
  }

  lemma {:induction false} IndexIsPosition(log: Log, i: nat)
    requires Ordered(log) && i < |log|
    ensures IndexOf(log, log[i].txid) == i
  {
  }

  /** How many messages at the start of `log` are not newer than `stamp`. */
  function Passed(log: Log, stamp: int): (k: nat)
    requires Ordered(log)
    ensures k <= |log|
    ensures forall i :: 0 <= i < k ==> log[i].stamp <= stamp
    ensures forall i :: k <= i < |log| ==> log[i].stamp > stamp
  {
    if log == [] || log[0].stamp > stamp then 0 else 1 + Passed(log[1..], stamp)
  }

  /** A fetch resumes after every message with the cursor's stamp. */
  lemma {:induction false} FetchResumes(log: Log, i: nat, limit: nat)
    requires Ordered(log) && i < |log|
    ensures Fetch(log, Some(log[i].txid), limit) == Upto(log, Passed(log, log[i].stamp), limit)
  {
    IndexIsPosition(log, i);
    NewerIsSuffix(log, log[i].stamp, Passed(log, log[i].stamp));
  }

  /**
   * A fetch returns the next messages after the cursor exactly when the message after the cursor
   * carries a later stamp; otherwise every message with the cursor's stamp is lost.
   */
  lemma {:induction false} FetchIsNextIff(log: Log, i: nat, limit: nat)
    requires Ordered(log) && i < |log| && limit > 0
    ensures Fetch(log, Some(log[i].txid), limit) == Upto(log, i + 1, limit)
      <==> (i + 1 < |log| ==> log[i].stamp < log[i + 1].stamp)
  {
    var k := Passed(log, log[i].stamp);
    FetchResumes(log, i, limit);
    if i + 1 < |log| && log[i + 1].stamp == log[i].stamp {
      assert Upto(log, i + 1, limit)[0] == log[i + 1];
      assert k < |log| ==> Upto(log, k, limit)[0] == log[k];
    } else {
      assert k == i + 1;
    }
  }

  // ---------- every run ----------

  /** The callbacks so far are one segment of the log, ending at the cursor; at most one message precedes it. */
  predicate Faithful(w: World) {
    var World(log, s) := w;
    var p := Position(log, s.cursor);
    && p <= |log|
    && (s.phase.Starting? ==> s.cursor.None?)
    && (s.phase.Polling? ==> p <= s.phase.asked <= |log|)
    && p - 1 <= |s.delivered| <= p
    && s.delivered == log[p - |s.delivered|..p]
  }

  lemma {:induction false} IndexInPrefix(log: Log, n: nat, txid: TxId)
    requires n <= |log|
    ensures IndexOf(log[..n], txid) == if IndexOf(log, txid) < n then IndexOf(log, txid) else n
  {
    var i := IndexOf(log, txid);
    if i < n {
      assert log[..n][i].txid == txid;
    }
  }

  lemma {:induction false} PrefixIsOrdered(log: Log, n: nat)
    requires Ordered(log) && n <= |log|
    ensures Ordered(log[..n])
  {
  }

  /** Where a poll resumes that sees `seen` messages, `p` of them up to the cursor: after every tie with it. */
  function Resume(log: Log, p: nat, seen: nat): (k: nat)
    requires Ordered(log) && p <= seen <= |log|
    ensures p <= k <= seen
    ensures k == p <==> p == 0 || p == seen || log[p - 1].stamp < log[p].stamp
  {
    if p == 0 then 0
    else
      PrefixIsOrdered(log, seen);
      var k := Passed(log[..seen], log[p - 1].stamp);
      assert log[..seen][p - 1] == log[p - 1];
      assert p < seen ==> log[..seen][p] == log[p];
      k
  }

  function BatchEnd(p: nat, seen: nat): nat { if p + POLL_LIMIT < seen then p + POLL_LIMIT else seen }

  /** The batch a poll answers with. */
  lemma {:induction false} PollBatch(log: Log, cursor: Option<TxId>, seen: nat)
    requires Ordered(log) && Position(log, cursor) <= seen <= |log|
    ensures
      var k := Resume(log, Position(log, cursor), seen);
      Fetch(log[..seen], cursor, POLL_LIMIT) == log[k..BatchEnd(k, seen)]
  {
    PrefixIsOrdered(log, seen);
    var k := Resume(log, Position(log, cursor), seen);
    assert Upto(log[..seen], k, POLL_LIMIT) == log[k..BatchEnd(k, seen)];
    if cursor.Some? {
      var i := IndexOf(log, cursor.value);
      assert log[..seen][i] == log[i] && k == Passed(log[..seen], log[i].stamp);
      FetchResumes(log[..seen], i, POLL_LIMIT);
    }
  }

  /** Where the cursor is after a batch. */
  lemma {:induction false} CursorAfter(log: Log, p: nat, q: nat)
    requires Ordered(log) && p < q <= |log|
    ensures LastId(log[p..q]) == Some(log[q - 1].txid) && Position(log, LastId(log[p..q])) == q
  {
    assert log[p..q][q - p - 1] == log[q - 1];
    IndexIsPosition(log, q - 1);
  }

  /** The first fetch answers with the oldest message, if any. */
  lemma {:induction false} FirstBatch(log: Log, seen: nat)
    requires Ordered(log) && seen <= |log|
    ensures LastId(Fetch(log[..seen], None, 1)) == if seen == 0 then None else Some(log[0].txid)
    ensures Position(log, LastId(Fetch(log[..seen], None, 1))) == if seen == 0 then 0 else 1
  {
    if seen > 0 { IndexIsPosition(log, 0); }
  }

  lemma {:induction false} AppendIsFaithful(w: World, m: Message)
    requires Faithful(w)
    ensures Faithful(Step(w, Append(m)))
  {
    if w.sub.cursor.Some? {
      assert (w.log + [m])[..|w.log|] == w.log;
      IndexInPrefix(w.log + [m], |w.log|, w.sub.cursor.value);
    }
  }

  /** A reply that the world accepts: the log as it was at some moment since the request. */
  predicate Answers(w: World, seen: nat) {
    w.sub.phase.Polling? && w.sub.phase.asked <= seen <= |w.log|
  }

  /** A poll hands over the batch from where it resumes and moves the cursor to its end. */
  lemma {:induction false} PollDelivers(w: World, seen: nat)
    requires Ordered(w.log) && Answers(w, seen) && Position(w.log, w.sub.cursor) <= seen
    ensures
      var p := Position(w.log, w.sub.cursor);
      var k := Resume(w.log, p, seen);
      var World(log, s) := Step(w, PollReply(Some(seen)));
      && log == w.log
      && s.delivered == w.sub.delivered + log[k..BatchEnd(k, seen)]
      && Position(log, s.cursor) == (if k < seen then BatchEnd(k, seen) else p)
      && (s.phase.Scheduled? || s.phase.Ended?)
  {
    var k := Resume(w.log, Position(w.log, w.sub.cursor), seen);
    PollBatch(w.log, w.sub.cursor, seen);
    if k < seen { CursorAfter(w.log, k, BatchEnd(k, seen)); }
  }

  lemma {:induction false} SegmentsJoin(log: Log, b: nat, p: nat, q: nat)
    requires b <= p <= q <= |log|
    ensures log[b..p] + log[p..q] == log[b..q]
  {
  }

  /** A poll that hands over something although the message after the cursor carries the cursor's stamp. */
  predicate StepsOverTie(w: World, e: Event) {
    && e.PollReply? && e.seen.Some? && Answers(w, e.seen.value)
    && Fetch(w.log[..e.seen.value], w.sub.cursor, POLL_LIMIT) != []
    && var p := Position(w.log, w.sub.cursor);
    0 < p < |w.log| && w.log[p - 1].stamp == w.log[p].stamp
  }

  /** Some poll of the run stepped over a tie. */
  predicate SteppedOverTie(w: World, events: seq<Event>) {
    events != []
    && var init := events[..|events| - 1];
    SteppedOverTie(w, init) || StepsOverTie(Run(w, init), events[|events| - 1])
  }

  lemma {:induction false} TieIsGap(w: World, seen: nat)
    requires Ordered(w.log) && Answers(w, seen) && Position(w.log, w.sub.cursor) <= seen
    ensures
      var p := Position(w.log, w.sub.cursor);
      StepsOverTie(w, PollReply(Some(seen))) <==> p < Resume(w.log, p, seen) < seen
  {
    PollBatch(w.log, w.sub.cursor, seen);
  }

  /** A message after the first delivered one was left out: no later callback makes up for it. */
  predicate Gapped(w: World) {
    var World(log, s) := w;
    var p := Position(log, s.cursor);
    && p <= |log|
    && (s.phase.Starting? ==> s.cursor.None?)
    && (s.phase.Polling? ==> p <= s.phase.asked <= |log|)
    && (p - |s.delivered| >= 2 || (p - |s.delivered| >= 1 && s.delivered != [] && s.delivered[0] == log[0]))
  }

  lemma {:induction false} GappedIsNotFaithful(w: World)
    requires Ordered(w.log) && Gapped(w)
    ensures !Faithful(w)
  {
    var p := Position(w.log, w.sub.cursor);
    if p - |w.sub.delivered| == 1 { assert w.log[1..p][0] == w.log[1]; }
  }

  lemma {:induction false} PollKeepsGap(w: World, seen: nat)
    requires Ordered(w.log) && Gapped(w) && Answers(w, seen)
    ensures Gapped(Step(w, PollReply(Some(seen))))
  {
    PollDelivers(w, seen);
  }

  lemma {:induction false} AppendKeepsGap(w: World, m: Message)
    requires Gapped(w)
    ensures Gapped(Step(w, Append(m)))
  {
    assert (w.log + [m])[..|w.log|] == w.log;
    IndexInPrefix(w.log + [m], |w.log|, w.sub.cursor.value);
  }

  lemma {:induction false} StepKeepsGap(w: World, e: Event)
    requires Ordered(w.log) && Gapped(w)
    ensures Gapped(Step(w, e))
  {
    match e
    case Append(m) => AppendKeepsGap(w, m);
    case Stop =>
    case Tick =>
    case FirstReply(seen) =>
    case PollReply(seen) => if seen.Some? && Answers(w, seen.value) { PollKeepsGap(w, seen.value); }
  }

  lemma {:induction false} PollIsFaithful(w: World, seen: nat)
    requires Ordered(w.log) && Faithful(w) && Answers(w, seen) && !StepsOverTie(w, PollReply(Some(seen)))
    ensures Faithful(Step(w, PollReply(Some(seen))))
  {
    var p := Position(w.log, w.sub.cursor);
    PollDelivers(w, seen);
    TieIsGap(w, seen);
    SegmentsJoin(w.log, p - |w.sub.delivered|, p, BatchEnd(p, seen));
  }

  lemma {:induction false} TieOpensGap(w: World, seen: nat)
    requires Ordered(w.log) && Faithful(w) && Answers(w, seen) && StepsOverTie(w, PollReply(Some(seen)))
    ensures Gapped(Step(w, PollReply(Some(seen))))
  {
    PollDelivers(w, seen);
    TieIsGap(w, seen);
  }

  lemma {:induction false} PollIsFaithfulIff(w: World, seen: nat)
    requires Ordered(w.log) && Faithful(w) && Answers(w, seen)
    ensures
      var e := PollReply(Some(seen));
      if StepsOverTie(w, e) then Gapped(Step(w, e)) else Faithful(Step(w, e))
  {
    if StepsOverTie(w, PollReply(Some(seen))) {
      TieOpensGap(w, seen);
    } else {
      PollIsFaithful(w, seen);
    }
  }

  lemma {:induction false} FirstIsFaithful(w: World, seen: Option<nat>)
    requires Ordered(w.log) && Faithful(w) && w.sub.phase.Starting?
    ensures Faithful(Step(w, FirstReply(seen)))
  {
    if seen.Some? && seen.value <= |w.log| { FirstBatch(w.log, seen.value); }
  }

  lemma {:induction false} QuietIsFaithful(w: World, e: Event)
    requires Faithful(w) && (e.Stop? || e.Tick?)
    ensures Faithful(Step(w, e))
  {
  }

  lemma {:induction false} UnansweredIsFaithful(w: World, seen: Option<nat>)
    requires Faithful(w) && !(seen.Some? && Answers(w, seen.value))
    ensures Faithful(Step(w, PollReply(seen)))
  {
  }

  lemma {:induction false} PollReplyIsFaithfulIff(w: World, seen: Option<nat>)
    requires Ordered(w.log) && Faithful(w)
    ensures
      var e := PollReply(seen);
      if StepsOverTie(w, e) then Gapped(Step(w, e)) else Faithful(Step(w, e))
  {
    if seen.Some? && Answers(w, seen.value) {
      PollIsFaithfulIff(w, seen.value);
    } else {
      UnansweredIsFaithful(w, seen);
    }
  }

  /** The only step that ends the segment is a poll over a tie. */
  lemma {:induction false} StepIsFaithfulIff(w: World, e: Event)
    requires Ordered(w.log) && Faithful(w)
    ensures if StepsOverTie(w, e) then Gapped(Step(w, e)) else Faithful(Step(w, e))
  {
    match e
    case Append(m) => AppendIsFaithful(w, m);
    case FirstReply(seen) => if w.sub.phase.Starting? { FirstIsFaithful(w, seen); }
    case PollReply(seen) => PollReplyIsFaithfulIff(w, seen);
    case _ => QuietIsFaithful(w, e);
  }

  lemma {:induction false} RunIsFaithfulOrGapped(log: Log, events: seq<Event>)
    requires Ordered(Run(World(log, START), events).log)
    ensures
      var w := Run(World(log, START), events);
      if SteppedOverTie(World(log, START), events) then Gapped(w) else Faithful(w)
  {
    if events != [] {
      var before := Run(World(log, START), events[..|events| - 1]);
      var after := Run(World(log, START), events);
      assert before.log == after.log[..|before.log|];
      PrefixIsOrdered(after.log, |before.log|);
      RunIsFaithfulOrGapped(log, events[..|events| - 1]);
      if SteppedOverTie(World(log, START), events[..|events| - 1]) {
        StepKeepsGap(before, events[|events| - 1]);
      } else {
        StepIsFaithfulIff(before, events[|events| - 1]);
      }
    }
  }

  /**
   * Whatever fails, is delayed or appended, the callbacks are a gap-free, duplicate-free segment
   * of the log, in its order, exactly when no poll of the run stepped over a tie with its cursor.
   */
  lemma {:induction false} DeliveryIsSegmentIff(log: Log, events: seq<Event>)
    requires Ordered(Run(World(log, START), events).log)
    ensures Faithful(Run(World(log, START), events)) <==> !SteppedOverTie(World(log, START), events)
  {
    RunIsFaithfulOrGapped(log, events);
    if SteppedOverTie(World(log, START), events) { GappedIsNotFaithful(Run(World(log, START), events)); }
  }

  lemma {:induction false} ThreeSteps(w: World, a: Event, b: Event, c: Event)
    ensures Run(w, [a, b, c]) == Step(Step(Step(w, a), b), c)
  {
    assert [a, b, c][..2] == [a, b] && [a, b][..1] == [a] && [a][..0] == [];
    assert Run(w, [a]) == Step(w, a);
    assert Run(w, [a, b]) == Step(Step(w, a), b);
  }

  /** After the oldest message, a poll passes over the one with the same stamp. */
  lemma {:induction false} SecondIsPassed(a: Message, b: Message, c: Message)
    requires Ordered([a, b, c]) && a.stamp == b.stamp < c.stamp
    ensures Resume([a, b, c], 1, 3) == 2
  {
    var log := [a, b, c];
    assert log[..3] == log;
    assert log[0].stamp <= a.stamp && log[1].stamp <= a.stamp && log[2].stamp > a.stamp;
  }

  /** Three messages of which the second shares the first one's stamp: the second is never handed over. */
  lemma {:induction false} TiedMessageIsLost(a: Message, b: Message, c: Message)
    requires Ordered([a, b, c]) && a.stamp == b.stamp < c.stamp
    ensures
      var events := [FirstReply(Some(3)), Tick, PollReply(Some(3))];
      Run(World([a, b, c], START), events).sub.delivered == [c]
  {
    var log := [a, b, c];
    var started := Step(World(log, START), FirstReply(Some(3)));
    var asking := Step(started, Tick);
    ThreeSteps(World(log, START), FirstReply(Some(3)), Tick, PollReply(Some(3)));
    FirstBatch(log, 3);
    assert asking == World(log, Sub(Some(a.txid), false, Polling(3), []));
    SecondIsPassed(a, b, c);
    PollDelivers(asking, 3);
    assert log[2..BatchEnd(2, 3)] == [c];
  }

  function Remaining(w: World): int { |w.log| - Position(w.log, w.sub.cursor) }

  predicate Succeeds(w: World, e: Event) {
    e.PollReply? && w.sub.phase.Polling? && e.seen == Some(|w.log|)
  }

  function Successes(w: World, events: seq<Event>): nat {
    if events == [] then 0
    else
      var init := events[..|events| - 1];
      Successes(w, init) + (if Succeeds(Run(w, init), events[|events| - 1]) then 1 else 0)
  }

  predicate NoAppends(events: seq<Event>) {
    forall i :: 0 <= i < |events| ==> !events[i].Append?
  }

  function Max(a: int, b: int): int { if a < b then b else a }

  lemma {:induction false} StepDrains(w: World, e: Event)
    requires Strict(w.log) && Faithful(w) && !e.Append?
    ensures Step(w, e).log == w.log
    ensures Remaining(Step(w, e)) <= Remaining(w)
    ensures Succeeds(w, e) ==> Remaining(Step(w, e)) == Max(0, Remaining(w) - POLL_LIMIT)
  {
    match e {
      case Stop =>
      case Tick =>
      case FirstReply(seen) =>
        if w.sub.phase.Starting? && seen.Some? && seen.value <= |w.log| { FirstBatch(w.log, seen.value); }
      case PollReply(seen) =>
        if seen.Some? && Answers(w, seen.value) { PollDelivers(w, seen.value); }
    }
  }

  lemma {:induction false} QuietRunsKeepTheLog(w: World, events: seq<Event>)
    requires Strict(w.log) && Faithful(w) && NoAppends(events)
    ensures Run(w, events).log == w.log && Faithful(Run(w, events))
  {
    if events != [] {
      var init, last := events[..|events| - 1], events[|events| - 1];
      assert NoAppends(init) && !last.Append?;
      QuietRunsKeepTheLog(w, init);
      StepIsFaithfulIff(Run(w, init), last);
      StepDrains(Run(w, init), last);
    }
  }

  lemma {:induction false} FaithfulIsWithinTheLog(w: World)
    requires Faithful(w)
    ensures Remaining(w) >= 0
  {
  }

  lemma {:induction false} OneMoreSuccess(start: int, k: nat, left: int, left': int, succeeds: bool)
    requires left <= Max(0, start - POLL_LIMIT * k) && left' <= left
    requires succeeds ==> left' == Max(0, left - POLL_LIMIT)
    ensures left' <= Max(0, start - POLL_LIMIT * (k + (if succeeds then 1 else 0)))
  {
  }

  lemma {:induction false} RunUnfolds(w: World, events: seq<Event>)
    requires events != []
    ensures
      var before, last := Run(w, events[..|events| - 1]), events[|events| - 1];
      && Run(w, events) == Step(before, last)
      && Successes(w, events) == Successes(w, events[..|events| - 1]) + (if Succeeds(before, last) then 1 else 0)
  {
  }

  lemma {:induction false} DrainBound(w: World, events: seq<Event>)
    requires Strict(w.log) && Faithful(w) && NoAppends(events)
    ensures Remaining(Run(w, events)) <= Max(0, Remaining(w) - POLL_LIMIT * Successes(w, events))
  {
    if events != [] {
      var init, last := events[..|events| - 1], events[|events| - 1];
      assert NoAppends(init) && !last.Append?;
      var before := Run(w, init);
      DrainBound(w, init);
      QuietRunsKeepTheLog(w, init);
      StepDrains(before, last);
      RunUnfolds(w, events);
      OneMoreSuccess(Remaining(w), Successes(w, init), Remaining(before), Remaining(Step(before, last)), Succeeds(before, last));
    }
  }

  /** While nothing is appended, each successful poll takes fifty messages off what is left, until none is. */
  lemma {:induction false} PollsDrainTheLog(w: World, events: seq<Event>)
    requires Strict(w.log) && Faithful(w) && NoAppends(events)
    ensures Run(w, events).log == w.log && Faithful(Run(w, events))
    ensures 0 <= Remaining(Run(w, events)) <= Max(0, Remaining(w) - POLL_LIMIT * Successes(w, events))
  {
    QuietRunsKeepTheLog(w, events);
    FaithfulIsWithinTheLog(Run(w, events));
    DrainBound(w, events);
  }

  /** What can still come after stop(): the batch of a poll that was out, and nothing else. */
  predicate Winding(w: World, later: World) {
    && later.sub.stopped
    && w.sub.delivered <= later.sub.delivered
    && (later.sub.phase.Polling? ==> w.sub.phase.Polling? && later.sub.delivered == w.sub.delivered)
    && |later.sub.delivered| - |w.sub.delivered| <= (if w.sub.phase.Polling? then POLL_LIMIT else 0)
  }

  lemma {:induction false} StopEndsDelivery(w: World, events: seq<Event>)
    requires w.sub.stopped
    ensures Winding(w, Run(w, events))
  {
    if events != [] {
      StopEndsDelivery(w, events[..|events| - 1]);
    }
  }

  lemma {:induction false} EndedIsFinal(w: World, events: seq<Event>)
    requires w.sub.phase.Ended?
    ensures Run(w, events).sub == w.sub.(stopped := Run(w, events).sub.stopped)
  {
    if events != [] {
      EndedIsFinal(w, events[..|events| - 1]);
    }
  }

  /**
   * The first fetch asks for one message and the server sends the oldest: the subscription starts
   * at the end of the log, without replaying history, exactly when there was at most one message.
   */
  lemma {:induction false} StartsAtLatestIff(log: Log, seen: nat)
    requires Ordered(log) && seen <= |log|
    ensures
      var s := Step(World(log, START), FirstReply(Some(seen))).sub;
      s.phase.Scheduled? && (Position(log, s.cursor) == seen <==> seen <= 1)
  {
    FirstBatch(log, seen);
  }

  // ---------- the subscription, event by event ----------

  function NextPhase(stopped: bool): Phase { if stopped then Ended else Scheduled }

  /** Everything but a reply: stop() only marks the subscription, and a due tick polls unless it was stopped. */
  lemma {:induction false} QuietEvents(w: World, m: Message)
    ensures Step(w, Append(m)) == World(w.log + [m], w.sub)
    ensures Step(w, Stop) == World(w.log, Sub(w.sub.cursor, true, w.sub.phase, w.sub.delivered))
    ensures Step(w, Tick) ==
      if w.sub.phase != Scheduled then w
      else World(w.log, Sub(w.sub.cursor, w.sub.stopped, if w.sub.stopped then Ended else Polling(|w.log|), w.sub.delivered))
  {
  }

  /** The first reply starts the ticks after the oldest message then seen; a failed one ends everything. */
  lemma {:induction false} FirstReplyIff(w: World, seen: nat)
    requires Ordered(w.log) && w.sub.phase == Starting && seen <= |w.log|
    ensures
      var after := Step(w, FirstReply(Some(seen)));
      after == World(w.log, Sub(if seen == 0 then None else Some(w.log[0].txid), w.sub.stopped, Scheduled, w.sub.delivered))
    ensures Step(w, FirstReply(None)) == World(w.log, Sub(w.sub.cursor, w.sub.stopped, Ended, w.sub.delivered))
  {
    FirstBatch(w.log, seen);
  }

  /**
   * A poll that fails changes nothing but schedules the next tick, unless the subscription was
   * stopped; one that succeeds also hands over up to fifty messages, the last of which becomes
   * the cursor if there is one.
   */
  lemma {:induction false} PollReplyIff(w: World, seen: nat)
    requires Ordered(w.log) && Answers(w, seen) && Position(w.log, w.sub.cursor) <= seen
    ensures Step(w, PollReply(None)) ==
      World(w.log, Sub(w.sub.cursor, w.sub.stopped, NextPhase(w.sub.stopped), w.sub.delivered))
    ensures
      var k := Resume(w.log, Position(w.log, w.sub.cursor), seen);
      var batch := w.log[k..if seen - k > 50 then k + 50 else seen];
      Step(w, PollReply(Some(seen))) ==
      World(w.log, Sub(if batch == [] then w.sub.cursor else Some(batch[|batch| - 1].txid),
                       w.sub.stopped, NextPhase(w.sub.stopped), w.sub.delivered + batch))
  {
    PollBatch(w.log, w.sub.cursor, seen);
  }

  /** A run takes one event after the other. */
  lemma {:induction false} RunStep(w: World, events: seq<Event>, e: Event)
    ensures Run(w, []) == w && Run(w, events + [e]) == Step(Run(w, events), e)
  {
    assert (events + [e])[..|events|] == events;
  }
}
