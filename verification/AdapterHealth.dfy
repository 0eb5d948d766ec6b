/**
 * The deep health check of an AI adapter: one cached entry per port, kept up to date probe by
 * probe, and the simple function of the probe history it stands for.
 */
module AdapterHealth {
  import opened Common

  type Port = nat

  /** A 2xx reply, any other HTTP reply with its text, or no reply at all. */
  datatype Probe = Success | HttpError(text: string) | NoReply(message: string)

  datatype Probed = Probed(probe: Probe, at: int)

  /** `apiOk` is true, false, or null while nothing is known yet. */
  datatype Entry = Entry(apiOk: Option<bool>, apiError: Option<string>, checkedAt: int, failStreak: nat,
                         soft: bool, httpErr: bool)

  const GREEN_TTL_MS := 120_000
  const RED_TTL_MS := 30_000
  const HTTP_RED_TTL_MS := 120_000
  const SOFT_TTL_MS := 20_000
  const FAIL_THRESHOLD := 2

  // ---------- what the code keeps ----------

  function Ttl(e: Entry): int {
    if e.soft then SOFT_TTL_MS
    else if e.apiOk == Some(true) then GREEN_TTL_MS
    else if e.httpErr then HTTP_RED_TTL_MS
    else RED_TTL_MS
  }

  predicate Fresh(cached: Option<Entry>, now: int) {
    cached.Some? && now - cached.value.checkedAt < Ttl(cached.value)
  }

  function Clip(text: string): string { if |text| <= 100 then text else text[..100] }

  /** The entry written after a probe, from the entry before it alone. */
  function Next(cached: Option<Entry>, p: Probed): Entry {
    var streak := 1 + (if cached.Some? then cached.value.failStreak else 0);
    var green := cached.Some? && cached.value.apiOk == Some(true);
    match p.probe
    case Success => Entry(Some(true), None, p.at, 0, false, false)
    case HttpError(text) => Entry(Some(false), Some(Clip(text)), p.at, streak, false, true)
    case NoReply(message) =>
      if streak < FAIL_THRESHOLD && green then Entry(Some(true), None, p.at, streak, true, false)
      else if streak >= FAIL_THRESHOLD then Entry(Some(false), Some(message), p.at, streak, false, false)
      else Entry(None, None, p.at, streak, false, false)
  }

  function Lookup(cache: map<Port, Entry>, port: Port): Option<Entry> {
    if port in cache then Some(cache[port]) else None
  }

  datatype Event =
    | Check(port: Port, now: int, outcome: Probed)
    | Invalidate(port: Port)

  function Step(cache: map<Port, Entry>, e: Event): map<Port, Entry> {
    match e
    case Invalidate(port) => cache - {port}
    case Check(port, now, outcome) =>
      if Fresh(Lookup(cache, port), now) then cache else cache[port := Next(Lookup(cache, port), outcome)]
  }

  class HealthCache {
    var cache: map<Port, Entry>

    constructor ()
      ensures cache == map[]
    {
      cache := map[];
    }

    method InvalidateApiCheckCache(port: Option<Port>)
      modifies this
      ensures cache == if port.Some? then Step(old(cache), Invalidate(port.value)) else old(cache)
    {
      if port.Some? { cache := cache - {port.value}; }
    }

    /** `outcome` is what a probe would meet, and when; it is consulted only past the entry's TTL. */
    method DeepCheckAdapter(port: Port, now: int, outcome: Probed) returns (r: Entry)
      modifies this
      ensures cache == Step(old(cache), Check(port, now, outcome))
      ensures Lookup(cache, port) == Some(r)
    {
      if port in cache {
        var cached := cache[port];
        var ttl := if cached.soft then SOFT_TTL_MS
                   else if cached.apiOk == Some(true) then GREEN_TTL_MS
                   else if cached.httpErr then HTTP_RED_TTL_MS
                   else RED_TTL_MS;
        if now - cached.checkedAt < ttl { return cached; }
      }
      var prevStreak := if port in cache then cache[port].failStreak else 0;
      var prevGreen := port in cache && cache[port].apiOk == Some(true);
      match outcome.probe {
        case Success =>
          r := Entry(Some(true), None, outcome.at, 0, false, false);
        case HttpError(text) =>
          r := Entry(Some(false), Some(Clip(text)), outcome.at, prevStreak + 1, false, true);
        case NoReply(message) =>
          var failStreak := prevStreak + 1;
          if failStreak < FAIL_THRESHOLD && prevGreen {
            r := Entry(Some(true), None, outcome.at, failStreak, true, false);
          } else {
            var isRed := failStreak >= FAIL_THRESHOLD;
            r := Entry(if isRed then Some(false) else None, if isRed then Some(message) else None,
                       outcome.at, failStreak, false, false);
          }
      }
      cache := cache[port := r];
    }
  }

  // ---------- what it stands for ----------

  /** How many probes, counted back from the last, failed without a success between them. */
  function FailRun(h: seq<Probed>): (n: nat)
    ensures n <= |h|
    ensures forall i :: |h| - n <= i < |h| ==> !h[i].probe.Success?
    ensures n < |h| ==> h[|h| - n - 1].probe.Success?
  {
    if h == [] || h[|h| - 1].probe.Success? then 0 else FailRun(h[..|h| - 1]) + 1
  }

  /** Green: the last probe succeeded, or it got no reply right after one that did. */
  predicate Green(h: seq<Probed>) {
    h != [] && (h[|h| - 1].probe.Success? || Soft(h))
  }

  predicate Soft(h: seq<Probed>) {
    |h| >= 2 && h[|h| - 1].probe.NoReply? && h[|h| - 2].probe.Success?
  }

  /** Red: the last probe met an HTTP error, or the last two probes both failed. */
  predicate Red(h: seq<Probed>) {
    && h != []
    && (h[|h| - 1].probe.HttpError? || (|h| >= 2 && !h[|h| - 1].probe.Success? && !h[|h| - 2].probe.Success?))
  }

  function ErrorText(p: Probe): Option<string> {
    match p
    case Success => None
    case HttpError(text) => Some(Clip(text))
    case NoReply(message) => Some(message)
  }

  /** The entry a port should hold after the probes `h`, the last invalidation being before them. */
  function EntryOf(h: seq<Probed>): Option<Entry> {
    if h == [] then None
    else
      var last := h[|h| - 1];
      Some(Entry(
        if Green(h) then Some(true) else if Red(h) then Some(false) else None,
        if Red(h) then ErrorText(last.probe) else None,
        last.at,
        FailRun(h),
        Soft(h),
        last.probe.HttpError?))
  }

  /** The probes of a port since it was last invalidated: a check inside the TTL makes none. */
  function History(events: seq<Event>, port: Port): seq<Probed> {
    if events == [] then [] else Extended(History(events[..|events| - 1], port), port, events[|events| - 1])
  }

  /** How long an answer is served: by what the history means, not by the flags of the entry. */
  function TtlOf(h: seq<Probed>): int
    requires h != []
  {
    if h[|h| - 1].probe.Success? then 120_000
    else if h[|h| - 1].probe.HttpError? then 120_000
    else if Soft(h) then 20_000
    else 30_000
  }

  function CacheAfter(events: seq<Event>): map<Port, Entry> {
    if events == [] then map[] else Step(CacheAfter(events[..|events| - 1]), events[|events| - 1])
  }

  lemma {:induction false} FailRunStarts(h: seq<Probed>, p: Probed)
    ensures FailRun(h + [p]) == if p.probe.Success? then 0 else FailRun(h) + 1
  {
    assert (h + [p])[..|h|] == h;
  }

  /** Updating the entry after a probe gives the entry of the longer history. */
  lemma {:induction false} NextExtendsHistory(h: seq<Probed>, p: Probed)
    ensures EntryOf(h + [p]) == Some(Next(EntryOf(h), p))
  {
    FailRunStarts(h, p);
    if h != [] {
      assert FailRun(h) == 0 <==> h[|h| - 1].probe.Success?;
    }
  }

  lemma {:induction false} TtlByMeaning(h: seq<Probed>)
    requires h != []
    ensures EntryOf(h).Some? && Ttl(EntryOf(h).value) == TtlOf(h)
  {
  }

  /** The history of a port after one more event. */
  function Extended(h: seq<Probed>, port: Port, e: Event): seq<Probed> {
    match e
    case Invalidate(p) => if p == port then [] else h
    case Check(p, now, outcome) =>
      if p != port || (h != [] && now - h[|h| - 1].at < TtlOf(h)) then h else h + [outcome]
  }

  lemma {:induction false} StepTouchesOnePort(cache: map<Port, Entry>, e: Event, other: Port)
    requires other != e.port
    ensures Lookup(Step(cache, e), other) == Lookup(cache, other)
  {
  }

  lemma {:induction false} CheckIsHistory(cache: map<Port, Entry>, h: seq<Probed>, port: Port, now: int, outcome: Probed)
    requires Lookup(cache, port) == EntryOf(h)
    ensures
      var e := Check(port, now, outcome);
      Lookup(Step(cache, e), port) == EntryOf(Extended(h, port, e))
  {
    NextExtendsHistory(h, outcome);
    if h != [] {
      TtlByMeaning(h);
      assert EntryOf(h).value.checkedAt == h[|h| - 1].at;
    }
  }

  lemma {:induction false} StepIsHistory(cache: map<Port, Entry>, h: seq<Probed>, port: Port, e: Event)
    requires Lookup(cache, port) == EntryOf(h)
    ensures Lookup(Step(cache, e), port) == EntryOf(Extended(h, port, e))
  {
    if e.port != port {
      StepTouchesOnePort(cache, e, port);
    } else if e.Check? {
      CheckIsHistory(cache, h, port, e.now, e.outcome);
    }
  }

  /** After any run of checks and invalidations every port holds the entry of its own history. */
  lemma {:induction false} CacheIsHistory(events: seq<Event>, port: Port)
    ensures Lookup(CacheAfter(events), port) == EntryOf(History(events, port))
  {
    if events != [] {
      var before, last := events[..|events| - 1], events[|events| - 1];
      CacheIsHistory(before, port);
      StepIsHistory(CacheAfter(before), History(before, port), port, last);
    }
  }

  /** What a check answers: the verdict of the history, no older than that verdict may be. */
  lemma {:induction false} ServedAnswer(events: seq<Event>, port: Port, now: int, outcome: Probed)
    ensures
      var after := events + [Check(port, now, outcome)];
      var h := History(after, port);
      && h != [] && Lookup(CacheAfter(after), port) == EntryOf(h)
      && (h[|h| - 1] == outcome || now - h[|h| - 1].at < TtlOf(h))
      && forall other :: other != port ==> Lookup(CacheAfter(after), other) == Lookup(CacheAfter(events), other)
  {
    var e := Check(port, now, outcome);
    var after := events + [e];
    assert after[..|after| - 1] == events;
    CacheIsHistory(after, port);
    assert CacheAfter(after) == Step(CacheAfter(events), e);
    forall other | other != port
      ensures Lookup(CacheAfter(after), other) == Lookup(CacheAfter(events), other)
    {
      StepTouchesOnePort(CacheAfter(events), e, other);
    }
  }

  /** A port reused by a new adapter starts from nothing. */
  lemma {:induction false} InvalidatedPortForgets(events: seq<Event>, port: Port, now: int, outcome: Probed)
    ensures CacheAfter(events + [Invalidate(port), Check(port, now, outcome)])
         == CacheAfter(events)[port := Next(None, outcome)]
  {
    var one := events + [Invalidate(port)];
    var two := events + [Invalidate(port), Check(port, now, outcome)];
    assert one[..|events|] == events && two[..|events| + 1] == one;
  }

  /** Green and red exclude each other; neither holds only for a first probe that got no reply. */
  lemma {:induction false} VerdictsPartition(h: seq<Probed>)
    requires h != []
    ensures !(Green(h) && Red(h))
    ensures !Green(h) && !Red(h) <==> |h| == 1 && h[0].probe.NoReply?
  {
  }

  /** An error text is kept up to its hundredth character. */
  lemma {:induction false} ErrorIsClipped(h: seq<Probed>, text: string)
    requires h != [] && h[|h| - 1].probe == HttpError(text)
    ensures
      var kept := EntryOf(h).value.apiError;
      kept.Some? && kept.value <= text && |kept.value| <= 100 && (kept.value == text || |kept.value| == 100)
  {
  }
}
