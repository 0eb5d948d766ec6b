/**
 * The agents' part of the backup, whose two JSON columns are decoded on export and encoded on
 * import, and the whole import over the three tables.
 */
module BackupDatabase {
  import opened Common
  import opened Backup

  /** JSON values; encoding and decoding are inverse to each other. */
  datatype Json = JNull | JBool(b: bool) | JNum(n: int) | JText(s: string) | JArray(elems: seq<Json>) | JObject(fields: seq<(string, Json)>)

  /** A JSON column: null, the empty string, the text of a value, or text that does not parse. */
  datatype Column = NoText | EmptyText | Doc(value: Json) | Broken

  /** Plain columns: vision, style, the two intervals, social_style, focus. */
  datatype Agent = Agent(address: string, plain: seq<Val>, principles: Column, overrides: Column)

  /** An absent `principles` counts as null; an absent `socialOverrides` is None. */
  datatype AgentItem = AgentItem(address: Option<string>, plain: seq<Val>, principles: Json, overrides: Option<Json>)

  const PLAIN := 6

  predicate Falsy(v: Json) {
    v in {JNull, JBool(false), JNum(0), JText("")}
  }

  predicate Wide(agents: seq<Agent>) { forall i :: 0 <= i < |agents| ==> |agents[i].plain| == PLAIN }

  predicate WideItems(items: seq<AgentItem>) { forall i :: 0 <= i < |items| ==> |items[i].plain| == PLAIN }

  predicate Readable(a: Agent) { !a.principles.Broken? && !a.overrides.Broken? }

  // ---------- export ----------

  function ExportAgent(a: Agent): AgentItem
    requires Readable(a)
  {
    AgentItem(Some(a.address), a.plain,
              if a.principles.Doc? then a.principles.value else JArray([]),
              Some(if a.overrides.Doc? then a.overrides.value else JNull))
  }

  predicate AllReadable(agents: seq<Agent>) { forall i :: 0 <= i < |agents| ==> Readable(agents[i]) }

  function ExportAgents(agents: seq<Agent>): (r: seq<AgentItem>)
    requires AllReadable(agents)
    ensures |r| == |agents|
  {
    seq(|agents|, i requires 0 <= i < |agents| => ExportAgent(agents[i]))
  }

  // ---------- import ----------

  predicate Changes(item: AgentItem) {
    || (exists c :: 0 <= c < |item.plain| && item.plain[c] != Null)
    || item.principles != JNull
    || item.overrides.Some?
  }

  /** The mode plays no part: whatever the snapshot gives is written. */
  function Updated(a: Agent, item: AgentItem): Agent
    requires |a.plain| == |item.plain|
  {
    Agent(a.address,
          TakeAll(Identities, true, a.plain, item.plain),
          if item.principles != JNull then Doc(item.principles) else a.principles,
          if item.overrides.None? then a.overrides
          else if Falsy(item.overrides.value) then NoText
          else Doc(item.overrides.value))
  }

  function AddressesOf(agents: seq<Agent>): (addresses: seq<string>)
    ensures |addresses| == |agents| && forall i :: 0 <= i < |agents| ==> agents[i].address == addresses[i]
  {
    seq(|agents|, i requires 0 <= i < |agents| => agents[i].address)
  }

  function FindAgent(agents: seq<Agent>, address: string): (i: nat)
    ensures i <= |agents|
    ensures i < |agents| ==> agents[i].address == address
    ensures forall j :: 0 <= j < i ==> agents[j].address != address
  {
    FirstIndex(AddressesOf(agents), address)
  }

  datatype AgentProgress = AgentProgress(agents: seq<Agent>, updated: nat, skipped: nat)

  function AgentStep(p: AgentProgress, item: AgentItem): (r: AgentProgress)
    requires Wide(p.agents) && |item.plain| == PLAIN
    ensures Wide(r.agents) && |r.agents| == |p.agents|
    ensures r.updated + r.skipped == p.updated + p.skipped + (if item.address.Some? then 1 else 0)
  {
    if item.address.None? then p
    else
      var i := FindAgent(p.agents, item.address.value);
      if i == |p.agents| || !Changes(item) then p.(skipped := p.skipped + 1)
      else p.(agents := p.agents[i := Updated(p.agents[i], item)], updated := p.updated + 1)
  }

  function ApplyAgents(agents: seq<Agent>, items: seq<AgentItem>): (r: AgentProgress)
    requires Wide(agents) && WideItems(items)
    ensures Wide(r.agents) && |r.agents| == |agents|
  {
    if items == [] then AgentProgress(agents, 0, 0)
    else
      var init := items[..|items| - 1];
      assert forall i :: 0 <= i < |init| ==> init[i] == items[i];
      AgentStep(ApplyAgents(agents, init), items[|items| - 1])
  }

  // ---------- the whole import ----------

  datatype Snapshot = Snapshot(identities: seq<Item>, relations: seq<Item>, agents: seq<AgentItem>)

  datatype Stats = Stats(identities: nat, relationStates: nat, agents: nat, skipped: nat)

  predicate Fits(s: Snapshot) {
    Shaped(Identities, [], s.identities) && Shaped(Relations, [], s.relations) && WideItems(s.agents)
  }

  class Database {
    var identities: Table
    var relations: Table
    var agents: seq<Agent>

    predicate Valid()
      reads this
    {
      Shaped(Identities, identities, []) && Shaped(Relations, relations, []) && Wide(agents)
    }

    /** `buildExportSnapshot`; one JSON column that does not parse makes the whole export throw. */
    method BuildExportSnapshot() returns (r: Option<Snapshot>)
      requires Valid()
      ensures r.Some? <==>
        forall i :: 0 <= i < |agents| ==> agents[i].principles != Broken && agents[i].overrides != Broken
      ensures r.Some? ==>
        && AllReadable(agents)
        && r.value == Snapshot(Export(Identities, identities), Export(Relations, relations), ExportAgents(agents))
    {
      var items: seq<AgentItem> := [];
      var n := 0;
      while n < |agents|
        invariant 0 <= n <= |agents| && |items| == n
        invariant forall i :: 0 <= i < n ==> Readable(agents[i]) && items[i] == ExportAgent(agents[i])
      {
        var a := agents[n];
        if a.principles.Broken? || a.overrides.Broken? { return None; }
        items := items + [AgentItem(Some(a.address), a.plain,
                                    if a.principles.Doc? then a.principles.value else JArray([]),
                                    Some(if a.overrides.Doc? then a.overrides.value else JNull))];
        n := n + 1;
      }
      assert items == ExportAgents(agents);
      return Some(Snapshot(Export(Identities, identities), Export(Relations, relations), items));
    }

    /** `applyImportSnapshot`; any mode other than "replace" merges. */
    method ApplyImportSnapshot(s: Snapshot, mode: string) returns (stats: Stats)
      requires Valid() && Fits(s)
      modifies this
      ensures Valid()
      ensures identities == Apply(Identities, mode == "replace", old(identities), s.identities).table
      ensures relations == Apply(Relations, mode == "replace", old(relations), s.relations).table
      ensures agents == ApplyAgents(old(agents), s.agents).agents
      ensures stats.identities == Apply(Identities, mode == "replace", old(identities), s.identities).updated
      ensures stats.relationStates == Apply(Relations, mode == "replace", old(relations), s.relations).updated
      ensures stats.agents == ApplyAgents(old(agents), s.agents).updated
      ensures stats.identities + stats.relationStates + stats.agents + stats.skipped
           == Keyed(s.identities) + Keyed(s.relations) + KeyedAgents(s.agents)
    {
      var replace := mode == "replace";
      var updatedI, skippedI, updatedR, skippedR, updatedA, skippedA;
      identities, updatedI, skippedI := ImportRows(Identities, replace, identities, s.identities);
      relations, updatedR, skippedR := ImportRows(Relations, replace, relations, s.relations);
      agents, updatedA, skippedA := ImportAgents(agents, s.agents);
      CountersAddUp(Identities, replace, old(identities), s.identities);
      CountersAddUp(Relations, replace, old(relations), s.relations);
      AgentCountersAddUp(old(agents), s.agents);
      stats := Stats(updatedI, updatedR, updatedA, skippedI + skippedR + skippedA);
    }
  }

  /** The calls of `maybe`, one for each column. */
  method MergeRow(kind: Kind, replace: bool, existing: seq<Val>, imported: seq<Val>)
    returns (values: seq<Val>, updates: bool)
    requires |existing| == |imported|
    ensures values == TakeAll(kind, replace, existing, imported)
    ensures updates <==> UpdatesAny(kind, replace, existing, imported)
  {
    values, updates := [], false;
    var c := 0;
    while c < |existing|
      invariant 0 <= c <= |existing|
      invariant values == TakeAll(kind, replace, existing, imported)[..c]
      invariant updates <==> exists d :: 0 <= d < c && Updates(kind, replace, existing[d], imported[d])
    {
      if imported[c] == Null || (!replace && !IsDefault(kind, existing[c])) {
        values := values + [existing[c]];
      } else {
        values := values + [imported[c]];
        updates := true;
      }
      c := c + 1;
    }
  }

  /** The loop over `snapshot.identities`, and the one over `snapshot.relationStates`. */
  method ImportRows(kind: Kind, replace: bool, table: Table, items: seq<Item>)
    returns (rows: Table, updated: nat, skipped: nat)
    requires Shaped(kind, table, items)
    ensures Progress(rows, updated, skipped) == Apply(kind, replace, table, items)
  {
    rows, updated, skipped := table, 0, 0;
    var n := 0;
    while n < |items|
      invariant 0 <= n <= |items|
      invariant Shaped(kind, rows, items)
      invariant Shaped(kind, table, items[..n])
      invariant Progress(rows, updated, skipped) == Apply(kind, replace, table, items[..n])
    {
      ApplyOneMore(kind, replace, table, items, n);
      rows, updated, skipped := ImportRow(kind, replace, rows, items[n], updated, skipped);
      n := n + 1;
    }
    assert items[..n] == items;
  }

  /** The body of those loops. */
  method ImportRow(kind: Kind, replace: bool, table: Table, item: Item, updated: nat, skipped: nat)
    returns (rows: Table, updated': nat, skipped': nat)
    requires Shaped(kind, table, [item])
    ensures Progress(rows, updated', skipped') == Step(kind, replace, Progress(table, updated, skipped), item)
  {
    rows, updated', skipped' := table, updated, skipped;
    if item.key.None? { return; }
    var i := Find(rows, item.key.value);
    if i == |rows| {
      skipped' := skipped + 1;
      return;
    }
    assert [item][0] == item;
    var values, updates := MergeRow(kind, replace, rows[i].vals, item.vals);
    if updates {
      rows, updated' := rows[i := Row(rows[i].key, values)], updated + 1;
    } else {
      skipped' := skipped + 1;
    }
  }

  lemma {:induction false} ApplyOneMore(kind: Kind, replace: bool, table: Table, items: seq<Item>, n: nat)
    requires Shaped(kind, table, items) && n < |items|
    ensures Shaped(kind, table, items[..n]) && Shaped(kind, table, items[..n + 1])
    ensures Shaped(kind, Apply(kind, replace, table, items[..n]).table, [items[n]])
    ensures Apply(kind, replace, table, items[..n + 1]) == Step(kind, replace, Apply(kind, replace, table, items[..n]), items[n])
  {
    assert items[..n + 1][..n] == items[..n];
  }

  /** The loop over `snapshot.agents`. */
  method ImportAgents(agents: seq<Agent>, items: seq<AgentItem>) returns (rows: seq<Agent>, updated: nat, skipped: nat)
    requires Wide(agents) && WideItems(items)
    ensures AgentProgress(rows, updated, skipped) == ApplyAgents(agents, items)
  {
    rows, updated, skipped := agents, 0, 0;
    var n := 0;
    while n < |items|
      invariant 0 <= n <= |items| && WideItems(items[..n])
      invariant AgentProgress(rows, updated, skipped) == ApplyAgents(agents, items[..n])
    {
      assert items[..n + 1][..n] == items[..n];
      var item := items[n];
      n := n + 1;
      if item.address.None? { continue; }
      var i := FindAgent(rows, item.address.value);
      if i == |rows| {
        skipped := skipped + 1;
        continue;
      }
      if Changes(item) {
        rows, updated := rows[i := Updated(rows[i], item)], updated + 1;
      } else {
        skipped := skipped + 1;
      }
    }
    assert items[..n] == items;
  }

  function KeyedAgents(items: seq<AgentItem>): nat {
    if items == [] then 0 else KeyedAgents(items[..|items| - 1]) + (if items[|items| - 1].address.Some? then 1 else 0)
  }

  lemma {:induction false} AgentCountersAddUp(agents: seq<Agent>, items: seq<AgentItem>)
    requires Wide(agents) && WideItems(items)
    ensures var p := ApplyAgents(agents, items); p.updated + p.skipped == KeyedAgents(items)
  {
    if items != [] {
      var init := items[..|items| - 1];
      assert forall i :: 0 <= i < |init| ==> init[i] == items[i];
      AgentCountersAddUp(agents, init);
    }
  }

  // ---------- importing one's own export ----------

  predicate DistinctAddresses(agents: seq<Agent>) {
    forall i, j :: 0 <= i < j < |agents| ==> agents[i].address != agents[j].address
  }

  /** The first `n` agents updated by their own exports. */
  function Refreshed(agents: seq<Agent>, n: nat): (r: seq<Agent>)
    requires n <= |agents| && AllReadable(agents)
    ensures |r| == |agents|
  {
    seq(|agents|, i requires 0 <= i < |agents| =>
      if i < n then Updated(agents[i], ExportAgent(agents[i])) else agents[i])
  }

  lemma {:induction false} RefreshNext(agents: seq<Agent>, n: nat, p: AgentProgress)
    requires Wide(agents) && DistinctAddresses(agents) && AllReadable(agents) && n < |agents|
    requires p.agents == Refreshed(agents, n)
    ensures Wide(p.agents) && |ExportAgent(agents[n]).plain| == PLAIN
    ensures AgentStep(p, ExportAgent(agents[n])).agents == Refreshed(agents, n + 1)
  {
    var item := ExportAgent(agents[n]);
    assert forall j :: 0 <= j < |agents| ==> p.agents[j].address == agents[j].address;
    assert p.agents[n] == agents[n];
    assert FindAgent(p.agents, agents[n].address) == n;
    assert Changes(item);
    assert Refreshed(agents, n + 1) == p.agents[n := Updated(agents[n], item)];
  }

  lemma {:induction false} OwnAgentsAreRefreshed(agents: seq<Agent>, n: nat)
    requires Wide(agents) && DistinctAddresses(agents) && n <= |agents| && AllReadable(agents)
    ensures WideItems(ExportAgents(agents)[..n])
    ensures ApplyAgents(agents, ExportAgents(agents)[..n]).agents == Refreshed(agents, n)
  {
    if n == 0 {
      assert Refreshed(agents, 0) == agents;
    } else {
      var items := ExportAgents(agents);
      OwnAgentsAreRefreshed(agents, n - 1);
      assert items[..n][..n - 1] == items[..n - 1];
      RefreshNext(agents, n - 1, ApplyAgents(agents, items[..n - 1]));
    }
  }

  /** A stored override that decodes to false, 0 or "" is exported as such and imported as null. */
  predicate LosesOverride(a: Agent) {
    a.overrides.Doc? && Falsy(a.overrides.value) && a.overrides.value != JNull
  }

  lemma {:induction false} ReexportOfAgent(a: Agent)
    requires Readable(a) && |a.plain| == PLAIN
    ensures
      var again := Updated(a, ExportAgent(a));
      Readable(again) && (ExportAgent(again) == ExportAgent(a) <==> !LosesOverride(a))
  {
    var again := Updated(a, ExportAgent(a));
    assert again.plain == a.plain;
  }

  /** The agents' half of the round trip. */
  lemma {:induction false} OwnAgentsExportIff(agents: seq<Agent>)
    requires Wide(agents) && DistinctAddresses(agents) && AllReadable(agents)
    ensures WideItems(ExportAgents(agents))
    ensures
      var after := ApplyAgents(agents, ExportAgents(agents)).agents;
      && AllReadable(after)
      && (ExportAgents(after) == ExportAgents(agents) <==> forall i :: 0 <= i < |agents| ==> !LosesOverride(agents[i]))
  {
    var items := ExportAgents(agents);
    OwnAgentsAreRefreshed(agents, |agents|);
    assert items[..|agents|] == items;
    RefreshedExportIff(agents);
  }

  lemma {:induction false} RefreshedExportIff(agents: seq<Agent>)
    requires Wide(agents) && AllReadable(agents)
    ensures
      var after := Refreshed(agents, |agents|);
      && AllReadable(after)
      && (ExportAgents(after) == ExportAgents(agents) <==> forall i :: 0 <= i < |agents| ==> !LosesOverride(agents[i]))
  {
    var after := Refreshed(agents, |agents|);
    forall i | 0 <= i < |agents|
      ensures Readable(after[i])
      ensures ExportAgent(after[i]) == ExportAgent(agents[i]) <==> !LosesOverride(agents[i])
    {
      ReexportOfAgent(agents[i]);
    }
    if forall i :: 0 <= i < |agents| ==> !LosesOverride(agents[i]) {
      assert ExportAgents(after) == ExportAgents(agents);
    } else {
      var i :| 0 <= i < |agents| && LosesOverride(agents[i]);
      assert ExportAgents(after)[i] != ExportAgents(agents)[i];
    }
  }

  /**
   * Importing a database's own export, in either mode, leaves its export as it was exactly when
   * rows that share a key agree in what they export, and no agent's stored override decodes to
   * false, 0 or "".
   */
  lemma {:induction false} OwnImportKeepsExportIff(identities: Table, relations: Table, agents: seq<Agent>, replace: bool)
    requires Shaped(Identities, identities, []) && Shaped(Relations, relations, [])
    requires Wide(agents) && DistinctAddresses(agents) && AllReadable(agents)
    ensures WideItems(ExportAgents(agents))
    ensures
      var identities' := Apply(Identities, replace, identities, Export(Identities, identities)).table;
      var relations' := Apply(Relations, replace, relations, Export(Relations, relations)).table;
      var agents' := ApplyAgents(agents, ExportAgents(agents)).agents;
      && AllReadable(agents')
      && (Snapshot(Export(Identities, identities'), Export(Relations, relations'), ExportAgents(agents'))
            == Snapshot(Export(Identities, identities), Export(Relations, relations), ExportAgents(agents))
          <==>
          && Keeps(Identities, replace, identities) && Keeps(Relations, replace, relations)
          && forall i :: 0 <= i < |agents| ==> !LosesOverride(agents[i]))
  {
    OwnExportIsStableIff(Identities, replace, identities);
    OwnExportIsStableIff(Relations, replace, relations);
    OwnAgentsExportIff(agents);
  }

  // ---------- the agents' fields after any import ----------

  predicate Names(item: AgentItem, address: string) { item.address == Some(address) }

  /** The last value an entry for the address gives a plain column. */
  function LastPlain(items: seq<AgentItem>, address: string, c: nat): (r: Option<Val>)
    requires WideItems(items) && c < PLAIN
    ensures r.None? <==> forall n :: 0 <= n < |items| && Names(items[n], address) ==> items[n].plain[c] == Null
    ensures r.Some? ==> r.value != Null && exists n :: 0 <= n < |items| && GivesPlain(items, n, address, c, r.value)
  {
    if items == [] then None
    else
      var n := |items| - 1;
      assert forall k :: 0 <= k < n ==> items[..n][k] == items[k];
      if Names(items[n], address) && items[n].plain[c] != Null then
        assert GivesPlain(items, n, address, c, items[n].plain[c]);
        Some(items[n].plain[c])
      else
        assert forall k, v :: 0 <= k < n && GivesPlain(items[..n], k, address, c, v) ==> GivesPlain(items, k, address, c, v);
        LastPlain(items[..n], address, c)
  }

  predicate GivesPlain(items: seq<AgentItem>, n: nat, address: string, c: nat, v: Val)
    requires WideItems(items) && n < |items| && c < PLAIN
  {
    && Names(items[n], address) && items[n].plain[c] == v
    && forall k :: n < k < |items| && Names(items[k], address) ==> items[k].plain[c] == Null
  }

  /** The last principles an entry for the address gives. */
  function LastPrinciples(items: seq<AgentItem>, address: string): (r: Option<Json>)
    ensures r.None? <==> forall n :: 0 <= n < |items| && Names(items[n], address) ==> items[n].principles == JNull
    ensures r.Some? ==> r.value != JNull && exists n :: 0 <= n < |items| && GivesPrinciples(items, n, address, r.value)
  {
    if items == [] then None
    else
      var n := |items| - 1;
      assert forall k :: 0 <= k < n ==> items[..n][k] == items[k];
      if Names(items[n], address) && items[n].principles != JNull then
        assert GivesPrinciples(items, n, address, items[n].principles);
        Some(items[n].principles)
      else
        assert forall k, v :: 0 <= k < n && GivesPrinciples(items[..n], k, address, v) ==> GivesPrinciples(items, k, address, v);
        LastPrinciples(items[..n], address)
  }

  predicate GivesPrinciples(items: seq<AgentItem>, n: nat, address: string, v: Json)
    requires n < |items|
  {
    && Names(items[n], address) && items[n].principles == v
    && forall k :: n < k < |items| && Names(items[k], address) ==> items[k].principles == JNull
  }

  /** The last overrides an entry for the address has, null included. */
  function LastOverride(items: seq<AgentItem>, address: string): (r: Option<Json>)
    ensures r.None? <==> forall n :: 0 <= n < |items| && Names(items[n], address) ==> items[n].overrides == None
    ensures r.Some? ==> exists n :: 0 <= n < |items| && GivesOverride(items, n, address, r.value)
  {
    if items == [] then None
    else
      var n := |items| - 1;
      assert forall k :: 0 <= k < n ==> items[..n][k] == items[k];
      if Names(items[n], address) && items[n].overrides.Some? then
        assert GivesOverride(items, n, address, items[n].overrides.value);
        items[n].overrides
      else
        assert forall k, v :: 0 <= k < n && GivesOverride(items[..n], k, address, v) ==> GivesOverride(items, k, address, v);
        LastOverride(items[..n], address)
  }

  predicate GivesOverride(items: seq<AgentItem>, n: nat, address: string, v: Json)
    requires n < |items|
  {
    && Names(items[n], address) && items[n].overrides == Some(v)
    && forall k :: n < k < |items| && Names(items[k], address) ==> items[k].overrides == None
  }

  function OverrideColumn(v: Json): Column { if Falsy(v) then NoText else Doc(v) }

  /** Closed form of an agent after an import: the last thing said about each of its fields. */
  function SettledAgent(a: Agent, items: seq<AgentItem>): Agent
    requires |a.plain| == PLAIN && WideItems(items)
  {
    var principles, overrides := LastPrinciples(items, a.address), LastOverride(items, a.address);
    Agent(a.address,
          seq(PLAIN, c requires 0 <= c < PLAIN =>
            var v := LastPlain(items, a.address, c);
            if v.Some? then v.value else a.plain[c]),
          if principles.Some? then Doc(principles.value) else a.principles,
          if overrides.Some? then OverrideColumn(overrides.value) else a.overrides)
  }

  lemma {:induction false} SettledAgentStep(a: Agent, init: seq<AgentItem>, last: AgentItem)
    requires |a.plain| == PLAIN && WideItems(init) && |last.plain| == PLAIN
    ensures WideItems(init + [last])
    ensures SettledAgent(a, init + [last])
         == if Names(last, a.address) then Updated(SettledAgent(a, init), last) else SettledAgent(a, init)
  {
    var items := init + [last];
    assert items[..|init|] == init;
    var after := if Names(last, a.address) then Updated(SettledAgent(a, init), last) else SettledAgent(a, init);
    assert SettledAgent(a, items).plain == after.plain;
  }

  lemma {:induction false} UpdatedByNothing(a: Agent, item: AgentItem)
    requires |a.plain| == |item.plain| && !Changes(item)
    ensures Updated(a, item) == a
  {
    assert Updated(a, item).plain == a.plain;
  }

  lemma {:induction false} FindAgentByAddresses(a: seq<Agent>, b: seq<Agent>, address: string)
    requires |a| == |b| && forall i :: 0 <= i < |a| ==> a[i].address == b[i].address
    ensures FindAgent(a, address) == FindAgent(b, address)
  {
  }

  /** After an import the first agent with an address has its closed form, and every other is as it was. */
  lemma {:induction false} AgentAfter(agents: seq<Agent>, items: seq<AgentItem>, i: nat)
    requires Wide(agents) && WideItems(items) && i < |agents|
    ensures forall j :: 0 <= j < |agents| ==> ApplyAgents(agents, items).agents[j].address == agents[j].address
    ensures ApplyAgents(agents, items).agents[i]
         == if FindAgent(agents, agents[i].address) == i then SettledAgent(agents[i], items) else agents[i]
  {
    var a := agents[i];
    if items == [] {
      assert SettledAgent(a, []).plain == a.plain;
    } else {
      var init, last := items[..|items| - 1], items[|items| - 1];
      assert forall j :: 0 <= j < |init| ==> init[j] == items[j];
      assert items == init + [last];
      AgentAfter(agents, init, i);
      SettledAgentStep(a, init, last);
      var p := ApplyAgents(agents, init);
      FindAgentByAddresses(agents, p.agents, a.address);
      AgentStepAt(p, last, i);
    }
  }

  lemma {:induction false} AgentStepAt(p: AgentProgress, item: AgentItem, i: nat)
    requires Wide(p.agents) && |item.plain| == PLAIN && i < |p.agents|
    ensures forall j :: 0 <= j < |p.agents| ==> AgentStep(p, item).agents[j].address == p.agents[j].address
    ensures AgentStep(p, item).agents[i]
         == if Names(item, p.agents[i].address) && FindAgent(p.agents, p.agents[i].address) == i
            then Updated(p.agents[i], item) else p.agents[i]
  {
    if !Changes(item) { UpdatedByNothing(p.agents[i], item); }
  }

  lemma {:induction false} SettledAgentTwice(a: Agent, items: seq<AgentItem>)
    requires |a.plain| == PLAIN && WideItems(items)
    ensures SettledAgent(SettledAgent(a, items), items) == SettledAgent(a, items)
  {
    assert SettledAgent(SettledAgent(a, items), items).plain == SettledAgent(a, items).plain;
  }

  /** Importing the same agents a second time changes nothing. */
  lemma {:induction false} AgentImportIsIdempotent(agents: seq<Agent>, items: seq<AgentItem>)
    requires Wide(agents) && WideItems(items)
    ensures
      var once := ApplyAgents(agents, items).agents;
      ApplyAgents(once, items).agents == once
  {
    var once := ApplyAgents(agents, items).agents;
    var twice := ApplyAgents(once, items).agents;
    forall i | 0 <= i < |agents| ensures twice[i] == once[i] {
      AgentAfter(agents, items, i);
      AgentAfter(once, items, i);
      FindAgentByAddresses(agents, once, agents[i].address);
      SettledAgentTwice(agents[i], items);
    }
  }

  /**
   * An import changes a field of an agent, whatever the mode and whatever the field held before,
   * exactly when the last entry for that agent to give the field gives something else.
   */
  lemma {:induction false} ImportOverwritesAgentIff(agents: seq<Agent>, items: seq<AgentItem>, i: nat, c: nat)
    requires Wide(agents) && WideItems(items) && i < |agents| && c < PLAIN
    requires FindAgent(agents, agents[i].address) == i
    ensures
      var a, after := agents[i], ApplyAgents(agents, items).agents[i];
      var plain, principles, overrides :=
        LastPlain(items, a.address, c), LastPrinciples(items, a.address), LastOverride(items, a.address);
      && |after.plain| == PLAIN
      && (after.plain[c] != a.plain[c] <==> plain.Some? && plain.value != a.plain[c])
      && (after.principles != a.principles <==> principles.Some? && Doc(principles.value) != a.principles)
      && (after.overrides != a.overrides <==> overrides.Some? && OverrideColumn(overrides.value) != a.overrides)
  {
    AgentAfter(agents, items, i);
  }

  /** So a merge import replaces a vision that was set, which it leaves alone in the other tables. */
  lemma {:induction false} MergeOverwritesAVision(a: Agent, item: AgentItem)
    requires a.plain == [Text("mine"), Null, Null, Null, Null, Null]
    requires item == AgentItem(Some(a.address), [Text("theirs"), Null, Null, Null, Null, Null], JNull, None)
    ensures ApplyAgents([a], [item]).agents[0].plain[0] == Text("theirs")
    ensures Take(Identities, false, Text("mine"), Text("theirs")) == Text("mine")
  {
    assert FindAgent([a], a.address) == 0;
    assert LastPlain([item], a.address, 0) == Some(Text("theirs"));
    AgentAfter([a], [item], 0);
  }

  // ---------- restoring the agents ----------

  /** Neither null nor any other value that counts as false. */
  predicate Kept(v: Json) { v != JNull && v != JBool(false) && v != JNum(0) && v != JText("") }

  /** In an export of agents with distinct addresses, one entry speaks of each. */
  lemma {:induction false} OneEntryEach(source: seq<Agent>, j: nat)
    requires Wide(source) && AllReadable(source) && DistinctAddresses(source) && j < |source|
    ensures WideItems(ExportAgents(source))
    ensures forall n :: 0 <= n < |source| ==> (Names(ExportAgents(source)[n], source[j].address) <==> n == j)
  {
    forall n | 0 <= n < |source|
      ensures Names(ExportAgents(source)[n], source[j].address) <==> n == j
    {
      assert n < j ==> source[n].address != source[j].address;
    }
  }

  /**
   * What an import of exported agents restores: each plain column the source had set, the decoded
   * principles (an empty list for a column without text), and the overrides, whose column is
   * cleared when the source had none or one that counts as false.
   */
  lemma {:induction false} AgentIsRestored(source: seq<Agent>, agents: seq<Agent>, j: nat, i: nat)
    requires Wide(source) && AllReadable(source) && DistinctAddresses(source) && Wide(agents)
    requires j < |source| && i < |agents| && agents[i].address == source[j].address
    requires forall k :: 0 <= k < i ==> agents[k].address != agents[i].address
    ensures WideItems(ExportAgents(source))
    ensures
      var from, was := source[j], agents[i];
      var after := ApplyAgents(agents, ExportAgents(source)).agents[i];
      && after.address == was.address && |after.plain| == PLAIN
      && (forall c :: 0 <= c < PLAIN ==> after.plain[c] == if from.plain[c] != Null then from.plain[c] else was.plain[c])
      && after.principles == (if !from.principles.Doc? then Doc(JArray([]))
                              else if from.principles.value != JNull then Doc(from.principles.value)
                              else was.principles)
      && after.overrides == (if from.overrides.Doc? && Kept(from.overrides.value) then Doc(from.overrides.value) else NoText)
  {
    var items := ExportAgents(source);
    OneEntryEach(source, j);
    AgentAfter(agents, items, i);
    assert FindAgent(agents, agents[i].address) == i;
    assert Names(items[j], agents[i].address);
    forall c | 0 <= c < PLAIN
      ensures LastPlain(items, agents[i].address, c) == if source[j].plain[c] == Null then None else Some(source[j].plain[c])
    {
      assert items[j].plain[c] == source[j].plain[c];
    }
  }

  /** An agent that is not in the source, or not the first with its address, stays as it is. */
  lemma {:induction false} OtherAgentsStay(source: seq<Agent>, agents: seq<Agent>, i: nat)
    requires Wide(source) && AllReadable(source) && Wide(agents) && i < |agents|
    requires
      || (exists k :: 0 <= k < i && agents[k].address == agents[i].address)
      || (forall j :: 0 <= j < |source| ==> source[j].address != agents[i].address)
    ensures WideItems(ExportAgents(source))
    ensures ApplyAgents(agents, ExportAgents(source)).agents[i] == agents[i]
  {
    var items := ExportAgents(source);
    AgentAfter(agents, items, i);
    if forall j :: 0 <= j < |source| ==> source[j].address != agents[i].address {
      assert forall n :: 0 <= n < |items| ==> !Names(items[n], agents[i].address);
      assert SettledAgent(agents[i], items).plain == agents[i].plain;
    }
  }

  /** A row whose columns survive its own export: principles with text, overrides that are kept or none. */
  predicate Faithful(a: Agent) {
    a.principles.Doc? && (a.overrides.NoText? || (a.overrides.Doc? && Kept(a.overrides.value)))
  }

  /** Importing one's own export leaves the stored columns of an agent as they are exactly for such rows. */
  lemma {:induction false} OwnImportKeepsAgentIff(agents: seq<Agent>, i: nat)
    requires Wide(agents) && AllReadable(agents) && DistinctAddresses(agents) && i < |agents|
    ensures WideItems(ExportAgents(agents))
    ensures ApplyAgents(agents, ExportAgents(agents)).agents[i] == agents[i] <==> Faithful(agents[i])
  {
    AgentIsRestored(agents, agents, i, i);
    var after := ApplyAgents(agents, ExportAgents(agents)).agents[i];
    assert after.plain == agents[i].plain;
  }

  /** And the whole database, in either mode, exactly when that holds of every agent and keys keep. */
  lemma {:induction false} OwnImportKeepsDatabaseIff(identities: Table, relations: Table, agents: seq<Agent>, replace: bool)
    requires Shaped(Identities, identities, []) && Shaped(Relations, relations, [])
    requires Wide(agents) && DistinctAddresses(agents) && AllReadable(agents)
    ensures WideItems(ExportAgents(agents))
    ensures
      && Apply(Identities, replace, identities, Export(Identities, identities)).table == identities
      && Apply(Relations, replace, relations, Export(Relations, relations)).table == relations
      && ApplyAgents(agents, ExportAgents(agents)).agents == agents
      <==>
      && Keeps(Identities, replace, identities) && Keeps(Relations, replace, relations)
      && forall i :: 0 <= i < |agents| ==> Faithful(agents[i])
  {
    OwnExportChangesNothingIff(Identities, replace, identities);
    OwnExportChangesNothingIff(Relations, replace, relations);
    var after := ApplyAgents(agents, ExportAgents(agents)).agents;
    forall i | 0 <= i < |agents| ensures after[i] == agents[i] <==> Faithful(agents[i]) {
      OwnImportKeepsAgentIff(agents, i);
    }
    if after == agents {
      assert forall i :: 0 <= i < |agents| ==> after[i] == agents[i];
    }
  }
}
