/**
 * The backup of the owner's notes: the export snapshot, and its import in merge and in replace
 * mode, over lists that may repeat a key or name rows that do not exist.
 */
module Backup {
  import opened Common

  /** What a column or a snapshot field holds; an absent field counts as Null. */
  datatype Val = Null | Text(text: string) | Num(n: int)

  datatype Kind = Identities | Relations

  /** Identities are found by address, relation states by the pair of addresses. */
  type Key = seq<string>

  datatype Row = Row(key: Key, vals: seq<Val>)

  /** A snapshot entry; None stands for one without its key fields. */
  datatype Item = Item(key: Option<Key>, vals: seq<Val>)

  type Table = seq<Row>

  function Width(kind: Kind): nat { if kind.Identities? then 4 else 3 }

  /** The columns: display_name, tags, notes, trust_level; classification, trust_level, is_blocked. */
  predicate Shaped(kind: Kind, table: Table, items: seq<Item>) {
    && (forall i :: 0 <= i < |table| ==> |table[i].vals| == Width(kind))
    && (forall i :: 0 <= i < |items| ==> |items[i].vals| == Width(kind))
  }

  /** Values a merge may overwrite. */
  predicate IsDefault(kind: Kind, v: Val) {
    || v in {Null, Text(""), Text("normal")}
    || (kind.Relations? && v in {Text("seen_candidate"), Num(0)})
  }

  // ---------- one entry ----------

  function Take(kind: Kind, replace: bool, existing: Val, imported: Val): Val {
    if imported == Null || (!replace && !IsDefault(kind, existing)) then existing else imported
  }

  predicate Updates(kind: Kind, replace: bool, existing: Val, imported: Val) {
    imported != Null && (replace || IsDefault(kind, existing))
  }

  function TakeAll(kind: Kind, replace: bool, existing: seq<Val>, imported: seq<Val>): (r: seq<Val>)
    requires |existing| == |imported|
    ensures |r| == |existing|
    ensures forall c :: 0 <= c < |existing| ==> r[c] == Take(kind, replace, existing[c], imported[c])
  {
    seq(|existing|, c requires 0 <= c < |existing| => Take(kind, replace, existing[c], imported[c]))
  }

  predicate UpdatesAny(kind: Kind, replace: bool, existing: seq<Val>, imported: seq<Val>)
    requires |existing| == |imported|
  {
    exists c :: 0 <= c < |existing| && Updates(kind, replace, existing[c], imported[c])
  }

  function KeysOf(table: Table): (keys: seq<Key>)
    ensures |keys| == |table| && forall i :: 0 <= i < |table| ==> table[i].key == keys[i]
  {
    seq(|table|, i requires 0 <= i < |table| => table[i].key)
  }

  /** The first row with a key, which is the one `.get()` returns; |table| when there is none. */
  function Find(table: Table, key: Key): (i: nat)
    ensures i <= |table|
    ensures i < |table| ==> table[i].key == key
    ensures forall j :: 0 <= j < i ==> table[j].key != key
  {
    FirstIndex(KeysOf(table), key)
  }

  datatype Progress = Progress(table: Table, updated: nat, skipped: nat)

  function Step(kind: Kind, replace: bool, p: Progress, item: Item): (r: Progress)
    requires Shaped(kind, p.table, [item])
    ensures |r.table| == |p.table| && forall i :: 0 <= i < |p.table| ==> r.table[i].key == p.table[i].key
    ensures Shaped(kind, r.table, [])
  {
    if item.key.None? then p
    else
      var i := Find(p.table, item.key.value);
      assert |[item][0].vals| == Width(kind);
      if i == |p.table| || !UpdatesAny(kind, replace, p.table[i].vals, item.vals) then p.(skipped := p.skipped + 1)
      else p.(table := p.table[i := Row(p.table[i].key, TakeAll(kind, replace, p.table[i].vals, item.vals))],
              updated := p.updated + 1)
  }

  function Apply(kind: Kind, replace: bool, table: Table, items: seq<Item>): (r: Progress)
    requires Shaped(kind, table, items)
    ensures |r.table| == |table| && forall i :: 0 <= i < |table| ==> r.table[i].key == table[i].key
    ensures Shaped(kind, r.table, items)
  {
    if items == [] then Progress(table, 0, 0)
    else
      var init := items[..|items| - 1];
      assert forall i :: 0 <= i < |init| ==> init[i] == items[i];
      Step(kind, replace, Apply(kind, replace, table, init), items[|items| - 1])
  }

  // ---------- what an import should do, field by field ----------

  /** What the entries with a key say about one column, in order. */
  function Imports(items: seq<Item>, key: Key, c: nat): seq<Val>
    requires forall i :: 0 <= i < |items| ==> c < |items[i].vals|
  {
    if items == [] then []
    else
      var last := items[|items| - 1];
      Imports(items[..|items| - 1], key, c) + (if last.key == Some(key) then [last.vals[c]] else [])
  }

  predicate HasNonDefault(kind: Kind, vs: seq<Val>) { exists i :: 0 <= i < |vs| && !IsDefault(kind, vs[i]) }

  function FirstNonDefault(kind: Kind, vs: seq<Val>): (v: Val)
    requires HasNonDefault(kind, vs)
    ensures exists i :: 0 <= i < |vs| && v == vs[i] && !IsDefault(kind, v) && forall j :: 0 <= j < i ==> IsDefault(kind, vs[j])
  {
    if !IsDefault(kind, vs[0]) then vs[0] else FirstNonDefault(kind, vs[1..])
  }

  predicate HasNonNull(vs: seq<Val>) { exists i :: 0 <= i < |vs| && vs[i] != Null }

  function LastNonNull(vs: seq<Val>): (v: Val)
    requires HasNonNull(vs)
    ensures exists i :: 0 <= i < |vs| && v == vs[i] && v != Null && forall j :: i < j < |vs| ==> vs[j] == Null
  {
    if vs[|vs| - 1] != Null then vs[|vs| - 1] else LastNonNull(vs[..|vs| - 1])
  }

  /** The value a field settles at, in closed form. */
  function Settled(kind: Kind, replace: bool, existing: Val, vs: seq<Val>): Val {
    if !replace && !IsDefault(kind, existing) then existing
    else if !replace && HasNonDefault(kind, vs) then FirstNonDefault(kind, vs)
    else if HasNonNull(vs) then LastNonNull(vs)
    else existing
  }

  lemma {:induction false} FirstOfAppend(kind: Kind, vs: seq<Val>, v: Val)
    ensures HasNonDefault(kind, vs + [v]) <==> HasNonDefault(kind, vs) || !IsDefault(kind, v)
    ensures HasNonDefault(kind, vs) ==> FirstNonDefault(kind, vs + [v]) == FirstNonDefault(kind, vs)
    ensures !HasNonDefault(kind, vs) && !IsDefault(kind, v) ==> FirstNonDefault(kind, vs + [v]) == v
  {
    assert forall i :: 0 <= i < |vs| ==> (vs + [v])[i] == vs[i];
    assert (vs + [v])[|vs|] == v;
  }

  lemma {:induction false} LastOfAppend(vs: seq<Val>, v: Val)
    ensures HasNonNull(vs + [v]) <==> HasNonNull(vs) || v != Null
    ensures HasNonNull(vs + [v]) ==> LastNonNull(vs + [v]) == if v != Null then v else LastNonNull(vs)
  {
    assert forall i :: 0 <= i < |vs| ==> (vs + [v])[i] == vs[i];
    assert (vs + [v])[|vs|] == v;
    assert (vs + [v])[..|vs|] == vs;
  }

  lemma {:induction false} SettledStep(kind: Kind, replace: bool, existing: Val, vs: seq<Val>, v: Val)
    ensures Settled(kind, replace, existing, vs + [v]) == Take(kind, replace, Settled(kind, replace, existing, vs), v)
  {
    FirstOfAppend(kind, vs, v);
    LastOfAppend(vs, v);
  }

  lemma {:induction false} SettledTwice(kind: Kind, replace: bool, existing: Val, vs: seq<Val>)
    ensures Settled(kind, replace, Settled(kind, replace, existing, vs), vs) == Settled(kind, replace, existing, vs)
  {
  }

  lemma {:induction false} FindByKeys(a: Table, b: Table, key: Key)
    requires |a| == |b| && forall i :: 0 <= i < |a| ==> a[i].key == b[i].key
    ensures Find(a, key) == Find(b, key)
  {
  }

  /** After an import, a field of the first row with its key is settled, and all else is as it was. */
  lemma {:induction false} FieldAfter(kind: Kind, replace: bool, table: Table, items: seq<Item>, i: nat, c: nat)
    requires Shaped(kind, table, items) && i < |table| && c < Width(kind)
    ensures Apply(kind, replace, table, items).table[i].vals[c]
         == if Find(table, table[i].key) == i
            then Settled(kind, replace, table[i].vals[c], Imports(items, table[i].key, c))
            else table[i].vals[c]
  {
    if items != [] {
      var init, last := items[..|items| - 1], items[|items| - 1];
      assert forall j :: 0 <= j < |init| ==> init[j] == items[j];
      FieldAfter(kind, replace, table, init, i, c);
      var p := Apply(kind, replace, table, init);
      var key := table[i].key;
      FindByKeys(table, p.table, key);
      FieldStep(kind, replace, table[i].vals[c], Imports(init, key, c), p, last, i, c);
      assert Imports(items, key, c) == Imports(init, key, c) + (if last.key == Some(key) then [last.vals[c]] else []);
    }
  }

  lemma {:induction false} FieldStep(kind: Kind, replace: bool, was: Val, vs: seq<Val>, p: Progress, item: Item, i: nat, c: nat)
    requires Shaped(kind, p.table, [item]) && i < |p.table| && c < Width(kind)
    requires p.table[i].vals[c] == if Find(p.table, p.table[i].key) == i then Settled(kind, replace, was, vs) else was
    ensures |item.vals| == Width(kind)
    ensures
      var vs' := vs + (if item.key == Some(p.table[i].key) then [item.vals[c]] else []);
      Step(kind, replace, p, item).table[i].vals[c]
        == if Find(p.table, p.table[i].key) == i then Settled(kind, replace, was, vs') else was
  {
    StepAt(kind, replace, p, item, i, c);
    SettledStep(kind, replace, was, vs, item.vals[c]);
    assert vs + [] == vs;
  }

  lemma {:induction false} StepAt(kind: Kind, replace: bool, p: Progress, item: Item, i: nat, c: nat)
    requires Shaped(kind, p.table, [item]) && i < |p.table| && c < Width(kind)
    ensures |item.vals| == Width(kind)
    ensures Step(kind, replace, p, item).table[i].vals[c]
         == if item.key == Some(p.table[i].key) && Find(p.table, p.table[i].key) == i
            then Take(kind, replace, p.table[i].vals[c], item.vals[c])
            else p.table[i].vals[c]
  {
    assert |[item][0].vals| == Width(kind);
    if item.key == Some(p.table[i].key) && Find(p.table, p.table[i].key) == i {
      assert !UpdatesAny(kind, replace, p.table[i].vals, item.vals) ==>
        !Updates(kind, replace, p.table[i].vals[c], item.vals[c]);
    }
  }

  lemma {:induction false} SameTable(kind: Kind, a: Table, b: Table)
    requires |a| == |b| && Shaped(kind, a, []) && Shaped(kind, b, [])
    requires forall i :: 0 <= i < |a| ==> a[i].key == b[i].key
    requires forall i, c :: 0 <= i < |a| && 0 <= c < Width(kind) ==> a[i].vals[c] == b[i].vals[c]
    ensures a == b
  {
    forall i | 0 <= i < |a| ensures a[i] == b[i] {
      assert a[i].vals == b[i].vals;
    }
  }

  /** Importing the same list a second time changes nothing. */
  lemma {:induction false} ImportIsIdempotent(kind: Kind, replace: bool, table: Table, items: seq<Item>)
    requires Shaped(kind, table, items)
    ensures
      var once := Apply(kind, replace, table, items).table;
      Apply(kind, replace, once, items).table == once
  {
    var once := Apply(kind, replace, table, items).table;
    var twice := Apply(kind, replace, once, items).table;
    forall i, c | 0 <= i < |table| && 0 <= c < Width(kind) ensures twice[i].vals[c] == once[i].vals[c] {
      FieldAfter(kind, replace, table, items, i, c);
      FieldAfter(kind, replace, once, items, i, c);
      FindByKeys(table, once, table[i].key);
      SettledTwice(kind, replace, table[i].vals[c], Imports(items, table[i].key, c));
    }
    SameTable(kind, twice, once);
  }

  function Keyed(items: seq<Item>): nat {
    if items == [] then 0 else Keyed(items[..|items| - 1]) + (if items[|items| - 1].key.Some? then 1 else 0)
  }

  /** Every entry with a key is counted once, as an update or as skipped. */
  lemma {:induction false} CountersAddUp(kind: Kind, replace: bool, table: Table, items: seq<Item>)
    requires Shaped(kind, table, items)
    ensures var p := Apply(kind, replace, table, items); p.updated + p.skipped == Keyed(items)
  {
    if items != [] {
      var init := items[..|items| - 1];
      assert forall j :: 0 <= j < |init| ==> init[j] == items[j];
      CountersAddUp(kind, replace, table, init);
    }
  }

  /** What a merge leaves alone: whatever is set, except `normal`, and for relations `seen_candidate` and 0. */
  predicate OwnerSet(kind: Kind, v: Val) {
    && v != Null && v != Text("") && v != Text("normal")
    && (kind == Relations ==> v != Text("seen_candidate") && v != Num(0))
  }

  /**
   * Importing one entry: each column of the row with its key takes the entry's value, unless the
   * entry has none there or, in merge mode, the owner set the column.  Any other row stays.
   */
  lemma {:induction false} OneEntryIff(kind: Kind, replace: bool, table: Table, item: Item, i: nat, c: nat)
    requires Shaped(kind, table, [item]) && i < |table| && c < Width(kind)
    ensures Width(Identities) == 4 && Width(Relations) == 3
    ensures |item.vals| == Width(kind)
    ensures
      var was, after := table[i].vals[c], Apply(kind, replace, table, [item]).table[i].vals[c];
      var first := item.key == Some(table[i].key) && forall j :: 0 <= j < i ==> table[j].key != table[i].key;
      after == if first && item.vals[c] != Null && (replace || !OwnerSet(kind, was)) then item.vals[c] else was
  {
    assert |[item][0].vals| == Width(kind);
    assert [item][..0] == [];
    assert Imports([item], table[i].key, c) == if item.key == Some(table[i].key) then [item.vals[c]] else [];
    FieldAfter(kind, replace, table, [item], i, c);
  }

  /** And it is counted as an update exactly when some column was open to it. */
  lemma {:induction false} OneEntryCounts(kind: Kind, replace: bool, table: Table, item: Item, i: nat)
    requires Shaped(kind, table, [item]) && i < |table| && item.key == Some(table[i].key)
    requires forall j :: 0 <= j < i ==> table[j].key != table[i].key
    ensures |item.vals| == Width(kind)
    ensures
      var p := Apply(kind, replace, table, [item]);
      var open := exists c :: 0 <= c < Width(kind) && item.vals[c] != Null && (replace || !OwnerSet(kind, table[i].vals[c]));
      p.updated == (if open then 1 else 0) && p.skipped == (if open then 0 else 1)
  {
    assert |[item][0].vals| == Width(kind);
    assert [item][..0] == [];
    assert Find(table, table[i].key) == i;
    assert forall c :: 0 <= c < Width(kind) ==>
      (Updates(kind, replace, table[i].vals[c], item.vals[c])
       <==> item.vals[c] != Null && (replace || !OwnerSet(kind, table[i].vals[c])));
  }

  // ---------- the export ----------

  /** Identities are exported once something about them was set; relation states always. */
  predicate Exported(kind: Kind, vals: seq<Val>)
    requires |vals| == Width(kind)
  {
    kind.Relations? || vals[0] != Null || vals[1] != Null || vals[2] != Null || vals[3] !in {Null, Text("normal")}
  }

  function Export(kind: Kind, table: Table): (items: seq<Item>)
    requires Shaped(kind, table, [])
    ensures Shaped(kind, table, items)
    ensures forall e :: e in items <==> exists i :: 0 <= i < |table| && ExportedAs(kind, table[i], e)
  {
    if table == [] then []
    else
      var n := |table| - 1;
      var items := Export(kind, table[..n]);
      assert forall i :: 0 <= i < n ==> table[i] == table[..n][i];
      items + (if Exported(kind, table[n].vals) then [Item(Some(table[n].key), table[n].vals)] else [])
  }

  predicate ExportedAs(kind: Kind, row: Row, e: Item) {
    |row.vals| == Width(kind) && Exported(kind, row.vals) && e == Item(Some(row.key), row.vals)
  }

  /** Every relation state is exported, and an identity once a name, tags, notes or a trust level was set. */
  lemma {:induction false} ExportedIff(kind: Kind, table: Table, i: nat)
    requires Shaped(kind, table, []) && i < |table|
    ensures
      var vals := table[i].vals;
      Item(Some(table[i].key), vals) in Export(kind, table) <==>
        || kind == Relations
        || vals[0] != Null || vals[1] != Null || vals[2] != Null || (vals[3] != Null && vals[3] != Text("normal"))
  {
  }

  predicate DistinctKeys(table: Table) {
    forall i, j :: 0 <= i < j < |table| ==> table[i].key != table[j].key
  }

  // ---------- importing an export ----------

  /** Row `j` has something to say about a column of the rows with a key. */
  predicate Speaks(kind: Kind, table: Table, j: nat, key: Key, c: nat)
    requires Shaped(kind, table, []) && j < |table| && c < Width(kind)
  {
    table[j].key == key && Exported(kind, table[j].vals) && table[j].vals[c] != Null
  }

  predicate LastToSpeak(kind: Kind, table: Table, j: nat, key: Key, c: nat)
    requires Shaped(kind, table, []) && j < |table| && c < Width(kind)
  {
    Speaks(kind, table, j, key, c) && forall k :: j < k < |table| ==> !Speaks(kind, table, k, key, c)
  }

  /** What the last row to speak says. */
  function LastSpoken(kind: Kind, table: Table, key: Key, c: nat): (r: Option<Val>)
    requires Shaped(kind, table, []) && c < Width(kind)
    ensures r.None? <==> forall j :: 0 <= j < |table| ==> !Speaks(kind, table, j, key, c)
    ensures r.Some? ==> exists j :: 0 <= j < |table| && LastToSpeak(kind, table, j, key, c) && table[j].vals[c] == r.value
  {
    if table == [] then None
    else
      var n := |table| - 1;
      assert forall j :: 0 <= j < n ==> table[..n][j] == table[j];
      assert forall j :: 0 <= j < n ==> Speaks(kind, table[..n], j, key, c) == Speaks(kind, table, j, key, c);
      if Speaks(kind, table, n, key, c) then
        assert LastToSpeak(kind, table, n, key, c);
        Some(table[n].vals[c])
      else
        assert forall j :: 0 <= j < n && LastToSpeak(kind, table[..n], j, key, c) ==> LastToSpeak(kind, table, j, key, c);
        LastSpoken(kind, table[..n], key, c)
  }

  /** Some row speaks of a value a merge does not overwrite. */
  predicate SpeaksUp(kind: Kind, table: Table, key: Key, c: nat)
    requires Shaped(kind, table, []) && c < Width(kind)
  {
    exists j :: 0 <= j < |table| && Speaks(kind, table, j, key, c) && !IsDefault(kind, table[j].vals[c])
  }

  /** What a list of imports says: its last value, and whether any of them is more than a default. */
  predicate Hears(kind: Kind, vs: seq<Val>, last: Option<Val>, up: bool) {
    && (HasNonNull(vs) <==> last.Some?)
    && (HasNonNull(vs) ==> LastNonNull(vs) == last.value)
    && (HasNonDefault(kind, vs) <==> up)
  }

  lemma {:induction false} HearsMore(kind: Kind, vs: seq<Val>, last: Option<Val>, up: bool, v: Val)
    requires Hears(kind, vs, last, up)
    ensures Hears(kind, vs + [v], if v != Null then Some(v) else last, up || !IsDefault(kind, v))
  {
    LastOfAppend(vs, v);
    FirstOfAppend(kind, vs, v);
  }

  lemma {:induction false} ImportsOfExport(kind: Kind, table: Table, key: Key, c: nat)
    requires Shaped(kind, table, []) && c < Width(kind)
    ensures Hears(kind, Imports(Export(kind, table), key, c), LastSpoken(kind, table, key, c), SpeaksUp(kind, table, key, c))
  {
    if table != [] {
      var n := |table| - 1;
      var init, last := table[..n], table[n];
      assert table == init + [last];
      ImportsOfExport(kind, init, key, c);
      SpeaksUpStep(kind, table, key, c);
      ImportsOfSnoc(kind, init, last, key, c);
      var vs := Imports(Export(kind, init), key, c);
      if Exported(kind, last.vals) && last.key == key {
        HearsMore(kind, vs, LastSpoken(kind, init, key, c), SpeaksUp(kind, init, key, c), last.vals[c]);
      }
    }
  }

  lemma {:induction false} ImportsOfSnoc(kind: Kind, init: Table, last: Row, key: Key, c: nat)
    requires Shaped(kind, init, []) && |last.vals| == Width(kind) && c < Width(kind)
    ensures Shaped(kind, init + [last], [])
    ensures Imports(Export(kind, init + [last]), key, c)
         == if Exported(kind, last.vals) && last.key == key then Imports(Export(kind, init), key, c) + [last.vals[c]]
            else Imports(Export(kind, init), key, c)
  {
    ExportSnoc(kind, init, last);
    if Exported(kind, last.vals) {
      ImportsAppend(Export(kind, init), Item(Some(last.key), last.vals), key, c);
    }
  }

  lemma {:induction false} ImportsAppend(items: seq<Item>, item: Item, key: Key, c: nat)
    requires (forall i :: 0 <= i < |items| ==> c < |items[i].vals|) && c < |item.vals|
    ensures Imports(items + [item], key, c) == Imports(items, key, c) + (if item.key == Some(key) then [item.vals[c]] else [])
  {
    assert (items + [item])[..|items|] == items;
  }

  lemma {:induction false} SpeaksUpStep(kind: Kind, table: Table, key: Key, c: nat)
    requires Shaped(kind, table, []) && c < Width(kind) && table != []
    ensures
      var n := |table| - 1;
      SpeaksUp(kind, table, key, c) <==>
      SpeaksUp(kind, table[..n], key, c) || (Speaks(kind, table, n, key, c) && !IsDefault(kind, table[n].vals[c]))
  {
    var n := |table| - 1;
    forall j | 0 <= j < n ensures Speaks(kind, table[..n], j, key, c) == Speaks(kind, table, j, key, c) {
      assert table[..n][j] == table[j];
    }
  }

  /** Whether a field of the first row with its key is what its own export would leave it at. */
  predicate KeepsField(kind: Kind, replace: bool, table: Table, i: nat, c: nat)
    requires Shaped(kind, table, []) && i < |table| && c < Width(kind)
  {
    var v := table[i].vals[c];
    replace || IsDefault(kind, v) ==>
      && LastSpoken(kind, table, table[i].key, c) in {None, Some(v)}
      && (replace || !SpeaksUp(kind, table, table[i].key, c))
  }

  /**
   * In replace mode, the last exported row to fill a column agrees with the first row of its key;
   * in merge mode it does so where the first row has a default, and no exported row has anything
   * but a default there.
   */
  predicate Keeps(kind: Kind, replace: bool, table: Table)
    requires Shaped(kind, table, [])
  {
    forall i, c :: 0 <= i < |table| && Find(table, table[i].key) == i && 0 <= c < Width(kind) ==>
      KeepsField(kind, replace, table, i, c)
  }

  lemma {:induction false} KeepsFieldIff(kind: Kind, replace: bool, table: Table, i: nat, c: nat)
    requires Shaped(kind, table, []) && i < |table| && c < Width(kind) && Find(table, table[i].key) == i
    ensures Apply(kind, replace, table, Export(kind, table)).table[i].vals[c] == table[i].vals[c]
      <==> KeepsField(kind, replace, table, i, c)
  {
    FieldAfter(kind, replace, table, Export(kind, table), i, c);
    ImportsOfExport(kind, table, table[i].key, c);
  }

  /** Importing a table's own export leaves every row as it is exactly when its repeated keys agree. */
  lemma {:induction false} OwnExportChangesNothingIff(kind: Kind, replace: bool, table: Table)
    requires Shaped(kind, table, [])
    ensures Apply(kind, replace, table, Export(kind, table)).table == table <==> Keeps(kind, replace, table)
  {
    var after := Apply(kind, replace, table, Export(kind, table)).table;
    if Keeps(kind, replace, table) {
      forall i, c | 0 <= i < |table| && 0 <= c < Width(kind) ensures after[i].vals[c] == table[i].vals[c] {
        FieldKept(kind, replace, table, i, c);
      }
      SameTable(kind, after, table);
    } else {
      var i, c :| 0 <= i < |table| && Find(table, table[i].key) == i && 0 <= c < Width(kind)
        && !KeepsField(kind, replace, table, i, c);
      KeepsFieldIff(kind, replace, table, i, c);
    }
  }

  lemma {:induction false} FieldKept(kind: Kind, replace: bool, table: Table, i: nat, c: nat)
    requires Shaped(kind, table, []) && i < |table| && c < Width(kind)
    requires Find(table, table[i].key) == i ==> KeepsField(kind, replace, table, i, c)
    ensures Apply(kind, replace, table, Export(kind, table)).table[i].vals[c] == table[i].vals[c]
  {
    if Find(table, table[i].key) == i {
      KeepsFieldIff(kind, replace, table, i, c);
    } else {
      FieldAfter(kind, replace, table, Export(kind, table), i, c);
    }
  }

  /** Where no key repeats, they trivially agree. */
  lemma {:induction false} DistinctKeysKeep(kind: Kind, replace: bool, table: Table)
    requires Shaped(kind, table, []) && DistinctKeys(table)
    ensures Keeps(kind, replace, table)
  {
    forall i, c | 0 <= i < |table| && 0 <= c < Width(kind)
      ensures KeepsField(kind, replace, table, i, c)
    {
      OneSpeaker(kind, table, i, c);
    }
  }

  lemma {:induction false} OneSpeaker(kind: Kind, table: Table, i: nat, c: nat)
    requires Shaped(kind, table, []) && DistinctKeys(table) && i < |table| && c < Width(kind)
    ensures LastSpoken(kind, table, table[i].key, c)
         == if Speaks(kind, table, i, table[i].key, c) then Some(table[i].vals[c]) else None
    ensures SpeaksUp(kind, table, table[i].key, c) ==> !IsDefault(kind, table[i].vals[c])
  {
    forall j | 0 <= j < |table| && Speaks(kind, table, j, table[i].key, c) ensures j == i {
    }
  }

  // ---------- the export after importing one's own export ----------

  lemma {:induction false} ImportsHave(items: seq<Item>, key: Key, c: nat, n: nat)
    requires forall i :: 0 <= i < |items| ==> c < |items[i].vals|
    requires n < |items| && items[n].key == Some(key)
    ensures items[n].vals[c] in Imports(items, key, c)
  {
    var m := |items| - 1;
    if n < m {
      ImportsHave(items[..m], key, c, n);
    }
  }

  lemma {:induction false} ImportsCome(items: seq<Item>, key: Key, c: nat, v: Val)
    requires forall i :: 0 <= i < |items| ==> c < |items[i].vals|
    requires v in Imports(items, key, c)
    ensures exists n :: 0 <= n < |items| && items[n].key == Some(key) && items[n].vals[c] == v
  {
    var m := |items| - 1;
    if v in Imports(items[..m], key, c) {
      ImportsCome(items[..m], key, c, v);
      var n :| 0 <= n < m && items[..m][n].key == Some(key) && items[..m][n].vals[c] == v;
      assert items[n].key == Some(key) && items[n].vals[c] == v;
    } else {
      assert items[m].key == Some(key) && items[m].vals[c] == v;
    }
  }

  lemma {:induction false} FirstIsIn(kind: Kind, vs: seq<Val>)
    requires HasNonDefault(kind, vs)
    ensures FirstNonDefault(kind, vs) in vs && FirstNonDefault(kind, vs) != Null && HasNonNull(vs)
  {
    var i :| 0 <= i < |vs| && FirstNonDefault(kind, vs) == vs[i] && !IsDefault(kind, vs[i]);
    assert vs[i] != Null;
  }

  lemma {:induction false} LastIsIn(vs: seq<Val>)
    requires HasNonNull(vs)
    ensures LastNonNull(vs) in vs && LastNonNull(vs) != Null
  {
  }

  lemma {:induction false} SettledComesFrom(kind: Kind, replace: bool, existing: Val, vs: seq<Val>)
    ensures var r := Settled(kind, replace, existing, vs);
      && (r == existing || r in vs)
      && (existing != Null || HasNonNull(vs) ==> r != Null)
      && (r != existing ==> HasNonNull(vs))
  {
    if HasNonDefault(kind, vs) { FirstIsIn(kind, vs); }
    if HasNonNull(vs) { LastIsIn(vs); }
  }

  /** A trust level nobody exported as null or normal settles at neither, if anybody exported it. */
  lemma {:induction false} SettledTrust(replace: bool, existing: Val, vs: seq<Val>)
    requires vs != [] && forall v :: v in vs ==> v !in {Null, Text("normal")}
    ensures Settled(Identities, replace, existing, vs) !in {Null, Text("normal")}
  {
    assert vs[0] in vs && HasNonNull(vs);
    if replace || IsDefault(Identities, existing) { SettledIsImported(Identities, replace, existing, vs); }
  }

  lemma {:induction false} SettledIsImported(kind: Kind, replace: bool, existing: Val, vs: seq<Val>)
    requires (replace || IsDefault(kind, existing)) && HasNonNull(vs)
    ensures Settled(kind, replace, existing, vs) in vs
  {
    LastIsIn(vs);
    if HasNonDefault(kind, vs) { FirstIsIn(kind, vs); }
  }

  /** An identity that an own import changes is exported afterwards. */
  lemma {:induction false} ChangedIsExported(replace: bool, table: Table, i: nat)
    requires Shaped(Identities, table, []) && i < |table|
    requires Apply(Identities, replace, table, Export(Identities, table)).table[i] != table[i]
    ensures Exported(Identities, Apply(Identities, replace, table, Export(Identities, table)).table[i].vals)
  {
    var items := Export(Identities, table);
    var after := Apply(Identities, replace, table, items).table;
    var key := table[i].key;
    var c := FirstDifference(after[i].vals, table[i].vals);
    FieldAfter(Identities, replace, table, items, i, c);
    SettledComesFrom(Identities, replace, table[i].vals[c], Imports(items, key, c));
    var n := Contributor(items, key, c);
    forall d | 0 <= d < 4 ensures after[i].vals[d] == Settled(Identities, replace, table[i].vals[d], Imports(items, key, d)) {
      FieldAfter(Identities, replace, table, items, i, d);
    }
    forall m | 0 <= m < |items| ensures Exported(Identities, items[m].vals) {
      assert items[m] in items;
    }
    SettledIsExported(replace, table[i].vals, items, key, n, after[i].vals);
  }

  lemma {:induction false} FirstDifference(x: seq<Val>, y: seq<Val>) returns (c: nat)
    requires |x| == |y| && x != y
    ensures c < |x| && x[c] != y[c]
  {
    c :| 0 <= c < |x| && x[c] != y[c];
  }

  lemma {:induction false} Contributor(items: seq<Item>, key: Key, c: nat) returns (n: nat)
    requires forall i :: 0 <= i < |items| ==> c < |items[i].vals|
    requires HasNonNull(Imports(items, key, c))
    ensures n < |items| && items[n].key == Some(key)
  {
    var vs := Imports(items, key, c);
    var k :| 0 <= k < |vs| && vs[k] != Null;
    ImportsCome(items, key, c, vs[k]);
    n :| 0 <= n < |items| && items[n].key == Some(key) && items[n].vals[c] == vs[k];
  }

  predicate AllExported(items: seq<Item>) {
    forall m :: 0 <= m < |items| ==> |items[m].vals| == 4 && Exported(Identities, items[m].vals)
  }

  lemma {:induction false} SettledIsExported(replace: bool, existing: seq<Val>, items: seq<Item>, key: Key, n: nat, after: seq<Val>)
    requires |existing| == |after| == 4 && AllExported(items)
    requires n < |items| && items[n].key == Some(key)
    requires forall d :: 0 <= d < 4 ==> after[d] == Settled(Identities, replace, existing[d], Imports(items, key, d))
    ensures Exported(Identities, after)
  {
    if m, d :| 0 <= m < |items| && 0 <= d < 3 && items[m].key == Some(key) && items[m].vals[d] != Null {
      SaidIsNotNull(replace, existing[d], items, key, d, m);
    } else {
      OnlyTrust(replace, existing[3], items, key, n);
    }
  }

  lemma {:induction false} SaidIsNotNull(replace: bool, existing: Val, items: seq<Item>, key: Key, d: nat, m: nat)
    requires AllExported(items) && d < 4 && m < |items| && items[m].key == Some(key) && items[m].vals[d] != Null
    ensures Settled(Identities, replace, existing, Imports(items, key, d)) != Null
  {
    ImportsHave(items, key, d, m);
    var vs := Imports(items, key, d);
    var k :| 0 <= k < |vs| && vs[k] == items[m].vals[d];
    SettledComesFrom(Identities, replace, existing, vs);
  }

  lemma {:induction false} OnlyTrust(replace: bool, existing: Val, items: seq<Item>, key: Key, n: nat)
    requires AllExported(items) && n < |items| && items[n].key == Some(key)
    requires forall m, d :: 0 <= m < |items| && 0 <= d < 3 && items[m].key == Some(key) ==> items[m].vals[d] == Null
    ensures Settled(Identities, replace, existing, Imports(items, key, 3)) !in {Null, Text("normal")}
  {
    var vs := Imports(items, key, 3);
    ImportsHave(items, key, 3, n);
    forall v | v in vs ensures v !in {Null, Text("normal")} {
      ImportsCome(items, key, 3, v);
      var m :| 0 <= m < |items| && items[m].key == Some(key) && items[m].vals[3] == v;
      assert items[m].vals[0] == Null && items[m].vals[1] == Null && items[m].vals[2] == Null;
    }
    SettledTrust(replace, existing, vs);
  }

  /** The second table differs from the first only in rows that it exports. */
  predicate ChangesAreExported(kind: Kind, a: Table, b: Table) {
    && Shaped(kind, a, []) && Shaped(kind, b, []) && |a| == |b|
    && forall i :: 0 <= i < |a| ==> a[i].key == b[i].key && (a[i] != b[i] ==> Exported(kind, b[i].vals))
  }

  lemma {:induction false} ChangesOfInit(kind: Kind, a: Table, b: Table)
    requires ChangesAreExported(kind, a, b) && a != []
    ensures ChangesAreExported(kind, a[..|a| - 1], b[..|a| - 1])
    ensures a == a[..|a| - 1] + [a[|a| - 1]] && b == b[..|a| - 1] + [b[|a| - 1]]
  {
  }

  lemma {:induction false} ExportGrows(kind: Kind, a: Table, b: Table)
    requires ChangesAreExported(kind, a, b)
    ensures |Export(kind, a)| <= |Export(kind, b)|
  {
    if a != [] {
      var n := |a| - 1;
      ChangesOfInit(kind, a, b);
      ExportGrows(kind, a[..n], b[..n]);
      ExportSnoc(kind, a[..n], a[n]);
      ExportSnoc(kind, b[..n], b[n]);
    }
  }

  /** Then equal exports mean equal tables. */
  lemma {:induction false} ExportTellsApart(kind: Kind, a: Table, b: Table)
    requires ChangesAreExported(kind, a, b) && Export(kind, a) == Export(kind, b)
    ensures a == b
  {
    if a != [] {
      var n := |a| - 1;
      ChangesOfInit(kind, a, b);
      ExportGrows(kind, a[..n], b[..n]);
      LastRowsAgree(kind, a[..n], a[n], b[..n], b[n]);
      ExportTellsApart(kind, a[..n], b[..n]);
    }
  }

  lemma {:induction false} LastRowsAgree(kind: Kind, a: Table, p: Row, b: Table, q: Row)
    requires Shaped(kind, a, []) && Shaped(kind, b, []) && |p.vals| == |q.vals| == Width(kind)
    requires p.key == q.key && (p != q ==> Exported(kind, q.vals)) && |Export(kind, a)| <= |Export(kind, b)|
    requires Shaped(kind, a + [p], []) && Shaped(kind, b + [q], []) && Export(kind, a + [p]) == Export(kind, b + [q])
    ensures Export(kind, a) == Export(kind, b) && p == q
  {
    ExportSnoc(kind, a, p);
    ExportSnoc(kind, b, q);
    if Exported(kind, p.vals) && Exported(kind, q.vals) {
      SnocIsInjective(Export(kind, a), Item(Some(p.key), p.vals), Export(kind, b), Item(Some(q.key), q.vals));
    }
  }

  lemma {:induction false} ExportSnoc(kind: Kind, init: Table, last: Row)
    requires Shaped(kind, init, []) && |last.vals| == Width(kind)
    ensures Shaped(kind, init + [last], [])
    ensures Exported(kind, last.vals) ==>
      Export(kind, init + [last]) == Export(kind, init) + [Item(Some(last.key), last.vals)]
    ensures !Exported(kind, last.vals) ==> Export(kind, init + [last]) == Export(kind, init)
  {
    assert (init + [last])[..|init|] == init;
  }

  lemma {:induction false} SnocIsInjective(x: seq<Item>, p: Item, y: seq<Item>, q: Item)
    ensures x + [p] == y + [q] ==> x == y && p == q
  {
    if x + [p] == y + [q] {
      assert (x + [p])[|x|] == p && (y + [q])[|y|] == q;
      assert (x + [p])[..|x|] == x && (y + [q])[..|y|] == y;
    }
  }

  /** The export after an own import is the export before it exactly when repeated keys agree. */
  lemma {:induction false} OwnExportIsStableIff(kind: Kind, replace: bool, table: Table)
    requires Shaped(kind, table, [])
    ensures Export(kind, Apply(kind, replace, table, Export(kind, table)).table) == Export(kind, table)
      <==> Keeps(kind, replace, table)
  {
    OwnExportChangesNothingIff(kind, replace, table);
    var after := Apply(kind, replace, table, Export(kind, table)).table;
    forall i | 0 <= i < |table| && table[i] != after[i] ensures Exported(kind, after[i].vals) {
      if kind.Identities? { ChangedIsExported(replace, table, i); }
    }
    if Export(kind, after) == Export(kind, table) { ExportTellsApart(kind, table, after); }
  }

  /**
   * A replace import leaves the first row with a key at what the exporting table's last row to
   * fill the column said, or else as it was; where keys do not repeat there, that is the field of
   * the one exported row.
   */
  lemma {:induction false} ReplaceBringsExportOver(kind: Kind, source: Table, target: Table, j: nat, c: nat)
    requires Shaped(kind, source, []) && Shaped(kind, target, []) && j < |target| && c < Width(kind)
    ensures Shaped(kind, target, Export(kind, source))
    ensures
      var said := LastSpoken(kind, source, target[j].key, c);
      Apply(kind, true, target, Export(kind, source)).table[j].vals[c]
        == if Find(target, target[j].key) == j && said.Some? then said.value else target[j].vals[c]
    ensures DistinctKeys(source) ==> forall i :: 0 <= i < |source| && source[i].key == target[j].key ==>
      LastSpoken(kind, source, target[j].key, c)
        == if Speaks(kind, source, i, source[i].key, c) then Some(source[i].vals[c]) else None
  {
    FieldAfter(kind, true, target, Export(kind, source), j, c);
    ImportsOfExport(kind, source, target[j].key, c);
    if DistinctKeys(source) {
      forall i | 0 <= i < |source| && source[i].key == target[j].key
        ensures LastSpoken(kind, source, target[j].key, c)
             == if Speaks(kind, source, i, source[i].key, c) then Some(source[i].vals[c]) else None
      {
        OneSpeaker(kind, source, i, c);
      }
    }
  }

  /**
   * With one address on two networks a replace import of the own export overwrites the first row's
   * name with the second's, while a merge import changes nothing.
   */
  lemma {:induction false} SharedAddressBreaksOwnImport()
    ensures
      var a := Row(["addr"], [Text("Ann"), Null, Null, Null]);
      var b := Row(["addr"], [Text("Bob"), Null, Null, Null]);
      && Apply(Identities, true, [a, b], Export(Identities, [a, b])).table[0].vals[0] == Text("Bob")
      && !Keeps(Identities, true, [a, b]) && Keeps(Identities, false, [a, b])
  {
    var a := Row(["addr"], [Text("Ann"), Null, Null, Null]);
    var b := Row(["addr"], [Text("Bob"), Null, Null, Null]);
    assert Find([a, b], ["addr"]) == 0;
    assert Speaks(Identities, [a, b], 1, ["addr"], 0);
    assert LastSpoken(Identities, [a, b], ["addr"], 0) == Some(Text("Bob"));
    assert !KeepsField(Identities, true, [a, b], 0, 0);
    FieldAfter(Identities, true, [a, b], Export(Identities, [a, b]), 0, 0);
    ImportsOfExport(Identities, [a, b], ["addr"], 0);
    MergeKeepsAnn(a, b);
  }

  lemma {:induction false} MergeKeepsAnn(a: Row, b: Row)
    requires a == Row(["addr"], [Text("Ann"), Null, Null, Null]) && b == Row(["addr"], [Text("Bob"), Null, Null, Null])
    ensures Keeps(Identities, false, [a, b])
  {
    assert Find([a, b], ["addr"]) == 0;
    forall c | 0 <= c < 4 ensures KeepsField(Identities, false, [a, b], 0, c) {
      assert !IsDefault(Identities, Text("Ann"));
      assert c > 0 ==> !Speaks(Identities, [a, b], 0, ["addr"], c) && !Speaks(Identities, [a, b], 1, ["addr"], c);
    }
  }
}
