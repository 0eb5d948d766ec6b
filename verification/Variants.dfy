/**
 * Variant recommendations: accepting one promotes it to a recommendation of its own and supersedes
 * the pending others of the same parent; the expander creates a parent's variants all at once.
 */
module Variants {
  import opened Common

  type Id = string

  datatype Status = Pending | Accepted | Superseded(winner: Id)

  datatype Variant = Variant(parent: Id, status: Status)

  /** The variants, and the variants recommendations were promoted from, in order. */
  datatype State = State(variants: map<Id, Variant>, promoted: seq<Id>)

  /** Err is a reply other than 200; inserting the recommendation may itself throw. */
  datatype Refusal = NotFound | NotPending(status: Status) | InsertFailed

  datatype Event =
    | Accept(id: Id, inserts: bool)
    | Expand(parent: Id, ids: set<Id>)

  function Supersede(variants: map<Id, Variant>, id: Id, parent: Id): map<Id, Variant> {
    map v | v in variants ::
      if v == id then variants[v].(status := Accepted)
      else if variants[v].parent == parent && variants[v].status == Pending then variants[v].(status := Superseded(id))
      else variants[v]
  }

  function OnAccept(st: State, id: Id, inserts: bool): (State, Result<Id, Refusal>) {
    if id !in st.variants then (st, Err(NotFound))
    else if st.variants[id].status != Pending then (st, Err(NotPending(st.variants[id].status)))
    else if !inserts then (st, Err(InsertFailed))
    else (State(Supersede(st.variants, id, st.variants[id].parent), st.promoted + [id]), Ok(id))
  }

  predicate HasVariants(st: State, parent: Id) {
    exists v :: v in st.variants && st.variants[v].parent == parent
  }

  /** The expander only takes parents without variants; row ids are fresh. */
  function OnExpand(st: State, parent: Id, ids: set<Id>): State {
    if HasVariants(st, parent) || ids * st.variants.Keys != {} then st
    else st.(variants := st.variants + map v | v in ids :: Variant(parent, Pending))
  }

  function Step(st: State, e: Event): State {
    match e
    case Accept(id, inserts) => OnAccept(st, id, inserts).0
    case Expand(parent, ids) => OnExpand(st, parent, ids)
  }

  function Run(st: State, events: seq<Event>): State {
    if events == [] then st else Step(Run(st, events[..|events| - 1]), events[|events| - 1])
  }

  class VariantDesk {
    var variants: map<Id, Variant>
    var promoted: seq<Id>

    function Now(): State
      reads this
    {
      State(variants, promoted)
    }

    method PostAccept(id: Id, inserts: bool) returns (r: Result<Id, Refusal>)
      modifies this
      ensures (Now(), r) == OnAccept(old(Now()), id, inserts)
    {
      if id !in variants { return Err(NotFound); }
      var variant := variants[id];
      if variant.status != Pending { return Err(NotPending(variant.status)); }
      if !inserts { return Err(InsertFailed); }
      promoted := promoted + [id];
      variants := variants[id := variant.(status := Accepted)];
      var todo := variants.Keys - {id};
      while todo != {}
        invariant todo <= variants.Keys - {id}
        invariant variants.Keys == old(variants).Keys
        invariant forall v :: v in variants ==>
          variants[v] == if v in todo then old(variants)[v] else Supersede(old(variants), id, variant.parent)[v]
        invariant promoted == old(promoted) + [id]
      {
        var v :| v in todo;
        todo := todo - {v};
        if variants[v].parent == variant.parent && variants[v].status == Pending {
          variants := variants[v := variants[v].(status := Superseded(id))];
        }
      }
      assert variants == Supersede(old(variants), id, variant.parent);
      return Ok(id);
    }
  }

  // ---------- every run ----------

  predicate IsAccepted(st: State, v: Id) { v in st.variants && st.variants[v].status == Accepted }

  predicate Siblings(st: State, v: Id, w: Id)
    requires v in st.variants && w in st.variants
  {
    st.variants[v].parent == st.variants[w].parent
  }

  /** No parent has two accepted variants, nor an accepted and a pending one. */
  ghost predicate Decided(st: State) {
    forall v, w :: IsAccepted(st, v) && w in st.variants && Siblings(st, v, w) && v != w ==> st.variants[w].status.Superseded?
  }

  /** A superseded variant names the accepted sibling that replaced it. */
  ghost predicate Attributed(st: State) {
    forall w :: w in st.variants && st.variants[w].status.Superseded? ==>
      var winner := st.variants[w].status.winner;
      IsAccepted(st, winner) && Siblings(st, winner, w)
  }

  /** Promotions and accepted variants correspond one to one. */
  ghost predicate Promoted(st: State) {
    && (forall i, j :: 0 <= i < j < |st.promoted| ==> st.promoted[i] != st.promoted[j])
    && (forall v :: v in st.promoted <==> IsAccepted(st, v))
  }

  ghost predicate Good(st: State) { Decided(st) && Attributed(st) && Promoted(st) }

  lemma {:induction false} AcceptKeeps(st: State, id: Id, inserts: bool)
    requires Good(st)
    ensures Good(OnAccept(st, id, inserts).0)
  {
    if id in st.variants && st.variants[id].status == Pending && inserts {
      var st' := OnAccept(st, id, inserts).0;
      assert forall v :: IsAccepted(st', v) <==> IsAccepted(st, v) || v == id;
      AcceptDecides(st, id);
      AcceptAttributes(st, id);
      assert forall v :: v in st'.promoted <==> v in st.promoted || v == id;
      assert id !in st.promoted;
      assert forall i :: 0 <= i < |st.promoted| ==> st.promoted[i] in st.promoted;
    }
  }

  lemma {:induction false} PendingIsUndecided(st: State, id: Id, v: Id)
    requires Decided(st) && id in st.variants && st.variants[id].status == Pending && IsAccepted(st, v)
    ensures !Siblings(st, v, id)
  {
  }

  lemma {:induction false} AcceptDecides(st: State, id: Id)
    requires Decided(st) && id in st.variants && st.variants[id].status == Pending
    ensures Decided(OnAccept(st, id, true).0)
  {
    var st' := OnAccept(st, id, true).0;
    forall v, w | IsAccepted(st', v) && w in st'.variants && Siblings(st', v, w) && v != w
      ensures st'.variants[w].status.Superseded?
    {
      assert Siblings(st, v, w) && Siblings(st, w, v);
      if IsAccepted(st, w) { PendingIsUndecided(st, id, w); }
      if IsAccepted(st, v) { PendingIsUndecided(st, id, v); }
    }
  }

  lemma {:induction false} AcceptAttributes(st: State, id: Id)
    requires Decided(st) && Attributed(st) && id in st.variants && st.variants[id].status == Pending
    ensures Attributed(OnAccept(st, id, true).0)
  {
    var st' := OnAccept(st, id, true).0;
    forall w | w in st'.variants && st'.variants[w].status.Superseded?
      ensures IsAccepted(st', st'.variants[w].status.winner) && Siblings(st', st'.variants[w].status.winner, w)
    {
      if !st.variants[w].status.Superseded? {
        assert st'.variants[w].status.winner == id;
      }
    }
  }

  lemma {:induction false} ExpandOnlyAdds(st: State, parent: Id, ids: set<Id>)
    ensures forall v :: v in st.variants ==>
      v in OnExpand(st, parent, ids).variants && OnExpand(st, parent, ids).variants[v] == st.variants[v]
  {
    forall v | v in st.variants
      ensures v in OnExpand(st, parent, ids).variants && OnExpand(st, parent, ids).variants[v] == st.variants[v]
    {
      assert v in ids ==> v in ids * st.variants.Keys;
    }
  }

  lemma {:induction false} ExpandKeeps(st: State, parent: Id, ids: set<Id>)
    requires Good(st)
    ensures Good(OnExpand(st, parent, ids))
  {
    var st' := OnExpand(st, parent, ids);
    ExpandOnlyAdds(st, parent, ids);
    assert forall v :: IsAccepted(st', v) <==> IsAccepted(st, v);
  }

  /** All three hold after any run of acceptances and expansions. */
  lemma {:induction false} RunsStayGood(st: State, events: seq<Event>)
    requires Good(st)
    ensures Good(Run(st, events))
  {
    if events != [] {
      var init, last := events[..|events| - 1], events[|events| - 1];
      RunsStayGood(st, init);
      match last
      case Accept(id, inserts) => AcceptKeeps(Run(st, init), id, inserts);
      case Expand(parent, ids) => ExpandKeeps(Run(st, init), parent, ids);
    }
  }

  function AcceptedSet(st: State): set<Id> { set v | v in st.variants && IsAccepted(st, v) }

  lemma {:induction false} DistinctCount(s: seq<Id>)
    requires forall i, j :: 0 <= i < j < |s| ==> s[i] != s[j]
    ensures |set x | x in s| == |s|
  {
    if s != [] {
      var init, last := s[..|s| - 1], s[|s| - 1];
      DistinctCount(init);
      assert forall x :: x in s <==> x in init || x == last;
      assert (set x | x in s) == (set x | x in init) + {last};
    }
  }

  /** There are as many promoted recommendations as accepted variants. */
  lemma {:induction false} PromotionsMatchAcceptances(st: State, events: seq<Event>)
    requires Good(st)
    ensures |Run(st, events).promoted| == |AcceptedSet(Run(st, events))|
  {
    RunsStayGood(st, events);
    var end := Run(st, events);
    DistinctCount(end.promoted);
    assert (set x | x in end.promoted) == AcceptedSet(end);
  }

  /** After any run, accepting a variant succeeds exactly when its parent is still undecided. */
  lemma {:induction false} AcceptSucceedsIff(st: State, events: seq<Event>, id: Id)
    requires Good(st)
    ensures
      var end := Run(st, events);
      OnAccept(end, id, true).1.Ok? <==>
        id in end.variants && forall v :: IsAccepted(end, v) ==> !Siblings(end, v, id)
  {
    RunsStayGood(st, events);
    var end := Run(st, events);
    if id in end.variants && end.variants[id].status == Pending {
      forall v | IsAccepted(end, v) ensures !Siblings(end, v, id) {
        assert v != id;
      }
    } else if id in end.variants {
      var w := if end.variants[id].status == Accepted then id else end.variants[id].status.winner;
      assert IsAccepted(end, w) && Siblings(end, w, id);
    }
  }

  /** A decision is final: an accepted variant stays the accepted one. */
  lemma {:induction false} DecisionIsFinal(st: State, events: seq<Event>, v: Id)
    requires IsAccepted(st, v)
    ensures IsAccepted(Run(st, events), v)
  {
    if events != [] {
      var init, last := events[..|events| - 1], events[|events| - 1];
      DecisionIsFinal(st, init, v);
      match last
      case Accept(_, _) =>
      case Expand(parent, ids) => ExpandOnlyAdds(Run(st, init), parent, ids);
    }
  }

  // ---------- the handlers, said of the rows alone ----------

  lemma {:induction false} AcceptIff(st: State, id: Id, inserts: bool)
    ensures
      var (after, r) := OnAccept(st, id, inserts);
      && (r == Ok(id) <==> id in st.variants && st.variants[id].status == Pending && inserts)
      && (r == Err(NotFound) <==> id !in st.variants)
      && (r == Err(InsertFailed) <==> id in st.variants && st.variants[id].status == Pending && !inserts)
      && (r.Err? && r.error.NotPending? ==> id in st.variants && r.error.status == st.variants[id].status)
      && (r.Ok? || r.Err?) && (r.Err? ==> after == st)
      && (r.Ok? ==>
            && after.promoted == st.promoted + [id] && after.variants.Keys == st.variants.Keys
            && forall v :: v in st.variants ==>
                 && after.variants[v].parent == st.variants[v].parent
                 && after.variants[v].status ==
                    if v == id then Accepted
                    else if st.variants[v].parent == st.variants[id].parent && st.variants[v].status == Pending then Superseded(id)
                    else st.variants[v].status)
  {
  }

  /** A parent without variants gets exactly the new ones, all pending; any other is left alone. */
  lemma {:induction false} ExpandIff(st: State, parent: Id, ids: set<Id>)
    ensures
      var after := OnExpand(st, parent, ids);
      var untouched := forall v :: v in st.variants ==> st.variants[v].parent != parent && v !in ids;
      && after.promoted == st.promoted
      && (!untouched && (exists v :: v in st.variants && st.variants[v].parent == parent) ==> after == st)
      && (untouched ==>
            && after.variants.Keys == st.variants.Keys + ids
            && (forall v :: v in st.variants ==> after.variants[v] == st.variants[v])
            && forall v :: v in ids ==> after.variants[v] == Variant(parent, Pending))
  {
  }

  /** What one more event of a run does. */
  lemma {:induction false} RunStep(st: State, events: seq<Event>, e: Event)
    ensures Run(st, []) == st
    ensures
      Run(st, events + [e]) ==
      match e
      case Accept(id, inserts) => OnAccept(Run(st, events), id, inserts).0
      case Expand(parent, ids) => OnExpand(Run(st, events), parent, ids)
  {
    assert (events + [e])[..|events|] == events;
  }
}
