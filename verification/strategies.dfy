/** The two policies of the traversal: when to stop descending and fire the
    callback (traverse strategy), and which elements of a collection an unfiltered
    step visits (element strategy). Both are closed sets of named variants. */
module Strategies {
  import opened Wrappers
  import opened Props
  import opened Query

  datatype TraverseStrategy = TraverseAll | TraverseToSingleEqFilter

  datatype ElementStrategy = SelectAll | PrimaryOrFirst

  /** The per-index selector an element strategy computes for one collection:
      every index, or exactly one. */
  datatype Selector = Every | Only(index: nat)

  predicate Accepts(sel: Selector, i: nat)
  {
    sel.Every? || sel.index == i
  }

  /** The stop predicate of a traverse strategy, at current node `cur` with remaining query `q`. */
  function Done(strategy: TraverseStrategy, cur: Prop, q: Option<Expr>): (done: bool)
    ensures q.None? ==> done
    ensures strategy.TraverseAll? ==> (done <==> q.None?)
  {
    match strategy
    case TraverseAll => q.None?
    case TraverseToSingleEqFilter => SingleEqFilterReached(cur, q)
  }

  /** `traverseToSingleEqFilter`: stop when the query is used up, or at the root of a
      filter on a collection that is a single `eq` between an attribute path and a
      literal, followed by exactly one trailing path segment. */
  function SingleEqFilterReached(cur: Prop, q: Option<Expr>): (done: bool)
    ensures done <==>
              q.None? ||
              (&& q.value.rootOfFilter
               && cur.attr.multiValued
               && q.value.token == EQ
               && IsPath(q.value.left)
               && IsPath(q.value.next) && q.value.next.value.next.None?
               && IsLiteral(q.value.right))
  {
    if q.None? then true
    else if !q.value.rootOfFilter then false
    else if !cur.attr.multiValued then false
    else if q.value.token != EQ then false
    else if q.value.left.None? || !q.value.left.value.path then false
    else if q.value.next.None? || !q.value.next.value.path || q.value.next.value.next.Some? then false
    else if q.value.right.None? || !q.value.right.value.literal then false
    else true
  }

  /** The selector an element strategy computes for collection `p`. */
  function Select(strategy: ElementStrategy, p: Prop): (sel: Selector)
    ensures strategy.SelectAll? ==> forall i :: Accepts(sel, i)
    ensures strategy.PrimaryOrFirst? ==> sel.Only?
  {
    match strategy
    case SelectAll => Every
    case PrimaryOrFirst => PrimaryOrFirstSelector(p)
  }

  /** A sub-attribute that marks the primary element: boolean and annotated Primary. */
  predicate IsPrimaryMarker(a: Attr)
  {
    a.primary && a.typ == Boolean
  }

  /** `FindSubAttribute` with the primary-marker test: the first marker sub-attribute. */
  function FindPrimaryMarker(subs: seq<Attr>): (r: Option<nat>)
    ensures r.Some? ==> r.value < |subs| && IsPrimaryMarker(subs[r.value])
    ensures r.Some? ==> forall j :: 0 <= j < r.value ==> !IsPrimaryMarker(subs[j])
    ensures r.None? ==> forall j :: 0 <= j < |subs| ==> !IsPrimaryMarker(subs[j])
  {
    if subs == [] then None
    else if IsPrimaryMarker(subs[0]) then Some(0)
    else match FindPrimaryMarker(subs[1..])
      case None => None
      case Some(j) => Some(j + 1)
  }

  /** An element whose sub-property named `marker` holds the raw value `true`. */
  predicate IsTruePrimary(child: Prop, marker: string)
  {
    var j := ChildByName(child.children, marker);
    j.Some? && child.children[j.value].raw == Bool(true)
  }

  /** `FindChild` with the true-primary test: the first such element. */
  function FindTruePrimary(children: seq<Prop>, marker: string): (r: Option<nat>)
    ensures r.Some? ==> r.value < |children| && IsTruePrimary(children[r.value], marker)
    ensures r.Some? ==> forall j :: 0 <= j < r.value ==> !IsTruePrimary(children[j], marker)
    ensures r.None? ==> forall j :: 0 <= j < |children| ==> !IsTruePrimary(children[j], marker)
  {
    if children == [] then None
    else if IsTruePrimary(children[0], marker) then Some(0)
    else match FindTruePrimary(children[1..], marker)
      case None => None
      case Some(j) => Some(j + 1)
  }

  /** `primaryOrFirstStrategy`: the first element whose primary marker is true, if the
      attribute has a marker and some element sets it; otherwise the element at 0. */
  function PrimaryOrFirstSelector(p: Prop): (sel: Selector)
    ensures sel.Only?
    ensures |p.children| > 0 ==> sel.index < |p.children|
  {
    match FindPrimaryMarker(p.attr.subAttrs)
    case None => Only(0)
    case Some(m) =>
      match FindTruePrimary(p.children, p.attr.subAttrs[m].name)
      case None => Only(0)
      case Some(k) => Only(k)
  }

  /** With a marker sub-attribute `m` (the first one) and `k` the first element that
      sets it true, primary-or-first selects exactly `k`. */
  lemma {:induction false} PrimarySelected(p: Prop, m: nat, k: nat)
    requires m < |p.attr.subAttrs| && IsPrimaryMarker(p.attr.subAttrs[m])
    requires forall j :: 0 <= j < m ==> !IsPrimaryMarker(p.attr.subAttrs[j])
    requires k < |p.children| && IsTruePrimary(p.children[k], p.attr.subAttrs[m].name)
    requires forall j :: 0 <= j < k ==> !IsTruePrimary(p.children[j], p.attr.subAttrs[m].name)
    ensures forall i :: Accepts(Select(PrimaryOrFirst, p), i) <==> i == k
  {
  }

  /** Without a marker sub-attribute, primary-or-first selects exactly index 0. */
  lemma {:induction false} FirstWithoutMarker(p: Prop)
    requires forall j :: 0 <= j < |p.attr.subAttrs| ==> !IsPrimaryMarker(p.attr.subAttrs[j])
    ensures forall i :: Accepts(Select(PrimaryOrFirst, p), i) <==> i == 0
  {
  }

  /** When no element sets the (first) marker true, primary-or-first selects exactly index 0. */
  lemma {:induction false} FirstWithoutTruePrimary(p: Prop, m: nat)
    requires m < |p.attr.subAttrs| && IsPrimaryMarker(p.attr.subAttrs[m])
    requires forall j :: 0 <= j < m ==> !IsPrimaryMarker(p.attr.subAttrs[j])
    requires forall k :: 0 <= k < |p.children| ==> !IsTruePrimary(p.children[k], p.attr.subAttrs[m].name)
    ensures forall i :: Accepts(Select(PrimaryOrFirst, p), i) <==> i == 0
  {
  }

  /** Primary-or-first picks one element: of a non-empty collection, exactly one
      index in range is accepted. */
  lemma {:induction false} PrimaryOrFirstPicksOne(p: Prop)
    ensures forall i, j :: Accepts(Select(PrimaryOrFirst, p), i) && Accepts(Select(PrimaryOrFirst, p), j) ==> i == j
    ensures |p.children| > 0 ==> exists i :: 0 <= i < |p.children| && Accepts(Select(PrimaryOrFirst, p), i)
  {
    var sel := Select(PrimaryOrFirst, p);
    if |p.children| > 0 {
      assert Accepts(sel, sel.index);
    }
  }
}
