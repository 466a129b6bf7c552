/** `composeValueByEqFilter`: the element that add-by-Eq-filter mode appends to a
    collection, built from a single `eq` filter and the caller's value. */
module Compose {
  import opened Wrappers
  import opened Errors
  import opened Props
  import opened Query
  import opened Navigation
  import opened Strategies

  /** The comparison key: the left operand's token when it is a path, else "". */
  function FilterKey(e: Expr): string
  {
    if IsPath(e.left) then e.left.value.token else ""
  }

  /** The settable key: the trailing path segment's token when it is a path, else "". */
  function TrailingKey(e: Expr): string
  {
    if IsPath(e.next) then e.next.value.token else ""
  }

  /** A trailing path that is itself followed by more query. */
  predicate ChainedTrailing(e: Expr)
  {
    IsPath(e.next) && e.next.value.next.Some?
  }

  /** Type discovery on a clone of `cur`: append an empty element, step to element 0
      and then to its sub-attribute `key`. */
  function Probe(cur: Prop, key: string, admit: Admission): (n: Nav)
    requires WF(cur)
    ensures Consistent(n)
    ensures n.err.None? ==> |n.stack| == 2 && n.stack[0] == 0 && CurrentNode(n).attr.name == key
  {
    DotStep(AtStep(AddStep(Navigate(cur), Obj(map[]), admit), 0), key)
  }

  /** The new collection element: a one-item list holding the map
      {trailing key: caller's value, filter key: filter value}; on equal keys the
      filter key's entry wins, as in a Go map literal. */
  function NewElement(trailingKey: string, value: Value, filterKey: string, filterValue: Value): (r: Value)
    ensures r.Arr? && |r.items| == 1 && r.items[0].Obj?
    ensures r.items[0].fields.Keys == {trailingKey, filterKey}
    ensures r.items[0].fields[filterKey] == filterValue
    ensures trailingKey != filterKey ==> r.items[0].fields[trailingKey] == value
  {
    Arr([Obj(map[trailingKey := value][filterKey := filterValue])])
  }

  /** What `composeValueByEqFilter` returns for query `q` at collection `cur`. */
  function ComposedElement(value: Value, q: Option<Expr>, cur: Prop,
                           normalize: (Attr, string) -> Option<Value>, admit: Admission): (r: Result<Value, Error>)
    requires WF(cur)
    ensures q.None? <==> r == Failure(InvalidFilter(NoFilterFound))
    ensures r.Failure? ==> r.error.InvalidFilter?
    ensures r.Success? ==>
              q.Some? && !ChainedTrailing(q.value) && FilterKey(q.value) != "" && TrailingKey(q.value) != "" &&
              exists fv :: r.value == NewElement(TrailingKey(q.value), value, FilterKey(q.value), fv)
  {
    if q.None? then Failure(InvalidFilter(NoFilterFound))
    else
      var e := q.value;
      if ChainedTrailing(e) then Failure(InvalidFilter(NotSingleEq))
      else if FilterKey(e) == "" || TrailingKey(e) == "" then Failure(InvalidFilter(Unsupported))
      else if IsLiteral(e.right) then
        var probe := Probe(cur, FilterKey(e), admit);
        if probe.err.Some? then Failure(InvalidFilter(NoComparisonAttribute))
        else match normalize(CurrentNode(probe).attr, e.right.value.token)
          case None => Failure(InvalidFilter(BadFilterValue))
          case Some(filterValue) => Success(NewElement(TrailingKey(e), value, FilterKey(e), filterValue))
      else Success(NewElement(TrailingKey(e), value, FilterKey(e), Null))
  }

  /** A sub-attribute of `a` named `key`, the first such. */
  predicate FirstSubAttrNamed(a: Attr, k: nat, key: string)
  {
    k < |a.subAttrs| && a.subAttrs[k].name == key &&
    forall j :: 0 <= j < k ==> a.subAttrs[j].name != key
  }

  lemma {:induction false} FirstSubAttrUnique(a: Attr, k1: nat, k2: nat, key: string)
    requires FirstSubAttrNamed(a, k1, key) && FirstSubAttrNamed(a, k2, key)
    ensures k1 == k2
  {
  }

  /** On a collection that admits the empty element, the probe's first two steps
      succeed and land on an element, whose attribute is the collection's element
      attribute. */
  lemma {:induction false} ProbeReachesElement(cur: Prop, admit: Admission)
    requires WF(cur) && cur.attr.multiValued && admit(cur.attr, Obj(map[])).None?
    ensures AtStep(AddStep(Navigate(cur), Obj(map[]), admit), 0).err.None?
    ensures CurrentNode(AtStep(AddStep(Navigate(cur), Obj(map[]), admit), 0)).attr == ElementAttr(cur.attr)
  {
    var n0 := Navigate(cur);
    AddAppends(n0, Obj(map[]), admit);
    var c1 := CurrentNode(AddStep(n0, Obj(map[]), admit));
    assert |c1.children| > 0;
    assert c1.children[0].attr == ElementAttr(cur.attr);
  }

  /** In a conformant singular complex node, the name lookup among the children is
      the lookup among the attribute's sub-attributes. */
  lemma {:induction false} ChildLookupIsSubAttrLookup(e0: Prop, key: string)
    requires WF(e0) && !e0.attr.multiValued && e0.attr.typ == Complex
    ensures ChildByName(e0.children, key).None? <==>
              forall k :: 0 <= k < |e0.attr.subAttrs| ==> e0.attr.subAttrs[k].name != key
    ensures ChildByName(e0.children, key).Some? ==>
              FirstSubAttrNamed(e0.attr, ChildByName(e0.children, key).value, key) &&
              e0.children[ChildByName(e0.children, key).value].attr ==
              e0.attr.subAttrs[ChildByName(e0.children, key).value]
  {
    var subs := e0.attr.subAttrs;
    assert forall k :: 0 <= k < |subs| ==> subs[k].name == e0.children[k].attr.name;
  }

  /** The probe succeeds exactly on a complex collection that admits the empty
      element and whose attribute has a sub-attribute named `key`, and then lands on
      the first such sub-attribute, whether or not the collection already had
      elements. */
  lemma {:induction false} ProbeFindsComparisonAttribute(cur: Prop, key: string, admit: Admission)
    requires WF(cur)
    ensures Probe(cur, key, admit).err.None? <==>
              cur.attr.multiValued && admit(cur.attr, Obj(map[])).None? && cur.attr.typ == Complex &&
              exists k :: 0 <= k < |cur.attr.subAttrs| && cur.attr.subAttrs[k].name == key
    ensures Probe(cur, key, admit).err.None? ==>
              exists k: nat :: FirstSubAttrNamed(cur.attr, k, key) &&
                          CurrentNode(Probe(cur, key, admit)).attr == cur.attr.subAttrs[k]
  {
    var n2 := AtStep(AddStep(Navigate(cur), Obj(map[]), admit), 0);
    if cur.attr.multiValued && admit(cur.attr, Obj(map[])).None? {
      ProbeReachesElement(cur, admit);
      var e0 := CurrentNode(n2);
      if cur.attr.typ == Complex {
        ChildLookupIsSubAttrLookup(e0, key);
        var j := ChildByName(e0.children, key);
        if j.Some? {
          PushPath(n2.root, n2.stack, j.value);
          assert CurrentNode(DotStep(n2, key)) == e0.children[j.value];
        }
      }
    }
  }

  /** The query-shape error cases, in the order they are checked: no query; a trailing
      path with more after it (whatever the operands are); a missing comparison or
      trailing key. */
  lemma {:induction false} ComposeShapeFailures(value: Value, q: Option<Expr>, cur: Prop,
                             normalize: (Attr, string) -> Option<Value>, admit: Admission)
    requires WF(cur)
    ensures q.None? ==>
              ComposedElement(value, q, cur, normalize, admit) == Failure(InvalidFilter(NoFilterFound))
    ensures q.Some? && ChainedTrailing(q.value) ==>
              ComposedElement(value, q, cur, normalize, admit) == Failure(InvalidFilter(NotSingleEq))
    ensures q.Some? && !ChainedTrailing(q.value) &&
            (!IsPath(q.value.left) || !IsPath(q.value.next) ||
             q.value.left.value.token == "" || q.value.next.value.token == "") ==>
              ComposedElement(value, q, cur, normalize, admit) == Failure(InvalidFilter(Unsupported))
  {
  }

  /** The schema error cases, checked after the shape ones when the right operand is a
      literal: the probe fails (the collection's elements have no sub-attribute named
      by the filter key, or the empty element is not admitted), or the literal does
      not normalise against the first sub-attribute that is so named. */
  lemma {:induction false} ComposeSchemaFailures(value: Value, e: Expr, cur: Prop,
                              normalize: (Attr, string) -> Option<Value>, admit: Admission)
    requires WF(cur)
    requires !ChainedTrailing(e) && FilterKey(e) != "" && TrailingKey(e) != "" && IsLiteral(e.right)
    ensures !(cur.attr.multiValued && admit(cur.attr, Obj(map[])).None? && cur.attr.typ == Complex &&
              exists k :: 0 <= k < |cur.attr.subAttrs| && cur.attr.subAttrs[k].name == FilterKey(e)) ==>
              ComposedElement(value, Some(e), cur, normalize, admit) == Failure(InvalidFilter(NoComparisonAttribute))
    ensures forall k: nat ::
              (FirstSubAttrNamed(cur.attr, k, FilterKey(e)) && cur.attr.multiValued &&
               admit(cur.attr, Obj(map[])).None? && cur.attr.typ == Complex &&
               normalize(cur.attr.subAttrs[k], e.right.value.token).None?) ==>
                ComposedElement(value, Some(e), cur, normalize, admit) == Failure(InvalidFilter(BadFilterValue))
  {
    ProbeFindsComparisonAttribute(cur, FilterKey(e), admit);
    forall k: nat | FirstSubAttrNamed(cur.attr, k, FilterKey(e)) && cur.attr.multiValued &&
                    admit(cur.attr, Obj(map[])).None? && cur.attr.typ == Complex && normalize(cur.attr.subAttrs[k], e.right.value.token).None?
      ensures ComposedElement(value, Some(e), cur, normalize, admit) == Failure(InvalidFilter(BadFilterValue))
    {
      var probe := Probe(cur, FilterKey(e), admit);
      assert probe.err.None?;
      var k': nat :| FirstSubAttrNamed(cur.attr, k', FilterKey(e)) && CurrentNode(probe).attr == cur.attr.subAttrs[k'];
      FirstSubAttrUnique(cur.attr, k, k', FilterKey(e));
    }
  }

  /** On success the result is the one-element list {trailing: value, key: literal
      normalised against the collection's first sub-attribute named key}; when the right
      operand is not a literal the key maps to `Null` (on any node, by
      `ComposeWithoutLiteral`). */
  lemma {:induction false} ComposeBuildsElement(value: Value, e: Expr, cur: Prop,
                             normalize: (Attr, string) -> Option<Value>, admit: Admission, k: nat)
    requires WF(cur) && cur.attr.multiValued && cur.attr.typ == Complex
    requires !ChainedTrailing(e) && IsPath(e.left) && IsPath(e.next)
    requires e.left.value.token != "" && e.next.value.token != ""
    requires FirstSubAttrNamed(cur.attr, k, e.left.value.token)
    ensures IsLiteral(e.right) && admit(cur.attr, Obj(map[])).None? &&
            normalize(cur.attr.subAttrs[k], e.right.value.token).Some? ==>
              ComposedElement(value, Some(e), cur, normalize, admit) ==
              Success(Arr([Obj(map[e.next.value.token := value]
                                  [e.left.value.token := normalize(cur.attr.subAttrs[k], e.right.value.token).value])]))
    ensures !IsLiteral(e.right) ==>
              ComposedElement(value, Some(e), cur, normalize, admit) ==
              Success(Arr([Obj(map[e.next.value.token := value][e.left.value.token := Null])]))
  {
    ProbeFindsComparisonAttribute(cur, e.left.value.token, admit);
    var probe := Probe(cur, e.left.value.token, admit);
    if IsLiteral(e.right) && admit(cur.attr, Obj(map[])).None? {
      assert probe.err.None? by {
        assert cur.attr.subAttrs[k].name == e.left.value.token;
      }
      var k': nat :| FirstSubAttrNamed(cur.attr, k', e.left.value.token) &&
                CurrentNode(probe).attr == cur.attr.subAttrs[k'];
      FirstSubAttrUnique(cur.attr, k, k', e.left.value.token);
    }
  }

  /** When the right operand is not a literal there is no probe: on any conformant
      node, whatever its shape, schema or admission, the result is the one-element
      list {trailing: value, key: Null}. */
  lemma {:induction false} ComposeWithoutLiteral(value: Value, e: Expr, cur: Prop,
                             normalize: (Attr, string) -> Option<Value>, admit: Admission)
    requires WF(cur)
    requires !ChainedTrailing(e) && IsPath(e.left) && IsPath(e.next)
    requires e.left.value.token != "" && e.next.value.token != "" && !IsLiteral(e.right)
    ensures ComposedElement(value, Some(e), cur, normalize, admit) ==
            Success(Arr([Obj(map[e.next.value.token := value][e.left.value.token := Null])]))
    ensures forall other: Prop | WF(other) ::
              ComposedElement(value, Some(e), other, normalize, admit) ==
              ComposedElement(value, Some(e), cur, normalize, admit)
  {
  }

  /** Under add-by-Eq-filter's stop predicate the chained-trailing and no-filter errors
      never arise: the predicate already demands exactly one trailing segment, so the
      composition fails, if at all, only on an empty key, a missing comparison
      sub-attribute or a bad literal. */
  lemma {:induction false} ReachedFilterNeverChained(value: Value, q: Option<Expr>, cur: Prop,
                                  normalize: (Attr, string) -> Option<Value>, admit: Admission)
    requires WF(cur) && q.Some? && SingleEqFilterReached(cur, q)
    ensures ComposedElement(value, q, cur, normalize, admit) != Failure(InvalidFilter(NotSingleEq))
    ensures ComposedElement(value, q, cur, normalize, admit) != Failure(InvalidFilter(NoFilterFound))
  {
  }

  /** `composeValueByEqFilter` on the navigator's current node. The type discovery
      runs on a fresh navigator over a copy of that node, so the shared navigator and
      its tree are not modified. */
  method ComposeValueByEqFilter(value: Value, q: Option<Expr>, nav: Navigator,
                                normalize: (Attr, string) -> Option<Value>, admit: Admission)
    returns (r: Result<Value, Error>)
    requires nav.Valid()
    ensures r == ComposedElement(value, q, nav.Current(), normalize, admit)
  {
    if q.None? {
      return Failure(InvalidFilter(NoFilterFound));
    }
    var e := q.value;
    var filterKey := "";
    var keyValue := "";
    if e.left.Some? && e.left.value.path {
      filterKey := e.left.value.token;
    }
    if e.next.Some? && e.next.value.path {
      if e.next.value.next.Some? {
        return Failure(InvalidFilter(NotSingleEq));
      }
      keyValue := e.next.value.token;
    }
    if filterKey == "" || keyValue == "" {
      return Failure(InvalidFilter(Unsupported));
    }
    var filterValue := Null;
    if e.right.Some? && e.right.value.literal {
      var navCopy := new Navigator(nav.Current());
      navCopy.Add(Obj(map[]), admit);
      navCopy.At(0);
      navCopy.Dot(filterKey);
      if navCopy.err.Some? {
        return Failure(InvalidFilter(NoComparisonAttribute));
      }
      var normalized := normalize(navCopy.Current().attr, e.right.value.token);
      if normalized.None? {
        return Failure(InvalidFilter(BadFilterValue));
      }
      filterValue := normalized.value;
    }
    r := Success(NewElement(keyValue, value, filterKey, filterValue));
  }
}
