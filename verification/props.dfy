/** The schema-typed property tree the traversal walks. Attribute metadata and
    property nodes belong to the surrounding library; this module gives them the
    smallest shape the traversal consults, plus the tree surgery `Add` performs. */
module Props {
  import opened Wrappers

  datatype AttrType = String | Boolean | Integer | Decimal | DateTime | Reference | Binary | Complex

  /** Attribute metadata. `primary` says whether the attribute carries the Primary annotation. */
  datatype Attr = Attr(name: string, typ: AttrType, multiValued: bool, subAttrs: seq<Attr>, primary: bool)

  /** Raw values, as decoded from JSON. */
  datatype Value =
    | Null
    | Str(s: string)
    | Bool(b: bool)
    | Int(i: int)
    | Obj(fields: map<string, Value>)
    | Arr(items: seq<Value>)

  /** A property node: its attribute, its raw scalar value and its ordered children
      (the elements of a multi-valued node, the sub-attributes of a complex one). */
  datatype Prop = Prop(attr: Attr, raw: Value, children: seq<Prop>)

  /** The attribute of one element of a multi-valued attribute. */
  function ElementAttr(a: Attr): (e: Attr)
    ensures !e.multiValued && e.name == a.name && e.typ == a.typ && e.subAttrs == a.subAttrs
  {
    a.(multiValued := false)
  }

  /** Schema conformance of a property tree: elements of a collection carry the
      element attribute, a singular complex node has one child per sub-attribute,
      in order, and a singular simple node has no children. */
  predicate WF(p: Prop)
  {
    && (forall k :: 0 <= k < |p.children| ==> WF(p.children[k]))
    && (p.attr.multiValued ==>
          forall k :: 0 <= k < |p.children| ==> p.children[k].attr == ElementAttr(p.attr))
    && (!p.attr.multiValued && p.attr.typ == Complex ==>
          |p.children| == |p.attr.subAttrs| &&
          forall k :: 0 <= k < |p.children| ==> p.children[k].attr == p.attr.subAttrs[k])
    && (!p.attr.multiValued && p.attr.typ != Complex ==> p.children == [])
  }

  /** The first child whose attribute has the given name (a lookup by sub-attribute name). */
  function ChildByName(children: seq<Prop>, name: string): (r: Option<nat>)
    ensures r.Some? ==> r.value < |children| && children[r.value].attr.name == name
    ensures r.Some? ==> forall j :: 0 <= j < r.value ==> children[j].attr.name != name
    ensures r.None? ==> forall j :: 0 <= j < |children| ==> children[j].attr.name != name
  {
    if children == [] then None
    else if children[0].attr.name == name then Some(0)
    else match ChildByName(children[1..], name)
      case None => None
      case Some(j) => Some(j + 1)
  }

  /** A position in the tree: the child index taken at each level, starting at the root. */
  predicate ValidPath(p: Prop, path: seq<nat>)
    decreases path
  {
    path == [] || (path[0] < |p.children| && ValidPath(p.children[path[0]], path[1..]))
  }

  function NodeAt(p: Prop, path: seq<nat>): Prop
    requires ValidPath(p, path)
    decreases path
  {
    if path == [] then p else NodeAt(p.children[path[0]], path[1..])
  }

  /** The tree with `elems` appended to the children of the node at `path`. */
  function AddAt(p: Prop, path: seq<nat>, elems: seq<Prop>): (r: Prop)
    requires ValidPath(p, path)
    ensures r.attr == p.attr && |r.children| >= |p.children|
    decreases path
  {
    if path == [] then p.(children := p.children + elems)
    else p.(children := p.children[path[0] := AddAt(p.children[path[0]], path[1..], elems)])
  }

  lemma {:induction false} PushPath(p: Prop, path: seq<nat>, i: nat)
    requires ValidPath(p, path) && i < |NodeAt(p, path).children|
    ensures ValidPath(p, path + [i]) && NodeAt(p, path + [i]) == NodeAt(p, path).children[i]
    decreases path
  {
    if path != [] {
      assert (path + [i])[1..] == path[1..] + [i];
      PushPath(p.children[path[0]], path[1..], i);
    }
  }

  lemma {:induction false} PopPath(p: Prop, path: seq<nat>)
    requires ValidPath(p, path) && path != []
    ensures ValidPath(p, path[..|path| - 1])
    decreases path
  {
    if |path| > 1 {
      assert path[..|path| - 1][1..] == path[1..][..|path| - 2];
      PopPath(p.children[path[0]], path[1..]);
    }
  }

  lemma {:induction false} NodeAtWF(p: Prop, path: seq<nat>)
    requires WF(p) && ValidPath(p, path)
    ensures WF(NodeAt(p, path))
    decreases path
  {
    if path != [] {
      NodeAtWF(p.children[path[0]], path[1..]);
    }
  }

  /** Appending at a position keeps that position valid and changes nothing there
      but the children list, which grows by exactly `elems`. */
  lemma {:induction false} AddAtNode(p: Prop, path: seq<nat>, elems: seq<Prop>)
    requires ValidPath(p, path)
    ensures ValidPath(AddAt(p, path, elems), path)
    ensures NodeAt(AddAt(p, path, elems), path) ==
            NodeAt(p, path).(children := NodeAt(p, path).children + elems)
    decreases path
  {
    if path != [] {
      AddAtNode(p.children[path[0]], path[1..], elems);
    }
  }

  /** Appending schema-conformant elements to a collection keeps the whole tree conformant. */
  lemma {:induction false} AddAtWF(p: Prop, path: seq<nat>, elems: seq<Prop>)
    requires WF(p) && ValidPath(p, path) && NodeAt(p, path).attr.multiValued
    requires forall k :: 0 <= k < |elems| ==>
               WF(elems[k]) && elems[k].attr == ElementAttr(NodeAt(p, path).attr)
    ensures WF(AddAt(p, path, elems))
    decreases path
  {
    if path != [] {
      AddAtWF(p.children[path[0]], path[1..], elems);
      var r := AddAt(p, path, elems);
      forall k | 0 <= k < |r.children|
        ensures WF(r.children[k])
      {
        if k != path[0] {
          assert r.children[k] == p.children[k];
        }
      }
    }
  }

  /** A freshly created, unassigned property of attribute `a`. */
  function Blank(a: Attr): (r: Prop)
    ensures WF(r) && r.attr == a
    decreases a
  {
    if !a.multiValued && a.typ == Complex then
      Prop(a, Null, seq(|a.subAttrs|, k requires 0 <= k < |a.subAttrs| => Blank(a.subAttrs[k])))
    else
      Prop(a, Null, [])
  }

  /** The raw value a map gives to a key, or `Null`. */
  function FieldOf(v: Value, name: string): Value
  {
    if v.Obj? && name in v.fields then v.fields[name] else Null
  }

  /** The sub-property `s` of a new element built from the raw value `v`: a simple
      singular sub-attribute takes the value `v` holds under its name. */
  function SubProp(s: Attr, v: Value): (r: Prop)
    ensures WF(r) && r.attr == s
  {
    if !s.multiValued && s.typ != Complex then Prop(s, FieldOf(v, s.name), []) else Blank(s)
  }

  /** One new element of the collection attribute `a`, built from the raw value `v`. */
  function Element(a: Attr, v: Value): (r: Prop)
    ensures WF(r) && r.attr == ElementAttr(a)
  {
    var e := ElementAttr(a);
    if a.typ == Complex then
      Prop(e, Null, seq(|a.subAttrs|, k requires 0 <= k < |a.subAttrs| => SubProp(a.subAttrs[k], v)))
    else
      Prop(e, v, [])
  }

  /** The elements `Add(v)` appends to a collection of attribute `a`: one per item
      of an array value, or one for any other value. */
  function Elements(a: Attr, v: Value): (r: seq<Prop>)
    ensures |r| == (if v.Arr? then |v.items| else 1)
    ensures forall k :: 0 <= k < |r| ==> WF(r[k]) && r[k].attr == ElementAttr(a)
  {
    if v.Arr? then seq(|v.items|, k requires 0 <= k < |v.items| => Element(a, v.items[k]))
    else [Element(a, v)]
  }
}
