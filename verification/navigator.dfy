/** The navigator: a cursor over one property tree, with a stack of descended
    positions and the last descent error. `Nav` is its state as a value, the step
    functions say what each operation does to it, and class `Navigator` is the
    shared object the traversal mutates in place. */
module Navigation {
  import opened Wrappers
  import opened Errors
  import opened Props

  /** Navigator state: the tree, the child index taken at each level below the
      root (the stack; the root itself is always at its bottom) and the error. */
  datatype Nav = Nav(root: Prop, stack: seq<nat>, err: Option<Error>)

  /** The state invariant: a conformant tree and a stack that names a node of it. */
  predicate Consistent(n: Nav)
  {
    WF(n.root) && ValidPath(n.root, n.stack)
  }

  /** `prop.Navigate(p)`: a navigator at the root of `p`, with no error. */
  function Navigate(p: Prop): (n: Nav)
    ensures n.root == p && n.stack == [] && n.err.None?
    ensures WF(p) ==> Consistent(n)
  {
    Nav(p, [], None)
  }

  /** The node at the top of the stack. */
  function CurrentNode(n: Nav): (c: Prop)
    requires Consistent(n)
    ensures WF(c)
  {
    NodeAtWF(n.root, n.stack);
    NodeAt(n.root, n.stack)
  }

  /** 1 when the current node is a collection, else 0 (part of the traversal's measure). */
  function MultiRank(n: Nav): nat
    requires Consistent(n)
  {
    if CurrentNode(n).attr.multiValued then 1 else 0
  }

  /** `Dot(name)`: push the named sub-attribute of the current singular complex node.
      Once an error is recorded every descent is a no-op. */
  function DotStep(n: Nav, name: string): (r: Nav)
    requires Consistent(n)
    ensures Consistent(r) && r.root == n.root
    ensures r.err.Some? ==> r.stack == n.stack
    ensures r.err.None? ==>
              n.err.None? && |r.stack| == |n.stack| + 1 && n.stack <= r.stack &&
              CurrentNode(r) in CurrentNode(n).children && CurrentNode(r).attr.name == name
    ensures n.err.Some? ==> r == n
    ensures n.err.None? && (CurrentNode(n).attr.multiValued || CurrentNode(n).attr.typ != Complex) ==>
              r.err == Some(InvalidPath)
    ensures n.err.None? && !CurrentNode(n).attr.multiValued && CurrentNode(n).attr.typ == Complex ==>
              (r.err.None? <==> exists k :: 0 <= k < |CurrentNode(n).children| && CurrentNode(n).children[k].attr.name == name)
    ensures n.err.None? && !CurrentNode(n).attr.multiValued && CurrentNode(n).attr.typ == Complex && r.err.Some? ==>
              r.err == Some(NoAttribute)
  {
    if n.err.Some? then n
    else
      var c := CurrentNode(n);
      if c.attr.multiValued || c.attr.typ != Complex then n.(err := Some(InvalidPath))
      else match ChildByName(c.children, name)
        case None => n.(err := Some(NoAttribute))
        case Some(j) =>
          PushPath(n.root, n.stack, j);
          n.(stack := n.stack + [j])
  }

  /** `At(index)`: push the indexed element of the current collection. */
  function AtStep(n: Nav, i: nat): (r: Nav)
    requires Consistent(n)
    ensures Consistent(r) && r.root == n.root
    ensures r.err.Some? ==> r.stack == n.stack
    ensures r.err.None? ==>
              n.err.None? && CurrentNode(n).attr.multiValued && i < |CurrentNode(n).children| &&
              r.stack == n.stack + [i] && CurrentNode(r) == CurrentNode(n).children[i]
    ensures n.err.Some? ==> r == n
    ensures n.err.None? && CurrentNode(n).attr.multiValued && i < |CurrentNode(n).children| ==> r.err.None?
    ensures n.err.None? && !(CurrentNode(n).attr.multiValued && i < |CurrentNode(n).children|) ==>
              r.err == Some(InvalidPath)
  {
    if n.err.Some? then n
    else
      var c := CurrentNode(n);
      if !c.attr.multiValued || i >= |c.children| then n.(err := Some(InvalidPath))
      else
        PushPath(n.root, n.stack, i);
        n.(stack := n.stack + [i])
  }

  /** `Retract()`: pop one level; at the root there is nothing to pop. */
  function RetractStep(n: Nav): (r: Nav)
    requires Consistent(n)
    ensures Consistent(r) && r.root == n.root && r.err == n.err
    ensures n.stack != [] ==> r.stack + [n.stack[|n.stack| - 1]] == n.stack
    ensures n.stack == [] ==> r.stack == []
  {
    if n.stack == [] then n
    else
      PopPath(n.root, n.stack);
      n.(stack := n.stack[..|n.stack| - 1])
  }

  /** The property library's check of a value against the attribute of the
      collection it is added to: the error `Add` reports, if the value does not fit
      (a wrong type, a key naming no sub-attribute). It is not part of this model. */
  type Admission = (Attr, Value) -> Option<Error>

  /** An admission check that accepts every value. */
  ghost predicate AdmitsAll(admit: Admission)
  {
    forall a, v :: admit(a, v).None?
  }

  /** `Add(v)`: append the elements built from `v` to the current collection. On a
      singular node, or when the value does not fit, it records an error and
      changes nothing else. */
  function AddStep(n: Nav, v: Value, admit: Admission): (r: Nav)
    requires Consistent(n)
    ensures Consistent(r) && r.stack == n.stack
    ensures r.err.Some? ==> r.root == n.root
  {
    if n.err.Some? then n
    else
      var c := CurrentNode(n);
      if !c.attr.multiValued then n.(err := Some(InvalidPath))
      else match admit(c.attr, v)
        case Some(e) => n.(err := Some(e))
        case None =>
          var elems := Elements(c.attr, v);
          AddAtNode(n.root, n.stack, elems);
          AddAtWF(n.root, n.stack, elems);
          n.(root := AddAt(n.root, n.stack, elems))
  }

  /** A successful `Dot` is undone by exactly one `Retract`. */
  lemma {:induction false} DotThenRetract(n: Nav, name: string)
    requires Consistent(n) && DotStep(n, name).err.None?
    ensures RetractStep(DotStep(n, name)) == n
  {
    var r := DotStep(n, name);
    assert r.stack[..|r.stack| - 1] == n.stack;
  }

  /** A successful `At` is undone by exactly one `Retract`. */
  lemma {:induction false} AtThenRetract(n: Nav, i: nat)
    requires Consistent(n) && AtStep(n, i).err.None?
    ensures RetractStep(AtStep(n, i)) == n
  {
    var r := AtStep(n, i);
    assert r.stack[..|r.stack| - 1] == n.stack;
  }

  /** A successful `At` lands on an element, which is never itself a collection. */
  lemma {:induction false} AtLandsOnElement(n: Nav, i: nat)
    requires Consistent(n) && AtStep(n, i).err.None?
    ensures MultiRank(AtStep(n, i)) == 0
  {
    var c := CurrentNode(n);
    assert CurrentNode(AtStep(n, i)) == c.children[i];
    assert c.children[i].attr == ElementAttr(c.attr);
  }

  /** `Add` of a fitting value on an error-free collection appends the built
      elements after the existing ones and leaves the position, the error and the
      node's attribute as they were. */
  lemma {:induction false} AddAppends(n: Nav, v: Value, admit: Admission)
    requires Consistent(n) && n.err.None? && CurrentNode(n).attr.multiValued
    requires admit(CurrentNode(n).attr, v).None?
    ensures AddStep(n, v, admit).err.None? && AddStep(n, v, admit).stack == n.stack
    ensures CurrentNode(AddStep(n, v, admit)).attr == CurrentNode(n).attr
    ensures CurrentNode(AddStep(n, v, admit)).children == CurrentNode(n).children + Elements(CurrentNode(n).attr, v)
  {
    AddAtNode(n.root, n.stack, Elements(CurrentNode(n).attr, v));
  }

  /** `Add` of a value that does not fit records the admission error and changes
      neither the tree nor the position. */
  lemma {:induction false} AddRejects(n: Nav, v: Value, admit: Admission, e: Error)
    requires Consistent(n) && n.err.None? && CurrentNode(n).attr.multiValued
    requires admit(CurrentNode(n).attr, v) == Some(e)
    ensures AddStep(n, v, admit) == n.(err := Some(e))
  {
  }

  /** The shared, mutable navigator. */
  class Navigator {
    var root: Prop
    var stack: seq<nat>
    var err: Option<Error>

    function Snapshot(): Nav
      reads this
    {
      Nav(root, stack, err)
    }

    predicate Valid()
      reads this
    {
      Consistent(Snapshot())
    }

    constructor (p: Prop)
      requires WF(p)
      ensures Valid() && Snapshot() == Navigate(p)
    {
      root, stack, err := p, [], None;
    }

    function Current(): (c: Prop)
      reads this
      requires Valid()
      ensures c == CurrentNode(Snapshot())
    {
      CurrentNode(Snapshot())
    }

    method Dot(name: string)
      requires Valid()
      modifies this
      ensures Valid() && Snapshot() == DotStep(old(Snapshot()), name)
    {
      if err.Some? {
        return;
      }
      var c := Current();
      if c.attr.multiValued || c.attr.typ != Complex {
        err := Some(InvalidPath);
        return;
      }
      var j := ChildByName(c.children, name);
      if j.None? {
        err := Some(NoAttribute);
        return;
      }
      PushPath(root, stack, j.value);
      stack := stack + [j.value];
    }

    method At(i: nat)
      requires Valid()
      modifies this
      ensures Valid() && Snapshot() == AtStep(old(Snapshot()), i)
    {
      if err.Some? {
        return;
      }
      var c := Current();
      if !c.attr.multiValued || i >= |c.children| {
        err := Some(InvalidPath);
        return;
      }
      PushPath(root, stack, i);
      stack := stack + [i];
    }

    method Retract()
      requires Valid()
      modifies this
      ensures Valid() && Snapshot() == RetractStep(old(Snapshot()))
    {
      if stack != [] {
        PopPath(root, stack);
        stack := stack[..|stack| - 1];
      }
    }

    method Add(v: Value, admit: Admission)
      requires Valid()
      modifies this
      ensures Valid() && Snapshot() == AddStep(old(Snapshot()), v, admit)
    {
      if err.Some? {
        return;
      }
      var c := Current();
      if !c.attr.multiValued {
        err := Some(InvalidPath);
        return;
      }
      var rejected := admit(c.attr, v);
      if rejected.Some? {
        err := rejected;
        return;
      }
      var elems := Elements(c.attr, v);
      AddAtNode(root, stack, elems);
      AddAtWF(root, stack, elems);
      root := AddAt(root, stack, elems);
    }
  }
}
