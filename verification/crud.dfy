/** Go's `traverser` and the three entry points that wire it. The traverser shares
    one navigator, mutated in place by `Dot`/`At`/`Retract`/`Add`; each method is
    proved to leave exactly the state, and return exactly the error, that the
    corresponding function of module `Traversal` computes. */
module Crud {
  import opened Wrappers
  import opened Errors
  import opened Props
  import opened Query
  import opened Navigation
  import opened Strategies
  import opened Compose
  import opened Traversal

  class Traverser {
    const nav: Navigator
    const config: Config
    const env: Env
    /** Every navigator position at which the callback fired, in order. */
    var visits: seq<seq<nat>>

    /** A traverser over `prop.Navigate(property)`. */
    constructor (property: Prop, config: Config, env: Env)
      requires WF(property)
      ensures fresh(nav) && nav.Valid()
      ensures this.config == config && this.env == env
      ensures Snapshot() == Start(property)
    {
      nav := new Navigator(property);
      this.config := config;
      this.env := env;
      visits := [];
    }

    function Snapshot(): State
      reads this, nav
    {
      State(nav.Snapshot(), visits)
    }

    /** The caller's callback: it sees the navigator, and its position is recorded. */
    method Notify() returns (status: Status)
      requires nav.Valid()
      modifies this
      ensures nav.Valid()
      ensures Outcome(status, Snapshot()) == Traversal.Notify(env, old(Snapshot()))
    {
      visits := visits + [nav.stack];
      match env.onReach(nav.Snapshot())
      case None => status := Ok;
      case Some(e) => status := Fail(e);
    }

    /** The callback the entry point installs: notify, or in add mode first compose
        the new element and `Add` it to the current collection; an error `Add`
        records is left on the navigator, unchecked. */
    method Reach(q: Option<Expr>) returns (status: Status)
      requires nav.Valid() && Done(config.traverseStrategy, nav.Current(), q)
      modifies this, nav
      ensures nav.Valid()
      ensures Outcome(status, Snapshot()) == Traversal.Reach(config, env, old(Snapshot()), q)
    {
      match config.action
      case Report =>
        status := Notify();
      case AddByEqFilter(value) =>
        var v := ComposeValueByEqFilter(value, q, nav, env.normalize, env.admit);
        if v.Failure? {
          return Fail(v.error);
        }
        nav.Add(v.value, env.admit);
        status := Notify();
    }

    method Traverse(q: Option<Expr>) returns (status: Status)
      requires nav.Valid()
      modifies this, nav
      ensures nav.Valid()
      ensures Outcome(status, Snapshot()) == Traversal.Traverse(config, env, old(Snapshot()), q)
      decreases Size(q), MultiRank(nav.Snapshot()), 2, 0
    {
      var cur := nav.Current();
      if Done(config.traverseStrategy, cur, q) {
        status := Reach(q);
        return;
      }
      if q.value.rootOfFilter {
        if !cur.attr.multiValued {
          return Fail(InvalidFilter(SingularTarget));
        }
        status := TraverseQualifiedElements(q.value);
        return;
      }
      if cur.attr.multiValued {
        status := TraverseSelectedElements(q);
        return;
      }
      status := TraverseNext(q.value);
    }

    method TraverseNext(e: Expr) returns (status: Status)
      requires nav.Valid()
      modifies this, nav
      ensures nav.Valid()
      ensures Outcome(status, Snapshot()) == Traversal.TraverseNext(config, env, old(Snapshot()), e)
      decreases Size(Some(e)), 0, 1, 0
    {
      nav.Dot(e.token);
      if nav.err.Some? {
        return Fail(nav.err.value);
      }
      status := Traverse(e.next);
      nav.Retract();
    }

    method TraverseSelectedElements(q: Option<Expr>) returns (status: Status)
      requires nav.Valid()
      modifies this, nav
      ensures nav.Valid()
      ensures Outcome(status, Snapshot()) ==
              Traversal.TraverseSelected(config, env, old(Snapshot()), q,
                                         Select(config.elementStrategy, old(nav.Current())),
                                         0, |old(nav.Current()).children|)
      decreases Size(q), 1, 1, 0
    {
      var cur := nav.Current();
      var sel := Select(config.elementStrategy, cur);
      var n := |cur.children|;
      var i := 0;
      ghost var goal := Traversal.TraverseSelected(config, env, Snapshot(), q, sel, 0, n);
      while i < n
        invariant 0 <= i <= n
        invariant nav.Valid()
        invariant Traversal.TraverseSelected(config, env, Snapshot(), q, sel, i, n) == goal
        decreases n - i
      {
        status := SelectedElement(q, sel, i, n);
        if status.Fail? {
          return;
        }
        i := i + 1;
      }
      return Ok;
    }

    /** The function `traverseSelectedElements` hands to `ForEachChild`, for element
        `i`: skip it if the selector rejects it; else `At` it, return a navigator
        error at once, walk the same query there and `Retract`. On success the loop
        goes on from `i + 1`; on an error the loop's outcome is this one. */
    method SelectedElement(q: Option<Expr>, sel: Selector, i: nat, n: nat) returns (status: Status)
      requires nav.Valid() && i < n
      modifies this, nav
      ensures nav.Valid()
      ensures status.Fail? ==>
                Outcome(status, Snapshot()) == Traversal.TraverseSelected(config, env, old(Snapshot()), q, sel, i, n)
      ensures status.Ok? ==>
                Traversal.TraverseSelected(config, env, Snapshot(), q, sel, i + 1, n) ==
                Traversal.TraverseSelected(config, env, old(Snapshot()), q, sel, i, n)
      decreases Size(q), 1, 0, 0
    {
      if !Accepts(sel, i) {
        return Ok;
      }
      ghost var before := nav.Snapshot();
      nav.At(i);
      if nav.err.Some? {
        return Fail(nav.err.value);
      }
      AtLandsOnElement(before, i);
      status := Traverse(q);
      nav.Retract();
    }

    method TraverseQualifiedElements(f: Expr) returns (status: Status)
      requires nav.Valid()
      modifies this, nav
      ensures nav.Valid()
      ensures Outcome(status, Snapshot()) ==
              Traversal.TraverseQualified(config, env, old(Snapshot()), f, 0, |old(nav.Current()).children|)
      decreases Size(Some(f)), 1, 1, 0
    {
      var n := |nav.Current().children|;
      var i := 0;
      ghost var goal := Traversal.TraverseQualified(config, env, Snapshot(), f, 0, n);
      while i < n
        invariant 0 <= i <= n
        invariant nav.Valid()
        invariant Traversal.TraverseQualified(config, env, Snapshot(), f, i, n) == goal
        decreases n - i
      {
        status := QualifiedElement(f, i, n);
        if status.Fail? {
          return;
        }
        i := i + 1;
      }
      return Ok;
    }

    /** The function `traverseQualifiedElements` hands to `ForEachChild`, for element
        `i`: `At` it, return a navigator error at once, evaluate the filter there and
        walk the query after the filter on a match; the element is retracted on every
        path past the `At`. On success the loop goes on from `i + 1`; on an error the
        loop's outcome is this one. */
    method QualifiedElement(f: Expr, i: nat, n: nat) returns (status: Status)
      requires nav.Valid() && i < n
      modifies this, nav
      ensures nav.Valid()
      ensures status.Fail? ==>
                Outcome(status, Snapshot()) == Traversal.TraverseQualified(config, env, old(Snapshot()), f, i, n)
      ensures status.Ok? ==>
                Traversal.TraverseQualified(config, env, Snapshot(), f, i + 1, n) ==
                Traversal.TraverseQualified(config, env, old(Snapshot()), f, i, n)
      decreases Size(Some(f)), 1, 0, 0
    {
      nav.At(i);
      if nav.err.Some? {
        return Fail(nav.err.value);
      }
      var matched := env.evaluate(nav.Current(), f);
      if matched.Failure? {
        nav.Retract();
        return Fail(matched.error);
      }
      if !matched.value {
        nav.Retract();
        return Ok;
      }
      status := Traverse(f.next);
      nav.Retract();
    }
  }

  /** `defaultTraverse`: returns the traversal's error and the positions the callback
      saw; the tree is only observed. */
  method DefaultTraverse(property: Prop, q: Option<Expr>, env: Env) returns (status: Status, visits: seq<seq<nat>>)
    requires WF(property)
    ensures var r := Traversal.Traverse(DefaultConfig(), env, Start(property), q);
            status == r.status && visits == r.st.visits && r.st.nav.root == property
  {
    var t := new Traverser(property, DefaultConfig(), env);
    status := t.Traverse(q);
    visits := t.visits;
  }

  /** `addByEqFilterTraverse`: returns the traversal's error, the tree with the
      composed elements added, and the positions the callback saw. */
  method AddByEqFilterTraverse(value: Value, property: Prop, q: Option<Expr>, env: Env)
    returns (status: Status, tree: Prop, visits: seq<seq<nat>>)
    requires WF(property)
    ensures WF(tree)
    ensures var r := Traversal.Traverse(AddByEqFilterConfig(value), env, Start(property), q);
            status == r.status && tree == r.st.nav.root && visits == r.st.visits
  {
    var t := new Traverser(property, AddByEqFilterConfig(value), env);
    status := t.Traverse(q);
    tree := t.nav.root;
    visits := t.visits;
  }

  /** `primaryOrFirstTraverse`: returns the traversal's error and the positions the
      callback saw; the tree is only observed. */
  method PrimaryOrFirstTraverse(property: Prop, q: Option<Expr>, env: Env) returns (status: Status, visits: seq<seq<nat>>)
    requires WF(property)
    ensures var r := Traversal.Traverse(PrimaryOrFirstConfig(), env, Start(property), q);
            status == r.status && visits == r.st.visits && r.st.nav.root == property
  {
    var t := new Traverser(property, PrimaryOrFirstConfig(), env);
    status := t.Traverse(q);
    visits := t.visits;
  }
}
