/** The traversal as a function of its state: the navigator (as a `Nav` value) and
    the positions at which the callback has fired so far. Each function below is one
    method of Go's `traverser`, threading the state the shared navigator and the
    callback would change, and returning the error the method returns. */
module Traversal {
  import opened Wrappers
  import opened Errors
  import opened Props
  import opened Query
  import opened Navigation
  import opened Strategies
  import opened Compose

  /** What happens when the walk is finished: notify the caller's callback, or first
      compose and append a new element (add-by-Eq-filter mode). */
  datatype Action = Report | AddByEqFilter(value: Value)

  /** The wiring of one entry point. */
  datatype Config = Config(elementStrategy: ElementStrategy, traverseStrategy: TraverseStrategy, action: Action)

  /** Adding is only wired to the stop predicate that finds a single Eq filter, which
      guarantees that the callback runs on a collection. */
  predicate Wired(c: Config)
  {
    c.action.AddByEqFilter? ==> c.traverseStrategy.TraverseToSingleEqFilter?
  }

  /** `defaultTraverse`: every element, the whole query, plain notification. */
  function DefaultConfig(): Config
  {
    Config(SelectAll, TraverseAll, Report)
  }

  /** `addByEqFilterTraverse`: every element, stop at a single Eq filter, compose and add. */
  function AddByEqFilterConfig(value: Value): Config
  {
    Config(SelectAll, TraverseToSingleEqFilter, AddByEqFilter(value))
  }

  /** `primaryOrFirstTraverse`: the primary (or first) element, the whole query, plain notification. */
  function PrimaryOrFirstConfig(): Config
  {
    Config(PrimaryOrFirst, TraverseAll, Report)
  }

  /** The code the traversal calls but does not define: the filter evaluator on one
      element, the literal normaliser, the property library's check of a value added
      to a collection, and the caller's callback (which observes the navigator and
      may fail). */
  datatype Env = Env(
    evaluate: (Prop, Expr) -> Result<bool, Error>,
    normalize: (Attr, string) -> Option<Value>,
    admit: Admission,
    onReach: Nav -> Option<Error>)

  /** The error a traversal method returns: nil, or an error. */
  datatype Status = Ok | Fail(error: Error)

  /** The navigator, and every navigator position at which the callback fired, in order. */
  datatype State = State(nav: Nav, visits: seq<seq<nat>>)

  datatype Outcome = Outcome(status: Status, st: State)

  /** The state an entry point starts from: `prop.Navigate(property)`, nothing visited. */
  function Start(p: Prop): (s: State)
    ensures WF(p) ==> Consistent(s.nav)
    ensures s.nav.stack == [] && s.nav.err.None? && s.visits == []
  {
    State(Navigate(p), [])
  }

  /** What every traversal method guarantees about the state it leaves behind: the
      navigator is back at the depth (indeed the position) it started from, the tree
      is untouched unless elements are being added, earlier visits are kept, and
      every new visit lies at or below the starting position. */
  predicate Follows(c: Config, s: State, t: State)
  {
    && t.nav.stack == s.nav.stack
    && (c.action.Report? ==> t.nav.root == s.nav.root)
    && s.visits <= t.visits
    && forall k :: |s.visits| <= k < |t.visits| ==> s.nav.stack <= t.visits[k]
  }

  /** Invoking the callback: the current position is recorded as visited and the
      callback's error, if any, is returned. */
  function Notify(env: Env, s: State): (r: Outcome)
    ensures r.st == State(s.nav, s.visits + [s.nav.stack])
    ensures r.status.Ok? <==> env.onReach(s.nav).None?
    ensures env.onReach(s.nav).Some? ==> r.status == Fail(env.onReach(s.nav).value)
  {
    var status := match env.onReach(s.nav)
      case None => Ok
      case Some(e) => Fail(e);
    Outcome(status, State(s.nav, s.visits + [s.nav.stack]))
  }

  /** The callback an entry point installs, run where the walk stopped with remaining
      query `q`. In add mode a composition error is returned before anything changes;
      otherwise the element is added to the current collection and the caller's
      callback runs on the navigator that now holds it. The outcome of `Add` is not
      checked: if the value is rejected, the error stays on the navigator and the
      caller's callback runs all the same. */
  function Reach(c: Config, env: Env, s: State, q: Option<Expr>): (r: Outcome)
    requires Consistent(s.nav) && Done(c.traverseStrategy, CurrentNode(s.nav), q)
    ensures Consistent(r.st.nav) && Follows(c, s, r.st)
    ensures Wired(c) && s.nav.err.None? && r.status.Ok? && AdmitsAll(env.admit) ==> r.st.nav.err.None?
  {
    match c.action
    case Report => Notify(env, s)
    case AddByEqFilter(value) =>
      match ComposedElement(value, q, CurrentNode(s.nav), env.normalize, env.admit)
      case Failure(e) => Outcome(Fail(e), s)
      case Success(elem) =>
        AddErrorFree(s.nav, elem, env.admit);
        Notify(env, State(AddStep(s.nav, elem, env.admit), s.visits))
  }

  /** When every value is admitted, `Add` records no error on a collection whose
      navigator had none. */
  lemma {:induction false} AddErrorFree(n: Nav, v: Value, admit: Admission)
    requires Consistent(n)
    ensures n.err.None? && CurrentNode(n).attr.multiValued && AdmitsAll(admit) ==> AddStep(n, v, admit).err.None?
  {
    if n.err.None? && CurrentNode(n).attr.multiValued && AdmitsAll(admit) {
      assert admit(CurrentNode(n).attr, v).None?;
      AddAppends(n, v, admit);
    }
  }

  /** Returning to the parent after a child walk: a state reached from `s` with one
      more index pushed, whose walk `Follows`, retracts to a state that `Follows` `s`. */
  lemma {:induction false} FollowsAfterRetract(c: Config, s: State, m: State, t: State, i: nat)
    requires Consistent(s.nav) && Consistent(m.nav) && Consistent(t.nav)
    requires m.nav.stack == s.nav.stack + [i] && m.visits == s.visits
    requires c.action.Report? ==> m.nav.root == s.nav.root
    requires Follows(c, m, t)
    ensures Follows(c, s, t.(nav := RetractStep(t.nav)))
  {
    forall k | |s.visits| <= k < |t.visits|
      ensures s.nav.stack <= t.visits[k]
    {
      assert s.nav.stack <= m.nav.stack;
    }
  }

  /** `traverser.traverse`: fire the callback if the stop predicate holds; else a
      filter must stand on a collection and walks the qualified elements; else a
      collection walks its selected elements; else step to the named sub-attribute. */
  function Traverse(c: Config, env: Env, s: State, q: Option<Expr>): (r: Outcome)
    requires Consistent(s.nav)
    ensures Consistent(r.st.nav) && Follows(c, s, r.st)
    ensures Wired(c) && s.nav.err.None? && r.status.Ok? && AdmitsAll(env.admit) ==> r.st.nav.err.None?
    decreases Size(q), MultiRank(s.nav), 2, 0
  {
    var cur := CurrentNode(s.nav);
    if Done(c.traverseStrategy, cur, q) then Reach(c, env, s, q)
    else if q.value.rootOfFilter then
      if !cur.attr.multiValued then Outcome(Fail(InvalidFilter(SingularTarget)), s)
      else TraverseQualified(c, env, s, q.value, 0, |cur.children|)
    else if cur.attr.multiValued then
      TraverseSelected(c, env, s, q, Select(c.elementStrategy, cur), 0, |cur.children|)
    else TraverseNext(c, env, s, q.value)
  }

  /** `traverser.traverseNext`: `Dot` into the sub-attribute the query names, return a
      navigator error at once (nothing was pushed), else walk the rest of the query
      there and `Retract`. */
  function TraverseNext(c: Config, env: Env, s: State, e: Expr): (r: Outcome)
    requires Consistent(s.nav)
    ensures Consistent(r.st.nav) && Follows(c, s, r.st)
    ensures Wired(c) && s.nav.err.None? && r.status.Ok? && AdmitsAll(env.admit) ==> r.st.nav.err.None?
    ensures DotStep(s.nav, e.token).err.Some? ==>
              r == Outcome(Fail(DotStep(s.nav, e.token).err.value), s.(nav := DotStep(s.nav, e.token)))
    decreases Size(Some(e)), 0, 1, 0
  {
    var n1 := DotStep(s.nav, e.token);
    if n1.err.Some? then Outcome(Fail(n1.err.value), s.(nav := n1))
    else
      var m := s.(nav := n1);
      var r1 := Traverse(c, env, m, e.next);
      FollowsAfterRetract(c, s, m, r1.st, n1.stack[|n1.stack| - 1]);
      Outcome(r1.status, r1.st.(nav := RetractStep(r1.st.nav)))
  }

  /** The common shape of both element loops, for element `i` of the current
      collection once `At(i)` has succeeded: walk query `q` there, then `Retract`.
      Everything the walk visits lies inside element `i`. */
  function Descend(c: Config, env: Env, s: State, q: Option<Expr>, i: nat): (r: Outcome)
    requires Consistent(s.nav) && AtStep(s.nav, i).err.None?
    ensures Consistent(r.st.nav) && r.st.nav.stack == s.nav.stack
    ensures c.action.Report? ==> r.st.nav.root == s.nav.root
    ensures s.visits <= r.st.visits
    ensures forall k :: |s.visits| <= k < |r.st.visits| ==> s.nav.stack + [i] <= r.st.visits[k]
    ensures Wired(c) && r.status.Ok? && AdmitsAll(env.admit) ==> r.st.nav.err.None?
    decreases Size(q), 1, 0, 0
  {
    var n1 := AtStep(s.nav, i);
    AtLandsOnElement(s.nav, i);
    var m := s.(nav := n1);
    var r1 := Traverse(c, env, m, q);
    FollowsAfterRetract(c, s, m, r1.st, i);
    Outcome(r1.status, r1.st.(nav := RetractStep(r1.st.nav)))
  }

  /** `traverser.traverseSelectedElements`, from index `i` of the `n` elements the
      collection had when the loop began: skip an element `sel` rejects; otherwise `At`
      it, return a navigator error at once, else walk the SAME query there, `Retract`,
      and stop at the first error. */
  function TraverseSelected(c: Config, env: Env, s: State, q: Option<Expr>, sel: Selector, i: nat, n: nat): (r: Outcome)
    requires Consistent(s.nav)
    ensures Consistent(r.st.nav) && Follows(c, s, r.st)
    ensures Wired(c) && s.nav.err.None? && r.status.Ok? && AdmitsAll(env.admit) ==> r.st.nav.err.None?
    decreases Size(q), 1, 1, n - i
  {
    if i >= n then Outcome(Ok, s)
    else if !Accepts(sel, i) then TraverseSelected(c, env, s, q, sel, i + 1, n)
    else
      var n1 := AtStep(s.nav, i);
      if n1.err.Some? then Outcome(Fail(n1.err.value), s.(nav := n1))
      else
        var r1 := Descend(c, env, s, q, i);
        if r1.status.Fail? then r1
        else TraverseSelected(c, env, r1.st, q, sel, i + 1, n)
  }

  /** `traverser.traverseQualifiedElements`, from index `i` of the `n` elements the
      collection had when the loop began: `At` each element, return a navigator error
      at once, evaluate the filter there; an evaluation error is returned, a false
      result skips the element, a true one walks the query after the filter; the
      element is always retracted, and the first error stops the loop. */
  function TraverseQualified(c: Config, env: Env, s: State, f: Expr, i: nat, n: nat): (r: Outcome)
    requires Consistent(s.nav)
    ensures Consistent(r.st.nav) && Follows(c, s, r.st)
    ensures Wired(c) && s.nav.err.None? && r.status.Ok? && AdmitsAll(env.admit) ==> r.st.nav.err.None?
    decreases Size(Some(f)), 1, 1, n - i
  {
    if i >= n then Outcome(Ok, s)
    else
      var n1 := AtStep(s.nav, i);
      if n1.err.Some? then Outcome(Fail(n1.err.value), s.(nav := n1))
      else
        AtThenRetract(s.nav, i);
        match env.evaluate(CurrentNode(n1), f)
        case Failure(e) => Outcome(Fail(e), s.(nav := RetractStep(n1)))
        case Success(matched) =>
          if !matched then TraverseQualified(c, env, s.(nav := RetractStep(n1)), f, i + 1, n)
          else
            var r1 := Descend(c, env, s, f.next, i);
            if r1.status.Fail? then r1
            else TraverseQualified(c, env, r1.st, f, i + 1, n)
  }
}
