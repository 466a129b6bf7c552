/** Properties of the traversal: what each branch of `traverse` does, the order and
    selection of the elements a loop visits, and what add-by-Eq-filter mode does at
    the collection it stops on. */
module TraversalFacts {
  import opened Wrappers
  import opened Errors
  import opened Props
  import opened Query
  import opened Navigation
  import opened Strategies
  import opened Compose
  import opened Traversal

  /** The visits `vs` made by a loop over the elements of the collection at `base`:
      each lies inside some element with index in [lo, hi), and the element indices
      never go back. */
  predicate ElementVisits(base: seq<nat>, vs: seq<seq<nat>>, lo: nat, hi: nat)
  {
    && (forall k :: 0 <= k < |vs| ==> base < vs[k] && lo <= vs[k][|base|] < hi)
    && (forall k1, k2 :: 0 <= k1 < k2 < |vs| ==> vs[k1][|base|] <= vs[k2][|base|])
  }

  /** Visits below element `i`, followed by visits of a loop from `i + 1`, are the
      visits of a loop from `i`. */
  lemma {:induction false} ElementVisitsConcat(base: seq<nat>, v1: seq<seq<nat>>, v2: seq<seq<nat>>, i: nat, n: nat)
    requires i < n
    requires forall k :: 0 <= k < |v1| ==> base + [i] <= v1[k]
    requires ElementVisits(base, v2, i + 1, n)
    ensures ElementVisits(base, v1 + v2, i, n)
  {
    var vs := v1 + v2;
    forall k | 0 <= k < |v1|
      ensures base < v1[k] && v1[k][|base|] == i
    {
      assert (base + [i])[|base|] == i;
    }
    forall k | 0 <= k < |vs|
      ensures base < vs[k] && i <= vs[k][|base|] < n
    {
      if k >= |v1| {
        assert vs[k] == v2[k - |v1|];
      }
    }
    forall k1, k2 | 0 <= k1 < k2 < |vs|
      ensures vs[k1][|base|] <= vs[k2][|base|]
    {
      if k2 < |v1| {
        assert vs[k1] == v1[k1] && vs[k2] == v1[k2];
      } else if k1 < |v1| {
        assert vs[k1] == v1[k1] && vs[k2] == v2[k2 - |v1|];
      } else {
        assert vs[k1] == v2[k1 - |v1|] && vs[k2] == v2[k2 - |v1|];
      }
    }
  }

  /** The new visits of a walk from `s` that ends in `t`. */
  function NewVisits(s: State, t: State): seq<seq<nat>>
    requires |s.visits| <= |t.visits|
  {
    t.visits[|s.visits|..]
  }

  /** Element `j` of collection `p` exists and the filter evaluates to true on it. */
  predicate Matched(env: Env, p: Prop, f: Expr, j: nat)
  {
    j < |p.children| && env.evaluate(p.children[j], f) == Success(true)
  }

  /** A filter on a singular attribute is an invalid-filter error, whatever the stop
      strategy: the callback does not run and the navigator does not move. */
  lemma {:induction false} FilterOnSingularAttribute(c: Config, env: Env, s: State, e: Expr)
    requires Consistent(s.nav) && e.rootOfFilter && !CurrentNode(s.nav).attr.multiValued
    ensures Traverse(c, env, s, Some(e)) == Outcome(Fail(InvalidFilter(SingularTarget)), s)
  {
  }

  /** In add mode a used-up query reaches the callback, whose composition then fails
      with "no filter found", before any element is added or the caller is notified. */
  lemma {:induction false} ExhaustedQueryInAddMode(value: Value, env: Env, s: State)
    requires Consistent(s.nav)
    ensures Traverse(AddByEqFilterConfig(value), env, s, None) ==
            Outcome(Fail(InvalidFilter(NoFilterFound)), s)
  {
  }

  /** In add mode, at a collection where the single-Eq-filter shape qualifies, the
      element composes and the property library admits it, the traversal appends the
      composed element(s) after the existing ones and notifies the caller there,
      once. No element is compared with the filter first: the result is the same
      whatever the evaluator says. */
  lemma {:induction false} AddModeAppendsWithoutMatching(value: Value, env: Env, s: State, e: Expr, elem: Value,
                                      evaluate: (Prop, Expr) -> Result<bool, Error>)
    requires Consistent(s.nav) && s.nav.err.None?
    requires SingleEqFilterReached(CurrentNode(s.nav), Some(e))
    requires ComposedElement(value, Some(e), CurrentNode(s.nav), env.normalize, env.admit) == Success(elem)
    requires env.admit(CurrentNode(s.nav).attr, elem).None?
    ensures var r := Traverse(AddByEqFilterConfig(value), env, s, Some(e));
            && r.st.nav.stack == s.nav.stack && r.st.nav.err.None?
            && CurrentNode(r.st.nav).attr == CurrentNode(s.nav).attr
            && CurrentNode(r.st.nav).children ==
               CurrentNode(s.nav).children + Elements(CurrentNode(s.nav).attr, elem)
            && r.st.visits == s.visits + [s.nav.stack]
            && r.status == (if env.onReach(r.st.nav).None? then Ok else Fail(env.onReach(r.st.nav).value))
    ensures Traverse(AddByEqFilterConfig(value), env.(evaluate := evaluate), s, Some(e)) ==
            Traverse(AddByEqFilterConfig(value), env, s, Some(e))
  {
    AddAppends(s.nav, elem, env.admit);
  }

  /** In add mode, when the property library rejects the composed element, the
      rejection is not returned here: the tree and the position are unchanged, the
      error is left on the navigator, and the caller's callback still fires there,
      once, seeing it. The status is the callback's alone; an enclosing element loop
      may report the error later (`SelectedReportsLeftoverError`). */
  lemma {:induction false} AddModeRejectedStillNotifies(value: Value, env: Env, s: State, e: Expr, elem: Value, err: Error)
    requires Consistent(s.nav) && s.nav.err.None?
    requires SingleEqFilterReached(CurrentNode(s.nav), Some(e))
    requires ComposedElement(value, Some(e), CurrentNode(s.nav), env.normalize, env.admit) == Success(elem)
    requires env.admit(CurrentNode(s.nav).attr, elem) == Some(err)
    ensures var r := Traverse(AddByEqFilterConfig(value), env, s, Some(e));
            && r.st.nav == s.nav.(err := Some(err))
            && r.st.visits == s.visits + [s.nav.stack]
            && r.status == (if env.onReach(s.nav.(err := Some(err))).None? then Ok
                            else Fail(env.onReach(s.nav.(err := Some(err))).value))
  {
    var c := AddByEqFilterConfig(value);
    assert Done(c.traverseStrategy, CurrentNode(s.nav), Some(e));
    AddRejects(s.nav, elem, env.admit, err);
    assert Traverse(c, env, s, Some(e)) == Notify(env, State(s.nav.(err := Some(err)), s.visits));
  }

  /** In add mode, a composition error at a collection where the filter shape
      qualifies is returned at once, with the state unchanged and no callback. */
  lemma {:induction false} AddModeComposeFailure(value: Value, env: Env, s: State, e: Expr, err: Error)
    requires Consistent(s.nav)
    requires SingleEqFilterReached(CurrentNode(s.nav), Some(e))
    requires ComposedElement(value, Some(e), CurrentNode(s.nav), env.normalize, env.admit) == Failure(err)
    ensures Traverse(AddByEqFilterConfig(value), env, s, Some(e)) == Outcome(Fail(err), s)
  {
  }

  /** A path step to a sub-attribute that the current singular complex node does not
      have fails with a no-attribute error: nothing is pushed, nothing is visited,
      the tree is unchanged, and the error stays on the navigator. */
  lemma {:induction false} MissingSubAttributeFails(c: Config, env: Env, s: State, e: Expr)
    requires Consistent(s.nav) && s.nav.err.None? && !e.rootOfFilter
    requires !CurrentNode(s.nav).attr.multiValued && CurrentNode(s.nav).attr.typ == Complex
    requires forall k :: 0 <= k < |CurrentNode(s.nav).children| ==> CurrentNode(s.nav).children[k].attr.name != e.token
    ensures Traverse(c, env, s, Some(e)) == Outcome(Fail(NoAttribute), s.(nav := s.nav.(err := Some(NoAttribute))))
  {
  }

  /** Selected-elements loop, a failed `At` on an accepted element: the navigator's
      error is returned at once, with nothing pushed or visited. */
  lemma {:induction false} SelectedStopsOnAtError(c: Config, env: Env, s: State, q: Option<Expr>, sel: Selector, i: nat, n: nat)
    requires Consistent(s.nav) && i < n && Accepts(sel, i) && AtStep(s.nav, i).err.Some?
    ensures TraverseSelected(c, env, s, q, sel, i, n) ==
            Outcome(Fail(AtStep(s.nav, i).err.value), s.(nav := AtStep(s.nav, i)))
  {
  }

  /** Qualified loop, a failed `At`: the navigator's error is returned at once, with
      nothing pushed, evaluated or visited. */
  lemma {:induction false} QualifiedStopsOnAtError(c: Config, env: Env, s: State, f: Expr, i: nat, n: nat)
    requires Consistent(s.nav) && i < n && AtStep(s.nav, i).err.Some?
    ensures TraverseQualified(c, env, s, f, i, n) ==
            Outcome(Fail(AtStep(s.nav, i).err.value), s.(nav := AtStep(s.nav, i)))
  {
  }

  /** Qualified loop, a non-matching element: it is retracted and skipped, with no
      error and no recursion. */
  lemma {:induction false} QualifiedSkipsNonMatching(c: Config, env: Env, s: State, f: Expr, i: nat, n: nat)
    requires Consistent(s.nav) && i < n && AtStep(s.nav, i).err.None?
    requires env.evaluate(CurrentNode(AtStep(s.nav, i)), f) == Success(false)
    ensures TraverseQualified(c, env, s, f, i, n) == TraverseQualified(c, env, s, f, i + 1, n)
  {
    AtThenRetract(s.nav, i);
  }

  /** Qualified loop, an evaluation error: it stops the loop and is returned, with the
      navigator back at the collection and nothing visited. */
  lemma {:induction false} QualifiedStopsOnEvaluationError(c: Config, env: Env, s: State, f: Expr, i: nat, n: nat, err: Error)
    requires Consistent(s.nav) && i < n && AtStep(s.nav, i).err.None?
    requires env.evaluate(CurrentNode(AtStep(s.nav, i)), f) == Failure(err)
    ensures TraverseQualified(c, env, s, f, i, n) == Outcome(Fail(err), s)
  {
    AtThenRetract(s.nav, i);
  }

  /** `QualifiedSkipsNonMatching`, for an element of an error-free collection. */
  lemma {:induction false} SkipsNonMatchingChild(c: Config, env: Env, s: State, f: Expr, i: nat, n: nat)
    requires Consistent(s.nav) && s.nav.err.None? && CurrentNode(s.nav).attr.multiValued
    requires i < n <= |CurrentNode(s.nav).children|
    requires env.evaluate(CurrentNode(s.nav).children[i], f) == Success(false)
    ensures TraverseQualified(c, env, s, f, i, n) == TraverseQualified(c, env, s, f, i + 1, n)
  {
    assert CurrentNode(AtStep(s.nav, i)) == CurrentNode(s.nav).children[i];
    QualifiedSkipsNonMatching(c, env, s, f, i, n);
  }

  /** Qualified loop, past the last element: success, with the state unchanged. */
  lemma {:induction false} QualifiedLoopEnd(c: Config, env: Env, s: State, f: Expr, i: nat, n: nat)
    requires Consistent(s.nav) && n <= i
    ensures TraverseQualified(c, env, s, f, i, n) == Outcome(Ok, s)
  {
  }

  /** A non-matching element followed by a rest of the loop that ends with no error
      and the state unchanged: the loop from the element on ends the same way. */
  lemma {:induction false} SkipsIntoIdleRest(c: Config, env: Env, s: State, f: Expr, i: nat, n: nat)
    requires Consistent(s.nav) && s.nav.err.None? && CurrentNode(s.nav).attr.multiValued
    requires i < n <= |CurrentNode(s.nav).children|
    requires env.evaluate(CurrentNode(s.nav).children[i], f) == Success(false)
    requires TraverseQualified(c, env, s, f, i + 1, n) == Outcome(Ok, s)
    ensures TraverseQualified(c, env, s, f, i, n) == Outcome(Ok, s)
  {
    SkipsNonMatchingChild(c, env, s, f, i, n);
  }

  /** Qualified loop over elements none of which matches: no error, no callback, and
      the state is exactly as before. */
  lemma {:induction false} NoMatchNoCallback(c: Config, env: Env, s: State, f: Expr, i: nat, n: nat)
    requires Consistent(s.nav) && s.nav.err.None? && CurrentNode(s.nav).attr.multiValued
    requires n <= |CurrentNode(s.nav).children|
    requires forall j :: i <= j < n ==> env.evaluate(CurrentNode(s.nav).children[j], f) == Success(false)
    ensures TraverseQualified(c, env, s, f, i, n) == Outcome(Ok, s)
  {
    var k := if i < n then n else i;
    QualifiedLoopEnd(c, env, s, f, k, n);
    while k > i
      invariant i <= k && (k <= n || k == i)
      invariant TraverseQualified(c, env, s, f, k, n) == Outcome(Ok, s)
    {
      k := k - 1;
      SkipsIntoIdleRest(c, env, s, f, k, n);
    }
  }

  /** A filter on a collection none of whose elements matches changes nothing and
      fires no callback (unless the stop predicate already holds there). */
  lemma {:induction false} FilterMatchingNothing(c: Config, env: Env, s: State, e: Expr)
    requires Consistent(s.nav) && s.nav.err.None? && e.rootOfFilter
    requires CurrentNode(s.nav).attr.multiValued && !Done(c.traverseStrategy, CurrentNode(s.nav), Some(e))
    requires forall j :: 0 <= j < |CurrentNode(s.nav).children| ==>
               env.evaluate(CurrentNode(s.nav).children[j], e) == Success(false)
    ensures Traverse(c, env, s, Some(e)) == Outcome(Ok, s)
  {
    NoMatchNoCallback(c, env, s, e, 0, |CurrentNode(s.nav).children|);
  }

  /** The visits a walk below element `i` of the collection at `base` adds all lie
      inside that element. */
  lemma {:induction false} VisitsBelowChild(s: State, t: State, base: seq<nat>, i: nat)
    requires s.visits <= t.visits
    requires forall k :: |s.visits| <= k < |t.visits| ==> base + [i] <= t.visits[k]
    ensures forall k :: 0 <= k < |NewVisits(s, t)| ==> base + [i] <= NewVisits(s, t)[k]
    ensures forall v :: v in NewVisits(s, t) ==> |base| < |v| && v[|base|] == i
  {
    var vs := NewVisits(s, t);
    forall k | 0 <= k < |vs|
      ensures base + [i] <= vs[k]
    {
      assert vs[k] == t.visits[|s.visits| + k];
    }
    forall v | v in vs
      ensures |base| < |v| && v[|base|] == i
    {
      var k :| 0 <= k < |vs| && vs[k] == v;
      assert (base + [i])[|base|] == i;
    }
  }

  /** One loop iteration: a walk below element `i` followed by the rest of the loop
      from `i + 1` visits elements in order from `i`. */
  lemma {:induction false} ChildThenRest(s: State, t: State, u: State, base: seq<nat>, i: nat, n: nat)
    requires s.visits <= t.visits && t.visits <= u.visits && i < n
    requires forall k :: |s.visits| <= k < |t.visits| ==> base + [i] <= t.visits[k]
    requires ElementVisits(base, NewVisits(t, u), i + 1, n)
    ensures ElementVisits(base, NewVisits(s, u), i, n)
  {
    VisitsBelowChild(s, t, base, i);
    assert NewVisits(s, u) == NewVisits(s, t) + NewVisits(t, u);
    ElementVisitsConcat(base, NewVisits(s, t), NewVisits(t, u), i, n);
  }

  /** Every visit in `vs` lies inside an element of the collection at `base` that
      the selector accepts. */
  predicate VisitsAccepted(base: seq<nat>, vs: seq<seq<nat>>, sel: Selector)
  {
    forall k :: 0 <= k < |vs| ==> base < vs[k] && Accepts(sel, vs[k][|base|])
  }

  /** Every visit in `vs` lies inside an element of `p` (the collection at `base`)
      on which the filter evaluates to true. */
  predicate VisitsMatched(base: seq<nat>, vs: seq<seq<nat>>, env: Env, p: Prop, f: Expr)
  {
    forall k :: 0 <= k < |vs| ==> base < vs[k] && Matched(env, p, f, vs[k][|base|])
  }

  lemma {:induction false} AcceptedChildThenRest(sel: Selector, s: State, t: State, u: State, base: seq<nat>, i: nat)
    requires s.visits <= t.visits && t.visits <= u.visits && Accepts(sel, i)
    requires forall k :: |s.visits| <= k < |t.visits| ==> base + [i] <= t.visits[k]
    requires VisitsAccepted(base, NewVisits(t, u), sel)
    ensures VisitsAccepted(base, NewVisits(s, u), sel)
  {
    VisitsBelowChild(s, t, base, i);
    var v1, v2 := NewVisits(s, t), NewVisits(t, u);
    assert NewVisits(s, u) == v1 + v2;
    forall k | 0 <= k < |v1 + v2|
      ensures base < (v1 + v2)[k] && Accepts(sel, (v1 + v2)[k][|base|])
    {
      if k < |v1| {
        assert (v1 + v2)[k] == v1[k] && v1[k] in v1;
      } else {
        assert (v1 + v2)[k] == v2[k - |v1|];
      }
    }
  }

  lemma {:induction false} MatchedChildThenRest(env: Env, f: Expr, s: State, t: State, u: State, base: seq<nat>, i: nat)
    requires Consistent(s.nav) && base == s.nav.stack
    requires s.visits <= t.visits && t.visits <= u.visits && Matched(env, CurrentNode(s.nav), f, i)
    requires forall k :: |s.visits| <= k < |t.visits| ==> base + [i] <= t.visits[k]
    requires VisitsMatched(base, NewVisits(t, u), env, CurrentNode(s.nav), f)
    ensures VisitsMatched(base, NewVisits(s, u), env, CurrentNode(s.nav), f)
  {
    VisitsBelowChild(s, t, base, i);
    var v1, v2 := NewVisits(s, t), NewVisits(t, u);
    assert NewVisits(s, u) == v1 + v2;
    forall k | 0 <= k < |v1 + v2|
      ensures base < (v1 + v2)[k] && Matched(env, CurrentNode(s.nav), f, (v1 + v2)[k][|base|])
    {
      if k < |v1| {
        assert (v1 + v2)[k] == v1[k] && v1[k] in v1;
      } else {
        assert (v1 + v2)[k] == v2[k - |v1|];
      }
    }
  }

  /** Qualified loop, a matching element: the query after the filter is walked
      inside it; an error there ends the loop, otherwise the loop goes on. */
  lemma {:induction false} QualifiedDescendsIntoMatch(c: Config, env: Env, s: State, f: Expr, i: nat, n: nat)
    requires Consistent(s.nav) && i < n && AtStep(s.nav, i).err.None?
    requires env.evaluate(CurrentNode(AtStep(s.nav, i)), f) == Success(true)
    ensures var d := Descend(c, env, s, f.next, i);
            TraverseQualified(c, env, s, f, i, n) ==
            if d.status.Fail? then d else TraverseQualified(c, env, d.st, f, i + 1, n)
  {
  }

  /** Selected-elements loop, a rejected element: skipped, with no move and no recursion. */
  lemma {:induction false} SelectedSkipsRejected(c: Config, env: Env, s: State, q: Option<Expr>, sel: Selector, i: nat, n: nat)
    requires Consistent(s.nav) && i < n && !Accepts(sel, i)
    ensures TraverseSelected(c, env, s, q, sel, i, n) == TraverseSelected(c, env, s, q, sel, i + 1, n)
  {
  }

  /** Selected-elements loop, an accepted element: the SAME query is walked inside it;
      an error there ends the loop, otherwise the loop goes on. */
  lemma {:induction false} SelectedDescendsIntoAccepted(c: Config, env: Env, s: State, q: Option<Expr>, sel: Selector, i: nat, n: nat)
    requires Consistent(s.nav) && i < n && Accepts(sel, i) && AtStep(s.nav, i).err.None?
    ensures var d := Descend(c, env, s, q, i);
            TraverseSelected(c, env, s, q, sel, i, n) ==
            if d.status.Fail? then d else TraverseSelected(c, env, d.st, q, sel, i + 1, n)
  {
  }

  /** Selected-elements loop, an error left on the navigator by a walk that succeeded
      (an `Add` whose rejection the add callback ignored): the error is sticky, so the
      next accepted element's `At` fails with it, and the loop returns it as that
      element's failure, after the walk inside element `i` has run its callbacks. */
  lemma {:induction false} SelectedReportsLeftoverError(c: Config, env: Env, s: State, q: Option<Expr>, sel: Selector, i: nat, n: nat)
    requires Consistent(s.nav) && i + 1 < n && Accepts(sel, i) && Accepts(sel, i + 1)
    requires AtStep(s.nav, i).err.None?
    requires Descend(c, env, s, q, i).status.Ok? && Descend(c, env, s, q, i).st.nav.err.Some?
    ensures var d := Descend(c, env, s, q, i);
            TraverseSelected(c, env, s, q, sel, i, n) == Outcome(Fail(d.st.nav.err.value), d.st)
  {
    var d := Descend(c, env, s, q, i);
    SelectedDescendsIntoAccepted(c, env, s, q, sel, i, n);
    assert AtStep(d.st.nav, i + 1) == d.st.nav;
    SelectedStopsOnAtError(c, env, d.st, q, sel, i + 1, n);
  }

  /** Qualified loop, the same: an error left on the navigator by a successful walk
      inside a matching element is returned by the next element's `At`. */
  lemma {:induction false} QualifiedReportsLeftoverError(c: Config, env: Env, s: State, f: Expr, i: nat, n: nat)
    requires Consistent(s.nav) && i + 1 < n && AtStep(s.nav, i).err.None?
    requires env.evaluate(CurrentNode(AtStep(s.nav, i)), f) == Success(true)
    requires Descend(c, env, s, f.next, i).status.Ok? && Descend(c, env, s, f.next, i).st.nav.err.Some?
    ensures var d := Descend(c, env, s, f.next, i);
            TraverseQualified(c, env, s, f, i, n) == Outcome(Fail(d.st.nav.err.value), d.st)
  {
    var d := Descend(c, env, s, f.next, i);
    QualifiedDescendsIntoMatch(c, env, s, f, i, n);
    assert AtStep(d.st.nav, i + 1) == d.st.nav;
    QualifiedStopsOnAtError(c, env, d.st, f, i + 1, n);
  }

  /** Qualified loop, when it stops without descending (the loop is over, `At` failed,
      or the filter could not be evaluated): nothing is visited. */
  lemma {:induction false} QualifiedStopsWithoutVisits(c: Config, env: Env, s: State, f: Expr, i: nat, n: nat)
    requires Consistent(s.nav)
    requires i >= n || AtStep(s.nav, i).err.Some? || env.evaluate(CurrentNode(AtStep(s.nav, i)), f).Failure?
    ensures TraverseQualified(c, env, s, f, i, n).st.visits == s.visits
  {
  }

  /** Selected-elements loop, when it stops without descending (the loop is over, or
      `At` failed on an accepted element): nothing is visited. */
  lemma {:induction false} SelectedStopsWithoutVisits(c: Config, env: Env, s: State, q: Option<Expr>, sel: Selector, i: nat, n: nat)
    requires Consistent(s.nav)
    requires i >= n || (Accepts(sel, i) && AtStep(s.nav, i).err.Some?)
    ensures TraverseSelected(c, env, s, q, sel, i, n).st.visits == s.visits
  {
  }

  /** One matching element of the qualified loop, given the ordering for the rest of
      the loop after it. */
  lemma {:induction false} QualifiedMatchInOrder(c: Config, env: Env, s: State, f: Expr, i: nat, n: nat)
    requires Consistent(s.nav) && i < n && AtStep(s.nav, i).err.None?
    requires env.evaluate(CurrentNode(AtStep(s.nav, i)), f) == Success(true)
    requires var d := Descend(c, env, s, f.next, i);
             d.status.Ok? ==>
               ElementVisits(s.nav.stack, NewVisits(d.st, TraverseQualified(c, env, d.st, f, i + 1, n).st), i + 1, n)
    ensures ElementVisits(s.nav.stack, NewVisits(s, TraverseQualified(c, env, s, f, i, n).st), i, n)
  {
    QualifiedDescendsIntoMatch(c, env, s, f, i, n);
    var d := Descend(c, env, s, f.next, i);
    if d.status.Fail? {
      ChildThenRest(s, d.st, d.st, s.nav.stack, i, n);
    } else {
      ChildThenRest(s, d.st, TraverseQualified(c, env, d.st, f, i + 1, n).st, s.nav.stack, i, n);
    }
  }

  /** Qualified loop: every visit lies inside an element, in index order. */
  lemma {:induction false} QualifiedVisitsInOrder(c: Config, env: Env, s: State, f: Expr, i: nat, n: nat)
    requires Consistent(s.nav)
    ensures ElementVisits(s.nav.stack, NewVisits(s, TraverseQualified(c, env, s, f, i, n).st), i, n)
    decreases n - i
  {
    if i >= n || AtStep(s.nav, i).err.Some? || env.evaluate(CurrentNode(AtStep(s.nav, i)), f).Failure? {
      QualifiedStopsWithoutVisits(c, env, s, f, i, n);
    } else if env.evaluate(CurrentNode(AtStep(s.nav, i)), f) == Success(false) {
      QualifiedSkipsNonMatching(c, env, s, f, i, n);
      QualifiedVisitsInOrder(c, env, s, f, i + 1, n);
    } else {
      assert env.evaluate(CurrentNode(AtStep(s.nav, i)), f).value;
      var d := Descend(c, env, s, f.next, i);
      if d.status.Ok? {
        QualifiedVisitsInOrder(c, env, d.st, f, i + 1, n);
      }
      QualifiedMatchInOrder(c, env, s, f, i, n);
    }
  }

  /** One matching element of the qualified loop in report mode, given that the rest
      of the loop after it visits only matched elements. */
  lemma {:induction false} QualifiedMatchMatched(c: Config, env: Env, s: State, f: Expr, i: nat, n: nat)
    requires Consistent(s.nav) && c.action.Report? && i < n && AtStep(s.nav, i).err.None?
    requires env.evaluate(CurrentNode(AtStep(s.nav, i)), f) == Success(true)
    requires var d := Descend(c, env, s, f.next, i);
             d.status.Ok? ==>
               VisitsMatched(s.nav.stack, NewVisits(d.st, TraverseQualified(c, env, d.st, f, i + 1, n).st),
                             env, CurrentNode(d.st.nav), f)
    ensures VisitsMatched(s.nav.stack, NewVisits(s, TraverseQualified(c, env, s, f, i, n).st),
                          env, CurrentNode(s.nav), f)
  {
    QualifiedDescendsIntoMatch(c, env, s, f, i, n);
    var d := Descend(c, env, s, f.next, i);
    AtLandsOnElement(s.nav, i);
    assert Matched(env, CurrentNode(s.nav), f, i);
    if d.status.Fail? {
      MatchedChildThenRest(env, f, s, d.st, d.st, s.nav.stack, i);
    } else {
      assert CurrentNode(d.st.nav) == CurrentNode(s.nav);
      MatchedChildThenRest(env, f, s, d.st, TraverseQualified(c, env, d.st, f, i + 1, n).st, s.nav.stack, i);
    }
  }

  /** Qualified loop, when the tree is only observed: every visit lies inside an
      element the filter matched. */
  lemma {:induction false} QualifiedVisitsMatched(c: Config, env: Env, s: State, f: Expr, i: nat, n: nat)
    requires Consistent(s.nav) && c.action.Report?
    ensures VisitsMatched(s.nav.stack, NewVisits(s, TraverseQualified(c, env, s, f, i, n).st),
                          env, CurrentNode(s.nav), f)
    decreases n - i
  {
    if i >= n || AtStep(s.nav, i).err.Some? || env.evaluate(CurrentNode(AtStep(s.nav, i)), f).Failure? {
      QualifiedStopsWithoutVisits(c, env, s, f, i, n);
    } else if env.evaluate(CurrentNode(AtStep(s.nav, i)), f) == Success(false) {
      QualifiedSkipsNonMatching(c, env, s, f, i, n);
      QualifiedVisitsMatched(c, env, s, f, i + 1, n);
    } else {
      assert env.evaluate(CurrentNode(AtStep(s.nav, i)), f).value;
      var d := Descend(c, env, s, f.next, i);
      if d.status.Ok? {
        QualifiedVisitsMatched(c, env, d.st, f, i + 1, n);
      }
      QualifiedMatchMatched(c, env, s, f, i, n);
    }
  }

  /** One accepted element of the selected-elements loop, given the ordering for the
      rest of the loop after it. */
  lemma {:induction false} SelectedAcceptedInOrder(c: Config, env: Env, s: State, q: Option<Expr>, sel: Selector, i: nat, n: nat)
    requires Consistent(s.nav) && i < n && Accepts(sel, i) && AtStep(s.nav, i).err.None?
    requires var d := Descend(c, env, s, q, i);
             d.status.Ok? ==>
               ElementVisits(s.nav.stack, NewVisits(d.st, TraverseSelected(c, env, d.st, q, sel, i + 1, n).st), i + 1, n)
    ensures ElementVisits(s.nav.stack, NewVisits(s, TraverseSelected(c, env, s, q, sel, i, n).st), i, n)
  {
    SelectedDescendsIntoAccepted(c, env, s, q, sel, i, n);
    var d := Descend(c, env, s, q, i);
    if d.status.Fail? {
      ChildThenRest(s, d.st, d.st, s.nav.stack, i, n);
    } else {
      ChildThenRest(s, d.st, TraverseSelected(c, env, d.st, q, sel, i + 1, n).st, s.nav.stack, i, n);
    }
  }

  /** Selected-elements loop: every visit lies inside an element, in index order. */
  lemma {:induction false} SelectedVisitsInOrder(c: Config, env: Env, s: State, q: Option<Expr>,
                                                 sel: Selector, i: nat, n: nat)
    requires Consistent(s.nav)
    ensures ElementVisits(s.nav.stack, NewVisits(s, TraverseSelected(c, env, s, q, sel, i, n).st), i, n)
    decreases n - i
  {
    if i >= n || (Accepts(sel, i) && AtStep(s.nav, i).err.Some?) {
      SelectedStopsWithoutVisits(c, env, s, q, sel, i, n);
    } else if !Accepts(sel, i) {
      SelectedSkipsRejected(c, env, s, q, sel, i, n);
      SelectedVisitsInOrder(c, env, s, q, sel, i + 1, n);
    } else {
      var d := Descend(c, env, s, q, i);
      if d.status.Ok? {
        SelectedVisitsInOrder(c, env, d.st, q, sel, i + 1, n);
      }
      SelectedAcceptedInOrder(c, env, s, q, sel, i, n);
    }
  }

  /** One accepted element of the selected-elements loop, given that the rest of the
      loop after it visits only accepted elements. */
  lemma {:induction false} SelectedAcceptedAccepted(c: Config, env: Env, s: State, q: Option<Expr>, sel: Selector, i: nat, n: nat)
    requires Consistent(s.nav) && i < n && Accepts(sel, i) && AtStep(s.nav, i).err.None?
    requires var d := Descend(c, env, s, q, i);
             d.status.Ok? ==>
               VisitsAccepted(s.nav.stack, NewVisits(d.st, TraverseSelected(c, env, d.st, q, sel, i + 1, n).st), sel)
    ensures VisitsAccepted(s.nav.stack, NewVisits(s, TraverseSelected(c, env, s, q, sel, i, n).st), sel)
  {
    SelectedDescendsIntoAccepted(c, env, s, q, sel, i, n);
    var d := Descend(c, env, s, q, i);
    if d.status.Fail? {
      AcceptedChildThenRest(sel, s, d.st, d.st, s.nav.stack, i);
    } else {
      AcceptedChildThenRest(sel, s, d.st, TraverseSelected(c, env, d.st, q, sel, i + 1, n).st, s.nav.stack, i);
    }
  }

  /** Selected-elements loop: every visit lies inside an element the selector accepts. */
  lemma {:induction false} SelectedVisitsAccepted(c: Config, env: Env, s: State, q: Option<Expr>,
                                                  sel: Selector, i: nat, n: nat)
    requires Consistent(s.nav)
    ensures VisitsAccepted(s.nav.stack, NewVisits(s, TraverseSelected(c, env, s, q, sel, i, n).st), sel)
    decreases n - i
  {
    if i >= n || (Accepts(sel, i) && AtStep(s.nav, i).err.Some?) {
      SelectedStopsWithoutVisits(c, env, s, q, sel, i, n);
    } else if !Accepts(sel, i) {
      SelectedSkipsRejected(c, env, s, q, sel, i, n);
      SelectedVisitsAccepted(c, env, s, q, sel, i + 1, n);
    } else {
      var d := Descend(c, env, s, q, i);
      if d.status.Ok? {
        SelectedVisitsAccepted(c, env, d.st, q, sel, i + 1, n);
      }
      SelectedAcceptedAccepted(c, env, s, q, sel, i, n);
    }
  }

  /** Primary-or-first mode, at a collection with an unfiltered path step: every visit
      lies inside the one element the strategy selects. */
  lemma {:induction false} PrimaryOrFirstVisitsOneElement(env: Env, s: State, e: Expr)
    requires Consistent(s.nav) && CurrentNode(s.nav).attr.multiValued && !e.rootOfFilter
    ensures var vs := NewVisits(s, Traverse(PrimaryOrFirstConfig(), env, s, Some(e)).st);
            forall k :: 0 <= k < |vs| ==>
              s.nav.stack < vs[k] && vs[k][|s.nav.stack|] == PrimaryOrFirstSelector(CurrentNode(s.nav)).index
  {
    var cur := CurrentNode(s.nav);
    SelectedVisitsAccepted(PrimaryOrFirstConfig(), env, s, Some(e), Select(PrimaryOrFirst, cur), 0, |cur.children|);
  }

  /** Default mode: a used-up query notifies the caller once, at the current position. */
  lemma {:induction false} ExhaustedQueryNotifies(env: Env, s: State)
    requires Consistent(s.nav)
    ensures Traverse(DefaultConfig(), env, s, None) == Notify(env, s)
    ensures Traverse(PrimaryOrFirstConfig(), env, s, None) == Notify(env, s)
  {
  }
}
