# go-scim query traversal, modelled in Dafny

This project models the query-driven traversal engine of go-scim's `crud`
package (`pkg/v2/crud/traverse.go`). A SCIM resource is a schema-typed
property tree. A parsed path-and-filter query such as
`emails[type eq "work"].value` is walked down that tree through one shared,
stateful navigator. Wherever the walk is declared finished, a callback runs.

Two policies drive the walk:

- A *traverse strategy* says when to stop:
  - `traverseAll` stops once the query is used up;
  - `traverseToSingleEqFilter` stops at a single `eq` filter.
- An *element strategy* says which elements of a collection an unfiltered step visits:
  - `selectAllStrategy` visits every element;
  - `primaryOrFirstStrategy` visits the primary element, or else the first.

There are three entry points. Plain traversal and primary-or-first traversal
only hand the navigator to the caller. Add-by-Eq-filter traversal first builds
a new element from the filter (`composeValueByEqFilter`) and appends it to the
collection.

The modules:

- **`Props`, `Query`, `Errors`, `Wrappers`**:
  - the property tree, with its schema conformance `WF`;
  - the parsed query;
  - the error kinds;
  - `Option`/`Result`.
- **`Navigation`**:
  - the navigator state as a value `Nav` (tree, stack of child indices, sticky error);
  - step functions `DotStep`/`AtStep`/`RetractStep`/`AddStep` that specify it;
  - the mutable class `Navigator`, whose methods are proved equal to the step functions.
- **`Strategies`**: both stop predicates and both element strategies, as pure functions over closed variant types.
- **`Compose`**:
  - `composeValueByEqFilter` as a function, `ComposedElement`, with its ordered error cases;
  - as an imperative method that probes a fresh navigator over a copy of the current node.
- **`Traversal`**:
  - one function per `traverser` method;
  - each threads the navigator state and the list of positions at which the callback fired;
  - each returns the error the method returns.
- **`TraversalFacts`**: what each branch does, and the order and selection of the elements a loop visits.
- **`Crud`**:
  - class `Traverser`, whose methods mutate one shared `Navigator` in place;
  - the methods run the element loops as `while` loops;
  - each method is proved to leave exactly the state, and return exactly the status, that the `Traversal` function computes;
  - the three entry points.
- **`Scenarios`**: worked examples on a user with `emails`.

Behaviours of the code worth knowing:

- **When composition runs.** In add-by-Eq-filter mode the new element is
  composed at the collection where the single-Eq-filter shape qualifies, not
  once the query is used up. The existing elements are not compared with the
  filter first (`traverse.go:46-53`, `206-238`). With a used-up query,
  composition fails with "no filter found" (`107-109`). See
  `TraversalFacts.AddModeAppendsWithoutMatching` and
  `TraversalFacts.ExhaustedQueryInAddMode`.
- **A rejected `Add` is not reported where it happens.** The add callback
  ignores the error `Add` returns (`traverse.go:51`). The tree is unchanged, the
  caller's callback runs all the same, and its status is what comes back
  (`TraversalFacts.AddModeRejectedStillNotifies`). The rejection stays on the
  navigator, whose errors are sticky.
  - Inside an enclosing element loop with another element to visit, the next
    `At` fails with that error (`traverse.go:166-169`, `178-181`). The loop
    returns it as that later element's failure, after the callback at the
    earlier element succeeded (`TraversalFacts.SelectedReportsLeftoverError`,
    `TraversalFacts.QualifiedReportsLeftoverError`).
  - When no later step checks the navigator, the rejection is lost.
- **Where the callback fires in add mode.** It fires on the `emails` collection
  that now holds the new element, not on the new value
  (`Scenarios.AddComposesWorkEmail`).
- **"Only a single Eq filter is applicable".** This error cannot come out of
  add-by-Eq-filter traversal. The stop predicate already demands a trailing path
  with nothing after it (`Compose.ReachedFilterNeverChained`).
  - A filter with two chained predicates never satisfies the stop predicate.
  - Without a matching element, such a filter succeeds and changes nothing (`Scenarios.TwoPredicatesOnNoEmails`).
  - With a matching element, the walk runs on to the end of the query and fails with "no filter found" (`Scenarios.TwoPredicatesOnMatchFails`).
- **A literal that does not normalise.** This is an invalid-filter error
  (`BadFilterValue`), since the code wraps it in `ErrInvalidFilter`
  (`traverse.go:137-139`). The same format string also wraps the normaliser's
  own error as a second cause, so the returned error matches both; the model
  keeps only the invalid-filter kind.

## Model

| member | source | states |
|---|---|---|
| Strategies.Done | pkg/v2/crud/traverse.go:195-238 | Every stop predicate holds on a nil query; `traverseAll` holds exactly when the query is nil, whatever the position |
| Strategies.SingleEqFilterReached | pkg/v2/crud/traverse.go:206-238 | True iff the query is nil, or it is a filter root on a multi-valued attribute with token `eq`, a path on the left, a literal on the right and exactly one trailing path segment; false as soon as one condition fails |
| Strategies.Select | pkg/v2/crud/traverse.go:241-272 | `selectAllStrategy` accepts every index; `primaryOrFirstStrategy` accepts a single index |
| Strategies.FindPrimaryMarker | pkg/v2/crud/traverse.go:252-255 | The first sub-attribute that is boolean and Primary-annotated; no earlier one is; None exactly when there is none |
| Strategies.FindTruePrimary | pkg/v2/crud/traverse.go:258-261 | The first element whose marker sub-property holds raw `true`; no earlier one does; None exactly when none does |
| Strategies.PrimaryOrFirstSelector | pkg/v2/crud/traverse.go:251-272 | Selects one index, which is in range for a non-empty collection |
| Strategies.PrimarySelected | pkg/v2/crud/traverse.go:257-266 | With a marker, and element `k` the first to set it true, exactly index `k` is accepted |
| Strategies.FirstWithoutMarker | pkg/v2/crud/traverse.go:269-271 | With no marker sub-attribute, exactly index 0 is accepted |
| Strategies.FirstWithoutTruePrimary | pkg/v2/crud/traverse.go:257-271 | With a marker that no element sets true, exactly index 0 is accepted |
| Strategies.PrimaryOrFirstPicksOne | pkg/v2/crud/traverse.go:251-272 | At most one index is accepted, and of a non-empty collection some index in range is |
| Navigation.Navigate | pkg/v2/crud/traverse.go:19 | A navigator at the root of the given tree with an empty stack and no error |
| Navigation.DotStep | pkg/v2/crud/traverse.go:149-152 | Once an error is recorded `Dot` changes nothing; on a collection or a simple node it records the invalid-path error; on a singular complex node it succeeds iff some child has the given name, then pushes one such child, and otherwise records the no-attribute error; a failure keeps the stack |
| Navigation.AtStep | pkg/v2/crud/traverse.go:166-169 | Once an error is recorded `At` changes nothing; it succeeds iff the node is a collection and the index is in range, and then pushes exactly that element; otherwise it records the invalid-path error and keeps the stack |
| Navigation.RetractStep | pkg/v2/crud/traverse.go:153 | Pops exactly the last pushed index, keeps tree and error; a no-op at the root |
| Navigation.AddStep | pkg/v2/crud/traverse.go:51 | Keeps the position and a conformant tree; whenever it records an error the tree is unchanged |
| Navigation.DotThenRetract | pkg/v2/crud/traverse.go:148-156 | A successful `Dot` followed by `Retract` restores the navigator exactly |
| Navigation.AtThenRetract | pkg/v2/crud/traverse.go:166-172 | A successful `At` followed by `Retract` restores the navigator exactly |
| Navigation.AtLandsOnElement | pkg/v2/crud/traverse.go:166-172 | A successful `At` lands on an element, which is never itself a collection |
| Navigation.AddAppends | pkg/v2/crud/traverse.go:51 | `Add` of a value the property library admits, on an error-free collection, appends the built elements after the existing ones and keeps position, error and attribute |
| Navigation.AddRejects | pkg/v2/crud/traverse.go:51 | `Add` of a value the property library rejects records exactly that rejection and changes neither tree nor position |
| Navigation.Navigator.constructor | pkg/v2/crud/traverse.go:19 | The new navigator's state is `Navigate(p)` |
| Navigation.Navigator.Dot | pkg/v2/crud/traverse.go:149 | The new state is `DotStep` of the old one |
| Navigation.Navigator.At | pkg/v2/crud/traverse.go:166 | The new state is `AtStep` of the old one |
| Navigation.Navigator.Retract | pkg/v2/crud/traverse.go:170 | The new state is `RetractStep` of the old one |
| Navigation.Navigator.Add | pkg/v2/crud/traverse.go:51 | The new state is `AddStep` of the old one |
| Compose.ProbeReachesElement | pkg/v2/crud/traverse.go:125-128 | On a collection that admits the empty element, the probe's `Add` of it and `At(0)` succeed and land on a node with the element attribute |
| Compose.ProbeFindsComparisonAttribute | pkg/v2/crud/traverse.go:124-132 | The probe succeeds iff the node is a complex collection that admits the empty element and has a sub-attribute named by the key; it then lands on the first such sub-attribute |
| Compose.Probe | pkg/v2/crud/traverse.go:125-129 | The probe navigator is consistent, and when it has no error it stands two levels down, in element 0, on a sub-attribute named by the key |
| Compose.NewElement | pkg/v2/crud/traverse.go:141-145 | A one-item list holding a map whose keys are exactly the trailing key and the filter key; the filter key maps to the filter value, and the trailing key, when different, to the caller's value |
| Compose.ComposedElement | pkg/v2/crud/traverse.go:101-146 | Fails with "no filter found" iff the query is nil; every failure is an invalid-filter error; a success had a query with no chained trailing path and non-empty keys, and is a `NewElement` of those keys and the caller's value |
| Compose.ComposeShapeFailures | pkg/v2/crud/traverse.go:107-122 | In order: nil query gives "no filter found"; a trailing path with more after it gives "only a single Eq filter"; a missing or empty filter key or trailing key gives "filter is not supported" |
| Compose.ComposeSchemaFailures | pkg/v2/crud/traverse.go:123-139 | With a literal right operand: a probe that fails (no sub-attribute named by the key, or the empty element not admitted) gives the invalid-filter error; a literal that does not normalise against the first such sub-attribute gives the invalid-filter-value error |
| Compose.ComposeBuildsElement | pkg/v2/crud/traverse.go:141-145 | On success the result is a one-element list holding the map {trailing key: value, filter key: the normalised literal}, or `Null` for the filter key without a literal (example at lines 27-44) |
| Compose.ComposeWithoutLiteral | pkg/v2/crud/traverse.go:123-145 | With a non-literal right operand and a well-shaped query, the result is the one-element list {trailing key: value, filter key: `Null`} on any node, whatever its shape, schema or admission: no probe is made |
| Compose.ReachedFilterNeverChained | pkg/v2/crud/traverse.go:107-119 | Where the single-Eq-filter stop predicate holds on a filter, composition never fails with "no filter found" or "only a single Eq filter" |
| Compose.ComposeValueByEqFilter | pkg/v2/crud/traverse.go:101-146 | Returns `ComposedElement` of the navigator's current node; the shared navigator is not modified, since only a fresh navigator over a copy is |
| Traversal.Start | pkg/v2/crud/traverse.go:19 | The traversal starts at the root with no error and nothing visited |
| Traversal.Notify | pkg/v2/crud/traverse.go:15-17 | The current position is appended to the visits, nothing else changes; the status is Ok iff the callback returns no error, and otherwise is the callback's error unchanged |
| Traversal.Reach | pkg/v2/crud/traverse.go:46-53 | The installed callback keeps the position, keeps earlier visits and the tree (observing mode), and in add mode, when the property library admits every value, leaves no navigator error on success |
| Traversal.AddErrorFree | pkg/v2/crud/traverse.go:51 | When the property library admits every value, `Add` records no error on an error-free collection |
| Traversal.Traverse | pkg/v2/crud/traverse.go:81-99 | On success and on every error path the stack is as on entry; the tree is untouched unless adding; earlier visits are kept and new ones lie at or below the starting position; in add mode, when every value is admitted, success leaves no navigator error |
| Traversal.TraverseNext | pkg/v2/crud/traverse.go:148-156 | Same guarantees for one `Dot`; a failed `Dot` returns its error at once, with the failed navigator and no visit; a successful one is retracted |
| Traversal.Descend | pkg/v2/crud/traverse.go:166-172 | After a successful `At(i)` the walk returns to the collection, and every visit it adds lies inside element `i` |
| Traversal.TraverseSelected | pkg/v2/crud/traverse.go:158-174 | The selected-element loop keeps the stack, the tree (observing mode) and earlier visits |
| Traversal.TraverseQualified | pkg/v2/crud/traverse.go:176-193 | The qualified-element loop keeps the stack, the tree (observing mode) and earlier visits |
| TraversalFacts.FilterOnSingularAttribute | pkg/v2/crud/traverse.go:87-90 | A filter on a singular attribute where the stop predicate fails is an invalid-filter error; no callback, no move |
| TraversalFacts.ExhaustedQueryInAddMode | pkg/v2/crud/traverse.go:46-50 | In add mode a used-up query fails with "no filter found" before anything is added or notified (lines 107-109, 208-211) |
| TraversalFacts.AddModeAppendsWithoutMatching | pkg/v2/crud/traverse.go:46-53 | Where the filter shape qualifies and the composed element is admitted, it is appended after the existing elements, no error is left, and the callback fires once there, its error (if any) being the status; the result does not depend on the filter evaluator |
| TraversalFacts.AddModeRejectedStillNotifies | pkg/v2/crud/traverse.go:46-53 | Where the composed element is rejected by the property library, the tree and position are unchanged, the rejection stays on the navigator, and the callback still fires once there; the status is Ok when the callback returns no error and otherwise the callback's error unchanged |
| TraversalFacts.AddModeComposeFailure | pkg/v2/crud/traverse.go:46-50 | A composition error at a qualifying collection is returned at once, with the state unchanged and no callback |
| TraversalFacts.MissingSubAttributeFails | pkg/v2/crud/traverse.go:148-152 | A step to a sub-attribute the singular complex node lacks returns the no-attribute error, with that error left on the navigator and nothing visited |
| TraversalFacts.QualifiedSkipsNonMatching | pkg/v2/crud/traverse.go:187-188 | An element evaluating to false is retracted and skipped with no error and no recursion |
| TraversalFacts.SelectedStopsOnAtError | pkg/v2/crud/traverse.go:166-169 | In the selected loop, a failed `At` on an accepted element returns the navigator's error at once, with nothing pushed or visited |
| TraversalFacts.QualifiedStopsOnAtError | pkg/v2/crud/traverse.go:178-180 | In the qualified loop, a failed `At` returns the navigator's error at once, with nothing pushed, evaluated or visited |
| TraversalFacts.SkipsNonMatchingChild | pkg/v2/crud/traverse.go:184-188 | An element of an error-free collection that evaluates to false is skipped |
| TraversalFacts.QualifiedStopsOnEvaluationError | pkg/v2/crud/traverse.go:184-186 | An evaluation error ends the loop, is returned, and leaves the navigator at the collection with nothing visited |
| TraversalFacts.QualifiedDescendsIntoMatch | pkg/v2/crud/traverse.go:191 | A matching element walks the query after the filter; an error there ends the loop, otherwise the loop goes on |
| TraversalFacts.SelectedSkipsRejected | pkg/v2/crud/traverse.go:162-164 | An element the selector rejects is skipped with no move and no recursion |
| TraversalFacts.SelectedDescendsIntoAccepted | pkg/v2/crud/traverse.go:166-172 | An accepted element walks the same query node, unconsumed; an error ends the loop, otherwise it goes on |
| TraversalFacts.SelectedReportsLeftoverError | pkg/v2/crud/traverse.go:166-172 | When the walk inside an accepted element succeeds but leaves an error on the navigator, and the next element is accepted too, the loop fails with that error at the next element's `At`, in the state the walk left |
| TraversalFacts.QualifiedReportsLeftoverError | pkg/v2/crud/traverse.go:178-191 | When the walk inside a matching element succeeds but leaves an error on the navigator, and another element follows, the loop fails with that error at the next element's `At`, in the state the walk left |
| TraversalFacts.QualifiedStopsWithoutVisits | pkg/v2/crud/traverse.go:178-186 | A qualified loop that ends, fails `At` or fails evaluation adds no visit |
| TraversalFacts.SelectedStopsWithoutVisits | pkg/v2/crud/traverse.go:166-169 | A selected loop that ends or fails `At` adds no visit |
| TraversalFacts.NoMatchNoCallback | pkg/v2/crud/traverse.go:176-193 | Over elements none of which matches, the loop succeeds and the state is exactly as before |
| TraversalFacts.FilterMatchingNothing | pkg/v2/crud/traverse.go:87-91 | A filter matching no element of the collection changes nothing and fires no callback |
| TraversalFacts.QualifiedVisitsInOrder | pkg/v2/crud/traverse.go:176-193 | Every visit of the qualified loop lies inside an element in range, and element indices never go back |
| TraversalFacts.QualifiedVisitsMatched | pkg/v2/crud/traverse.go:184-191 | In observing mode every visit lies inside an element on which the filter evaluated to true |
| TraversalFacts.SelectedVisitsInOrder | pkg/v2/crud/traverse.go:158-174 | Every visit of the selected loop lies inside an element in range, and element indices never go back |
| TraversalFacts.SelectedVisitsAccepted | pkg/v2/crud/traverse.go:159-164 | Every visit lies inside an element the selector accepts |
| TraversalFacts.PrimaryOrFirstVisitsOneElement | pkg/v2/crud/traverse.go:62-72 | Primary-or-first traversal at a collection visits only inside the one element the strategy selects |
| TraversalFacts.ExhaustedQueryNotifies | pkg/v2/crud/traverse.go:199-203 | In the observing modes a used-up query notifies the callback once, at the current position |
| Crud.Traverser.constructor | pkg/v2/crud/traverse.go:18-23 | A traverser over a fresh navigator at the root of the property, nothing visited |
| Crud.Traverser.Notify | pkg/v2/crud/traverse.go:15-17 | Leaves the state and returns the status that `Traversal.Notify` computes |
| Crud.Traverser.Reach | pkg/v2/crud/traverse.go:46-53 | Leaves the state and returns the status that `Traversal.Reach` computes |
| Crud.Traverser.Traverse | pkg/v2/crud/traverse.go:81-99 | Leaves the navigator, the tree and the visits, and returns the status, that `Traversal.Traverse` computes |
| Crud.Traverser.TraverseNext | pkg/v2/crud/traverse.go:148-156 | Equal to `Traversal.TraverseNext` on the old state |
| Crud.Traverser.TraverseSelectedElements | pkg/v2/crud/traverse.go:158-174 | Equal to `Traversal.TraverseSelected` over the selector and element count taken at loop start |
| Crud.Traverser.SelectedElement | pkg/v2/crud/traverse.go:161-173 | One loop body: on an error its outcome is the loop's; on success the loop from the next index has the same outcome |
| Crud.Traverser.TraverseQualifiedElements | pkg/v2/crud/traverse.go:176-193 | Equal to `Traversal.TraverseQualified` over the element count taken at loop start |
| Crud.Traverser.QualifiedElement | pkg/v2/crud/traverse.go:177-192 | One loop body: on an error its outcome is the loop's; on success the loop from the next index has the same outcome |
| Crud.DefaultTraverse | pkg/v2/crud/traverse.go:14-25 | Returns the status and visits of `Traversal.Traverse` under plain wiring; the tree is unchanged |
| Crud.AddByEqFilterTraverse | pkg/v2/crud/traverse.go:45-60 | Returns the status, tree and visits of `Traversal.Traverse` under add wiring; the tree stays conformant |
| Crud.PrimaryOrFirstTraverse | pkg/v2/crud/traverse.go:62-72 | Returns the status and visits of `Traversal.Traverse` under primary-or-first wiring; the tree is unchanged |
| Scenarios.DefaultVisitsMatchingElement | pkg/v2/crud/traverse.go:176-193 | `emails[type eq "work"].value` over a home and a work email fires the callback once, at the work email's value |
| Scenarios.AddComposesWorkEmail | pkg/v2/crud/traverse.go:27-53 | Adding "c@x" by `emails[type eq "work"].value` to a user without emails yields the one email {type: work, value: c@x}; the callback fires once, at `emails` |
| Scenarios.PrimaryElementVisited | pkg/v2/crud/traverse.go:257-266 | With the second email marked primary, `emails.value` is visited only in it |
| Scenarios.FirstElementVisited | pkg/v2/crud/traverse.go:269-271 | With no email marked primary, `emails.value` is visited only in the first |
| Scenarios.FilterOnSingularValueFails | pkg/v2/crud/traverse.go:87-90 | A filter on the singular `value` ends the whole traversal with an invalid-filter error, no callback, and the navigator back at the root |
| Scenarios.TwoPredicatesOnNoEmails | pkg/v2/crud/traverse.go:212-238 | Add mode with a two-predicate filter over no emails succeeds with nothing added and no callback |
| Scenarios.TwoPredicatesOnMatchFails | pkg/v2/crud/traverse.go:107-109 | Add mode with a two-predicate filter and a matching email fails with "no filter found"; tree unchanged, no callback |

## Left out

- The navigator and property internals: the `pkg/v2/prop` package (navigator and property) is not part of this model.
  - `Navigation` gives the navigator the behaviour `traverse.go` relies on.
  - Descent errors are sticky: `Dot`/`At`/`Add` do nothing once an error is recorded, as `navCopy.At(0).Dot(filterKey)` followed by one error check implies.
  - `Retract` pops one level, and does nothing at the root.
  - Name lookup is exact, not case-insensitive.
- Raw values: JSON-backed raw values, nested value decoding and cloning are reduced to the `Value` datatype and to building elements from an object.
- Parser and evaluator: the query parser and the filter evaluator/normaliser are not part of this model. They appear as the function parameters `Env.evaluate` and `Env.normalize`, and a query is any `Expr` value.
- Value admission: the property library's check that a value fits the collection it is added to (its type, its keys) is not part of this model. It appears as the function parameter `Env.admit` (an `Admission`); `Add` records its error, if any, and changes nothing else.
- Callback mutation: the caller's callback may only observe the navigator (recorded in `visits`) and fail. A callback that mutates the tree is not modelled.
- In-place mutation of the caller's property: the entry points return the final tree as a value instead.
- Error text: message text and `%w` wrapping are reduced to error kinds. `shared/errors.go` is not used by the traversal and is not modelled.
  - The errors built at `traverse.go:131` and `traverse.go:138` wrap two causes each: `ErrInvalidFilter` and the navigator's or normaliser's own error. The model keeps one error kind per error, so it returns `InvalidFilter(NoComparisonAttribute)` and `InvalidFilter(BadFilterValue)` and drops the second cause.
- Pointer identity: `child == truePrimary` is modelled as "the index of the first child whose primary sub-property is raw `true`".
- Element count: `ForEachChild` iterates over the element count as it is when the loop starts.
- Unwired and nil cases: a nil callback, and `Add` on a singular node, cannot arise under the wiring of the three entry points. `AddStep` still models the latter as an invalid-path error, which the add callback would ignore like any other.
- Traverse: its own contract states the stack, tree and visit discipline only. Which error comes back from a failed step is stated by `TraverseNext`'s contract and by the lemmas `MissingSubAttributeFails`, `SelectedStopsOnAtError`, `QualifiedStopsOnAtError`, `FilterOnSingularAttribute` and `AddModeComposeFailure`.
- Crud.Traverser.Notify: the callback sees the navigator's state as a value and cannot act on the shared navigator.
