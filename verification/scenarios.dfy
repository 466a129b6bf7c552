/** Worked examples on a user resource whose `emails` attribute is a multi-valued
    complex attribute with string sub-attributes `type` and `value` (and, in the
    primary examples, a boolean `primary` marker). */
module Scenarios {
  import opened Wrappers
  import opened Errors
  import opened Props
  import opened Query
  import opened Navigation
  import opened Strategies
  import opened Compose
  import opened Traversal
  import opened TraversalFacts

  const TypeAttr := Attr("type", String, false, [], false)
  const ValueAttr := Attr("value", String, false, [], false)
  const EmailsAttr := Attr("emails", Complex, true, [TypeAttr, ValueAttr], false)
  const UserAttr := Attr("user", Complex, false, [EmailsAttr], false)

  function Email(t: string, v: string): Prop
  {
    Prop(ElementAttr(EmailsAttr), Null, [Prop(TypeAttr, Str(t), []), Prop(ValueAttr, Str(v), [])])
  }

  function User(emails: seq<Prop>): Prop
  {
    Prop(UserAttr, Null, [Prop(EmailsAttr, Null, emails)])
  }

  function PathNode(token: string, next: Option<Expr>): Expr
  {
    Expr(token, false, true, false, None, None, next)
  }

  /** The filter `[type eq "work"]` with its trailing path `.value`. */
  function WorkFilter(): Expr
  {
    Expr(EQ, true, false, false, Some(PathNode("type", None)),
         Some(Expr("work", false, false, true, None, None, None)),
         Some(PathNode("value", None)))
  }

  /** `emails[type eq "work"].value` */
  function WorkEmailValue(): Option<Expr>
  {
    Some(PathNode("emails", Some(WorkFilter())))
  }

  /** An evaluator for the filter `type eq "work"` on an email element. On the
      emails used below it also agrees with `type eq "work" and value eq "b@x"`:
      only the work email, whose value is "b@x", satisfies either. */
  function IsWork(p: Prop, f: Expr): Result<bool, Error>
  {
    Success(|p.children| > 0 && p.children[0].raw == Str("work"))
  }

  function Observe(n: Nav): Option<Error>
  {
    None
  }

  function Literal(a: Attr, token: string): Option<Value>
  {
    Some(Str(token))
  }

  /** A property library that admits every value. */
  function Admit(a: Attr, v: Value): Option<Error>
  {
    None
  }

  const env := Env(IsWork, Literal, Admit, Observe)

  lemma {:induction false} EmailWF(t: string, v: string)
    ensures WF(Email(t, v)) && Email(t, v).attr == ElementAttr(EmailsAttr)
  {
    var e := Email(t, v);
    assert WF(e.children[0]) && WF(e.children[1]);
  }

  lemma {:induction false} UserWF(emails: seq<Prop>)
    requires forall k :: 0 <= k < |emails| ==> WF(emails[k]) && emails[k].attr == ElementAttr(EmailsAttr)
    ensures WF(User(emails))
  {
    assert WF(User(emails).children[0]);
  }

  function HomeAndWork(): Prop
  {
    User([Email("home", "a@x"), Email("work", "b@x")])
  }

  lemma {:induction false} HomeAndWorkWF()
    ensures WF(HomeAndWork())
  {
    EmailWF("home", "a@x");
    EmailWF("work", "b@x");
    UserWF([Email("home", "a@x"), Email("work", "b@x")]);
  }

  /** Inside the work email, the rest of the query (`.value`) reaches the callback at
      `emails[1].value`, and the walk returns to the collection. */
  lemma {:induction false} WorkElementVisited(s1: State)
    requires s1 == State(Nav(HomeAndWork(), [0], None), [])
    ensures Consistent(s1.nav) && AtStep(s1.nav, 1).err.None?
    ensures Descend(DefaultConfig(), env, s1, Some(PathNode("value", None)), 1) ==
            Outcome(Ok, State(s1.nav, [[0, 1, 1]]))
  {
    HomeAndWorkWF();
    var c, n1 := DefaultConfig(), s1.nav;
    assert CurrentNode(n1) == Prop(EmailsAttr, Null, [Email("home", "a@x"), Email("work", "b@x")]);
    var a1 := AtStep(n1, 1);
    assert a1.stack == [0, 1];
    assert CurrentNode(a1) == Email("work", "b@x");
    var v := DotStep(a1, "value");
    assert v.stack == [0, 1, 1];
    assert Traverse(c, env, s1.(nav := v), None) == Outcome(Ok, State(v, [[0, 1, 1]]));
    assert TraverseNext(c, env, s1.(nav := a1), PathNode("value", None)) ==
           Outcome(Ok, State(RetractStep(v), [[0, 1, 1]]));
    assert RetractStep(v) == a1;
  }

  /** Default traversal of `emails[type eq "work"].value` over a home and a work
      email: the callback fires once, at `emails[1].value`. */
  lemma {:induction false} DefaultVisitsMatchingElement()
    ensures WF(HomeAndWork())
    ensures var r := Traverse(DefaultConfig(), env, Start(HomeAndWork()), WorkEmailValue());
            r.status == Ok && r.st.visits == [[0, 1, 1]]
  {
    HomeAndWorkWF();
    var c, s0 := DefaultConfig(), Start(HomeAndWork());
    var n1 := DotStep(s0.nav, "emails");
    assert n1 == Nav(HomeAndWork(), [0], None);
    var s1 := s0.(nav := n1);
    assert CurrentNode(n1) == Prop(EmailsAttr, Null, [Email("home", "a@x"), Email("work", "b@x")]);
    assert IsWork(CurrentNode(AtStep(n1, 0)), WorkFilter()) == Success(false);
    QualifiedSkipsNonMatching(c, env, s1, WorkFilter(), 0, 2);
    assert IsWork(CurrentNode(AtStep(n1, 1)), WorkFilter()) == Success(true);
    WorkElementVisited(s1);
    QualifiedDescendsIntoMatch(c, env, s1, WorkFilter(), 1, 2);
    assert Traverse(c, env, s1, Some(WorkFilter())) == Outcome(Ok, State(n1, [[0, 1, 1]]));
  }

  /** The raw value composed for `[type eq "work"].value` and the value `v`. */
  function WorkObj(v: Value): Value
  {
    Obj(map["value" := v]["type" := Str("work")])
  }

  lemma {:induction false} ComposeWorkEmail(v: string)
    ensures ComposedElement(Str(v), Some(WorkFilter()), Prop(EmailsAttr, Null, []), Literal, Admit) ==
            Success(Arr([WorkObj(Str(v))]))
  {
    assert FirstSubAttrNamed(EmailsAttr, 0, "type");
    ComposeBuildsElement(Str(v), WorkFilter(), Prop(EmailsAttr, Null, []), Literal, Admit, 0);
  }

  lemma {:induction false} AddWorkEmail(n1: Nav, v: string)
    requires n1 == Nav(User([]), [0], None)
    ensures Consistent(n1)
    ensures AddStep(n1, Arr([WorkObj(Str(v))]), Admit).root == User([Email("work", v)])
  {
    UserWF([]);
    assert CurrentNode(n1) == Prop(EmailsAttr, Null, []);
    var obj := WorkObj(Str(v));
    var elem := Element(EmailsAttr, obj);
    assert elem.children == [SubProp(TypeAttr, obj), SubProp(ValueAttr, obj)];
    assert elem == Email("work", v);
    assert Elements(EmailsAttr, Arr([obj])) == [elem];
    assert AddStep(n1, Arr([obj]), Admit).root == AddAt(User([]), [0], [elem]);
    assert [0][1..] == [];
    assert AddAt(Prop(EmailsAttr, Null, []), [], [elem]) == Prop(EmailsAttr, Null, [elem]);
  }

  /** At the empty `emails` collection, the add-by-Eq-filter callback appends the work
      email and notifies the caller there. */
  lemma {:induction false} WorkEmailAppended(s1: State)
    requires s1 == State(Nav(User([]), [0], None), [])
    ensures Consistent(s1.nav)
    ensures Traverse(AddByEqFilterConfig(Str("c@x")), env, s1, Some(WorkFilter())) ==
            Outcome(Ok, State(AddStep(s1.nav, Arr([WorkObj(Str("c@x"))]), Admit), [[0]]))
  {
    UserWF([]);
    var n1 := s1.nav;
    assert CurrentNode(n1) == Prop(EmailsAttr, Null, []);
    assert SingleEqFilterReached(CurrentNode(n1), Some(WorkFilter()));
    ComposeWorkEmail("c@x");
  }

  /** Add-by-Eq-filter traversal of `emails[type eq "work"].value` with the value
      "c@x" over a user without emails: `emails` becomes [{type: "work", value:
      "c@x"}], and the callback fires once, on the `emails` collection that now
      holds the new element. */
  lemma {:induction false} AddComposesWorkEmail()
    ensures WF(User([]))
    ensures var r := Traverse(AddByEqFilterConfig(Str("c@x")), env, Start(User([])), WorkEmailValue());
            r.status == Ok && r.st.nav.root == User([Email("work", "c@x")]) && r.st.visits == [[0]]
  {
    UserWF([]);
    var c, s0 := AddByEqFilterConfig(Str("c@x")), Start(User([]));
    var n1 := DotStep(s0.nav, "emails");
    assert n1 == Nav(User([]), [0], None);
    var s1 := s0.(nav := n1);
    WorkEmailAppended(s1);
    AddWorkEmail(n1, "c@x");
    assert TraverseNext(c, env, s0, WorkEmailValue().value).st.nav.root == User([Email("work", "c@x")]);
  }

  const PrimaryAttr := Attr("primary", Boolean, false, [], true)
  const MarkedEmailsAttr := Attr("emails", Complex, true, [TypeAttr, ValueAttr, PrimaryAttr], false)
  const MarkedUserAttr := Attr("user", Complex, false, [MarkedEmailsAttr], false)

  function MarkedEmail(t: string, v: string, primary: bool): Prop
  {
    Prop(ElementAttr(MarkedEmailsAttr), Null,
         [Prop(TypeAttr, Str(t), []), Prop(ValueAttr, Str(v), []), Prop(PrimaryAttr, Bool(primary), [])])
  }

  function MarkedUser(homePrimary: bool, workPrimary: bool): Prop
  {
    Prop(MarkedUserAttr, Null,
         [Prop(MarkedEmailsAttr, Null, [MarkedEmail("home", "a@x", homePrimary), MarkedEmail("work", "b@x", workPrimary)])])
  }

  lemma {:induction false} MarkedEmailWF(t: string, v: string, primary: bool)
    ensures WF(MarkedEmail(t, v, primary)) && MarkedEmail(t, v, primary).attr == ElementAttr(MarkedEmailsAttr)
  {
    var e := MarkedEmail(t, v, primary);
    assert WF(e.children[0]) && WF(e.children[1]) && WF(e.children[2]);
  }

  lemma {:induction false} MarkedUserWF(homePrimary: bool, workPrimary: bool)
    ensures WF(MarkedUser(homePrimary, workPrimary))
  {
    MarkedEmailWF("home", "a@x", homePrimary);
    MarkedEmailWF("work", "b@x", workPrimary);
    var u := MarkedUser(homePrimary, workPrimary);
    assert WF(u.children[0]);
  }

  /** `emails.value` */
  function EmailValues(): Option<Expr>
  {
    Some(PathNode("emails", Some(PathNode("value", None))))
  }

  /** Inside the selected element `k`, `.value` reaches the callback at `emails[k].value`. */
  lemma {:induction false} MarkedElementVisited(s1: State, homePrimary: bool, workPrimary: bool, k: nat)
    requires s1 == State(Nav(MarkedUser(homePrimary, workPrimary), [0], None), []) && k < 2
    ensures Consistent(s1.nav) && AtStep(s1.nav, k).err.None?
    ensures Descend(PrimaryOrFirstConfig(), env, s1, Some(PathNode("value", None)), k) ==
            Outcome(Ok, State(s1.nav, [[0, k, 1]]))
  {
    MarkedUserWF(homePrimary, workPrimary);
    var c, n1 := PrimaryOrFirstConfig(), s1.nav;
    var a := AtStep(n1, k);
    assert a.stack == [0, k];
    assert !CurrentNode(a).attr.multiValued && CurrentNode(a).attr.typ == Complex;
    assert CurrentNode(a).children[1].attr.name == "value";
    var v := DotStep(a, "value");
    assert v.stack == [0, k, 1];
    assert Traverse(c, env, s1.(nav := v), None) == Outcome(Ok, State(v, [[0, k, 1]]));
    assert TraverseNext(c, env, s1.(nav := a), PathNode("value", None)) ==
           Outcome(Ok, State(RetractStep(v), [[0, k, 1]]));
    assert RetractStep(v) == a;
  }

  /** With the work email marked primary, the strategy selects it alone. */
  lemma {:induction false} WorkMarkedSelected()
    ensures Select(PrimaryOrFirst, MarkedUser(false, true).children[0]) == Only(1)
  {
    var emails := MarkedUser(false, true).children[0];
    assert emails.attr.subAttrs == [TypeAttr, ValueAttr, PrimaryAttr];
    assert emails.children == [MarkedEmail("home", "a@x", false), MarkedEmail("work", "b@x", true)];
    assert !IsTruePrimary(emails.children[0], "primary");
    assert IsTruePrimary(emails.children[1], "primary");
    PrimarySelected(emails, 2, 1);
    assert Accepts(Select(PrimaryOrFirst, emails), 1);
  }

  /** With no email marked primary, the strategy selects the first one alone. */
  lemma {:induction false} NoneMarkedSelectsFirst()
    ensures Select(PrimaryOrFirst, MarkedUser(false, false).children[0]) == Only(0)
  {
    var emails := MarkedUser(false, false).children[0];
    assert emails.attr.subAttrs == [TypeAttr, ValueAttr, PrimaryAttr];
    assert emails.children == [MarkedEmail("home", "a@x", false), MarkedEmail("work", "b@x", false)];
    assert !IsTruePrimary(emails.children[0], "primary");
    assert !IsTruePrimary(emails.children[1], "primary");
    FirstWithoutTruePrimary(emails, 2);
    assert Accepts(Select(PrimaryOrFirst, emails), 0);
  }

  /** Primary-or-first traversal of `emails.value`, where the work email (index 1) is
      marked primary: the callback fires once, at `emails[1].value`. */
  lemma {:induction false} PrimaryElementVisited()
    ensures WF(MarkedUser(false, true))
    ensures var r := Traverse(PrimaryOrFirstConfig(), env, Start(MarkedUser(false, true)), EmailValues());
            r.status == Ok && r.st.visits == [[0, 1, 1]]
  {
    MarkedUserWF(false, true);
    var c, s0 := PrimaryOrFirstConfig(), Start(MarkedUser(false, true));
    var n1 := DotStep(s0.nav, "emails");
    assert n1 == Nav(MarkedUser(false, true), [0], None);
    var s1 := s0.(nav := n1);
    assert CurrentNode(n1) == MarkedUser(false, true).children[0];
    WorkMarkedSelected();
    var sel := Only(1);
    var q := Some(PathNode("value", None));
    SelectedSkipsRejected(c, env, s1, q, sel, 0, 2);
    MarkedElementVisited(s1, false, true, 1);
    SelectedDescendsIntoAccepted(c, env, s1, q, sel, 1, 2);
    assert Traverse(c, env, s1, q) == Outcome(Ok, State(n1, [[0, 1, 1]]));
  }

  /** Primary-or-first traversal of `emails.value` where no email is marked primary:
      the callback fires once, at `emails[0].value`. */
  lemma {:induction false} FirstElementVisited()
    ensures WF(MarkedUser(false, false))
    ensures var r := Traverse(PrimaryOrFirstConfig(), env, Start(MarkedUser(false, false)), EmailValues());
            r.status == Ok && r.st.visits == [[0, 0, 1]]
  {
    MarkedUserWF(false, false);
    var c, s0 := PrimaryOrFirstConfig(), Start(MarkedUser(false, false));
    var n1 := DotStep(s0.nav, "emails");
    assert n1 == Nav(MarkedUser(false, false), [0], None);
    var s1 := s0.(nav := n1);
    assert CurrentNode(n1) == MarkedUser(false, false).children[0];
    NoneMarkedSelectsFirst();
    var sel := Only(0);
    var q := Some(PathNode("value", None));
    MarkedElementVisited(s1, false, false, 0);
    SelectedDescendsIntoAccepted(c, env, s1, q, sel, 0, 2);
    var d := Descend(c, env, s1, q, 0);
    SelectedSkipsRejected(c, env, d.st, q, sel, 1, 2);
    assert Traverse(c, env, s1, q) == Outcome(Ok, State(n1, [[0, 0, 1]]));
  }

  /** `emails.value[type eq "work"]`: a filter on the singular `value` attribute. */
  function FilterOnValue(): Option<Expr>
  {
    Some(PathNode("emails", Some(Expr("value", false, true, false, None, None, Some(WorkFilter())))))
  }

  /** A filter on a singular attribute inside the first email is an invalid-filter
      error; it ends the whole traversal with no callback, and the navigator is back
      at the root. */
  lemma {:induction false} FilterOnSingularValueFails()
    ensures WF(HomeAndWork())
    ensures var r := Traverse(DefaultConfig(), env, Start(HomeAndWork()), FilterOnValue());
            r.status == Fail(InvalidFilter(SingularTarget)) && r.st.visits == [] && r.st.nav.stack == []
  {
    HomeAndWorkWF();
    var c, s0 := DefaultConfig(), Start(HomeAndWork());
    var n1 := DotStep(s0.nav, "emails");
    assert n1 == Nav(HomeAndWork(), [0], None);
    var s1 := s0.(nav := n1);
    assert CurrentNode(n1) == Prop(EmailsAttr, Null, [Email("home", "a@x"), Email("work", "b@x")]);
    var q := FilterOnValue().value.next;
    var a0 := AtStep(n1, 0);
    assert CurrentNode(a0) == Email("home", "a@x");
    var v := DotStep(a0, "value");
    assert !CurrentNode(v).attr.multiValued;
    FilterOnSingularAttribute(c, env, s1.(nav := v), WorkFilter());
    SelectedDescendsIntoAccepted(c, env, s1, q, Every, 0, 2);
    assert Descend(c, env, s1, q, 0).status == Fail(InvalidFilter(SingularTarget));
  }

  function EqLiteral(key: string, literal: string): Expr
  {
    Expr(EQ, false, false, false, Some(PathNode(key, None)),
         Some(Expr(literal, false, false, true, None, None, None)), None)
  }

  /** `emails[type eq "work" and value eq "b@x"].value` */
  function TwoPredicates(): Option<Expr>
  {
    var filter := Expr("and", true, false, false, Some(EqLiteral("type", "work")),
                       Some(EqLiteral("value", "b@x")), Some(PathNode("value", None)));
    Some(PathNode("emails", Some(filter)))
  }

  /** Add-by-Eq-filter traversal with two chained predicates over a user without
      emails: the stop predicate never holds, no element qualifies, and the traversal
      succeeds without adding anything or firing the callback. */
  lemma {:induction false} TwoPredicatesOnNoEmails()
    ensures WF(User([]))
    ensures var r := Traverse(AddByEqFilterConfig(Str("c@x")), env, Start(User([])), TwoPredicates());
            r.status == Ok && r.st.nav.root == User([]) && r.st.visits == []
  {
    UserWF([]);
    var c, s0 := AddByEqFilterConfig(Str("c@x")), Start(User([]));
    var n1 := DotStep(s0.nav, "emails");
    assert n1 == Nav(User([]), [0], None);
    assert CurrentNode(n1) == Prop(EmailsAttr, Null, []);
    var filter := TwoPredicates().value.next.value;
    assert Traverse(c, env, s0.(nav := n1), Some(filter)) == Outcome(Ok, s0.(nav := n1));
  }

  /** Inside the matching work email, add mode walks `.value` to its end, where
      composition fails with "no filter found"; the walk returns to the collection
      with nothing visited. */
  lemma {:induction false} WorkElementFailsInAddMode(s1: State)
    requires s1 == State(Nav(HomeAndWork(), [0], None), [])
    ensures Consistent(s1.nav) && AtStep(s1.nav, 1).err.None?
    ensures Descend(AddByEqFilterConfig(Str("c@x")), env, s1, Some(PathNode("value", None)), 1) ==
            Outcome(Fail(InvalidFilter(NoFilterFound)), s1)
  {
    WorkValueExhausted(s1);
    assert RetractStep(AtStep(s1.nav, 1)) == s1.nav;
  }

  /** The step inside the work email: `.value` is found and the exhausted query fails
      there; the navigator is back on the work email. */
  lemma {:induction false} WorkValueExhausted(s1: State)
    requires s1 == State(Nav(HomeAndWork(), [0], None), [])
    ensures Consistent(s1.nav) && AtStep(s1.nav, 1).err.None? && AtStep(s1.nav, 1).stack == [0, 1]
    ensures TraverseNext(AddByEqFilterConfig(Str("c@x")), env, s1.(nav := AtStep(s1.nav, 1)), PathNode("value", None)) ==
            Outcome(Fail(InvalidFilter(NoFilterFound)), s1.(nav := AtStep(s1.nav, 1)))
  {
    HomeAndWorkWF();
    var c, n1 := AddByEqFilterConfig(Str("c@x")), s1.nav;
    assert CurrentNode(n1) == Prop(EmailsAttr, Null, [Email("home", "a@x"), Email("work", "b@x")]);
    var a1 := AtStep(n1, 1);
    assert a1.stack == [0, 1];
    assert CurrentNode(a1) == Email("work", "b@x");
    var v := DotStep(a1, "value");
    assert v.stack == [0, 1, 1] && v.root == HomeAndWork();
    ExhaustedQueryInAddMode(Str("c@x"), env, s1.(nav := v));
    assert RetractStep(v) == a1;
  }

  /** At the `emails` collection, the filter with two predicates skips the home
      email and fails inside the work email. */
  lemma {:induction false} TwoPredicatesAtEmails(s1: State)
    requires s1 == State(Nav(HomeAndWork(), [0], None), [])
    ensures Consistent(s1.nav)
    ensures Traverse(AddByEqFilterConfig(Str("c@x")), env, s1, TwoPredicates().value.next) ==
            Outcome(Fail(InvalidFilter(NoFilterFound)), s1)
  {
    HomeAndWorkWF();
    var c, n1 := AddByEqFilterConfig(Str("c@x")), s1.nav;
    assert CurrentNode(n1) == Prop(EmailsAttr, Null, [Email("home", "a@x"), Email("work", "b@x")]);
    var filter := TwoPredicates().value.next.value;
    assert !SingleEqFilterReached(CurrentNode(n1), Some(filter));
    assert IsWork(CurrentNode(AtStep(n1, 0)), filter) == Success(false);
    QualifiedSkipsNonMatching(c, env, s1, filter, 0, 2);
    assert IsWork(CurrentNode(AtStep(n1, 1)), filter) == Success(true);
    WorkElementFailsInAddMode(s1);
    QualifiedDescendsIntoMatch(c, env, s1, filter, 1, 2);
  }

  /** The same traversal where an element matches: the walk continues past the filter
      to the end of the query, where composition fails with "no filter found"; the
      tree is unchanged and the callback never fires. */
  lemma {:induction false} TwoPredicatesOnMatchFails()
    ensures WF(HomeAndWork())
    ensures var r := Traverse(AddByEqFilterConfig(Str("c@x")), env, Start(HomeAndWork()), TwoPredicates());
            r.status == Fail(InvalidFilter(NoFilterFound)) && r.st.nav.root == HomeAndWork() && r.st.visits == []
  {
    HomeAndWorkWF();
    var s0 := Start(HomeAndWork());
    var n1 := DotStep(s0.nav, "emails");
    assert n1 == Nav(HomeAndWork(), [0], None);
    TwoPredicatesAtEmails(s0.(nav := n1));
  }
}
