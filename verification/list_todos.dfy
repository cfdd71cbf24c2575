/** `GET /todos/`: choosing, from the query parameters present, the one
    `WHERE` clause to run, validating only the parameters that clause uses. */
module ListRoute {
  import opened Values
  import opened Rows

  /** The query string; a parameter not given is `None`. */
  datatype ListQuery = ListQuery(search_q: Option<string>, priority: Option<string>, status: Option<string>, category: Option<string>)

  /** `search_q` defaults to the empty string. */
  function SearchText(q: ListQuery): string {
    if q.search_q.Some? then q.search_q.value else ""
  }

  /** The search branch runs when `search_q` is truthy, i.e. non-empty. */
  function Searching(q: ListQuery): (b: bool)
    ensures b <==> q.search_q.Some? && |q.search_q.value| > 0
  {
    SearchText(q) != ""
  }

  predicate HasPriorityAndStatusProperties(q: ListQuery) {
    q.priority.Some? && q.status.Some?
  }

  predicate HasCategoryAndStatus(q: ListQuery) {
    q.category.Some? && q.status.Some?
  }

  predicate HasCategoryAndPriority(q: ListQuery) {
    q.category.Some? && q.priority.Some?
  }

  predicate HasPriorityProperty(q: ListQuery) {
    q.priority.Some?
  }

  predicate HasStatusProperty(q: ListQuery) {
    q.status.Some?
  }

  predicate HasCategoryProperty(q: ListQuery) {
    q.category.Some?
  }

  /** The handler's decision: the `WHERE` clause to run, or the message of
      the first failed check, following the `switch (true)` chain case by case. */
  function ListPlan(q: ListQuery): (r: Result<Where>)
    ensures Searching(q) ==> r == Success(TodoLike(SearchText(q)))
    ensures r.Failure? ==> !Searching(q) && r.message in {InvalidPriority, InvalidStatus, InvalidCategory}
  {
    if Searching(q) then
      Success(TodoLike(SearchText(q)))
    else if HasPriorityAndStatusProperties(q) then
      if !IsValidPriority(q.priority.value) then Failure(InvalidPriority)
      else if !IsValidStatus(q.status.value) then Failure(InvalidStatus)
      else Success(StatusAndPriority(q.status.value, q.priority.value))
    else if HasCategoryAndStatus(q) then
      if !IsValidCategory(q.category.value) then Failure(InvalidCategory)
      else if !IsValidStatus(q.status.value) then Failure(InvalidStatus)
      else Success(CategoryAndStatus(q.category.value, q.status.value))
    else if HasCategoryAndPriority(q) then
      if !IsValidCategory(q.category.value) then Failure(InvalidCategory)
      else if !IsValidPriority(q.priority.value) then Failure(InvalidPriority)
      else Success(CategoryAndPriority(q.category.value, q.priority.value))
    else if HasPriorityProperty(q) then
      if !IsValidPriority(q.priority.value) then Failure(InvalidPriority)
      else Success(PriorityIs(q.priority.value))
    else if HasStatusProperty(q) then
      if !IsValidStatus(q.status.value) then Failure(InvalidStatus)
      else Success(StatusIs(q.status.value))
    else if HasCategoryProperty(q) then
      if !IsValidCategory(q.category.value) then Failure(InvalidCategory)
      else Success(CategoryIs(q.category.value))
    else
      Success(Everything)
  }

  /** The handler: a 400 with the failed check's message, or the selected rows.
      It only reads the table. */
  function ListTodos(env: Env, q: ListQuery, t: Table): (r: Response)
    ensures r.status == 400 <==> ListPlan(q).Failure?
    ensures r.status == 400 ==> r == BadRequest(ListPlan(q).message)
    ensures r.status != 400 ==>
      && r.status == 200 && r.payload.Rows?
      && forall j :: j in r.payload.rows <==>
           j.id in t && Holds(env, ListPlan(q).value, t[j.id]) && RowOf(j).1 == t[j.id]
  {
    match ListPlan(q)
    case Failure(m) => BadRequest(m)
    case Success(w) => Ok(Rows(Select(env, t, w)))
  }

  // An independent statement of the dispatcher as an ordered rule list.

  /** The filter combinations, one per `case` of the handler. */
  datatype Branch = ByPriorityAndStatus | ByCategoryAndStatus | ByCategoryAndPriority | ByPriority | ByStatus | ByCategory | Unfiltered

  /** The order in which the combinations are tried. */
  const Precedence: seq<Branch> := [ByPriorityAndStatus, ByCategoryAndStatus, ByCategoryAndPriority, ByPriority, ByStatus, ByCategory, Unfiltered]

  /** The parameters a combination needs, with their values, in the order
      it validates them. */
  function Checked(q: ListQuery, b: Branch): seq<Check> {
    match b
    case ByPriorityAndStatus => [(PriorityField, q.priority), (StatusField, q.status)]
    case ByCategoryAndStatus => [(CategoryField, q.category), (StatusField, q.status)]
    case ByCategoryAndPriority => [(CategoryField, q.category), (PriorityField, q.priority)]
    case ByPriority => [(PriorityField, q.priority)]
    case ByStatus => [(StatusField, q.status)]
    case ByCategory => [(CategoryField, q.category)]
    case Unfiltered => []
  }

  /** A combination applies when all the parameters it needs are present. */
  predicate Applies(q: ListQuery, b: Branch) {
    forall c :: c in Checked(q, b) ==> c.1.Some?
  }

  /** The first rule of `rules` that applies to `q`. */
  function FirstApplicable(rules: seq<Branch>, q: ListQuery): (r: Option<Branch>)
    ensures r.None? <==> forall i :: 0 <= i < |rules| ==> !Applies(q, rules[i])
    ensures r.Some? ==> Applies(q, r.value)
    ensures r.Some? ==> exists i :: 0 <= i < |rules| && rules[i] == r.value
                          && forall j :: 0 <= j < i ==> !Applies(q, rules[j])
  {
    if |rules| == 0 then None
    else if Applies(q, rules[0]) then Some(rules[0])
    else
      var rest := FirstApplicable(rules[1..], q);
      if rest.Some? then
        ghost var i :| 0 <= i < |rules[1..]| && rules[1..][i] == rest.value
                      && forall j :: 0 <= j < i ==> !Applies(q, rules[1..][j]);
        assert rules[i + 1] == rest.value;
        rest
      else rest
  }

  /** The clause a combination runs; its parameters are present. */
  function WhereFor(b: Branch, q: ListQuery): Where
    requires Applies(q, b)
  {
    match b
    case ByPriorityAndStatus =>
      assert Checked(q, b)[0] in Checked(q, b) && Checked(q, b)[1] in Checked(q, b);
      StatusAndPriority(q.status.value, q.priority.value)
    case ByCategoryAndStatus =>
      assert Checked(q, b)[0] in Checked(q, b) && Checked(q, b)[1] in Checked(q, b);
      CategoryAndStatus(q.category.value, q.status.value)
    case ByCategoryAndPriority =>
      assert Checked(q, b)[0] in Checked(q, b) && Checked(q, b)[1] in Checked(q, b);
      CategoryAndPriority(q.category.value, q.priority.value)
    case ByPriority =>
      assert Checked(q, b)[0] in Checked(q, b);
      PriorityIs(q.priority.value)
    case ByStatus =>
      assert Checked(q, b)[0] in Checked(q, b);
      StatusIs(q.status.value)
    case ByCategory =>
      assert Checked(q, b)[0] in Checked(q, b);
      CategoryIs(q.category.value)
    case Unfiltered => Everything
  }

  /** The dispatcher as a rule list: a non-empty search first; otherwise the
      first applicable combination, whose own parameters are checked in its
      order and whose clause runs when they all pass. */
  function RulePlan(env: Env, q: ListQuery): Result<Where> {
    if Searching(q) then Success(TodoLike(SearchText(q)))
    else
      var chosen := FirstApplicable(Precedence, q);
      assert Precedence[6] == Unfiltered && Applies(q, Unfiltered);
      var b := chosen.value;
      match FirstRejected(env, Checked(q, b))
      case Some(f) => Failure(InvalidMessage(f))
      case None => Success(WhereFor(b, q))
  }

  /** The combination the handler's `has*` tests pick. */
  function ChosenBranch(q: ListQuery): Branch {
    if HasPriorityAndStatusProperties(q) then ByPriorityAndStatus
    else if HasCategoryAndStatus(q) then ByCategoryAndStatus
    else if HasCategoryAndPriority(q) then ByCategoryAndPriority
    else if HasPriorityProperty(q) then ByPriority
    else if HasStatusProperty(q) then ByStatus
    else if HasCategoryProperty(q) then ByCategory
    else Unfiltered
  }

  /** Each combination applies exactly when the handler's matching `has*`
      test holds. */
  lemma AppliesAsTested(q: ListQuery)
    ensures Applies(q, ByPriorityAndStatus) <==> HasPriorityAndStatusProperties(q)
    ensures Applies(q, ByCategoryAndStatus) <==> HasCategoryAndStatus(q)
    ensures Applies(q, ByCategoryAndPriority) <==> HasCategoryAndPriority(q)
    ensures Applies(q, ByPriority) <==> HasPriorityProperty(q)
    ensures Applies(q, ByStatus) <==> HasStatusProperty(q)
    ensures Applies(q, ByCategory) <==> HasCategoryProperty(q)
    ensures Applies(q, Unfiltered)
  {
  }

  /** The `has*` chain picks the first applicable rule of `Precedence`. */
  lemma {:induction false} ChosenBranchIsFirstApplicable(q: ListQuery)
    ensures FirstApplicable(Precedence, q) == Some(ChosenBranch(q))
  {
    AppliesAsTested(q);
    var p0 := Precedence;
    var p1 := [ByCategoryAndStatus, ByCategoryAndPriority, ByPriority, ByStatus, ByCategory, Unfiltered];
    var p2 := [ByCategoryAndPriority, ByPriority, ByStatus, ByCategory, Unfiltered];
    var p3 := [ByPriority, ByStatus, ByCategory, Unfiltered];
    var p4 := [ByStatus, ByCategory, Unfiltered];
    var p5 := [ByCategory, Unfiltered];
    var p6 := [Unfiltered];
    assert p0[1..] == p1 && p1[1..] == p2 && p2[1..] == p3 && p3[1..] == p4 && p4[1..] == p5 && p5[1..] == p6;
    if !Applies(q, ByPriorityAndStatus) {
      assert FirstApplicable(p0, q) == FirstApplicable(p1, q);
      if !Applies(q, ByCategoryAndStatus) {
        assert FirstApplicable(p1, q) == FirstApplicable(p2, q);
        if !Applies(q, ByCategoryAndPriority) {
          assert FirstApplicable(p2, q) == FirstApplicable(p3, q);
          if !Applies(q, ByPriority) {
            assert FirstApplicable(p3, q) == FirstApplicable(p4, q);
            if !Applies(q, ByStatus) {
              assert FirstApplicable(p4, q) == FirstApplicable(p5, q);
              if !Applies(q, ByCategory) {
                assert FirstApplicable(p5, q) == FirstApplicable(p6, q);
              }
            }
          }
        }
      }
    }
  }

  /** The rule list's verdict on one or two checks, spelled out. */
  lemma FirstRejectedShort(env: Env, cs: seq<Check>)
    requires |cs| <= 2
    ensures FirstRejected(env, cs) ==
        if |cs| == 0 then None
        else if !Accepts(env, cs[0].0, cs[0].1) then Some(cs[0].0)
        else if |cs| == 1 then None
        else if !Accepts(env, cs[1].0, cs[1].1) then Some(cs[1].0)
        else None
  {
  }

  /** The verdict of the rule list once a combination is chosen. */
  function BranchPlan(env: Env, q: ListQuery, b: Branch): Result<Where>
    requires Applies(q, b)
  {
    match FirstRejected(env, Checked(q, b))
    case Some(f) => Failure(InvalidMessage(f))
    case None => Success(WhereFor(b, q))
  }

  lemma RulePlanUsesChosenBranch(env: Env, q: ListQuery)
    requires !Searching(q)
    ensures Applies(q, ChosenBranch(q))
    ensures RulePlan(env, q) == BranchPlan(env, q, ChosenBranch(q))
  {
    ChosenBranchIsFirstApplicable(q);
  }

  lemma {:induction false} ChosenBranchPlan(env: Env, q: ListQuery)
    requires !Searching(q)
    ensures Applies(q, ChosenBranch(q))
    ensures ListPlan(q) == BranchPlan(env, q, ChosenBranch(q))
  {
    AppliesAsTested(q);
    var b := ChosenBranch(q);
    FirstRejectedShort(env, Checked(q, b));
    match b
    case ByPriorityAndStatus =>
    case ByCategoryAndStatus =>
    case ByCategoryAndPriority =>
    case ByPriority =>
    case ByStatus =>
    case ByCategory =>
    case Unfiltered =>
  }

  /** The handler's `switch (true)` chain is the rule list, whatever the
      behaviour of the date library and of `LIKE`. */
  lemma ListPlanFollowsPrecedence(env: Env, q: ListQuery)
    ensures ListPlan(q) == RulePlan(env, q)
  {
    if !Searching(q) {
      RulePlanUsesChosenBranch(env, q);
      ChosenBranchPlan(env, q);
    }
  }

  /** The list route answers as the rule list decides: 400 with the message
      of the first failed check of the chosen combination, and otherwise
      exactly the stored rows that satisfy the chosen clause. */
  lemma {:induction false} ListTodosFollowsRules(env: Env, q: ListQuery, t: Table)
    ensures var r := ListTodos(env, q, t);
      && (r.status == 400 <==> RulePlan(env, q).Failure?)
      && (r.status == 400 ==> r == BadRequest(RulePlan(env, q).message))
      && (r.status != 400 ==>
           && r.status == 200 && r.payload.Rows?
           && forall j :: j in r.payload.rows <==>
                j.id in t && Holds(env, RulePlan(env, q).value, t[j.id]) && RowOf(j).1 == t[j.id])
  {
    ListPlanFollowsPrecedence(env, q);
  }

  /** An empty `search_q` is falsy: the request is handled as if the
      parameter were not given. */
  lemma EmptySearchFallsThrough(q: ListQuery)
    requires q.search_q == Some("")
    ensures ListPlan(q) == ListPlan(q.(search_q := None))
    ensures ListPlan(q) != Success(TodoLike(""))
  {
  }

  /** With priority and status both given, category is neither validated nor
      used as a filter. */
  lemma CategoryIgnoredWithPriorityAndStatus(q: ListQuery, category: Option<string>)
    requires !Searching(q) && HasPriorityAndStatusProperties(q)
    ensures ListPlan(q.(category := category)) == ListPlan(q)
  {
  }

  /** `?priority=p&status=s`: priority is checked first, then status; when
      both pass, the response holds exactly the rows with that priority and
      that status. */
  lemma PriorityAndStatusFilter(env: Env, q: ListQuery, t: Table, p: string, s: string)
    requires !Searching(q) && q.priority == Some(p) && q.status == Some(s)
    ensures !IsValidPriority(p) ==> ListTodos(env, q, t) == BadRequest(InvalidPriority)
    ensures IsValidPriority(p) && !IsValidStatus(s) ==> ListTodos(env, q, t) == BadRequest(InvalidStatus)
    ensures IsValidPriority(p) && IsValidStatus(s) ==>
      var r := ListTodos(env, q, t);
      && r.status == 200 && r.payload.Rows?
      && forall j :: j in r.payload.rows <==>
           j.id in t && t[j.id].priority == p && t[j.id].status == s && RowOf(j).1 == t[j.id]
  {
  }
}
