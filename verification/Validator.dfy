/** Validation of a plan proposal before anything is stored: well-formed tasks, well-formed
    dependencies, no cycle, and a longest chain within budget. */
module Validator {
  import opened Results
  import opened Digraph
  import opened Chains
  import opened DepthPass

  datatype ProposedTask = ProposedTask(tempId: string, objective: string, criteria: seq<string>, priority: int,
                                       requiredCapabilities: seq<string>)

  /** `task` must wait for `dependsOn`. */
  datatype ProposedDependency = ProposedDependency(task: string, dependsOn: string)

  datatype PlanProposal = PlanProposal(tasks: seq<ProposedTask>, dependencies: seq<ProposedDependency>)

  datatype PlannerBudgets = PlannerBudgets(maxTasksPerPlan: nat, maxWorkflowTasks: nat, maxDecompositionDepth: nat)

  const DEFAULT_BUDGETS := PlannerBudgets(50, 200, 15)

  /** Indices count from zero for tasks and criteria, and from one for dependencies, as reported. */
  datatype PlanError =
    | NoTasks
    | TooManyTasks(count: nat)
    | WorkflowFull(count: nat)
    | EmptyId(index: nat)
    | DuplicateId(id: string)
    | EmptyObjective(id: string)
    | NoCriteria(id: string)
    | BlankCriterion(id: string)
    | SelfDependency(id: string)
    | MissingTask(id: string)
    | MissingPrerequisite(id: string)
    | CycleAmong(ids: set<string>)
    | TooDeep(depth: nat)

  datatype PlanValidationReport = PlanValidationReport(isValid: bool, errors: seq<PlanError>)

  // ----- trimming -----

  /** The characters with the Unicode White_Space property. */
  predicate IsWhitespace(c: char) {
    || '\U{0009}' <= c <= '\U{000D}' || c == ' ' || c == '\U{0085}' || c == '\U{00A0}' || c == '\U{1680}'
    || '\U{2000}' <= c <= '\U{200A}' || c == '\U{2028}' || c == '\U{2029}' || c == '\U{202F}' || c == '\U{205F}'
    || c == '\U{3000}'
  }

  function TrimStart(s: string): string {
    if s != "" && IsWhitespace(s[0]) then TrimStart(s[1..]) else s
  }

  function TrimEnd(s: string): string {
    if s != "" && IsWhitespace(s[|s| - 1]) then TrimEnd(s[..|s| - 1]) else s
  }

  function Trim(s: string): string {
    TrimEnd(TrimStart(s))
  }

  predicate HasText(s: string) {
    exists i :: 0 <= i < |s| && !IsWhitespace(s[i])
  }

  /** White space as it is written in practice, and its ends. */
  lemma WhitespaceCodes(c: char)
    ensures c as int < 0x85 ==> (IsWhitespace(c) <==> c as int in {9, 10, 11, 12, 13, 32})
    ensures c as int > 0x3000 ==> !IsWhitespace(c)
    ensures c as int in {0x85, 0xA0, 0x1680, 0x2028, 0x2029, 0x202F, 0x205F, 0x3000} || 0x2000 <= c as int <= 0x200A ==> IsWhitespace(c)
    ensures c as int >= 0x85 && IsWhitespace(c) ==>
      c as int in {0x85, 0xA0, 0x1680, 0x2028, 0x2029, 0x202F, 0x205F, 0x3000} || 0x2000 <= c as int <= 0x200A
  {
  }

  /** Trimming cuts white space off both ends, and all of it. */
  lemma {:induction false} TrimStartCuts(s: string) returns (front: string)
    ensures s == front + TrimStart(s) && !HasText(front)
    ensures TrimStart(s) != "" ==> !IsWhitespace(TrimStart(s)[0])
  {
    if s != "" && IsWhitespace(s[0]) {
      var rest := TrimStartCuts(s[1..]);
      front := [s[0]] + rest;
    } else {
      front := "";
    }
  }

  lemma {:induction false} TrimEndCuts(s: string) returns (back: string)
    ensures s == TrimEnd(s) + back && !HasText(back)
    ensures TrimEnd(s) != "" ==> TrimEnd(s)[0] == s[0] && !IsWhitespace(TrimEnd(s)[|TrimEnd(s)| - 1])
  {
    if s != "" && IsWhitespace(s[|s| - 1]) {
      var rest := TrimEndCuts(s[..|s| - 1]);
      back := rest + [s[|s| - 1]];
    } else {
      back := "";
    }
  }

  lemma TrimCuts(s: string) returns (front: string, back: string)
    ensures s == front + Trim(s) + back && !HasText(front) && !HasText(back)
    ensures Trim(s) != "" ==> !IsWhitespace(Trim(s)[0]) && !IsWhitespace(Trim(s)[|Trim(s)| - 1])
  {
    front := TrimStartCuts(s);
    back := TrimEndCuts(TrimStart(s));
  }

  lemma TextIsTrimmed()
    ensures forall s :: Trim(s) == "" <==> !HasText(s)
  {
    forall s ensures Trim(s) == "" <==> !HasText(s) {
      var front, back := TrimCuts(s);
      if Trim(s) != "" {
        assert s[|front|] == Trim(s)[0];
      }
    }
  }

  // ----- what a well-formed proposal is -----

  function TrimmedIds(tasks: seq<ProposedTask>): set<string> {
    set t | t in tasks && Trim(t.tempId) != "" :: Trim(t.tempId)
  }

  predicate TaskWellFormed(t: ProposedTask) {
    && Trim(t.tempId) != ""
    && Trim(t.objective) != ""
    && t.criteria != [] && forall c :: c in t.criteria ==> Trim(c) != ""
  }

  ghost predicate DistinctIds(tasks: seq<ProposedTask>) {
    forall i, j :: 0 <= i < j < |tasks| ==> Trim(tasks[i].tempId) != Trim(tasks[j].tempId)
  }

  ghost predicate TasksWellFormed(tasks: seq<ProposedTask>) {
    (forall t :: t in tasks ==> TaskWellFormed(t)) && DistinctIds(tasks)
  }

  /** The same, task by task: each is well formed and its id is not among the ids before it. */
  ghost predicate CheckedInOrder(tasks: seq<ProposedTask>) {
    tasks == [] ||
    var n := |tasks| - 1;
    && CheckedInOrder(tasks[..n])
    && TaskWellFormed(tasks[n]) && Trim(tasks[n].tempId) !in TrimmedIds(tasks[..n])
  }

  predicate DependencyWellFormed(ids: set<string>, dep: ProposedDependency) {
    Trim(dep.task) != Trim(dep.dependsOn) && Trim(dep.task) in ids && Trim(dep.dependsOn) in ids
  }

  ghost predicate AllWellFormed(ids: set<string>, deps: seq<ProposedDependency>) {
    forall dep :: dep in deps ==> DependencyWellFormed(ids, dep)
  }

  /** The dependency graph over trimmed ids drawn from the well-formed dependencies. */
  function DependencyGraph(ids: set<string>, deps: seq<ProposedDependency>): map<string, set<string>> {
    map id | id in ids :: Prerequisites(ids, deps, id)
  }

  function Prerequisites(ids: set<string>, deps: seq<ProposedDependency>, id: string): set<string> {
    set dep | dep in deps && DependencyWellFormed(ids, dep) && Trim(dep.task) == id :: Trim(dep.dependsOn)
  }

  ghost predicate WellFormed(p: PlanProposal, budget: PlannerBudgets, existing: nat) {
    var ids := TrimmedIds(p.tasks);
    var d := DependencyGraph(ids, p.dependencies);
    && 0 < |p.tasks| <= budget.maxTasksPerPlan
    && existing + |p.tasks| <= budget.maxWorkflowTasks
    && TasksWellFormed(p.tasks)
    && AllWellFormed(ids, p.dependencies)
    && ShapeWithinBudget(d, budget.maxDecompositionDepth)
  }

  /** No cycle, and no chain of more than `limit` tasks. */
  ghost predicate ShapeWithinBudget(d: map<string, set<string>>, limit: nat) {
    Acyclic(d) && forall id :: id in d ==> DepthAtMost(d, id, limit)
  }

  // ----- what is wrong with a proposal -----

  /** Faults of one task; an empty id hides the others. */
  ghost predicate TaskFault(tasks: seq<ProposedTask>, i: nat, e: PlanError)
    requires i < |tasks|
  {
    var t, id := tasks[i], Trim(tasks[i].tempId);
    match e
    case EmptyId(k) => k == i && id == ""
    case DuplicateId(x) => x == id != "" && exists j :: 0 <= j < i && Trim(tasks[j].tempId) == id
    case EmptyObjective(x) => x == id != "" && Trim(t.objective) == ""
    case NoCriteria(x) => x == id != "" && t.criteria == []
    case BlankCriterion(x) => x == id != "" && exists c :: c in t.criteria && Trim(c) == ""
    case _ => false
  }

  /** Faults of one dependency; an end that is missing does not matter when both ends are the same. */
  ghost predicate DependencyFault(ids: set<string>, dep: ProposedDependency, e: PlanError) {
    match e
    case SelfDependency(x) => x == Trim(dep.task) == Trim(dep.dependsOn)
    case MissingTask(x) => x == Trim(dep.task) != Trim(dep.dependsOn) && x !in ids
    case MissingPrerequisite(x) => x == Trim(dep.dependsOn) != Trim(dep.task) && x !in ids
    case _ => false
  }

  ghost predicate SizeFault(n: nat, budget: PlannerBudgets, existing: nat, e: PlanError) {
    match e
    case TooManyTasks(k) => k == n > budget.maxTasksPerPlan
    case WorkflowFull(k) => k == n && existing + n > budget.maxWorkflowTasks
    case _ => false
  }

  /** Faults of the graph: all tasks that are stuck, or the length of the longest chain. */
  ghost predicate ShapeFault(d: map<string, set<string>>, limit: nat, e: PlanError) {
    match e
    case CycleAmong(stuck) => !Acyclic(d) && stuck == set id | id in d && BehindCycle(d, id)
    case TooDeep(depth) => Acyclic(d) && LongestChain(d, depth) && depth > limit
    case _ => false
  }

  /** Faults of the first `n` tasks, or of the first `n` dependencies. */
  ghost predicate TasksFault(tasks: seq<ProposedTask>, n: nat, e: PlanError)
    requires n <= |tasks|
  {
    exists i: nat :: i < n && TaskFault(tasks, i, e)
  }

  ghost predicate DependenciesFault(ids: set<string>, deps: seq<ProposedDependency>, n: nat, e: PlanError)
    requires n <= |deps|
  {
    exists k: nat :: k < n && DependencyFault(ids, deps[k], e)
  }

  /** Nothing is wrong but, perhaps, the shape of the graph. */
  ghost predicate SoundButShape(p: PlanProposal, budget: PlannerBudgets, existing: nat) {
    && |p.tasks| <= budget.maxTasksPerPlan && existing + |p.tasks| <= budget.maxWorkflowTasks
    && TasksWellFormed(p.tasks) && AllWellFormed(TrimmedIds(p.tasks), p.dependencies)
  }

  /** Everything that is wrong with a proposal. The graph is looked at only when nothing else is. */
  ghost predicate Fault(p: PlanProposal, budget: PlannerBudgets, existing: nat, e: PlanError) {
    var ids := TrimmedIds(p.tasks);
    if p.tasks == [] then e == NoTasks
    else
      || SizeFault(|p.tasks|, budget, existing, e)
      || TasksFault(p.tasks, |p.tasks|, e)
      || DependenciesFault(ids, p.dependencies, |p.dependencies|, e)
      || (SoundButShape(p, budget, existing)
          && ShapeFault(DependencyGraph(ids, p.dependencies), budget.maxDecompositionDepth, e))
  }

  // ----- the checks -----

  /** The errors are exactly the faults of the first `n` tasks. */
  ghost predicate TasksReported(tasks: seq<ProposedTask>, n: nat, errors: seq<PlanError>)
    requires n <= |tasks|
  {
    forall e :: e in errors <==> TasksFault(tasks, n, e)
  }

  lemma TaskReported(tasks: seq<ProposedTask>, i: nat, errors: seq<PlanError>, found: seq<PlanError>)
    requires i < |tasks| && TasksReported(tasks, i, errors) && forall e :: e in found <==> TaskFault(tasks, i, e)
    ensures TasksReported(tasks, i + 1, errors + found)
  {
    forall e ensures e in errors + found <==> TasksFault(tasks, i + 1, e) {
      assert TasksFault(tasks, i + 1, e) <==> TasksFault(tasks, i, e) || TaskFault(tasks, i, e);
    }
  }

  /** Collects the trimmed ids and checks every task: exactly the faults of the tasks are reported, and none
      exactly when all are well formed and their ids distinct. */
  method CheckTasks(tasks: seq<ProposedTask>) returns (errors: seq<PlanError>, ids: set<string>)
    ensures ids == TrimmedIds(tasks)
    ensures errors == [] <==> TasksWellFormed(tasks)
    ensures TasksReported(tasks, |tasks|, errors)
  {
    errors, ids := [], {};
    for i := 0 to |tasks|
      invariant ids == TrimmedIds(tasks[..i])
      invariant errors == [] <==> CheckedInOrder(tasks[..i])
      invariant TasksReported(tasks, i, errors)
    {
      PrefixIds(tasks, i);
      assert tasks[..i + 1][..i] == tasks[..i];
      var found := CheckTask(tasks, i, ids);
      TaskReported(tasks, i, errors, found);
      var id := Trim(tasks[i].tempId);
      if id != "" {
        ids := ids + {id};
      }
      errors := errors + found;
    }
    assert tasks[..|tasks|] == tasks;
    CheckedMeans(tasks);
  }

  /** Checks one task against the ids of the tasks before it. */
  method CheckTask(tasks: seq<ProposedTask>, i: nat, ids: set<string>) returns (errors: seq<PlanError>)
    requires i < |tasks| && ids == TrimmedIds(tasks[..i])
    ensures errors == [] <==> TaskWellFormed(tasks[i]) && Trim(tasks[i].tempId) !in ids
    ensures forall e :: e in errors <==> TaskFault(tasks, i, e)
  {
    errors := [];
    var task := tasks[i];
    var id := Trim(task.tempId);
    if id == "" {
      return [EmptyId(i)];
    }
    PrefixIds(tasks, i);
    if id in ids {
      errors := errors + [DuplicateId(id)];
    }
    var found := CheckContent(id, task);
    errors := errors + found;
  }

  method CheckContent(id: string, task: ProposedTask) returns (errors: seq<PlanError>)
    ensures errors == [] <==> Trim(task.objective) != "" && task.criteria != [] && forall c :: c in task.criteria ==> Trim(c) != ""
    ensures forall e :: e in errors <==>
      || (e == EmptyObjective(id) && Trim(task.objective) == "")
      || (e == NoCriteria(id) && task.criteria == [])
      || (e == BlankCriterion(id) && exists c :: c in task.criteria && Trim(c) == "")
  {
    errors := if Trim(task.objective) == "" then [EmptyObjective(id)] else [];
    if task.criteria == [] {
      errors := errors + [NoCriteria(id)];
    } else {
      var found := CheckCriteria(id, task.criteria);
      errors := errors + found;
    }
  }

  method CheckCriteria(id: string, criteria: seq<string>) returns (errors: seq<PlanError>)
    ensures errors == [] <==> forall c :: c in criteria ==> Trim(c) != ""
    ensures forall e :: e in errors <==> e == BlankCriterion(id) && exists c :: c in criteria && Trim(c) == ""
  {
    errors := [];
    for k := 0 to |criteria|
      invariant errors == [] <==> forall c :: c in criteria[..k] ==> Trim(c) != ""
      invariant forall e :: e in errors ==> e == BlankCriterion(id)
    {
      assert criteria[..k + 1] == criteria[..k] + [criteria[k]];
      if Trim(criteria[k]) == "" {
        errors := errors + [BlankCriterion(id)];
      }
    }
    assert criteria[..|criteria|] == criteria;
    assert errors != [] ==> errors[0] in errors;
  }

  lemma PrefixIds(tasks: seq<ProposedTask>, i: nat)
    requires i < |tasks|
    ensures TrimmedIds(tasks[..i + 1]) == TrimmedIds(tasks[..i]) + if Trim(tasks[i].tempId) == "" then {} else {Trim(tasks[i].tempId)}
    ensures forall id :: id in TrimmedIds(tasks[..i]) <==>
      id != "" && exists j :: 0 <= j < i && Trim(tasks[j].tempId) == id
  {
    assert tasks[..i + 1] == tasks[..i] + [tasks[i]];
    forall j | 0 <= j < i && Trim(tasks[j].tempId) != "" ensures Trim(tasks[j].tempId) in TrimmedIds(tasks[..i]) {
      assert tasks[..i][j] in tasks[..i];
    }
  }

  lemma {:induction false} CheckedMeans(tasks: seq<ProposedTask>)
    ensures CheckedInOrder(tasks) <==> TasksWellFormed(tasks)
  {
    if tasks != [] {
      var n := |tasks| - 1;
      CheckedMeans(tasks[..n]);
      PrefixIds(tasks, n);
      LastTask(tasks);
    }
  }

  lemma LastTask(tasks: seq<ProposedTask>)
    requires tasks != []
    ensures var n := |tasks| - 1;
      TasksWellFormed(tasks) <==>
        && TasksWellFormed(tasks[..n]) && TaskWellFormed(tasks[n])
        && forall j :: 0 <= j < n ==> Trim(tasks[j].tempId) != Trim(tasks[n].tempId)
  {
    var n := |tasks| - 1;
    var front := tasks[..n];
    assert tasks == front + [tasks[n]];
    assert forall t :: t in tasks <==> t in front || t == tasks[n];
    assert DistinctIds(tasks) <==>
      DistinctIds(front) && forall j :: 0 <= j < n ==> Trim(tasks[j].tempId) != Trim(tasks[n].tempId) by {
      assert forall j :: 0 <= j < n ==> front[j] == tasks[j];
    }
  }

  /** Checks every dependency and builds the counters and the mirrored graph from the good ones; a
      repeated dependency counts once. */
  method CheckDependencies(deps: seq<ProposedDependency>, ids: set<string>)
    returns (errors: seq<PlanError>, inDegree: map<string, nat>, dependents: map<string, set<string>>)
    ensures errors == [] <==> AllWellFormed(ids, deps)
    ensures forall e :: e in errors <==> DependenciesFault(ids, deps, |deps|, e)
    ensures Mirrored(DependencyGraph(ids, deps), inDegree, dependents)
  {
    errors := [];
    inDegree := map id | id in ids :: 0;
    dependents := map id | id in ids :: {};
    EmptyGraph(ids, deps, inDegree, dependents);
    for k := 0 to |deps|
      invariant CheckedSoFar(ids, deps, k, errors)
      invariant Mirrored(DependencyGraph(ids, deps[..k]), inDegree, dependents)
    {
      GraphStep(ids, deps, k);
      errors := CheckOneMore(deps, k, ids, errors);
      inDegree, dependents := AddEdge(ids, deps[k], DependencyGraph(ids, deps[..k]), inDegree, dependents);
    }
    assert deps[..|deps|] == deps;
  }

  /** No error exactly when the first `k` dependencies are well formed, and exactly their faults as errors. */
  ghost predicate CheckedSoFar(ids: set<string>, deps: seq<ProposedDependency>, k: nat, errors: seq<PlanError>)
    requires k <= |deps|
  {
    (errors == [] <==> AllWellFormed(ids, deps[..k])) && forall e :: e in errors <==> DependenciesFault(ids, deps, k, e)
  }

  method CheckOneMore(deps: seq<ProposedDependency>, k: nat, ids: set<string>, errors: seq<PlanError>) returns (errors': seq<PlanError>)
    requires k < |deps| && CheckedSoFar(ids, deps, k, errors)
    ensures CheckedSoFar(ids, deps, k + 1, errors')
  {
    var found := CheckDependency(deps[k], ids);
    WellFormedStep(ids, deps, k);
    DependencyReported(ids, deps, k, errors, found);
    errors' := errors + found;
  }

  lemma DependencyReported(ids: set<string>, deps: seq<ProposedDependency>, k: nat, errors: seq<PlanError>, found: seq<PlanError>)
    requires k < |deps| && (forall e :: e in errors <==> DependenciesFault(ids, deps, k, e))
    requires forall e :: e in found <==> DependencyFault(ids, deps[k], e)
    ensures forall e :: e in errors + found <==> DependenciesFault(ids, deps, k + 1, e)
  {
    forall e ensures e in errors + found <==> DependenciesFault(ids, deps, k + 1, e) {
      assert DependenciesFault(ids, deps, k + 1, e) <==> DependenciesFault(ids, deps, k, e) || DependencyFault(ids, deps[k], e);
    }
  }

  /** The in-degree counters and the mirrored edges of a dependency graph. */
  ghost predicate Mirrored(d: map<string, set<string>>, inDegree: map<string, nat>, dependents: map<string, set<string>>) {
    Mirrors(d, dependents) && inDegree == Counts(d)
  }

  method AddEdge(ids: set<string>, dep: ProposedDependency, ghost d: map<string, set<string>>, inDegree: map<string, nat>,
                 dependents: map<string, set<string>>)
    returns (inDegree': map<string, nat>, dependents': map<string, set<string>>)
    requires d.Keys == ids && Mirrored(d, inDegree, dependents)
    ensures Mirrored(if DependencyWellFormed(ids, dep) then WithEdge(d, Trim(dep.task), Trim(dep.dependsOn)) else d, inDegree', dependents')
  {
    inDegree', dependents' := inDegree, dependents;
    var task, prerequisite := Trim(dep.task), Trim(dep.dependsOn);
    if task != prerequisite && task in ids && prerequisite in ids {
      CountEdge(d, dependents, task, prerequisite);
      if task !in dependents[prerequisite] {
        inDegree' := inDegree[task := inDegree[task] + 1];
      }
      dependents' := WithEdge(dependents, prerequisite, task);
    }
  }

  lemma CountEdge(d: map<string, set<string>>, dependents: map<string, set<string>>, task: string, prerequisite: string)
    requires Mirrors(d, dependents) && task in d && prerequisite in d
    ensures Mirrors(WithEdge(d, task, prerequisite), WithEdge(dependents, prerequisite, task))
    ensures task in Counts(d) && prerequisite in dependents
    ensures Counts(WithEdge(d, task, prerequisite))
         == if task in dependents[prerequisite] then Counts(d) else Counts(d)[task := Counts(d)[task] + 1]
  {
    MirrorWithEdge(d, dependents, task, prerequisite);
    CountsStep(d, task, prerequisite);
    assert Edge(d, task, prerequisite) <==> Edge(dependents, prerequisite, task);
  }

  method CheckDependency(dep: ProposedDependency, ids: set<string>) returns (errors: seq<PlanError>)
    ensures errors == [] <==> DependencyWellFormed(ids, dep)
    ensures forall e :: e in errors <==> DependencyFault(ids, dep, e)
  {
    var task, prerequisite := Trim(dep.task), Trim(dep.dependsOn);
    errors := [];
    if task == prerequisite {
      return [SelfDependency(task)];
    }
    if task !in ids {
      errors := errors + [MissingTask(task)];
    }
    if prerequisite !in ids {
      errors := errors + [MissingPrerequisite(prerequisite)];
    }
  }

  lemma CountsStep(d: map<string, set<string>>, a: string, b: string)
    requires a in d
    ensures Counts(WithEdge(d, a, b)) == if b in d[a] then Counts(d) else Counts(d)[a := |d[a]| + 1]
  {
    if b in d[a] {
      assert d[a] + {b} == d[a];
    } else {
      assert |d[a] + {b}| == |d[a]| + 1;
    }
  }

  lemma EmptyGraph(ids: set<string>, deps: seq<ProposedDependency>, inDegree: map<string, nat>, dependents: map<string, set<string>>)
    requires inDegree == (map id | id in ids :: 0) && dependents == map id | id in ids :: {}
    ensures Mirrored(DependencyGraph(ids, deps[..0]), inDegree, dependents) && AllWellFormed(ids, deps[..0])
  {
    forall id | id in ids ensures Prerequisites(ids, deps[..0], id) == {} {
    }
  }

  lemma WellFormedStep(ids: set<string>, deps: seq<ProposedDependency>, k: nat)
    requires k < |deps|
    ensures AllWellFormed(ids, deps[..k + 1]) <==> AllWellFormed(ids, deps[..k]) && DependencyWellFormed(ids, deps[k])
  {
    assert deps[..k + 1] == deps[..k] + [deps[k]];
    assert forall dep :: dep in deps[..k + 1] <==> dep in deps[..k] || dep == deps[k];
  }

  lemma GraphStep(ids: set<string>, deps: seq<ProposedDependency>, k: nat)
    requires k < |deps|
    ensures DependencyGraph(ids, deps[..k + 1]) ==
      if DependencyWellFormed(ids, deps[k])
      then WithEdge(DependencyGraph(ids, deps[..k]), Trim(deps[k].task), Trim(deps[k].dependsOn))
      else DependencyGraph(ids, deps[..k])
  {
    var d, e := DependencyGraph(ids, deps[..k]), DependencyGraph(ids, deps[..k + 1]);
    assert deps[..k + 1] == deps[..k] + [deps[k]];
    forall id | id in ids
      ensures e[id] == d[id] + if DependencyWellFormed(ids, deps[k]) && Trim(deps[k].task) == id then {Trim(deps[k].dependsOn)} else {}
    {
      PrerequisitesStep(ids, deps[..k], deps[k], id);
    }
    GrowsByOne(d, e, DependencyWellFormed(ids, deps[k]), Trim(deps[k].task), Trim(deps[k].dependsOn));
  }

  lemma GrowsByOne<T(!new)>(d: map<T, set<T>>, e: map<T, set<T>>, grows: bool, a: T, b: T)
    requires d.Keys == e.Keys && (grows ==> a in d)
    requires forall x :: x in d ==> e[x] == d[x] + if grows && x == a then {b} else {}
    ensures e == if grows then WithEdge(d, a, b) else d
  {
    var f := if grows then WithEdge(d, a, b) else d;
    forall x | x in d ensures e[x] == f[x] {
    }
    assert e == f;
  }

  lemma PrerequisitesStep(ids: set<string>, deps: seq<ProposedDependency>, dep: ProposedDependency, id: string)
    ensures Prerequisites(ids, deps + [dep], id) == Prerequisites(ids, deps, id) +
      if DependencyWellFormed(ids, dep) && Trim(dep.task) == id then {Trim(dep.dependsOn)} else {}
  {
    assert forall x :: x in deps + [dep] <==> x in deps || x == dep;
  }

  // ----- the whole validation -----

  /** What a valid proposal can be used for: it has tasks, not too many, each with an id, an objective and at least one
      acceptance criterion, all with text; and no task is to wait for itself. */
  ghost predicate Usable(p: PlanProposal, budget: PlannerBudgets, existing: nat) {
    && 1 <= |p.tasks| <= budget.maxTasksPerPlan && |p.tasks| <= budget.maxWorkflowTasks - existing
    && (forall t :: t in p.tasks ==> HasText(t.tempId) && HasText(t.objective) && t.criteria != [])
    && (forall t, c :: t in p.tasks && c in t.criteria ==> HasText(c))
    && (forall dep :: dep in p.dependencies ==> Trim(dep.task) != Trim(dep.dependsOn))
  }

  lemma WellFormedIsUsable(p: PlanProposal, budget: PlannerBudgets, existing: nat)
    ensures WellFormed(p, budget, existing) ==> Usable(p, budget, existing)
  {
    TextIsTrimmed();
  }

  /** Reports a proposal valid exactly when it is well formed, and reports exactly what is wrong with it. */
  method ValidateWithBudget(p: PlanProposal, budget: PlannerBudgets, existing: nat)
    returns (report: PlanValidationReport)
    ensures report.isValid <==> WellFormed(p, budget, existing)
    ensures report.isValid <==> report.errors == []
    ensures forall e :: e in report.errors <==> Fault(p, budget, existing, e)
    ensures report.isValid ==> Usable(p, budget, existing)
  {
    WellFormedIsUsable(p, budget, existing);
    if p.tasks == [] {
      return PlanValidationReport(false, [NoTasks]);
    }
    var sizeErrors := CheckSize(|p.tasks|, budget, existing);
    var taskErrors, ids := CheckTasks(p.tasks);
    var dependencyErrors, inDegree, dependents := CheckDependencies(p.dependencies, ids);
    var errors := sizeErrors + taskErrors + dependencyErrors;
    if errors == [] {
      errors := CheckGraph(p, budget, ids, inDegree, dependents);
      OnlyShapeLeft(p, budget, existing, sizeErrors, taskErrors, dependencyErrors);
    } else {
      ShapeNotReached(p, budget, existing, sizeErrors, taskErrors, dependencyErrors);
    }
    report := PlanValidationReport(errors == [], errors);
  }

  method CheckSize(n: nat, budget: PlannerBudgets, existing: nat) returns (errors: seq<PlanError>)
    ensures errors == [] <==> n <= budget.maxTasksPerPlan && existing + n <= budget.maxWorkflowTasks
    ensures forall e :: e in errors <==> SizeFault(n, budget, existing, e)
  {
    errors := [];
    if n > budget.maxTasksPerPlan {
      errors := errors + [TooManyTasks(n)];
    }
    if existing + n > budget.maxWorkflowTasks {
      errors := errors + [WorkflowFull(n)];
    }
  }

  /** What the three checks before the graph have reported. */
  ghost predicate Checked(p: PlanProposal, budget: PlannerBudgets, existing: nat, sizeErrors: seq<PlanError>,
                          taskErrors: seq<PlanError>, dependencyErrors: seq<PlanError>) {
    && (forall e :: e in sizeErrors <==> SizeFault(|p.tasks|, budget, existing, e))
    && TasksReported(p.tasks, |p.tasks|, taskErrors)
    && (forall e :: e in dependencyErrors <==> DependenciesFault(TrimmedIds(p.tasks), p.dependencies, |p.dependencies|, e))
    && (sizeErrors + taskErrors + dependencyErrors == [] <==> SoundButShape(p, budget, existing))
  }

  lemma OnlyShapeLeft(p: PlanProposal, budget: PlannerBudgets, existing: nat, sizeErrors: seq<PlanError>,
                      taskErrors: seq<PlanError>, dependencyErrors: seq<PlanError>)
    requires p.tasks != [] && Checked(p, budget, existing, sizeErrors, taskErrors, dependencyErrors)
    requires sizeErrors == taskErrors == dependencyErrors == []
    ensures forall e :: Fault(p, budget, existing, e) <==>
      ShapeFault(DependencyGraph(TrimmedIds(p.tasks), p.dependencies), budget.maxDecompositionDepth, e)
  {
    forall e ensures !SizeFault(|p.tasks|, budget, existing, e) && !TasksFault(p.tasks, |p.tasks|, e)
                  && !DependenciesFault(TrimmedIds(p.tasks), p.dependencies, |p.dependencies|, e) {
      assert e !in sizeErrors && e !in taskErrors && e !in dependencyErrors;
    }
  }

  lemma ShapeNotReached(p: PlanProposal, budget: PlannerBudgets, existing: nat, sizeErrors: seq<PlanError>,
                        taskErrors: seq<PlanError>, dependencyErrors: seq<PlanError>)
    requires p.tasks != [] && Checked(p, budget, existing, sizeErrors, taskErrors, dependencyErrors)
    requires sizeErrors + taskErrors + dependencyErrors != []
    ensures forall e :: e in sizeErrors + taskErrors + dependencyErrors <==> Fault(p, budget, existing, e)
  {
  }

  /** The last check, made when nothing else failed: no cycle and no chain beyond the budget. */
  method CheckGraph(p: PlanProposal, budget: PlannerBudgets, ids: set<string>, inDegree: map<string, nat>,
                    dependents: map<string, set<string>>)
    returns (errors: seq<PlanError>)
    requires p.tasks != [] && ids == TrimmedIds(p.tasks) && TasksWellFormed(p.tasks)
    requires Mirrored(DependencyGraph(ids, p.dependencies), inDegree, dependents)
    ensures errors == [] <==> ShapeWithinBudget(DependencyGraph(ids, p.dependencies), budget.maxDecompositionDepth)
    ensures forall e :: e in errors <==> ShapeFault(DependencyGraph(ids, p.dependencies), budget.maxDecompositionDepth, e)
  {
    SomeId(p.tasks);
    errors := ReportShape(DependencyGraph(ids, p.dependencies), budget.maxDecompositionDepth, ids, inDegree, dependents);
  }

  method ReportShape(ghost d: map<string, set<string>>, limit: nat, ids: set<string>, inDegree: map<string, nat>,
                    dependents: map<string, set<string>>)
    returns (errors: seq<PlanError>)
    requires d.Keys == ids && ids != {} && Mirrored(d, inDegree, dependents)
    ensures errors == [] <==> ShapeWithinBudget(d, limit)
    ensures forall e :: e in errors <==> ShapeFault(d, limit, e)
  {
    var verdict := CheckShape(d, limit, ids, inDegree, dependents);
    VerdictHolds(d, limit, verdict);
    errors := if verdict.Some? then [verdict.value] else [];
  }

  lemma SomeId(tasks: seq<ProposedTask>)
    requires tasks != [] && TasksWellFormed(tasks)
    ensures TrimmedIds(tasks) != {}
  {
    assert TaskWellFormed(tasks[0]) && Trim(tasks[0].tempId) in TrimmedIds(tasks);
  }

  method CheckShape(ghost d: map<string, set<string>>, limit: nat, ids: set<string>, inDegree: map<string, nat>,
                    dependents: map<string, set<string>>) returns (verdict: Option<PlanError>)
    requires d.Keys == ids && ids != {} && Mirrored(d, inDegree, dependents)
    ensures ShapeVerdict(d, limit, verdict)
  {
    var visitedCount, maxDepth, remaining := MeasureDepth(d, inDegree, dependents);
    if visitedCount != |ids| {
      var stuck := set id | id in remaining && remaining[id] > 0;
      verdict := Some(CycleAmong(stuck));
    } else if maxDepth > limit {
      verdict := Some(TooDeep(maxDepth));
    } else {
      verdict := None;
    }
  }

  /** No verdict when the longest chain is within the limit; otherwise the cycle or the depth. */
  ghost predicate ShapeVerdict(d: map<string, set<string>>, limit: nat, verdict: Option<PlanError>) {
    match verdict
    case None => Acyclic(d) && exists depth :: LongestChain(d, depth) && depth <= limit
    case Some(CycleAmong(stuck)) => !Acyclic(d) && stuck == set id | id in d && BehindCycle(d, id)
    case Some(TooDeep(depth)) => Acyclic(d) && LongestChain(d, depth) && depth > limit
    case Some(_) => false
  }

  lemma VerdictHolds(d: map<string, set<string>>, limit: nat, verdict: Option<PlanError>)
    requires ShapeVerdict(d, limit, verdict)
    ensures forall e :: verdict == Some(e) <==> ShapeFault(d, limit, e)
    ensures verdict == None <==> ShapeWithinBudget(d, limit)
  {
    forall e ensures verdict == Some(e) <==> ShapeFault(d, limit, e) {
      if e.TooDeep? && ShapeFault(d, limit, e) {
        OneDepth(d, limit, verdict, e.depth);
      }
    }
    if verdict == None {
      var depth :| LongestChain(d, depth) && depth <= limit;
      WithinBudget(d, depth, limit);
    } else if verdict.value.TooDeep? {
      WithinBudget(d, verdict.value.depth, limit);
    }
  }

  lemma OneDepth(d: map<string, set<string>>, limit: nat, verdict: Option<PlanError>, depth: nat)
    requires ShapeVerdict(d, limit, verdict) && Acyclic(d) && LongestChain(d, depth) && depth > limit
    ensures verdict == Some(TooDeep(depth))
  {
    if verdict == None {
      var k :| LongestChain(d, k) && k <= limit;
      LongestChainUnique(d, k, depth);
    } else {
      LongestChainUnique(d, verdict.value.depth, depth);
    }
  }

  lemma WithinBudget(d: map<string, set<string>>, longest: int, limit: int)
    requires LongestChain(d, longest)
    ensures longest <= limit <==> forall id :: id in d ==> DepthAtMost(d, id, limit)
  {
    var t :| t in d && HasChain(d, t, longest);
    var p :| Chain(d, t, p) && |p| == longest;
    if longest <= limit {
      forall id | id in d ensures DepthAtMost(d, id, limit) {
        assert DepthAtMost(d, id, longest);
      }
    }
  }
}
