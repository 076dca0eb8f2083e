/**
 Loading and running together: what the dependency graph means for a run.
 */
module Container {
  import opened ServiceGraph
  import L = Loader
  import opened Kernel
  import opened Protocol
  import opened Runs
  import Supervisor

  /** No service twice, and every dependency before its dependent unless it reaches it in turn. */
  ghost predicate PostOrder(cat: Catalog, order: seq<string>) {
    && Distinct(order)
    && forall s, d :: s in order && Edge(cat, s, d) ==> Before(order, d, s) || Reaches(cat, d, s)
  }

  /** The configuration of a loaded service: its settings, and whether it is a group. */
  function Configured(cat: Catalog, settings: string -> Config, name: string): Config {
    settings(name).(isGroup := cat(name).Loadable? && cat(name).isGroup)
  }

  /**
   The plan is that of the walk: index i is the i-th service loaded, with its settings, and position k of
   the start order holds the index of the service that the walk lists k-th.
   */
  ghost predicate PlanOf(cat: Catalog, settings: string -> Config, w: Walk, gracetime: nat, plan: Plan) {
    && w.Walked? && plan.Valid() && PostOrder(cat, w.post) && plan.gracetime == gracetime
    && |plan.cfg| == |w.loaded| && (forall i :: 0 <= i < |w.loaded| ==> plan.cfg[i] == Configured(cat, settings, w.loaded[i]))
    && |plan.order| == |w.post| && (forall k :: 0 <= k < |w.post| ==> w.loaded[plan.order[k]] == w.post[k])
  }

  lemma LoadedInPostOrder(cat: Catalog, roots: seq<string>)
    requires VisitAll(cat, roots, []).Walked?
    ensures PostOrder(cat, VisitAll(cat, roots, []).post)
  {
    OrderIsTheReachablePart(cat, roots);
    OrderIsDepthFirstPostOrder(cat, roots);
  }

  lemma DependencyComesFirst(cat: Catalog, order: seq<string>, j: nat, d: string) returns (i: nat)
    requires PostOrder(cat, order) && j < |order| && Edge(cat, order[j], d) && !Reaches(cat, d, order[j])
    ensures i < j && order[i] == d
  {
    var x, y :| 0 <= x < y < |order| && order[x] == d && order[y] == order[j];
    i := x;
  }

  /**
   When the start-up pass starts a service, each of its dependencies that does not depend on it in turn
   is a group, or became ready, or was sync and exited with 0, or has an interval, or may fail, as its
   settings say.
   */
  lemma DependenciesPassFirst(cat: Catalog, settings: string -> Config, w: Walk, gracetime: nat, plan: Plan, t: Trace,
                              j: nat, d: string, pid: int, time: nat)
      returns (i: nat)
    requires PlanOf(cat, settings, w, gracetime, plan) && j < |w.post| && Edge(cat, w.post[j], d) && !Reaches(cat, d, w.post[j])
    ensures i < j && w.post[i] == d && plan.cfg[plan.order[i]] == Configured(cat, settings, d)
    ensures Legal(plan, Then(t, Forked(plan.order[j], pid, time, StartUp(j)))) ==> Passed(plan, t, plan.order[i])
  {
    i := DependencyComesFirst(cat, w.post, j, d);
    if Legal(plan, Then(t, Forked(plan.order[j], pid, time, StartUp(j)))) {
      StartUpBarrier(plan, t, plan.order[j], pid, time, j, i);
    }
  }

  /**
   When the shutdown stops a service, every service that depends on it (and on which it does not depend
   in turn) is a group, or no longer live, or was told to stop before.
   */
  lemma DependentsStopFirst(cat: Catalog, settings: string -> Config, w: Walk, gracetime: nat, plan: Plan, t: Trace, j: nat, d: string)
      returns (i: nat)
    requires PlanOf(cat, settings, w, gracetime, plan) && j < |w.post| && Edge(cat, w.post[j], d) && !Reaches(cat, d, w.post[j])
    ensures i < j && w.post[i] == d
    ensures Legal(plan, Then(t, StopAsked(plan.order[i], i))) ==>
              var x := plan.order[j];
              Configured(cat, settings, w.post[j]).isGroup || Replay(plan, t).svcs[x].pid == 0 || Told(plan, t, x)
  {
    i := DependencyComesFirst(cat, w.post, j, d);
    if Legal(plan, Then(t, StopAsked(plan.order[i], i))) {
      LaterOnesAreAskedFirst(plan, t, plan.order[i], i, j);
    }
  }

  /** The plan that the loaded tables amount to. */
  method ReadPlan(table: L.ServiceTable, settings: string -> Config, gracetime: nat) returns (plan: Plan)
    requires table.Valid()
    ensures plan.Valid() && plan.gracetime == gracetime && |plan.cfg| == |table.loaded| && |plan.order| == |table.order|
    ensures forall i :: 0 <= i < |plan.cfg| ==>
              plan.cfg[i] == Configured(table.cat, settings, table.loaded[i])
    ensures forall k :: 0 <= k < |plan.order| ==> table.loaded[plan.order[k]] == table.order[k]
  {
    var cfg, order: seq<int> := [], [];
    while |cfg| < MAX_NUM_SERVICES && table.services[|cfg|].name != ""
      invariant |cfg| <= |table.loaded|
      invariant forall i :: 0 <= i < |cfg| ==>
                  cfg[i] == Configured(table.cat, settings, table.loaded[i])
      decreases MAX_NUM_SERVICES - |cfg|
    {
      var slot := table.services[|cfg|];
      cfg := cfg + [settings(slot.name).(isGroup := slot.isGroup)];
    }
    while |order| < MAX_NUM_SERVICES && table.startOrder[|order|] >= 0
      invariant |order| <= |table.order|
      invariant forall k :: 0 <= k < |order| ==> order[k] == table.startOrder[k]
      decreases MAX_NUM_SERVICES - |order|
    {
      order := order + [table.startOrder[|order|]];
    }
    plan := Plan(cfg, order, gracetime);
    forall i, j | 0 <= i < j < |order| ensures order[i] != order[j] {
      assert table.loaded[order[i]] == table.order[i] && table.loaded[order[j]] == table.order[j];
    }
  }

  /** Some service was started on the way to t. */
  ghost predicate SomethingStarted(t: Trace) {
    exists q, s, pid, time: nat, cause :: Prefix(Then(q, Forked(s, pid, time, cause)), t)
  }

  lemma NothingStarted(plan: Plan, t: Trace)
    requires plan.Valid() && Legal(plan, t) && Replay(plan, t).forks == []
    ensures !SomethingStarted(t)
  {
    if q, s, pid, time: nat, cause :| Prefix(Then(q, Forked(s, pid, time, cause)), t) {
      ForksAreCounted(plan, t, q, s, pid, time, cause);
    }
  }

  /** The end of a run is explained: nothing else makes it end, and start-up throws for no other reason. */
  ghost predicate Explained(cat: Catalog, roots: seq<string>, plan: Plan, t: Trace, signaled: bool, idle: bool, tried: seq<(int, Cause)>)
    requires plan.Valid()
  {
    var w := Replay(plan, t);
    && (signaled || w.decided || w.threw || (idle && Supervisor.StartUps(plan, |plan.order|) <= tried))
    && if !CanLoad(cat, roots) then w.threw && tried == []
       else Supervisor.PassWentOn(plan, tried, w.threw, signaled || w.decided)
  }

  /**
   A whole run of the program, from loading to the exit status. For every service directory, every
   configuration and every behaviour of the system it produces a legal trace of the plan that the walk and
   the settings amount to. When loading throws, nothing is started and the status is 1; otherwise the
   start-up pass is begun. It exits only when no child is left. The starts attempted are those in tried.
   */
  method Boot(cat: Catalog, settings: string -> Config, roots: seq<string>, script: seq<Answer>, gracetime: nat)
      returns (r: Outcome<int>, k: System, plan: Plan, ghost t: Trace, ghost tried: seq<(int, Cause)>, ghost idle: bool)
    requires gracetime < UINT_SIZE
    ensures plan.Valid() && Legal(plan, t) && !r.Thrown?
    ensures CanLoad(cat, roots) <==> VisitAll(cat, roots, []).Walked?
    ensures CanLoad(cat, roots) ==> PlanOf(cat, settings, VisitAll(cat, roots, []), gracetime, plan)
    ensures !CanLoad(cat, roots) ==> !SomethingStarted(t) && (r.Done? ==> r.value == 1)
    ensures r.Done? ==> k.children == {} && t.Then? && t.last == Finished(r.value) && r.value == FinalStatus(Replay(plan, t))
    ensures r.Done? ==> Explained(cat, roots, plan, t, k.signaled, idle, tried)
  {
    hide CanLoad, VisitAll, Legal, Replay, PostOrder, Supervisor.PassWentOn;
    var table := new L.ServiceTable(cat);
    var loaded := table.LoadRoots(roots);
    LoadsExactlyWhen(cat, roots);
    plan := ReadPlan(table, settings, gracetime);
    if loaded.Ok? { LoadedInPostOrder(cat, roots); }
    k := new System(script);
    var init := new Supervisor.Init(plan, k);
    r := init.Run(loaded.Err?);
    t, tried, idle := init.trace, init.tried, init.idle;
    if loaded.Err? { NothingStarted(plan, t); }
  }
}
