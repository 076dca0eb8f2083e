/**
 The dependency graph that the service loader walks, and the reference order it should produce.

 A catalog says what the services root holds under every name. The list deps is the sequence of
 '.dep' entries whose state the loader found to be true, in directory order: each service is loaded
 at most once in a run, so in one run that list is a function of the name.
 */
module ServiceGraph {

  const MAX_NUM_SERVICES: nat := 64
  const NAME_SIZE: nat := 256

  datatype ServiceDef =
    | Absent                      // the service directory cannot be entered
    | Invalid                     // a setting of the service is refused
    | Loadable(disabled: bool, isGroup: bool, deps: seq<string>, depsFail: bool)

  type Catalog = string -> ServiceDef

  datatype LoadError = EmptyName | NameTooLong | NotFound | TableFull | BadSetting | DepsUnreadable

  predicate Enabled(cat: Catalog, name: string) {
    cat(name).Loadable? && !cat(name).disabled
  }

  /** The loader follows the edge from s to d, and both take part in the start order. */
  predicate Edge(cat: Catalog, s: string, d: string) {
    Enabled(cat, s) && d in cat(s).deps && Enabled(cat, d)
  }

  ghost predicate IsPath(cat: Catalog, p: seq<string>) {
    |p| > 0 && Enabled(cat, p[0]) && forall i :: 0 <= i < |p| - 1 ==> Edge(cat, p[i], p[i + 1])
  }

  ghost predicate Reaches(cat: Catalog, a: string, b: string) {
    exists p :: IsPath(cat, p) && p[0] == a && p[|p| - 1] == b
  }

  lemma ReachesSelf(cat: Catalog, a: string)
    requires Enabled(cat, a)
    ensures Reaches(cat, a, a)
  {
    assert IsPath(cat, [a]);
  }

  lemma ReachesStep(cat: Catalog, a: string, b: string, c: string)
    requires Reaches(cat, a, b) && Edge(cat, b, c)
    ensures Reaches(cat, a, c)
  {
    var p :| IsPath(cat, p) && p[0] == a && p[|p| - 1] == b;
    assert IsPath(cat, p + [c]);
  }

  lemma EdgeReaches(cat: Catalog, a: string, b: string, c: string)
    requires Edge(cat, a, b) && Reaches(cat, b, c)
    ensures Reaches(cat, a, c)
  {
    var p :| IsPath(cat, p) && p[0] == b && p[|p| - 1] == c;
    assert IsPath(cat, [a] + p);
  }

  /** There is no way round: no edge leads to a service that reaches back to where it starts. */
  ghost predicate Acyclic(cat: Catalog) {
    forall s, d :: Edge(cat, s, d) ==> !Reaches(cat, d, s)
  }

  ghost predicate Distinct<T(!new)>(xs: seq<T>) {
    forall i, j :: 0 <= i < j < |xs| ==> xs[i] != xs[j]
  }

  /** Every occurrence question is about duplicate-free sequences: d occurs to the left of s. */
  ghost predicate Before(xs: seq<string>, d: string, s: string) {
    exists i, j :: 0 <= i < j < |xs| && xs[i] == d && xs[j] == s
  }

  lemma BeforeExtends(xs: seq<string>, ys: seq<string>, d: string, s: string)
    requires Before(xs, d, s)
    ensures Before(xs + ys, d, s)
  {
    var i, j :| 0 <= i < j < |xs| && xs[i] == d && xs[j] == s;
    assert (xs + ys)[i] == d && (xs + ys)[j] == s;
  }

  // ---------------------------------------------------------------------------------------------
  // The reference: a depth-first walk that lists a service after everything it pulled in
  // ---------------------------------------------------------------------------------------------

  datatype Walk = Walked(loaded: seq<string>, post: seq<string>) | Failed(error: LoadError)

  function Visit(cat: Catalog, name: string, loaded: seq<string>): (w: Walk)
    requires |loaded| <= MAX_NUM_SERVICES
    ensures w.Walked? ==> loaded <= w.loaded && |w.loaded| <= MAX_NUM_SERVICES
    decreases MAX_NUM_SERVICES - |loaded|, 0
  {
    if name == "" then Failed(EmptyName)
    else if name in loaded then Walked(loaded, [])
    else if |name| >= NAME_SIZE then Failed(NameTooLong)
    else if cat(name).Absent? then Failed(NotFound)
    else if |loaded| == MAX_NUM_SERVICES then Failed(TableFull)
    else if cat(name).Invalid? then Failed(BadSetting)
    else if cat(name).disabled then Walked(loaded + [name], [])
    else
      var w := VisitAll(cat, cat(name).deps, loaded + [name]);
      if w.Failed? then w
      else if cat(name).depsFail then Failed(DepsUnreadable)
      else Walked(w.loaded, w.post + [name])
  }

  function VisitAll(cat: Catalog, names: seq<string>, loaded: seq<string>): (w: Walk)
    requires |loaded| <= MAX_NUM_SERVICES
    ensures w.Walked? ==> loaded <= w.loaded && |w.loaded| <= MAX_NUM_SERVICES
    decreases MAX_NUM_SERVICES - |loaded|, |names|
  {
    if names == [] then Walked(loaded, [])
    else
      var w := Visit(cat, names[0], loaded);
      if w.Failed? then w
      else
        var rest := VisitAll(cat, names[1..], w.loaded);
        if rest.Failed? then rest else Walked(rest.loaded, w.post + rest.post)
  }

  // ---------------------------------------------------------------------------------------------
  // What a walk lists
  // ---------------------------------------------------------------------------------------------

  /** The walk w started from loaded listed exactly the enabled names it loaded, each once. */
  ghost predicate ListsTheNew(cat: Catalog, loaded: seq<string>, w: Walk)
    requires w.Walked?
  {
    && Distinct(w.loaded) && Distinct(w.post)
    && (forall n :: n in w.post <==> n in w.loaded && n !in loaded && Enabled(cat, n))
  }

  lemma {:induction false} VisitLists(cat: Catalog, name: string, loaded: seq<string>)
    requires |loaded| <= MAX_NUM_SERVICES && Distinct(loaded) && Visit(cat, name, loaded).Walked?
    ensures ListsTheNew(cat, loaded, Visit(cat, name, loaded))
    ensures name in Visit(cat, name, loaded).loaded
    decreases MAX_NUM_SERVICES - |loaded|, 0
  {
    if name !in loaded && !cat(name).disabled {
      VisitAllLists(cat, cat(name).deps, loaded + [name]);
      assert name in loaded + [name];
      var w := VisitAll(cat, cat(name).deps, loaded + [name]);
      assert name in w.loaded by { assert w.loaded[|loaded|] == name; }
    }
  }

  lemma {:induction false} VisitAllLists(cat: Catalog, names: seq<string>, loaded: seq<string>)
    requires |loaded| <= MAX_NUM_SERVICES && Distinct(loaded) && VisitAll(cat, names, loaded).Walked?
    ensures ListsTheNew(cat, loaded, VisitAll(cat, names, loaded))
    ensures forall n :: n in names ==> n in VisitAll(cat, names, loaded).loaded
    decreases MAX_NUM_SERVICES - |loaded|, |names|
  {
    if names != [] {
      var w := Visit(cat, names[0], loaded);
      VisitLists(cat, names[0], loaded);
      VisitAllLists(cat, names[1..], w.loaded);
      var all, rest := VisitAll(cat, names, loaded), VisitAll(cat, names[1..], w.loaded);
      forall i, j | 0 <= i < j < |all.post| ensures all.post[i] != all.post[j] {
        if i < |w.post| <= j {
          assert all.post[i] in w.post && all.post[j] in rest.post;
        }
      }
      forall n | n in names ensures n in all.loaded {
        if n != names[0] { assert n in names[1..]; }
      }
    }
  }

  /** Whatever a walk lists is reached from where it started. */
  lemma {:induction false} VisitReached(cat: Catalog, name: string, loaded: seq<string>, n: string)
    requires |loaded| <= MAX_NUM_SERVICES && Distinct(loaded) && Visit(cat, name, loaded).Walked?
    requires n in Visit(cat, name, loaded).post
    ensures Reaches(cat, name, n)
    decreases MAX_NUM_SERVICES - |loaded|, 0
  {
    if n == name {
      ReachesSelf(cat, name);
    } else {
      var d := VisitAllReached(cat, cat(name).deps, loaded + [name], n);
      EdgeReaches(cat, name, d, n);
    }
  }

  lemma {:induction false} VisitAllReached(cat: Catalog, names: seq<string>, loaded: seq<string>, n: string)
      returns (d: string)
    requires |loaded| <= MAX_NUM_SERVICES && Distinct(loaded) && VisitAll(cat, names, loaded).Walked?
    requires n in VisitAll(cat, names, loaded).post
    ensures d in names && Enabled(cat, d) && Reaches(cat, d, n)
    decreases MAX_NUM_SERVICES - |loaded|, |names|
  {
    var w := Visit(cat, names[0], loaded);
    VisitLists(cat, names[0], loaded);
    if n in w.post {
      VisitReached(cat, names[0], loaded, n);
      d := names[0];
    } else {
      d := VisitAllReached(cat, names[1..], w.loaded, n);
    }
  }

  // ---------------------------------------------------------------------------------------------
  // The order of the list
  // ---------------------------------------------------------------------------------------------

  /**
   The walk so far: done lists the finished services, open holds those whose dependencies are still
   being walked. Together they are the enabled services loaded so far.
   */
  ghost predicate Frontier(cat: Catalog, loaded: seq<string>, done: seq<string>, open: set<string>) {
    && |loaded| <= MAX_NUM_SERVICES && Distinct(loaded)
    && (forall n :: n in loaded && Enabled(cat, n) ==> n in done || n in open)
  }

  /** The edge from s to d is respected by the list, or the two lie on a cycle. */
  ghost predicate Respected(cat: Catalog, order: seq<string>, s: string, d: string) {
    Before(order, d, s) || Reaches(cat, d, s)
  }

  lemma {:induction false} VisitOrders(cat: Catalog, name: string, loaded: seq<string>, done: seq<string>, open: set<string>)
    requires Frontier(cat, loaded, done, open) && Visit(cat, name, loaded).Walked?
    requires Enabled(cat, name) ==> forall g :: g in open ==> Reaches(cat, g, name)
    ensures var w := Visit(cat, name, loaded);
            && Frontier(cat, w.loaded, done + w.post, open)
            && forall s, d :: s in w.post && Edge(cat, s, d) ==> Respected(cat, done + w.post, s, d)
    decreases MAX_NUM_SERVICES - |loaded|, 0
  {
    VisitLists(cat, name, loaded);
    if name !in loaded && !cat(name).disabled {
      var deps, loaded', open' := cat(name).deps, loaded + [name], open + {name};
      forall g, n | g in open' && n in deps && Enabled(cat, n) ensures Reaches(cat, g, n) {
        ReachesSelf(cat, name);
        ReachesStep(cat, g, name, n);
      }
      VisitAllOrders(cat, deps, loaded', done, open');
      VisitAllLists(cat, deps, loaded');
      var w := VisitAll(cat, deps, loaded');
      var order := done + w.post + [name];
      assert done + (w.post + [name]) == order;
      forall s, d | s in w.post + [name] && Edge(cat, s, d) ensures Respected(cat, order, s, d) {
        if s in w.post {
          if Before(done + w.post, d, s) { BeforeExtends(done + w.post, [name], d, s); }
        } else {
          assert s == name && d in w.loaded;
          if d in done + w.post {
            var i :| 0 <= i < |done + w.post| && (done + w.post)[i] == d;
            assert order[i] == d && order[|order| - 1] == name;
          } else {
            ReachesSelf(cat, name);
          }
        }
      }
      forall n | n in w.loaded && Enabled(cat, n) ensures n in order || n in open {
        assert order[|order| - 1] == name;
        assert n in done + w.post ==> n in order;
      }
    } else {
      assert done + [] == done;
    }
  }

  lemma {:induction false} VisitAllOrders(cat: Catalog, names: seq<string>, loaded: seq<string>, done: seq<string>, open: set<string>)
    requires Frontier(cat, loaded, done, open) && VisitAll(cat, names, loaded).Walked?
    requires forall g, n :: g in open && n in names && Enabled(cat, n) ==> Reaches(cat, g, n)
    ensures var w := VisitAll(cat, names, loaded);
            && Frontier(cat, w.loaded, done + w.post, open)
            && forall s, d :: s in w.post && Edge(cat, s, d) ==> Respected(cat, done + w.post, s, d)
    decreases MAX_NUM_SERVICES - |loaded|, |names|
  {
    if names == [] {
      assert done + [] == done;
    } else {
      var w := Visit(cat, names[0], loaded);
      VisitOrders(cat, names[0], loaded, done, open);
      assert forall n :: n in names[1..] ==> n in names;
      VisitAllOrders(cat, names[1..], w.loaded, done + w.post, open);
      var rest := VisitAll(cat, names[1..], w.loaded);
      assert done + w.post + rest.post == done + (w.post + rest.post);
      forall s, d | s in w.post + rest.post && Edge(cat, s, d)
        ensures Respected(cat, done + (w.post + rest.post), s, d)
      {
        if s in w.post && Before(done + w.post, d, s) { BeforeExtends(done + w.post, rest.post, d, s); }
      }
    }
  }

  // ---------------------------------------------------------------------------------------------
  // The finished order
  // ---------------------------------------------------------------------------------------------

  /**
   A walk that does not fail lists exactly the enabled services reachable through enabled services
   from an enabled root, each once.
   */
  lemma {:induction false} OrderIsTheReachablePart(cat: Catalog, roots: seq<string>)
    requires VisitAll(cat, roots, []).Walked?
    ensures var order := VisitAll(cat, roots, []).post;
            && Distinct(order)
            && forall n :: n in order <==> exists r :: r in roots && Reaches(cat, r, n)
  {
    var w := VisitAll(cat, roots, []);
    VisitAllLists(cat, roots, []);
    VisitAllClosed(cat, roots, []);
    forall n ensures n in w.post <==> exists r :: r in roots && Reaches(cat, r, n) {
      if n in w.post {
        var r := VisitAllReached(cat, roots, [], n);
      }
      if r :| r in roots && Reaches(cat, r, n) {
        var p :| IsPath(cat, p) && p[0] == r && p[|p| - 1] == n;
        ClosedUnderPaths(cat, w.post, p, |p| - 1);
      }
    }
  }

  ghost predicate Closed(cat: Catalog, order: seq<string>, loaded: seq<string>) {
    forall s, d :: s in order && Edge(cat, s, d) ==> d in loaded
  }

  lemma {:induction false} VisitClosed(cat: Catalog, name: string, loaded: seq<string>)
    requires |loaded| <= MAX_NUM_SERVICES && Distinct(loaded) && Visit(cat, name, loaded).Walked?
    ensures Closed(cat, Visit(cat, name, loaded).post, Visit(cat, name, loaded).loaded)
    decreases MAX_NUM_SERVICES - |loaded|, 0
  {
    if name !in loaded && !cat(name).disabled {
      VisitAllClosed(cat, cat(name).deps, loaded + [name]);
      VisitAllLists(cat, cat(name).deps, loaded + [name]);
    }
  }

  lemma {:induction false} VisitAllClosed(cat: Catalog, names: seq<string>, loaded: seq<string>)
    requires |loaded| <= MAX_NUM_SERVICES && Distinct(loaded) && VisitAll(cat, names, loaded).Walked?
    ensures Closed(cat, VisitAll(cat, names, loaded).post, VisitAll(cat, names, loaded).loaded)
    decreases MAX_NUM_SERVICES - |loaded|, |names|
  {
    if names != [] {
      var w := Visit(cat, names[0], loaded);
      VisitLists(cat, names[0], loaded);
      VisitClosed(cat, names[0], loaded);
      VisitAllClosed(cat, names[1..], w.loaded);
    }
  }

  lemma {:induction false} ClosedUnderPaths(cat: Catalog, order: seq<string>, p: seq<string>, k: nat)
    requires IsPath(cat, p) && k < |p| && p[0] in order
    requires forall s, d :: s in order && Edge(cat, s, d) ==> d in order
    ensures p[k] in order
  {
    if k > 0 { ClosedUnderPaths(cat, order, p, k - 1); assert Edge(cat, p[k - 1], p[k]); }
  }

  /**
   For every graph, cycles included: a dependency precedes its dependent unless it also reaches it.
   On an acyclic graph the order is topological.
   */
  lemma {:induction false} OrderIsDepthFirstPostOrder(cat: Catalog, roots: seq<string>)
    requires VisitAll(cat, roots, []).Walked?
    ensures var order := VisitAll(cat, roots, []).post;
            && (forall s, d :: s in order && Edge(cat, s, d) ==> d in order && (Before(order, d, s) || Reaches(cat, d, s)))
            && (Acyclic(cat) ==> forall s, d :: s in order && Edge(cat, s, d) ==> Before(order, d, s))
  {
    var order := VisitAll(cat, roots, []).post;
    VisitAllLists(cat, roots, []);
    VisitAllClosed(cat, roots, []);
    VisitAllOrders(cat, roots, [], [], {});
    assert [] + order == order;
    forall s, d | s in order && Edge(cat, s, d) ensures d in order && Respected(cat, order, s, d) {}
  }

  // ---------------------------------------------------------------------------------------------
  // When a walk succeeds
  // ---------------------------------------------------------------------------------------------

  /** The loader looks at this name: it is a root, or a dependency of a service that a root reaches. */
  ghost predicate Named(cat: Catalog, roots: seq<string>, n: string) {
    n in roots || exists r, s :: r in roots && Reaches(cat, r, s) && Enabled(cat, s) && n in cat(s).deps
  }

  /** There is such a service, its settings are valid, and, unless it is disabled, its dependencies can be read. */
  predicate Acceptable(cat: Catalog, n: string) {
    && n != "" && |n| < NAME_SIZE
    && cat(n).Loadable? && (cat(n).disabled || !cat(n).depsFail)
  }

  /** Every dependency of an enabled service among the names is among them as well. */
  ghost predicate DepsInside(cat: Catalog, names: iset<string>) {
    forall n, d :: n in names && Enabled(cat, n) && d in cat(n).deps ==> d in names
  }

  lemma NamedIsClosed(cat: Catalog, roots: seq<string>)
    ensures DepsInside(cat, iset n | Named(cat, roots, n))
  {
    forall n, d | Named(cat, roots, n) && Enabled(cat, n) && d in cat(n).deps ensures Named(cat, roots, d) {
      if n in roots {
        ReachesSelf(cat, n);
      } else {
        var r, s :| r in roots && Reaches(cat, r, s) && Enabled(cat, s) && n in cat(s).deps;
        ReachesStep(cat, r, s, n);
      }
    }
  }

  lemma {:induction false} VisitStaysInside(cat: Catalog, name: string, loaded: seq<string>, names: iset<string>)
    requires |loaded| <= MAX_NUM_SERVICES && DepsInside(cat, names) && name in names && Visit(cat, name, loaded).Walked?
    requires forall n :: n in loaded ==> n in names
    ensures forall n :: n in Visit(cat, name, loaded).loaded ==> n in names
    decreases MAX_NUM_SERVICES - |loaded|, 0
  {
    if name !in loaded && !cat(name).disabled {
      VisitAllStaysInside(cat, cat(name).deps, loaded + [name], names);
    }
  }

  lemma {:induction false} VisitAllStaysInside(cat: Catalog, roots: seq<string>, loaded: seq<string>, names: iset<string>)
    requires |loaded| <= MAX_NUM_SERVICES && DepsInside(cat, names) && VisitAll(cat, roots, loaded).Walked?
    requires (forall n :: n in loaded ==> n in names) && forall n :: n in roots ==> n in names
    ensures forall n :: n in VisitAll(cat, roots, loaded).loaded ==> n in names
    decreases MAX_NUM_SERVICES - |loaded|, |roots|
  {
    if roots != [] {
      VisitStaysInside(cat, roots[0], loaded, names);
      VisitAllStaysInside(cat, roots[1..], Visit(cat, roots[0], loaded).loaded, names);
    }
  }

  /** Everything a walk newly loaded is acceptable, and its dependencies are loaded as well. */
  ghost predicate GoodNews(cat: Catalog, loaded: seq<string>, after: seq<string>) {
    forall n :: n in after && n !in loaded ==>
      Acceptable(cat, n) && (Enabled(cat, n) ==> forall d :: d in cat(n).deps ==> d in after)
  }

  lemma {:induction false} VisitIsGood(cat: Catalog, name: string, loaded: seq<string>)
    requires |loaded| <= MAX_NUM_SERVICES && Distinct(loaded) && Visit(cat, name, loaded).Walked?
    ensures GoodNews(cat, loaded, Visit(cat, name, loaded).loaded)
    decreases MAX_NUM_SERVICES - |loaded|, 0
  {
    if name !in loaded && !cat(name).disabled {
      VisitAllIsGood(cat, cat(name).deps, loaded + [name]);
      VisitAllLists(cat, cat(name).deps, loaded + [name]);
    }
  }

  lemma {:induction false} VisitAllIsGood(cat: Catalog, names: seq<string>, loaded: seq<string>)
    requires |loaded| <= MAX_NUM_SERVICES && Distinct(loaded) && VisitAll(cat, names, loaded).Walked?
    ensures GoodNews(cat, loaded, VisitAll(cat, names, loaded).loaded)
    decreases MAX_NUM_SERVICES - |loaded|, |names|
  {
    if names != [] {
      var w := Visit(cat, names[0], loaded);
      VisitIsGood(cat, names[0], loaded);
      VisitLists(cat, names[0], loaded);
      VisitAllIsGood(cat, names[1..], w.loaded);
    }
  }

  lemma {:induction false} DistinctFit(xs: seq<string>, names: set<string>)
    requires Distinct(xs) && forall x :: x in xs ==> x in names
    ensures |xs| <= |names|
  {
    if xs != [] {
      var last := xs[|xs| - 1];
      DistinctFit(xs[..|xs| - 1], names - {last});
    }
  }

  /** A closed set of acceptable names that the table has room for. */
  ghost predicate RoomFor(cat: Catalog, names: set<string>) {
    && |names| <= MAX_NUM_SERVICES && (forall n :: n in names ==> Acceptable(cat, n))
    && DepsInside(cat, iset n | n in names)
  }

  lemma {:induction false} VisitSucceeds(cat: Catalog, name: string, loaded: seq<string>, names: set<string>)
    requires RoomFor(cat, names) && name in names && Distinct(loaded) && forall n :: n in loaded ==> n in names
    requires |loaded| <= MAX_NUM_SERVICES
    ensures Visit(cat, name, loaded).Walked?
    decreases MAX_NUM_SERVICES - |loaded|, 0
  {
    if name !in loaded {
      DistinctFit(loaded + [name], names);
      if !cat(name).disabled {
        var inside := iset n | n in names;
        forall d | d in cat(name).deps ensures d in names { assert name in inside && d in inside; }
        VisitAllSucceeds(cat, cat(name).deps, loaded + [name], names);
      }
    }
  }

  lemma {:induction false} VisitAllSucceeds(cat: Catalog, roots: seq<string>, loaded: seq<string>, names: set<string>)
    requires RoomFor(cat, names) && (forall n :: n in roots ==> n in names) && Distinct(loaded)
    requires |loaded| <= MAX_NUM_SERVICES && forall n :: n in loaded ==> n in names
    ensures VisitAll(cat, roots, loaded).Walked?
    decreases MAX_NUM_SERVICES - |loaded|, |roots|
  {
    if roots != [] {
      VisitSucceeds(cat, roots[0], loaded, names);
      VisitLists(cat, roots[0], loaded);
      VisitStaysInside(cat, roots[0], loaded, iset n | n in names);
      VisitAllSucceeds(cat, roots[1..], Visit(cat, roots[0], loaded).loaded, names);
    }
  }

  lemma {:induction false} LoadedUnderPaths(cat: Catalog, loaded: seq<string>, p: seq<string>)
    requires IsPath(cat, p) && p[0] in loaded && GoodNews(cat, [], loaded)
    ensures p[|p| - 1] in loaded
  {
    if |p| > 1 {
      var q := p[..|p| - 1];
      assert forall i :: 0 <= i < |q| - 1 ==> Edge(cat, q[i], q[i + 1]) by {
        forall i | 0 <= i < |q| - 1 ensures Edge(cat, q[i], q[i + 1]) { assert Edge(cat, p[i], p[i + 1]); }
      }
      LoadedUnderPaths(cat, loaded, q);
      assert Edge(cat, p[|p| - 2], p[|p| - 1]);
    }
  }

  /** A successful walk loads exactly the names that the loader has to look at, the disabled ones included. */
  lemma LoadsTheNamed(cat: Catalog, roots: seq<string>)
    requires VisitAll(cat, roots, []).Walked?
    ensures var w := VisitAll(cat, roots, []);
            && (forall n :: n in w.loaded <==> Named(cat, roots, n))
            && (forall n :: n in w.loaded ==> Acceptable(cat, n) && (n in w.post <==> !cat(n).disabled))
  {
    var w := VisitAll(cat, roots, []);
    NamedIsClosed(cat, roots);
    VisitAllStaysInside(cat, roots, [], iset n | Named(cat, roots, n));
    VisitAllIsGood(cat, roots, []);
    VisitAllLists(cat, roots, []);
    forall n | Named(cat, roots, n) ensures n in w.loaded {
      if n !in roots {
        var r, s :| r in roots && Reaches(cat, r, s) && Enabled(cat, s) && n in cat(s).deps;
        var p :| IsPath(cat, p) && p[0] == r && p[|p| - 1] == s;
        LoadedUnderPaths(cat, w.loaded, p);
      }
    }
  }

  /** The walk is left out: only what the loader has to look at, and how much of it there is. */
  ghost predicate CanLoad(cat: Catalog, roots: seq<string>) {
    && (forall n :: Named(cat, roots, n) ==> Acceptable(cat, n))
    && (exists names: set<string> :: |names| <= MAX_NUM_SERVICES && forall n :: Named(cat, roots, n) ==> n in names)
  }

  /**
   Loading succeeds exactly when every name the loader has to look at is not empty, fits its buffer and
   names a valid service, whose dependencies can be read unless it is disabled, and the table has room for all.
   */
  lemma LoadsExactlyWhen(cat: Catalog, roots: seq<string>)
    ensures VisitAll(cat, roots, []).Walked? <==> CanLoad(cat, roots)
  {
    if VisitAll(cat, roots, []).Walked? {
      var w := VisitAll(cat, roots, []);
      LoadsTheNamed(cat, roots);
      var names := set n | n in w.loaded;
      SetOfSeq(w.loaded);
      assert |names| <= MAX_NUM_SERVICES && forall n :: Named(cat, roots, n) ==> n in names;
    }
    if names: set<string> :| && (forall n :: Named(cat, roots, n) ==> Acceptable(cat, n)) && |names| <= MAX_NUM_SERVICES
                             && forall n :: Named(cat, roots, n) ==> n in names {
      NamedIsClosed(cat, roots);
      var named := set n | n in names && Named(cat, roots, n);
      Smaller(named, names);
      assert (iset n | n in named) == (iset n | Named(cat, roots, n));
      VisitAllSucceeds(cat, roots, [], named);
    }
  }

  lemma Smaller(a: set<string>, b: set<string>)
    requires a <= b
    ensures |a| <= |b|
  {
    assert b == a + (b - a);
  }

  lemma {:induction false} SetOfSeq(xs: seq<string>)
    ensures |set x | x in xs| <= |xs|
  {
    if xs != [] {
      SetOfSeq(xs[1..]);
      assert (set x | x in xs) == {xs[0]} + (set x | x in xs[1..]);
    }
  }

  // ---------------------------------------------------------------------------------------------
  // The order among siblings
  // ---------------------------------------------------------------------------------------------

  /** Roots are walked from left to right: further roots only append to the order. */
  lemma {:induction false} RootsFromLeftToRight(cat: Catalog, a: seq<string>, b: seq<string>, loaded: seq<string>)
    requires |loaded| <= MAX_NUM_SERVICES && VisitAll(cat, a + b, loaded).Walked?
    ensures VisitAll(cat, a, loaded).Walked?
    ensures var w, rest := VisitAll(cat, a, loaded), VisitAll(cat, b, VisitAll(cat, a, loaded).loaded);
            rest.Walked? && VisitAll(cat, a + b, loaded) == Walked(rest.loaded, w.post + rest.post)
    decreases |a|
  {
    if a == [] {
      assert a + b == b;
    } else {
      assert (a + b)[1..] == a[1..] + b;
      var w := Visit(cat, a[0], loaded);
      RootsFromLeftToRight(cat, a[1..], b, w.loaded);
      var x, y := VisitAll(cat, a[1..], w.loaded), VisitAll(cat, b, VisitAll(cat, a, loaded).loaded);
      assert w.post + (x.post + y.post) == w.post + x.post + y.post;
    }
  }

  /** A walk that never meets x does not care whether x is loaded. */
  lemma {:induction false} VisitWithout(cat: Catalog, name: string, x: string, loaded: seq<string>, names: iset<string>)
    requires |loaded| < MAX_NUM_SERVICES && DepsInside(cat, names) && name in names && x !in names
    requires Visit(cat, name, [x] + loaded).Walked?
    ensures var w := Visit(cat, name, [x] + loaded); w.loaded != [] && Visit(cat, name, loaded) == Walked(w.loaded[1..], w.post)
    decreases MAX_NUM_SERVICES - |loaded|, 0
  {
    assert name in [x] + loaded <==> name in loaded;
    assert ([x] + loaded)[1..] == loaded;
    assert [x] + loaded + [name] == [x] + (loaded + [name]);
    assert ([x] + (loaded + [name]))[1..] == loaded + [name];
    if name !in loaded && !cat(name).disabled {
      VisitAllWithout(cat, cat(name).deps, x, loaded + [name], names);
    }
  }

  lemma {:induction false} VisitAllWithout(cat: Catalog, roots: seq<string>, x: string, loaded: seq<string>, names: iset<string>)
    requires |loaded| < MAX_NUM_SERVICES && DepsInside(cat, names) && (forall n :: n in roots ==> n in names) && x !in names
    requires VisitAll(cat, roots, [x] + loaded).Walked?
    ensures var w := VisitAll(cat, roots, [x] + loaded);
            w.loaded != [] && VisitAll(cat, roots, loaded) == Walked(w.loaded[1..], w.post)
    decreases MAX_NUM_SERVICES - |loaded|, |roots|
  {
    if roots == [] {
      assert ([x] + loaded)[1..] == loaded;
    } else {
      var w := Visit(cat, roots[0], [x] + loaded);
      VisitWithout(cat, roots[0], x, loaded, names);
      assert w.loaded == [x] + w.loaded[1..] by { assert w.loaded[0] == ([x] + loaded)[0]; }
      VisitAllWithout(cat, roots[1..], x, w.loaded[1..], names);
    }
  }

  /** A service comes right after its dependencies, walked in their own order, unless one leads back to it. */
  lemma DependenciesFromLeftToRight(cat: Catalog, s: string)
    requires Enabled(cat, s) && !Named(cat, cat(s).deps, s) && VisitAll(cat, [s], []).Walked?
    ensures var w := VisitAll(cat, cat(s).deps, []); w.Walked? && VisitAll(cat, [s], []).post == w.post + [s]
  {
    var deps := cat(s).deps;
    assert Visit(cat, s, []) == VisitAll(cat, [s], []) by {
      var w := Visit(cat, s, []);
      assert [s][1..] == [] && w.Walked? && w.post + [] == w.post;
    }
    assert [] + [s] == [s] + [];
    NamedIsClosed(cat, deps);
    VisitAllWithout(cat, deps, s, [], iset n | Named(cat, deps, n));
  }
}
