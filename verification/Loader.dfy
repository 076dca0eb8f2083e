/**
 The service table, the start order table and the recursive loader that fills them by inserting
 every service right before its first dependent.
 */
module Loader {
  import opened ServiceGraph

  datatype Result<+T> = Ok(value: T) | Err(error: LoadError) {
    predicate IsFailure() { Err? }

    function PropagateFailure<U>(): Result<U>
      requires Err?
    {
      Err(error)
    }

    function Extract(): T
      requires Ok?
    {
      value
    }
  }

  /** A slot is free when its name is empty. */
  datatype Slot = Slot(name: string, disabled: bool, isGroup: bool)

  const FREE := Slot("", false, false)

  // ---------------------------------------------------------------------------------------------
  // Insertion into the start order
  // ---------------------------------------------------------------------------------------------

  /**
   The table after one insertion: a free entry (-1) is overwritten, an entry that holds before is
   pushed to the right together with everything behind it, and the last entry falls off.
   */
  function Inserted(table: seq<int>, service: int, before: int): (t: seq<int>)
    ensures |t| == |table|
  {
    if table == [] then []
    else if table[0] == -1 then [service] + table[1..]
    else if table[0] == before then [service] + table[..|table| - 1]
    else [table[0]] + Inserted(table[1..], service, before)
  }

  lemma {:induction false} InsertedAt(table: seq<int>, service: int, before: int, i: nat)
    requires i <= |table|
    requires forall k :: 0 <= k < i ==> table[k] != -1 && table[k] != before
    requires i < |table| ==> table[i] == -1 || table[i] == before
    ensures Inserted(table, service, before) ==
            if i == |table| then table
            else if table[i] == -1 then table[..i] + [service] + table[i + 1..]
            else table[..i] + [service] + table[i..|table| - 1]
  {
    if i > 0 {
      InsertedAt(table[1..], service, before, i - 1);
      assert table[..i] == [table[0]] + table[1..][..i - 1];
    }
  }

  /** The sequence with the items placed right before the first occurrence of before, or at the end. */
  function Splice<T(==)>(xs: seq<T>, before: T, items: seq<T>): seq<T> {
    if xs == [] then items
    else if xs[0] == before then items + xs
    else [xs[0]] + Splice(xs[1..], before, items)
  }

  function Padding(n: nat): (p: seq<int>)
    ensures |p| == n && forall i :: 0 <= i < n ==> p[i] == -1
  {
    seq(n, _ => -1)
  }

  /** As long as an entry is free, an insertion drops nothing and moves nothing out of order. */
  lemma {:induction false} InsertionDropsNothing(ids: seq<int>, free: nat, service: int, before: int)
    requires free > 0 && forall i :: 0 <= i < |ids| ==> ids[i] != -1
    ensures Inserted(ids + Padding(free), service, before) == Splice(ids, before, [service]) + Padding(free - 1)
  {
    var table := ids + Padding(free);
    if ids == [] {
      assert table[1..] == Padding(free - 1);
    } else if ids[0] == before {
      assert table[..|table| - 1] == ids + Padding(free - 1);
    } else {
      InsertionDropsNothing(ids[1..], free, service, before);
      assert table[1..] == ids[1..] + Padding(free);
    }
  }

  lemma {:induction false} SpliceTwice<T>(xs: seq<T>, before: T, p: seq<T>, q: seq<T>)
    requires before !in p
    ensures Splice(Splice(xs, before, p), before, q) == Splice(xs, before, p + q)
  {
    if xs == [] {
      SpliceAfter(p, [], before, q);
      assert p + [] == p;
    } else if xs[0] == before {
      SpliceAfter(p, xs, before, q);
      assert p + (q + xs) == (p + q) + xs;
    } else {
      SpliceTwice(xs[1..], before, p, q);
      var t := Splice(xs, before, p);
      assert t[1..] == Splice(xs[1..], before, p);
    }
  }

  lemma {:induction false} SpliceAfter<T>(p: seq<T>, xs: seq<T>, before: T, q: seq<T>)
    requires before !in p && (xs == [] || xs[0] == before)
    ensures Splice(p + xs, before, q) == p + q + xs
  {
    if p == [] {
      assert p + xs == xs;
    } else {
      SpliceAfter(p[1..], xs, before, q);
      assert (p + xs)[1..] == p[1..] + xs;
    }
  }

  lemma {:induction false} SpliceInside<T>(xs: seq<T>, before: T, s: T, q: seq<T>)
    requires s !in xs
    ensures Splice(Splice(xs, before, [s]), s, q) == Splice(xs, before, q + [s])
  {
    if xs != [] && xs[0] != before {
      SpliceInside(xs[1..], before, s, q);
      var t := Splice(xs, before, [s]);
      assert t[1..] == Splice(xs[1..], before, [s]);
    } else if xs != [] {
      assert ([s] + xs)[0] == s;
      assert q + ([s] + xs) == (q + [s]) + xs;
    }
  }

  lemma {:induction false} SpliceNothing<T>(xs: seq<T>, before: T)
    ensures Splice(xs, before, []) == xs
  {
    if xs != [] && xs[0] != before { SpliceNothing(xs[1..], before); }
  }

  lemma {:induction false} SpliceMembers<T>(xs: seq<T>, before: T, items: seq<T>)
    ensures |Splice(xs, before, items)| == |xs| + |items|
    ensures forall x :: x in Splice(xs, before, items) <==> x in xs || x in items
  {
    if xs != [] && xs[0] != before { SpliceMembers(xs[1..], before, items); }
  }

  lemma {:induction false} SpliceOneDistinct<T(!new)>(xs: seq<T>, before: T, s: T)
    requires Distinct(xs) && s !in xs
    ensures Distinct(Splice(xs, before, [s]))
  {
    if xs != [] && xs[0] != before {
      SpliceOneDistinct(xs[1..], before, s);
      SpliceMembers(xs[1..], before, [s]);
      assert xs[0] !in xs[1..];
    }
  }

  /** Splicing commutes with looking names up, when the name of before is looked up nowhere else. */
  lemma {:induction false} SpliceIds(ids: seq<int>, names: seq<string>, loaded: seq<string>, before: int, beforeName: string, s: int)
    requires Distinct(loaded) && |ids| == |names|
    requires forall i :: 0 <= i < |ids| ==> 0 <= ids[i] < |loaded| && loaded[ids[i]] == names[i]
    requires 0 <= s < |loaded|
    requires if before == -1 then beforeName !in loaded else 0 <= before < |loaded| && loaded[before] == beforeName
    ensures var ids', names' := Splice(ids, before, [s]), Splice(names, beforeName, [loaded[s]]);
            |ids'| == |names'| && forall i :: 0 <= i < |ids'| ==> 0 <= ids'[i] < |loaded| && loaded[ids'[i]] == names'[i]
  {
    if ids != [] && ids[0] != before {
      assert names[0] != beforeName;
      SpliceIds(ids[1..], names[1..], loaded, before, beforeName, s);
    } else if ids != [] {
      assert names[0] == beforeName;
    }
  }

  // ---------------------------------------------------------------------------------------------
  // The tables
  // ---------------------------------------------------------------------------------------------

  class ServiceTable {
    const cat: Catalog
    const services: array<Slot>
    const startOrder: array<int>
    ghost var loaded: seq<string>   // the names in the occupied slots
    ghost var order: seq<string>    // the start order, by name

    ghost predicate Valid()
      reads this, services, startOrder
    {
      && services.Length == MAX_NUM_SERVICES && startOrder.Length == MAX_NUM_SERVICES
      && |order| <= |loaded| <= MAX_NUM_SERVICES
      && Distinct(loaded) && Distinct(order) && "" !in loaded
      && (forall i :: 0 <= i < |loaded| ==>
            && cat(loaded[i]).Loadable?
            && services[i] == Slot(loaded[i], cat(loaded[i]).disabled, cat(loaded[i]).isGroup))
      && (forall i :: |loaded| <= i < MAX_NUM_SERVICES ==> services[i] == FREE)
      && (forall i :: 0 <= i < |order| ==> 0 <= startOrder[i] < |loaded| && loaded[startOrder[i]] == order[i])
      && (forall i :: |order| <= i < MAX_NUM_SERVICES ==> startOrder[i] == -1)
      && (forall n :: n in order ==> n in loaded && Enabled(cat, n))
    }

    constructor (cat: Catalog)
      ensures Valid() && this.cat == cat && loaded == [] && order == []
      ensures fresh(services) && fresh(startOrder)
    {
      this.cat := cat;
      services := new Slot[MAX_NUM_SERVICES](_ => FREE);
      startOrder := new int[MAX_NUM_SERVICES](_ => -1);
      loaded, order := [], [];
    }

    method AddToStartOrder(service: int, before: int)
      modifies startOrder
      ensures startOrder[..] == Inserted(old(startOrder[..]), service, before)
    {
      ghost var table := startOrder[..];
      var i := 0;
      while i < startOrder.Length
        invariant 0 <= i <= |table|
        invariant startOrder[..] == table
        invariant forall k :: 0 <= k < i ==> table[k] != -1 && table[k] != before
      {
        if startOrder[i] == -1 || startOrder[i] == before { break; }
        i := i + 1;
      }
      InsertedAt(table, service, before, i);
      if i < startOrder.Length {
        if startOrder[i] == -1 {
          startOrder[i] := service;
        } else {
          var j := startOrder.Length - 1;
          while j > i
            invariant i <= j < |table|
            invariant forall k :: 0 <= k <= j ==> startOrder[k] == table[k]
            invariant forall k :: j < k < |table| ==> startOrder[k] == table[k - 1]
          {
            startOrder[j] := startOrder[j - 1];
            j := j - 1;
          }
          startOrder[i] := service;
        }
      }
    }

    method FindService(name: string) returns (sid: int)
      requires Valid() && name != ""
      ensures if name in loaded then 0 <= sid < |loaded| && loaded[sid] == name else sid == -1
    {
      var i := 0;
      while i < services.Length && services[i].name != ""
        invariant 0 <= i <= |loaded|
        invariant forall k :: 0 <= k < i ==> loaded[k] != name
      {
        if services[i].name == name { return i; }
        i := i + 1;
      }
      return -1;
    }

    method AllocServiceIndex() returns (sid: int)
      requires Valid()
      ensures sid == if |loaded| == MAX_NUM_SERVICES then -1 else |loaded|
    {
      var i := 0;
      while i < services.Length
        invariant 0 <= i <= |loaded|
      {
        if services[i].name == "" { return i; }
        i := i + 1;
      }
      return -1;
    }

    /** Fills a free slot. When the service is refused, the slot stays free. */
    method LoadService(name: string) returns (r: Result<int>)
      requires Valid() && name != "" && name !in loaded
      modifies this`loaded, services
      ensures Valid() && order == old(order)
      ensures match r
              case Err(e) => loaded == old(loaded) && Visit(cat, name, old(loaded)) == Failed(e)
              case Ok(sid) =>
                && sid == |old(loaded)| < MAX_NUM_SERVICES && loaded == old(loaded) + [name]
                && |name| < NAME_SIZE && cat(name).Loadable?
    {
      if |name| >= NAME_SIZE { return Err(NameTooLong); }
      if cat(name).Absent? { return Err(NotFound); }
      var sid := AllocServiceIndex();
      if sid < 0 { return Err(TableFull); }
      match cat(name)
      case Invalid =>
        services[sid] := FREE;
        return Err(BadSetting);
      case Loadable(disabled, isGroup, _, _) =>
        services[sid] := Slot(name, disabled, isGroup);
        loaded := loaded + [name];
        return Ok(sid);
    }

    /** The name of a dependent service, or the empty name when there is none. */
    ghost function NameOf(sid: int): string
      reads this
      requires -1 <= sid < |loaded|
    {
      if sid == -1 then "" else loaded[sid]
    }

    /** The start order with what the walk lists placed right before the dependent. */
    ghost predicate Follows(w: Walk, r: Result<()>, order0: seq<string>, before: string)
      reads this
    {
      match w
      case Failed(e) => r == Err(e)
      case Walked(l, post) => r == Ok(()) && loaded == l && order == Splice(order0, before, post)
    }

    /** Adds the service in the last occupied slot, which no entry of the start order names yet. */
    method Enlist(sid: int, dependent: int)
      requires Valid() && 0 < |loaded| && sid == |loaded| - 1 && loaded[sid] !in order && Enabled(cat, loaded[sid])
      requires -1 <= dependent < |loaded| && |order| < |loaded|
      modifies this`order, startOrder
      ensures Valid() && order == Splice(old(order), NameOf(dependent), [loaded[sid]])
    {
      ghost var ids := startOrder[..|order|];
      ghost var free := MAX_NUM_SERVICES - |order|;
      assert startOrder[..] == ids + Padding(free);
      AddToStartOrder(sid, dependent);
      InsertionDropsNothing(ids, free, sid, dependent);
      SpliceIds(ids, order, loaded, dependent, NameOf(dependent), sid);
      SpliceOneDistinct(order, NameOf(dependent), loaded[sid]);
      SpliceMembers(order, NameOf(dependent), [loaded[sid]]);
      SpliceMembers(ids, dependent, [sid]);
      ghost var ids' := Splice(ids, dependent, [sid]);
      order := Splice(order, NameOf(dependent), [loaded[sid]]);
      forall i | 0 <= i < MAX_NUM_SERVICES ensures startOrder[i] == (ids' + Padding(free - 1))[i] {
        assert startOrder[i] == startOrder[..][i];
      }
    }

    method LoadServiceWithDeps(name: string, dependent: int) returns (r: Result<()>)
      requires Valid() && -1 <= dependent < |loaded|
      modifies this, services, startOrder
      ensures Valid() && old(loaded) <= loaded
      ensures Follows(Visit(cat, name, old(loaded)), r, old(order), old(NameOf(dependent)))
      decreases MAX_NUM_SERVICES - |loaded|, 0
    {
      hide Splice, VisitAll;
      ghost var loaded0, order0, before := loaded, order, NameOf(dependent);
      if name == "" { return Err(EmptyName); }
      var found := FindService(name);
      if found >= 0 {
        SpliceNothing(order, before);
        return Ok(());
      }
      var sid :- LoadService(name);
      if services[sid].disabled {
        SpliceNothing(order, before);
        return Ok(());
      }
      VisitStep(cat, name, loaded0, order0, before);
      Enlist(sid, dependent);
      var _ :- LoadDependencies(sid, cat(name).deps);
      if cat(name).depsFail { return Err(DepsUnreadable); }
      return Ok(());
    }

    /** The loop over the '.dep' entries of the service in slot sid. */
    method LoadDependencies(sid: int, deps: seq<string>) returns (r: Result<()>)
      requires Valid() && 0 <= sid < |loaded|
      modifies this, services, startOrder
      ensures Valid() && old(loaded) <= loaded
      ensures Follows(VisitAll(cat, deps, old(loaded)), r, old(order), old(loaded)[sid])
      decreases MAX_NUM_SERVICES - |loaded|, 1
    {
      hide Splice, Visit;
      ghost var loaded0, order0, name := loaded, order, loaded[sid];
      var k := 0;
      ghost var listed: seq<string> := [];
      SpliceNothing(order, name);
      while k < |deps|
        invariant 0 <= k <= |deps|
        invariant Valid() && loaded0 <= loaded && name !in listed
        invariant order == Splice(order0, name, listed)
        invariant VisitAll(cat, deps, loaded0) == Resume(listed, VisitAll(cat, deps[k..], loaded))
      {
        DependencyStep(cat, deps, k, loaded0, loaded, order0, name, listed);
        assert NameOf(sid) == name;
        ghost var w := Visit(cat, deps[k], loaded);
        r := LoadServiceWithDeps(deps[k], sid);
        if r.Err? { return; }
        listed := listed + w.post;
        k := k + 1;
      }
      assert deps[k..] == [] && listed + [] == listed;
      return Ok(());
    }

    /**
     Loads the roots and everything they pull in: the service 'default' alone, or every directory of
     the services root when the program is built that way. It throws exactly when some name it has to look
     at cannot be accepted or there are too many. Otherwise the names are loaded, the disabled ones included,
     and the start order is the depth-first post-order of the enabled services reachable from the roots.
     */
    method LoadRoots(roots: seq<string>) returns (r: Result<()>)
      requires Valid() && loaded == [] && order == []
      modifies this, services, startOrder
      ensures Valid()
      ensures match VisitAll(cat, roots, [])
              case Failed(e) => r == Err(e)
              case Walked(l, post) => r == Ok(()) && loaded == l && order == post
      ensures r.Ok? <==> CanLoad(cat, roots)
      ensures r.Ok? ==> forall n :: n in loaded <==> Named(cat, roots, n)
      ensures r.Ok? ==>
                && (forall n :: n in order <==> exists root :: root in roots && Reaches(cat, root, n))
                && (forall s, d :: s in order && Edge(cat, s, d) ==> d in order && (Before(order, d, s) || Reaches(cat, d, s)))
                && (Acyclic(cat) ==> forall s, d :: s in order && Edge(cat, s, d) ==> Before(order, d, s))
    {
      hide Splice, Visit, Reaches, Edge, Before, Acyclic, Named, CanLoad;
      LoadsExactlyWhen(cat, roots);
      var k := 0;
      while k < |roots|
        invariant 0 <= k <= |roots|
        invariant Valid()
        invariant VisitAll(cat, roots, []) == Resume(order, VisitAll(cat, roots[k..], loaded))
      {
        assert roots[k..][0] == roots[k] && roots[k..][1..] == roots[k + 1..];
        ghost var w, listed := Visit(cat, roots[k], loaded), order;
        r := LoadServiceWithDeps(roots[k], -1);
        if r.Err? { return; }
        RootStep(listed, w.post);
        ResumeTwice(listed, w.post, VisitAll(cat, roots[k + 1..], loaded));
        k := k + 1;
      }
      assert roots[k..] == [] && order + [] == order;
      OrderIsTheReachablePart(cat, roots);
      OrderIsDepthFirstPostOrder(cat, roots);
      LoadsTheNamed(cat, roots);
      return Ok(());
    }
  }

  /** The chain of insertions at the end of the order, for services loaded without a dependent. */
  lemma RootStep(order: seq<string>, p: seq<string>)
    requires "" !in order
    ensures Splice(order, "", p) == order + p
  {
    SpliceAfter(order, [], "", p);
    assert order + [] == order && order + p + [] == order + p;
  }

  lemma VisitStep(cat: Catalog, name: string, loaded: seq<string>, order: seq<string>, before: string)
    requires |loaded| < MAX_NUM_SERVICES && name != "" && name !in loaded && name !in order
    requires |name| < NAME_SIZE && Enabled(cat, name)
    ensures var w := VisitAll(cat, cat(name).deps, loaded + [name]);
            if w.Failed? then Visit(cat, name, loaded) == w
            else if cat(name).depsFail then Visit(cat, name, loaded) == Failed(DepsUnreadable)
            else
              && Visit(cat, name, loaded) == Walked(w.loaded, w.post + [name])
              && Splice(Splice(order, before, [name]), name, w.post) == Splice(order, before, w.post + [name])
  {
    var w := VisitAll(cat, cat(name).deps, loaded + [name]);
    if w.Walked? { SpliceInside(order, before, name, w.post); }
  }

  lemma DependencyStep(cat: Catalog, deps: seq<string>, k: nat, loaded0: seq<string>, loaded: seq<string>,
                       order0: seq<string>, name: string, listed: seq<string>)
    requires |loaded0| <= MAX_NUM_SERVICES && |loaded| <= MAX_NUM_SERVICES && Distinct(loaded)
    requires k < |deps| && name in loaded && name !in listed
    requires VisitAll(cat, deps, loaded0) == Resume(listed, VisitAll(cat, deps[k..], loaded))
    ensures var w := Visit(cat, deps[k], loaded);
            if w.Failed? then VisitAll(cat, deps, loaded0) == w else
              && name !in listed + w.post
              && Splice(Splice(order0, name, listed), name, w.post) == Splice(order0, name, listed + w.post)
              && VisitAll(cat, deps, loaded0) == Resume(listed + w.post, VisitAll(cat, deps[k + 1..], w.loaded))
  {
    var w := Visit(cat, deps[k], loaded);
    assert deps[k..][0] == deps[k] && deps[k..][1..] == deps[k + 1..];
    if w.Walked? {
      VisitLists(cat, deps[k], loaded);
      SpliceTwice(order0, name, listed, w.post);
      ResumeTwice(listed, w.post, VisitAll(cat, deps[k + 1..], w.loaded));
    }
  }

  /** What a walk lists after the services already listed. */
  function Resume(listed: seq<string>, w: Walk): Walk {
    match w
    case Failed(e) => w
    case Walked(l, post) => Walked(l, listed + post)
  }

  lemma ResumeTwice(p: seq<string>, q: seq<string>, w: Walk)
    ensures Resume(p, Resume(q, w)) == Resume(p + q, w)
  {
    if w.Walked? { assert p + (q + w.post) == p + q + w.post; }
  }
}
