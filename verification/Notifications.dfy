/**
 The log monitor's table of monitored files, the dispatch of a line to notifications, and the
 debouncing of the targets they are sent to.
 */
module Notifications {

  const MAX_NUM_NOTIFICATIONS: nat := 16
  const MAX_NUM_MONITORED_FILES_PER_NOTIFICATION: nat := 4
  const MAX_NUM_MONITORED_FILES: nat := 64

  // ---------------------------------------------------------------------------------------------
  // Debouncing
  // ---------------------------------------------------------------------------------------------

  /** A positive clock that never goes back; each reading moves it by an arbitrary amount. */
  class Clock {
    var now: int
    var steps: seq<nat>

    constructor (start: int, steps: seq<nat>)
      requires start > 0
      ensures now == start
    {
      now, this.steps := start, steps;
    }

    method Read() returns (t: int)
      requires now > 0
      modifies this
      ensures t == now >= old(now)
    {
      if steps != [] { now, steps := now + steps[0], steps[1..]; }
      t := now;
    }
  }

  /** Consecutive times are at least d apart. */
  ghost predicate Apart(times: seq<int>, d: int) {
    forall i :: 0 <= i < |times| - 1 ==> times[i + 1] - times[i] >= d
  }

  /** What a debouncing value allows: anything when negative, once when 0, otherwise once per period. */
  ghost predicate Debounced(times: seq<int>, debouncing: int) {
    (debouncing == 0 ==> |times| <= 1) && (debouncing > 0 ==> Apart(times, debouncing))
  }

  ghost predicate Agrees(times: seq<int>, last: int, debouncing: int, now: int) {
    && Debounced(times, debouncing)
    && if times == [] then last == 0 else 0 < times[|times| - 1] <= last <= now
  }

  lemma SentAgain(times: seq<int>, last: int, debouncing: int, now: int, t: int)
    requires Agrees(times, last, debouncing, now) && 0 < now <= t
    requires last > 0 ==> debouncing < 0 || (debouncing > 0 && now - last >= debouncing)
    ensures Agrees(times + [now], t, debouncing, t)
  {
  }

  /** A notification goes out: it never did, or no debouncing applies, or the period has elapsed. */
  ghost predicate Due(times: seq<int>, last: int, debouncing: int, now: int) {
    times == [] || debouncing < 0 || (debouncing > 0 && now - last >= debouncing)
  }

  class Target {
    const debouncing: int
    var lastNotifSent: seq<int>        // by notification; 0 when never sent
    ghost var sent: seq<seq<int>>      // by notification, the times at which it was sent

    /** The time recorded for a notification is not before the time it was sent. */
    ghost predicate Valid(now: int)
      reads this
    {
      && |lastNotifSent| == |sent| == MAX_NUM_NOTIFICATIONS
      && forall n :: 0 <= n < MAX_NUM_NOTIFICATIONS ==> Agrees(sent[n], lastNotifSent[n], debouncing, now)
    }

    lemma StaysValid(now: int, later: int)
      requires Valid(now) && now <= later
      ensures Valid(later)
    {
    }

    ghost function Sent(n: nat): seq<int>
      reads this
    {
      if n < |sent| then sent[n] else []
    }

    ghost function Last(n: nat): int
      reads this
    {
      if n < |lastNotifSent| then lastNotifSent[n] else 0
    }

    /** Over its whole life a target gets a notification once for 0, and w / d + 1 times in w seconds for d. */
    lemma WithinBounds(now: int, n: nat, lo: int, w: nat)
      requires Valid(now) && n < MAX_NUM_NOTIFICATIONS
      ensures debouncing == 0 ==> |Sent(n)| <= 1
      ensures debouncing > 0 ==> CountIn(Sent(n), lo, lo + w) <= w / debouncing + 1
    {
      if debouncing > 0 { WindowBound(Sent(n), debouncing, lo, w); }
    }

    constructor (debouncing: int)
      ensures Valid(1) && this.debouncing == debouncing && forall n :: 0 <= n < MAX_NUM_NOTIFICATIONS ==> sent[n] == []
    {
      this.debouncing := debouncing;
      lastNotifSent := seq(MAX_NUM_NOTIFICATIONS, _ => 0);
      sent := seq(MAX_NUM_NOTIFICATIONS, _ => []);
    }

    /**
     Sends the notification unless it was sent before and the debouncing holds it back. What other
     notifications did on this target plays no part, and nothing recorded for them changes.
     */
    method Notify(n: nat, clock: Clock) returns (sending: bool)
      requires n < MAX_NUM_NOTIFICATIONS && clock.now > 0 && Valid(clock.now)
      modifies this, clock
      ensures clock.now >= old(clock.now) && Valid(clock.now)
      ensures forall m: nat :: m != n ==> Sent(m) == old(Sent(m)) && Last(m) == old(Last(m))
      ensures !sending ==> Sent(n) == old(Sent(n)) && Last(n) == old(Last(n))
      ensures sending ==>
                && |Sent(n)| == |old(Sent(n))| + 1 && old(Sent(n)) <= Sent(n)
                && old(clock.now) <= Sent(n)[|old(Sent(n))|] <= clock.now == Last(n)
      ensures old(Due(Sent(n), Last(n), debouncing, clock.now)) ==> sending
      ensures !sending ==> debouncing >= 0 && old(Sent(n)) != []
    {
      hide Debounced;
      if lastNotifSent[n] > 0 {
        if debouncing == 0 { return false; }
        if debouncing > 0 {
          var t := clock.Read();
          if t - lastNotifSent[n] < debouncing { return false; }
        }
      }
      ghost var now := clock.now;
      var t := clock.Read();
      SentAgain(sent[n], lastNotifSent[n], debouncing, now, t);
      sent := sent[n := sent[n] + [now]];
      lastNotifSent := lastNotifSent[n := t];
      return true;
    }
  }

  function CountIn(times: seq<int>, lo: int, hi: int): nat {
    if times == [] then 0 else (if lo <= times[0] <= hi then 1 else 0) + CountIn(times[1..], lo, hi)
  }

  /** In any window of w seconds, a target gets one notification at most w / d + 1 times. */
  lemma WindowBound(times: seq<int>, d: int, lo: int, w: nat)
    requires d > 0 && Apart(times, d)
    ensures CountIn(times, lo, lo + w) <= w / d + 1
  {
    var count := CountIn(times, lo, lo + w);
    if count > 0 {
      PeriodsFit(times, d, lo, lo + w);
      QuotientBound(count - 1, d, w);
    }
  }

  lemma QuotientBound(k: nat, d: int, w: nat)
    requires d > 0 && k * d <= w
    ensures k <= w / d
  {
    var q := w / d;
    if q < k { Scaled(q + 1, k, d); }
  }

  lemma Scaled(a: nat, b: nat, d: nat)
    requires a <= b
    ensures a * d <= b * d
  {
  }

  lemma {:induction false} PeriodsFit(times: seq<int>, d: int, lo: int, hi: int)
    requires d > 0 && Apart(times, d) && CountIn(times, lo, hi) > 0
    ensures (CountIn(times, lo, hi) - 1) * d <= hi - lo
  {
    var later := times[1..];
    assert Apart(later, d) by { assert forall i :: 0 <= i < |times| - 1 ==> later[i] == times[i + 1]; }
    if times[0] < lo || hi < times[0] {
      PeriodsFit(later, d, lo, hi);
    } else if CountIn(later, lo, hi) > 0 {
      var next := times[0] + d;
      AllLater(later, d, next);
      SameFromLater(later, lo, next, hi);
      PeriodsFit(later, d, next, hi);
      OnePeriodMore(CountIn(later, next, hi), d);
    }
  }

  lemma OnePeriodMore(count: nat, d: int)
    ensures (count - 1) * d + d == count * d
  {
  }

  lemma {:induction false} AllLater(times: seq<int>, d: int, from: int)
    requires d > 0 && Apart(times, d) && (times != [] ==> times[0] >= from)
    ensures forall i :: 0 <= i < |times| ==> times[i] >= from
  {
    if times != [] {
      assert Apart(times[1..], d) by { assert forall i :: 0 <= i < |times| - 1 ==> times[1..][i] == times[i + 1]; }
      AllLater(times[1..], d, from);
      assert forall i :: 0 < i < |times| ==> times[i] == times[1..][i - 1];
    }
  }

  lemma {:induction false} SameFromLater(times: seq<int>, lo: int, from: int, hi: int)
    requires lo <= from && forall i :: 0 <= i < |times| ==> times[i] >= from
    ensures CountIn(times, lo, hi) == CountIn(times, from, hi)
  {
    if times != [] { SameFromLater(times[1..], lo, from, hi); }
  }

  // ---------------------------------------------------------------------------------------------
  // The table of monitored files
  // ---------------------------------------------------------------------------------------------

  datatype File = File(path: string, isStatus: bool)

  datatype Notification = Notification(files: seq<File>, targets: seq<Target>)

  ghost predicate NoDuplicates(table: seq<File>) {
    forall i, j :: 0 <= i < j < |table| ==> table[i].path != table[j].path
  }

  /** Two of the files have the same path and different types. */
  ghost predicate Conflict(files: seq<File>) {
    exists i, j :: 0 <= i < |files| && 0 <= j < |files| && files[i].path == files[j].path && files[i].isStatus != files[j].isStatus
  }

  function AllFiles(notifs: seq<Notification>): seq<File> {
    if notifs == [] then [] else AllFiles(notifs[..|notifs| - 1]) + notifs[|notifs| - 1].files
  }

  /** Some notification lists the file. */
  ghost predicate Configured(notifs: seq<Notification>, f: File) {
    exists n :: 0 <= n < |notifs| && f in notifs[n].files
  }

  lemma {:induction false} AllFilesAre(notifs: seq<Notification>, f: File)
    ensures f in AllFiles(notifs) <==> Configured(notifs, f)
  {
    if notifs != [] {
      var before := notifs[..|notifs| - 1];
      AllFilesAre(before, f);
      if n :| 0 <= n < |before| && f in before[n].files { assert f in notifs[n].files; }
      if n :| 0 <= n < |notifs| && f in notifs[n].files { assert n < |before| ==> f in before[n].files; }
    }
  }

  /** A conflict is one between configured files, wherever they are configured. */
  lemma ConflictIs(notifs: seq<Notification>)
    ensures Conflict(AllFiles(notifs)) <==>
              exists f, g :: Configured(notifs, f) && Configured(notifs, g) && f.path == g.path && f != g
  {
    var files := AllFiles(notifs);
    forall f ensures f in files <==> Configured(notifs, f) { AllFilesAre(notifs, f); }
    if i, j :| 0 <= i < |files| && 0 <= j < |files| && files[i].path == files[j].path && files[i].isStatus != files[j].isStatus {
      assert files[i] in files && files[j] in files;
    }
  }

  lemma {:induction false} AllFilesFit(notifs: seq<Notification>)
    requires forall n :: 0 <= n < |notifs| ==> |notifs[n].files| <= MAX_NUM_MONITORED_FILES_PER_NOTIFICATION
    ensures |AllFiles(notifs)| <= |notifs| * MAX_NUM_MONITORED_FILES_PER_NOTIFICATION
  {
    if notifs != [] { AllFilesFit(notifs[..|notifs| - 1]); }
  }

  /** The table holds exactly the given files, each path once. */
  ghost predicate Tabulates(table: seq<File>, files: seq<File>) {
    && NoDuplicates(table) && |table| <= |files| && !Conflict(files)
    && (forall f :: f in table <==> f in files)
  }

  lemma TabulatesOneMore(table: seq<File>, files: seq<File>, f: File)
    requires Tabulates(table, files)
    ensures (exists g :: g in table && g.path == f.path && g.isStatus != f.isStatus) <==> Conflict(files + [f])
    ensures f in table ==> Tabulates(table, files + [f])
    ensures (forall g :: g in table ==> g.path != f.path) ==> Tabulates(table + [f], files + [f])
  {
    var all := files + [f];
    if g :| g in table && g.path == f.path && g.isStatus != f.isStatus {
      var i :| 0 <= i < |files| && files[i] == g;
      assert all[i] == g && all[|files|] == f;
    }
    if Conflict(all) {
      var i, j :| 0 <= i < |all| && 0 <= j < |all| && all[i].path == all[j].path && all[i].isStatus != all[j].isStatus;
      assert i == |files| || j == |files|;
      var g := if i == |files| then all[j] else all[i];
      assert g in files;
    }
  }

  /**
   The table of the monitored files of all notifications. It fails exactly when one path is configured
   with both types; otherwise it holds every configured file, each path once. It never overflows.
   */
  method SetMonitoredFiles(notifs: seq<Notification>, table: array<File>) returns (ok: bool, count: nat)
    requires |notifs| <= MAX_NUM_NOTIFICATIONS && table.Length == MAX_NUM_MONITORED_FILES
    requires forall n :: 0 <= n < |notifs| ==> |notifs[n].files| <= MAX_NUM_MONITORED_FILES_PER_NOTIFICATION
    modifies table
    ensures ok <==> !Conflict(AllFiles(notifs))
    ensures count <= MAX_NUM_MONITORED_FILES && (ok ==> Tabulates(table[..count], AllFiles(notifs)))
    ensures ok <==> forall f, g :: Configured(notifs, f) && Configured(notifs, g) && f.path == g.path ==> f == g
    ensures ok ==> forall f :: f in table[..count] <==> Configured(notifs, f)
  {
    hide Tabulates, Conflict, Configured;
    ConflictIs(notifs);
    count, ok := 0, true;
    ghost var files: seq<File> := [];
    EmptyTable();
    assert table[..0] == [];
    for n := 0 to |notifs|
      invariant count <= table.Length && files == AllFiles(notifs[..n]) && Tabulates(table[..count], files)
    {
      assert notifs[..n + 1][..n] == notifs[..n];
      AllFilesFit(notifs[..n]);
      for i := 0 to |notifs[n].files|
        invariant count <= table.Length && Tabulates(table[..count], files)
        invariant files == AllFiles(notifs[..n]) + notifs[n].files[..i]
      {
        var f := notifs[n].files[i];
        var found, k := FindPath(table, count, f.path);
        ghost var before := table[..count];
        TabulatesOneMore(before, files, f);
        files := files + [f];
        assert files == AllFiles(notifs[..n]) + notifs[n].files[..i + 1];
        if found && table[k].isStatus != f.isStatus {
          assert before[k] in before;
          ConflictRemains(notifs, n, i);
          return false, count;
        }
        if found {
          assert before[k] in before;
        } else {
          table[count] := f;
          count := count + 1;
          assert table[..count] == before + [f];
        }
      }
      assert notifs[n].files[..|notifs[n].files|] == notifs[n].files;
      assert files == AllFiles(notifs[..n + 1]);
    }
    assert notifs[..|notifs|] == notifs;
    NoConflict(table[..count], files);
    forall f ensures f in files <==> Configured(notifs, f) { AllFilesAre(notifs, f); }
  }

  lemma EmptyTable()
    ensures Tabulates([], [])
  {
  }

  lemma NoConflict(table: seq<File>, files: seq<File>)
    requires Tabulates(table, files)
    ensures |table| <= |files| && !Conflict(files) && forall f :: f in table <==> f in files
  {
  }

  lemma ConflictRemains(notifs: seq<Notification>, n: nat, i: nat)
    requires n < |notifs| && i < |notifs[n].files| && Conflict(AllFiles(notifs[..n]) + notifs[n].files[..i + 1])
    ensures Conflict(AllFiles(notifs))
  {
    var files := AllFiles(notifs[..n]) + notifs[n].files[..i + 1];
    var x, y :| 0 <= x < |files| && 0 <= y < |files| && files[x].path == files[y].path && files[x].isStatus != files[y].isStatus;
    AllFilesGrow(notifs, n + 1);
    assert notifs[..n + 1][..n] == notifs[..n];
    var upTo := AllFiles(notifs[..n + 1]);
    assert upTo == AllFiles(notifs[..n]) + notifs[n].files;
    assert upTo[x] == files[x] && upTo[y] == files[y];
    assert AllFiles(notifs)[x] == upTo[x] && AllFiles(notifs)[y] == upTo[y];
  }

  lemma {:induction false} AllFilesGrow(notifs: seq<Notification>, n: nat)
    requires n <= |notifs|
    ensures AllFiles(notifs[..n]) <= AllFiles(notifs)
    decreases |notifs| - n
  {
    if n == |notifs| {
      assert notifs[..n] == notifs;
    } else {
      AllFilesGrow(notifs, n + 1);
      assert notifs[..n + 1][..n] == notifs[..n];
    }
  }

  method FindPath(table: array<File>, count: nat, path: string) returns (found: bool, k: nat)
    requires count <= table.Length
    ensures if found then k < count && table[k].path == path && (forall i :: 0 <= i < k ==> table[i].path != path)
            else forall i :: 0 <= i < count ==> table[i].path != path
  {
    k := 0;
    while k < count
      invariant k <= count && forall i :: 0 <= i < k ==> table[i].path != path
    {
      if table[k].path == path { return true, k; }
      k := k + 1;
    }
    return false, k;
  }

  // ---------------------------------------------------------------------------------------------
  // Dispatching a line
  // ---------------------------------------------------------------------------------------------

  ghost predicate Lists(notif: Notification, path: string) {
    exists i :: 0 <= i < |notif.files| && notif.files[i].path == path
  }

  method ListsFile(notif: Notification, path: string) returns (found: bool)
    ensures found <==> Lists(notif, path)
  {
    for i := 0 to |notif.files|
      invariant forall k :: 0 <= k < i ==> notif.files[k].path != path
    {
      if notif.files[i].path == path { return true; }
    }
    return false;
  }

  /** Notification n reaches every receiver for which it is due; nothing else is touched. */
  method SendToAll(receivers: seq<Target>, n: nat, clock: Clock, ghost targets: set<Target>)
    requires n < MAX_NUM_NOTIFICATIONS && clock.now > 0
    requires forall t :: t in targets ==> t.Valid(clock.now)
    requires forall t :: t in receivers ==> t in targets
    modifies targets, clock
    ensures clock.now >= old(clock.now) && forall t :: t in targets ==> t.Valid(clock.now)
    ensures forall t, m: nat :: t in targets && (m != n || t !in receivers) ==>
              t.Sent(m) == old(t.Sent(m)) && t.Last(m) == old(t.Last(m))
    ensures forall t :: t in receivers ==> old(t.Sent(n)) <= t.Sent(n)
    ensures forall t :: t in receivers && old(Due(t.Sent(n), t.Last(n), t.debouncing, clock.now)) ==> |t.Sent(n)| > |old(t.Sent(n))|
  {
    hide Target.Valid, Target.Sent, Target.Last;
    for j := 0 to |receivers|
      invariant clock.now >= old(clock.now) && forall t :: t in targets ==> t.Valid(clock.now)
      invariant forall t, m: nat :: t in targets && (m != n || t !in receivers[..j]) ==>
                  t.Sent(m) == old(t.Sent(m)) && t.Last(m) == old(t.Last(m))
      invariant forall t :: t in receivers[..j] ==> old(t.Sent(n)) <= t.Sent(n)
      invariant forall t :: t in receivers[..j] && old(Due(t.Sent(n), t.Last(n), t.debouncing, clock.now)) ==>
                  |t.Sent(n)| > |old(t.Sent(n))|
    {
      assert receivers[..j + 1] == receivers[..j] + [receivers[j]];
      ghost var now := clock.now;
      var sending := receivers[j].Notify(n, clock);
      forall t | t in targets && t != receivers[j] ensures t.Valid(clock.now) { t.StaysValid(now, clock.now); }
    }
    assert receivers[..|receivers|] == receivers;
  }

  /**
   Offers a line of the given file to the notifications, in order; matches holds what their filters
   answer. The line is offered to exactly the notifications that list the file. One that matches
   reaches each of its targets for which it is due, whatever other notifications sent to them.
   */
  method HandleLine(notifs: seq<Notification>, path: string, matches: seq<bool>, clock: Clock, ghost targets: set<Target>)
    returns (offered: seq<nat>)
    requires |notifs| == |matches| <= MAX_NUM_NOTIFICATIONS && clock.now > 0
    requires forall t :: t in targets ==> t.Valid(clock.now)
    requires forall n: nat, t :: n < |notifs| && t in notifs[n].targets ==> t in targets
    modifies targets, clock
    ensures clock.now >= old(clock.now) && forall t :: t in targets ==> t.Valid(clock.now)
    ensures forall n: nat :: n in offered <==> n < |notifs| && Lists(notifs[n], path)
    ensures forall i, j :: 0 <= i < j < |offered| ==> offered[i] < offered[j]
    ensures forall t, n: nat :: t in targets ==> old(t.Sent(n)) <= t.Sent(n)
    ensures forall t, n: nat :: t in targets && (t.Sent(n) != old(t.Sent(n)) || t.Last(n) != old(t.Last(n))) ==>
              n in offered && n < |notifs| && matches[n] && t in notifs[n].targets
    ensures forall n: nat, t ::
              n in offered && n < |notifs| && matches[n] && t in notifs[n].targets
              && old(t.Sent(n) == [] || t.debouncing < 0 || (t.debouncing > 0 && clock.now - t.Last(n) >= t.debouncing)) ==>
              |t.Sent(n)| > |old(t.Sent(n))|
  {
    hide Target.Valid, Target.Sent, Target.Last;
    offered := [];
    for n := 0 to |notifs|
      invariant clock.now >= old(clock.now) && forall t :: t in targets ==> t.Valid(clock.now)
      invariant forall k: nat :: k in offered <==> k < n && Lists(notifs[k], path)
      invariant forall i, j :: 0 <= i < j < |offered| ==> offered[i] < offered[j]
      invariant forall t, k: nat :: t in targets ==> old(t.Sent(k)) <= t.Sent(k)
      invariant forall t, k: nat :: t in targets && (t.Sent(k) != old(t.Sent(k)) || t.Last(k) != old(t.Last(k))) ==>
                  k in offered && k < |notifs| && matches[k] && t in notifs[k].targets
      invariant forall k: nat, t ::
                  k in offered && k < |notifs| && matches[k] && t in notifs[k].targets
                  && old(Due(t.Sent(k), t.Last(k), t.debouncing, clock.now)) ==>
                  |t.Sent(k)| > |old(t.Sent(k))|
    {
      var listed := ListsFile(notifs[n], path);
      if listed {
        assert forall i :: 0 <= i < |offered| ==> offered[i] in offered;
        offered := offered + [n];
        if matches[n] { SendToAll(notifs[n].targets, n, clock, targets); }
      }
    }
  }
}
