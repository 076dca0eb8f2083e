/**
 gpasswd: administering a group in the group file and in the gshadow file, which are written one
 after the other.
 */
module Gpasswd {
  import opened UserLists

  datatype Option<T> = None | Some(value: T)

  datatype GroupEntry = GroupEntry(name: string, passwd: string, gid: nat, members: seq<string>)
  datatype GshadowEntry = GshadowEntry(name: string, passwd: string, admins: seq<string>, members: seq<string>)

  /** The two files. The gshadow file may not exist. */
  datatype State = State(group: seq<GroupEntry>, gshadow: Option<seq<GshadowEntry>>)

  datatype Options = Options(add: Option<string>, delete: Option<string>, administrators: Option<string>,
                             members: Option<string>, removePassword: bool, restrict: bool)
  {
    /** How many of the options that exclude each other are given; -A and -M go together. */
    function Exclusive(): nat {
      (if add.Some? then 1 else 0) + (if delete.Some? then 1 else 0) + (if removePassword then 1 else 0)
      + (if restrict then 1 else 0) + (if administrators.Some? || members.Some? then 1 else 0)
    }
  }

  /** Options for a group; the hash is that of the password that is asked for when there is no option. */
  datatype Command = Command(name: string, options: Options, hash: string)

  datatype Error = BadSyntax | BadArgument(user: string) | GroupNotFound
  datatype Outcome = Success | Interrupted | Failure(error: Error)

  // ---------------------------------------------------------------------------------------------
  // Member lists
  // ---------------------------------------------------------------------------------------------

  function With(members: seq<string>, user: string): seq<string> {
    if user in members then members else members + [user]
  }

  function Without(members: seq<string>, user: string): seq<string> {
    if members == [] then []
    else (if members[0] == user then [] else [members[0]]) + Without(members[1..], user)
  }

  /** Exactly the occurrences of the user go; a list without the user is left alone. */
  lemma {:induction false} WithoutIsExact(members: seq<string>, user: string)
    ensures multiset(Without(members, user)) == multiset(members)[user := 0]
    ensures user !in members <==> Without(members, user) == members
  {
    if members != [] {
      WithoutIsExact(members[1..], user);
      assert members == [members[0]] + members[1..];
      if members[0] != user { assert Without(members, user)[1..] == Without(members[1..], user); }
      assert user !in Without(members, user) by { assert user !in multiset(Without(members, user)); }
    }
  }

  /** The others stay in their order. */
  lemma {:induction false} WithoutInParts(a: seq<string>, b: seq<string>, user: string)
    ensures Without(a + b, user) == Without(a, user) + Without(b, user)
  {
    hide Without;
    if a == [] {
      assert a + b == b;
      WithoutNobody(user);
    } else {
      WithoutInParts(a[1..], b, user);
      WithoutOne(a, user);
      var all := a + b;
      assert all[0] == a[0] && all[1..] == a[1..] + b;
      WithoutOne(all, user);
    }
  }

  lemma WithoutNobody(user: string)
    ensures Without([], user) == []
  {}

  lemma WithoutOne(members: seq<string>, user: string)
    requires members != []
    ensures Without(members, user) == (if members[0] == user then [] else [members[0]]) + Without(members[1..], user)
  {}

  lemma WithoutTwice(members: seq<string>, user: string)
    ensures Without(Without(members, user), user) == Without(members, user)
  {
    WithoutIsExact(members, user);
    assert user !in multiset(Without(members, user));
    WithoutIsExact(Without(members, user), user);
  }

  // ---------------------------------------------------------------------------------------------
  // What a command asks of each file
  // ---------------------------------------------------------------------------------------------

  function GroupIndex(group: seq<GroupEntry>, name: string): (k: nat)
    ensures k <= |group| && (forall i :: 0 <= i < k ==> group[i].name != name) && (k < |group| ==> group[k].name == name)
  {
    if group == [] || group[0].name == name then 0 else 1 + GroupIndex(group[1..], name)
  }

  function ShadowIndex(gshadow: seq<GshadowEntry>, name: string): (k: nat)
    ensures k <= |gshadow| && (forall i :: 0 <= i < k ==> gshadow[i].name != name) && (k < |gshadow| ==> gshadow[k].name == name)
  {
    if gshadow == [] || gshadow[0].name == name then 0 else 1 + ShadowIndex(gshadow[1..], name)
  }

  lemma SameFirsts(a: seq<GroupEntry>, b: seq<GroupEntry>, name: string)
    requires |a| == |b| && forall i :: 0 <= i < |a| ==> b[i].name == a[i].name
    ensures GroupIndex(a, name) == GroupIndex(b, name)
  {
    var i, j := GroupIndex(a, name), GroupIndex(b, name);
    assert i < |a| ==> b[i].name == a[i].name;
    assert j < |a| ==> b[j].name == a[j].name;
  }

  lemma SameFirstShadows(a: seq<GshadowEntry>, b: seq<GshadowEntry>, name: string)
    requires |a| <= |b| && forall i :: 0 <= i < |a| ==> b[i].name == a[i].name
    ensures ShadowIndex(a, name) < |a| || ShadowIndex(b, name) < |a| ==> ShadowIndex(a, name) == ShadowIndex(b, name)
  {
    var i, j := ShadowIndex(a, name), ShadowIndex(b, name);
    assert i < |a| ==> b[i].name == a[i].name;
    assert j < |a| ==> b[j].name == a[j].name;
  }

  /** The first user of the list that does not exist. */
  function Missing(users: seq<string>, list: seq<string>): Option<string> {
    if list == [] then None else if list[0] !in users then Some(list[0]) else Missing(users, list[1..])
  }

  function Named(o: Option<string>): seq<string> {
    if o.Some? then [o.value] else []
  }

  function Listed(o: Option<string>): seq<string> {
    if o.Some? then ParseUserList(o.value) else []
  }

  /** Why a command is refused: users is who exists. */
  function Refusal(c: Command, users: seq<string>, group: seq<GroupEntry>): Option<Error> {
    var o := c.options;
    var missing := Missing(users, Named(o.add) + Listed(o.members) + Listed(o.administrators));
    if o.Exclusive() > 1 then Some(BadSyntax)
    else if GroupIndex(group, c.name) == |group| then Some(GroupNotFound)
    else if missing.Some? then Some(BadArgument(missing.value))
    else None
  }

  /** A command is accepted just when it makes sense, its group exists and everybody it adds or lists exists. */
  lemma AcceptedIf(c: Command, users: seq<string>, group: seq<GroupEntry>)
    ensures var o := c.options;
            Refusal(c, users, group).None? <==>
              && (o.add.Some? ==> o.delete.None? && o.members.None? && o.administrators.None? && !o.removePassword && !o.restrict)
              && (o.delete.Some? ==> o.members.None? && o.administrators.None? && !o.removePassword && !o.restrict)
              && (o.removePassword || o.restrict ==> o.members.None? && o.administrators.None?)
              && !(o.removePassword && o.restrict)
              && (exists e :: e in group && e.name == c.name)
              && (forall u :: u in Named(o.add) || u in Listed(o.members) || u in Listed(o.administrators) ==> u in users)
  {
    var o := c.options;
    MissingIfSome(users, Named(o.add) + Listed(o.members) + Listed(o.administrators));
    var k := GroupIndex(group, c.name);
    assert k < |group| ==> group[k] in group;
  }

  lemma {:induction false} MissingIfSome(users: seq<string>, list: seq<string>)
    ensures Missing(users, list).None? <==> forall u :: u in list ==> u in users
  {
    if list != [] { MissingIfSome(users, list[1..]); }
  }

  function NewMembers(o: Options, members: seq<string>): seq<string> {
    if o.add.Some? then With(members, o.add.value)
    else if o.delete.Some? then Without(members, o.delete.value)
    else if o.members.Some? then ParseUserList(o.members.value)
    else members
  }

  function NewGroup(o: Options, e: GroupEntry): GroupEntry {
    e.(members := NewMembers(o, e.members),
       passwd := if o.removePassword || o.restrict || o.Exclusive() == 0 then "x" else e.passwd)
  }

  function NewShadow(c: Command, e: GshadowEntry): GshadowEntry {
    var o := c.options;
    e.(members := NewMembers(o, e.members),
       admins := if o.administrators.Some? then ParseUserList(o.administrators.value)
                 else if o.delete.Some? then Without(e.admins, o.delete.value) else e.admins,
       passwd := if o.removePassword then "" else if o.restrict then "!" else if o.Exclusive() == 0 then c.hash else e.passwd)
  }

  /** The state between the two writes. */
  function GroupWritten(c: Command, s: State): State
    requires GroupIndex(s.group, c.name) < |s.group|
  {
    var k := GroupIndex(s.group, c.name);
    s.(group := s.group[k := NewGroup(c.options, s.group[k])])
  }

  function ShadowUpdated(c: Command, gshadow: seq<GshadowEntry>, members: seq<string>): seq<GshadowEntry> {
    var k := ShadowIndex(gshadow, c.name);
    if k < |gshadow| then gshadow[k := NewShadow(c, gshadow[k])]
    else gshadow + [NewShadow(c, GshadowEntry(c.name, "!", [], members))]
  }

  function BothWritten(c: Command, s: State): State
    requires GroupIndex(s.group, c.name) < |s.group|
  {
    var t := GroupWritten(c, s);
    if s.gshadow.None? then t
    else t.(gshadow := Some(ShadowUpdated(c, s.gshadow.value, t.group[GroupIndex(s.group, c.name)].members)))
  }

  function After(c: Command, users: seq<string>, s: State): State {
    if Refusal(c, users, s.group).Some? then s else BothWritten(c, s)
  }

  // ---------------------------------------------------------------------------------------------
  // The program
  // ---------------------------------------------------------------------------------------------

  method FindMissing(users: seq<string>, list: seq<string>) returns (r: Option<string>)
    ensures r == Missing(users, list)
  {
    for i := 0 to |list|
      invariant Missing(users, list) == Missing(users, list[i..])
    {
      if list[i] !in users { return Some(list[i]); }
    }
    return None;
  }

  class Root {
    const users: seq<string>
    var group: seq<GroupEntry>
    var gshadow: Option<seq<GshadowEntry>>

    constructor (users: seq<string>, group: seq<GroupEntry>, gshadow: Option<seq<GshadowEntry>>)
      ensures this.users == users && Files() == State(group, gshadow)
    {
      this.users, this.group, this.gshadow := users, group, gshadow;
    }

    function Files(): State
      reads this
    {
      State(group, gshadow)
    }

    /** Runs a command, which may be cut off after the group file is written. */
    method Run(c: Command, interrupted: bool) returns (r: Outcome)
      modifies this
      ensures var refusal := old(Refusal(c, users, group));
              if refusal.Some? then r == Failure(refusal.value) && Files() == old(Files())
              else if interrupted then r == Interrupted && Files() == GroupWritten(c, old(Files()))
              else r == Success && Files() == BothWritten(c, old(Files()))
    {
      if c.options.Exclusive() > 1 { return Failure(BadSyntax); }
      var idx := GroupIndex(group, c.name);
      if idx == |group| { return Failure(GroupNotFound); }
      var missing := CheckUsers(users, c.options);
      if missing.Some? { return Failure(BadArgument(missing.value)); }
      var entry := EditGroup(c.options, group[idx]);
      group := group[idx := entry];
      if interrupted { return Interrupted; }
      if gshadow.Some? {
        var shadows := EditShadows(c, gshadow.value, entry.members);
        gshadow := Some(shadows);
      }
      return Success;
    }
  }

  /** The checks of the users a command names, in the order they are made. */
  method CheckUsers(users: seq<string>, o: Options) returns (missing: Option<string>)
    requires o.Exclusive() <= 1
    ensures missing == Missing(users, Named(o.add) + Listed(o.members) + Listed(o.administrators))
  {
    missing := None;
    if o.add.Some? {
      missing := FindMissing(users, [o.add.value]);
    } else if o.members.Some? {
      missing := FindMissing(users, ParseUserList(o.members.value));
    }
    MissingInPart(users, Named(o.add) + Listed(o.members), Listed(o.administrators));
    assert Named(o.add) == [] || Listed(o.members) == [];
    assert Named(o.add) + Listed(o.members) == if o.add.Some? then Named(o.add) else Listed(o.members);
    if missing.Some? { return; }
    if o.administrators.Some? {
      missing := FindMissing(users, ParseUserList(o.administrators.value));
    }
  }

  method EditGroup(o: Options, entry: GroupEntry) returns (e: GroupEntry)
    requires o.Exclusive() <= 1
    ensures e == NewGroup(o, entry)
  {
    e := entry;
    if o.add.Some? {
      e := e.(members := With(e.members, o.add.value));
    } else if o.delete.Some? {
      e := e.(members := Without(e.members, o.delete.value));
    } else if o.members.Some? {
      e := e.(members := ParseUserList(o.members.value));
    } else if o.removePassword || o.restrict || o.Exclusive() == 0 {
      e := e.(passwd := "x");
    }
  }

  /** A group without a gshadow line gets one first, with the members it has by now. */
  method EditShadows(c: Command, entries: seq<GshadowEntry>, members: seq<string>) returns (shadows: seq<GshadowEntry>)
    requires c.options.Exclusive() <= 1
    ensures shadows == ShadowUpdated(c, entries, members)
  {
    shadows := entries;
    var k := ShadowIndex(shadows, c.name);
    if k == |shadows| { shadows := shadows + [GshadowEntry(c.name, "!", [], members)]; }
    var gs := EditShadow(c, shadows[k]);
    shadows := shadows[k := gs];
  }

  method EditShadow(c: Command, entry: GshadowEntry) returns (gs: GshadowEntry)
    requires c.options.Exclusive() <= 1
    ensures gs == NewShadow(c, entry)
  {
    var o := c.options;
    gs := entry;
    if o.add.Some? { gs := gs.(members := With(gs.members, o.add.value)); }
    if o.delete.Some? {
      gs := gs.(members := Without(gs.members, o.delete.value), admins := Without(gs.admins, o.delete.value));
    }
    if o.members.Some? { gs := gs.(members := ParseUserList(o.members.value)); }
    if o.administrators.Some? { gs := gs.(admins := ParseUserList(o.administrators.value)); }
    if o.removePassword { gs := gs.(passwd := ""); }
    if o.restrict { gs := gs.(passwd := "!"); }
    if o.Exclusive() == 0 { gs := gs.(passwd := c.hash); }
  }

  lemma {:induction false} MissingInPart(users: seq<string>, a: seq<string>, b: seq<string>)
    ensures Missing(users, a + b) == if Missing(users, a).Some? then Missing(users, a) else Missing(users, b)
  {
    if a == [] {
      assert a + b == b;
    } else {
      MissingInPart(users, a[1..], b);
      assert (a + b)[1..] == a[1..] + b;
    }
  }

  // ---------------------------------------------------------------------------------------------
  // Interruption between the two writes
  // ---------------------------------------------------------------------------------------------

  lemma NewMembersTwice(o: Options, members: seq<string>)
    ensures NewMembers(o, NewMembers(o, members)) == NewMembers(o, members)
  {
    if o.add.None? && o.delete.Some? { WithoutTwice(members, o.delete.value); }
  }

  /**
   Running a command to its end after it was cut off between the two writes leaves both files as if
   it had not been: the command is still accepted, and it makes of what it finds what it would have made.
   */
  lemma FinishedByRerun(c: Command, users: seq<string>, s: State)
    requires Refusal(c, users, s.group).None?
    ensures Refusal(c, users, GroupWritten(c, s).group).None?
    ensures BothWritten(c, GroupWritten(c, s)) == BothWritten(c, s)
  {
    var k := GroupIndex(s.group, c.name);
    var e := NewGroup(c.options, s.group[k]);
    SameFirsts(s.group, s.group[k := e], c.name);
    NewMembersTwice(c.options, s.group[k].members);
    assert NewGroup(c.options, e) == e;
    assert GroupWritten(c, GroupWritten(c, s)).group == GroupWritten(c, s).group;
  }

  datatype Attempt = Attempt(command: Command, interrupted: bool)

  function RunAll(cs: seq<Command>, users: seq<string>, s: State): State {
    if cs == [] then s else RunAll(cs[1..], users, After(cs[0], users, s))
  }

  function RunAttempts(attempts: seq<Attempt>, users: seq<string>, s: State): State {
    if attempts == [] then s
    else
      var c := attempts[0].command;
      var t := if !attempts[0].interrupted then After(c, users, s)
               else if Refusal(c, users, s.group).Some? then s else GroupWritten(c, s);
      RunAttempts(attempts[1..], users, t)
  }

  function Completed(attempts: seq<Attempt>): seq<Command> {
    if attempts == [] then []
    else (if attempts[0].interrupted then [] else [attempts[0].command]) + Completed(attempts[1..])
  }

  /** The same request; a password that is asked for again may get another hash. */
  predicate SameRequest(c: Command, d: Command) {
    c.name == d.name && c.options == d.options
  }

  /** Each interrupted command is the next one to be run again. */
  ghost predicate Retried(attempts: seq<Attempt>) {
    forall i :: 0 <= i < |attempts| && attempts[i].interrupted ==>
      i + 1 < |attempts| && SameRequest(attempts[i].command, attempts[i + 1].command)
  }

  lemma {:induction false} FirstCompleted(attempts: seq<Attempt>)
    requires Retried(attempts) && attempts != []
    ensures var cs := Completed(attempts); cs != [] && SameRequest(attempts[0].command, cs[0])
  {
    if attempts[0].interrupted {
      RetriedLater(attempts);
      FirstCompleted(attempts[1..]);
    }
  }

  lemma RetriedLater(attempts: seq<Attempt>)
    requires Retried(attempts) && attempts != []
    ensures Retried(attempts[1..])
  {
    var later := attempts[1..];
    assert forall i :: 0 <= i < |later| ==> later[i] == attempts[i + 1];
  }

  /** In any history in which interrupted commands are run again, the interruptions leave no trace. */
  lemma {:induction false} InterruptionsLeaveNoTrace(attempts: seq<Attempt>, users: seq<string>, s: State)
    requires Retried(attempts)
    ensures RunAttempts(attempts, users, s) == RunAll(Completed(attempts), users, s)
  {
    if attempts != [] {
      var c := attempts[0].command;
      RetriedLater(attempts);
      if !attempts[0].interrupted {
        InterruptionsLeaveNoTrace(attempts[1..], users, After(c, users, s));
        assert Completed(attempts)[1..] == Completed(attempts[1..]);
      } else if Refusal(c, users, s.group).Some? {
        InterruptionsLeaveNoTrace(attempts[1..], users, s);
        assert Completed(attempts) == Completed(attempts[1..]);
      } else {
        InterruptionsLeaveNoTrace(attempts[1..], users, GroupWritten(c, s));
        FirstCompleted(attempts[1..]);
        var d := Completed(attempts[1..])[0];
        assert SameRequest(c, d) by { assert SameRequest(attempts[0].command, attempts[1].command); }
        FinishedByRerun(d, users, s);
        assert Completed(attempts) == Completed(attempts[1..]);
      }
    }
  }

  /** Who is a member after a command that was accepted. */
  lemma MembersAfter(c: Command, users: seq<string>, s: State, u: string)
    requires Refusal(c, users, s.group).None?
    ensures var k, o := GroupIndex(s.group, c.name), c.options;
            var before := s.group[k].members;
            u in After(c, users, s).group[k].members <==>
              if o.add.Some? then u in before || u == o.add.value
              else if o.delete.Some? then u in before && u != o.delete.value
              else if o.members.Some? then u in ParseUserList(o.members.value)
              else u in before
  {
    hide ParseUserList, Missing, Without;
    var before := s.group[GroupIndex(s.group, c.name)].members;
    if c.options.delete.Some? { WithoutElement(before, c.options.delete.value, u); }
  }

  /** The gshadow line that the edit starts from: the group's own, or a locked one with the group's new members. */
  function LineBefore(name: string, gshadow: seq<GshadowEntry>, members: seq<string>): GshadowEntry {
    if exists e :: e in gshadow && e.name == name then gshadow[ShadowIndex(gshadow, name)]
    else GshadowEntry(name, "!", [], members)
  }

  /**
   Passwords and administrators after a command that was accepted. Removing the password empties it, the
   restriction locks it, and without any option it is the new hash; the group file then refers to it.
   */
  lemma PasswordsAfter(c: Command, users: seq<string>, s: State)
    requires Refusal(c, users, s.group).None?
    ensures var k, o, t := GroupIndex(s.group, c.name), c.options, After(c, users, s);
            var changesPassword := o.add.None? && o.delete.None? && o.members.None? && o.administrators.None?;
            && |t.group| == |s.group|
            && t.group[k].passwd == (if changesPassword then "x" else s.group[k].passwd)
            && t.gshadow.Some? == s.gshadow.Some?
            && (s.gshadow.Some? ==>
                  var line := LineBefore(c.name, s.gshadow.value, t.group[k].members);
                  var j := ShadowIndex(t.gshadow.value, c.name);
                  && j < |t.gshadow.value| && t.gshadow.value[j].name == c.name
                  && t.gshadow.value[j].passwd ==
                       (if o.removePassword then "" else if o.restrict then "!" else if changesPassword then c.hash else line.passwd)
                  && t.gshadow.value[j].admins ==
                       (if o.administrators.Some? then ParseUserList(o.administrators.value)
                        else if o.delete.Some? then Without(line.admins, o.delete.value) else line.admins)
                  && t.gshadow.value[j].members ==
                       (if o.add.Some? then (if o.add.value in line.members then line.members else line.members + [o.add.value])
                        else if o.delete.Some? then Without(line.members, o.delete.value)
                        else if o.members.Some? then ParseUserList(o.members.value) else line.members))
  {
    hide ParseUserList, Missing, Without, LineBefore, ShadowUpdated;
    if s.gshadow.Some? {
      LineAfter(c, s.gshadow.value, NewGroup(c.options, s.group[GroupIndex(s.group, c.name)]).members);
    }
  }

  lemma LineAfter(c: Command, gshadow: seq<GshadowEntry>, members: seq<string>)
    ensures var after := ShadowUpdated(c, gshadow, members);
            var j := ShadowIndex(after, c.name);
            j < |after| && after[j] == NewShadow(c, LineBefore(c.name, gshadow, members))
  {
    hide ParseUserList, Without;
    var k := ShadowIndex(gshadow, c.name);
    if k < |gshadow| {
      assert gshadow[k] in gshadow;
      SameFirstShadows(gshadow, gshadow[k := NewShadow(c, gshadow[k])], c.name);
    } else {
      ShadowIndexAppended(gshadow, NewShadow(c, GshadowEntry(c.name, "!", [], members)), c.name);
    }
  }

  lemma WithoutElement(members: seq<string>, user: string, u: string)
    ensures u in Without(members, user) <==> u in members && u != user
  {
    WithoutIsExact(members, user);
    assert u in Without(members, user) <==> u in multiset(Without(members, user));
  }

  // ---------------------------------------------------------------------------------------------
  // What sequences of commands keep
  // ---------------------------------------------------------------------------------------------

  /** Both files know the group, with the same members. */
  predicate InStep(s: State, name: string) {
    && s.gshadow.Some?
    && GroupIndex(s.group, name) < |s.group| && ShadowIndex(s.gshadow.value, name) < |s.gshadow.value|
    && s.group[GroupIndex(s.group, name)].members == s.gshadow.value[ShadowIndex(s.gshadow.value, name)].members
  }

  lemma ShadowIndexAppended(gshadow: seq<GshadowEntry>, e: GshadowEntry, name: string)
    requires ShadowIndex(gshadow, name) < |gshadow| || e.name == name
    ensures ShadowIndex(gshadow + [e], name) == ShadowIndex(gshadow, name)
  {
    var longer := gshadow + [e];
    var i, j := ShadowIndex(longer, name), ShadowIndex(gshadow, name);
    assert i < |gshadow| ==> longer[i].name == gshadow[i].name;
    assert j < |gshadow| ==> longer[j].name == gshadow[j].name;
    assert longer[|gshadow|] == e;
  }

  lemma InStepAfter(c: Command, users: seq<string>, s: State, name: string)
    requires InStep(s, name)
    ensures InStep(After(c, users, s), name)
  {
    if Refusal(c, users, s.group).None? {
      var g, k := GroupIndex(s.group, c.name), ShadowIndex(s.gshadow.value, c.name);
      SameFirsts(s.group, s.group[g := NewGroup(c.options, s.group[g])], name);
      var members := NewGroup(c.options, s.group[g]).members;
      if k < |s.gshadow.value| {
        SameFirstShadows(s.gshadow.value, s.gshadow.value[k := NewShadow(c, s.gshadow.value[k])], name);
      } else {
        ShadowIndexAppended(s.gshadow.value, NewShadow(c, GshadowEntry(c.name, "!", [], members)), name);
      }
    }
  }

  /** Member lists that agree go on agreeing, whatever commands follow. */
  lemma {:induction false} StaysInStep(cs: seq<Command>, users: seq<string>, s: State, name: string)
    requires InStep(s, name)
    ensures InStep(RunAll(cs, users, s), name)
  {
    if cs != [] {
      InStepAfter(cs[0], users, s, name);
      StaysInStep(cs[1..], users, After(cs[0], users, s), name);
    }
  }

  /** A gshadow line that a command creates, or whose members -M sets, agrees with the group file. */
  lemma ComesInStep(c: Command, users: seq<string>, s: State)
    requires Refusal(c, users, s.group).None? && s.gshadow.Some?
    requires c.options.members.Some? || ShadowIndex(s.gshadow.value, c.name) == |s.gshadow.value|
    ensures InStep(After(c, users, s), c.name)
  {
    var g, k := GroupIndex(s.group, c.name), ShadowIndex(s.gshadow.value, c.name);
    SameFirsts(s.group, s.group[g := NewGroup(c.options, s.group[g])], c.name);
    if k < |s.gshadow.value| {
      SameFirstShadows(s.gshadow.value, s.gshadow.value[k := NewShadow(c, s.gshadow.value[k])], c.name);
    } else {
      NewMembersTwice(c.options, s.group[g].members);
      ShadowIndexAppended(s.gshadow.value, NewShadow(c, GshadowEntry(c.name, "!", [], NewGroup(c.options, s.group[g]).members)), c.name);
    }
  }

  predicate FirstGroup(group: seq<GroupEntry>, i: nat) requires i < |group| { GroupIndex(group, group[i].name) == i }
  predicate FirstShadow(gshadow: seq<GshadowEntry>, i: nat) requires i < |gshadow| { ShadowIndex(gshadow, gshadow[i].name) == i }

  /** Only the first entries of the named groups differ; names and numbers stay, and only named groups are added. */
  ghost predicate OnlyTouches(s: State, t: State, names: set<string>) {
    && |t.group| == |s.group| && t.gshadow.Some? == s.gshadow.Some?
    && (forall i :: 0 <= i < |s.group| ==> t.group[i].name == s.group[i].name && t.group[i].gid == s.group[i].gid)
    && (forall i :: 0 <= i < |s.group| && !(s.group[i].name in names && FirstGroup(s.group, i)) ==> t.group[i] == s.group[i])
    && (s.gshadow.Some? ==> ShadowsOnlyTouched(s.gshadow.value, t.gshadow.value, names))
  }

  ghost predicate ShadowsOnlyTouched(a: seq<GshadowEntry>, b: seq<GshadowEntry>, names: set<string>) {
    && |b| >= |a|
    && (forall i :: 0 <= i < |a| ==> b[i].name == a[i].name)
    && (forall i :: 0 <= i < |a| && !(a[i].name in names && FirstShadow(a, i)) ==> b[i] == a[i])
    && (forall i :: |a| <= i < |b| ==> b[i].name in names)
  }

  function Names(cs: seq<Command>): set<string> {
    set c | c in cs :: c.name
  }

  lemma TouchesOnlyItsGroup(c: Command, users: seq<string>, s: State)
    ensures OnlyTouches(s, After(c, users, s), {c.name})
  {
  }

  lemma TouchesTransitive(s: State, t: State, u: State, names: set<string>, more: set<string>)
    requires OnlyTouches(s, t, names) && OnlyTouches(t, u, more)
    ensures OnlyTouches(s, u, names + more)
  {
    forall i | 0 <= i < |s.group| && !(s.group[i].name in names + more && FirstGroup(s.group, i))
      ensures u.group[i] == s.group[i]
    {
      SameFirsts(s.group, t.group, s.group[i].name);
      assert t.group[i] == s.group[i];
    }
    if s.gshadow.Some? { ShadowsTransitive(s.gshadow.value, t.gshadow.value, u.gshadow.value, names, more); }
  }

  lemma ShadowsTransitive(a: seq<GshadowEntry>, b: seq<GshadowEntry>, c: seq<GshadowEntry>, names: set<string>, more: set<string>)
    requires ShadowsOnlyTouched(a, b, names) && ShadowsOnlyTouched(b, c, more)
    ensures ShadowsOnlyTouched(a, c, names + more)
  {
    forall i | 0 <= i < |a| && !(a[i].name in names + more && FirstShadow(a, i)) ensures c[i] == a[i] {
      SameFirstShadows(a, b, a[i].name);
      assert b[i] == a[i];
    }
  }

  /** No sequence of commands touches anything but the first entries of the groups it names. */
  lemma {:induction false} OthersUnchanged(cs: seq<Command>, users: seq<string>, s: State)
    ensures OnlyTouches(s, RunAll(cs, users, s), Names(cs))
  {
    if cs != [] {
      hide OnlyTouches, After;
      TouchesOnlyItsGroup(cs[0], users, s);
      OthersUnchanged(cs[1..], users, After(cs[0], users, s));
      TouchesTransitive(s, After(cs[0], users, s), RunAll(cs, users, s), {cs[0].name}, Names(cs[1..]));
      assert Names(cs) == {cs[0].name} + Names(cs[1..]) by { assert cs == [cs[0]] + cs[1..]; }
    }
  }
}
