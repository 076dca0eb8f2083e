/**
 Comma-separated lists of users.
 */
module UserLists {
  import opened Text

  /** The Unicode White_Space property. */
  predicate White(c: char) {
    || '\t' <= c <= '\r' || c == ' ' || c == '\U{0085}' || c == '\U{00A0}' || c == '\U{1680}'
    || '\U{2000}' <= c <= '\U{200A}' || c == '\U{2028}' || c == '\U{2029}' || c == '\U{202F}'
    || c == '\U{205F}' || c == '\U{3000}'
  }

  /** A user as it may stand between two commas. */
  predicate Clean(user: string) {
    user != "" && ',' !in user && !White(user[0]) && !White(user[|user| - 1])
  }

  function Fields(s: string): seq<string>
    decreases |s|
  {
    var k := FirstOf(s, ',');
    if k == |s| then [s] else [s[..k]] + Fields(s[k + 1..])
  }

  function UserIn(field: string): seq<string> {
    if Trim(field, White) == "" then [] else [Trim(field, White)]
  }

  function Users(fields: seq<string>): seq<string> {
    if fields == [] then [] else UserIn(fields[0]) + Users(fields[1..])
  }

  function ParseUserList(s: string): seq<string> {
    if s == "" then [] else Users(Fields(s))
  }

  lemma {:induction false} FieldsAppend(a: string, b: string)
    ensures Fields(a + "," + b) == Fields(a) + Fields(b)
    decreases |a|
  {
    var s := a + "," + b;
    hide FirstOf;
    var k := FirstOf(a, ',');
    FirstOfIs(s, ',', k);
    if k < |a| {
      var rest := a[k + 1..];
      FieldsAppend(rest, b);
      assert s[k + 1..] == rest + "," + b && s[..k] == a[..k];
      assert Fields(s) == [a[..k]] + Fields(rest + "," + b);
      assert [a[..k]] + (Fields(rest) + Fields(b)) == ([a[..k]] + Fields(rest)) + Fields(b);
    } else {
      assert s[..k] == a && s[k + 1..] == b;
    }
  }

  lemma {:induction false} UsersAppend(a: seq<string>, b: seq<string>)
    ensures Users(a + b) == Users(a) + Users(b)
  {
    hide UserIn;
    if a == [] {
      assert a + b == b;
    } else {
      UsersAppend(a[1..], b);
      assert (a + b)[1..] == a[1..] + b && (a + b)[0] == a[0];
      assert UserIn(a[0]) + (Users(a[1..]) + Users(b)) == Users(a) + Users(b);
    }
  }

  /** A list is read one part at a time. */
  lemma ParseAppend(a: string, b: string)
    ensures ParseUserList(a + "," + b) == ParseUserList(a) + ParseUserList(b)
  {
    hide Fields, Users;
    FieldsAppend(a, b);
    UsersAppend(Fields(a), Fields(b));
    NoUsers();
  }

  lemma NoUsers()
    ensures Users(Fields("")) == []
  {
    assert Fields("") == [""];
  }

  lemma {:induction false} UsersAreClean(fields: seq<string>)
    requires forall f :: f in fields ==> ',' !in f
    ensures forall u :: u in Users(fields) ==> Clean(u)
  {
    if fields != [] {
      UsersAreClean(fields[1..]);
      UserIsClean(fields[0]);
    }
  }

  lemma NotInPart(s: string, lo: nat, hi: nat)
    requires lo <= hi <= |s| && ',' !in s
    ensures ',' !in s[lo..hi]
  {
  }

  lemma UserIsClean(field: string)
    requires ',' !in field
    ensures forall u :: u in UserIn(field) ==> Clean(u)
  {
    hide Trim, White;
    var from, to := TrimIsExact(field, White);
    NotInPart(field, from, to);
  }

  lemma {:induction false} FieldsHaveNoComma(s: string)
    ensures forall f :: f in Fields(s) ==> ',' !in f
    decreases |s|
  {
    var k := FirstOf(s, ',');
    if k < |s| { FieldsHaveNoComma(s[k + 1..]); }
  }

  lemma ParseIsClean(s: string)
    ensures forall u :: u in ParseUserList(s) ==> Clean(u)
  {
    FieldsHaveNoComma(s);
    UsersAreClean(Fields(s));
  }

  lemma ParseOne(user: string)
    requires Clean(user)
    ensures ParseUserList(user) == [user]
  {
    FirstOfIs(user, ',', |user|);
    assert Fields(user) == [user];
    EndIs(user, White, |user|);
    StartIs(user, White, 0);
    assert user[..|user|] == user && user[0..] == user;
    assert UserIn(user) == [user] && Users([user][1..]) == [];
  }

  /** White space around a user is not part of it, and a part of white space alone is no user. */
  lemma ParseTrims(left: string, user: string, right: string)
    requires forall c :: c in left + right ==> White(c)
    ensures Clean(user) ==> ParseUserList(left + user + right) == [user]
    ensures ParseUserList(left + right) == []
  {
    hide ParseUserList, Trim;
    NoCommaIn(left + right);
    TrimAround(left, "", right);
    assert left + "" + right == left + right;
    ParseField(left + right);
    if Clean(user) {
      var field := left + user + right;
      assert ',' !in left && ',' !in right by {
        assert forall c :: c in left || c in right ==> c in left + right;
      }
      TrimAround(left, user, right);
      ParseField(field);
    }
  }

  lemma ParseField(field: string)
    requires ',' !in field
    ensures ParseUserList(field) == UserIn(field)
  {
    hide Trim, White;
    NoUsers();
    FirstOfIs(field, ',', |field|);
    assert Users([field]) == UserIn(field) + Users([field][1..]);
  }

  lemma NoCommaIn(s: string)
    requires forall c :: c in s ==> White(c)
    ensures ',' !in s
  {}

  lemma TrimAround(left: string, user: string, right: string)
    requires forall c :: c in left + right ==> White(c)
    requires user != "" ==> !White(user[0]) && !White(user[|user| - 1])
    ensures Trim(left + user + right, White) == user
  {
    hide White;
    var s := left + user + right;
    assert forall i :: 0 <= i < |left| ==> s[i] == (left + right)[i];
    assert forall i :: |left| + |user| <= i < |s| ==> s[i] == (left + right)[i - |user|];
    if user == "" {
      EndIs(s, White, 0);
    } else {
      EndIs(s, White, |left| + |user|);
      StartIs(s[..|left| + |user|], White, |left|);
      assert s[..|left| + |user|][|left|..] == user;
    }
  }

  /** Users joined by commas are read back. */
  lemma {:induction false} ParseInvertsJoin(users: seq<string>)
    requires users != [] && forall u :: u in users ==> Clean(u)
    ensures ParseUserList(Join(users, ',')) == users
  {
    hide ParseUserList, Clean;
    ParseOne(users[0]);
    if |users| == 1 {
      assert users == [users[0]];
    } else {
      ParseInvertsJoin(users[1..]);
      ParseAppend(users[0], Join(users[1..], ','));
      assert Join(users, ',') == users[0] + "," + Join(users[1..], ',');
      assert users == [users[0]] + users[1..];
    }
  }
}
