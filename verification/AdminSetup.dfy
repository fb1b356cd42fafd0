/** Provisioning one lab: two users and one session, all or nothing, repeatable without side effects. */
module AdminSetup {
  import opened Options
  import opened Sequences

  /** The script creates red and blue users; the table also holds others, such as admin and staff. */
  datatype Role = RedTeam | BlueTeam | OtherRole(name: string)

  datatype User = User(id: nat, username: string, role: Role, lab: nat, passwordHash: string)

  datatype Session = Session(id: nat, lab: nat, team: nat, isSolo: bool, budget: int)

  datatype Tables = Tables(users: seq<User>, sessions: seq<Session>)

  /** An option that should be a UUID. */
  datatype Given = Missing | Uuid(id: nat) | Other

  datatype Request = Request(lab: Given, red: string, blue: string, team: Given, budget: int, isSolo: bool)

  datatype SetupError =
    | NotUuid | BadUsername | SameUsernames | NegativeBudget
    | WrongUser | ManySessions | TeamConflict | NoPassword | Database

  datatype Report = Report(
    sessionId: nat, team: nat, isSolo: bool, redId: nat, blueId: nat, red: string, blue: string,
    redCreated: bool, blueCreated: bool, sessionCreated: bool)

  datatype Result = Failed(error: SetupError) | Done(report: Report)

  /** What a run gets from outside: passwords (None if there is none), the hash function and new row IDs. */
  datatype Outside = Outside(
    password: Role -> Option<string>, hash: string -> string, userIds: (nat, nat), sessionId: nat)

  // ----- Validation -----

  /** What `str.strip` removes. */
  predicate IsSpace(c: char) {
    var n := c as int;
    || 9 <= n <= 13 || 28 <= n <= 32 || n == 0x85 || n == 0xA0 || n == 0x1680 || 0x2000 <= n <= 0x200A
    || n == 0x2028 || n == 0x2029 || n == 0x202F || n == 0x205F || n == 0x3000
  }

  function StripLeft(s: string): string {
    if s != "" && IsSpace(s[0]) then StripLeft(s[1..]) else s
  }

  function StripRight(s: string): string {
    if s != "" && IsSpace(s[|s| - 1]) then StripRight(s[..|s| - 1]) else s
  }

  function Strip(s: string): string { StripRight(StripLeft(s)) }

  function Validate(o: Request): Option<SetupError> {
    if !o.lab.Uuid? || o.team.Other? then Some(NotUuid)
    else if o.red == "" || o.red != Strip(o.red) || o.blue == "" || o.blue != Strip(o.blue) then Some(BadUsername)
    else if o.red == o.blue then Some(SameUsernames)
    else if o.budget < 0 then Some(NegativeBudget)
    else None
  }

  // ----- Reading -----

  type RoleName = (string, Role)

  function Roles(o: Request): seq<RoleName> { [(o.red, RedTeam), (o.blue, BlueTeam)] }

  function Find(users: seq<User>, name: string): Option<User> {
    if users == [] then None
    else if users[0].username == name then Some(users[0])
    else Find(users[1..], name)
  }

  function SessionsOf(sessions: seq<Session>, lab: nat): seq<Session> {
    if sessions == [] then []
    else (if sessions[0].lab == lab then [sessions[0]] else []) + SessionsOf(sessions[1..], lab)
  }

  predicate Fits(u: Option<User>, role: Role, lab: nat) { u.Some? ==> u.value.role == role && u.value.lab == lab }

  predicate AllFit(users: seq<User>, roles: seq<RoleName>, lab: nat) {
    forall i :: 0 <= i < |roles| ==> Fits(Find(users, roles[i].0), roles[i].1, lab)
  }

  function Found(users: seq<User>, roles: seq<RoleName>): seq<Option<User>> {
    seq(|roles|, i requires 0 <= i < |roles| => Find(users, roles[i].0))
  }

  // ----- Passwords -----

  datatype Asked = Asked(hashes: map<Role, string>, roles: seq<Role>, ok: bool)

  /** Each missing user's password is looked up and hashed, until one is missing. */
  function AskPasswords(found: seq<Option<User>>, roles: seq<RoleName>, out: Outside): Asked
    requires |found| == |roles|
  {
    if roles == [] then Asked(map[], [], true)
    else
      var k := |roles| - 1;
      var a := AskPasswords(found[..k], roles[..k], out);
      if !a.ok || found[k].Some? then a
      else
        var role := roles[k].1;
        if out.password(role).GetOr("") == "" then Asked(a.hashes, a.roles + [role], false)
        else Asked(a.hashes[role := out.hash(out.password(role).value)], a.roles + [role], true)
  }

  // ----- Writing -----

  function IdFor(role: Role, out: Outside): nat { if role.RedTeam? then out.userIds.0 else out.userIds.1 }

  function NewUser(r: RoleName, lab: nat, hashes: map<Role, string>, out: Outside): User {
    User(IdFor(r.1, out), r.0, r.1, lab, if r.1 in hashes then hashes[r.1] else "")
  }

  /** The rows that are added, in order. */
  function NewUsers(found: seq<Option<User>>, roles: seq<RoleName>, lab: nat, hashes: map<Role, string>, out: Outside)
    : seq<User>
    requires |found| == |roles|
  {
    if roles == [] then []
    else
      var k := |roles| - 1;
      NewUsers(found[..k], roles[..k], lab, hashes, out)
      + if found[k].None? then [NewUser(roles[k], lab, hashes, out)] else []
  }

  function Complete(found: seq<Option<User>>, roles: seq<RoleName>, lab: nat, hashes: map<Role, string>, out: Outside)
    : seq<User>
    requires |found| == |roles|
  {
    seq(|roles|, i requires 0 <= i < |roles| => found[i].GetOr(NewUser(roles[i], lab, hashes, out)))
  }

  // ----- The whole run -----

  datatype Step = Step(tables: Tables, result: Result, asked: seq<Role>)

  function Refuse(t: Tables, e: SetupError, asked: seq<Role>): Step { Step(t, Failed(e), asked) }

  function TeamConflicts(o: Request, sessions: seq<Session>): bool {
    sessions != [] && o.team.Uuid? && sessions[0].team != o.team.id
  }

  function SessionFor(o: Request, sessions: seq<Session>, redId: nat, out: Outside): Session
    requires o.lab.Uuid?
  {
    if sessions != [] then sessions[0]
    else Session(out.sessionId, o.lab.id, if o.team.Uuid? then o.team.id else redId, o.isSolo, o.budget)
  }

  function Seed(t: Tables, o: Request, out: Outside): Step {
    if Validate(o).Some? then Refuse(t, Validate(o).value, [])
    else
      var roles, lab := Roles(o), o.lab.id;
      var sessions := SessionsOf(t.sessions, lab);
      if !AllFit(t.users, roles, lab) then Refuse(t, WrongUser, [])
      else if |sessions| > 1 then Refuse(t, ManySessions, [])
      else if TeamConflicts(o, sessions) then Refuse(t, TeamConflict, [])
      else
        var found := Found(t.users, roles);
        var a := AskPasswords(found, roles, out);
        if !a.ok then Refuse(t, NoPassword, a.roles)
        else
          var users := Complete(found, roles, lab, a.hashes, out);
          var session := SessionFor(o, sessions, users[0].id, out);
          Step(
            Tables(t.users + NewUsers(found, roles, lab, a.hashes, out),
                   if sessions == [] then t.sessions + [session] else t.sessions),
            Done(Report(session.id, session.team, session.isSolo, users[0].id, users[1].id,
                        users[0].username, users[1].username, found[0].None?, found[1].None?, sessions == [])),
            a.roles)
  }

  /** The transaction around it: a failing flush or commit leaves nothing behind. */
  function SeedTransaction(t: Tables, o: Request, out: Outside, dbFails: bool): Step {
    var s := Seed(t, o, out);
    if s.result.Done? && dbFails then Step(t, Failed(Database), s.asked) else s
  }

  // ----- Validation means what its message says -----

  lemma {:induction false} StripLeftShortens(s: string)
    ensures if s == "" || !IsSpace(s[0]) then StripLeft(s) == s else |StripLeft(s)| < |s|
  {
    if s != "" {
      StripLeftShortens(s[1..]);
    }
  }

  lemma {:induction false} StripRightShortens(s: string)
    ensures if s == "" || !IsSpace(s[|s| - 1]) then StripRight(s) == s else |StripRight(s)| < |s|
  {
    if s != "" {
      StripRightShortens(s[..|s| - 1]);
    }
  }

  lemma StripKeepsExactly(s: string)
    ensures s == Strip(s) <==> s == "" || (!IsSpace(s[0]) && !IsSpace(s[|s| - 1]))
  {
    StripLeftShortens(s);
    StripRightShortens(StripLeft(s));
  }

  // ----- Lookups after writing -----

  lemma {:induction false} FindConcat(a: seq<User>, b: seq<User>, name: string)
    ensures Find(a + b, name) == if Find(a, name).Some? then Find(a, name) else Find(b, name)
  {
    if a == [] {
      assert a + b == b;
    } else {
      FindConcat(a[1..], b, name);
      assert (a + b)[1..] == a[1..] + b;
    }
  }

  lemma {:induction false} SessionsConcat(a: seq<Session>, b: seq<Session>, lab: nat)
    ensures SessionsOf(a + b, lab) == SessionsOf(a, lab) + SessionsOf(b, lab)
  {
    if a == [] {
      assert a + b == b;
    } else {
      SessionsConcat(a[1..], b, lab);
      assert (a + b)[1..] == a[1..] + b && (a + b)[0] == a[0];
      Assoc(if a[0].lab == lab then [a[0]] else [], SessionsOf(a[1..], lab), SessionsOf(b, lab));
    }
  }

  lemma OneSession(s: Session, lab: nat)
    ensures SessionsOf([s], lab) == if s.lab == lab then [s] else []
  {
  }

  ghost predicate DistinctNames(roles: seq<RoleName>) {
    forall i, j :: 0 <= i < j < |roles| ==> roles[i].0 != roles[j].0
  }

  lemma FindOne(u: User, name: string)
    ensures Find([u], name) == if u.username == name then Some(u) else None
  {
  }

  /** Among the new rows a role's name leads to its own row, if its user was missing. */
  lemma {:induction false} FindNew(
    found: seq<Option<User>>, roles: seq<RoleName>, lab: nat, hashes: map<Role, string>, out: Outside, i: nat)
    requires |found| == |roles| && DistinctNames(roles) && i < |roles|
    ensures Find(NewUsers(found, roles, lab, hashes, out), roles[i].0)
         == if found[i].None? then Some(NewUser(roles[i], lab, hashes, out)) else None
  {
    var k := |roles| - 1;
    var news := NewUsers(found[..k], roles[..k], lab, hashes, out);
    var last := NewUser(roles[k], lab, hashes, out);
    FindConcat(news, [last], roles[i].0);
    FindOne(last, roles[i].0);
    assert news + [] == news;
    if i < k {
      FindNew(found[..k], roles[..k], lab, hashes, out, i);
    } else {
      NoNew(found[..k], roles[..k], lab, hashes, out, roles[k].0);
    }
  }

  lemma {:induction false} NoNew(
    found: seq<Option<User>>, roles: seq<RoleName>, lab: nat, hashes: map<Role, string>, out: Outside, name: string)
    requires |found| == |roles| && forall i :: 0 <= i < |roles| ==> roles[i].0 != name
    ensures Find(NewUsers(found, roles, lab, hashes, out), name) == None
  {
    if roles != [] {
      var k := |roles| - 1;
      var news := NewUsers(found[..k], roles[..k], lab, hashes, out);
      NoNew(found[..k], roles[..k], lab, hashes, out, name);
      FindConcat(news, [NewUser(roles[k], lab, hashes, out)], name);
      FindOne(NewUser(roles[k], lab, hashes, out), name);
      assert news + [] == news;
    }
  }

  lemma {:induction false} FoundName(users: seq<User>, name: string)
    ensures Find(users, name).Some? ==> Find(users, name).value.username == name
  {
    if users != [] {
      FoundName(users[1..], name);
    }
  }

  /** Passwords are looked up for missing users only, and none is missing if all went well. */
  lemma {:induction false} AskedForMissing(found: seq<Option<User>>, roles: seq<RoleName>, out: Outside)
    requires |found| == |roles|
    ensures var a := AskPasswords(found, roles, out);
            && (a.ok <==> forall i :: 0 <= i < |roles| && found[i].None? ==> out.password(roles[i].1).GetOr("") != "")
            && (a.ok ==> forall i :: 0 <= i < |roles| && found[i].None? ==> roles[i].1 in a.hashes)
            && (forall role :: role in a.hashes ==> a.hashes[role] == out.hash(out.password(role).GetOr("")))
            && ((forall i :: 0 <= i < |roles| ==> found[i].Some?) ==> a.roles == [])
  {
    if roles != [] {
      var k := |roles| - 1;
      AskedForMissing(found[..k], roles[..k], out);
    }
  }

  // ----- What a successful run leaves -----

  /** Not empty, and no white space at either end. */
  predicate CleanName(s: string) { s != "" && !IsSpace(s[0]) && !IsSpace(s[|s| - 1]) }

  /** A user with the name is of the role and in the lab. */
  predicate NameIsFree(t: Tables, name: string, role: Role, lab: nat) {
    var u := Find(t.users, name);
    u.None? || (u.value.role == role && u.value.lab == lab)
  }

  predicate HasPassword(t: Tables, name: string, role: Role, out: Outside) {
    Find(t.users, name).None? ==> out.password(role).Some? && out.password(role).value != ""
  }

  /** When a run succeeds: everything that could refuse it, checked beforehand. */
  predicate CanSucceed(t: Tables, o: Request, out: Outside) {
    && o.lab.Uuid? && !o.team.Other? && CleanName(o.red) && CleanName(o.blue) && o.red != o.blue && o.budget >= 0
    && NameIsFree(t, o.red, RedTeam, o.lab.id) && NameIsFree(t, o.blue, BlueTeam, o.lab.id)
    && |SessionsOf(t.sessions, o.lab.id)| <= 1
    && (o.team.Uuid? ==> forall s <- SessionsOf(t.sessions, o.lab.id) :: s.team == o.team.id)
    && HasPassword(t, o.red, RedTeam, out) && HasPassword(t, o.blue, BlueTeam, out)
  }

  lemma ValidExactly(o: Request)
    ensures Validate(o).None? <==>
            o.lab.Uuid? && !o.team.Other? && CleanName(o.red) && CleanName(o.blue) && o.red != o.blue && o.budget >= 0
    ensures Validate(o) == Some(NotUuid) ==> !o.lab.Uuid? || o.team.Other?
    ensures Validate(o) == Some(BadUsername) ==> !CleanName(o.red) || !CleanName(o.blue)
    ensures Validate(o) == Some(SameUsernames) ==> o.red == o.blue
    ensures Validate(o) == Some(NegativeBudget) ==> o.budget < 0
    ensures Validate(o).Some? ==> Validate(o).value in {NotUuid, BadUsername, SameUsernames, NegativeBudget}
  {
    StripKeepsExactly(o.red);
    StripKeepsExactly(o.blue);
  }

  lemma SucceedsExactly(t: Tables, o: Request, out: Outside)
    ensures Seed(t, o, out).result.Done? <==> CanSucceed(t, o, out)
    ensures Seed(t, o, out).result.Failed? ==> Seed(t, o, out).tables == t
  {
    var roles := Roles(o);
    var found := Found(t.users, roles);
    ValidExactly(o);
    AskedForMissing(found, roles, out);
    if o.lab.Uuid? && |SessionsOf(t.sessions, o.lab.id)| <= 1 {
      OnlySessionFits(SessionsOf(t.sessions, o.lab.id), o);
    }
  }

  lemma OnlySessionFits(sessions: seq<Session>, o: Request)
    requires |sessions| <= 1
    ensures TeamConflicts(o, sessions) <==> !(o.team.Uuid? ==> forall s <- sessions :: s.team == o.team.id)
  {
    if sessions != [] {
      assert sessions[0] in sessions;
    }
  }

  /** The error of a refused run names something that is indeed wrong. */
  lemma RefusalTellsTheReason(t: Tables, o: Request, out: Outside)
    requires Seed(t, o, out).result.Failed?
    ensures match Seed(t, o, out).result.error
            case NotUuid => !o.lab.Uuid? || o.team.Other?
            case BadUsername => !CleanName(o.red) || !CleanName(o.blue)
            case SameUsernames => o.red == o.blue
            case NegativeBudget => o.budget < 0
            case WrongUser =>
              o.lab.Uuid? && !(NameIsFree(t, o.red, RedTeam, o.lab.id) && NameIsFree(t, o.blue, BlueTeam, o.lab.id))
            case ManySessions => o.lab.Uuid? && |SessionsOf(t.sessions, o.lab.id)| > 1
            case TeamConflict =>
              o.lab.Uuid? && o.team.Uuid? && exists s <- SessionsOf(t.sessions, o.lab.id) :: s.team != o.team.id
            case NoPassword => !(HasPassword(t, o.red, RedTeam, out) && HasPassword(t, o.blue, BlueTeam, out))
            case Database => false
  {
    ValidExactly(o);
    AskedForMissing(Found(t.users, Roles(o)), Roles(o), out);
    if o.lab.Uuid? && |SessionsOf(t.sessions, o.lab.id)| <= 1 {
      OnlySessionFits(SessionsOf(t.sessions, o.lab.id), o);
    }
  }

  /** A successful run asks for the passwords of the users that it creates, red first, and for no other. */
  lemma AsksForCreatedUsers(t: Tables, o: Request, out: Outside)
    requires Seed(t, o, out).result.Done?
    ensures var r := Seed(t, o, out).result.report;
            Seed(t, o, out).asked == (if r.redCreated then [RedTeam] else []) + (if r.blueCreated then [BlueTeam] else [])
  {
    var found, roles := Found(t.users, Roles(o)), Roles(o);
    AskedForMissing(found, roles, out);
    var first := AskPasswords(found[..1], roles[..1], out);
    assert found[..1][..0] == [] && roles[..1][..0] == [];
    assert AskPasswords(found[..1][..0], roles[..1][..0], out).roles == [];
    assert first.roles == if found[0].None? then [RedTeam] else [];
    assert [] + [BlueTeam] == [BlueTeam] && first.roles + [] == first.roles;
  }

  /** Exactly the missing rows are added, behind all existing ones, and the report names the right ones. */
  ghost predicate Provisioned(t: Tables, t1: Tables, o: Request, out: Outside, r: Report)
    requires o.lab.Uuid?
  {
    && UserProvisioned(t, t1, o.red, RedTeam, o.lab.id, out, r.redId, r.redCreated)
    && UserProvisioned(t, t1, o.blue, BlueTeam, o.lab.id, out, r.blueId, r.blueCreated)
    && t.users <= t1.users
    && |t1.users| == |t.users| + (if r.redCreated then 1 else 0) + (if r.blueCreated then 1 else 0)
    && SessionProvisioned(t, t1, o, r)
  }

  ghost predicate UserProvisioned(
    t: Tables, t1: Tables, name: string, role: Role, lab: nat, out: Outside, id: nat, created: bool)
  {
    && (created <==> Find(t.users, name) == None)
    && Find(t1.users, name).Some?
    && (var u := Find(t1.users, name).value;
        && u.id == id && u.username == name && u.role == role && u.lab == lab
        && (!created ==> Find(t.users, name) == Some(u))
        && (created ==> out.password(role).GetOr("") != "" && u.passwordHash == out.hash(out.password(role).value)))
  }

  ghost predicate SessionProvisioned(t: Tables, t1: Tables, o: Request, r: Report)
    requires o.lab.Uuid?
  {
    && t.sessions <= t1.sessions
    && |t1.sessions| == |t.sessions| + (if r.sessionCreated then 1 else 0)
    && (r.sessionCreated <==> SessionsOf(t.sessions, o.lab.id) == [])
    && |SessionsOf(t1.sessions, o.lab.id)| == 1
    && (var s := SessionsOf(t1.sessions, o.lab.id)[0];
        && s.id == r.sessionId && s.team == r.team && s.isSolo == r.isSolo && s.lab == o.lab.id
        && (!r.sessionCreated ==> SessionsOf(t.sessions, o.lab.id) == [s])
        && (r.sessionCreated ==> s.isSolo == o.isSolo && s.budget == o.budget)
        && (r.sessionCreated ==> s.team == if o.team.Uuid? then o.team.id else r.redId))
  }

  lemma {:induction false} SessionsAreOfTheLab(sessions: seq<Session>, lab: nat)
    ensures forall s :: s in SessionsOf(sessions, lab) ==> s.lab == lab
  {
    if sessions != [] {
      SessionsAreOfTheLab(sessions[1..], lab);
    }
  }

  lemma SessionIsProvisioned(t: Tables, o: Request, out: Outside)
    requires Seed(t, o, out).result.Done?
    ensures SessionProvisioned(t, Seed(t, o, out).tables, o, Seed(t, o, out).result.report)
  {
    var r, t1 := Seed(t, o, out).result.report, Seed(t, o, out).tables;
    var before := SessionsOf(t.sessions, o.lab.id);
    SessionsAreOfTheLab(t.sessions, o.lab.id);
    if before == [] {
      var s := SessionFor(o, before, r.redId, out);
      SessionsConcat(t.sessions, [s], o.lab.id);
      OneSession(s, o.lab.id);
    } else {
      assert before[0] in before;
      assert before == [before[0]];
    }
  }

  lemma UserIsProvisioned(t: Tables, o: Request, out: Outside, i: nat)
    requires Seed(t, o, out).result.Done? && i < 2
    ensures var r := Seed(t, o, out).result.report;
            UserProvisioned(t, Seed(t, o, out).tables, Roles(o)[i].0, Roles(o)[i].1, o.lab.id, out,
              if i == 0 then r.redId else r.blueId, if i == 0 then r.redCreated else r.blueCreated)
  {
    var roles, lab := Roles(o), o.lab.id;
    var found := Found(t.users, roles);
    var a := AskPasswords(found, roles, out);
    AskedForMissing(found, roles, out);
    FindNew(found, roles, lab, a.hashes, out, i);
    FindConcat(t.users, NewUsers(found, roles, lab, a.hashes, out), roles[i].0);
    FoundName(t.users, roles[i].0);
  }

  lemma {:induction false} NewUsersCount(
    found: seq<Option<User>>, roles: seq<RoleName>, lab: nat, hashes: map<Role, string>, out: Outside)
    requires |found| == |roles| == 2
    ensures |NewUsers(found, roles, lab, hashes, out)|
         == (if found[0].None? then 1 else 0) + (if found[1].None? then 1 else 0)
  {
    var one := NewUsers(found[..1], roles[..1], lab, hashes, out);
    assert found[..1][..0] == [] && roles[..1][..0] == [];
    assert NewUsers(found[..1][..0], roles[..1][..0], lab, hashes, out) == [];
    assert |one| == if found[0].None? then 1 else 0;
  }

  /** A successful run adds exactly the missing rows and changes no other. */
  lemma SuccessAddsTheMissingRows(t: Tables, o: Request, out: Outside)
    requires Seed(t, o, out).result.Done?
    ensures Provisioned(t, Seed(t, o, out).tables, o, out, Seed(t, o, out).result.report)
  {
    UserIsProvisioned(t, o, out, 0);
    UserIsProvisioned(t, o, out, 1);
    SessionIsProvisioned(t, o, out);
    var found := Found(t.users, Roles(o));
    NewUsersCount(found, Roles(o), o.lab.id, AskPasswords(found, Roles(o), out).hashes, out);
  }

  // ----- Running it again -----

  /** The same lab and users; a team, if given, that the session has; any budget and mode. */
  predicate SameLab(o: Request, again: Request, team: nat) {
    && again.lab == o.lab && again.red == o.red && again.blue == o.blue
    && !again.team.Other? && (again.team.Uuid? ==> again.team.id == team) && again.budget >= 0
  }

  lemma {:induction false} NothingNew(
    found: seq<Option<User>>, roles: seq<RoleName>, lab: nat, hashes: map<Role, string>, out: Outside)
    requires |found| == |roles| && forall i :: 0 <= i < |roles| ==> found[i].Some?
    ensures NewUsers(found, roles, lab, hashes, out) == []
  {
    if roles != [] {
      var k := |roles| - 1;
      NothingNew(found[..k], roles[..k], lab, hashes, out);
    }
  }

  /** What the report of a first run promises about any later state: its users and its session are there. */
  ghost predicate Holds(t: Tables, o: Request, r: Report) {
    && o.lab.Uuid?
    && HoldsUser(Find(t.users, o.red), o.red, RedTeam, o.lab.id, r.redId)
    && HoldsUser(Find(t.users, o.blue), o.blue, BlueTeam, o.lab.id, r.blueId)
    && r.red == o.red && r.blue == o.blue
    && |SessionsOf(t.sessions, o.lab.id)| == 1
    && (var s := SessionsOf(t.sessions, o.lab.id)[0]; s.id == r.sessionId && s.team == r.team && s.isSolo == r.isSolo)
  }

  ghost predicate HoldsUser(u: Option<User>, name: string, role: Role, lab: nat, id: nat) {
    u.Some? && u.value.id == id && u.value.username == name && u.value.role == role && u.value.lab == lab
  }

  function OnlyReported(r: Report): Report {
    r.(redCreated := false, blueCreated := false, sessionCreated := false)
  }

  lemma SuccessHolds(t: Tables, o: Request, out: Outside)
    requires Seed(t, o, out).result.Done?
    ensures Holds(Seed(t, o, out).tables, o, Seed(t, o, out).result.report) && Validate(o).None?
  {
    SuccessAddsTheMissingRows(t, o, out);
    FoundName(t.users, o.red);
    FoundName(t.users, o.blue);
  }

  lemma HeldIsReported(t: Tables, o: Request, r: Report, again: Request, out: Outside)
    requires Holds(t, o, r) && Validate(o).None? && SameLab(o, again, r.team)
    ensures Seed(t, again, out) == Step(t, Done(OnlyReported(r)), [])
  {
    var roles := Roles(again);
    var found := Found(t.users, roles);
    AskedForMissing(found, roles, out);
    NothingNew(found, roles, o.lab.id, AskPasswords(found, roles, out).hashes, out);
    assert t.users + [] == t.users;
  }

  /** The second run returns the same IDs, creates nothing and asks for no password, even if there is none. */
  lemma SecondRunChangesNothing(t: Tables, o: Request, out: Outside, again: Request, out2: Outside)
    requires Seed(t, o, out).result.Done? && SameLab(o, again, Seed(t, o, out).result.report.team)
    ensures var first := Seed(t, o, out);
            Seed(first.tables, again, out2) == Step(first.tables, Done(OnlyReported(first.result.report)), [])
  {
    SuccessHolds(t, o, out);
    HeldIsReported(Seed(t, o, out).tables, o, Seed(t, o, out).result.report, again, out2);
  }

  // ----- Any sequence of runs -----

  ghost predicate UniqueNames(users: seq<User>) {
    forall i, j :: 0 <= i < j < |users| ==> users[i].username != users[j].username
  }

  lemma {:induction false} NotFound(users: seq<User>, name: string)
    ensures Find(users, name).None? <==> forall i :: 0 <= i < |users| ==> users[i].username != name
  {
    if users != [] {
      NotFound(users[1..], name);
      assert forall i :: 0 < i < |users| ==> users[i] == users[1..][i - 1];
    }
  }

  lemma {:induction false} NewNamesAreUnique(
    users: seq<User>, found: seq<Option<User>>, roles: seq<RoleName>, lab: nat, hashes: map<Role, string>, out: Outside)
    requires |found| == |roles| && DistinctNames(roles) && UniqueNames(users) && found == Found(users, roles)
    ensures UniqueNames(users + NewUsers(found, roles, lab, hashes, out))
  {
    if roles == [] {
      assert users + [] == users;
    } else {
      var k := |roles| - 1;
      var news, name := NewUsers(found[..k], roles[..k], lab, hashes, out), roles[k].0;
      assert found[..k] == Found(users, roles[..k]);
      NewNamesAreUnique(users, found[..k], roles[..k], lab, hashes, out);
      if found[k].None? {
        NoNew(found[..k], roles[..k], lab, hashes, out, name);
        FindConcat(users, news, name);
        NotFound(users + news, name);
        Assoc(users, news, [NewUser(roles[k], lab, hashes, out)]);
      } else {
        assert news + [] == news;
      }
    }
  }

  datatype Call = Call(request: Request, out: Outside, dbFails: bool)

  function After(t: Tables, c: Call): Tables { SeedTransaction(t, c.request, c.out, c.dbFails).tables }

  function Runs(t: Tables, calls: seq<Call>): Tables {
    if calls == [] then t else After(Runs(t, calls[..|calls| - 1]), calls[|calls| - 1])
  }

  /** No row is lost or changed, names stay unique, and a lab that has a session gets no other. */
  ghost predicate Keeps(t: Tables, t1: Tables, lab: nat) {
    && t.users <= t1.users && t.sessions <= t1.sessions
    && (UniqueNames(t.users) ==> UniqueNames(t1.users))
    && (SessionsOf(t.sessions, lab) != [] ==> SessionsOf(t1.sessions, lab) == SessionsOf(t.sessions, lab))
    && |SessionsOf(t1.sessions, lab)| <= if SessionsOf(t.sessions, lab) == [] then 1 else |SessionsOf(t.sessions, lab)|
  }

  lemma CallKeeps(t: Tables, c: Call, lab: nat)
    ensures Keeps(t, After(t, c), lab)
  {
    var o, s := c.request, Seed(t, c.request, c.out);
    if s.result.Done? && !c.dbFails {
      var found := Found(t.users, Roles(o));
      var hashes := AskPasswords(found, Roles(o), c.out).hashes;
      SuccessAddsTheMissingRows(t, o, c.out);
      if UniqueNames(t.users) {
        NewNamesAreUnique(t.users, found, Roles(o), o.lab.id, hashes, c.out);
      }
      var before := SessionsOf(t.sessions, o.lab.id);
      if before == [] {
        var session := SessionFor(o, before, s.result.report.redId, c.out);
        SessionsConcat(t.sessions, [session], lab);
        OneSession(session, lab);
      }
    }
  }

  lemma {:induction false} RunsKeep(t: Tables, calls: seq<Call>, lab: nat)
    ensures Keeps(t, Runs(t, calls), lab)
  {
    if calls != [] {
      var t1 := Runs(t, calls[..|calls| - 1]);
      RunsKeep(t, calls[..|calls| - 1], lab);
      CallKeeps(t1, calls[|calls| - 1], lab);
    }
  }

  lemma FindKept(a: seq<User>, b: seq<User>, name: string)
    requires a <= b && Find(a, name).Some?
    ensures Find(b, name) == Find(a, name)
  {
    FindConcat(a, b[|a|..], name);
    assert b == a + b[|a|..];
  }

  /** A lab once provisioned stays so: whatever runs come between, its own run still only reports. */
  lemma LaterRunsStillReport(
    t: Tables, o: Request, out: Outside, calls: seq<Call>, again: Request, out2: Outside)
    requires Seed(t, o, out).result.Done? && SameLab(o, again, Seed(t, o, out).result.report.team)
    ensures var first := Seed(t, o, out);
            var t2 := Runs(first.tables, calls);
            Seed(t2, again, out2) == Step(t2, Done(OnlyReported(first.result.report)), [])
  {
    var t1, r := Seed(t, o, out).tables, Seed(t, o, out).result.report;
    SuccessHolds(t, o, out);
    RunsKeep(t1, calls, o.lab.id);
    FindKept(t1.users, Runs(t1, calls).users, o.red);
    FindKept(t1.users, Runs(t1, calls).users, o.blue);
    HeldIsReported(Runs(t1, calls), o, r, again, out2);
  }

  // ----- The store and the script -----

  class Store {
    var users: seq<User>
    var sessions: seq<Session>

    function View(): Tables
      reads this
    {
      Tables(users, sessions)
    }

    constructor (t: Tables)
      ensures View() == t
    {
      users, sessions := t.users, t.sessions;
    }

    method AddUser(u: User)
      modifies this`users
      ensures users == old(users) + [u]
    {
      users := users + [u];
    }

    method AddSession(s: Session)
      modifies this`sessions
      ensures sessions == old(sessions) + [s]
    {
      sessions := sessions + [s];
    }

    /** The first loop: both lookups, up to the first user that does not fit. */
    method FindUsers(roles: seq<RoleName>, lab: nat) returns (found: seq<Option<User>>, ok: bool)
      ensures ok <==> AllFit(users, roles, lab)
      ensures ok ==> found == Found(users, roles)
    {
      found, ok := [], true;
      for i := 0 to |roles|
        invariant ok && found == Found(users, roles[..i]) && AllFit(users, roles[..i], lab)
      {
        var user := Find(users, roles[i].0);
        assert roles[..i + 1] == roles[..i] + [roles[i]];
        if !Fits(user, roles[i].1, lab) {
          ok := false;
          return;
        }
        found := found + [user];
      }
      assert roles[..|roles|] == roles;
    }

    /** The third loop: one row for every missing user. */
    method AddUsers(found: seq<Option<User>>, roles: seq<RoleName>, lab: nat, hashes: map<Role, string>, out: Outside)
      returns (all: seq<User>)
      requires |found| == |roles|
      modifies this`users
      ensures users == old(users) + NewUsers(found, roles, lab, hashes, out)
      ensures all == Complete(found, roles, lab, hashes, out)
    {
      all := [];
      for i := 0 to |roles|
        invariant users == old(users) + NewUsers(found[..i], roles[..i], lab, hashes, out)
        invariant all == Complete(found[..i], roles[..i], lab, hashes, out)
      {
        assert found[..i + 1][..i] == found[..i] && roles[..i + 1][..i] == roles[..i];
        if found[i].None? {
          AddUser(NewUser(roles[i], lab, hashes, out));
        }
        all := all + [found[i].GetOr(NewUser(roles[i], lab, hashes, out))];
      }
      assert found[..|roles|] == found && roles[..|roles|] == roles;
    }

    method SeedRows(o: Request, out: Outside) returns (result: Result, asked: seq<Role>)
      modifies this
      ensures Step(View(), result, asked) == Seed(old(View()), o, out)
    {
      asked := [];
      if Validate(o).Some? {
        return Failed(Validate(o).value), [];
      }
      var roles, lab := Roles(o), o.lab.id;
      var found, ok := FindUsers(roles, lab);
      if !ok {
        return Failed(WrongUser), [];
      }
      var before := SessionsOf(sessions, lab);
      if |before| > 1 {
        return Failed(ManySessions), [];
      }
      if TeamConflicts(o, before) {
        return Failed(TeamConflict), [];
      }
      var hashes;
      hashes, asked, ok := LookUpPasswords(found, roles, out);
      if !ok {
        return Failed(NoPassword), asked;
      }
      var all := AddUsers(found, roles, lab, hashes, out);
      var session := SessionFor(o, before, all[0].id, out);
      if before == [] {
        AddSession(session);
      }
      result := Done(Report(session.id, session.team, session.isSolo, all[0].id, all[1].id,
                            all[0].username, all[1].username, found[0].None?, found[1].None?, before == []));
    }

    method RunTransaction(o: Request, out: Outside, dbFails: bool) returns (result: Result, asked: seq<Role>)
      modifies this
      ensures Step(View(), result, asked) == SeedTransaction(old(View()), o, out, dbFails)
      ensures result.Failed? ==> View() == old(View())
      ensures result.Done? ==> o.lab.Uuid? && Provisioned(old(View()), View(), o, out, result.report)
    {
      var users0, sessions0 := users, sessions;
      result, asked := SeedRows(o, out);
      SucceedsExactly(Tables(users0, sessions0), o, out);
      if result.Done? && dbFails {
        users, sessions, result := users0, sessions0, Failed(Database);
      } else if result.Done? {
        SuccessAddsTheMissingRows(Tables(users0, sessions0), o, out);
      }
    }
  }

  /** The second loop: passwords for the missing users, before any row is written. */
  method LookUpPasswords(found: seq<Option<User>>, roles: seq<RoleName>, out: Outside)
    returns (hashes: map<Role, string>, asked: seq<Role>, ok: bool)
    requires |found| == |roles|
    ensures Asked(hashes, asked, ok) == AskPasswords(found, roles, out)
  {
    hashes, asked, ok := map[], [], true;
    for i := 0 to |roles|
      invariant ok && Asked(hashes, asked, ok) == AskPasswords(found[..i], roles[..i], out)
    {
      assert found[..i + 1][..i] == found[..i] && roles[..i + 1][..i] == roles[..i];
      if found[i].None? {
        var role := roles[i].1;
        var password := out.password(role).GetOr("");
        asked := asked + [role];
        if password == "" {
          ok := false;
          FailureStays(found, roles, out, i + 1);
          return;
        }
        hashes := hashes[role := out.hash(password)];
      }
    }
    assert found[..|roles|] == found && roles[..|roles|] == roles;
  }

  lemma {:induction false} FailureStays(found: seq<Option<User>>, roles: seq<RoleName>, out: Outside, k: nat)
    requires |found| == |roles| && k <= |roles| && !AskPasswords(found[..k], roles[..k], out).ok
    ensures AskPasswords(found, roles, out) == AskPasswords(found[..k], roles[..k], out)
    decreases |roles|
  {
    if k == |roles| {
      assert found[..k] == found && roles[..k] == roles;
    } else {
      var n := |roles| - 1;
      assert found[..n][..k] == found[..k] && roles[..n][..k] == roles[..k];
      FailureStays(found[..n], roles[..n], out, k);
    }
  }
}
