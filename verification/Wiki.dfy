/** examples/wiki: accounts and sessions. Storage is the map the SQLite adapter refines, with
    unique user names and addresses; times are nanoseconds. */
module Wiki {
  import opened Outcomes
  import opened Values
  import Engine

  const SECOND: int := 1_000_000_000
  const DAY: int := 24 * 3600 * SECOND

  /** A time cut to the second, as RFC 3339 prints it. */
  function Truncated(t: int): int {
    t - t % SECOND
  }

  datatype UserRow = UserRow(username: string, email: string, password: string, createdAt: string)

  datatype SessionRow = SessionRow(userID: string, createdAt: string, expiresAt: string)

  datatype State = State(users: map<string, UserRow>, sessions: map<string, SessionRow>)

  /** The library calls: hashing a password with a fresh salt (None if it is too long), checking
      one, and printing and reading times. */
  datatype Library = Library(
    hash: (string, string) -> Option<string>,
    check: (string, string) -> bool,
    format: int -> string,
    parse: string -> Option<int>)

  /** Printing and reading a time back cuts it to the second. */
  ghost predicate TimesReadBack(lib: Library) {
    forall t: int {:trigger lib.format(t)} :: lib.parse(lib.format(t)) == Some(Truncated(t))
  }

  /** A password checks against its own hash, under whatever salt, and no other does. */
  ghost predicate ChecksItsOwn(lib: Library) {
    forall p: string, salt: string, q: string {:trigger lib.hash(p, salt), lib.check(lib.hash(p, salt).value, q)} ::
      lib.hash(p, salt).Some? ==> (lib.check(lib.hash(p, salt).value, q) <==> p == q)
  }

  /** Times as so many marks, for an instance. */
  function TimeText(t: int): string {
    var n := t / SECOND;
    if n < 0 then ['-'] + seq(-n, i => '0') else seq(n, i => '0')
  }

  function TimeOf(s: string): Option<int> {
    if s != "" && s[0] == '-' then Some(-SECOND * (|s| - 1)) else Some(SECOND * |s|)
  }

  /** There are libraries of which both hold. */
  lemma SomeLibraryIsSound() returns (lib: Library)
    ensures TimesReadBack(lib) && ChecksItsOwn(lib)
  {
    lib := Library((p, salt) => Some(p), (h, p) => h == p, t => TimeText(t), TimeOf);
    forall t: int ensures lib.parse(lib.format(t)) == Some(Truncated(t)) {
    }
  }

  /** What a caller sees of a user; the password is blanked. */
  datatype UserView = UserView(id: string, username: string, email: string)

  datatype Command =
    | Register(username: string, email: string, password: string, id: string, salt: string, now: int)
    | Login(username: string, password: string, sid: string, now: int, later: int)
    | Validate(sid: string, now: int)
    | Logout(sid: string, now: int)

  datatype Response = Registered(user: UserView) | LoggedIn(user: UserView,
                                                            sid: string) | Valid(user: UserView) | LoggedOut | Failed

  function View(id: string, row: UserRow): UserView {
    UserView(id, row.username, row.email)
  }

  // ---------------------------------------------------------------- one command

  /** INSERT OR REPLACE on users: a row with the same id, name or address makes way. */
  function WithUser(users: map<string, UserRow>, id: string, row: UserRow): map<string, UserRow> {
    (map u | u in users && u != id && users[u].username != row.username && users[u].email != row.email ::
     users[u])[id := row]
  }

  /** The columns of users but id, with the constraints of the wiki's schema. */
  const USER_COLUMNS: map<string, Engine.ColDef> := map[
    "username" := Engine.ColDef("username", "text", true, None, Null, true),
    "email" := Engine.ColDef("email", "text", true, None, Null, true),
    "password" := Engine.ColDef("password", "text", true, None, Null, false),
    "created_at" := Engine.ColDef("created_at", "datetime", true, None, Null, false)]

  function UserCells(row: UserRow): Engine.Row {
    map["username" := Text(row.username), "email" := Text(row.email), "password" := Text(row.password),
        "created_at" := Text(row.createdAt)]
  }

  function UserRows(users: map<string, UserRow>): Engine.Rows {
    map u | u in users :: UserCells(users[u])
  }

  /** It is the engine's REPLACE on the table of users. */
  lemma RegistrationReplaces(users: map<string, UserRow>, id: string, row: UserRow)
    ensures Engine.WellShaped(USER_COLUMNS, UserRows(users))
    ensures Engine.ReplaceRow(USER_COLUMNS, UserRows(users), id, UserCells(row), true) ==
            Engine.Done(UserRows(WithUser(users, id, row)), 1)
  {
    hide Engine.Clash, Engine.Fill, Engine.NotNullHolds, UserCells;
    var cells := UserCells(row);
    UserFills(row);
    forall u | u in users
      ensures UserCells(users[u]).Keys == USER_COLUMNS.Keys
      ensures Engine.Clash(USER_COLUMNS, UserCells(users[u]), cells) <==>
              users[u].username == row.username || users[u].email == row.email
    {
      UserFills(users[u]);
      UsersClash(users[u], row);
    }
    var gone := Engine.Blockers(USER_COLUMNS, UserRows(users), id, cells);
    assert (UserRows(users) - gone)[id := cells] == UserRows(WithUser(users, id, row));
  }

  lemma UserFills(row: UserRow)
    ensures UserCells(row).Keys == USER_COLUMNS.Keys && Engine.NotNullHolds(USER_COLUMNS, UserCells(row))
    ensures Engine.Fill(USER_COLUMNS, UserCells(row), true) == UserCells(row)
  {
  }

  lemma UsersClash(a: UserRow, b: UserRow)
    ensures Engine.Clash(USER_COLUMNS, UserCells(a), UserCells(b)) <==> a.username == b.username || a.email == b.email
  {
    var x, y := UserCells(a), UserCells(b);
    assert USER_COLUMNS["username"].unique && USER_COLUMNS["email"].unique;
    if a.username == b.username { assert x["username"] == y["username"]; }
    if a.email == b.email { assert x["email"] == y["email"]; }
  }

  ghost predicate NamesUnique(users: map<string, UserRow>) {
    forall u, v :: u in users && v in users && u != v ==>
      users[u].username != users[v].username && users[u].email != users[v].email
  }

  /** The user of this name, if there is one. */
  ghost function Owner(users: map<string, UserRow>, username: string): (r: Option<string>)
    ensures r.Some? ==> r.value in users && users[r.value].username == username
    ensures r == None ==> forall u <- users :: users[u].username != username
  {
    if exists u :: u in users && users[u].username == username then
      var u :| u in users && users[u].username == username;
      Some(u)
    else None
  }

  /** When a stored session ends; a time that does not read back is the zero time, long past. */
  function Expiry(lib: Library, row: SessionRow, now: int): int {
    match lib.parse(row.expiresAt) case Some(t) => t case None => now - 1
  }

  function NewSession(lib: Library, userID: string, now: int, later: int): SessionRow {
    SessionRow(userID, lib.format(now), lib.format(later + DAY))
  }

  ghost function Step(lib: Library, s: State, cmd: Command): (State, Response) {
    match cmd
    case Register(username, email, password, id, salt, now) => (
      match lib.hash(password, salt)
      case None => (s, Failed)
      case Some(h) =>
        var row := UserRow(username, email, h, lib.format(now));
        (s.(users := WithUser(s.users, id, row)), Registered(View(id, row)))
    )
    case Login(username, password, sid, now, later) =>
      if username == "" || Owner(s.users, username) == None then (s, Failed)
      else
        var u := Owner(s.users, username).value;
        if !lib.check(s.users[u].password, password) then (s, Failed)
        else (s.(sessions := s.sessions[sid := NewSession(lib, u, now, later)]), LoggedIn(View(u, s.users[u]), sid))
    case Validate(sid, now) =>
      if sid == "" || sid !in s.sessions then (s, Failed)
      else if now > Expiry(lib, s.sessions[sid], now) then (s.(sessions := s.sessions - {sid}), Failed)
      else
        var u := s.sessions[sid].userID;
        if u in s.users then (s, Valid(View(u, s.users[u]))) else (s, Failed)
    case Logout(sid, _) => (s.(sessions := s.sessions - {sid}), LoggedOut)
  }

  lemma StepKeepsUnique(lib: Library, s: State, cmd: Command)
    requires NamesUnique(s.users)
    ensures NamesUnique(Step(lib, s, cmd).0.users)
  {
  }

  lemma OneOwner(users: map<string, UserRow>, u: string)
    requires NamesUnique(users) && u in users
    ensures Owner(users, users[u].username) == Some(u)
  {
  }

  // ---------------------------------------------------------------- the service

  class AuthService {
    var users: map<string, UserRow>
    var sessions: map<string, SessionRow>
    const lib: Library

    constructor (lib: Library)
      ensures Now() == State(map[], map[]) && this.lib == lib && Good()
    {
      users, sessions, this.lib := map[], map[], lib;
    }

    function Now(): State
      reads this
    {
      State(users, sessions)
    }

    ghost predicate Good()
      reads this
    {
      NamesUnique(users)
    }

    method Register(username: string, email: string, password: string, id: string, salt: string, now: int)
      returns (r: Response)
      requires Good()
      modifies this`users
      ensures Good()
      ensures (Now(), r) == Step(lib, old(Now()), Command.Register(username, email, password, id, salt, now))
      ensures r.Registered? <==> lib.hash(password, salt).Some?
      ensures r.Registered? ==> r.user.id == id && r.user.username == username && r.user.email == email
    {
      StepKeepsUnique(lib, Now(), Command.Register(username, email, password, id, salt, now));
      var hashed := lib.hash(password, salt);
      if hashed == None {
        return Failed;
      }
      var row := UserRow(username, email, hashed.value, lib.format(now));
      users := WithUser(users, id, row);
      return Registered(View(id, row));
    }

    method Login(username: string, password: string, sid: string, now: int, later: int) returns (r: Response)
      requires Good()
      modifies this`sessions
      ensures Good()
      ensures (Now(), r) == Step(lib, old(Now()), Command.Login(username, password, sid, now, later))
    {
      if username == "" {
        return Failed;
      }
      var found := set u | u in users && users[u].username == username;
      if found == {} {
        assert forall u <- users :: u !in found;
        return Failed;
      }
      var u :| u in found;
      OneOwner(users, u);
      var user := users[u];
      if !lib.check(user.password, password) {
        return Failed;
      }
      CreateSession(u, sid, now, later);
      return LoggedIn(View(u, user), sid);
    }

    method CreateSession(userID: string, sid: string, now: int, later: int)
      modifies this`sessions
      ensures sessions == old(sessions)[sid := SessionRow(userID, lib.format(now),
                                                          lib.format(later + 86_400_000_000_000))]
    {
      sessions := sessions[sid := SessionRow(userID, lib.format(now), lib.format(later + DAY))];
    }

    method ValidateSession(sid: string, now: int) returns (r: Response)
      modifies this`sessions
      ensures (Now(), r) == Step(lib, old(Now()), Validate(sid, now))
      ensures sid == "" ==> r == Failed && sessions == old(sessions)
    {
      if sid == "" || sid !in sessions {
        return Failed;
      }
      var session := sessions[sid];
      if now > Expiry(lib, session, now) {
        sessions := sessions - {sid};
        return Failed;
      }
      if session.userID !in users {
        return Failed;
      }
      return Valid(View(session.userID, users[session.userID]));
    }

    method Logout(sid: string)
      modifies this`sessions
      ensures Now() == Step(lib, old(Now()), Command.Logout(sid, 0)).0
    {
      sessions := sessions - {sid};
    }
  }

  // ---------------------------------------------------------------- histories

  const EMPTY := State(map[], map[])

  ghost function After(lib: Library, cmds: seq<Command>, n: nat): State
    requires n <= |cmds|
  {
    if n == 0 then EMPTY else Step(lib, After(lib, cmds, n - 1), cmds[n - 1]).0
  }

  method Perform(service: AuthService, cmd: Command) returns (r: Response)
    requires service.Good()
    modifies service
    ensures service.Good()
    ensures (service.Now(), r) == Step(service.lib, old(service.Now()), cmd)
  {
    match cmd {
      case Register(username, email, password, id, salt, now) => r := service.Register(username, email, password, id,
              salt, now);
      case Login(username, password, sid, now, later) => r := service.Login(username, password, sid, now, later);
      case Validate(sid, now) => r := service.ValidateSession(sid,
                                                              now); StepKeepsUnique(service.lib, old(service.Now()),
                                                                      cmd);
      case Logout(sid, now) => service.Logout(sid); r := LoggedOut;
    }
  }

  /** The service, driven through a history, answers as the steps say. */
  method Serve(lib: Library, cmds: seq<Command>) returns (service: AuthService, responses: seq<Response>)
    ensures |responses| == |cmds| && service.lib == lib && service.Now() == After(lib, cmds, |cmds|)
    ensures forall i :: 0 <= i < |cmds| ==> responses[i] == Step(lib, After(lib, cmds, i), cmds[i]).1
  {
    hide Step;
    service := new AuthService(lib);
    responses := [];
    for k := 0 to |cmds|
      invariant fresh(service) && service.Good() && service.lib == lib
      invariant |responses| == k && service.Now() == After(lib, cmds, k)
      invariant forall i :: 0 <= i < k ==> responses[i] == Step(lib, After(lib, cmds, i), cmds[i]).1
    {
      var r := Perform(service, cmds[k]);
      responses := responses + [r];
    }
  }

  function EndOf(cmd: Command): int {
    if cmd.Login? then cmd.later else cmd.now
  }

  /** The clock does not go back, and random ids are new. */
  ghost predicate Plausible(cmds: seq<Command>) {
    && (forall i :: 0 <= i < |cmds| && cmds[i].Login? ==> cmds[i].now <= cmds[i].later && cmds[i].sid != "")
    && (forall i, j :: 0 <= i < j < |cmds| ==> EndOf(cmds[i]) <= cmds[j].now)
    && (forall i, j :: 0 <= i < j < |cmds| && cmds[i].Login? && cmds[j].Login? ==> cmds[i].sid != cmds[j].sid)
    && (forall i, j :: 0 <= i < j < |cmds| && cmds[i].Register? && cmds[j].Register? ==> cmds[i].id != cmds[j].id)
  }

  // ---------------------------------------------------------------- users by history

  predicate Registers(lib: Library, cmds: seq<Command>, k: nat) {
    k < |cmds| && cmds[k].Register? && lib.hash(cmds[k].password, cmds[k].salt).Some?
  }

  function RowOf(lib: Library, cmd: Command): UserRow
    requires cmd.Register? && lib.hash(cmd.password, cmd.salt).Some?
  {
    UserRow(cmd.username, cmd.email, lib.hash(cmd.password, cmd.salt).value, lib.format(cmd.now))
  }

  /** Command j takes the name or the address of the user registered by command k. */
  predicate Ousts(lib: Library, cmds: seq<Command>, j: nat, k: nat) {
    Registers(lib, cmds, j) && Registers(lib, cmds, k)
      && (cmds[j].username == cmds[k].username || cmds[j].email == cmds[k].email)
  }

  /** Command k registered this user, whose name and address nobody has taken since. */
  ghost predicate Account(lib: Library, cmds: seq<Command>, n: nat, k: nat, id: string) {
    && k < n && Registers(lib, cmds, k) && cmds[k].id == id
    && forall j: nat {:trigger Ousts(lib, cmds, j, k)} :: k < j < n ==> !Ousts(lib, cmds, j, k)
  }

  ghost predicate HasAccount(lib: Library, cmds: seq<Command>, n: nat, id: string, row: UserRow) {
    exists k: nat {:trigger Account(lib, cmds, n, k, id)} :: Account(lib, cmds, n, k, id) && row == RowOf(lib, cmds[k])
  }

  lemma AccountStep(lib: Library, cmds: seq<Command>, n: nat, id: string, row: UserRow)
    requires n < |cmds| && Plausible(cmds)
    ensures HasAccount(lib, cmds, n + 1, id, row) <==>
              if Registers(lib, cmds, n) then
                (if cmds[n].id == id then row == RowOf(lib, cmds[n])
                 else
                   && HasAccount(lib, cmds, n, id, row)
                   && row.username != cmds[n].username && row.email != cmds[n].email)
              else HasAccount(lib, cmds, n, id, row)
  {
    if HasAccount(lib, cmds, n + 1, id, row) {
      var k: nat :| Account(lib, cmds, n + 1, k, id) && row == RowOf(lib, cmds[k]);
      if k < n {
        assert !Ousts(lib, cmds, n, k);
        assert Account(lib, cmds, n, k, id);
      }
    }
    if Registers(lib, cmds, n) && cmds[n].id == id && row == RowOf(lib, cmds[n]) {
      assert Account(lib, cmds, n + 1, n, id);
    }
    if HasAccount(lib, cmds, n, id, row) && !Registers(lib, cmds, n) {
      var k: nat :| Account(lib, cmds, n, k, id) && row == RowOf(lib, cmds[k]);
      assert !Ousts(lib, cmds, n, k);
      assert Account(lib, cmds, n + 1, k, id);
    }
    if HasAccount(lib, cmds, n, id, row) && Registers(lib, cmds, n) && row.username != cmds[n].username
      && row.email != cmds[n].email {
      var k: nat :| Account(lib, cmds, n, k, id) && row == RowOf(lib, cmds[k]);
      assert !Ousts(lib, cmds, n, k);
      assert Account(lib, cmds, n + 1, k, id);
    }
  }

  lemma UserStep(lib: Library, cmds: seq<Command>, n: nat, id: string, row: UserRow)
    requires n < |cmds|
    ensures var users, after := After(lib, cmds, n).users, After(lib, cmds, n + 1).users;
            (id in after && after[id] == row) <==>
              if Registers(lib, cmds, n) then
                (if cmds[n].id == id then row == RowOf(lib, cmds[n])
                 else id in users && users[id] == row && row.username != cmds[n].username && row.email != cmds[n].email)
              else id in users && users[id] == row
  {
  }

  /** A user is stored exactly when its registration has not been ousted. */
  lemma {:induction false} UsersFollowHistory(lib: Library, cmds: seq<Command>, n: nat, id: string, row: UserRow)
    requires n <= |cmds| && Plausible(cmds)
    ensures (id in After(lib, cmds, n).users && After(lib, cmds, n).users[id] == row) <==>
            HasAccount(lib, cmds, n, id, row)
  {
    hide Step, HasAccount, Registers, Plausible;
    if n == 0 {
      NoAccountYet(lib, cmds, id, row);
    } else {
      UsersFollowHistory(lib, cmds, n - 1, id, row);
      UserStep(lib, cmds, n - 1, id, row);
      AccountStep(lib, cmds, n - 1, id, row);
    }
  }

  lemma NoAccountYet(lib: Library, cmds: seq<Command>, id: string, row: UserRow)
    ensures !HasAccount(lib, cmds, 0, id, row)
  {
  }

  lemma {:induction false} AlwaysUnique(lib: Library, cmds: seq<Command>, n: nat)
    requires n <= |cmds|
    ensures NamesUnique(After(lib, cmds, n).users)
  {
    hide NamesUnique, Step;
    if n == 0 {
      NobodyUnique();
    } else {
      AlwaysUnique(lib, cmds, n - 1);
      StepKeepsUnique(lib, After(lib, cmds, n - 1), cmds[n - 1]);
    }
  }

  lemma NobodyUnique()
    ensures NamesUnique(EMPTY.users)
  {
  }

  /** Command k registered this user by this name and address, and nobody has ousted it since. */
  ghost predicate AccountOf(lib: Library, cmds: seq<Command>, k: nat, view: UserView) {
    && Account(lib, cmds, |cmds|, k, view.id)
    && view.id == cmds[k].id && view.username == cmds[k].username && view.email == cmds[k].email
  }

  lemma AccountRow(lib: Library, cmds: seq<Command>, k: nat, view: UserView) returns (row: UserRow)
    requires AccountOf(lib, cmds, k, view)
    ensures HasAccount(lib, cmds, |cmds|, view.id, row) && view == View(view.id, row)
  {
    row := RowOf(lib, cmds[k]);
  }

  lemma AccountBehind(lib: Library, cmds: seq<Command>, view: UserView, row: UserRow) returns (k: nat)
    requires HasAccount(lib, cmds, |cmds|, view.id, row) && view == View(view.id, row)
    ensures AccountOf(lib, cmds, k, view)
  {
    k :| Account(lib, cmds, |cmds|, k, view.id) && row == RowOf(lib, cmds[k]);
  }

  lemma LoginMeans(lib: Library, s: State, username: string, password: string, sid: string, now: int, later: int,
                   view: UserView)
    requires NamesUnique(s.users)
    ensures Step(lib, s, Login(username, password, sid, now, later)).1 == LoggedIn(view, sid) <==>
              && username != "" && view.id in s.users && s.users[view.id].username == username
              && lib.check(s.users[view.id].password, password) && view == View(view.id, s.users[view.id])
  {
    if view.id in s.users { OneOwner(s.users, view.id); }
    hide NamesUnique;
  }

  lemma CheckedIsGiven(lib: Library, p: string, salt: string, q: string)
    requires ChecksItsOwn(lib) && lib.hash(p, salt).Some?
    ensures lib.check(lib.hash(p, salt).value, q) <==> p == q
  {
  }

  /** After any history, Login succeeds exactly with the name and password of a standing
      registration, and yields its user. */
  lemma LoginFollowsHistory(lib: Library, cmds: seq<Command>, username: string, password: string, sid: string,
                            now: int, later: int, view: UserView)
    requires Plausible(cmds) && ChecksItsOwn(lib)
    ensures Step(lib, After(lib, cmds, |cmds|), Login(username, password, sid, now, later)).1 ==
            LoggedIn(view, sid) <==>
              username != "" && exists k: nat {:trigger AccountOf(lib, cmds, k, view)} ::
                AccountOf(lib, cmds, k, view) && cmds[k].username == username && cmds[k].password == password
  {
    var n, s := |cmds|, After(lib, cmds, |cmds|);
    AlwaysUnique(lib, cmds, n);
    LoginMeans(lib, s, username, password, sid, now, later, view);
    hide Step, After, Plausible, ChecksItsOwn, Ousts, NamesUnique;
    if Step(lib, s, Login(username, password, sid, now, later)).1 == LoggedIn(view, sid) {
      var row := s.users[view.id];
      UsersFollowHistory(lib, cmds, n, view.id, row);
      var k: nat :| Account(lib, cmds, n, k, view.id) && row == RowOf(lib, cmds[k]);
      CheckedIsGiven(lib, cmds[k].password, cmds[k].salt, password);
      assert AccountOf(lib, cmds, k, view);
    }
    if k: nat :| AccountOf(lib, cmds, k, view) && cmds[k].username == username && cmds[k].password == password {
      var row := AccountRow(lib, cmds, k, view);
      UsersFollowHistory(lib, cmds, n, view.id, row);
      CheckedIsGiven(lib, cmds[k].password, cmds[k].salt, password);
    }
  }

  // ---------------------------------------------------------------- sessions by history

  /** Command i is a login that was given the session sid for this user. */
  ghost predicate Issues(lib: Library, cmds: seq<Command>, i: nat, sid: string, userID: string) {
    i < |cmds| && cmds[i].Login? && cmds[i].sid == sid
    && Step(lib, After(lib, cmds, i), cmds[i]).1.LoggedIn?
       && Step(lib, After(lib, cmds, i), cmds[i]).1.user.id == userID
  }

  /** The last moment of a session: a day after it was issued, cut to the second. */
  function EndOfSession(cmd: Command): int
    requires cmd.Login?
  {
    Truncated(cmd.later + DAY)
  }

  /** Command j ends the session: a logout, or a look at it after its end. */
  predicate Ends(cmds: seq<Command>, j: nat, sid: string, end: int) {
    j < |cmds| && ((cmds[j].Logout? && cmds[j].sid == sid)
                   || (cmds[j].Validate? && cmds[j].sid == sid && cmds[j].now > end))
  }

  ghost predicate Open(lib: Library, cmds: seq<Command>, n: nat, i: nat, sid: string, userID: string) {
    && i < n && Issues(lib, cmds, i, sid, userID)
    && forall j: nat {:trigger Ends(cmds, j, sid, EndOfSession(cmds[i]))} ::
       i < j < n ==> !Ends(cmds, j, sid, EndOfSession(cmds[i]))
  }

  ghost predicate HasSession(lib: Library, cmds: seq<Command>, n: nat, sid: string, row: SessionRow) {
    exists i: nat {:trigger cmds[i]} :: i < |cmds| && cmds[i].Login? &&
      Open(lib, cmds, n, i, sid, row.userID) && row == NewSession(lib, row.userID, cmds[i].now, cmds[i].later)
  }

  lemma SessionEnds(lib: Library, userID: string, cmd: Command, now: int)
    requires TimesReadBack(lib) && cmd.Login?
    ensures Expiry(lib, NewSession(lib, userID, cmd.now, cmd.later), now) == EndOfSession(cmd)
  {
  }

  ghost predicate IssuesAny(lib: Library, cmds: seq<Command>, i: nat, sid: string) {
    i < |cmds| && cmds[i].Login? && cmds[i].sid == sid && Step(lib, After(lib, cmds, i), cmds[i]).1.LoggedIn?
  }

  /** What one command does to one session. */
  lemma SessionStep(lib: Library, cmds: seq<Command>, n: nat, sid: string, row: SessionRow)
    requires n < |cmds| && sid != ""
    ensures var sessions, after := After(lib, cmds, n).sessions, After(lib, cmds, n + 1).sessions;
            (sid in after && after[sid] == row) <==>
              if IssuesAny(lib, cmds, n, sid) then
                Issues(lib, cmds, n, sid, row.userID) && row == NewSession(lib, row.userID, cmds[n].now, cmds[n].later)
              else sid in sessions && sessions[sid] == row && !Ends(cmds, n, sid, Expiry(lib, row, cmds[n].now))
  {
  }

  lemma OpenStep(lib: Library, cmds: seq<Command>, n: nat, sid: string, row: SessionRow)
    requires n < |cmds| && Plausible(cmds) && TimesReadBack(lib)
    ensures HasSession(lib, cmds, n + 1, sid, row) <==>
              if IssuesAny(lib, cmds, n, sid) then
                Issues(lib, cmds, n, sid, row.userID) && row == NewSession(lib, row.userID, cmds[n].now, cmds[n].later)
              else HasSession(lib, cmds, n, sid, row) && !Ends(cmds, n, sid, Expiry(lib, row, cmds[n].now))
  {
    hide Step, After, Truncated, NewSession, Expiry;
    if HasSession(lib, cmds, n + 1, sid, row) {
      var i: nat :| i < |cmds| && cmds[i].Login? && Open(lib, cmds, n + 1, i, sid, row.userID)
        && row == NewSession(lib, row.userID, cmds[i].now, cmds[i].later);
      if i < n {
        SessionEnds(lib, row.userID, cmds[i], cmds[n].now);
        assert !Ends(cmds, n, sid, EndOfSession(cmds[i]));
        assert Open(lib, cmds, n, i, sid, row.userID);
      }
    }
    if Issues(lib, cmds, n, sid, row.userID) && row == NewSession(lib, row.userID, cmds[n].now, cmds[n].later) {
      assert Open(lib, cmds, n + 1, n, sid, row.userID);
    }
    if HasSession(lib, cmds, n, sid, row) && !Ends(cmds, n, sid, Expiry(lib, row, cmds[n].now)) {
      var i: nat :| i < |cmds| && cmds[i].Login? && Open(lib, cmds, n, i, sid, row.userID)
        && row == NewSession(lib, row.userID, cmds[i].now, cmds[i].later);
      SessionEnds(lib, row.userID, cmds[i], cmds[n].now);
      assert Open(lib, cmds, n + 1, i, sid, row.userID);
    }
  }

  /** A session is stored exactly when some login issued it and nothing has ended it since. */
  lemma {:induction false} SessionsFollowHistory(lib: Library, cmds: seq<Command>, n: nat, sid: string, row: SessionRow)
    requires n <= |cmds| && Plausible(cmds) && TimesReadBack(lib) && sid != ""
    ensures (sid in After(lib, cmds, n).sessions && After(lib, cmds, n).sessions[sid] == row) <==>
            HasSession(lib, cmds, n, sid, row)
  {
    hide Step, HasSession, Issues, IssuesAny, Plausible, TimesReadBack;
    if n == 0 {
      NoSessionYet(lib, cmds, sid, row);
    } else {
      SessionsFollowHistory(lib, cmds, n - 1, sid, row);
      SessionStep(lib, cmds, n - 1, sid, row);
      OpenStep(lib, cmds, n - 1, sid, row);
    }
  }

  lemma NoSessionYet(lib: Library, cmds: seq<Command>, sid: string, row: SessionRow)
    ensures !HasSession(lib, cmds, 0, sid, row)
  {
  }

  // ---------------------------------------------------------------- what a session is worth

  /** Command i logged the user in under sid, nobody has logged the session out since, and now is
      not after its end. */
  ghost predicate StillGood(lib: Library, cmds: seq<Command>, i: nat, sid: string, userID: string, now: int) {
    && Issues(lib, cmds, i, sid, userID) && now <= EndOfSession(cmds[i])
    && forall j :: i < j < |cmds| ==> !(cmds[j].Logout? && cmds[j].sid == sid)
  }

  lemma OpenOrEnded(lib: Library, cmds: seq<Command>, i: nat, sid: string, userID: string, now: int)
    requires i < |cmds| && Issues(lib, cmds, i, sid, userID) && forall j :: 0 <= j < |cmds| ==> EndOf(cmds[j]) <= now
    ensures StillGood(lib, cmds, i, sid, userID, now) <==>
            Open(lib, cmds, |cmds|, i, sid, userID) && now <= EndOfSession(cmds[i])
  {
    hide Step, After, Truncated;
    if StillGood(lib, cmds, i, sid, userID, now) {
      forall j: nat | i < j < |cmds| ensures !Ends(cmds, j, sid, EndOfSession(cmds[i])) {
        assert EndOf(cmds[j]) <= now;
      }
    }
    if Open(lib, cmds, |cmds|, i, sid, userID) {
      forall j: nat | i < j < |cmds| ensures !(cmds[j].Logout? && cmds[j].sid == sid) {
        assert !Ends(cmds, j, sid, EndOfSession(cmds[i]));
      }
    }
  }

  lemma ValidMeans(lib: Library, s: State, sid: string, now: int, view: UserView)
    ensures Step(lib, s, Validate(sid, now)).1 == Valid(view) <==>
              && sid != "" && sid in s.sessions && now <= Expiry(lib, s.sessions[sid], now)
              && s.sessions[sid].userID == view.id && view.id in s.users && view == View(view.id, s.users[view.id])
  {
  }

  /** After any history, ValidateSession yields a user exactly when some login issued the session
      to that user, it has not been logged out since, now is no later than a day after the login
      cut to the second, and the user's registration has not been ousted by another. */
  lemma ValidateFollowsHistory(lib: Library, cmds: seq<Command>, sid: string, now: int, view: UserView)
    requires Plausible(cmds) && TimesReadBack(lib) && sid != "" && forall j :: 0 <= j < |cmds| ==> EndOf(cmds[j]) <= now
    ensures Step(lib, After(lib, cmds, |cmds|), Validate(sid, now)).1 == Valid(view) <==>
              && (exists i: nat {:trigger StillGood(lib, cmds, i, sid, view.id, now)} ::
                  StillGood(lib, cmds, i, sid, view.id, now))
              && (exists k: nat {:trigger AccountOf(lib, cmds, k, view)} :: AccountOf(lib, cmds, k, view))
  {
    hide Step, After, AccountOf, Issues, Plausible, TimesReadBack, Expiry, NewSession, EndOfSession;
    var n, s := |cmds|, After(lib, cmds, |cmds|);
    ValidMeans(lib, s, sid, now, view);
    if Step(lib, s, Validate(sid, now)).1 == Valid(view) {
      UsersFollowHistory(lib, cmds, n, view.id, s.users[view.id]);
      var k := AccountBehind(lib, cmds, view, s.users[view.id]);
      var i := IssuedBy(lib, cmds, sid, s.sessions[sid]);
      SessionEnds(lib, view.id, cmds[i], now);
      OpenOrEnded(lib, cmds, i, sid, view.id, now);
    }
    if (exists i: nat {:trigger StillGood(lib, cmds, i, sid, view.id, now)} ::
        StillGood(lib, cmds, i, sid, view.id, now)) &&
       (exists k: nat {:trigger AccountOf(lib, cmds, k, view)} :: AccountOf(lib, cmds, k, view)) {
      var i: nat :| StillGood(lib, cmds, i, sid, view.id, now);
      var k: nat :| AccountOf(lib, cmds, k, view);
      var row := AccountRow(lib, cmds, k, view);
      UsersFollowHistory(lib, cmds, n, view.id, row);
      StillStored(lib, cmds, i, sid, view.id, now);
    }
  }

  lemma IssuedBy(lib: Library, cmds: seq<Command>, sid: string, row: SessionRow) returns (i: nat)
    requires Plausible(cmds) && TimesReadBack(lib) && sid != ""
    requires var s := After(lib, cmds, |cmds|); sid in s.sessions && s.sessions[sid] == row
    ensures i < |cmds| && cmds[i].Login? && Open(lib, cmds, |cmds|, i, sid, row.userID)
    ensures Issues(lib, cmds, i, sid, row.userID) && row == NewSession(lib, row.userID, cmds[i].now, cmds[i].later)
  {
    hide Step, After, Issues, Plausible, TimesReadBack, NewSession;
    SessionsFollowHistory(lib, cmds, |cmds|, sid, row);
    i :| i < |cmds| && cmds[i].Login? && Open(lib, cmds, |cmds|, i, sid, row.userID)
      && row == NewSession(lib, row.userID, cmds[i].now, cmds[i].later);
  }

  lemma StillStored(lib: Library, cmds: seq<Command>, i: nat, sid: string, userID: string, now: int)
    requires Plausible(cmds) && TimesReadBack(lib) && sid != "" && forall j :: 0 <= j < |cmds| ==> EndOf(cmds[j]) <= now
    requires StillGood(lib, cmds, i, sid, userID, now)
    ensures var s := After(lib, cmds, |cmds|);
            sid in s.sessions && s.sessions[sid].userID == userID && now <= Expiry(lib, s.sessions[sid], now)
  {
    hide Step, After, Plausible, TimesReadBack, Expiry, NewSession;
    OpenOrEnded(lib, cmds, i, sid, userID, now);
    var row := NewSession(lib, userID, cmds[i].now, cmds[i].later);
    UserOf(lib, userID, cmds[i]);
    assert HasSession(lib, cmds, |cmds|, sid, row);
    SessionsFollowHistory(lib, cmds, |cmds|, sid, row);
    SessionEnds(lib, userID, cmds[i], now);
  }

  lemma UserOf(lib: Library, userID: string, cmd: Command)
    requires cmd.Login?
    ensures NewSession(lib, userID, cmd.now, cmd.later).userID == userID
  {
  }

  /** The end of a session lies more than 24 hours less a second, and at most 24 hours, after the
      login. */
  lemma SessionLength(cmd: Command)
    requires cmd.Login?
    ensures cmd.later + DAY - SECOND < EndOfSession(cmd) <= cmd.later + DAY
  {
  }

  lemma SameLogin(lib: Library, cmds: seq<Command>, i: nat, k: nat, sid: string, u: string, v: string)
    requires Plausible(cmds) && Issues(lib, cmds, i, sid, u) && Issues(lib, cmds, k, sid, v)
    ensures i == k
  {
    hide Step, After, Plausible;
    if i != k {
      DistinctSids(cmds, i, k);
    }
  }

  lemma DistinctSids(cmds: seq<Command>, i: nat, k: nat)
    requires Plausible(cmds) && i < |cmds| && k < |cmds| && cmds[i].Login? && cmds[k].Login? && i != k
    ensures cmds[i].sid != cmds[k].sid
  {
    if k < i {
      assert cmds[k].sid != cmds[i].sid;
    }
  }

  lemma PastItsEnd(lib: Library, cmds: seq<Command>, i: nat, k: nat, sid: string, u: string, v: string, now: int)
    requires Plausible(cmds) && Issues(lib, cmds, i, sid, u) && now > EndOfSession(cmds[i])
    ensures !StillGood(lib, cmds, k, sid, v, now)
  {
    hide Step, After, EndOfSession, Plausible;
    if Issues(lib, cmds, k, sid, v) {
      SameLogin(lib, cmds, i, k, sid, u, v);
    }
  }

  /** Once its end has passed, a session is never valid again, whatever happens. */
  lemma ExpiredForever(lib: Library, cmds: seq<Command>, i: nat, sid: string, userID: string, now: int)
    requires Plausible(cmds) && TimesReadBack(lib) && sid != "" && forall j :: 0 <= j < |cmds| ==> EndOf(cmds[j]) <= now
    requires Issues(lib, cmds, i, sid, userID) && now > EndOfSession(cmds[i])
    ensures !Step(lib, After(lib, cmds, |cmds|), Validate(sid, now)).1.Valid?
  {
    hide Step, After, EndOfSession, Plausible, TimesReadBack, Issues, StillGood;
    forall view: UserView ensures Step(lib, After(lib, cmds, |cmds|), Validate(sid, now)).1 != Valid(view) {
      ValidateFollowsHistory(lib, cmds, sid, now, view);
      forall k: nat ensures !StillGood(lib, cmds, k, sid, view.id, now) {
        PastItsEnd(lib, cmds, i, k, sid, userID, view.id, now);
      }
    }
  }

  /** A session that is not logged out, of a user who is not ousted, is worth something for more than
      24 hours less a second after its login, and never for more than 24 hours. */
  lemma SessionLasts(lib: Library, cmds: seq<Command>, i: nat, sid: string, now: int, view: UserView, k: nat)
    requires Plausible(cmds) && TimesReadBack(lib) && sid != "" && forall j :: 0 <= j < |cmds| ==> EndOf(cmds[j]) <= now
    requires Issues(lib, cmds, i, sid, view.id) && forall j ::
             i < j < |cmds| ==> !(cmds[j].Logout? && cmds[j].sid == sid)
    requires AccountOf(lib, cmds, k, view)
    ensures now <= cmds[i].later + 86_399_000_000_000 ==>
            Step(lib, After(lib, cmds, |cmds|), Validate(sid, now)).1 == Valid(view)
    ensures now > cmds[i].later + 86_400_000_000_000 ==>
            !Step(lib, After(lib, cmds, |cmds|), Validate(sid, now)).1.Valid?
  {
    SessionLength(cmds[i]);
    hide Step, After, EndOfSession, Plausible, TimesReadBack, AccountOf;
    if now <= EndOfSession(cmds[i]) {
      assert StillGood(lib, cmds, i, sid, view.id, now);
      ValidateFollowsHistory(lib, cmds, sid, now, view);
    } else {
      ExpiredForever(lib, cmds, i, sid, view.id, now);
    }
  }

  lemma NoAccountLeft(lib: Library, cmds: seq<Command>, k: nat, j: nat, x: nat, id: string)
    requires Plausible(cmds) && k < j < |cmds| && Ousts(lib, cmds, j, k) && id == cmds[k].id
    ensures !Account(lib, cmds, |cmds|, x, id)
  {
    if x < k && Registers(lib, cmds, x) {
      assert cmds[x].id != cmds[k].id;
    } else if k < x < |cmds| && Registers(lib, cmds, x) {
      assert cmds[k].id != cmds[x].id;
    }
  }

  /** A registration with a taken name or address removes the other account: its open sessions are
      still stored but no longer worth anything. */
  lemma OustedUserIsLockedOut(lib: Library, cmds: seq<Command>, k: nat, j: nat, sid: string, now: int, view: UserView)
    requires Plausible(cmds) && TimesReadBack(lib) && sid != "" && forall x :: 0 <= x < |cmds| ==> EndOf(cmds[x]) <= now
    requires k < j < |cmds| && Ousts(lib, cmds, j, k) && view.id == cmds[k].id
    ensures Step(lib, After(lib, cmds, |cmds|), Validate(sid, now)).1 != Valid(view)
  {
    hide Step, After, StillGood, Plausible, TimesReadBack, Account, Ousts;
    ValidateFollowsHistory(lib, cmds, sid, now, view);
    forall x: nat ensures !Account(lib, cmds, |cmds|, x, view.id) {
      NoAccountLeft(lib, cmds, k, j, x, view.id);
    }
  }
}
