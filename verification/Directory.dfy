/** examples/ldapd: the directory server. Its storage is the map the SQLite adapter refines: an
    insert always succeeds and reports created, and nothing fails. */
module Directory {
  import opened Outcomes
  import opened Text
  import opened LdapText

  datatype Entry = Entry(parentDN: Option<string>, objectClass: string, attributes: string, createdAt: string,
                         updatedAt: Option<string>)

  datatype User = User(passwordHash: string, salt: string, createdAt: string, lastLogin: Option<string>)

  datatype State = State(entries: map<string, Entry>, users: map<string, User>)

  /** What the server is built with: names, the hash of a password and a salt, the JSON text of a
      string, and how what is stored in a date column and in a JSON column comes back. */
  datatype Config = Config(baseDN: string, bindDN: string, bindPW: string, hash: (string, string) -> string,
                           encode: string -> string, printed: string -> string, spelled: string -> string)

  function PrintedIf(c: Config, date: Option<string>): Option<string> {
    if date.Some? then Some(c.printed(date.value)) else None
  }

  /** An entry as a lookup returns it; an update writes all of it back. */
  function Fetched(c: Config, e: Entry): Entry {
    e.(attributes := c.spelled(e.attributes), createdAt := c.printed(e.createdAt),
       updatedAt := PrintedIf(c, e.updatedAt))
  }

  /** A user record as a lookup returns it. */
  function FetchedUser(c: Config, u: User): User {
    u.(createdAt := c.printed(u.createdAt), lastLogin := PrintedIf(c, u.lastLogin))
  }

  // ---------------------------------------------------------------- commands

  /** A message once it has been split into words; what follows the name is joined again. The
      salt of an ADD is the random one drawn while it is handled. */
  datatype Command =
    | Bind(dn: string, password: string)
    | Search(dn: string, filter: string)
    | Add(dn: string, attributes: string, salt: string)
    | Delete(dn: string)
    | Modify(dn: string, attributes: string)
    | Help
    | TooShort(name: string)
    | Unknown(name: string)
    | Empty

  function Decode(message: string, salt: string): Command {
    var parts := Fields(message);
    if |parts| == 0 then Empty
    else
      var command := Upper(parts[0]);
      if command == "BIND" then
        if |parts| < 3 then TooShort(command) else Bind(parts[1], Join(parts[2..], " "))
      else if command == "SEARCH" then
        if |parts| < 2 then TooShort(command) else Search(parts[1], Join(parts[2..], " "))
      else if command == "ADD" then
        if |parts| < 2 then TooShort(command) else Add(parts[1], Join(parts[2..], " "), salt)
      else if command == "DELETE" then
        if |parts| < 2 then TooShort(command) else Delete(parts[1])
      else if command == "MODIFY" then
        if |parts| < 2 then TooShort(command) else Modify(parts[1], Join(parts[2..], " "))
      else if command == "HELP" then Help
      else Unknown(command)
  }

  datatype Response =
    | AdminBound | Bound | InvalidCredentials | Added | Deleted | Modified | NotFound
    | Found(entry: Option<Entry>) | Helped | Refused

  // ---------------------------------------------------------------- one command

  function ClassOf(attributes: string): string {
    var m := AttributesOf(Fields(attributes));
    if "objectClass" in m then m["objectClass"] else "person"
  }

  /** The password an ADD gives its entry, if it makes a user of it. */
  function PasswordIn(attributes: string): Option<string> {
    var m := AttributesOf(Fields(attributes));
    if ClassOf(attributes) in {"person", "inetOrgPerson"} && "userPassword" in m then Some(m["userPassword"]) else None
  }

  function Step(c: Config, s: State, cmd: Command, now: string): (State, Response) {
    match cmd
    case Bind(dn, password) =>
      if dn == c.bindDN && password == c.bindPW then (s, AdminBound)
      else if Authentic(c, s, dn, password) then
        (s.(users := s.users[dn := FetchedUser(c, s.users[dn]).(lastLogin := Some(now))]), Bound)
      else (s, InvalidCredentials)
    case Search(dn, filter) => (s, Found(Searched(c, s, dn, filter)))
    case Add(dn, attributes, salt) =>
      var entry := Entry(Some(GetParentDN(dn)), ClassOf(attributes), c.encode(attributes), now, None);
      var added := s.(entries := s.entries[dn := entry]);
      if PasswordIn(attributes).Some? then
        (added.(users := added.users[dn := User(c.hash(PasswordIn(attributes).value, salt), salt, now, None)]), Added)
      else (added, Added)
    case Delete(dn) =>
      if dn in s.entries then (State(s.entries - {dn}, s.users - {dn}), Deleted) else (s, NotFound)
    case Modify(dn, attributes) =>
      if dn in s.entries then
        var changed := Fetched(c, s.entries[dn]).(attributes := attributes, updatedAt := Some(now));
        (s.(entries := s.entries[dn := changed]), Modified)
      else (s, NotFound)
    case Help => (s, Helped)
    case _ => (s, Refused)
  }

  predicate Authentic(c: Config, s: State, dn: string, password: string) {
    dn in s.users && c.hash(password, s.users[dn].salt) == s.users[dn].passwordHash
  }

  /** Only the entry of that very name is looked up, and only without a filter or with one that
      speaks of objectClass. */
  function Searched(c: Config, s: State, dn: string, filter: string): Option<Entry> {
    if (filter == "" || Contains(filter, "objectClass")) && dn in s.entries then Some(Fetched(c, s.entries[dn]))
    else None
  }

  /** strings.Contains */
  function Contains(s: string, t: string): bool {
    t <= s || (s != "" && Contains(s[1..], t))
  }

  // ---------------------------------------------------------------- the server

  class LDAPServer {
    var entries: map<string, Entry>
    var users: map<string, User>
    const config: Config

    constructor (config: Config)
      ensures this.config == config && Now() == State(map[], map[])
    {
      this.config := config;
      entries, users := map[], map[];
    }

    function Now(): State
      reads this
    {
      State(entries, users)
    }

    method AddEntry(dn: string, attributesStr: string, salt: string, now: string)
      modifies this
      ensures Now() == Step(config, old(Now()), Add(dn, attributesStr, salt), now).0
      ensures var m := AttributesOf(Fields(attributesStr));
              users == if "userPassword" in m && ("objectClass" !in m || m["objectClass"] == "person"
                                                  || m["objectClass"] == "inetOrgPerson")
                       then old(users)[dn := User(config.hash(m["userPassword"], salt), salt, now, None)]
                       else old(users)
    {
      var attributes := ParseAttributes(attributesStr);
      var objectClass := "person";
      if "objectClass" in attributes {
        objectClass := attributes["objectClass"];
      }
      var parentDN := GetParentDN(dn);
      entries := entries[dn := Entry(Some(parentDN), objectClass, config.encode(attributesStr), now, None)];
      if objectClass == "person" || objectClass == "inetOrgPerson" {
        if "userPassword" in attributes {
          CreateUser(dn, attributes["userPassword"], salt, now);
        }
      }
    }

    method CreateUser(dn: string, password: string, salt: string, now: string)
      modifies this`users
      ensures users == old(users)[dn := User(config.hash(password, salt), salt, now, None)]
    {
      var passwordHash := config.hash(password, salt);
      users := users[dn := User(passwordHash, salt, now, None)];
    }

    method DeleteEntry(dn: string) returns (ok: bool)
      modifies this
      ensures ok <==> dn in old(entries)
      ensures Now() == Step(config, old(Now()), Delete(dn), "").0
    {
      if dn !in entries {
        return false;
      }
      entries := entries - {dn};
      users := users - {dn};
      return true;
    }

    method ModifyEntry(dn: string, attributesStr: string, now: string) returns (ok: bool)
      modifies this`entries
      ensures ok <==> dn in old(entries)
      ensures Now() == Step(config, old(Now()), Modify(dn, attributesStr), now).0
    {
      if dn !in entries {
        return false;
      }
      var entry := Fetched(config, entries[dn]);
      entry := entry.(attributes := attributesStr);
      entry := entry.(updatedAt := Some(now));
      entries := entries[dn := entry];
      return true;
    }

    method AuthenticateUser(dn: string, password: string, now: string) returns (ok: bool)
      modifies this`users
      ensures ok <==> Authentic(config, old(Now()), dn, password)
      ensures users == if ok then old(users)[dn := FetchedUser(config, old(users)[dn]).(lastLogin := Some(now))]
                       else old(users)
    {
      if dn !in users {
        return false;
      }
      var user := FetchedUser(config, users[dn]);
      var providedHash := config.hash(password, user.salt);
      if user.passwordHash == providedHash {
        users := users[dn := user.(lastLogin := Some(now))];
        return true;
      }
      return false;
    }

    method HandleBind(dn: string, password: string, now: string) returns (response: Response)
      modifies this
      ensures (Now(), response) == Step(config, old(Now()), Bind(dn, password), now)
    {
      if dn == config.bindDN && password == config.bindPW {
        return AdminBound;
      }
      var authenticated := AuthenticateUser(dn, password, now);
      return if authenticated then Bound else InvalidCredentials;
    }

    /** One message: decoded and handed to its handler. */
    method ProcessMessage(message: string, salt: string, now: string) returns (response: Response)
      modifies this
      ensures (Now(), response) == Step(config, old(Now()), Decode(message, salt), now)
    {
      var parts := Fields(message);
      if |parts| == 0 {
        return Refused;
      }
      var command := Upper(parts[0]);
      if command == "BIND" {
        if |parts| < 3 {
          return Refused;
        }
        response := HandleBind(parts[1], Join(parts[2..], " "), now);
      } else if command == "SEARCH" {
        if |parts| < 2 {
          return Refused;
        }
        var filter := "";
        if |parts| > 2 {
          filter := Join(parts[2..], " ");
        }
        return Found(Searched(config, Now(), parts[1], filter));
      } else if command == "ADD" {
        if |parts| < 2 {
          return Refused;
        }
        AddEntry(parts[1], Join(parts[2..], " "), salt, now);
        return Added;
      } else if command == "DELETE" {
        if |parts| < 2 {
          return Refused;
        }
        var deleted := DeleteEntry(parts[1]);
        return if deleted then Deleted else NotFound;
      } else if command == "MODIFY" {
        if |parts| < 2 {
          return Refused;
        }
        var modified := ModifyEntry(parts[1], Join(parts[2..], " "), now);
        return if modified then Modified else NotFound;
      } else if command == "HELP" {
        return Helped;
      } else {
        return Refused;
      }
    }

    /** Creates the base entry, the administrator and two units, unless the base entry is there.
        A base name without '=' panics before anything is stored. */
    method SetupInitialData(salt: string, now: string) returns (out: Outcome<bool>)
      modifies this
      ensures config.baseDN in old(entries) ==> out == Ok(false) && Now() == old(Now())
      ensures config.baseDN !in old(entries) && '=' !in config.baseDN ==> out == Panic && Now() == old(Now())
      ensures config.baseDN !in old(entries) && '=' in config.baseDN ==>
              out == Ok(true) && Now() == Prepared(config, old(Now()), salt, now)
    {
      if config.baseDN in entries {
        return Ok(false);
      }
      if Until(config.baseDN, '=') == |config.baseDN| {
        return Panic;
      }
      entries := entries[config.baseDN := BaseEntry(config, now)];
      CreateUser(config.bindDN, config.bindPW, salt, now);
      entries := entries[config.bindDN := AdminEntry(config, now)];
      entries := entries["ou=users," + config.baseDN := UnitEntry(config, "users", now)];
      entries := entries["ou=groups," + config.baseDN := UnitEntry(config, "groups", now)];
      return Ok(true);
    }
  }

  function BaseEntry(c: Config, now: string): Entry {
    var rest := SplitTwo(c.baseDN, '=');
    var dc := if |rest| == 2 then SplitTwo(rest[1], '=')[0] else "";
    Entry(None, "organization", c.encode("{\"o\": \"Example Organization\", \"dc\": \"" + dc + "\"}"), now, None)
  }

  function AdminEntry(c: Config, now: string): Entry {
    Entry(Some(c.baseDN), "person", c.encode("{\"cn\": \"admin\", \"userPassword\": \"admin\"}"), now, None)
  }

  function UnitEntry(c: Config, unit: string, now: string): Entry {
    Entry(Some(c.baseDN), "organizationalUnit", c.encode("{\"ou\": \"" + unit + "\"}"), now, None)
  }

  /** The state a first set-up leaves. */
  function Prepared(c: Config, s: State, salt: string, now: string): State {
    State(s.entries[c.baseDN := BaseEntry(c, now)][c.bindDN := AdminEntry(c, now)]
                   ["ou=users," + c.baseDN := UnitEntry(c, "users", now)]["ou=groups," + c.baseDN :=
                                                                          UnitEntry(c, "groups", now)],
          s.users[c.bindDN := User(c.hash(c.bindPW, salt), salt, now, None)])
  }

  // ---------------------------------------------------------------- histories

  /** The state after the first n commands of a history. */
  function After(c: Config, start: State, cmds: seq<Command>, times: seq<string>, n: nat): State
    requires |times| == |cmds| && n <= |cmds|
  {
    if n == 0 then start else Step(c, After(c, start, cmds, times, n - 1), cmds[n - 1], times[n - 1]).0
  }

  /** A set-up server on an empty database. */
  function Fresh(c: Config, salt: string, now: string): State {
    Prepared(c, State(map[], map[]), salt, now)
  }

  /** The responses so far are those of the steps. */
  ghost predicate Answered(c: Config, start: State, cmds: seq<Command>, times: seq<string>, responses: seq<Response>)
    requires |times| == |cmds|
  {
    |responses| <= |cmds| &&
    forall i :: 0 <= i < |responses| ==> responses[i] == Step(c, After(c, start, cmds, times, i), cmds[i], times[i]).1
  }

  lemma OneMoreAnswer(c: Config, start: State, cmds: seq<Command>, times: seq<string>, responses: seq<Response>,
                      after: State, r: Response)
    requires |times| == |cmds| && Answered(c, start, cmds, times, responses) && |responses| < |cmds|
    requires var k := |responses|; (after, r) == Step(c, After(c, start, cmds, times, k), cmds[k], times[k])
    ensures Answered(c, start, cmds, times, responses + [r]) && after == After(c, start, cmds, times, |responses| + 1)
  {
    hide Step;
  }

  /** The server, driven through the messages of a history, is in the state of that history. */
  method Serve(config: Config, salt: string, now: string, messages: seq<string>, salts: seq<string>, times: seq<string>)
    returns (server: LDAPServer, responses: seq<Response>, ghost cmds: seq<Command>)
    requires '=' in config.baseDN && |messages| == |salts| == |times|
    ensures server.config == config && |responses| == |cmds| == |messages|
    ensures cmds == DecodeAll(messages, salts)
    ensures server.Now() == After(config, Fresh(config, salt, now), cmds, times, |cmds|)
    ensures Answered(config, Fresh(config, salt, now), cmds, times, responses)
  {
    hide Step, Decode, Prepared, Answered;
    server := new LDAPServer(config);
    var ready := server.SetupInitialData(salt, now);
    ghost var start := Fresh(config, salt, now);
    responses := [];
    cmds := DecodeAll(messages, salts);
    NoneAnswered(config, start, cmds, times);
    for k := 0 to |messages|
      invariant fresh(server) && server.config == config
      invariant |responses| == k && server.Now() == After(config, start, cmds, times, k)
      invariant Answered(config, start, cmds, times, responses)
    {
      var response := server.ProcessMessage(messages[k], salts[k], times[k]);
      OneMoreAnswer(config, start, cmds, times, responses, server.Now(), response);
      responses := responses + [response];
    }
  }

  lemma NoneAnswered(c: Config, start: State, cmds: seq<Command>, times: seq<string>)
    requires |times| == |cmds|
    ensures Answered(c, start, cmds, times, []) && start == After(c, start, cmds, times, 0)
  {
  }

  function DecodeAll(messages: seq<string>, salts: seq<string>): (cmds: seq<Command>)
    requires |messages| == |salts|
    ensures |cmds| == |messages| && forall i :: 0 <= i < |cmds| ==> cmds[i] == Decode(messages[i], salts[i])
  {
    seq(|messages|, i requires 0 <= i < |messages| => Decode(messages[i], salts[i]))
  }

  lemma StepKeepsUsersListed(c: Config, s: State, cmd: Command, now: string)
    requires s.users.Keys <= s.entries.Keys
    ensures var after := Step(c, s, cmd, now).0; after.users.Keys <= after.entries.Keys
  {
    hide Fields, AttributesOf, Upper;
  }

  /** Whatever is sent to a fresh server, every user record has a directory entry. */
  lemma {:induction false} UsersAreListed(c: Config, salt: string, now: string, cmds: seq<Command>, times: seq<string>,
                                          n: nat)
    requires |times| == |cmds| && n <= |cmds|
    ensures var s := After(c, Fresh(c, salt, now), cmds, times, n); s.users.Keys <= s.entries.Keys
  {
    hide Step;
    if n > 0 {
      UsersAreListed(c, salt, now, cmds, times, n - 1);
      StepKeepsUsersListed(c, After(c, Fresh(c, salt, now), cmds, times, n - 1), cmds[n - 1], times[n - 1]);
    }
  }

  /** Command i is an ADD of dn whose attributes name a password, and no class or one of a person. */
  predicate SetsAny(cmds: seq<Command>, i: nat, dn: string) {
    && i < |cmds| && cmds[i].Add? && cmds[i].dn == dn
    && var m := AttributesOf(Fields(cmds[i].attributes));
       && "userPassword" in m
       && ("objectClass" !in m || m["objectClass"] == "person" || m["objectClass"] == "inetOrgPerson")
  }

  /** Command i is such an ADD with this password. */
  predicate SetsPassword(cmds: seq<Command>, i: nat, dn: string, password: string) {
    SetsAny(cmds, i, dn) && AttributesOf(Fields(cmds[i].attributes))["userPassword"] == password
  }

  lemma SetsByAttributes(cmds: seq<Command>, i: nat, dn: string, password: string)
    requires i < |cmds| && cmds[i].Add?
    ensures SetsAny(cmds, i, dn) <==> cmds[i].dn == dn && PasswordIn(cmds[i].attributes).Some?
    ensures SetsPassword(cmds, i, dn, password) <==>
            cmds[i].dn == dn && PasswordIn(cmds[i].attributes) == Some(password)
  {
    hide Fields, AttributesOf;
  }

  /** Command i is a DELETE of dn that found it. */
  predicate Removes(c: Config, start: State, cmds: seq<Command>, times: seq<string>, i: nat, dn: string)
    requires |times| == |cmds|
  {
    i < |cmds| && cmds[i].Delete? && cmds[i].dn == dn && dn in After(c, start, cmds, times, i).entries
  }

  /** Among the first n commands, the last ADD that gave dn a password gave it this one, and no
      DELETE has removed dn since. */
  ghost predicate HasPassword(c: Config, start: State, cmds: seq<Command>, times: seq<string>, n: nat, dn: string,
                              password: string)
    requires |times| == |cmds| && n <= |cmds|
  {
    exists i {:trigger SetsPassword(cmds, i, dn, password)} ::
      0 <= i < n && SetsPassword(cmds, i, dn, password)
      && forall j :: i < j < n ==> !SetsAny(cmds, j, dn) && !Removes(c, start, cmds, times, j, dn)
  }

  /** Without a collision: under one salt, different passwords have different hashes. */
  ghost predicate Collisionless(c: Config) {
    forall p: string, q: string, salt: string {:trigger c.hash(p, salt), c.hash(q, salt)} ::
      c.hash(p, salt) == c.hash(q, salt) ==> p == q
  }

  /** Such a server can be built. */
  lemma SomeServerIsCollisionless(c: Config)
    ensures Collisionless(c.(hash := (p, s) => p))
  {
  }

  /** The user record of dn holds this password, by the history: the record one command leaves. */
  lemma RecordAfterStep(c: Config, start: State, cmds: seq<Command>, times: seq<string>, n: nat, dn: string,
                        password: string)
    requires |times| == |cmds| && n < |cmds| && Collisionless(c)
    requires var s := After(c, start, cmds, times, n); s.users.Keys <= s.entries.Keys
    ensures var s := After(c, start, cmds, times, n); var after := After(c, start, cmds, times, n + 1);
            Authentic(c, after, dn, password) <==>
              SetsPassword(cmds, n, dn, password) ||
              (!SetsAny(cmds, n, dn) && !Removes(c, start, cmds, times, n, dn) && Authentic(c, s, dn, password))
  {
    hide PasswordIn, ClassOf, SetsAny, SetsPassword;
    var s := After(c, start, cmds, times, n);
    var cmd := cmds[n];
    if cmd.Add? {
      SetsByAttributes(cmds, n, dn, password);
    } else {
      NoAddSetsNothing(cmds, n, dn, password);
    }
    if cmd.Add? && cmd.dn == dn && PasswordIn(cmd.attributes).Some? {
      var p := PasswordIn(cmd.attributes).value;
      assert c.hash(p, cmd.salt) == c.hash(password, cmd.salt) <==> p == password;
    }
  }

  lemma NoAddSetsNothing(cmds: seq<Command>, i: nat, dn: string, password: string)
    requires i < |cmds| && !cmds[i].Add?
    ensures !SetsAny(cmds, i, dn) && !SetsPassword(cmds, i, dn, password)
  {
  }

  lemma HasPasswordStep(c: Config, start: State, cmds: seq<Command>, times: seq<string>, n: nat, dn: string,
                        password: string)
    requires |times| == |cmds| && n < |cmds|
    ensures HasPassword(c, start, cmds, times, n + 1, dn, password) <==>
              SetsPassword(cmds, n, dn, password) ||
              (!SetsAny(cmds, n, dn) && !Removes(c, start, cmds, times, n, dn)
               && HasPassword(c, start, cmds, times, n, dn, password))
  {
    hide Removes, SetsAny, SetsPassword;
    if SetsPassword(cmds, n, dn, password) {
      assert HasPassword(c, start, cmds, times, n + 1, dn, password);
    }
  }

  lemma {:induction false} RecordFollowsHistory(c: Config, salt: string, now: string, cmds: seq<Command>,
                                                times: seq<string>, n: nat, dn: string, password: string)
    requires |times| == |cmds| && n <= |cmds| && Collisionless(c) && dn != c.bindDN
    ensures Authentic(c, After(c, Fresh(c, salt, now), cmds, times, n), dn, password) <==>
            HasPassword(c, Fresh(c, salt, now), cmds, times, n, dn, password)
  {
    hide HasPassword, Authentic, SetsPassword, SetsAny, Removes, Collisionless;
    if n == 0 {
      NobodyYet(c, salt, now, cmds, times, dn, password);
    } else {
      UsersAreListed(c, salt, now, cmds, times, n - 1);
      RecordFollowsHistory(c, salt, now, cmds, times, n - 1, dn, password);
      RecordAfterStep(c, Fresh(c, salt, now), cmds, times, n - 1, dn, password);
      HasPasswordStep(c, Fresh(c, salt, now), cmds, times, n - 1, dn, password);
    }
  }

  lemma NobodyYet(c: Config, salt: string, now: string, cmds: seq<Command>, times: seq<string>, dn: string,
                  password: string)
    requires |times| == |cmds| && dn != c.bindDN
    ensures !Authentic(c, Fresh(c, salt, now), dn, password)
    ensures !HasPassword(c, Fresh(c, salt, now), cmds, times, 0, dn, password)
  {
  }

  /** After any history on a fresh server, a BIND is the administrator's exactly with the configured
      name and password; anyone else's succeeds exactly when the password is the one the latest ADD
      with a password set, not deleted since. */
  lemma BindFollowsHistory(c: Config, salt: string, now: string, cmds: seq<Command>, times: seq<string>, n: nat,
                           dn: string, password: string, when: string)
    requires |times| == |cmds| && n <= |cmds| && Collisionless(c)
    ensures var reply := Step(c, After(c, Fresh(c, salt, now), cmds, times, n), Bind(dn, password), when).1;
            && (reply == AdminBound <==> dn == c.bindDN && password == c.bindPW)
            && (dn != c.bindDN ==>
                  (reply == Bound <==> HasPassword(c, Fresh(c, salt, now), cmds, times, n, dn, password)))
            && (reply == AdminBound || reply == Bound || reply == InvalidCredentials)
  {
    hide Fresh, HasPassword, Authentic;
    if dn != c.bindDN {
      RecordFollowsHistory(c, salt, now, cmds, times, n, dn, password);
    }
  }

  lemma {:induction false} PasswordStays(c: Config, start: State, cmds: seq<Command>, times: seq<string>, n: nat,
                                         m: nat, dn: string, password: string)
    requires |times| == |cmds| && n <= m <= |cmds|
    requires forall j :: n <= j < m ==> !SetsAny(cmds, j, dn) && !Removes(c, start, cmds, times, j, dn)
    ensures HasPassword(c, start, cmds, times, m, dn, password) <==> HasPassword(c, start, cmds, times, n, dn, password)
    decreases m
  {
    hide HasPassword, SetsAny, Removes, SetsPassword;
    if n < m {
      PasswordStays(c, start, cmds, times, n, m - 1, dn, password);
      HasPasswordStep(c, start, cmds, times, m - 1, dn, password);
      OnlySetsAny(cmds, m - 1, dn, password);
    }
  }

  lemma OnlySetsAny(cmds: seq<Command>, j: nat, dn: string, password: string)
    ensures SetsPassword(cmds, j, dn, password) ==> SetsAny(cmds, j, dn)
  {
  }

  /** Whatever is sent, a password stays in force until its entry is deleted or given another by an
      ADD: an ADD over the entry without a password, a MODIFY of any attribute, and commands on
      other entries leave every BIND as it was. */
  lemma OthersLeavePassword(c: Config, salt: string, now: string, cmds: seq<Command>, times: seq<string>, n: nat,
                            m: nat, dn: string, password: string, when: string)
    requires |times| == |cmds| && n <= m <= |cmds| && Collisionless(c) && dn != c.bindDN
    requires forall j :: n <= j < m ==> !SetsAny(cmds, j, dn) && !Removes(c, Fresh(c, salt, now), cmds, times, j, dn)
    ensures Step(c, After(c, Fresh(c, salt, now), cmds, times, m), Bind(dn, password), when).1 == Bound <==>
            Step(c, After(c, Fresh(c, salt, now), cmds, times, n), Bind(dn, password), when).1 == Bound
  {
    hide Fresh, HasPassword, Step, SetsAny, Removes;
    PasswordStays(c, Fresh(c, salt, now), cmds, times, n, m, dn, password);
    BindFollowsHistory(c, salt, now, cmds, times, n, dn, password, when);
    BindFollowsHistory(c, salt, now, cmds, times, m, dn, password, when);
  }

  // ---------------------------------------------------------------- creation times

  /** Command i is an ADD of dn. */
  predicate Adds(cmds: seq<Command>, i: nat, dn: string) {
    i < |cmds| && cmds[i].Add? && cmds[i].dn == dn
  }

  /** Among the first n commands, i is the last ADD of dn, and no DELETE has removed dn since. */
  ghost predicate LatestAdd(c: Config, start: State, cmds: seq<Command>, times: seq<string>, n: nat, dn: string, i: nat)
    requires |times| == |cmds|
  {
    i < n <= |cmds| && Adds(cmds, i, dn)
    && forall j :: i < j < n ==> !Adds(cmds, j, dn) && !Removes(c, start, cmds, times, j, dn)
  }

  /** Between the two there is a MODIFY of dn. */
  ghost predicate ModifiedIn(cmds: seq<Command>, i: nat, n: nat, dn: string)
    requires n <= |cmds|
  {
    exists j {:trigger cmds[j]} :: i < j < n && cmds[j].Modify? && cmds[j].dn == dn
  }

  lemma ModifiedInStep(cmds: seq<Command>, i: nat, n: nat, dn: string)
    requires i < n < |cmds|
    ensures ModifiedIn(cmds, i, n + 1, dn) <==> ModifiedIn(cmds, i, n, dn) || (cmds[n].Modify? && cmds[n].dn == dn)
  {
    if cmds[n].Modify? && cmds[n].dn == dn {
      assert ModifiedIn(cmds, i, n + 1, dn);
    }
  }

  /** What one command other than an ADD or a DELETE of the entry makes of its creation time. */
  lemma CreationStep(c: Config, s: State, cmd: Command, now: string, dn: string)
    requires dn in s.entries && !(cmd.Add? && cmd.dn == dn) && !(cmd.Delete? && cmd.dn == dn)
    ensures var after := Step(c, s, cmd, now).0;
            dn in after.entries && after.entries[dn].createdAt ==
              if cmd.Modify? && cmd.dn == dn then c.printed(s.entries[dn].createdAt) else s.entries[dn].createdAt
  {
    hide Fields, AttributesOf, Upper;
  }

  /** After any history an entry is there from its latest ADD until a DELETE, with the time of that
      ADD; a MODIFY since leaves the time as it is printed, since it writes the whole row back. It is
      unchanged exactly when there was no MODIFY or it was given as it is printed. */
  lemma {:induction false} CreationFollowsHistory(c: Config, start: State, cmds: seq<Command>, times: seq<string>,
                                                  n: nat, dn: string, i: nat)
    requires |times| == |cmds| && n <= |cmds| && LatestAdd(c, start, cmds, times, n, dn, i)
    requires forall t {:trigger c.printed(t)} :: c.printed(c.printed(t)) == c.printed(t)
    ensures var s := After(c, start, cmds, times, n);
            && dn in s.entries
            && s.entries[dn].createdAt == if ModifiedIn(cmds, i, n, dn) then c.printed(times[i]) else times[i]
    ensures After(c, start, cmds, times, n).entries[dn].createdAt == times[i] <==>
            !ModifiedIn(cmds, i, n, dn) || c.printed(times[i]) == times[i]
  {
    if n == i + 1 {
      hide Fields, AttributesOf, Upper;
      assert After(c, start, cmds, times, n) == Step(c, After(c, start, cmds, times, i), cmds[i], times[i]).0;
    } else {
      hide Step;
      CreationFollowsHistory(c, start, cmds, times, n - 1, dn, i);
      assert !Adds(cmds, n - 1, dn) && !Removes(c, start, cmds, times, n - 1, dn);
      CreationStep(c, After(c, start, cmds, times, n - 1), cmds[n - 1], times[n - 1], dn);
      ModifiedInStep(cmds, i, n - 1, dn);
    }
  }

  // ---------------------------------------------------------------- what a search shows

  lemma {:induction false} ContainsMeans(s: string, t: string)
    ensures Contains(s, t) <==> exists i: nat {:trigger s[i..]} :: i <= |s| && t <= s[i..]
  {
    if t <= s {
      assert s[0..] == s;
    } else if s != "" {
      ContainsMeans(s[1..], t);
      if Contains(s[1..], t) {
        var i: nat :| i <= |s[1..]| && t <= s[1..][i..];
        assert s[1..][i..] == s[i + 1..];
      }
      if i: nat :| i <= |s| && t <= s[i..] {
        assert s[0..] == s;
        assert s[1..][i - 1..] == s[i..];
      }
    }
  }

  /** Command i gives dn its attributes: an ADD of it, or a MODIFY that found it. */
  predicate Writes(c: Config, start: State, cmds: seq<Command>, times: seq<string>, i: nat, dn: string)
    requires |times| == |cmds|
  {
    && i < |cmds| && (cmds[i].Add? || cmds[i].Modify?) && cmds[i].dn == dn
    && (cmds[i].Modify? ==> dn in After(c, start, cmds, times, i).entries)
  }

  /** Command i is the last of the first n to give dn its attributes, and no DELETE has removed dn
      since. */
  ghost predicate LatestWrite(c: Config, start: State, cmds: seq<Command>, times: seq<string>, n: nat, dn: string,
                              i: nat)
    requires |times| == |cmds|
  {
    i < n <= |cmds| && Writes(c, start, cmds, times, i, dn)
    && forall j :: i < j < n ==> !Writes(c, start, cmds, times, j, dn) && !Removes(c, start, cmds, times, j, dn)
  }

  lemma WriteStep(c: Config, s: State, cmd: Command, now: string)
    requires (cmd.Add? || cmd.Modify?) && (cmd.Modify? ==> cmd.dn in s.entries)
    ensures var after := Step(c, s, cmd, now).0;
            cmd.dn in after.entries && after.entries[cmd.dn].attributes ==
              if cmd.Add? then c.encode(cmd.attributes) else cmd.attributes
    ensures Step(c, s, cmd, now).0.entries[cmd.dn].updatedAt == if cmd.Modify? then Some(now) else None
  {
    hide Fields, AttributesOf;
  }

  lemma OtherStep(c: Config, s: State, cmd: Command, now: string, dn: string)
    requires dn in s.entries && !((cmd.Add? || cmd.Modify? || cmd.Delete?) && cmd.dn == dn)
    ensures var after := Step(c, s, cmd, now).0; dn in after.entries && after.entries[dn] == s.entries[dn]
  {
    hide Fields, AttributesOf;
  }

  lemma {:induction false} EntryFollowsHistory(c: Config, start: State, cmds: seq<Command>, times: seq<string>,
                                               n: nat, dn: string, i: nat)
    requires |times| == |cmds| && LatestWrite(c, start, cmds, times, n, dn, i)
    ensures var s := After(c, start, cmds, times, n);
            dn in s.entries && s.entries[dn] == After(c, start, cmds, times, i + 1).entries[dn]
    ensures After(c, start, cmds, times, n).entries[dn].attributes ==
            if cmds[i].Add? then c.encode(cmds[i].attributes) else cmds[i].attributes
    ensures After(c, start, cmds, times, n).entries[dn].updatedAt == if cmds[i].Modify? then Some(times[i]) else None
  {
    hide Step;
    if n == i + 1 {
      WriteStep(c, After(c, start, cmds, times, i), cmds[i], times[i]);
    } else {
      EntryFollowsHistory(c, start, cmds, times, n - 1, dn, i);
      assert !Writes(c, start, cmds, times, n - 1, dn) && !Removes(c, start, cmds, times, n - 1, dn);
      OtherStep(c, After(c, start, cmds, times, n - 1), cmds[n - 1], times[n - 1], dn);
    }
  }

  /** After any history, a SEARCH of an entry without a filter, or with one that speaks of
      objectClass, shows the attributes of its latest ADD, as JSON, or of its latest MODIFY as they
      were sent; any other filter finds nothing. */
  lemma SearchFollowsHistory(c: Config, start: State, cmds: seq<Command>, times: seq<string>, n: nat, dn: string,
                             i: nat, filter: string, when: string)
    requires |times| == |cmds| && LatestWrite(c, start, cmds, times, n, dn, i)
    ensures var (after, reply) := Step(c, After(c, start, cmds, times, n), Search(dn, filter), when);
            && after == After(c, start, cmds, times, n) && reply.Found?
            && (reply.entry.Some? <==>
                filter == "" || exists k: nat {:trigger filter[k..]} :: k <= |filter| && "objectClass" <= filter[k..])
            && (reply.entry.Some? ==>
                  var shown, kept := reply.entry.value, After(c, start, cmds, times, n).entries[dn];
                  && shown.attributes ==
                     c.spelled(if cmds[i].Add? then c.encode(cmds[i].attributes) else cmds[i].attributes)
                  && shown.updatedAt == (if cmds[i].Modify? then Some(c.printed(times[i])) else None)
                  && shown.createdAt == c.printed(kept.createdAt)
                  && shown.parentDN == kept.parentDN && shown.objectClass == kept.objectClass)
  {
    EntryFollowsHistory(c, start, cmds, times, n, dn, i);
    ContainsMeans(filter, "objectClass");
    hide Contains, After;
  }

  lemma EntryStep(c: Config, s: State, cmd: Command, now: string, dn: string)
    ensures var (after, reply) := Step(c, s, cmd, now);
            && (dn in after.entries <==>
                  (cmd.Add? && cmd.dn == dn) || (dn in s.entries && !(cmd.Delete? && cmd.dn == dn)))
            && (cmd.Delete? ==> reply == if cmd.dn in s.entries then Deleted else NotFound)
            && (cmd.Modify? ==> reply == if cmd.dn in s.entries then Modified else NotFound)
            && (cmd.Add? ==> reply == Added)
            && (cmd.Help? ==> (after, reply) == (s, Helped))
            && (cmd.TooShort? || cmd.Unknown? || cmd.Empty? ==> (after, reply) == (s, Refused))
  {
    hide Fields, AttributesOf, Upper, Contains;
  }

  /** Command i is an ADD of dn, and no DELETE among the first n commands has removed dn since. */
  ghost predicate AddedBy(c: Config, start: State, cmds: seq<Command>, times: seq<string>, n: nat, dn: string, i: nat)
    requires |times| == |cmds|
  {
    i < n && Adds(cmds, i, dn) && forall j :: i < j < n ==> !Removes(c, start, cmds, times, j, dn)
  }

  /** After any history an entry is there exactly when it was at the start, or an ADD put it there, and
      no DELETE has removed it since; DELETE and MODIFY report whether it was there. */
  lemma {:induction false} EntriesFollowHistory(c: Config, start: State, cmds: seq<Command>, times: seq<string>, n: nat,
                                                dn: string)
    requires |times| == |cmds| && n <= |cmds|
    ensures dn in After(c, start, cmds, times, n).entries <==>
            || (dn in start.entries && forall j :: 0 <= j < n ==> !Removes(c, start, cmds, times, j, dn))
            || exists i {:trigger AddedBy(c, start, cmds, times, n, dn, i)} ::
                 0 <= i && AddedBy(c, start, cmds, times, n, dn, i)
    ensures n < |cmds| ==>
              var reply := Step(c, After(c, start, cmds, times, n), cmds[n], times[n]).1;
              && (cmds[n].Delete? ==>
                    reply == if cmds[n].dn in After(c, start, cmds, times, n).entries then Deleted else NotFound)
              && (cmds[n].Modify? ==>
                    reply == if cmds[n].dn in After(c, start, cmds, times, n).entries then Modified else NotFound)
  {
    hide Step;
    if n < |cmds| {
      EntryStep(c, After(c, start, cmds, times, n), cmds[n], times[n], dn);
    }
    if n > 0 {
      EntriesFollowHistory(c, start, cmds, times, n - 1, dn);
      EntryStep(c, After(c, start, cmds, times, n - 1), cmds[n - 1], times[n - 1], dn);
      AddedByStep(c, start, cmds, times, n - 1, dn);
    }
  }

  lemma AddedByStep(c: Config, start: State, cmds: seq<Command>, times: seq<string>, n: nat, dn: string)
    requires |times| == |cmds| && n < |cmds|
    ensures (exists i {:trigger AddedBy(c, start, cmds, times, n + 1, dn, i)} ::
               0 <= i && AddedBy(c, start, cmds, times, n + 1, dn, i)) <==>
            || Adds(cmds, n, dn)
            || (!Removes(c, start, cmds, times, n, dn)
                && exists i {:trigger AddedBy(c, start, cmds, times, n, dn, i)} ::
                     0 <= i && AddedBy(c, start, cmds, times, n, dn, i))
  {
    hide Removes;
    if Adds(cmds, n, dn) {
      assert AddedBy(c, start, cmds, times, n + 1, dn, n);
    }
    var m := n + 1;
    if i: nat :| AddedBy(c, start, cmds, times, m, dn, i) && i < n {
      assert AddedBy(c, start, cmds, times, n, dn, i);
    }
    if i: nat :| AddedBy(c, start, cmds, times, n, dn, i) && !Removes(c, start, cmds, times, n, dn) {
      assert AddedBy(c, start, cmds, times, n + 1, dn, i);
    }
  }

  /** Right after an ADD the entry has the parent of its name, the class among its attributes, or
      person, and no update. */
  lemma AddedEntry(c: Config, s: State, first: string, rest: string, attributes: string, salt: string, now: string)
    requires ',' !in first
    ensures var dn := first + "," + rest; var after := Step(c, s, Add(dn, attributes, salt), now).0;
            var m := AttributesOf(Fields(attributes));
            && dn in after.entries
            && after.entries[dn] == Entry(Some(rest), if "objectClass" in m then m["objectClass"] else "person",
                                          c.encode(attributes), now, None)
  {
    hide Fields, AttributesOf;
    ParentOfName(first, rest);
    hide GetParentDN;
  }

  // ---------------------------------------------------------------- messages

  /** A message made of a verb in any spelling of its letters, a name and further words, is read as
      the command of that verb. */
  lemma MessageReads(verb: string, dn: string, words: seq<string>, salt: string)
    requires verb != "" && Solid(verb) && dn != "" && Solid(dn)
    requires forall i :: 0 <= i < |words| ==> words[i] != "" && Solid(words[i])
    ensures var message, text := Join([verb, dn] + words, " "), Join(words, " ");
            && (Upper(verb) == "BIND" ==>
                  Decode(message, salt) == if words == [] then TooShort("BIND") else Bind(dn, text))
            && (Upper(verb) == "SEARCH" ==> Decode(message, salt) == Search(dn, text))
            && (Upper(verb) == "ADD" ==> Decode(message, salt) == Add(dn, text, salt))
            && (Upper(verb) == "DELETE" ==> Decode(message, salt) == Delete(dn))
            && (Upper(verb) == "MODIFY" ==> Decode(message, salt) == Modify(dn, text))
            && (Upper(verb) == "HELP" ==> Decode(message, salt) == Help)
            && (Upper(verb) !in {"BIND", "SEARCH", "ADD", "DELETE", "MODIFY", "HELP"} ==>
                  Decode(message, salt) == Unknown(Upper(verb)))
  {
    var parts := [verb, dn] + words;
    FieldsOfJoin(parts);
    assert parts[2..] == words;
    hide Fields, Upper, Join;
  }

  // ---------------------------------------------------------------- a fresh directory

  /** The set-up leaves the base, the administrator and the two units, with one user, whom nobody
      else joins before an ADD. */
  lemma FreshDirectory(c: Config, salt: string, now: string, k: string, v: string)
    requires c.baseDN == k + "=" + v && '=' !in k && c.bindDN != c.baseDN
    requires c.bindDN !in {"ou=users," + c.baseDN, "ou=groups," + c.baseDN}
    ensures var s := Fresh(c, salt, now);
            && s.users == map[c.bindDN := User(c.hash(c.bindPW, salt), salt, now, None)]
            && s.entries.Keys == {c.baseDN, c.bindDN, "ou=users," + c.baseDN, "ou=groups," + c.baseDN}
            && s.entries[c.baseDN].parentDN == None && s.entries[c.baseDN].objectClass == "organization"
            && ('=' !in v ==>
                  s.entries[c.baseDN].attributes ==
                  c.encode("{\"o\": \"Example Organization\", \"dc\": \"" + v + "\"}"))
            && s.entries[c.bindDN] == Entry(Some(c.baseDN), "person",
                  c.encode("{\"cn\": \"admin\", \"userPassword\": \"admin\"}"), now, None)
            && s.entries["ou=users," + c.baseDN] == Entry(Some(c.baseDN), "organizationalUnit",
                  c.encode("{\"ou\": \"users\"}"), now, None)
            && s.entries["ou=groups," + c.baseDN] == Entry(Some(c.baseDN), "organizationalUnit",
                  c.encode("{\"ou\": \"groups\"}"), now, None)
  {
    var users, groups := "ou=users," + c.baseDN, "ou=groups," + c.baseDN;
    assert |users| != |groups| && users != c.baseDN && groups != c.baseDN;
    SplitPair(k, v);
    NowhereFoundIfNone(v);
    UnitTexts();
  }

  lemma NowhereFoundIfNone(v: string)
    ensures '=' !in v ==> SplitTwo(v, '=') == [v]
  {
    if '=' !in v { NowhereFound(v, '='); }
  }

  lemma UnitTexts()
    ensures "{\"ou\": \"" + "users" + "\"}" == "{\"ou\": \"users\"}"
    ensures "{\"ou\": \"" + "groups" + "\"}" == "{\"ou\": \"groups\"}"
  {
  }
}
