/** The defaults target of the importer: for each user a global default binding, chosen by server
    priority, and a default per server.  Users and servers are visited in whatever order the maps
    yield them. */
module ImporterDefaults {
  import opened Wrappers
  import opened ImporterDb

  const GLOBAL: string := "default"
  const PRIORITY: seq<string> := ["jp", "cn", "tw", "en", "kr"]

  /** A binding as it is loaded together with its game account, if it has one. */
  datatype LoadedBinding = LoadedBinding(id: int, user: int, server: Option<string>)

  datatype Info = Info(binding: int, server: string)

  // ---------- what the pass is to compute ----------

  /** The user's bindings that have a game account, in the order they were loaded. */
  function InfosOf(rows: seq<LoadedBinding>, user: int): seq<Info> {
    if rows == [] then []
    else
      var init, last := InfosOf(rows[..|rows| - 1], user), rows[|rows| - 1];
      if last.user == user && last.server.Some? then init + [Info(last.id, last.server.value)] else init
  }

  /** The first of the bindings on the server. */
  function FirstOn(infos: seq<Info>, server: string): Option<int> {
    if infos == [] then None
    else if infos[0].server == server then Some(infos[0].binding)
    else FirstOn(infos[1..], server)
  }

  /** The binding on the first server of `servers` that has one. */
  function FirstByPriority(infos: seq<Info>, servers: seq<string>): Option<int> {
    if servers == [] then None
    else if FirstOn(infos, servers[0]).Some? then FirstOn(infos, servers[0])
    else FirstByPriority(infos, servers[1..])
  }

  function GlobalChoice(infos: seq<Info>): Option<int> {
    if |infos| == 1 then Some(infos[0].binding) else FirstByPriority(infos, PRIORITY)
  }

  /** The default the pass gives a scope that has none yet.  The global choice comes first, even for
      a user with bindings on a server that is itself called "default". */
  function Target(infos: seq<Info>, scope: string): Option<int> {
    if scope == GLOBAL && GlobalChoice(infos).Some? then GlobalChoice(infos) else FirstOn(infos, scope)
  }

  type Defaults = map<(int, string), int>

  function Lookup(d: Defaults, user: int, scope: string): Option<int> {
    if (user, scope) in d then Some(d[(user, scope)]) else None
  }

  /** Existing rows are kept; missing ones are given their target. */
  function Closed(d: Defaults, rows: seq<LoadedBinding>, user: int, scope: string): Option<int> {
    if (user, scope) in d then Some(d[(user, scope)]) else Target(InfosOf(rows, user), scope)
  }

  /** What a row may hold even when operations fail: with the global row missing, a server called
      "default" may fill its scope. */
  predicate Permitted(infos: seq<Info>, scope: string, binding: int) {
    Target(infos, scope) == Some(binding) || FirstOn(infos, scope) == Some(binding)
  }

  /** Every operation succeeds and the run is not cancelled. */
  ghost predicate Calm(o: Oracle) { forall n :: o.reply(n).Fine? && !o.stopped(n) }

  /** Every reply tells the truth: what was refused is not there, what is reported is. */
  ghost predicate Straight(o: Oracle) { forall n :: o.reply(n).Fine? || o.reply(n).Refused? }

  /** d' keeps the rows of d, and the rows it adds for the user are permitted. */
  ghost predicate Extends(d: Defaults, d': Defaults, user: int, infos: seq<Info>) {
    && (forall k :: k in d ==> k in d' && d'[k] == d[k])
    && (forall k :: k in d' && k !in d ==> k.0 == user && Permitted(infos, k.1, d'[k]))
  }

  /** Every scope of the user is as the pass is to leave it, starting from d. */
  ghost predicate UserClosed(d: Defaults, d': Defaults, user: int, infos: seq<Info>) {
    forall scope ::
      Lookup(d', user, scope) == if (user, scope) in d then Lookup(d, user, scope) else Target(infos, scope)
  }

  /** d' adds to d only rows of the user that are the first on their server. */
  ghost predicate AddsFirsts(d: Defaults, d': Defaults, user: int, infos: seq<Info>) {
    && (forall k :: k in d ==> k in d' && d'[k] == d[k])
    && (forall k :: k in d' && k !in d ==> k.0 == user && FirstOn(infos, k.1) == Some(d'[k]))
  }

  predicate IsFirstByServer(byServer: map<string, int>, infos: seq<Info>) {
    && byServer.Keys == ServersOf(infos)
    && forall server :: server in byServer ==> FirstOn(infos, server) == Some(byServer[server])
  }

  // ---------- the pass ----------

  function ServersOf(infos: seq<Info>): set<string> { set i | 0 <= i < |infos| :: infos[i].server }

  lemma {:induction false} FirstOnFound(infos: seq<Info>, server: string)
    ensures FirstOn(infos, server).Some? <==> server in ServersOf(infos)
    ensures FirstOn(infos, server).Some? ==> Info(FirstOn(infos, server).value, server) in infos
  {
    if infos != [] {
      FirstOnFound(infos[1..], server);
      if server in ServersOf(infos) && infos[0].server != server {
        var i :| 0 <= i < |infos| && infos[i].server == server;
        assert infos[1..][i-1].server == server;
      }
      if server in ServersOf(infos[1..]) {
        var i :| 0 <= i < |infos[1..]| && infos[1..][i].server == server;
        assert infos[i+1].server == server;
      }
    }
  }

  /** And it is the first one there. */
  lemma {:induction false} FirstOnIsFirst(infos: seq<Info>, server: string)
    requires FirstOn(infos, server).Some?
    ensures exists i :: 0 <= i < |infos| && infos[i] == Info(FirstOn(infos, server).value, server)
                        && forall j :: 0 <= j < i ==> infos[j].server != server
  {
    if infos[0].server != server {
      FirstOnIsFirst(infos[1..], server);
      var i :| 0 <= i < |infos[1..]| && infos[1..][i] == Info(FirstOn(infos[1..], server).value, server)
               && forall j :: 0 <= j < i ==> infos[1..][j].server != server;
      assert forall j :: 0 < j < i + 1 ==> infos[j] == infos[1..][j-1];
      assert infos[i+1] == Info(FirstOn(infos, server).value, server);
    }
  }

  lemma {:induction false} FirstOnSnoc(infos: seq<Info>, info: Info, server: string)
    ensures FirstOn(infos + [info], server) ==
            if FirstOn(infos, server).Some? then FirstOn(infos, server)
            else if info.server == server then Some(info.binding) else None
  {
    if infos == [] {
      assert infos + [info] == [info] && [info][1..] == [];
    } else {
      assert (infos + [info])[1..] == infos[1..] + [info];
      FirstOnSnoc(infos[1..], info, server);
    }
  }

  method FirstBindingByServer(infos: seq<Info>) returns (result: map<string, int>)
    ensures IsFirstByServer(result, infos)
  {
    result := map[];
    for i := 0 to |infos|
      invariant forall server :: FirstOn(infos[..i], server) == if server in result then Some(result[server]) else None
    {
      assert infos[..i+1] == infos[..i] + [infos[i]];
      forall server
        ensures FirstOn(infos[..i+1], server) ==
                if FirstOn(infos[..i], server).Some? then FirstOn(infos[..i], server)
                else if infos[i].server == server then Some(infos[i].binding) else None
      {
        FirstOnSnoc(infos[..i], infos[i], server);
      }
      if infos[i].server !in result {
        result := result[infos[i].server := infos[i].binding];
      }
    }
    assert infos[..|infos|] == infos;
    forall server
      ensures server in result <==> server in ServersOf(infos)
    {
      FirstOnFound(infos, server);
    }
  }

  /** Each user with bindings is mapped to these, in loading order. */
  ghost predicate Groups(byUser: map<int, seq<Info>>, rows: seq<LoadedBinding>) {
    && (forall user :: InfosOf(rows, user) == if user in byUser then byUser[user] else [])
    && (forall user :: user in byUser ==> byUser[user] != [])
  }

  method GroupBindingsByUser(rows: seq<LoadedBinding>) returns (byUser: map<int, seq<Info>>)
    ensures Groups(byUser, rows)
  {
    byUser := map[];
    for i := 0 to |rows|
      invariant forall user :: InfosOf(rows[..i], user) == if user in byUser then byUser[user] else []
      invariant forall user :: user in byUser ==> byUser[user] != []
    {
      assert rows[..i+1][..i] == rows[..i];
      var row := rows[i];
      if row.server.None? {
        continue;
      }
      var info := Info(row.id, row.server.value);
      byUser := byUser[row.user := (if row.user in byUser then byUser[row.user] else []) + [info]];
    }
    assert rows[..|rows|] == rows;
  }

  /** The create attempts the pass makes for one user. */
  function AttemptsFor(infos: seq<Info>): nat {
    if |infos| == 1 then 2
    else |ServersOf(infos)| + (if FirstByPriority(infos, PRIORITY).Some? then 1 else 0)
  }

  class DefaultBindingImport {
    const pjsk: Database
    var alreadySet: set<(int, string)>
    var inserted: nat
    var skipped: nat
    var failed: nat

    constructor (pjsk: Database, alreadySet: set<(int, string)>)
      ensures this.pjsk == pjsk && this.alreadySet == alreadySet && Counters() == Tally(0, 0, 0)
    {
      this.pjsk, this.alreadySet := pjsk, alreadySet;
      inserted, skipped, failed := 0, 0, 0;
    }

    /** What is remembered as set is set. */
    ghost predicate Valid()
      reads this, pjsk
    {
      alreadySet <= pjsk.db.defaults.Keys
    }

    function Counters(): Tally
      reads this
    {
      Tally(inserted, skipped, failed)
    }

    function Attempts(): nat
      reads this
    {
      inserted + skipped + failed
    }

    /** What was counted since then: with truthful replies each row added as inserted and no other, and
        no failure when nothing fails. */
    ghost predicate Counted(before: Tally, d: Defaults)
      reads this, pjsk
    {
      && (Straight(pjsk.oracle) ==> |pjsk.db.defaults| - |d| == inserted - before.inserted)
      && (Calm(pjsk.oracle) ==> failed == before.failed)
    }

    /** One attempt: the row is added if it was missing and the database lets it. */
    method Create(user: int, binding: int, scope: string)
      requires Valid()
      modifies this, pjsk
      ensures Valid() && Attempts() == old(Attempts()) + 1
      ensures pjsk.db.(defaults := old(pjsk.db.defaults)).Data() == old(pjsk.db).Data()
      ensures || pjsk.db.defaults == old(pjsk.db.defaults)
              || ((user, scope) !in old(pjsk.db.defaults)
                  && pjsk.db.defaults == old(pjsk.db.defaults)[(user, scope) := binding])
      ensures Calm(pjsk.oracle) ==> (user, scope) in pjsk.db.defaults
      ensures Counted(old(Counters()), old(pjsk.db.defaults))
      ensures (user, scope) in old(pjsk.db.defaults) ==> inserted == old(inserted)
    {
      var key := (user, scope);
      if key in alreadySet {
        skipped := skipped + 1;
        return;
      }
      var r := pjsk.CreateDefault(user, scope, binding);
      if r == Err(Constraint) {
        skipped := skipped + 1;
        return;
      }
      if r.Err? {
        failed := failed + 1;
        return;
      }
      alreadySet := alreadySet + {key};
      inserted := inserted + 1;
    }

    /** All attempts for one user.  Nothing of other users changes; rows are only added, and only
        permitted ones; and if nothing fails every scope of the user ends as in the closed form. */
    method ImportUser(user: int, infos: seq<Info>)
      requires Valid() && infos != []
      modifies this, pjsk
      ensures Valid() && Attempts() == old(Attempts()) + AttemptsFor(infos)
      ensures pjsk.db.(defaults := old(pjsk.db.defaults)).Data() == old(pjsk.db).Data()
      ensures Extends(old(pjsk.db.defaults), pjsk.db.defaults, user, infos)
      ensures Counted(old(Counters()), old(pjsk.db.defaults))
      ensures Calm(pjsk.oracle) ==> UserClosed(old(pjsk.db.defaults), pjsk.db.defaults, user, infos)
    {
      if |infos| == 1 {
        ImportSingle(user, infos);
        return;
      }
      var byServer := FirstBindingByServer(infos);
      var choice := ChooseGlobal(infos, byServer);
      if choice.Some? {
        Create(user, choice.value, GLOBAL);
      }
      ghost var between := pjsk.db.defaults;
      CreatePerServer(user, infos, byServer);
      if Calm(pjsk.oracle) {
        CalmResult(old(pjsk.db.defaults), between, pjsk.db.defaults, user, infos);
      }
    }

    /** The two attempts for a user with a single binding. */
    method ImportSingle(user: int, infos: seq<Info>)
      requires Valid() && |infos| == 1
      modifies this, pjsk
      ensures Valid() && Attempts() == old(Attempts()) + 2
      ensures pjsk.db.(defaults := old(pjsk.db.defaults)).Data() == old(pjsk.db).Data()
      ensures Extends(old(pjsk.db.defaults), pjsk.db.defaults, user, infos)
      ensures Counted(old(Counters()), old(pjsk.db.defaults))
      ensures Calm(pjsk.oracle) ==> UserClosed(old(pjsk.db.defaults), pjsk.db.defaults, user, infos)
    {
      SingleInfo(infos);
      Create(user, infos[0].binding, GLOBAL);
      Create(user, infos[0].binding, infos[0].server);
    }

    /** The default of every server, in any order. */
    method CreatePerServer(user: int, infos: seq<Info>, byServer: map<string, int>)
      requires Valid()
      requires IsFirstByServer(byServer, infos)
      modifies this, pjsk
      ensures Valid() && Attempts() == old(Attempts()) + |ServersOf(infos)|
      ensures pjsk.db.(defaults := old(pjsk.db.defaults)).Data() == old(pjsk.db).Data()
      ensures AddsFirsts(old(pjsk.db.defaults), pjsk.db.defaults, user, infos)
      ensures Counted(old(Counters()), old(pjsk.db.defaults))
      ensures Calm(pjsk.oracle) ==> forall server :: server in byServer ==> (user, server) in pjsk.db.defaults
    {
      var todo := byServer.Keys;
      while todo != {}
        invariant Valid() && todo <= byServer.Keys
        invariant Attempts() + |todo| == old(Attempts()) + |byServer.Keys|
        invariant pjsk.db.(defaults := old(pjsk.db.defaults)).Data() == old(pjsk.db).Data()
        invariant AddsFirsts(old(pjsk.db.defaults), pjsk.db.defaults, user, infos)
        invariant Counted(old(Counters()), old(pjsk.db.defaults))
        invariant Calm(pjsk.oracle) ==>
                    forall server :: server in byServer && server !in todo ==> (user, server) in pjsk.db.defaults
        decreases |todo|
      {
        var server :| server in todo;
        Create(user, byServer[server], server);
        todo := todo - {server};
      }
    }
  }

  method ChooseGlobal(infos: seq<Info>, byServer: map<string, int>) returns (choice: Option<int>)
    requires IsFirstByServer(byServer, infos)
    ensures choice == FirstByPriority(infos, PRIORITY)
  {
    assert PRIORITY[0..] == PRIORITY;
    for i := 0 to |PRIORITY|
      invariant FirstByPriority(infos, PRIORITY) == FirstByPriority(infos, PRIORITY[i..])
    {
      FirstOnFound(infos, PRIORITY[i]);
      assert PRIORITY[i..][1..] == PRIORITY[i+1..];
      if PRIORITY[i] in byServer {
        return Some(byServer[PRIORITY[i]]);
      }
    }
    return None;
  }

  /** The closed form of one user's scopes, from what the two stages of a calm pass leave. */
  lemma CalmResult(d: Defaults, d1: Defaults, d2: Defaults, user: int, infos: seq<Info>)
    requires |infos| != 1
    requires var choice := FirstByPriority(infos, PRIORITY);
             if choice.None? || (user, GLOBAL) in d then d1 == d else d1 == d[(user, GLOBAL) := choice.value]
    requires AddsFirsts(d1, d2, user, infos)
    requires forall server :: server in ServersOf(infos) ==> (user, server) in d2
    ensures UserClosed(d, d2, user, infos)
  {
    var choice := FirstByPriority(infos, PRIORITY);
    forall scope
      ensures Lookup(d2, user, scope) == if (user, scope) in d then Lookup(d, user, scope) else Target(infos, scope)
    {
      FirstOnFound(infos, scope);
      var k := (user, scope);
      if k in d1 {
        assert k in d2 && d2[k] == d1[k];
      }
    }
  }

  lemma {:induction false} NothingByPriority(servers: seq<string>)
    ensures FirstByPriority([], servers) == None
  {
    if servers != [] {
      NothingByPriority(servers[1..]);
    }
  }

  lemma SingleInfo(infos: seq<Info>)
    requires |infos| == 1
    ensures forall scope :: FirstOn(infos, scope) == if scope == infos[0].server then Some(infos[0].binding) else None
  {
    assert infos[1..] == [];
  }

  // ---------- the target ----------

  datatype End = Completed | Cancelled | QueryFailed | DryRun

  /** Whatever fails, rows are only added, and only permitted ones. */
  ghost predicate OnlyPermitted(d: Defaults, d': Defaults, rows: seq<LoadedBinding>) {
    && (forall k :: k in d ==> k in d' && d'[k] == d[k])
    && (forall k :: k in d' && k !in d ==> Permitted(InfosOf(rows, k.0), k.1, d'[k]))
  }

  /** The users with bindings that have a game account. */
  function UsersOf(rows: seq<LoadedBinding>): set<int> {
    set i | 0 <= i < |rows| && rows[i].server.Some? :: rows[i].user
  }

  /** The sum of f over the keys. */
  ghost function Sum(keys: set<int>, f: int -> nat): nat
    decreases |keys|
  {
    if exists key: int :: key in keys then
      var key :| key in keys;
      f(key) + Sum(keys - {key}, f)
    else 0
  }

  /** It does not matter which key is counted first. */
  lemma {:induction false} SumWithout(keys: set<int>, f: int -> nat, key: int)
    requires key in keys
    ensures Sum(keys, f) == f(key) + Sum(keys - {key}, f)
    decreases |keys|
  {
    var first: int :| first in keys && Sum(keys, f) == f(first) + Sum(keys - {first}, f);
    if first != key {
      SumWithout(keys - {first}, f, key);
      SumWithout(keys - {key}, f, first);
      assert keys - {first} - {key} == keys - {key} - {first};
    }
  }

  /** The create attempts for each user. */
  function AttemptsByUser(rows: seq<LoadedBinding>): int -> nat {
    user => AttemptsFor(InfosOf(rows, user))
  }

  /** The create attempts of a whole pass. */
  ghost function TotalAttempts(rows: seq<LoadedBinding>): nat { Sum(UsersOf(rows), AttemptsByUser(rows)) }

  lemma KeysAreUsers(rows: seq<LoadedBinding>, byUser: map<int, seq<Info>>)
    requires Groups(byUser, rows)
    ensures byUser.Keys == UsersOf(rows)
  {
    forall user
      ensures user in byUser <==> user in UsersOf(rows)
    {
      if user in byUser {
        var info := byUser[user][0];
        InfosAreRows(rows, user, info);
        var i :| 0 <= i < |rows| && rows[i] == LoadedBinding(info.binding, user, Some(info.server));
      }
      if user in UsersOf(rows) {
        var i :| 0 <= i < |rows| && rows[i].server.Some? && rows[i].user == user;
        InfosAreRows(rows, user, Info(rows[i].id, rows[i].server.value));
      }
    }
  }

  lemma AttemptsOfGroups(rows: seq<LoadedBinding>, byUser: map<int, seq<Info>>) returns (attempts: int -> nat)
    requires Groups(byUser, rows)
    ensures forall user :: user in byUser ==> attempts(user) == AttemptsFor(byUser[user])
    ensures Sum(byUser.Keys, attempts) == TotalAttempts(rows)
  {
    KeysAreUsers(rows, byUser);
    attempts := AttemptsByUser(rows);
  }

  /** The counters of one pass. */
  datatype Tally = Tally(inserted: nat, skipped: nat, failed: nat) {
    function Attempts(): nat { inserted + skipped + failed }
  }

  /** The defaults target over the loaded bindings.  In every visiting order of users and servers,
      if nothing fails, the table ends as the one closed form; and whatever fails, a pass that is not
      cancelled counts every attempt once.  It is cancelled exactly when a look before one of the users,
      at the ticks `looks`, finds it stopped. */
  method SetDefaultBindings(pjsk: Database, rows: seq<LoadedBinding>, dryRun: bool, queryFails: bool)
    returns (end: End, tally: Tally, ghost looks: seq<nat>)
    modifies pjsk
    ensures end == if dryRun then DryRun else if queryFails then QueryFailed
                   else if AnyStopped(pjsk.oracle, looks) then Cancelled else Completed
    ensures end.Completed? ==> |looks| == |UsersOf(rows)|
    ensures (end.Completed? || end.Cancelled?) && UsersOf(rows) != {} ==> looks != [] && looks[0] == old(pjsk.db.tick)
    ensures Straight(pjsk.oracle) ==> |pjsk.db.defaults| == |old(pjsk.db.defaults)| + tally.inserted
    ensures Calm(pjsk.oracle) ==> tally.failed == 0
    ensures pjsk.db.(defaults := old(pjsk.db.defaults)).Data() == old(pjsk.db).Data()
    ensures OnlyPermitted(old(pjsk.db.defaults), pjsk.db.defaults, rows)
    ensures dryRun || queryFails ==> pjsk.db == old(pjsk.db)
    ensures Calm(pjsk.oracle) && !dryRun && !queryFails ==>
              && end.Completed?
              && IsClosed(old(pjsk.db.defaults), pjsk.db.defaults, rows)
    ensures end.Completed? ==> tally.Attempts() == TotalAttempts(rows)
    ensures tally.Attempts() <= TotalAttempts(rows)
  {
    tally, looks := Tally(0, 0, 0), [];
    if dryRun {
      end := DryRun;
      return;
    }
    if queryFails {
      end := QueryFailed;
      return;
    }
    var byUser := GroupBindingsByUser(rows);
    ghost var attempts := AttemptsOfGroups(rows, byUser);
    var state := new DefaultBindingImport(pjsk, pjsk.db.defaults.Keys);
    KeysAreUsers(rows, byUser);
    var stopped;
    stopped, looks := ImportUsers(state, rows, byUser, attempts);
    tally := state.Counters();
    end := if stopped then Cancelled else Completed;
  }

  ghost predicate AnyStopped(o: Oracle, looks: seq<nat>) { exists t :: t in looks && o.stopped(t) }

  lemma LookAgain(o: Oracle, looks: seq<nat>, t: nat)
    ensures AnyStopped(o, looks + [t]) <==> AnyStopped(o, looks) || o.stopped(t)
  {
    assert t in looks + [t];
    assert forall u :: u in looks ==> u in looks + [t];
  }

  /** All users, in any order, with a look before each whether the run has been cancelled. */
  method ImportUsers(state: DefaultBindingImport, rows: seq<LoadedBinding>, byUser: map<int, seq<Info>>,
                     ghost attempts: int -> nat)
    returns (stopped: bool, ghost looks: seq<nat>)
    requires state.Valid() && state.Counters() == Tally(0, 0, 0)
    requires Groups(byUser, rows)
    requires forall user :: user in byUser ==> attempts(user) == AttemptsFor(byUser[user])
    modifies state, state.pjsk
    ensures state.pjsk.db.(defaults := old(state.pjsk.db.defaults)).Data() == old(state.pjsk.db).Data()
    ensures OnlyPermitted(old(state.pjsk.db.defaults), state.pjsk.db.defaults, rows)
    ensures Calm(state.pjsk.oracle) ==>
              !stopped && IsClosed(old(state.pjsk.db.defaults), state.pjsk.db.defaults, rows)
    ensures !stopped ==> state.Attempts() == Sum(byUser.Keys, attempts)
    ensures state.Attempts() <= Sum(byUser.Keys, attempts)
    ensures state.Counted(Tally(0, 0, 0), old(state.pjsk.db.defaults))
    ensures stopped <==> AnyStopped(state.pjsk.oracle, looks)
    ensures !stopped ==> |looks| == |byUser.Keys|
    ensures byUser.Keys != {} ==> looks != [] && looks[0] == old(state.pjsk.db.tick)
  {
    var pjsk := state.pjsk;
    var todo := byUser.Keys;
    ghost var before := pjsk.db.defaults;
    looks := [];
    while todo != {}
      invariant state.Valid() && todo <= byUser.Keys
      invariant pjsk.db.(defaults := before).Data() == old(pjsk.db).Data()
      invariant Halfway(before, pjsk.db.defaults, rows, byUser.Keys, todo, Calm(pjsk.oracle))
      invariant state.Attempts() + Sum(todo, attempts) == Sum(byUser.Keys, attempts)
      invariant state.Counted(Tally(0, 0, 0), before)
      invariant |looks| + |todo| == |byUser.Keys| && !AnyStopped(pjsk.oracle, looks)
      invariant if looks == [] then pjsk.db.tick == old(pjsk.db.tick) else looks[0] == old(pjsk.db.tick)
      decreases |todo|
    {
      var user := AnyOf(todo);
      LookAgain(pjsk.oracle, looks, pjsk.db.tick);
      looks := looks + [pjsk.db.tick];
      stopped := pjsk.Stopped();
      if stopped {
        return;
      }
      ghost var d := pjsk.db.defaults;
      state.ImportUser(user, byUser[user]);
      HalfwayStep(before, d, pjsk.db.defaults, rows, byUser.Keys, todo, user, Calm(pjsk.oracle));
      SumWithout(todo, attempts, user);
      todo := todo - {user};
    }
    stopped := false;
    if Calm(pjsk.oracle) {
      HalfwayDone(before, pjsk.db.defaults, rows, byUser);
    }
  }

  /** Maps yield their keys in no particular order. */
  method AnyOf(keys: set<int>) returns (key: int)
    requires keys != {}
    ensures key in keys
  {
    if forall k: int :: k !in keys {
      assert false;
    }
    key :| key in keys;
  }

  ghost predicate Untouched(d: Defaults, d': Defaults, user: int) {
    forall scope :: Lookup(d', user, scope) == Lookup(d, user, scope)
  }

  /** The user's scopes are as the closed form has them. */
  ghost predicate Settled(d: Defaults, d': Defaults, rows: seq<LoadedBinding>, user: int) {
    forall scope :: Lookup(d', user, scope) == Closed(d, rows, user, scope)
  }

  lemma OneMoreUser(before: Defaults, d: Defaults, d': Defaults, rows: seq<LoadedBinding>, user: int)
    requires OnlyPermitted(before, d, rows) && Extends(d, d', user, InfosOf(rows, user))
    requires Untouched(before, d, user)
    ensures OnlyPermitted(before, d', rows)
    ensures forall other :: other != user && Untouched(before, d, other) ==> Untouched(before, d', other)
    ensures forall other :: other != user && Settled(before, d, rows, other) ==> Settled(before, d', rows, other)
    ensures UserClosed(d, d', user, InfosOf(rows, user)) ==> Settled(before, d', rows, user)
  {
    assert forall other, scope :: other != user ==> Lookup(d', other, scope) == Lookup(d, other, scope);
    forall scope
      ensures (user, scope) in d <==> (user, scope) in before
      ensures (user, scope) in d ==> d[(user, scope)] == before[(user, scope)]
    {
      assert Lookup(d, user, scope) == Lookup(before, user, scope);
    }
  }

  /** The state of the pass when the users in `todo` are still to come: their scopes are untouched,
      and in a calm pass those of the others are settled. */
  ghost predicate Halfway(
    before: Defaults, d: Defaults, rows: seq<LoadedBinding>, users: set<int>, todo: set<int>, calm: bool)
  {
    && OnlyPermitted(before, d, rows)
    && (forall user :: user in todo || user !in users ==> Untouched(before, d, user))
    && (calm ==> forall user :: user in users && user !in todo ==> Settled(before, d, rows, user))
  }

  lemma HalfwayStep(before: Defaults, d: Defaults, d': Defaults, rows: seq<LoadedBinding>, users: set<int>,
                    todo: set<int>, user: int, calm: bool)
    requires Halfway(before, d, rows, users, todo, calm) && user in todo && user in users
    requires Extends(d, d', user, InfosOf(rows, user))
    requires calm ==> UserClosed(d, d', user, InfosOf(rows, user))
    ensures Halfway(before, d', rows, users, todo - {user}, calm)
  {
    OneMoreUser(before, d, d', rows, user);
  }

  lemma HalfwayDone(before: Defaults, d: Defaults, rows: seq<LoadedBinding>, byUser: map<int, seq<Info>>)
    requires Groups(byUser, rows) && Halfway(before, d, rows, byUser.Keys, {}, true)
    ensures IsClosed(before, d, rows)
  {
    NothingByPriority(PRIORITY);
    forall user, scope
      ensures Lookup(d, user, scope) == Closed(before, rows, user, scope)
    {
      if user in byUser {
        assert Settled(before, d, rows, user);
      } else {
        assert Untouched(before, d, user);
        assert InfosOf(rows, user) == [];
      }
    }
  }

  // ---------- what the closed form promises ----------

  ghost predicate IsClosed(d: Defaults, d': Defaults, rows: seq<LoadedBinding>) {
    forall user, scope :: Lookup(d', user, scope) == Closed(d, rows, user, scope)
  }

  lemma {:induction false} InfosAreRows(rows: seq<LoadedBinding>, user: int, info: Info)
    ensures info in InfosOf(rows, user) <==> LoadedBinding(info.binding, user, Some(info.server)) in rows
  {
    if rows != [] {
      var init, last := rows[..|rows| - 1], rows[|rows| - 1];
      InfosAreRows(init, user, info);
      assert rows == init + [last];
    }
  }

  lemma {:induction false} FirstByPriorityFound(infos: seq<Info>, servers: seq<string>)
    ensures FirstByPriority(infos, servers).Some? <==> exists i :: 0 <= i < |servers| && servers[i] in ServersOf(infos)
    ensures FirstByPriority(infos, servers).Some? ==>
              exists i :: 0 <= i < |servers| && FirstOn(infos, servers[i]) == FirstByPriority(infos, servers)
                          && forall j :: 0 <= j < i ==> servers[j] !in ServersOf(infos)
  {
    if servers != [] {
      FirstOnFound(infos, servers[0]);
      var rest := servers[1..];
      FirstByPriorityFound(infos, rest);
      if FirstOn(infos, servers[0]).None? && FirstByPriority(infos, rest).Some? {
        var i :| 0 <= i < |rest| && FirstOn(infos, rest[i]) == FirstByPriority(infos, rest)
                 && forall j :: 0 <= j < i ==> rest[j] !in ServersOf(infos);
        assert servers[i+1] == rest[i];
        assert forall j :: 0 < j < i + 1 ==> servers[j] == rest[j-1];
      }
      if i :| 0 <= i < |servers| && servers[i] in ServersOf(infos) {
        if i > 0 {
          assert rest[i-1] in ServersOf(infos);
        }
      }
    }
  }

  /** The global choice, spelled out: the only binding, or the first on "jp", else on "cn", "tw", "en",
      "kr". */
  lemma GlobalByName(infos: seq<Info>)
    ensures |infos| == 1 ==> GlobalChoice(infos) == Some(infos[0].binding)
    ensures |infos| != 1 ==>
              GlobalChoice(infos) ==
              if "jp" in ServersOf(infos) then FirstOn(infos, "jp")
              else if "cn" in ServersOf(infos) then FirstOn(infos, "cn")
              else if "tw" in ServersOf(infos) then FirstOn(infos, "tw")
              else if "en" in ServersOf(infos) then FirstOn(infos, "en")
              else FirstOn(infos, "kr")
  {
    var en, tw, cn := ["en", "kr"], ["tw", "en", "kr"], ["cn", "tw", "en", "kr"];
    assert PRIORITY[1..] == cn && cn[1..] == tw && tw[1..] == en && en[1..] == ["kr"] && ["kr"][1..] == [];
    PriorityStep(infos, PRIORITY);
    PriorityStep(infos, cn);
    PriorityStep(infos, tw);
    PriorityStep(infos, en);
    PriorityStep(infos, ["kr"]);
    FirstOnFound(infos, "kr");
  }

  lemma PriorityStep(infos: seq<Info>, servers: seq<string>)
    requires servers != []
    ensures FirstByPriority(infos, servers) ==
            if servers[0] in ServersOf(infos) then FirstOn(infos, servers[0]) else FirstByPriority(infos, servers[1..])
  {
    FirstOnFound(infos, servers[0]);
  }

  /** The bindings of a user come in the order in which they were loaded. */
  lemma {:induction false} InfosInOrder(rows: seq<LoadedBinding>, user: int) returns (indices: seq<nat>)
    ensures |indices| == |InfosOf(rows, user)|
    ensures forall i, j :: 0 <= i < j < |indices| ==> indices[i] < indices[j]
    ensures forall k :: 0 <= k < |indices| ==>
              var info := InfosOf(rows, user)[k];
              indices[k] < |rows| && rows[indices[k]] == LoadedBinding(info.binding, user, Some(info.server))
  {
    indices := [];
    if rows != [] {
      var n := |rows| - 1;
      indices := InfosInOrder(rows[..n], user);
      if rows[n].user == user && rows[n].server.Some? {
        indices := indices + [n];
      }
    }
  }

  predicate OnKnownServers(infos: seq<Info>) { forall i :: 0 <= i < |infos| ==> infos[i].server in PRIORITY }

  /** A user with bindings on the imported regions gets a global choice: one of their bindings, on
      the best server they have. */
  lemma GlobalChoiceExists(infos: seq<Info>)
    requires infos != [] && OnKnownServers(infos)
    ensures GlobalChoice(infos).Some?
    ensures exists server :: Info(GlobalChoice(infos).value, server) in infos && Best(infos, server)
  {
    var s0 := infos[0].server;
    assert s0 in ServersOf(infos);
    var k :| 0 <= k < |PRIORITY| && PRIORITY[k] == s0;
    FirstByPriorityFound(infos, PRIORITY);
    if |infos| == 1 {
      assert infos[0] == Info(GlobalChoice(infos).value, s0);
      assert Best(infos, s0);
    } else {
      var i :| 0 <= i < |PRIORITY| && FirstOn(infos, PRIORITY[i]) == FirstByPriority(infos, PRIORITY)
               && forall j :: 0 <= j < i ==> PRIORITY[j] !in ServersOf(infos);
      FirstOnFound(infos, PRIORITY[i]);
      NoneBetter(infos, i);
    }
  }

  /** No server of the list comes before this one in the priority order. */
  predicate Best(infos: seq<Info>, server: string) {
    forall j, k :: 0 <= j < |infos| && 0 <= k < |PRIORITY| && infos[j].server == PRIORITY[k] ==>
      exists i :: 0 <= i <= k && PRIORITY[i] == server
  }

  lemma NoneBetter(infos: seq<Info>, i: nat)
    requires i < |PRIORITY| && forall j :: 0 <= j < i ==> PRIORITY[j] !in ServersOf(infos)
    ensures Best(infos, PRIORITY[i])
  {
    forall j, k | 0 <= j < |infos| && 0 <= k < |PRIORITY| && infos[j].server == PRIORITY[k]
      ensures exists h :: 0 <= h <= k && PRIORITY[h] == PRIORITY[i]
    {
      assert PRIORITY[k] in ServersOf(infos);
    }
  }

  /** Coverage: in the closed form every user whose loaded bindings lie on the imported regions has
      a global default and one for each of their servers. */
  lemma Coverage(d: Defaults, d': Defaults, rows: seq<LoadedBinding>, user: int, server: string)
    requires IsClosed(d, d', rows) && server in ServersOf(InfosOf(rows, user))
    ensures (user, server) in d'
    ensures OnKnownServers(InfosOf(rows, user)) ==> (user, GLOBAL) in d'
  {
    var infos := InfosOf(rows, user);
    FirstOnFound(infos, server);
    assert Lookup(d', user, server) == Closed(d, rows, user, server);
    assert Lookup(d', user, GLOBAL) == Closed(d, rows, user, GLOBAL);
    if OnKnownServers(infos) {
      GlobalChoiceExists(infos);
    }
  }

  /** Soundness, even when operations fail: every row the pass adds points to a binding of the same
      user, and outside the global scope to one on the scope's server. */
  lemma AddedRowsAreOwn(d: Defaults, d': Defaults, rows: seq<LoadedBinding>, user: int, scope: string)
    requires OnlyPermitted(d, d', rows) && (user, scope) in d' && (user, scope) !in d
    ensures exists server ::
              LoadedBinding(d'[(user, scope)], user, Some(server)) in rows && (scope == GLOBAL || scope == server)
  {
    var infos, b := InfosOf(rows, user), d'[(user, scope)];
    FirstOnFound(infos, scope);
    if FirstOn(infos, scope) == Some(b) {
      InfosAreRows(rows, user, Info(b, scope));
    } else {
      assert GlobalChoice(infos) == Some(b);
      if |infos| == 1 {
        assert infos[0] in infos;
        InfosAreRows(rows, user, infos[0]);
      } else {
        FirstByPriorityFound(infos, PRIORITY);
        var i :| 0 <= i < |PRIORITY| && FirstOn(infos, PRIORITY[i]) == Some(b);
        FirstOnFound(infos, PRIORITY[i]);
        InfosAreRows(rows, user, Info(b, PRIORITY[i]));
      }
    }
  }

  /** Idempotence: a second pass over the same bindings, loaded in any order, adds nothing. */
  lemma SecondPassAddsNothing(
    d: Defaults, d1: Defaults, d2: Defaults, rows: seq<LoadedBinding>, again: seq<LoadedBinding>)
    requires IsClosed(d, d1, rows) && IsClosed(d1, d2, again) && multiset(rows) == multiset(again)
    ensures d2 == d1
  {
    forall k
      ensures k in d2 <==> k in d1
      ensures k in d1 ==> d2[k] == d1[k]
    {
      var (user, scope) := k;
      assert Lookup(d2, user, scope) == Closed(d1, again, user, scope);
      assert Lookup(d1, user, scope) == Closed(d, rows, user, scope);
      if k !in d1 {
        NoTargetInAnyOrder(rows, again, user, scope);
      }
    }
  }

  lemma NoTargetInAnyOrder(rows: seq<LoadedBinding>, again: seq<LoadedBinding>, user: int, scope: string)
    requires multiset(rows) == multiset(again) && Target(InfosOf(rows, user), scope).None?
    ensures Target(InfosOf(again, user), scope).None?
  {
    var a, b := InfosOf(rows, user), InfosOf(again, user);
    SameInfos(rows, again, user);
    assert |a| == |multiset(a)| == |multiset(b)| == |b|;
    SameServers(a, b);
    FirstOnFound(a, scope);
    FirstOnFound(b, scope);
    FirstByPriorityFound(a, PRIORITY);
    FirstByPriorityFound(b, PRIORITY);
  }

  lemma {:induction false} InfoMultiplicity(rows: seq<LoadedBinding>, user: int, info: Info)
    ensures multiset(InfosOf(rows, user))[info] == multiset(rows)[LoadedBinding(info.binding, user, Some(info.server))]
  {
    if rows != [] {
      var init, last := rows[..|rows| - 1], rows[|rows| - 1];
      InfoMultiplicity(init, user, info);
      assert rows == init + [last];
    }
  }

  lemma SameInfos(rows: seq<LoadedBinding>, again: seq<LoadedBinding>, user: int)
    requires multiset(rows) == multiset(again)
    ensures multiset(InfosOf(rows, user)) == multiset(InfosOf(again, user))
  {
    forall info: Info
      ensures multiset(InfosOf(rows, user))[info] == multiset(InfosOf(again, user))[info]
    {
      InfoMultiplicity(rows, user, info);
      InfoMultiplicity(again, user, info);
    }
  }

  lemma SameServers(a: seq<Info>, b: seq<Info>)
    requires multiset(a) == multiset(b)
    ensures ServersOf(a) == ServersOf(b)
  {
    forall i | 0 <= i < |a|
      ensures a[i].server in ServersOf(b)
    {
      assert a[i] in multiset(b);
    }
    forall i | 0 <= i < |b|
      ensures b[i].server in ServersOf(a)
    {
      assert b[i] in multiset(a);
    }
  }
}
