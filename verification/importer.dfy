/** The importer as a whole: the bindings target, then the defaults target over what it left. */
module Importer {
  import opened Wrappers
  import opened ImporterDb
  import opened ImporterBindings
  import ImporterDefaults

  type LoadedBinding = ImporterDefaults.LoadedBinding

  ghost predicate IsAccountOf(db: Db, b: Binding, key: AccountKey) {
    key in db.accounts && b.account == Some(db.accounts[key])
  }

  /** The row as it is loaded with its account: the account's server, if there is an account. */
  ghost predicate Shows(db: Db, b: Binding, l: LoadedBinding) {
    && l.id == b.id && l.user == b.user
    && (l.server.Some? ==> exists key :: IsAccountOf(db, b, key) && key.server == l.server.value)
    && (forall key :: IsAccountOf(db, b, key) ==> l.server == Some(key.server))
  }

  ghost predicate Backed(db: Db, l: LoadedBinding) { exists b :: b in db.bindings && Shows(db, b, l) }

  ghost predicate Shown(db: Db, b: Binding, rows: seq<LoadedBinding>) { exists l :: l in rows && Shows(db, b, l) }

  ghost predicate DistinctIds(rows: seq<LoadedBinding>) {
    forall i, j :: 0 <= i < j < |rows| ==> rows[i].id != rows[j].id
  }

  /** The bindings table, loaded in some order, each row once. */
  ghost predicate Loads(db: Db, rows: seq<LoadedBinding>) {
    && (forall l :: l in rows ==> Backed(db, l))
    && (forall b :: b in db.bindings ==> Shown(db, b, rows))
    && DistinctIds(rows)
  }

  /** UserBinding.Query().WithGameAccount().All: no order is promised. */
  method ListBindings(pjsk: Database) returns (rows: seq<LoadedBinding>)
    requires Consistent(pjsk.db)
    ensures Loads(pjsk.db, rows)
  {
    rows := [];
    var db := pjsk.db;
    var todo := set b | b in db.bindings;
    while todo != {}
      invariant PartlyLoaded(db, rows, todo)
      decreases |todo|
    {
      var b :| b in todo;
      var row := LoadBinding(db, b);
      OneMoreLoaded(db, rows, todo, b, row);
      rows := rows + [row];
      todo := todo - {b};
    }
  }

  /** The bindings that are not in `todo` have been loaded. */
  ghost predicate PartlyLoaded(db: Db, rows: seq<LoadedBinding>, todo: set<Binding>) {
    && (forall b :: b in todo ==> b in db.bindings)
    && (forall l :: l in rows ==> Backed(db, l))
    && (forall b :: b in db.bindings && b !in todo ==> Shown(db, b, rows))
    && (forall l, b :: l in rows && b in todo ==> l.id != b.id)
    && DistinctIds(rows)
  }

  lemma OneMoreLoaded(db: Db, rows: seq<LoadedBinding>, todo: set<Binding>, b: Binding, row: LoadedBinding)
    requires Consistent(db) && PartlyLoaded(db, rows, todo) && b in todo && Shows(db, b, row)
    ensures PartlyLoaded(db, rows + [row], todo - {b})
  {
    OneId(db, b);
    OneMoreShown(db, rows, todo, b, row);
    BackedById(db, b, row);
  }

  lemma OneMoreShown(db: Db, rows: seq<LoadedBinding>, todo: set<Binding>, b: Binding, row: LoadedBinding)
    requires Shows(db, b, row)
    requires forall other :: other in db.bindings && other !in todo ==> Shown(db, other, rows)
    ensures forall other :: other in db.bindings && other !in todo - {b} ==> Shown(db, other, rows + [row])
  {
    assert row in rows + [row];
    forall other | other in db.bindings && other !in todo
      ensures Shown(db, other, rows + [row])
    {
      var l :| l in rows && Shows(db, other, l);
      assert l in rows + [row];
    }
  }

  lemma BackedById(db: Db, b: Binding, row: LoadedBinding)
    requires b in db.bindings && Shows(db, b, row)
    ensures Backed(db, row) && row.id == b.id
  {
  }

  lemma OneId(db: Db, b: Binding)
    requires Consistent(db) && b in db.bindings
    ensures forall other :: other in db.bindings && other.id == b.id ==> other == b
  {
    var i :| 0 <= i < |db.bindings| && db.bindings[i] == b;
  }

  /** One row with its account edge. */
  method LoadBinding(db: Db, b: Binding) returns (row: LoadedBinding)
    requires Consistent(db)
    ensures Shows(db, b, row)
  {
    var servers := set key | key in db.accounts && b.account == Some(db.accounts[key]) :: key.server;
    var server := None;
    if servers != {} {
      var s :| s in servers;
      server := Some(s);
    }
    row := ImporterDefaults.LoadedBinding(b.id, b.user, server);
    ServerFound(db, b, servers, row);
  }

  lemma ServerFound(db: Db, b: Binding, servers: set<string>, row: LoadedBinding)
    requires Consistent(db)
    requires servers == set key | key in db.accounts && b.account == Some(db.accounts[key]) :: key.server
    requires row.id == b.id && row.user == b.user
    requires if servers == {} then row.server == None else row.server.Some? && row.server.value in servers
    ensures Shows(db, b, row)
  {
    forall key | IsAccountOf(db, b, key)
      ensures row.server == Some(key.server)
    {
      assert key.server in servers;
      var other :| other in db.accounts && b.account == Some(db.accounts[other]) && other.server == row.server.value;
      assert other == key;
    }
    if row.server.Some? {
      var key :| key in db.accounts && b.account == Some(db.accounts[key]) && key.server == row.server.value;
      assert IsAccountOf(db, b, key);
    }
  }

  /** However the table is loaded, the rows are the same. */
  lemma SameLoads(db: Db, rows: seq<LoadedBinding>, again: seq<LoadedBinding>)
    requires Loads(db, rows) && Loads(db, again)
    ensures multiset(rows) == multiset(again)
  {
    LoadedInBoth(db, rows, again);
    LoadedInBoth(db, again, rows);
    forall l: LoadedBinding
      ensures multiset(rows)[l] == multiset(again)[l]
    {
      LoadedOnce(rows, l);
      LoadedOnce(again, l);
    }
  }

  lemma LoadedInBoth(db: Db, rows: seq<LoadedBinding>, again: seq<LoadedBinding>)
    requires Loads(db, rows) && Loads(db, again)
    ensures forall l :: l in rows ==> l in again
  {
    forall l | l in rows
      ensures l in again
    {
      assert Backed(db, l);
      var b :| b in db.bindings && Shows(db, b, l);
      assert Shown(db, b, again);
      var other :| other in again && Shows(db, b, other);
      ShownAlike(db, b, l, other);
    }
  }

  lemma ShownAlike(db: Db, b: Binding, l: LoadedBinding, other: LoadedBinding)
    requires Shows(db, b, l) && Shows(db, b, other)
    ensures l == other
  {
    if key :| IsAccountOf(db, b, key) {
      assert l.server == Some(key.server);
    }
  }

  lemma {:induction false} LoadedOnce(rows: seq<LoadedBinding>, l: LoadedBinding)
    requires DistinctIds(rows)
    ensures multiset(rows)[l] == if l in rows then 1 else 0
  {
    if rows != [] {
      var init, last := rows[..|rows| - 1], rows[|rows| - 1];
      LoadedOnce(init, l);
      assert rows == init + [last];
    }
  }

  /** The user's accounts are all on servers of the priority list. */
  ghost predicate OnImportedRegions(db: Db, user: int) {
    forall b, key :: b in db.bindings && b.user == user && IsAccountOf(db, b, key) ==>
      key.server in ImporterDefaults.PRIORITY
  }

  /** A record has been fully imported: its user has a binding to its account, a default for its
      server and, unless they also play elsewhere, a global default. */
  ghost predicate Served(db: Db, it: Item) {
    && ExactlyOne(db, it.rec.Who(), it.Account())
    && var user := db.users[it.rec.Who()];
       && (user, it.server) in db.defaults
       && (OnImportedRegions(db, user) ==> (user, ImporterDefaults.GLOBAL) in db.defaults)
  }

  /** The server of each of the user's accounts is among those the pass sees. */
  lemma LoadedServer(db: Db, rows: seq<LoadedBinding>, b: Binding, key: AccountKey)
    requires Loads(db, rows) && b in db.bindings && IsAccountOf(db, b, key)
    ensures key.server in ImporterDefaults.ServersOf(ImporterDefaults.InfosOf(rows, b.user))
  {
    var infos := ImporterDefaults.InfosOf(rows, b.user);
    assert Shown(db, b, rows);
    var l :| l in rows && Shows(db, b, l);
    var info := ImporterDefaults.Info(l.id, key.server);
    assert l == ImporterDefaults.LoadedBinding(info.binding, b.user, Some(info.server));
    ImporterDefaults.InfosAreRows(rows, b.user, info);
    var k :| 0 <= k < |infos| && infos[k] == info;
  }

  /** And it sees no others. */
  lemma LoadedOnRegions(db: Db, rows: seq<LoadedBinding>, user: int)
    requires Loads(db, rows) && OnImportedRegions(db, user)
    ensures ImporterDefaults.OnKnownServers(ImporterDefaults.InfosOf(rows, user))
  {
    var infos := ImporterDefaults.InfosOf(rows, user);
    forall k | 0 <= k < |infos|
      ensures infos[k].server in ImporterDefaults.PRIORITY
    {
      ImporterDefaults.InfosAreRows(rows, user, infos[k]);
      var row := ImporterDefaults.LoadedBinding(infos[k].binding, user, Some(infos[k].server));
      assert Backed(db, row);
      var b :| b in db.bindings && Shows(db, b, row);
      var key :| IsAccountOf(db, b, key) && key.server == infos[k].server;
    }
  }

  /** After a clean bindings run over the items and an undisturbed defaults pass, every item is
      fully imported. */
  lemma ItemServed(db: Db, db': Db, rows: seq<LoadedBinding>, it: Item)
    requires Consistent(db) && Loads(db, rows) && Present(db, it.rec.Who(), it.Account())
    requires db'.(defaults := db.defaults).Data() == db.Data()
    requires ImporterDefaults.IsClosed(db.defaults, db'.defaults, rows)
    ensures Served(db', it)
  {
    var user, key := db.users[it.rec.Who()], it.Account();
    var j :| 0 <= j < |db.bindings| && db.bindings[j].user == user && db.bindings[j].account == Some(db.accounts[key]);
    assert IsAccountOf(db, db.bindings[j], key);
    LoadedServer(db, rows, db.bindings[j], key);
    ImporterDefaults.Coverage(db.defaults, db'.defaults, rows, user, it.server);
    if OnImportedRegions(db', user) {
      SameRegions(db, db', user);
      LoadedOnRegions(db, rows, user);
    }
    OnlyOneBinding(db, db', it.rec.Who(), key);
  }

  lemma SameRegions(db: Db, db': Db, user: int)
    requires db'.bindings == db.bindings && db'.accounts == db.accounts
    requires OnImportedRegions(db', user)
    ensures OnImportedRegions(db, user)
  {
    assert forall b, k :: IsAccountOf(db, b, k) ==> IsAccountOf(db', b, k);
  }

  lemma OnlyOneBinding(db: Db, db': Db, who: Identity, key: AccountKey)
    requires Consistent(db) && Present(db, who, key)
    requires db'.bindings == db.bindings && db'.accounts == db.accounts && db'.users == db.users
    ensures ExactlyOne(db', who, key)
  {
  }

  // ---------- the whole table ----------

  /** Every user has a default for the server of each of their accounts and, unless they also play
      elsewhere, a global default. */
  ghost predicate Covered(db: Db) {
    forall b, key :: b in db.bindings && IsAccountOf(db, b, key) ==>
      && (b.user, key.server) in db.defaults
      && (OnImportedRegions(db, b.user) ==> (b.user, ImporterDefaults.GLOBAL) in db.defaults)
  }

  /** The row points to a binding of the user, outside the global scope on the scope's server. */
  ghost predicate PointsToOwn(db: Db, user: int, scope: string, binding: int) {
    exists b, key ::
      && b in db.bindings && b.user == user && b.id == binding && IsAccountOf(db, b, key)
      && (scope == ImporterDefaults.GLOBAL || scope == key.server)
  }

  /** Default rows are only added, and those that are point to the user's own bindings. */
  ghost predicate AddsOwn(before: ImporterDefaults.Defaults, db: Db) {
    && (forall k :: k in before ==> k in db.defaults && db.defaults[k] == before[k])
    && (forall k :: k in db.defaults && k !in before ==> PointsToOwn(db, k.0, k.1, db.defaults[k]))
  }

  /** No user, account, binding or default is taken away or changed. */
  ghost predicate OnlyAdds(before: Db, db: Db) {
    && Submap(before.users, db.users) && Submap(before.accounts, db.accounts)
    && before.bindings <= db.bindings && Submap(before.defaults, db.defaults)
  }

  /** Every default row points to a binding of its user. */
  ghost predicate AllPointToUsers(db: Db) { forall k :: k in db.defaults ==> IsUsers(db, k.0, db.defaults[k]) }

  ghost predicate IsUsers(db: Db, user: int, binding: int) {
    exists b :: b in db.bindings && b.user == user && b.id == binding
  }

  /** Every default row points to a binding of its user, outside the global scope on the scope's
      server. */
  ghost predicate AllPointToOwn(db: Db) {
    forall k :: k in db.defaults ==> PointsToOwn(db, k.0, k.1, db.defaults[k])
  }

  /** Rows that pointed to the right bindings still do, and those that were added do. */
  lemma OwnStaysOwn(before: Db, db: Db)
    requires OnlyAdds(before, db) && AddsOwn(before.defaults, db)
    ensures AllPointToOwn(before) ==> AllPointToOwn(db)
    ensures AllPointToUsers(before) ==> AllPointToUsers(db)
  {
    if AllPointToOwn(before) {
      forall k | k in db.defaults && k in before.defaults
        ensures PointsToOwn(db, k.0, k.1, db.defaults[k])
      {
        var b, key :| b in before.bindings && b.user == k.0 && b.id == before.defaults[k]
                      && IsAccountOf(before, b, key) && (k.1 == ImporterDefaults.GLOBAL || k.1 == key.server);
        assert b in db.bindings && IsAccountOf(db, b, key);
      }
    }
    if AllPointToUsers(before) {
      forall k | k in db.defaults
        ensures IsUsers(db, k.0, db.defaults[k])
      {
        if k in before.defaults {
          assert IsUsers(before, k.0, before.defaults[k]);
          var b :| b in before.bindings && b.user == k.0 && b.id == before.defaults[k];
          assert b in db.bindings;
        } else {
          assert PointsToOwn(db, k.0, k.1, db.defaults[k]);
        }
      }
    }
  }

  lemma AllCovered(db: Db, db': Db, rows: seq<LoadedBinding>)
    requires Loads(db, rows) && db'.bindings == db.bindings && db'.accounts == db.accounts
    requires ImporterDefaults.IsClosed(db.defaults, db'.defaults, rows)
    ensures Covered(db')
  {
    forall b, key | b in db'.bindings && IsAccountOf(db', b, key)
      ensures (b.user, key.server) in db'.defaults
      ensures OnImportedRegions(db', b.user) ==> (b.user, ImporterDefaults.GLOBAL) in db'.defaults
    {
      assert IsAccountOf(db, b, key);
      LoadedServer(db, rows, b, key);
      ImporterDefaults.Coverage(db.defaults, db'.defaults, rows, b.user, key.server);
      if OnImportedRegions(db', b.user) {
        SameRegions(db, db', b.user);
        LoadedOnRegions(db, rows, b.user);
      }
    }
  }

  lemma AllOwn(db: Db, db': Db, rows: seq<LoadedBinding>)
    requires Loads(db, rows) && db'.bindings == db.bindings && db'.accounts == db.accounts
    requires ImporterDefaults.OnlyPermitted(db.defaults, db'.defaults, rows)
    ensures AddsOwn(db.defaults, db')
  {
    forall k | k in db'.defaults && k !in db.defaults
      ensures PointsToOwn(db', k.0, k.1, db'.defaults[k])
    {
      var (user, scope) := k;
      ImporterDefaults.AddedRowsAreOwn(db.defaults, db'.defaults, rows, user, scope);
      var server :| ImporterDefaults.LoadedBinding(db'.defaults[k], user, Some(server)) in rows
                    && (scope == ImporterDefaults.GLOBAL || scope == server);
      LoadedIsOwn(db, rows, ImporterDefaults.LoadedBinding(db'.defaults[k], user, Some(server)));
      var b, key :| b in db.bindings && b.user == user && b.id == db'.defaults[k] && IsAccountOf(db, b, key)
                    && key.server == server;
      assert IsAccountOf(db', b, key);
    }
  }

  lemma LoadedIsOwn(db: Db, rows: seq<LoadedBinding>, l: LoadedBinding)
    requires Loads(db, rows) && l in rows && l.server.Some?
    ensures exists b, key ::
              && b in db.bindings && b.user == l.user && b.id == l.id
              && IsAccountOf(db, b, key) && key.server == l.server.value
  {
    assert Backed(db, l);
    var b :| b in db.bindings && Shows(db, b, l);
    var key :| IsAccountOf(db, b, key) && key.server == l.server.value;
  }

  // ---------- running it again ----------

  /** No row that the pass would add is missing. */
  ghost predicate NothingMissing(d: ImporterDefaults.Defaults, rows: seq<LoadedBinding>) {
    forall user, scope ::
      (user, scope) !in d ==> ImporterDefaults.Target(ImporterDefaults.InfosOf(rows, user), scope).None?
  }

  /** There is nothing left to import: all pairs of the files are there, and all defaults are. */
  ghost predicate Finished(db: Db, files: seq<ExportFile>) {
    Absent(db, AllItems(files)) == {} && forall rows :: Loads(db, rows) ==> NothingMissing(db.defaults, rows)
  }

  lemma ClosedIsFinished(db: Db, db': Db, rows: seq<LoadedBinding>, files: seq<ExportFile>)
    requires Loads(db, rows) && Absent(db, AllItems(files)) == {}
    requires db'.(defaults := db.defaults).Data() == db.Data()
    requires ImporterDefaults.IsClosed(db.defaults, db'.defaults, rows)
    ensures Finished(db', files)
  {
    AbsentSame(db, db'.(defaults := db.defaults), AllItems(files));
    assert Absent(db', AllItems(files)) == Absent(db'.(defaults := db.defaults), AllItems(files));
    forall again, user, scope | Loads(db', again) && (user, scope) !in db'.defaults
      ensures ImporterDefaults.Target(ImporterDefaults.InfosOf(again, user), scope).None?
    {
      SameTables(db', db, again);
      SameLoads(db, rows, again);
      assert ImporterDefaults.Lookup(db'.defaults, user, scope)
          == ImporterDefaults.Closed(db.defaults, rows, user, scope);
      ImporterDefaults.NoTargetInAnyOrder(rows, again, user, scope);
    }
  }

  lemma SameTables(db: Db, db': Db, rows: seq<LoadedBinding>)
    requires db'.bindings == db.bindings && db'.accounts == db.accounts && Loads(db, rows)
    ensures Loads(db', rows)
  {
    forall b, l | Shows(db, b, l)
      ensures Shows(db', b, l)
    {
      assert forall key :: IsAccountOf(db, b, key) <==> IsAccountOf(db', b, key);
    }
    forall l | l in rows
      ensures Backed(db', l)
    {
      assert Backed(db, l);
    }
    forall b | b in db'.bindings
      ensures Shown(db', b, rows)
    {
      assert Shown(db, b, rows);
    }
  }

  lemma NothingAdded(d: ImporterDefaults.Defaults, d': ImporterDefaults.Defaults, rows: seq<LoadedBinding>)
    requires NothingMissing(d, rows) && ImporterDefaults.OnlyPermitted(d, d', rows)
    ensures d' == d
  {
    forall k | k in d'
      ensures k in d
    {
      assert (k.0, k.1) == k;
    }
  }

  // ---------- the importer ----------

  /** Why a run of both targets may fail: a file cannot be read, it was stopped at one of the records
      or at one of the `looks` before a user, or the bindings cannot be listed after the records. */
  ghost predicate Fails(db: Db, o: Oracle, files: seq<ExportFile>, dryRun: bool, looks: seq<nat>) {
    var items := AllItems(files);
    || !AllReadable(files)
    || (exists i :: 0 <= i < |items| && o.stopped(StateAt(db, o, items, dryRun, ZERO, i).tick))
    || (!dryRun && (!Readable(o.reply(ListingTick(db, o, files))) || ImporterDefaults.AnyStopped(o, looks)))
  }

  /** When the bindings are listed: after the last record. */
  function ListingTick(db: Db, o: Oracle, files: seq<ExportFile>): nat {
    ImportItems(db, o, AllItems(files), false, ZERO).0.tick
  }

  /** The counters of a run of both targets: all records are counted; a dry run counts them as inserted;
      and if no record failed and nobody else wrote, the inserted ones are the distinct pairs that were
      absent. */
  ghost predicate CountsRight(db: Db, o: Oracle, items: seq<Item>, dryRun: bool, counts: Counts) {
    && counts.total == |items| == counts.inserted + counts.skipped + counts.failed
    && (dryRun ==> counts.inserted == counts.total)
    && (!dryRun ==> InsertedRight(db, o, items, counts) && FailedRight(db, o, items, counts.failed))
  }

  /** What was inserted, if no record failed and nobody else wrote: each distinct pair that was absent. */
  ghost predicate InsertedRight(db: Db, o: Oracle, items: seq<Item>, counts: Counts) {
    counts.failed == 0 && NoRaces(o) ==> counts.inserted == |Absent(db, items)|
  }

  /** When no record failed: if no operation broke and nobody cancelled, exactly when every record found
      its user or could create it; and certainly on a working database with fresh ids. */
  ghost predicate FailedRight(db: Db, o: Oracle, items: seq<Item>, failed: nat) {
    && ((forall n :: Readable(o.reply(n)) && !o.stopped(n)) ==> (failed == 0 <==> AllObtainable(db, o, items, ZERO)))
    && (ImporterDefaults.Calm(o) && FreshIds(o, db) ==> failed == 0)
  }

  /** On a working database, with readable files and nobody to stop it, all ends well. */
  lemma CalmRunEndsWell(db: Db, o: Oracle, files: seq<ExportFile>, dryRun: bool, looks: seq<nat>)
    requires ImporterDefaults.Calm(o)
    ensures Fails(db, o, files, dryRun, looks) <==> !AllReadable(files)
  {
    assert Readable(o.reply(ListingTick(db, o, files)));
  }

  /** The bindings and defaults targets in turn; an error of the first keeps the second from
      running.  Whatever fails, rows of all four tables are only added, and defaults point to the
      user's own bindings if those there were before did; a run of both targets in which nothing fails
      covers every user; and one in which no record fails either leaves nothing for any later run to
      do.  All ends well exactly when nothing in `Fails` happens. */
  method RunImporter(pjsk: Database, files: seq<ExportFile>, dryRun: bool)
    returns (ok: bool, counts: Counts, ghost looks: seq<nat>)
    requires |files| == |FILE_NAMES| && forall i :: 0 <= i < |files| ==> files[i].name == FILE_NAMES[i]
    requires Consistent(pjsk.db)
    modifies pjsk
    ensures ok <==> !Fails(old(pjsk.db), pjsk.oracle, files, dryRun, looks)
    ensures ok ==> CountsRight(old(pjsk.db), pjsk.oracle, AllItems(files), dryRun, counts)
    ensures counts == ImportFiles(old(pjsk.db), pjsk.oracle, files, dryRun, ZERO).1
    ensures pjsk.db.(defaults := old(pjsk.db.defaults)).Data()
         == ImportItems(old(pjsk.db), pjsk.oracle, AllItems(files), dryRun, ZERO).0.Data()
    ensures Consistent(pjsk.db)
    ensures dryRun ==> pjsk.db.Data() == old(pjsk.db.Data())
    ensures OnlyAdds(old(pjsk.db), pjsk.db) && AddsOwn(old(pjsk.db.defaults), pjsk.db)
    ensures old(AllPointToUsers(pjsk.db)) ==> AllPointToUsers(pjsk.db)
    ensures old(AllPointToOwn(pjsk.db)) ==> AllPointToOwn(pjsk.db)
    ensures ok && !dryRun && ImporterDefaults.Calm(pjsk.oracle) ==> Covered(pjsk.db)
    ensures ok && !dryRun && counts.failed == 0 && ImporterDefaults.Calm(pjsk.oracle) ==>
              && Finished(pjsk.db, files)
              && forall i :: 0 <= i < |AllItems(files)| ==> Served(pjsk.db, AllItems(files)[i])
    ensures old(Finished(pjsk.db, files)) ==> pjsk.db.Data() == old(pjsk.db.Data())
  {
    ghost var db0 := pjsk.db;
    looks := [];
    BindingsStage(db0, pjsk.oracle, files, dryRun);
    BindingsEnd(db0, pjsk.oracle, files, dryRun);
    var end;
    end, counts := ImportBindings(pjsk, files, dryRun);
    ok := end.Completed?;
    if !ok {
      OwnStaysOwn(db0, pjsk.db);
      return;
    }
    ghost var db1 := pjsk.db;
    var rows := ListBindings(pjsk);
    var queryFails := !Readable(pjsk.oracle.reply(pjsk.db.tick));
    var done, _, seen := ImporterDefaults.SetDefaultBindings(pjsk, rows, dryRun, queryFails);
    looks := seen;
    ok := done.Completed? || done.DryRun?;
    Afterwards(db0, db1, pjsk.db, rows, files);
    if !dryRun && ImporterDefaults.Calm(pjsk.oracle) {
      AllCovered(db1, pjsk.db, rows);
      if counts.failed == 0 {
        AllServed(db1, pjsk.db, rows, AllItems(files));
        ClosedIsFinished(db1, pjsk.db, rows, files);
      }
    }
  }

  /** What the second target keeps, whatever fails. */
  lemma Afterwards(db0: Db, db1: Db, db2: Db, rows: seq<LoadedBinding>, files: seq<ExportFile>)
    requires Consistent(db1) && OnlyAdds(db0, db1) && db1.defaults == db0.defaults && Loads(db1, rows)
    requires db2.(defaults := db1.defaults).Data() == db1.Data()
    requires ImporterDefaults.OnlyPermitted(db1.defaults, db2.defaults, rows)
    requires Absent(db0, AllItems(files)) == {} ==> db1.Data() == db0.Data()
    ensures Consistent(db2) && OnlyAdds(db0, db2) && AddsOwn(db0.defaults, db2)
    ensures AllPointToUsers(db0) ==> AllPointToUsers(db2)
    ensures AllPointToOwn(db0) ==> AllPointToOwn(db2)
    ensures Finished(db0, files) ==> db2.Data() == db0.Data()
  {
    DefaultsKeepConsistent(db1, db2);
    AllOwn(db1, db2, rows);
    OwnStaysOwn(db0, db2);
    if Finished(db0, files) {
      SecondRun(db0, db1, db2, rows, files);
    }
  }

  /** How the first target ends, and what it counts. */
  lemma BindingsEnd(db: Db, o: Oracle, files: seq<ExportFile>, dryRun: bool)
    requires Consistent(db)
    ensures var (db', c, end) := ImportFiles(db, o, files, dryRun, ZERO);
            var items := AllItems(files);
            && db' == ImportItems(db, o, items, dryRun, ZERO).0
            && (end.Completed? <==>
                  && AllReadable(files)
                  && !exists i :: 0 <= i < |items| && o.stopped(StateAt(db, o, items, dryRun, ZERO, i).tick))
            && (end.Completed? ==> CountsRight(db, o, items, dryRun, c))
  {
    FilesAreItems(db, o, files, dryRun, ZERO);
    var items := AllItems(files);
    ItemsNeverLoadFail(db, o, items, dryRun, ZERO);
    CancelledExactly(db, o, items, dryRun, ZERO);
    if ImportItems(db, o, items, dryRun, ZERO).2.Completed? {
      ItemsCounted(db, o, items, dryRun);
    }
  }

  lemma ItemsCounted(db: Db, o: Oracle, items: seq<Item>, dryRun: bool)
    requires Consistent(db) && ImportItems(db, o, items, dryRun, ZERO).2.Completed?
    ensures CountsRight(db, o, items, dryRun, ImportItems(db, o, items, dryRun, ZERO).1)
  {
    var c := ImportItems(db, o, items, dryRun, ZERO).1;
    TotalsRight(db, o, items, dryRun, c);
    if !dryRun {
      FailedCounted(db, o, items);
      InsertedCounted(db, o, items);
    }
  }

  lemma TotalsRight(db: Db, o: Oracle, items: seq<Item>, dryRun: bool, c: Counts)
    requires var (_, c', end) := ImportItems(db, o, items, dryRun, ZERO); end.Completed? && c' == c
    ensures c.total == |items| == c.inserted + c.skipped + c.failed && (dryRun ==> c.inserted == c.total)
  {
    CountersConserved(db, o, items, dryRun, ZERO);
    assert ZERO.total == ZERO.inserted == ZERO.skipped == ZERO.failed == 0;
    assert c.total - c.Accounted() == 0;
  }

  lemma InsertedCounted(db: Db, o: Oracle, items: seq<Item>)
    requires Consistent(db) && ImportItems(db, o, items, false, ZERO).2.Completed?
    ensures InsertedRight(db, o, items, ImportItems(db, o, items, false, ZERO).1)
  {
    if ImportItems(db, o, items, false, ZERO).1.failed == 0 && NoRaces(o) {
      CleanRun(db, o, items, ZERO);
    }
  }

  lemma FailedCounted(db: Db, o: Oracle, items: seq<Item>)
    ensures FailedRight(db, o, items, ImportItems(db, o, items, false, ZERO).1.failed)
  {
    if forall n :: Readable(o.reply(n)) && !o.stopped(n) {
      NoneFailExactly(db, o, items, ZERO);
    }
    if ImporterDefaults.Calm(o) && FreshIds(o, db) {
      FreshRunIsClean(db, o, items, ZERO);
    }
  }

  /** What the first target leaves for the second. */
  lemma BindingsStage(db: Db, o: Oracle, files: seq<ExportFile>, dryRun: bool)
    requires Consistent(db)
    ensures var (db', c, end) := ImportFiles(db, o, files, dryRun, ZERO);
            && Consistent(db') && OnlyAdds(db, db') && db'.defaults == db.defaults
            && (dryRun || Absent(db, AllItems(files)) == {} ==> db'.Data() == db.Data())
            && (!dryRun && end.Completed? && c.failed == 0 ==> Absent(db', AllItems(files)) == {})
  {
    FilesAreItems(db, o, files, dryRun, ZERO);
    var items := AllItems(files);
    RunKeeps(db, o, items, dryRun, ZERO);
    CountersConserved(db, o, items, dryRun, ZERO);
    if !dryRun && Absent(db, items) == {} {
      NothingLeftToDo(db, o, items, ZERO);
    }
    var (_, c, end) := ImportItems(db, o, items, dryRun, ZERO);
    if !dryRun && end.Completed? && c.failed == 0 {
      CleanRun(db, o, items, ZERO);
    }
  }

  lemma SecondRun(db: Db, db1: Db, db2: Db, rows: seq<LoadedBinding>, files: seq<ExportFile>)
    requires Finished(db, files) && db1.Data() == db.Data() && Loads(db1, rows)
    requires db2.(defaults := db1.defaults).Data() == db1.Data()
    requires ImporterDefaults.OnlyPermitted(db1.defaults, db2.defaults, rows)
    ensures db2.Data() == db.Data()
  {
    SameTables(db1, db, rows);
    NothingAdded(db1.defaults, db2.defaults, rows);
  }

  lemma DefaultsKeepConsistent(db: Db, db': Db)
    requires Consistent(db) && db'.(defaults := db.defaults).Data() == db.Data()
    ensures Consistent(db')
  {
  }

  lemma AllServed(db: Db, db': Db, rows: seq<LoadedBinding>, items: seq<Item>)
    requires Consistent(db) && Loads(db, rows) && Absent(db, items) == {}
    requires db'.(defaults := db.defaults).Data() == db.Data()
    requires ImporterDefaults.IsClosed(db.defaults, db'.defaults, rows)
    ensures forall i :: 0 <= i < |items| ==> Served(db', items[i])
  {
    forall i | 0 <= i < |items|
      ensures Served(db', items[i])
    {
      assert items[i].Key() !in Absent(db, items);
      ItemServed(db, db', rows, items[i]);
    }
  }
}
