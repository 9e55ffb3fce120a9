/** The bindings target of the importer: for each record of the legacy export find or create the
    user, the game account and the binding between them. */
module ImporterBindings {
  import opened Wrappers
  import opened ImporterDb

  datatype BindRecord = BindRecord(imUserId: string, userId: string, isPrivate: int) {
    function Who(): Identity { DetectPlatform(imUserId) }
  }

  predicate HexDigit(c: char) { '0' <= c <= '9' || 'a' <= c <= 'f' }

  /** "<64 hex digits>_<digits>" is a bot account, anything else a plain one. */
  function DetectPlatform(imUserId: string): Identity {
    if |imUserId| > 65 && imUserId[64] == '_'
       && (forall i :: 0 <= i < 64 ==> HexDigit(imUserId[i]))
       && (forall i :: 65 <= i < |imUserId| ==> '0' <= imUserId[i] <= '9')
    then Identity("qqbot", imUserId) else Identity("qq", imUserId)
  }

  predicate AllHex(s: string) { forall i :: 0 <= i < |s| ==> '0' <= s[i] <= '9' || 'a' <= s[i] <= 'f' }

  predicate AllDecimal(s: string) { forall i :: 0 <= i < |s| ==> '0' <= s[i] <= '9' }

  /** 64 hexadecimal digits, an underscore, and one decimal digit or more. */
  ghost predicate BotAccount(id: string) {
    exists hex: string, number: string ::
      id == hex + ['_'] + number && |hex| == 64 && number != "" && AllHex(hex) && AllDecimal(number)
  }

  /** Exactly the bot accounts are on the platform "qqbot", all others on "qq", under the id as given. */
  lemma PlatformMeaning(imUserId: string)
    ensures DetectPlatform(imUserId) == Identity(if BotAccount(imUserId) then "qqbot" else "qq", imUserId)
  {
    if |imUserId| > 65 && imUserId[64] == '_' {
      var hex, number := imUserId[..64], imUserId[65..];
      assert imUserId == hex + ['_'] + number;
      BotParts(hex, number);
    }
    if hex: string, number: string :|
      imUserId == hex + ['_'] + number && |hex| == 64 && number != "" && AllHex(hex) && AllDecimal(number)
    {
      BotParts(hex, number);
    }
  }

  lemma BotParts(hex: string, number: string)
    requires |hex| == 64
    ensures var id := hex + ['_'] + number;
            && |id| == 65 + |number| && id[64] == '_'
            && (AllHex(hex) <==> forall i :: 0 <= i < 64 ==> HexDigit(id[i]))
            && (AllDecimal(number) <==> forall i :: 65 <= i < |id| ==> '0' <= id[i] <= '9')
  {
    var id := hex + ['_'] + number;
    assert forall i :: 0 <= i < 64 ==> id[i] == hex[i];
    assert forall i :: 0 <= i < |number| ==> number[i] == id[65 + i];
    assert forall i :: 65 <= i < |id| ==> id[i] == number[i - 65];
  }

  /** A record together with the server its file stands for. */
  datatype Item = Item(server: string, rec: BindRecord) {
    function Account(): AccountKey { AccountKey(server, rec.userId) }
    function Key(): (Identity, AccountKey) { (rec.Who(), Account()) }
  }

  datatype Outcome = Inserted | Skipped | Failed

  // ---------- one record, as a function ----------

  /** `resolveBindingGameAccountID`: query, else create, else (somebody was faster) query again. */
  function ResolveAccount(db: Db, o: Oracle, key: AccountKey): (Db, Option<int>) {
    var (db1, q) := QueryAccount(db, o, key);
    if q.Err? then (db1, None)
    else if q.value.Some? then (db1, q.value)
    else
      var (db2, c) := InsertAccount(db1, o, key);
      if c.Ok? then (db2, Some(c.value))
      else if c.error.Broken? then (db2, None)
      else
        var (db3, again) := QueryAccount(db2, o, key);
        (db3, if again.Ok? then again.value else None)
  }

  /** `createBindingIfMissing`. */
  function CreateIfMissing(db: Db, o: Oracle, user: int, account: int, visible: bool): (Db, Outcome) {
    var (db1, known) := QueryBinding(db, o, user, account);
    if known.Err? then (db1, Failed)
    else if known.value then (db1, Skipped)
    else
      var (db2, order) := QueryCount(db1, o, user);
      if order.Err? then (db2, Failed)
      else
        var (db3, c) := InsertBinding(db2, o, user, account, order.value, visible);
        (db3, if c.Ok? then Inserted else if c.error.Constraint? then Skipped else Failed)
  }

  function ImportItem(db: Db, o: Oracle, it: Item): (Db, Outcome) {
    var (db1, user) := ResolveOrCreate(db, o, it.rec.Who());
    if user.Err? then (db1, Failed)
    else
      var (db2, account) := ResolveAccount(db1, o, it.Account());
      if account.None? then (db2, Failed)
      else CreateIfMissing(db2, o, user.value, account.value, it.rec.isPrivate == 0)
  }

  // ---------- what every record keeps ----------

  predicate Injective<K, V(==)>(m: map<K, V>) { forall a, b :: a in m && b in m && m[a] == m[b] ==> a == b }

  /** The tables are consistent: keys are unique, ids are fresh, and every binding belongs to a
      known user and, if it names an account, to a known account. */
  predicate Consistent(db: Db) {
    && Injective(db.users) && Injective(db.accounts)
    && (forall k :: k in db.accounts ==> db.accounts[k] < db.serial)
    && (forall i :: 0 <= i < |db.bindings| ==>
          && db.bindings[i].id < db.serial
          && db.bindings[i].user in db.users.Values
          && (db.bindings[i].account.Some? ==> db.bindings[i].account.value in db.accounts.Values))
    && (forall i, j :: 0 <= i < j < |db.bindings| ==> db.bindings[i].id < db.bindings[j].id)
    && (forall i, j :: 0 <= i < j < |db.bindings| && db.bindings[i].account.Some? ==>
          (db.bindings[i].user, db.bindings[i].account) != (db.bindings[j].user, db.bindings[j].account))
  }

  predicate Submap<K, V(==)>(m: map<K, V>, m': map<K, V>) { forall k :: k in m ==> k in m' && m'[k] == m[k] }

  /** Each binding after the first n is numbered by how many its user had before it. */
  predicate Numbered(bindings: seq<Binding>, n: nat) {
    forall i :: n <= i < |bindings| ==> bindings[i].order == Count(bindings[..i], bindings[i].user)
  }

  /** Rows are only added, and each new binding is numbered by how many its user had before. */
  predicate Grows(db: Db, db': Db) {
    && Submap(db.users, db'.users) && Submap(db.accounts, db'.accounts)
    && db.bindings <= db'.bindings && db'.defaults == db.defaults
    && Numbered(db'.bindings, |db.bindings|)
  }

  lemma GrowsTrans(a: Db, b: Db, c: Db)
    requires Grows(a, b) && Grows(b, c)
    ensures Grows(a, c)
  {
    forall i | |a.bindings| <= i < |c.bindings|
      ensures c.bindings[i].order == Count(c.bindings[..i], c.bindings[i].user)
    {
      if i < |b.bindings| {
        assert c.bindings[i] == b.bindings[i] && c.bindings[..i] == b.bindings[..i];
      }
    }
  }

  /** What a record asks for is in the tables. */
  predicate Present(db: Db, who: Identity, key: AccountKey) {
    who in db.users && key in db.accounts && HasBinding(db.bindings, db.users[who], db.accounts[key])
  }

  /** From db to db' nothing the records ask for came or went. */
  ghost predicate SamePresent(db: Db, db': Db) {
    forall who, key :: Present(db', who, key) <==> Present(db, who, key)
  }

  /** A new user does not make anything present: nobody's bindings carry a fresh id. */
  lemma AddUser(db: Db, who: Identity, id: int, db': Db)
    requires Consistent(db) && who !in db.users && id !in db.users.Values
    requires db'.Data() == db.(users := db.users[who := id]).Data()
    ensures Consistent(db') && Grows(db, db') && SamePresent(db, db')
  {
    assert forall k :: k in db.users ==> db.users[k] in db.users.Values && db'.users[k] == db.users[k];
    forall v | v in db.users.Values
      ensures v in db'.users.Values
    {
      var k :| k in db.users && db.users[k] == v;
      assert k in db'.users && db'.users[k] == v;
    }
  }

  lemma AddAccount(db: Db, key: AccountKey, db': Db)
    requires Consistent(db) && key !in db.accounts
    requires db'.Data() == db.(accounts := db.accounts[key := db.serial], serial := db.serial + 1).Data()
    ensures Consistent(db') && Grows(db, db') && SamePresent(db, db')
  {
    forall v | v in db.accounts.Values
      ensures v in db'.accounts.Values && v < db.serial
    {
      var k :| k in db.accounts && db.accounts[k] == v;
      assert k in db'.accounts && db'.accounts[k] == v;
    }
  }

  /** A new binding makes present exactly what it stands for. */
  lemma AddBinding(db: Db, who: Identity, key: AccountKey, visible: bool, db': Db)
    requires Consistent(db) && who in db.users && key in db.accounts && !Present(db, who, key)
    requires db'.Data() == WithBinding(db, db.users[who], db.accounts[key], visible).Data()
    ensures Consistent(db') && Grows(db, db')
    ensures forall w, k :: Present(db', w, k) <==> Present(db, w, k) || (w == who && k == key)
  {
    var n := |db.bindings|;
    assert db'.bindings[..n] == db.bindings;
    assert db.users[who] in db.users.Values && db.accounts[key] in db.accounts.Values;
    assert forall i :: 0 <= i < n ==> db'.bindings[i] == db.bindings[i];
    forall w, k
      ensures Present(db', w, k) <==> Present(db, w, k) || (w == who && k == key)
    {
      if w in db.users && k in db.accounts {
        HasBindingSnoc(db.bindings, db'.bindings[n], db.users[w], db.accounts[k]);
      }
    }
  }

  lemma HasBindingSnoc(bindings: seq<Binding>, row: Binding, user: int, account: int)
    ensures HasBinding(bindings + [row], user, account) <==>
            HasBinding(bindings, user, account) || (row.user == user && row.account == Some(account))
  {
    var more := bindings + [row];
    if HasBinding(bindings, user, account) {
      var i :| 0 <= i < |bindings| && bindings[i].user == user && bindings[i].account == Some(account);
      assert more[i] == bindings[i];
    }
    if row.user == user && row.account == Some(account) {
      assert more[|bindings|] == row;
    }
  }

  lemma SameDataSame(db: Db, db': Db)
    requires db'.Data() == db.Data()
    ensures Consistent(db) ==> Consistent(db')
    ensures Grows(db, db') && SamePresent(db, db')
  {
  }

  ghost predicate Keeps(db: Db, db': Db) {
    Consistent(db') && Grows(db, db') && SamePresent(db, db') && db'.bindings == db.bindings
  }

  lemma KeepsTrans(a: Db, b: Db, c: Db)
    requires Keeps(a, b) && Keeps(b, c)
    ensures Keeps(a, c)
  {
    GrowsTrans(a, b, c);
  }

  lemma {:induction false} CreateUserKeeps(db: Db, o: Oracle, who: Identity, tries: nat)
    requires Consistent(db)
    ensures var (db', r) := CreateUser(db, o, who, tries);
            Keeps(db, db') && (r.Ok? ==> who in db'.users && db'.users[who] == r.value)
    decreases tries
  {
    if tries == 0 {
      SameDataSame(db, db);
    } else {
      var (db1, r1) := InsertUser(db, o, who);
      if db1.Data() == db.Data() {
        SameDataSame(db, db1);
      } else {
        AddUser(db, who, o.candidate(db.tick), db1);
      }
      if r1 == Err(Constraint) {
        CreateUserKeeps(db1, o, who, tries - 1);
        KeepsTrans(db, db1, CreateUser(db1, o, who, tries - 1).0);
      }
    }
  }

  lemma ResolveUserKeeps(db: Db, o: Oracle, who: Identity)
    requires Consistent(db)
    ensures var (db', r) := ResolveOrCreate(db, o, who);
            Keeps(db, db') && (r.Ok? ==> who in db'.users && db'.users[who] == r.value)
  {
    var db1 := db.Next();
    SameDataSame(db, db1);
    CreateUserKeeps(db1, o, who, USER_TRIES);
    KeepsTrans(db, db1, CreateUser(db1, o, who, USER_TRIES).0);
  }

  lemma ResolveAccountKeeps(db: Db, o: Oracle, key: AccountKey)
    requires Consistent(db)
    ensures var (db', r) := ResolveAccount(db, o, key);
            Keeps(db, db') && db'.users == db.users && (r.Some? ==> key in db'.accounts && db'.accounts[key] == r.value)
  {
    ResolveAccountFinds(db, o, key);
    var db1 := db.Next();
    SameDataSame(db, db1);
    var db2 := InsertAccount(db1, o, key).0;
    InsertAccountKeeps(db1, o, key);
    KeepsTrans(db, db1, db2);
    QueryKeeps(db, db2);
  }

  /** The database after the query, after the insert, or after querying again; and the answer is the
      row that is there then. */
  lemma ResolveAccountFinds(db: Db, o: Oracle, key: AccountKey)
    ensures var (db', r) := ResolveAccount(db, o, key);
            var db2 := InsertAccount(db.Next(), o, key).0;
            && (db' == db.Next() || db' == db2 || db' == db2.Next())
            && db'.users == db.users && (r.Some? ==> key in db'.accounts && db'.accounts[key] == r.value)
  {
  }

  lemma QueryKeeps(db: Db, db': Db)
    requires Keeps(db, db')
    ensures Keeps(db, db'.Next())
  {
    SameDataSame(db', db'.Next());
    KeepsTrans(db, db', db'.Next());
  }

  lemma InsertAccountKeeps(db: Db, o: Oracle, key: AccountKey)
    requires Consistent(db)
    ensures Keeps(db, InsertAccount(db, o, key).0)
  {
    var db' := InsertAccount(db, o, key).0;
    if db'.Data() == db.Data() {
      SameDataSame(db, db');
    } else {
      AddAccount(db, key, db');
    }
  }

  /** No reply of the oracle is a lost race. */
  ghost predicate NoRaces(o: Oracle) { forall n :: !o.reply(n).Raced? }

  /** The binding a record asks for. */
  predicate RowFor(db: Db, row: Binding, it: Item) {
    && it.rec.Who() in db.users && it.Account() in db.accounts
    && row.user == db.users[it.rec.Who()] && row.account == Some(db.accounts[it.Account()])
    && row.visible == (it.rec.isPrivate == 0)
  }

  /** What importing one record leaves behind, by its outcome. */
  ghost predicate ItemEffect(db: Db, db': Db, it: Item, outcome: Outcome, races: bool) {
    && Consistent(db') && Grows(db, db')
    && (forall w, k :: Present(db', w, k) ==> Present(db, w, k) || (w == it.rec.Who() && k == it.Account()))
    && (!outcome.Failed? ==> Present(db', it.rec.Who(), it.Account()))
    && (outcome.Inserted? ==>
          && !Present(db, it.rec.Who(), it.Account())
          && |db'.bindings| == |db.bindings| + 1 && RowFor(db', db'.bindings[|db.bindings|], it))
    && (outcome.Skipped? && !races ==> Present(db, it.rec.Who(), it.Account()) && db'.bindings == db.bindings)
  }

  lemma CreateIfMissingEffect(db: Db, o: Oracle, it: Item)
    requires Consistent(db) && it.rec.Who() in db.users && it.Account() in db.accounts
    ensures var user, account := db.users[it.rec.Who()], db.accounts[it.Account()];
            var (db', outcome) := CreateIfMissing(db, o, user, account, it.rec.isPrivate == 0);
            ItemEffect(db, db', it, outcome, !NoRaces(o))
  {
    var user, account, visible := db.users[it.rec.Who()], db.accounts[it.Account()], it.rec.isPrivate == 0;
    var (db', outcome) := CreateIfMissing(db, o, user, account, visible);
    CreateIfMissingCases(db, o, user, account, visible);
    if db'.bindings == db.bindings {
      SameDataSame(db, db');
    } else {
      AddBinding(db, it.rec.Who(), it.Account(), visible, db');
    }
  }

  /** The tables after adding the binding, numbered by how many the user had. */
  function WithBinding(db: Db, user: int, account: int, visible: bool): Db {
    var row := Binding(db.serial, user, Some(account), Count(db.bindings, user), visible);
    db.(bindings := db.bindings + [row], serial := db.serial + 1)
  }

  /** Either nothing was changed, or the binding was missing and was added. */
  lemma CreateIfMissingCases(db: Db, o: Oracle, user: int, account: int, visible: bool)
    ensures var (db', outcome) := CreateIfMissing(db, o, user, account, visible);
            var there := HasBinding(db.bindings, user, account);
            && (db'.Data() == db.Data() || (!there && db'.Data() == WithBinding(db, user, account, visible).Data()))
            && (outcome.Inserted? ==> !there && db'.Data() == WithBinding(db, user, account, visible).Data())
            && (outcome.Skipped? && db'.Data() == db.Data() ==> there)
            && (outcome.Skipped? && NoRaces(o) ==> there && db'.Data() == db.Data())
  {
    var db2 := db.Next().Next();
    InsertBindingCases(db2, o, user, account, visible);
    assert WithBinding(db2, user, account, visible).Data() == WithBinding(db, user, account, visible).Data();
  }

  lemma InsertBindingCases(db: Db, o: Oracle, user: int, account: int, visible: bool)
    ensures var (db', c) := InsertBinding(db, o, user, account, Count(db.bindings, user), visible);
            var there := HasBinding(db.bindings, user, account);
            && (db'.Data() == db.Data() || (!there && db'.Data() == WithBinding(db, user, account, visible).Data()))
            && (c.Ok? ==> !there && db'.Data() == WithBinding(db, user, account, visible).Data())
            && (c == Err(Constraint) && db'.Data() == db.Data() ==> there)
            && (c == Err(Constraint) && NoRaces(o) ==> there && db'.Data() == db.Data())
  {
  }

  lemma ImportItemEffect(db: Db, o: Oracle, it: Item)
    requires Consistent(db)
    ensures var (db', outcome) := ImportItem(db, o, it);
            ItemEffect(db, db', it, outcome, !NoRaces(o))
  {
    var (db1, user) := ResolveOrCreate(db, o, it.rec.Who());
    ResolveUserKeeps(db, o, it.rec.Who());
    FailedEffect(db, db1, it, !NoRaces(o));
    if user.Ok? {
      WithUser(db, db1, o, it);
    }
  }

  lemma WithUser(db: Db, db1: Db, o: Oracle, it: Item)
    requires Keeps(db, db1) && it.rec.Who() in db1.users
    ensures var (db2, account) := ResolveAccount(db1, o, it.Account());
            var (db', outcome) :=
              if account.None? then (db2, Failed)
              else CreateIfMissing(db2, o, db1.users[it.rec.Who()], account.value, it.rec.isPrivate == 0);
            ItemEffect(db, db', it, outcome, !NoRaces(o))
  {
    var (db2, account) := ResolveAccount(db1, o, it.Account());
    ResolveAccountKeeps(db1, o, it.Account());
    KeepsTrans(db, db1, db2);
    if account.None? {
      FailedEffect(db, db2, it, !NoRaces(o));
    } else {
      var (db3, outcome) := CreateIfMissing(db2, o, db1.users[it.rec.Who()], account.value, it.rec.isPrivate == 0);
      CreateIfMissingEffect(db2, o, it);
      EffectAfter(db, db2, db3, it, outcome, !NoRaces(o));
    }
  }

  lemma FailedEffect(db: Db, db': Db, it: Item, races: bool)
    requires Keeps(db, db')
    ensures ItemEffect(db, db', it, Failed, races)
  {
  }

  /** Finding or creating the user and the account first does not change the effect. */
  lemma EffectAfter(db: Db, db1: Db, db2: Db, it: Item, outcome: Outcome, races: bool)
    requires Keeps(db, db1) && ItemEffect(db1, db2, it, outcome, races)
    ensures ItemEffect(db, db2, it, outcome, races)
  {
    GrowsTrans(db, db1, db2);
  }

  /** A record adds at most one binding, and that is the one it asks for, whatever its outcome. */
  lemma ItemAddsItsRow(db: Db, o: Oracle, it: Item)
    requires Consistent(db)
    ensures var db' := ImportItem(db, o, it).0;
            || db'.bindings == db.bindings
            || (|db'.bindings| == |db.bindings| + 1 && RowFor(db', db'.bindings[|db.bindings|], it))
  {
    var (db1, user) := ResolveOrCreate(db, o, it.rec.Who());
    ResolveUserKeeps(db, o, it.rec.Who());
    if user.Ok? {
      var (db2, account) := ResolveAccount(db1, o, it.Account());
      ResolveAccountKeeps(db1, o, it.Account());
      if account.Some? {
        CreateIfMissingCases(db2, o, user.value, account.value, it.rec.isPrivate == 0);
      }
    }
  }

  // ---------- when a record fails ----------

  /** Losing the race for an account is harmless: the second query finds what the other writer
      created.  Only an operation that breaks makes the account unresolvable. */
  lemma AccountRaceIsHarmless(db: Db, o: Oracle, key: AccountKey)
    requires forall n :: Readable(o.reply(n))
    ensures ResolveAccount(db, o, key).1.Some?
  {
  }

  /** At the first free id drawn, at operation k, the insert went through; the attempts before it
      drew taken ids and were told so. */
  predicate CreatedAt(db: Db, o: Oracle, k: nat) {
    && o.candidate(k) !in db.users.Values && o.reply(k).Fine?
    && forall j :: db.tick <= j < k ==> o.candidate(j) in db.users.Values && Readable(o.reply(j))
  }

  /** Exactly when a user can be created. */
  lemma {:induction false} CreateUserExactly(db: Db, o: Oracle, who: Identity, tries: nat)
    ensures CreateUser(db, o, who, tries).1.Ok? <==>
            who !in db.users && exists k :: db.tick <= k < db.tick + tries && CreatedAt(db, o, k)
    decreases tries
  {
    if tries > 0 {
      var (db1, r) := InsertUser(db, o, who);
      if r.Ok? {
        assert CreatedAt(db, o, db.tick);
      } else if r == Err(Constraint) {
        CreateUserExactly(db1, o, who, tries - 1);
        RetryCreates(db, o, who, db1, tries);
      }
    }
  }

  lemma RetryCreates(db: Db, o: Oracle, who: Identity, db1: Db, tries: nat)
    requires tries > 0 && InsertUser(db, o, who) == (db1, Err(Constraint))
    ensures (who !in db1.users && exists k :: db1.tick <= k < db1.tick + (tries - 1) && CreatedAt(db1, o, k)) <==>
            (who !in db.users && exists k :: db.tick <= k < db.tick + tries && CreatedAt(db, o, k))
  {
    if who !in db.users && o.candidate(db.tick) in db.users.Values {
      assert db1 == db.Next();
      forall k | db.tick < k
        ensures CreatedAt(db1, o, k) <==> CreatedAt(db, o, k)
      {
      }
    }
  }

  /** Losing the race for a user is not harmless: the user is there, and free ids may be left, but the
      record fails. */
  lemma UserRaceFailsRecord(db: Db, o: Oracle, it: Item)
    requires it.rec.Who() !in db.users && Readable(o.reply(db.tick))
    requires o.reply(db.tick + 1).Raced? && o.candidate(db.tick + 1) !in db.users.Values
    ensures var (db', outcome) := ImportItem(db, o, it); outcome.Failed? && it.rec.Who() in db'.users
  {
    var who, db1 := it.rec.Who(), db.Next();
    var db2 := InsertUser(db1, o, who).0;
    CreateUserExactly(db2, o, who, USER_TRIES - 1);
    UserStays(db2, o, who, USER_TRIES - 1);
  }

  lemma {:induction false} UserStays(db: Db, o: Oracle, who: Identity, tries: nat)
    requires who in db.users
    ensures CreateUser(db, o, who, tries).0.users == db.users
    decreases tries
  {
    if tries > 0 && InsertUser(db, o, who).1 == Err(Constraint) {
      UserStays(InsertUser(db, o, who).0, o, who, tries - 1);
    }
  }

  /** The user is there, or the importer's own insert at the first free of five ids goes through. */
  ghost predicate Obtainable(db: Db, o: Oracle, who: Identity) {
    || who in db.users
    || exists k :: db.tick < k <= db.tick + 5 && CreatedAt(db.Next(), o, k)
  }

  /** Exactly when a record fails although no operation breaks: its user is new, and it is not the
      importer that inserts a row at the first free id drawn. */
  lemma RecordFailsExactly(db: Db, o: Oracle, it: Item)
    requires forall n :: Readable(o.reply(n))
    ensures ImportItem(db, o, it).1.Failed? <==> !Obtainable(db, o, it.rec.Who())
  {
    var (db1, user) := ResolveOrCreate(db, o, it.rec.Who());
    if it.rec.Who() !in db.users {
      CreateUserExactly(db.Next(), o, it.rec.Who(), USER_TRIES);
    }
    AccountRaceIsHarmless(db1, o, it.Account());
    if user.Ok? {
      var (db2, account) := ResolveAccount(db1, o, it.Account());
      NeverFails(db2, o, user.value, account.value, it.rec.isPrivate == 0);
    }
  }

  lemma NeverFails(db: Db, o: Oracle, user: int, account: int, visible: bool)
    requires forall n :: Readable(o.reply(n))
    ensures !CreateIfMissing(db, o, user, account, visible).1.Failed?
  {
  }

  // ---------- whole runs ----------

  datatype Counts = Counts(total: nat, inserted: nat, skipped: nat, failed: nat) {
    function With(outcome: Outcome): Counts {
      match outcome
      case Inserted => this.(inserted := inserted + 1)
      case Skipped => this.(skipped := skipped + 1)
      case Failed => this.(failed := failed + 1)
    }
    function Accounted(): nat { inserted + skipped + failed }
  }

  const ZERO: Counts := Counts(0, 0, 0, 0)

  datatype End = Completed | Cancelled | LoadFailed

  /** All records of one file or several: count, look for cancellation, import. */
  function ImportItems(db: Db, o: Oracle, items: seq<Item>, dryRun: bool, c: Counts): (Db, Counts, End)
    decreases |items|
  {
    if items == [] then (db, c, Completed)
    else
      var c1 := c.(total := c.total + 1);
      var (db1, stopped) := Poll(db, o);
      if stopped then (db1, c1, Cancelled)
      else if dryRun then ImportItems(db1, o, items[1..], dryRun, c1.With(Inserted))
      else
        var (db2, outcome) := ImportItem(db1, o, items[0]);
        ImportItems(db2, o, items[1..], dryRun, c1.With(outcome))
  }

  /** One record of a run: either the run is cancelled here, or it goes on with the rest. */
  lemma Unfold(db: Db, o: Oracle, items: seq<Item>, dryRun: bool, c: Counts)
    returns (db2: Db, c2: Counts, stopped: bool)
    requires items != []
    ensures ImportItems(db, o, items, dryRun, c) ==
            if stopped then (db2, c2, Cancelled) else ImportItems(db2, o, items[1..], dryRun, c2)
    ensures c2.total == c.total + 1 && c2.Accounted() == c.Accounted() + (if stopped then 0 else 1)
    ensures c.failed <= c2.failed
    ensures dryRun ==> db2.Data() == db.Data() && c2.skipped == c.skipped && c2.failed == c.failed
  {
    var (db1, stop) := Poll(db, o);
    var c1 := c.(total := c.total + 1);
    db2, c2, stopped := db1, c1, stop;
    if !stop && dryRun {
      c2 := c1.With(Inserted);
    } else if !stop {
      var r := ImportItem(db1, o, items[0]);
      db2, c2 := r.0, c1.With(r.1);
    }
  }

  /** The counters are conserved: every record that was counted was also accounted for, except the
      one at which the run was cancelled. */
  lemma {:induction false} CountersConserved(db: Db, o: Oracle, items: seq<Item>, dryRun: bool, c: Counts)
    ensures var (db', c', end) := ImportItems(db, o, items, dryRun, c);
            && c'.total - c'.Accounted() == c.total - c.Accounted() + (if end.Cancelled? then 1 else 0)
            && (end.Completed? ==> c'.total == c.total + |items|)
            && (dryRun ==> db'.Data() == db.Data() && c'.skipped == c.skipped && c'.failed == c.failed)
    decreases |items|
  {
    if items != [] {
      var db2, c2, stopped := Unfold(db, o, items, dryRun, c);
      if !stopped {
        CountersConserved(db2, o, items[1..], dryRun, c2);
      }
    }
  }

  /** What one record of a run keeps: the tables are consistent, rows are only added, and at most the
      binding the record asks for. */
  lemma StepKeeps(db: Db, o: Oracle, items: seq<Item>, dryRun: bool, c: Counts)
    returns (db2: Db, c2: Counts, stopped: bool)
    requires Consistent(db) && items != []
    ensures ImportItems(db, o, items, dryRun, c) ==
            if stopped then (db2, c2, Cancelled) else ImportItems(db2, o, items[1..], dryRun, c2)
    ensures Consistent(db2) && Grows(db, db2)
    ensures || db2.bindings == db.bindings
            || (!stopped && |db2.bindings| == |db.bindings| + 1
                && RowFor(db2, db2.bindings[|db.bindings|], items[0]))
  {
    var (db1, stop) := Poll(db, o);
    var c1 := c.(total := c.total + 1);
    SameDataSame(db, db1);
    db2, c2, stopped := db1, c1, stop;
    if !stop && dryRun {
      c2 := c1.With(Inserted);
    } else if !stop {
      var r := ImportItem(db1, o, items[0]);
      db2, c2 := r.0, c1.With(r.1);
      ImportItemEffect(db1, o, items[0]);
      ItemAddsItsRow(db1, o, items[0]);
      GrowsTrans(db, db1, db2);
    }
  }

  /** Whatever fails and whenever it is cancelled, a run keeps the tables consistent, only adds
      rows, and numbers each new binding after its user's earlier ones. */
  lemma {:induction false} RunKeeps(db: Db, o: Oracle, items: seq<Item>, dryRun: bool, c: Counts)
    requires Consistent(db)
    ensures var db' := ImportItems(db, o, items, dryRun, c).0; Consistent(db') && Grows(db, db')
    decreases |items|
  {
    if items == [] {
      SameDataSame(db, db);
    } else {
      var db2, c2, stopped := StepKeeps(db, o, items, dryRun, c);
      if !stopped {
        RunKeeps(db2, o, items[1..], dryRun, c2);
        GrowsTrans(db, db2, ImportItems(db2, o, items[1..], dryRun, c2).0);
      }
    }
  }

  // ---------- how a run ends ----------

  /** Where the run is when it comes to the i-th record. */
  function StateAt(db: Db, o: Oracle, items: seq<Item>, dryRun: bool, c: Counts, i: nat): Db
    requires i <= |items|
  {
    ImportItems(db, o, items[..i], dryRun, c).0
  }

  lemma StateAtNext(db: Db, o: Oracle, items: seq<Item>, dryRun: bool, c: Counts, db2: Db, c2: Counts, i: nat)
    requires i < |items| && items != []
    requires forall more :: ImportItems(db, o, [items[0]] + more, dryRun, c) == ImportItems(db2, o, more, dryRun, c2)
    ensures StateAt(db, o, items, dryRun, c, i + 1) == StateAt(db2, o, items[1..], dryRun, c2, i)
  {
    assert items[..i+1] == [items[0]] + items[1..][..i];
  }

  /** The first record of a run, whatever comes after it. */
  lemma UnfoldAny(db: Db, o: Oracle, first: Item, dryRun: bool, c: Counts)
    returns (db2: Db, c2: Counts, stopped: bool)
    ensures stopped == o.stopped(db.tick)
    ensures forall more ::
              ImportItems(db, o, [first] + more, dryRun, c) ==
              if stopped then (db2, c2, Cancelled) else ImportItems(db2, o, more, dryRun, c2)
    ensures !stopped ==> c2.failed == c.failed + (if !dryRun && ImportItem(db.Next(), o, first).1.Failed? then 1 else 0)
    ensures !stopped && !dryRun ==> db2 == ImportItem(db.Next(), o, first).0
  {
    var (db1, stop) := Poll(db, o);
    var c1 := c.(total := c.total + 1);
    db2, c2, stopped := db1, c1, stop;
    if !stop && dryRun {
      c2 := c1.With(Inserted);
    } else if !stop {
      var r := ImportItem(db1, o, first);
      db2, c2 := r.0, c1.With(r.1);
    }
    forall more
      ensures ImportItems(db, o, [first] + more, dryRun, c) ==
              if stopped then (db2, c2, Cancelled) else ImportItems(db2, o, more, dryRun, c2)
    {
      assert ([first] + more)[1..] == more;
    }
  }

  /** The first record of a run that is not cancelled there. */
  lemma UnfoldOne(db: Db, o: Oracle, first: Item, c: Counts) returns (db2: Db, c2: Counts)
    requires !o.stopped(db.tick)
    ensures forall more :: ImportItems(db, o, [first] + more, false, c) == ImportItems(db2, o, more, false, c2)
    ensures c2.failed == c.failed + (if ImportItem(db.Next(), o, first).1.Failed? then 1 else 0)
    ensures db2 == ImportItem(db.Next(), o, first).0
  {
    var stopped;
    db2, c2, stopped := UnfoldAny(db, o, first, false, c);
  }

  /** A run over records is cancelled exactly when a look before one of them finds it stopped. */
  lemma {:induction false} CancelledExactly(db: Db, o: Oracle, items: seq<Item>, dryRun: bool, c: Counts)
    ensures ImportItems(db, o, items, dryRun, c).2.Cancelled? <==>
            exists i :: 0 <= i < |items| && o.stopped(StateAt(db, o, items, dryRun, c, i).tick)
    decreases |items|
  {
    if items != [] {
      assert items == [items[0]] + items[1..];
      var db2, c2, stopped := UnfoldAny(db, o, items[0], dryRun, c);
      assert items[..0] == [];
      assert StateAt(db, o, items, dryRun, c, 0).tick == db.tick;
      if !stopped {
        CancelledExactly(db2, o, items[1..], dryRun, c2);
        forall i | 0 <= i < |items| - 1
          ensures StateAt(db, o, items, dryRun, c, i + 1) == StateAt(db2, o, items[1..], dryRun, c2, i)
        {
          StateAtNext(db, o, items, dryRun, c, db2, c2, i);
        }
        if i :| 0 <= i < |items| && o.stopped(StateAt(db, o, items, dryRun, c, i).tick) {
          assert i > 0 && o.stopped(StateAt(db2, o, items[1..], dryRun, c2, i - 1).tick);
        }
      }
    }
  }

  /** Every record finds its user or can create it. */
  ghost predicate AllObtainable(db: Db, o: Oracle, items: seq<Item>, c: Counts) {
    forall i :: 0 <= i < |items| ==> Obtainable(StateAt(db, o, items, false, c, i).Next(), o, items[i].rec.Who())
  }

  /** When no operation breaks and nobody cancels, no record fails exactly when every record finds its
      user or can create it. */
  lemma {:induction false} NoneFailExactly(db: Db, o: Oracle, items: seq<Item>, c: Counts)
    requires forall n :: Readable(o.reply(n)) && !o.stopped(n)
    ensures ImportItems(db, o, items, false, c).1.failed == c.failed <==> AllObtainable(db, o, items, c)
    decreases |items|
  {
    if items != [] {
      var db2, c2, ok := NoneFailStep(db, o, items, c);
      FailedOnlyGrows(db2, o, items[1..], c2);
      NoneFailExactly(db2, o, items[1..], c2);
    }
  }

  lemma NoneFailStep(db: Db, o: Oracle, items: seq<Item>, c: Counts) returns (db2: Db, c2: Counts, ok: bool)
    requires items != [] && forall n :: Readable(o.reply(n)) && !o.stopped(n)
    ensures ImportItems(db, o, items, false, c) == ImportItems(db2, o, items[1..], false, c2)
    ensures c2.failed == c.failed + (if ok then 0 else 1)
    ensures AllObtainable(db, o, items, c) <==> ok && AllObtainable(db2, o, items[1..], c2)
  {
    assert items == [items[0]] + items[1..];
    db2, c2 := UnfoldOne(db, o, items[0], c);
    RecordFailsExactly(db.Next(), o, items[0]);
    AllObtainableCons(db, o, items, c, db2, c2);
    ok := !ImportItem(db.Next(), o, items[0]).1.Failed?;
  }

  lemma AllObtainableCons(db: Db, o: Oracle, items: seq<Item>, c: Counts, db2: Db, c2: Counts)
    requires items != []
    requires forall more :: ImportItems(db, o, [items[0]] + more, false, c) == ImportItems(db2, o, more, false, c2)
    ensures AllObtainable(db, o, items, c) <==>
            Obtainable(db.Next(), o, items[0].rec.Who()) && AllObtainable(db2, o, items[1..], c2)
  {
    assert items[..0] == [];
    assert StateAt(db, o, items, false, c, 0) == db;
    forall i | 0 <= i < |items| - 1
      ensures Obtainable(StateAt(db, o, items, false, c, i + 1).Next(), o, items[i+1].rec.Who()) <==>
              Obtainable(StateAt(db2, o, items[1..], false, c2, i).Next(), o, items[1..][i].rec.Who())
    {
      StateAtNext(db, o, items, false, c, db2, c2, i);
    }
    if Obtainable(db.Next(), o, items[0].rec.Who()) && AllObtainable(db2, o, items[1..], c2) {
      forall i | 0 <= i < |items|
        ensures Obtainable(StateAt(db, o, items, false, c, i).Next(), o, items[i].rec.Who())
      {
        if i > 0 {
          assert Obtainable(StateAt(db, o, items, false, c, (i - 1) + 1).Next(), o, items[(i-1)+1].rec.Who());
        }
      }
    }
    if AllObtainable(db, o, items, c) {
      forall i | 0 <= i < |items[1..]|
        ensures Obtainable(StateAt(db2, o, items[1..], false, c2, i).Next(), o, items[1..][i].rec.Who())
      {
        assert Obtainable(StateAt(db, o, items, false, c, i + 1).Next(), o, items[i+1].rec.Who());
      }
    }
  }

  /** The ids drawn are new and different from each other. */
  ghost predicate FreshIds(o: Oracle, db: Db) {
    && (forall n :: db.tick <= n ==> o.candidate(n) !in db.users.Values)
    && (forall m, n :: db.tick <= m < n ==> o.candidate(m) != o.candidate(n))
  }

  /** Then the user of a record can always be obtained: its first draw is free. */
  lemma FreshIsObtainable(db: Db, o: Oracle, who: Identity)
    requires FreshIds(o, db) && forall n :: o.reply(n).Fine?
    ensures Obtainable(db, o, who)
  {
    assert CreatedAt(db.Next(), o, db.tick + 1);
  }

  /** And after importing it, the ids still to be drawn are new. */
  lemma FreshStays(db: Db, o: Oracle, it: Item)
    requires FreshIds(o, db) && forall n :: o.reply(n).Fine?
    ensures FreshIds(o, ImportItem(db, o, it).0)
  {
    var who, db1 := it.rec.Who(), db.Next();
    var (db2, user) := ResolveOrCreate(db, o, who);
    var id := o.candidate(db1.tick);
    var (db', _) := ImportItem(db, o, it);
    TicksGrow(db, o, it);
    if who in db.users {
      assert db2.users == db.users;
    } else {
      assert InsertUser(db1, o, who).1 == Ok(id) && db2.users == db.users[who := id];
      assert db'.users.Values == db.users[who := id].Values;
      assert forall v :: v in db.users[who := id].Values ==> v in db.users.Values || v == id;
    }
  }

  /** Importing a record takes time, and changes no user after the first steps. */
  lemma TicksGrow(db: Db, o: Oracle, it: Item)
    requires forall n :: o.reply(n).Fine?
    ensures var (db2, user) := ResolveOrCreate(db, o, it.rec.Who());
            var db' := ImportItem(db, o, it).0;
            && db'.users == db2.users && db2.tick <= db'.tick
    ensures FreshIds(o, db) && it.rec.Who() !in db.users ==> db.tick + 2 <= ImportItem(db, o, it).0.tick
    ensures db.tick < ImportItem(db, o, it).0.tick
  {
    var (db2, user) := ResolveOrCreate(db, o, it.rec.Who());
    CreateTicks(db.Next(), o, it.rec.Who(), USER_TRIES);
    if FreshIds(o, db) && it.rec.Who() !in db.users {
      assert InsertUser(db.Next(), o, it.rec.Who()).1.Ok?;
    }
    if user.Ok? {
      AccountTicks(db2, o, it.Account());
      var (db3, account) := ResolveAccount(db2, o, it.Account());
      if account.Some? {
        BindingTicks(db3, o, user.value, account.value, it.rec.isPrivate == 0);
      }
    }
  }

  lemma AccountTicks(db: Db, o: Oracle, key: AccountKey)
    ensures var db' := ResolveAccount(db, o, key).0; db'.users == db.users && db.tick <= db'.tick
  {
  }

  lemma BindingTicks(db: Db, o: Oracle, user: int, account: int, visible: bool)
    ensures var db' := CreateIfMissing(db, o, user, account, visible).0; db'.users == db.users && db.tick <= db'.tick
  {
  }

  lemma {:induction false} CreateTicks(db: Db, o: Oracle, who: Identity, tries: nat)
    ensures db.tick <= CreateUser(db, o, who, tries).0.tick
    decreases tries
  {
    if tries > 0 && InsertUser(db, o, who).1 == Err(Constraint) {
      CreateTicks(InsertUser(db, o, who).0, o, who, tries - 1);
    }
  }

  lemma FreshStep(db: Db, o: Oracle, it: Item)
    requires FreshIds(o, db) && forall n :: o.reply(n).Fine?
    ensures var (db', outcome) := ImportItem(db.Next(), o, it); !outcome.Failed? && FreshIds(o, db')
  {
    assert FreshIds(o, db.Next());
    FreshIsObtainable(db.Next(), o, it.rec.Who());
    RecordFailsExactly(db.Next(), o, it);
    FreshStays(db.Next(), o, it);
  }

  /** On a working database with fresh ids no record of a run fails. */
  lemma {:induction false} FreshRunIsClean(db: Db, o: Oracle, items: seq<Item>, c: Counts)
    requires FreshIds(o, db) && forall n :: o.reply(n).Fine? && !o.stopped(n)
    ensures ImportItems(db, o, items, false, c).1.failed == c.failed
    decreases |items|
  {
    if items != [] {
      assert items == [items[0]] + items[1..];
      var db2, c2 := UnfoldOne(db, o, items[0], c);
      FreshStep(db, o, items[0]);
      FreshRunIsClean(db2, o, items[1..], c2);
    }
  }

  function KeysOf(items: seq<Item>): set<(Identity, AccountKey)> { set i | 0 <= i < |items| :: items[i].Key() }

  lemma KeysOfCons(items: seq<Item>)
    requires items != []
    ensures KeysOf(items) == {items[0].Key()} + KeysOf(items[1..])
  {
    forall k | k in KeysOf(items)
      ensures k in {items[0].Key()} + KeysOf(items[1..])
    {
      var i :| 0 <= i < |items| && items[i].Key() == k;
      if i > 0 {
        assert items[1..][i-1].Key() == k;
      }
    }
    forall k | k in KeysOf(items[1..])
      ensures k in KeysOf(items)
    {
      var i :| 0 <= i < |items[1..]| && items[1..][i].Key() == k;
      assert items[i+1].Key() == k;
    }
  }

  /** The pairs of the files that are not in the tables. */
  function Absent(db: Db, items: seq<Item>): set<(Identity, AccountKey)> {
    set k | k in KeysOf(items) && !Present(db, k.0, k.1)
  }

  /** What a clean run over `items` leaves behind when it reports `added` insertions: every pair of
      its files, no other new pair, and, if nobody else writes, as many insertions as there were
      distinct absent pairs. */
  ghost predicate CleanEffect(db: Db, db': Db, items: seq<Item>, added: int, races: bool) {
    && Absent(db', items) == {}
    && (forall w, k :: Present(db', w, k) ==> Present(db, w, k) || (w, k) in KeysOf(items))
    && (!races ==> added == |Absent(db, items)|)
  }

  /** A clean run is one in which no record fails and which is not cancelled. */
  lemma {:induction false} CleanRun(db: Db, o: Oracle, items: seq<Item>, c: Counts)
    requires Consistent(db)
    requires var (_, c', end) := ImportItems(db, o, items, false, c); end.Completed? && c'.failed == c.failed
    ensures var (db', c', _) := ImportItems(db, o, items, false, c);
            CleanEffect(db, db', items, c'.inserted - c.inserted, !NoRaces(o))
    decreases |items|
  {
    if items == [] {
      NothingAsked(db);
    } else {
      var db2, outcome, c2 := FirstOfCleanRun(db, o, items, c);
      CleanRun(db2, o, items[1..], c2);
      RunKeeps(db2, o, items[1..], false, c2);
      var (db', c', _) := ImportItems(db2, o, items[1..], false, c2);
      CleanStep(db, db2, db', items, outcome, c'.inserted - c2.inserted, !NoRaces(o));
    }
  }

  /** The first record of a clean run, and what is left to do after it. */
  lemma FirstOfCleanRun(db: Db, o: Oracle, items: seq<Item>, c: Counts) returns (db2: Db, outcome: Outcome, c2: Counts)
    requires Consistent(db) && items != []
    requires var (_, c', end) := ImportItems(db, o, items, false, c); end.Completed? && c'.failed == c.failed
    ensures ImportItems(db, o, items, false, c) == ImportItems(db2, o, items[1..], false, c2)
    ensures Consistent(db2) && !outcome.Failed?
    ensures ItemEffect(db, db2, items[0], outcome, !NoRaces(o))
    ensures c2.failed == c.failed && c2.inserted == c.inserted + (if outcome.Inserted? then 1 else 0)
  {
    var db1 := Poll(db, o).0;
    PollKeeps(db, o);
    var r := ImportItem(db1, o, items[0]);
    db2, outcome := r.0, r.1;
    ImportItemEffect(db1, o, items[0]);
    c2 := c.(total := c.total + 1).With(outcome);
    FailedOnlyGrows(db2, o, items[1..], c2);
    SameDataSame(db, db1);
    EffectAfter(db, db1, db2, items[0], outcome, !NoRaces(o));
  }

  lemma NothingAsked(db: Db)
    ensures CleanEffect(db, db, [], 0, true) && CleanEffect(db, db, [], 0, false)
  {
    assert Absent(db, []) == {};
  }

  lemma PollKeeps(db: Db, o: Oracle)
    requires Consistent(db)
    ensures Consistent(Poll(db, o).0)
  {
  }

  lemma {:induction false} FailedOnlyGrows(db: Db, o: Oracle, items: seq<Item>, c: Counts)
    ensures c.failed <= ImportItems(db, o, items, false, c).1.failed
    decreases |items|
  {
    if items != [] {
      var db2, c2, stopped := Unfold(db, o, items, false, c);
      if !stopped {
        FailedOnlyGrows(db2, o, items[1..], c2);
      }
    }
  }

  lemma CleanStep(db: Db, db1: Db, db2: Db, items: seq<Item>, outcome: Outcome, added: int, races: bool)
    requires items != [] && Grows(db1, db2) && !outcome.Failed?
    requires ItemEffect(db, db1, items[0], outcome, races)
    requires CleanEffect(db1, db2, items[1..], added, races)
    ensures CleanEffect(db, db2, items, added + (if outcome.Inserted? then 1 else 0), races)
  {
    KeysOfCons(items);
    var k0 := items[0].Key();
    PresentGrows(db, db1);
    PresentGrows(db1, db2);
    forall k | k in KeysOf(items)
      ensures Present(db2, k.0, k.1)
    {
      assert k != k0 ==> k !in Absent(db2, items[1..]);
    }
    if !races {
      AbsentStep(db, db1, items, outcome);
    }
  }

  lemma AbsentStep(db: Db, db1: Db, items: seq<Item>, outcome: Outcome)
    requires items != [] && Grows(db, db1) && !outcome.Failed?
    requires ItemEffect(db, db1, items[0], outcome, false)
    ensures |Absent(db, items)| == |Absent(db1, items[1..])| + (if outcome.Inserted? then 1 else 0)
  {
    KeysOfCons(items);
    PresentGrows(db, db1);
    var k0 := items[0].Key();
    if outcome.Inserted? {
      assert Absent(db, items) == {k0} + Absent(db1, items[1..]);
    } else {
      assert Absent(db, items) == Absent(db1, items[1..]);
    }
  }

  /** The first record of each pair that `known` does not hold, in the order they come. */
  function Firsts(items: seq<Item>, known: ((Identity, AccountKey)) -> bool): seq<Item>
    decreases |items|
  {
    if items == [] then []
    else if known(items[0].Key()) then Firsts(items[1..], known)
    else [items[0]] + Firsts(items[1..], k => known(k) || k == items[0].Key())
  }

  lemma {:induction false} FirstsAgree(
    items: seq<Item>, known: ((Identity, AccountKey)) -> bool, known': ((Identity, AccountKey)) -> bool)
    requires forall k :: known(k) <==> known'(k)
    ensures Firsts(items, known) == Firsts(items, known')
    decreases |items|
  {
    if items != [] {
      FirstsAgree(items[1..], known, known');
      FirstsAgree(items[1..], k => known(k) || k == items[0].Key(), k => known'(k) || k == items[0].Key());
    }
  }

  function Known(db: Db): ((Identity, AccountKey)) -> bool { (k: (Identity, AccountKey)) => Present(db, k.0, k.1) }

  /** The rows of db' after the first n are those the items ask for, one each and in order. */
  ghost predicate RowsFor(db': Db, n: nat, items: seq<Item>) {
    && |db'.bindings| == n + |items|
    && forall i :: 0 <= i < |items| ==> RowFor(db', db'.bindings[n + i], items[i])
  }

  /** If nobody else writes, the bindings a clean run adds are exactly those of the first record of
      each absent pair, with that record's visibility, in file order and then record order. */
  lemma {:induction false} CleanRunRows(db: Db, o: Oracle, items: seq<Item>, c: Counts)
    requires Consistent(db) && NoRaces(o)
    requires var (_, c', end) := ImportItems(db, o, items, false, c); end.Completed? && c'.failed == c.failed
    ensures RowsFor(ImportItems(db, o, items, false, c).0, |db.bindings|, Firsts(items, Known(db)))
    decreases |items|
  {
    if items != [] {
      var db2, outcome, c2 := FirstOfCleanRun(db, o, items, c);
      CleanRunRows(db2, o, items[1..], c2);
      RunKeeps(db2, o, items[1..], false, c2);
      FirstsStep(db, db2, items, outcome);
      RowsStep(db, db2, ImportItems(db2, o, items[1..], false, c2).0, items, outcome);
    }
  }

  lemma FirstsStep(db: Db, db2: Db, items: seq<Item>, outcome: Outcome)
    requires items != [] && !outcome.Failed? && ItemEffect(db, db2, items[0], outcome, false)
    ensures Firsts(items, Known(db)) ==
            if outcome.Inserted? then [items[0]] + Firsts(items[1..], Known(db2)) else Firsts(items[1..], Known(db2))
  {
    PresentGrows(db, db2);
    var k0 := items[0].Key();
    forall k: (Identity, AccountKey)
      ensures Known(db2)(k) <==> Known(db)(k) || k == k0
    {
      assert k == (k.0, k.1);
    }
    if outcome.Inserted? {
      FirstsAgree(items[1..], k => Known(db)(k) || k == k0, Known(db2));
    } else {
      FirstsAgree(items[1..], Known(db), Known(db2));
    }
  }

  lemma RowsStep(db: Db, db2: Db, db': Db, items: seq<Item>, outcome: Outcome)
    requires items != [] && !outcome.Failed? && ItemEffect(db, db2, items[0], outcome, false) && Grows(db2, db')
    requires RowsFor(db', |db2.bindings|, Firsts(items[1..], Known(db2)))
    ensures var rest := Firsts(items[1..], Known(db2));
            RowsFor(db', |db.bindings|, if outcome.Inserted? then [items[0]] + rest else rest)
  {
    if outcome.Inserted? {
      RowsCons(db2, db', |db.bindings|, items[0], Firsts(items[1..], Known(db2)));
    }
  }

  lemma RowsCons(db2: Db, db': Db, n: nat, it: Item, rest: seq<Item>)
    requires Submap(db2.users, db'.users) && Submap(db2.accounts, db'.accounts) && db2.bindings <= db'.bindings
    requires |db2.bindings| == n + 1 && RowFor(db2, db2.bindings[n], it) && RowsFor(db', n + 1, rest)
    ensures RowsFor(db', n, [it] + rest)
  {
    assert db'.bindings[n] == db2.bindings[n];
    forall i | 0 <= i < |[it] + rest|
      ensures RowFor(db', db'.bindings[n + i], ([it] + rest)[i])
    {
      if i > 0 {
        assert RowFor(db', db'.bindings[n + 1 + (i - 1)], rest[i-1]);
      }
    }
  }

  lemma PresentGrows(db: Db, db': Db)
    requires Grows(db, db')
    ensures forall w, k :: Present(db, w, k) ==> Present(db', w, k)
  {
    forall w, k | Present(db, w, k)
      ensures Present(db', w, k)
    {
      var i :| 0 <= i < |db.bindings|
               && db.bindings[i].user == db.users[w] && db.bindings[i].account == Some(db.accounts[k]);
      assert db'.bindings[i] == db.bindings[i];
    }
  }

  /** Idempotence: once all pairs of the files are there, a run changes nothing and inserts
      nothing, even if it fails here and there or is cancelled. */
  lemma {:induction false} NothingLeftToDo(db: Db, o: Oracle, items: seq<Item>, c: Counts)
    requires Absent(db, items) == {}
    ensures var (db', c', _) := ImportItems(db, o, items, false, c);
            db'.Data() == db.Data() && c'.inserted == c.inserted
    decreases |items|
  {
    if items != [] {
      var db2, c2, stopped := NothingToDoStep(db, o, items, c);
      if !stopped {
        NothingLeftToDo(db2, o, items[1..], c2);
      }
    }
  }

  lemma NothingToDoStep(db: Db, o: Oracle, items: seq<Item>, c: Counts)
    returns (db2: Db, c2: Counts, stopped: bool)
    requires items != [] && Absent(db, items) == {}
    ensures ImportItems(db, o, items, false, c) ==
            if stopped then (db2, c2, Cancelled) else ImportItems(db2, o, items[1..], false, c2)
    ensures db2.Data() == db.Data() && c2.inserted == c.inserted && Absent(db2, items[1..]) == {}
  {
    var (db1, stop) := Poll(db, o);
    var c1 := c.(total := c.total + 1);
    AllPresentCons(db, items);
    db2, c2, stopped := db1, c1, stop;
    if !stop {
      var r := ImportItem(db1, o, items[0]);
      PresentIsSkipped(db1, o, items[0]);
      db2, c2 := r.0, c1.With(r.1);
    }
    AbsentSame(db, db2, items[1..]);
  }

  lemma AllPresentCons(db: Db, items: seq<Item>)
    requires items != [] && Absent(db, items) == {}
    ensures Present(db, items[0].rec.Who(), items[0].Account()) && Absent(db, items[1..]) == {}
  {
    KeysOfCons(items);
    assert items[0].Key() !in Absent(db, items);
    assert forall k :: k in Absent(db, items[1..]) ==> k in Absent(db, items);
  }

  lemma PresentIsSkipped(db: Db, o: Oracle, it: Item)
    requires Present(db, it.rec.Who(), it.Account())
    ensures var (db', outcome) := ImportItem(db, o, it); db'.Data() == db.Data() && !outcome.Inserted?
  {
  }

  lemma AbsentSame(db: Db, db': Db, items: seq<Item>)
    requires db'.Data() == db.Data()
    ensures Absent(db', items) == Absent(db, items)
  {
    SameDataSame(db, db');
  }

  /** Some earlier runs: each with its own records and its own misfortunes. */
  datatype Attempt = Attempt(o: Oracle, items: seq<Item>, dryRun: bool)

  function Attempts(db: Db, runs: seq<Attempt>): Db {
    if runs == [] then db
    else
      var before := Attempts(db, runs[..|runs| - 1]);
      var r := runs[|runs| - 1];
      ImportItems(before, r.o, r.items, r.dryRun, ZERO).0
  }

  lemma {:induction false} AttemptsKeep(db: Db, runs: seq<Attempt>)
    requires Consistent(db)
    ensures Consistent(Attempts(db, runs)) && Grows(db, Attempts(db, runs))
  {
    if runs == [] {
      SameDataSame(db, db);
    } else {
      var init, r := runs[..|runs| - 1], runs[|runs| - 1];
      AttemptsKeep(db, init);
      RunKeeps(Attempts(db, init), r.o, r.items, r.dryRun, ZERO);
      GrowsTrans(db, Attempts(db, init), Attempts(db, runs));
    }
  }

  ghost predicate ExactlyOne(db: Db, who: Identity, key: AccountKey) {
    && Present(db, who, key)
    && forall i, j :: 0 <= i < |db.bindings| && 0 <= j < |db.bindings| ==>
         IsBindingOf(db, db.bindings[i], who, key) && IsBindingOf(db, db.bindings[j], who, key) ==> i == j
  }

  predicate IsBindingOf(db: Db, b: Binding, who: Identity, key: AccountKey)
    requires who in db.users && key in db.accounts
  {
    b.user == db.users[who] && b.account == Some(db.accounts[key])
  }

  /** Convergence: after any number of runs that failed or were cut short in any way, one clean run
      leaves exactly one binding for every pair of its files, keeps all bindings there were, and
      any further run over the same files changes nothing. */
  lemma Converges(db: Db, runs: seq<Attempt>, o: Oracle, items: seq<Item>, again: Oracle)
    requires Consistent(db)
    requires var (_, c, end) := ImportItems(Attempts(db, runs), o, items, false, ZERO); end.Completed? && c.failed == 0
    ensures var db' := ImportItems(Attempts(db, runs), o, items, false, ZERO).0;
            && (forall k :: k in KeysOf(items) ==> ExactlyOne(db', k.0, k.1))
            && db.bindings <= db'.bindings
            && ImportItems(db', again, items, false, ZERO).0.Data() == db'.Data()
            && ImportItems(db', again, items, false, ZERO).1.inserted == 0
  {
    AttemptsKeep(db, runs);
    var mid := Attempts(db, runs);
    var db' := ImportItems(mid, o, items, false, ZERO).0;
    CleanRun(mid, o, items, ZERO);
    RunKeeps(mid, o, items, false, ZERO);
    NothingLeftToDo(db', again, items, ZERO);
    forall k | k in KeysOf(items)
      ensures ExactlyOne(db', k.0, k.1)
    {
      assert k !in Absent(db', items);
    }
  }

  // ---------- display orders ----------

  /** A user's display orders, in table order. */
  function Orders(bindings: seq<Binding>, user: int): (r: seq<int>)
    ensures |r| == Count(bindings, user)
  {
    if bindings == [] then []
    else
      var init, last := Orders(bindings[..|bindings| - 1], user), bindings[|bindings| - 1];
      if last.user == user then init + [last.order] else init
  }

  function UpTo(n: nat): seq<int> { if n == 0 then [] else UpTo(n - 1) + [n - 1] }

  /** The user's bindings are numbered 0, 1, ... without gaps or repeats, in some order. */
  predicate Contiguous(bindings: seq<Binding>, user: int) {
    multiset(Orders(bindings, user)) == multiset(UpTo(Count(bindings, user)))
  }

  lemma {:induction false} AppendingKeepsContiguous(bindings: seq<Binding>, more: seq<Binding>, user: int)
    requires bindings <= more && Contiguous(bindings, user) && Numbered(more, |bindings|)
    ensures Contiguous(more, user)
    decreases |more|
  {
    if |more| == |bindings| {
      assert more == bindings;
    } else {
      var n := |more| - 1;
      var init := more[..n];
      NumberedPrefix(more, |bindings|, n);
      AppendingKeepsContiguous(bindings, init, user);
      assert more == init + [more[n]];
      ContiguousSnoc(init, more[n], user);
    }
  }

  lemma NumberedPrefix(bindings: seq<Binding>, n: nat, m: nat)
    requires Numbered(bindings, n) && m <= |bindings|
    ensures Numbered(bindings[..m], n)
  {
    assert forall i :: n <= i < m ==> bindings[..m][..i] == bindings[..i];
  }

  lemma ContiguousSnoc(bindings: seq<Binding>, row: Binding, user: int)
    requires Contiguous(bindings, user) && row.order == Count(bindings, row.user)
    ensures Contiguous(bindings + [row], user)
  {
    OrdersSnoc(bindings, row, user);
    if row.user == user {
      SameWithOneMore(Orders(bindings, user), UpTo(Count(bindings, user)), row.order);
    }
  }

  lemma OrdersSnoc(bindings: seq<Binding>, row: Binding, user: int)
    ensures var orders, n := Orders(bindings, user), Count(bindings, user);
            && Orders(bindings + [row], user) == (if row.user == user then orders + [row.order] else orders)
            && Count(bindings + [row], user) == (if row.user == user then n + 1 else n)
            && UpTo(n + 1) == UpTo(n) + [n]
  {
    assert (bindings + [row])[..|bindings|] == bindings;
  }

  lemma SameWithOneMore(a: seq<int>, b: seq<int>, x: int)
    requires multiset(a) == multiset(b)
    ensures multiset(a + [x]) == multiset(b + [x])
  {
  }

  predicate Increasing(indices: seq<nat>) { forall i, j :: 0 <= i < j < |indices| ==> indices[i] < indices[j] }

  /** The rows of db after the first n are asked for by the records at these indices. */
  predicate RowsAt(db: Db, n: nat, items: seq<Item>, indices: seq<nat>) {
    && |db.bindings| == n + |indices|
    && forall k :: 0 <= k < |indices| ==> indices[k] < |items| && RowFor(db, db.bindings[n + k], items[indices[k]])
  }

  /** In any run, whatever fails and however it ends, the bindings are added in the order of the
      records that ask for them. */
  lemma {:induction false} AddedInRecordOrder(db: Db, o: Oracle, items: seq<Item>, dryRun: bool, c: Counts)
    returns (indices: seq<nat>)
    requires Consistent(db)
    ensures Increasing(indices) && RowsAt(ImportItems(db, o, items, dryRun, c).0, |db.bindings|, items, indices)
    decreases |items|
  {
    indices := [];
    if items != [] {
      var db2, c2, stopped := StepKeeps(db, o, items, dryRun, c);
      if !stopped {
        var later := AddedInRecordOrder(db2, o, items[1..], dryRun, c2);
        RunKeeps(db2, o, items[1..], dryRun, c2);
        var db' := ImportItems(db2, o, items[1..], dryRun, c2).0;
        indices := LaterRows(db2, db', items, later);
        if |db2.bindings| > |db.bindings| {
          FirstRow(db2, db', items, indices);
          indices := [0] + indices;
        }
      }
    }
  }

  /** Counting the records from one earlier. */
  lemma LaterRows(db2: Db, db': Db, items: seq<Item>, later: seq<nat>) returns (indices: seq<nat>)
    requires items != [] && Increasing(later) && RowsAt(db', |db2.bindings|, items[1..], later)
    ensures Increasing(indices) && RowsAt(db', |db2.bindings|, items, indices)
    ensures forall k :: 0 <= k < |indices| ==> indices[k] > 0
  {
    indices := seq(|later|, k requires 0 <= k < |later| => later[k] + 1);
    forall k | 0 <= k < |indices|
      ensures indices[k] < |items| && RowFor(db', db'.bindings[|db2.bindings| + k], items[indices[k]])
    {
      assert items[1..][later[k]] == items[indices[k]];
    }
  }

  /** Putting the row of the first record in front. */
  lemma FirstRow(db2: Db, db': Db, items: seq<Item>, indices: seq<nat>)
    requires items != [] && Grows(db2, db') && |db2.bindings| > 0
    requires RowFor(db2, db2.bindings[|db2.bindings| - 1], items[0])
    requires Increasing(indices) && RowsAt(db', |db2.bindings|, items, indices)
    requires forall k :: 0 <= k < |indices| ==> indices[k] > 0
    ensures Increasing([0] + indices) && RowsAt(db', |db2.bindings| - 1, items, [0] + indices)
  {
    var n := |db2.bindings| - 1;
    assert db'.bindings[n] == db2.bindings[n];
    forall k | 0 <= k < |[0] + indices|
      ensures ([0] + indices)[k] < |items| && RowFor(db', db'.bindings[n + k], items[([0] + indices)[k]])
    {
      if k > 0 {
        assert RowFor(db', db'.bindings[n + 1 + (k - 1)], items[indices[k-1]]);
      }
    }
  }

  /** If a user's bindings were numbered without gaps or repeats, they are so after any run, whatever
      fails and however it ends.  The bindings there were stay as they are; the new ones come after
      them, in the order of the records that ask for them, and are numbered in that order. */
  lemma DisplayOrdersStayContiguous(db: Db, o: Oracle, items: seq<Item>, dryRun: bool, user: int)
    requires Consistent(db) && Contiguous(db.bindings, user)
    ensures var db' := ImportItems(db, o, items, dryRun, ZERO).0;
            && Contiguous(db'.bindings, user)
            && db.bindings <= db'.bindings && Numbered(db'.bindings, |db.bindings|)
            && exists indices :: Increasing(indices) && RowsAt(db', |db.bindings|, items, indices)
  {
    RunKeeps(db, o, items, dryRun, ZERO);
    AppendingKeepsContiguous(db.bindings, ImportItems(db, o, items, dryRun, ZERO).0.bindings, user);
    var indices := AddedInRecordOrder(db, o, items, dryRun, ZERO);
  }

  // ---------- files ----------

  datatype Source = Missing | Unreadable | Loaded(records: seq<BindRecord>)
  datatype ExportFile = ExportFile(name: string, source: Source)

  const FILE_NAMES: seq<string> := ["bind.json", "cn_bind.json", "en_bind.json", "tw_bind.json", "kr_bind.json"]

  function TrimSuffix(s: string, suffix: string): string {
    if |s| >= |suffix| && s[|s| - |suffix|..] == suffix then s[..|s| - |suffix|] else s
  }

  function ServerFromFilename(name: string): string {
    if name == "bind.json" then "jp" else TrimSuffix(name, "_bind.json")
  }

  /** The server of a file is what precedes "_bind.json"; the file without a server is Japan's. */
  lemma ServerMeaning(server: string)
    ensures ServerFromFilename(server + "_bind.json") == server
    ensures ServerFromFilename("bind.json") == "jp"
  {
    var name, suffix := server + "_bind.json", "_bind.json";
    assert |suffix| == 10;
    assert name[|name| - |suffix|..] == suffix && name[..|name| - |suffix|] == server;
    assert |name| > |"bind.json"|;
  }

  function ItemsOf(server: string, records: seq<BindRecord>): seq<Item> {
    if records == [] then [] else [Item(server, records[0])] + ItemsOf(server, records[1..])
  }

  /** A missing file is passed over; an unreadable one ends the run, as cancellation does. */
  function ImportFiles(db: Db, o: Oracle, files: seq<ExportFile>, dryRun: bool, c: Counts): (Db, Counts, End)
    decreases |files|
  {
    if files == [] then (db, c, Completed)
    else
      match files[0].source
      case Missing => ImportFiles(db, o, files[1..], dryRun, c)
      case Unreadable => (db, c, LoadFailed)
      case Loaded(records) =>
        var (db1, c1, end) := ImportItems(db, o, ItemsOf(ServerFromFilename(files[0].name), records), dryRun, c);
        if end.Completed? then ImportFiles(db1, o, files[1..], dryRun, c1) else (db1, c1, end)
  }

  /** All records of the files up to the first unreadable one, in file order, then record order. */
  function AllItems(files: seq<ExportFile>): seq<Item> {
    if files == [] || files[0].source.Unreadable? then []
    else
      (if files[0].source.Loaded? then ItemsOf(ServerFromFilename(files[0].name), files[0].source.records) else [])
      + AllItems(files[1..])
  }

  predicate AllReadable(files: seq<ExportFile>) { forall i :: 0 <= i < |files| ==> !files[i].source.Unreadable? }

  lemma {:induction false} ItemsAppend(db: Db, o: Oracle, a: seq<Item>, b: seq<Item>, dryRun: bool, c: Counts)
    ensures ImportItems(db, o, a + b, dryRun, c) ==
            var (db1, c1, end) := ImportItems(db, o, a, dryRun, c);
            if end.Completed? then ImportItems(db1, o, b, dryRun, c1) else (db1, c1, end)
    decreases |a|
  {
    if a == [] {
      assert a + b == b;
    } else {
      assert (a + b)[1..] == a[1..] + b;
      var (db1, stopped) := Poll(db, o);
      var c1 := c.(total := c.total + 1);
      if !stopped && dryRun {
        ItemsAppend(db1, o, a[1..], b, dryRun, c1.With(Inserted));
      } else if !stopped {
        var (db2, outcome) := ImportItem(db1, o, a[0]);
        ItemsAppend(db2, o, a[1..], b, dryRun, c1.With(outcome));
      }
    }
  }

  /** Importing the files is importing their records one after the other, so everything proved of
      a list of records holds of the bindings target. */
  lemma {:induction false} FilesAreItems(db: Db, o: Oracle, files: seq<ExportFile>, dryRun: bool, c: Counts)
    ensures var (db', c', end) := ImportItems(db, o, AllItems(files), dryRun, c);
            ImportFiles(db, o, files, dryRun, c) ==
              (db', c', if end.Completed? && !AllReadable(files) then LoadFailed else end)
    decreases |files|
  {
    if files != [] {
      assert AllReadable(files) <==> !files[0].source.Unreadable? && AllReadable(files[1..]);
      match files[0].source
      case Missing =>
        assert [] + AllItems(files[1..]) == AllItems(files[1..]);
        FilesAreItems(db, o, files[1..], dryRun, c);
      case Unreadable =>
      case Loaded(records) =>
        var items := ItemsOf(ServerFromFilename(files[0].name), records);
        var (db1, c1, end) := ImportItems(db, o, items, dryRun, c);
        ItemsAppend(db, o, items, AllItems(files[1..]), dryRun, c);
        if end.Completed? {
          FilesAreItems(db1, o, files[1..], dryRun, c1);
        } else {
          ItemsNeverLoadFail(db, o, items, dryRun, c);
        }
    }
  }

  lemma {:induction false} ItemsNeverLoadFail(db: Db, o: Oracle, items: seq<Item>, dryRun: bool, c: Counts)
    ensures !ImportItems(db, o, items, dryRun, c).2.LoadFailed?
    decreases |items|
  {
    if items != [] {
      var db2, c2, stopped := Unfold(db, o, items, dryRun, c);
      if !stopped {
        ItemsNeverLoadFail(db2, o, items[1..], dryRun, c2);
      }
    }
  }

  // ---------- the importer ----------

  class ImportCounts {
    var total: nat
    var inserted: nat
    var skipped: nat
    var failed: nat

    constructor ()
      ensures State() == ZERO
    {
      total, inserted, skipped, failed := 0, 0, 0, 0;
    }

    function State(): Counts
      reads this
    {
      Counts(total, inserted, skipped, failed)
    }

    method Record(outcome: Outcome)
      modifies this
      ensures State() == old(State()).With(outcome)
    {
      match outcome
      case Inserted => inserted := inserted + 1;
      case Skipped => skipped := skipped + 1;
      case Failed => failed := failed + 1;
    }
  }

  method ResolveBindingGameAccount(pjsk: Database, server: string, gameUserId: string) returns (id: Option<int>)
    modifies pjsk
    ensures (pjsk.db, id) == ResolveAccount(old(pjsk.db), pjsk.oracle, AccountKey(server, gameUserId))
  {
    var key := AccountKey(server, gameUserId);
    var found := pjsk.FindAccount(key);
    if found.Err? {
      return None;
    }
    if found.value.Some? {
      return found.value;
    }
    var created := pjsk.CreateAccount(key);
    if created == Err(Constraint) {
      var again := pjsk.FindAccount(key);
      return if again.Ok? then again.value else None;
    }
    if created.Err? {
      return None;
    }
    return Some(created.value);
  }

  method CreateBindingIfMissing(pjsk: Database, user: int, account: int, visible: bool) returns (outcome: Outcome)
    modifies pjsk
    ensures (pjsk.db, outcome) == CreateIfMissing(old(pjsk.db), pjsk.oracle, user, account, visible)
  {
    var known := pjsk.BindingExists(user, account);
    if known.Err? {
      return Failed;
    }
    if known.value {
      return Skipped;
    }
    var displayOrder := pjsk.CountBindings(user);
    if displayOrder.Err? {
      return Failed;
    }
    var created := pjsk.CreateBinding(user, account, displayOrder.value, visible);
    if created == Err(Constraint) {
      return Skipped;
    }
    return if created.Ok? then Inserted else Failed;
  }

  method ImportBindingRecord(pjsk: Database, server: string, rec: BindRecord) returns (outcome: Outcome)
    modifies pjsk
    ensures (pjsk.db, outcome) == ImportItem(old(pjsk.db), pjsk.oracle, Item(server, rec))
  {
    var user := pjsk.ResolveUser(DetectPlatform(rec.imUserId));
    if user.Err? {
      return Failed;
    }
    var account := ResolveBindingGameAccount(pjsk, server, rec.userId);
    if account.None? {
      return Failed;
    }
    outcome := CreateBindingIfMissing(pjsk, user.value, account.value, rec.isPrivate == 0);
  }

  method ImportBindingFile(pjsk: Database, file: ExportFile, dryRun: bool, counts: ImportCounts) returns (end: End)
    modifies pjsk, counts
    ensures (pjsk.db, counts.State(), end) ==
            ImportFiles(old(pjsk.db), pjsk.oracle, [file], dryRun, old(counts.State()))
  {
    FileAlone(pjsk.db, pjsk.oracle, file, dryRun, counts.State());
    if file.source.Missing? {
      return Completed;
    }
    if file.source.Unreadable? {
      return LoadFailed;
    }
    var server := ServerFromFilename(file.name);
    end := ImportAll(pjsk, server, file.source.records, dryRun, counts);
  }

  lemma FileAlone(db: Db, o: Oracle, file: ExportFile, dryRun: bool, c: Counts)
    ensures ImportFiles(db, o, [file], dryRun, c) ==
            match file.source
            case Missing => (db, c, Completed)
            case Unreadable => (db, c, LoadFailed)
            case Loaded(records) => ImportItems(db, o, ItemsOf(ServerFromFilename(file.name), records), dryRun, c)
  {
    assert [file][1..] == [];
  }

  lemma ItemsStep(db: Db, o: Oracle, server: string, records: seq<BindRecord>, i: nat, dryRun: bool, c: Counts)
    requires i < |records|
    ensures ImportItems(db, o, ItemsOf(server, records[i..]), dryRun, c) ==
            var c1 := c.(total := c.total + 1);
            var (db1, stopped) := Poll(db, o);
            if stopped then (db1, c1, Cancelled)
            else
              var (db2, outcome) := if dryRun then (db1, Inserted) else ImportItem(db1, o, Item(server, records[i]));
              ImportItems(db2, o, ItemsOf(server, records[i+1..]), dryRun, c1.With(outcome))
  {
    assert records[i..][1..] == records[i+1..];
    var items := ItemsOf(server, records[i..]);
    assert items[0] == Item(server, records[i]) && items[1..] == ItemsOf(server, records[i+1..]);
  }

  method ImportAll(pjsk: Database, server: string, records: seq<BindRecord>, dryRun: bool, counts: ImportCounts)
    returns (end: End)
    modifies pjsk, counts
    ensures (pjsk.db, counts.State(), end) ==
            ImportItems(old(pjsk.db), pjsk.oracle, ItemsOf(server, records), dryRun, old(counts.State()))
  {
    ghost var all := ImportItems(pjsk.db, pjsk.oracle, ItemsOf(server, records), dryRun, counts.State());
    assert records[0..] == records;
    for i := 0 to |records|
      invariant ImportItems(pjsk.db, pjsk.oracle, ItemsOf(server, records[i..]), dryRun, counts.State()) == all
    {
      ItemsStep(pjsk.db, pjsk.oracle, server, records, i, dryRun, counts.State());
      counts.total := counts.total + 1;
      var stopped := pjsk.Stopped();
      if stopped {
        return Cancelled;
      }
      if dryRun {
        counts.inserted := counts.inserted + 1;
        continue;
      }
      var outcome := ImportBindingRecord(pjsk, server, records[i]);
      counts.Record(outcome);
    }
    return Completed;
  }

  /** The bindings target. */
  method ImportBindings(pjsk: Database, files: seq<ExportFile>, dryRun: bool) returns (end: End, c: Counts)
    requires |files| == |FILE_NAMES| && forall i :: 0 <= i < |files| ==> files[i].name == FILE_NAMES[i]
    modifies pjsk
    ensures (pjsk.db, c, end) == ImportFiles(old(pjsk.db), pjsk.oracle, files, dryRun, ZERO)
  {
    var counts := new ImportCounts();
    assert files[0..] == files;
    for i := 0 to |files|
      invariant ImportFiles(pjsk.db, pjsk.oracle, files[i..], dryRun, counts.State())
             == ImportFiles(old(pjsk.db), pjsk.oracle, files, dryRun, ZERO)
    {
      assert files[i..][1..] == files[i+1..];
      FileAlone(pjsk.db, pjsk.oracle, files[i], dryRun, counts.State());
      end := ImportBindingFile(pjsk, files[i], dryRun, counts);
      if !end.Completed? {
        return end, counts.State();
      }
    }
    return Completed, counts.State();
  }
}
