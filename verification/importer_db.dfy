/** The tables the importer writes, with their unique keys, and the operations it performs on
    them.  Every operation may fail; which ones do is given by an oracle, over which all results
    quantify. */
module ImporterDb {
  import opened Wrappers

  /** How the database behaves at one operation: normally; refusing it; carrying it out and losing
      the reply; or, for an insert, letting another writer insert the same row first. */
  datatype Reply = Fine | Refused | LostReply | Raced

  /** The outside world, by the number of operations performed so far: the database's behaviour,
      the random ids drawn for new users, and whether the run has been cancelled. */
  datatype Oracle = Oracle(reply: nat -> Reply, candidate: nat -> int, stopped: nat -> bool)

  datatype Identity = Identity(platform: string, userId: string)
  datatype AccountKey = AccountKey(server: string, userId: string)
  datatype Binding = Binding(id: int, user: int, account: Option<int>, order: int, visible: bool)

  datatype Db = Db(
    users: map<Identity, int>,          // unique: identity, and id
    accounts: map<AccountKey, int>,     // unique: (server, user id), and id
    bindings: seq<Binding>,             // in insertion order; unique: (user, account)
    defaults: map<(int, string), int>,  // unique: (user, scope)
    serial: int,                        // the next id of an account or binding
    tick: nat)                          // operations performed so far
  {
    function Next(): Db { this.(tick := tick + 1) }
    function Data(): Db { this.(tick := 0) }
  }

  datatype Failure = Constraint | Broken

  /** The answer to an insert that did (`ok`) or did not violate a key. */
  function InsertAnswer<T>(reply: Reply, ok: bool, id: T): Result<T, Failure> {
    match reply
    case Fine => if ok then Ok(id) else Err(Constraint)
    case Raced => Err(Constraint)
    case _ => Err(Broken)
  }

  predicate Readable(reply: Reply) { reply.Fine? || reply.Raced? }

  // ---------- users ----------

  function QueryUser(db: Db, o: Oracle, who: Identity): (Db, Result<Option<int>, Failure>) {
    (db.Next(),
     if !Readable(o.reply(db.tick)) then Err(Broken)
     else Ok(if who in db.users then Some(db.users[who]) else None))
  }

  function InsertUser(db: Db, o: Oracle, who: Identity): (Db, Result<int, Failure>) {
    var id, reply := o.candidate(db.tick), o.reply(db.tick);
    var ok := who !in db.users && id !in db.users.Values;
    (if ok && !reply.Refused? then db.Next().(users := db.users[who := id]) else db.Next(), InsertAnswer(reply, ok, id))
  }

  /** Draw an id and insert; on a constraint error try again, at most `tries` times. */
  function CreateUser(db: Db, o: Oracle, who: Identity, tries: nat): (Db, Result<int, Failure>)
    decreases tries
  {
    if tries == 0 then (db, Err(Broken))
    else
      var (db', r) := InsertUser(db, o, who);
      if r == Err(Constraint) then CreateUser(db', o, who, tries - 1) else (db', r)
  }

  const USER_TRIES: nat := 5

  function ResolveOrCreate(db: Db, o: Oracle, who: Identity): (Db, Result<int, Failure>) {
    var (db', r) := QueryUser(db, o, who);
    if r.Err? then (db', Err(r.error))
    else if r.value.Some? then (db', Ok(r.value.value))
    else CreateUser(db', o, who, USER_TRIES)
  }

  // ---------- accounts ----------

  function QueryAccount(db: Db, o: Oracle, key: AccountKey): (Db, Result<Option<int>, Failure>) {
    (db.Next(),
     if !Readable(o.reply(db.tick)) then Err(Broken)
     else Ok(if key in db.accounts then Some(db.accounts[key]) else None))
  }

  function InsertAccount(db: Db, o: Oracle, key: AccountKey): (Db, Result<int, Failure>) {
    var reply, ok := o.reply(db.tick), key !in db.accounts;
    (if ok && !reply.Refused?
     then db.Next().(accounts := db.accounts[key := db.serial], serial := db.serial + 1)
     else db.Next(),
     InsertAnswer(reply, ok, db.serial))
  }

  // ---------- bindings ----------

  predicate HasBinding(bindings: seq<Binding>, user: int, account: int) {
    exists i :: 0 <= i < |bindings| && bindings[i].user == user && bindings[i].account == Some(account)
  }

  /** How many bindings the user has. */
  function Count(bindings: seq<Binding>, user: int): nat {
    if bindings == [] then 0
    else Count(bindings[..|bindings| - 1], user) + (if bindings[|bindings| - 1].user == user then 1 else 0)
  }

  function QueryBinding(db: Db, o: Oracle, user: int, account: int): (Db, Result<bool, Failure>) {
    (db.Next(), if !Readable(o.reply(db.tick)) then Err(Broken) else Ok(HasBinding(db.bindings, user, account)))
  }

  function QueryCount(db: Db, o: Oracle, user: int): (Db, Result<nat, Failure>) {
    (db.Next(), if !Readable(o.reply(db.tick)) then Err(Broken) else Ok(Count(db.bindings, user)))
  }

  function InsertBinding(db: Db, o: Oracle, user: int, account: int, order: int, visible: bool)
    : (Db, Result<int, Failure>)
  {
    var reply, ok := o.reply(db.tick), !HasBinding(db.bindings, user, account);
    var row := Binding(db.serial, user, Some(account), order, visible);
    (if ok && !reply.Refused?
     then db.Next().(bindings := db.bindings + [row], serial := db.serial + 1)
     else db.Next(),
     InsertAnswer(reply, ok, db.serial))
  }

  // ---------- defaults ----------

  function InsertDefault(db: Db, o: Oracle, user: int, scope: string, binding: int): (Db, Result<(), Failure>) {
    var reply, ok := o.reply(db.tick), (user, scope) !in db.defaults;
    (if ok && !reply.Refused? then db.Next().(defaults := db.defaults[(user, scope) := binding]) else db.Next(),
     InsertAnswer(reply, ok, ()))
  }

  /** Looking whether the run has been cancelled. */
  function Poll(db: Db, o: Oracle): (Db, bool) { (db.Next(), o.stopped(db.tick)) }

  /** The database as the importer's clients see it. */
  class Database {
    const oracle: Oracle
    var db: Db

    constructor (oracle: Oracle, db: Db)
      ensures this.oracle == oracle && this.db == db
    {
      this.oracle, this.db := oracle, db;
    }

    /** Finds the user of an identity or creates one with a random id. */
    method ResolveUser(who: Identity) returns (r: Result<int, Failure>)
      modifies this
      ensures (db, r) == ResolveOrCreate(old(db), oracle, who)
    {
      var q := QueryUser(db, oracle, who);
      db := q.0;
      if q.1.Err? {
        return Err(q.1.error);
      }
      if q.1.value.Some? {
        return Ok(q.1.value.value);
      }
      ghost var start := db;
      var tries := USER_TRIES;
      while tries > 0
        invariant CreateUser(db, oracle, who, tries) == CreateUser(start, oracle, who, USER_TRIES)
      {
        var c := InsertUser(db, oracle, who);
        db := c.0;
        if c.1 != Err(Constraint) {
          return c.1;
        }
        tries := tries - 1;
      }
      return Err(Broken);
    }

    method FindAccount(key: AccountKey) returns (r: Result<Option<int>, Failure>)
      modifies this
      ensures (db, r) == QueryAccount(old(db), oracle, key)
    {
      var q := QueryAccount(db, oracle, key);
      db := q.0;
      return q.1;
    }

    method CreateAccount(key: AccountKey) returns (r: Result<int, Failure>)
      modifies this
      ensures (db, r) == InsertAccount(old(db), oracle, key)
    {
      var q := InsertAccount(db, oracle, key);
      db := q.0;
      return q.1;
    }

    method BindingExists(user: int, account: int) returns (r: Result<bool, Failure>)
      modifies this
      ensures (db, r) == QueryBinding(old(db), oracle, user, account)
    {
      var q := QueryBinding(db, oracle, user, account);
      db := q.0;
      return q.1;
    }

    method CountBindings(user: int) returns (r: Result<nat, Failure>)
      modifies this
      ensures (db, r) == QueryCount(old(db), oracle, user)
    {
      var q := QueryCount(db, oracle, user);
      db := q.0;
      return q.1;
    }

    method CreateBinding(user: int, account: int, order: int, visible: bool) returns (r: Result<int, Failure>)
      modifies this
      ensures (db, r) == InsertBinding(old(db), oracle, user, account, order, visible)
    {
      var q := InsertBinding(db, oracle, user, account, order, visible);
      db := q.0;
      return q.1;
    }

    method CreateDefault(user: int, scope: string, binding: int) returns (r: Result<(), Failure>)
      modifies this
      ensures (db, r) == InsertDefault(old(db), oracle, user, scope, binding)
    {
      var q := InsertDefault(db, oracle, user, scope, binding);
      db := q.0;
      return q.1;
    }

    method Stopped() returns (stopped: bool)
      modifies this
      ensures (db, stopped) == Poll(old(db), oracle)
    {
      var q := Poll(db, oracle);
      db := q.0;
      return q.1;
    }
  }
}
