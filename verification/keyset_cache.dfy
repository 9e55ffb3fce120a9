/** The trust keyset source: one file, published by somebody else, served from a cache that looks
    at the file's modification time at most once per reload interval.  A writer may change the
    file between the look and the read; calls themselves are serialised by a mutex. */
module KeysetCache {
  import opened Wrappers

  const SECOND: int := 1_000_000_000  // in nanoseconds, as the clock counts
  const RELOAD_INTERVAL: int := 30 * SECOND

  datatype File = Missing | File(content: string, mtime: int)

  /** `file` is what the path held from time `since` until the next snapshot. */
  datatype Snapshot = Snapshot(since: int, file: File)

  /** The clock and everything the path has held, the current state last. */
  datatype World = World(clock: int, past: seq<Snapshot>) {
    predicate Valid() {
      && past != []
      && (forall i :: 0 <= i < |past| ==> past[i].since <= clock)
      && (forall i, j :: 0 <= i < j < |past| ==> past[i].since <= past[j].since)
    }
    function Current(): File
      requires past != []
    { past[|past| - 1].file }
  }

  datatype Change = Tick(dt: nat) | Write(content: string, mtime: int) | Remove

  function Changed(w: World, c: Change): World {
    match c
    case Tick(dt) => w.(clock := w.clock + dt)
    case Write(content, mtime) => w.(past := w.past + [Snapshot(w.clock, File(content, mtime))])
    case Remove => w.(past := w.past + [Snapshot(w.clock, Missing)])
  }

  function After(w: World, changes: seq<Change>): World
    decreases |changes|
  {
    if changes == [] then w else After(Changed(w, changes[0]), changes[1..])
  }

  ghost predicate HasMtime(w: World, mtime: int) {
    exists i :: 0 <= i < |w.past| && w.past[i].file.File? && w.past[i].file.mtime == mtime
  }

  /** Every write carries a modification time the file has not had before. */
  ghost predicate FreshWrites(w: World, changes: seq<Change>)
    decreases |changes|
  {
    changes != [] ==>
    && (changes[0].Write? ==> !HasMtime(w, changes[0].mtime))
    && FreshWrites(Changed(w, changes[0]), changes[1..])
  }

  datatype Error = StatFailed | ReadFailed | Rejected

  datatype Cache = Cache(checkedAt: int, modTime: int, body: Option<string>, err: Option<Error>)

  const EMPTY: Cache := Cache(0, 0, None, None)

  /** What happens around the two file operations of one call. */
  datatype Call = Call(beforeStat: seq<Change>, statFails: bool, beforeRead: seq<Change>, readFails: bool)

  /** A call during which nothing happens to the file. */
  const QUIET: Call := Call([], false, [], false)

  function Served(c: Cache): Result<string, Error>
    requires c.body.Some?
  {
    if c.err.Some? then Err(c.err.value) else Ok(c.body.value)
  }

  /** One call of `load`, with the writer's interleaved changes. */
  function Load(valid: string -> bool, c: Cache, w: World, call: Call): (r: (Cache, World, Result<string, Error>))
    requires w.past != []
    ensures r.1.past != []
  {
    if c.body.Some? && w.clock - c.checkedAt < RELOAD_INTERVAL then (c, w, Served(c))
    else
      var c1 := c.(checkedAt := w.clock);
      var w1 := After(w, call.beforeStat);
      AfterKeeps(w, call.beforeStat);
      if call.statFails || w1.Current().Missing? then
        (c1.(body := None, err := Some(StatFailed)), w1, Err(StatFailed))
      else if c1.body.Some? && w1.Current().mtime == c1.modTime then (c1, w1, Served(c1))
      else
        var w2 := After(w1, call.beforeRead);
        AfterKeeps(w1, call.beforeRead);
        if call.readFails || w2.Current().Missing? then
          (c1.(body := None, err := Some(ReadFailed)), w2, Err(ReadFailed))
        else if !valid(w2.Current().content) then
          (c1.(body := None, err := Some(Rejected)), w2, Err(Rejected))
        else
          (c1.(body := Some(w2.Current().content), err := None, modTime := w1.Current().mtime),
           w2, Ok(w2.Current().content))
  }

  lemma {:induction false} AfterKeeps(w: World, changes: seq<Change>)
    ensures w.clock <= After(w, changes).clock
    ensures w.past <= After(w, changes).past
    ensures w.Valid() ==> After(w, changes).Valid()
    decreases |changes|
  {
    if changes != [] {
      AfterKeeps(Changed(w, changes[0]), changes[1..]);
    }
  }

  // ---------- staleness ----------

  /** Snapshot i has the given content and was still there at some instant not before `t`. */
  ghost predicate HeldSince(past: seq<Snapshot>, i: int, content: string, t: int) {
    && 0 <= i < |past| && past[i].file.File? && past[i].file.content == content
    && (i + 1 < |past| ==> t <= past[i+1].since)
  }

  /** The file held `content` at some instant in the interval from just after `lo` to `hi`. */
  ghost predicate HeldWithin(past: seq<Snapshot>, content: string, lo: int, hi: int) {
    exists i :: HeldSince(past, i, content, lo + 1) && past[i].since <= hi
  }

  /** The answer was in the file during the call or less than the reload interval before it. */
  ghost predicate Recent(w: World, w': World, r: Result<string, Error>) {
    r.Ok? ==> HeldWithin(w'.past, r.value, w.clock - 30 * SECOND, w'.clock)
  }

  /** The inductive invariant: a cached body was in the file at or after the last check, its
      modification time will not come back, and if the file has that time now, it is the body. */
  ghost predicate Inv(c: Cache, w: World) {
    && w.Valid()
    && (c.body.Some? ==>
        && c.err.None?
        && c.checkedAt <= w.clock
        && (exists i :: HeldSince(w.past, i, c.body.value, c.checkedAt))
        && HasMtime(w, c.modTime)
        && (w.Current().File? && w.Current().mtime == c.modTime ==> w.Current().content == c.body.value))
  }

  lemma InvChanged(c: Cache, w: World, change: Change)
    requires Inv(c, w) && (change.Write? ==> !HasMtime(w, change.mtime))
    ensures Inv(c, Changed(w, change))
  {
    if c.body.Some? {
      var i :| HeldSince(w.past, i, c.body.value, c.checkedAt);
      assert HeldSince(Changed(w, change).past, i, c.body.value, c.checkedAt);
      MtimeKept(w, change, c.modTime);
    }
  }

  lemma {:induction false} InvAfter(c: Cache, w: World, changes: seq<Change>)
    requires Inv(c, w) && FreshWrites(w, changes)
    ensures Inv(c, After(w, changes))
    decreases |changes|
  {
    if changes != [] {
      InvChanged(c, w, changes[0]);
      InvAfter(c, Changed(w, changes[0]), changes[1..]);
    }
  }

  lemma MtimeKept(w: World, change: Change, mtime: int)
    requires HasMtime(w, mtime)
    ensures HasMtime(Changed(w, change), mtime)
  {
    var i :| 0 <= i < |w.past| && w.past[i].file.File? && w.past[i].file.mtime == mtime;
    assert Changed(w, change).past[i] == w.past[i];
  }

  ghost predicate FreshCall(w: World, call: Call) {
    FreshWrites(w, call.beforeStat) && FreshWrites(After(w, call.beforeStat), call.beforeRead)
  }

  lemma {:induction false} MtimeAfter(w: World, changes: seq<Change>, mtime: int)
    requires HasMtime(w, mtime) && FreshWrites(w, changes)
    ensures HasMtime(After(w, changes), mtime)
    ensures var w' := After(w, changes);
            && w.past != [] && w'.past != []
            && (w'.Current().File? && w'.Current().mtime == mtime ==> w'.Current() == w.Current())
    decreases |changes|
  {
    if changes != [] {
      MtimeKept(w, changes[0], mtime);
      MtimeAfter(Changed(w, changes[0]), changes[1..], mtime);
    }
  }

  /** A call keeps the invariant, and what it answers was in the file during the call or within
      the reload interval before it. */
  lemma LoadStep(valid: string -> bool, c: Cache, w: World, call: Call)
    requires Inv(c, w) && FreshCall(w, call)
    ensures var (c', w', r) := Load(valid, c, w, call);
            Inv(c', w') && Recent(w, w', r)
  {
    AfterKeeps(w, call.beforeStat);
    InvAfter(c, w, call.beforeStat);
    var w1 := After(w, call.beforeStat);
    if c.body.Some? && w.clock - c.checkedAt < RELOAD_INTERVAL {
      ServedUnchecked(c, w);
    } else if !call.statFails && !w1.Current().Missing? {
      if c.body.Some? && w1.Current().mtime == c.modTime {
        CurrentIsHeld(w1, w.clock);
      } else {
        var w2 := After(w1, call.beforeRead);
        AfterKeeps(w1, call.beforeRead);
        if !call.readFails && !w2.Current().Missing? {
          FreshlyRead(c, w.clock, w1, call.beforeRead);
        }
      }
    }
  }

  lemma ServedUnchecked(c: Cache, w: World)
    requires Inv(c, w) && c.body.Some? && w.clock - c.checkedAt < RELOAD_INTERVAL
    ensures HeldWithin(w.past, c.body.value, w.clock - RELOAD_INTERVAL, w.clock)
  {
    var i :| HeldSince(w.past, i, c.body.value, c.checkedAt);
    assert HeldSince(w.past, i, c.body.value, w.clock - RELOAD_INTERVAL + 1);
  }

  /** What the file holds now was held since any earlier time, as far as that can be told. */
  lemma CurrentIsHeld(w: World, t: int)
    requires w.Valid() && w.Current().File?
    ensures exists i :: HeldSince(w.past, i, w.Current().content, t)
    ensures HeldWithin(w.past, w.Current().content, t - RELOAD_INTERVAL, w.clock)
  {
    assert HeldSince(w.past, |w.past| - 1, w.Current().content, t);
    assert HeldSince(w.past, |w.past| - 1, w.Current().content, t - RELOAD_INTERVAL + 1);
  }

  /** Reading after looking: the remembered time may be older than the bytes, never newer, and in
      either case the invariant holds. */
  lemma FreshlyRead(c: Cache, now: int, w1: World, changes: seq<Change>)
    requires w1.Valid() && w1.Current().File? && now <= w1.clock && FreshWrites(w1, changes)
    requires After(w1, changes).Valid() && After(w1, changes).Current().File?
    requires w1.clock <= After(w1, changes).clock
    ensures var w2 := After(w1, changes);
            && Inv(Cache(now, w1.Current().mtime, Some(w2.Current().content), None), w2)
            && HeldWithin(w2.past, w2.Current().content, now - RELOAD_INTERVAL, w2.clock)
  {
    var m := w1.Current().mtime;
    assert w1.past[|w1.past| - 1].file.mtime == m;
    assert HasMtime(w1, m);
    MtimeAfter(w1, changes, m);
    CurrentIsHeld(After(w1, changes), now);
  }

  // ---------- whole runs ----------

  datatype Event = Outside(changes: seq<Change>) | Request(call: Call)

  function Run(valid: string -> bool, c: Cache, w: World, events: seq<Event>): (r: (Cache, World))
    requires w.past != []
    ensures r.1.past != []
    decreases |events|
  {
    if events == [] then (c, w)
    else
      var (c', w') := Step(valid, c, w, events[0]);
      Run(valid, c', w', events[1..])
  }

  function Step(valid: string -> bool, c: Cache, w: World, e: Event): (r: (Cache, World))
    requires w.past != []
    ensures r.1.past != []
  {
    match e
    case Outside(changes) => AfterKeeps(w, changes); (c, After(w, changes))
    case Request(call) =>
      AfterKeeps(w, call.beforeStat);
      AfterKeeps(After(w, call.beforeStat), call.beforeRead);
      var (c', w', _) := Load(valid, c, w, call);
      (c', w')
  }

  ghost predicate FreshRun(valid: string -> bool, c: Cache, w: World, events: seq<Event>)
    requires w.past != []
    decreases |events|
  {
    events != [] ==>
    && (match events[0] case Outside(changes) => FreshWrites(w, changes) case Request(call) => FreshCall(w, call))
    && var (c', w') := Step(valid, c, w, events[0]); FreshRun(valid, c', w', events[1..])
  }

  lemma {:induction false} RunKeepsInv(valid: string -> bool, c: Cache, w: World, events: seq<Event>)
    requires Inv(c, w) && FreshRun(valid, c, w, events)
    ensures var (c', w') := Run(valid, c, w, events); Inv(c', w')
    decreases |events|
  {
    if events != [] {
      match events[0]
      case Outside(changes) =>
        InvAfter(c, w, changes);
        RunKeepsInv(valid, c, After(w, changes), events[1..]);
      case Request(call) =>
        LoadStep(valid, c, w, call);
        var (c', w', _) := Load(valid, c, w, call);
        RunKeepsInv(valid, c', w', events[1..]);
    }
  }

  /** Bounded staleness: after any run from an empty cache, with any interleaving of the writer
      and any file errors, a successful call answers bytes the file held during the call or less
      than the reload interval before it began. */
  lemma BoundedStaleness(valid: string -> bool, w: World, events: seq<Event>, call: Call)
    requires w.Valid() && FreshRun(valid, EMPTY, w, events)
    requires FreshCall(Run(valid, EMPTY, w, events).1, call)
    ensures var (c1, w1) := Run(valid, EMPTY, w, events);
            var (c2, w2, r) := Load(valid, c1, w1, call);
            Recent(w1, w2, r)
  {
    RunKeepsInv(valid, EMPTY, w, events);
    var (c1, w1) := Run(valid, EMPTY, w, events);
    LoadStep(valid, c1, w1, call);
  }

  /** A republished keyset is picked up without a restart: once a valid file has been in place
      for a full reload interval, an undisturbed call answers exactly that file. */
  lemma PicksUpNewFile(valid: string -> bool, w: World, events: seq<Event>)
    requires w.Valid() && FreshRun(valid, EMPTY, w, events)
    requires var w1 := Run(valid, EMPTY, w, events).1;
             && w1.Current().File? && valid(w1.Current().content)
             && w1.past[|w1.past| - 1].since <= w1.clock - RELOAD_INTERVAL
    ensures var (c1, w1) := Run(valid, EMPTY, w, events);
            Load(valid, c1, w1, QUIET).2 == Ok(w1.Current().content)
  {
    var (c1, w1) := Run(valid, EMPTY, w, events);
    RunKeepsInv(valid, EMPTY, w, events);
    if c1.body.Some? && w1.clock - c1.checkedAt < RELOAD_INTERVAL {
      var i :| HeldSince(w1.past, i, c1.body.value, c1.checkedAt);
      assert i + 1 == |w1.past|;
    }
  }

  // ---------- without fresh modification times ----------

  /** What holds of any writer: a cached body was checked in the past, and if the file has not been
      touched since, its modification time is the remembered one. */
  ghost predicate Checked(c: Cache, w: World) {
    && w.Valid()
    && (c.body.Some? ==>
        && c.err.None? && c.checkedAt <= w.clock
        && (w.past[|w.past| - 1].since < c.checkedAt ==> w.Current().File? && w.Current().mtime == c.modTime))
  }

  lemma {:induction false} CheckedAfter(c: Cache, w: World, changes: seq<Change>)
    requires Checked(c, w)
    ensures Checked(c, After(w, changes))
    decreases |changes|
  {
    if changes != [] {
      CheckedAfter(c, Changed(w, changes[0]), changes[1..]);
    }
  }

  /** If the last change is older than w's clock, there was none. */
  lemma {:induction false} Undisturbed(w: World, changes: seq<Change>)
    requires w.Valid()
    ensures w.past <= After(w, changes).past
    ensures After(w, changes).past[|After(w, changes).past| - 1].since < w.clock ==> After(w, changes).past == w.past
    decreases |changes|
  {
    if changes != [] {
      var w' := Changed(w, changes[0]);
      Undisturbed(w', changes[1..]);
      AfterKeeps(w, changes);
      var past := After(w, changes).past;
      if |w'.past| > |w.past| {
        assert past[|w.past|] == w'.past[|w.past|];
      }
    }
  }

  lemma LoadChecked(valid: string -> bool, c: Cache, w: World, call: Call)
    requires Checked(c, w)
    ensures var (c', w', _) := Load(valid, c, w, call); Checked(c', w')
  {
    var w1 := After(w, call.beforeStat);
    AfterKeeps(w, call.beforeStat);
    CheckedAfter(c, w, call.beforeStat);
    if !(c.body.Some? && w.clock - c.checkedAt < RELOAD_INTERVAL) && !call.statFails && w1.Current().File?
       && !(c.body.Some? && w1.Current().mtime == c.modTime) {
      AfterKeeps(w1, call.beforeRead);
      ReadChecked(w.clock, w1, call.beforeRead);
    }
  }

  lemma ReadChecked(now: int, w1: World, changes: seq<Change>)
    requires w1.Valid() && w1.Current().File? && now <= w1.clock
    ensures var w2 := After(w1, changes);
            && w2.past != []
            && (w2.Current().File? ==> Checked(Cache(now, w1.Current().mtime, Some(w2.Current().content), None), w2))
  {
    AfterKeeps(w1, changes);
    Undisturbed(w1, changes);
  }

  lemma {:induction false} RunChecked(valid: string -> bool, c: Cache, w: World, events: seq<Event>)
    requires Checked(c, w)
    ensures var (c', w') := Run(valid, c, w, events); Checked(c', w')
    decreases |events|
  {
    if events != [] {
      match events[0]
      case Outside(changes) =>
        CheckedAfter(c, w, changes);
        RunChecked(valid, c, After(w, changes), events[1..]);
      case Request(call) =>
        LoadChecked(valid, c, w, call);
        var (c', w', _) := Load(valid, c, w, call);
        RunChecked(valid, c', w', events[1..]);
    }
  }

  lemma LoadKeeps(valid: string -> bool, c: Cache, w: World, call: Call)
    requires Checked(c, w)
    ensures var (c', w', r) := Load(valid, c, w, call);
            && Checked(c', w')
            && (Inv(c, w) && FreshCall(w, call) ==> Inv(c', w') && Recent(w, w', r))
  {
    LoadChecked(valid, c, w, call);
    if Inv(c, w) && FreshCall(w, call) {
      LoadStep(valid, c, w, call);
    }
  }

  /** The remembered modification time is that of the file, but the bytes are not. */
  predicate Confused(c: Cache, w: World)
    requires w.past != []
  {
    c.body.Some? && w.Current().File? && c.modTime == w.Current().mtime && c.body.value != w.Current().content
  }

  /** Exactly when a new keyset is missed: whatever the writer does with modification times, once a
      valid file has been in place for a full reload interval an undisturbed call answers that file
      unless the cache holds other bytes under the file's modification time; and those are older than
      the reload interval allows. */
  lemma StaleExactly(valid: string -> bool, w: World, events: seq<Event>)
    requires w.Valid()
    requires var w1 := Run(valid, EMPTY, w, events).1;
             && w1.Current().File? && valid(w1.Current().content)
             && w1.past[|w1.past| - 1].since <= w1.clock - RELOAD_INTERVAL
    ensures var (c1, w1) := Run(valid, EMPTY, w, events);
            var (_, w2, r) := Load(valid, c1, w1, QUIET);
            && (r == Ok(w1.Current().content) <==> !Confused(c1, w1))
            && r.Ok? && (Recent(w1, w2, r) <==> !Confused(c1, w1))
  {
    RunChecked(valid, EMPTY, w, events);
    var (c1, w1) := Run(valid, EMPTY, w, events);
    LoadQuiet(valid, c1, w1);
    CurrentIsHeld(w1, w1.clock);
  }

  /** A call during which nothing happens leaves the file alone and answers the cached bytes or the
      file's. */
  lemma LoadQuiet(valid: string -> bool, c: Cache, w: World)
    requires Checked(c, w) && w.Current().File? && valid(w.Current().content)
    requires w.past[|w.past| - 1].since <= w.clock - RELOAD_INTERVAL
    ensures var (_, w2, r) := Load(valid, c, w, QUIET);
            w2 == w && r == Ok(if Confused(c, w) then c.body.value else w.Current().content)
  {
    assert After(w, []) == w;
  }

  /** And it stays missed for as long as the file is left alone, however often it is asked for. */
  lemma {:induction false} StaleForever(valid: string -> bool, c: Cache, w: World, waits: seq<nat>)
    requires Checked(c, w) && Confused(c, w)
    ensures var (c', w') := Run(valid, c, w, Asks(waits));
            Confused(c', w') && w'.past == w.past && Load(valid, c', w', QUIET).2 == Ok(c.body.value)
    decreases |waits|
  {
    if waits == [] {
      var _ := StaleOnce(valid, c, w);
    } else {
      var w1 := Changed(w, Tick(waits[0]));
      assert [Tick(waits[0])][1..] == [] && After(w1, []) == w1;
      assert After(w, [Tick(waits[0])]) == w1;
      var c2 := StaleOnce(valid, c, w1);
      AsksStep(valid, c, w, w1, c2, waits);
      StaleForever(valid, c2, w1, waits[1..]);
    }
  }

  lemma AsksStep(valid: string -> bool, c: Cache, w: World, w1: World, c2: Cache, waits: seq<nat>)
    requires waits != [] && w.past != [] && w1.past != [] && After(w, [Tick(waits[0])]) == w1
    requires Load(valid, c, w1, QUIET) == (c2, w1, Load(valid, c, w1, QUIET).2)
    ensures Run(valid, c, w, Asks(waits)) == Run(valid, c2, w1, Asks(waits[1..]))
  {
    var events := Asks(waits);
    assert events[0] == Outside([Tick(waits[0])]) && events[1..][0] == Request(QUIET);
    assert events[1..][1..] == Asks(waits[1..]);
    assert Step(valid, c, w, events[0]) == (c, w1);
    assert Step(valid, c, w1, events[1..][0]) == (c2, w1);
    assert Run(valid, c, w, events) == Run(valid, c, w1, events[1..]);
  }

  lemma StaleOnce(valid: string -> bool, c: Cache, w: World) returns (c2: Cache)
    requires Checked(c, w) && Confused(c, w)
    ensures Load(valid, c, w, QUIET) == (c2, w, Ok(c.body.value))
    ensures c2.body == c.body && Checked(c2, w) && Confused(c2, w)
  {
    assert After(w, []) == w;
    c2 := Load(valid, c, w, QUIET).0;
  }

  /** Undisturbed calls, each after some time. */
  function Asks(waits: seq<nat>): seq<Event> {
    if waits == [] then [] else [Outside([Tick(waits[0])]), Request(QUIET)] + Asks(waits[1..])
  }

  // ---------- nothing invalid is served ----------

  /** A cached body passed the check of the envelope. */
  ghost predicate Sound(valid: string -> bool, c: Cache) { c.body.Some? ==> valid(c.body.value) }

  lemma LoadSound(valid: string -> bool, c: Cache, w: World, call: Call)
    requires Checked(c, w) && Sound(valid, c)
    ensures var (c', w', r) := Load(valid, c, w, call); Sound(valid, c') && (r.Ok? ==> valid(r.value))
  {
  }

  lemma {:induction false} RunSound(valid: string -> bool, c: Cache, w: World, events: seq<Event>)
    requires Checked(c, w) && Sound(valid, c)
    ensures var (c', w') := Run(valid, c, w, events); Checked(c', w') && Sound(valid, c')
    decreases |events|
  {
    if events != [] {
      match events[0]
      case Outside(changes) =>
        CheckedAfter(c, w, changes);
        RunSound(valid, c, After(w, changes), events[1..]);
      case Request(call) =>
        LoadChecked(valid, c, w, call);
        LoadSound(valid, c, w, call);
        var (c', w', _) := Load(valid, c, w, call);
        RunSound(valid, c', w', events[1..]);
    }
  }

  /** After any run with any writer, an answer is a valid envelope. */
  lemma AnswersAreValid(valid: string -> bool, w: World, events: seq<Event>, call: Call)
    requires w.Valid()
    ensures var (c1, w1) := Run(valid, EMPTY, w, events);
            var r := Load(valid, c1, w1, call).2;
            r.Ok? ==> valid(r.value)
  {
    RunSound(valid, EMPTY, w, events);
    var (c1, w1) := Run(valid, EMPTY, w, events);
    LoadSound(valid, c1, w1, call);
  }

  /** What becomes of a bad file: once it has been in place for a full reload interval, an undisturbed
      call fails if the file is missing; and if it is not valid, it is rejected unless the cache holds
      other bytes under its modification time. */
  lemma BadFileFails(valid: string -> bool, w: World, events: seq<Event>)
    requires w.Valid()
    requires var w1 := Run(valid, EMPTY, w, events).1;
             w1.past[|w1.past| - 1].since <= w1.clock - RELOAD_INTERVAL
    ensures var (c1, w1) := Run(valid, EMPTY, w, events);
            var r := Load(valid, c1, w1, QUIET).2;
            match w1.Current()
            case Missing => r == Err(StatFailed)
            case File(content, _) => !valid(content) ==> (r == Err(Rejected) <==> !Confused(c1, w1))
  {
    RunSound(valid, EMPTY, w, events);
    var (c1, w1) := Run(valid, EMPTY, w, events);
    assert After(w1, []) == w1;
  }

  /** A failed look or read is reported when the call comes to it, whatever was cached. */
  lemma FailuresAreReported(valid: string -> bool, c: Cache, w: World, call: Call)
    requires Checked(c, w) && (c.body.None? || w.clock - c.checkedAt >= 30 * SECOND)
    ensures call.statFails ==> Load(valid, c, w, call).2 == Err(StatFailed)
    ensures call.readFails && c.body.None? ==> Load(valid, c, w, call).2.Err?
  {
    AfterKeeps(w, call.beforeStat);
  }

  // ---------- the throttle ----------

  /** Within the reload interval after a successful check nothing is looked at: whatever is done to the
      file, and whatever would happen around a look at it, every call gets the same bytes, the cache
      stays as it is, and only the writer's own changes happen. */
  lemma {:induction false} QuietInterval(valid: string -> bool, c: Cache, w: World, events: seq<Event>, call: Call)
    requires Checked(c, w) && c.body.Some?
    requires Run(valid, c, w, events).1.clock - c.checkedAt < 30 * SECOND
    ensures var (c', w') := Run(valid, c, w, events);
            && c' == c && w' == After(w, AllOutside(events))
            && Load(valid, c', w', call) == (c, w', Ok(c.body.value))
    decreases |events|
  {
    if events != [] {
      RunClock(valid, c, w, events);
      match events[0]
      case Outside(changes) =>
        CheckedAfter(c, w, changes);
        AfterAppend(w, changes, AllOutside(events[1..]));
        QuietInterval(valid, c, After(w, changes), events[1..], call);
      case Request(_) =>
        QuietInterval(valid, c, w, events[1..], call);
    }
  }

  function AllOutside(events: seq<Event>): seq<Change> {
    if events == [] then []
    else if events[0].Outside? then events[0].changes + AllOutside(events[1..])
    else AllOutside(events[1..])
  }

  lemma {:induction false} AfterAppend(w: World, a: seq<Change>, b: seq<Change>)
    ensures After(w, a + b) == After(After(w, a), b)
    decreases |a|
  {
    if a == [] {
      assert a + b == b;
    } else {
      assert (a + b)[1..] == a[1..] + b;
      AfterAppend(Changed(w, a[0]), a[1..], b);
    }
  }

  lemma {:induction false} RunClock(valid: string -> bool, c: Cache, w: World, events: seq<Event>)
    requires w.past != []
    ensures w.clock <= Run(valid, c, w, events).1.clock
    decreases |events|
  {
    if events != [] {
      var (c', w') := Step(valid, c, w, events[0]);
      StepClock(valid, c, w, events[0]);
      RunClock(valid, c', w', events[1..]);
    }
  }

  lemma StepClock(valid: string -> bool, c: Cache, w: World, e: Event)
    requires w.past != []
    ensures w.clock <= Step(valid, c, w, e).1.clock
  {
    match e
    case Outside(changes) => AfterKeeps(w, changes);
    case Request(call) =>
      AfterKeeps(w, call.beforeStat);
      AfterKeeps(After(w, call.beforeStat), call.beforeRead);
  }

  /** A call fails only because of the file as the call found it, never because of the cache. */
  lemma FailureIsCurrent(valid: string -> bool, w: World, events: seq<Event>, call: Call)
    requires w.Valid() && FreshRun(valid, EMPTY, w, events)
    ensures var (c1, w1) := Run(valid, EMPTY, w, events);
            var (c2, w2, r) := Load(valid, c1, w1, call);
            r.Err? ==> call.statFails || call.readFails || w2.Current().Missing? || !valid(w2.Current().content)
  {
    RunKeepsInv(valid, EMPTY, w, events);
  }

  /** Fresh modification times are needed: if a rewrite keeps the old time, the old bytes are
      served however long ago they were replaced. */
  lemma ReusedMtimeServesStaleBytes(a: string, b: string, delay: nat)
    requires a != b && RELOAD_INTERVAL <= delay
    ensures var valid := (s: string) => true;
            var w := World(0, [Snapshot(0, File(a, 1))]);
            var events := [Request(QUIET), Outside([Write(b, 1), Tick(delay)])];
            var (c1, w1) := Run(valid, EMPTY, w, events);
            && Load(valid, c1, w1, QUIET).2 == Ok(a)
            && !HeldWithin(w1.past, a, w1.clock - RELOAD_INTERVAL, w1.clock)
  {
    var valid := (s: string) => true;
    var w := World(0, [Snapshot(0, File(a, 1))]);
    var changes := [Write(b, 1), Tick(delay)];
    var events := [Request(QUIET), Outside(changes)];
    var c1 := Cache(0, 1, Some(a), None);
    assert After(w, []) == w;
    assert Load(valid, EMPTY, w, QUIET) == (c1, w, Ok(a));
    var wb := Changed(w, Write(b, 1));
    assert changes[1..] == [Tick(delay)] && changes[1..][1..] == [];
    var w1 := Changed(wb, Tick(delay));
    assert After(wb, changes[1..]) == After(w1, []) == w1;
    assert After(w, changes) == w1;
    assert events[1..] == [Outside(changes)] && events[1..][1..] == [];
    assert Run(valid, c1, w1, []) == (c1, w1);
    assert Run(valid, c1, w, events[1..]) == (c1, w1);
    assert Run(valid, EMPTY, w, events) == (c1, w1);
    assert w1.past == [Snapshot(0, File(a, 1)), Snapshot(0, File(b, 1))];
    assert After(w1, []) == w1;
  }

  // ---------- the source itself ----------

  /** The file system and the clock; the changes made by others arrive just before an operation. */
  class Disk {
    var world: World

    constructor (world: World)
      ensures this.world == world
    {
      this.world := world;
    }

    method Stat(changes: seq<Change>, fails: bool) returns (mtime: Option<int>)
      requires world.past != []
      modifies this
      ensures world.past != [] && world == After(old(world), changes)
      ensures mtime == if fails || world.Current().Missing? then None else Some(world.Current().mtime)
    {
      AfterKeeps(world, changes);
      world := After(world, changes);
      mtime := if fails || world.Current().Missing? then None else Some(world.Current().mtime);
    }

    method ReadFile(changes: seq<Change>, fails: bool) returns (raw: Option<string>)
      requires world.past != []
      modifies this
      ensures world.past != [] && world == After(old(world), changes)
      ensures raw == if fails || world.Current().Missing? then None else Some(world.Current().content)
    {
      AfterKeeps(world, changes);
      world := After(world, changes);
      raw := if fails || world.Current().Missing? then None else Some(world.Current().content);
    }
  }

  class KeysetSource {
    const disk: Disk
    const valid: string -> bool  // the structural check of the envelope
    var checkedAt: int
    var modTime: int
    var body: Option<string>
    var err: Option<Error>

    constructor (disk: Disk, valid: string -> bool)
      ensures this.disk == disk && this.valid == valid && State() == EMPTY
    {
      this.disk, this.valid := disk, valid;
      checkedAt, modTime, body, err := 0, 0, None, None;
    }

    function State(): Cache
      reads this
    {
      Cache(checkedAt, modTime, body, err)
    }

    /** The current envelope bytes.  Fresh modification times keep the answers recent; with any others
        what is kept is enough to tell exactly when an answer is stale. */
    method LoadBody(call: Call) returns (r: Result<string, Error>)
      requires Checked(State(), disk.world) && Sound(valid, State())
      modifies this, disk
      ensures (State(), disk.world, r) == Load(valid, old(State()), old(disk.world), call)
      ensures Checked(State(), disk.world) && Sound(valid, State())
      ensures r.Ok? ==> valid(r.value)
      ensures old(Inv(State(), disk.world) && FreshCall(disk.world, call)) ==>
                Inv(State(), disk.world) && Recent(old(disk.world), disk.world, r)
    {
      LoadKeeps(valid, State(), disk.world, call);
      LoadSound(valid, State(), disk.world, call);
      var now := disk.world.clock;
      if body.Some? && now - checkedAt < RELOAD_INTERVAL {
        return Served(State());
      }
      checkedAt := now;
      var mtime := disk.Stat(call.beforeStat, call.statFails);
      if mtime.None? {
        body, err := None, Some(StatFailed);
        return Err(StatFailed);
      }
      if body.Some? && mtime.value == modTime {
        return Served(State());
      }
      var raw := disk.ReadFile(call.beforeRead, call.readFails);
      if raw.None? {
        body, err := None, Some(ReadFailed);
        return Err(ReadFailed);
      }
      if !valid(raw.value) {
        body, err := None, Some(Rejected);
        return Err(Rejected);
      }
      body, err, modTime := raw, None, mtime.value;
      return Ok(raw.value);
    }
  }
}
