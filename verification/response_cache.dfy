/** The HTTP response cache: answers are stored as the bytes that were sent, and the status of a
    cached answer is recovered from its first bytes. */
module ResponseCache {
  import opened Wrappers
  import opened Text
  import opened Decimal
  import opened JsonText

  const OK_STATUS: Int64 := 200
  const OK_MESSAGE: string := "ok"
  const INTERNAL_MESSAGE: string := "Internal server error"
  const STATUS_PREFIX: string := "{\"status\":"

  // ---------- envelopes ----------

  /** A response map, its keys sorted by the encoder. */
  function ResponseMap(status: Int64, message: string, data: Data): Data {
    var members := [Member("data", data), Member("message", Str(message)), Member("status", Num(FormatInt(status)))];
    EnvelopeWellFormed(members, status);
    Obj(members)
  }

  /** A cacheable non-200 answer, its keys in the order of the struct. */
  function StatusEnvelope(status: Int64, message: string): Data {
    var members := [Member("status", Num(FormatInt(status))), Member("message", Str(message)), Member("data", Null)];
    EnvelopeWellFormed(members, status);
    Obj(members)
  }

  lemma EnvelopeWellFormed(members: seq<Member>, status: Int64)
    requires forall i :: 0 <= i < |members| ==>
               members[i].value.Str? || members[i].value == Num(FormatInt(status)) || WellFormed(members[i].value)
    ensures WellFormed(Obj(members))
  {
    IntIsNumber(status);
  }

  function LowerChar(c: char): char {
    if 'A' <= c <= 'Z' then (c as int + 32) as char else if c == '\U{17f}' then 's' else c
  }

  /** Names are matched without regard to case. */
  predicate IsStatusName(name: string) {
    |name| == 6 && LowerChar(name[0]) == 's' && LowerChar(name[1]) == 't' && LowerChar(name[2]) == 'a'
    && LowerChar(name[3]) == 't' && LowerChar(name[4]) == 'u' && LowerChar(name[5]) == 's'
  }

  /** The status a decoder finds among the members, the last one winning; None if one is not an
      integer. */
  function ReadStatus(members: seq<Member>, status: int): Option<int>
    decreases |members|
  {
    if members == [] then Some(status)
    else if !IsStatusName(members[0].name) || members[0].value.Null? then ReadStatus(members[1..], status)
    else if members[0].value.Num? && ParseInt(members[0].value.lit).Some?
    then ReadStatus(members[1..], ParseInt(members[0].value.lit).value)
    else None
  }

  function CachedStatus(cached: string): Int64 {
    var trimmed := TrimSpace(cached);
    if !(STATUS_PREFIX <= trimmed) then OK_STATUS
    else
      var j := Parse(trimmed);
      var status := if j.Some? && j.value.Obj? then ReadStatus(j.value.members, 0) else None;
      if status.None? || status.value < 100 || status.value > 599 then OK_STATUS else status.value
  }

  /** What CacheQuery accepts as a cached answer. */
  predicate ValidEntry(cached: string) {
    var trimmed := TrimSpace(cached);
    Parse(trimmed).Some? && (trimmed[0] == '{' || trimmed == "null")
  }

  /** A cached answer is a JSON object, or null. */
  ghost predicate Acceptable(cached: string) {
    var j := Parse(TrimSpace(cached));
    j.Some? && (j.value.Obj? || j.value.Null?)
  }

  /** Looking at the first character of valid JSON tells objects from everything else but null. */
  lemma ValidEntryMeaning(cached: string)
    ensures ValidEntry(cached) <==> Acceptable(cached)
  {
    var trimmed := TrimSpace(cached);
    TrimmedEnds(cached);
    if trimmed == "" {
      assert SkipWs("") == "";
    } else {
      assert !IsWs(trimmed[0]) && SkipWs(trimmed) == trimmed;
      FirstCharTells(trimmed);
    }
  }

  lemma FirstCharTells(s: string)
    requires Trimmed(s) && SkipWs(s) == s
    ensures Parse(s).Some? ==> (Parse(s).value.Obj? <==> s[0] == '{')
    ensures Parse(s).Some? ==> (Parse(s).value.Null? <==> s == "null")
  {
    if Parse(s).Some? && "null" <= s {
      if s[4..] != "" {
        OnlyWs(s[4..]);
      }
      assert s == "null" + s[4..];
    }
  }

  lemma {:induction false} OnlyWs(s: string)
    requires SkipWs(s) == "" && s != ""
    ensures IsWs(s[|s| - 1])
  {
    if |s| > 1 {
      OnlyWs(s[1..]);
    }
  }

  /** The status under which an answer given with `status` is replayed. */
  function Replayed(status: Int64): Int64 { if 100 <= status <= 599 then status else OK_STATUS }

  lemma {:induction false} PlainQuote(s: string)
    requires forall i :: 0 <= i < |s| ==> 'a' <= s[i] <= 'z'
    ensures EscapeAll(s) == s
  {
    if s != "" {
      PlainQuote(s[1..]);
      assert [s[0]] + s[1..] == s;
    }
  }

  lemma NamesPlain()
    ensures EscapeAll("data") == "data" && EscapeAll("status") == "status"
  {
    PlainQuote("data");
    PlainQuote("status");
  }

  lemma {:induction false} MembersEnd(members: seq<Member>)
    requires members != []
    ensures EncodeMembers(members) != "" && EncodeMembers(members)[|EncodeMembers(members)| - 1] == '}'
    decreases |members|
  {
    if |members| > 1 {
      MembersEnd(members[1..]);
    }
  }

  /** What follows the first name of an object. */
  function AfterName(members: seq<Member>): string
    requires members != []
  {
    Encode(members[0].value) + (if |members| == 1 then "}" else "," + EncodeMembers(members[1..]))
  }

  lemma ObjectText(members: seq<Member>)
    requires members != []
    ensures Encode(Obj(members)) == "{\"" + EscapeAll(members[0].name) + "\":" + AfterName(members)
  {
    var name, more := EscapeAll(members[0].name), AfterName(members);
    assert EncodeMembers(members) == "\"" + name + "\"" + ":" + more;
    assert "{" + ("\"" + name + "\"" + ":" + more) == "{\"" + name + "\":" + more;
  }

  lemma NothingToTrim(text: string)
    requires text != "" && !IsSpace(text[0]) && !IsSpace(text[|text| - 1])
    ensures TrimSpace(text) == text
  {
    TrimPad("", text, "");
    assert "" + text + "" == text;
  }

  /** An encoded object needs no trimming and is a valid entry. */
  lemma EncodedObject(members: seq<Member>)
    requires members != [] && WellFormed(Obj(members))
    ensures var text := Encode(Obj(members));
            TrimSpace(text) == text && ValidEntry(text) && Parse(text) == Some(Obj(members))
  {
    var text := Encode(Obj(members));
    MembersEnd(members);
    assert text == "{" + EncodeMembers(members);
    NothingToTrim(text);
    RoundTrip(Obj(members));
  }

  /** What an answer says. */
  datatype Message = Message(status: Int64, text: string, data: Data)

  /** An object with the data, the message and the status under their names, and nothing else. */
  ghost predicate IsMessage(j: Json, said: Message) {
    && j.Obj? && |j.members| == 3
    && Member("data", said.data) in j.members
    && Member("message", Str(said.text)) in j.members
    && exists lit :: Member("status", Num(lit)) in j.members && ParseInt(lit) == Some(said.status)
  }

  /** The body is JSON text for such an object. */
  ghost predicate Carries(body: string, said: Message) {
    exists j :: Parse(body) == Some(j) && IsMessage(j, said)
  }

  /** A response map carries what it was built from. */
  lemma MapCarries(status: Int64, message: string, data: Data)
    ensures Carries(Encode(ResponseMap(status, message, data)), Message(status, message, data))
  {
    var members := ResponseMap(status, message, data).members;
    RoundTrip(Obj(members));
    ParseUndoesFormat(status);
    assert members[0] in members && members[1] in members && members[2] in members;
    assert Member("status", Num(FormatInt(status))) in members;
    assert IsMessage(Obj(members), Message(status, message, data));
  }

  /** And so does a status envelope, its data being null. */
  lemma EnvelopeCarries(status: Int64, message: string)
    ensures Carries(Encode(StatusEnvelope(status, message)), Message(status, message, Null))
  {
    var members := StatusEnvelope(status, message).members;
    RoundTrip(Obj(members));
    ParseUndoesFormat(status);
    assert members[0] in members && members[1] in members && members[2] in members;
    assert Member("status", Num(FormatInt(status))) in members;
    assert IsMessage(Obj(members), Message(status, message, Null));
  }

  /** A 200 answer is replayed as 200, whatever its data and message are. */
  lemma ResponseMapStatus(status: Int64, message: string, data: Data)
    ensures var body := Encode(ResponseMap(status, message, data));
            CachedStatus(body) == OK_STATUS && ValidEntry(body)
  {
    var j := ResponseMap(status, message, data);
    EncodedObject(j.members);
    ObjectText(j.members);
    NamesPlain();
    NotStatusFirst("data", AfterName(j.members));
    OtherFirst(Encode(j));
  }

  lemma OtherFirst(text: string)
    requires TrimSpace(text) == text && !(STATUS_PREFIX <= text)
    ensures CachedStatus(text) == OK_STATUS
  {
  }

  lemma StatusFirst(text: string, members: seq<Member>, status: Int64)
    requires TrimSpace(text) == text && STATUS_PREFIX <= text
    requires Parse(text) == Some(Obj(members)) && ReadStatus(members, 0) == Some(status)
    ensures CachedStatus(text) == Replayed(status)
  {
  }

  lemma NotStatusFirst(name: string, rest: string)
    requires name != "" && name[0] != 's'
    ensures !(STATUS_PREFIX <= "{\"" + name + "\":" + rest)
  {
    assert ("{\"" + name + "\":" + rest)[2] == name[0] && STATUS_PREFIX[2] == 's';
  }

  /** A body whose first key is "data" is taken for a 200, valid JSON or not. */
  lemma DataFirstIsOk(rest: string)
    ensures CachedStatus("{\"data\"" + rest) == OK_STATUS
  {
    var text := "{\"data\"" + rest;
    var w, w' := TrimParts(text);
    var t := TrimSpace(text);
    assert !IsSpace(text[0]);
    assert text == t + w' && text[2] == 'd';
    assert |t| > 2 ==> t[2] == text[2];
    assert STATUS_PREFIX[2] == 's';
  }

  /** Round trip of the status envelope: for every message, the status that comes back is the one
      that went in exactly when it is in 100..599 (or 200 anyway). */
  lemma StatusRoundTrip(status: Int64, message: string)
    ensures var body := Encode(StatusEnvelope(status, message));
            && CachedStatus(body) == Replayed(status) && ValidEntry(body)
            && (CachedStatus(body) == status <==> 100 <= status <= 599)
  {
    var m := StatusEnvelope(status, message).members;
    EncodedObject(m);
    StatusComesFirst(m);
    StatusIsRead(status, message);
    StatusFirst(Encode(Obj(m)), m, status);
  }

  lemma StatusComesFirst(m: seq<Member>)
    requires m != [] && m[0].name == "status"
    ensures STATUS_PREFIX <= Encode(Obj(m))
  {
    ObjectText(m);
    NamesPlain();
    PrefixText(m[0].name, AfterName(m));
  }

  lemma PrefixText(name: string, more: string)
    requires name == "status"
    ensures STATUS_PREFIX <= "{\"" + name + "\":" + more
  {
  }

  lemma StatusIsRead(status: Int64, message: string)
    ensures ReadStatus(StatusEnvelope(status, message).members, 0) == Some(status)
  {
    ParseUndoesFormat(status);
    var last := [Member("data", Null)];
    var two := [Member("message", Str(message))] + last;
    assert last[1..] == [] && two[1..] == last;
    assert ReadStatus(last, status) == Some(status);
    assert ReadStatus(two, status) == Some(status);
    assert StatusEnvelope(status, message).members[1..] == two;
  }

  // ---------- the store ----------

  datatype Entry = Entry(body: string, expires: Option<int>)

  /** An answer computed on a miss and offered to the cache. */
  datatype Answer = Answer(key: string, said: Message, body: string, expires: Option<int>)

  /** The clock, the live and expired entries, and all answers offered so far. */
  datatype Store = Store(clock: int, entries: map<string, Entry>, answers: seq<Answer>)

  const FRESH: Store := Store(0, map[], [])

  predicate Live(expires: Option<int>, clock: int) { expires.None? || clock < expires.value }

  datatype Lookup = Miss | Hit(body: string) | Unreadable | Corrupt

  function Query(s: Store, redis: bool, key: string, readFails: bool): Lookup {
    if !redis then Miss
    else if readFails then Unreadable
    else if key !in s.entries || !Live(s.entries[key].expires, s.clock) then Miss
    else if !ValidEntry(s.entries[key].body) then Corrupt
    else Hit(s.entries[key].body)
  }

  /** A best-effort write; a time to live of zero or less never expires. */
  function Written(s: Store, redis: bool, key: string, said: Message, body: string, ttl: int, writeFails: bool): Store {
    var expires := if ttl > 0 then Some(s.clock + ttl) else None;
    s.(entries := if redis && !writeFails then s.entries[key := Entry(body, expires)] else s.entries,
       answers := s.answers + [Answer(key, said, body, expires)])
  }

  datatype Outcome =
    | Fetched(data: Data)
    | NotEncodable
    | Bypass(code: int)
    | StatusAnswer(status: Int64, message: string)
    | FetchFailed

  datatype Response = Body(status: Int64, body: string) | Bypassed(code: int) | EncodeError

  datatype Options = Options(ttl: int, notFoundTtl: int, defaultTtl: int)

  function Plain(status: Int64, message: string): Response { Body(status, Encode(ResponseMap(status, message, Null))) }

  /** What happens after a miss, once the data has been fetched. */
  function Complete(s: Store, redis: bool, key: string, outcome: Outcome, opts: Options, writeFails: bool)
    : (Store, Response)
  {
    match outcome
    case Fetched(data) =>
      var body := Encode(ResponseMap(OK_STATUS, OK_MESSAGE, data));
      var ttl := if opts.ttl <= 0 then opts.defaultTtl else opts.ttl;
      (Written(s, redis, key, Message(OK_STATUS, OK_MESSAGE, data), body, ttl, writeFails), Body(OK_STATUS, body))
    case NotEncodable => (s, EncodeError)
    case Bypass(code) => (s, Bypassed(code))
    case StatusAnswer(status, message) =>
      if opts.notFoundTtl <= 0 then (s, Plain(status, message))
      else
        var body := Encode(StatusEnvelope(status, message));
        (Written(s, redis, key, Message(status, message, Null), body, opts.notFoundTtl, writeFails), Body(status, body))
    case FetchFailed => (s, Plain(500, INTERNAL_MESSAGE))
  }

  /** Between the query of a request and its completion anything may happen: time passes, and
      other requests, on this key or another, complete. */
  datatype Event =
    | Pass(dt: nat)
    | Completion(key: string, outcome: Outcome, opts: Options, writeFails: bool)

  function Step(s: Store, redis: bool, e: Event): Store {
    match e
    case Pass(dt) => s.(clock := s.clock + dt)
    case Completion(key, outcome, opts, writeFails) => Complete(s, redis, key, outcome, opts, writeFails).0
  }

  function Run(s: Store, redis: bool, events: seq<Event>): Store
    decreases |events|
  {
    if events == [] then s else Run(Step(s, redis, events[0]), redis, events[1..])
  }

  // ---------- transparency ----------

  ghost predicate Replays(e: Entry, a: Answer, key: string) {
    a.key == key && a.body == e.body && a.expires == e.expires
  }

  ghost predicate HasAnswer(s: Store, key: string, e: Entry) {
    exists i :: 0 <= i < |s.answers| && Replays(e, s.answers[i], key)
  }

  /** Every stored entry is some answer given earlier for its key, and every answer offered can be
      told apart again by its bytes. */
  ghost predicate Inv(s: Store) {
    EntriesAnswered(s) && AnswersReadable(s)
  }

  /** The body is a valid entry that carries what was said and is replayed under its status. */
  ghost predicate Readable(body: string, said: Message) {
    ValidEntry(body) && CachedStatus(body) == Replayed(said.status) && Carries(body, said)
  }

  ghost predicate EntriesAnswered(s: Store) { forall key :: key in s.entries ==> HasAnswer(s, key, s.entries[key]) }

  ghost predicate AnswersReadable(s: Store) {
    forall i :: 0 <= i < |s.answers| ==> Readable(s.answers[i].body, s.answers[i].said)
  }

  lemma WrittenKeepsInv(s: Store, redis: bool, key: string, said: Message, body: string, ttl: int, writeFails: bool)
    requires Inv(s) && Readable(body, said)
    ensures Inv(Written(s, redis, key, said, body, ttl, writeFails))
  {
    WrittenAnswered(s, redis, key, said, body, ttl, writeFails);
    var s' := Written(s, redis, key, said, body, ttl, writeFails);
    OneMoreReadable(s, s'.answers[|s.answers|], s');
  }

  lemma OneMoreReadable(s: Store, a: Answer, s': Store)
    requires AnswersReadable(s) && Readable(a.body, a.said) && s'.answers == s.answers + [a]
    ensures AnswersReadable(s')
  {
  }

  lemma WrittenAnswered(s: Store, redis: bool, key: string, said: Message, body: string, ttl: int, writeFails: bool)
    requires EntriesAnswered(s)
    ensures EntriesAnswered(Written(s, redis, key, said, body, ttl, writeFails))
  {
    var s' := Written(s, redis, key, said, body, ttl, writeFails);
    forall k | k in s'.entries
      ensures HasAnswer(s', k, s'.entries[k])
    {
      if k == key && redis && !writeFails {
        assert Replays(s'.entries[k], s'.answers[|s.answers|], k);
      } else {
        var i :| 0 <= i < |s.answers| && Replays(s.entries[k], s.answers[i], k);
        assert Replays(s'.entries[k], s'.answers[i], k);
      }
    }
  }

  lemma PassKeepsInv(s: Store, dt: nat)
    requires Inv(s)
    ensures Inv(s.(clock := s.clock + dt))
  {
    var s' := s.(clock := s.clock + dt);
    forall k | k in s'.entries
      ensures HasAnswer(s', k, s'.entries[k])
    {
      assert HasAnswer(s, k, s.entries[k]);
    }
  }

  lemma CompleteKeepsInv(s: Store, redis: bool, key: string, outcome: Outcome, opts: Options, writeFails: bool)
    requires Inv(s)
    ensures Inv(Complete(s, redis, key, outcome, opts, writeFails).0)
  {
    match outcome
    case Fetched(data) =>
      ResponseMapStatus(OK_STATUS, OK_MESSAGE, data);
      MapCarries(OK_STATUS, OK_MESSAGE, data);
      WrittenKeepsInv(s, redis, key, Message(OK_STATUS, OK_MESSAGE, data),
                      Encode(ResponseMap(OK_STATUS, OK_MESSAGE, data)),
                      if opts.ttl <= 0 then opts.defaultTtl else opts.ttl, writeFails);
    case StatusAnswer(status, message) =>
      StatusRoundTrip(status, message);
      EnvelopeCarries(status, message);
      WrittenKeepsInv(s, redis, key, Message(status, message, Null), Encode(StatusEnvelope(status, message)),
                      opts.notFoundTtl, writeFails);
    case _ =>
  }

  lemma StepKeepsInv(s: Store, redis: bool, e: Event)
    requires Inv(s)
    ensures Inv(Step(s, redis, e))
  {
    match e
    case Pass(dt) => PassKeepsInv(s, dt);
    case Completion(key, outcome, opts, writeFails) => CompleteKeepsInv(s, redis, key, outcome, opts, writeFails);
  }

  lemma {:induction false} RunKeepsInv(s: Store, redis: bool, events: seq<Event>)
    requires Inv(s)
    ensures Inv(Run(s, redis, events))
    decreases |events|
  {
    if events != [] {
      StepKeepsInv(s, redis, events[0]);
      RunKeepsInv(Step(s, redis, events[0]), redis, events[1..]);
    }
  }

  /** A hit repeats an earlier, still live answer for the same key byte for byte, carries what that
      answer said, and is sent under the same status exactly when that status is in 100..599. */
  ghost predicate Transparent(s: Store, key: string, body: string) {
    exists i :: 0 <= i < |s.answers| && RepeatedBy(s.answers[i], s.clock, key, body)
  }

  ghost predicate RepeatedBy(a: Answer, clock: int, key: string, body: string) {
    && a.key == key && a.body == body && Live(a.expires, clock)
    && Carries(body, a.said)
    && CachedStatus(body) == Replayed(a.said.status)
    && (CachedStatus(body) == a.said.status <==> 100 <= a.said.status <= 599)
  }

  lemma HitIsTransparent(s: Store, redis: bool, key: string, readFails: bool)
    requires Inv(s)
    ensures var q := Query(s, redis, key, readFails);
            !q.Corrupt? && (q.Hit? ==> Transparent(s, key, q.body))
  {
    var q := Query(s, redis, key, readFails);
    if key in s.entries {
      var i :| 0 <= i < |s.answers| && Replays(s.entries[key], s.answers[i], key);
      if q.Hit? {
        assert RepeatedBy(s.answers[i], s.clock, key, q.body);
      }
    }
  }

  /** Transparency over whole runs: starting from an empty cache, whatever requests complete in
      whatever order and whichever reads and writes fail, no entry is ever rejected and every hit
      repeats an earlier live answer. */
  lemma RunsAreTransparent(redis: bool, events: seq<Event>, key: string, readFails: bool)
    ensures var s := Run(FRESH, redis, events);
            var q := Query(s, redis, key, readFails);
            !q.Corrupt? && (q.Hit? ==> Transparent(s, key, q.body))
  {
    RunKeepsInv(FRESH, redis, events);
    HitIsTransparent(Run(FRESH, redis, events), redis, key, readFails);
  }

  /** What a completed request says, if it is one that is offered to the cache. */
  ghost predicate Says(e: Event, a: Answer) {
    && e.Completion? && e.key == a.key
    && match e.outcome
       case Fetched(data) => a.said == Message(200, "ok", data)
       case StatusAnswer(status, text) => e.opts.notFoundTtl > 0 && a.said == Message(status, text, Null)
       case _ => false
  }

  /** Every answer offered to the cache was given by some request that completed. */
  lemma {:induction false} AnswersComeFromRequests(s: Store, redis: bool, events: seq<Event>, a: Answer)
    ensures a in Run(s, redis, events).answers ==> a in s.answers || exists e :: e in events && Says(e, a)
    decreases |events|
  {
    if events != [] {
      var s1 := Step(s, redis, events[0]);
      AnswersComeFromRequests(s1, redis, events[1..], a);
      assert a in s1.answers && a !in s.answers ==> Says(events[0], a);
      assert forall e :: e in events[1..] ==> e in events;
    }
  }

  /** The data read from a hit is the data of an earlier fetch for the same key, or null after a cached
      status answer, whose status and message it then carries. */
  lemma HitCarriesFetch(redis: bool, events: seq<Event>, key: string, readFails: bool)
    ensures var q := Query(Run(FRESH, redis, events), redis, key, readFails);
            q.Hit? ==>
              exists e :: e in events && e.Completion? && e.key == key &&
                match e.outcome
                case Fetched(data) => Carries(q.body, Message(200, "ok", data)) && CachedStatus(q.body) == 200
                case StatusAnswer(status, text) =>
                  && Carries(q.body, Message(status, text, Null))
                  && CachedStatus(q.body) == if 100 <= status <= 599 then status else 200
                case _ => false
  {
    RunsAreTransparent(redis, events, key, readFails);
    var s := Run(FRESH, redis, events);
    var q := Query(s, redis, key, readFails);
    if q.Hit? {
      var i :| 0 <= i < |s.answers| && RepeatedBy(s.answers[i], s.clock, key, q.body);
      AnswersComeFromRequests(FRESH, redis, events, s.answers[i]);
      var e :| e in events && Says(e, s.answers[i]);
    }
  }

  /** What becomes of an entry as long as no other request for its key completes. */
  lemma {:induction false} EntryStays(s: Store, key: string, e: Entry, events: seq<Event>)
    requires key in s.entries && s.entries[key] == e && ValidEntry(e.body)
    requires forall i :: 0 <= i < |events| && events[i].Completion? ==> events[i].key != key
    ensures var s' := Run(s, true, events);
            Query(s', true, key, false) == if Live(e.expires, s'.clock) then Hit(e.body) else Miss
    decreases |events|
  {
    if events != [] {
      var s' := Step(s, true, events[0]);
      assert key in s'.entries && s'.entries[key] == e;
      EntryStays(s', key, e, events[1..]);
    }
  }

  /** The time to live of an answer, if it is one that is cached. */
  function CachedFor(outcome: Outcome, opts: Options): Option<int> {
    match outcome
    case Fetched(_) => Some(if opts.ttl <= 0 then opts.defaultTtl else opts.ttl)
    case StatusAnswer(_, _) => if opts.notFoundTtl <= 0 then None else Some(opts.notFoundTtl)
    case _ => None
  }

  /** And the cache does its work: an answer whose write succeeds is repeated, byte for byte, until
      its time to live has passed and not after, unless another request for its key completes. */
  lemma AnswerIsCached(s: Store, key: string, outcome: Outcome, opts: Options, events: seq<Event>)
    requires CachedFor(outcome, opts).Some?
    requires forall i :: 0 <= i < |events| && events[i].Completion? ==> events[i].key != key
    ensures var (s1, r) := Complete(s, true, key, outcome, opts, false);
            var s2 := Run(s1, true, events);
            var ttl := CachedFor(outcome, opts).value;
            && r.Body?
            && Query(s2, true, key, false) == if ttl <= 0 || s2.clock < s.clock + ttl then Hit(r.body) else Miss
  {
    var (s1, r) := Complete(s, true, key, outcome, opts, false);
    ValidAnswer(s, key, outcome, opts);
    EntryStays(s1, key, s1.entries[key], events);
  }

  lemma ValidAnswer(s: Store, key: string, outcome: Outcome, opts: Options)
    requires CachedFor(outcome, opts).Some?
    ensures var r := Complete(s, true, key, outcome, opts, false).1; r.Body? && ValidEntry(r.body)
  {
    if outcome.Fetched? {
      ResponseMapStatus(OK_STATUS, OK_MESSAGE, outcome.data);
    } else {
      StatusRoundTrip(outcome.status, outcome.message);
    }
  }

  // ---------- the handlers ----------

  class Redis {
    var clock: int
    var entries: map<string, Entry>
    var answers: seq<Answer>  // all answers offered to the cache so far

    constructor ()
      ensures State() == FRESH
    {
      clock, entries, answers := 0, map[], [];
    }

    function State(): Store
      reads this
    {
      Store(clock, entries, answers)
    }

    /** Whatever else the server does meanwhile. */
    method Meanwhile(redis: bool, events: seq<Event>)
      requires Inv(State())
      modifies this
      ensures State() == Run(old(State()), redis, events) && Inv(State())
    {
      RunKeepsInv(State(), redis, events);
      var s := Run(State(), redis, events);
      clock, entries, answers := s.clock, s.entries, s.answers;
    }

    method CacheQuery(redis: bool, key: string, readFails: bool) returns (q: Lookup)
      ensures q == Query(State(), redis, key, readFails)
      ensures q.Unreadable? <==> redis && readFails
      ensures q.Miss? <==> !redis || (!readFails && (key !in entries || !Live(entries[key].expires, clock)))
      ensures q.Hit? ==> q.body == entries[key].body && Acceptable(q.body)
      ensures q.Corrupt? ==> !Acceptable(entries[key].body)
    {
      if key in entries {
        ValidEntryMeaning(entries[key].body);
      }
      if !redis {
        return Miss;
      }
      if readFails {
        return Unreadable;
      }
      if key !in entries || !Live(entries[key].expires, clock) {
        return Miss;
      }
      var cached := entries[key].body;
      var trimmed := TrimSpace(cached);
      if Parse(trimmed).None? || (trimmed[0] != '{' && trimmed != "null") {
        return Corrupt;
      }
      return Hit(cached);
    }

    method Offer(redis: bool, key: string, said: Message, body: string, ttl: int, writeFails: bool)
      modifies this
      ensures State() == Written(old(State()), redis, key, said, body, ttl, writeFails)
      ensures clock == old(clock) && Stored(old(entries), redis, key, body, ttl, writeFails)
    {
      var expires := if ttl > 0 then Some(clock + ttl) else None;
      if redis && !writeFails {
        entries := entries[key := Entry(body, expires)];
      }
      answers := answers + [Answer(key, said, body, expires)];
    }

    /** The body was stored under the key for its time to live, for good if that is not positive; or
        nothing was stored, because there is no store or the write failed. */
    ghost predicate Stored(before: map<string, Entry>, redis: bool, key: string, body: string, ttl: int,
                           writeFails: bool)
      reads this
    {
      entries == if redis && !writeFails
                 then before[key := Entry(body, if ttl > 0 then Some(clock + ttl) else None)] else before
    }

    method CachedJSONResponse(redis: bool, ttl: int, key: string, status: Int64, message: string, data: Data,
                              writeFails: bool)
      returns (r: Response)
      modifies this
      ensures r.Body? && r.status == status && Carries(r.body, Message(status, message, data))
      ensures clock == old(clock) && Stored(old(entries), redis, key, r.body, ttl, writeFails)
      ensures var body := Encode(ResponseMap(status, message, data));
              && r == Body(status, body)
              && State() == Written(old(State()), redis, key, Message(status, message, data), body, ttl, writeFails)
    {
      var encoded := Encode(ResponseMap(status, message, data));
      MapCarries(status, message, data);
      Offer(redis, key, Message(status, message, data), encoded, ttl, writeFails);
      return Body(status, encoded);
    }

    method SendStatusResponse(redis: bool, key: string, ttl: int, status: Int64, message: string, writeFails: bool)
      returns (r: Response)
      modifies this
      ensures r.Body? && r.status == status && Carries(r.body, Message(status, message, Null))
      ensures clock == old(clock)
      ensures if ttl <= 0 then entries == old(entries) else Stored(old(entries), redis, key, r.body, ttl, writeFails)
      ensures var body := Encode(StatusEnvelope(status, message));
              if ttl <= 0 then r == Plain(status, message) && State() == old(State())
              else
                && r == Body(status, body)
                && State() == Written(old(State()), redis, key, Message(status, message, Null), body, ttl, writeFails)
    {
      if ttl <= 0 {
        MapCarries(status, message, Null);
        return Plain(status, message);
      }
      var encoded := Encode(StatusEnvelope(status, message));
      EnvelopeCarries(status, message);
      Offer(redis, key, Message(status, message, Null), encoded, ttl, writeFails);
      return Body(status, encoded);
    }

    /** What a request that was not answered from the cache sends. */
    ghost predicate Answers(outcome: Outcome, r: Response) {
      match outcome
      case Fetched(data) => r.Body? && r.status == 200 && Carries(r.body, Message(200, "ok", data))
      case NotEncodable => r == EncodeError
      case Bypass(code) => r == Bypassed(code)
      case StatusAnswer(status, text) => r.Body? && r.status == status && Carries(r.body, Message(status, text, Null))
      case FetchFailed => SaysInternalError(r)
    }

    /** What becomes of the store: an answer with a time to live is stored for it, any other leaves the
        store alone. */
    ghost predicate Kept(before: map<string, Entry>, redis: bool, key: string, r: Response, outcome: Outcome,
                         opts: Options, writeFails: bool)
      requires Answers(outcome, r)
      reads this
    {
      match outcome
      case Fetched(_) =>
        Stored(before, redis, key, r.body, if opts.ttl > 0 then opts.ttl else opts.defaultTtl, writeFails)
      case StatusAnswer(_, _) =>
        Stored(before, redis && opts.notFoundTtl > 0, key, r.body, opts.notFoundTtl, writeFails)
      case _ => entries == before
    }

    ghost predicate SaysInternalError(r: Response) {
      r.Body? && r.status == 500 && Carries(r.body, Message(500, INTERNAL_MESSAGE, Null))
    }

    /** One request.  `meanwhile` completes between its query and its own completion. */
    method WithCacheOptions(redis: bool, key: string, opts: Options, readFails: bool, meanwhile: seq<Event>,
                            outcome: Outcome, writeFails: bool)
      returns (r: Response)
      requires Inv(State())
      modifies this
      ensures Inv(State())
      ensures match old(Query(State(), redis, key, readFails))
              case Hit(body) =>
                r == Body(CachedStatus(body), body) && State() == old(State()) && Transparent(State(), key, body)
              case Miss =>
                && (State(), r) == Complete(Run(old(State()), redis, meanwhile), redis, key, outcome, opts, writeFails)
                && Answers(outcome, r)
                && Kept(Run(old(State()), redis, meanwhile).entries, redis, key, r, outcome, opts, writeFails)
              case Unreadable => SaysInternalError(r) && State() == old(State())
              case Corrupt => false
      ensures redis && readFails ==> SaysInternalError(r)
      ensures !redis || (!readFails && key !in old(entries)) ==> Answers(outcome, r)
    {
      HitIsTransparent(State(), redis, key, readFails);
      MapCarries(500, INTERNAL_MESSAGE, Null);
      var q := CacheQuery(redis, key, readFails);
      if q.Unreadable? || q.Corrupt? {
        return Plain(500, INTERNAL_MESSAGE);
      }
      if q.Hit? {
        return Body(CachedStatus(q.body), q.body);
      }
      Meanwhile(redis, meanwhile);
      r := Respond(redis, key, opts, outcome, writeFails);
    }

    /** What follows the fetch of a request that was not answered from the cache. */
    method Respond(redis: bool, key: string, opts: Options, outcome: Outcome, writeFails: bool) returns (r: Response)
      requires Inv(State())
      modifies this
      ensures Inv(State())
      ensures (State(), r) == Complete(old(State()), redis, key, outcome, opts, writeFails)
      ensures Answers(outcome, r) && Kept(old(entries), redis, key, r, outcome, opts, writeFails)
    {
      CompleteKeepsInv(State(), redis, key, outcome, opts, writeFails);
      match outcome
      case Bypass(code) => return Bypassed(code);
      case StatusAnswer(status, message) =>
        r := SendStatusResponse(redis, key, opts.notFoundTtl, status, message, writeFails);
      case FetchFailed =>
        MapCarries(500, INTERNAL_MESSAGE, Null);
        return Plain(500, INTERNAL_MESSAGE);
      case NotEncodable => return EncodeError;
      case Fetched(data) =>
        var ttl := opts.ttl;
        if ttl <= 0 {
          ttl := opts.defaultTtl;
        }
        r := CachedJSONResponse(redis, ttl, key, OK_STATUS, OK_MESSAGE, data, writeFails);
    }
  }
}
