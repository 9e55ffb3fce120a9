/** The bulk-create builders that ent generates for CommandLog and ImageModCache: a chain of
    mutators, one per builder, each of which calls the next one from inside itself.  The batch
    insert happens at the innermost level; specs and nodes are filled on the way down, ids and
    `done` flags on the way back up. */
module BulkCreate {

  import opened Wrappers
  import Hooks

  datatype Error =
    | BuilderError(code: int)     // an error recorded by the bulk builder itself
    | Missing(column: string)
    | Invalid(column: string)
    | Hooked(code: int)           // whatever error a hook returns
    | Constraint
    | Refused

  /** The values a mutation holds, by column. */
  type Fields = map<string, string>

  /** What differs between the generated builders: the required columns in the order `check`
      visits them, the defaults, the validators, and whether the caller may choose the id
      (ImageModCache) or not (CommandLog). */
  datatype Schema = Schema(
    required: seq<string>,
    defaults: map<string, string>,
    validator: (string, string) -> bool,
    callerIds: bool)

  /** What a hook does with the mutation it is given: hand it on, with its fields possibly edited,
      and turn the answer that comes back into its own; or answer at once, without forwarding. */
  datatype Act =
    | Forward(fields: Fields, answer: Option<Error> -> Option<Error>)
    | Reply(result: Option<Error>)

  /** Any hook that hands on the mutation it was given, at most once. */
  type Hook = Fields -> Act

  /** The answer the database gives to the one batch insert. */
  datatype Verdict = Accept | Violates | Down

  datatype Spec = Spec(fields: Fields, id: Option<int>)
  datatype Row = Row(fields: Fields, id: int)

  class Node {
    var id: int
    const fields: Fields
    constructor (fields: Fields, id: int)
      ensures this.fields == fields && this.id == id
    {
      this.fields := fields;
      this.id := id;
    }
  }

  class Mutation {
    var fields: Fields
    const chosen: Option<int>  // the id given with SetID, if any
    var idOf: Node?            // after the insert the mutation's id points into its node
    var done: bool

    constructor (fields: Fields, chosen: Option<int>)
      ensures this.fields == fields && this.chosen == chosen && idOf == null && !done
    {
      this.fields := fields;
      this.chosen := chosen;
      idOf := null;
      done := false;
    }

    function ID(): Option<int>
      reads this, idOf
    {
      if idOf != null then Some(idOf.id) else chosen
    }
  }

  datatype Builder = Builder(mutation: Mutation, hooks: seq<Hook>)

  class Driver {
    var rows: seq<Row>
    var calls: nat
    var serial: int
    const verdict: Verdict

    constructor (verdict: Verdict)
    {
      this.verdict := verdict;
      rows, calls, serial := [], 0, 1;
    }

    /** One atomic insert of all specs, in order, that may fail.  On success every spec holds the
        id of its row. */
    method BatchCreate(specs: array<Spec>) returns (err: Option<Error>)
      modifies this, specs
      ensures calls == old(calls) + 1
      ensures err == DbAnswer(verdict)
      ensures err.None? ==> rows == old(rows) + RowsOf(old(specs[..]), old(serial))
      ensures err.None? ==> forall k :: 0 <= k < specs.Length ==>
                specs[k] == old(specs[k]).(id := Some(RowId(old(specs[k]), old(serial), k)))
      ensures err.Some? ==> rows == old(rows) && specs[..] == old(specs[..])
    {
      calls := calls + 1;
      err := DbAnswer(verdict);
      if err.None? {
        var base := serial;
        rows, serial := rows + RowsOf(specs[..], base), base + specs.Length;
        for i := 0 to specs.Length
          modifies specs
          invariant forall k :: 0 <= k < i ==>
                      specs[k] == old(specs[k]).(id := Some(RowId(old(specs[k]), base, k)))
          invariant forall k :: i <= k < specs.Length ==> specs[k] == old(specs[k])
        {
          specs[i] := specs[i].(id := Some(RowId(specs[i], base, i)));
        }
      }
    }
  }

  function DbAnswer(v: Verdict): Option<Error> {
    match v
    case Accept => None
    case Violates => Some(Constraint)
    case Down => Some(Refused)
  }

  function RowId(s: Spec, base: int, k: int): int {
    if s.id.Some? then s.id.value else base + k
  }

  function RowsOf(specs: seq<Spec>, base: int): (r: seq<Row>)
    ensures |r| == |specs|
    ensures forall k :: 0 <= k < |r| ==> r[k] == Row(specs[k].fields, RowId(specs[k], base, k))
  {
    seq(|specs|, k requires 0 <= k < |specs| => Row(specs[k].fields, RowId(specs[k], base, k)))
  }

  // ---------- what a chain of builders answers, as a function of its inputs ----------

  /** `defaults`: a column the caller left unset takes its default. */
  function Defaulted(schema: Schema, f: Fields): Fields { schema.defaults + f }

  /** `check`: the first required column that is missing or fails its validator. */
  function Check(schema: Schema, f: Fields): Option<Error> { CheckFrom(schema.required, schema.validator, f) }

  function CheckFrom(required: seq<string>, validator: (string, string) -> bool, f: Fields): Option<Error> {
    if required == [] then None
    else if required[0] !in f then Some(Missing(required[0]))
    else if !validator(required[0], f[required[0]]) then Some(Invalid(required[0]))
    else CheckFrom(required[1..], validator, f)
  }

  /** Every required column is there, with a value its validator accepts. */
  predicate CompleteFields(schema: Schema, f: Fields) {
    forall column :: column in schema.required ==> Good(schema, f, column)
  }

  predicate Good(schema: Schema, f: Fields, column: string) {
    column in f && schema.validator(column, f[column])
  }

  /** The error is about the first required column that is missing or invalid. */
  ghost predicate Names(schema: Schema, f: Fields, error: Error) {
    exists i :: 0 <= i < |schema.required| && IsFirstBad(schema, f, i)
                && error == if schema.required[i] in f then Invalid(schema.required[i]) else Missing(schema.required[i])
  }

  predicate IsFirstBad(schema: Schema, f: Fields, i: nat)
    requires i < |schema.required|
  {
    !Good(schema, f, schema.required[i]) && forall j :: 0 <= j < i ==> Good(schema, f, schema.required[j])
  }

  /** `check` passes exactly the complete mutations, and otherwise names the first bad column. */
  lemma CheckMeaning(schema: Schema, f: Fields)
    ensures Check(schema, f).None? <==> CompleteFields(schema, f)
    ensures Check(schema, f).Some? ==> Names(schema, f, Check(schema, f).value)
  {
    CheckFromMeaning(schema, f, 0);
    assert schema.required[0..] == schema.required;
  }

  lemma {:induction false} CheckFromMeaning(schema: Schema, f: Fields, n: nat)
    requires n <= |schema.required|
    requires forall j :: 0 <= j < n ==> Good(schema, f, schema.required[j])
    ensures var e := CheckFrom(schema.required[n..], schema.validator, f);
            (e.None? <==> CompleteFields(schema, f)) && (e.Some? ==> Names(schema, f, e.value))
    decreases |schema.required| - n
  {
    if n < |schema.required| {
      var column := schema.required[n];
      assert schema.required[n..][0] == column && schema.required[n..][1..] == schema.required[n+1..];
      assert column in schema.required;
      if Good(schema, f, column) {
        CheckFromMeaning(schema, f, n + 1);
      } else {
        assert IsFirstBad(schema, f, n);
      }
    }
  }

  /** f is what the caller gave, with the default for exactly the columns the caller did not give. */
  predicate FilledIn(schema: Schema, given: Fields, f: Fields) {
    && (forall column :: column in given ==> column in f && f[column] == given[column])
    && (forall column :: column !in given && column in schema.defaults ==>
          column in f && f[column] == schema.defaults[column])
    && (forall column :: column in f ==> column in given || column in schema.defaults)
  }

  /** Complete once the defaults are filled in. */
  predicate CompleteOnceFilled(schema: Schema, given: Fields) {
    forall column :: column in schema.required ==>
      if column in given then schema.validator(column, given[column]) else Good(schema, schema.defaults, column)
  }

  lemma FilledInComplete(schema: Schema, given: Fields, f: Fields)
    requires FilledIn(schema, given, f)
    ensures CompleteFields(schema, f) <==> CompleteOnceFilled(schema, given)
  {
    forall column | column in schema.required
      ensures Good(schema, f, column) <==>
              if column in given then schema.validator(column, given[column]) else Good(schema, schema.defaults, column)
    {
    }
  }

  lemma DefaultsFillIn(schema: Schema, given: Fields)
    ensures FilledIn(schema, given, Defaulted(schema, given))
  {
  }

  /** What the hooks of one builder do with its mutation, from the outside in, up to the first that
      does not forward. */
  function ActsOf(hooks: seq<Hook>, f: Fields): seq<Act> {
    if hooks == [] then []
    else
      var act := hooks[0](f);
      if act.Reply? then [act] else [act] + ActsOf(hooks[1..], act.fields)
  }

  /** The fields the mutation holds when it reaches the innermost mutator of its builder. */
  function Edited(hooks: seq<Hook>, f: Fields): Fields {
    if hooks == [] then f
    else
      var act := hooks[0](f);
      if act.Reply? then f else Edited(hooks[1..], act.fields)
  }

  /** Some hook does not forward. */
  predicate Stops(acts: seq<Act>) { exists k :: 0 <= k < |acts| && acts[k].Reply? }

  /** What the outermost hook answers when the innermost mutator answers `inner`. */
  function HookAnswer(acts: seq<Act>, inner: Option<Error>): Option<Error> {
    if acts == [] then inner
    else match acts[0]
      case Forward(_, answer) => answer(HookAnswer(acts[1..], inner))
      case Reply(result) => result
  }

  /** A mutator as its caller sees it: from the fields it is given to its answer. */
  type Mutator = Fields -> Option<Error>

  /** The mutator that a hook makes of the one it wraps. */
  function Wrap(hook: Hook): Mutator -> Mutator {
    (inner: Mutator) => (f: Fields) =>
      match hook(f)
      case Forward(g, answer) => answer(inner(g))
      case Reply(result) => result
  }

  function WrapAll(hooks: seq<Hook>): seq<Mutator -> Mutator> {
    if hooks == [] then [] else [Wrap(hooks[0])] + WrapAll(hooks[1..])
  }

  /** Running the hooks of a builder from the outside in is calling the composition that the wrapping
      loop builds around the innermost mutator, as for a single create. */
  lemma {:induction false} HooksCompose(hooks: seq<Hook>, f: Fields, inner: Mutator)
    ensures Hooks.Compose(WrapAll(hooks), inner)(f) == HookAnswer(ActsOf(hooks, f), inner(Edited(hooks, f)))
  {
    if hooks != [] {
      assert WrapAll(hooks)[1..] == WrapAll(hooks[1..]);
      var act := hooks[0](f);
      if act.Forward? {
        HooksCompose(hooks[1..], act.fields, inner);
        assert ActsOf(hooks, f)[1..] == ActsOf(hooks[1..], act.fields);
      }
    }
  }

  /** The immutable part of one Save: for each builder what its hooks do, the fields it will hold at
      the innermost mutator, and its chosen id. */
  datatype Plan = Plan(
    schema: Schema,
    acts: seq<seq<Act>>,
    fields: seq<Fields>,
    chosen: seq<Option<int>>,
    verdict: Verdict)
  {
    predicate Shaped() { |acts| == |fields| == |chosen| }

    /** If there is a builder i, its hooks all forward. */
    predicate Opens(i: nat)
      requires Shaped()
    { i < |fields| ==> !Stops(acts[i]) }

    predicate Passes(i: nat)
      requires Shaped() && i < |fields|
    { !Stops(acts[i]) && Check(schema, fields[i]).None? }

    predicate Reaches(i: nat)
      requires Shaped()
    { forall j :: i <= j < |fields| ==> Passes(j) }

    predicate Inserts()
      requires Shaped()
    { Reaches(0) && verdict.Accept? }

    /** The outermost hook of builder k is invoked. */
    predicate Reached(k: nat)
      requires Shaped() && k < |fields|
    { forall j :: 0 <= j < k ==> Passes(j) }

    /** Builder k gets past its check. */
    predicate Entered(k: nat)
      requires Shaped() && k < |fields|
    { forall j :: 0 <= j <= k ==> Passes(j) }

    /** The same, once the innermost mutator of builder i is running. */
    predicate EnteredFrom(i: nat, k: nat)
      requires Shaped() && i <= k < |fields|
    { Check(schema, fields[i]).None? && forall j :: i < j <= k ==> Passes(j) }

    /** From the innermost mutator of builder i the chain goes on to the insert. */
    predicate ReachesCore(i: nat)
      requires Shaped() && i <= |fields|
    { (i < |fields| ==> Check(schema, fields[i]).None?) && Reaches(i + 1) }

    /** What the innermost mutator of builder i answers. */
    function CoreAnswer(i: nat): Option<Error>
      requires Shaped() && i < |fields|
      decreases |fields| - i
    {
      if Check(schema, fields[i]).Some? then Check(schema, fields[i])
      else if i + 1 < |fields| then HookAnswer(acts[i+1], CoreAnswer(i+1))
      else DbAnswer(verdict)
    }

    function Answer(): Option<Error>
      requires Shaped()
    { if |fields| == 0 then None else HookAnswer(acts[0], CoreAnswer(0)) }

    /** Builder k's mutation ends up `done`: what it called answered success. */
    predicate Done(k: nat)
      requires Shaped() && k < |fields|
    { Entered(k) && CoreAnswer(k).None? }

    /** The hooks of builder k answer success exactly when what they wrap ran and did so. */
    predicate Faithful(k: nat)
      requires Shaped() && k < |fields|
    { HookAnswer(acts[k], CoreAnswer(k)).None? <==> !Stops(acts[k]) && CoreAnswer(k).None? }

    function SpecId(k: nat): Option<int>
      requires Shaped() && k < |fields|
    { if schema.callerIds then chosen[k] else None }

    function SpecOf(k: nat): Spec
      requires Shaped() && k < |fields|
    { Spec(fields[k], SpecId(k)) }

    function Filled(base: int, k: nat): Spec
      requires Shaped() && k < |fields|
    { SpecOf(k).(id := Some(RowId(SpecOf(k), base, k))) }

    /** The id a done mutation has: that of its row, or without a row the chosen one or zero. */
    function FinalId(base: int, k: nat, inserted: bool): int
      requires Shaped() && k < |fields|
    {
      if inserted then RowId(SpecOf(k), base, k) else if SpecId(k).Some? then SpecId(k).value else 0
    }

    function Specs(): (r: seq<Spec>)
      requires Shaped()
      ensures |r| == |fields|
      ensures forall k :: 0 <= k < |r| ==> r[k] == SpecOf(k)
    { seq(|fields|, k requires 0 <= k < |fields| => SpecOf(k)) }
  }

  lemma StopsCons(acts: seq<Act>)
    requires acts != []
    ensures Stops(acts) <==> acts[0].Reply? || Stops(acts[1..])
  {
    if Stops(acts) && !acts[0].Reply? {
      var k :| 0 <= k < |acts| && acts[k].Reply?;
      assert acts[1..][k-1].Reply?;
    }
    if Stops(acts[1..]) {
      var k :| 0 <= k < |acts[1..]| && acts[1..][k].Reply?;
      assert acts[k+1].Reply?;
    }
  }

  /** A hook that hands on the fields as it was given them, if it forwards. */
  ghost predicate KeepsFields(hook: Hook) { forall f :: hook(f).Forward? ==> hook(f).fields == f }

  ghost predicate AllKeepFields(hooks: seq<Hook>) { forall k :: 0 <= k < |hooks| ==> KeepsFields(hooks[k]) }

  lemma {:induction false} FieldsAreKept(hooks: seq<Hook>, f: Fields)
    requires AllKeepFields(hooks)
    ensures Edited(hooks, f) == f
  {
    if hooks != [] {
      assert KeepsFields(hooks[0]);
      if hooks[0](f).Forward? {
        FieldsAreKept(hooks[1..], f);
      }
    }
  }

  // ---------- hooks that do not lie about the outcome ----------

  /** Answers success exactly when what it wraps did, or refuses. */
  ghost predicate HonestAct(act: Act) {
    match act
    case Forward(_, answer) => forall e :: answer(e).None? <==> e.None?
    case Reply(result) => result.Some?
  }

  ghost predicate HonestActs(acts: seq<Act>) { forall k :: 0 <= k < |acts| ==> HonestAct(acts[k]) }

  /** Honest whatever the mutation holds. */
  ghost predicate Honest(hook: Hook) { forall f :: HonestAct(hook(f)) }

  ghost predicate AllHonest(hooks: seq<Hook>) { forall k :: 0 <= k < |hooks| ==> Honest(hooks[k]) }

  lemma {:induction false} ActsAreHonest(hooks: seq<Hook>, f: Fields)
    requires AllHonest(hooks)
    ensures HonestActs(ActsOf(hooks, f))
  {
    if hooks != [] {
      var act := hooks[0](f);
      assert HonestAct(act);
      if act.Forward? {
        ActsAreHonest(hooks[1..], act.fields);
      }
    }
  }

  lemma {:induction false} HookAnswerMeaning(acts: seq<Act>, inner: Option<Error>)
    requires HonestActs(acts)
    ensures HookAnswer(acts, inner).None? <==> inner.None? && !Stops(acts)
  {
    if acts != [] {
      HookAnswerMeaning(acts[1..], inner);
      StopsCons(acts);
      assert HonestAct(acts[0]);
    }
  }

  // ---------- all or nothing ----------

  /** If the hooks of the builders after i are faithful, the innermost mutator of builder i succeeds
      exactly when the insert happens. */
  lemma {:induction false} CoreAnswerMeaning(p: Plan, i: nat)
    requires p.Shaped() && i < |p.fields| && p.Entered(i)
    requires forall j :: i < j < |p.fields| && p.Reached(j) ==> p.Faithful(j)
    ensures p.CoreAnswer(i).None? <==> p.Inserts()
    decreases |p.fields| - i
  {
    assert p.Passes(i);
    if i + 1 == |p.fields| {
      assert p.Reaches(0);
    } else {
      assert p.Reached(i + 1) && p.Faithful(i + 1);
      if p.Passes(i + 1) {
        assert p.Entered(i + 1);
        CoreAnswerMeaning(p, i + 1);
      } else {
        assert !p.Reaches(0);
      }
    }
  }

  /** Either every mutation is done and Save succeeds, or none is, nothing is inserted and Save
      fails. */
  predicate AllOrNothing(p: Plan)
    requires p.Shaped()
  {
    || (p.Inserts() && p.Answer().None? && forall k :: 0 <= k < |p.fields| ==> p.Done(k))
    || (!p.Inserts() && p.Answer().Some? && forall k :: 0 <= k < |p.fields| ==> !p.Done(k))
  }

  /** The exact condition: a Save with any hooks is all-or-nothing precisely when the hooks of every
      builder it comes to are faithful. */
  lemma AllOrNothingExactly(p: Plan)
    requires p.Shaped() && |p.fields| > 0
    ensures AllOrNothing(p) <==> forall k :: 0 <= k < |p.fields| && p.Reached(k) ==> p.Faithful(k)
  {
    if forall k :: 0 <= k < |p.fields| && p.Reached(k) ==> p.Faithful(k) {
      assert p.Reached(0) && p.Faithful(0);
      assert p.Passes(0) ==> p.Entered(0);
      forall k | 0 <= k < |p.fields| && p.Entered(k)
        ensures p.Done(k) <==> p.Inserts()
        ensures p.Answer().None? <==> p.Inserts()
      {
        CoreAnswerMeaning(p, k);
        CoreAnswerMeaning(p, 0);
      }
      assert p.Inserts() ==> forall k :: 0 <= k < |p.fields| ==> p.Entered(k);
    }
    if AllOrNothing(p) {
      forall k | 0 <= k < |p.fields| && p.Reached(k)
        ensures p.Faithful(k)
      {
        if k > 0 {
          assert p.Passes(k - 1) && p.Entered(k - 1);
          assert p.Done(k - 1) <==> p.Inserts();
        }
        assert p.Entered(k) <==> p.Passes(k);
        assert p.Done(k) <==> p.Inserts();
        assert p.Inserts() ==> p.Passes(k);
      }
    }
  }

  /** With honest hooks Save succeeds exactly when the rows went in, and is all-or-nothing. */
  lemma AnswerMeaning(p: Plan)
    requires p.Shaped() && |p.fields| > 0
    requires forall i :: 0 <= i < |p.fields| ==> HonestActs(p.acts[i])
    ensures p.Answer().None? <==> p.Inserts()
    ensures AllOrNothing(p)
  {
    forall k | 0 <= k < |p.fields|
      ensures p.Faithful(k)
    {
      HookAnswerMeaning(p.acts[k], p.CoreAnswer(k));
    }
    AllOrNothingExactly(p);
  }

  /** The plan of a Save of builders with these hooks, given fields and chosen ids. */
  function PlanFor(
    schema: Schema, hooks: seq<seq<Hook>>, given: seq<Fields>, chosen: seq<Option<int>>, verdict: Verdict): (p: Plan)
    requires |hooks| == |given| == |chosen|
    ensures p.Shaped()
  {
    Plan(schema,
         seq(|hooks|, k requires 0 <= k < |hooks| => ActsOf(hooks[k], Defaulted(schema, given[k]))),
         seq(|hooks|, k requires 0 <= k < |hooks| => Edited(hooks[k], Defaulted(schema, given[k]))),
         chosen, verdict)
  }

  /** Every hook is `hook` or honest. */
  ghost predicate OthersHonest(hooks: seq<seq<Hook>>, hook: Hook) {
    forall i, k :: 0 <= i < |hooks| && 0 <= k < |hooks[i]| ==> hooks[i][k] == hook || Honest(hooks[i][k])
  }

  /** Every Save that uses this hook beside honest ones is all-or-nothing. */
  ghost predicate Trusted(hook: Hook) {
    forall schema, hooks, given, chosen, verdict ::
      |hooks| == |given| == |chosen| && |hooks| > 0 && OthersHonest(hooks, hook) ==>
        AllOrNothing(PlanFor(schema, hooks, given, chosen, verdict))
  }

  /** The exact condition on hooks alone: one can be used beside honest hooks if and only if it is
      honest itself. */
  lemma HonestExactly(hook: Hook)
    ensures Trusted(hook) <==> Honest(hook)
  {
    if Honest(hook) {
      forall schema, hooks: seq<seq<Hook>>, given: seq<Fields>, chosen: seq<Option<int>>, verdict |
        |hooks| == |given| == |chosen| && |hooks| > 0 && OthersHonest(hooks, hook)
        ensures AllOrNothing(PlanFor(schema, hooks, given, chosen, verdict))
      {
        forall i | 0 <= i < |hooks|
          ensures HonestActs(ActsOf(hooks[i], Defaulted(schema, given[i])))
        {
          ActsAreHonest(hooks[i], Defaulted(schema, given[i]));
        }
        AnswerMeaning(PlanFor(schema, hooks, given, chosen, verdict));
      }
    } else {
      var f :| !HonestAct(hook(f));
      DishonestBreaksIt(hook, f);
    }
  }

  /** A hook that is dishonest about one mutation: alone it reports an error for a row that is in,
      or success for one that is not; or it hides the error of a hook inside it. */
  lemma DishonestBreaksIt(hook: Hook, f: Fields)
    requires !HonestAct(hook(f))
    ensures !Trusted(hook)
  {
    var schema := Schema([], map[], (_, _) => true, false);
    assert Defaulted(schema, f) == f;
    var act := hook(f);
    var hooks := [hook];
    if act.Forward? && act.answer(None).None? {
      var e: Option<Error> :| e.Some? && act.answer(e).None?;
      var veto: Hook := (_: Fields) => Reply(e);
      assert Honest(veto);
      hooks := [hook, veto];
      VetoInside(hook, veto, f);
    } else {
      Alone(hook, f);
    }
    var p := PlanFor(schema, [hooks], [f], [None], Accept);
    assert p.acts[0] == ActsOf(hooks, f);
    assert OthersHonest([hooks], hook);
    assert !p.Faithful(0) && p.Reached(0);
    AllOrNothingExactly(p);
  }

  lemma Alone(hook: Hook, f: Fields)
    ensures ActsOf([hook], f) == [hook(f)]
    ensures Stops(ActsOf([hook], f)) <==> hook(f).Reply?
    ensures forall e :: HookAnswer(ActsOf([hook], f), e) == if hook(f).Reply? then hook(f).result else hook(f).answer(e)
  {
    var acts := ActsOf([hook], f);
    assert [hook][0] == hook && [hook][1..] == [];
    assert hook(f).Forward? ==> ActsOf([], hook(f).fields) == [];
    assert acts == [hook(f)];
    assert acts[1..] == [];
    StopsCons(acts);
  }

  /** A single hook that forwards the fields it was given. */
  lemma OneForward(hook: Hook, f: Fields)
    requires hook(f).Forward? && hook(f).fields == f
    ensures Edited([hook], f) == f && !Stops(ActsOf([hook], f))
    ensures forall e :: HookAnswer(ActsOf([hook], f), e) == hook(f).answer(e)
  {
    Alone(hook, f);
    assert [hook][0] == hook && [hook][1..] == [];
    assert Edited([], f) == f;
  }

  lemma VetoInside(hook: Hook, veto: Hook, f: Fields)
    requires hook(f).Forward? && veto(hook(f).fields).Reply?
    ensures Stops(ActsOf([hook, veto], f))
    ensures forall e :: HookAnswer(ActsOf([hook, veto], f), e) == hook(f).answer(veto(hook(f).fields).result)
  {
    var acts := ActsOf([hook, veto], f);
    Alone(veto, hook(f).fields);
    assert [hook, veto][1..] == [veto];
    assert acts == [hook(f)] + ActsOf([veto], hook(f).fields) && acts[1..] == ActsOf([veto], hook(f).fields);
    StopsCons(acts);
  }

  /** A late failure leaves rows behind and reports an error: one builder, one hook that forwards
      and then reports an error all the same. */
  lemma LateFailureBreaksIt(schema: Schema, f: Fields)
    requires Check(schema, Defaulted(schema, f)).None?
    ensures var hook := (g: Fields) => Forward(g, _ => Some(Hooked(7)));
            var p := PlanFor(schema, [[hook]], [f], [None], Accept);
            p.Inserts() && p.Answer() == Some(Hooked(7)) && p.Done(0) && !AllOrNothing(p)
  {
    var hook := (g: Fields) => Forward(g, _ => Some(Hooked(7)));
    var p := PlanFor(schema, [[hook]], [f], [None], Accept);
    OneForward(hook, Defaulted(schema, f));
    assert p.Passes(0);
  }

  /** A hook that hides the error of what it wraps leaves mutations done that have no row: two
      builders, the second of which fails its check behind such a hook. */
  lemma SwallowedErrorBreaksIt(schema: Schema, f: Fields, g: Fields)
    requires Check(schema, Defaulted(schema, f)).None? && Check(schema, Defaulted(schema, g)).Some?
    ensures var hook := (h: Fields) => Forward(h, _ => None);
            var p := PlanFor(schema, [[], [hook]], [f, g], [None, None], Accept);
            !p.Inserts() && p.Answer().None? && p.Done(0) && !p.Done(1)
  {
    var hook := (h: Fields) => Forward(h, _ => None);
    var p := PlanFor(schema, [[], [hook]], [f, g], [None, None], Accept);
    OneForward(hook, Defaulted(schema, g));
    assert p.acts[0] == [] && p.fields[0] == Defaulted(schema, f);
    assert !p.Passes(1) && p.Passes(0);
  }

  // ---------- the chain itself ----------

  class Bulk {
    const schema: Schema
    const builders: seq<Builder>
    const driver: Driver
    const err: Option<Error>

    constructor (schema: Schema, builders: seq<Builder>, driver: Driver, err: Option<Error>)
      ensures this.schema == schema && this.builders == builders && this.driver == driver && this.err == err
    {
      this.schema, this.builders, this.driver, this.err := schema, builders, driver, err;
    }

    ghost predicate Distinct() {
      forall j, k :: 0 <= j < k < |builders| ==> builders[j].mutation != builders[k].mutation
    }

    ghost function Mutations(i: nat): set<object> {
      set j | i <= j < |builders| :: builders[j].mutation
    }

    ghost predicate Follows(p: Plan) {
      && p.Shaped() && |p.fields| == |builders|
      && p.schema == schema && p.verdict == driver.verdict
      && forall j :: 0 <= j < |builders| ==> p.chosen[j] == builders[j].mutation.chosen
    }

    /** Builder j's mutation is as it was when the plan was made. */
    ghost predicate Prepared(p: Plan, j: nat)
      requires p.Shaped() && j < |builders| == |p.fields|
      reads builders[j].mutation
    {
      var Builder(mutation, hooks) := builders[j];
      p.acts[j] == ActsOf(hooks, mutation.fields) && p.fields[j] == Edited(hooks, mutation.fields)
    }

    /** Builder j's mutation does not have its defaults yet. */
    ghost predicate Planned(p: Plan, j: nat)
      requires p.Shaped() && j < |builders| == |p.fields|
      reads builders[j].mutation
    {
      var Builder(mutation, hooks) := builders[j];
      var f := Defaulted(schema, mutation.fields);
      p.acts[j] == ActsOf(hooks, f) && p.fields[j] == Edited(hooks, f)
    }

    /** What holds when the chain is about to enter the mutators of builder i, whose remaining
        hooks are `hooks`. */
    ghost predicate Ready(p: Plan, i: nat, hooks: seq<Hook>, specs: array<Spec>, nodes: array<Node?>)
      reads specs, nodes, Mutations(i)
    {
      && Distinct() && Follows(p)
      && specs.Length == nodes.Length == |builders| && i < |builders|
      && (forall j :: 0 <= j < i ==> specs[j] == p.SpecOf(j))
      && (forall j :: i <= j < |builders| ==> !builders[j].mutation.done && nodes[j] == null)
      && Edited(hooks, builders[i].mutation.fields) == p.fields[i]
      && (forall j :: i < j < |builders| ==> Prepared(p, j))
    }

    /** Mutation k is done, and its id is the id of node k, which after an insert is that of row k. */
    ghost predicate Marked(p: Plan, k: nat, base: int, inserted: bool, nodes: array<Node?>)
      requires Follows(p) && nodes.Length == |builders| && k < |builders|
      reads nodes, nodes[k], builders[k].mutation
    {
      && builders[k].mutation.done
      && nodes[k] != null && builders[k].mutation.idOf == nodes[k]
      && nodes[k].fields == p.fields[k]
      && nodes[k].id == p.FinalId(base, k, inserted)
    }

    /** What the mutators from builder i on leave behind, given the driver's state before and whether
        the hooks of builder i let the chain `into` its innermost mutator. */
    ghost predicate Outcome(p: Plan, i: nat, into: bool, rows: seq<Row>, calls: nat, base: int,
                            specs: array<Spec>, nodes: array<Node?>)
      requires Follows(p) && specs.Length == nodes.Length == |builders| && i <= |builders|
      reads specs, nodes, nodes[..], driver, Mutations(i)
    {
      var reached := into && p.ReachesCore(i);
      var ok := reached && p.verdict.Accept?;
      && driver.calls == (if reached then calls + 1 else calls)
      && driver.rows == (if ok then rows + RowsOf(p.Specs(), base) else rows)
      && (ok ==> forall j :: 0 <= j < |builders| ==> specs[j] == p.Filled(base, j))
      && (!ok ==> forall j :: 0 <= j < i ==> specs[j] == p.SpecOf(j))
      && (forall j :: i <= j < |builders| ==> (nodes[j] != null <==> into && p.EnteredFrom(i, j)))
      && (forall j :: i <= j < |builders| ==>
            builders[j].mutation.done == (into && p.EnteredFrom(i, j) && p.CoreAnswer(j).None?))
      && (forall j :: i <= j < |builders| && builders[j].mutation.done ==> Marked(p, j, base, ok, nodes))
    }

    /** Runs the hooks of builder i from the outside in, then its innermost mutator. */
    method RunHooks(ghost p: Plan, i: nat, hooks: seq<Hook>, ghost acts: seq<Act>,
                    specs: array<Spec>, nodes: array<Node?>)
      returns (err: Option<Error>)
      requires Ready(p, i, hooks, specs, nodes) && acts == ActsOf(hooks, builders[i].mutation.fields)
      modifies Mutations(i), specs, nodes, driver
      ensures err == HookAnswer(acts, p.CoreAnswer(i))
      ensures Outcome(p, i, !Stops(acts), old(driver.rows), old(driver.calls), old(driver.serial), specs, nodes)
      ensures forall j :: i <= j < |builders| && nodes[j] != null ==> fresh(nodes[j])
      ensures forall j :: 0 <= j < i ==> nodes[j] == old(nodes[j])
      decreases |builders| - i, |hooks| + 2
    {
      if hooks == [] {
        err := Core(p, i, specs, nodes);
      } else {
        StopsCons(acts);
        var act := hooks[0](builders[i].mutation.fields);
        if act.Reply? {
          return act.result;
        }
        assert acts[1..] == ActsOf(hooks[1..], act.fields);
        builders[i].mutation.fields := act.fields;
        var inner := RunHooks(p, i, hooks[1..], acts[1..], specs, nodes);
        err := act.answer(inner);
      }
    }

    /** What the innermost mutator of builder i calls: the mutator of the next builder, or the
        batch insert when there is none. */
    method Below(ghost p: Plan, i: nat, specs: array<Spec>, nodes: array<Node?>)
      returns (err: Option<Error>)
      requires Distinct() && Follows(p) && specs.Length == nodes.Length == |builders| && i < |builders|
      requires forall j :: 0 <= j <= i ==> specs[j] == p.SpecOf(j)
      requires forall j :: i < j < |builders| ==>
                 !builders[j].mutation.done && nodes[j] == null && Prepared(p, j)
      requires Check(schema, p.fields[i]).None?
      modifies Mutations(i + 1), specs, nodes, driver
      ensures err == p.CoreAnswer(i)
      ensures Outcome(p, i + 1, p.Opens(i + 1), old(driver.rows), old(driver.calls), old(driver.serial), specs, nodes)
      ensures forall j :: i < j < |builders| && nodes[j] != null ==> fresh(nodes[j])
      ensures forall j :: 0 <= j <= i ==> nodes[j] == old(nodes[j])
      decreases |builders| - i, 0
    {
      if i + 1 < |builders| {
        err := RunHooks(p, i + 1, builders[i+1].hooks, p.acts[i+1], specs, nodes);
      } else {
        assert specs[..] == p.Specs();
        err := driver.BatchCreate(specs);
      }
    }

    /** The innermost mutator of builder i. */
    method Core(ghost p: Plan, i: nat, specs: array<Spec>, nodes: array<Node?>)
      returns (err: Option<Error>)
      requires Ready(p, i, [], specs, nodes)
      modifies Mutations(i), specs, nodes, driver
      ensures err == p.CoreAnswer(i)
      ensures Outcome(p, i, true, old(driver.rows), old(driver.calls), old(driver.serial), specs, nodes)
      ensures forall j :: i <= j < |builders| && nodes[j] != null ==> fresh(nodes[j])
      ensures forall j :: 0 <= j < i ==> nodes[j] == old(nodes[j])
      decreases |builders| - i, 1
    {
      assert builders[i].mutation.fields == p.fields[i];
      err := Check(schema, builders[i].mutation.fields);
      if err.Some? {
        return;
      }
      var node := CreateSpec(p, i, specs, nodes);
      ghost var base := driver.serial;
      err := Below(p, i, specs, nodes);
      if err.None? {
        WriteBack(p, i, old(driver.rows), old(driver.calls), base, node, specs, nodes);
      }
      CoreOutcome(p, i, old(driver.rows), old(driver.calls), base, specs, nodes);
    }

    /** The chain below builder i and builder i itself make up the chain from builder i. */
    lemma CoreOutcome(p: Plan, i: nat, rows: seq<Row>, calls: nat, base: int, specs: array<Spec>, nodes: array<Node?>)
      requires Follows(p) && specs.Length == nodes.Length == |builders| && i < |builders|
      requires Check(schema, p.fields[i]).None? && nodes[i] != null
      requires Outcome(p, i + 1, p.Opens(i + 1), rows, calls, base, specs, nodes)
      requires builders[i].mutation.done == p.CoreAnswer(i).None?
      requires builders[i].mutation.done ==>
                 Marked(p, i, base, p.Opens(i + 1) && p.ReachesCore(i + 1) && p.verdict.Accept?, nodes)
      ensures Outcome(p, i, true, rows, calls, base, specs, nodes)
    {
      EnteredUnfold(p, i);
      var ok := p.ReachesCore(i) && p.verdict.Accept?;
      forall j | i <= j < |builders|
        ensures nodes[j] != null <==> p.EnteredFrom(i, j)
        ensures builders[j].mutation.done == (p.EnteredFrom(i, j) && p.CoreAnswer(j).None?)
        ensures builders[j].mutation.done ==> Marked(p, j, base, ok, nodes)
      {
        if j > i {
          assert p.EnteredFrom(i, j) <==> p.Opens(i + 1) && p.EnteredFrom(i + 1, j);
        }
      }
    }

    /** The node and the spec of builder i. */
    method CreateSpec(ghost p: Plan, i: nat, specs: array<Spec>, nodes: array<Node?>) returns (node: Node)
      requires Follows(p) && specs.Length == nodes.Length == |builders| && i < |builders|
      requires builders[i].mutation.fields == p.fields[i]
      modifies specs, nodes
      ensures fresh(node) && node.fields == p.fields[i]
      ensures node.id == if schema.callerIds && p.chosen[i].Some? then p.chosen[i].value else 0
      ensures specs[i] == p.SpecOf(i) && forall j :: 0 <= j < |builders| && j != i ==> specs[j] == old(specs[j])
      ensures nodes[i] == node && forall j :: 0 <= j < |builders| && j != i ==> nodes[j] == old(nodes[j])
    {
      var m := builders[i].mutation;
      node := new Node(m.fields, if schema.callerIds && m.chosen.Some? then m.chosen.value else 0);
      nodes[i], specs[i] := node, Spec(m.fields, if schema.callerIds then m.chosen else None);
    }

    /** When what builder i called has succeeded: its id and its `done` flag. */
    method WriteBack(ghost p: Plan, i: nat, ghost rows: seq<Row>, ghost calls: nat, ghost base: int,
                     node: Node, specs: array<Spec>, nodes: array<Node?>)
      requires Distinct() && Follows(p) && specs.Length == nodes.Length == |builders| && i < |builders|
      requires Outcome(p, i + 1, p.Opens(i + 1), rows, calls, base, specs, nodes)
      requires nodes[i] == node && node.fields == p.fields[i]
      requires node.id == if schema.callerIds && p.chosen[i].Some? then p.chosen[i].value else 0
      requires forall j :: i < j < |builders| ==> nodes[j] != node
      modifies builders[i].mutation, node
      ensures Outcome(p, i + 1, p.Opens(i + 1), rows, calls, base, specs, nodes)
      ensures Marked(p, i, base, p.Opens(i + 1) && p.ReachesCore(i + 1) && p.verdict.Accept?, nodes)
    {
      var m := builders[i].mutation;
      m.idOf := node;
      if specs[i].id.Some? && (!schema.callerIds || node.id == 0) {
        node.id := specs[i].id.value;
      }
      m.done := true;
      ghost var ok := p.Opens(i + 1) && p.ReachesCore(i + 1) && p.verdict.Accept?;
      forall j | i < j < |builders| && builders[j].mutation.done
        ensures Marked(p, j, base, ok, nodes)
      {
        assert old(Marked(p, j, base, ok, nodes));
      }
    }

    /** The plan of a Save started now. */
    ghost function InitialPlan(): (p: Plan)
      reads Mutations(0)
      ensures Follows(p) && PlannedFor(p, Given()) && forall k :: 0 <= k < |builders| ==> Planned(p, k)
    {
      assert forall k :: 0 <= k < |builders| ==> builders[k].mutation in Mutations(0);
      PlanFor(schema,
              seq(|builders|, k requires 0 <= k < |builders| => builders[k].hooks),
              Given(),
              seq(|builders|, k requires 0 <= k < |builders| => builders[k].mutation.chosen),
              driver.verdict)
    }

    /** Creates all entities.  The builders have not been saved before and own their mutations. */
    method Save() returns (saved: seq<Node?>, err: Option<Error>)
      requires Distinct()
      requires forall j :: 0 <= j < |builders| ==> !builders[j].mutation.done
      modifies Mutations(0), driver
      ensures this.err.Some? ==> err == this.err && saved == [] && unchanged(Mutations(0)) && unchanged(driver)
      ensures this.err.None? ==>
                Ran(old(InitialPlan()), old(driver.rows), old(driver.calls), old(driver.serial), saved, err)
      ensures this.err.None? ==> AddedFit(old(driver.rows), old(Given()))
      ensures this.err.None? && |builders| > 0 && (forall k :: 0 <= k < |builders| ==> builders[k].hooks == []) ==>
                (err.None? <==> driver.verdict.Accept? && AllComplete(old(Given())))
                && (err.Some? ==> IsError(old(Given()), err.value))
      // All or nothing, when every hook is honest.
      ensures this.err.None? && (forall k :: 0 <= k < |builders| ==> AllHonest(builders[k].hooks)) ==>
                || (err.None? && |driver.rows| == |old(driver.rows)| + |builders|
                    && forall k :: 0 <= k < |builders| ==> builders[k].mutation.done && saved[k] != null)
                || (err.Some? && driver.rows == old(driver.rows)
                    && forall k :: 0 <= k < |builders| ==> !builders[k].mutation.done)
    {
      saved, err := [], this.err;
      if err.Some? {
        return;
      }
      ghost var p := InitialPlan();
      FillDefaults(p);
      if |builders| > 0 {
        saved, err := RunChain(p);
        AddedRowsFit(p, old(Given()), old(driver.rows), old(driver.calls), old(driver.serial), saved, err);
        if forall k :: 0 <= k < |builders| ==> builders[k].hooks == [] {
          HooklessAnswer(p, old(Given()));
        }
        if forall k :: 0 <= k < |builders| ==> AllHonest(builders[k].hooks) {
          forall k | 0 <= k < |builders|
            ensures HonestActs(p.acts[k])
          {
            ActsAreHonest(builders[k].hooks, Defaulted(schema, old(builders[k].mutation.fields)));
          }
          AnswerMeaning(p);
        }
      }
    }

    /** The fields the mutations hold. */
    ghost function Given(): (given: seq<Fields>)
      reads Mutations(0)
      ensures |given| == |builders| && forall k :: 0 <= k < |builders| ==> given[k] == builders[k].mutation.fields
    {
      assert forall k :: 0 <= k < |builders| ==> builders[k].mutation in Mutations(0);
      seq(|builders|, k requires 0 <= k < |builders| reads Mutations(0) => builders[k].mutation.fields)
    }

    /** The plan is that of mutations that hold these fields. */
    ghost predicate PlannedFor(p: Plan, given: seq<Fields>)
      requires Follows(p) && |given| == |builders|
    {
      forall k :: 0 <= k < |builders| ==>
        && p.acts[k] == ActsOf(builders[k].hooks, Defaulted(schema, given[k]))
        && p.fields[k] == Edited(builders[k].hooks, Defaulted(schema, given[k]))
    }

    /** The rows added to `rows`, if any, are one for each builder: complete, with the id the mutation
        ends up with, and unless a hook edits them with the caller's fields and the defaults for the
        rest. */
    ghost predicate AddedFit(rows: seq<Row>, given: seq<Fields>)
      requires |given| == |builders|
      reads driver, Mutations(0), set j | 0 <= j < |builders| :: builders[j].mutation.idOf
    {
      && rows <= driver.rows && (driver.rows == rows || |driver.rows| == |rows| + |builders|)
      && forall k :: 0 <= k < |driver.rows| - |rows| ==>
           var row, mutation := driver.rows[|rows| + k], builders[k].mutation;
           && CompleteFields(schema, row.fields)
           && (mutation.done ==> mutation.ID() == Some(row.id))
           && (schema.callerIds && mutation.chosen.Some? ==> row.id == mutation.chosen.value)
           && (AllKeepFields(builders[k].hooks) ==> FilledIn(schema, given[k], row.fields))
    }

    lemma AddedRowsFit(p: Plan, given: seq<Fields>, rows: seq<Row>, calls: nat, base: int, saved: seq<Node?>,
                       err: Option<Error>)
      requires Follows(p) && Ran(p, rows, calls, base, saved, err) && |builders| > 0
      requires |given| == |builders| && PlannedFor(p, given)
      ensures AddedFit(rows, given)
    {
      if p.Inserts() {
        forall k | 0 <= k < |builders|
          ensures CompleteFields(schema, p.fields[k])
          ensures AllKeepFields(builders[k].hooks) ==> FilledIn(schema, given[k], p.fields[k])
        {
          PlannedFields(p, builders[k].hooks, given[k], k);
        }
      }
    }

    lemma PlannedFields(p: Plan, hooks: seq<Hook>, given: Fields, k: nat)
      requires p.Shaped() && p.schema == schema && k < |p.fields| && p.Inserts()
      requires p.fields[k] == Edited(hooks, Defaulted(schema, given))
      ensures CompleteFields(schema, p.fields[k])
      ensures AllKeepFields(hooks) ==> FilledIn(schema, given, p.fields[k])
    {
      CheckMeaning(schema, p.fields[k]);
      assert p.Passes(k);
      if AllKeepFields(hooks) {
        FieldsAreKept(hooks, Defaulted(schema, given));
      }
      DefaultsFillIn(schema, given);
    }

    /** Every builder's fields are complete once the defaults are filled in. */
    ghost predicate AllComplete(given: seq<Fields>) {
      forall k :: 0 <= k < |given| ==> CompleteOnceFilled(schema, given[k])
    }

    /** The error of a Save without hooks: about the first bad column of the first incomplete builder,
        or the answer of the database. */
    ghost predicate IsError(given: seq<Fields>, error: Error) {
      if AllComplete(given) then error == if driver.verdict.Violates? then Constraint else Refused
      else
        exists k, f :: 0 <= k < |given| && !CompleteOnceFilled(schema, given[k])
                       && (forall j :: 0 <= j < k ==> CompleteOnceFilled(schema, given[j]))
                       && FilledIn(schema, given[k], f) && Names(schema, f, error)
    }

    lemma HooklessAnswer(p: Plan, given: seq<Fields>)
      requires Follows(p) && |builders| > 0 && |given| == |builders| && PlannedFor(p, given)
      requires forall k :: 0 <= k < |builders| ==> builders[k].hooks == []
      ensures p.Answer().None? <==> p.verdict.Accept? && AllComplete(given)
      ensures p.Answer().Some? ==> IsError(given, p.Answer().value)
    {
      forall k | 0 <= k < |builders|
        ensures p.acts[k] == [] && p.fields[k] == Defaulted(schema, given[k])
        ensures Check(schema, p.fields[k]).None? <==> CompleteOnceFilled(schema, given[k])
        ensures Check(schema, p.fields[k]).Some? ==>
                  && FilledIn(schema, given[k], p.fields[k])
                  && Names(schema, p.fields[k], Check(schema, p.fields[k]).value)
      {
        CheckMeaning(schema, p.fields[k]);
        DefaultsFillIn(schema, given[k]);
        FilledInComplete(schema, given[k], p.fields[k]);
      }
      FirstCheck(p, 0);
    }

    /** Without hooks the answer is that of the first check that fails, or the database's. */
    lemma {:induction false} FirstCheck(p: Plan, i: nat)
      requires p.Shaped() && i < |p.fields|
      requires forall k :: 0 <= k < |p.fields| ==> p.acts[k] == []
      ensures if forall k :: i <= k < |p.fields| ==> Check(p.schema, p.fields[k]).None?
              then p.CoreAnswer(i) == DbAnswer(p.verdict)
              else exists k :: i <= k < |p.fields| && Check(p.schema, p.fields[k]).Some?
                               && (forall j :: i <= j < k ==> Check(p.schema, p.fields[j]).None?)
                               && p.CoreAnswer(i) == Check(p.schema, p.fields[k])
      decreases |p.fields| - i
    {
      if Check(p.schema, p.fields[i]).None? && i + 1 < |p.fields| {
        FirstCheck(p, i + 1);
      }
    }

    /** What a Save that ran the chain has left behind: the driver was called at most once, with all
        specs in builder order; the plan says which mutations are done, with the id of their row. */
    ghost predicate Ran(p: Plan, rows: seq<Row>, calls: nat, base: int, saved: seq<Node?>, err: Option<Error>)
      requires Follows(p)
      reads driver, Mutations(0), set j | 0 <= j < |builders| :: builders[j].mutation.idOf
    {
      && err == p.Answer()
      && driver.calls == (if |builders| > 0 && p.Reaches(0) then calls + 1 else calls)
      && driver.rows == (if p.Inserts() then rows + RowsOf(p.Specs(), base) else rows)
      && (forall k :: 0 <= k < |builders| ==> builders[k].mutation.done == p.Done(k))
      && (forall k :: 0 <= k < |builders| && p.Done(k) ==>
            builders[k].mutation.ID() == Some(p.FinalId(base, k, p.Inserts())))
      && |saved| == (if err.None? then |builders| else 0)
      && (forall k :: 0 <= k < |saved| ==> (saved[k] != null <==> p.Entered(k)))
      && (forall k :: 0 <= k < |saved| && p.Done(k) ==>
            saved[k] == builders[k].mutation.idOf && saved[k].fields == p.fields[k])
    }

    /** Enters the chain at the first builder. */
    method RunChain(ghost p: Plan) returns (saved: seq<Node?>, err: Option<Error>)
      requires Distinct() && Follows(p) && |builders| > 0
      requires forall j :: 0 <= j < |builders| ==> !builders[j].mutation.done && Prepared(p, j)
      modifies Mutations(0), driver
      ensures Ran(p, old(driver.rows), old(driver.calls), old(driver.serial), saved, err)
    {
      var specs := new Spec[|builders|](_ => Spec(map[], None));
      var nodes := new Node?[|builders|](_ => null);
      err := RunHooks(p, 0, builders[0].hooks, p.acts[0], specs, nodes);
      saved := if err.None? then nodes[..] else [];
      OutcomeRan(p, old(driver.rows), old(driver.calls), old(driver.serial), specs, nodes, saved, err);
    }

    lemma OutcomeRan(p: Plan, rows: seq<Row>, calls: nat, base: int, specs: array<Spec>, nodes: array<Node?>,
                     saved: seq<Node?>, err: Option<Error>)
      requires Follows(p) && specs.Length == nodes.Length == |builders| && |builders| > 0
      requires Outcome(p, 0, p.Opens(0), rows, calls, base, specs, nodes)
      requires err == p.Answer() && saved == if err.None? then nodes[..] else []
      ensures Ran(p, rows, calls, base, saved, err)
    {
      FirstEntered(p);
      DoneMarked(p, rows, calls, base, specs, nodes);
      assert driver.calls == (if p.Reaches(0) then calls + 1 else calls);
      assert driver.rows == (if p.Inserts() then rows + RowsOf(p.Specs(), base) else rows);
    }

    lemma DoneMarked(p: Plan, rows: seq<Row>, calls: nat, base: int, specs: array<Spec>, nodes: array<Node?>)
      requires Follows(p) && specs.Length == nodes.Length == |builders| && |builders| > 0
      requires Outcome(p, 0, p.Opens(0), rows, calls, base, specs, nodes)
      ensures forall k :: 0 <= k < |builders| ==>
                && builders[k].mutation.done == p.Done(k)
                && (nodes[k] != null <==> p.Entered(k))
                && (p.Done(k) ==> Marked(p, k, base, p.Inserts(), nodes))
    {
      FirstEntered(p);
    }

    /** `defaults` of every builder, before any mutator runs. */
    method FillDefaults(ghost p: Plan)
      requires Distinct() && Follows(p)
      requires forall j :: 0 <= j < |builders| ==> !builders[j].mutation.done && Planned(p, j)
      modifies Mutations(0)
      ensures forall j :: 0 <= j < |builders| ==> !builders[j].mutation.done && Prepared(p, j)
    {
      for i := 0 to |builders|
        invariant forall j :: 0 <= j < |builders| ==> !builders[j].mutation.done
        invariant forall j :: 0 <= j < i ==> Prepared(p, j)
        invariant forall j :: i <= j < |builders| ==> Planned(p, j)
      {
        label before:
        var m := builders[i].mutation;
        assert Planned(p, i);
        m.fields := Defaulted(schema, m.fields);
        assert Prepared(p, i);
        forall j | 0 <= j < |builders| && j != i
          ensures Prepared(p, j) == old@before(Prepared(p, j))
          ensures Planned(p, j) == old@before(Planned(p, j))
        {
          assert builders[j].mutation != m;
        }
      }
    }
  }

  lemma EnteredUnfold(p: Plan, i: nat)
    requires p.Shaped() && i < |p.fields| && Check(p.schema, p.fields[i]).None?
    ensures p.ReachesCore(i) <==> p.Opens(i + 1) && p.ReachesCore(i + 1)
    ensures forall j :: i < j < |p.fields| ==> (p.EnteredFrom(i, j) <==> p.Opens(i + 1) && p.EnteredFrom(i + 1, j))
  {
    if i + 1 < |p.fields| {
      assert p.Reaches(i + 1) <==> p.Passes(i + 1) && p.Reaches(i + 2);
    }
  }

  lemma FirstEntered(p: Plan)
    requires p.Shaped() && |p.fields| > 0
    ensures p.Reaches(0) <==> p.Opens(0) && p.ReachesCore(0)
    ensures forall k :: 0 <= k < |p.fields| ==> (p.Entered(k) <==> p.Opens(0) && p.EnteredFrom(0, k))
  {
    assert p.Reaches(0) <==> p.Passes(0) && p.Reaches(1);
  }
}
