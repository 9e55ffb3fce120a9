/** The mutation records that ent generates: per field a pending value and a pending increment (or
    list of appended items), and the set of cleared fields. */
module Mutation {
  import opened Wrappers
  import opened Decimal

  /** Values as the by-name interface passes them, with their dynamic type. */
  datatype Value = Int(n: Int64) | Wide(n: Int64) | List(items: seq<string>) | Unsupported

  /** Column names; the by-name interface may be given any name at all. */
  datatype Column = BotId | Counts | Prefixes | Params | Unknown(name: string)

  datatype Change = Set(value: Value) | Add(value: Value) | Clear | Reset

  datatype Op = Op(field: Column, change: Change)

  // ---------- the meaning of a sequence of calls ----------

  /** The pending value of a field, and what was added to it since. */
  datatype Pending = Pending(value: Option<Value>, added: seq<Value>)

  datatype Record = Record(fields: map<Column, Pending>, cleared: set<Column>) {
    function Get(field: Column): Pending { if field in fields then fields[field] else Pending(None, []) }
  }

  /** What a call leaves pending for its field. */
  function Next(p: Pending, change: Change): Pending {
    match change
    case Set(v) => Pending(Some(v), [])
    case Add(v) => p.(added := p.added + [v])
    case Clear => Pending(None, [])
    case Reset => Pending(None, [])
  }

  function Apply(r: Record, op: Op): Record {
    var cleared := match op.change
      case Clear => r.cleared + {op.field}
      case Reset => r.cleared - {op.field}
      case _ => r.cleared;
    Record(r.fields[op.field := Next(r.Get(op.field), op.change)], cleared)
  }

  function Run(ops: seq<Op>): Record {
    if ops == [] then Record(map[], {}) else Apply(Run(ops[..|ops| - 1]), ops[|ops| - 1])
  }

  /** A call that discards what was pending for the field. */
  predicate Settles(op: Op, field: Column) { op.field == field && !op.change.Add? }

  predicate UnsettledFrom(ops: seq<Op>, k: nat, field: Column) {
    forall j :: k <= j < |ops| ==> !Settles(ops[j], field)
  }

  /** The values added to the field, in order. */
  function Added(ops: seq<Op>, field: Column): seq<Value> {
    if ops == [] then []
    else
      var init, last := Added(ops[..|ops| - 1], field), ops[|ops| - 1];
      if last.field == field && last.change.Add? then init + [last.change.value] else init
  }

  /** Normal form, pending value: it is v exactly when some call set it to v and no later call for
      the field set, reset or cleared it. */
  lemma {:induction false} PendingSet(ops: seq<Op>, field: Column, v: Value)
    ensures Run(ops).Get(field).value == Some(v) <==>
            exists i :: 0 <= i < |ops| && ops[i] == Op(field, Set(v)) && UnsettledFrom(ops, i + 1, field)
  {
    if ops != [] {
      var n := |ops| - 1;
      var init, last := ops[..n], ops[n];
      PendingSet(init, field, v);
      if Run(ops).Get(field).value == Some(v) {
        if Settles(last, field) {
          assert ops[n] == Op(field, Set(v)) && UnsettledFrom(ops, n + 1, field);
        } else {
          var i :| 0 <= i < |init| && init[i] == Op(field, Set(v)) && UnsettledFrom(init, i + 1, field);
          assert forall j :: i < j < n ==> ops[j] == init[j];
          assert ops[i] == Op(field, Set(v)) && UnsettledFrom(ops, i + 1, field);
        }
      }
      if i :| 0 <= i < |ops| && ops[i] == Op(field, Set(v)) && UnsettledFrom(ops, i + 1, field) {
        if i < n {
          assert forall j :: i < j < n ==> init[j] == ops[j];
          assert init[i] == Op(field, Set(v)) && UnsettledFrom(init, i + 1, field);
        }
      }
    }
  }

  lemma AddedSnoc(ops: seq<Op>, op: Op, field: Column)
    ensures Added(ops + [op], field) ==
            if op.field == field && op.change.Add? then Added(ops, field) + [op.change.value] else Added(ops, field)
  {
    assert (ops + [op])[..|ops|] == ops;
  }

  /** Normal form, pending increment: the values added since the last call that settled the
      field, in order. */
  lemma {:induction false} PendingAdded(ops: seq<Op>, field: Column, k: nat)
    requires k <= |ops| && (k == 0 || Settles(ops[k-1], field)) && UnsettledFrom(ops, k, field)
    ensures Run(ops).Get(field).added == Added(ops[k..], field)
    decreases |ops|
  {
    if k == |ops| {
      assert ops[k..] == [];
    } else {
      var n := |ops| - 1;
      var init := ops[..n];
      assert forall j :: k <= j < n ==> init[j] == ops[j];
      assert k > 0 ==> init[k-1] == ops[k-1];
      PendingAdded(init, field, k);
      assert ops[k..] == init[k..] + [ops[n]];
      AddedSnoc(init[k..], ops[n], field);
      ApplyAdds(Run(init), ops[n], field);
    }
  }

  lemma ApplyAdds(r: Record, op: Op, field: Column)
    requires !Settles(op, field)
    ensures var before := r.Get(field).added;
            Apply(r, op).Get(field).added == if op.field == field then before + [op.change.value] else before
  {
  }

  /** Normal form, cleared fields: setting a field does not take it out of the cleared set; only a
      reset does. */
  lemma {:induction false} PendingCleared(ops: seq<Op>, field: Column)
    ensures field in Run(ops).cleared <==>
            exists i :: 0 <= i < |ops| && ops[i] == Op(field, Clear) && NoReset(ops, i + 1, field)
  {
    if ops != [] {
      var n := |ops| - 1;
      var init, last := ops[..n], ops[n];
      PendingCleared(init, field);
      if field in Run(ops).cleared {
        if last == Op(field, Clear) {
          assert NoReset(ops, n + 1, field);
        } else {
          var i :| 0 <= i < |init| && init[i] == Op(field, Clear) && NoReset(init, i + 1, field);
          assert forall j :: i < j < n ==> ops[j] == init[j];
          assert ops[i] == Op(field, Clear) && NoReset(ops, i + 1, field);
        }
      }
      if i :| 0 <= i < |ops| && ops[i] == Op(field, Clear) && NoReset(ops, i + 1, field) {
        if i < n {
          assert forall j :: i < j < n ==> init[j] == ops[j];
          assert init[i] == Op(field, Clear) && NoReset(init, i + 1, field);
        }
      }
    }
  }

  predicate NoReset(ops: seq<Op>, k: nat, field: Column) { forall j :: k <= j < |ops| ==> ops[j] != Op(field, Reset) }

  /** Something is pending to be added exactly when some Add was not followed by a call that settles
      the field. */
  lemma {:induction false} PendingAddedAny(ops: seq<Op>, field: Column)
    ensures Run(ops).Get(field).added != [] <==> exists j :: 0 <= j < |ops| && AddsLast(ops, j, field)
  {
    if ops != [] {
      var n := |ops| - 1;
      var init, last := ops[..n], ops[n];
      PendingAddedAny(init, field);
      if Run(ops).Get(field).added != [] {
        if last.field == field && last.change.Add? {
          assert AddsLast(ops, n, field);
        } else {
          var j :| 0 <= j < |init| && AddsLast(init, j, field);
          assert forall i :: j < i < n ==> ops[i] == init[i];
          assert AddsLast(ops, j, field);
        }
      }
      if j :| 0 <= j < |ops| && AddsLast(ops, j, field) {
        if j < n {
          assert forall i :: j < i < n ==> init[i] == ops[i];
          assert AddsLast(init, j, field);
        }
      }
    }
  }

  /** Call j adds to the field, and no later call settles it. */
  predicate AddsLast(ops: seq<Op>, j: nat, field: Column)
    requires j < |ops|
  {
    ops[j].field == field && ops[j].change.Add? && UnsettledFrom(ops, j + 1, field)
  }

  /** Call j sets the field, and no later call settles it. */
  predicate SetsLast(ops: seq<Op>, j: nat, field: Column)
    requires j < |ops|
  {
    ops[j].field == field && ops[j].change.Set? && UnsettledFrom(ops, j + 1, field)
  }

  /** Call i clears the field, and no later call resets it. */
  predicate ClearsLast(ops: seq<Op>, i: nat, field: Column)
    requires i < |ops|
  {
    ops[i] == Op(field, Clear) && NoReset(ops, i + 1, field)
  }

  /** Exactly when a field is both set and cleared: it was cleared, then set, not reset since the
      Clear, and not settled since the Set. */
  lemma SetAndClearedExactly(ops: seq<Op>, field: Column)
    ensures Run(ops).Get(field).value.Some? && field in Run(ops).cleared <==>
            exists i, j :: 0 <= i < j < |ops| && ClearsLast(ops, i, field) && SetsLast(ops, j, field)
  {
    PendingCleared(ops, field);
    if Run(ops).Get(field).value.Some? && field in Run(ops).cleared {
      var v := Run(ops).Get(field).value.value;
      PendingSet(ops, field, v);
      var i :| 0 <= i < |ops| && ops[i] == Op(field, Clear) && NoReset(ops, i + 1, field);
      var j :| 0 <= j < |ops| && ops[j] == Op(field, Set(v)) && UnsettledFrom(ops, j + 1, field);
      assert j < i ==> Settles(ops[i], field);
      assert ClearsLast(ops, i, field) && SetsLast(ops, j, field);
    }
    if i, j :| 0 <= i < j < |ops| && ClearsLast(ops, i, field) && SetsLast(ops, j, field) {
      PendingSet(ops, field, ops[j].change.value);
      assert ops[j] == Op(field, Set(ops[j].change.value));
    }
  }

  /** Exactly when an increment is pending on a cleared field. */
  lemma AddedAndClearedExactly(ops: seq<Op>, field: Column)
    ensures Run(ops).Get(field).added != [] && field in Run(ops).cleared <==>
            exists i, j :: 0 <= i < j < |ops| && ClearsLast(ops, i, field) && AddsLast(ops, j, field)
  {
    PendingCleared(ops, field);
    PendingAddedAny(ops, field);
    if Run(ops).Get(field).added != [] && field in Run(ops).cleared {
      var i :| 0 <= i < |ops| && ops[i] == Op(field, Clear) && NoReset(ops, i + 1, field);
      var j :| 0 <= j < |ops| && AddsLast(ops, j, field);
      assert j < i ==> Settles(ops[i], field);
      assert ClearsLast(ops, i, field);
    }
  }

  /** The calls for one field. */
  function Only(ops: seq<Op>, field: Column): seq<Op> {
    if ops == [] then []
    else
      var init, last := Only(ops[..|ops| - 1], field), ops[|ops| - 1];
      if last.field == field then init + [last] else init
  }

  /** The two records hold the same for the field. */
  predicate Agree(r: Record, r': Record, field: Column) {
    r.Get(field) == r'.Get(field) && (field in r.cleared <==> field in r'.cleared)
  }

  lemma ApplyAgrees(r: Record, r': Record, op: Op, field: Column)
    requires Agree(r, r', field)
    ensures if op.field == field then Agree(Apply(r, op), Apply(r', op), field) else Agree(Apply(r, op), r', field)
  {
  }

  lemma {:induction false} FieldsAreIndependent(ops: seq<Op>, field: Column)
    ensures Agree(Run(ops), Run(Only(ops, field)), field)
  {
    if ops != [] {
      var init, last := ops[..|ops| - 1], ops[|ops| - 1];
      FieldsAreIndependent(init, field);
      var o := Only(init, field);
      ApplyAgrees(Run(init), Run(o), last, field);
      if last.field == field {
        RunSnoc(o, last);
      }
    }
  }

  /** Calls on different fields commute: any reordering that keeps the order of the calls for each
      field leaves the same record. */
  lemma CallsCommute(ops: seq<Op>, ops': seq<Op>)
    requires forall field :: Only(ops, field) == Only(ops', field)
    ensures forall field :: Agree(Run(ops), Run(ops'), field)
  {
    forall field
      ensures Agree(Run(ops), Run(ops'), field)
    {
      FieldsAreIndependent(ops, field);
      FieldsAreIndependent(ops', field);
    }
  }

  // ---------- how a record stores it ----------

  function Total(values: seq<Value>): int {
    if values == [] then 0
    else
      var v := values[|values| - 1];
      Total(values[..|values| - 1]) + (if v.Int? || v.Wide? then v.n else 0)
  }

  /** A numeric increment: nothing when nothing was added, otherwise the 64-bit sum. */
  function Sum(values: seq<Value>): Option<Int64> { if values == [] then None else Some(Wrap64(Total(values))) }

  function Concat(values: seq<Value>): seq<string> {
    if values == [] then []
    else
      var v := values[|values| - 1];
      Concat(values[..|values| - 1]) + (if v.List? then v.items else [])
  }

  lemma SumSnoc(values: seq<Value>, v: Value)
    requires v.Int? || v.Wide?
    ensures Sum(values + [v]) == Some(if Sum(values).Some? then Wrap64(Sum(values).value + v.n) else v.n)
  {
    assert (values + [v])[..|values|] == values;
    WrapAdd(Total(values), v.n);
  }

  lemma ConcatSnoc(values: seq<Value>, v: Value)
    requires v.List?
    ensures Concat(values + [v]) == Concat(values) + v.items
  {
    assert (values + [v])[..|values|] == values;
  }

  lemma RunSnoc(ops: seq<Op>, op: Op)
    ensures Run(ops + [op]) == Apply(Run(ops), op)
  {
    assert (ops + [op])[..|ops|] == ops;
  }

  lemma RunStep(ops: seq<Op>, op: Op)
    ensures var r, r' := Run(ops), Run(ops + [op]);
            && r'.Get(op.field) == Next(r.Get(op.field), op.change)
            && (forall field :: field != op.field ==> r'.Get(field) == r.Get(field))
            && r'.cleared == (if op.change.Clear? then r.cleared + {op.field}
                              else if op.change.Reset? then r.cleared - {op.field} else r.cleared)
  {
    RunSnoc(ops, op);
  }

  function AsInt(n: Option<Int64>): Option<Value> { if n.Some? then Some(Int(n.value)) else None }
  function AsWide(n: Option<Int64>): Option<Value> { if n.Some? then Some(Wide(n.value)) else None }
  function AsList(l: Option<seq<string>>): Option<Value> { if l.Some? then Some(List(l.value)) else None }

  datatype Error = UnknownField(name: Column) | WrongType(name: Column)

  class RequestsRankingMutation {
    var botId: Option<Int64>
    var addBotId: Option<Int64>
    var counts: Option<Int64>
    var addCounts: Option<Int64>
    var clearedFields: set<Column>
    ghost var calls: seq<Op>  // every typed call made so far

    /** The record holds exactly what the calls mean. */
    ghost predicate Valid()
      reads this
    {
      var r := Run(calls);
      && r.Get(BotId).value == AsInt(botId) && Sum(r.Get(BotId).added) == addBotId
      && r.Get(Counts).value == AsWide(counts) && Sum(r.Get(Counts).added) == addCounts
      && r.cleared == clearedFields <= {Counts}
    }

    constructor ()
      ensures Valid() && calls == []
    {
      botId, addBotId, counts, addCounts, clearedFields, calls := None, None, None, None, {}, [];
    }

    method SetBotID(i: Int64)
      requires Valid()
      modifies this
      ensures Valid() && calls == old(calls) + [Op(BotId, Set(Int(i)))]
    {
      botId, addBotId := Some(i), None;
      RunStep(calls, Op(BotId, Set(Int(i))));
      calls := calls + [Op(BotId, Set(Int(i)))];
    }

    method AddBotID(i: Int64)
      requires Valid()
      modifies this
      ensures Valid() && calls == old(calls) + [Op(BotId, Add(Int(i)))]
    {
      ghost var added := Run(calls).Get(BotId).added;
      SumSnoc(added, Int(i));
      if addBotId.Some? {
        addBotId := Some(Wrap64(addBotId.value + i));
      } else {
        addBotId := Some(i);
      }
      assert addBotId == Sum(added + [Int(i)]);
      RunStep(calls, Op(BotId, Add(Int(i))));
      calls := calls + [Op(BotId, Add(Int(i)))];
    }

    method ResetBotID()
      requires Valid()
      modifies this
      ensures Valid() && calls == old(calls) + [Op(BotId, Reset)]
    {
      botId, addBotId := None, None;
      RunStep(calls, Op(BotId, Reset));
      calls := calls + [Op(BotId, Reset)];
    }

    method SetCounts(i: Int64)
      requires Valid()
      modifies this
      ensures Valid() && calls == old(calls) + [Op(Counts, Set(Wide(i)))]
    {
      counts, addCounts := Some(i), None;
      RunStep(calls, Op(Counts, Set(Wide(i))));
      calls := calls + [Op(Counts, Set(Wide(i)))];
    }

    method AddCounts(i: Int64)
      requires Valid()
      modifies this
      ensures Valid() && calls == old(calls) + [Op(Counts, Add(Wide(i)))]
    {
      ghost var added := Run(calls).Get(Counts).added;
      SumSnoc(added, Wide(i));
      if addCounts.Some? {
        addCounts := Some(Wrap64(addCounts.value + i));
      } else {
        addCounts := Some(i);
      }
      assert addCounts == Sum(added + [Wide(i)]);
      RunStep(calls, Op(Counts, Add(Wide(i))));
      calls := calls + [Op(Counts, Add(Wide(i)))];
    }

    method ClearCounts()
      requires Valid()
      modifies this
      ensures Valid() && calls == old(calls) + [Op(Counts, Clear)]
    {
      counts, addCounts, clearedFields := None, None, clearedFields + {Counts};
      RunStep(calls, Op(Counts, Clear));
      calls := calls + [Op(Counts, Clear)];
    }

    method ResetCounts()
      requires Valid()
      modifies this
      ensures Valid() && calls == old(calls) + [Op(Counts, Reset)]
    {
      counts, addCounts, clearedFields := None, None, clearedFields - {Counts};
      RunStep(calls, Op(Counts, Reset));
      calls := calls + [Op(Counts, Reset)];
    }

    // ---------- the by-name interface ----------

    function Fields(): seq<Column>
      reads this
    {
      (if botId.Some? then [BotId] else []) + (if counts.Some? then [Counts] else [])
    }

    function Field(name: Column): Option<Value>
      reads this
    {
      if name == BotId then AsInt(botId) else if name == Counts then AsWide(counts) else None
    }

    function AddedFields(): seq<Column>
      reads this
    {
      (if addBotId.Some? then [BotId] else []) + (if addCounts.Some? then [Counts] else [])
    }

    function AddedField(name: Column): Option<Value>
      reads this
    {
      if name == BotId then AsInt(addBotId) else if name == Counts then AsWide(addCounts) else None
    }

    function ClearedFields(): seq<Column>
      reads this
    {
      if FieldCleared(Counts) then [Counts] else []
    }

    predicate FieldCleared(name: Column)
      reads this
    {
      name in clearedFields
    }

    method SetField(name: Column, value: Value) returns (err: Option<Error>)
      requires Valid()
      modifies this
      ensures Valid()
      ensures err == FieldError(name, value)
      ensures err.None? <==> (name == BotId && value.Int?) || (name == Counts && value.Wide?)
      ensures err == Some(UnknownField(name)) <==> name != BotId && name != Counts
      ensures calls == if err.None? then old(calls) + [Op(name, Set(value))] else old(calls)
      ensures err.Some? ==> unchanged(this)
    {
      if name == BotId {
        if !value.Int? {
          return Some(WrongType(name));
        }
        SetBotID(value.n);
        return None;
      }
      if name == Counts {
        if !value.Wide? {
          return Some(WrongType(name));
        }
        SetCounts(value.n);
        return None;
      }
      return Some(UnknownField(name));
    }

    method AddField(name: Column, value: Value) returns (err: Option<Error>)
      requires Valid()
      modifies this
      ensures Valid()
      ensures err == FieldError(name, value)
      ensures err.None? <==> (name == BotId && value.Int?) || (name == Counts && value.Wide?)
      ensures err == Some(UnknownField(name)) <==> name != BotId && name != Counts
      ensures calls == if err.None? then old(calls) + [Op(name, Add(value))] else old(calls)
      ensures err.Some? ==> unchanged(this)
    {
      if name == BotId {
        if !value.Int? {
          return Some(WrongType(name));
        }
        AddBotID(value.n);
        return None;
      }
      if name == Counts {
        if !value.Wide? {
          return Some(WrongType(name));
        }
        AddCounts(value.n);
        return None;
      }
      return Some(UnknownField(name));
    }

    method ClearField(name: Column) returns (err: Option<Error>)
      requires Valid()
      modifies this
      ensures Valid()
      ensures err == if name == Counts then None else Some(UnknownField(name))
      ensures calls == if err.None? then old(calls) + [Op(name, Clear)] else old(calls)
      ensures err.Some? ==> unchanged(this)
    {
      if name == Counts {
        ClearCounts();
        return None;
      }
      return Some(UnknownField(name));
    }

    method ResetField(name: Column) returns (err: Option<Error>)
      requires Valid()
      modifies this
      ensures Valid()
      ensures err == if name == BotId || name == Counts then None else Some(UnknownField(name))
      ensures calls == if err.None? then old(calls) + [Op(name, Reset)] else old(calls)
      ensures err.Some? ==> unchanged(this)
    {
      if name == BotId {
        ResetBotID();
        return None;
      }
      if name == Counts {
        ResetCounts();
        return None;
      }
      return Some(UnknownField(name));
    }

    /** The pending increments are the 64-bit sums of what was added since the last call that settled
        the field. */
    lemma IncrementsAreSums(k: nat, field: Column)
      requires Valid() && (field == BotId || field == Counts)
      requires k <= |calls| && (k == 0 || Settles(calls[k-1], field)) && UnsettledFrom(calls, k, field)
      ensures (if field == BotId then addBotId else addCounts) == Sum(Added(calls[k..], field))
    {
      PendingAdded(calls, field, k);
    }

    /** The lists and the lookups by name agree, and both say what the calls mean. */
    lemma ByNameAgrees(name: Column)
      requires Valid()
      ensures name in Fields() <==> Field(name).Some?
      ensures name in AddedFields() <==> AddedField(name).Some?
      ensures name in ClearedFields() <==> FieldCleared(name)
      ensures name == BotId || name == Counts ==> Field(name) == Run(calls).Get(name).value
      ensures name == BotId || name == Counts ==> (AddedField(name).Some? <==> Run(calls).Get(name).added != [])
      ensures AddedField(BotId) == AsInt(Sum(Run(calls).Get(BotId).added))
      ensures AddedField(Counts) == AsWide(Sum(Run(calls).Get(Counts).added))
      ensures name != BotId && name != Counts ==> Field(name) == None && AddedField(name) == None
      ensures FieldCleared(name) <==> name in Run(calls).cleared
    {
    }
  }

  function FieldError(name: Column, value: Value): Option<Error> {
    if name == BotId then if value.Int? then None else Some(WrongType(name))
    else if name == Counts then if value.Wide? then None else Some(WrongType(name))
    else Some(UnknownField(name))
  }

  // ---------- the update builder ----------

  /** The calls the update builder makes for one of its own methods. */
  datatype BuilderCall =
    | SetsBotID(n: Int64)
    | AddsBotID(n: Int64)
    | SetsCounts(n: Int64)
    | AddsCounts(n: Int64)
    | ClearsCounts

  function CallsOf(b: BuilderCall): seq<Op> {
    match b
    case SetsBotID(n) => [Op(BotId, Reset), Op(BotId, Set(Int(n)))]
    case AddsBotID(n) => [Op(BotId, Add(Int(n)))]
    case SetsCounts(n) => [Op(Counts, Reset), Op(Counts, Set(Wide(n)))]
    case AddsCounts(n) => [Op(Counts, Add(Wide(n)))]
    case ClearsCounts => [Op(Counts, Clear)]
  }

  function AllCallsOf(bs: seq<BuilderCall>): seq<Op> {
    if bs == [] then [] else AllCallsOf(bs[..|bs| - 1]) + CallsOf(bs[|bs| - 1])
  }

  predicate NeverBoth(r: Record, field: Column) {
    !(r.Get(field).value.Some? && field in r.cleared) && r.cleared <= {Counts}
  }

  /** Whoever only uses the update builder never has a field both set and cleared. */
  lemma {:induction false} BuilderNeverSetsAndClears(bs: seq<BuilderCall>, field: Column)
    ensures NeverBoth(Run(AllCallsOf(bs)), field)
  {
    if bs != [] {
      var init, last := bs[..|bs| - 1], bs[|bs| - 1];
      BuilderNeverSetsAndClears(init, field);
      RunBuilderCall(AllCallsOf(init), last);
      BuilderKeepsApart(Run(AllCallsOf(init)), last, field);
    }
  }

  lemma BuilderKeepsApart(r: Record, b: BuilderCall, field: Column)
    requires NeverBoth(r, field)
    ensures NeverBoth(AfterBuilder(r, b), field)
  {
  }

  /** The record after one more builder method. */
  function AfterBuilder(r: Record, b: BuilderCall): Record {
    match b
    case SetsBotID(n) => Apply(Apply(r, Op(BotId, Reset)), Op(BotId, Set(Int(n))))
    case AddsBotID(n) => Apply(r, Op(BotId, Add(Int(n))))
    case SetsCounts(n) => Apply(Apply(r, Op(Counts, Reset)), Op(Counts, Set(Wide(n))))
    case AddsCounts(n) => Apply(r, Op(Counts, Add(Wide(n))))
    case ClearsCounts => Apply(r, Op(Counts, Clear))
  }

  lemma RunBuilderCall(ops: seq<Op>, b: BuilderCall)
    ensures Run(ops + CallsOf(b)) == AfterBuilder(Run(ops), b)
  {
    var more := CallsOf(b);
    RunSnoc(ops, more[0]);
    if |more| == 2 {
      RunSnoc(ops + [more[0]], more[1]);
      assert ops + more == ops + [more[0]] + [more[1]];
    }
  }

  /** Exactly when the builder leaves an increment pending on a cleared field: `counts` was cleared,
      then added to, not set since the Clear, and not cleared again since the Add. */
  lemma BuilderAddedAndClearedExactly(bs: seq<BuilderCall>)
    ensures var r := Run(AllCallsOf(bs));
            r.Get(Counts).added != [] && Counts in r.cleared <==>
            exists i, j :: 0 <= i < j < |bs| && BuilderClearsLast(bs, i) && BuilderAddsLast(bs, j)
  {
    BuilderPending(bs);
    if SomeClears(bs) && SomeAdds(bs) {
      var i :| 0 <= i < |bs| && BuilderClearsLast(bs, i);
      var j :| 0 <= j < |bs| && BuilderAddsLast(bs, j);
      assert i < j;
    }
  }

  predicate BuilderClearsLast(bs: seq<BuilderCall>, i: nat)
    requires i < |bs|
  {
    bs[i].ClearsCounts? && forall k :: i < k < |bs| ==> !bs[k].SetsCounts?
  }

  predicate BuilderAddsLast(bs: seq<BuilderCall>, j: nat)
    requires j < |bs|
  {
    bs[j].AddsCounts? && forall k :: j < k < |bs| ==> !bs[k].SetsCounts? && !bs[k].ClearsCounts?
  }

  ghost predicate SomeClears(bs: seq<BuilderCall>) { exists i :: 0 <= i < |bs| && BuilderClearsLast(bs, i) }

  ghost predicate SomeAdds(bs: seq<BuilderCall>) { exists j :: 0 <= j < |bs| && BuilderAddsLast(bs, j) }

  lemma {:induction false} BuilderPending(bs: seq<BuilderCall>)
    ensures Counts in Run(AllCallsOf(bs)).cleared <==> SomeClears(bs)
    ensures Run(AllCallsOf(bs)).Get(Counts).added != [] <==> SomeAdds(bs)
    decreases |bs|
  {
    if bs != [] {
      var init, last := bs[..|bs| - 1], bs[|bs| - 1];
      BuilderPending(init);
      RunBuilderCall(AllCallsOf(init), last);
      CountsAfter(Run(AllCallsOf(init)), last);
      SomeClearsSnoc(bs);
      SomeAddsSnoc(bs);
    }
  }

  lemma CountsAfter(r: Record, b: BuilderCall)
    ensures Counts in AfterBuilder(r, b).cleared <==> b.ClearsCounts? || (!b.SetsCounts? && Counts in r.cleared)
    ensures AfterBuilder(r, b).Get(Counts).added != [] <==>
            b.AddsCounts? || (!b.SetsCounts? && !b.ClearsCounts? && r.Get(Counts).added != [])
  {
  }

  lemma SomeClearsSnoc(bs: seq<BuilderCall>)
    requires bs != []
    ensures var last := bs[|bs| - 1];
            SomeClears(bs) <==> last.ClearsCounts? || (!last.SetsCounts? && SomeClears(bs[..|bs| - 1]))
  {
    var n := |bs| - 1;
    var init := bs[..n];
    assert bs[n].ClearsCounts? ==> BuilderClearsLast(bs, n);
    if SomeClears(bs) && !bs[n].ClearsCounts? {
      var i :| 0 <= i < |bs| && BuilderClearsLast(bs, i);
      assert BuilderClearsLast(init, i);
    }
    if SomeClears(init) && !bs[n].SetsCounts? {
      var i :| 0 <= i < |init| && BuilderClearsLast(init, i);
      assert forall k :: i < k < n ==> bs[k] == init[k];
      assert BuilderClearsLast(bs, i);
    }
  }

  lemma SomeAddsSnoc(bs: seq<BuilderCall>)
    requires bs != []
    ensures var last := bs[|bs| - 1];
            SomeAdds(bs) <==>
            last.AddsCounts? || (!last.SetsCounts? && !last.ClearsCounts? && SomeAdds(bs[..|bs| - 1]))
  {
    var n := |bs| - 1;
    var init := bs[..n];
    assert bs[n].AddsCounts? ==> BuilderAddsLast(bs, n);
    if SomeAdds(bs) && !bs[n].AddsCounts? {
      var j :| 0 <= j < |bs| && BuilderAddsLast(bs, j);
      assert BuilderAddsLast(init, j);
    }
    if SomeAdds(init) && !bs[n].SetsCounts? && !bs[n].ClearsCounts? {
      var j :| 0 <= j < |init| && BuilderAddsLast(init, j);
      assert forall k :: j < k < n ==> bs[k] == init[k];
      assert BuilderAddsLast(bs, j);
    }
  }

  /** The mutation itself allows both: a set after a clear leaves the field in the cleared set. */
  lemma MutationMaySetAndClear(n: Int64)
    ensures var r := Run([Op(Counts, Clear), Op(Counts, Set(Wide(n)))]);
            r.Get(Counts).value == Some(Wide(n)) && Counts in r.cleared
  {
    RunSnoc([], Op(Counts, Clear));
    RunSnoc([Op(Counts, Clear)], Op(Counts, Set(Wide(n))));
    assert [] + [Op(Counts, Clear)] == [Op(Counts, Clear)];
    assert [Op(Counts, Clear)] + [Op(Counts, Set(Wide(n)))] == [Op(Counts, Clear), Op(Counts, Set(Wide(n)))];
  }

  /** And even the builder leaves an increment pending on a cleared field. */
  lemma BuilderMayClearAndAdd(n: Int64)
    ensures var r := Run(AllCallsOf([ClearsCounts, AddsCounts(n)]));
            r.Get(Counts).added == [Wide(n)] && Counts in r.cleared
  {
    var bs := [ClearsCounts, AddsCounts(n)];
    assert bs[..1] == [ClearsCounts] && bs[..1][..0] == [];
    assert AllCallsOf(bs[..1]) == [Op(Counts, Clear)];
    assert AllCallsOf(bs) == [Op(Counts, Clear)] + [Op(Counts, Add(Wide(n)))];
    RunSnoc([], Op(Counts, Clear));
    RunSnoc([Op(Counts, Clear)], Op(Counts, Add(Wide(n))));
    assert [] + [Op(Counts, Clear)] == [Op(Counts, Clear)];
  }

  class RequestsRankingUpdate {
    const mutation: RequestsRankingMutation
    ghost var made: seq<BuilderCall>

    ghost predicate Valid()
      reads this, mutation
    {
      mutation.Valid() && mutation.calls == AllCallsOf(made)
    }

    constructor ()
      ensures Valid() && fresh(mutation) && made == []
    {
      mutation := new RequestsRankingMutation();
      made := [];
    }

    ghost method Record(b: BuilderCall)
      requires mutation.Valid() && mutation.calls == AllCallsOf(made) + CallsOf(b)
      modifies this
      ensures Valid() && made == old(made) + [b]
    {
      assert (made + [b])[..|made|] == made;
      made := made + [b];
    }

    method SetBotID(v: Int64)
      requires Valid()
      modifies this, mutation
      ensures Valid() && made == old(made) + [SetsBotID(v)]
    {
      mutation.ResetBotID();
      mutation.SetBotID(v);
      Record(SetsBotID(v));
    }

    method AddBotID(v: Int64)
      requires Valid()
      modifies this, mutation
      ensures Valid() && made == old(made) + [AddsBotID(v)]
    {
      mutation.AddBotID(v);
      Record(AddsBotID(v));
    }

    method SetCounts(v: Int64)
      requires Valid()
      modifies this, mutation
      ensures Valid() && made == old(made) + [SetsCounts(v)]
      ensures mutation.counts == Some(v) && Counts !in mutation.clearedFields
    {
      mutation.ResetCounts();
      mutation.SetCounts(v);
      Record(SetsCounts(v));
      BuilderNeverSetsAndClears(made, Counts);
    }

    method AddCounts(v: Int64)
      requires Valid()
      modifies this, mutation
      ensures Valid() && made == old(made) + [AddsCounts(v)]
    {
      mutation.AddCounts(v);
      Record(AddsCounts(v));
    }

    method ClearCounts()
      requires Valid()
      modifies this, mutation
      ensures Valid() && made == old(made) + [ClearsCounts]
    {
      mutation.ClearCounts();
      Record(ClearsCounts);
    }
  }

  // ---------- a record with list fields ----------

  /** The list fields of a CommandManifest mutation: one required, one nullable. */
  class CommandManifestMutation {
    var prefixes: Option<seq<string>>
    var appendPrefixes: seq<string>
    var params: Option<seq<string>>
    var appendParams: seq<string>
    var clearedFields: set<Column>
    ghost var calls: seq<Op>

    ghost predicate Valid()
      reads this
    {
      var r := Run(calls);
      && r.Get(Prefixes).value == AsList(prefixes) && Concat(r.Get(Prefixes).added) == appendPrefixes
      && r.Get(Params).value == AsList(params) && Concat(r.Get(Params).added) == appendParams
      && r.cleared == clearedFields <= {Params}
    }

    constructor ()
      ensures Valid() && calls == []
    {
      prefixes, appendPrefixes, params, appendParams, clearedFields, calls := None, [], None, [], {}, [];
    }

    method SetCommandPrefixes(s: seq<string>)
      requires Valid()
      modifies this
      ensures Valid() && calls == old(calls) + [Op(Prefixes, Set(List(s)))]
    {
      prefixes, appendPrefixes := Some(s), [];
      RunStep(calls, Op(Prefixes, Set(List(s))));
      calls := calls + [Op(Prefixes, Set(List(s)))];
    }

    method AppendCommandPrefixes(s: seq<string>)
      requires Valid()
      modifies this
      ensures Valid() && calls == old(calls) + [Op(Prefixes, Add(List(s)))]
    {
      ghost var added := Run(calls).Get(Prefixes).added;
      ConcatSnoc(added, List(s));
      appendPrefixes := appendPrefixes + s;
      assert appendPrefixes == Concat(added + [List(s)]);
      RunStep(calls, Op(Prefixes, Add(List(s))));
      calls := calls + [Op(Prefixes, Add(List(s)))];
    }

    /** Appended items are reported only when there are any: appending an empty list is invisible. */
    method AppendedCommandPrefixes() returns (r: Option<seq<string>>)
      requires Valid()
      ensures r == var all := Concat(Run(calls).Get(Prefixes).added); if all == [] then None else Some(all)
    {
      return if |appendPrefixes| == 0 then None else Some(appendPrefixes);
    }

    method ResetCommandPrefixes()
      requires Valid()
      modifies this
      ensures Valid() && calls == old(calls) + [Op(Prefixes, Reset)]
    {
      prefixes, appendPrefixes := None, [];
      RunStep(calls, Op(Prefixes, Reset));
      calls := calls + [Op(Prefixes, Reset)];
    }

    method SetCommandAdditionalParams(s: seq<string>)
      requires Valid()
      modifies this
      ensures Valid() && calls == old(calls) + [Op(Params, Set(List(s)))]
    {
      params, appendParams := Some(s), [];
      RunStep(calls, Op(Params, Set(List(s))));
      calls := calls + [Op(Params, Set(List(s)))];
    }

    method AppendCommandAdditionalParams(s: seq<string>)
      requires Valid()
      modifies this
      ensures Valid() && calls == old(calls) + [Op(Params, Add(List(s)))]
    {
      ghost var added := Run(calls).Get(Params).added;
      ConcatSnoc(added, List(s));
      appendParams := appendParams + s;
      assert appendParams == Concat(added + [List(s)]);
      RunStep(calls, Op(Params, Add(List(s))));
      calls := calls + [Op(Params, Add(List(s)))];
    }

    method ClearCommandAdditionalParams()
      requires Valid()
      modifies this
      ensures Valid() && calls == old(calls) + [Op(Params, Clear)]
    {
      params, appendParams, clearedFields := None, [], clearedFields + {Params};
      RunStep(calls, Op(Params, Clear));
      calls := calls + [Op(Params, Clear)];
    }

    method ResetCommandAdditionalParams()
      requires Valid()
      modifies this
      ensures Valid() && calls == old(calls) + [Op(Params, Reset)]
    {
      params, appendParams, clearedFields := None, [], clearedFields - {Params};
      RunStep(calls, Op(Params, Reset));
      calls := calls + [Op(Params, Reset)];
    }
  }
}
