/** The list- and map-valued environment variables: splitters, the ordered Noise key list and the
    map form, each writing through a destination only when the whole value is accepted. */
module ConfigLists {
  import opened Wrappers
  import opened Text

  datatype Error = BadJson | BadEntry(item: string) | EmptyEntry

  datatype Key = Key(id: string, priv: string)

  /** A destination the caller passes by pointer. */
  class Ref<T> {
    var value: T
    constructor (value: T)
      ensures this.value == value
    {
      this.value := value;
    }
  }

  predicate IsSeparator(c: char) { c == ',' || c == ';' || c == '\n' }

  predicate StartsWith(s: string, c: char) { s != "" && s[0] == c }

  /** os.Getenv: an unset variable reads as the empty string. */
  function Getenv(env: map<string, string>, name: string): string {
    if name in env then env[name] else ""
  }

  // ---------- plain lists ----------

  /** strings.NewReplacer(";", ",", "\n", ","). */
  function Commas(s: string): string {
    if s == "" then "" else [if IsSeparator(s[0]) then ',' else s[0]] + Commas(s[1..])
  }

  lemma {:induction false} SplitCommas(s: string)
    ensures Split(Commas(s), c => c == ',') == Split(s, IsSeparator)
  {
    if s != "" {
      SplitCommas(s[1..]);
      assert Commas(s)[1..] == Commas(s[1..]);
    }
  }

  /** The two splitters agree: a list value read as plain options is the same value read as
      positional names, with the empty names left out; and white space around the value does not
      matter. */
  lemma SplittersAgree(v: string)
    ensures NonEmpty(TrimAll(Fields(TrimSpace(v), IsSeparator)))
         == NonEmpty(TrimAll(Split(Commas(TrimSpace(v)), c => c == ',')))
         == Items(v, IsSeparator)
  {
    FieldsAreSegments(TrimSpace(v), IsSeparator);
    TrimNonEmpty(Split(TrimSpace(v), IsSeparator));
    SplitCommas(TrimSpace(v));
    ItemsOfTrimmed(v, IsSeparator);
  }

  /** Positional names keep one entry per separator plus one, and entry i is the trimmed text
      between separator i-1 and separator i. */
  lemma NamesArePositional(v: string, i: nat)
    requires i <= |Separators(v, IsSeparator)|
    ensures var segs := Split(v, IsSeparator);
            var names := TrimAll(Split(Commas(v), c => c == ','));
            && |names| == |segs| == |Separators(v, IsSeparator)| + 1
            && names[i] == TrimSpace(segs[i])
            && Interleave(segs, Separators(v, IsSeparator)) == v
  {
    SplitCommas(v);
    SplitRestores(v, IsSeparator);
    TrimAllAt(Split(v, IsSeparator), i);
  }

  /** What a variable does to its destination. */
  datatype Update<+T> = Keep | Set(value: T) | Fail(error: Error) {
    function Error(): Option<Error> { if Fail? then Some(error) else None }
  }

  function SliceUpdate(v: string, json: string -> Option<seq<string>>): Update<seq<string>> {
    if v == "" then Keep
    else if !StartsWith(v, '[') then Set(Items(v, IsSeparator))
    else if json(v).None? then Fail(BadJson)
    else Set(NonEmpty(TrimAll(json(v).value)))
  }

  method EnvStringSlice(env: map<string, string>, name: string, json: string -> Option<seq<string>>,
                        dst: Ref<seq<string>>)
    returns (err: Option<Error>)
    modifies dst
    ensures var u := SliceUpdate(TrimSpace(Getenv(env, name)), json);
            err == u.Error() && dst.value == if u.Set? then u.value else old(dst.value)
    ensures var v := TrimSpace(Getenv(env, name));
            && (err.Some? <==> StartsWith(v, '[') && json(v).None?)
            && (v == "" || err.Some? ==> dst.value == old(dst.value))
            && (v != "" && err.None? ==>
                  dst.value == NonEmpty(TrimAll(if v[0] == '[' then json(v).value else Split(v, IsSeparator))))
  {
    var v := TrimSpace(Getenv(env, name));
    if v == "" {
      return None;
    }
    var parsed;
    if StartsWith(v, '[') {
      var decoded := json(v);
      if decoded.None? {
        return Some(BadJson);
      }
      parsed := decoded.value;
    } else {
      parsed := Fields(v, IsSeparator);
      FieldsAreSegments(v, IsSeparator);
      TrimNonEmpty(Split(v, IsSeparator));
    }
    dst.value := TrimmedItems(parsed);
    return None;
  }

  method TrimmedItems(parsed: seq<string>) returns (result: seq<string>)
    ensures result == NonEmpty(TrimAll(parsed))
  {
    result := [];
    for i := 0 to |parsed|
      invariant result == NonEmpty(TrimAll(parsed[..i]))
    {
      assert parsed[..i+1] == parsed[..i] + [parsed[i]];
      TrimmedLast(parsed[..i], parsed[i]);
      var item := TrimSpace(parsed[i]);
      if item != "" {
        result := result + [item];
      }
    }
    assert parsed[..|parsed|] == parsed;
  }

  lemma TrimmedLast(parts: seq<string>, p: string)
    ensures NonEmpty(TrimAll(parts + [p])) ==
            if TrimSpace(p) == "" then NonEmpty(TrimAll(parts)) else NonEmpty(TrimAll(parts)) + [TrimSpace(p)]
  {
    TrimAllSnoc(parts, p);
    NonEmptyAppend(TrimAll(parts), [TrimSpace(p)]);
    NonEmptyCons(TrimSpace(p), []);
    assert [TrimSpace(p)] + [] == [TrimSpace(p)];
    assert NonEmpty(TrimAll(parts)) + [] == NonEmpty(TrimAll(parts));
  }

  function NamesUpdate(v: string, json: string -> Option<seq<string>>): Update<seq<string>> {
    if v == "" then Set([])
    else if !StartsWith(v, '[') then Set(TrimAll(Split(v, IsSeparator)))
    else if json(v).None? then Fail(BadJson)
    else Set(TrimAll(json(v).value))
  }

  method EnvEndpointNames(env: map<string, string>, name: string, json: string -> Option<seq<string>>,
                          dst: Ref<seq<string>>)
    returns (err: Option<Error>)
    modifies dst
    ensures var u := if name in env then NamesUpdate(TrimSpace(env[name]), json) else Keep;
            err == u.Error() && dst.value == if u.Set? then u.value else old(dst.value)
    ensures var v := TrimSpace(Getenv(env, name));
            && (err.Some? <==> StartsWith(v, '[') && json(v).None?)
            && (name !in env || err.Some? ==> dst.value == old(dst.value))
            && (name in env && v == "" ==> dst.value == [])
            && (v != "" && err.None? ==>
                  dst.value == TrimAll(if v[0] == '[' then json(v).value else Split(v, IsSeparator)))
  {
    if name !in env {
      return None;
    }
    var raw := TrimSpace(env[name]);
    if raw == "" {
      dst.value := [];
      return None;
    }
    var parsed;
    if StartsWith(raw, '[') {
      var decoded := json(raw);
      if decoded.None? {
        return Some(BadJson);
      }
      parsed := decoded.value;
    } else {
      parsed := Split(Commas(raw), c => c == ',');
      SplitCommas(raw);
    }
    dst.value := TrimEach(parsed);
    return None;
  }

  /** Trims the entries in place, keeping their positions. */
  method TrimEach(parts: seq<string>) returns (parsed: seq<string>)
    ensures parsed == TrimAll(parts)
  {
    parsed := parts;
    TrimAllLength(parts);
    for i := 0 to |parts|
      invariant |parsed| == |parts|
      invariant parsed[..i] == TrimAll(parts)[..i] && parsed[i..] == parts[i..]
    {
      TrimAllAt(parts, i);
      assert parsed[i] == parsed[i..][0] == parts[i];
      ghost var was := parsed;
      parsed := parsed[i := TrimSpace(parsed[i])];
      assert parsed[..i+1] == was[..i] + [TrimSpace(parts[i])];
      assert parsed[i+1..] == was[i..][1..] == parts[i+1..];
    }
    assert parsed == parsed[..|parts|];
  }

  lemma {:induction false} TrimAllLength(parts: seq<string>)
    ensures |TrimAll(parts)| == |parts|
  {
    if parts != [] {
      TrimAllAt(parts, 0);
    }
  }

  predicate IsComma(c: char) { c == ',' }

  /** All the durations, or none if some entry does not parse. */
  function Durations(items: seq<string>, parse: string -> Option<int>): Option<seq<int>> {
    if items == [] then Some([])
    else if parse(items[0]).None? then None
    else
      var rest := Durations(items[1..], parse);
      if rest.None? then None else Some([parse(items[0]).value] + rest.value)
  }

  /** All or nothing: entry i of the result is the i-th duration. */
  lemma {:induction false} DurationsMeaning(items: seq<string>, parse: string -> Option<int>)
    ensures Durations(items, parse).Some? <==> forall i :: 0 <= i < |items| ==> parse(items[i]).Some?
    ensures var r := Durations(items, parse);
            r.Some? ==> |r.value| == |items| && forall i :: 0 <= i < |items| ==> parse(items[i]) == Some(r.value[i])
  {
    if items != [] {
      DurationsMeaning(items[1..], parse);
      assert forall i :: 0 < i < |items| ==> items[i] == items[1..][i-1];
      if forall i :: 0 <= i < |items| ==> parse(items[i]).Some? {
        assert forall i :: 0 <= i < |items[1..]| ==> items[1..][i] == items[i+1];
      }
    }
  }

  lemma DurationsCons(item: string, rest: seq<string>, parse: string -> Option<int>)
    ensures Durations([item] + rest, parse) ==
            if parse(item).None? || Durations(rest, parse).None? then None
            else Some([parse(item).value] + Durations(rest, parse).value)
  {
    assert ([item] + rest)[1..] == rest;
  }

  /** A comma-separated list of durations.  One bad entry leaves the destination alone; an
      explicitly empty value empties it. */
  method EnvDurationSlice(env: map<string, string>, name: string, parse: string -> Option<int>, dst: Ref<seq<int>>)
    modifies dst
    ensures var out := if name in env then Durations(Items(env[name], IsComma), parse) else None;
            dst.value == if out.Some? then out.value else old(dst.value)
    ensures name !in env ==> dst.value == old(dst.value)
    ensures name in env ==>
              var items := Items(env[name], IsComma);
              if exists i :: 0 <= i < |items| && parse(items[i]).None? then dst.value == old(dst.value)
              else |dst.value| == |items| && forall i :: 0 <= i < |items| ==> parse(items[i]) == Some(dst.value[i])
  {
    if name !in env {
      return;
    }
    DurationsMeaning(Items(env[name], IsComma), parse);
    var out := ParseDurations(Split(env[name], IsComma), parse);
    if out.Some? {
      dst.value := out.value;
    }
  }

  method ParseDurations(parts: seq<string>, parse: string -> Option<int>) returns (r: Option<seq<int>>)
    ensures r == Durations(NonEmpty(TrimAll(parts)), parse)
  {
    var out: seq<int> := [];
    for i := 0 to |parts|
      invariant Durations(NonEmpty(TrimAll(parts[..i])), parse) == Some(out)
    {
      ghost var done := NonEmpty(TrimAll(parts[..i]));
      assert parts[..i+1] == parts[..i] + [parts[i]];
      TrimmedLast(parts[..i], parts[i]);
      var part := TrimSpace(parts[i]);
      if part == "" {
        continue;
      }
      var d := parse(part);
      DurationsLast(done, part, parse);
      if d.None? {
        AnyBadDuration(parts, i + 1, parse);
        return None;
      }
      out := out + [d.value];
    }
    assert parts[..|parts|] == parts;
    return Some(out);
  }

  lemma DurationsLast(done: seq<string>, part: string, parse: string -> Option<int>)
    requires Durations(done, parse).Some?
    ensures Durations(done + [part], parse) ==
            if parse(part).None? then None else Some(Durations(done, parse).value + [parse(part).value])
  {
    DurationsSplit(done, [part], parse);
    DurationsCons(part, [], parse);
    assert [part] + [] == [part];
    if parse(part).Some? {
      assert [parse(part).value] + [] == [parse(part).value];
    }
  }

  lemma AnyBadDuration(parts: seq<string>, i: nat, parse: string -> Option<int>)
    requires i <= |parts| && Durations(NonEmpty(TrimAll(parts[..i])), parse).None?
    ensures Durations(NonEmpty(TrimAll(parts)), parse).None?
  {
    assert parts == parts[..i] + parts[i..];
    TrimAllAppend(parts[..i], parts[i..]);
    NonEmptyAppend(TrimAll(parts[..i]), TrimAll(parts[i..]));
    DurationsSplit(NonEmpty(TrimAll(parts[..i])), NonEmpty(TrimAll(parts[i..])), parse);
  }

  lemma {:induction false} DurationsSplit(a: seq<string>, b: seq<string>, parse: string -> Option<int>)
    ensures Durations(a + b, parse) ==
            if Durations(a, parse).None? || Durations(b, parse).None? then None
            else Some(Durations(a, parse).value + Durations(b, parse).value)
  {
    if a == [] {
      assert a + b == b;
      assert Durations(b, parse).Some? ==> [] + Durations(b, parse).value == Durations(b, parse).value;
    } else {
      assert a + b == [a[0]] + (a[1..] + b) && a == [a[0]] + a[1..];
      DurationsSplit(a[1..], b, parse);
      DurationsCons(a[0], a[1..] + b, parse);
      if Durations(a, parse).Some? && Durations(b, parse).Some? {
        var d, x, y := parse(a[0]).value, Durations(a[1..], parse).value, Durations(b, parse).value;
        assert [d] + (x + y) == ([d] + x) + y;
      }
    }
  }

  // ---------- the ordered key list ----------

  /** The index of the first '=' of s, or |s|. */
  function EqualsAt(s: string): (n: nat)
    ensures n <= |s| && (n < |s| ==> s[n] == '=') && (forall i :: 0 <= i < n ==> s[i] != '=')
  {
    if s == "" || s[0] == '=' then 0 else 1 + EqualsAt(s[1..])
  }

  /** One `key=value` item, cut at its first '='. */
  function ParseEntry(item: string): Option<Key> {
    var n := EqualsAt(item);
    if n == |item| then None
    else
      var id, priv := TrimSpace(item[..n]), TrimSpace(item[n+1..]);
      if id == "" || priv == "" then None else Some(Key(id, priv))
  }

  /** An item is cut at its first '=', and both sides are trimmed and must not be blank. */
  ghost predicate Reads(item: string, key: Key) {
    && key.id != "" && key.priv != ""
    && exists n :: 0 <= n < |item| && item[n] == '=' && '=' !in item[..n]
                   && key.id == TrimSpace(item[..n]) && key.priv == TrimSpace(item[n+1..])
  }

  lemma ParseEntryMeaning(item: string)
    ensures ParseEntry(item).Some? ==> Reads(item, ParseEntry(item).value)
    ensures ParseEntry(item).None? ==> forall key :: !Reads(item, key)
    ensures '=' !in item ==> ParseEntry(item).None?
  {
    var n := EqualsAt(item);
    forall m | 0 <= m < |item| && item[m] == '=' && '=' !in item[..m]
      ensures m == n
    {
      assert item == item[..m] + "=" + item[m+1..];
      FirstEquals(item[..m], item[m+1..]);
    }
  }

  /** A list is accepted exactly when every item is, and gives their keys in order. */
  lemma {:induction false} ParseEntriesMeaning(items: seq<string>)
    ensures var r := ParseEntries(items);
            && (r.Ok? <==> forall i :: 0 <= i < |items| ==> ParseEntry(items[i]).Some?)
            && (r.Ok? ==> |r.value| == |items|)
            && (r.Ok? ==> forall i :: 0 <= i < |items| ==> ParseEntry(items[i]) == Some(r.value[i]))
  {
    if items != [] {
      ParseEntriesMeaning(items[1..]);
      assert items == [items[0]] + items[1..];
    }
  }

  /** Otherwise the error names the first item that is not. */
  lemma {:induction false} BadEntryIsFirst(items: seq<string>)
    requires ParseEntries(items).Err?
    ensures exists i ::
              && 0 <= i < |items| && ParseEntry(items[i]).None? && ParseEntries(items).error == BadEntry(items[i])
              && forall j :: 0 <= j < i ==> ParseEntry(items[j]).Some?
  {
    if ParseEntry(items[0]).Some? {
      var rest := items[1..];
      BadEntryIsFirst(rest);
      var i :| 0 <= i < |rest| && ParseEntry(rest[i]).None? && ParseEntries(rest).error == BadEntry(rest[i])
               && forall j :: 0 <= j < i ==> ParseEntry(rest[j]).Some?;
      assert items[i+1] == rest[i] && forall j :: 0 < j < i + 1 ==> items[j] == rest[j-1];
    }
  }

  function ParseEntries(items: seq<string>): Result<seq<Key>, Error> {
    if items == [] then Ok([])
    else if ParseEntry(items[0]).None? then Err(BadEntry(items[0]))
    else
      var rest := ParseEntries(items[1..]);
      if rest.Err? then rest else Ok([ParseEntry(items[0]).value] + rest.value)
  }

  lemma ParseEntriesCons(item: string, rest: seq<string>)
    ensures ParseEntries([item] + rest) ==
            if ParseEntry(item).None? then Err(BadEntry(item))
            else if ParseEntries(rest).Err? then ParseEntries(rest)
            else Ok([ParseEntry(item).value] + ParseEntries(rest).value)
  {
    assert ([item] + rest)[1..] == rest;
  }

  function KeyList(v: string, json: string -> Option<seq<Key>>): Result<seq<Key>, Error> {
    if !StartsWith(v, '[') then ParseEntries(Items(v, IsSeparator))
    else if json(v).None? then Err(BadJson)
    else Ok(json(v).value)
  }

  method ParseNoiseKeyList(v: string, json: string -> Option<seq<Key>>) returns (r: Result<seq<Key>, Error>)
    ensures r == KeyList(v, json)
  {
    if StartsWith(v, '[') {
      var decoded := json(v);
      if decoded.None? {
        return Err(BadJson);
      }
      return Ok(decoded.value);
    }
    var fields := Fields(v, IsSeparator);
    FieldsAreSegments(v, IsSeparator);
    TrimNonEmpty(Split(v, IsSeparator));
    r := ParseFields(fields);
  }

  function After(parsed: seq<Key>, rest: Result<seq<Key>, Error>): Result<seq<Key>, Error> {
    if rest.Err? then rest else Ok(parsed + rest.value)
  }

  lemma AfterOne(parsed: seq<Key>, item: string, rest: seq<string>)
    ensures After(parsed, ParseEntries([item] + rest)) ==
            if ParseEntry(item).None? then Err(BadEntry(item))
            else After(parsed + [ParseEntry(item).value], ParseEntries(rest))
  {
    ParseEntriesCons(item, rest);
    if ParseEntry(item).Some? && ParseEntries(rest).Ok? {
      assert parsed + ([ParseEntry(item).value] + ParseEntries(rest).value)
          == (parsed + [ParseEntry(item).value]) + ParseEntries(rest).value;
    }
  }

  lemma FieldStep(fields: seq<string>, i: nat)
    requires i < |fields|
    ensures var item, rest := TrimSpace(fields[i]), NonEmpty(TrimAll(fields[i+1..]));
            NonEmpty(TrimAll(fields[i..])) == if item == "" then rest else [item] + rest
  {
    assert fields[i..] == [fields[i]] + fields[i+1..];
    TrimmedHead(fields[i], fields[i+1..]);
  }

  method ParseFields(fields: seq<string>) returns (r: Result<seq<Key>, Error>)
    ensures r == ParseEntries(NonEmpty(TrimAll(fields)))
  {
    var parsed: seq<Key> := [];
    ghost var left := NonEmpty(TrimAll(fields));
    ghost var all := ParseEntries(left);
    assert fields[0..] == fields;
    assert ParseEntries(left).Ok? ==> [] + ParseEntries(left).value == ParseEntries(left).value;
    for i := 0 to |fields|
      invariant left == NonEmpty(TrimAll(fields[i..]))
      invariant After(parsed, ParseEntries(left)) == all == ParseEntries(NonEmpty(TrimAll(fields)))
    {
      FieldStep(fields, i);
      left := NonEmpty(TrimAll(fields[i+1..]));
      var item := TrimSpace(fields[i]);
      if item == "" {
        continue;
      }
      AfterOne(parsed, item, left);
      var entry := ParseEntry(item);
      if entry.None? {
        return Err(BadEntry(item));
      }
      parsed := parsed + [entry.value];
    }
    assert fields[|fields|..] == [] && parsed + [] == parsed;
    return Ok(parsed);
  }

  predicate Blank(k: Key) { TrimSpace(k.id) == "" || TrimSpace(k.priv) == "" }

  function KeysUpdate(v: string, json: string -> Option<seq<Key>>): Update<seq<Key>> {
    if v == "" then Keep
    else
      var r := KeyList(v, json);
      if r.Err? then Fail(r.error)
      else if exists k :: k in r.value && Blank(k) then Fail(EmptyEntry)
      else Set(r.value)
  }

  /** What is reported and installed for the list form. */
  ghost predicate ReadsList(items: seq<string>, err: Option<Error>, keys: seq<Key>) {
    if err.None? then |keys| == |items| && forall i :: 0 <= i < |items| ==> Reads(items[i], keys[i])
    else exists i :: 0 <= i < |items| && err == Some(BadEntry(items[i])) && forall key :: !Reads(items[i], key)
  }

  lemma ListIsRead(v: string, json: string -> Option<seq<Key>>)
    requires v != "" && v[0] != '['
    ensures var u := KeysUpdate(v, json);
            !u.Keep? && ReadsList(Items(v, IsSeparator), u.Error(), if u.Set? then u.value else [])
  {
    var items := Items(v, IsSeparator);
    var r := ParseEntries(items);
    if r.Ok? {
      EntriesRead(items, r.value);
    } else {
      BadEntryRead(items);
    }
  }

  lemma EntriesRead(items: seq<string>, keys: seq<Key>)
    requires ParseEntries(items) == Ok(keys)
    ensures ReadsList(items, None, keys) && forall k :: k in keys ==> !Blank(k)
  {
    ParseEntriesMeaning(items);
    forall i | 0 <= i < |items|
      ensures Reads(items[i], keys[i]) && !Blank(keys[i])
    {
      ParseEntryMeaning(items[i]);
      ReadsNotBlank(items[i], keys[i]);
    }
  }

  lemma BadEntryRead(items: seq<string>)
    requires ParseEntries(items).Err?
    ensures ReadsList(items, Some(ParseEntries(items).error), [])
  {
    BadEntryIsFirst(items);
    var i :| 0 <= i < |items| && ParseEntry(items[i]).None? && ParseEntries(items).error == BadEntry(items[i]);
    ParseEntryMeaning(items[i]);
  }

  lemma ReadsNotBlank(item: string, key: Key)
    requires Reads(item, key)
    ensures !Blank(key)
  {
    var n :| 0 <= n < |item| && key.id == TrimSpace(item[..n]) && key.priv == TrimSpace(item[n+1..]);
    TrimIdempotent(item[..n]);
    TrimIdempotent(item[n+1..]);
  }

  method EnvNoiseKeys(env: map<string, string>, name: string, json: string -> Option<seq<Key>>, dst: Ref<seq<Key>>)
    returns (err: Option<Error>)
    modifies dst
    ensures var u := KeysUpdate(TrimSpace(Getenv(env, name)), json);
            err == u.Error() && dst.value == if u.Set? then u.value else old(dst.value)
    ensures TrimSpace(Getenv(env, name)) == "" ==> err.None?
    ensures TrimSpace(Getenv(env, name)) == "" || err.Some? ==> dst.value == old(dst.value)
    ensures var v := TrimSpace(Getenv(env, name));
            StartsWith(v, '[') ==>
              && (err.None? <==> json(v).Some? && forall k :: k in json(v).value ==> !Blank(k))
              && (err.None? ==> json(v) == Some(dst.value))
    ensures var v := TrimSpace(Getenv(env, name));
            v != "" && v[0] != '[' ==> ReadsList(Items(v, IsSeparator), err, dst.value)
  {
    var v := TrimSpace(Getenv(env, name));
    if v == "" {
      return None;
    }
    if v[0] != '[' {
      ListIsRead(v, json);
    }
    var r := ParseNoiseKeyList(v, json);
    if r.Err? {
      return Some(r.error);
    }
    var parsed := r.value;
    var blank := AnyBlank(parsed);
    if blank {
      return Some(EmptyEntry);
    }
    dst.value := parsed;
    return None;
  }

  method AnyBlank(parsed: seq<Key>) returns (blank: bool)
    ensures blank <==> exists k :: k in parsed && Blank(k)
  {
    for i := 0 to |parsed|
      invariant forall j :: 0 <= j < i ==> !Blank(parsed[j])
    {
      if Blank(parsed[i]) {
        assert parsed[i] in parsed;
        return true;
      }
    }
    return false;
  }

  // ---------- printing a key list ----------

  /** One printed segment: blanks only, or an entry with blanks around its parts. */
  datatype Piece =
    | Gap(w: string)
    | Entry(w0: string, id: string, w1: string, w2: string, priv: string, w3: string)

  predicate Padding(w: string) { AllSpace(w) && Free(w, IsSeparator) }

  predicate Printable(p: Piece) {
    match p
    case Gap(w) => Padding(w)
    case Entry(w0, id, w1, w2, priv, w3) =>
      && Padding(w0) && Padding(w1) && Padding(w2) && Padding(w3)
      && Trimmed(id) && Free(id, IsSeparator) && '=' !in id
      && Trimmed(priv) && Free(priv, IsSeparator)
  }

  function Print(p: Piece): string {
    match p
    case Gap(w) => w
    case Entry(w0, id, w1, w2, priv, w3) => w0 + (id + w1 + "=" + w2 + priv) + w3
  }

  function PrintAll(ps: seq<Piece>): (r: seq<string>)
    ensures |r| == |ps|
  {
    if ps == [] then [] else [Print(ps[0])] + PrintAll(ps[1..])
  }

  /** The keys a printed list stands for, in order. */
  function KeysOf(ps: seq<Piece>): seq<Key> {
    if ps == [] then []
    else if ps[0].Entry? then [Key(ps[0].id, ps[0].priv)] + KeysOf(ps[1..])
    else KeysOf(ps[1..])
  }

  lemma PrintFree(p: Piece)
    requires Printable(p)
    ensures Free(Print(p), IsSeparator)
  {
    if p.Entry? {
      assert Free(p.id + p.w1 + "=" + p.w2 + p.priv, IsSeparator);
    }
  }

  /** The item of a printed entry, without the outer padding. */
  function ItemOf(p: Piece): string
    requires p.Entry?
  {
    p.id + p.w1 + "=" + p.w2 + p.priv
  }

  lemma ItemTrimmed(p: Piece)
    requires Printable(p) && p.Entry?
    ensures TrimSpace(Print(p)) == ItemOf(p) != ""
  {
    var item := ItemOf(p);
    assert item[0] == p.id[0] && item[|item| - 1] == p.priv[|p.priv| - 1];
    TrimPad(p.w0, item, p.w3);
  }

  lemma {:induction false} FirstEquals(a: string, b: string)
    requires forall i :: 0 <= i < |a| ==> a[i] != '='
    ensures EqualsAt(a + "=" + b) == |a|
  {
    if a != "" {
      assert (a + "=" + b)[1..] == a[1..] + "=" + b;
      FirstEquals(a[1..], b);
    }
  }

  lemma ItemParses(p: Piece)
    requires Printable(p) && p.Entry?
    ensures ParseEntry(ItemOf(p)) == Some(Key(p.id, p.priv))
  {
    var a, b := p.id + p.w1, p.w2 + p.priv;
    assert ItemOf(p) == a + "=" + b;
    assert forall i :: 0 <= i < |p.w1| ==> p.w1[i] != '=' by {
      assert !IsSpace('=');
    }
    FirstEquals(a, b);
    assert ItemOf(p)[..|a|] == a && ItemOf(p)[|a| + 1..] == b;
    TrimPad("", p.id, p.w1);
    assert "" + p.id + p.w1 == a;
    TrimPad(p.w2, p.priv, "");
    assert p.w2 + p.priv + "" == b;
  }

  lemma PieceHead(p: Piece, parts: seq<string>)
    requires Printable(p)
    ensures var rest := NonEmpty(TrimAll(parts));
            NonEmpty(TrimAll([Print(p)] + parts)) == if p.Gap? then rest else [ItemOf(p)] + rest
  {
    TrimmedHead(Print(p), parts);
    if p.Gap? {
      TrimAllSpace(p.w);
    } else {
      ItemTrimmed(p);
    }
  }

  lemma {:induction false} PiecesReadBack(ps: seq<Piece>)
    requires forall p :: p in ps ==> Printable(p)
    ensures ParseEntries(NonEmpty(TrimAll(PrintAll(ps)))) == Ok(KeysOf(ps))
  {
    if ps != [] {
      assert ps[0] in ps && forall p :: p in ps[1..] ==> p in ps;
      PiecesReadBack(ps[1..]);
      PieceHead(ps[0], PrintAll(ps[1..]));
      if ps[0].Entry? {
        ItemParses(ps[0]);
        ParseEntriesCons(ItemOf(ps[0]), NonEmpty(TrimAll(PrintAll(ps[1..]))));
      }
    }
  }

  lemma {:induction false} PiecesFree(ps: seq<Piece>)
    requires forall p :: p in ps ==> Printable(p)
    ensures forall i :: 0 <= i < |ps| ==> Free(PrintAll(ps)[i], IsSeparator)
  {
    if ps != [] {
      assert ps[0] in ps && forall p :: p in ps[1..] ==> p in ps;
      PrintFree(ps[0]);
      PiecesFree(ps[1..]);
      assert forall i :: 0 < i < |ps| ==> PrintAll(ps)[i] == PrintAll(ps[1..])[i-1];
    }
  }

  /** Round trip: however a key list is printed (any separators, padding and blank items), reading
      the value gives back the same keys in the same order.  The empty list is read back as empty; a
      value of nothing but white space is left alone, as one that is not set. */
  lemma KeyListRoundTrip(ps: seq<Piece>, seps: string, json: string -> Option<seq<Key>>)
    requires |ps| == |seps| + 1
    requires forall p :: p in ps ==> Printable(p)
    requires forall i :: 0 <= i < |seps| ==> IsSeparator(seps[i])
    requires KeysOf(ps) != [] ==> !StartsWith(KeysOf(ps)[0].id, '[')
    ensures var v := TrimSpace(Interleave(PrintAll(ps), seps));
            && KeyList(v, json) == Ok(KeysOf(ps))
            && KeysUpdate(v, json) == (if v == "" then Keep else Set(KeysOf(ps)))
            && (KeysOf(ps) != [] ==> v != "")
  {
    var text := Interleave(PrintAll(ps), seps);
    PiecesFree(ps);
    SplitInterleave(PrintAll(ps), seps, IsSeparator);
    PiecesReadBack(ps);
    ItemsOfTrimmed(text, IsSeparator);
    NoBracket(ps, seps);
    TrimSpaceHead(text);
    KeysNotBlank(ps);
    NoItemsInNothing();
  }

  lemma NoItemsInNothing()
    ensures Items("", IsSeparator) == []
  {
    TrimmedHead("", []);
    assert [""] + [] == [""];
  }

  lemma TrimSpaceHead(s: string)
    ensures TrimSpace(s) != "" ==> TrimLeft(s) != "" && TrimSpace(s)[0] == TrimLeft(s)[0]
  {
    TrimRightCut(TrimLeft(s));
  }

  lemma {:induction false} KeysNotBlank(ps: seq<Piece>)
    requires forall p :: p in ps ==> Printable(p)
    ensures forall k :: k in KeysOf(ps) ==> !Blank(k)
  {
    if ps != [] {
      assert ps[0] in ps && forall p :: p in ps[1..] ==> p in ps;
      KeysNotBlank(ps[1..]);
      if ps[0].Entry? {
        TrimPad("", ps[0].id, "");
        TrimPad("", ps[0].priv, "");
        assert "" + ps[0].id + "" == ps[0].id && "" + ps[0].priv + "" == ps[0].priv;
      }
    }
  }

  lemma InterleaveHead(ps: seq<Piece>, seps: string)
    requires |ps| == |seps| + 1
    ensures Interleave(PrintAll(ps), seps) ==
            Print(ps[0]) + (if seps == "" then "" else [seps[0]] + Interleave(PrintAll(ps[1..]), seps[1..]))
  {
    assert PrintAll(ps)[1..] == PrintAll(ps[1..]);
  }

  /** The first character that is not white space is a separator or starts the first id. */
  lemma {:induction false} NoBracket(ps: seq<Piece>, seps: string)
    requires |ps| == |seps| + 1
    requires forall p :: p in ps ==> Printable(p)
    requires forall i :: 0 <= i < |seps| ==> IsSeparator(seps[i])
    requires KeysOf(ps) != [] ==> !StartsWith(KeysOf(ps)[0].id, '[')
    ensures !StartsWith(TrimLeft(Interleave(PrintAll(ps), seps)), '[')
  {
    assert ps[0] in ps;
    var rest := if seps == "" then "" else [seps[0]] + Interleave(PrintAll(ps[1..]), seps[1..]);
    InterleaveHead(ps, seps);
    if ps[0].Entry? {
      assert Print(ps[0]) + rest == ps[0].w0 + (ItemOf(ps[0]) + ps[0].w3 + rest);
      TrimLeftPad(ps[0].w0, ItemOf(ps[0]) + ps[0].w3 + rest);
    } else {
      TrimLeftPad(ps[0].w, rest);
      if seps != "" && seps[0] == '\n' {
        TrimLeftPad("\n", rest[1..]);
        assert ps[0] in ps && forall p :: p in ps[1..] ==> p in ps;
        NoBracket(ps[1..], seps[1..]);
      }
    }
  }

  // ---------- the map form ----------

  /** The list form of a map, later entries winning.  Unlike the key list it refuses blank items. */
  function MapEntries(fields: seq<string>, acc: map<string, string>): Result<map<string, string>, Error> {
    if fields == [] then Ok(acc)
    else
      var entry := ParseEntry(TrimSpace(fields[0]));
      if entry.None? then Err(BadEntry(fields[0]))
      else MapEntries(fields[1..], acc[entry.value.id := entry.value.priv])
  }

  predicate HasBlank(m: map<string, string>) {
    exists key :: key in m && (TrimSpace(key) == "" || TrimSpace(m[key]) == "")
  }

  function MapUpdate(v: string, json: string -> Option<map<string, string>>): Update<map<string, string>> {
    if v == "" then Keep
    else
      var parsed := if !StartsWith(v, '{') then MapEntries(Fields(v, IsSeparator), map[])
                    else if json(v).None? then Err(BadJson) else Ok(json(v).value);
      if parsed.Err? then Fail(parsed.error)
      else if HasBlank(parsed.value) then Fail(EmptyEntry)
      else Set(parsed.value)
  }

  method EnvStringMap(env: map<string, string>, name: string, json: string -> Option<map<string, string>>,
                      dst: Ref<map<string, string>>)
    returns (err: Option<Error>)
    modifies dst
    ensures var u := MapUpdate(TrimSpace(Getenv(env, name)), json);
            err == u.Error() && dst.value == if u.Set? then u.value else old(dst.value)
    ensures TrimSpace(Getenv(env, name)) == "" ==> err.None?
    ensures TrimSpace(Getenv(env, name)) == "" || err.Some? ==> dst.value == old(dst.value)
    ensures var v := TrimSpace(Getenv(env, name));
            StartsWith(v, '{') ==>
              && (err.None? <==> json(v).Some? && !HasBlank(json(v).value))
              && (err.None? ==> json(v) == Some(dst.value))
  {
    var v := TrimSpace(Getenv(env, name));
    if v == "" {
      return None;
    }
    var parsed: map<string, string> := map[];
    if StartsWith(v, '{') {
      var decoded := json(v);
      if decoded.None? {
        return Some(BadJson);
      }
      parsed := decoded.value;
    } else {
      var r := ParseMapFields(Fields(v, IsSeparator));
      if r.Err? {
        return Some(r.error);
      }
      parsed := r.value;
    }
    var todo := parsed.Keys;
    while todo != {}
      invariant todo <= parsed.Keys
      invariant forall key :: key in parsed.Keys - todo ==> TrimSpace(key) != "" && TrimSpace(parsed[key]) != ""
      invariant dst.value == old(dst.value)
    {
      var key :| key in todo;
      if TrimSpace(key) == "" || TrimSpace(parsed[key]) == "" {
        return Some(EmptyEntry);
      }
      todo := todo - {key};
    }
    dst.value := parsed;
    return None;
  }

  method ParseMapFields(fields: seq<string>) returns (r: Result<map<string, string>, Error>)
    ensures r == MapEntries(fields, map[])
  {
    var parsed: map<string, string> := map[];
    assert fields[0..] == fields;
    for i := 0 to |fields|
      invariant MapEntries(fields[i..], parsed) == MapEntries(fields, map[])
    {
      assert fields[i..][1..] == fields[i+1..];
      var entry := ParseEntry(TrimSpace(fields[i]));
      if entry.None? {
        return Err(BadEntry(fields[i]));
      }
      parsed := parsed[entry.value.id := entry.value.priv];
    }
    return Ok(parsed);
  }

  /** The map of a key list, later keys winning. */
  function Fold(keys: seq<Key>, acc: map<string, string>): map<string, string> {
    if keys == [] then acc else Fold(keys[1..], acc[keys[0].id := keys[0].priv])
  }

  /** Key i is the last one with this id. */
  predicate IsLastWith(keys: seq<Key>, id: string, i: nat) {
    i < |keys| && keys[i].id == id && forall j :: i < j < |keys| ==> keys[j].id != id
  }

  lemma {:induction false} FoldSnoc(keys: seq<Key>, key: Key, acc: map<string, string>)
    ensures Fold(keys + [key], acc) == Fold(keys, acc)[key.id := key.priv]
  {
    if keys == [] {
      assert [key][1..] == [] && [] + [key] == [key];
    } else {
      assert (keys + [key])[1..] == keys[1..] + [key];
      FoldSnoc(keys[1..], key, acc[keys[0].id := keys[0].priv]);
    }
  }

  /** The last key with an id gives its value, and there are no other ids. */
  lemma {:induction false} FoldMeaning(keys: seq<Key>, id: string)
    ensures var m := Fold(keys, map[]);
            if id in m then exists i: nat :: IsLastWith(keys, id, i) && m[id] == keys[i].priv
            else forall i :: 0 <= i < |keys| ==> keys[i].id != id
  {
    if keys != [] {
      var n := |keys| - 1;
      var init := keys[..n];
      FoldMeaning(init, id);
      assert keys == init + [keys[n]];
      FoldSnoc(init, keys[n], map[]);
      if keys[n].id == id {
        assert IsLastWith(keys, id, n);
      } else if i: nat :| IsLastWith(init, id, i) && Fold(init, map[])[id] == init[i].priv {
        assert IsLastWith(keys, id, i) && keys[i] == init[i];
      }
    }
  }

  predicate NoBlankField(fields: seq<string>) { forall f :: f in fields ==> TrimSpace(f) != "" }

  /** What the map parser makes of the fields, against what the ordered parser makes of them. */
  predicate MapFollows(fields: seq<string>, acc: map<string, string>, keys: Result<seq<Key>, Error>) {
    var m := MapEntries(fields, acc);
    && (m.Ok? <==> keys.Ok? && NoBlankField(fields))
    && (m.Ok? ==> m.value == Fold(keys.value, acc) && !HasBlank(m.value))
  }

  lemma {:induction false} MapFollowsList(fields: seq<string>, acc: map<string, string>)
    requires !HasBlank(acc)
    ensures MapFollows(fields, acc, ParseEntries(NonEmpty(TrimAll(fields))))
  {
    if fields != [] {
      var item, rest := TrimSpace(fields[0]), fields[1..];
      var keys := ParseEntries(NonEmpty(TrimAll(rest)));
      assert fields == [fields[0]] + rest;
      TrimmedHead(fields[0], rest);
      BlankHead(fields);
      if item != "" && ParseEntry(item).Some? {
        var key := ParseEntry(item).value;
        EntryNotBlank(item);
        PutNotBlank(acc, key);
        MapFollowsList(rest, acc[key.id := key.priv]);
      }
      if item != "" {
        ParseEntriesCons(item, NonEmpty(TrimAll(rest)));
        MapFollowsCons(fields, acc, keys);
      }
    }
  }

  lemma PutNotBlank(acc: map<string, string>, key: Key)
    requires !HasBlank(acc) && !Blank(key)
    ensures !HasBlank(acc[key.id := key.priv])
  {
  }

  lemma MapFollowsCons(fields: seq<string>, acc: map<string, string>, keys: Result<seq<Key>, Error>)
    requires fields != [] && TrimSpace(fields[0]) != ""
    requires var entry := ParseEntry(TrimSpace(fields[0]));
             entry.Some? ==> MapFollows(fields[1..], acc[entry.value.id := entry.value.priv], keys)
    ensures var entry := ParseEntry(TrimSpace(fields[0]));
            MapFollows(fields, acc,
              if entry.None? then Err(BadEntry(TrimSpace(fields[0])))
              else if keys.Err? then keys else Ok([entry.value] + keys.value))
  {
    BlankHead(fields);
    var entry := ParseEntry(TrimSpace(fields[0]));
    if entry.Some? {
      FoldCons(entry.value, keys, acc);
    }
  }

  lemma BlankHead(fields: seq<string>)
    requires fields != []
    ensures NoBlankField(fields) <==> TrimSpace(fields[0]) != "" && NoBlankField(fields[1..])
    ensures ParseEntry("").None?
  {
    assert fields == [fields[0]] + fields[1..];
  }

  lemma FoldCons(key: Key, keys: Result<seq<Key>, Error>, acc: map<string, string>)
    ensures keys.Ok? ==> Fold([key] + keys.value, acc) == Fold(keys.value, acc[key.id := key.priv])
  {
    assert keys.Ok? ==> ([key] + keys.value)[1..] == keys.value;
  }

  lemma EntryNotBlank(item: string)
    requires ParseEntry(item).Some?
    ensures !Blank(ParseEntry(item).value)
  {
    var n := EqualsAt(item);
    TrimIdempotent(item[..n]);
    TrimIdempotent(item[n+1..]);
  }

  /** On the list form the map parser accepts exactly what the ordered parser accepts, save values
      with a blank item between separators; and then the map is the ordered list folded with later
      entries winning. */
  lemma MapAgreesWithKeyList(
    text: string, jsonMap: string -> Option<map<string, string>>, jsonKeys: string -> Option<seq<Key>>)
    requires var v := TrimSpace(text); v != "" && !StartsWith(v, '{') && !StartsWith(v, '[')
    ensures var v := TrimSpace(text);
            var m, keys := MapUpdate(v, jsonMap), KeyList(v, jsonKeys);
            && (m.Set? <==> keys.Ok? && NoBlankField(Fields(v, IsSeparator)))
            && (m.Set? ==> m.value == Fold(keys.value, map[]))
            && !m.Keep?
  {
    var v := TrimSpace(text);
    FieldsAreSegments(v, IsSeparator);
    TrimNonEmpty(Split(v, IsSeparator));
    MapFollowsList(Fields(v, IsSeparator), map[]);
  }

  /** A blank item between separators tells the two parsers apart: the ordered list skips it, the map
      form refuses the value. */
  lemma BlankItemIsRefused(ps: seq<Piece>, seps: string, i: nat, jsonMap: string -> Option<map<string, string>>,
                           jsonKeys: string -> Option<seq<Key>>)
    requires |ps| == |seps| + 1
    requires forall p :: p in ps ==> Printable(p)
    requires forall k :: 0 <= k < |seps| ==> IsSeparator(seps[k])
    requires KeysOf(ps) != [] ==> !StartsWith(KeysOf(ps)[0].id, '[')
    requires i < |ps| && ps[i].Gap? && ps[i].w != ""
    requires var v := Interleave(PrintAll(ps), seps); Trimmed(v) && !StartsWith(v, '{') && !StartsWith(v, '[')
    ensures var v := Interleave(PrintAll(ps), seps);
            KeyList(v, jsonKeys) == Ok(KeysOf(ps)) && MapUpdate(v, jsonMap).Fail?
  {
    var parts := PrintAll(ps);
    PiecesFree(ps);
    SplitInterleave(parts, seps, IsSeparator);
    PrintedAt(ps, i);
    assert ps[i] in ps;
    RefusesBlank(Interleave(parts, seps), parts, i, jsonMap);
    KeyListRoundTrip(ps, seps, jsonKeys);
  }

  lemma RefusesBlank(v: string, parts: seq<string>, i: nat, json: string -> Option<map<string, string>>)
    requires Trimmed(v) && !StartsWith(v, '{') && !StartsWith(v, '[')
    requires Split(v, IsSeparator) == parts && i < |parts| && AllSpace(parts[i]) && parts[i] != ""
    ensures TrimSpace(v) == v && MapUpdate(v, json).Fail?
  {
    TrimPad("", v, "");
    assert "" + v + "" == v;
    FieldsAreSegments(v, IsSeparator);
    StaysNonEmpty(parts, i);
    TrimAllSpace(parts[i]);
    MapAgreesWithKeyList(v, json, _ => None);
  }

  lemma {:induction false} PrintedAt(ps: seq<Piece>, i: nat)
    requires i < |ps|
    ensures PrintAll(ps)[i] == Print(ps[i])
  {
    if i > 0 {
      PrintedAt(ps[1..], i - 1);
    }
  }

  lemma {:induction false} StaysNonEmpty(parts: seq<string>, i: nat)
    requires i < |parts| && parts[i] != ""
    ensures parts[i] in NonEmpty(parts)
  {
    assert parts == [parts[0]] + parts[1..];
    NonEmptyCons(parts[0], parts[1..]);
    if i > 0 {
      StaysNonEmpty(parts[1..], i - 1);
    }
  }

  /** For example "a=1, ,b=2". */
  lemma BlankItemExample(jsonMap: string -> Option<map<string, string>>, jsonKeys: string -> Option<seq<Key>>)
    ensures KeyList("a=1, ,b=2", jsonKeys) == Ok([Key("a", "1"), Key("b", "2")])
    ensures MapUpdate("a=1, ,b=2", jsonMap).Fail?
  {
    var a, b := Entry("", "a", "", "", "1", ""), Entry("", "b", "", "", "2", "");
    var ps := [a, Gap(" "), b];
    ExamplePrinted(a, b, ps);
    BlankItemIsRefused(ps, ",,", 1, jsonMap, jsonKeys);
  }

  lemma ExamplePrinted(a: Piece, b: Piece, ps: seq<Piece>)
    requires a == Entry("", "a", "", "", "1", "") && b == Entry("", "b", "", "", "2", "") && ps == [a, Gap(" "), b]
    ensures Interleave(PrintAll(ps), ",,") == "a=1, ,b=2"
    ensures KeysOf(ps) == [Key("a", "1"), Key("b", "2")]
    ensures Printable(a) && Printable(b) && Printable(Gap(" "))
  {
    ThreePrinted(a, Gap(" "), b, ',', ',');
    assert Print(a) == "a=1" && Print(b) == "b=2";
    assert [','] + [','] == ",,";
  }

  lemma ThreePrinted(a: Piece, gap: Piece, b: Piece, c: char, d: char)
    requires a.Entry? && gap.Gap? && b.Entry?
    ensures KeysOf([a, gap, b]) == [Key(a.id, a.priv), Key(b.id, b.priv)]
    ensures Interleave(PrintAll([a, gap, b]), [c] + [d]) == Print(a) + [c] + (Print(gap) + [d] + Print(b))
  {
    assert [a, gap, b] == [a] + [gap, b] && [gap, b] == [gap] + [b] && [b] == [b] + [];
    assert ([c] + [d])[1..] == [d] && [d][1..] == "";
    PrintedCons(b, [], "");
    PrintedCons(gap, [b], [d]);
    PrintedCons(a, [gap, b], [c] + [d]);
  }

  lemma PrintedCons(p: Piece, ps: seq<Piece>, seps: string)
    requires |ps| == |seps|
    ensures KeysOf([p] + ps) == if p.Entry? then [Key(p.id, p.priv)] + KeysOf(ps) else KeysOf(ps)
    ensures Interleave(PrintAll([p] + ps), seps) ==
            if seps == "" then Print(p) else Print(p) + [seps[0]] + Interleave(PrintAll(ps), seps[1..])
  {
    assert ([p] + ps)[1..] == ps;
    InterleaveHead([p] + ps, seps);
  }
}
