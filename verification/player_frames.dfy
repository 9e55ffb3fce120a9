/** Validation of the player frame overrides: which asset paths, user ids and lists of entries are
    accepted. */
module PlayerFrames {
  import opened Wrappers
  import opened Text
  import opened Decimal

  // ---------- lexical path cleaning ----------

  predicate IsSlash(c: char) { c == '/' }

  function Slashes(n: nat): (s: string)
    ensures |s| == n && forall i :: 0 <= i < n ==> s[i] == '/'
  {
    seq(n, _ => '/')
  }

  function Join(parts: seq<string>): string {
    if parts == [] then "" else Interleave(parts, Slashes(|parts| - 1))
  }

  /** One path element against the elements kept so far. */
  function Push(kept: seq<string>, part: string, rooted: bool): seq<string> {
    if part == "" || part == "." then kept
    else if part != ".." then kept + [part]
    else if kept != [] && kept[|kept| - 1] != ".." then kept[..|kept| - 1]
    else if rooted then kept
    else kept + [".."]
  }

  function PushAll(kept: seq<string>, parts: seq<string>, rooted: bool): seq<string>
    decreases |parts|
  {
    if parts == [] then kept else PushAll(Push(kept, parts[0], rooted), parts[1..], rooted)
  }

  /** path.Clean. */
  function Clean(p: string): string {
    var rooted := p != "" && p[0] == '/';
    var out := (if rooted then "/" else "") + Join(PushAll([], Split(p, IsSlash), rooted));
    if out == "" then "." else out
  }

  predicate Plain(part: string) { part != "" && part != "." && part != ".." && Free(part, IsSlash) }

  /** What cleaning keeps: no empty or "." elements, and ".." only in front. */
  predicate Kept(parts: seq<string>) {
    && (forall i :: 0 <= i < |parts| ==> parts[i] != "" && parts[i] != "." && Free(parts[i], IsSlash))
    && (forall i, j :: 0 <= i < j < |parts| && parts[j] == ".." ==> parts[i] == "..")
  }

  lemma {:induction false} PushAllKept(kept: seq<string>, parts: seq<string>, rooted: bool)
    requires Kept(kept) && forall i :: 0 <= i < |parts| ==> Free(parts[i], IsSlash)
    ensures Kept(PushAll(kept, parts, rooted))
    decreases |parts|
  {
    if parts != [] {
      var next := Push(kept, parts[0], rooted);
      assert Kept(next);
      PushAllKept(next, parts[1..], rooted);
    }
  }

  lemma {:induction false} PushAllPlain(kept: seq<string>, parts: seq<string>, rooted: bool)
    requires forall i :: 0 <= i < |parts| ==> Plain(parts[i])
    ensures PushAll(kept, parts, rooted) == kept + parts
    decreases |parts|
  {
    if parts == [] {
      assert kept + parts == kept;
    } else {
      PushAllPlain(kept + [parts[0]], parts[1..], rooted);
      assert kept + parts == kept + [parts[0]] + parts[1..];
    }
  }

  lemma JoinSplit(p: string)
    ensures Join(Split(p, IsSlash)) == p
    ensures forall i :: 0 <= i < |Split(p, IsSlash)| ==> Free(Split(p, IsSlash)[i], IsSlash)
  {
    SplitRestores(p, IsSlash);
    SeparatorsAreSlashes(p);
  }

  lemma {:induction false} SeparatorsAreSlashes(p: string)
    ensures Separators(p, IsSlash) == Slashes(|Separators(p, IsSlash)|)
  {
    if p != "" {
      SeparatorsAreSlashes(p[1..]);
    }
  }

  lemma SplitJoin(parts: seq<string>)
    requires parts != [] && forall i :: 0 <= i < |parts| ==> Free(parts[i], IsSlash)
    ensures Split(Join(parts), IsSlash) == parts
  {
    SplitInterleave(parts, Slashes(|parts| - 1), IsSlash);
  }

  /** A path that does not start with '/' or with ".." is a fixed point of cleaning exactly when
      it is "." or all its elements are plain. */
  lemma CleanFixedPoint(p: string)
    requires p != "" && p[0] != '/' && Split(p, IsSlash)[0] != ".."
    ensures Clean(p) == p <==> p == "." || forall i :: 0 <= i < |Split(p, IsSlash)| ==> Plain(Split(p, IsSlash)[i])
  {
    var parts := Split(p, IsSlash);
    var kept := PushAll([], parts, false);
    JoinSplit(p);
    PushAllKept([], parts, false);
    if forall i :: 0 <= i < |parts| ==> Plain(parts[i]) {
      PushAllPlain([], parts, false);
      assert [] + parts == parts;
      assert Clean(p) == "" + Join(parts) == p;
    }
    if p == "." {
      SplitFree(".", IsSlash);
      assert parts == ["."] && parts[1..] == [];
      assert Push([], ".", false) == [];
      assert kept == PushAll([], [], false) == [];
    }
    if Clean(p) == p && p != "." {
      assert p == "" + Join(kept) == Join(kept);
      SplitJoin(kept);
    }
  }

  // ---------- asset paths ----------

  const ROOT: string := "static_images"

  predicate Contains(s: string, chars: string) { exists i :: 0 <= i < |s| && s[i] in chars }

  /** The condition the code checks for each asset. */
  predicate ValidAsset(value: string) {
    && ROOT + "/" <= value
    && Clean(value) == value
    && !Contains(value, "\\\0\r\n")
    && !Contains(value, ":")
    && value != ROOT + "/"
  }

  /** What it means: a file below static_images, named by plain path elements. */
  ghost predicate AssetPath(value: string) {
    && (exists parts: seq<string> ::
          parts != [] && value == ROOT + "/" + Join(parts) && forall i :: 0 <= i < |parts| ==> Plain(parts[i]))
    && Harmless(value)
  }

  /** None of the characters an asset path must not contain. */
  predicate Harmless(value: string) { forall i :: 0 <= i < |value| ==> value[i] !in "\\\0\r\n:" }

  lemma HarmlessMeaning(value: string)
    ensures Harmless(value) <==> !Contains(value, "\\\0\r\n") && !Contains(value, ":")
  {
    assert "\\\0\r\n:" == "\\\0\r\n" + ":";
    forall i | 0 <= i < |value|
      ensures value[i] in "\\\0\r\n:" <==> value[i] in "\\\0\r\n" || value[i] in ":"
    {
      InAppend(value[i], "\\\0\r\n", ":");
    }
  }

  lemma InAppend(c: char, a: string, b: string)
    ensures c in a + b <==> c in a || c in b
  {
  }

  lemma RootedSplit(rest: string)
    ensures Split(ROOT + "/" + rest, IsSlash) == [ROOT] + Split(rest, IsSlash)
  {
    SplitFirst(ROOT, '/', rest, IsSlash);
  }

  lemma CleanBelowRoot(value: string)
    requires ROOT + "/" <= value
    ensures var rest := Split(value[|ROOT| + 1..], IsSlash);
            Clean(value) == value <==> forall i :: 0 <= i < |rest| ==> Plain(rest[i])
  {
    var rest := value[|ROOT| + 1..];
    assert value == ROOT + "/" + rest;
    RootedSplit(rest);
    assert value[0] == 's';
    CleanFixedPoint(value);
    assert Plain(ROOT);
    AllPlain(ROOT, Split(rest, IsSlash));
  }

  lemma AllPlain(first: string, parts: seq<string>)
    ensures (forall i :: 0 <= i < |[first] + parts| ==> Plain(([first] + parts)[i])) <==>
            Plain(first) && forall i :: 0 <= i < |parts| ==> Plain(parts[i])
  {
    assert ([first] + parts)[0] == first;
    assert forall i :: 0 <= i < |parts| ==> ([first] + parts)[i+1] == parts[i];
  }

  lemma ValidAssetMeaning(value: string)
    ensures ValidAsset(value) <==> AssetPath(value)
  {
    HarmlessMeaning(value);
    if ValidAsset(value) {
      CleanBelowRoot(value);
      var rest := value[|ROOT| + 1..];
      JoinSplit(rest);
      assert value == ROOT + "/" + rest;
    }
    if AssetPath(value) {
      PathIsClean(value);
    }
  }

  lemma PathIsClean(value: string)
    requires AssetPath(value)
    ensures ROOT + "/" <= value && Clean(value) == value && value != ROOT + "/"
  {
    var parts :| parts != [] && value == ROOT + "/" + Join(parts) && forall i :: 0 <= i < |parts| ==> Plain(parts[i]);
    SplitJoin(parts);
    assert value[|ROOT| + 1..] == Join(parts);
    CleanBelowRoot(value);
    NotBareRoot(value);
  }

  /** The last test of the code is redundant: the bare directory is not a clean path. */
  lemma NotBareRoot(value: string)
    requires ROOT + "/" <= value && Clean(value) == value
    ensures value != ROOT + "/"
  {
    if value == ROOT + "/" {
      CleanBelowRoot(value);
      assert value[|ROOT| + 1..] == "";
      assert Split("", IsSlash)[0] == "";
    }
  }

  // ---------- user ids ----------

  predicate ValidUserId(s: string) {
    var uid := ParseUint(s);
    uid.Some? && uid.value != 0 && FormatUint(uid.value) == s
  }

  /** Parsing and formatting back selects the decimal strings without a leading zero that fit 64
      bits. */
  lemma ValidUserIdMeaning(s: string)
    ensures ValidUserId(s) <==> s != "" && AllDigits(s) && s[0] != '0' && Value(s) < TWO_64
  {
    if s != "" && AllDigits(s) {
      if s[0] != '0' {
        FormatUndoesValue(s);
      } else if Value(s) > 0 {
        FormatHasNoLeadingZero(Value(s));
      }
    }
  }

  // ---------- entries ----------

  datatype Parts = Parts(
    base: string, centerTop: string, leftTop: string, rightTop: string, leftBottom: string, rightBottom: string)
  {
    function ByName(): map<string, string> {
      map["base" := base, "centertop" := centerTop, "lefttop" := leftTop,
          "righttop" := rightTop, "leftbottom" := leftBottom, "rightbottom" := rightBottom]
    }
  }

  datatype Override = Override(server: string, userId: string, horizontal: Parts, vertical: Option<Parts>)

  datatype Error =
    | BadServer(index: nat)
    | BadUserId(index: nat)
    | Duplicate(index: nat)
    | BadPart(index: nat, cell: string, name: string)

  /** All six parts are assets. */
  predicate AllAssets(p: Parts) {
    && ValidAsset(p.base) && ValidAsset(p.centerTop) && ValidAsset(p.leftTop)
    && ValidAsset(p.rightTop) && ValidAsset(p.leftBottom) && ValidAsset(p.rightBottom)
  }

  /** The name is that of a part that is not an asset. */
  predicate NamesBadPart(p: Parts, name: string) {
    || (name == "base" && !ValidAsset(p.base))
    || (name == "centertop" && !ValidAsset(p.centerTop))
    || (name == "lefttop" && !ValidAsset(p.leftTop))
    || (name == "righttop" && !ValidAsset(p.rightTop))
    || (name == "leftbottom" && !ValidAsset(p.leftBottom))
    || (name == "rightbottom" && !ValidAsset(p.rightBottom))
  }

  /** The map of the code holds each part under its name, and nothing else. */
  lemma SixParts(p: Parts)
    ensures AllAssets(p) <==> forall name :: name in p.ByName() ==> ValidAsset(p.ByName()[name])
    ensures forall name :: name in p.ByName() && !ValidAsset(p.ByName()[name]) ==> NamesBadPart(p, name)
  {
    var m := p.ByName();
    assert m["base"] == p.base && m["centertop"] == p.centerTop && m["lefttop"] == p.leftTop;
    assert m["righttop"] == p.rightTop && m["leftbottom"] == p.leftBottom && m["rightbottom"] == p.rightBottom;
  }

  /** Visits the six parts in whatever order the map yields them. */
  method ValidateParts(i: nat, cell: string, p: Parts) returns (err: Option<Error>)
    ensures err.None? <==> AllAssets(p)
    ensures err.Some? ==>
              err.value.BadPart? && err.value.index == i && err.value.cell == cell && NamesBadPart(p, err.value.name)
  {
    SixParts(p);
    var m := p.ByName();
    var todo := m.Keys;
    while todo != {}
      invariant todo <= m.Keys
      invariant forall name :: name in m && name !in todo ==> ValidAsset(m[name])
    {
      var name :| name in todo;
      if !ValidAsset(m[name]) {
        return Some(BadPart(i, cell, name));
      }
      todo := todo - {name};
    }
    return None;
  }

  predicate KnownServer(s: string) { s == "jp" || s == "cn" || s == "en" || s == "tw" || s == "kr" }

  predicate ValidOverride(e: Override) {
    && KnownServer(e.server) && ValidUserId(e.userId)
    && AllAssets(e.horizontal) && (e.vertical.Some? ==> AllAssets(e.vertical.value))
  }

  predicate SameAccount(e: Override, f: Override) { e.server == f.server && e.userId == f.userId }

  function AccountKey(e: Override): string { e.server + ":" + e.userId }

  lemma KeyIsAccount(e: Override, f: Override)
    requires KnownServer(e.server) && KnownServer(f.server)
    ensures AccountKey(e) == AccountKey(f) <==> SameAccount(e, f)
  {
    assert |e.server| == |f.server| == 2;
    assert AccountKey(e)[..2] == e.server && AccountKey(f)[..2] == f.server;
    assert AccountKey(e)[3..] == e.userId && AccountKey(f)[3..] == f.userId;
  }

  /** The entries before n are all valid and name different accounts. */
  predicate ValidPrefix(entries: seq<Override>, n: nat)
    requires n <= |entries|
  {
    && (forall i :: 0 <= i < n ==> ValidOverride(entries[i]))
    && (forall i, j :: 0 <= i < j < n ==> !SameAccount(entries[i], entries[j]))
  }

  /** One more entry is acceptable exactly when it is valid and its account is new. */
  lemma PrefixStep(entries: seq<Override>, i: nat)
    requires i < |entries| && ValidPrefix(entries, i)
    ensures ValidPrefix(entries, i + 1) <==>
            ValidOverride(entries[i]) && forall j :: 0 <= j < i ==> !SameAccount(entries[j], entries[i])
    ensures !ValidPrefix(entries, i + 1) ==> !ValidPrefix(entries, |entries|)
  {
    if ValidPrefix(entries, |entries|) {
      ShorterPrefix(entries, i + 1);
    }
  }

  /** The keys seen so far tell whether the account is new. */
  lemma KeysTell(entries: seq<Override>, i: nat)
    requires i < |entries| && ValidPrefix(entries, i) && KnownServer(entries[i].server)
    ensures forall j :: 0 <= j < i ==>
              (AccountKey(entries[j]) == AccountKey(entries[i]) <==> SameAccount(entries[j], entries[i]))
  {
    forall j | 0 <= j < i
      ensures AccountKey(entries[j]) == AccountKey(entries[i]) <==> SameAccount(entries[j], entries[i])
    {
      ServerOfValid(entries[j]);
      KeyIsAccount(entries[j], entries[i]);
    }
  }

  lemma ServerOfValid(e: Override)
    ensures ValidOverride(e) ==> KnownServer(e.server)
  {
  }

  lemma ShorterPrefix(entries: seq<Override>, n: nat)
    requires n <= |entries| && ValidPrefix(entries, |entries|)
    ensures ValidPrefix(entries, n)
  {
  }

  /** The error says what is wrong with the entry it points at. */
  predicate Explains(entries: seq<Override>, err: Error)
    requires err.index < |entries|
  {
    var e := entries[err.index];
    match err
    case BadServer(_) => !KnownServer(e.server)
    case BadUserId(_) => KnownServer(e.server) && !ValidUserId(e.userId)
    case Duplicate(i) => exists j :: 0 <= j < i && SameAccount(entries[j], e)
    case BadPart(_, cell, name) => ExplainsPart(e, cell, name)
  }

  predicate ExplainsPart(e: Override, cell: string, name: string) {
    || (cell == "horizontal" && NamesBadPart(e.horizontal, name))
    || (cell == "vertical" && e.vertical.Some? && AllAssets(e.horizontal) && NamesBadPart(e.vertical.value, name))
  }

  /** Accepts exactly the lists of valid entries for pairwise different accounts; otherwise the
      error points at the first entry that is not acceptable after those before it, and says why. */
  method ValidatePlayerFrameOverrides(entries: seq<Override>) returns (err: Option<Error>)
    ensures err.None? <==> ValidPrefix(entries, |entries|)
    ensures err.Some? ==>
              && err.value.index < |entries|
              && ValidPrefix(entries, err.value.index) && !ValidPrefix(entries, err.value.index + 1)
              && Explains(entries, err.value)
  {
    var seen: set<string> := {};
    for i := 0 to |entries|
      invariant ValidPrefix(entries, i)
      invariant seen == set j | 0 <= j < i :: AccountKey(entries[j])
    {
      var e := entries[i];
      PrefixStep(entries, i);
      if !KnownServer(e.server) {
        return Some(BadServer(i));
      }
      if !ValidUserId(e.userId) {
        return Some(BadUserId(i));
      }
      KeysTell(entries, i);
      if AccountKey(e) in seen {
        ghost var j :| 0 <= j < i && AccountKey(entries[j]) == AccountKey(e);
        assert SameAccount(entries[j], e);
        return Some(Duplicate(i));
      }
      seen := seen + {AccountKey(e)};
      err := ValidateCells(i, e);
      if err.Some? {
        return;
      }
    }
    return None;
  }

  /** The parts of both cells, the second one only if it is given. */
  method ValidateCells(i: nat, e: Override) returns (err: Option<Error>)
    ensures err.None? <==> AllAssets(e.horizontal) && (e.vertical.Some? ==> AllAssets(e.vertical.value))
    ensures err.Some? ==> err.value.BadPart? && err.value.index == i && ExplainsPart(e, err.value.cell, err.value.name)
  {
    err := ValidateParts(i, "horizontal", e.horizontal);
    if err.None? && e.vertical.Some? {
      err := ValidateParts(i, "vertical", e.vertical.value);
    }
  }
}
