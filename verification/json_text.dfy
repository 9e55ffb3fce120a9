/** JSON text (RFC 8259): an encoder that writes the way the response encoder does, and a parser
    for the whole grammar. */
module JsonText {
  import opened Wrappers
  import opened Decimal

  datatype Json =
    | Null
    | Bool(value: bool)
    | Num(lit: string)
    | Str(text: string)
    | Arr(items: seq<Json>)
    | Obj(members: seq<Member>)
  datatype Member = Member(name: string, value: Json)

  // ---------- numbers (section 6) ----------

  datatype NumState = Start | Minus | Zero | Digits | Dot | Frac | Exp | ExpSign | ExpDigits | Stuck

  function FirstDigit(c: char): NumState { if c == '0' then Zero else if IsDigit(c) then Digits else Stuck }

  function AfterInt(c: char): NumState { if c == '.' then Dot else if c == 'e' || c == 'E' then Exp else Stuck }

  function NumStep(st: NumState, c: char): NumState {
    match st
    case Start => if c == '-' then Minus else FirstDigit(c)
    case Minus => FirstDigit(c)
    case Zero => AfterInt(c)
    case Digits => if IsDigit(c) then Digits else AfterInt(c)
    case Dot => if IsDigit(c) then Frac else Stuck
    case Frac => if IsDigit(c) then Frac else if c == 'e' || c == 'E' then Exp else Stuck
    case Exp => if c == '+' || c == '-' then ExpSign else if IsDigit(c) then ExpDigits else Stuck
    case ExpSign => if IsDigit(c) then ExpDigits else Stuck
    case ExpDigits => if IsDigit(c) then ExpDigits else Stuck
    case Stuck => Stuck
  }

  predicate NumAccepts(st: NumState) { st.Zero? || st.Digits? || st.Frac? || st.ExpDigits? }

  /** How many characters a number takes from the front of s, starting in state st. */
  function NumLength(st: NumState, s: string): (n: nat)
    ensures n <= |s|
    decreases |s|
  {
    if s == "" || NumStep(st, s[0]).Stuck? then 0 else 1 + NumLength(NumStep(st, s[0]), s[1..])
  }

  function NumEnd(st: NumState, s: string): NumState
    decreases |s|
  {
    if s == "" || NumStep(st, s[0]).Stuck? then st else NumEnd(NumStep(st, s[0]), s[1..])
  }

  predicate IsNumber(lit: string) { lit != "" && NumLength(Start, lit) == |lit| && NumAccepts(NumEnd(Start, lit)) }

  /** A text after which no number can go on. */
  predicate Delimited(s: string) { s == "" || s[0] == ',' || s[0] == ']' || s[0] == '}' }

  lemma {:induction false} NumberStops(st: NumState, lit: string, rest: string)
    requires NumLength(st, lit) == |lit| && Delimited(rest)
    ensures NumLength(st, lit + rest) == |lit| && NumEnd(st, lit + rest) == NumEnd(st, lit)
    decreases |lit|
  {
    if lit == "" {
      assert lit + rest == rest;
    } else {
      assert (lit + rest)[1..] == lit[1..] + rest;
      NumberStops(NumStep(st, lit[0]), lit[1..], rest);
    }
  }

  // ---------- strings (section 7) ----------

  function HexDigit(n: nat): char
    requires n < 16
  {
    if n < 10 then '0' + n as char else 'a' + (n - 10) as char
  }

  function HexValue(c: char): Option<nat> {
    if '0' <= c <= '9' then Some((c - '0') as nat)
    else if 'a' <= c <= 'f' then Some((c - 'a') as nat + 10)
    else if 'A' <= c <= 'F' then Some((c - 'A') as nat + 10)
    else None
  }

  function Hex4(n: nat): string
    requires n < 0x10000
  {
    var q := n / 16;
    var r := q / 16;
    [HexDigit(r / 16), HexDigit(r % 16), HexDigit(q % 16), HexDigit(n % 16)]
  }

  function ParseHex4(s: string): (r: Option<nat>)
    ensures r.Some? ==> |s| >= 4 && r.value < 0x10000
  {
    if |s| < 4 then None
    else
      var a, b, c, d := HexValue(s[0]), HexValue(s[1]), HexValue(s[2]), HexValue(s[3]);
      if a.None? || b.None? || c.None? || d.None? then None
      else Some(HexNumber(a.value, b.value, c.value, d.value))
  }

  function HexNumber(a: nat, b: nat, c: nat, d: nat): (n: nat)
    requires a < 16 && b < 16 && c < 16 && d < 16
    ensures n < 0x10000
  {
    16 * (16 * (16 * a + b) + c) + d
  }

  lemma HexDigitValue(n: nat)
    requires n < 16
    ensures HexValue(HexDigit(n)) == Some(n)
  {
  }

  lemma HexRoundTrip(n: nat, rest: string)
    requires n < 0x10000
    ensures ParseHex4(Hex4(n) + rest) == Some(n)
  {
    var q := n / 16;
    var r := q / 16;
    HexDigitValue(r / 16);
    HexDigitValue(r % 16);
    HexDigitValue(q % 16);
    HexDigitValue(n % 16);
    assert n == 16 * q + n % 16 && q == 16 * r + q % 16 && r == 16 * (r / 16) + r % 16;
  }

  /** Characters the encoder writes as \u escapes: controls without a short form, the HTML-relevant
      ones, and the two line separators. */
  predicate NeedsU(c: char) {
    c < ' ' || c == '<' || c == '>' || c == '&' || c == '\U{2028}' || c == '\U{2029}'
  }

  function Escape(c: char): string {
    if c == '"' then "\\\""
    else if c == '\\' then "\\\\"
    else if c == '\U{8}' then "\\b"
    else if c == '\U{c}' then "\\f"
    else if c == '\n' then "\\n"
    else if c == '\r' then "\\r"
    else if c == '\t' then "\\t"
    else if NeedsU(c) then "\\u" + Hex4(c as nat)
    else [c]
  }

  function EscapeAll(s: string): string {
    if s == "" then "" else Escape(s[0]) + EscapeAll(s[1..])
  }

  function Quote(s: string): string { "\"" + EscapeAll(s) + "\"" }

  function ShortEscape(c: char): Option<char> {
    match c
    case '"' => Some('"')
    case '\\' => Some('\\')
    case '/' => Some('/')
    case 'b' => Some('\U{8}')
    case 'f' => Some('\U{c}')
    case 'n' => Some('\n')
    case 'r' => Some('\r')
    case 't' => Some('\t')
    case _ => None
  }

  /** The character a \u escape stands for, and how much of s (which follows the 'u') it takes: a
      surrogate pair is one character, a lone surrogate is replaced. */
  function DecodeU(s: string): (r: Option<(char, nat)>)
    ensures r.Some? ==> 0 < r.value.1 <= |s|
  {
    var hi := ParseHex4(s);
    if hi.None? then None
    else if !(0xD800 <= hi.value < 0xE000) then Some((hi.value as char, 4))
    else
      var lo := if |s| >= 6 && s[4] == '\\' && s[5] == 'u' then ParseHex4(s[6..]) else None;
      if hi.value < 0xDC00 && lo.Some? && 0xDC00 <= lo.value < 0xE000
      then Some(((0x10000 + (hi.value - 0xD800) * 0x400 + (lo.value - 0xDC00)) as char, 10))
      else Some(('\U{fffd}', 4))
  }

  /** One character of a string body, and how much of s it takes. */
  function DecodeChar(s: string): (r: Option<(char, nat)>)
    requires s != ""
    ensures r.Some? ==> 0 < r.value.1 <= |s|
  {
    if s[0] < ' ' then None
    else if s[0] != '\\' then Some((s[0], 1))
    else if |s| == 1 then None
    else if s[1] == 'u' then
      var u := DecodeU(s[2..]);
      if u.None? then None else Some((u.value.0, u.value.1 + 2))
    else
      var c := ShortEscape(s[1]);
      if c.None? then None else Some((c.value, 2))
  }

  /** The rest of a string whose opening quote has been read, and what follows its closing one. */
  function Unquote(s: string): (r: Option<(string, string)>)
    ensures r.Some? ==> |r.value.1| < |s|
    decreases |s|
  {
    if s == "" then None
    else if s[0] == '"' then Some(("", s[1..]))
    else
      var c := DecodeChar(s);
      if c.None? then None
      else
        var rest := Unquote(s[c.value.1..]);
        if rest.None? then None else Some(([c.value.0] + rest.value.0, rest.value.1))
  }

  /** Nothing that must be escaped is left as it is: no control character, and none of the characters
      that matter in HTML or end a line in scripts. */
  lemma {:induction false} EscapedIsClean(s: string)
    ensures forall i :: 0 <= i < |EscapeAll(s)| ==>
              var c := EscapeAll(s)[i];
              c >= ' ' && c != '<' && c != '>' && c != '&' && c != '\U{2028}' && c != '\U{2029}'
  {
    if s != "" {
      EscapedIsClean(s[1..]);
      CharIsClean(s[0]);
    }
  }

  lemma CharIsClean(c: char)
    ensures forall i :: 0 <= i < |Escape(c)| ==> Escape(c)[i] >= ' ' && !NeedsU(Escape(c)[i])
  {
    if |Escape(c)| == 6 {
      assert Escape(c) == "\\u" + Hex4(c as nat);
    }
  }

  lemma EscapeDecodes(c: char, rest: string)
    ensures var s := Escape(c) + rest;
            s != "" && s[0] != '"' && DecodeChar(s) == Some((c, |Escape(c)|)) && s[|Escape(c)|..] == rest
  {
    var e := Escape(c);
    var s := e + rest;
    assert s[|e|..] == rest && s[0] == e[0];
    if |e| == 6 {
      UEscapeDecodes(c, rest);
    } else if |e| == 2 {
      assert s[1] == e[1];
      ShortEscapeDecodes(c);
    }
  }

  lemma ShortEscapeDecodes(c: char)
    requires |Escape(c)| == 2
    ensures Escape(c)[0] == '\\' && Escape(c)[1] != 'u' && ShortEscape(Escape(c)[1]) == Some(c)
  {
  }

  lemma UEscapeDecodes(c: char, rest: string)
    requires |Escape(c)| == 6
    ensures DecodeChar(Escape(c) + rest) == Some((c, 6))
  {
    var s := Escape(c) + rest;
    HexRoundTrip(c as nat, rest);
    assert s[0] == '\\' && s[1] == 'u' && s[2..] == Hex4(c as nat) + rest;
    assert (c as nat) as char == c;
  }

  lemma UnquoteStep(s: string, c: char, n: nat, text: string, rest: string)
    requires s != "" && s[0] != '"' && DecodeChar(s) == Some((c, n)) && n <= |s|
    requires Unquote(s[n..]) == Some((text, rest))
    ensures Unquote(s) == Some(([c] + text, rest))
  {
  }

  lemma AssocQuote(a: string, b: string, rest: string)
    ensures a + b + "\"" + rest == a + (b + "\"" + rest)
  {
  }

  lemma {:induction false} QuoteRoundTrip(s: string, rest: string)
    ensures Unquote(EscapeAll(s) + "\"" + rest) == Some((s, rest))
  {
    if s == "" {
      assert "" + "\"" + rest == "\"" + rest;
    } else {
      var tail := EscapeAll(s[1..]) + "\"" + rest;
      var text := Escape(s[0]) + tail;
      AssocQuote(Escape(s[0]), EscapeAll(s[1..]), rest);
      EscapeDecodes(s[0], tail);
      QuoteRoundTrip(s[1..], rest);
      UnquoteStep(text, s[0], |Escape(s[0])|, s[1..], rest);
      assert [s[0]] + s[1..] == s;
    }
  }

  // ---------- values (sections 2 to 5) ----------

  function Encode(j: Json): string
    decreases j, 0
  {
    match j
    case Null => "null"
    case Bool(b) => if b then "true" else "false"
    case Num(lit) => lit
    case Str(s) => Quote(s)
    case Arr(items) => "[" + (if items == [] then "]" else EncodeItems(items))
    case Obj(members) => "{" + (if members == [] then "}" else EncodeMembers(members))
  }

  function EncodeItems(items: seq<Json>): string
    requires items != []
    decreases items, 1
  {
    Encode(items[0]) + (if |items| == 1 then "]" else "," + EncodeItems(items[1..]))
  }

  function EncodeMembers(members: seq<Member>): string
    requires members != []
    decreases members, 1
  {
    Quote(members[0].name) + ":" + Encode(members[0].value) +
      (if |members| == 1 then "}" else "," + EncodeMembers(members[1..]))
  }

  predicate IsWs(c: char) { c == ' ' || c == '\t' || c == '\n' || c == '\r' }

  function SkipWs(s: string): (r: string)
    ensures |r| <= |s|
    ensures s != "" && !IsWs(s[0]) ==> r == s
  {
    if s != "" && IsWs(s[0]) then SkipWs(s[1..]) else s
  }

  function ParseValue(s: string): (r: Option<(Json, string)>)
    ensures r.Some? ==> |r.value.1| < |s|
    decreases |s|, 1
  {
    var t := SkipWs(s);
    if t == "" then None
    else if t[0] == '"' then
      var u := Unquote(t[1..]);
      if u.None? then None else Some((Str(u.value.0), u.value.1))
    else if t[0] == '[' then
      var u := SkipWs(t[1..]);
      if u != "" && u[0] == ']' then Some((Arr([]), u[1..]))
      else
        var items := ParseItems(t[1..]);
        if items.None? then None else Some((Arr(items.value.0), items.value.1))
    else if t[0] == '{' then
      var u := SkipWs(t[1..]);
      if u != "" && u[0] == '}' then Some((Obj([]), u[1..]))
      else
        var members := ParseMembers(t[1..]);
        if members.None? then None else Some((Obj(members.value.0), members.value.1))
    else if "null" <= t then Some((Null, t[4..]))
    else if "true" <= t then Some((Bool(true), t[4..]))
    else if "false" <= t then Some((Bool(false), t[5..]))
    else
      var n := NumLength(Start, t);
      if n == 0 || !NumAccepts(NumEnd(Start, t)) then None else Some((Num(t[..n]), t[n..]))
  }

  /** The items of a non-empty array, up to and including its closing bracket. */
  function ParseItems(s: string): (r: Option<(seq<Json>, string)>)
    ensures r.Some? ==> |r.value.1| < |s|
    decreases |s|, 2
  {
    var v := ParseValue(s);
    if v.None? then None
    else
      var t := SkipWs(v.value.1);
      if t != "" && t[0] == ']' then Some(([v.value.0], t[1..]))
      else if t != "" && t[0] == ',' then
        var rest := ParseItems(t[1..]);
        if rest.None? then None else Some(([v.value.0] + rest.value.0, rest.value.1))
      else None
  }

  /** One name, colon and value. */
  function ParseMember(s: string): (r: Option<(Member, string)>)
    ensures r.Some? ==> |r.value.1| < |s|
    decreases |s|, 2
  {
    var q := SkipWs(s);
    if q == "" || q[0] != '"' then None
    else
      var name := Unquote(q[1..]);
      if name.None? then None
      else
        var c := SkipWs(name.value.1);
        if c == "" || c[0] != ':' then None
        else
          var v := ParseValue(c[1..]);
          if v.None? then None else Some((Member(name.value.0, v.value.0), v.value.1))
  }

  /** The members of a non-empty object, up to and including its closing brace. */
  function ParseMembers(s: string): (r: Option<(seq<Member>, string)>)
    ensures r.Some? ==> |r.value.1| < |s|
    decreases |s|, 3
  {
    var m := ParseMember(s);
    if m.None? then None
    else
      var t := SkipWs(m.value.1);
      if t != "" && t[0] == '}' then Some(([m.value.0], t[1..]))
      else if t != "" && t[0] == ',' then
        var rest := ParseMembers(t[1..]);
        if rest.None? then None else Some(([m.value.0] + rest.value.0, rest.value.1))
      else None
  }

  /** The whole text, white space around it allowed. */
  function Parse(s: string): Option<Json> {
    var v := ParseValue(s);
    if v.Some? && SkipWs(v.value.1) == "" then Some(v.value.0) else None
  }

  /** Values whose numbers are JSON numbers. */
  predicate WellFormed(j: Json)
    decreases j
  {
    match j
    case Num(lit) => IsNumber(lit)
    case Arr(items) => forall i :: 0 <= i < |items| ==> WellFormed(items[i])
    case Obj(members) => forall i :: 0 <= i < |members| ==> WellFormed(members[i].value)
    case _ => true
  }

  type Data = j: Json | WellFormed(j) witness Null

  // ---------- round trip ----------

  lemma Assoc(a: string, b: string, c: string)
    ensures a + b + c == a + (b + c)
  {
  }

  lemma AssocMember(name: string, colon: string, value: string, t: string, rest: string)
    ensures name + colon + value + t + rest == name + (colon + (value + (t + rest)))
  {
  }

  lemma Quoted(body: string, rest: string)
    ensures ("\"" + body + "\"" + rest)[0] == '"' && ("\"" + body + "\"" + rest)[1..] == body + "\"" + rest
  {
  }

  /** The encoding of a value starts like a value. */
  lemma EncodeStarts(j: Json)
    requires WellFormed(j)
    ensures Encode(j) != "" && !IsWs(Encode(j)[0]) && Encode(j)[0] != ']' && Encode(j)[0] != '}'
  {
    match j
    case Null => assert Encode(j) == "null";
    case Bool(b) => assert Encode(j) == if b then "true" else "false";
    case Num(lit) => NumberStarts(lit);
    case Str(text) => assert Encode(j)[0] == '"';
    case Arr(items) => assert Encode(j)[0] == '[';
    case Obj(members) => assert Encode(j)[0] == '{';
  }

  lemma NumberStarts(lit: string)
    requires IsNumber(lit)
    ensures lit != "" && (lit[0] == '-' || IsDigit(lit[0]))
  {
  }

  lemma ParseNumber(lit: string, rest: string)
    requires IsNumber(lit) && Delimited(rest)
    ensures ParseValue(lit + rest) == Some((Num(lit), rest))
  {
    var s := lit + rest;
    NumberStarts(lit);
    assert SkipWs(s) == s;
    NumberStops(Start, lit, rest);
    assert s[..|lit|] == lit && s[|lit|..] == rest;
    assert s[0] == lit[0];
  }

  lemma ParseString(text: string, rest: string)
    ensures ParseValue(Quote(text) + rest) == Some((Str(text), rest))
  {
    var s := Quote(text) + rest;
    QuoteRoundTrip(text, rest);
    Quoted(EscapeAll(text), rest);
    ParseQuoted(s);
  }

  lemma ParseQuoted(s: string)
    requires s != "" && s[0] == '"' && Unquote(s[1..]).Some?
    ensures ParseValue(s) == Some((Str(Unquote(s[1..]).value.0), Unquote(s[1..]).value.1))
  {
    assert SkipWs(s) == s;
  }

  lemma ParseWord(word: string, j: Json, rest: string)
    requires (word, j) == ("null", Null) || (word, j) == ("true", Bool(true)) || (word, j) == ("false", Bool(false))
    ensures ParseValue(word + rest) == Some((j, rest))
  {
    var s := word + rest;
    assert s[0] == word[0] && s[..|word|] == word && s[|word|..] == rest;
    assert SkipWs(s) == s;
  }

  /** A bracketed list: empty, or read by `ParseItems` from after the bracket. */
  lemma ParseArray(items: seq<Json>, body: string, rest: string)
    requires if items == [] then body == "]" + rest
             else body != "" && !IsWs(body[0]) && body[0] != ']' && ParseItems(body) == Some((items, rest))
    ensures ParseValue("[" + body) == Some((Arr(items), rest))
  {
    var s := "[" + body;
    assert s[1..] == body && SkipWs(s) == s && SkipWs(body) == body;
  }

  lemma ParseObject(members: seq<Member>, body: string, rest: string)
    requires if members == [] then body == "}" + rest
             else body != "" && body[0] == '"' && ParseMembers(body) == Some((members, rest))
    ensures ParseValue("{" + body) == Some((Obj(members), rest))
  {
    var s := "{" + body;
    assert s[1..] == body && SkipWs(s) == s && SkipWs(body) == body;
  }

  lemma {:induction false} ParseUndoesEncode(j: Json, rest: string)
    requires WellFormed(j) && Delimited(rest)
    ensures ParseValue(Encode(j) + rest) == Some((j, rest))
    decreases j, 1
  {
    match j
    case Null => ParseWord("null", j, rest);
    case Bool(b) => ParseWord(if b then "true" else "false", j, rest);
    case Num(lit) => ParseNumber(lit, rest);
    case Str(text) => ParseString(text, rest);
    case Arr(items) =>
      var body := if items == [] then "]" else EncodeItems(items);
      Assoc("[", body, rest);
      if items != [] {
        ItemsRoundTrip(items, rest);
      }
      ParseArray(items, body + rest, rest);
    case Obj(members) =>
      var body := if members == [] then "}" else EncodeMembers(members);
      Assoc("{", body, rest);
      if members != [] {
        MembersRoundTrip(members, rest);
        assert EncodeMembers(members)[0] == '"';
      }
      ParseObject(members, body + rest, rest);
  }

  lemma LastItem(s: string, v: Json, rest: string)
    requires ParseValue(s) == Some((v, "]" + rest))
    ensures ParseItems(s) == Some(([v], rest))
  {
    assert ("]" + rest)[1..] == rest;
  }

  lemma OneMoreItem(s: string, v: Json, more: string, vs: seq<Json>, rest: string)
    requires ParseValue(s) == Some((v, "," + more)) && ParseItems(more) == Some((vs, rest))
    ensures ParseItems(s) == Some(([v] + vs, rest))
  {
    assert ("," + more)[1..] == more;
  }

  lemma {:induction false} ItemsRoundTrip(items: seq<Json>, rest: string)
    requires items != [] && forall i :: 0 <= i < |items| ==> WellFormed(items[i])
    ensures ParseItems(EncodeItems(items) + rest) == Some((items, rest))
    ensures var s := EncodeItems(items) + rest; s != "" && !IsWs(s[0]) && s[0] != ']'
    decreases items, 1
  {
    var v, e := items[0], Encode(items[0]);
    EncodeStarts(v);
    if |items| == 1 {
      Assoc(e, "]", rest);
      ParseUndoesEncode(v, "]" + rest);
      LastItem(e + ("]" + rest), v, rest);
      assert items == [v];
    } else {
      var more := EncodeItems(items[1..]);
      Assoc(e, "," + more, rest);
      Assoc(",", more, rest);
      ItemsRoundTrip(items[1..], rest);
      ParseUndoesEncode(v, "," + (more + rest));
      OneMoreItem(e + ("," + (more + rest)), v, more + rest, items[1..], rest);
      assert items == [v] + items[1..];
    }
  }

  lemma ParseMemberStep(name: string, v: Json, text: string, tail: string)
    requires ParseValue(text) == Some((v, tail))
    ensures ParseMember(Quote(name) + (":" + text)) == Some((Member(name, v), tail))
  {
    var afterName := ":" + text;
    var s := Quote(name) + afterName;
    Quoted(EscapeAll(name), afterName);
    QuoteRoundTrip(name, afterName);
    assert afterName[0] == ':' && afterName[1..] == text;
    assert SkipWs(s) == s && SkipWs(afterName) == afterName;
  }

  lemma LastMember(s: string, m: Member, rest: string)
    requires ParseMember(s) == Some((m, "}" + rest))
    ensures ParseMembers(s) == Some(([m], rest))
  {
    assert ("}" + rest)[1..] == rest;
  }

  lemma OneMoreMember(s: string, m: Member, more: string, ms: seq<Member>, rest: string)
    requires ParseMember(s) == Some((m, "," + more)) && ParseMembers(more) == Some((ms, rest))
    ensures ParseMembers(s) == Some(([m] + ms, rest))
  {
    assert ("," + more)[1..] == more;
  }

  lemma {:induction false} MembersRoundTrip(members: seq<Member>, rest: string)
    requires members != [] && forall i :: 0 <= i < |members| ==> WellFormed(members[i].value)
    ensures ParseMembers(EncodeMembers(members) + rest) == Some((members, rest))
    decreases members, 1
  {
    var m, e := members[0], Encode(members[0].value);
    if |members| == 1 {
      AssocMember(Quote(m.name), ":", e, "}", rest);
      ParseUndoesEncode(m.value, "}" + rest);
      ParseMemberStep(m.name, m.value, e + ("}" + rest), "}" + rest);
      LastMember(Quote(m.name) + (":" + (e + ("}" + rest))), m, rest);
      assert members == [m];
    } else {
      var more := EncodeMembers(members[1..]);
      AssocMember(Quote(m.name), ":", e, "," + more, rest);
      Assoc(",", more, rest);
      var tail := "," + (more + rest);
      MembersRoundTrip(members[1..], rest);
      ParseUndoesEncode(m.value, tail);
      ParseMemberStep(m.name, m.value, e + tail, tail);
      OneMoreMember(Quote(m.name) + (":" + (e + tail)), m, more + rest, members[1..], rest);
      assert members == [m] + members[1..];
    }
  }

  /** Whatever is encoded is valid JSON and parses back to itself. */
  lemma RoundTrip(j: Json)
    requires WellFormed(j)
    ensures Parse(Encode(j)) == Some(j)
  {
    ParseUndoesEncode(j, "");
    assert Encode(j) + "" == Encode(j);
  }

  lemma {:induction false} DigitsRun(s: string)
    requires AllDigits(s)
    ensures NumLength(Digits, s) == |s| && NumEnd(Digits, s) == Digits
  {
    if s != "" {
      DigitsRun(s[1..]);
    }
  }

  /** Integers are written as JSON numbers. */
  lemma IntIsNumber(n: int)
    ensures IsNumber(FormatInt(n))
  {
    var u := FormatUint(if n < 0 then -n else n);
    ValueUndoesFormat(if n < 0 then -n else n);
    if n == 0 {
      assert u[1..] == "";
    } else {
      FormatHasNoLeadingZero(if n < 0 then -n else n);
      DigitsRun(u[1..]);
      assert IsDigit(u[0]);
      if n < 0 {
        assert FormatInt(n)[1..] == u;
      }
    }
  }
}
