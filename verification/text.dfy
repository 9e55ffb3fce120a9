/** The string operations the configuration code rests on: trimming white space, splitting at
    separators, and the runs between separators. */
module Text {

  /** The white space of Unicode, as strings.TrimSpace takes it. */
  predicate IsSpace(c: char) {
    || '\t' <= c <= '\r' || c == ' ' || c == '\U{85}' || c == '\U{a0}' || c == '\U{1680}'
    || '\U{2000}' <= c <= '\U{200a}' || c == '\U{2028}' || c == '\U{2029}'
    || c == '\U{202f}' || c == '\U{205f}' || c == '\U{3000}'
  }

  function TrimLeft(s: string): (r: string)
    ensures r != "" ==> !IsSpace(r[0])
  {
    if s != "" && IsSpace(s[0]) then TrimLeft(s[1..]) else s
  }

  function TrimRight(s: string): (r: string)
    ensures r != "" ==> !IsSpace(r[|r| - 1])
  {
    if s != "" && IsSpace(s[|s| - 1]) then TrimRight(s[..|s| - 1]) else s
  }

  function TrimSpace(s: string): string { TrimRight(TrimLeft(s)) }

  predicate AllSpace(s: string) { forall i :: 0 <= i < |s| ==> IsSpace(s[i]) }

  /** Non-empty and without white space at either end. */
  predicate Trimmed(s: string) { s != "" && !IsSpace(s[0]) && !IsSpace(s[|s| - 1]) }

  lemma {:induction false} TrimLeftPad(w: string, s: string)
    requires AllSpace(w)
    ensures TrimLeft(w + s) == TrimLeft(s)
  {
    if w == "" {
      assert w + s == s;
    } else {
      assert (w + s)[1..] == w[1..] + s;
      TrimLeftPad(w[1..], s);
    }
  }

  lemma {:induction false} TrimRightPad(s: string, w: string)
    requires AllSpace(w)
    ensures TrimRight(s + w) == TrimRight(s)
  {
    if w == "" {
      assert s + w == s;
    } else {
      assert (s + w)[..|s + w| - 1] == s + w[..|w| - 1];
      TrimRightPad(s, w[..|w| - 1]);
    }
  }

  lemma {:induction false} TrimLeftSpace(s: string)
    ensures AllSpace(s) <==> TrimLeft(s) == ""
  {
    if s != "" && IsSpace(s[0]) {
      TrimLeftSpace(s[1..]);
      assert AllSpace(s) <==> AllSpace(s[1..]) by {
        assert forall i :: 1 <= i < |s| ==> s[i] == s[1..][i-1];
      }
    }
  }

  /** Trimming removes exactly the surrounding white space. */
  lemma TrimPad(w: string, s: string, w': string)
    requires AllSpace(w) && AllSpace(w') && Trimmed(s)
    ensures TrimSpace(w + s + w') == s
  {
    assert w + s + w' == w + (s + w');
    TrimLeftPad(w, s + w');
    assert TrimLeft(s + w') == s + w';
    TrimRightPad(s, w');
  }

  lemma TrimAllSpace(w: string)
    requires AllSpace(w)
    ensures TrimSpace(w) == ""
  {
    TrimLeftSpace(w);
  }

  /** What trimming takes away is white space, and what it leaves has none at its ends. */
  lemma TrimParts(s: string) returns (w: string, w': string)
    ensures AllSpace(w) && AllSpace(w') && s == w + TrimSpace(s) + w'
    ensures TrimSpace(s) == "" || Trimmed(TrimSpace(s))
  {
    TrimLeftCut(s);
    var l := TrimLeft(s);
    w := s[..|s| - |l|];
    TrimRightCut(l);
    var m := TrimRight(l);
    w' := l[|m|..];
    assert s == w + l && l == m + w';
    TrimmedEnds(s);
  }

  lemma TrimmedEnds(s: string)
    ensures TrimSpace(s) == "" || Trimmed(TrimSpace(s))
  {
    var l := TrimLeft(s);
    TrimRightCut(l);
    assert TrimRight(l) != "" ==> TrimRight(l)[0] == l[0];
  }

  lemma TrimIdempotent(s: string)
    ensures TrimSpace(TrimSpace(s)) == TrimSpace(s)
  {
    var _, _ := TrimParts(s);
    var t := TrimSpace(s);
    if t != "" {
      TrimPad("", t, "");
      assert "" + t + "" == t;
    }
  }

  lemma {:induction false} TrimLeftCut(s: string)
    ensures |TrimLeft(s)| <= |s| && TrimLeft(s) == s[|s| - |TrimLeft(s)|..]
    ensures AllSpace(s[..|s| - |TrimLeft(s)|])
  {
    if s != "" && IsSpace(s[0]) {
      TrimLeftCut(s[1..]);
      var n := |s| - |TrimLeft(s)|;
      assert s[..n] == [s[0]] + s[1..][..n-1];
    }
  }

  lemma {:induction false} TrimRightCut(s: string)
    ensures |TrimRight(s)| <= |s| && TrimRight(s) == s[..|TrimRight(s)|]
    ensures AllSpace(s[|TrimRight(s)|..])
  {
    if s != "" && IsSpace(s[|s| - 1]) {
      TrimRightCut(s[..|s| - 1]);
      var v, n := s[..|s| - 1], |TrimRight(s)|;
      assert TrimRight(s) == TrimRight(v) == v[..n] == s[..n];
      assert s[n..] == v[n..] + [s[|s| - 1]];
    }
  }

  // ---------- splitting ----------

  /** The segments between separators; one more than there are separators. */
  function Split(s: string, sep: char -> bool): (r: seq<string>)
    ensures r != []
  {
    if s == "" then [""]
    else
      var r := Split(s[1..], sep);
      if sep(s[0]) then [""] + r else [[s[0]] + r[0]] + r[1..]
  }

  /** The separators of s, in order. */
  function Separators(s: string, sep: char -> bool): string {
    if s == "" then "" else (if sep(s[0]) then [s[0]] else "") + Separators(s[1..], sep)
  }

  /** The segments with the given separators between them. */
  function Interleave(segs: seq<string>, seps: string): string
    requires |segs| == |seps| + 1
  {
    if seps == "" then segs[0] else segs[0] + [seps[0]] + Interleave(segs[1..], seps[1..])
  }

  predicate Free(s: string, sep: char -> bool) { forall i :: 0 <= i < |s| ==> !sep(s[i]) }

  lemma {:induction false} SplitCount(s: string, sep: char -> bool)
    ensures |Split(s, sep)| == |Separators(s, sep)| + 1
  {
    if s != "" {
      SplitCount(s[1..], sep);
    }
  }

  lemma {:induction false} SplitPartsFree(s: string, sep: char -> bool)
    ensures forall i :: 0 <= i < |Split(s, sep)| ==> Free(Split(s, sep)[i], sep)
  {
    if s != "" {
      SplitPartsFree(s[1..], sep);
      var r, t := Split(s[1..], sep), Split(s, sep);
      forall i | 0 <= i < |t|
        ensures Free(t[i], sep)
      {
        if sep(s[0]) {
          assert i > 0 ==> t[i] == r[i-1];
        } else {
          assert t[i] == if i == 0 then [s[0]] + r[0] else r[i];
        }
      }
    }
  }

  /** Splitting loses nothing: there is one segment per separator plus one, no segment contains a
      separator, and putting the separators back restores the text. */
  lemma {:induction false} SplitRestores(s: string, sep: char -> bool)
    ensures |Split(s, sep)| == |Separators(s, sep)| + 1
    ensures forall i :: 0 <= i < |Split(s, sep)| ==> Free(Split(s, sep)[i], sep)
    ensures Interleave(Split(s, sep), Separators(s, sep)) == s
  {
    SplitCount(s, sep);
    SplitPartsFree(s, sep);
    if s != "" {
      SplitRestores(s[1..], sep);
      var r, p := Split(s[1..], sep), Separators(s[1..], sep);
      assert [s[0]] + s[1..] == s;
      if sep(s[0]) {
        InterleaveFirst("", s[0], r, p);
        assert "" + [s[0]] + s[1..] == s;
      } else {
        assert "" + p == p;
        InterleaveCons(s[0], r, p);
      }
    }
  }

  lemma InterleaveFirst(seg: string, c: char, segs: seq<string>, seps: string)
    requires |segs| == |seps| + 1
    ensures Interleave([seg] + segs, [c] + seps) == seg + [c] + Interleave(segs, seps)
  {
    assert ([seg] + segs)[1..] == segs && ([c] + seps)[1..] == seps;
  }

  lemma InterleaveCons(c: char, segs: seq<string>, seps: string)
    requires |segs| == |seps| + 1
    ensures Interleave([[c] + segs[0]] + segs[1..], seps) == [c] + Interleave(segs, seps)
  {
    if seps != "" {
      assert ([[c] + segs[0]] + segs[1..])[1..] == segs[1..];
      assert [c] + segs[0] + [seps[0]] + Interleave(segs[1..], seps[1..])
          == [c] + (segs[0] + [seps[0]] + Interleave(segs[1..], seps[1..]));
    }
  }

  /** The segments are the only way to read the text: splitting undoes interleaving. */
  lemma {:induction false} SplitInterleave(segs: seq<string>, seps: string, sep: char -> bool)
    requires |segs| == |seps| + 1
    requires forall i :: 0 <= i < |segs| ==> Free(segs[i], sep)
    requires forall i :: 0 <= i < |seps| ==> sep(seps[i])
    ensures Split(Interleave(segs, seps), sep) == segs
  {
    if seps == "" {
      SplitFree(segs[0], sep);
    } else {
      var rest := Interleave(segs[1..], seps[1..]);
      SplitInterleave(segs[1..], seps[1..], sep);
      SplitFirst(segs[0], seps[0], rest, sep);
    }
  }

  lemma {:induction false} SplitFree(s: string, sep: char -> bool)
    requires Free(s, sep)
    ensures Split(s, sep) == [s]
  {
    if s != "" {
      SplitFree(s[1..], sep);
      assert [s[0]] + s[1..] == s;
    }
  }

  lemma {:induction false} SplitFirst(a: string, c: char, rest: string, sep: char -> bool)
    requires Free(a, sep) && sep(c)
    ensures Split(a + [c] + rest, sep) == [a] + Split(rest, sep)
  {
    var t := a + [c] + rest;
    if a == "" {
      assert t[1..] == rest;
    } else {
      assert t[1..] == a[1..] + [c] + rest;
      SplitFirst(a[1..], c, rest, sep);
      assert [a[0]] + a[1..] == a;
    }
  }

  // ---------- fields ----------

  function NonEmpty(parts: seq<string>): seq<string> {
    if parts == [] then [] else (if parts[0] == "" then [] else [parts[0]]) + NonEmpty(parts[1..])
  }

  function TrimAll(parts: seq<string>): seq<string> {
    if parts == [] then [] else [TrimSpace(parts[0])] + TrimAll(parts[1..])
  }

  /** The length of the run of non-separators at the start of s. */
  function RunLength(s: string, sep: char -> bool): (n: nat)
    ensures n <= |s| && Free(s[..n], sep) && (n < |s| ==> sep(s[n]))
  {
    if s == "" || sep(s[0]) then 0 else 1 + RunLength(s[1..], sep)
  }

  /** strings.FieldsFunc: the maximal runs of non-separators. */
  function Fields(s: string, sep: char -> bool): seq<string>
    decreases |s|
  {
    if s == "" then []
    else if sep(s[0]) then Fields(s[1..], sep)
    else
      var n := RunLength(s, sep);
      [s[..n]] + Fields(s[n..], sep)
  }

  lemma NonEmptyCons(p: string, rest: seq<string>)
    ensures NonEmpty([p] + rest) == if p == "" then NonEmpty(rest) else [p] + NonEmpty(rest)
  {
    assert ([p] + rest)[1..] == rest;
    assert [] + NonEmpty(rest) == NonEmpty(rest);
  }

  /** The fields are the non-empty segments. */
  lemma {:induction false} FieldsAreSegments(s: string, sep: char -> bool)
    ensures Fields(s, sep) == NonEmpty(Split(s, sep))
    decreases |s|
  {
    if s == "" {
      NonEmptyCons("", []);
      assert [""] + [] == [""];
    } else if sep(s[0]) {
      FieldsAreSegments(s[1..], sep);
      NonEmptyCons("", Split(s[1..], sep));
    } else {
      var n := RunLength(s, sep);
      FieldsAreSegments(s[n..], sep);
      RunSplits(s, n, sep);
    }
  }

  /** A run is the first segment. */
  lemma RunSplits(s: string, n: nat, sep: char -> bool)
    requires 0 < n <= |s| && Free(s[..n], sep) && (n < |s| ==> sep(s[n]))
    ensures NonEmpty(Split(s, sep)) == [s[..n]] + NonEmpty(Split(s[n..], sep))
  {
    if n == |s| {
      assert s[..n] == s && s[n..] == "";
      SplitFree(s, sep);
      NonEmptyCons(s, []);
      NonEmptyCons("", []);
      assert [s] + [] == [s] && [""] + [] == [""];
    } else {
      assert s == s[..n] + [s[n]] + s[n+1..] && s[n..] == [s[n]] + s[n+1..];
      RunThenSplit(s[..n], s[n], s[n+1..], sep);
    }
  }

  lemma RunThenSplit(run: string, c: char, rest: string, sep: char -> bool)
    requires run != "" && Free(run, sep) && sep(c)
    ensures NonEmpty(Split(run + [c] + rest, sep)) == [run] + NonEmpty(Split([c] + rest, sep))
  {
    SplitFirst(run, c, rest, sep);
    SplitFirst("", c, rest, sep);
    assert "" + [c] + rest == [c] + rest;
    NonEmptyCons(run, Split(rest, sep));
    NonEmptyCons("", Split(rest, sep));
  }

  lemma {:induction false} TrimNonEmpty(parts: seq<string>)
    ensures NonEmpty(TrimAll(NonEmpty(parts))) == NonEmpty(TrimAll(parts))
  {
    if parts != [] {
      TrimNonEmpty(parts[1..]);
      assert TrimAll(parts)[1..] == TrimAll(parts[1..]);
      if parts[0] == "" {
        assert TrimSpace("") == "";
        assert NonEmpty(parts) == NonEmpty(parts[1..]);
      } else {
        assert NonEmpty(parts)[1..] == NonEmpty(parts[1..]);
        assert TrimAll(NonEmpty(parts))[1..] == TrimAll(NonEmpty(parts[1..]));
      }
    }
  }

  lemma TrimmedHead(p: string, parts: seq<string>)
    ensures NonEmpty(TrimAll([p] + parts)) ==
            if TrimSpace(p) == "" then NonEmpty(TrimAll(parts)) else [TrimSpace(p)] + NonEmpty(TrimAll(parts))
  {
    TrimAllCons(p, parts);
    var rest := TrimAll(parts);
    assert ([TrimSpace(p)] + rest)[1..] == rest;
    assert [] + NonEmpty(rest) == NonEmpty(rest);
  }

  lemma {:induction false} TrimAllAt(parts: seq<string>, i: nat)
    requires i < |parts|
    ensures |TrimAll(parts)| == |parts| && TrimAll(parts)[i] == TrimSpace(parts[i])
  {
    if i > 0 {
      TrimAllAt(parts[1..], i - 1);
    } else if |parts| > 1 {
      TrimAllAt(parts[1..], 0);
    }
  }

  /** The trimmed, non-blank items of a list. */
  function Items(s: string, sep: char -> bool): seq<string> { NonEmpty(TrimAll(Split(s, sep))) }

  lemma {:induction false} NonEmptyAppend(a: seq<string>, b: seq<string>)
    ensures NonEmpty(a + b) == NonEmpty(a) + NonEmpty(b)
  {
    if a == [] {
      assert a + b == b;
    } else {
      assert (a + b)[1..] == a[1..] + b;
      NonEmptyAppend(a[1..], b);
    }
  }

  /** White space around the whole text does not change its items. */
  lemma ItemsOfTrimmed(s: string, sep: char -> bool)
    ensures Items(TrimSpace(s), sep) == Items(s, sep)
  {
    var w, w' := TrimParts(s);
    var t := TrimSpace(s);
    ItemsPadLeft(w, t + w', sep);
    assert s == w + (t + w');
    ItemsPadRight(t, w', sep);
  }

  lemma {:induction false} ItemsPadLeft(w: string, s: string, sep: char -> bool)
    requires AllSpace(w)
    ensures Items(w + s, sep) == Items(s, sep)
  {
    if w == "" {
      assert w + s == s;
    } else {
      var t := w[1..] + s;
      ItemsPadLeft(w[1..], s, sep);
      ItemsCons(w[0], t, sep);
      assert w + s == [w[0]] + t;
    }
  }

  lemma ItemsCons(c: char, s: string, sep: char -> bool)
    requires IsSpace(c)
    ensures Items([c] + s, sep) == Items(s, sep)
  {
    var r := Split(s, sep);
    assert ([c] + s)[1..] == s;
    if sep(c) {
      TrimAllCons("", r);
      NonEmptyAppend([""], TrimAll(r));
      assert [""][1..] == [];
    } else {
      TrimLeftPad([c], r[0]);
      TrimAllCons([c] + r[0], r[1..]);
      TrimAllCons(r[0], r[1..]);
      assert [r[0]] + r[1..] == r;
    }
  }

  lemma TrimAllCons(p: string, parts: seq<string>)
    ensures TrimAll([p] + parts) == [TrimSpace(p)] + TrimAll(parts)
  {
    assert ([p] + parts)[1..] == parts;
  }

  lemma {:induction false} ItemsPadRight(s: string, w: string, sep: char -> bool)
    requires AllSpace(w)
    ensures Items(s + w, sep) == Items(s, sep)
    decreases |w|
  {
    if w == "" {
      assert s + w == s;
    } else {
      var v := w[..|w| - 1];
      ItemsPadRight(s, v, sep);
      assert s + w == s + v + [w[|w| - 1]];
      ItemsSnoc(s + v, w[|w| - 1], sep);
    }
  }

  lemma ItemsSnoc(s: string, c: char, sep: char -> bool)
    requires IsSpace(c)
    ensures Items(s + [c], sep) == Items(s, sep)
  {
    SplitSnoc(s, c, sep);
    var r := Split(s, sep);
    var n := |r| - 1;
    assert r == r[..n] + [r[n]];
    TrimAllSnoc(r[..n], r[n]);
    if sep(c) {
      TrimAllSnoc(r, "");
      NonEmptyAppend(TrimAll(r), [""]);
      assert [""][1..] == [];
    } else {
      TrimAllSnoc(r[..n], r[n] + [c]);
      TrimSpaceSnoc(r[n], c);
    }
  }

  lemma {:induction false} TrimAllSnoc(parts: seq<string>, p: string)
    ensures TrimAll(parts + [p]) == TrimAll(parts) + [TrimSpace(p)]
  {
    if parts == [] {
      assert parts + [p] == [p] && [p][1..] == [];
    } else {
      assert (parts + [p])[1..] == parts[1..] + [p];
      TrimAllSnoc(parts[1..], p);
    }
  }

  lemma TrimSpaceSnoc(s: string, c: char)
    requires IsSpace(c)
    ensures TrimSpace(s + [c]) == TrimSpace(s)
  {
    TrimLeftSpace(s);
    TrimLeftSpace(s + [c]);
    if TrimLeft(s) == "" {
      assert AllSpace(s + [c]);
    } else {
      TrimLeftSnoc(s, c);
      TrimRightPad(TrimLeft(s), [c]);
    }
  }

  lemma {:induction false} TrimLeftSnoc(s: string, c: char)
    requires TrimLeft(s) != ""
    ensures TrimLeft(s + [c]) == TrimLeft(s) + [c]
  {
    if IsSpace(s[0]) {
      assert (s + [c])[1..] == s[1..] + [c];
      TrimLeftSnoc(s[1..], c);
    }
  }

  lemma {:induction false} TrimAllAppend(a: seq<string>, b: seq<string>)
    ensures TrimAll(a + b) == TrimAll(a) + TrimAll(b)
  {
    if a == [] {
      assert a + b == b;
    } else {
      assert (a + b)[1..] == a[1..] + b;
      TrimAllAppend(a[1..], b);
    }
  }

  /** A segment list after one more character. */
  function Extend(r: seq<string>, c: char, sep: char -> bool): seq<string>
    requires r != []
  {
    if sep(c) then r + [""] else r[..|r| - 1] + [r[|r| - 1] + [c]]
  }

  lemma ExtendCons(p: string, q: seq<string>, c: char, sep: char -> bool)
    requires q != []
    ensures Extend([p] + q, c, sep) == [p] + Extend(q, c, sep)
  {
    assert ([p] + q)[..|q|] == [p] + q[..|q| - 1];
  }

  lemma {:induction false} SplitSnoc(s: string, c: char, sep: char -> bool)
    ensures Split(s + [c], sep) == Extend(Split(s, sep), c, sep)
  {
    if s == "" {
      assert [c][1..] == "" && s + [c] == [c];
      assert Split("", sep) == [""] && [""][1..] == [];
      assert [c] + "" == [c] == "" + [c];
    } else {
      assert (s + [c])[1..] == s[1..] + [c];
      SplitSnoc(s[1..], c, sep);
      var q := Split(s[1..], sep);
      if sep(s[0]) {
        ExtendCons("", q, c, sep);
      } else {
        ExtendHead(s[0], q, c, sep);
      }
    }
  }

  lemma ExtendHead(h: char, q: seq<string>, c: char, sep: char -> bool)
    requires q != []
    ensures var e := Extend(q, c, sep);
            Extend([[h] + q[0]] + q[1..], c, sep) == [[h] + e[0]] + e[1..]
  {
    var e := Extend(q, c, sep);
    if |q| == 1 {
      assert [[h] + q[0]] + q[1..] == [[h] + q[0]];
      assert [h] + q[0] + [c] == [h] + (q[0] + [c]);
    } else {
      assert e[1..] == Extend(q[1..], c, sep) && e[0] == q[0];
      ExtendCons([h] + q[0], q[1..], c, sep);
    }
  }
}
