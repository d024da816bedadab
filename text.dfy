/** Character classes, the regular expressions the validators use, ASCII lower-casing,
    substring search, the store's string order, and joining and splitting on a separator. */
module Text {

  predicate IsUpper(c: char) { 'A' <= c <= 'Z' }

  predicate IsLetter(c: char) { 'a' <= c <= 'z' || 'A' <= c <= 'Z' }

  predicate IsDigit(c: char) { '0' <= c <= '9' }

  /** `String.prototype.toLowerCase` on one character (ASCII letters only). */
  function LowerChar(c: char): (r: char)
    ensures !IsUpper(r)
    ensures IsLetter(c) <==> IsLetter(r)
    ensures !IsUpper(c) ==> r == c
  {
    if IsUpper(c) then (c as int + 32) as char else c
  }

  function ToLower(s: string): (r: string)
    ensures |r| == |s|
    ensures forall i :: 0 <= i < |s| ==> r[i] == LowerChar(s[i])
  {
    if s == [] then [] else [LowerChar(s[0])] + ToLower(s[1..])
  }

  lemma {:induction false} ToLowerIdempotent(s: string)
    ensures ToLower(ToLower(s)) == ToLower(s)
  {
    var once := ToLower(s);
    var twice := ToLower(once);
    assert forall i :: 0 <= i < |s| ==> twice[i] == LowerChar(once[i]) == once[i];
  }

  /** `^[a-zA-Z ]+$`, the pattern names are checked against at registration. */
  predicate IsNameText(s: string)
  {
    |s| >= 1 && forall i :: 0 <= i < |s| ==> IsLetter(s[i]) || s[i] == ' '
  }

  lemma ToLowerKeepsNameText(s: string)
    requires IsNameText(s)
    ensures IsNameText(ToLower(s))
  {
  }

  /** `^z[0-9]{7}$`, the pattern a zId must match. */
  predicate IsZIdFormat(s: string)
  {
    |s| == 8 && s[0] == 'z' && forall i :: 1 <= i < 8 ==> IsDigit(s[i])
  }

  /** The characters `^[a-zA-Z0-9 ]+$` admits in a society name. */
  predicate IsSocietyNameText(s: string)
  {
    |s| >= 1 && forall i :: 0 <= i < |s| ==> IsLetter(s[i]) || IsDigit(s[i]) || s[i] == ' '
  }

  /** A simplified stand-in for validator's `isEmail`: one '@' with a non-empty local
      part before it and a dotted domain after it, and no spaces. */
  predicate IsEmail(s: string)
  {
    exists at :: 0 < at < |s| - 1 && s[at] == '@' && WellFormedEmailAt(s, at)
  }

  predicate WellFormedEmailAt(s: string, at: int)
    requires 0 < at < |s| - 1
  {
    && (forall i :: 0 <= i < |s| && i != at ==> s[i] != '@' && s[i] != ' ')
    && (exists dot :: at + 1 < dot < |s| - 1 && s[dot] == '.')
  }

  /** `needle` occurs in `hay` starting at offset `i`. */
  predicate OccursAt(hay: string, needle: string, i: int)
  {
    0 <= i <= |hay| - |needle| && hay[i..i + |needle|] == needle
  }

  /** Prisma's `contains` filter: `needle` occurs in `hay` at some offset. */
  predicate Contains(hay: string, needle: string)
    ensures Contains(hay, needle) <==> exists i :: OccursAt(hay, needle, i)
    decreases |hay|
  {
    if |needle| > |hay| then false
    else if hay[..|needle|] == needle then assert OccursAt(hay, needle, 0); true
    else
      var rest := Contains(hay[1..], needle);
      assert forall i :: OccursAt(hay, needle, i) <==> i >= 1 && OccursAt(hay[1..], needle, i - 1);
      assert rest ==> exists i :: OccursAt(hay[1..], needle, i) && OccursAt(hay, needle, i + 1);
      rest
  }

  lemma ContainsEmpty(hay: string)
    ensures Contains(hay, "")
  {
    assert OccursAt(hay, "", 0);
  }

  /** The store orders text columns by code point, shorter prefix first. */
  predicate StrLt(a: string, b: string)
  {
    if |a| == 0 then |b| > 0
    else if |b| == 0 then false
    else if a[0] < b[0] then true
    else if a[0] == b[0] then StrLt(a[1..], b[1..])
    else false
  }

  lemma {:induction false} StrLtIrreflexive(a: string)
    ensures !StrLt(a, a)
  {
    if |a| > 0 { StrLtIrreflexive(a[1..]); }
  }

  lemma {:induction false} StrLtTransitive(a: string, b: string, c: string)
    requires StrLt(a, b) && StrLt(b, c)
    ensures StrLt(a, c)
  {
    if |a| > 0 && |b| > 0 && |c| > 0 && a[0] == b[0] == c[0] {
      StrLtTransitive(a[1..], b[1..], c[1..]);
    }
  }

  lemma {:induction false} StrLtTrichotomy(a: string, b: string)
    ensures StrLt(a, b) || a == b || StrLt(b, a)
  {
    if |a| > 0 && |b| > 0 && a[0] == b[0] {
      StrLtTrichotomy(a[1..], b[1..]);
      if a[1..] == b[1..] {
        assert a == [a[0]] + a[1..] && b == [b[0]] + b[1..];
      }
    }
  }

  /** `parts.join(sep)`. */
  function Join(parts: seq<string>, sep: char): (r: string)
    ensures parts == [] ==> r == ""
    ensures |parts| == 1 ==> r == parts[0]
  {
    if parts == [] then ""
    else if |parts| == 1 then parts[0]
    else parts[0] + [sep] + Join(parts[1..], sep)
  }

  /** Splits at every occurrence of `sep`; the inverse of `Join` used to state it. */
  function Split(s: string, sep: char): (r: seq<string>)
    ensures |r| >= 1
    decreases |s|
  {
    if s == [] then [""]
    else if s[0] == sep then [""] + Split(s[1..], sep)
    else
      var rest := Split(s[1..], sep);
      [[s[0]] + rest[0]] + rest[1..]
  }

  predicate Free(s: string, sep: char)
  {
    forall i :: 0 <= i < |s| ==> s[i] != sep
  }

  /** Splitting a separator-free prefix followed by the rest. */
  lemma {:induction false} SplitAfterFree(p: string, sep: char, t: string)
    requires Free(p, sep)
    ensures Split(p + [sep] + t, sep) == [p] + Split(t, sep)
    ensures Split(p, sep) == [p]
    decreases |p|
  {
    if p == [] {
      assert p + [sep] + t == [sep] + t;
      assert ([sep] + t)[1..] == t;
    } else {
      SplitAfterFree(p[1..], sep, t);
      assert (p + [sep] + t)[1..] == p[1..] + [sep] + t;
      assert [p[0]] + p[1..] == p;
    }
  }

  lemma {:induction false} SplitJoin(parts: seq<string>, sep: char)
    requires |parts| >= 1
    requires forall k :: 0 <= k < |parts| ==> Free(parts[k], sep)
    ensures Split(Join(parts, sep), sep) == parts
    decreases |parts|
  {
    if |parts| == 1 {
      SplitAfterFree(parts[0], sep, "");
    } else {
      SplitJoin(parts[1..], sep);
      SplitAfterFree(parts[0], sep, Join(parts[1..], sep));
      assert [parts[0]] + parts[1..] == parts;
    }
  }

  /** A string longer than every member of a finite set exists, so a fresh token can always be drawn. */
  ghost function MaxLength(strs: set<string>): (n: nat)
    ensures forall s :: s in strs ==> |s| <= n
    decreases strs
  {
    if strs == {} then 0
    else
      var s :| s in strs;
      var rest := MaxLength(strs - {s});
      if |s| > rest then |s| else rest
  }

  lemma FreshStringExists(strs: set<string>)
    ensures exists t :: t !in strs
  {
    var t := seq(MaxLength(strs) + 1, _ => 'x');
    assert t !in strs;
  }
}
