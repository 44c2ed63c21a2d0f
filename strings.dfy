/**
 * The JavaScript string operations the contact utilities rely on:
 * `trim`, `includes`, `split` with a one-character separator, `join`
 * and `toLowerCase` (restricted to ASCII letters).
 */
module Strings {
  import opened Wrappers

  /** The code points JavaScript's `trim` removes and `\s` matches:
      the WhiteSpace and LineTerminator productions of ECMAScript. */
  predicate IsSpace(c: char) {
    || c == '\t' || c == '\n' || c == '\U{000B}' || c == '\U{000C}' || c == '\r'
    || c == ' ' || c == '\U{00A0}' || c == '\U{1680}'
    || ('\U{2000}' <= c <= '\U{200A}')
    || c == '\U{2028}' || c == '\U{2029}' || c == '\U{202F}' || c == '\U{205F}'
    || c == '\U{3000}' || c == '\U{FEFF}'
  }

  /** `\d`: an ASCII decimal digit. */
  predicate IsDigit(c: char) {
    '0' <= c <= '9'
  }

  predicate AllSpace(s: string) {
    forall i :: 0 <= i < |s| ==> IsSpace(s[i])
  }

  /** The first index at or after `i` that does not hold white space. */
  function SkipSpace(s: string, i: nat): (n: nat)
    requires i <= |s|
    decreases |s| - i
    ensures i <= n <= |s|
    ensures forall k :: i <= k < n ==> IsSpace(s[k])
    ensures n < |s| ==> !IsSpace(s[n])
  {
    if i < |s| && IsSpace(s[i]) then SkipSpace(s, i + 1) else i
  }

  /** The least end `n`, not below `lo`, such that `s[n..e]` is all white space. */
  function SkipSpaceBack(s: string, lo: nat, e: nat): (n: nat)
    requires lo <= e <= |s|
    ensures lo <= n <= e
    ensures forall k :: n <= k < e ==> IsSpace(s[k])
    ensures n > lo ==> !IsSpace(s[n - 1])
  {
    if e > lo && IsSpace(s[e - 1]) then SkipSpaceBack(s, lo, e - 1) else e
  }

  /** `s` has no white space at either end. */
  predicate Trimmed(s: string) {
    s == [] || (!IsSpace(s[0]) && !IsSpace(s[|s| - 1]))
  }

  /** `s.trim()`: the infix of `s` left once the white space at both ends is cut off. */
  function Trim(s: string): (r: string)
    ensures r == [] <==> AllSpace(s)
    ensures Trimmed(r)
  {
    var i := SkipSpace(s, 0);
    s[i..SkipSpaceBack(s, i, |s|)]
  }

  /** What `Trim` cuts off is white space at both ends: the result is the
      infix of `s` that starts at the first character that is not white
      space, and only white space follows it. */
  lemma TrimIsInfix(s: string)
    ensures var r, i := Trim(s), SkipSpace(s, 0);
      i + |r| <= |s| && r == s[i..i + |r|]
      && (forall k :: 0 <= k < i ==> IsSpace(s[k]))
      && (forall k :: i + |r| <= k < |s| ==> IsSpace(s[k]))
  {
  }

  /** A string without white space at its ends is its own trim. */
  lemma TrimOfTrimmed(s: string)
    requires Trimmed(s)
    ensures Trim(s) == s
  {
  }

  /** Trimming twice is trimming once. */
  lemma TrimIdempotent(s: string)
    ensures Trim(Trim(s)) == Trim(s)
  {
    TrimOfTrimmed(Trim(s));
  }

  /** A non-empty string that starts with a character other than white
      space keeps that character in any string containing it, so that
      string trims to a non-empty string. */
  lemma {:induction false} TrimNonEmpty(a: string, b: string, c: string)
    requires a != [] && Trimmed(a)
    ensures Trim(b + a + c) != []
  {
    var s := b + a + c;
    assert s[|b|] == a[0];
    assert !IsSpace(s[|b|]);
  }

  predicate OccursAt(s: string, t: string, i: int) {
    0 <= i && i + |t| <= |s| && s[i..i + |t|] == t
  }

  /** An occurrence inside a slice is an occurrence in the whole string, shifted. */
  lemma OccursInSlice(s: string, lo: nat, hi: nat, t: string, m: nat)
    requires lo <= hi <= |s| && m + |t| <= hi - lo
    ensures OccursAt(s[lo..hi], t, m) <==> OccursAt(s, t, lo + m)
  {
    var a, b := s[lo..hi][m..m + |t|], s[lo + m..lo + m + |t|];
    assert |a| == |b| && forall j :: 0 <= j < |a| ==> a[j] == b[j];
    assert a == b;
  }

  /** `s.indexOf(t, from)`: the first offset at or after `from` where `t` occurs. */
  function IndexOf(s: string, t: string, from: nat): (r: Option<nat>)
    decreases |s| - from
    ensures r.Some? ==> from <= r.value && r.value + |t| <= |s|
  {
    if from + |t| > |s| then None
    else if s[from..from + |t|] == t then Some(from)
    else IndexOf(s, t, from + 1)
  }

  /** `indexOf` finds the first occurrence at or after `from`, and reports
      none only when there is none. */
  lemma {:induction false} IndexOfFirst(s: string, t: string, from: nat)
    decreases |s| - from
    ensures var r := IndexOf(s, t, from);
      && (r.Some? ==> OccursAt(s, t, r.value) && forall k :: from <= k < r.value ==> !OccursAt(s, t, k))
      && (r.None? ==> forall k :: from <= k ==> !OccursAt(s, t, k))
  {
    if from + |t| <= |s| && s[from..from + |t|] != t {
      IndexOfFirst(s, t, from + 1);
    }
  }

  /** `s.includes(t)` */
  predicate Contains(s: string, t: string) {
    IndexOf(s, t, 0).Some?
  }

  /** `includes` holds exactly when `t` occurs somewhere in `s`. */
  lemma ContainsOccurs(s: string, t: string)
    ensures Contains(s, t) <==> exists k :: OccursAt(s, t, k)
  {
    IndexOfFirst(s, t, 0);
    if Contains(s, t) {
      assert OccursAt(s, t, IndexOf(s, t, 0).value);
    }
  }

  /** `parts.join(sep)`; an empty array joins to the empty string. */
  function Join(parts: seq<string>, sep: string): string {
    if |parts| == 0 then ""
    else if |parts| == 1 then parts[0]
    else parts[0] + sep + Join(parts[1..], sep)
  }

  /** The first part, the separator, then the join of the others. */
  lemma JoinFirst(parts: seq<string>, sep: string)
    requires |parts| >= 2
    ensures Join(parts, sep) == parts[0] + (sep + Join(parts[1..], sep))
  {
  }

  /** A part in front of a non-empty list: the part, the separator, then
      the join of the list, whatever follows. */
  lemma JoinCons(p: string, parts: seq<string>, sep: string, rest: string)
    requires |parts| >= 1
    ensures Join([p] + parts, sep) + rest == p + (sep + (Join(parts, sep) + rest))
  {
    JoinFirst([p] + parts, sep);
    assert ([p] + parts)[1..] == parts;
  }

  /** Joining two non-empty lists puts one separator between their joins. */
  lemma {:induction false} JoinAppend(a: seq<string>, b: seq<string>, sep: string)
    requires |a| >= 1 && |b| >= 1
    ensures Join(a + b, sep) == Join(a, sep) + sep + Join(b, sep)
  {
    if |a| == 1 {
      assert (a + b)[1..] == b;
    } else {
      assert (a + b)[1..] == a[1..] + b;
      JoinAppend(a[1..], b, sep);
    }
  }

  /** Every character of a join is a character of a part or of the separator. */
  lemma {:induction false} JoinChars(parts: seq<string>, sep: string)
    ensures forall ch :: ch in Join(parts, sep) ==> ch in sep || exists p :: p in parts && ch in p
  {
    if |parts| > 1 {
      JoinChars(parts[1..], sep);
      assert parts[0] in parts;
      assert forall p :: p in parts[1..] ==> p in parts;
    } else if |parts| == 1 {
      assert parts[0] in parts;
    }
  }

  /** `s.split(d)` for a one-character separator `d`: the maximal pieces
      free of `d`; there is always at least one. */
  function Split(s: string, d: char): (r: seq<string>)
    ensures |r| >= 1
  {
    if |s| == 0 then [""]
    else
      var rest := Split(s[1..], d);
      if s[0] == d then [""] + rest
      else [[s[0]] + rest[0]] + rest[1..]
  }

  /** No piece holds the separator. */
  lemma {:induction false} SplitPiecesFree(s: string, d: char)
    ensures forall p :: p in Split(s, d) ==> d !in p
  {
    if |s| > 0 {
      SplitPiecesFree(s[1..], d);
      var rest := Split(s[1..], d);
      if s[0] != d {
        assert rest[0] in rest;
        var r := [[s[0]] + rest[0]] + rest[1..];
        assert forall p :: p in r ==> p == r[0] || p in rest;
      }
    }
  }

  /** Joining the pieces with the separator gives the string back. */
  lemma {:induction false} JoinSplit(s: string, d: char)
    ensures Join(Split(s, d), [d]) == s
  {
    if |s| > 0 {
      JoinSplit(s[1..], d);
      var rest := Split(s[1..], d);
      if s[0] == d {
        assert Join([""] + rest, [d]) == [d] + Join(rest, [d]);
      } else {
        var r := [[s[0]] + rest[0]] + rest[1..];
        assert r[1..] == rest[1..];
        assert s == [s[0]] + s[1..];
      }
    }
  }

  /** A piece free of the separator splits to itself. */
  lemma {:induction false} SplitNoSeparator(p: string, d: char)
    requires d !in p
    ensures Split(p, d) == [p]
  {
    if p != [] {
      SplitNoSeparator(p[1..], d);
      assert p[0] != d;
      assert [p[0]] + p[1..] == p;
    }
  }

  /** Splitting stops the first piece at the first separator. */
  lemma {:induction false} SplitAtSeparator(p: string, s: string, d: char)
    requires d !in p
    ensures Split(p + [d] + s, d) == [p] + Split(s, d)
  {
    if p == [] {
      assert p + [d] + s == [d] + s;
      assert ([d] + s)[1..] == s;
    } else {
      assert (p + [d] + s)[1..] == p[1..] + [d] + s;
      SplitAtSeparator(p[1..], s, d);
      assert [p[0]] + p[1..] == p;
    }
  }

  /** Splitting undoes joining when no piece holds the separator. */
  lemma {:induction false} SplitJoin(parts: seq<string>, d: char)
    requires |parts| >= 1 && forall p :: p in parts ==> d !in p
    ensures Split(Join(parts, [d]), d) == parts
  {
    if |parts| == 1 {
      SplitNoSeparator(parts[0], d);
    } else {
      assert parts[0] in parts;
      assert forall p :: p in parts[1..] ==> p in parts;
      SplitJoin(parts[1..], d);
      SplitAtSeparator(parts[0], Join(parts[1..], [d]), d);
      assert parts == [parts[0]] + parts[1..];
    }
  }

  /** Every character of a piece of `s.split(d)` is a character of `s`. */
  lemma {:induction false} SplitPieceChars(s: string, d: char)
    ensures forall p, ch :: p in Split(s, d) && ch in p ==> ch in s
  {
    if |s| > 0 {
      SplitPieceChars(s[1..], d);
      var rest := Split(s[1..], d);
      assert forall ch :: ch in s[1..] ==> ch in s;
      if s[0] != d {
        assert rest[0] in rest;
        var r := [[s[0]] + rest[0]] + rest[1..];
        assert forall p :: p in r ==> p == r[0] || p in rest;
      }
    }
  }

  /** `toLowerCase` on one character, for the ASCII letters. */
  function LowerChar(c: char): char {
    if 'A' <= c <= 'Z' then (c as int + 32) as char else c
  }

  /** `s.toLowerCase()` restricted to ASCII: letter by letter, same length. */
  function ToLower(s: string): (r: string)
    ensures |r| == |s|
    ensures forall i :: 0 <= i < |s| ==> r[i] == LowerChar(s[i])
  {
    seq(|s|, i requires 0 <= i < |s| => LowerChar(s[i]))
  }

  /** Lower-casing leaves no ASCII capital letter, changes no other
      character, and a second pass changes nothing. */
  lemma ToLowerSpec(s: string)
    ensures forall i :: 0 <= i < |s| ==> !('A' <= ToLower(s)[i] <= 'Z')
    ensures forall i :: 0 <= i < |s| && !('A' <= s[i] <= 'Z') ==> ToLower(s)[i] == s[i]
    ensures ToLower(ToLower(s)) == ToLower(s)
  {
  }
}
