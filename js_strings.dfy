/**
  The JavaScript string operations the application relies on: `startsWith`,
  substring tests (what a regular expression made of literal alternatives
  checks), ASCII `toLowerCase`, `trim`, `slice`, and the decimal rendering of
  a non-negative integer.
 */
module JsStrings {
  import opened Wrappers

  /** JavaScript truthiness of an optional string: present and non-empty. */
  predicate Truthy(o: Option<string>) {
    o.Some? && o.value != ""
  }

  /** `o || fallback`. */
  function OrElse(o: Option<string>, fallback: string): (r: string)
    ensures Truthy(o) ==> r == o.value
    ensures !Truthy(o) ==> r == fallback
  {
    if Truthy(o) then o.value else fallback
  }

  /** `s.startsWith(p)`. */
  predicate StartsWith(s: string, p: string) {
    |p| <= |s| && s[..|p|] == p
  }

  /** The substring test by a scan from the left, as a regex engine runs it. */
  predicate Contains(s: string, t: string)
    decreases |s|
  {
    StartsWith(s, t) || (|s| > 0 && Contains(s[1..], t))
  }

  /** `t` occurs in `s` at index `i`. */
  predicate OccursAt(s: string, t: string, i: int) {
    0 <= i && i + |t| <= |s| && s[i..i + |t|] == t
  }

  /** Moving one character off the front moves every occurrence one place left. */
  lemma OccursShift(s: string, t: string, i: int)
    requires |s| > 0 && i >= 1
    ensures OccursAt(s, t, i) <==> OccursAt(s[1..], t, i - 1)
  {
    if i + |t| <= |s| {
      assert s[1..][i - 1..i - 1 + |t|] == s[i..i + |t|];
    }
  }

  /** The scan finds `t` exactly when `t` occurs at some index of `s`. */
  lemma {:induction false} ContainsIffOccurs(s: string, t: string)
    ensures Contains(s, t) <==> exists i :: OccursAt(s, t, i)
    decreases |s|
  {
    if StartsWith(s, t) {
      assert OccursAt(s, t, 0);
    } else if |s| == 0 {
    } else {
      ContainsIffOccurs(s[1..], t);
      forall i | i >= 1 ensures OccursAt(s, t, i) <==> OccursAt(s[1..], t, i - 1) {
        OccursShift(s, t, i);
      }
      if Contains(s[1..], t) {
        var i :| OccursAt(s[1..], t, i);
        assert OccursAt(s, t, i + 1);
      } else {
        assert |t| <= |s| ==> s[0..|t|] == s[..|t|];
      }
    }
  }

  /** A string occurs in any concatenation that has it as a middle part. */
  lemma ContainsMiddle(a: string, t: string, b: string)
    ensures Contains(a + t + b, t)
  {
    var s := a + t + b;
    assert s[|a|..|a| + |t|] == t;
    assert OccursAt(s, t, |a|);
    ContainsIffOccurs(s, t);
  }

  /** ASCII `toLowerCase` of one character. */
  function LowerChar(c: char): (r: char)
    ensures 'A' <= c <= 'Z' ==> r as int == c as int + 32
    ensures !('A' <= c <= 'Z') ==> r == c
    ensures !('A' <= r <= 'Z')
  {
    if 'A' <= c <= 'Z' then (c as int + 32) as char else c
  }

  /** `s.toLowerCase()` on the ASCII letters. */
  function ToLower(s: string): (r: string)
    ensures |r| == |s|
    ensures forall i :: 0 <= i < |s| ==> r[i] == LowerChar(s[i])
  {
    seq(|s|, i requires 0 <= i < |s| => LowerChar(s[i]))
  }

  /** No ASCII capital letter in `s`. */
  predicate NoUpper(s: string) {
    forall i :: 0 <= i < |s| ==> !('A' <= s[i] <= 'Z')
  }

  lemma ToLowerNoUpper(s: string)
    ensures NoUpper(ToLower(s))
  {
    var r := ToLower(s);
    forall i | 0 <= i < |r| ensures !('A' <= r[i] <= 'Z') {
      assert r[i] == LowerChar(s[i]);
    }
  }

  /** Lower-casing twice is lower-casing once. */
  lemma ToLowerIdempotent(s: string)
    ensures ToLower(ToLower(s)) == ToLower(s)
  {
  }

  /**
    The characters `String.prototype.trim` removes: the WhiteSpace and
    LineTerminator code points of ECMAScript (section 12.2 and 12.3 of
    ECMA-262). U+200B..U+200D are NOT among them.
   */
  predicate IsJsWhitespace(c: char) {
    c == '\t' || c == '\n' || c == '\U{000B}' || c == '\U{000C}' || c == '\r' || c == ' '
    || c == '\U{00A0}' || c == '\U{1680}' || ('\U{2000}' <= c <= '\U{200A}')
    || c == '\U{2028}' || c == '\U{2029}' || c == '\U{202F}' || c == '\U{205F}'
    || c == '\U{3000}' || c == '\U{FEFF}'
  }

  function TrimStart(s: string): (r: string)
    ensures |r| <= |s| && r == s[|s| - |r|..]
    ensures r == [] || !IsJsWhitespace(r[0])
  {
    if |s| > 0 && IsJsWhitespace(s[0]) then TrimStart(s[1..]) else s
  }

  function TrimEnd(s: string): (r: string)
    ensures |r| <= |s| && r == s[..|r|]
    ensures r == [] || !IsJsWhitespace(r[|r| - 1])
  {
    if |s| > 0 && IsJsWhitespace(s[|s| - 1]) then TrimEnd(s[..|s| - 1]) else s
  }

  /** A piece of a string without capitals has none either. */
  lemma NoUpperSlice(s: string, i: int, j: int)
    requires NoUpper(s) && 0 <= i <= j <= |s|
    ensures NoUpper(s[i..j])
  {
    forall k | 0 <= k < j - i ensures !('A' <= s[i..j][k] <= 'Z') {
      assert s[i..j][k] == s[i + k];
    }
  }

  /** `s.trim()`. */
  function Trim(s: string): string {
    TrimEnd(TrimStart(s))
  }

  /** Trim returns a contiguous piece of its input with no whitespace at either end. */
  lemma TrimShape(s: string)
    ensures exists i, j :: 0 <= i <= j <= |s| && Trim(s) == s[i..j]
    ensures Trim(s) == [] || (!IsJsWhitespace(Trim(s)[0]) && !IsJsWhitespace(Trim(s)[|Trim(s)| - 1]))
  {
    var t := TrimStart(s);
    var r := TrimEnd(t);
    var i := |s| - |t|;
    assert t == s[i..];
    assert r == t[..|r|];
    assert r == s[i..i + |r|];
    assert Trim(s) == r;
    assert 0 <= i <= i + |r| <= |s| && Trim(s) == s[i..i + |r|];
    if r != [] {
      assert r[0] == t[0];
    }
  }

  /** Trimming twice is trimming once. */
  lemma TrimIdempotent(s: string)
    ensures Trim(Trim(s)) == Trim(s)
  {
    var r := Trim(s);
    TrimShape(s);
    if r != [] {
      assert TrimStart(r) == r;
      assert TrimEnd(r) == r;
    }
  }

  /** Lower-casing does not touch whitespace, so it commutes with trim. */
  lemma {:induction false} TrimStartLower(s: string)
    ensures TrimStart(ToLower(s)) == ToLower(TrimStart(s))
    decreases |s|
  {
    if |s| > 0 {
      LowerKeepsWhitespace(s[0]);
    }
    if |s| > 0 && IsJsWhitespace(s[0]) {
      assert ToLower(s)[1..] == ToLower(s[1..]);
      TrimStartLower(s[1..]);
    }
  }

  lemma {:induction false} TrimEndLower(s: string)
    ensures TrimEnd(ToLower(s)) == ToLower(TrimEnd(s))
    decreases |s|
  {
    var l := ToLower(s);
    if |s| > 0 {
      assert l[|s| - 1] == LowerChar(s[|s| - 1]);
      LowerKeepsWhitespace(s[|s| - 1]);
      if IsJsWhitespace(s[|s| - 1]) {
        assert l[..|s| - 1] == ToLower(s[..|s| - 1]);
        assert TrimEnd(l) == TrimEnd(l[..|s| - 1]);
        TrimEndLower(s[..|s| - 1]);
      } else {
        assert TrimEnd(l) == l && TrimEnd(s) == s;
      }
    }
  }

  /** Lower-casing maps whitespace to itself and nothing else to whitespace. */
  lemma LowerKeepsWhitespace(c: char)
    ensures IsJsWhitespace(LowerChar(c)) <==> IsJsWhitespace(c)
  {
  }

  lemma TrimLowerCommute(s: string)
    ensures Trim(ToLower(s)) == ToLower(Trim(s))
  {
    TrimStartLower(s);
    TrimEndLower(TrimStart(s));
  }

  /** A template literal as the concatenation of its parts, fixed text and inserted values alike. */
  function Join(parts: seq<string>): (r: string)
    ensures |parts| == 1 ==> r == parts[0]
  {
    if parts == [] then "" else parts[0] + Join(parts[1..])
  }

  /** A join splits around any one of its parts. */
  lemma {:induction false} JoinSplit(parts: seq<string>, i: int)
    requires 0 <= i < |parts|
    ensures Join(parts) == Join(parts[..i]) + parts[i] + Join(parts[i + 1..])
  {
    if i > 0 {
      JoinSplit(parts[1..], i - 1);
      assert parts[1..][..i - 1] == parts[1..i];
      assert parts[1..][i..] == parts[i + 1..];
      assert parts[..i] == [parts[0]] + parts[1..i];
      assert Join(parts[..i]) == parts[0] + Join(parts[1..i]);
    } else {
      assert parts[..0] == [];
      assert parts[1..] == parts[i + 1..];
    }
  }

  /** Every part of a join occurs in it. */
  lemma JoinContainsPart(parts: seq<string>, i: int)
    requires 0 <= i < |parts|
    ensures Contains(Join(parts), parts[i])
  {
    JoinSplit(parts, i);
    ContainsMiddle(Join(parts[..i]), parts[i], Join(parts[i + 1..]));
  }

  /** Replacing one part changes the length of the join by the difference in length of that part. */
  lemma JoinReplaceLength(parts: seq<string>, i: int, x: string)
    requires 0 <= i < |parts|
    ensures |Join(parts[i := x])| == |Join(parts)| - |parts[i]| + |x|
  {
    var q := parts[i := x];
    JoinSplit(parts, i);
    JoinSplit(q, i);
    assert q[..i] == parts[..i];
    assert q[i + 1..] == parts[i + 1..];
  }

  /** Two joins that agree on every part but one are equal only if that part is too. */
  lemma JoinCancel(parts: seq<string>, i: int, x: string, y: string)
    requires 0 <= i < |parts|
    requires Join(parts[i := x]) == Join(parts[i := y])
    ensures x == y
  {
    var p, q := parts[i := x], parts[i := y];
    JoinSplit(p, i);
    JoinSplit(q, i);
    assert p[..i] == q[..i] && p[i + 1..] == q[i + 1..];
    CancelAround(Join(p[..i]), x, y, Join(p[i + 1..]));
  }

  /** Equal surroundings cancel: `a + x + b == a + y + b` forces `x == y`. */
  lemma CancelAround(a: string, x: string, y: string, b: string)
    requires a + x + b == a + y + b
    ensures x == y
  {
    var l := a + x + b;
    assert |x| == |y|;
    assert x == l[|a|..|a| + |x|];
    assert y == (a + y + b)[|a|..|a| + |y|];
  }

  /** Resolution of one `Array.prototype.slice` / `String.prototype.slice` bound. */
  function SliceBound(i: int, len: nat): (r: nat)
    ensures r <= len
    ensures 0 <= i ==> r == if i <= len then i else len
    ensures i < 0 ==> r == if len + i >= 0 then len + i else 0
  {
    if i < 0 then (if len + i >= 0 then len + i else 0) else if i <= len then i else len
  }

  /** `s.slice(from, to)` with JavaScript's clamping of both bounds. */
  function JsSlice<T>(s: seq<T>, from: int, to: int): (r: seq<T>)
    ensures |r| <= |s|
    ensures 0 <= from && from <= to ==> |r| <= to - from
    ensures SliceBound(from, |s|) < SliceBound(to, |s|) ==> r == s[SliceBound(from, |s|)..SliceBound(to, |s|)]
    ensures SliceBound(from, |s|) >= SliceBound(to, |s|) ==> r == []
  {
    var a := SliceBound(from, |s|);
    var b := SliceBound(to, |s|);
    if a < b then s[a..b] else []
  }

  /** Remove every character for which `drop` holds (a global `replace(/c1|c2/g, '')`). */
  function RemoveAll(s: string, drop: char -> bool): (r: string)
    ensures |r| <= |s|
    ensures forall i :: 0 <= i < |r| ==> !drop(r[i])
    ensures forall i :: 0 <= i < |r| ==> r[i] in s
  {
    if s == [] then []
    else if drop(s[0]) then RemoveAll(s[1..], drop)
    else [s[0]] + RemoveAll(s[1..], drop)
  }

  /** A string with no character to drop is left as it is. */
  lemma {:induction false} RemoveAllNothingToDrop(s: string, drop: char -> bool)
    requires forall i :: 0 <= i < |s| ==> !drop(s[i])
    ensures RemoveAll(s, drop) == s
  {
    if s != [] {
      RemoveAllNothingToDrop(s[1..], drop);
    }
  }

  /** Removal works piece by piece. */
  lemma {:induction false} RemoveAllConcat(a: string, b: string, drop: char -> bool)
    ensures RemoveAll(a + b, drop) == RemoveAll(a, drop) + RemoveAll(b, drop)
  {
    if a != [] {
      assert (a + b)[1..] == a[1..] + b;
      RemoveAllConcat(a[1..], b, drop);
    } else {
      assert a + b == b;
    }
  }

  function DigitChar(d: nat): (c: char)
    requires d < 10
    ensures '0' <= c <= '9'
  {
    ('0' as int + d) as char
  }

  /** `String(n)` for a non-negative integer: decimal, no leading zeros. */
  function NatToString(n: nat): (r: string)
    ensures |r| >= 1
    ensures forall i :: 0 <= i < |r| ==> '0' <= r[i] <= '9'
    ensures |r| > 1 ==> r[0] != '0'
  {
    if n < 10 then [DigitChar(n)] else NatToString(n / 10) + [DigitChar(n % 10)]
  }

  /** `String(n)` for any integer (JavaScript prints a minus sign). */
  function IntToString(n: int): string {
    if n < 0 then "-" + NatToString(-n) else NatToString(n)
  }

  /** Reads a decimal digit string back into a number. */
  function ParseDecimal(s: string): nat
    requires forall i :: 0 <= i < |s| ==> '0' <= s[i] <= '9'
  {
    if s == [] then 0
    else ParseDecimal(s[..|s| - 1]) * 10 + (s[|s| - 1] as int - '0' as int)
  }

  /** The decimal rendering is read back as the same number. */
  lemma {:induction false} NatToStringRoundTrip(n: nat)
    ensures ParseDecimal(NatToString(n)) == n
  {
    if n >= 10 {
      var s := NatToString(n);
      assert s[..|s| - 1] == NatToString(n / 10);
      NatToStringRoundTrip(n / 10);
    }
  }

  /** Distinct numbers are rendered differently. */
  lemma NatToStringInjective(m: nat, n: nat)
    requires NatToString(m) == NatToString(n)
    ensures m == n
  {
    NatToStringRoundTrip(m);
    NatToStringRoundTrip(n);
  }
}
