/**
 * The parts of Go's `strings` and `strconv` packages the core relies on,
 * over `string` (a sequence of characters; one character stands for one rune).
 */
module GoStrings {
  import opened Wrappers

  /** `unicode.IsSpace`: the Latin-1 white space characters and the Unicode `White_Space` separators. */
  predicate IsSpace(c: char) {
    c == '\t' || c == '\n' || c == '\U{000B}' || c == '\U{000C}' || c == '\r' || c == ' '
    || c == '\U{0085}' || c == '\U{00A0}' || c == '\U{1680}'
    || ('\U{2000}' <= c <= '\U{200A}')
    || c == '\U{2028}' || c == '\U{2029}' || c == '\U{202F}' || c == '\U{205F}' || c == '\U{3000}'
  }

  /** Index of the first character of `s` that is not white space (or `|s|`). */
  function TrimStart(s: string): (i: nat)
    ensures i <= |s|
    ensures forall k :: 0 <= k < i ==> IsSpace(s[k])
    ensures i < |s| ==> !IsSpace(s[i])
  {
    if s == [] || !IsSpace(s[0]) then 0 else 1 + TrimStart(s[1..])
  }

  /** Index just after the last character of `s` that is not white space (or 0). */
  function TrimEnd(s: string): (j: nat)
    ensures j <= |s|
    ensures forall k :: j <= k < |s| ==> IsSpace(s[k])
    ensures j > 0 ==> !IsSpace(s[j - 1])
  {
    if s == [] || !IsSpace(s[|s| - 1]) then |s| else TrimEnd(s[..|s| - 1])
  }

  /** `strings.TrimSpace`: `s` without its leading and trailing white space. */
  function TrimSpace(s: string): (r: string)
    ensures |r| <= |s|
    ensures r == [] || (!IsSpace(r[0]) && !IsSpace(r[|r| - 1]))
    ensures (forall k :: 0 <= k < |s| ==> IsSpace(s[k])) <==> r == []
  {
    var i := TrimStart(s);
    if i == |s| then [] else
    var j := TrimEnd(s);
    assert !IsSpace(s[i]);
    assert i < j;
    s[i..j]
  }

  /** A string is its own trimming exactly when it has no white space at either end. */
  lemma TrimSpaceFixed(s: string)
    requires s == [] || (!IsSpace(s[0]) && !IsSpace(s[|s| - 1]))
    ensures TrimSpace(s) == s
  {
    if s != [] {
      assert TrimStart(s) == 0;
      assert TrimEnd(s) == |s|;
    }
  }

  lemma TrimSpaceIdempotent(s: string)
    ensures TrimSpace(TrimSpace(s)) == TrimSpace(s)
  {
    TrimSpaceFixed(TrimSpace(s));
  }

  /** Trimming removes white space only: the result is a contiguous piece of `s`. */
  lemma TrimSpaceIsSlice(s: string)
    ensures exists i, j :: 0 <= i <= j <= |s| && TrimSpace(s) == s[i..j]
  {
    var i := TrimStart(s);
    if i == |s| {
      assert TrimSpace(s) == s[|s|..|s|];
    } else {
      var j := TrimEnd(s);
      assert !IsSpace(s[i]);
      assert i < j;
      assert TrimSpace(s) == s[i..j];
    }
  }

  const KelvinSign := '\U{212A}'
  const CapitalIWithDot := '\U{0130}'

  /**
   * The letters `unicode.ToLower` maps to an ASCII letter: the ASCII capitals,
   * the Kelvin sign (to `k`) and the capital I with dot above (to `i`).
   */
  predicate FoldsToAscii(c: char) {
    'A' <= c <= 'Z' || c == KelvinSign || c == CapitalIWithDot
  }

  /**
   * `unicode.ToLower` on the letters that lower to ASCII; every other
   * character is kept as it is.
   */
  function LowerChar(c: char): (d: char)
    ensures 'A' <= c <= 'Z' ==> d as int == c as int + 32
    ensures c == KelvinSign ==> d == 'k'
    ensures c == CapitalIWithDot ==> d == 'i'
    ensures !FoldsToAscii(c) ==> d == c
    ensures !FoldsToAscii(d)
  {
    if 'A' <= c <= 'Z' then (c as int + 32) as char
    else if c == KelvinSign then 'k'
    else if c == CapitalIWithDot then 'i'
    else c
  }

  /** `strings.ToLower`, character by character as `LowerChar` lowers. */
  function ToLower(s: string): (r: string)
    ensures |r| == |s|
    ensures forall k :: 0 <= k < |s| ==> r[k] == LowerChar(s[k])
  {
    seq(|s|, k requires 0 <= k < |s| => LowerChar(s[k]))
  }

  lemma ToLowerAppend(a: string, b: string)
    ensures ToLower(a + b) == ToLower(a) + ToLower(b)
  {
    assert forall k :: 0 <= k < |a + b| ==> ToLower(a + b)[k] == (ToLower(a) + ToLower(b))[k];
  }

  /** Lower-casing a join depends only on the lower-cased parts. */
  lemma {:induction false} ToLowerJoin(xs: seq<string>, ys: seq<string>, sep: string)
    requires |xs| == |ys|
    requires forall k :: 0 <= k < |xs| ==> ToLower(xs[k]) == ToLower(ys[k])
    ensures ToLower(Join(xs, sep)) == ToLower(Join(ys, sep))
    decreases |xs|
  {
    if |xs| > 1 {
      ToLowerJoin(xs[1..], ys[1..], sep);
      ToLowerAppend(xs[0] + sep, Join(xs[1..], sep));
      ToLowerAppend(xs[0], sep);
      ToLowerAppend(ys[0] + sep, Join(ys[1..], sep));
      ToLowerAppend(ys[0], sep);
    }
  }

  /** Two characters with one lower case may stand for each other anywhere in a string. */
  lemma ToLowerSwapChar(a: string, b: string, c: char, d: char)
    requires LowerChar(c) == LowerChar(d)
    ensures ToLower(a + [c] + b) == ToLower(a + [d] + b)
  {
    ToLowerAppend(a + [c], b);
    ToLowerAppend(a, [c]);
    ToLowerAppend(a + [d], b);
    ToLowerAppend(a, [d]);
    assert ToLower([c]) == ToLower([d]);
  }

  /** Text without letters that lower to ASCII is its own lower case. */
  lemma ToLowerNoUpper(s: string)
    requires forall k :: 0 <= k < |s| ==> !FoldsToAscii(s[k])
    ensures ToLower(s) == s
  {
  }

  /** Lower-casing twice is lower-casing once. */
  lemma ToLowerIdempotent(s: string)
    ensures ToLower(ToLower(s)) == ToLower(s)
  {
    assert forall k :: 0 <= k < |s| ==> ToLower(ToLower(s))[k] == ToLower(s)[k];
  }

  /** Lower-casing a slice is slicing the lower-cased string. */
  lemma ToLowerSlice(s: string, i: int, j: int)
    requires 0 <= i <= j <= |s|
    ensures ToLower(s[i..j]) == ToLower(s)[i..j]
  {
    assert forall k :: 0 <= k < j - i ==> ToLower(s[i..j])[k] == ToLower(s)[i..j][k];
  }

  /** Lower-casing keeps white space and non-white space apart, so it commutes with trimming. */
  lemma TrimSpaceToLower(s: string)
    ensures TrimSpace(ToLower(s)) == ToLower(TrimSpace(s))
  {
    var t := ToLower(s);
    assert forall k :: 0 <= k < |s| ==> (IsSpace(t[k]) <==> IsSpace(s[k]));
    assert TrimStart(t) == TrimStart(s);
    if TrimStart(s) < |s| {
      assert TrimEnd(t) == TrimEnd(s);
      ToLowerSlice(s, TrimStart(s), TrimEnd(s));
    }
  }

  /** `strings.HasPrefix`. */
  predicate HasPrefix(s: string, p: string) {
    |p| <= |s| && s[..|p|] == p
  }

  /** `strings.Contains`: `sub` occurs in `s` at some position. */
  predicate Contains(s: string, sub: string)
    decreases |s|
  {
    HasPrefix(s, sub) || (s != [] && Contains(s[1..], sub))
  }

  /** `sub` occurs in `s` starting at index `i`. */
  predicate OccursAt(s: string, sub: string, i: int) {
    0 <= i <= |s| - |sub| && s[i..i + |sub|] == sub
  }

  /** A slice that starts after the first character is a slice of the tail. */
  lemma SliceOfTail(s: string, i: int, n: int)
    requires 1 <= i && 0 <= n && i + n <= |s|
    ensures s[i..i + n] == s[1..][i - 1..i - 1 + n]
  {
    var x, y := s[i..i + n], s[1..][i - 1..i - 1 + n];
    forall k | 0 <= k < n ensures x[k] == y[k] {
      assert x[k] == s[i + k];
    }
  }

  /** `Contains` holds exactly when `sub` occurs at some index of `s`. */
  lemma {:induction false} ContainsAt(s: string, sub: string)
    ensures Contains(s, sub) <==> exists i :: OccursAt(s, sub, i)
    decreases |s|
  {
    if HasPrefix(s, sub) {
      assert OccursAt(s, sub, 0);
    }
    if s == [] {
      if exists i :: OccursAt(s, sub, i) {
        var i :| OccursAt(s, sub, i);
        assert HasPrefix(s, sub);
      }
    } else {
      ContainsAt(s[1..], sub);
      if Contains(s[1..], sub) {
        var i :| OccursAt(s[1..], sub, i);
        SliceOfTail(s, i + 1, |sub|);
        assert OccursAt(s, sub, i + 1);
      }
      if exists i :: OccursAt(s, sub, i) {
        var i :| OccursAt(s, sub, i);
        if i == 0 {
          assert HasPrefix(s, sub);
        } else {
          SliceOfTail(s, i, |sub|);
          assert OccursAt(s[1..], sub, i - 1);
        }
      }
    }
  }

  /** A string that contains `p + q` contains `p` and `q` as well. */
  lemma ContainsConcat(s: string, p: string, q: string)
    requires Contains(s, p + q)
    ensures Contains(s, p) && Contains(s, q)
  {
    ContainsAt(s, p + q);
    var i :| OccursAt(s, p + q, i);
    assert s[i..i + |p|] == (p + q)[..|p|] == p;
    assert s[i + |p|..i + |p| + |q|] == (p + q)[|p|..] == q;
    assert OccursAt(s, p, i);
    assert OccursAt(s, q, i + |p|);
    ContainsAt(s, p);
    ContainsAt(s, q);
  }

  /** Every character of a contained pattern occurs in the text. */
  lemma {:induction false} ContainsChars(s: string, sub: string)
    ensures Contains(s, sub) ==> forall k :: 0 <= k < |sub| ==> sub[k] in s
    decreases |s|
  {
    if HasPrefix(s, sub) {
      assert forall k :: 0 <= k < |sub| ==> sub[k] == s[k];
    } else if s != [] {
      ContainsChars(s[1..], sub);
      assert forall c :: c in s[1..] ==> c in s;
    }
  }

  /** A pattern that neither starts nor ends with white space and occurs at `i` lies inside the trimmed text. */
  lemma TrimSpaceBounds(s: string, i: int, n: int)
    requires 0 <= i && 0 < n && i + n <= |s|
    requires !IsSpace(s[i]) && !IsSpace(s[i + n - 1])
    ensures TrimStart(s) <= i && i + n <= TrimEnd(s)
    ensures TrimSpace(s) == s[TrimStart(s)..TrimEnd(s)]
  {
  }

  /** An occurrence of a pattern that neither starts nor ends with white space survives trimming. */
  lemma ContainsTrimSpace(s: string, sub: string)
    requires sub != [] && !IsSpace(sub[0]) && !IsSpace(sub[|sub| - 1])
    requires Contains(s, sub)
    ensures Contains(TrimSpace(s), sub)
  {
    ContainsAt(s, sub);
    var i :| OccursAt(s, sub, i);
    assert s[i] == sub[0] && s[i + |sub| - 1] == sub[|sub| - 1] by {
      assert s[i..i + |sub|] == sub;
    }
    TrimSpaceBounds(s, i, |sub|);
    var a, b := TrimStart(s), TrimEnd(s);
    OccursInSlice(s, sub, i, a, b);
  }

  /** An occurrence inside a slice is an occurrence in the slice, shifted. */
  lemma OccursInSlice(s: string, sub: string, i: int, a: int, b: int)
    requires OccursAt(s, sub, i) && 0 <= a <= i && i + |sub| <= b <= |s|
    ensures Contains(s[a..b], sub)
  {
    var t, j := s[a..b], i - a;
    assert 0 <= j <= |t| - |sub|;
    assert t[j..j + |sub|] == sub by {
      forall k | 0 <= k < |sub|
        ensures t[j..j + |sub|][k] == sub[k]
      {
        assert t[j + k] == s[i + k];
        assert s[i..i + |sub|][k] == s[i + k];
      }
    }
    assert OccursAt(t, sub, j);
    ContainsAt(t, sub);
  }

  /** Lower-casing the text keeps every occurrence, now of the lower-cased pattern. */
  lemma {:induction false} ContainsToLower(s: string, sub: string)
    requires Contains(s, sub)
    ensures Contains(ToLower(s), ToLower(sub))
    decreases |s|
  {
    if HasPrefix(s, sub) {
      ToLowerSlice(s, 0, |sub|);
    } else {
      ContainsToLower(s[1..], sub);
      ToLowerSlice(s, 1, |s|);
      assert s[1..|s|] == s[1..];
      var t := ToLower(s);
      assert t != [] && t[1..] == ToLower(s[1..]);
      assert Contains(t[1..], ToLower(sub));
      assert Contains(t, ToLower(sub));
    }
  }

  /** `strings.ReplaceAll(s, string(a), string(b))` for one-character patterns. */
  function ReplaceChar(s: string, a: char, b: char): (r: string)
    ensures |r| == |s|
    ensures forall k :: 0 <= k < |s| ==> r[k] == (if s[k] == a then b else s[k])
  {
    if s == [] then [] else [if s[0] == a then b else s[0]] + ReplaceChar(s[1..], a, b)
  }

  /** Replacing `a` a second time changes nothing, and `a` no longer occurs when `a != b`. */
  lemma ReplaceCharIdempotent(s: string, a: char, b: char)
    ensures ReplaceChar(ReplaceChar(s, a, b), a, b) == ReplaceChar(s, a, b)
    ensures a != b ==> a !in ReplaceChar(s, a, b)
  {
    var r := ReplaceChar(s, a, b);
    assert forall k :: 0 <= k < |r| ==> ReplaceChar(r, a, b)[k] == r[k];
  }

  /** `strings.Join`. */
  function Join(parts: seq<string>, sep: string): (r: string)
    ensures parts == [] ==> r == []
    ensures |parts| == 1 ==> r == parts[0]
  {
    if parts == [] then []
    else if |parts| == 1 then parts[0]
    else parts[0] + sep + Join(parts[1..], sep)
  }

  lemma JoinAppend(parts: seq<string>, last: string, sep: string)
    requires parts != []
    ensures Join(parts + [last], sep) == Join(parts, sep) + sep + last
  {
    if |parts| == 1 {
      assert (parts + [last])[1..] == [last];
    } else {
      assert (parts + [last])[1..] == parts[1..] + [last];
      JoinAppend(parts[1..], last, sep);
    }
  }

  /** `strings.IndexByte`: the first index of `c` in `s`, or -1. */
  function IndexOf(s: string, c: char): (i: int)
    ensures -1 <= i < |s|
    ensures i == -1 <==> c !in s
    ensures 0 <= i ==> s[i] == c && c !in s[..i]
    ensures 0 <= i ==> forall k :: 0 <= k < i ==> s[k] != c
  {
    if s == [] then -1
    else if s[0] == c then 0
    else
      var j := IndexOf(s[1..], c);
      assert s[1..] == s[..][1..];
      if j == -1 then -1 else
      assert s[..j + 1] == [s[0]] + s[1..][..j];
      j + 1
  }

  lemma {:induction false} IndexOfAppend(a: string, b: string, c: char)
    ensures c in a ==> IndexOf(a + b, c) == IndexOf(a, c)
    ensures c !in a && c in b ==> IndexOf(a + b, c) == |a| + IndexOf(b, c)
    decreases |a|
  {
    if a == [] {
      assert a + b == b;
    } else {
      assert (a + b)[0] == a[0];
      assert (a + b)[1..] == a[1..] + b;
      if a[0] != c {
        IndexOfAppend(a[1..], b, c);
        assert c in a ==> c in a[1..];
      }
    }
  }

  /** `strings.Split(s, string(sep))`: the pieces between occurrences of `sep`, never empty. */
  function Split(s: string, sep: char): (r: seq<string>)
    ensures |r| >= 1
    decreases |s|
  {
    var i := IndexOf(s, sep);
    if i < 0 then [s] else [s[..i]] + Split(s[i + 1..], sep)
  }

  /** No piece of a split contains the separator. */
  lemma {:induction false} SplitSeparatorFree(s: string, sep: char)
    ensures forall k :: 0 <= k < |Split(s, sep)| ==> sep !in Split(s, sep)[k]
    decreases |s|
  {
    var i := IndexOf(s, sep);
    if i >= 0 {
      var rest := Split(s[i + 1..], sep);
      SplitSeparatorFree(s[i + 1..], sep);
      var r := Split(s, sep);
      assert r == [s[..i]] + rest;
      forall k | 0 <= k < |r| ensures sep !in r[k] {
        if k == 0 {
          assert r[0] == s[..i];
        } else {
          assert r[k] == rest[k - 1];
        }
      }
    } else {
      assert Split(s, sep) == [s];
    }
  }

  /** Splitting and joining back with the same separator gives the string itself. */
  lemma {:induction false} JoinSplit(s: string, sep: char)
    ensures Join(Split(s, sep), [sep]) == s
    decreases |s|
  {
    var i := IndexOf(s, sep);
    if i >= 0 {
      var rest := Split(s[i + 1..], sep);
      JoinSplit(s[i + 1..], sep);
      var r := Split(s, sep);
      assert r == [s[..i]] + rest;
      assert r[0] == s[..i] && r[1..] == rest;
      assert Join(r, [sep]) == s[..i] + [sep] + Join(rest, [sep]);
      assert s == s[..i] + [sep] + s[i + 1..];
    }
  }

  /** The first separator is `IndexOf`'s answer, so `Split` cuts there. */
  lemma SplitCons(head: string, rest: string, sep: char)
    requires sep !in head
    ensures Split(head + [sep] + rest, sep) == [head] + Split(rest, sep)
  {
    var s := head + [sep] + rest;
    assert s[..|head|] == head && s[|head|] == sep && s[|head| + 1..] == rest;
    assert forall k :: 0 <= k < |head| ==> s[k] == head[k];
    assert IndexOf(s, sep) == |head|;
  }

  /** Joining separator-free pieces with `sep` and splitting at `sep` gives the pieces back. */
  lemma {:induction false} SplitJoin(xs: seq<string>, sep: char)
    requires xs != []
    requires forall k :: 0 <= k < |xs| ==> sep !in xs[k]
    ensures Split(Join(xs, [sep]), sep) == xs
    decreases |xs|
  {
    if |xs| == 1 {
      assert IndexOf(xs[0], sep) == -1;
    } else {
      var tail := xs[1..];
      assert Join(xs, [sep]) == xs[0] + [sep] + Join(tail, [sep]);
      SplitCons(xs[0], Join(tail, [sep]), sep);
      assert forall k :: 0 <= k < |tail| ==> tail[k] == xs[k + 1];
      SplitJoin(tail, sep);
      assert xs == [xs[0]] + tail;
    }
  }

  /** `strings.Cut(s, string(sep))` / `SplitN(s, sep, 2)`: text before and after the first `sep`. */
  function Cut(s: string, sep: char): (r: (string, Option<string>))
    ensures r.1.None? ==> sep !in s && r.0 == s
    ensures r.1.Some? ==> sep !in r.0 && s == r.0 + [sep] + r.1.value
  {
    var i := IndexOf(s, sep);
    if i < 0 then (s, None) else
    assert s == s[..i] + [sep] + s[i + 1..];
    (s[..i], Some(s[i + 1..]))
  }
  /** `Cut` stops at the first separator: what precedes a separator-free prefix and a separator is that prefix. */
  lemma CutBefore(a: string, b: string, sep: char)
    requires sep !in a
    ensures Cut(a + [sep] + b, sep).0 == a
  {
    var s := a + [sep] + b;
    assert s == a + ([sep] + b);
    IndexOfAppend(a, [sep] + b, sep);
    assert IndexOf([sep] + b, sep) == 0;
    assert s[..|a|] == a;
  }


  predicate IsDigit(c: char) { '0' <= c <= '9' }

  function DigitValue(c: char): nat
    requires IsDigit(c)
  {
    c as int - '0' as int
  }

  /** The value of a decimal digit string, most significant digit first. */
  function DigitsValue(s: string): nat
    requires forall k :: 0 <= k < |s| ==> IsDigit(s[k])
  {
    if s == [] then 0 else DigitsValue(s[..|s| - 1]) * 10 + DigitValue(s[|s| - 1])
  }

  /** The decimal text of a natural number, as `strconv.Itoa` and `%d` print it. */
  function Decimal(n: nat): (r: string)
    ensures |r| >= 1
    ensures forall k :: 0 <= k < |r| ==> IsDigit(r[k])
  {
    if n < 10 then [('0' as int + n) as char] else Decimal(n / 10) + [('0' as int + n % 10) as char]
  }

  /** `strconv.Itoa` for any int. */
  function Itoa(n: int): (r: string)
    ensures |r| >= 1
    ensures forall k :: 0 <= k < |r| ==> IsDigit(r[k]) || r[k] == '-'
  {
    if n < 0 then "-" + Decimal(-n) else Decimal(n)
  }

  lemma {:induction false} DigitsValueDecimal(n: nat)
    ensures DigitsValue(Decimal(n)) == n
  {
    if n >= 10 {
      var d := Decimal(n);
      assert d[..|d| - 1] == Decimal(n / 10);
      DigitsValueDecimal(n / 10);
    }
  }

  const MinInt64: int := -0x8000_0000_0000_0000
  const MaxInt64: int := 0x7FFF_FFFF_FFFF_FFFF

  /**
   * `strconv.Atoi`: an optional `+` or `-` sign followed by one or more decimal
   * digits, whose value must fit in 64 bits; anything else is an error.
   */
  function Atoi(s: string): (r: Result<int>)
    ensures r.Ok? ==> MinInt64 <= r.value <= MaxInt64
  {
    var neg := |s| > 0 && s[0] == '-';
    var digits := if |s| > 0 && (s[0] == '-' || s[0] == '+') then s[1..] else s;
    if digits == [] then Err("strconv.Atoi: parsing " + s + ": invalid syntax")
    else if !(forall k :: 0 <= k < |digits| ==> IsDigit(digits[k])) then Err("strconv.Atoi: parsing " + s + ": invalid syntax")
    else
      var mag: int := DigitsValue(digits);
      var v := if neg then -mag else mag;
      if v < MinInt64 || v > MaxInt64 then Err("strconv.Atoi: parsing " + s + ": value out of range")
      else Ok(v)
  }

  /** `Atoi` reads back every decimal text that fits in 64 bits. */
  lemma AtoiDecimal(n: nat)
    requires n <= MaxInt64
    ensures Atoi(Decimal(n)) == Ok(n)
  {
    var d := Decimal(n);
    assert d[0] != '-' && d[0] != '+' by { assert IsDigit(d[0]); }
    DigitsValueDecimal(n);
  }

  /** `Itoa` prints only digits and the minus sign. */
  lemma ItoaNoChar(n: int, c: char)
    requires !IsDigit(c) && c != '-'
    ensures c !in Itoa(n)
  {
  }

  /** `Atoi` reads back what `Itoa` prints, for every 64-bit value. */
  lemma AtoiItoa(n: int)
    requires MinInt64 <= n <= MaxInt64
    ensures Atoi(Itoa(n)) == Ok(n)
  {
    if n >= 0 {
      AtoiDecimal(n);
    } else {
      var s := Itoa(n);
      var d := Decimal(-n);
      assert s[1..] == d;
      DigitsValueDecimal(-n);
    }
  }

  /** `strings.TrimSuffix`. */
  function TrimSuffix(s: string, suffix: string): (r: string)
    ensures |suffix| <= |s| && s[|s| - |suffix|..] == suffix ==> r + suffix == s
    ensures !(|suffix| <= |s| && s[|s| - |suffix|..] == suffix) ==> r == s
  {
    if |suffix| <= |s| && s[|s| - |suffix|..] == suffix then s[..|s| - |suffix|] else s
  }

  predicate HasSuffix(s: string, suffix: string) {
    |suffix| <= |s| && s[|s| - |suffix|..] == suffix
  }
  /** Go's `a <= b` on strings: byte-wise lexicographic order, also SQL's binary collation. */
  predicate LessEq(a: string, b: string)
  {
    a == [] || (b != [] && (a[0] < b[0] || (a[0] == b[0] && LessEq(a[1..], b[1..]))))
  }

  lemma {:induction false} LessEqTrans(a: string, b: string, c: string)
    requires LessEq(a, b) && LessEq(b, c)
    ensures LessEq(a, c)
    decreases |a|
  {
    if a != [] && a[0] == b[0] && b[0] == c[0] {
      LessEqTrans(a[1..], b[1..], c[1..]);
    }
  }

  lemma {:induction false} LessEqTotal(a: string, b: string)
    ensures LessEq(a, b) || LessEq(b, a)
    decreases |a|
  {
    if a != [] && b != [] && a[0] == b[0] {
      LessEqTotal(a[1..], b[1..]);
    }
  }

  lemma {:induction false} LessEqAntisymmetric(a: string, b: string)
    requires LessEq(a, b) && LessEq(b, a)
    ensures a == b
    decreases |a|
  {
    if a != [] {
      LessEqAntisymmetric(a[1..], b[1..]);
      assert a == [a[0]] + a[1..] && b == [b[0]] + b[1..];
    }
  }

  // ------------------------------------------------------------------ UTF-8

  /** How many bytes a rune takes in UTF-8, the count Go's `len` adds up for a string. */
  function RuneLen(c: char): (n: nat)
    ensures 1 <= n <= 4
    ensures n == 1 <==> c as int < 0x80
  {
    if c as int < 0x80 then 1 else if c as int < 0x800 then 2 else if c as int < 0x10000 then 3 else 4
  }

  /** A rune's UTF-8 bytes: itself when ASCII, otherwise a lead byte and continuation bytes, all at least 0x80. */
  function RuneBytes(c: char): (b: seq<int>)
    ensures |b| == RuneLen(c)
    ensures c as int < 0x80 ==> b == [c as int]
    ensures c as int >= 0x80 ==> forall k :: 0 <= k < |b| ==> 0x80 <= b[k] < 0x100
  {
    var n := c as int;
    if n < 0x80 then [n]
    else if n < 0x800 then [0xC0 + n / 0x40, 0x80 + n % 0x40]
    else if n < 0x10000 then [0xE0 + n / 0x1000, 0x80 + (n / 0x40) % 0x40, 0x80 + n % 0x40]
    else [0xF0 + n / 0x40000, 0x80 + (n / 0x1000) % 0x40, 0x80 + (n / 0x40) % 0x40, 0x80 + n % 0x40]
  }

  /** The length in bytes of a string's UTF-8 encoding. */
  function Utf8Len(s: string): (n: nat)
    ensures |s| <= n <= 4 * |s|
  {
    if s == [] then 0 else RuneLen(s[0]) + Utf8Len(s[1..])
  }

  /** A string's UTF-8 encoding, the bytes Go indexes a string by. */
  function Utf8(s: string): (b: seq<int>)
    ensures |b| == Utf8Len(s)
  {
    if s == [] then [] else RuneBytes(s[0]) + Utf8(s[1..])
  }

  /** Encoding is a homomorphism: the bytes of a concatenation are the concatenated bytes. */
  lemma {:induction false} Utf8Append(a: string, b: string)
    ensures Utf8(a + b) == Utf8(a) + Utf8(b)
    ensures Utf8Len(a + b) == Utf8Len(a) + Utf8Len(b)
    decreases |a|
  {
    if a != [] {
      assert (a + b)[0] == a[0] && (a + b)[1..] == a[1..] + b;
      Utf8Append(a[1..], b);
    } else {
      assert a + b == b;
    }
  }

  /** Every rune is below 0x80. */
  predicate IsAscii(s: string) {
    forall k :: 0 <= k < |s| ==> s[k] as int < 0x80
  }

  /** An ASCII string is its own encoding: byte `k` is rune `k`. */
  lemma {:induction false} Utf8Ascii(s: string)
    requires IsAscii(s)
    ensures Utf8Len(s) == |s|
    ensures forall k :: 0 <= k < |s| ==> Utf8(s)[k] == s[k] as int
    decreases |s|
  {
    if s != [] {
      assert IsAscii(s[1..]) by {
        forall k | 0 <= k < |s[1..]| ensures s[1..][k] as int < 0x80 {
          assert s[1..][k] == s[k + 1];
        }
      }
      Utf8Ascii(s[1..]);
      assert Utf8(s) == [s[0] as int] + Utf8(s[1..]);
    }
  }

  // ------------------------------------------------------- byte strings

  /*
   * File contents are byte strings, one character per byte.  Go's
   * `strings.TrimSpace` decodes them as UTF-8, so on a byte string it trims
   * the encodings of the runes `IsSpace` accepts: one ASCII byte, or two or
   * three bytes led by 0xC2, 0xE1, 0xE2 or 0xE3.  A byte that only looks like
   * a space rune, such as the 0xA0 ending `à` (C3 A0), is kept.
   */

  /** Bytes, each below 0x100, as a byte string. */
  function ByteString(b: seq<int>): (s: string)
    requires forall k :: 0 <= k < |b| ==> 0 <= b[k] < 0x100
    ensures |s| == |b| && forall k :: 0 <= k < |b| ==> s[k] as int == b[k]
  {
    seq(|b|, k requires 0 <= k < |b| => b[k] as char)
  }

  /** A rune's UTF-8 encoding as a byte string. */
  function EncodedRune(c: char): (s: string)
    ensures |s| == RuneLen(c)
  {
    var b := RuneBytes(c);
    assert forall k :: 0 <= k < |b| ==> 0 <= b[k] < 0x100;
    ByteString(b)
  }

  /** The one-byte space runes: tab, newline, vertical tab, form feed, carriage return and space. */
  predicate SpaceByte(a: char) {
    a == '\t' || a == '\n' || a == '\U{000B}' || a == '\U{000C}' || a == '\r' || a == ' '
  }

  /** The two-byte space runes U+0085 and U+00A0. */
  predicate SpacePair(a: char, b: char) {
    a == '\U{00C2}' && (b == '\U{0085}' || b == '\U{00A0}')
  }

  /** The three-byte space runes U+1680, U+2000 to U+200A, U+2028, U+2029, U+202F, U+205F and U+3000. */
  predicate SpaceTriple(a: char, b: char, c: char) {
    (a == '\U{00E1}' && b == '\U{009A}' && c == '\U{0080}')
    || (a == '\U{00E2}' && b == '\U{0080}'
        && ('\U{0080}' <= c <= '\U{008A}' || c == '\U{00A8}' || c == '\U{00A9}' || c == '\U{00AF}'))
    || (a == '\U{00E2}' && b == '\U{0081}' && c == '\U{009F}')
    || (a == '\U{00E3}' && b == '\U{0080}' && c == '\U{0080}')
  }

  /** The bytes are the encoding of one space rune. */
  predicate SpaceEncoding(e: string) {
    (|e| == 1 && SpaceByte(e[0])) || (|e| == 2 && SpacePair(e[0], e[1])) || (|e| == 3 && SpaceTriple(e[0], e[1], e[2]))
  }

  /** Every space rune's encoding is one of the listed byte sequences. */
  lemma SpaceRuneEncoded(c: char)
    requires IsSpace(c)
    ensures SpaceEncoding(EncodedRune(c))
  {
  }

  /** No other rune's encoding is. */
  lemma EncodedSpaceRune(c: char)
    requires SpaceEncoding(EncodedRune(c))
    ensures IsSpace(c)
  {
    var n := c as int;
    if n < 0x80 {
    } else if n < 0x800 {
      assert EncodedRune(c)[0] == '\U{00C2}';
    } else {
      assert n < 0x10000;
    }
  }

  /** The length of the space rune `s` starts with, 0 when it starts with none. */
  function LeadSpace(s: string): (n: nat)
    ensures n <= 3 && n <= |s|
  {
    if |s| >= 1 && SpaceByte(s[0]) then 1
    else if |s| >= 2 && SpacePair(s[0], s[1]) then 2
    else if |s| >= 3 && SpaceTriple(s[0], s[1], s[2]) then 3
    else 0
  }

  /** The length of the space rune `s` ends with, 0 when it ends with none. */
  function TrailSpace(s: string): (n: nat)
    ensures n <= 3 && n <= |s|
  {
    var m := |s|;
    if m >= 1 && SpaceByte(s[m - 1]) then 1
    else if m >= 2 && SpacePair(s[m - 2], s[m - 1]) then 2
    else if m >= 3 && SpaceTriple(s[m - 3], s[m - 2], s[m - 1]) then 3
    else 0
  }

  /** `s` starts with the encoding of a space rune of `k` bytes exactly when `LeadSpace` finds it. */
  lemma LeadSpaceEncoding(s: string, k: nat)
    requires 1 <= k <= 3 && k <= |s|
    ensures SpaceEncoding(s[..k]) <==> LeadSpace(s) == k
  {
  }

  /** `s` ends with the encoding of a space rune of `k` bytes exactly when `TrailSpace` finds it. */
  lemma TrailSpaceEncoding(s: string, k: nat)
    requires 1 <= k <= 3 && k <= |s|
    ensures SpaceEncoding(s[|s| - k..]) <==> TrailSpace(s) == k
  {
  }

  /** `TrimLeftFunc(s[i..], unicode.IsSpace)`: the index of the first byte after the leading space runes. */
  function TrimLeadFrom(s: string, i: nat): (j: nat)
    requires i <= |s|
    ensures i <= j <= |s| && LeadSpace(s[j..]) == 0
    decreases |s| - i
  {
    var n := LeadSpace(s[i..]);
    if n == 0 then i else TrimLeadFrom(s, i + n)
  }

  /** `TrimRightFunc(s[i..j], unicode.IsSpace)`: the index just after the last byte before the trailing space runes. */
  function TrimTrailTo(s: string, i: nat, j: nat): (k: nat)
    requires i <= j <= |s|
    ensures i <= k <= j && TrailSpace(s[i..k]) == 0
    decreases j
  {
    var n := TrailSpace(s[i..j]);
    if n == 0 then j else TrimTrailTo(s, i, j - n)
  }

  /** Cutting the end off a piece that starts with no space rune leaves one that starts with none. */
  lemma LeadShorter(s: string, i: nat, j: nat, k: nat)
    requires i <= k <= j <= |s| && LeadSpace(s[i..j]) == 0
    ensures LeadSpace(s[i..k]) == 0
  {
    if k - i >= 1 {
      assert s[i..k][0] == s[i..j][0];
    }
    if k - i >= 2 {
      assert s[i..k][1] == s[i..j][1];
    }
    if k - i >= 3 {
      assert s[i..k][2] == s[i..j][2];
    }
  }

  /** `strings.TrimSpace` of a byte string: neither end of the result is the encoding of a space rune. */
  function ByteTrimSpace(s: string): (r: string)
    ensures |r| <= |s|
    ensures LeadSpace(r) == 0 && TrailSpace(r) == 0
  {
    var i := TrimLeadFrom(s, 0);
    var k := TrimTrailTo(s, i, |s|);
    assert s[i..] == s[i..|s|];
    LeadShorter(s, i, |s|, k);
    s[i..k]
  }

  /** A byte string that neither starts nor ends with a space rune is its own trimming. */
  lemma ByteTrimSpaceFixed(s: string)
    requires LeadSpace(s) == 0 && TrailSpace(s) == 0
    ensures ByteTrimSpace(s) == s
  {
    assert s[0..] == s;
    assert s[0..|s|] == s;
  }

  lemma ByteTrimSpaceIdempotent(s: string)
    ensures ByteTrimSpace(ByteTrimSpace(s)) == ByteTrimSpace(s)
  {
    ByteTrimSpaceFixed(ByteTrimSpace(s));
  }

  /** Trimming removes bytes at the ends only: the result is a contiguous piece of `s`. */
  lemma ByteTrimSpaceIsSlice(s: string)
    ensures exists i, j :: 0 <= i <= j <= |s| && ByteTrimSpace(s) == s[i..j]
  {
    var i := TrimLeadFrom(s, 0);
    var k := TrimTrailTo(s, i, |s|);
    assert ByteTrimSpace(s) == s[i..k];
  }

  lemma {:induction false} TrimTrailNonEmpty(s: string, i: nat, j: nat)
    requires i < j <= |s| && LeadSpace(s[i..j]) == 0
    ensures TrimTrailTo(s, i, j) > i
    decreases j
  {
    var n := TrailSpace(s[i..j]);
    if n == j - i {
      assert false;
    } else if n > 0 {
      LeadShorter(s, i, j, j - n);
      TrimTrailNonEmpty(s, i, j - n);
    }
  }

  /** A non-empty byte string that does not start with a space rune keeps at least its first byte. */
  lemma ByteTrimNonEmpty(s: string)
    requires s != [] && LeadSpace(s) == 0
    ensures ByteTrimSpace(s) != []
  {
    assert s[0..|s|] == s;
    TrimTrailNonEmpty(s, 0, |s|);
  }

  lemma LeadSpaceAscii(t: string)
    requires t != [] && t[0] as int < 0x80
    ensures LeadSpace(t) == if SpaceByte(t[0]) then 1 else 0
    ensures SpaceByte(t[0]) <==> IsSpace(t[0])
  {
  }

  lemma TrailSpaceAscii(t: string)
    requires t != [] && t[|t| - 1] as int < 0x80
    ensures TrailSpace(t) == if SpaceByte(t[|t| - 1]) then 1 else 0
    ensures SpaceByte(t[|t| - 1]) <==> IsSpace(t[|t| - 1])
  {
  }

  lemma {:induction false} TrimLeadAscii(s: string, i: nat)
    requires IsAscii(s) && i <= |s|
    ensures TrimLeadFrom(s, i) == i + TrimStart(s[i..])
    decreases |s| - i
  {
    if i < |s| {
      assert s[i..][0] == s[i];
      LeadSpaceAscii(s[i..]);
      if IsSpace(s[i]) {
        assert s[i..][1..] == s[i + 1..];
        TrimLeadAscii(s, i + 1);
      }
    }
  }

  lemma {:induction false} TrimTrailAscii(s: string, i: nat, j: nat)
    requires IsAscii(s) && i <= j <= |s|
    ensures TrimTrailTo(s, i, j) == i + TrimEnd(s[i..j])
    decreases j
  {
    if i < j {
      var t := s[i..j];
      var c := s[j - 1];
      assert t[|t| - 1] == c;
      assert c as int < 0x80;
      TrailSpaceAscii(t);
      if IsSpace(c) {
        var p := s[i..j - 1];
        assert t[..|t| - 1] == p;
        assert TrimEnd(t) == TrimEnd(p);
        assert TrimTrailTo(s, i, j) == TrimTrailTo(s, i, j - 1);
        TrimTrailAscii(s, i, j - 1);
      } else {
        assert TrimEnd(t) == |t|;
      }
    }
  }

  /** Trimming the end of `s` from a non-space character on is trimming the end of `s`. */
  lemma {:induction false} TrimEndShift(s: string, i: nat)
    requires i < |s| && !IsSpace(s[i])
    ensures TrimEnd(s) == i + TrimEnd(s[i..])
    decreases |s|
  {
    var t := s[i..];
    assert t[|t| - 1] == s[|s| - 1];
    if IsSpace(s[|s| - 1]) {
      var p := s[..|s| - 1];
      assert t[..|t| - 1] == p[i..];
      assert p[i] == s[i];
      TrimEndShift(p, i);
    }
  }

  /** On ASCII text the byte-level and the rune-level trimming agree. */
  lemma ByteTrimSpaceAscii(s: string)
    requires IsAscii(s)
    ensures ByteTrimSpace(s) == TrimSpace(s)
  {
    TrimLeadAscii(s, 0);
    assert s[0..] == s;
    var i := TrimLeadFrom(s, 0);
    assert i == TrimStart(s);
    TrimTrailAscii(s, i, |s|);
    var k := TrimTrailTo(s, i, |s|);
    assert ByteTrimSpace(s) == s[i..k];
    if i < |s| {
      assert s[i..|s|] == s[i..];
      TrimEndShift(s, i);
      assert k == TrimEnd(s);
    }
  }

  /** `città` (ending in C3 A0) keeps both of its last bytes. */
  lemma ByteTrimKeepsContinuation()
    ensures ByteTrimSpace("citt" + ['\U{00C3}', '\U{00A0}']) == "citt" + ['\U{00C3}', '\U{00A0}']
  {
    ByteTrimSpaceFixed("citt" + ['\U{00C3}', '\U{00A0}']);
  }

  /** An ideographic space (E3 80 80) before a value and a no-break space (C2 A0) after it are trimmed. */
  lemma ByteTrimUnicodeSpaces()
    ensures ByteTrimSpace(['\U{00E3}', '\U{0080}', '\U{0080}'] + "v" + ['\U{00C2}', '\U{00A0}']) == "v"
  {
    var s := ['\U{00E3}', '\U{0080}', '\U{0080}'] + "v" + ['\U{00C2}', '\U{00A0}'];
    assert s[3..][0] == 'v';
    assert TrimLeadFrom(s, 0) == 3;
    assert TrimTrailTo(s, 3, 6) == 4;
    assert s[3..4] == "v";
  }
}
