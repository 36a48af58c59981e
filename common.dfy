/**
 * Text and numeral helpers shared by the parsers: Java's `String.trim` and
 * `String.split(",")`, ASCII lower-casing, and decimal numerals.
 */
module Common {

  datatype Option<+T> = None | Some(value: T)

  /** A character that Java's `String.trim` removes when it is leading or trailing. */
  predicate IsTrimmable(c: char) {
    c <= ' '
  }

  predicate IsDigit(c: char) {
    '0' <= c <= '9'
  }

  predicate AllDigits(s: string) {
    forall k | 0 <= k < |s| :: IsDigit(s[k])
  }

  /** `s` without its leading characters up to U+0020. */
  function TrimLeft(s: string): string {
    if s != [] && IsTrimmable(s[0]) then TrimLeft(s[1..]) else s
  }

  /** `s` without its trailing characters up to U+0020. */
  function TrimRight(s: string): string {
    if s != [] && IsTrimmable(s[|s| - 1]) then TrimRight(s[..|s| - 1]) else s
  }

  /** Java's `String.trim`: drops every leading and trailing character up to U+0020. */
  function Trim(s: string): (r: string)
    ensures |r| <= |s|
    ensures r != [] ==> !IsTrimmable(r[0]) && !IsTrimmable(r[|r| - 1])
  {
    var l := TrimLeft(s);
    TrimLeftIsSuffix(s);
    TrimRightIsPrefix(l);
    var r := TrimRight(l);
    assert r != [] ==> r[0] == l[0];
    r
  }

  /** `line.trim().isEmpty()`. */
  predicate IsBlank(s: string) {
    Trim(s) == []
  }

  /** Trimming on the left removes a prefix of trimmable characters and stops at the first other one. */
  lemma {:induction false} TrimLeftIsSuffix(s: string)
    ensures |TrimLeft(s)| <= |s| && TrimLeft(s) == s[|s| - |TrimLeft(s)|..]
    ensures forall k | 0 <= k < |s| - |TrimLeft(s)| :: IsTrimmable(s[k])
    ensures TrimLeft(s) != [] ==> !IsTrimmable(TrimLeft(s)[0])
  {
    if s != [] && IsTrimmable(s[0]) {
      var t := s[1..];
      TrimLeftIsSuffix(t);
      var r := TrimLeft(t);
      assert TrimLeft(s) == r;
      assert t[|t| - |r|..] == s[|s| - |r|..];
      forall k | 0 <= k < |s| - |r|
        ensures IsTrimmable(s[k])
      {
        if k > 0 { assert s[k] == t[k - 1]; }
      }
    }
  }

  /** Trimming on the right removes a suffix of trimmable characters and stops at the last other one. */
  lemma {:induction false} TrimRightIsPrefix(s: string)
    ensures |TrimRight(s)| <= |s| && TrimRight(s) == s[..|TrimRight(s)|]
    ensures forall k | |TrimRight(s)| <= k < |s| :: IsTrimmable(s[k])
    ensures TrimRight(s) != [] ==> !IsTrimmable(TrimRight(s)[|TrimRight(s)| - 1])
  {
    if s != [] && IsTrimmable(s[|s| - 1]) {
      TrimRightIsPrefix(s[..|s| - 1]);
    }
  }

  /** A text is blank exactly when every one of its characters is one `trim` removes. */
  lemma BlankIffAllTrimmable(s: string)
    ensures IsBlank(s) <==> forall k | 0 <= k < |s| :: IsTrimmable(s[k])
  {
    var l := TrimLeft(s);
    TrimLeftIsSuffix(s);
    TrimRightIsPrefix(l);
    if l != [] {
      assert !IsTrimmable(s[|s| - |l|]);
      assert TrimRight(l) != [];
    }
  }

  /** A text that starts and ends with a kept character is its own trim. */
  lemma TrimOfTrimmed(s: string)
    requires s == [] || (!IsTrimmable(s[0]) && !IsTrimmable(s[|s| - 1]))
    ensures Trim(s) == s
  {
  }

  /** `trim` removes blank padding around a text that starts and ends with a kept character. */
  lemma TrimOfPadded(pre: string, x: string, post: string)
    requires forall k | 0 <= k < |pre| :: IsTrimmable(pre[k])
    requires forall k | 0 <= k < |post| :: IsTrimmable(post[k])
    requires x != [] && !IsTrimmable(x[0]) && !IsTrimmable(x[|x| - 1])
    ensures Trim(pre + x + post) == x
  {
    assert pre + x + post == pre + (x + post);
    TrimLeftOfPadded(pre, x + post);
    TrimRightOfPadded(x, post);
  }

  lemma {:induction false} TrimLeftOfPadded(pre: string, r: string)
    requires forall k | 0 <= k < |pre| :: IsTrimmable(pre[k])
    requires r != [] && !IsTrimmable(r[0])
    ensures TrimLeft(pre + r) == r
  {
    if pre == [] {
      assert pre + r == r;
    } else {
      assert (pre + r)[0] == pre[0];
      assert (pre + r)[1..] == pre[1..] + r;
      TrimLeftOfPadded(pre[1..], r);
    }
  }

  lemma {:induction false} TrimRightOfPadded(r: string, post: string)
    requires forall k | 0 <= k < |post| :: IsTrimmable(post[k])
    requires r != [] && !IsTrimmable(r[|r| - 1])
    ensures TrimRight(r + post) == r
  {
    if post == [] {
      assert r + post == r;
    } else {
      var s := r + post;
      assert s[|s| - 1] == post[|post| - 1];
      assert s[..|s| - 1] == r + post[..|post| - 1];
      TrimRightOfPadded(r, post[..|post| - 1]);
    }
  }

  /** Trimming twice is trimming once. */
  lemma TrimIdempotent(s: string)
    ensures Trim(Trim(s)) == Trim(s)
  {
    TrimOfTrimmed(Trim(s));
  }

  /** A slice is the slice one shorter followed by its last element. */
  lemma SliceSnoc<T>(s: seq<T>, lo: nat, hi: nat)
    requires lo < hi <= |s|
    ensures s[lo..hi] == s[lo..hi - 1] + [s[hi - 1]]
  {
  }

  /** Four texts joined left to right are the first followed by the other three joined. */
  lemma ConcatRegroup(a: string, b: string, c: string, d: string)
    ensures a + b + c + d == a + (b + c + d)
  {
  }

  // ---------------------------------------------------------------- split and join

  /** The parts of `s` between its commas, empty parts included: `s.split(",", -1)`. */
  function SplitAll(s: string): (parts: seq<string>)
    ensures |parts| >= 1
    ensures forall k | 0 <= k < |parts| :: ',' !in parts[k]
    ensures Join(parts) == s
    decreases |s|
  {
    if ',' !in s then [s]
    else
      var i := IndexOf(s, ',');
      assert s == s[..i] + "," + s[i + 1..];
      [s[..i]] + SplitAll(s[i + 1..])
  }

  /** The parts joined with ',' between them (what `String.format("%s,%s,...")` produces). */
  function Join(parts: seq<string>): string
    requires |parts| >= 1
  {
    if |parts| == 1 then parts[0] else parts[0] + "," + Join(parts[1..])
  }

  function IndexOf(s: string, c: char): (i: nat)
    requires c in s
    ensures i < |s| && s[i] == c && c !in s[..i]
  {
    if s[0] == c then 0 else 1 + IndexOf(s[1..], c)
  }

  /** Splitting a join of comma-free parts gives the parts back. */
  lemma {:induction false} SplitJoin(parts: seq<string>)
    requires |parts| >= 1
    requires forall k | 0 <= k < |parts| :: ',' !in parts[k]
    ensures SplitAll(Join(parts)) == parts
  {
    if |parts| > 1 {
      var s := Join(parts);
      var rest := Join(parts[1..]);
      assert s == parts[0] + "," + rest;
      assert s[|parts[0]|] == ',';
      assert ',' !in s[..|parts[0]|] by { assert s[..|parts[0]|] == parts[0]; }
      assert IndexOf(s, ',') == |parts[0]| by { IndexOfIsFirst(s, ',', |parts[0]|); }
      assert s[..|parts[0]|] == parts[0];
      assert s[|parts[0]| + 1..] == rest;
      SplitJoin(parts[1..]);
    } else {
      assert Join(parts) == parts[0];
    }
  }

  lemma IndexOfIsFirst(s: string, c: char, i: nat)
    requires i < |s| && s[i] == c && c !in s[..i]
    ensures IndexOf(s, c) == i
  {
  }

  /** The number of commas in `s`, i.e. one less than the number of its raw parts. */
  function CommaCount(s: string): nat {
    if s == [] then 0 else (if s[0] == ',' then 1 else 0) + CommaCount(s[1..])
  }

  lemma {:induction false} SplitAllLength(s: string)
    ensures |SplitAll(s)| == CommaCount(s) + 1
    decreases |s|
  {
    if ',' in s {
      var i := IndexOf(s, ',');
      CommaCountSplit(s, i);
      SplitAllLength(s[i + 1..]);
    } else {
      CommaCountNone(s);
    }
  }

  lemma {:induction false} CommaCountNone(s: string)
    requires ',' !in s
    ensures CommaCount(s) == 0
  {
    if s != [] {
      assert ',' !in s[1..];
      CommaCountNone(s[1..]);
    }
  }

  lemma {:induction false} CommaCountSplit(s: string, i: nat)
    requires i < |s| && s[i] == ',' && ',' !in s[..i]
    ensures CommaCount(s) == 1 + CommaCount(s[i + 1..])
  {
    if i > 0 {
      assert s[0] != ',' by { assert s[..i][0] == s[0]; }
      assert s[1..][..i - 1] == s[..i][1..];
      assert s[1..][i - 1 + 1..] == s[i + 1..];
      CommaCountSplit(s[1..], i - 1);
    }
  }

  /** `parts` with its trailing empty strings removed, as `String.split` does with limit 0. */
  function DropTrailingEmpty(parts: seq<string>): (r: seq<string>)
    ensures r <= parts
    ensures r == [] || r[|r| - 1] != ""
    ensures forall k | |r| <= k < |parts| :: parts[k] == ""
  {
    if parts != [] && parts[|parts| - 1] == "" then DropTrailingEmpty(parts[..|parts| - 1]) else parts
  }

  /** Java's `s.split(",")`: a string without a comma gives itself; otherwise the raw parts
      without the trailing empty ones (so "a,b,," gives two parts and ",," none). */
  function Split(s: string): (parts: seq<string>)
    ensures ',' !in s ==> parts == [s]
    ensures ',' in s ==> parts == DropTrailingEmpty(SplitAll(s))
    ensures forall k | 0 <= k < |parts| :: ',' !in parts[k]
    ensures parts <= SplitAll(s) && |parts| <= CommaCount(s) + 1
    ensures ',' in s && parts != [] ==> parts[|parts| - 1] != ""
  {
    SplitAllLength(s);
    if ',' !in s then [s] else DropTrailingEmpty(SplitAll(s))
  }

  /** `s` with every occurrence of `c` deleted (`s.replace(",", "")`). */
  function Without(s: string, c: char): string {
    if s == [] then [] else (if s[0] == c then [] else [s[0]]) + Without(s[1..], c)
  }

  /** Deleting removes every occurrence, keeps every other character, and changes nothing
      in a text without the character. */
  lemma {:induction false} WithoutRemoves(s: string, c: char)
    ensures c !in Without(s, c) && |Without(s, c)| <= |s|
    ensures c !in s ==> Without(s, c) == s
  {
    if s != [] {
      WithoutRemoves(s[1..], c);
    }
  }

  lemma {:induction false} WithoutConcat(a: string, b: string, c: char)
    ensures Without(a + b, c) == Without(a, c) + Without(b, c)
  {
    if a != [] {
      assert (a + b)[1..] == a[1..] + b;
      WithoutConcat(a[1..], b, c);
    } else {
      assert a + b == b;
    }
  }

  // ---------------------------------------------------------------- ASCII case

  function LowerChar(c: char): char {
    if 'A' <= c <= 'Z' then (c as int + 32) as char else c
  }

  /** Lower-cases the ASCII letters of `s` and leaves every other character as it is. */
  function Lower(s: string): (r: string)
    ensures |r| == |s|
    ensures forall k | 0 <= k < |s| :: r[k] == LowerChar(s[k])
  {
    if s == [] then [] else [LowerChar(s[0])] + Lower(s[1..])
  }

  /** `s.contains(sub)`. */
  predicate Contains(s: string, sub: string)
    decreases |s|
  {
    |sub| <= |s| && (s[..|sub|] == sub || Contains(s[1..], sub))
  }

  /** For a one-character text, `contains` is membership. */
  lemma {:induction false} ContainsOne(s: string, c: char)
    ensures Contains(s, [c]) <==> c in s
    decreases |s|
  {
    if s != [] {
      ContainsOne(s[1..], c);
      assert s == [s[0]] + s[1..];
    }
  }

  /** `s.endsWith(suffix)`. */
  /** A text contains every infix of it. */
  lemma {:induction false} ContainsInfix(pre: string, mid: string, post: string)
    ensures Contains(pre + mid + post, mid)
    decreases |pre|
  {
    var s := pre + mid + post;
    if pre == [] {
      assert s[..|mid|] == mid;
    } else {
      assert s[1..] == pre[1..] + mid + post;
      ContainsInfix(pre[1..], mid, post);
    }
  }

  predicate EndsWith(s: string, suffix: string) {
    |suffix| <= |s| && s[|s| - |suffix|..] == suffix
  }

  // ---------------------------------------------------------------- numerals

  function DigitValue(c: char): nat
    requires IsDigit(c)
  {
    (c as int - '0' as int) as nat
  }

  function DigitChar(n: nat): (c: char)
    requires n < 10
    ensures IsDigit(c) && DigitValue(c) == n
  {
    ('0' as int + n) as char
  }

  /** The value of a string of decimal digits, most significant first. */
  function DigitsValue(s: string): nat
    requires AllDigits(s)
  {
    if s == [] then 0 else DigitsValue(s[..|s| - 1]) * 10 + DigitValue(s[|s| - 1])
  }

  function Pow10(n: nat): (p: nat)
    ensures p >= 1
  {
    if n == 0 then 1 else 10 * Pow10(n - 1)
  }

  lemma {:induction false} Pow10Add(m: nat, n: nat)
    ensures Pow10(m + n) == Pow10(m) * Pow10(n)
  {
    if n > 0 {
      Pow10Add(m, n - 1);
      assert Pow10(m + n) == 10 * Pow10(m + n - 1);
      assert Pow10(m) * Pow10(n) == Pow10(m) * (10 * Pow10(n - 1));
    }
  }

  /** The shortest decimal numeral of `n` (no leading zeros; "0" for zero). */
  function NatToDigits(n: nat): (s: string)
    ensures |s| >= 1 && AllDigits(s)
    ensures DigitsValue(s) == n
    ensures |s| > 1 ==> s[0] != '0'
  {
    if n < 10 then [DigitChar(n)]
    else
      var s := NatToDigits(n / 10) + [DigitChar(n % 10)];
      assert s[..|s| - 1] == NatToDigits(n / 10);
      s
  }

  /** A numeral of at most `w` digits stands for a number below 10^w, and conversely. */
  lemma {:induction false} NatToDigitsWidth(n: nat, w: nat)
    requires n < Pow10(w)
    requires w >= 1
    ensures |NatToDigits(n)| <= w
  {
    if n >= 10 {
      assert n / 10 < Pow10(w - 1);
      NatToDigitsWidth(n / 10, w - 1);
    }
  }

  lemma {:induction false} NatToDigitsMinWidth(n: nat, w: nat)
    requires n >= Pow10(w)
    ensures |NatToDigits(n)| > w
  {
    if w > 0 {
      assert n / 10 >= Pow10(w - 1);
      NatToDigitsMinWidth(n / 10, w - 1);
    }
  }

  /** The value of the two digits at `i`. */
  function Num2(s: string, i: nat): nat
    requires i + 2 <= |s| && IsDigit(s[i]) && IsDigit(s[i + 1])
  {
    10 * DigitValue(s[i]) + DigitValue(s[i + 1])
  }

  lemma DigitsValueTwo(s: string)
    requires |s| == 2 && AllDigits(s)
    ensures DigitsValue(s) == Num2(s, 0)
  {
    var s1 := s[..1];
    assert s1[..0] == [];
    assert DigitsValue(s1) == DigitValue(s[0]);
    assert DigitsValue(s) == DigitsValue(s1) * 10 + DigitValue(s[1]);
  }

  lemma DigitsValueFour(s: string)
    requires |s| == 4 && AllDigits(s)
    ensures DigitsValue(s) == 100 * Num2(s, 0) + Num2(s, 2)
  {
    var s3, s2 := s[..3], s[..2];
    assert s3[..2] == s2;
    DigitsValueTwo(s2);
    assert s2[0] == s[0] && s2[1] == s[1];
    assert DigitsValue(s3) == DigitsValue(s2) * 10 + DigitValue(s[2]);
    assert DigitsValue(s) == DigitsValue(s3) * 10 + DigitValue(s[3]);
  }

  /** `s` padded on the left with zeros to width `w`. */
  function PadZeros(s: string, w: nat): (r: string)
    ensures |r| == if |s| < w then w else |s|
    ensures AllDigits(s) ==> AllDigits(r)
  {
    if |s| < w then seq(w - |s|, _ => '0') + s else s
  }

  lemma AllDigitsConcat(a: string, b: string)
    requires AllDigits(a) && AllDigits(b)
    ensures AllDigits(a + b)
  {
    forall k | 0 <= k < |a + b| ensures IsDigit((a + b)[k]) {
      if k < |a| { assert (a + b)[k] == a[k]; } else { assert (a + b)[k] == b[k - |a|]; }
    }
  }

  lemma {:induction false} DigitsValueConcat(a: string, b: string)
    requires AllDigits(a) && AllDigits(b)
    ensures AllDigits(a + b)
    ensures DigitsValue(a + b) == DigitsValue(a) * Pow10(|b|) + DigitsValue(b)
    decreases |b|
  {
    AllDigitsConcat(a, b);
    if b == [] {
      assert a + b == a;
    } else {
      var b' := b[..|b| - 1];
      assert (a + b)[..|a + b| - 1] == a + b';
      assert AllDigits(b');
      DigitsValueConcat(a, b');
      var x, p, y, d := DigitsValue(a), Pow10(|b'|), DigitsValue(b'), DigitValue(b[|b| - 1]);
      assert DigitsValue(a + b) == DigitsValue(a + b') * 10 + d;
      assert DigitsValue(a + b') == x * p + y;
      assert DigitsValue(b) == y * 10 + d;
      assert Pow10(|b|) == 10 * p;
      MulAssoc10(x, p, y);
    }
  }

  lemma MulAssoc10(x: int, p: int, y: int)
    ensures (x * p + y) * 10 == x * (10 * p) + y * 10
  {
  }

  lemma {:induction false} DigitsValueZeros(n: nat)
    ensures AllDigits(seq(n, _ => '0'))
    ensures DigitsValue(seq(n, _ => '0')) == 0
  {
    if n > 0 {
      assert seq(n, _ => '0')[..n - 1] == seq(n - 1, _ => '0');
      DigitsValueZeros(n - 1);
    }
  }

  lemma PadZerosValue(s: string, w: nat)
    requires AllDigits(s)
    ensures DigitsValue(PadZeros(s, w)) == DigitsValue(s)
  {
    if |s| < w {
      var z := seq(w - |s|, _ => '0');
      assert PadZeros(s, w) == z + s;
      DigitsValueZeros(w - |s|);
      DigitsValueConcat(z, s);
      assert DigitsValue(z + s) == 0 * Pow10(|s|) + DigitsValue(s);
    }
  }
}
