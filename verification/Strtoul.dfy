// lib/kprintf.c: simple_strtoul(), and that it reads back what number() prints.

module Strtoul {
  import opened Machine
  import opened Numbers

  // ---- Characters (lib/ctypes.c, for ASCII) ----

  predicate IsDigit(c: char) {
    '0' <= c <= '9'
  }

  predicate IsXDigit(c: char) {
    '0' <= c <= '9' || 'A' <= c <= 'F' || 'a' <= c <= 'f'
  }

  /** The value the conversion loop gives a hexadecimal digit. */
  function DigitValue(c: char): (v: int)
    ensures IsXDigit(c) ==> 0 <= v < 16
  {
    if c <= '9' then c as int - '0' as int
    else if c <= 'F' then c as int - 'A' as int + 10
    else c as int - 'a' as int + 10
  }

  predicate IsDigitOf(c: char, base: int) {
    IsXDigit(c) && DigitValue(c) < base
  }

  /** The character at i of a string; its terminator, and anything after, reads as NUL. */
  function At(s: seq<char>, i: nat): char {
    if i < |s| then s[i] else '\0'
  }

  // ---- What the conversion means ----

  /** The number a string of digits denotes, unbounded. */
  function Value(ds: seq<char>, base: int): int {
    if ds == [] then 0 else Value(ds[..|ds| - 1], base) * base + DigitValue(ds[|ds| - 1])
  }

  /** stop is the end of the longest run of digits of the base from i on. */
  ghost predicate RunEnds(s: seq<char>, i: nat, base: int, stop: nat) {
    && i <= stop <= |s|
    && (forall k :: i <= k < stop ==> IsDigitOf(s[k], base))
    && (stop < |s| ==> !IsDigitOf(s[stop], base))
  }

  /** Where the digits start and in which base, after looking at a prefix when the base is 0. */
  function StartOf(s: seq<char>, base: int): (r: (nat, int)) {
    if base != 0 then (0, base)
    else if At(s, 0) != '0' then (0, 10)
    else if At(s, 1) == 'x' && IsXDigit(At(s, 2)) then (2, 16)
    else (1, 8)
  }

  /** simple_strtoul on a string without NUL: the value of the longest digit run, taken in 32 bits. */
  method SimpleStrtoul(cp: seq<char>, base: Word) returns (result: Word, endp: nat)
    requires '\0' !in cp
    ensures var (i, b) := StartOf(cp, base);
      && RunEnds(cp, i, b, endp)
      && result == Value(cp[i..endp], b) % ADDRESS_SPACE
  {
    var b: int := base;
    endp := 0;
    if b == 0 {
      b := 10;
      if At(cp, endp) == '0' {
        b := 8;
        endp := endp + 1;
        if At(cp, endp) == 'x' && IsXDigit(At(cp, endp + 1)) {
          endp := endp + 1;
          b := 16;
        }
      }
    }
    hide Value;
    ghost var i := endp;
    NoDigits(cp, i, b);
    assert (i, b) == StartOf(cp, base) && i <= |cp|;
    result := 0;
    while IsXDigit(At(cp, endp)) && DigitValue(At(cp, endp)) < b
      invariant i <= endp <= |cp|
      invariant forall k :: i <= k < endp ==> IsDigitOf(cp[k], b)
      invariant result == Value(cp[i..endp], b) % ADDRESS_SPACE
      decreases |cp| - endp
    {
      var value := DigitValue(At(cp, endp));
      NextValue(cp, i, endp, b, result);
      result := (result * b + value) % ADDRESS_SPACE;
      endp := endp + 1;
    }
  }

  /** One round of the conversion loop. */
  lemma NextValue(s: seq<char>, i: nat, k: nat, base: int, result: Word)
    requires i <= k < |s| && IsDigitOf(s[k], base) && forall j :: i <= j < k ==> IsDigitOf(s[j], base)
    requires result == Value(s[i..k], base) % ADDRESS_SPACE
    ensures (result * base + DigitValue(s[k])) % ADDRESS_SPACE == Value(s[i..k + 1], base) % ADDRESS_SPACE
  {
    hide Value;
    OneMore(s, i, k, base);
    ModStep(Value(s[i..k], base), base, DigitValue(s[k]));
  }

  /** A run extended by one digit. */
  lemma OneMore(s: seq<char>, i: nat, k: nat, base: int)
    requires i <= k < |s|
    ensures Value(s[i..k + 1], base) == Value(s[i..k], base) * base + DigitValue(s[k])
  {
    assert s[i..k + 1][..k - i] == s[i..k];
  }

  lemma NoDigits(s: seq<char>, i: nat, base: int)
    requires i <= |s|
    ensures Value(s[i..i], base) == 0
  {
  }

  lemma ModStep(v: int, b: int, d: int)
    ensures (v % ADDRESS_SPACE * b + d) % ADDRESS_SPACE == (v * b + d) % ADDRESS_SPACE
  {
    var q, r := v / ADDRESS_SPACE, v % ADDRESS_SPACE;
    assert v == q * ADDRESS_SPACE + r;
    assert v * b + d == (q * b) * ADDRESS_SPACE + (r * b + d);
    AddMultiple(q * b, r * b + d);
  }

  lemma AddMultiple(k: int, x: int)
    ensures (k * ADDRESS_SPACE + x) % ADDRESS_SPACE == x % ADDRESS_SPACE
  {
    var q := x / ADDRESS_SPACE;
    assert k * ADDRESS_SPACE + x == (k + q) * ADDRESS_SPACE + x % ADDRESS_SPACE;
  }

  // ---- Reading back what number() prints ----

  lemma DigitCharValue(d: int, base: int, large: bool)
    requires 0 <= d < base <= 16
    ensures IsDigitOf(DigitChar(d, large), base) && DigitValue(DigitChar(d, large)) == d
  {
  }

  lemma ValueSnoc(ds: seq<char>, c: char, base: int)
    ensures Value(ds + [c], base) == Value(ds, base) * base + DigitValue(c)
  {
    assert (ds + [c])[..|ds|] == ds;
  }

  lemma {:induction false} DigitsAreDigits(n: nat, base: int, large: bool)
    requires 2 <= base <= 16
    ensures var ds := Digits(n, base, large);
      && (forall k :: 0 <= k < |ds| ==> IsDigitOf(ds[k], base))
      && Value(ds, base) == n
    decreases n
  {
    hide Value, IsDigitOf, DigitChar;
    if n < base {
      DigitCharValue(n, base, large);
      EmptyValue(base);
      ValueSnoc([], DigitChar(n, large), base);
      assert [] + [DigitChar(n, large)] == [DigitChar(n, large)];
    } else {
      LastDigit(n, base, large);
      DigitsAreDigits(n / base, base, large);
      DigitCharValue(n % base, base, large);
      ValueSnoc(Digits(n / base, base, large), DigitChar(n % base, large), base);
    }
  }

  lemma EmptyValue(base: int)
    ensures Value([], base) == 0
  {
  }

  lemma {:induction false} LeadingZeros(z: nat, ds: seq<char>, base: int)
    ensures Value(Repeat('0', z) + ds, base) == Value(ds, base)
    decreases |ds|, z
  {
    var all := Repeat('0', z) + ds;
    if ds != [] {
      var front := ds[..|ds| - 1];
      assert all[..|all| - 1] == Repeat('0', z) + front;
      LeadingZeros(z, front, base);
    } else if z > 0 {
      assert all[..|all| - 1] == Repeat('0', z - 1) + [];
      LeadingZeros(z - 1, [], base);
    }
  }

  /** The length of the left padding and the sign: everything before the prefix. */
  function Lead(num: Long, base: int, size: int, precision: int, f: Flags): nat
    requires 2 <= base <= 36
  {
    var digits := Digits(Magnitude(num, f), base, f.large);
    var sign := SignText(num, f);
    var fill := size - |sign| - |PrefixText(base, f)| - Max(precision, |digits|);
    (if f.left || f.zeropad then 0 else Max(fill, 0)) + |sign|
  }

  /** How many zeros stand before the digits, for padding and for precision. */
  function ZeroCount(num: Long, base: int, size: int, precision: int, f: Flags): nat
    requires 2 <= base <= 36
  {
    var digits := Digits(Magnitude(num, f), base, f.large);
    var fill := size - |SignText(num, f)| - |PrefixText(base, f)| - Max(precision, |digits|);
    (if !f.left && f.zeropad then Max(fill, 0) else 0) + Max(precision - |digits|, 0)
  }

  predicate PadOrSign(c: char) {
    c == ' ' || c == '-' || c == '+'
  }

  /** A field is its left padding and sign, then prefix, zeros and digits, then its right padding. */
  lemma FieldSplit(left: bool, zeros: bool, fill: int, sign: seq<char>, prefix: seq<char>, extra: int, digits: seq<char>)
    ensures var lead := (if left || zeros then "" else Repeat(' ', fill)) + sign;
      var pad := if !left && zeros then Max(fill, 0) else 0;
      FieldText(left, zeros, fill, sign, prefix, extra, digits)
        == lead + (prefix + Repeat('0', pad + Max(extra, 0)) + digits) + (if left then Repeat(' ', fill) else "")
  {
    var pad := if !left && zeros then Max(fill, 0) else 0;
    assert (if !left && zeros then Repeat('0', fill) else "") == Repeat('0', pad);
    assert Repeat('0', extra) == Repeat('0', Max(extra, 0));
    assert Repeat('0', pad) + Repeat('0', Max(extra, 0)) == Repeat('0', pad + Max(extra, 0));
    hide Repeat;
    Grouped(if left || zeros then "" else Repeat(' ', fill), sign, prefix, Repeat('0', pad), Repeat('0', extra), digits,
            if left then Repeat(' ', fill) else "");
  }

  lemma Grouped(a: seq<char>, b: seq<char>, c: seq<char>, d: seq<char>, e: seq<char>, f: seq<char>, g: seq<char>)
    ensures a + b + c + d + e + f + g == (a + b) + (c + (d + e) + f) + g
  {
  }

  /** t is padding and sign up to k, then body, then spaces. */
  ghost predicate InField(t: seq<char>, k: nat, body: seq<char>) {
    && k + |body| <= |t|
    && (forall j :: 0 <= j < k ==> PadOrSign(t[j]))
    && t[k..k + |body|] == body
    && (forall j :: k + |body| <= j < |t| ==> t[j] == ' ')
  }

  function LeadOf(left: bool, zeros: bool, fill: int, sign: seq<char>): nat {
    (if left || zeros then 0 else Max(fill, 0)) + |sign|
  }

  function ZerosOf(left: bool, zeros: bool, fill: int, extra: int): nat {
    (if !left && zeros then Max(fill, 0) else 0) + Max(extra, 0)
  }

  lemma FieldTextParts(left: bool, zeros: bool, fill: int, sign: seq<char>, prefix: seq<char>, extra: int, digits: seq<char>)
    requires forall j :: 0 <= j < |sign| ==> PadOrSign(sign[j])
    ensures InField(FieldText(left, zeros, fill, sign, prefix, extra, digits), LeadOf(left, zeros, fill, sign),
                    prefix + Repeat('0', ZerosOf(left, zeros, fill, extra)) + digits)
  {
    FieldSplit(left, zeros, fill, sign, prefix, extra, digits);
    hide FieldText, Repeat;
    var pad := if left || zeros then "" else Repeat(' ', fill);
    var z := (if !left && zeros then Max(fill, 0) else 0) + Max(extra, 0);
    LeadPads(pad, sign);
    Slices(pad + sign, prefix + Repeat('0', z) + digits, if left then Repeat(' ', fill) else "");
  }

  /** number()'s field taken apart: spaces and a sign, then prefix, zeros, digits, then spaces. */
  lemma FieldParts(num: Long, base: int, size: int, precision: int, f: Flags)
    requires 2 <= base <= 36
    ensures var t, k := NumberText(num, base, size, precision, f), Lead(num, base, size, precision, f);
      var body := PrefixText(base, f) + Repeat('0', ZeroCount(num, base, size, precision, f))
                  + Digits(Magnitude(num, f), base, f.large);
      InField(t, k, body)
  {
    var digits := Digits(Magnitude(num, f), base, f.large);
    var sign, prefix := SignText(num, f), PrefixText(base, f);
    var fill := size - |sign| - |prefix| - Max(precision, |digits|);
    SignPads(num, f);
    FieldOf(num, base, size, precision, f, fill);
    hide *;
    FieldTextParts(f.left, f.zeropad, fill, sign, prefix, precision - |digits|, digits);
  }

  lemma FieldOf(num: Long, base: int, size: int, precision: int, f: Flags, fill: int)
    requires 2 <= base <= 36
    requires fill == size - |SignText(num, f)| - |PrefixText(base, f)| - Max(precision, |Digits(Magnitude(num, f), base, f.large)|)
    ensures var digits, sign := Digits(Magnitude(num, f), base, f.large), SignText(num, f);
      && NumberText(num, base, size, precision, f)
         == FieldText(f.left, f.zeropad, fill, sign, PrefixText(base, f), precision - |digits|, digits)
      && Lead(num, base, size, precision, f) == LeadOf(f.left, f.zeropad, fill, sign)
      && ZeroCount(num, base, size, precision, f) == ZerosOf(f.left, f.zeropad, fill, precision - |digits|)
  {
    hide Digits, FieldText, PrefixText, Magnitude, Max, SignText;
  }

  lemma SignPads(num: Long, f: Flags)
    ensures forall j :: 0 <= j < |SignText(num, f)| ==> PadOrSign(SignText(num, f)[j])
  {
  }

  lemma LeadPads(pad: seq<char>, sign: seq<char>)
    requires forall j :: 0 <= j < |pad| ==> pad[j] == ' '
    requires forall j :: 0 <= j < |sign| ==> PadOrSign(sign[j])
    ensures forall j :: 0 <= j < |pad + sign| ==> PadOrSign((pad + sign)[j])
  {
  }

  lemma Slices(a: seq<char>, b: seq<char>, c: seq<char>)
    ensures var t := a + b + c;
      && t[..|a|] == a && t[|a|..|a| + |b|] == b && t[|a| + |b|..] == c
      && (forall j :: 0 <= j < |a| ==> t[j] == a[j])
      && (forall j :: |a| + |b| <= j < |t| ==> t[j] == c[j - |a| - |b|])
  {
  }

  /** What simple_strtoul returns, as a relation: the only digit run from the start position, and its value. */
  ghost predicate Parses(s: seq<char>, base: int, result: int, endp: nat) {
    var (i, b) := StartOf(s, base);
    RunEnds(s, i, b, endp) && result == Value(s[i..endp], b) % ADDRESS_SPACE
  }

  /** The relation is a function: there is one stop and one value. */
  lemma ParsesOnce(s: seq<char>, base: int, r: int, e: nat, r': int, e': nat)
    ensures Parses(s, base, r, e) && Parses(s, base, r', e') ==> r == r' && e == e'
  {
    var b := StartOf(s, base).1;
    hide Value, StartOf;
    assert Parses(s, base, r, e) && e < |s| ==> !IsDigitOf(s[e], b);
    assert Parses(s, base, r', e') && e' < |s| ==> !IsDigitOf(s[e'], b);
  }

  /** Zeros and digits followed by nothing or a space parse to the number, up to the end of the digits. */
  lemma ParsesDigits(s: seq<char>, i: nat, z: nat, n: Word, base: int, large: bool)
    requires 2 <= base <= 16
    requires var body := Repeat('0', z) + Digits(n, base, large);
      && i + |body| <= |s| && s[i..i + |body|] == body
      && (i + |body| < |s| ==> s[i + |body|] == ' ')
    ensures var stop := i + z + |Digits(n, base, large)|;
      RunEnds(s, i, base, stop) && Value(s[i..stop], base) % ADDRESS_SPACE == n
  {
    var body := Repeat('0', z) + Digits(n, base, large);
    ZerosAndDigits(z, n, base, large);
    hide Digits, Value, IsDigitOf, Repeat, RunEnds;
    RunThere(s, i, body, base, i + |body|);
  }

  lemma RunThere(s: seq<char>, i: nat, body: seq<char>, base: int, stop: nat)
    requires stop == i + |body| <= |s| && s[i..stop] == body
    requires forall k :: 0 <= k < |body| ==> IsDigitOf(body[k], base)
    requires stop < |s| ==> s[stop] == ' '
    ensures RunEnds(s, i, base, stop)
  {
    SpaceEnds(base);
    SliceDigits(s, i, body, base);
    hide IsDigitOf;
  }

  lemma ZerosAndDigits(z: nat, n: nat, base: int, large: bool)
    requires 2 <= base <= 16
    ensures var body := Repeat('0', z) + Digits(n, base, large);
      Value(body, base) == n && forall k :: 0 <= k < |body| ==> IsDigitOf(body[k], base)
  {
    var ds := Digits(n, base, large);
    DigitsAreDigits(n, base, large);
    LeadingZeros(z, ds, base);
    assert IsDigitOf('0', base);
    hide Digits, Value, IsDigitOf;
  }

  lemma SpaceEnds(base: int)
    ensures !IsDigitOf(' ', base)
  {
  }

  lemma SliceDigits(s: seq<char>, i: nat, body: seq<char>, base: int)
    requires i + |body| <= |s| && s[i..i + |body|] == body
    requires forall k :: 0 <= k < |body| ==> IsDigitOf(body[k], base)
    ensures forall k :: i <= k < i + |body| ==> IsDigitOf(s[k], base)
  {
    hide IsDigitOf;
    forall k | i <= k < i + |body|
      ensures IsDigitOf(s[k], base)
    {
      assert s[k] == s[i..i + |body|][k - i];
    }
  }

  /** Main result, without a prefix: in every base from 2 to 16, for every value, width, precision and
      flags, what follows the padding and sign parses to the magnitude and stops at the end of the digits. */
  lemma RoundTrip(num: Long, base: int, size: int, precision: int, f: Flags)
    requires 2 <= base <= 16 && PrefixText(base, f) == ""
    ensures var t, k := NumberText(num, base, size, precision, f), Lead(num, base, size, precision, f);
      var stop := ZeroCount(num, base, size, precision, f) + |Digits(Magnitude(num, f), base, f.large)|;
      && k <= |t|
      && (forall j :: 0 <= j < k ==> PadOrSign(t[j]))
      && Parses(t[k..], base, Magnitude(num, f), stop)
      && (forall j :: k + stop <= j < |t| ==> t[j] == ' ')
  {
    hide NumberText, Digits, Value, RunEnds, Lead, ZeroCount, Magnitude, Repeat, PrefixText;
    var t, k := NumberText(num, base, size, precision, f), Lead(num, base, size, precision, f);
    var z, n := ZeroCount(num, base, size, precision, f), Magnitude(num, f);
    FieldParts(num, base, size, precision, f);
    var body := Repeat('0', z) + Digits(n, base, f.large);
    assert PrefixText(base, f) + Repeat('0', z) + Digits(n, base, f.large) == body;
    Suffix(t, k, body);
    ParsesDigits(t[k..], 0, z, n, base, f.large);
  }

  lemma Suffix(t: seq<char>, k: nat, body: seq<char>)
    requires k + |body| <= |t| && t[k..k + |body|] == body
    requires forall j :: k + |body| <= j < |t| ==> t[j] == ' '
    ensures var s := t[k..];
      s[..|body|] == s[0..|body|] == body && (|body| < |s| ==> s[|body|] == ' ')
  {
  }

  /** With the SPECIAL prefix of base 8 or 16 and base 0 given to the parser: the magnitude comes back and
      parsing stops at the end of the digits if and only if it is not the upper-case "0X", which the
      parser takes for octal and leaves at the X. */
  lemma RoundTripPrefix(num: Long, base: int, size: int, precision: int, f: Flags)
    requires (base == 8 || base == 16) && f.special
    ensures var t, k := NumberText(num, base, size, precision, f), Lead(num, base, size, precision, f);
      var stop := |PrefixText(base, f)| + ZeroCount(num, base, size, precision, f) + |Digits(Magnitude(num, f), base, f.large)|;
      && k <= |t|
      && (Parses(t[k..], 0, Magnitude(num, f), stop) <==> !(base == 16 && f.large))
      && (base == 16 && f.large ==> Parses(t[k..], 0, 0, 1))
  {
    hide NumberText, Digits, Value, RunEnds, Lead, ZeroCount, Magnitude, Repeat;
    var t, k := NumberText(num, base, size, precision, f), Lead(num, base, size, precision, f);
    var z, n := ZeroCount(num, base, size, precision, f), Magnitude(num, f);
    FieldParts(num, base, size, precision, f);
    var p, ds := PrefixText(base, f), Digits(n, base, f.large);
    var body := p + Repeat('0', z) + ds;
    Suffix(t, k, body);
    var s := t[k..];
    if base == 16 && f.large {
      UpperStops(s, n, |body|);
    } else {
      PrefixStart(s, p, z, n, base, f.large);
      ParsesDigits(s, |p|, z, n, base, f.large);
    }
  }

  lemma UpperStops(s: seq<char>, n: int, stop: nat)
    requires |s| >= 2 && s[0] == '0' && s[1] == 'X' && stop >= 3
    ensures Parses(s, 0, 0, 1) && !Parses(s, 0, n, stop)
  {
    assert Value(s[1..1], 8) == 0;
    ParsesOnce(s, 0, 0, 1, n, stop);
  }

  lemma PrefixStart(s: seq<char>, p: seq<char>, z: nat, n: nat, base: int, large: bool)
    requires (base == 8 && p == "0") || (base == 16 && p == "0x")
    requires var body := p + Repeat('0', z) + Digits(n, base, large);
      |body| <= |s| && s[..|body|] == body && (|body| < |s| ==> s[|body|] == ' ')
    ensures StartOf(s, 0) == (|p|, base)
    ensures var rest := Repeat('0', z) + Digits(n, base, large);
      && |p| + |rest| <= |s| && s[|p|..|p| + |rest|] == rest
      && (|p| + |rest| < |s| ==> s[|p| + |rest|] == ' ')
  {
    var rest := Repeat('0', z) + Digits(n, base, large);
    var body := p + Repeat('0', z) + Digits(n, base, large);
    assert body == p + rest;
    DigitsAreDigits(n, base, large);
    assert forall k :: 0 <= k < |rest| ==> IsDigitOf(rest[k], base);
    assert forall k :: 0 <= k < |body| ==> s[k] == body[k];
    assert s[|p|] == rest[0];
  }
}
