// What number() prints, said of the text alone: where the spaces, the sign, the prefix and the digits stand and
// what they mean; and that no other text would do.

module NumberLaws {
  import opened Machine
  import opened Numbers
  import opened Strtoul

  // ---- Reading a text ----

  /** What a digit is worth; no digit is worth 99. */
  function Worth(c: char): int {
    if '0' <= c <= '9' then c as int - '0' as int
    else if 'a' <= c <= 'z' then c as int - 'a' as int + 10
    else if 'A' <= c <= 'Z' then c as int - 'A' as int + 10
    else 99
  }

  /** The number that a string of digits denotes. */
  function Denoted(ds: seq<char>, base: int): int {
    if ds == [] then 0 else Denoted(ds[..|ds| - 1], base) * base + Worth(ds[|ds| - 1])
  }

  /** A digit of the base, its letters of the one case. */
  predicate GoodDigit(c: char, base: int, large: bool) {
    Worth(c) < base && !(if large then 'a' <= c <= 'z' else 'A' <= c <= 'Z')
  }

  /** The sign: '-' for a negative number, '+' or ' ' for others if asked for, all for signed ones only. */
  function SignOf(signed: bool, negative: bool, plus: bool, space: bool): seq<char> {
    if signed && negative then "-" else if signed && plus then "+" else if signed && space then " " else ""
  }

  /** The prefix: of octal and hexadecimal numbers, if asked for. */
  function PrefixOf(base: int, special: bool, large: bool): seq<char> {
    if special && base == 8 then "0"
    else if special && base == 16 && large then "0X"
    else if special && base == 16 then "0x"
    else ""
  }

  /** The text is spaces up to `at`, sign and prefix up to `first`, digits of value up to `stop`, then spaces.
      There are at least as many digits as the precision says; the text is as wide as the width, or wider; and
      spaces and zeros are there only to come to the precision or the width, on the side that the flags name. */
  ghost predicate Laid(t: seq<char>, f: Flags, size: int, precision: int, base: int, value: int, signed: bool,
                       negative: bool, large: bool, at: int, first: int, stop: int) {
    && 0 <= at <= first < stop <= |t|
    && (forall k :: 0 <= k < at || stop <= k < |t| ==> t[k] == ' ')
    && t[at..first] == SignOf(signed, negative, f.plus, f.space) + PrefixOf(base, f.special, large)
    && (forall k :: first <= k < stop ==> GoodDigit(t[k], base, large))
    && Denoted(t[first..stop], base) == value
    && stop - first >= precision && |t| >= size
    && (at > 0 ==> |t| == size && !f.left && !f.zeropad)
    && (stop < |t| ==> |t| == size && f.left)
    && (t[first] == '0' && stop - first > 1 ==> stop - first == precision || (|t| == size && f.zeropad && !f.left))
  }

  ghost predicate Prints(t: seq<char>, f: Flags, size: int, precision: int, base: int, value: int, signed: bool,
                         negative: bool, large: bool) {
    exists at, first, stop :: Laid(t, f, size, precision, base, value, signed, negative, large, at, first, stop)
  }

  // ---- The digits ----

  lemma DenotedSnoc(ds: seq<char>, c: char, base: int)
    ensures Denoted(ds + [c], base) == Denoted(ds, base) * base + Worth(c)
  {
    assert (ds + [c])[..|ds|] == ds;
  }

  lemma CharWorth(d: int, base: int, large: bool)
    requires 0 <= d < base <= 36
    ensures Worth(DigitChar(d, large)) == d && GoodDigit(DigitChar(d, large), base, large)
    ensures DigitChar(d, large) == '0' <==> d == 0
  {
  }

  /** The digits denote the number, and the first is 0 only if it is the only one. */
  lemma {:induction false} DigitsDenote(n: nat, base: int, large: bool)
    requires 2 <= base <= 36
    ensures var ds := Digits(n, base, large);
      && Denoted(ds, base) == n
      && (forall k :: 0 <= k < |ds| ==> GoodDigit(ds[k], base, large))
      && (ds[0] == '0' ==> |ds| == 1 && n == 0)
    decreases n
  {
    hide Denoted, GoodDigit, DigitChar, Worth;
    if n < base {
      CharWorth(n, base, large);
      NoneDenoted(base);
      DenotedSnoc([], DigitChar(n, large), base);
      assert [] + [DigitChar(n, large)] == [DigitChar(n, large)];
    } else {
      LastDigit(n, base, large);
      DivFacts(n, base);
      DigitsDenote(n / base, base, large);
      CharWorth(n % base, base, large);
      DenotedSnoc(Digits(n / base, base, large), DigitChar(n % base, large), base);
    }
  }

  lemma NoneDenoted(base: int)
    ensures Denoted([], base) == 0
  {
  }

  lemma {:induction false} ZerosDenote(z: nat, ds: seq<char>, base: int)
    ensures Denoted(Repeat('0', z) + ds, base) == Denoted(ds, base)
    decreases |ds|, z
  {
    var all := Repeat('0', z) + ds;
    if ds != [] {
      var front := ds[..|ds| - 1];
      assert all[..|all| - 1] == Repeat('0', z) + front;
      ZerosDenote(z, front, base);
    } else if z > 0 {
      assert all[..|all| - 1] == Repeat('0', z - 1) + [];
      ZerosDenote(z - 1, [], base);
    }
  }

  // ---- The field ----

  /** Main result: what number() prints for any value, base, width, precision and flags. */
  lemma NumberPrints(num: Long, base: int, size: int, precision: int, f: Flags)
    requires 2 <= base <= 36
    ensures var n: int := num;
      Prints(NumberText(num, base, size, precision, f), f, size, precision, base,
             if n >= 0 then n else if f.sign then -n else n + 0x1_0000_0000, f.sign, n < 0, f.large)
  {
    var n: int := num;
    var digits := Digits(Magnitude(num, f), base, f.large);
    var sign, prefix := SignText(num, f), PrefixText(base, f);
    DigitsDenote(Magnitude(num, f), base, f.large);
    MarksAre(num, base, f);
    ValueIs(num, f);
    FieldIs(num, base, size, precision, f);
    hide *;
    FieldLaid(f, size, precision, base, Magnitude(num, f), f.sign, n < 0, f.large, sign, prefix, digits);
  }

  lemma ValueIs(num: Long, f: Flags)
    ensures var n: int := num; Magnitude(num, f) == if n >= 0 then n else if f.sign then -n else n + 0x1_0000_0000
  {
  }

  lemma FieldIs(num: Long, base: int, size: int, precision: int, f: Flags)
    requires 2 <= base <= 36
    ensures NumberText(num, base, size, precision, f)
      == Field(f, size, precision, SignText(num, f), PrefixText(base, f), Digits(Magnitude(num, f), base, f.large))
  {
    hide Digits, FieldText, PrefixText, Magnitude, Max, SignText;
  }

  function Field(f: Flags, size: int, precision: int, sign: seq<char>, prefix: seq<char>, digits: seq<char>): seq<char> {
    FieldText(f.left, f.zeropad, size - |sign| - |prefix| - Max(precision, |digits|), sign, prefix, precision - |digits|, digits)
  }

  lemma MarksAre(num: Long, base: int, f: Flags)
    ensures var n: int := num;
      SignText(num, f) == SignOf(f.sign, n < 0, f.plus, f.space) && PrefixText(base, f) == PrefixOf(base, f.special, f.large)
  {
  }

  lemma FieldLaid(f: Flags, size: int, precision: int, base: int, value: int, signed: bool, negative: bool, large: bool,
                  sign: seq<char>, prefix: seq<char>, digits: seq<char>)
    requires sign == SignOf(signed, negative, f.plus, f.space) && prefix == PrefixOf(base, f.special, large)
    requires digits != [] && Denoted(digits, base) == value && 2 <= base <= 36
    requires forall k :: 0 <= k < |digits| ==> GoodDigit(digits[k], base, large)
    requires digits[0] == '0' ==> |digits| == 1
    ensures Prints(Field(f, size, precision, sign, prefix, digits), f, size, precision, base, value, signed, negative, large)
  {
    hide *;
    var fill := size - |sign| - |prefix| - Max(precision, |digits|);
    var z := ZerosOf(f.left, f.zeropad, fill, precision - |digits|);
    FieldCut(f, size, precision, sign, prefix, digits);
    ZerosDenote(z, digits, base);
    ZerosGood(z, digits, base, large);
    CutLaid(Spaces(!f.left && !f.zeropad, fill), sign + prefix, z, digits, Repeat('0', z) + digits, Spaces(f.left, fill),
            f, size, precision, base, value, signed, negative, large);
  }

  function Spaces(some: bool, n: int): (s: seq<char>)
    ensures |s| == (if some then Max(n, 0) else 0) && forall k :: 0 <= k < |s| ==> s[k] == ' '
  {
    if some then Repeat(' ', n) else ""
  }

  lemma CutLaid(a: seq<char>, b: seq<char>, z: nat, digits: seq<char>, c: seq<char>, d: seq<char>, f: Flags, size: int,
                precision: int, base: int, value: int, signed: bool, negative: bool, large: bool)
    requires (forall k :: 0 <= k < |a| ==> a[k] == ' ') && (forall k :: 0 <= k < |d| ==> d[k] == ' ')
    requires b == SignOf(signed, negative, f.plus, f.space) + PrefixOf(base, f.special, large)
    requires digits != [] && (digits[0] == '0' ==> |digits| == 1) && c == Repeat('0', z) + digits
    requires (forall k :: 0 <= k < z + |digits| ==> GoodDigit(c[k], base, large)) && Denoted(c, base) == value
    requires var fill := size - |b| - Max(precision, |digits|);
      && |a| == (if f.left || f.zeropad then 0 else Max(fill, 0))
      && |d| == (if f.left then Max(fill, 0) else 0)
      && z == ZerosOf(f.left, f.zeropad, fill, precision - |digits|)
    ensures Prints(a + b + c + d, f, size, precision, base, value, signed, negative, large)
  {
    hide SignOf, PrefixOf, Denoted, GoodDigit, Prints, Repeat;
    assert z == 0 ==> c == digits;
    PartsLaid(a, b, c, d, f, size, precision, base, value, signed, negative, large);
  }

  lemma FieldCut(f: Flags, size: int, precision: int, sign: seq<char>, prefix: seq<char>, digits: seq<char>)
    ensures var fill := size - |sign| - |prefix| - Max(precision, |digits|);
      var z := ZerosOf(f.left, f.zeropad, fill, precision - |digits|);
      Field(f, size, precision, sign, prefix, digits)
        == Spaces(!f.left && !f.zeropad, fill) + (sign + prefix) + (Repeat('0', z) + digits) + Spaces(f.left, fill)
  {
    var fill := size - |sign| - |prefix| - Max(precision, |digits|);
    FieldSplit(f.left, f.zeropad, fill, sign, prefix, precision - |digits|, digits);
    hide FieldText, Repeat, Max;
    Regroup(Spaces(!f.left && !f.zeropad, fill), sign, prefix, Repeat('0', ZerosOf(f.left, f.zeropad, fill, precision - |digits|)),
            digits, Spaces(f.left, fill));
  }

  lemma Regroup(a: seq<char>, b: seq<char>, c: seq<char>, d: seq<char>, e: seq<char>, g: seq<char>)
    ensures (a + b) + (c + d + e) + g == a + (b + c) + (d + e) + g
  {
  }

  lemma PartsLaid(a: seq<char>, b: seq<char>, c: seq<char>, d: seq<char>, f: Flags, size: int, precision: int, base: int,
                  value: int, signed: bool, negative: bool, large: bool)
    requires (forall k :: 0 <= k < |a| ==> a[k] == ' ') && (forall k :: 0 <= k < |d| ==> d[k] == ' ') && c != []
    requires b == SignOf(signed, negative, f.plus, f.space) + PrefixOf(base, f.special, large)
    requires (forall k :: 0 <= k < |c| ==> GoodDigit(c[k], base, large)) && Denoted(c, base) == value
    requires |c| >= precision && |a| + |b| + |c| + |d| >= size
    requires |a| > 0 ==> |a| + |b| + |c| + |d| == size && !f.left && !f.zeropad
    requires |d| > 0 ==> |a| + |b| + |c| + |d| == size && f.left
    requires c[0] == '0' && |c| > 1 ==> |c| == precision || (|a| + |b| + |c| + |d| == size && f.zeropad && !f.left)
    ensures Prints(a + b + c + d, f, size, precision, base, value, signed, negative, large)
  {
    hide SignOf, PrefixOf, Denoted, GoodDigit;
    Parts(a, b, c, d);
    assert Laid(a + b + c + d, f, size, precision, base, value, signed, negative, large, |a|, |a| + |b|, |a| + |b| + |c|);
  }

  lemma ZerosGood(z: nat, digits: seq<char>, base: int, large: bool)
    requires digits != [] && base >= 2 && forall k :: 0 <= k < |digits| ==> GoodDigit(digits[k], base, large)
    ensures forall k :: 0 <= k < z + |digits| ==> GoodDigit((Repeat('0', z) + digits)[k], base, large)
  {
  }

  lemma Parts(a: seq<char>, b: seq<char>, c: seq<char>, d: seq<char>)
    ensures var t := a + b + c + d;
      && |t| == |a| + |b| + |c| + |d|
      && (forall k :: 0 <= k < |a| ==> t[k] == a[k])
      && t[|a|..|a| + |b|] == b
      && t[|a| + |b|..|a| + |b| + |c|] == c
      && (forall k :: |a| + |b| <= k < |a| + |b| + |c| ==> t[k] == c[k - |a| - |b|])
      && (forall k :: |a| + |b| + |c| <= k < |t| ==> t[k] == d[k - |a| - |b| - |c|])
  {
  }

  // ---- What the sign says ----

  /** Main result: for a signed number a '-' is there if and only if it is negative, a '+' if and only if it is
      not and PLUS asks for one, and nothing before the digits is other than a space, the sign or the prefix;
      the digits, negated behind a '-', denote the number. An unsigned number has neither. */
  lemma SignedReadBack(num: Long, base: int, size: int, precision: int, f: Flags, at: int, first: int, stop: int)
    requires 2 <= base <= 36
    requires var n: int := num;
      Laid(NumberText(num, base, size, precision, f), f, size, precision, base,
           if n >= 0 then n else if f.sign then -n else n + 0x1_0000_0000, f.sign, n < 0, f.large, at, first, stop)
    ensures var t, n: int := NumberText(num, base, size, precision, f), num;
      && 0 <= at <= first < stop <= |t|
      && ('-' in t <==> f.sign && n < 0)
      && ('+' in t <==> f.sign && n >= 0 && f.plus)
      && (f.sign ==> n == if '-' in t then -Denoted(t[first..stop], base) else Denoted(t[first..stop], base))
      && (f.sign && n < 0 ==> t[at] == '-')
      && (f.sign && n >= 0 && f.plus ==> t[at] == '+')
      && (f.sign && n >= 0 && !f.plus && f.space ==> t[at] == ' ')
  {
    var t, n: int := NumberText(num, base, size, precision, f), num;
    var value := if n >= 0 then n else if f.sign then -n else n + 0x1_0000_0000;
    hide NumberText, Denoted, SignOf, PrefixOf;
    Marks(t, f, size, precision, base, value, f.sign, n < 0, f.large, at, first, stop);
    assert Denoted(t[first..stop], base) == value;
  }

  lemma Marks(t: seq<char>, f: Flags, size: int, precision: int, base: int, value: int, signed: bool, negative: bool,
              large: bool, at: int, first: int, stop: int)
    requires 2 <= base <= 36 && Laid(t, f, size, precision, base, value, signed, negative, large, at, first, stop)
    ensures '-' in t <==> signed && negative
    ensures '+' in t <==> signed && !negative && f.plus
    ensures signed && (negative || f.plus || f.space) ==>
      at < first && t[at] == if negative then '-' else if f.plus then '+' else ' '
  {
    var sign, prefix := SignOf(signed, negative, f.plus, f.space), PrefixOf(base, f.special, large);
    var mark := sign + prefix;
    assert mark == t[at..first];
    MarkHolds(signed, negative, f.plus, f.space, base, f.special, large);
    hide Denoted, SignOf, PrefixOf;
    forall c | c == '-' || c == '+'
      ensures c in t <==> c in mark
    {
      OnlyInMark(t, at, first, stop, base, large, c);
    }
    assert sign != [] ==> t[at..first][0] == sign[0];
  }

  lemma MarkHolds(signed: bool, negative: bool, plus: bool, space: bool, base: int, special: bool, large: bool)
    ensures var sign := SignOf(signed, negative, plus, space);
      var mark := sign + PrefixOf(base, special, large);
      && ('-' in mark <==> signed && negative)
      && ('+' in mark <==> signed && !negative && plus)
      && (signed && (negative || plus || space) ==> sign == [if negative then '-' else if plus then '+' else ' '])
  {
  }

  lemma OnlyInMark(t: seq<char>, at: int, first: int, stop: int, base: int, large: bool, c: char)
    requires 0 <= at <= first < stop <= |t| && base <= 36 && (c == '-' || c == '+')
    requires forall k :: 0 <= k < at || stop <= k < |t| ==> t[k] == ' '
    requires forall k :: first <= k < stop ==> GoodDigit(t[k], base, large)
    ensures c in t <==> c in t[at..first]
  {
    assert forall k :: first <= k < stop ==> t[k] != c;
    assert forall k :: at <= k < first ==> t[k] == t[at..first][k - at];
  }

  // ---- No other text ----

  lemma WorthDecides(c: char, d: char, base: int, large: bool)
    requires base <= 36 && GoodDigit(c, base, large) && GoodDigit(d, base, large) && Worth(c) == Worth(d)
    ensures c == d
  {
  }

  lemma LastPart(a: int, c: int, b: int, d: int, base: int)
    requires 2 <= base && 0 <= c < base && 0 <= d < base && a * base + c == b * base + d
    ensures a == b && c == d
  {
    AtLeastTwice(b - a, base);
    AtLeastTwice(a - b, base);
    Distributed(a, b, base);
    Distributed(b, a, base);
  }

  lemma Distributed(a: int, b: int, base: int)
    ensures (b - a) * base == b * base - a * base
  {
  }

  ghost predicate GoodDigits(s: seq<char>, base: int, large: bool) {
    forall k :: 0 <= k < |s| ==> GoodDigit(s[k], base, large)
  }

  lemma LastDigits(s: seq<char>, u: seq<char>, base: int, large: bool)
    requires 2 <= base <= 36 && GoodDigits(s, base, large) && GoodDigits(u, base, large)
    requires s != [] && u != [] && Denoted(s, base) == Denoted(u, base)
    ensures s[|s| - 1] == u[|u| - 1] && Denoted(s[..|s| - 1], base) == Denoted(u[..|u| - 1], base)
    ensures GoodDigits(s[..|s| - 1], base, large) && GoodDigits(u[..|u| - 1], base, large)
  {
    var c, d := s[|s| - 1], u[|u| - 1];
    LastPart(Denoted(s[..|s| - 1], base), Worth(c), Denoted(u[..|u| - 1], base), Worth(d), base);
    WorthDecides(c, d, base, large);
  }

  /** As many digits of the same value are the same digits. */
  lemma {:induction false} SameDigits(s: seq<char>, u: seq<char>, base: int, large: bool)
    requires 2 <= base <= 36 && GoodDigits(s, base, large) && GoodDigits(u, base, large)
    requires |s| == |u| && Denoted(s, base) == Denoted(u, base)
    ensures s == u
    decreases |s|
  {
    if s != [] {
      LastDigits(s, u, base, large);
      hide *;
      SameDigits(s[..|s| - 1], u[..|u| - 1], base, large);
      assert s == s[..|s| - 1] + [s[|s| - 1]] && u == u[..|u| - 1] + [u[|u| - 1]];
    }
  }

  lemma {:induction false} AllZero(u: seq<char>, base: int, large: bool)
    requires 2 <= base <= 36 && GoodDigits(u, base, large)
    ensures Denoted(u, base) >= 0
    ensures u != [] && Denoted(u, base) == 0 ==> u[0] == '0'
    decreases |u|
  {
    if u != [] {
      AllZero(u[..|u| - 1], base, large);
      FrontZero(Denoted(u[..|u| - 1], base), Worth(u[|u| - 1]), base);
    }
  }

  lemma FrontZero(a: int, c: int, base: int)
    requires a >= 0 && 0 <= c && base >= 2
    ensures a * base + c >= 0 && (a * base + c == 0 ==> a == 0 && c == 0)
  {
    AtLeastTwice(a, base);
  }

  /** More digits of the same value begin with a zero. */
  lemma {:induction false} LongerHasZero(s: seq<char>, u: seq<char>, base: int, large: bool)
    requires 2 <= base <= 36 && GoodDigits(s, base, large) && GoodDigits(u, base, large)
    requires |s| < |u| && Denoted(s, base) == Denoted(u, base)
    ensures u[0] == '0'
    decreases |s|
  {
    if s == [] {
      AllZero(u, base, large);
    } else {
      LastDigits(s, u, base, large);
      hide *;
      LongerHasZero(s[..|s| - 1], u[..|u| - 1], base, large);
    }
  }

  /** Main result: no other text than number()'s is laid out so. */
  lemma PrintsOnce(t: seq<char>, u: seq<char>, f: Flags, size: int, precision: int, base: int, value: int, signed: bool,
                   negative: bool, large: bool)
    requires 2 <= base <= 36
    requires Prints(t, f, size, precision, base, value, signed, negative, large)
    requires Prints(u, f, size, precision, base, value, signed, negative, large)
    ensures t == u
  {
    hide Denoted, GoodDigit, SignOf, PrefixOf;
    var at, first, stop :| Laid(t, f, size, precision, base, value, signed, negative, large, at, first, stop);
    var at', first', stop' :| Laid(u, f, size, precision, base, value, signed, negative, large, at', first', stop');
    FewerDigits(t, u, f, size, precision, base, value, signed, negative, large, at, first, stop, at', first', stop');
    FewerDigits(u, t, f, size, precision, base, value, signed, negative, large, at', first', stop', at, first, stop);
    SliceGood(t, first, stop, base, large);
    SliceGood(u, first', stop', base, large);
    SameDigits(t[first..stop], u[first'..stop'], base, large);
    Assembled(t, at, first, stop);
    Assembled(u, at', first', stop');
    assert at == at' && |t| - stop == |u| - stop';
    assert t[..at] == u[..at'] && t[stop..] == u[stop'..];
  }

  lemma Assembled(t: seq<char>, at: int, first: int, stop: int)
    requires 0 <= at <= first <= stop <= |t|
    ensures t == t[..at] + t[at..first] + t[first..stop] + t[stop..]
  {
  }

  lemma SliceGood(t: seq<char>, first: int, stop: int, base: int, large: bool)
    requires 0 <= first <= stop <= |t| && forall k :: first <= k < stop ==> GoodDigit(t[k], base, large)
    ensures GoodDigits(t[first..stop], base, large)
  {
    hide GoodDigit;
  }

  lemma FewerDigits(t: seq<char>, u: seq<char>, f: Flags, size: int, precision: int, base: int, value: int, signed: bool,
                    negative: bool, large: bool, at: int, first: int, stop: int, at': int, first': int, stop': int)
    requires 2 <= base <= 36
    requires Laid(t, f, size, precision, base, value, signed, negative, large, at, first, stop)
    requires Laid(u, f, size, precision, base, value, signed, negative, large, at', first', stop')
    ensures stop - first >= stop' - first' && first - at == first' - at'
  {
    hide Denoted, GoodDigit, SignOf, PrefixOf;
    assert |t[at..first]| == |u[at'..first']|;
    assert u[first'..stop'][0] == u[first'];
    if stop - first < stop' - first' {
      SliceGood(t, first, stop, base, large);
      SliceGood(u, first', stop', base, large);
      LongerHasZero(t[first..stop], u[first'..stop'], base, large);
    }
  }

  // ---- What simple_strtoul reads ----

  /** The longest run from i on of hexadecimal digits that are digits of the base, and what it denotes. */
  ghost predicate ReadFrom(s: seq<char>, i: int, base: int, result: int, stop: int) {
    && 0 <= i <= stop <= |s|
    && (forall k :: i <= k < stop ==> Worth(s[k]) < 16 && Worth(s[k]) < base)
    && (stop < |s| ==> !(Worth(s[stop]) < 16 && Worth(s[stop]) < base))
    && result == Denoted(s[i..stop], base) % 0x1_0000_0000
  }

  lemma HexWorth(c: char, base: int)
    ensures IsXDigit(c) <==> Worth(c) < 16
    ensures IsXDigit(c) ==> DigitValue(c) == Worth(c)
    ensures IsDigitOf(c, base) <==> Worth(c) < 16 && Worth(c) < base
  {
  }

  lemma {:induction false} ValueIsDenoted(ds: seq<char>, base: int)
    requires forall k :: 0 <= k < |ds| ==> IsXDigit(ds[k])
    ensures Value(ds, base) == Denoted(ds, base)
    decreases |ds|
  {
    if ds != [] {
      HexWorth(ds[|ds| - 1], base);
      ValueIsDenoted(ds[..|ds| - 1], base);
    }
  }

  /** Main result: in a base given, simple_strtoul reads from the start. In base 0 it reads decimal digits unless
      the text begins with 0; then octal ones behind that, or hexadecimal ones behind "0x" if such a digit follows. */
  lemma ParsesReads(s: seq<char>, base: Word, result: int, stop: nat)
    requires Parses(s, base, result, stop)
    ensures base != 0 ==> ReadFrom(s, 0, base, result, stop)
    ensures base == 0 && (s == "" || s[0] != '0') ==> ReadFrom(s, 0, 10, result, stop)
    ensures base == 0 && |s| > 2 && s[..2] == "0x" && Worth(s[2]) < 16 ==> ReadFrom(s, 2, 16, result, stop)
    ensures base == 0 && s != "" && s[0] == '0' && !(|s| > 2 && s[..2] == "0x" && Worth(s[2]) < 16) ==> ReadFrom(s, 1, 8, result, stop)
  {
    var i, b := StartOf(s, base).0, StartOf(s, base).1;
    ReadsFrom(s, i, b, result, stop);
    StartIs(s, base);
  }

  lemma ReadsFrom(s: seq<char>, i: nat, b: int, result: int, stop: nat)
    requires RunEnds(s, i, b, stop) && result == Value(s[i..stop], b) % ADDRESS_SPACE
    ensures ReadFrom(s, i, b, result, stop)
  {
    hide Value, Denoted, IsDigitOf, Worth;
    forall k | i <= k < |s| && k <= stop
      ensures IsDigitOf(s[k], b) <==> Worth(s[k]) < 16 && Worth(s[k]) < b
      ensures k < stop ==> IsXDigit(s[k])
    {
      HexWorth(s[k], b);
    }
    assert forall k :: 0 <= k < stop - i ==> s[i..stop][k] == s[i + k];
    ValueIsDenoted(s[i..stop], b);
  }

  lemma StartIs(s: seq<char>, base: Word)
    ensures StartOf(s, base) ==
      if base != 0 then (0, base)
      else if s == "" || s[0] != '0' then (0, 10)
      else if |s| > 2 && s[..2] == "0x" && Worth(s[2]) < 16 then (2, 16)
      else (1, 8)
  {
    if |s| > 2 {
      HexWorth(s[2], 16);
      assert s[..2] == [s[0], s[1]];
    } else {
      assert !IsXDigit('\0');
    }
  }
}
