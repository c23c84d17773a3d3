// lib/kprintf.c: number() and simple_strtoul().

module Numbers {
  import opened Machine

  /** The `type` bits of number(). */
  datatype Flags = Flags(zeropad: bool, sign: bool, plus: bool, space: bool, left: bool, special: bool, large: bool)

  function Repeat(c: char, n: int): (s: seq<char>)
    ensures |s| == if n > 0 then n else 0
    ensures forall k :: 0 <= k < |s| ==> s[k] == c
  {
    seq(if n > 0 then n else 0, _ => c)
  }

  function Max(a: int, b: int): int {
    if a > b then a else b
  }

  // ---- Digits ----

  /** digits[d] of the lower-case or upper-case digit string. */
  function DigitChar(d: int, large: bool): char
    requires 0 <= d < 36
  {
    if d < 10 then '0' + d as char else (if large then 'A' else 'a') + (d - 10) as char
  }

  /** n in the given base, most significant digit first. */
  function Digits(n: nat, base: int, large: bool): (s: seq<char>)
    requires 2 <= base <= 36
    ensures |s| >= 1
  {
    if n < base then [DigitChar(n, large)]
    else Digits(n / base, base, large) + [DigitChar(n % base, large)]
  }

  function Pow2(n: nat): (p: int)
    ensures p >= 1
  {
    if n == 0 then 1 else 2 * Pow2(n - 1)
  }

  lemma Pow32()
    ensures Pow2(32) == ADDRESS_SPACE
  {
    assert Pow2(4) == 16 && Pow2(8) == 256;
    assert Pow2(12) == 0x1000 && Pow2(16) == 0x1_0000;
    assert Pow2(20) == 0x10_0000 && Pow2(24) == 0x100_0000;
    assert Pow2(28) == 0x1000_0000;
  }

  lemma {:induction false} DigitCount(n: nat, base: int, large: bool, bits: nat)
    requires 2 <= base <= 36 && n < Pow2(bits) && bits >= 1
    ensures |Digits(n, base, large)| <= bits
    decreases n
  {
    if n >= base {
      HalfAtLeast(n, base, 0);
      assert Pow2(1) == 2 * Pow2(0) && Pow2(bits) == 2 * Pow2(bits - 1);
      DigitCount(n / base, base, large, bits - 1);
    }
  }

  // ---- What number() prints ----

  /** A C long. */
  type Long = x: int | -0x8000_0000 <= x < 0x8000_0000

  /** The number whose digits are printed: |num| when signed, else the 32-bit pattern of num. */
  function Magnitude(num: Long, f: Flags): Word {
    var n: int := num;
    if n >= 0 then n else if f.sign then -n else n + ADDRESS_SPACE
  }

  function SignText(num: Long, f: Flags): seq<char> {
    if !f.sign then "" else if num < 0 then "-" else if f.plus then "+" else if f.space then " " else ""
  }

  function PrefixText(base: int, f: Flags): seq<char> {
    if !f.special then "" else if base == 8 then "0" else if base == 16 then (if f.large then "0X" else "0x") else ""
  }

  /** A field: left spaces or sign, prefix, zero padding, precision zeros, digits, right spaces. */
  function FieldText(left: bool, zeros: bool, fill: int, sign: seq<char>, prefix: seq<char>, extra: int, digits: seq<char>): (t: seq<char>)
    ensures |t| == Max(fill, 0) + |sign| + |prefix| + Max(extra, 0) + |digits|
  {
    (if left || zeros then "" else Repeat(' ', fill)) + sign + prefix
    + (if !left && zeros then Repeat('0', fill) else "")
    + Repeat('0', extra) + digits
    + (if left then Repeat(' ', fill) else "")
  }

  function NumberText(num: Long, base: int, size: int, precision: int, f: Flags): seq<char>
    requires 2 <= base <= 36
  {
    var digits := Digits(Magnitude(num, f), base, f.large);
    var sign, prefix := SignText(num, f), PrefixText(base, f);
    FieldText(f.left, f.zeropad, size - |sign| - |prefix| - Max(precision, |digits|), sign, prefix, precision - |digits|, digits)
  }

  /** The length law: the field is as wide as asked, or as wide as its content if that is more; and
      the digit buffer never holds more than 32 digits. */
  lemma {:induction false} NumberLength(num: Long, base: int, size: int, precision: int, f: Flags)
    requires 2 <= base <= 36
    ensures var count := |Digits(Magnitude(num, f), base, f.large)|;
      && count <= 32
      && |NumberText(num, base, size, precision, f)|
         == Max(size, |SignText(num, f)| + |PrefixText(base, f)| + Max(precision, count))
  {
    Pow32();
    DigitCount(Magnitude(num, f), base, f.large, 32);
  }

  // ---- number() ----

  function Reversed(s: seq<char>): (r: seq<char>)
    ensures |r| == |s|
  {
    if s == [] then [] else Reversed(s[1..]) + [s[0]]
  }

  lemma {:induction false} ReversedAppend(s: seq<char>, c: char)
    ensures Reversed(s + [c]) == [c] + Reversed(s)
  {
    if s == [] {
    } else {
      ReversedAppend(s[1..], c);
      assert (s + [c])[1..] == s[1..] + [c];
    }
  }

  lemma {:induction false} ReversedAt(s: seq<char>, k: nat)
    requires k < |s|
    ensures Reversed(s)[k] == s[|s| - 1 - k]
    decreases |s|
  {
    if k < |s| - 1 {
      ReversedAt(s[1..], k);
    }
  }

  /** `while (count-- > 0) *str++ = c;` with what is left in count afterwards. */
  method Put(buf: array<char>, str: nat, c: char, count: int) returns (end: nat, left: int)
    requires str + Max(count, 0) <= buf.Length
    modifies buf
    ensures end == str + Max(count, 0) && left == (if count > 0 then -1 else count - 1)
    ensures buf[..end] == old(buf[..str]) + Repeat(c, count)
    ensures forall k :: end <= k < buf.Length ==> buf[k] == old(buf[k])
  {
    end, left := str, count;
    while left > 0
      invariant left <= count && (count > 0 ==> left >= 0) && (count <= 0 ==> left == count)
      invariant end == str + (if count > 0 then count - left else 0)
      invariant buf[..end] == old(buf[..str]) + Repeat(c, count - left)
      invariant forall k :: end <= k < buf.Length ==> buf[k] == old(buf[k])
    {
      ghost var before := buf[..end];
      left := left - 1;
      buf[end] := c;
      end := end + 1;
      assert buf[..end] == before + [c];
      assert Repeat(c, count - left) == Repeat(c, count - left - 1) + [c];
    }
    left := left - 1;
  }

  /** *str++ = c for each character of s. */
  method PutText(buf: array<char>, str: nat, s: seq<char>) returns (end: nat)
    requires str + |s| <= buf.Length
    modifies buf
    ensures end == str + |s|
    ensures buf[..end] == old(buf[..str]) + s
    ensures forall k :: end <= k < buf.Length ==> buf[k] == old(buf[k])
  {
    end := str;
    for i := 0 to |s|
      invariant end == str + i
      invariant buf[..end] == old(buf[..str]) + s[..i]
      invariant forall k :: end <= k < buf.Length ==> buf[k] == old(buf[k])
    {
      ghost var before := buf[..end];
      buf[end] := s[i];
      end := end + 1;
      assert buf[..end] == before + [s[i]];
    }
  }

  function DigitsOrNone(n: nat, base: int, large: bool): seq<char>
    requires 2 <= base <= 36
  {
    if n == 0 then "" else Digits(n, base, large)
  }

  /** The digit loop: tmp[..i] holds the digits, least significant first. */
  method DigitLoop(num: Word, base: int, large: bool, tmp: array<char>) returns (i: nat)
    requires 2 <= base <= 36 && tmp.Length == 66
    modifies tmp
    ensures 1 <= i <= 32
    ensures Reversed(tmp[..i]) == Digits(num, base, large)
  {
    i := 0;
    if num == 0 {
      tmp[0] := '0';
      i := 1;
      assert tmp[..1] == ['0'];
      return;
    }
    var n := num;
    hide Digits, DigitsOrNone, Reversed, Pow2, DigitChar;
    NoDigitsYet(num, base, large);
    while n != 0
      invariant 0 <= n <= num && 0 <= i <= 32
      invariant n * Pow2(i) <= num
      invariant DigitsOrNone(n, base, large) + Reversed(tmp[..i]) == Digits(num, base, large)
    {
      BitsLeft(n, i, num);
      HalfAtLeast(n, base, i);
      DigitMoves(n, base, large, tmp[..i]);
      ghost var before := tmp[..i];
      var d, rest := n % base, n / base;
      var c := DigitChar(d, large);
      tmp[i] := c;
      n := rest;
      i := i + 1;
      assert tmp[..i] == before + [c];
    }
    AllDigits(num, base, large, tmp[..i]);
  }

  lemma NoDigitsYet(num: nat, base: int, large: bool)
    requires 2 <= base <= 36 && num > 0
    ensures num * Pow2(0) <= num && DigitsOrNone(num, base, large) + Reversed([]) == Digits(num, base, large)
  {
  }

  lemma AllDigits(num: nat, base: int, large: bool, tmp: seq<char>)
    requires 2 <= base <= 36 && DigitsOrNone(0, base, large) + Reversed(tmp) == Digits(num, base, large)
    ensures |tmp| >= 1 && Reversed(tmp) == Digits(num, base, large)
  {
  }

  lemma LastDigit(n: nat, base: int, large: bool)
    requires 2 <= base <= 36 && n >= 1
    ensures 0 <= n % base < base && 0 <= n / base < n
    ensures DigitsOrNone(n, base, large) == DigitsOrNone(n / base, base, large) + [DigitChar(n % base, large)]
  {
    DivFacts(n, base);
    hide DigitChar;
  }

  lemma DivFacts(n: nat, base: int)
    requires 2 <= base && n >= 1
    ensures 0 <= n % base < base && 0 <= n / base < n
    ensures n < base ==> n / base == 0 && n % base == n
    ensures n >= base ==> n / base >= 1
  {
    var q, r := n / base, n % base;
    assert n == q * base + r;
    AtLeastTwice(q, base);
    if n < base {
      Zero(q, base, r);
    }
  }

  lemma AtLeastTwice(q: int, base: int)
    requires 2 <= base
    ensures q >= 1 ==> q * base >= 2 * q
    ensures q <= -1 ==> q * base <= -base
    ensures q <= 0 ==> q * base <= 0
  {
    if q >= 1 {
      assert q * (base - 2) >= 0;
    } else if q <= -1 {
      assert (-1 - q) * base >= 0;
    }
  }

  lemma Zero(q: int, base: int, r: int)
    requires 2 <= base && 0 <= r < base && 0 <= q * base + r < base
    ensures q == 0
  {
    AtLeastTwice(q, base);
    assert q >= 1 ==> (q - 1) * base >= 0;
  }

  /** One round of the digit loop moves the last digit over. */
  lemma DigitMoves(n: nat, base: int, large: bool, done: seq<char>)
    requires 2 <= base <= 36 && n >= 1
    ensures 0 <= n % base < base && 0 <= n / base < n
    ensures DigitsOrNone(n, base, large) + Reversed(done)
         == DigitsOrNone(n / base, base, large) + Reversed(done + [DigitChar(n % base, large)])
  {
    LastDigit(n, base, large);
    hide Reversed, DigitsOrNone, Digits, DigitChar;
    var c := DigitChar(n % base, large);
    ReversedAppend(done, c);
    assert (DigitsOrNone(n / base, base, large) + [c]) + Reversed(done)
        == DigitsOrNone(n / base, base, large) + ([c] + Reversed(done));
  }

  lemma BitsLeft(n: nat, i: nat, num: Word)
    requires n >= 1 && n * Pow2(i) <= num && i <= 32
    ensures i < 32
  {
    hide Pow2;
    assert Pow2(i) <= n * Pow2(i) by {
      assert (n - 1) * Pow2(i) >= 0;
    }
    Pow32();
  }

  lemma HalfAtLeast(n: nat, base: int, i: nat)
    requires 2 <= base
    ensures n / base * Pow2(i + 1) <= n * Pow2(i)
  {
    var h := n / base;
    assert 2 * h <= n by {
      assert h * base <= n;
      assert h * 2 <= h * base;
    }
    assert h * Pow2(i + 1) == (2 * h) * Pow2(i);
    assert (2 * h) * Pow2(i) <= n * Pow2(i);
  }

  /** `while (i-- > 0) *str++ = tmp[i];` */
  method PutReversed(buf: array<char>, str: nat, tmp: array<char>, count: nat) returns (end: nat)
    requires count <= tmp.Length && str + count <= buf.Length && buf != tmp
    modifies buf
    ensures end == str + count
    ensures buf[..end] == old(buf[..str]) + Reversed(tmp[..count])
    ensures forall k :: end <= k < buf.Length ==> buf[k] == old(buf[k])
  {
    end := str;
    var i := count;
    ghost var all := Reversed(tmp[..count]);
    while i > 0
      invariant 0 <= i <= count && end == str + (count - i)
      invariant buf[..end] == old(buf[..str]) + all[..count - i]
      invariant forall k :: end <= k < buf.Length ==> buf[k] == old(buf[k])
    {
      ghost var before := buf[..end];
      ReversedAt(tmp[..count], count - i);
      i := i - 1;
      buf[end] := tmp[i];
      end := end + 1;
      assert buf[..end] == before + [tmp[i]];
      assert all[..count - i] == all[..count - i - 1] + [tmp[i]];
    }
    assert all[..count] == all;
  }

  /** The emitting half of number(): sign, prefix and padding around the digits held in tmp[..i]. */
  method Emit(buf: array<char>, str: nat, sign: seq<char>, prefix: seq<char>, f: Flags, size: int, precision: int,
              tmp: array<char>, i: nat)
    returns (end: nat)
    requires i <= precision && i <= tmp.Length && buf != tmp && !(f.left && f.zeropad)
    requires str + |FieldText(f.left, f.zeropad, size, sign, prefix, precision - i, Reversed(tmp[..i]))| <= buf.Length
    modifies buf
    ensures var text := FieldText(f.left, f.zeropad, size, sign, prefix, precision - i, Reversed(tmp[..i]));
      end == str + |text| && buf[..end] == old(buf[..str]) + text
    ensures forall k :: end <= k < buf.Length ==> buf[k] == old(buf[k])
  {
    hide Reversed, Repeat;
    ghost var start, digits := buf[..str], Reversed(tmp[..i]);
    var left := size;
    end := str;
    ghost var t: seq<char> := "";
    if !f.zeropad && !f.left {
      end, left := Put(buf, end, ' ', left);
      t := Repeat(' ', size);
    }
    assert buf[..end] == start + t;
    end := PutText(buf, end, sign);
    Joined(start, t, sign);
    end := PutText(buf, end, prefix);
    Joined(start, t + sign, prefix);
    t := t + sign + prefix;
    ghost var zeros := if f.zeropad then Repeat('0', size) else "";
    if !f.left {
      NoRepeat(' ', left);
      end, left := Put(buf, end, if f.zeropad then '0' else ' ', left);
    }
    assert buf[..end] == (start + t) + zeros;
    Joined(start, t, zeros);
    t := t + zeros;
    var unused;
    end, unused := Put(buf, end, '0', precision - i);
    Joined(start, t, Repeat('0', precision - i));
    t := t + Repeat('0', precision - i);
    end := PutReversed(buf, end, tmp, i);
    Joined(start, t, digits);
    t := t + digits;
    NoRepeat(' ', left);
    end, unused := Put(buf, end, ' ', left);
    Joined(start, t, Repeat(' ', left));
  }

  lemma Joined(a: seq<char>, b: seq<char>, c: seq<char>)
    ensures (a + b) + c == a + (b + c)
  {
  }

  lemma NoRepeat(c: char, n: int)
    ensures n <= 0 ==> Repeat(c, n) == ""
  {
  }

  /** The computing half of number(): the unsigned value, the sign, the prefix, and the width left for the rest. */
  method Prepare(num: Long, base: int, size: int, f: Flags)
    returns (unsigned: Word, sign: seq<char>, prefix: seq<char>, room: int)
    requires 2 <= base <= 36
    ensures unsigned == Magnitude(num, f) && sign == SignText(num, f) && prefix == PrefixText(base, f)
    ensures room == size - |sign| - |prefix|
  {
    room := size;
    sign := "";
    var n: int := num;
    if f.sign {
      if n < 0 {
        sign := "-";
        n := -n;
        room := room - 1;
      } else if f.plus {
        sign := "+";
        room := room - 1;
      } else if f.space {
        sign := " ";
        room := room - 1;
      }
    }
    prefix := "";
    if f.special {
      if base == 16 {
        room := room - 2;
        prefix := ['0', DigitChar(33, f.large)];
      } else if base == 8 {
        room := room - 1;
        prefix := "0";
      }
    }
    unsigned := if n < 0 then n + ADDRESS_SPACE else n;
  }

  /** number(): None is its NULL for a base out of range. */
  method Number(buf: array<char>, str: nat, num: Long, base: int, size: int, precision: int, flags: Flags)
    returns (r: Option<nat>)
    requires 2 <= base <= 36 ==> str + |NumberText(num, base, size, precision, flags)| <= buf.Length
    modifies buf
    ensures r.None? <==> base < 2 || base > 36
    ensures r.None? ==> buf[..] == old(buf[..])
    ensures r.Some? ==>
      var text := NumberText(num, base, size, precision, flags);
      && r.value == str + |text|
      && buf[..r.value] == old(buf[..str]) + text
      && forall k :: r.value <= k < buf.Length ==> buf[k] == old(buf[k])
  {
    hide Digits, Reversed, Repeat, FieldText, SignText, PrefixText, Magnitude;
    var f := if flags.left then flags.(zeropad := false) else flags;
    if base < 2 || base > 36 {
      return None;
    }
    var unsigned, sign, prefix, room := Prepare(num, base, size, f);
    var tmp := new char[66];
    var i := DigitLoop(unsigned, base, f.large, tmp);
    var width := if i > precision then i else precision;
    SameContext(num, base, flags, f);
    SameField(flags.left, flags.zeropad, room - width, sign, prefix, width - i, precision - i, Reversed(tmp[..i]));
    var end := Emit(buf, str, sign, prefix, f, room - width, width, tmp, i);
    r := Some(end);
  }

  /** Dropping ZEROPAD under LEFT changes none of the parts. */
  lemma SameContext(num: Long, base: int, flags: Flags, f: Flags)
    requires f == if flags.left then flags.(zeropad := false) else flags
    ensures Magnitude(num, f) == Magnitude(num, flags) && SignText(num, f) == SignText(num, flags)
    ensures PrefixText(base, f) == PrefixText(base, flags) && f.large == flags.large
  {
  }

  lemma SameField(left: bool, zeros: bool, fill: int, sign: seq<char>, prefix: seq<char>, extra: int, raw: int, digits: seq<char>)
    requires extra == Max(raw, 0)
    ensures FieldText(left, zeros, fill, sign, prefix, extra, digits) == FieldText(left, zeros, fill, sign, prefix, raw, digits)
    ensures left ==> FieldText(left, zeros, fill, sign, prefix, extra, digits) == FieldText(left, false, fill, sign, prefix, extra, digits)
  {
    assert Repeat('0', extra) == Repeat('0', raw);
  }
}
