// lib/kprintf.c: vsprintf. The format is given a meaning in two phases, parse into items and render
// them one after the other; the single-pass loop of the source is proved equal to that.

module Format {
  import opened Machine
  import opened Numbers
  import opened Strtoul

  // ---- Arguments ----

  /** One variadic argument: the 32 bits of an integer, a string or null, a pointer, or the target of %n. */
  datatype Arg = Num(bits: Word) | Str(text: seq<char>) | NullStr | Ptr(address: Word) | Target

  /** The bits as a C int or long. */
  function AsLong(w: Word): Long {
    var n: int := w;
    if n < 0x8000_0000 then n else n - ADDRESS_SPACE
  }

  // ---- Phase one: what the format says ----

  datatype Amount = Absent | Given(n: nat) | FromArg

  /** A conversion specification; conv is NUL when the format ends inside it. */
  datatype Spec = Spec(flags: Flags, width: Amount, precision: Amount, qualifier: char, conv: char)

  datatype Item = Literal(c: char) | Directive(spec: Spec)

  const NO_FLAGS := Flags(false, false, false, false, false, false, false)

  predicate IsFlag(c: char) {
    c == '-' || c == '+' || c == ' ' || c == '#' || c == '0'
  }

  /** Where the run of flag characters from i on ends. */
  function FlagsEnd(fmt: seq<char>, i: nat): (e: nat)
    requires i <= |fmt|
    ensures i <= e <= |fmt|
    ensures forall k :: i <= k < e ==> IsFlag(fmt[k])
    ensures e < |fmt| ==> !IsFlag(fmt[e])
    decreases |fmt| - i
  {
    if i < |fmt| && IsFlag(fmt[i]) then FlagsEnd(fmt, i + 1) else i
  }

  /** A flag is set if its character is there, however often and in whatever order. */
  function FlagsIn(run: seq<char>): Flags {
    NO_FLAGS.(left := '-' in run, plus := '+' in run, space := ' ' in run, special := '#' in run, zeropad := '0' in run)
  }

  /** The flags from i on, and where they end. */
  function ParseFlags(fmt: seq<char>, i: nat): (r: (Flags, nat))
    requires i <= |fmt|
    ensures i <= r.1 <= |fmt|
  {
    (FlagsIn(fmt[i..FlagsEnd(fmt, i)]), FlagsEnd(fmt, i))
  }

  /** Where the run of decimal digits from i on ends. */
  function DigitsEnd(fmt: seq<char>, i: nat): (e: nat)
    requires i <= |fmt|
    ensures i <= e <= |fmt|
    ensures forall k :: i <= k < e ==> IsDigit(fmt[k])
    ensures e < |fmt| ==> !IsDigit(fmt[e])
    decreases |fmt| - i
  {
    if i < |fmt| && IsDigit(fmt[i]) then DigitsEnd(fmt, i + 1) else i
  }

  /** The number that the decimal digits from i on denote, and where they end. */
  function ParseNumber(fmt: seq<char>, i: nat): (r: (nat, nat))
    requires i <= |fmt|
    ensures i <= r.1 <= |fmt|
  {
    DecimalNat(fmt[i..DigitsEnd(fmt, i)]);
    (Value(fmt[i..DigitsEnd(fmt, i)], 10), DigitsEnd(fmt, i))
  }

  lemma {:induction false} DecimalNat(ds: seq<char>)
    requires forall k :: 0 <= k < |ds| ==> IsDigit(ds[k])
    ensures Value(ds, 10) >= 0
  {
    if ds != [] {
      DecimalNat(ds[..|ds| - 1]);
    }
  }

  function ParseWidth(fmt: seq<char>, i: nat): (r: (Amount, nat))
    requires i <= |fmt|
    ensures i <= r.1 <= |fmt|
  {
    if IsDigit(At(fmt, i)) then (Given(ParseNumber(fmt, i).0), ParseNumber(fmt, i).1)
    else if At(fmt, i) == '*' then (FromArg, i + 1)
    else (Absent, i)
  }

  /** A period without a number means precision 0. */
  function ParsePrecision(fmt: seq<char>, i: nat): (r: (Amount, nat))
    requires i <= |fmt|
    ensures i <= r.1 <= |fmt|
  {
    if At(fmt, i) != '.' then (Absent, i)
    else
      var (p, j) := ParseWidth(fmt, i + 1);
      (if p.Absent? then Given(0) else p, j)
  }

  /** The specification from i on, i being after the percent sign. */
  function ParseSpec(fmt: seq<char>, i: nat): (r: (Spec, nat))
    requires i <= |fmt|
    ensures i <= r.1 <= |fmt|
  {
    var (f, j) := ParseFlags(fmt, i);
    var (w, k) := ParseWidth(fmt, j);
    var (p, l) := ParsePrecision(fmt, k);
    var q := At(fmt, l);
    var m := if q == 'h' || q == 'l' || q == 'L' then l + 1 else l;
    (Spec(f, w, p, if m > l then q else '\0', At(fmt, m)), if m < |fmt| then m + 1 else m)
  }

  function Parse(fmt: seq<char>, i: nat := 0): seq<Item>
    requires i <= |fmt|
    decreases |fmt| - i
  {
    if i == |fmt| then []
    else if fmt[i] != '%' then [Literal(fmt[i])] + Parse(fmt, i + 1)
    else
      var (spec, j) := ParseSpec(fmt, i + 1);
      [Directive(spec)] + Parse(fmt, j)
  }

  // ---- Phase two: what each item prints ----

  /** What an item prints, the arguments left, and what %n stored. */
  datatype Out = Out(text: seq<char>, rest: seq<Arg>, stores: seq<nat>)

  /** The field width and flags after taking a `*` argument; width -1 when there is none. */
  function TakeWidth(w: Amount, f: Flags, args: seq<Arg>): Option<(int, Flags, seq<Arg>)> {
    match w
    case Absent => Some((-1, f, args))
    case Given(n) => Some((n, f, args))
    case FromArg =>
      if args == [] || !args[0].Num? then None
      else
        var v: int := AsLong(args[0].bits);
        if v < 0 then Some((-v, f.(left := true), args[1..])) else Some((v, f, args[1..]))
  }

  /** The precision; a negative `*` argument counts as 0, not as absent. */
  function TakePrecision(p: Amount, args: seq<Arg>): Option<(int, seq<Arg>)> {
    match p
    case Absent => Some((-1, args))
    case Given(n) => Some((n, args))
    case FromArg =>
      if args == [] || !args[0].Num? then None
      else Some((Max(AsLong(args[0].bits), 0), args[1..]))
  }

  function Padded(text: seq<char>, width: int, left: bool): seq<char> {
    if left then text + Repeat(' ', width - |text|) else Repeat(' ', width - |text|) + text
  }

  function Cut(text: seq<char>, precision: int): seq<char> {
    if 0 <= precision < |text| then text[..precision] else text
  }

  predicate IsInteger(conv: char) {
    conv == 'o' || conv == 'x' || conv == 'X' || conv == 'd' || conv == 'i' || conv == 'u'
  }

  predicate Converts(conv: char) {
    IsInteger(conv) || conv == 'c' || conv == 's' || conv == 'p' || conv == 'n'
  }

  function BaseOf(conv: char): int {
    if conv == 'o' then 8 else if conv == 'x' || conv == 'X' then 16 else 10
  }

  function IntegerFlags(f: Flags, conv: char): Flags {
    f.(large := conv == 'X', sign := conv == 'd' || conv == 'i')
  }

  /** The integer taken for a conversion: all 32 bits, or 16 of them after an h. */
  function IntegerValue(bits: Word, qualifier: char, signed: bool): Long {
    if qualifier == 'h' then
      var low := bits % 0x1_0000;
      if signed && low >= 0x8000 then low - 0x1_0000 else low
    else AsLong(bits)
  }

  /** What one conversion of an argument prints. */
  function Convert(conv: char, qualifier: char, f: Flags, width: int, precision: int, arg: Arg): Option<seq<char>>
    requires Converts(conv)
  {
    if IsInteger(conv) && arg.Num? then
      var g := IntegerFlags(f, conv);
      Some(NumberText(IntegerValue(arg.bits, qualifier, g.sign), BaseOf(conv), width, precision, g))
    else if conv == 'c' && arg.Num? then
      Some(Padded([(arg.bits % 0x100) as char], width, f.left))
    else if conv == 's' && arg.Str? then
      Some(Padded(Cut(arg.text, precision), width, f.left))
    else if conv == 's' && arg.NullStr? then
      Some(Padded(Cut("<NULL>", precision), width, f.left))
    else if conv == 'p' && arg.Ptr? then
      Some(NumberText(AsLong(arg.address), 16, if width == -1 then 8 else width, precision,
                      if width == -1 then f.(zeropad := true) else f))
    else if conv == 'n' && arg.Target? then Some("")
    else None
  }

  /** What stands in the output for a specification that converts nothing: %% is a percent sign, anything
      else keeps its percent sign and loses its flags, width and precision. */
  function Unconverted(conv: char): seq<char> {
    (if conv != '%' then "%" else "") + (if conv != '\0' then [conv] else "")
  }

  function RenderSpec(spec: Spec, args: seq<Arg>, pos: nat): Option<Out> {
    match TakeWidth(spec.width, spec.flags, args)
    case None => None
    case Some((width, f, args1)) =>
      match TakePrecision(spec.precision, args1)
      case None => None
      case Some((precision, args2)) =>
        if !Converts(spec.conv) then Some(Out(Unconverted(spec.conv), args2, []))
        else if args2 == [] then None
        else
          match Convert(spec.conv, spec.qualifier, f, width, precision, args2[0])
          case None => None
          case Some(text) => Some(Out(text, args2[1..], if spec.conv == 'n' then [pos] else []))
  }

  function RenderItem(item: Item, args: seq<Arg>, pos: nat): Option<Out> {
    match item
    case Literal(c) => Some(Out([c], args, []))
    case Directive(spec) => RenderSpec(spec, args, pos)
  }

  /** The items rendered one after the other, the first at column pos; None when the arguments do not match. */
  function Render(items: seq<Item>, args: seq<Arg>, pos: nat := 0): Option<Out>
    decreases |items|
  {
    if items == [] then Some(Out("", args, []))
    else
      match RenderItem(items[0], args, pos)
      case None => None
      case Some(first) =>
        match Render(items[1..], first.rest, pos + |first.text|)
        case None => None
        case Some(others) => Some(Out(first.text + others.text, others.rest, first.stores + others.stores))
  }

  // ---- How many arguments a format takes ----

  function Stars(a: Amount): nat {
    if a.FromArg? then 1 else 0
  }

  function ItemTakes(item: Item): nat {
    match item
    case Literal(_) => 0
    case Directive(s) => Stars(s.width) + Stars(s.precision) + (if Converts(s.conv) then 1 else 0)
  }

  /** One for each `*`, and one for each conversion. */
  function ArgCount(items: seq<Item>): nat {
    if items == [] then 0 else ItemTakes(items[0]) + ArgCount(items[1..])
  }

  lemma SpecTakes(item: Item, args: seq<Arg>, pos: nat)
    requires RenderItem(item, args, pos).Some?
    ensures ItemTakes(item) <= |args| && RenderItem(item, args, pos).value.rest == args[ItemTakes(item)..]
  {
    hide Convert;
  }

  /** Rendering uses up exactly the arguments the format asks for, in order. */
  lemma {:induction false} RenderTakes(items: seq<Item>, args: seq<Arg>, pos: nat)
    requires Render(items, args, pos).Some?
    ensures ArgCount(items) <= |args|
    ensures Render(items, args, pos).value.rest == args[ArgCount(items)..]
    decreases |items|
  {
    if items != [] {
      hide RenderItem, ItemTakes;
      var first := RenderItem(items[0], args, pos).value;
      var k := ItemTakes(items[0]);
      SpecTakes(items[0], args, pos);
      RenderTakes(items[1..], first.rest, pos + |first.text|);
      var m := ArgCount(items[1..]);
      assert args[k..][m..] == args[k + m..];
    }
  }

  lemma RenderCons(item: Item, others: seq<Item>, args: seq<Arg>, pos: nat, first: Out, tail: Out)
    requires RenderItem(item, args, pos) == Some(first)
    requires Render(others, first.rest, pos + |first.text|) == Some(tail)
    ensures Render([item] + others, args, pos)
         == Some(Out(first.text + tail.text, tail.rest, first.stores + tail.stores))
  {
    hide RenderItem;
    assert ([item] + others)[1..] == others;
  }

  /** A format with no percent sign, or none before its last character, prints itself. */
  lemma {:induction false} PlainText(fmt: seq<char>, i: nat, args: seq<Arg>, pos: nat)
    requires i <= |fmt| && forall k :: i <= k < |fmt| - 1 ==> fmt[k] != '%'
    ensures Render(Parse(fmt, i), args, pos) == Some(Out(fmt[i..], args, []))
    decreases |fmt| - i
  {
    hide ParseSpec, RenderSpec, Render;
    if i == |fmt| {
      NothingLeftToPrint(args, pos);
      assert fmt[i..] == "";
    } else if fmt[i] != '%' {
      ParseOne(fmt, i);
      PlainText(fmt, i + 1, args, pos + 1);
      hide Parse;
      RenderCons(Literal(fmt[i]), Parse(fmt, i + 1), args, pos, Out([fmt[i]], args, []), Out(fmt[i + 1..], args, []));
      assert [fmt[i]] + fmt[i + 1..] == fmt[i..];
      assert NOTHING + NOTHING == NOTHING;
    } else {
      assert fmt[i..] == "%";
      BarePercent(fmt);
      assert Parse(fmt, i) == [Directive(BARE)];
      RenderBare(args, pos);
    }
  }

  lemma NothingLeftToPrint(args: seq<Arg>, pos: nat)
    ensures Render([], args, pos) == Some(Out("", args, []))
  {
  }

  const NOTHING: seq<nat> := []

  const BARE := Spec(NO_FLAGS, Absent, Absent, '\0', '\0')

  lemma BarePercent(fmt: seq<char>)
    ensures ParseSpec(fmt, |fmt|) == (BARE, |fmt|)
  {
    var (f, j) := ParseFlags(fmt, |fmt|);
    assert f == NO_FLAGS && j == |fmt|;
    var (w, k) := ParseWidth(fmt, |fmt|);
    assert w == Absent && k == |fmt|;
    assert ParsePrecision(fmt, |fmt|) == (Absent, |fmt|);
  }

  lemma RenderBare(args: seq<Arg>, pos: nat)
    ensures Render([Directive(BARE)], args, pos) == Some(Out("%", args, []))
  {
    assert Unconverted('\0') == "%";
    RenderCons(Directive(BARE), [], args, pos, Out("%", args, []), Out("", args, []));
    assert [Directive(BARE)] + [] == [Directive(BARE)];
    assert "%" + "" == "%" && NOTHING + NOTHING == NOTHING;
  }

  /** A field is never narrower than asked for, and only as much wider as its content needs. */
  lemma FieldWidth(conv: char, qualifier: char, f: Flags, width: int, precision: int, arg: Arg)
    requires Converts(conv) && Convert(conv, qualifier, f, width, precision, arg).Some?
    ensures var n := |Convert(conv, qualifier, f, width, precision, arg).value|;
      && (conv != 'n' ==> n >= width)
      && (conv == 'c' ==> n == Max(width, 1))
      && (conv == 's' && arg.Str? ==> n == Max(width, if 0 <= precision < |arg.text| then precision else |arg.text|))
  {
    hide NumberText;
    if IsInteger(conv) {
      var g := IntegerFlags(f, conv);
      NumberLength(IntegerValue(arg.bits, qualifier, g.sign), BaseOf(conv), width, precision, g);
    } else if conv == 'p' {
      NumberLength(AsLong(arg.address), 16, if width == -1 then 8 else width, precision,
                   if width == -1 then f.(zeropad := true) else f);
    }
  }

  /** The unsigned conversions without flags, width or precision. */
  predicate Unsigned(conv: char) {
    conv == 'o' || conv == 'x' || conv == 'X' || conv == 'u'
  }

  lemma ShortFormat(conv: char, w: Word)
    requires Unsigned(conv)
    ensures Render(Parse(['%', conv]), [Num(w)])
         == Some(Out(NumberText(AsLong(w), BaseOf(conv), -1, -1, IntegerFlags(NO_FLAGS, conv)), [], []))
  {
    hide NumberText;
    var fmt := ['%', conv];
    var spec := Spec(NO_FLAGS, Absent, Absent, '\0', conv);
    assert ParseFlags(fmt, 1) == (NO_FLAGS, 1);
    assert ParseWidth(fmt, 1) == (Absent, 1);
    assert ParsePrecision(fmt, 1) == (Absent, 1);
    assert ParseSpec(fmt, 1) == (spec, 2);
    assert Parse(fmt, 2) == [];
    ParseOne(fmt, 0);
    assert Parse(fmt) == [Directive(spec)] + [];
    var text := NumberText(AsLong(w), BaseOf(conv), -1, -1, IntegerFlags(NO_FLAGS, conv));
    assert [Num(w)][1..] == [];
    assert RenderItem(Directive(spec), [Num(w)], 0) == Some(Out(text, [], []));
    RenderCons(Directive(spec), [], [Num(w)], 0, Out(text, [], []), Out("", [], []));
    assert text + "" == text && NOTHING + NOTHING == NOTHING;
  }

  /** Printing and parsing are inverse: what %u, %o, %x or %X prints for any 32-bit value is a digit string
      that simple_strtoul, in the same base, reads back as that value up to its end. */
  lemma {:induction false} PrintedParses(conv: char, w: Word)
    requires Unsigned(conv)
    ensures var out := Render(Parse(['%', conv]), [Num(w)]);
      && out.Some?
      && Parses(out.value.text, if conv == 'o' then 8 else if conv == 'u' then 10 else 16, w, |out.value.text|)
  {
    ShortFormat(conv, w);
    var f := IntegerFlags(NO_FLAGS, conv);
    assert 2 <= BaseOf(conv) <= 16 && f == NO_FLAGS.(large := conv == 'X');
    assert Magnitude(AsLong(w), f) == w;
    hide Parses, NumberText, Render, Parse, Magnitude;
    BareRoundTrip(AsLong(w), BaseOf(conv), f);
  }

  lemma BareRoundTrip(num: Long, base: int, f: Flags)
    requires 2 <= base <= 16 && !f.sign && !f.special && !f.zeropad && !f.left
    ensures var t := NumberText(num, base, -1, -1, f);
      Parses(t, base, Magnitude(num, f), |t|)
  {
    hide *;
    BareDigits(num, base, f);
    RoundTrip(num, base, -1, -1, f);
    var t := NumberText(num, base, -1, -1, f);
    assert t[0..] == t;
  }

  lemma BareDigits(num: Long, base: int, f: Flags)
    requires 2 <= base <= 16 && !f.sign && !f.special && !f.zeropad && !f.left
    ensures NumberText(num, base, -1, -1, f) == Digits(Magnitude(num, f), base, f.large)
    ensures Lead(num, base, -1, -1, f) == 0 && ZeroCount(num, base, -1, -1, f) == 0
    ensures PrefixText(base, f) == ""
  {
    hide Digits;
    NoRepeat(' ', -1 - |Digits(Magnitude(num, f), base, f.large)|);
  }

  // ---- The single pass ----

  /** The flag loop, `goto repeat` at every flag character: it skips exactly the run of flag characters, and
      each flag is set if and only if its character occurs in the run. */
  method SkipFlags(fmt: seq<char>, start: nat) returns (flags: Flags, i: nat)
    requires start <= |fmt|
    ensures start <= i <= |fmt| && (forall k :: start <= k < i ==> IsFlag(fmt[k])) && (i < |fmt| ==> !IsFlag(fmt[i]))
    ensures flags.left <==> '-' in fmt[start..i]
    ensures flags.plus <==> '+' in fmt[start..i]
    ensures flags.space <==> ' ' in fmt[start..i]
    ensures flags.special <==> '#' in fmt[start..i]
    ensures flags.zeropad <==> '0' in fmt[start..i]
    ensures !flags.sign && !flags.large
    ensures (flags, i) == ParseFlags(fmt, start)
  {
    flags := NO_FLAGS;
    i := start;
    while true
      invariant start <= i <= |fmt| && forall k :: start <= k < i ==> IsFlag(fmt[k])
      invariant flags == FlagsIn(fmt[start..i])
      decreases |fmt| - i
    {
      assert i < |fmt| ==> fmt[start..i + 1] == fmt[start..i] + [fmt[i]];
      match At(fmt, i) {
        case '-' => flags := flags.(left := true);
        case '+' => flags := flags.(plus := true);
        case ' ' => flags := flags.(space := true);
        case '#' => flags := flags.(special := true);
        case '0' => flags := flags.(zeropad := true);
        case _ =>
          FlagsEndIs(fmt, start, i);
          return;
      }
      i := i + 1;
    }
  }

  lemma FlagsEndIs(fmt: seq<char>, i: nat, e: nat)
    requires i <= e <= |fmt| && (forall k :: i <= k < e ==> IsFlag(fmt[k])) && (e < |fmt| ==> !IsFlag(fmt[e]))
    ensures FlagsEnd(fmt, i) == e
  {
  }

  /** skip_atoi: the number denoted by the longest run of decimal digits. */
  method SkipAtoi(fmt: seq<char>, start: nat) returns (n: nat, i: nat)
    requires start <= |fmt|
    ensures RunEnds(fmt, start, 10, i) && n == Value(fmt[start..i], 10)
    ensures (n, i) == ParseNumber(fmt, start)
  {
    n := 0;
    i := start;
    while IsDigit(At(fmt, i))
      invariant start <= i <= |fmt| && forall k :: start <= k < i ==> IsDigit(fmt[k])
      invariant n == Value(fmt[start..i], 10)
      decreases |fmt| - i
    {
      OneMore(fmt, start, i, 10);
      n := n * 10 + (fmt[i] as int - '0' as int);
      i := i + 1;
    }
    DigitsEndIs(fmt, start, i);
  }

  lemma DigitsEndIs(fmt: seq<char>, i: nat, e: nat)
    requires i <= e <= |fmt| && (forall k :: i <= k < e ==> IsDigit(fmt[k])) && (e < |fmt| ==> !IsDigit(fmt[e]))
    ensures DigitsEnd(fmt, i) == e
  {
  }

  /** The width and precision of a specification, taking `*` arguments as the source does on the way. */
  method Amounts(fmt: seq<char>, start: nat, flags0: Flags, args: seq<Arg>, used0: nat)
    returns (flags: Flags, width: int, precision: int, used: nat, i: nat)
    requires start <= |fmt| && used0 <= |args|
    requires var (w, k) := ParseWidth(fmt, start);
      && TakeWidth(w, flags0, args[used0..]).Some?
      && TakePrecision(ParsePrecision(fmt, k).0, TakeWidth(w, flags0, args[used0..]).value.2).Some?
    ensures used0 <= used <= |args| && i <= |fmt|
    ensures var (w, k) := ParseWidth(fmt, start);
      && TakeWidth(w, flags0, args[used0..]).value.0 == width
      && TakeWidth(w, flags0, args[used0..]).value.1 == flags
      && i == ParsePrecision(fmt, k).1
      && TakePrecision(ParsePrecision(fmt, k).0, TakeWidth(w, flags0, args[used0..]).value.2).value == (precision, args[used..])
  {
    hide Value, RunEnds, DigitsEnd;
    flags, used, i := flags0, used0, start;
    width := -1;
    if IsDigit(At(fmt, i)) {
      width, i := SkipAtoi(fmt, i);
    } else if At(fmt, i) == '*' {
      i := i + 1;
      assert args[used0..][0] == args[used0];
      assert args[used0..][1..] == args[used0 + 1..];
      width := AsLong(args[used].bits);
      used := used + 1;
      if width < 0 {
        width := -width;
        flags := flags.(left := true);
      }
    }
    ghost var here := used;
    precision := -1;
    if At(fmt, i) == '.' {
      i := i + 1;
      if IsDigit(At(fmt, i)) {
        precision, i := SkipAtoi(fmt, i);
      } else if At(fmt, i) == '*' {
        i := i + 1;
        assert args[here..][0] == args[here];
        assert args[here..][1..] == args[here + 1..];
        precision := AsLong(args[used].bits);
        used := used + 1;
      }
      if precision < 0 {
        precision := 0;
      }
    }
  }

  /** Text padded by loops on the left or on the right, the common part of %c and %s. */
  method PutPadded(buf: array<char>, str: nat, text: seq<char>, width: int, left: bool) returns (end: nat)
    requires str + |Padded(text, width, left)| <= buf.Length
    modifies buf
    ensures end == str + |Padded(text, width, left)|
    ensures buf[..end] == old(buf[..str]) + Padded(text, width, left)
    ensures forall k :: end <= k < buf.Length ==> buf[k] == old(buf[k])
  {
    hide Repeat;
    ghost var start := buf[..str];
    var room := width - |text|;
    end := str;
    var count := room;
    if !left {
      end, count := Put(buf, end, ' ', count);
      Joined(start, Repeat(' ', room), text);
    }
    end := PutText(buf, end, text);
    NoRepeat(' ', count);
    var unused;
    end, unused := Put(buf, end, ' ', count);
    Joined(start, text, Repeat(' ', room));
  }

  /** strnlen(s, precision), a negative precision being no limit. */
  method TextLength(text: seq<char>, precision: int) returns (len: nat)
    ensures len <= |text| && text[..len] == Cut(text, precision)
  {
    len := 0;
    var count := precision;
    while count != 0 && len < |text|
      invariant len <= |text| && count == precision - len
      invariant precision >= 0 ==> len <= precision
      decreases |text| - len
    {
      count := count - 1;
      len := len + 1;
    }
  }

  /** One conversion: the arms of the switch that take an argument. */
  method EmitConversion(buf: array<char>, str: nat, conv: char, qualifier: char, f: Flags, width: int, precision: int, arg: Arg)
    returns (end: nat)
    requires Converts(conv) && Convert(conv, qualifier, f, width, precision, arg).Some?
    requires str + |Convert(conv, qualifier, f, width, precision, arg).value| <= buf.Length
    modifies buf
    ensures end == str + |Convert(conv, qualifier, f, width, precision, arg).value|
    ensures buf[..end] == old(buf[..str]) + Convert(conv, qualifier, f, width, precision, arg).value
    ensures forall k :: end <= k < buf.Length ==> buf[k] == old(buf[k])
  {
    hide NumberText, Padded, Cut;
    end := str;
    match conv {
      case 'c' =>
        end := PutPadded(buf, end, [(arg.bits % 0x100) as char], width, f.left);
      case 's' =>
        var text := if arg.NullStr? then "<NULL>" else arg.text;
        var len := TextLength(text, precision);
        end := PutPadded(buf, end, text[..len], width, f.left);
      case 'p' =>
        var size, g := width, f;
        if width == -1 {
          size := 8;
          g := f.(zeropad := true);
        }
        var r := Number(buf, end, AsLong(arg.address), 16, size, precision, g);
        end := r.value;
      case 'n' =>
      case _ =>
        end := EmitInteger(buf, end, conv, qualifier, f, width, precision, arg.bits);
    }
  }

  /** The integer conversions, from "set up the flags and break" on. */
  method EmitInteger(buf: array<char>, str: nat, conv: char, qualifier: char, f: Flags, width: int, precision: int, bits: Word)
    returns (end: nat)
    requires IsInteger(conv) && Convert(conv, qualifier, f, width, precision, Num(bits)).Some?
    requires str + |Convert(conv, qualifier, f, width, precision, Num(bits)).value| <= buf.Length
    modifies buf
    ensures end == str + |Convert(conv, qualifier, f, width, precision, Num(bits)).value|
    ensures buf[..end] == old(buf[..str]) + Convert(conv, qualifier, f, width, precision, Num(bits)).value
    ensures forall k :: end <= k < buf.Length ==> buf[k] == old(buf[k])
  {
    hide NumberText;
    var base, g := 10, f.(large := false, sign := false);
    match conv {
      case 'o' => base := 8;
      case 'X' => g := g.(large := true); base := 16;
      case 'x' => base := 16;
      case 'd' => g := g.(sign := true);
      case 'i' => g := g.(sign := true);
      case _ =>
    }
    var r := Number(buf, str, IntegerValue(bits, qualifier, g.sign), base, width, precision, g);
    end := r.value;
  }

  /** The default arm: nothing is converted. */
  method EmitUnconverted(buf: array<char>, str: nat, conv: char) returns (end: nat)
    requires str + |Unconverted(conv)| <= buf.Length
    modifies buf
    ensures end == str + |Unconverted(conv)|
    ensures buf[..end] == old(buf[..str]) + Unconverted(conv)
    ensures forall k :: end <= k < buf.Length ==> buf[k] == old(buf[k])
  {
    end := str;
    if conv != '%' {
      buf[end] := '%';
      end := end + 1;
    }
    ghost var middle := buf[..end];
    if conv != '\0' {
      buf[end] := conv;
      end := end + 1;
      assert buf[..end] == middle + [conv];
    }
  }

  /** Everything from a percent sign to the end of its conversion. */
  method EmitDirective(buf: array<char>, str: nat, fmt: seq<char>, start: nat, args: seq<Arg>, used0: nat)
    returns (end: nat, i: nat, used: nat, stores: seq<nat>)
    requires start <= |fmt| && '\0' !in fmt && used0 <= |args|
    requires RenderSpec(ParseSpec(fmt, start).0, args[used0..], str).Some?
    requires str + |RenderSpec(ParseSpec(fmt, start).0, args[used0..], str).value.text| <= buf.Length
    modifies buf
    ensures i == ParseSpec(fmt, start).1 && used0 <= used <= |args|
    ensures var out := RenderSpec(ParseSpec(fmt, start).0, args[used0..], str).value;
      && end == str + |out.text|
      && buf[..end] == old(buf[..str]) + out.text
      && args[used..] == out.rest && stores == out.stores
    ensures forall k :: end <= k < buf.Length ==> buf[k] == old(buf[k])
  {
    hide Convert, ParseFlags, ParseWidth, ParsePrecision, TakeWidth, TakePrecision, Unconverted;
    ghost var spec := ParseSpec(fmt, start).0;
    var flags, width, precision;
    flags, i := SkipFlags(fmt, start);
    flags, width, precision, used, i := Amounts(fmt, i, flags, args, used0);
    var qualifier := '\0';
    if At(fmt, i) == 'h' || At(fmt, i) == 'l' || At(fmt, i) == 'L' {
      qualifier := At(fmt, i);
      i := i + 1;
    }
    var conv := At(fmt, i);
    assert spec.conv == conv && spec.qualifier == qualifier;
    stores := [];
    if Converts(conv) {
      assert args[used..][0] == args[used] && args[used..][1..] == args[used + 1..];
      if conv == 'n' {
        stores := [str];
      }
      end := EmitConversion(buf, str, conv, qualifier, flags, width, precision, args[used]);
      used := used + 1;
    } else {
      end := EmitUnconverted(buf, str, conv);
    }
    if conv != '\0' {
      i := i + 1;
    }
  }

  /** What is still to print at i is what the whole call prints, less what is printed already. */
  ghost predicate Remaining(fmt: seq<char>, i: nat, rest: seq<Arg>, done: seq<char>, stores: seq<nat>, total: Out) {
    && i <= |fmt|
    && var out := Render(Parse(fmt, i), rest, |done|);
      && out.Some?
      && done + out.value.text == total.text && stores + out.value.stores == total.stores && out.value.rest == total.rest
  }

  /** Printing the first item keeps Remaining, and leaves room for the rest. */
  lemma Advance(fmt: seq<char>, i: nat, j: nat, item: Item, rest: seq<Arg>, done: seq<char>, stores: seq<nat>, total: Out)
    requires i < |fmt| && j <= |fmt| && Parse(fmt, i) == [item] + Parse(fmt, j)
    requires Remaining(fmt, i, rest, done, stores, total)
    ensures RenderItem(item, rest, |done|).Some?
    ensures item.Literal? ==> RenderItem(item, rest, |done|).value == Out([item.c], rest, [])
    ensures item.Directive? ==> RenderItem(item, rest, |done|) == RenderSpec(item.spec, rest, |done|)
    ensures var first := RenderItem(item, rest, |done|).value;
      && |done + first.text| <= |total.text|
      && Remaining(fmt, j, first.rest, done + first.text, stores + first.stores, total)
  {
    hide RenderSpec, Parse;
    assert ([item] + Parse(fmt, j))[1..] == Parse(fmt, j);
    var first := RenderItem(item, rest, |done|).value;
    var others := Render(Parse(fmt, j), first.rest, |done + first.text|).value;
    assert (done + first.text) + others.text == done + (first.text + others.text);
    assert (stores + first.stores) + others.stores == stores + (first.stores + others.stores);
  }

  lemma Started(fmt: seq<char>, args: seq<Arg>, total: Out)
    requires Render(Parse(fmt), args) == Some(total)
    ensures Remaining(fmt, 0, args, [], [], total)
  {
  }

  lemma ParseOne(fmt: seq<char>, i: nat)
    requires i < |fmt|
    ensures fmt[i] != '%' ==> Parse(fmt, i) == [Literal(fmt[i])] + Parse(fmt, i + 1)
    ensures fmt[i] == '%' ==> var r := ParseSpec(fmt, i + 1); Parse(fmt, i) == [Directive(r.0)] + Parse(fmt, r.1)
  {
  }

  /** vsprintf: the single pass prints what parsing the format and rendering its items gives, returns the
      length, ends the text with NUL, writes nothing behind that, and takes exactly the arguments the format asks for. */
  method Vsprintf(buf: array<char>, fmt: seq<char>, args: seq<Arg>) returns (n: nat, used: nat, stores: seq<nat>)
    requires '\0' !in fmt
    requires Render(Parse(fmt), args).Some? && |Render(Parse(fmt), args).value.text| < buf.Length
    modifies buf
    ensures var out := Render(Parse(fmt), args).value;
      && n == |out.text| && buf[..n] == out.text && buf[n] == '\0'
      && stores == out.stores
      && used <= |args| && args[used..] == out.rest
    ensures used == ArgCount(Parse(fmt))
    ensures forall k :: n < k < buf.Length ==> buf[k] == old(buf[k])
  {
    ghost var total := Render(Parse(fmt), args).value;
    var str: nat, i: nat := 0, 0;
    used, stores := 0, [];
    hide *;
    assert args[0..] == args && buf[..0] == [];
    Started(fmt, args, total);
    while i < |fmt|
      invariant i <= |fmt| && used <= |args| && str <= |total.text| < buf.Length
      invariant Remaining(fmt, i, args[used..], buf[..str], stores, total)
      invariant forall k :: str <= k < buf.Length ==> buf[k] == old(buf[k])
      decreases |fmt| - i
    {
      if fmt[i] != '%' {
        ParseOne(fmt, i);
        Advance(fmt, i, i + 1, Literal(fmt[i]), args[used..], buf[..str], stores, total);
        ghost var done := buf[..str];
        buf[str] := fmt[i];
        assert buf[..str + 1] == done + [fmt[i]];
        assert stores + [] == stores;
        str := str + 1;
        i := i + 1;
      } else {
        ghost var spec, j := ParseSpec(fmt, i + 1).0, ParseSpec(fmt, i + 1).1;
        ParseOne(fmt, i);
        Advance(fmt, i, j, Directive(spec), args[used..], buf[..str], stores, total);
        var more;
        str, i, used, more := EmitDirective(buf, str, fmt, i + 1, args, used);
        stores := stores + more;
      }
    }
    Finished(fmt, args[used..], buf[..str], stores, total);
    buf[str] := '\0';
    RenderTakes(Parse(fmt), args, 0);
    n := str;
  }

  lemma Finished(fmt: seq<char>, rest: seq<Arg>, done: seq<char>, stores: seq<nat>, total: Out)
    requires Remaining(fmt, |fmt|, rest, done, stores, total)
    ensures total == Out(done, rest, stores)
  {
  }
}
