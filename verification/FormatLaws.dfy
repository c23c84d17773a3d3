// What each conversion of vsprintf prints, said of the format's text and of the output's text.

module FormatLaws {
  import opened Machine
  import opened Numbers
  import opened Strtoul
  import opened NumberLaws
  import opened Format

  // ---- The text of a directive ----

  predicate FlagText(fl: seq<char>) {
    forall k :: 0 <= k < |fl| ==> fl[k] == '-' || fl[k] == '+' || fl[k] == ' ' || fl[k] == '#' || fl[k] == '0'
  }

  predicate Decimal(w: seq<char>) {
    forall k :: 0 <= k < |w| ==> '0' <= w[k] <= '9'
  }

  /** A width or precision: nothing, digits or a star. */
  predicate AmountText(w: seq<char>) {
    w == "*" || Decimal(w)
  }

  predicate Qualifier(q: seq<char>) {
    q == "" || q == "h" || q == "l" || q == "L"
  }

  /** A character that can be read as nothing but the conversion. */
  predicate Ends(c: char) {
    !FlagText([c]) && !Decimal([c]) && c != '*' && c != '.' && c != 'h' && c != 'l' && c != 'L' && c != '\0'
  }

  /** A directive without its percent sign. The width begins with no zero: that would be a flag. */
  predicate Directs(fl: seq<char>, w: seq<char>, p: seq<char>, q: seq<char>, c: char) {
    FlagText(fl) && AmountText(w) && (w != "" ==> w[0] != '0') && AmountText(p) && Qualifier(q) && Ends(c)
  }

  function DirectiveText(fl: seq<char>, w: seq<char>, dot: bool, p: seq<char>, q: seq<char>, c: char): seq<char> {
    fl + w + DotText(dot, p) + q + [c]
  }

  function DotText(dot: bool, p: seq<char>): seq<char> {
    if dot then "." + p else ""
  }

  function AmountOf(w: seq<char>): Amount
    requires AmountText(w)
  {
    if w == "" then Absent else if w == "*" then FromArg else
      DenotedNat(w);
      Given(Denoted(w, 10))
  }

  /** The flags that the characters of fl set. */
  function FlagsOf(fl: seq<char>): Flags {
    Flags('0' in fl, false, '+' in fl, ' ' in fl, '-' in fl, '#' in fl, false)
  }

  function SpecOf(fl: seq<char>, w: seq<char>, dot: bool, p: seq<char>, q: seq<char>, c: char): Spec
    requires Directs(fl, w, p, q, c)
  {
    Spec(FlagsOf(fl), AmountOf(w), if !dot then Absent else if p == "" then Given(0) else AmountOf(p),
         if q == "" then '\0' else q[0], c)
  }

  lemma {:induction false} DenotedNat(w: seq<char>)
    requires Decimal(w)
    ensures Denoted(w, 10) >= 0 && Denoted(w, 10) == Value(w, 10)
    decreases |w|
  {
    if w != [] {
      DenotedNat(w[..|w| - 1]);
    }
  }

  /** An amount at i, with nothing behind it that belongs to it. */
  lemma AmountAt(fmt: seq<char>, i: nat, w: seq<char>)
    requires i + |w| < |fmt| && fmt[i..i + |w|] == w && AmountText(w)
    requires w != "*" ==> !Decimal([fmt[i + |w|]])
    requires w == "" ==> fmt[i] != '*'
    ensures ParseWidth(fmt, i) == (AmountOf(w), i + |w|)
  {
    assert w != "" ==> fmt[i] == w[0];
    if w != "" && w != "*" {
      forall k | i <= k < i + |w|
        ensures IsDigit(fmt[k])
      {
        assert fmt[k] == w[k - i];
      }
      DigitsEndIs(fmt, i, i + |w|);
      DenotedNat(w);
    } else if w == "" {
      assert IsDigit(fmt[i]) ==> Decimal([fmt[i]]);
    }
  }

  lemma FlagsAt(fmt: seq<char>, i: nat, fl: seq<char>)
    requires i + |fl| < |fmt| && fmt[i..i + |fl|] == fl && FlagText(fl) && !FlagText([fmt[i + |fl|]])
    ensures ParseFlags(fmt, i) == (FlagsOf(fl), i + |fl|)
  {
    forall k | i <= k < i + |fl|
      ensures IsFlag(fmt[k])
    {
      assert fmt[k] == fl[k - i];
    }
    NotFlag(fmt[i + |fl|]);
    FlagsEndIs(fmt, i, i + |fl|);
  }

  lemma NotFlag(c: char)
    requires !FlagText([c])
    ensures !IsFlag(c)
  {
  }

  lemma PrecisionAt(fmt: seq<char>, i: nat, dot: bool, p: seq<char>)
    requires AmountText(p) && var m := DotText(dot, p);
      && i + |m| < |fmt| && fmt[i..i + |m|] == m
      && (if dot then (p != "*" ==> !Decimal([fmt[i + |m|]])) && (p == "" ==> fmt[i + |m|] != '*') else fmt[i] != '.')
    ensures ParsePrecision(fmt, i)
      == (if !dot then Absent else if p == "" then Given(0) else AmountOf(p), i + |DotText(dot, p)|)
  {
    if dot {
      var m := "." + p;
      assert fmt[i] == m[0];
      assert fmt[i + 1..i + 1 + |p|] == m[1..] == p;
      AmountAt(fmt, i + 1, p);
    }
  }

  /** Main result: every directive is parsed into its flags, width, precision, qualifier and conversion. */
  lemma ParsesDirective(pre: seq<char>, fl: seq<char>, w: seq<char>, dot: bool, p: seq<char>, q: seq<char>, c: char, rest: seq<char>)
    requires Directs(fl, w, p, q, c)
    ensures var d := DirectiveText(fl, w, dot, p, q, c);
      && |pre| <= |pre + d + rest|
      && ParseSpec(pre + d + rest, |pre|) == (SpecOf(fl, w, dot, p, q, c), |pre| + |d|)
  {
    var fmt := pre + DirectiveText(fl, w, dot, p, q, c) + rest;
    var i := |pre|;
    var j, k, l := i + |fl|, i + |fl| + |w|, i + |fl| + |w| + |DotText(dot, p)|;
    hide *;
    DirectsFacts(fl, w, p, q, c);
    Slices(pre, fl, w, dot, p, q, c, rest);
    FirstChars(w, dot, p, q, c, fmt, j, k, l);
    FlagsAt(fmt, i, fl);
    AmountAt(fmt, j, w);
    PrecisionAt(fmt, k, dot, p);
    SpecFrom(fmt, i, j, k, l, fl, w, dot, p, q, c);
  }

  lemma DirectsFacts(fl: seq<char>, w: seq<char>, p: seq<char>, q: seq<char>, c: char)
    requires Directs(fl, w, p, q, c)
    ensures FlagText(fl) && AmountText(w) && (w != "" ==> w[0] != '0') && AmountText(p) && Qualifier(q) && Ends(c)
    ensures c != 'h' && c != 'l' && c != 'L'
  {
  }

  /** Where the parts of a directive stand. */
  lemma Slices(pre: seq<char>, fl: seq<char>, w: seq<char>, dot: bool, p: seq<char>, q: seq<char>, c: char, rest: seq<char>)
    ensures var fmt := pre + DirectiveText(fl, w, dot, p, q, c) + rest;
      var i := |pre|;
      var j := i + |fl|;
      var k := j + |w|;
      var l := k + |DotText(dot, p)|;
      && l + |q| + 1 == |pre| + |DirectiveText(fl, w, dot, p, q, c)| <= |fmt|
      && fmt[i..j] == fl && fmt[j..k] == w && fmt[k..l] == DotText(dot, p) && fmt[l..l + |q|] == q && fmt[l + |q|] == c
  {
    hide DotText;
  }

  /** The characters at which one part ends and the next begins. */
  lemma FirstChars(w: seq<char>, dot: bool, p: seq<char>, q: seq<char>, c: char, fmt: seq<char>, j: nat, k: nat, l: nat)
    requires AmountText(w) && (w != "" ==> w[0] != '0') && Qualifier(q) && Ends(c)
    requires k == j + |w| && l == k + |DotText(dot, p)| && l + |q| < |fmt|
    requires fmt[j..k] == w && fmt[k..l] == DotText(dot, p) && fmt[l..l + |q|] == q && fmt[l + |q|] == c
    ensures !FlagText([fmt[j]]) && !Decimal([fmt[k]]) && (w == "" ==> fmt[j] != '*')
    ensures !Decimal([fmt[l]]) && fmt[l] != '*' && (!dot ==> fmt[k] != '.')
  {
    assert w != "" ==> fmt[j] == fmt[j..k][0];
    assert dot ==> fmt[k] == fmt[k..l][0] == '.';
    assert q != "" ==> fmt[l] == fmt[l..l + |q|][0];
    AfterDirective(w, dot, p, q, c, fmt[j], fmt[k], fmt[l]);
  }

  lemma SpecFrom(fmt: seq<char>, i: nat, j: nat, k: nat, l: nat, fl: seq<char>, w: seq<char>, dot: bool, p: seq<char>, q: seq<char>, c: char)
    requires Directs(fl, w, p, q, c) && i <= j <= k <= l && l + |q| < |fmt| && fmt[l..l + |q|] == q && fmt[l + |q|] == c
    requires ParseFlags(fmt, i) == (FlagsOf(fl), j) && ParseWidth(fmt, j) == (AmountOf(w), k)
    requires ParsePrecision(fmt, k) == (if !dot then Absent else if p == "" then Given(0) else AmountOf(p), l)
    requires c != 'h' && c != 'l' && c != 'L'
    ensures ParseSpec(fmt, i) == (SpecOf(fl, w, dot, p, q, c), l + |q| + 1)
  {
    hide ParseFlags, ParseWidth, ParsePrecision, FlagsOf, AmountOf, AmountText, FlagText, Ends;
    assert q != "" ==> fmt[l] == fmt[l..l + |q|][0];
  }

  /** None of the parts' first characters can belong to the part before. */
  lemma AfterDirective(w: seq<char>, dot: bool, p: seq<char>, q: seq<char>, c: char, a: char, b: char, e: char)
    requires AmountText(w) && (w != "" ==> w[0] != '0') && Qualifier(q) && Ends(c)
    requires e == if q != "" then q[0] else c
    requires b == if dot then '.' else e
    requires a == if w != "" then w[0] else b
    ensures !FlagText([a]) && !Decimal([b]) && (w == "" ==> a != '*') && !Decimal([e]) && e != '*' && (!dot ==> b != '.')
  {
    assert !Decimal([e]) && e != '*' && e != '.' && !FlagText([e]) by {
      assert q != "" ==> [e][0] == q[0];
    }
    assert [b][0] == b && [a][0] == a;
    assert w != "" && w != "*" ==> '0' <= w[0] <= '9';
  }

  // ---- One directive on its own ----

  /** A format that is one directive without stars: its output is the conversion's. */
  lemma OneDirective(fl: seq<char>, w: seq<char>, dot: bool, p: seq<char>, q: seq<char>, c: char, arg: Arg, t: seq<char>)
    requires Directs(fl, w, p, q, c) && w != "*" && p != "*" && Converts(c) && c != 'n'
    requires Convert(c, if q == "" then '\0' else q[0], FlagsOf(fl), WidthOf(w), PrecisionOf(dot, p), arg) == Some(t)
    ensures Render(Parse("%" + DirectiveText(fl, w, dot, p, q, c)), [arg]) == Some(Out(t, [], []))
  {
    var d := DirectiveText(fl, w, dot, p, q, c);
    var spec := SpecOf(fl, w, dot, p, q, c);
    SpecHas(fl, w, dot, p, q, c);
    hide *;
    DirectsFacts(fl, w, p, q, c);
    ParsesDirective("%", fl, w, dot, p, q, c, "");
    assert "%" + d + "" == "%" + d;
    AmountsTaken(spec, w, dot, p, q, c, arg, t);
    OnlyDirective("%" + d, spec);
    RenderOne(spec, [arg], Out(t, [], []));
  }

  lemma RenderOne(spec: Spec, args: seq<Arg>, out: Out)
    requires RenderItem(Directive(spec), args, 0) == Some(out)
    ensures Render([Directive(spec)], args) == Some(out)
  {
    hide RenderItem;
    NothingLeftToPrint(out.rest, |out.text|);
    assert [Directive(spec)][1..] == [];
    assert out.text + "" == out.text && out.stores + [] == out.stores;
  }

  lemma SpecHas(fl: seq<char>, w: seq<char>, dot: bool, p: seq<char>, q: seq<char>, c: char)
    requires Directs(fl, w, p, q, c)
    ensures AmountText(w) && AmountText(p)
    ensures var spec := SpecOf(fl, w, dot, p, q, c);
      && spec.flags == FlagsOf(fl) && spec.width == AmountOf(w) && spec.conv == c
      && spec.precision == (if !dot then Absent else if p == "" then Given(0) else AmountOf(p))
      && spec.qualifier == if q == "" then '\0' else q[0]
  {
    hide AmountOf, FlagsOf, AmountText;
  }

  lemma OnlyDirective(fmt: seq<char>, spec: Spec)
    requires |fmt| >= 1 && fmt[0] == '%' && ParseSpec(fmt, 1) == (spec, |fmt|)
    ensures Parse(fmt) == [Directive(spec)]
  {
    ParseOne(fmt, 0);
  }

  lemma AmountsTaken(spec: Spec, w: seq<char>, dot: bool, p: seq<char>, q: seq<char>, c: char, arg: Arg, t: seq<char>)
    requires AmountText(w) && AmountText(p) && w != "*" && p != "*" && Converts(c) && c != 'n'
    requires spec.width == AmountOf(w) && spec.precision == (if !dot then Absent else if p == "" then Given(0) else AmountOf(p))
    requires spec.conv == c && Convert(c, spec.qualifier, spec.flags, WidthOf(w), PrecisionOf(dot, p), arg) == Some(t)
    ensures RenderItem(Directive(spec), [arg], 0) == Some(Out(t, [], []))
  {
    hide Convert, Converts, Denoted, AmountText;
    assert [arg][1..] == [];
  }

  /** -1 for no width, and for no precision; a period alone is precision 0. */
  function WidthOf(w: seq<char>): int {
    if w == "" then -1 else Denoted(w, 10)
  }

  function PrecisionOf(dot: bool, p: seq<char>): int {
    if !dot then -1 else if p == "" then 0 else Denoted(p, 10)
  }

  // ---- Integers ----

  /** The value an integer conversion prints: d and i take it signed, the others not, and an h before them takes
      16 of the 32 bits. */
  predicate Meant(bits: Word, q: seq<char>, c: char, v: int) {
    if q == "h" then
      v % 0x1_0000 == bits % 0x1_0000 && (if c == 'd' || c == 'i' then -0x8000 <= v < 0x8000 else 0 <= v < 0x1_0000)
    else
      v % 0x1_0000_0000 == bits && (if c == 'd' || c == 'i' then -0x8000_0000 <= v < 0x8000_0000 else 0 <= v < 0x1_0000_0000)
  }

  lemma MeantIs(bits: Word, q: seq<char>, c: char, v: int)
    requires Meant(bits, q, c, v) && Qualifier(q)
    ensures var n: int := IntegerValue(bits, if q == "" then '\0' else q[0], c == 'd' || c == 'i');
      && (c == 'd' || c == 'i' ==> n == v)
      && (c != 'd' && c != 'i' ==> v == if n >= 0 then n else n + 0x1_0000_0000)
  {
    LowPart(v, bits, 0x1_0000);
  }

  lemma LowPart(v: int, bits: int, m: int)
    requires m > 0
    ensures -m / 2 <= v < 0 ==> v % m == v + m
    ensures 0 <= v < m ==> v % m == v
  {
    if -m / 2 <= v < 0 {
      assert v == -1 * m + (v + m);
    }
  }

  lemma SameMarks(t: seq<char>, f: Flags, g: Flags, size: int, precision: int, base: int, value: int, signed: bool,
                  negative: bool, large: bool)
    requires Prints(t, f, size, precision, base, value, signed, negative, large)
    requires g.left == f.left && g.zeropad == f.zeropad && g.plus == f.plus && g.space == f.space && g.special == f.special
    ensures Prints(t, g, size, precision, base, value, signed, negative, large)
  {
    hide Denoted, GoodDigit, SignOf, PrefixOf;
    var at, first, stop :| Laid(t, f, size, precision, base, value, signed, negative, large, at, first, stop);
    assert Laid(t, g, size, precision, base, value, signed, negative, large, at, first, stop);
  }

  /** What the conversion of an integer prints: %d and %i signed and decimal, %u unsigned and decimal, %o octal,
      %x and %X hexadecimal, with capital letters for X alone. */
  lemma ConvertsInteger(c: char, q: seq<char>, f: Flags, width: int, precision: int, bits: Word, v: int)
    requires (c == 'd' || c == 'i' || c == 'u' || c == 'o' || c == 'x' || c == 'X') && Qualifier(q) && Meant(bits, q, c, v)
    ensures var o := Convert(c, if q == "" then '\0' else q[0], f, width, precision, Num(bits));
      o.Some? && Prints(o.value, f, width, precision, if c == 'o' then 8 else if c == 'x' || c == 'X' then 16 else 10,
                        if v < 0 then -v else v, c == 'd' || c == 'i', v < 0, c == 'X')
  {
    MeantIs(bits, q, c, v);
    var g := IntegerFlags(f, c);
    var n := IntegerValue(bits, if q == "" then '\0' else q[0], g.sign);
    var base := if c == 'o' then 8 else if c == 'x' || c == 'X' then 16 else 10;
    ConvertIs(c, if q == "" then '\0' else q[0], f, width, precision, bits);
    NumberPrints(n, base, width, precision, g);
    hide NumberText, Prints, IntegerValue, Convert;
    SignIrrelevant(NumberText(n, base, width, precision, g), g, width, precision, base, v, n, c);
    SameMarks(NumberText(n, base, width, precision, g), g, f, width, precision, base, if v < 0 then -v else v,
              c == 'd' || c == 'i', v < 0, c == 'X');
  }

  lemma ConvertIs(c: char, q: char, f: Flags, width: int, precision: int, bits: Word)
    requires c == 'd' || c == 'i' || c == 'u' || c == 'o' || c == 'x' || c == 'X'
    ensures var g := IntegerFlags(f, c);
      Convert(c, q, f, width, precision, Num(bits))
        == Some(NumberText(IntegerValue(bits, q, g.sign), if c == 'o' then 8 else if c == 'x' || c == 'X' then 16 else 10, width, precision, g))
  {
    hide NumberText, IntegerValue, Padded, Cut;
  }

  /** Without a sign it does not matter whether the number is negative. */
  lemma SignIrrelevant(t: seq<char>, g: Flags, size: int, precision: int, base: int, v: int, n: Long, c: char)
    requires var k: int := n;
      && Prints(t, g, size, precision, base, if k >= 0 then k else if g.sign then -k else k + 0x1_0000_0000, g.sign, k < 0, g.large)
      && (if g.sign then k == v else v == if k >= 0 then k else k + 0x1_0000_0000)
    requires g.sign == (c == 'd' || c == 'i') && g.large == (c == 'X')
    ensures Prints(t, g, size, precision, base, if v < 0 then -v else v, c == 'd' || c == 'i', v < 0, c == 'X')
  {
    hide Denoted, GoodDigit, PrefixOf;
    var k: int := n;
    var value := if k >= 0 then k else if g.sign then -k else k + 0x1_0000_0000;
    var at, first, stop :| Laid(t, g, size, precision, base, value, g.sign, k < 0, g.large, at, first, stop);
    assert Laid(t, g, size, precision, base, if v < 0 then -v else v, c == 'd' || c == 'i', v < 0, c == 'X', at, first, stop);
  }

  /** Main result: what a format that is one integer directive prints, for every 32-bit argument and all flags,
      widths and precisions. */
  lemma IntegerOutput(fl: seq<char>, w: seq<char>, dot: bool, p: seq<char>, q: seq<char>, c: char, bits: Word, v: int)
    requires Directs(fl, w, p, q, c) && w != "*" && p != "*" && Meant(bits, q, c, v)
    requires c == 'd' || c == 'i' || c == 'u' || c == 'o' || c == 'x' || c == 'X'
    ensures var out := Render(Parse("%" + DirectiveText(fl, w, dot, p, q, c)), [Num(bits)]);
      && out.Some? && out.value.rest == [] && out.value.stores == []
      && Prints(out.value.text, FlagsOf(fl), WidthOf(w), PrecisionOf(dot, p),
                if c == 'o' then 8 else if c == 'x' || c == 'X' then 16 else 10,
                if v < 0 then -v else v, c == 'd' || c == 'i', v < 0, c == 'X')
  {
    ConvertsInteger(c, q, FlagsOf(fl), WidthOf(w), PrecisionOf(dot, p), bits, v);
    assert Converts(c);
    var t := Convert(c, if q == "" then '\0' else q[0], FlagsOf(fl), WidthOf(w), PrecisionOf(dot, p), Num(bits)).value;
    hide Convert, Parse, Render, Prints, DirectiveText, FlagsOf, WidthOf, PrecisionOf;
    OneDirective(fl, w, dot, p, q, c, Num(bits), t);
  }

  /** The digits of n, without a leading zero. */
  predicate Numeral(ds: seq<char>, base: int, large: bool, n: int) {
    ds != "" && (forall k :: 0 <= k < |ds| ==> GoodDigit(ds[k], base, large)) && Denoted(ds, base) == n && (ds[0] == '0' ==> ds == "0")
  }

  /** The plain forms: a '-' if the value is negative, then its digits and nothing else, without a leading zero. */
  lemma PlainInteger(q: seq<char>, c: char, bits: Word, v: int)
    requires Qualifier(q) && Meant(bits, q, c, v) && (c == 'd' || c == 'i' || c == 'u' || c == 'o' || c == 'x' || c == 'X')
    ensures var out := Render(Parse("%" + q + [c]), [Num(bits)]);
      && out.Some?
      && var t := out.value.text;
         if v < 0 then t != "" && t[0] == '-' && Numeral(t[1..], if c == 'o' then 8 else if c == 'x' || c == 'X' then 16 else 10, c == 'X', -v)
         else Numeral(t, if c == 'o' then 8 else if c == 'x' || c == 'X' then 16 else 10, c == 'X', v)
  {
    hide *;
    IntegerLetter(c);
    LetterEnds(c);
    EmptyDirective(q, c);
    MeantSign(bits, q, c, v);
    IntegerOutput("", "", false, "", q, c, bits, v);
    PlainPrints(Render(Parse("%" + q + [c]), [Num(bits)]).value.text,
                if c == 'o' then 8 else if c == 'x' || c == 'X' then 16 else 10, v, c == 'd' || c == 'i', c == 'X');
  }

  /** Nothing between the percent sign and the qualifier. */
  lemma EmptyDirective(q: seq<char>, c: char)
    requires Qualifier(q) && Ends(c)
    ensures Directs("", "", "", q, c) && FlagsOf("") == NO_FLAGS && WidthOf("") == -1 && PrecisionOf(false, "") == -1
    ensures "%" + DirectiveText("", "", false, "", q, c) == "%" + q + [c]
  {
    hide Ends, Qualifier;
  }

  lemma LetterEnds(c: char)
    requires c in "cspnoxXdiu"
    ensures Ends(c) && Converts(c)
  {
    assert [c][0] == c;
  }

  lemma IntegerLetter(c: char)
    requires c == 'd' || c == 'i' || c == 'u' || c == 'o' || c == 'x' || c == 'X'
    ensures c in "cspnoxXdiu"
  {
  }

  lemma MeantSign(bits: Word, q: seq<char>, c: char, v: int)
    requires Meant(bits, q, c, v)
    ensures v >= 0 || c == 'd' || c == 'i'
  {
  }

  lemma PlainPrints(t: seq<char>, base: int, v: int, signed: bool, large: bool)
    requires Prints(t, NO_FLAGS, -1, -1, base, if v < 0 then -v else v, signed, v < 0, large) && (v < 0 ==> signed)
    ensures if v < 0 then t != "" && t[0] == '-' && Numeral(t[1..], base, large, -v) else Numeral(t, base, large, v)
  {
    hide Denoted, GoodDigit;
    var at, first, stop :| Laid(t, NO_FLAGS, -1, -1, base, if v < 0 then -v else v, signed, v < 0, large, at, first, stop);
    assert at == 0 && stop == |t|;
    assert t[0..first] == if v < 0 then "-" else "";
    assert v < 0 ==> t[0..first][0] == t[0];
    assert t[first..stop] == if v < 0 then t[1..] else t;
  }

  // ---- Pointers ----

  /** %p prints the address as lower-case hexadecimal, eight columns wide and filled with zeros unless a width
      is given. */
  lemma ConvertsPointer(q: char, f: Flags, width: int, precision: int, address: Word)
    requires !f.sign && !f.large
    ensures var o := Convert('p', q, f, width, precision, Ptr(address));
      o.Some? && Prints(o.value, if width == -1 then f.(zeropad := true) else f, if width == -1 then 8 else width, precision,
                        16, address, false, false, false)
  {
    var n: Long := AsLong(address);
    var g, size := if width == -1 then f.(zeropad := true) else f, if width == -1 then 8 else width;
    NumberPrints(n, 16, size, precision, g);
    var t := NumberText(n, 16, size, precision, g);
    hide NumberText, Prints;
    SignIrrelevant(t, g, size, precision, 16, address, n, 'p');
    assert Convert('p', q, f, width, precision, Ptr(address)) == Some(t);
  }

  function Hex(k: nat): int {
    if k == 0 then 1 else 16 * Hex(k - 1)
  }

  lemma {:induction false} HexDigits(n: nat, k: nat)
    requires n < Hex(k) && k >= 1
    ensures |Digits(n, 16, false)| <= k
  {
    if n >= 16 {
      assert Hex(1) == 16 && n / 16 < Hex(k - 1);
      HexDigits(n / 16, k - 1);
    }
  }

  lemma EightHexDigits(n: Word)
    ensures |Digits(n, 16, false)| <= 8
  {
    assert Hex(2) == 256 && Hex(4) == 0x1_0000;
    assert Hex(6) == 0x100_0000 && Hex(8) == 0x1_0000_0000;
    HexDigits(n, 8);
  }

  /** Main result: plain %p is eight hexadecimal digits that denote the address. */
  lemma PlainPointer(address: Word)
    ensures var out := Render(Parse("%p"), [Ptr(address)]);
      && out.Some?
      && var t := out.value.text;
         |t| == 8 && (forall k :: 0 <= k < 8 ==> '0' <= t[k] <= '9' || 'a' <= t[k] <= 'f') && Denoted(t, 16) == address
  {
    ConvertsPointer('\0', NO_FLAGS, -1, -1, address);
    var t := Convert('p', '\0', NO_FLAGS, -1, -1, Ptr(address)).value;
    LetterEnds('p');
    EmptyDirective("", 'p');
    hide Parse, Render, Convert, Prints, Digits, Denoted;
    assert "%" + "" + ['p'] == "%p";
    OneDirective("", "", false, "", "", 'p', Ptr(address), t);
    PointerDigits(t, NO_FLAGS.(zeropad := true), address);
  }

  lemma PointerDigits(t: seq<char>, f: Flags, address: Word)
    requires Prints(t, f, 8, -1, 16, address, false, false, false) && f.zeropad && !f.left && !f.special
    ensures |t| == 8 && (forall k :: 0 <= k < 8 ==> '0' <= t[k] <= '9' || 'a' <= t[k] <= 'f') && Denoted(t, 16) == address
  {
    var at, first, stop :| Laid(t, f, 8, -1, 16, address, false, false, false, at, first, stop);
    hide Denoted;
    assert at == 0 && stop == |t| && |t[at..first]| == 0;
    assert t[first..stop] == t;
    EightHexDigits(address);
    DigitsDenote(address, 16, false);
    hide Digits;
    if |t| > 8 {
      LongerHasZero(Digits(address, 16, false), t, 16, false);
    }
  }

  // ---- Characters and strings ----

  /** The text with spaces to the width, on the right if and only if the field is left-adjusted. */
  predicate PaddedTo(t: seq<char>, body: seq<char>, width: int, left: bool) {
    && |t| == (if width > |body| then width else |body|)
    && (if left then t[..|body|] == body && forall k :: |body| <= k < |t| ==> t[k] == ' '
        else t[|t| - |body|..] == body && forall k :: 0 <= k < |t| - |body| ==> t[k] == ' ')
  }

  lemma PaddedIs(body: seq<char>, width: int, left: bool)
    ensures PaddedTo(Padded(body, width, left), body, width, left)
  {
  }

  /** %c prints the low byte of its argument, %s the string or as much of it as the precision allows, and
      "<NULL>" for none. */
  lemma ConvertsText(q: char, f: Flags, width: int, precision: int, bits: Word, text: seq<char>)
    ensures var o := Convert('c', q, f, width, precision, Num(bits));
      o.Some? && PaddedTo(o.value, [(bits % 256) as char], width, f.left)
    ensures var o := Convert('s', q, f, width, precision, Str(text));
      o.Some? && PaddedTo(o.value, text[..if 0 <= precision < |text| then precision else |text|], width, f.left)
    ensures var o := Convert('s', q, f, width, precision, NullStr);
      o.Some? && PaddedTo(o.value, "<NULL>"[..if 0 <= precision < 6 then precision else 6], width, f.left)
  {
    hide Padded, PaddedTo;
    PaddedIs([(bits % 256) as char], width, f.left);
    PaddedIs(text[..if 0 <= precision < |text| then precision else |text|], width, f.left);
    PaddedIs("<NULL>"[..if 0 <= precision < 6 then precision else 6], width, f.left);
    assert text[..|text|] == text && "<NULL>"[..6] == "<NULL>";
  }

  // ---- Stars, %n, and what converts nothing ----

  /** Main result: a star takes its number from the arguments, the width's before the precision's and both before
      the value; a negative width is the width on the left, a negative precision is 0. */
  lemma StarsTaken(spec: Spec, a: Word, b: Word, arg: Arg, rest: seq<Arg>, pos: nat, v: int, u: int, t: seq<char>)
    requires spec.width == FromArg && spec.precision == FromArg && Converts(spec.conv) && spec.conv != 'n'
    requires v % 0x1_0000_0000 == a && -0x8000_0000 <= v < 0x8000_0000
    requires u % 0x1_0000_0000 == b && -0x8000_0000 <= u < 0x8000_0000
    requires Convert(spec.conv, spec.qualifier, if v < 0 then spec.flags.(left := true) else spec.flags,
                     if v < 0 then -v else v, if u < 0 then 0 else u, arg) == Some(t)
    ensures RenderSpec(spec, [Num(a), Num(b), arg] + rest, pos) == Some(Out(t, rest, []))
  {
    hide Convert, Converts;
    LowPart(v, a, 0x1_0000_0000);
    LowPart(u, b, 0x1_0000_0000);
    var args := [Num(a), Num(b), arg] + rest;
    assert args[1..] == [Num(b), arg] + rest;
    assert args[1..][1..] == [arg] + rest;
    assert args[1..][1..][1..] == rest;
  }

  /** A star for the width alone, or for the precision alone. */
  lemma OneStarTaken(spec: Spec, a: Word, arg: Arg, rest: seq<Arg>, pos: nat, v: int, t: seq<char>)
    requires spec.width.FromArg? != spec.precision.FromArg? && Converts(spec.conv) && spec.conv != 'n'
    requires v % 0x1_0000_0000 == a && -0x8000_0000 <= v < 0x8000_0000
    requires Convert(spec.conv, spec.qualifier, if spec.width.FromArg? && v < 0 then spec.flags.(left := true) else spec.flags,
                     if spec.width.FromArg? then (if v < 0 then -v else v) else if spec.width.Given? then spec.width.n else -1,
                     if spec.precision.FromArg? then (if v < 0 then 0 else v) else if spec.precision.Given? then spec.precision.n else -1,
                     arg) == Some(t)
    ensures RenderSpec(spec, [Num(a), arg] + rest, pos) == Some(Out(t, rest, []))
  {
    hide Convert, Converts;
    LowPart(v, a, 0x1_0000_0000);
    var args := [Num(a), arg] + rest;
    assert args[1..] == [arg] + rest;
    assert args[1..][1..] == rest;
  }

  /** %n prints nothing and stores how many characters stand in front of it. */
  lemma CountStored(flags: Flags, q: char, rest: seq<Arg>, pos: nat)
    ensures RenderSpec(Spec(flags, Absent, Absent, q, 'n'), [Target] + rest, pos) == Some(Out("", rest, [pos]))
  {
    assert ([Target] + rest)[1..] == rest;
  }

  /** %% is a percent sign, and a directive that ends in any other character that converts nothing is a percent
      sign and that character. */
  lemma NothingConverted(fl: seq<char>, w: seq<char>, dot: bool, p: seq<char>, q: seq<char>, c: char)
    requires Directs(fl, w, p, q, c) && w != "*" && p != "*"
    requires c !in "cspnoxXdiu"
    ensures Render(Parse("%" + DirectiveText(fl, w, dot, p, q, c)), []) == Some(Out(if c == '%' then "%" else ['%', c], [], []))
  {
    var d := DirectiveText(fl, w, dot, p, q, c);
    var spec := SpecOf(fl, w, dot, p, q, c);
    SpecHas(fl, w, dot, p, q, c);
    NotConverting(spec, w, p, dot);
    hide *;
    ParsesDirective("%", fl, w, dot, p, q, c, "");
    assert "%" + d + "" == "%" + d;
    OnlyDirective("%" + d, spec);
    RenderOne(spec, [], Out(if c == '%' then "%" else ['%', c], [], []));
  }

  lemma NotConverting(spec: Spec, w: seq<char>, p: seq<char>, dot: bool)
    requires spec.conv !in "cspnoxXdiu" && spec.conv != '\0'
    requires AmountText(w) && AmountText(p) && w != "*" && p != "*" && spec.width == AmountOf(w)
    requires spec.precision == (if !dot then Absent else if p == "" then Given(0) else AmountOf(p))
    ensures RenderItem(Directive(spec), [], 0) == Some(Out(if spec.conv == '%' then "%" else ['%', spec.conv], [], []))
  {
    hide Convert, Denoted;
    var all := "cspnoxXdiu";
    assert all[0] == 'c' && all[1] == 's' && all[2] == 'p' && all[3] == 'n' && all[4] == 'o';
    assert all[5] == 'x' && all[6] == 'X' && all[7] == 'd' && all[8] == 'i' && all[9] == 'u';
    assert !Converts(spec.conv);
    assert Unconverted(spec.conv) == if spec.conv == '%' then "%" else ['%', spec.conv];
    hide Converts, Unconverted;
  }
}
