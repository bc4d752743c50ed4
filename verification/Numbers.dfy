/** The grammar of the numbers the kernel's parsers accept, and the decimal
    parsers of wgtypes/validate.go proved equal to it. */
module Numbers {
  import opened Types
  import opened Text

  /** An optional plus sign, at least one digit, an optional final newline. */
  datatype Number = Number(plus: bool, digits: string, newline: bool) {
    predicate WellFormed() {
      digits != "" && AllDigits(digits)
    }

    function Text(): string {
      (if plus then "+" else "") + digits + (if newline then "\n" else "")
    }

    function Value(): nat
      requires WellFormed()
    {
      DecValue(digits)
    }
  }

  /** What is left of a number text once newline and sign are trimmed. */
  function Bare(s: string): string {
    TrimPrefix(TrimSuffix(s, '\n'), '+')
  }

  /** parseKernelUint32: what kstrtouint(s, 10) accepts. */
  function ParseKernelUint32(s: string): Option<nat> {
    ParseUint(Bare(s), MAX_UINT32)
  }

  lemma {:induction false} Trimmed(t: string, c: char)
    requires t != ""
    ensures t[|t| - 1] != c ==> TrimSuffix(t, c) == t && TrimSuffix(t + [c], c) == t
    ensures t[0] != c ==> TrimPrefix(t, c) == t && TrimPrefix([c] + t, c) == t
  {}

  lemma {:induction false} BareOfNumber(num: Number)
    requires num.WellFormed()
    ensures Bare(num.Text()) == num.digits
    ensures TrimSuffix(num.Text(), '\n') == (if num.plus then "+" else "") + num.digits
  {
    hide TrimSuffix, TrimPrefix;
    var t := (if num.plus then "+" else "") + num.digits;
    assert IsDigit(num.digits[0]) && IsDigit(num.digits[|num.digits| - 1]);
    assert t[|t| - 1] == num.digits[|num.digits| - 1];
    Trimmed(t, '\n');
    Trimmed(num.digits, '+');
    assert t + "" == t && "" + num.digits == num.digits;
  }

  /** The number a text spells, if any. */
  function NumberOf(s: string): Number {
    var newline := s != "" && s[|s| - 1] == '\n';
    var t := TrimSuffix(s, '\n');
    Number(t != "" && t[0] == '+', Bare(s), newline)
  }

  lemma {:induction false} NumberOfText(s: string)
    ensures NumberOf(s).Text() == s
  {}

  lemma {:induction false} NumberOfSpelling(num: Number)
    requires num.WellFormed()
    ensures NumberOf(num.Text()) == num
  {
    hide TrimSuffix, Bare;
    BareOfNumber(num);
    assert IsDigit(num.digits[0]) && IsDigit(num.digits[|num.digits| - 1]);
  }

  /** parseKernelUint32 accepts exactly the well-formed numbers that fit 32 bits. */
  lemma {:induction false} KernelUint32Exact(s: string, v: nat)
    ensures ParseKernelUint32(s) == Some(v) <==>
            v <= MAX_UINT32 && exists num: Number :: num.WellFormed() && num.Text() == s && num.Value() == v
  {
    if ParseKernelUint32(s) == Some(v) {
      NumberOfText(s);
      assert NumberOf(s).WellFormed() && NumberOf(s).Value() == v;
    }
    if num: Number :| num.WellFormed() && num.Text() == s && num.Value() == v {
      BareOfNumber(num);
    }
  }

  // ----- ParseMagicHeader

  datatype Range = Range(start: nat, end: nat) {
    predicate Has(v: nat) { start <= v <= end }
  }

  /** ParseMagicHeader: "N" or "N-M" with N <= M, both 32-bit. */
  function ParseMagicHeader(s: string): (r: Option<Range>)
    ensures r.Some? ==> r.value.start <= r.value.end <= MAX_UINT32
  {
    var c := Cut(s, '-');
    match ParseKernelUint32(c.before)
    case None => None
    case Some(start) =>
      if !c.found then Some(Range(start, start))
      else
        match ParseKernelUint32(c.after)
        case None => None
        case Some(end) => if start > end then None else Some(Range(start, end))
  }

  /** The grammar of a header value: one number, or two numbers joined by '-'. */
  ghost predicate SpellsHeader(s: string, r: Range) {
    && r.start <= r.end <= MAX_UINT32
    && exists lo: Number, hi: Number :: SpelledBy(s, r, lo, hi)
  }

  predicate SpelledBy(s: string, r: Range, lo: Number, hi: Number) {
    && lo.WellFormed() && lo.Value() == r.start
    && ((s == lo.Text() && r.end == r.start)
        || (hi.WellFormed() && hi.Value() == r.end && s == lo.Text() + "-" + hi.Text()))
  }

  lemma {:induction false} HeaderParseSound(s: string, r: Range)
    requires ParseMagicHeader(s) == Some(r)
    ensures SpellsHeader(s, r)
  {
    var c := Cut(s, '-');
    CutProperties(s, '-');
    var lo, hi := NumberOf(c.before), NumberOf(c.after);
    NumberOfText(c.before);
    NumberOfText(c.after);
    assert SpelledBy(s, r, lo, hi);
  }

  lemma {:induction false} NumberParses(num: Number)
    requires num.WellFormed() && num.Value() <= MAX_UINT32
    ensures ParseKernelUint32(num.Text()) == Some(num.Value())
    ensures '-' !in num.Text()
  {
    BareOfNumber(num);
  }

  lemma {:induction false} PairParses(a: string, b: string, start: nat, end: nat)
    requires '-' !in a && ParseKernelUint32(a) == Some(start) && ParseKernelUint32(b) == Some(end)
    requires start <= end <= MAX_UINT32
    ensures ParseMagicHeader(a + "-" + b) == Some(Range(start, end))
  {
    CutAt(a, '-', b);
  }

  lemma {:induction false} HeaderParseComplete(s: string, r: Range, lo: Number, hi: Number)
    requires r.start <= r.end <= MAX_UINT32 && SpelledBy(s, r, lo, hi)
    ensures ParseMagicHeader(s) == Some(r)
  {
    NumberParses(lo);
    if s == lo.Text() && r.end == r.start {
      CutNone(s, '-');
    } else {
      NumberParses(hi);
      PairParses(lo.Text(), hi.Text(), r.start, r.end);
    }
  }

  /** ParseMagicHeader accepts exactly the header grammar, with that meaning. */
  lemma {:induction false} MagicHeaderExact(s: string, r: Range)
    ensures ParseMagicHeader(s) == Some(r) <==> SpellsHeader(s, r)
  {
    if ParseMagicHeader(s) == Some(r) {
      HeaderParseSound(s, r);
    }
    if SpellsHeader(s, r) {
      var lo: Number, hi: Number :| SpelledBy(s, r, lo, hi);
      HeaderParseComplete(s, r, lo, hi);
    }
  }

  /** Printing a range with "%d-%d" and parsing it gives the range back. */
  lemma {:induction false} PrintedRangeParses(start: nat, end: nat)
    requires start <= end <= MAX_UINT32
    ensures ParseMagicHeader(Dec(start) + "-" + Dec(end)) == Some(Range(start, end))
  {
    var lo, hi := Number(false, Dec(start), false), Number(false, Dec(end), false);
    DecRoundTrip(start);
    DecRoundTrip(end);
    assert lo.Text() == Dec(start) && hi.Text() == Dec(end);
    assert SpelledBy(Dec(start) + "-" + Dec(end), Range(start, end), lo, hi);
    MagicHeaderExact(Dec(start) + "-" + Dec(end), Range(start, end));
  }

  /** "0", any number of times. */
  function ZeroText(n: nat): (s: string)
    ensures |s| == n
  {
    seq(n, _ => '0')
  }

  lemma {:induction false} ZeroTextIsZero(n: nat)
    ensures AllDigits(ZeroText(n)) && DecValue(ZeroText(n)) == 0
  {
    if n > 0 {
      ZeroTextIsZero(n - 1);
      assert ZeroText(n)[..n - 1] == ZeroText(n - 1);
    }
  }

  /** Leading zeros are accepted: a header text can have any length. */
  lemma {:induction false} ZeroHeaderParses(n: nat)
    requires n > 0
    ensures ParseMagicHeader(ZeroText(n)) == Some(Range(0, 0))
  {
    hide ZeroText, DecValue;
    var h := ZeroText(n);
    var num := Number(false, h, false);
    ZeroTextIsZero(n);
    assert num.Text() == h;
    assert SpelledBy(h, Range(0, 0), num, num);
    MagicHeaderExact(h, Range(0, 0));
  }

  predicate IsHeaderChar(c: char) { IsDigit(c) || c == '+' || c == '-' || c == '\n' }

  lemma {:induction false} NumberAlphabet(num: Number)
    requires num.WellFormed()
    ensures num.Text() != "" && forall c :: c in num.Text() ==> IsHeaderChar(c)
  {}

  /** An accepted header text is made of digits, '+', '-' and newlines only. */
  lemma {:induction false} HeaderAlphabet(s: string)
    requires ParseMagicHeader(s).Some?
    ensures s != "" && forall c :: c in s ==> IsHeaderChar(c)
  {
    var r := ParseMagicHeader(s).value;
    HeaderParseSound(s, r);
    var lo: Number, hi: Number :| SpelledBy(s, r, lo, hi);
    NumberAlphabet(lo);
    if s == lo.Text() + "-" + hi.Text() && hi.WellFormed() {
      NumberAlphabet(hi);
    }
  }
}
