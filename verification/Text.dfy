/** The parts of Go's strings, strconv and encoding/hex packages the code
    relies on. A Go string is a sequence of bytes; here each byte is a `char`. */
module Text {
  import opened Types

  // ----- strings.Cut and trimming

  datatype CutResult = CutResult(before: string, after: string, found: bool)

  /** Splits s around the first sep. */
  function Cut(s: string, sep: char): (r: CutResult)
    ensures r.found ==> |r.before| + |r.after| < |s|
  {
    if s == "" then CutResult("", "", false)
    else if s[0] == sep then CutResult("", s[1..], true)
    else
      var r := Cut(s[1..], sep);
      CutResult([s[0]] + r.before, r.after, r.found)
  }

  /** A cut loses nothing and stops at the first separator. */
  lemma {:induction false} CutProperties(s: string, sep: char)
    ensures var r := Cut(s, sep);
            && sep !in r.before
            && (r.found <==> sep in s)
            && s == (if r.found then r.before + [sep] + r.after else r.before)
            && (!r.found ==> r.after == "")
  {
    if s != "" {
      var c, t := s[0], s[1..];
      assert s == [c] + t;
      if c != sep {
        CutProperties(t, sep);
        CutUnfolds(c, t, sep);
        hide Cut;
        var r := Cut(t, sep);
        assert [c] + (r.before + [sep] + r.after) == ([c] + r.before) + [sep] + r.after;
      }
    }
  }

  lemma {:induction false} CutUnfolds(c: char, t: string, sep: char)
    requires c != sep
    ensures Cut([c] + t, sep) == Cut(t, sep).(before := [c] + Cut(t, sep).before)
  {
    assert ([c] + t)[1..] == t;
  }

  /** The cut is determined by where the first separator stands. */
  lemma {:induction false} CutAt(a: string, sep: char, b: string)
    requires sep !in a
    ensures Cut(a + [sep] + b, sep) == CutResult(a, b, true)
  {
    var s := a + [sep] + b;
    if a == "" {
      assert s[1..] == b;
    } else {
      assert s[1..] == a[1..] + [sep] + b;
      CutAt(a[1..], sep, b);
    }
  }

  lemma {:induction false} CutNone(s: string, sep: char)
    requires sep !in s
    ensures Cut(s, sep) == CutResult(s, "", false)
  {
    CutProperties(s, sep);
  }

  function TrimSuffix(s: string, c: char): string {
    if s != "" && s[|s| - 1] == c then s[..|s| - 1] else s
  }

  function TrimPrefix(s: string, c: char): string {
    if s != "" && s[0] == c then s[1..] else s
  }

  /** The ASCII white space of the trim set " \t\n\v\f\r". */
  predicate IsBlankChar(c: char) {
    c == ' ' || c == '\t' || c == '\n' || c as int == 11 || c as int == 12 || c == '\r'
  }

  predicate IsBlank(s: string) {
    s == "" || (IsBlankChar(s[0]) && IsBlank(s[1..]))
  }

  /** strings.Trim(s, " \t\n\v\f\r"). */
  function TrimBlank(s: string): (r: string) {
    if s == "" then ""
    else if IsBlankChar(s[0]) then TrimBlank(s[1..])
    else TrimRightBlank(s)
  }

  function TrimRightBlank(s: string): string {
    if s != "" && IsBlankChar(s[|s| - 1]) then TrimRightBlank(s[..|s| - 1]) else s
  }

  lemma {:induction false} TrimmedToNothing(s: string)
    ensures TrimBlank(s) == "" <==> IsBlank(s)
  {
    if s != "" {
      if IsBlankChar(s[0]) {
        TrimmedToNothing(s[1..]);
      } else {
        TrimRightKeepsFirst(s);
      }
    }
  }

  lemma {:induction false} TrimRightKeepsFirst(s: string)
    requires s != "" && !IsBlankChar(s[0])
    ensures TrimRightBlank(s) != ""
  {
    if IsBlankChar(s[|s| - 1]) {
      TrimRightKeepsFirst(s[..|s| - 1]);
    }
  }

  lemma {:induction false} BlankChars(s: string)
    ensures IsBlank(s) <==> forall c :: c in s ==> IsBlankChar(c)
  {
    if s != "" {
      assert s == [s[0]] + s[1..];
      BlankChars(s[1..]);
    }
  }

  lemma {:induction false} BlankAppend(s: string, t: string)
    ensures IsBlank(s + t) <==> IsBlank(s) && IsBlank(t)
  {
    if s == "" {
      assert s + t == t;
    } else {
      assert (s + t)[1..] == s[1..] + t;
      BlankAppend(s[1..], t);
    }
  }

  // ----- decimal numbers

  predicate IsDigit(c: char) { '0' <= c <= '9' }

  predicate AllDigits(s: string) { forall c :: c in s ==> IsDigit(c) }

  function DigitValue(c: char): nat
    requires IsDigit(c)
  {
    c as int - '0' as int
  }

  /** The number a digit text denotes. */
  function DecValue(s: string): nat
    requires AllDigits(s)
  {
    if s == "" then 0
    else DecValue(s[..|s| - 1]) * 10 + DigitValue(s[|s| - 1])
  }

  /** "%d" of a natural number. */
  function Dec(n: nat): (s: string)
    ensures s != "" && AllDigits(s)
  {
    var d := [(n % 10 + '0' as int) as char];
    if n < 10 then d else Dec(n / 10) + d
  }

  lemma {:induction false} DecRoundTrip(n: nat)
    ensures DecValue(Dec(n)) == n
  {
    if n < 10 {
      assert Dec(n)[..0] == "";
    } else {
      DecRoundTrip(n / 10);
      var s := Dec(n);
      assert s[..|s| - 1] == Dec(n / 10);
    }
  }

  function Pow10(k: nat): nat { if k == 0 then 1 else 10 * Pow10(k - 1) }

  lemma {:induction false} DecLength(n: nat, k: nat)
    requires k > 0 && n < Pow10(k)
    ensures |Dec(n)| <= k
  {
    if n >= 10 {
      DecLength(n / 10, k - 1);
    }
  }

  /** "%d" of an integer. */
  function PrintInt(n: int): string {
    if n < 0 then "-" + Dec(-n) else Dec(n)
  }

  /** strconv.ParseUint(s, 10, w) where max is the largest w-bit number. */
  function ParseUint(s: string, max: nat): Option<nat> {
    if s != "" && AllDigits(s) && DecValue(s) <= max then Some(DecValue(s)) else None
  }

  /** strconv.ParseInt(s, 10, w) where max is the largest signed w-bit number:
      an optional sign, then digits. */
  function ParseInt(s: string, max: nat): Option<int> {
    if s != "" && s[0] == '-' then
      var u: Option<int> := ParseUint(s[1..], max + 1);
      if u.Some? then Some(-u.value) else None
    else
      ParseUint(TrimPrefix(s, '+'), max)
  }

  const MAX_INT32 := 0x7fff_ffff
  const MAX_INT64 := 0x7fff_ffff_ffff_ffff
  const MAX_UINT32 := 0xffff_ffff

  /** Arithmetic on a 64-bit signed integer wraps around. */
  function WrapInt64(x: int): int {
    (x + (MAX_INT64 + 1)) % (2 * (MAX_INT64 + 1)) - (MAX_INT64 + 1)
  }

  /** time.Unix: seconds, and nanoseconds brought below a second. */
  function UnixTime(sec: int, nsec: int): (int, int) {
    (WrapInt64(sec + nsec / SECOND), nsec % SECOND)
  }

  /** The number of 64 bits that agrees with x modulo 2^64. */
  lemma {:induction false} WrapExact(x: int)
    ensures -0x8000_0000_0000_0000 <= WrapInt64(x) < 0x8000_0000_0000_0000
    ensures (x - WrapInt64(x)) % 0x1_0000_0000_0000_0000 == 0
    ensures -0x8000_0000_0000_0000 <= x < 0x8000_0000_0000_0000 ==> WrapInt64(x) == x
  {}

  /** The same instant, its nanoseconds below a second. */
  lemma {:induction false} UnixExact(sec: int, nsec: int)
    requires -0x8000_0000_0000_0000 <= sec + nsec / SECOND < 0x8000_0000_0000_0000
    ensures var (s, n) := UnixTime(sec, nsec);
            0 <= n < 1_000_000_000 && s * 1_000_000_000 + n == sec * 1_000_000_000 + nsec
  {
    WrapExact(sec + nsec / SECOND);
  }

  /** strconv.Atoi on a 64-bit platform. */
  function Atoi(s: string): Option<int> { ParseInt(s, MAX_INT64) }

  /** An optional sign and at least one digit, and the number they denote. */
  predicate IsNumeral(sign: string, digits: string, n: int) {
    && (sign == "" || sign == "+" || sign == "-") && digits != "" && AllDigits(digits)
    && (if sign == "-" then -n else n) == DecValue(digits)
  }

  /** Exactly the numerals of numbers that fit 64 bits are read. */
  lemma {:induction false} AtoiExact(s: string, n: int)
    ensures Atoi(s) == Some(n) <==>
            && -0x8000_0000_0000_0000 <= n < 0x8000_0000_0000_0000
            && exists sign: string, digits: string :: s == sign + digits && IsNumeral(sign, digits, n)
  {
    if Atoi(s) == Some(n) {
      var sign := if s[0] == '-' then "-" else if s[0] == '+' then "+" else "";
      assert s == sign + s[|sign|..] && IsNumeral(sign, s[|sign|..], n);
    }
    if sign: string, digits: string :|
      -0x8000_0000_0000_0000 <= n < 0x8000_0000_0000_0000 && s == sign + digits && IsNumeral(sign, digits, n)
    {
      NumeralRead(sign, digits, n);
    }
  }

  lemma {:induction false} NumeralRead(sign: string, digits: string, n: int)
    requires IsNumeral(sign, digits, n) && -0x8000_0000_0000_0000 <= n < 0x8000_0000_0000_0000
    ensures Atoi(sign + digits) == Some(n)
  {
    var s := sign + digits;
    assert digits[0] in digits;
    assert s[|sign|..] == digits;
  }

  lemma {:induction false} ParseIntDec(n: nat, max: nat)
    ensures ParseInt(Dec(n), max) == if n <= max then Some(n) else None
  {
    var s := Dec(n);
    assert IsDigit(s[0]);
    DecRoundTrip(n);
  }

  /** A printed number holds no character of the line protocol. */
  lemma {:induction false} DecIsPlain(n: nat)
    ensures forall c :: c in Dec(n) ==> c != '=' && c != '\n' && c != '\r' && c != '-' && c != '+'
  {}

  // ----- hexadecimal

  const HEX_DIGITS := "0123456789abcdef"

  function HexEncode(b: seq<byte>): (s: string)
    ensures |s| == 2 * |b|
    ensures forall c :: c in s ==> c in HEX_DIGITS
  {
    if b == [] then ""
    else
      var hi, lo := HEX_DIGITS[b[0] / 16], HEX_DIGITS[b[0] % 16];
      [hi, lo] + HexEncode(b[1..])
  }

  /** The value of a hex digit of either case. */
  function HexValue(c: char): (r: Option<nat>)
    ensures r.Some? ==> r.value < 16
  {
    if '0' <= c <= '9' then Some(c as int - '0' as int)
    else if 'a' <= c <= 'f' then Some(c as int - 'a' as int + 10)
    else if 'A' <= c <= 'F' then Some(c as int - 'A' as int + 10)
    else None
  }

  /** hex.DecodeString. */
  function HexDecode(s: string): Option<seq<byte>> {
    if s == "" then Some([])
    else if |s| == 1 then None
    else
      match (HexValue(s[0]), HexValue(s[1]), HexDecode(s[2..]))
      case (Some(hi), Some(lo), Some(rest)) => Some([hi * 16 + lo] + rest)
      case _ => None
  }

  /** The digits of either case, and nothing else. */
  lemma {:induction false} HexValueExact(c: char, n: nat)
    ensures HexValue(c) == Some(n) <==> n < 16 && (c == "0123456789abcdef"[n] || c == "0123456789ABCDEF"[n])
  {}

  /** Digit n stands for n, is lower-case, and is '0' for nothing else. */
  lemma {:induction false} HexDigitExact(n: nat)
    requires n < 16
    ensures HexValue(HEX_DIGITS[n]) == Some(n) && !('A' <= HEX_DIGITS[n] <= 'F') && (HEX_DIGITS[n] == '0' ==> n == 0)
  {}

  lemma {:induction false} HexRoundTrip(b: seq<byte>)
    ensures HexDecode(HexEncode(b)) == Some(b)
  {
    hide HexValue;
    if b != [] {
      HexDigitExact(b[0] / 16);
      HexDigitExact(b[0] % 16);
      HexRoundTrip(b[1..]);
      var s := HexEncode(b);
      assert s[2..] == HexEncode(b[1..]);
      assert b == [b[0]] + b[1..];
    }
  }

  /** Byte i stands at 2i, its high digit first, in lower case. */
  lemma {:induction false} HexEncodeExact(b: seq<byte>, i: nat)
    requires i < |b|
    ensures var s := HexEncode(b); var (hi, lo) := (s[2 * i], s[2 * i + 1]);
            && HexValue(hi) == Some(b[i] / 16) && HexValue(lo) == Some(b[i] % 16)
            && !('A' <= hi <= 'F') && !('A' <= lo <= 'F')
  {
    hide HexValue;
    HexDigitExact(b[i] / 16);
    HexDigitExact(b[i] % 16);
    if i > 0 {
      HexEncodeExact(b[1..], i - 1);
    }
  }

  /** Two digits for each byte, and nothing else. */
  lemma {:induction false} HexDecodeExact(s: string, b: seq<byte>)
    ensures HexDecode(s) == Some(b) <==>
            |s| == 2 * |b| && forall i :: 0 <= i < |b| ==>
                                HexValue(s[2 * i]) == Some(b[i] / 16) && HexValue(s[2 * i + 1]) == Some(b[i] % 16)
  {
    hide HexValue, HexDecode;
    if |s| < 2 || b == [] {
      HexEnd(s, b);
    } else {
      var t, c := s[2..], b[1..];
      HexDecodeExact(t, c);
      assert forall i :: 0 < i < |b| ==> b[i] == c[i - 1];
      assert |s| == 2 * |b| ==>
               forall i :: 0 < i < |b| ==> s[2 * i] == t[2 * (i - 1)] && s[2 * i + 1] == t[2 * (i - 1) + 1];
      assert b == [b[0]] + c;
      HexPair(s, b[0], c);
    }
  }

  lemma {:induction false} HexEnd(s: string, b: seq<byte>)
    requires |s| < 2 || b == []
    ensures HexDecode(s) == Some(b) <==> |s| == |b| == 0
  {
    hide HexValue;
  }

  lemma {:induction false} HexPair(s: string, x: byte, c: seq<byte>)
    requires |s| >= 2
    ensures HexDecode(s) == Some([x] + c) <==>
            HexValue(s[0]) == Some(x / 16) && HexValue(s[1]) == Some(x % 16) && HexDecode(s[2..]) == Some(c)
  {
    hide HexValue;
    if HexDecode(s).Some? {
      var d := HexDecode(s).value;
      assert d[1..] == HexDecode(s[2..]).value && ([x] + c)[1..] == c && ([x] + c)[0] == x;
    }
  }

  /** hexKey and NewKey(hex.DecodeString(...)). */
  function ParseHexKey(s: string): Option<Key> {
    match HexDecode(s)
    case Some(b) => if |b| == KEY_LEN then Some(b) else None
    case None => None
  }
}
