/** hide (wgtypes/redact.go): the two forms of a key it searches for do not
    survive, and a key printed in another form does. */
module Redact {
  import opened Types
  import Text

  const HIDDEN_KEY := "(hidden)"

  // ----- substrings

  predicate OccursAt(p: string, s: string, i: nat) {
    i + |p| <= |s| && s[i..i + |p|] == p
  }

  ghost predicate Occurs(p: string, s: string) {
    exists i: nat :: OccursAt(p, s, i)
  }

  /** strings.ReplaceAll for a non-empty pattern. */
  function ReplaceAll(s: string, pattern: string, new_: string): string
    requires pattern != ""
  {
    if |s| < |pattern| then s
    else if s[..|pattern|] == pattern then new_ + ReplaceAll(s[|pattern|..], pattern, new_)
    else [s[0]] + ReplaceAll(s[1..], pattern, new_)
  }

  /** Cutting the front off a text shifts its occurrences. */
  lemma {:induction false} OccursBehind(p: string, s: string, n: nat, i: nat)
    requires n <= |s|
    ensures OccursAt(p, s[n..], i) <==> OccursAt(p, s, n + i)
  {
    if n + i + |p| <= |s| {
      assert s[n..][i..i + |p|] == s[n + i..n + i + |p|];
    }
  }

  function Joined(parts: seq<string>, separator: string): string {
    if parts == [] then ""
    else if |parts| == 1 then parts[0]
    else parts[0] + separator + Joined(parts[1..], separator)
  }

  predicate NoneBefore(pattern: string, s: string, n: nat) {
    forall j :: 0 <= j < n ==> !OccursAt(pattern, s, j)
  }

  /** The pattern stands behind each part but the last, and nowhere before. */
  predicate Between(parts: seq<string>, pattern: string) {
    && parts != []
    && (forall i :: 0 <= i < |parts| - 1 ==> NoneBefore(pattern, parts[i] + pattern, |parts[i]|))
    && NoneBefore(pattern, parts[|parts| - 1], |parts[|parts| - 1]|)
  }

  /** What is replaced is each occurrence from left to right, and everything
      around them stays. */
  lemma {:induction false} ReplaceAllExact(s: string, pattern: string, new_: string) returns (parts: seq<string>)
    requires pattern != ""
    ensures Between(parts, pattern)
    ensures s == Joined(parts, pattern) && ReplaceAll(s, pattern, new_) == Joined(parts, new_)
    decreases |s|
  {
    if |s| < |pattern| {
      parts := [s];
    } else if s[..|pattern|] == pattern {
      hide Between, Joined;
      var rest := ReplaceAllExact(s[|pattern|..], pattern, new_);
      parts := [""] + rest;
      JoinedFront(rest, pattern);
      JoinedFront(rest, new_);
      BetweenFront(rest, pattern);
      assert s == pattern + s[|pattern|..];
    } else {
      hide Between, Joined;
      var rest := ReplaceAllExact(s[1..], pattern, new_);
      parts := [[s[0]] + rest[0]] + rest[1..];
      JoinedLonger(rest, s[0], pattern);
      JoinedLonger(rest, s[0], new_);
      BetweenLonger(s, rest, pattern);
    }
  }

  lemma {:induction false} JoinedFront(parts: seq<string>, separator: string)
    requires parts != []
    ensures Joined([""] + parts, separator) == separator + Joined(parts, separator)
  {
    assert ([""] + parts)[1..] == parts;
    assert "" + separator == separator;
  }

  lemma {:induction false} BetweenFront(parts: seq<string>, pattern: string)
    requires Between(parts, pattern)
    ensures Between([""] + parts, pattern)
  {
    hide NoneBefore;
    var longer := [""] + parts;
    assert forall i :: 0 < i < |longer| ==> longer[i] == parts[i - 1];
    assert NoneBefore(pattern, "" + pattern, 0) by { NoneBeforeNothing(pattern, "" + pattern); }
  }

  lemma {:induction false} NoneBeforeNothing(pattern: string, s: string)
    ensures NoneBefore(pattern, s, 0)
  {}

  lemma {:induction false} JoinedLonger(parts: seq<string>, c: char, separator: string)
    requires parts != []
    ensures Joined([[c] + parts[0]] + parts[1..], separator) == [c] + Joined(parts, separator)
  {
    var longer := [[c] + parts[0]] + parts[1..];
    assert longer[1..] == parts[1..];
    if |parts| > 1 {
      assert [c] + (parts[0] + separator + Joined(parts[1..], separator))
          == [c] + parts[0] + separator + Joined(parts[1..], separator);
    }
  }

  /** A first part longer by a character at which the pattern does not stand. */
  lemma {:induction false} BetweenLonger(s: string, parts: seq<string>, pattern: string)
    requires s != "" && Between(parts, pattern) && s[1..] == Joined(parts, pattern) && !OccursAt(pattern, s, 0)
    ensures Between([[s[0]] + parts[0]] + parts[1..], pattern)
  {
    var end := if |parts| > 1 then pattern else "";
    var old_, longer := parts[0] + end, [s[0]] + parts[0] + end;
    assert longer <= s;
    assert longer[1..] == old_ && parts[0] + "" == parts[0] && [s[0]] + parts[0] + "" == [s[0]] + parts[0];
    forall j | 0 <= j < |parts[0]| + 1 ensures !OccursAt(pattern, longer, j) {
      if j > 0 {
        OccursBehind(pattern, longer, 1, j - 1);
      }
    }
  }

  /** A pattern the marker cannot take part in: it has no parenthesis, and it is
      longer than what stands between the marker's. */
  predicate IsForm(p: string) {
    '(' !in p && ')' !in p && |p| >= |HIDDEN_KEY| - 1
  }

  lemma {:induction false} PrefixSurvives(p: string, s: string, pattern: string)
    requires pattern != "" && '(' !in p && p <= ReplaceAll(s, pattern, HIDDEN_KEY)
    ensures p <= s
  {
    var r := ReplaceAll(s, pattern, HIDDEN_KEY);
    if |s| >= |pattern| && p != "" {
      assert p[0] == r[0];
      assert s[..|pattern|] != pattern;
      assert r[1..] == ReplaceAll(s[1..], pattern, HIDDEN_KEY);
      assert p[1..] <= r[1..];
      PrefixSurvives(p[1..], s[1..], pattern);
      assert p == [p[0]] + p[1..] && s == [s[0]] + s[1..];
    }
  }

  /** What starts inside a marker has a parenthesis or is short. */
  lemma {:induction false} InsideMarker(p: string, rest: string, i: nat)
    requires i < |HIDDEN_KEY| && OccursAt(p, HIDDEN_KEY + rest, i)
    ensures !IsForm(p)
  {
    var r := HIDDEN_KEY + rest;
    if |p| >= |HIDDEN_KEY| - 1 {
      if i == 0 {
        assert p[0] == r[0] == '(';
      } else {
        assert p[|HIDDEN_KEY| - 1 - i] == r[|HIDDEN_KEY| - 1] == ')';
      }
    }
  }

  /** An occurrence of a form cannot touch a marker in front of it. */
  lemma {:induction false} BehindMarker(p: string, rest: string, i: nat)
    requires IsForm(p) && OccursAt(p, HIDDEN_KEY + rest, i)
    ensures i >= |HIDDEN_KEY| && OccursAt(p, rest, i - |HIDDEN_KEY|)
  {
    if i < |HIDDEN_KEY| {
      InsideMarker(p, rest, i);
    }
    assert (HIDDEN_KEY + rest)[i..i + |p|] == rest[i - |HIDDEN_KEY|..i - |HIDDEN_KEY| + |p|];
  }

  /** The definition of ReplaceAll, one character or one pattern deep. */
  lemma {:induction false} ReplaceUnfolds(s: string, pattern: string)
    requires pattern != ""
    ensures var r := ReplaceAll(s, pattern, HIDDEN_KEY);
            if |s| < |pattern| then r == s
            else if s[..|pattern|] == pattern then r == HIDDEN_KEY + ReplaceAll(s[|pattern|..], pattern, HIDDEN_KEY)
            else r != "" && r[1..] == ReplaceAll(s[1..], pattern, HIDDEN_KEY)
  {}

  lemma {:induction false} OccursInside(p: string, s: string, i: nat)
    ensures OccursAt(p, s, i) ==> i + |p| <= |s|
    ensures OccursAt(p, s, 0) <==> p <= s
  {}

  /** Replacing a pattern by the marker creates no new occurrence of a form. */
  lemma {:induction false} OccurredBefore(p: string, s: string, pattern: string, i: nat) returns (j: nat)
    requires pattern != "" && IsForm(p) && OccursAt(p, ReplaceAll(s, pattern, HIDDEN_KEY), i)
    ensures OccursAt(p, s, j)
    decreases |s|
  {
    hide ReplaceAll, OccursAt;
    var n := |pattern|;
    ReplaceUnfolds(s, pattern);
    if |s| < n {
      j := i;
    } else if s[..n] == pattern {
      BehindMarker(p, ReplaceAll(s[n..], pattern, HIDDEN_KEY), i);
      j := OccurredBefore(p, s[n..], pattern, i - |HIDDEN_KEY|);
      OccursBehind(p, s, n, j);
      j := n + j;
    } else if i == 0 {
      j := 0;
      OccursInside(p, ReplaceAll(s, pattern, HIDDEN_KEY), 0);
      PrefixSurvives(p, s, pattern);
      OccursInside(p, s, 0);
    } else {
      OccursBehind(p, ReplaceAll(s, pattern, HIDDEN_KEY), 1, i - 1);
      j := OccurredBefore(p, s[1..], pattern, i - 1);
      OccursBehind(p, s, 1, j);
      j := 1 + j;
    }
  }

  /** Replacing a form by the marker leaves no occurrence of it. */
  lemma {:induction false} NotAt(p: string, s: string, i: nat)
    requires IsForm(p)
    ensures !OccursAt(p, ReplaceAll(s, p, HIDDEN_KEY), i)
    decreases |s|
  {
    hide ReplaceAll, OccursAt;
    var r := ReplaceAll(s, p, HIDDEN_KEY);
    ReplaceUnfolds(s, p);
    if |s| < |p| {
      OccursInside(p, s, i);
    } else if OccursAt(p, r, i) {
      if s[..|p|] == p {
        BehindMarker(p, ReplaceAll(s[|p|..], p, HIDDEN_KEY), i);
        NotAt(p, s[|p|..], i - |HIDDEN_KEY|);
      } else if i == 0 {
        OccursInside(p, r, 0);
        PrefixSurvives(p, s, p);
        assert false;
      } else {
        OccursBehind(p, r, 1, i - 1);
        NotAt(p, s[1..], i - 1);
      }
    }
  }

  lemma {:induction false} NothingToReplace(s: string, pattern: string)
    requires pattern != "" && !Occurs(pattern, s)
    ensures ReplaceAll(s, pattern, HIDDEN_KEY) == s
  {
    if |s| >= |pattern| {
      if s[..|pattern|] == pattern {
        assert OccursAt(pattern, s, 0);
      }
      if Occurs(pattern, s[1..]) {
        var i: nat :| OccursAt(pattern, s[1..], i);
        OccursBehind(pattern, s, 1, i);
      }
      NothingToReplace(s[1..], pattern);
      assert s == [s[0]] + s[1..];
    }
  }

  // ----- the two forms of a key

  /** The base64 alphabet. */
  function Base64Digit(n: nat): (c: char)
    requires n < 64
    ensures c != '(' && c != ')'
  {
    if n < 26 then ('A' as int + n) as char
    else if n < 52 then ('a' as int + n - 26) as char
    else if n < 62 then ('0' as int + n - 52) as char
    else if n == 62 then '+'
    else '/'
  }

  /** The digit that takes the last two bits of a and the first four of b. */
  function SecondDigit(a: byte, b: byte): char { Base64Digit(a % 4 * 16 + b / 16) }

  /** The digit that takes the last four bits of a and the first two of b. */
  function ThirdDigit(a: byte, b: byte): char { Base64Digit(a % 16 * 4 + b / 64) }

  /** base64.StdEncoding.EncodeToString. */
  function Base64(b: seq<byte>): (s: string)
    ensures |s| == 4 * ((|b| + 2) / 3)
  {
    if b == [] then ""
    else if |b| == 1 then [Base64Digit(b[0] / 4), SecondDigit(b[0], 0), '=', '=']
    else if |b| == 2 then [Base64Digit(b[0] / 4), SecondDigit(b[0], b[1]), ThirdDigit(b[1], 0), '=']
    else
      [Base64Digit(b[0] / 4), SecondDigit(b[0], b[1]), ThirdDigit(b[1], b[2]), Base64Digit(b[2] % 64)]
      + Base64(b[3..])
  }

  /** Digit n in the alphabet of RFC 4648. */
  function Rfc4648(n: nat): char
    requires n < 64
  {
    if n < 26 then "ABCDEFGHIJKLMNOPQRSTUVWXYZ"[n]
    else if n < 52 then "abcdefghijklmnopqrstuvwxyz"[n - 26]
    else "0123456789+/"[n - 52]
  }

  lemma {:induction false} Base64Alphabet(n: nat)
    requires n < 64
    ensures Base64Digit(n) == Rfc4648(n)
  {}

  function ByteAt(b: seq<byte>, i: nat): nat { if i < |b| then b[i] else 0 }

  /** Three bytes as one number of 24 bits. */
  function Bits24(a: nat, b: nat, c: nat): nat { a * 0x1_0000 + b * 0x100 + c }

  /** The group of three bytes a digit stands for; behind the end they are zero. */
  function GroupBits(b: seq<byte>, group: nat): nat {
    Bits24(ByteAt(b, 3 * group), ByteAt(b, 3 * group + 1), ByteAt(b, 3 * group + 2))
  }

  /** The i-th group of six bits, the highest first. */
  function Sextet(bits: nat, i: nat): (n: nat)
    requires i < 4
    ensures n < 64
  {
    (if i == 0 then bits / 0x40 / 0x40 / 0x40
     else if i == 1 then bits / 0x40 / 0x40
     else if i == 2 then bits / 0x40
     else bits) % 0x40
  }

  lemma {:induction false} SplitSextet(q: nat, r: nat)
    requires r < 0x40
    ensures (0x40 * q + r) / 0x40 == q && (0x40 * q + r) % 0x40 == r
  {}

  /** How the three bytes of a group divide into four digits. */
  lemma {:induction false} SextetsOf(a: byte, b: byte, c: byte)
    ensures var bits := Bits24(a, b, c);
            && Sextet(bits, 0) == a / 4 && Sextet(bits, 1) == a % 4 * 16 + b / 16
            && Sextet(bits, 2) == b % 16 * 4 + c / 64 && Sextet(bits, 3) == c % 64
  {
    var a1: nat, a0: nat, b1: nat, b0: nat, c1: nat, c0: nat := a / 4, a % 4, b / 16, b % 16, c / 64, c % 64;
    var d1: nat, d2: nat := 16 * a0 + b1, 4 * b0 + c1;
    SplitSextet(a1, d1);
    SplitSextet(0x40 * a1 + d1, d2);
    SplitSextet(0x40 * (0x40 * a1 + d1) + d2, c0);
    assert Bits24(a, b, c) == 0x40 * (0x40 * (0x40 * a1 + d1) + d2) + c0;
  }

  /** Section 4 of RFC 4648: digit j is the letter of six bits of its group, and
      padding where those bits lie wholly behind the end. */
  lemma {:induction false} Base64Exact(b: seq<byte>, j: nat)
    requires j < |Base64(b)|
    ensures Base64(b)[j] == if j / 4 * 3 + j % 4 > |b| then '=' else Rfc4648(Sextet(GroupBits(b, j / 4), j % 4))
  {
    hide Sextet, Base64Digit, Bits24, Rfc4648, Base64;
    if j >= 4 {
      var group, k := j / 4 - 1, j % 4;
      Base64Unfolds(b);
      Base64Exact(b[3..], j - 4);
      assert (j - 4) / 4 == group && (j - 4) % 4 == k;
      assert GroupBits(b[3..], group) == GroupBits(b, group + 1);
    } else {
      FirstGroup(b, j);
    }
  }

  lemma {:induction false} Base64Unfolds(b: seq<byte>)
    requires |Base64(b)| > 4
    ensures |b| > 3 && Base64(b)[4..] == Base64(b[3..])
  {}

  /** No character of it is a parenthesis. */
  lemma {:induction false} Base64HasNoParens(b: seq<byte>)
    ensures '(' !in Base64(b) && ')' !in Base64(b)
  {
    hide Base64, Base64Digit, GroupBits, Sextet;
    forall j | 0 <= j < |Base64(b)| ensures Base64(b)[j] != '(' && Base64(b)[j] != ')' {
      Base64Exact(b, j);
    }
  }

  lemma {:induction false} FirstGroup(b: seq<byte>, j: nat)
    requires j < 4 && b != []
    ensures Base64(b)[j] == if j > |b| then '=' else Rfc4648(Sextet(GroupBits(b, 0), j))
  {
    hide Sextet, Base64Digit, Bits24, Rfc4648;
    var b1, b2 := if |b| > 1 then b[1] else 0, if |b| > 2 then b[2] else 0;
    SextetsOf(b[0], b1, b2);
    assert GroupBits(b, 0) == Bits24(b[0], b1, b2);
    Base64Alphabet(Sextet(Bits24(b[0], b1, b2), j));
  }

  /** A character that can stand between the braces of a printed byte array. */
  predicate IsListChar(c: char) {
    c != '(' && c != ')' && c != '{' && c != '}' && c != '='
  }

  /** "%#x" of a byte. */
  function HexByte(b: byte): (s: string)
    ensures forall c :: c in s ==> IsListChar(c)
  {
    "0x" + (if b < 16 then [Text.HEX_DIGITS[b]] else [Text.HEX_DIGITS[b / 16], Text.HEX_DIGITS[b % 16]])
  }

  function HexList(b: seq<byte>): (s: string)
    ensures forall c :: c in s ==> IsListChar(c)
  {
    if b == [] then "" else if |b| == 1 then HexByte(b[0]) else HexByte(b[0]) + ", " + HexList(b[1..])
  }

  /** "%#v" of an array of bytes whose type has this name. */
  function Literal(typeName: string, k: Key): string { typeName + "{" + HexList(k) + "}" }

  const BYTE_ARRAY := "[32]uint8"

  /** "%#v" of a [32]byte. */
  function GoSyntax(k: Key): string { Literal(BYTE_ARRAY, k) }

  /** "%#x" is the number in lower-case digits without a leading zero. */
  lemma {:induction false} HexByteExact(b: byte)
    ensures var s := HexByte(b);
            && s[0] == '0' && s[1] == 'x' && (forall i :: 2 <= i < |s| ==> !('A' <= s[i] <= 'F'))
            && (b < 16 ==> |s| == 3 && Text.HexValue(s[2]) == Some(b))
            && (b >= 16 ==> |s| == 4 && s[2] != '0'
                            && Text.HexValue(s[2]) == Some(b / 16) && Text.HexValue(s[3]) == Some(b % 16))
  {
    hide Text.HexValue;
    Text.HexDigitExact(b / 16);
    Text.HexDigitExact(b % 16);
  }

  function HexBytes(b: seq<byte>): seq<string> {
    seq(|b|, i requires 0 <= i < |b| => HexByte(b[i]))
  }

  lemma {:induction false} HexListJoins(b: seq<byte>)
    ensures HexList(b) == Joined(HexBytes(b), ", ")
  {
    hide HexByte;
    if |b| > 1 {
      HexListJoins(b[1..]);
      assert HexBytes(b) == [HexByte(b[0])] + HexBytes(b[1..]);
    }
  }

  /** A key in Go syntax: its bytes one by one between the braces. */
  lemma {:induction false} GoSyntaxExact(k: Key)
    ensures GoSyntax(k) == "[32]uint8{" + Joined(HexBytes(k), ", ") + "}"
  {
    HexListJoins(k);
  }

  function KeyString(k: Key): string { Base64(k) }

  lemma {:induction false} KeyForms(k: Key)
    ensures IsForm(GoSyntax(k)) && IsForm(KeyString(k))
  {
    hide Base64, HexList;
    Base64HasNoParens(k);
    assert forall c :: c in GoSyntax(k) ==> c in BYTE_ARRAY || c == '{' || c in HexList(k) || c == '}';
  }

  // ----- hide

  /** Whether hide has to remove this key. */
  predicate IsSecret(k: Option<Key>) { k.Some? && k.value != ZERO_KEY }

  /** Neither form of any of the secret keys stands in the text. */
  ghost predicate Clean(s: string, keys: seq<Option<Key>>) {
    forall i :: 0 <= i < |keys| && IsSecret(keys[i]) ==>
      !Occurs(GoSyntax(keys[i].value), s) && !Occurs(KeyString(keys[i].value), s)
  }

  lemma {:induction false} CleanHas(s: string, keys: seq<Option<Key>>, i: nat)
    requires i < |keys| && IsSecret(keys[i]) && Clean(s, keys)
    ensures !Occurs(GoSyntax(keys[i].value), s) && !Occurs(KeyString(keys[i].value), s)
  {}

  lemma {:induction false} ReplaceKeepsClean(s: string, keys: seq<Option<Key>>, pattern: string)
    requires pattern != "" && Clean(s, keys)
    ensures Clean(ReplaceAll(s, pattern, HIDDEN_KEY), keys)
  {
    var r := ReplaceAll(s, pattern, HIDDEN_KEY);
    forall i | 0 <= i < |keys| && IsSecret(keys[i])
      ensures !Occurs(GoSyntax(keys[i].value), r) && !Occurs(KeyString(keys[i].value), r)
    {
      KeyForms(keys[i].value);
      NoNewOccurrence(GoSyntax(keys[i].value), s, pattern);
      NoNewOccurrence(KeyString(keys[i].value), s, pattern);
    }
  }

  lemma {:induction false} NoNewOccurrence(p: string, s: string, pattern: string)
    requires pattern != "" && IsForm(p) && !Occurs(p, s)
    ensures !Occurs(p, ReplaceAll(s, pattern, HIDDEN_KEY))
  {
    if i: nat :| OccursAt(p, ReplaceAll(s, pattern, HIDDEN_KEY), i) {
      var j := OccurredBefore(p, s, pattern, i);
    }
  }

  lemma {:induction false} ReplacedIsGone(p: string, s: string)
    requires IsForm(p)
    ensures !Occurs(p, ReplaceAll(s, p, HIDDEN_KEY))
  {
    if i: nat :| OccursAt(p, ReplaceAll(s, p, HIDDEN_KEY), i) {
      NotAt(p, s, i);
    }
  }

  /** The text with one key's two forms replaced, Go syntax first. */
  function HideKey(s: string, k: Option<Key>): string {
    if IsSecret(k) then
      ReplaceAll(ReplaceAll(s, GoSyntax(k.value), HIDDEN_KEY), KeyString(k.value), HIDDEN_KEY)
    else s
  }

  function HideAll(s: string, keys: seq<Option<Key>>): string {
    if keys == [] then s else HideKey(HideAll(s, keys[..|keys| - 1]), keys[|keys| - 1])
  }

  lemma {:induction false} HideKeyCleans(s: string, keys: seq<Option<Key>>, k: Option<Key>)
    requires Clean(s, keys)
    ensures Clean(HideKey(s, k), keys + [k])
  {
    hide GoSyntax, KeyString, Occurs, ReplaceAll;
    if IsSecret(k) {
      var go, base64 := GoSyntax(k.value), KeyString(k.value);
      KeyForms(k.value);
      var t := ReplaceAll(s, go, HIDDEN_KEY);
      ReplacedIsGone(go, s);
      ReplaceKeepsClean(s, keys, go);
      ReplacedIsGone(base64, t);
      NoNewOccurrence(go, t, base64);
      ReplaceKeepsClean(t, keys, base64);
    }
  }

  /** However many keys there are, none of the secret ones is left in either of
      the two forms. */
  lemma {:induction false} HideAllCleans(text: string, keys: seq<Option<Key>>)
    ensures Clean(HideAll(text, keys), keys)
  {
    if keys != [] {
      hide HideKey, Clean;
      var init, k := keys[..|keys| - 1], keys[|keys| - 1];
      HideAllCleans(text, init);
      HideKeyCleans(HideAll(text, init), init, k);
      assert keys == init + [k];
    }
  }

  lemma {:induction false} CleanInit(s: string, keys: seq<Option<Key>>)
    requires keys != [] && Clean(s, keys)
    ensures Clean(s, keys[..|keys| - 1])
  {
    hide GoSyntax, KeyString, Occurs;
  }

  /** A text in which neither form of any secret key stands is left alone. */
  lemma {:induction false} HideAllKeeps(text: string, keys: seq<Option<Key>>)
    requires Clean(text, keys)
    ensures HideAll(text, keys) == text
  {
    if keys != [] {
      hide GoSyntax, KeyString, Occurs, Clean, ReplaceAll;
      CleanInit(text, keys);
      HideAllKeeps(text, keys[..|keys| - 1]);
      var k := keys[|keys| - 1];
      if IsSecret(k) {
        KeyForms(k.value);
        CleanHas(text, keys, |keys| - 1);
        NothingToReplace(text, GoSyntax(k.value));
        NothingToReplace(text, KeyString(k.value));
      }
    }
  }

  /** The result holds neither form of any secret key, and a text that held
      none comes back unchanged. */
  method Hide(text: string, keys: seq<Option<Key>>) returns (s: string)
    ensures s == HideAll(text, keys)
    ensures Clean(s, keys)
    ensures Clean(text, keys) ==> s == text
  {
    hide Clean, ReplaceAll, GoSyntax, KeyString;
    s := text;
    for i := 0 to |keys|
      invariant s == HideAll(text, keys[..i])
    {
      var k := keys[i];
      assert keys[..i + 1][..i] == keys[..i];
      if !IsSecret(k) {
        continue;
      }
      KeyForms(k.value);
      s := ReplaceAll(s, GoSyntax(k.value), HIDDEN_KEY);
      s := ReplaceAll(s, KeyString(k.value), HIDDEN_KEY);
    }
    assert keys[..|keys|] == keys;
    HideAllCleans(text, keys);
    if Clean(text, keys) {
      HideAllKeeps(text, keys);
    }
  }

  // ----- keys printed under another type name

  predicate EndsWith(s: string, suffix: string) {
    |suffix| <= |s| && s[|s| - |suffix|..] == suffix
  }

  /** A type name with neither an opening brace nor an equals sign. */
  predicate IsTypeName(s: string) { '{' !in s && '=' !in s }

  lemma {:induction false} Base64Ends(b: seq<byte>)
    requires |b| % 3 == 2
    ensures '=' in Base64(b)
  {
    hide Base64Digit, SecondDigit, ThirdDigit;
    if |b| > 2 {
      Base64Ends(b[3..]);
    }
  }

  lemma {:induction false} LiteralAt(typeName: string, k: Key, i: nat)
    requires IsTypeName(typeName) && i < |Literal(typeName, k)|
    ensures Literal(typeName, k)[i] == '{' <==> i == |typeName|
    ensures Literal(typeName, k)[i] != '='
  {
    hide HexList;
    var s, list := Literal(typeName, k), HexList(k);
    if |typeName| < i < |s| - 1 {
      assert s[i] == list[i - |typeName| - 1] && list[i - |typeName| - 1] in list;
    } else if i < |typeName| {
      assert s[i] == typeName[i] && typeName[i] in typeName;
    }
  }

  /** The Go-syntax form of any key stands only behind its own type name. */
  lemma {:induction false} LiteralOccurs(typeName: string, k: Key, other: Key, i: nat)
    requires IsTypeName(typeName) && OccursAt(GoSyntax(other), Literal(typeName, k), i)
    ensures EndsWith(typeName, BYTE_ARRAY)
  {
    hide HexList;
    var s, form, n := Literal(typeName, k), GoSyntax(other), |BYTE_ARRAY|;
    assert s[i..i + |form|][n] == form[n] == '{';
    LiteralAt(typeName, k, i + n);
    assert form[..n] == BYTE_ARRAY;
    assert s[i..i + |form|][..n] == s[i..i + n];
    assert s[..|typeName|] == typeName && typeName[i..] == s[i..i + n];
  }

  lemma {:induction false} LiteralHasNoBase64(typeName: string, k: Key, other: Key, i: nat)
    requires IsTypeName(typeName)
    ensures !OccursAt(KeyString(other), Literal(typeName, k), i)
  {
    hide Base64, HexList, Literal;
    var s, form := Literal(typeName, k), KeyString(other);
    Base64Ends(other);
    var m :| 0 <= m < |form| && form[m] == '=';
    if OccursAt(form, s, i) {
      assert s[i..i + |form|][m] == '=';
      LiteralAt(typeName, k, i + m);
    }
  }

  lemma {:induction false} OtherTypeIsClean(typeName: string, k: Key, keys: seq<Option<Key>>)
    requires IsTypeName(typeName) && !EndsWith(typeName, BYTE_ARRAY)
    ensures Clean(Literal(typeName, k), keys)
  {
    hide OccursAt, GoSyntax, KeyString, Literal, EndsWith;
    var s := Literal(typeName, k);
    forall j | 0 <= j < |keys| && IsSecret(keys[j])
      ensures !Occurs(GoSyntax(keys[j].value), s) && !Occurs(KeyString(keys[j].value), s)
    {
      if i: nat :| OccursAt(GoSyntax(keys[j].value), s, i) {
        LiteralOccurs(typeName, k, keys[j].value, i);
      }
      if i: nat :| OccursAt(KeyString(keys[j].value), s, i) {
        LiteralHasNoBase64(typeName, k, keys[j].value, i);
      }
    }
  }

  lemma {:induction false} OwnTypeOccurs(typeName: string, k: Key) returns (at: nat)
    requires EndsWith(typeName, BYTE_ARRAY)
    ensures OccursAt(GoSyntax(k), Literal(typeName, k), at)
  {
    hide HexList;
    at := |typeName| - |BYTE_ARRAY|;
    assert typeName == typeName[..at] + BYTE_ARRAY;
    assert Literal(typeName, k) == typeName[..at] + GoSyntax(k);
  }

  /** A secret key printed in Go syntax under some type name is left as it is
      exactly when that name does not end in "[32]uint8". */
  lemma {:induction false} KeptUnderOtherType(typeName: string, k: Key, keys: seq<Option<Key>>)
    requires IsTypeName(typeName) && k != ZERO_KEY && Some(k) in keys
    ensures HideAll(Literal(typeName, k), keys) == Literal(typeName, k) <==> !EndsWith(typeName, BYTE_ARRAY)
  {
    hide GoSyntax, KeyString, HideAll, Literal, EndsWith, OccursAt;
    var s := Literal(typeName, k);
    if EndsWith(typeName, BYTE_ARRAY) {
      var at := OwnTypeOccurs(typeName, k);
      var j :| 0 <= j < |keys| && keys[j] == Some(k);
      HideAllCleans(s, keys);
      CleanHas(HideAll(s, keys), keys, j);
    } else {
      OtherTypeIsClean(typeName, k, keys);
      HideAllKeeps(s, keys);
    }
  }

  /** So a field of the type Key, which "%#v" prints under that type's name, is
      not hidden. */
  lemma {:induction false} KeyFieldIsKept(k: Key, keys: seq<Option<Key>>)
    ensures HideAll(Literal("wgtypes.Key", k), keys) == Literal("wgtypes.Key", k)
  {
    OtherTypeIsClean("wgtypes.Key", k, keys);
    HideAllKeeps(Literal("wgtypes.Key", k), keys);
  }
}
