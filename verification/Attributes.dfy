/** Netlink attributes as a tree, with the integers and texts inside them. */
module Attributes {
  import opened Types

  /** The byte order of the host. */
  datatype Endian = Little | Big

  /** An attribute: raw bytes or nested attributes. */
  datatype Attr =
    | Leaf(typ: nat, bytes: seq<byte>)
    | Nest(typ: nat, attrs: seq<Attr>)

  // ----- integers

  /** Conversion to an unsigned integer of 8, 16 or 32 bits wraps around. */
  function ToUint8(v: int): nat { v % 0x100 }

  function ToUint16(v: int): nat { v % 0x1_0000 }

  function ToUint32(v: int): nat { v % 0x1_0000_0000 }

  function PutUint16(e: Endian, v: nat): (b: seq<byte>)
    requires v < 0x1_0000
    ensures |b| == 2
  {
    if e.Little? then [v % 0x100, v / 0x100] else [v / 0x100, v % 0x100]
  }

  function GetUint16(e: Endian, b: seq<byte>): (v: nat)
    requires |b| == 2
    ensures v < 0x1_0000
  {
    var first: nat, second: nat := b[0], b[1];
    if e.Little? then first + 0x100 * second else 0x100 * first + second
  }

  function PutUint32(e: Endian, v: nat): (b: seq<byte>)
    requires v < 0x1_0000_0000
    ensures |b| == 4
  {
    if e.Little? then PutUint16(e, v % 0x1_0000) + PutUint16(e, v / 0x1_0000)
    else PutUint16(e, v / 0x1_0000) + PutUint16(e, v % 0x1_0000)
  }

  function GetUint32(e: Endian, b: seq<byte>): (v: nat)
    requires |b| == 4
    ensures v < 0x1_0000_0000
  {
    if e.Little? then GetUint16(e, b[..2]) + 0x1_0000 * GetUint16(e, b[2..])
    else 0x1_0000 * GetUint16(e, b[..2]) + GetUint16(e, b[2..])
  }

  function GetUint64(e: Endian, b: seq<byte>): nat
    requires |b| == 8
  {
    if e.Little? then GetUint32(e, b[..4]) + 0x1_0000_0000 * GetUint32(e, b[4..])
    else 0x1_0000_0000 * GetUint32(e, b[..4]) + GetUint32(e, b[4..])
  }

  function PutUint64(e: Endian, v: nat): (b: seq<byte>)
    requires v < 0x1_0000_0000_0000_0000
    ensures |b| == 8
  {
    if e.Little? then PutUint32(e, v % 0x1_0000_0000) + PutUint32(e, v / 0x1_0000_0000)
    else PutUint32(e, v / 0x1_0000_0000) + PutUint32(e, v % 0x1_0000_0000)
  }

  /** An unsigned number read as a signed one of 32 bits. */
  function ToInt32(v: nat): int
    requires v < 0x1_0000_0000
  {
    if v < 0x8000_0000 then v else v - 0x1_0000_0000
  }

  lemma {:induction false} Uint16RoundTrip(e: Endian, v: nat)
    requires v < 0x1_0000
    ensures GetUint16(e, PutUint16(e, v)) == v
  {}

  lemma {:induction false} Uint32RoundTrip(e: Endian, v: nat)
    requires v < 0x1_0000_0000
    ensures GetUint32(e, PutUint32(e, v)) == v
  {
    Uint16RoundTrip(e, v % 0x1_0000);
    Uint16RoundTrip(e, v / 0x1_0000);
    var lo, hi := PutUint16(e, v % 0x1_0000), PutUint16(e, v / 0x1_0000);
    assert (lo + hi)[..2] == lo && (lo + hi)[2..] == hi && (hi + lo)[..2] == hi && (hi + lo)[2..] == lo;
  }

  lemma {:induction false} Uint64RoundTrip(e: Endian, v: nat)
    requires v < 0x1_0000_0000_0000_0000
    ensures GetUint64(e, PutUint64(e, v)) == v
  {
    hide PutUint32, GetUint32;
    Uint32RoundTrip(e, v % 0x1_0000_0000);
    Uint32RoundTrip(e, v / 0x1_0000_0000);
    var lo, hi := PutUint32(e, v % 0x1_0000_0000), PutUint32(e, v / 0x1_0000_0000);
    assert (lo + hi)[..4] == lo && (lo + hi)[4..] == hi && (hi + lo)[..4] == hi && (hi + lo)[4..] == lo;
  }

  function Sum32(b0: nat, b1: nat, b2: nat, b3: nat): nat {
    b0 + 0x100 * b1 + 0x1_0000 * b2 + 0x100_0000 * b3
  }

  /** The bytes count in rising powers of 256, from either end. */
  lemma {:induction false} UintExact(b: seq<byte>)
    requires |b| == 8
    ensures GetUint16(Little, b[..2]) == Sum32(b[0], b[1], 0, 0) && GetUint16(Big, b[..2]) == Sum32(b[1], b[0], 0, 0)
    ensures GetUint32(Little, b[..4]) == Sum32(b[0], b[1], b[2], b[3])
    ensures GetUint32(Big, b[..4]) == Sum32(b[3], b[2], b[1], b[0])
    ensures GetUint64(Little, b) ==
            Sum32(b[0], b[1], b[2], b[3]) + 0x1_0000_0000 * Sum32(b[4], b[5], b[6], b[7])
    ensures GetUint64(Big, b) ==
            Sum32(b[7], b[6], b[5], b[4]) + 0x1_0000_0000 * Sum32(b[3], b[2], b[1], b[0])
  {
    Uint32Exact(b[..4]);
    Uint32Exact(b[4..]);
    assert b[..4][..2] == b[..2];
  }

  lemma {:induction false} Uint32Exact(b: seq<byte>)
    requires |b| == 4
    ensures GetUint16(Little, b[..2]) == Sum32(b[0], b[1], 0, 0) && GetUint16(Big, b[..2]) == Sum32(b[1], b[0], 0, 0)
    ensures GetUint32(Little, b) == Sum32(b[0], b[1], b[2], b[3]) && GetUint32(Big, b) == Sum32(b[3], b[2], b[1], b[0])
  {}

  // ----- texts

  /** A Go string is a sequence of bytes, each of them one character here. */
  predicate IsByteText(s: string) { forall i :: 0 <= i < |s| ==> s[i] as int < 0x100 }

  function BytesOf(s: string): (b: seq<byte>)
    ensures |b| == |s|
  {
    seq(|s|, i requires 0 <= i < |s| => s[i] as int % 0x100)
  }

  function CharsOf(b: seq<byte>): (s: string)
    ensures |s| == |b|
  {
    seq(|b|, i requires 0 <= i < |b| => b[i] as char)
  }

  /** nlenc.Bytes: the text and a NUL. */
  function TextAttr(typ: nat, s: string): Attr { Leaf(typ, BytesOf(s) + [0]) }

  function TrimNul(s: string): string {
    if s != "" && s[|s| - 1] == '\0' then TrimNul(s[..|s| - 1]) else s
  }

  /** nlenc.String: the text without trailing NULs. */
  function TextOf(b: seq<byte>): string { TrimNul(CharsOf(b)) }

  /** A text without NUL is read back. */
  lemma {:induction false} TextRoundTrip(s: string)
    requires '\0' !in s && IsByteText(s)
    ensures TextOf(BytesOf(s) + [0]) == s
  {
    var t := CharsOf(BytesOf(s) + [0]);
    assert t == s + "\0";
    assert t[..|s|] == s;
    assert TrimNul(s) == s;
  }

  // ----- what a list of attributes says under a type

  /** The bytes of the last value with this type. */
  function LastLeaf(attrs: seq<Attr>, typ: nat): Option<seq<byte>> {
    if attrs == [] then None
    else
      var a := attrs[|attrs| - 1];
      if a.Leaf? && a.typ == typ then Some(a.bytes) else LastLeaf(attrs[..|attrs| - 1], typ)
  }

  /** The last nested attributes with this type. */
  function LastNest(attrs: seq<Attr>, typ: nat): Option<seq<Attr>> {
    if attrs == [] then None
    else
      var a := attrs[|attrs| - 1];
      if a.Nest? && a.typ == typ then Some(a.attrs) else LastNest(attrs[..|attrs| - 1], typ)
  }

  function Or<T>(later: Option<T>, earlier: Option<T>): Option<T> { if later.Some? then later else earlier }

  lemma {:induction false} SaidByMore(attrs: seq<Attr>, a: Attr)
    ensures forall typ: nat {:trigger LastLeaf(attrs + [a], typ)} ::
              LastLeaf(attrs + [a], typ) == if a.Leaf? && a.typ == typ then Some(a.bytes) else LastLeaf(attrs, typ)
    ensures forall typ: nat {:trigger LastNest(attrs + [a], typ)} ::
              LastNest(attrs + [a], typ) == if a.Nest? && a.typ == typ then Some(a.attrs) else LastNest(attrs, typ)
  {
    assert (attrs + [a])[..|attrs|] == attrs;
  }

  lemma {:induction false} SaidByOne(a: Attr)
    ensures forall typ: nat :: LastLeaf([a], typ) == if a.Leaf? && a.typ == typ then Some(a.bytes) else None
    ensures forall typ: nat :: LastNest([a], typ) == if a.Nest? && a.typ == typ then Some(a.attrs) else None
    ensures forall typ: nat :: LastLeaf([], typ) == None && LastNest([], typ) == None
  {
    assert [a][..0] == [];
  }

  /** What stands behind prevails. */
  lemma {:induction false} SaidAppend(xs: seq<Attr>, ys: seq<Attr>, typ: nat)
    ensures LastLeaf(xs + ys, typ) == Or(LastLeaf(ys, typ), LastLeaf(xs, typ))
    ensures LastNest(xs + ys, typ) == Or(LastNest(ys, typ), LastNest(xs, typ))
    decreases |ys|
  {
    if ys == [] {
      assert xs + ys == xs;
    } else {
      var all, n := xs + ys, |ys| - 1;
      assert all[..|all| - 1] == xs + ys[..n];
      SaidAppend(xs, ys[..n], typ);
    }
  }

  /** What is said is said by one of the attributes. */
  lemma {:induction false} SaidIsThere(attrs: seq<Attr>, typ: nat)
    ensures LastLeaf(attrs, typ).Some? ==> Leaf(typ, LastLeaf(attrs, typ).value) in attrs
    ensures LastNest(attrs, typ).Some? ==> Nest(typ, LastNest(attrs, typ).value) in attrs
    decreases |attrs|
  {
    if attrs != [] {
      SaidIsThere(attrs[..|attrs| - 1], typ);
    }
  }

  /** Values of the expected size, as numbers. */
  function Uint8Of(b: Option<seq<byte>>): Option<nat> {
    if b.Some? && |b.value| == 1 then Some(b.value[0]) else None
  }

  function Uint16Of(e: Endian, b: Option<seq<byte>>): Option<nat> {
    if b.Some? && |b.value| == 2 then Some(GetUint16(e, b.value)) else None
  }

  function Uint32Of(e: Endian, b: Option<seq<byte>>): Option<nat> {
    if b.Some? && |b.value| == 4 then Some(GetUint32(e, b.value)) else None
  }

  function Uint64Of(e: Endian, b: Option<seq<byte>>): Option<nat> {
    if b.Some? && |b.value| == 8 then Some(GetUint64(e, b.value)) else None
  }

  function KeyIn(b: Option<seq<byte>>): Option<Key> {
    if b.Some? && |b.value| == KEY_LEN then Some(b.value) else None
  }

  // ----- sizes on the wire

  const MAX_ATTR := 65535

  function Align4(n: nat): nat { (n + 3) / 4 * 4 }

  /** The length field: a 4-byte header and the payload. */
  function Len(a: Attr): nat
    decreases a
  {
    match a
    case Leaf(_, b) => 4 + |b|
    case Nest(_, attrs) => 4 + TotalLen(attrs)
  }

  /** The space a list of attributes takes, each padded to 4 bytes. */
  function TotalLen(attrs: seq<Attr>): nat
    decreases attrs
  {
    if attrs == [] then 0 else Align4(Len(attrs[0])) + TotalLen(attrs[1..])
  }

  /** An attribute in bytes: its length, its type, what it holds. (The flags of
      the type field are left out.) */
  function Packed(e: Endian, a: Attr): seq<byte>
    decreases a
  {
    var payload := match a case Leaf(_, b) => b case Nest(_, attrs) => PackedAll(e, attrs);
    PutUint16(e, ToUint16(4 + |payload|)) + PutUint16(e, ToUint16(a.typ)) + payload
  }

  /** Attributes one behind the other, each padded with zeros to four bytes. */
  function PackedAll(e: Endian, attrs: seq<Attr>): seq<byte>
    decreases attrs
  {
    if attrs == [] then []
    else
      var first := Packed(e, attrs[0]);
      first + Zeros((4 - |first| % 4) % 4) + PackedAll(e, attrs[1..])
  }

  /** Len and TotalLen are the sizes of these bytes. */
  lemma {:induction false} PackedLen(e: Endian, a: Attr)
    ensures |Packed(e, a)| == Len(a)
    decreases a
  {
    if a.Nest? {
      PackedTotal(e, a.attrs);
    }
  }

  lemma {:induction false} PackedTotal(e: Endian, attrs: seq<Attr>)
    ensures |PackedAll(e, attrs)| == TotalLen(attrs)
    decreases attrs
  {
    hide Packed, Len, Align4;
    if attrs != [] {
      PackedLen(e, attrs[0]);
      PackedTotal(e, attrs[1..]);
      Padding(Len(attrs[0]));
    }
  }

  lemma {:induction false} Padding(n: nat)
    ensures n + (4 - n % 4) % 4 == Align4(n)
  {}

  /** The attribute and all it contains fit their 16-bit length fields. */
  predicate Fits(a: Attr)
    decreases a
  {
    Len(a) <= 65535 && (a.Nest? ==> AllFit(a.attrs))
  }

  predicate AllFit(attrs: seq<Attr>)
    decreases attrs
  {
    attrs == [] || (Fits(attrs[0]) && AllFit(attrs[1..]))
  }

  lemma {:induction false} TotalLenAppend(xs: seq<Attr>, ys: seq<Attr>)
    ensures TotalLen(xs + ys) == TotalLen(xs) + TotalLen(ys)
  {
    if xs == [] {
      assert xs + ys == ys;
    } else {
      assert (xs + ys)[1..] == xs[1..] + ys;
      TotalLenAppend(xs[1..], ys);
    }
  }

  lemma {:induction false} AllFitAppend(xs: seq<Attr>, ys: seq<Attr>)
    ensures AllFit(xs + ys) <==> AllFit(xs) && AllFit(ys)
  {
    if xs == [] {
      assert xs + ys == ys;
    } else {
      assert (xs + ys)[1..] == xs[1..] + ys;
      AllFitAppend(xs[1..], ys);
    }
  }
}
