/** InitPacketSize (wgtypes/validate.go): the tag language of I1-I5. */
module InitSpec {
  import opened Types
  import opened Text
  import opened Numbers

  const MAX_MESSAGE_SIZE := 65535

  // ----- the grammar, stated without reference to the parser

  /** `<b 0xHEX>`, `<c>`, `<t>`, or `<r N>`, `<rc N>`, `<rd N>`. */
  datatype Tag =
    | Literal(hex: string)
    | Counter
    | Time
    | Random(key: string, num: Number)
  {
    predicate WellFormed() {
      match this
      case Literal(hex) => hex != "" && |hex| % 2 == 0 && IsHex(hex)
      case Random(key, num) =>
        (key == "r" || key == "rc" || key == "rd") && num.WellFormed() && num.Value() > 0
      case _ => true
    }

    function Body(): string {
      match this
      case Literal(hex) => "b 0x" + hex
      case Counter => "c"
      case Time => "t"
      case Random(key, num) => key + " " + num.Text()
    }

    function Size(): nat
      requires WellFormed()
    {
      match this
      case Literal(hex) => |hex| / 2
      case Counter => 4
      case Time => 4
      case Random(_, num) => num.Value()
    }
  }

  /** A tag together with the white space in front of it. */
  datatype Item = Item(blank: string, tag: Tag) {
    predicate WellFormed() { IsBlank(blank) && tag.WellFormed() }
  }

  function SpecText(items: seq<Item>, tail: string): string {
    if items == [] then tail
    else items[0].blank + "<" + items[0].tag.Body() + ">" + SpecText(items[1..], tail)
  }

  predicate WellFormedItems(items: seq<Item>) {
    forall i :: 0 <= i < |items| ==> items[i].WellFormed()
  }

  /** The size of the described packet: an unbounded sum. */
  function TotalSize(items: seq<Item>): nat
    requires WellFormedItems(items)
  {
    if items == [] then 0 else items[0].tag.Size() + TotalSize(items[1..])
  }

  /** s is a tag list with white space between the tags, describing n bytes. */
  ghost predicate Describes(s: string, n: nat) {
    exists items: seq<Item>, tail: string ::
      WellFormedItems(items) && IsBlank(tail) && s == SpecText(items, tail) && TotalSize(items) == n
  }

  // ----- the parser

  predicate IsHexChar(c: char) { '0' <= c <= '9' || 'a' <= c <= 'f' || 'A' <= c <= 'F' }

  predicate IsHex(s: string) { forall c :: c in s ==> IsHexChar(c) }

  /** The tag with this key and, after the first space, this value. */
  function ParseKeyed(key: string, hasVal: bool, val: string): (r: Option<Tag>)
    ensures r.Some? ==> r.value.WellFormed()
  {
    if key == "b" then
      if hasVal && "0x" <= val && Literal(val[2..]).WellFormed() then Some(Literal(val[2..])) else None
    else if key == "c" then
      if hasVal then None else Some(Counter)
    else if key == "t" then
      if hasVal then None else Some(Time)
    else
      var t := Random(key, NumberOf(val));
      if hasVal && t.WellFormed() then Some(t) else None
  }

  /** The tag written between '<' and '>'. */
  function ParseTag(body: string): (r: Option<Tag>)
    ensures r.Some? ==> r.value.WellFormed()
  {
    var c := Cut(body, ' ');
    ParseKeyed(c.before, c.found, c.after)
  }

  /** n more bytes than what the rest describes. */
  function Plus(n: nat, rest: Option<nat>): Option<nat> {
    if rest.Some? then Some(n + rest.value) else None
  }

  /** The size a text describes, without any bound on it. */
  function Meaning(s: string): Option<nat>
    decreases |s|
  {
    var c := Cut(s, '<');
    if !IsBlank(c.before) then None
    else if !c.found then Some(0)
    else
      var t := Cut(c.after, '>');
      if !t.found then None
      else
        match ParseTag(t.before)
        case Some(tag) => Plus(tag.Size(), Meaning(t.after))
        case None => None
  }

  lemma {:induction false} LiteralText(val: string)
    requires "0x" <= val
    ensures "b 0x" + val[2..] == "b" + " " + val
  {
    assert val == "0x" + val[2..];
    assert "b 0x" == "b" + " " + "0x";
  }

  /** The definition of Meaning, one tag deep. */
  lemma {:induction false} MeaningUnfolds(s: string)
    ensures var c := Cut(s, '<');
            var t := Cut(c.after, '>');
            Meaning(s) == if !IsBlank(c.before) then None
                          else if !c.found then Some(0)
                          else if !t.found || ParseTag(t.before).None? then None
                          else Plus(ParseTag(t.before).value.Size(), Meaning(t.after))
  {}

  lemma {:induction false} KeyedSound(key: string, hasVal: bool, val: string)
    requires ParseKeyed(key, hasVal, val).Some?
    ensures ParseKeyed(key, hasVal, val).value.Body() == if hasVal then key + " " + val else key
  {
    if key == "b" {
      LiteralText(val);
    } else if key != "c" && key != "t" {
      NumberOfText(val);
    }
  }

  lemma {:induction false} ParseTagSound(body: string)
    requires ParseTag(body).Some?
    ensures ParseTag(body).value.Body() == body
  {
    var c := Cut(body, ' ');
    CutProperties(body, ' ');
    KeyedSound(c.before, c.found, c.after);
  }

  lemma {:induction false} LiteralParses(hex: string)
    requires Literal(hex).WellFormed()
    ensures ParseTag("b 0x" + hex) == Some(Literal(hex))
  {
    var val := "0x" + hex;
    CutAt("b", ' ', val);
    assert "b 0x" + hex == "b" + [' '] + val;
    assert val[2..] == hex;
  }

  lemma {:induction false} RandomParses(key: string, num: Number)
    requires Random(key, num).WellFormed()
    ensures ParseTag(key + " " + num.Text()) == Some(Random(key, num))
  {
    CutAt(key, ' ', num.Text());
    NumberOfSpelling(num);
  }

  lemma {:induction false} ParseTagComplete(tag: Tag)
    requires tag.WellFormed()
    ensures ParseTag(tag.Body()) == Some(tag)
  {
    match tag
    case Literal(hex) => LiteralParses(hex);
    case Counter => CutNone("c", ' ');
    case Time => CutNone("t", ' ');
    case Random(key, num) => RandomParses(key, num);
  }

  predicate IsTagChar(c: char) { IsPlainChar(c) && c != '<' && c != '>' }

  /** An ASCII character other than '=' and NUL. */
  predicate IsPlainChar(c: char) { c as int < 0x80 && c != '=' && c != '\0' }

  lemma {:induction false} BodyIsPlain(tag: Tag)
    requires tag.WellFormed()
    ensures forall c :: c in tag.Body() ==> IsTagChar(c)
  {
    if tag.Random? {
      NumberAlphabet(tag.num);
    }
  }

  /** One tag in front of a text. */
  lemma {:induction false} MeaningStep(blank: string, body: string, rest: string)
    requires IsBlank(blank) && '>' !in body
    ensures Meaning(blank + "<" + body + ">" + rest) ==
            if ParseTag(body).Some? then Plus(ParseTag(body).value.Size(), Meaning(rest)) else None
  {
    hide Meaning, ParseTag;
    var s, after := blank + "<" + body + ">" + rest, body + [">"[0]] + rest;
    MeaningUnfolds(s);
    assert s == blank + ['<'] + after;
    BlankChars(blank);
    CutAt(blank, '<', after);
    CutAt(body, '>', rest);
  }

  lemma {:induction false} OneMoreItem(item: Item, rest: seq<Item>, tail: string)
    ensures SpecText([item] + rest, tail) == item.blank + "<" + item.tag.Body() + ">" + SpecText(rest, tail)
    ensures item.WellFormed() && WellFormedItems(rest) ==>
              WellFormedItems([item] + rest) && TotalSize([item] + rest) == item.tag.Size() + TotalSize(rest)
  {
    assert ([item] + rest)[1..] == rest;
  }

  lemma {:induction false} Rejoin(s: string, blank: string, after: string, body: string, rest: string)
    requires s == blank + ['<'] + after && after == body + ['>'] + rest
    ensures s == blank + "<" + body + ">" + rest
  {}

  lemma {:induction false} MeaningSound(s: string) returns (items: seq<Item>, tail: string)
    requires Meaning(s).Some?
    ensures WellFormedItems(items) && IsBlank(tail) && s == SpecText(items, tail)
    ensures TotalSize(items) == Meaning(s).value
    decreases |s|
  {
    var c := Cut(s, '<');
    CutProperties(s, '<');
    if !c.found {
      return [], s;
    }
    var t := Cut(c.after, '>');
    CutProperties(c.after, '>');
    ParseTagSound(t.before);
    var rest;
    rest, tail := MeaningSound(t.after);
    var item := Item(c.before, ParseTag(t.before).value);
    items := [item] + rest;
    OneMoreItem(item, rest, tail);
    assert s == SpecText(items, tail) by {
      OneMoreItem(item, rest, tail);
      Rejoin(s, c.before, c.after, t.before, t.after);
    }
  }

  /** A well-formed tag list adds its size to what follows. */
  lemma {:induction false} MeaningOfItems(items: seq<Item>, rest: string)
    requires WellFormedItems(items)
    ensures Meaning(SpecText(items, rest)) == Plus(TotalSize(items), Meaning(rest))
  {
    hide Meaning, ParseTag;
    if items != [] {
      var item, after := items[0], SpecText(items[1..], rest);
      assert items == [item] + items[1..];
      BodyIsPlain(item.tag);
      ParseTagComplete(item.tag);
      MeaningOfItems(items[1..], rest);
      OneMoreItem(item, items[1..], rest);
      MeaningStep(item.blank, item.tag.Body(), after);
    }
  }

  lemma {:induction false} MeaningComplete(items: seq<Item>, tail: string)
    requires WellFormedItems(items) && IsBlank(tail)
    ensures Meaning(SpecText(items, tail)) == Some(TotalSize(items))
  {
    MeaningOfItems(items, tail);
    BlankChars(tail);
    CutNone(tail, '<');
  }

  /** The meaning is exactly the grammar's. */
  lemma {:induction false} MeaningExact(s: string, n: nat)
    ensures Meaning(s) == Some(n) <==> Describes(s, n)
  {
    if Meaning(s) == Some(n) {
      var items, tail := MeaningSound(s);
    }
    if Describes(s, n) {
      var items: seq<Item>, tail: string :|
        WellFormedItems(items) && IsBlank(tail) && s == SpecText(items, tail) && TotalSize(items) == n;
      MeaningComplete(items, tail);
    }
  }

  /** The accepted sizes: at most 65535 bytes. */
  function Bounded(n: Option<nat>): Option<nat> {
    if n.Some? && n.value <= MAX_MESSAGE_SIZE then n else None
  }

  /** InitPacketSize: None is an error. The running check against what is left
      of 65535 amounts to a check of the whole, unbounded sum. */
  method InitPacketSize(spec: string) returns (r: Option<nat>)
    ensures r == Bounded(Meaning(spec))
  {
    hide Meaning, ParseTag;
    var size: nat, rest := 0, spec;
    while true
      invariant size <= MAX_MESSAGE_SIZE
      invariant Meaning(spec) == Plus(size, Meaning(rest))
      decreases |rest|
    {
      MeaningUnfolds(rest);
      var c := Cut(rest, '<');
      TrimmedToNothing(c.before);
      if TrimBlank(c.before) != "" {
        return None;
      }
      if !c.found {
        return Some(size);
      }
      var t := Cut(c.after, '>');
      if !t.found {
        return None;
      }
      var n := TagSize(t.before);
      if n.None? || n.value > MAX_MESSAGE_SIZE - size {
        return None;
      }
      rest := t.after;
      size := size + n.value;
    }
  }

  /** The size of one tag, as the switch of InitPacketSize computes it. */
  method TagSize(body: string) returns (n: Option<nat>)
    ensures n == if ParseTag(body).Some? then Bounded(Some(ParseTag(body).value.Size()))
                 else None
  {
    var c := Cut(body, ' ');
    var key, val := c.before, c.after;
    if key == "b" {
      if !c.found || !("0x" <= val) || |val[2..]| == 0 || |val[2..]| % 2 != 0 || !IsHex(val[2..]) {
        return None;
      }
      n := Bounded(Some(|val[2..]| / 2));
    } else if key == "c" || key == "t" {
      if c.found {
        return None;
      }
      n := Some(4);
    } else if key == "r" || key == "rc" || key == "rd" {
      var v := ParseInt(TrimSuffix(val, '\n'), MAX_INT32);
      SignedNumber(val);
      if !c.found || v.None? || v.value <= 0 || v.value > MAX_MESSAGE_SIZE {
        return None;
      }
      n := Some(v.value);
    } else {
      return None;
    }
  }

  /** The signed parse of a length agrees with the number grammar on every
      positive value in range. */
  lemma {:induction false} SignedNumber(val: string)
    ensures var v, num := ParseInt(TrimSuffix(val, '\n'), MAX_INT32), NumberOf(val);
            forall k: int :: 0 < k <= MAX_INT32 ==>
              (v == Some(k) <==> num.WellFormed() && num.Value() == k)
  {
    var t := TrimSuffix(val, '\n');
    if t != "" && t[0] == '-' {
      assert !IsDigit('-') && t[0] in Bare(val);
    }
  }

  // ----- what InitPacketSize accepts

  /** A text is accepted with size n exactly when the grammar gives it size n
      and n fits in one message. */
  lemma {:induction false} AcceptedExactly(spec: string, n: nat)
    ensures Bounded(Meaning(spec)) == Some(n) <==> n <= 65535 && Describes(spec, n)
  {
    MeaningExact(spec, n);
  }

  /** Writing a tag list and parsing it gives the sum of the tag sizes, or an
      error when that does not fit in one message. */
  lemma {:induction false} PrintedTagsParse(items: seq<Item>, tail: string)
    requires WellFormedItems(items) && IsBlank(tail)
    ensures Bounded(Meaning(SpecText(items, tail))) == Bounded(Some(TotalSize(items)))
  {
    MeaningComplete(items, tail);
  }

  /** White space in front of a text does not change its meaning. */
  lemma {:induction false} BlankPrefix(b: string, t: string)
    requires IsBlank(b)
    ensures Meaning(b + t) == Meaning(t)
  {
    hide Meaning, ParseTag, Cut, IsBlank, Plus;
    var c := Cut(t, '<');
    CutBehind(b, t);
    MeaningUnfolds(t);
    MeaningUnfolds(b + t);
    BlankAppend(b, c.before);
  }

  /** White space in front goes to the part before the first tag. */
  lemma {:induction false} CutBehind(b: string, t: string)
    requires IsBlank(b)
    ensures Cut(b + t, '<') == Cut(t, '<').(before := b + Cut(t, '<').before)
  {
    hide Cut, IsBlank;
    var c := Cut(t, '<');
    CutProperties(t, '<');
    BlankChars(b);
    if c.found {
      assert b + t == (b + c.before) + ['<'] + c.after;
      CutAt(b + c.before, '<', c.after);
    } else {
      CutNone(b + t, '<');
    }
  }

  lemma {:induction false} SpecTextTail(xs: seq<Item>, a: string, b: string)
    ensures SpecText(xs, a + b) == SpecText(xs, a) + b
  {
    if xs != [] {
      SpecTextTail(xs[1..], a, b);
    }
  }

  /** Meaning is additive: what follows an accepted text adds its own size. */
  lemma {:induction false} MeaningAdds(s: string, t: string)
    requires Meaning(s).Some?
    ensures Meaning(s + t) == Plus(Meaning(s).value, Meaning(t))
  {
    var items, tail := MeaningSound(s);
    SpecTextTail(items, tail, t);
    BlankPrefix(tail, t);
    MeaningOfItems(items, tail + t);
  }

  /** Accepted texts concatenate to the sum of their sizes, and the
      concatenation is accepted exactly when that sum still fits. */
  lemma {:induction false} AcceptedTextsConcatenate(s: string, t: string)
    requires Bounded(Meaning(s)).Some? && Bounded(Meaning(t)).Some?
    ensures var sum := Meaning(s).value + Meaning(t).value;
            Bounded(Meaning(s + t)) == if sum <= 65535 then Some(sum) else None
  {
    hide Meaning;
    MeaningAdds(s, t);
  }

  lemma {:induction false} SpecTextIsPlain(items: seq<Item>, tail: string)
    requires WellFormedItems(items) && IsBlank(tail)
    ensures forall c :: c in SpecText(items, tail) ==> IsPlainChar(c)
  {
    if items != [] {
      BlankChars(items[0].blank);
      BodyIsPlain(items[0].tag);
      SpecTextIsPlain(items[1..], tail);
    } else {
      BlankChars(tail);
    }
  }

  /** An accepted text is ASCII, without the separator of the line protocol and
      without NUL. */
  lemma {:induction false} AcceptedSpecIsPlain(s: string)
    requires Meaning(s).Some?
    ensures forall c :: c in s ==> IsPlainChar(c)
  {
    var items, tail := MeaningSound(s);
    SpecTextIsPlain(items, tail);
  }
}
