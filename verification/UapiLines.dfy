/** The line protocol of userspace devices: "key=value" lines, an empty line
    ends the message. How lines are written (internal/wguser/configure.go) and
    how a reader takes them apart again (internal/wguser/parse.go). */
module UapiLines {
  import opened Types
  import opened Text

  datatype Line = Line(key: string, value: string)

  function LineText(l: Line): string { l.key + "=" + l.value }

  /** The lines as written, each with its line break. */
  function Render(lines: seq<Line>): string {
    if lines == [] then "" else LineText(lines[0]) + "\n" + Render(lines[1..])
  }

  lemma {:induction false} RenderAppend(xs: seq<Line>, ys: seq<Line>)
    ensures Render(xs + ys) == Render(xs) + Render(ys)
  {
    if xs == [] {
      assert xs + ys == ys;
    } else {
      assert (xs + ys)[1..] == xs[1..] + ys;
      RenderAppend(xs[1..], ys);
    }
  }

  // ----- reading lines

  /** The longest line bufio.Scanner returns: its buffer of 64 KiB has to hold
      the line break as well. */
  const MAX_LINE := 65535

  datatype Scan = Scanned(lines: seq<Line>) | TooLong | Malformed

  /** A key and a value around the only '=' of the line. */
  function SplitPair(line: string): Option<Line> {
    var c := Cut(line, '=');
    if c.found && '=' !in c.after then Some(Line(c.before, c.after)) else None
  }

  function Prepend(lines: seq<Line>, scan: Scan): Scan {
    match scan
    case Scanned(ls) => Scanned(lines + ls)
    case failed => failed
  }

  lemma {:induction false} PrependTwice(xs: seq<Line>, ys: seq<Line>, scan: Scan)
    ensures Prepend(xs, Prepend(ys, scan)) == Prepend(xs + ys, scan)
  {
    if scan.Scanned? {
      assert xs + (ys + scan.lines) == xs + ys + scan.lines;
    }
  }

  lemma {:induction false} PrependCases(lines: seq<Line>, scan: Scan)
    ensures Prepend([], scan) == scan
    ensures !scan.Scanned? ==> Prepend(lines, scan) == scan
    ensures scan == Scanned([]) ==> Prepend(lines, scan) == Scanned(lines)
  {
    assert lines + [] == lines;
    if scan.Scanned? {
      assert [] + scan.lines == scan.lines;
    }
  }

  /** The lines up to the first empty one or the end of the text. */
  function ScanText(text: string): Scan
    decreases |text|
  {
    if text == "" then Scanned([])
    else
      var c := Cut(text, '\n');
      if |c.before| > MAX_LINE then TooLong
      else
        var line := TrimSuffix(c.before, '\r');
        if line == "" then Scanned([])
        else
          match SplitPair(line)
          case None => Malformed
          case Some(l) => Prepend([l], if c.found then ScanText(c.after) else Scanned([]))
  }

  // ----- framing

  /** A text that cannot be taken for a separator. */
  predicate IsPlainText(s: string) {
    '=' !in s && '\n' !in s && '\r' !in s
  }

  predicate IsPlain(l: Line) { IsPlainText(l.key) && IsPlainText(l.value) }

  predicate IsLong(l: Line) { |LineText(l)| > 65535 }

  predicate AllPlain(lines: seq<Line>) { forall i :: 0 <= i < |lines| ==> IsPlain(lines[i]) }

  predicate SomeLong(lines: seq<Line>) { exists i :: 0 <= i < |lines| && IsLong(lines[i]) }

  lemma {:induction false} PlainLine(l: Line)
    requires IsPlain(l)
    ensures LineText(l) != "" && '\n' !in LineText(l) && TrimSuffix(LineText(l), '\r') == LineText(l)
    ensures SplitPair(LineText(l)) == Some(l)
  {
    CutAt(l.key, '=', l.value);
    assert LineText(l) == l.key + ['='] + l.value;
    var t := LineText(l);
    assert t[|t| - 1] == if l.value == "" then '=' else l.value[|l.value| - 1];
  }

  /** The first line of a text; a carriage return in front of the line break is
      no part of it. */
  lemma {:induction false} ScanFirst(l: Line, cr: bool, rest: string)
    requires IsPlain(l)
    ensures var raw := LineText(l) + if cr then "\r" else "";
            ScanText(raw + "\n" + rest) == if |raw| > 65535 then TooLong else Prepend([l], ScanText(rest))
  {
    hide SplitPair, LineText;
    var raw := LineText(l) + if cr then "\r" else "";
    PlainLine(l);
    CutAt(raw, '\n', rest);
    assert raw + "\n" + rest == raw + ['\n'] + rest;
    assert TrimSuffix(raw, '\r') == LineText(l);
  }

  function Count(s: string, c: char): nat {
    if s == "" then 0 else (if s[0] == c then 1 else 0) + Count(s[1..], c)
  }

  lemma {:induction false} CountNone(s: string, c: char)
    ensures Count(s, c) == 0 <==> c !in s
  {
    if s != "" {
      assert s == [s[0]] + s[1..];
      CountNone(s[1..], c);
    }
  }

  lemma {:induction false} CountCut(s: string, c: char)
    ensures Count(s, c) == if c in s then 1 + Count(Cut(s, c).after, c) else 0
  {
    if s != "" {
      assert s == [s[0]] + s[1..];
      if s[0] != c {
        CountCut(s[1..], c);
      }
    }
  }

  /** A line is a pair exactly when it has one '='. */
  lemma {:induction false} PairExact(line: string)
    ensures SplitPair(line).Some? <==> Count(line, '=') == 1
  {
    CutProperties(line, '=');
    CountCut(line, '=');
    CountNone(Cut(line, '=').after, '=');
  }

  /** Behind plain lines, a line that is neither empty nor a pair fails the whole
      message, whatever follows. */
  lemma {:induction false} BadLine(lines: seq<Line>, raw: string, rest: string)
    requires AllPlain(lines) && !SomeLong(lines) && '\n' !in raw && |raw| <= 65535
    requires TrimSuffix(raw, '\r') != "" && Count(TrimSuffix(raw, '\r'), '=') != 1
    ensures ScanText(Render(lines) + raw + "\n" + rest) == Malformed
  {
    hide LineText, SplitPair, IsPlain, IsLong, Count;
    if lines == [] {
      PairExact(TrimSuffix(raw, '\r'));
      CutAt(raw, '\n', rest);
      assert Render(lines) + raw + "\n" + rest == raw + ['\n'] + rest;
    } else {
      hide ScanText;
      var tail := Render(lines[1..]) + raw + "\n" + rest;
      assert Render(lines) + raw + "\n" + rest == LineText(lines[0]) + "\n" + tail;
      LongHere(lines);
      BadLine(lines[1..], raw, rest);
      ScanShort(lines[0], tail);
    }
  }

  lemma {:induction false} ScanShort(l: Line, rest: string)
    requires IsPlain(l)
    ensures ScanText(LineText(l) + "\n" + rest) == if IsLong(l) then TooLong else Prepend([l], ScanText(rest))
  {
    hide ScanText, LineText;
    ScanFirst(l, false, rest);
    assert LineText(l) + "" == LineText(l);
  }

  /** The end of the text, or an empty line, with or without a carriage return. */
  predicate IsEnd(s: string) { s == "" || "\n" <= s || "\r\n" <= s }

  lemma {:induction false} ScanEnd(s: string)
    requires IsEnd(s)
    ensures ScanText(s) == Scanned([])
  {
    if "\n" <= s {
      CutAt("", '\n', s[1..]);
      assert s == "" + ['\n'] + s[1..];
    } else if "\r\n" <= s {
      CutAt("\r", '\n', s[2..]);
      assert s == "\r" + ['\n'] + s[2..];
    }
  }

  /** Plain lines come back exactly as they were written, whatever stands behind
      the empty line, unless one of them is too long for the reader. */
  lemma {:induction false} Framing(lines: seq<Line>, end: string)
    requires AllPlain(lines) && IsEnd(end)
    ensures ScanText(Render(lines) + end) == if SomeLong(lines) then TooLong else Scanned(lines)
  {
    if lines == [] {
      ScanEnd(end);
      assert Render(lines) + end == end;
    } else {
      hide ScanText, LineText, Render, SomeLong, IsLong;
      var tail := Render(lines[1..]) + end;
      RenderFirst(lines, end);
      Framing(lines[1..], end);
      ScanShort(lines[0], tail);
      assert lines == [lines[0]] + lines[1..];
      LongHere(lines);
    }
  }

  lemma {:induction false} RenderFirst(lines: seq<Line>, end: string)
    requires lines != []
    ensures Render(lines) + end == LineText(lines[0]) + "\n" + (Render(lines[1..]) + end)
  {
    hide LineText;
  }

  lemma {:induction false} LongHere(lines: seq<Line>)
    requires lines != []
    ensures SomeLong(lines) <==> IsLong(lines[0]) || SomeLong(lines[1..])
  {
    if SomeLong(lines) {
      var i :| 0 <= i < |lines| && IsLong(lines[i]);
      assert i > 0 ==> IsLong(lines[1..][i - 1]);
    }
    if SomeLong(lines[1..]) {
      var i :| 0 <= i < |lines| - 1 && IsLong(lines[1..][i]);
      assert IsLong(lines[i + 1]);
    }
  }
}
