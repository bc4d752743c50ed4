/** Config.GenerateAmneziaParams (wgtypes/types.go). */
module Generate {
  import opened Types
  import opened Text
  import opened Numbers
  import opened InitSpec
  import opened Validate
  import Batching

  /** The random number below n that the draw gives. */
  function Num(draw: nat -> nat, at: nat, n: nat): (r: nat)
    requires n > 0
    ensures r < n
  {
    draw(at) % n
  }

  lemma {:induction false} NumIs(draw: nat -> nat, at: nat, n: nat)
    requires draw(at) < n
    ensures Num(draw, at, n) == draw(at)
  {}

  /** A source of random numbers: draw number `at` is any number, IntN brings it
      into range. So whatever holds for every `draw` holds for all random draws. */
  class Source {
    const draw: nat -> nat
    var at: nat

    constructor (draw: nat -> nat)
      ensures this.draw == draw && at == 0
    {
      this.draw, at := draw, 0;
    }

    /** rand.IntN. */
    method IntN(n: nat) returns (r: nat)
      requires n > 0
      modifies this`at
      ensures at == old(at) + 1 && r == Num(draw, old(at), n)
    {
      r := draw(at) % n;
      at := at + 1;
    }
  }

  // ----- the ranges of the magic headers

  /** No generated bound is above this. */
  const MAX_BOUND := 889_999_992

  /** A text that spells a range of at least 50,000,001 values within bounds. */
  predicate GoodRange(s: string) {
    var r := ParseMagicHeader(s);
    r.Some? && 150_000_000 <= r.value.start && r.value.start + 50_000_000 <= r.value.end <= MAX_BOUND
  }

  predicate DisjointRanges(s: string, t: string)
    requires GoodRange(s) && GoodRange(t)
  {
    var a, b := ParseMagicHeader(s).value, ParseMagicHeader(t).value;
    a.end < b.start || b.end < a.start
  }

  predicate GoodRanges(ranges: seq<string>) {
    && (forall i :: 0 <= i < |ranges| ==> GoodRange(ranges[i]))
    && (forall i, j :: 0 <= i < j < |ranges| ==> DisjointRanges(ranges[i], ranges[j]))
  }

  /** The texts spell these ranges, increasing and all below the limit. */
  predicate Spaced(texts: seq<string>, ranges: seq<Range>, limit: nat) {
    && |texts| == |ranges|
    && (forall k :: 0 <= k < |texts| ==> ParseMagicHeader(texts[k]) == Some(ranges[k]) && GoodRange(texts[k]))
    && (forall k :: 0 <= k < |ranges| ==> ranges[k].end < limit)
    && (forall k, l :: 0 <= k < l < |ranges| ==> ranges[k].end < ranges[l].start)
  }

  lemma {:induction false} SpacedNext(texts: seq<string>, ranges: seq<Range>, start: nat, end: nat, limit: nat)
    requires Spaced(texts, ranges, start)
    requires 150_000_000 <= start && start + 50_000_000 <= end <= MAX_BOUND && end < limit
    ensures Spaced(texts + [Dec(start) + "-" + Dec(end)], ranges + [Range(start, end)], limit)
  {
    hide ParseMagicHeader, Dec;
    PrintedRangeParses(start, end);
  }

  lemma {:induction false} SpacedAreGood(texts: seq<string>, ranges: seq<Range>, limit: nat)
    requires Spaced(texts, ranges, limit)
    ensures GoodRanges(texts)
  {
    hide ParseMagicHeader;
  }

  /** The i-th range, and where the one behind it starts: widths and gaps come
      from two draws each, behind the one for the first start. */
  function RangeAt(draw: nat -> nat, at: nat, i: nat): (r: Range)
    ensures 150_000_000 <= r.start <= 199_999_999 + i * 179_999_998
    ensures r.start + 50_000_000 <= r.end <= r.start + 149_999_999
  {
    var start := if i == 0 then 150_000_000 + Num(draw, at, 50_000_000)
                 else RangeAt(draw, at, i - 1).end + 10_000_000 + Num(draw, at + 2 * i, 20_000_000);
    Range(start, start + 50_000_000 + Num(draw, at + 2 * i + 1, 100_000_000))
  }

  function RangeText(r: Range): string { Dec(r.start) + "-" + Dec(r.end) }

  function RangeTexts(draw: nat -> nat, at: nat, n: nat): (texts: seq<string>)
    ensures |texts| == n
  {
    if n == 0 then [] else RangeTexts(draw, at, n - 1) + [RangeText(RangeAt(draw, at, n - 1))]
  }

  lemma {:induction false} TextsMore(draw: nat -> nat, at: nat, n: nat)
    ensures RangeTexts(draw, at, n + 1) == RangeTexts(draw, at, n) + [RangeText(RangeAt(draw, at, n))]
    ensures RangeTexts(draw, at, 0) == []
  {
    hide RangeText, RangeAt;
  }

  /** Whatever is drawn, the ranges increase, with a gap between them, and each
      text spells its own. */
  lemma {:induction false} TextsAreSpaced(draw: nat -> nat, at: nat, n: nat)
    requires n <= 4
    ensures Spaced(RangeTexts(draw, at, n), seq(n, i requires 0 <= i < n => RangeAt(draw, at, i)),
                   if n == 0 then 0 else RangeAt(draw, at, n - 1).end + 1)
  {
    hide Spaced, RangeAt, RangeTexts;
    TextsMore(draw, at, n);
    if n == 0 {
      NothingIsSpaced(0);
    } else {
      var before := seq(n - 1, i requires 0 <= i < n - 1 => RangeAt(draw, at, i));
      var r := RangeAt(draw, at, n - 1);
      TextsAreSpaced(draw, at, n - 1);
      TextsMore(draw, at, n - 1);
      RangesRise(draw, at, n - 1);
      SpacedLimit(RangeTexts(draw, at, n - 1), before, if n == 1 then 0 else RangeAt(draw, at, n - 2).end + 1, r.start);
      SpacedNext(RangeTexts(draw, at, n - 1), before, r.start, r.end, r.end + 1);
      assert seq(n, i requires 0 <= i < n => RangeAt(draw, at, i)) == before + [r];
    }
  }

  lemma {:induction false} RangesRise(draw: nat -> nat, at: nat, i: nat)
    requires i < 4
    ensures i > 0 ==> RangeAt(draw, at, i - 1).end + 10_000_000 <= RangeAt(draw, at, i).start
    ensures RangeAt(draw, at, i).end <= MAX_BOUND
  {}

  lemma {:induction false} SpacedLimit(texts: seq<string>, ranges: seq<Range>, low: nat, high: nat)
    requires Spaced(texts, ranges, low) && low <= high
    ensures Spaced(texts, ranges, high)
  {
    hide ParseMagicHeader, GoodRange;
  }

  lemma {:induction false} NothingIsSpaced(limit: nat)
    ensures Spaced([], [], limit)
  {}

  lemma {:induction false} TextsAreGood(draw: nat -> nat, at: nat)
    ensures GoodRanges(RangeTexts(draw, at, 4))
  {
    hide Spaced, GoodRanges;
    TextsAreSpaced(draw, at, 4);
    SpacedAreGood(RangeTexts(draw, at, 4), seq(4, i requires 0 <= i < 4 => RangeAt(draw, at, i)),
                  RangeAt(draw, at, 3).end + 1);
  }

  /** Step 3.1: increasing ranges with a gap between them. */
  method MakeRanges(src: Source) returns (ranges: array<string>)
    modifies src`at
    ensures src.at == old(src.at) + 9
    ensures fresh(ranges) && ranges[..] == RangeTexts(src.draw, old(src.at), 4)
    ensures GoodRanges(ranges[..])
  {
    hide GoodRanges, RangeTexts, RangeText, RangeAt, Dec, Num;
    ghost var first := src.at;
    var offset := src.IntN(50_000_000);
    var currentOffset := 150_000_000 + offset;
    ranges := new string[4](_ => "");
    TextsMore(src.draw, first, 0);
    RangeFrom(src.draw, first, 0);
    for i := 0 to 4
      invariant src.at == first + 1 + 2 * i
      invariant i < 4 ==> currentOffset == RangeAt(src.draw, first, i).start
      invariant ranges[..i] == RangeTexts(src.draw, first, i)
    {
      var rangeStart := currentOffset;
      var width := src.IntN(100_000_000);
      var rangeEnd := rangeStart + 50_000_000 + width;
      ghost var before := ranges[..i];
      ranges[i] := Dec(rangeStart) + "-" + Dec(rangeEnd);
      var gap := src.IntN(20_000_000);
      currentOffset := rangeEnd + 10_000_000 + gap;
      RangeFrom(src.draw, first, i);
      assert RangeText(RangeAt(src.draw, first, i)) == ranges[i];
      TextsMore(src.draw, first, i);
      assert ranges[..i + 1] == before + [ranges[i]];
    }
    assert ranges[..4] == ranges[..];
    TextsAreGood(src.draw, first);
  }

  lemma {:induction false} RangeFrom(draw: nat -> nat, at: nat, i: nat)
    ensures RangeAt(draw, at, 0).start == 150_000_000 + Num(draw, at, 50_000_000)
    ensures var r := RangeAt(draw, at, i);
            && r.end == r.start + 50_000_000 + Num(draw, at + 1 + 2 * i, 100_000_000)
            && RangeText(r) == Dec(r.start) + "-" + Dec(r.end)
            && RangeAt(draw, at, i + 1).start == r.end + 10_000_000 + Num(draw, at + 2 + 2 * i, 20_000_000)
  {
    hide Dec, Num;
    assert at + 2 * i + 1 == at + 1 + 2 * i && at + 2 * (i + 1) == at + 2 + 2 * i;
  }

  // ----- the shuffle

  function Swapped(s: seq<string>, i: nat, j: nat): (t: seq<string>)
    requires i < |s| && j < |s|
    ensures |t| == |s|
  {
    s[i := s[j]][j := s[i]]
  }

  /** Position i, from the last down to the second, is swapped with the position
      the next pick names. */
  function Shuffled(s: seq<string>, picks: seq<nat>): (t: seq<string>)
    requires |picks| < |s|
    requires forall k :: 0 <= k < |picks| ==> picks[k] <= |picks| - k
    ensures |t| == |s|
    decreases |picks|
  {
    if picks == [] then s else Shuffled(Swapped(s, |picks|, picks[0]), picks[1..])
  }

  /** The picks of a shuffle of n + 1 elements. */
  function Picks(draw: nat -> nat, at: nat, n: nat): (picks: seq<nat>)
    ensures |picks| == n && forall k :: 0 <= k < n ==> picks[k] <= n - k
    decreases n
  {
    if n == 0 then [] else [Num(draw, at, n + 1)] + Picks(draw, at + 1, n - 1)
  }

  lemma {:induction false} PicksUnfold(draw: nat -> nat, at: nat, n: nat)
    requires n > 0
    ensures Picks(draw, at, n)[0] == Num(draw, at, n + 1) && Picks(draw, at, n)[1..] == Picks(draw, at + 1, n - 1)
  {
    hide Num;
  }

  /** rand.Shuffle with the swap of Step 3.2. */
  method Shuffle(src: Source, ranges: array<string>)
    requires ranges.Length > 0
    modifies src`at, ranges
    ensures src.at == old(src.at) + ranges.Length - 1
    ensures ranges[..] == Shuffled(old(ranges[..]), Picks(src.draw, old(src.at), ranges.Length - 1))
  {
    hide Picks, Shuffled;
    var i := ranges.Length - 1;
    ghost var was, first := ranges[..], src.at;
    while i > 0
      invariant 0 <= i < ranges.Length && src.at + i == first + ranges.Length - 1
      invariant Shuffled(ranges[..], Picks(src.draw, src.at, i)) ==
                Shuffled(was, Picks(src.draw, first, ranges.Length - 1))
    {
      PicksUnfold(src.draw, src.at, i);
      ShuffledUnfolds(ranges[..], Picks(src.draw, src.at, i));
      var j := src.IntN(i + 1);
      ghost var before := ranges[..];
      ranges[i], ranges[j] := ranges[j], ranges[i];
      assert ranges[..] == Swapped(before, i, j);
      i := i - 1;
    }
    ShuffledUnfolds(ranges[..], Picks(src.draw, src.at, 0));
  }

  lemma {:induction false} ShuffledUnfolds(s: seq<string>, picks: seq<nat>)
    requires |picks| < |s| && forall k :: 0 <= k < |picks| ==> picks[k] <= |picks| - k
    ensures Shuffled(s, picks) == if picks == [] then s else Shuffled(Swapped(s, |picks|, picks[0]), picks[1..])
  {}

  lemma {:induction false} SwapKeepsTexts(s: seq<string>, i: nat, j: nat)
    requires i < |s| && j < |s|
    ensures multiset(Swapped(s, i, j)) == multiset(s)
  {}

  lemma {:induction false} SwapKeepsRanges(s: seq<string>, i: nat, j: nat)
    requires i < |s| && j < |s| && GoodRanges(s)
    ensures GoodRanges(Swapped(s, i, j))
  {
    hide GoodRange;
    var t := Swapped(s, i, j);
    assert forall k :: 0 <= k < |t| ==> t[k] == s[if k == i then j else if k == j then i else k];
  }

  /** Every shuffle keeps the texts, and their disjointness. */
  lemma {:induction false} ShuffleKeeps(s: seq<string>, picks: seq<nat>)
    requires |picks| < |s| && forall k :: 0 <= k < |picks| ==> picks[k] <= |picks| - k
    ensures multiset(Shuffled(s, picks)) == multiset(s)
    ensures GoodRanges(s) ==> GoodRanges(Shuffled(s, picks))
    decreases |picks|
  {
    hide GoodRanges, Swapped;
    if picks != [] {
      SwapKeepsTexts(s, |picks|, picks[0]);
      if GoodRanges(s) {
        SwapKeepsRanges(s, |picks|, picks[0]);
      }
      ShuffleKeeps(Swapped(s, |picks|, picks[0]), picks[1..]);
    }
  }

  /** And every order of the texts comes out of some picks. */
  lemma {:induction false} EveryOrderIsDrawn(s: seq<string>, t: seq<string>) returns (picks: seq<nat>)
    requires s != [] && multiset(s) == multiset(t)
    ensures |picks| == |s| - 1 && forall k :: 0 <= k < |picks| ==> picks[k] <= |picks| - k
    ensures Shuffled(s, picks) == t
  {
    SameSize(s, t);
    assert s[..|s|] == s && t[..|s|] == t;
    picks := FrontIsDrawn(s, t, |s| - 1);
  }

  lemma {:induction false} SameSize(s: seq<string>, t: seq<string>)
    requires multiset(s) == multiset(t)
    ensures |s| == |t|
  {
    assert |multiset(s)| == |s| && |multiset(t)| == |t|;
  }

  /** The orders of the first n + 1 texts. */
  lemma {:induction false} FrontIsDrawn(s: seq<string>, t: seq<string>, n: nat) returns (picks: seq<nat>)
    requires n < |s| == |t| && s[n + 1..] == t[n + 1..] && multiset(s[..n + 1]) == multiset(t[..n + 1])
    ensures |picks| == n && forall k :: 0 <= k < n ==> picks[k] <= n - k
    ensures Shuffled(s, picks) == t
    decreases n
  {
    hide Shuffled, Swapped;
    assert t[..n + 1] == t[..n] + [t[n]];
    assert t[n] in multiset(t[..n + 1]);
    assert t[n] in s[..n + 1];
    var j :| 0 <= j < n + 1 && s[j] == t[n];
    if n == 0 {
      picks := [];
      ShuffledUnfolds(s, picks);
      assert s == [s[0]] + s[1..] && t == [t[0]] + t[1..];
    } else {
      FrontSwapped(s, t, n, j);
      var rest := FrontIsDrawn(Swapped(s, n, j), t, n - 1);
      picks := [j] + rest;
      assert picks[1..] == rest;
      ShuffledUnfolds(s, picks);
    }
  }

  lemma {:induction false} FrontSwapped(s: seq<string>, t: seq<string>, n: nat, j: nat)
    requires j <= n < |s| == |t| && s[j] == t[n]
    requires s[n + 1..] == t[n + 1..] && multiset(s[..n + 1]) == multiset(t[..n + 1])
    ensures var u := Swapped(s, n, j); u[n..] == t[n..] && multiset(u[..n]) == multiset(t[..n])
  {
    hide Swapped;
    var u, front := Swapped(s, n, j), s[..n + 1];
    SwappedAt(s, n, j);
    SwapKeepsTexts(front, n, j);
    WithoutLast(u, n);
    WithoutLast(t, n);
    assert u[n..] == [u[n]] + u[n + 1..] && t[n..] == [t[n]] + t[n + 1..];
  }

  lemma {:induction false} SwappedAt(s: seq<string>, n: nat, j: nat)
    requires j <= n < |s|
    ensures var u := Swapped(s, n, j);
            u[n] == s[j] && u[n + 1..] == s[n + 1..] && u[..n + 1] == Swapped(s[..n + 1], n, j)
  {}

  lemma {:induction false} WithoutLast(s: seq<string>, n: nat)
    requires n < |s|
    ensures multiset(s[..n]) == multiset(s[..n + 1]) - multiset{s[n]}
  {
    assert s[..n + 1] == s[..n] + [s[n]];
  }

  // ----- the paddings

  predicate GoodPaddings(s1: int, s2: int, s3: int, s4: int) {
    && 15 <= s1 <= 63 && 15 <= s2 <= 63 && 10 <= s3 <= 63 && 1 <= s4 <= 15
    && s1 != s2 && s1 != s3 && s1 != s4 && s2 != s3 && s2 != s4 && s3 != s4
    && s1 + 148 != s2 + 92 && s3 + 64 != s1 + 148 && s3 + 64 != s2 + 92
  }

  /** The paddings of try k. */
  function Try(draw: nat -> nat, at: nat, k: nat): (int, int, int, int) {
    (15 + Num(draw, at + 4 * k, 49), 15 + Num(draw, at + 4 * k + 1, 49),
     10 + Num(draw, at + 4 * k + 2, 54), 1 + Num(draw, at + 4 * k + 3, 15))
  }

  predicate IsGood(s: (int, int, int, int)) { GoodPaddings(s.0, s.1, s.2, s.3) }

  /** Try k is the first of the tries that keeps the rules. */
  predicate FirstGood(draw: nat -> nat, at: nat, k: nat) {
    IsGood(Try(draw, at, k)) && NoneGood(draw, at, k)
  }

  predicate NoneGood(draw: nat -> nat, at: nat, tries: nat) {
    forall l :: 0 <= l < tries ==> !IsGood(Try(draw, at, l))
  }

  /** The rejection loop, given up after so many tries (the source never gives
      up): the first try that keeps the rules is taken. */
  method DrawPaddings(src: Source, tries: nat) returns (s: Option<(int, int, int, int)>, ghost k: nat)
    modifies src`at
    ensures s.None? ==> NoneGood(src.draw, old(src.at), tries)
    ensures s.Some? ==> k < tries && FirstGood(src.draw, old(src.at), k) && s.value == Try(src.draw, old(src.at), k)
    ensures s.Some? ==> src.at == old(src.at) + 4 * (k + 1)
  {
    hide FirstGood, NoneGood, Try, Num;
    ghost var first := src.at;
    NoneGoodMore(src.draw, first, 0);
    for i := 0 to tries
      invariant src.at == first + 4 * i
      invariant NoneGood(src.draw, first, i)
    {
      NoneGoodMore(src.draw, first, i);
      var a := src.IntN(49);
      var b := src.IntN(49);
      var c := src.IntN(54);
      var d := src.IntN(15);
      var s1, s2, s3, s4 := 15 + a, 15 + b, 10 + c, 1 + d;
      TryDraws(src.draw, first, i);
      assert (s1, s2, s3, s4) == Try(src.draw, first, i);
      if s1 == s2 || s1 == s3 || s1 == s4 || s2 == s3 || s2 == s4 || s3 == s4 {
        continue;
      }
      if s1 + 148 == s2 + 92 || s3 + 64 == s1 + 148 || s3 + 64 == s2 + 92 {
        continue;
      }
      return Some((s1, s2, s3, s4)), i;
    }
    return None, 0;
  }

  lemma {:induction false} TryDraws(draw: nat -> nat, at: nat, k: nat)
    ensures var d := at + 4 * k;
            Try(draw, at, k) ==
            (15 + Num(draw, d, 49), 15 + Num(draw, d + 1, 49), 10 + Num(draw, d + 2, 54), 1 + Num(draw, d + 3, 15))
  {}

  lemma {:induction false} NoneGoodMore(draw: nat -> nat, at: nat, i: nat)
    ensures NoneGood(draw, at, 0)
    ensures NoneGood(draw, at, i + 1) <==> NoneGood(draw, at, i) && !IsGood(Try(draw, at, i))
    ensures FirstGood(draw, at, i) <==> NoneGood(draw, at, i) && IsGood(Try(draw, at, i))
  {
    hide IsGood, Try;
  }

  // ----- the generated configuration

  predicate GoodJunk(jc: int, jmin: int, jmax: int) {
    3 <= jc <= 6 && 64 <= jmin <= 113 && jmin + 50 <= jmax <= jmin + 149
  }

  /** "<r N>" for some N in lo..hi. */
  ghost predicate RandomSpec(s: Option<string>, lo: nat, hi: nat) {
    exists n: nat :: lo <= n <= hi && s == Some("<r " + Dec(n) + ">")
  }

  /** What the generator promises of its result. */
  ghost predicate Generated(c: Config) {
    && c.jc.Some? && c.jmin.Some? && c.jmax.Some?
    && GoodJunk(c.jc.value, c.jmin.value, c.jmax.value)
    && c.s1.Some? && c.s2.Some? && c.s3.Some? && c.s4.Some?
    && GoodPaddings(c.s1.value, c.s2.value, c.s3.value, c.s4.value)
    && c.h1.Some? && c.h2.Some? && c.h3.Some? && c.h4.Some?
    && GoodRanges([c.h1.value, c.h2.value, c.h3.value, c.h4.value])
    && RandomSpec(c.i1, 15, 40)
    && RandomSpec(c.i2, 10, 29) && RandomSpec(c.i3, 10, 29)
    && RandomSpec(c.i4, 10, 29) && RandomSpec(c.i5, 10, 29)
  }

  /** Three values of the junk packets. */
  function JunkOf(draw: nat -> nat, at: nat): (int, int, int) {
    var jmin := 64 + Num(draw, at + 1, 50);
    (3 + Num(draw, at, 4), jmin, jmin + 50 + Num(draw, at + 2, 100))
  }

  function SpecOf(n: nat): string { "<r " + Dec(n) + ">" }

  function SpecsOf(draw: nat -> nat, at: nat): (specs: seq<string>)
    ensures |specs| == 5
  {
    [SpecOf(15 + Num(draw, at, 26)), SpecOf(10 + Num(draw, at + 1, 20)), SpecOf(10 + Num(draw, at + 2, 20)),
     SpecOf(10 + Num(draw, at + 3, 20)), SpecOf(10 + Num(draw, at + 4, 20))]
  }

  /** The four headers: made, then shuffled. */
  function HeadersOf(draw: nat -> nat, at: nat): (hs: seq<string>)
    ensures |hs| == 4
  {
    Shuffled(RangeTexts(draw, at, 4), Picks(draw, at + 9, 3))
  }

  function WithJunk(cfg: Config, jc: int, jmin: int, jmax: int): Config {
    cfg.(jc := Some(jc), jmin := Some(jmin), jmax := Some(jmax))
  }

  function WithPaddings(cfg: Config, s: (int, int, int, int)): Config {
    cfg.(s1 := Some(s.0), s2 := Some(s.1), s3 := Some(s.2), s4 := Some(s.3))
  }

  function WithHeaders(cfg: Config, hs: seq<string>): Config
    requires |hs| == 4
  {
    cfg.(h1 := Some(hs[0]), h2 := Some(hs[1]), h3 := Some(hs[2]), h4 := Some(hs[3]))
  }

  function WithSpecs(cfg: Config, specs: seq<string>): Config
    requires |specs| == 5
  {
    cfg.(i1 := Some(specs[0]), i2 := Some(specs[1]), i3 := Some(specs[2]), i4 := Some(specs[3]), i5 := Some(specs[4]))
  }

  /** The configuration with every parameter drawn, try k being taken for the
      paddings. */
  function Filled(cfg: Config, draw: nat -> nat, at: nat, k: nat): Config {
    var (jc, jmin, jmax) := JunkOf(draw, at);
    var next := at + 3 + 4 * (k + 1);
    var c := WithPaddings(WithJunk(cfg, jc, jmin, jmax), Try(draw, at + 3, k));
    WithSpecs(WithHeaders(c, HeadersOf(draw, next)), SpecsOf(draw, next + 12))
  }

  /** Whatever is drawn, the configuration keeps the promises, every other field
      is as it was, and it is valid exactly if the rest of it is. */
  lemma {:induction false} FilledIsGood(cfg: Config, draw: nat -> nat, at: nat, k: nat)
    requires FirstGood(draw, at + 3, k)
    ensures var c := Filled(cfg, draw, at, k);
            Batching.Strip(c) == Batching.Strip(cfg) && Generated(c) && (Valid(Batching.Strip(cfg)) ==> Valid(c))
  {
    hide Valid, GoodRanges, GoodPaddings, RandomSpec, HeadersOf, SpecOf, FirstGood, Generated;
    var c, next := Filled(cfg, draw, at, k), at + 3 + 4 * (k + 1);
    FilledIsGenerated(cfg, draw, at, k);
    if Valid(Batching.Strip(cfg)) {
      GeneratedIsValid(cfg, c);
    }
  }

  lemma {:induction false} FilledIsGenerated(cfg: Config, draw: nat -> nat, at: nat, k: nat)
    requires FirstGood(draw, at + 3, k)
    ensures Generated(Filled(cfg, draw, at, k))
  {
    hide GoodRanges, RandomSpec, HeadersOf, SpecOf, GoodPaddings, Num;
    var next := at + 3 + 4 * (k + 1);
    HeadersAreGood(draw, next);
    var hs := HeadersOf(draw, next);
    assert hs == [hs[0], hs[1], hs[2], hs[3]];
    SpecIsRandom(15 + Num(draw, next + 12, 26), 15, 40);
    SpecIsRandom(10 + Num(draw, next + 12 + 1, 20), 10, 29);
    SpecIsRandom(10 + Num(draw, next + 12 + 2, 20), 10, 29);
    SpecIsRandom(10 + Num(draw, next + 12 + 3, 20), 10, 29);
    SpecIsRandom(10 + Num(draw, next + 12 + 4, 20), 10, 29);
  }

  lemma {:induction false} HeadersAreGood(draw: nat -> nat, at: nat)
    ensures GoodRanges(HeadersOf(draw, at))
  {
    hide GoodRanges, Shuffled, RangeTexts, Picks;
    TextsAreGood(draw, at);
    ShuffleKeeps(RangeTexts(draw, at, 4), Picks(draw, at + 9, 3));
  }

  lemma {:induction false} SpecIsRandom(n: nat, lo: nat, hi: nat)
    requires lo <= n <= hi
    ensures RandomSpec(Some(SpecOf(n)), lo, hi)
  {
    hide Dec;
  }

  /** Every value the rules allow can be drawn. */
  lemma {:induction false} EveryJunkIsDrawn(jc: int, jmin: int, jmax: int) returns (draw: nat -> nat)
    requires GoodJunk(jc, jmin, jmax)
    ensures JunkOf(draw, 0) == (jc, jmin, jmax)
  {
    draw := (i: nat) => if i == 0 then jc - 3 else if i == 1 then jmin - 64 else jmax - jmin - 50;
    hide Num;
    NumIs(draw, 0, 4);
    NumIs(draw, 1, 50);
    NumIs(draw, 2, 100);
  }

  lemma {:induction false} EveryPaddingIsDrawn(s: (int, int, int, int)) returns (draw: nat -> nat)
    requires IsGood(s)
    ensures FirstGood(draw, 0, 0) && Try(draw, 0, 0) == s
  {
    hide FirstGood, NoneGood, Try, Num;
    draw := (i: nat) => if i == 0 then s.0 - 15 else if i == 1 then s.1 - 15 else if i == 2 then s.2 - 10 else s.3 - 1;
    NumIs(draw, 0, 49);
    NumIs(draw, 1, 49);
    NumIs(draw, 2, 54);
    NumIs(draw, 3, 15);
    TryDraws(draw, 0, 0);
    NoneGoodMore(draw, 0, 0);
  }

  lemma {:induction false} EverySpecIsDrawn(n: seq<nat>) returns (draw: nat -> nat)
    requires |n| == 5 && 15 <= n[0] <= 40 && forall i :: 1 <= i < 5 ==> 10 <= n[i] <= 29
    ensures SpecsOf(draw, 0) == seq(5, i requires 0 <= i < 5 => "<r " + Dec(n[i]) + ">")
  {
    hide Dec, Num;
    draw := (i: nat) => if i == 0 then n[0] - 15 else if i < 5 then n[i] - 10 else 0;
    NumIs(draw, 0, 26);
    NumIs(draw, 1, 20);
    NumIs(draw, 2, 20);
    NumIs(draw, 3, 20);
    NumIs(draw, 4, 20);
  }

  predicate Spread(draw: nat -> nat, i: nat, width: nat, gap: nat) {
    var r := RangeAt(draw, 0, i);
    r.end == r.start + width && RangeAt(draw, 0, i + 1).start == r.end + gap
  }

  /** Every start of the first range, every width and every gap between two. */
  lemma {:induction false} EveryRangeIsDrawn(start: nat, widths: seq<nat>, gaps: seq<nat>) returns (draw: nat -> nat)
    requires 150_000_000 <= start <= 199_999_999 && |widths| == |gaps| == 4
    requires forall i :: 0 <= i < 4 ==> 50_000_000 <= widths[i] <= 149_999_999 && 10_000_000 <= gaps[i] <= 29_999_999
    ensures RangeAt(draw, 0, 0).start == start
    ensures forall i :: 0 <= i < 4 ==> Spread(draw, i, widths[i], gaps[i])
  {
    hide RangeAt, RangeDraws, Spread, Num;
    draw := RangeDraws(start, widths, gaps);
    forall i | 0 <= i < 4 ensures Spread(draw, i, widths[i], gaps[i]) {
      RangeDrawsAt(start, widths, gaps, i);
      IsSpread(draw, i, widths[i], gaps[i]);
    }
    RangeFrom(draw, 0, 0);
    RangeDrawsAt(start, widths, gaps, 0);
    NumIs(draw, 0, 50_000_000);
  }

  lemma {:induction false} IsSpread(draw: nat -> nat, i: nat, width: nat, gap: nat)
    requires 50_000_000 <= width <= 149_999_999 && 10_000_000 <= gap <= 29_999_999
    requires draw(0 + 1 + 2 * i) == width - 50_000_000 && draw(0 + 2 + 2 * i) == gap - 10_000_000
    ensures Spread(draw, i, width, gap)
  {
    hide RangeAt, Num;
    NumIs(draw, 0 + 1 + 2 * i, 100_000_000);
    NumIs(draw, 0 + 2 + 2 * i, 20_000_000);
    RangeFrom(draw, 0, i);
  }

  function RangeDraws(start: nat, widths: seq<nat>, gaps: seq<nat>): nat -> nat
    requires start >= 150_000_000 && |widths| == |gaps| == 4
    requires forall i :: 0 <= i < 4 ==> 50_000_000 <= widths[i] && 10_000_000 <= gaps[i]
  {
    (i: nat) =>
      if i == 0 then start - 150_000_000
      else if i > 8 then 0
      else if i % 2 == 1 then widths[i / 2] - 50_000_000
      else gaps[(i - 1) / 2] - 10_000_000
  }

  lemma {:induction false} RangeDrawsAt(start: nat, widths: seq<nat>, gaps: seq<nat>, i: nat)
    requires start >= 150_000_000 && |widths| == |gaps| == 4 && i < 4
    requires forall j :: 0 <= j < 4 ==> 50_000_000 <= widths[j] && 10_000_000 <= gaps[j]
    ensures var draw := RangeDraws(start, widths, gaps);
            && draw(0) == start - 150_000_000
            && draw(0 + 1 + 2 * i) == widths[i] - 50_000_000 && draw(0 + 2 + 2 * i) == gaps[i] - 10_000_000
  {}

  /** The configuration that is filled in. */
  class Settings {
    var cfg: Config

    constructor (cfg: Config)
      ensures this.cfg == cfg
    {
      this.cfg := cfg;
    }

    /** The parameters are the drawn ones; every other field stays. */
    method GenerateAmneziaParams(src: Source, tries: nat) returns (done: bool, ghost k: nat)
      modifies this, src`at
      ensures !done ==> NoneGood(src.draw, old(src.at) + 3, tries)
      ensures Batching.Strip(cfg) == Batching.Strip(old(cfg))
      ensures done ==> k < tries && FirstGood(src.draw, old(src.at) + 3, k)
      ensures done ==> cfg == Filled(old(cfg), src.draw, old(src.at), k) && Generated(cfg)
      ensures done && Valid(Batching.Strip(old(cfg))) ==> Valid(cfg)
    {
      hide Valid, Generated, FirstGood, NoneGood, IsGood, HeadersOf, SpecsOf, Try, JunkOf, GoodRanges, GoodJunk;
      hide WithJunk, WithPaddings, WithHeaders, WithSpecs, Batching.Strip;
      ghost var at := src.at;
      var jc, jmin, jmax := DrawJunk(src);
      JunkIsStripped(cfg, jc, jmin, jmax);
      cfg := WithJunk(cfg, jc, jmin, jmax);
      var s;
      s, k := DrawPaddings(src, tries);
      if s.None? {
        return false, k;
      }
      cfg := WithPaddings(cfg, s.value);
      var h1, h2, h3, h4 := DrawHeaders(src);
      cfg := WithHeaders(cfg, [h1, h2, h3, h4]);
      var specs := DrawSpecs(src);
      cfg := WithSpecs(cfg, specs);
      FilledIsGood(old(cfg), src.draw, at, k);
      return true, k;
    }
  }

  lemma {:induction false} JunkIsStripped(cfg: Config, jc: int, jmin: int, jmax: int)
    ensures Batching.Strip(WithJunk(cfg, jc, jmin, jmax)) == Batching.Strip(cfg)
  {}

  /** Step 1: the junk packets. */
  method DrawJunk(src: Source) returns (jc: int, jmin: int, jmax: int)
    modifies src`at
    ensures src.at == old(src.at) + 3 && (jc, jmin, jmax) == JunkOf(src.draw, old(src.at))
    ensures GoodJunk(jc, jmin, jmax)
  {
    var d := src.IntN(4);
    jc := 3 + d;
    d := src.IntN(50);
    jmin := 64 + d;
    d := src.IntN(100);
    jmax := jmin + 50 + d;
  }

  /** Step 3: ranges made, shuffled and handed out. */
  method DrawHeaders(src: Source) returns (h1: string, h2: string, h3: string, h4: string)
    modifies src`at
    ensures src.at == old(src.at) + 12 && [h1, h2, h3, h4] == HeadersOf(src.draw, old(src.at))
    ensures GoodRanges([h1, h2, h3, h4])
  {
    hide GoodRanges, RangeTexts, Shuffled;
    ghost var at := src.at;
    var ranges := MakeRanges(src);
    Shuffle(src, ranges);
    h1, h2, h3, h4 := ranges[0], ranges[1], ranges[2], ranges[3];
    assert ranges[..] == [h1, h2, h3, h4];
    HeadersAreGood(src.draw, at);
  }

  /** Step 4: the texts I1 to I5. */
  method DrawSpecs(src: Source) returns (specs: seq<string>)
    modifies src`at
    ensures src.at == old(src.at) + 5 && specs == SpecsOf(src.draw, old(src.at))
  {
    hide SpecOf;
    var i1 := RandomSpecText(src, 15, 26);
    var i2 := RandomSpecText(src, 10, 20);
    var i3 := RandomSpecText(src, 10, 20);
    var i4 := RandomSpecText(src, 10, 20);
    var i5 := RandomSpecText(src, 10, 20);
    specs := [i1, i2, i3, i4, i5];
  }

  method RandomSpecText(src: Source, low: nat, span: nat) returns (s: string)
    requires span > 0
    modifies src`at
    ensures src.at == old(src.at) + 1 && s == SpecOf(low + Num(src.draw, old(src.at), span))
  {
    var d := src.IntN(span);
    s := "<r " + Dec(low + d) + ">";
  }

  // ----- the generated values pass validation

  lemma {:induction false} RandomSpecIsValid(n: nat)
    requires 0 < n <= 1000
    ensures Meaning("<r " + Dec(n) + ">") == Some(n) && |"<r " + Dec(n) + ">"| <= 10
  {
    hide Meaning, DecValue, Dec;
    var num := Number(false, Dec(n), false);
    DecRoundTrip(n);
    var item := Item("", Random("r", num));
    assert num.Text() == Dec(n);
    OneRandomText(num);
    OneMoreItem(item, [], "");
    MeaningComplete([item], "");
    DecLength(n, 4);
  }

  lemma {:induction false} OneRandomText(num: Number)
    ensures SpecText([Item("", Random("r", num))], "") == "<r " + num.Text() + ">"
  {
    var item := Item("", Random("r", num));
    OneMoreItem(item, [], "");
    assert item.tag.Body() == "r " + num.Text();
    hide SpecText;
    assert SpecText([], "") == "";
  }

  lemma {:induction false} SpecPasses(s: Option<string>, lo: nat, hi: nat)
    requires RandomSpec(s, lo, hi) && 0 < lo <= hi <= 1000
    ensures !TooLong(s) && !UnparsedSpec(s)
  {
    var n: nat :| lo <= n <= hi && s == Some("<r " + Dec(n) + ">");
    RandomSpecIsValid(n);
  }

  lemma {:induction false} DisjointDoNotShare(s: string, t: string)
    requires GoodRange(s) && GoodRange(t) && DisjointRanges(s, t)
    ensures !Share(Some(s), Some(t))
  {}

  lemma {:induction false} HeadersPass(hs: seq<string>)
    requires |hs| == 4 && GoodRanges(hs)
    ensures forall i :: 0 <= i < 4 ==> !UnparsedHeader(Some(hs[i]))
    ensures forall i, j :: 0 <= i < j < 4 ==> !Share(Some(hs[i]), Some(hs[j]))
  {
    hide ParseMagicHeader;
    forall i, j | 0 <= i < j < 4 ensures !Share(Some(hs[i]), Some(hs[j])) {
      DisjointDoNotShare(hs[i], hs[j]);
    }
  }

  lemma {:induction false} GeneratedIsValid(cfg: Config, c: Config)
    requires Valid(Batching.Strip(cfg)) && Batching.Strip(c) == Batching.Strip(cfg) && Generated(c)
    ensures Valid(c)
  {
    hide Generated, Batching.Strip, Violates;
    forall f: Fault ensures !Violates(c, f) {
      match f
      case BadJunk(_) => NumbersPass(c, f);
      case JminAboveJmax => NumbersPass(c, f);
      case BadPadding(_) => NumbersPass(c, f);
      case BadHeader(_) => HeaderFaults(c, f);
      case Overlap(_, _) => HeaderFaults(c, f);
      case LongSpec(_) => SpecFaults(c, f);
      case BadSpec(_) => SpecFaults(c, f);
      case _ =>
        RestFaults(cfg, c, f);
        assert !Violates(Batching.Strip(cfg), f);
    }
  }

  lemma {:induction false} RestFaults(cfg: Config, c: Config, f: Fault)
    requires Batching.Strip(c) == Batching.Strip(cfg)
    requires f.BadListenPort? || f.BadFirewallMark? || f.BadKeepalive? || f.BadEndpointPort? || f.BadSecurity?
    ensures Violates(c, f) <==> Violates(Batching.Strip(cfg), f)
  {
    var s := Batching.Strip(c);
    assert c.listenPort == s.listenPort && c.firewallMark == s.firewallMark && c.peers == s.peers;
  }

  lemma {:induction false} NumbersPass(c: Config, f: Fault)
    requires Generated(c) && (f.BadJunk? || f.JminAboveJmax? || f.BadPadding?)
    ensures !Violates(c, f)
  {
    hide GoodRanges, RandomSpec;
  }

  lemma {:induction false} HeaderFaults(c: Config, f: Fault)
    requires Generated(c) && (f.BadHeader? || f.Overlap?)
    ensures !Violates(c, f)
  {
    hide GoodRanges, RandomSpec, GoodPaddings, UnparsedHeader, Share;
    var hs := [c.h1.value, c.h2.value, c.h3.value, c.h4.value];
    HeadersPass(hs);
    assert forall i :: 0 <= i < 4 ==> Headers(c)[i] == Some(hs[i]);
  }

  lemma {:induction false} SpecFaults(c: Config, f: Fault)
    requires Generated(c) && (f.LongSpec? || f.BadSpec?)
    ensures !Violates(c, f)
  {
    hide GoodRanges, RandomSpec, GoodPaddings, TooLong, UnparsedSpec;
    SpecPasses(c.i1, 15, 40);
    SpecPasses(c.i2, 10, 29);
    SpecPasses(c.i3, 10, 29);
    SpecPasses(c.i4, 10, 29);
    SpecPasses(c.i5, 10, 29);
  }
}
