/**
 * The console progress bar shown while the editing application renders
 * (`show_progress`) and the loop that polls the render job and redraws the bar
 * only when the reported percentage changes.
 */
module Progress {
  import opened Options
  import opened Text

  /** Number of cells in the bar. */
  const BarWidth := 30
  const FullCell := '\U{2588}'   // FULL BLOCK
  const EmptyCell := '\U{B7}'    // MIDDLE DOT

  /** `max(0, min(100, pct))`. */
  function Clamp(pct: int): (c: int)
    ensures 0 <= c <= 100
    ensures 0 <= pct <= 100 ==> c == pct
    ensures pct < 0 ==> c == 0
    ensures pct > 100 ==> c == 100
  {
    if pct < 0 then 0 else if pct > 100 then 100 else pct
  }

  /** `int(BAR * pct / 100)` on the clamped percentage: the largest number of
      cells whose share of the bar does not exceed the percentage.  (The
      quotient is non-negative and the float division is exact enough that
      `int` truncation equals the floor.) */
  function FilledCells(pct: int): (f: nat)
    ensures f <= BarWidth
    ensures f * 100 <= BarWidth * Clamp(pct) < (f + 1) * 100
  {
    BarWidth * Clamp(pct) / 100
  }

  /** The bar fills up and empties as the percentage does. */
  lemma FilledCellsMonotone(a: int, b: int)
    requires a <= b
    ensures FilledCells(a) <= FilledCells(b)
  {
  }

  /** Every cell is filled exactly when the render is at (or past) 100%, and
      none is filled exactly when it is below 4%. */
  lemma FilledCellsBounds(pct: int)
    ensures FilledCells(pct) == BarWidth <==> pct >= 100
    ensures FilledCells(pct) == 0 <==> pct < 4
  {
    var c, f := Clamp(pct), FilledCells(pct);
    if f == BarWidth {
      assert BarWidth * 100 <= BarWidth * c;
    }
    if f == 0 {
      assert BarWidth * c < 100;
    }
    if pct >= 100 {
      assert c == 100;
    }
    if pct >= 4 {
      assert BarWidth * c >= 120;
    }
  }

  function Repeat(c: char, n: nat): (s: string)
    ensures |s| == n && forall i :: 0 <= i < n ==> s[i] == c
  {
    seq(n, i => c)
  }

  /** `"█" * filled + "·" * (BAR - filled)`: thirty cells, the first
      `FilledCells(pct)` of them full and the others empty. */
  function ProgressBar(pct: int): (bar: string)
    ensures |bar| == BarWidth
    ensures forall i :: 0 <= i < BarWidth ==>
              bar[i] == if i < FilledCells(pct) then FullCell else EmptyCell
  {
    var f := FilledCells(pct);
    Repeat(FullCell, f) + Repeat(EmptyCell, BarWidth - f)
  }

  /** Reading the bar back: it shows exactly `FilledCells(pct)` full cells. */
  lemma BarShowsFilledCells(pct: int)
    ensures CountOf(FullCell, ProgressBar(pct)) == FilledCells(pct)
  {
    CountOfPrefix(FullCell, EmptyCell, ProgressBar(pct), FilledCells(pct));
  }

  function DigitChar(d: nat): (c: char)
    requires d < 10
    ensures IsAsciiDigit(c)
  {
    ['0', '1', '2', '3', '4', '5', '6', '7', '8', '9'][d]
  }

  function DigitValue(c: char): nat
    requires IsAsciiDigit(c)
  {
    (c as int - '0' as int) as nat
  }

  /** The decimal numeral of `n`, as `str(n)` writes it. */
  function DecimalString(n: nat): (s: string)
    ensures s != [] && AllDigits(s)
    ensures n < 10 ==> |s| == 1
    ensures n >= 10 ==> |s| == |DecimalString(n / 10)| + 1
  {
    if n < 10 then [DigitChar(n)] else DecimalString(n / 10) + [DigitChar(n % 10)]
  }

  /** The number a string of digits denotes. */
  function DecimalValue(s: string): nat
    requires AllDigits(s)
  {
    if s == [] then 0 else DecimalValue(s[..|s| - 1]) * 10 + DigitValue(s[|s| - 1])
  }

  lemma {:induction false} DecimalRoundTrip(n: nat)
    ensures DecimalValue(DecimalString(n)) == n
  {
    var s := DecimalString(n);
    if n >= 10 {
      DecimalRoundTrip(n / 10);
      assert s[..|s| - 1] == DecimalString(n / 10);
    }
  }

  /** A decimal numeral has no leading zero, except the numeral of zero itself. */
  lemma {:induction false} NoLeadingZero(n: nat)
    ensures DecimalString(n)[0] == '0' ==> n == 0
  {
    if n >= 10 {
      NoLeadingZero(n / 10);
      assert DecimalString(n)[0] == DecimalString(n / 10)[0];
    }
  }

  /** `f"{n:3d}"`: right-aligned in a field of width three. */
  function RightAlign3(s: string): (r: string)
    ensures |s| <= 3 ==> |r| == 3
  {
    if |s| < 3 then Repeat(' ', 3 - |s|) + s else s
  }

  /** The line `show_progress` writes (before its carriage return):
      two spaces, the bar between bars, and the clamped percentage. */
  function ProgressLine(pct: int): (line: string)
  {
    "  |" + ProgressBar(pct) + "| " + RightAlign3(DecimalString(Clamp(pct))) + "%"
  }

  /** A clamped percentage has at most three digits. */
  lemma PercentDigits(pct: int)
    ensures |DecimalString(Clamp(pct))| <= 3
  {
    var c := Clamp(pct);
    if c >= 10 {
      assert |DecimalString(c / 10)| <= 2;
    }
  }

  /** Stripping the padding of a right-aligned numeral gives the numeral back. */
  lemma StripPadding(pad: nat, d: string)
    requires d != [] && AllDigits(d)
    ensures Strip(Repeat(' ', pad) + d) == d
  {
    var field := Repeat(' ', pad) + d;
    DigitsHaveNoSpace(d);
    assert forall i :: 0 <= i < pad ==> IsSpace(field[i]);
    assert !IsSpace(field[pad]);
    assert LeadingSpaces(field) == pad;
    assert !IsSpace(field[|field| - 1]);
  }

  /** Where the parts of a concatenation sit in it. */
  lemma ConcatParts(a: string, b: string, c: string, d: string)
    ensures var s := a + b + c + d;
            |s| == |a| + |b| + |c| + |d| &&
            s[..|a|] == a && s[|a|..|a| + |b|] == b &&
            s[|a| + |b|..|a| + |b| + |c|] == c && s[|a| + |b| + |c|..] == d
  {
    var s := a + b + c + d;
    assert s == a + (b + (c + d));
    assert s[|a|..] == b + (c + d);
    assert s[|a| + |b|..] == c + d;
  }

  /** The percentage field is three columns wide: spaces, then a numeral of
      one to three digits with no leading zero, which reads back as the
      clamped percentage. */
  lemma PercentField(pct: int)
    ensures var field := RightAlign3(DecimalString(Clamp(pct)));
            var n := Strip(field);
            |field| == 3 && 1 <= |n| <= 3 && field == Repeat(' ', 3 - |n|) + n &&
            (n[0] == '0' ==> n == "0") &&
            AllDigits(n) && DecimalValue(n) == Clamp(pct)
  {
    var d := DecimalString(Clamp(pct));
    PercentDigits(pct);
    if |d| < 3 {
      StripPadding(3 - |d|, d);
    } else {
      StripPadding(0, d);
      assert Repeat(' ', 0) + d == d;
    }
    assert Strip(RightAlign3(d)) == d;
    NoLeadingZero(Clamp(pct));
    DecimalRoundTrip(Clamp(pct));
  }

  /** Where a 30-cell bar and a 3-column field sit in the printed line. */
  lemma LineParts(bar: string, field: string)
    requires |bar| == BarWidth && |field| == 3
    ensures var line := "  |" + bar + "| " + field + "%";
            |line| == 39 && line[..3] == "  |" && line[3..33] == bar &&
            line[33..35] == "| " && line[35..38] == field && line[38] == '%'
  {
    var line := "  |" + bar + "| " + field + "%";
    ConcatParts("  |", bar, "| ", field + "%");
    assert line == "  |" + bar + "| " + (field + "%");
    assert ("| " + (field + "%"))[2..5] == field;
  }

  /** The line has a fixed layout: 39 characters, the bar in columns 3..32,
      and in columns 35..37 the clamped percentage, right-aligned without
      leading zeros and readable back. */
  lemma ProgressLineLayout(pct: int)
    ensures var line := ProgressLine(pct);
            |line| == 39 && line[..3] == "  |" && line[3..33] == ProgressBar(pct) &&
            line[33..35] == "| " && line[38] == '%' &&
            var n := Strip(line[35..38]);
            1 <= |n| <= 3 && line[35..38] == Repeat(' ', 3 - |n|) + n && (n[0] == '0' ==> n == "0") &&
            AllDigits(n) && DecimalValue(n) == Clamp(pct)
  {
    PercentField(pct);
    LineParts(ProgressBar(pct), RightAlign3(DecimalString(Clamp(pct))));
  }

  /** One poll of the render job: whether it is still rendering and the
      progress it reports (already 0 when the query failed or gave nothing). */
  datatype Sample = Sample(running: bool, progress: int)

  function Progresses(samples: seq<Sample>): (ps: seq<int>)
    ensures |ps| == |samples| && forall i :: 0 <= i < |samples| ==> ps[i] == samples[i].progress
  {
    seq(|samples|, i requires 0 <= i < |samples| => samples[i].progress)
  }

  /** The last of `xs`, or `prev` when `xs` is empty. */
  function LastOr(prev: int, xs: seq<int>): int
  {
    if xs == [] then prev else xs[|xs| - 1]
  }

  /** The values of `xs` that differ from the one before them (the first is
      compared against `prev`): the values the loop draws. */
  function ChangePoints(xs: seq<int>, prev: int): seq<int>
    decreases |xs|
  {
    if xs == [] then []
    else (if xs[0] != prev then [xs[0]] else []) + ChangePoints(xs[1..], xs[0])
  }

  lemma {:induction false} ChangePointsSnoc(xs: seq<int>, x: int, prev: int)
    ensures ChangePoints(xs + [x], prev) ==
            ChangePoints(xs, prev) + (if x != LastOr(prev, xs) then [x] else [])
    decreases |xs|
  {
    if xs == [] {
      assert ChangePoints([x], prev) == (if x != prev then [x] else []) + ChangePoints([], x);
    } else {
      var head := if xs[0] != prev then [xs[0]] else [];
      var last := if x != LastOr(prev, xs) then [x] else [];
      assert (xs + [x])[0] == xs[0] && (xs + [x])[1..] == xs[1..] + [x];
      assert ChangePoints(xs + [x], prev) == head + ChangePoints(xs[1..] + [x], xs[0]);
      ChangePointsSnoc(xs[1..], x, xs[0]);
      assert LastOr(xs[0], xs[1..]) == LastOr(prev, xs);
      assert ChangePoints(xs[1..] + [x], xs[0]) == ChangePoints(xs[1..], xs[0]) + last;
      assert head + (ChangePoints(xs[1..], xs[0]) + last) == (head + ChangePoints(xs[1..], xs[0])) + last;
    }
  }

  predicate NoAdjacentRepeats(s: seq<int>)
  {
    forall i :: 0 < i < |s| ==> s[i] != s[i - 1]
  }

  /** No value is drawn twice in a row (nor the starting value first). */
  lemma {:induction false} ChangePointsNoRepeats(xs: seq<int>, prev: int)
    ensures NoAdjacentRepeats([prev] + ChangePoints(xs, prev))
    decreases |xs|
  {
    if xs != [] {
      ChangePointsNoRepeats(xs[1..], xs[0]);
      var tail := ChangePoints(xs[1..], xs[0]);
      var cs := [prev] + ChangePoints(xs, prev);
      var d := [xs[0]] + tail;
      if xs[0] != prev {
        assert cs == [prev] + d;
        forall i | 1 < i < |cs|
          ensures cs[i] != cs[i - 1]
        {
          assert cs[i] == d[i - 1] && cs[i - 1] == d[i - 2];
        }
      } else {
        assert ChangePoints(xs, prev) == tail;
        assert cs == d;
      }
    }
  }

  /** Every change is drawn: the last value drawn is the last value read. */
  lemma {:induction false} ChangePointsEndCurrent(xs: seq<int>, prev: int)
    ensures LastOr(prev, ChangePoints(xs, prev)) == LastOr(prev, xs)
    decreases |xs|
  {
    if xs != [] {
      var tail := ChangePoints(xs[1..], xs[0]);
      ChangePointsEndCurrent(xs[1..], xs[0]);
      assert LastOr(xs[0], xs[1..]) == LastOr(prev, xs);
      if xs[0] != prev {
        assert ChangePoints(xs, prev) == [xs[0]] + tail;
      } else {
        assert ChangePoints(xs, prev) == tail;
      }
    }
  }

  /** Only values that were read are drawn. */
  lemma {:induction false} ChangePointsFromInput(xs: seq<int>, prev: int)
    ensures forall v :: v in ChangePoints(xs, prev) ==> v in xs
    decreases |xs|
  {
    if xs != [] {
      ChangePointsFromInput(xs[1..], xs[0]);
    }
  }

  /** The index of the first sample at which rendering is not in progress. */
  function FirstIdle(samples: seq<Sample>): (r: Option<nat>)
    ensures r.Some? ==> r.value < |samples| && !samples[r.value].running &&
                        forall j :: 0 <= j < r.value ==> samples[j].running
    ensures r.None? ==> forall j :: 0 <= j < |samples| ==> samples[j].running
  {
    if samples == [] then None
    else if !samples[0].running then Some(0)
    else match FirstIdle(samples[1..])
         case None => None
         case Some(i) => Some(i + 1)
  }

  /** The polling loop of `headless_render` over the samples it reads, with the
      starting value -1.  It draws the bar for each reading that differs from
      the previous one and stops after the first sample at which rendering is
      not in progress (`stoppedAt`); on samples that never stop it reads all of
      them. */
  method MonitorRender(samples: seq<Sample>) returns (drawn: seq<int>, stoppedAt: Option<nat>)
    ensures stoppedAt == FirstIdle(samples)
    ensures var read := if stoppedAt.Some? then stoppedAt.value + 1 else |samples|;
            read <= |samples| && drawn == ChangePoints(Progresses(samples[..read]), -1)
  {
    var pct := -1;
    var i := 0;
    drawn, stoppedAt := [], None;
    while i < |samples|
      invariant 0 <= i <= |samples|
      invariant forall j :: 0 <= j < i ==> samples[j].running
      invariant drawn == ChangePoints(Progresses(samples[..i]), -1)
      invariant pct == LastOr(-1, Progresses(samples[..i]))
    {
      var s := samples[i];
      assert Progresses(samples[..i + 1]) == Progresses(samples[..i]) + [s.progress];
      ChangePointsSnoc(Progresses(samples[..i]), s.progress, -1);
      if s.progress != pct {
        drawn := drawn + [s.progress];
        pct := s.progress;
      }
      if !s.running {
        stoppedAt := Some(i);
        assert FirstIdle(samples) == Some(i) by {
          FirstIdleAt(samples, i);
        }
        break;
      }
      i := i + 1;
    }
    if stoppedAt.None? {
      assert samples[..i] == samples;
      FirstIdleNone(samples);
    }
  }

  lemma FirstIdleAt(samples: seq<Sample>, i: nat)
    requires i < |samples| && !samples[i].running
    requires forall j :: 0 <= j < i ==> samples[j].running
    ensures FirstIdle(samples) == Some(i)
  {
    var r := FirstIdle(samples);
    assert r.Some?;
  }

  lemma FirstIdleNone(samples: seq<Sample>)
    requires forall j :: 0 <= j < |samples| ==> samples[j].running
    ensures FirstIdle(samples) == None
  {
  }
}
