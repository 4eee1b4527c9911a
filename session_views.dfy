/** The two values the session panel derives from the timer: the progress percentage
    (frontend/app/plan/page.tsx, lines 326-327) and the MM:SS countdown text (lines 636-640). */
module SessionViews {
  import opened Wrappers
  import opened Digits
  import opened PageTypes
  import opened SessionTimer

  /** Completed blocks as a whole percentage of the plan, rounded half up as `Math.round`
      rounds; 0 when there is no plan or it has no blocks. `(200 * index + n) / (2 * n)` is
      `floor(100 * index / n + 1/2)`, which is `Math.round(index / n * 100)` read over the
      rationals. */
  function Progress(blockCount: nat, index: int): (p: int)
    ensures blockCount == 0 ==> p == 0
    ensures blockCount > 0 ==> 2 * blockCount * p <= 200 * index + blockCount < 2 * blockCount * (p + 1)
    ensures 0 <= index <= blockCount ==> 0 <= p <= 100
  {
    if blockCount == 0 then 0 else (200 * index + blockCount) / (2 * blockCount)
  }

  /** The number of blocks `result?.plan?.length` reads: zero without a plan. */
  function BlockCount(result: Option<PlanResponse>): nat {
    if result.Some? then |result.value.plan| else 0
  }

  /** Progress never decreases as the block index grows. */
  lemma ProgressMonotone(n: nat, i: int, j: int)
    requires i <= j
    ensures Progress(n, i) <= Progress(n, j)
  {
  }

  /** The index never moves back on a tick, so a session's progress never decreases. */
  lemma ProgressNeverDecreasesOnTick(plan: seq<Block>, t: Timer)
    requires WellPlaced(plan, t)
    ensures Progress(|plan|, t.index) <= Progress(|plan|, TickStep(plan, t).index)
  {
    ProgressMonotone(|plan|, t.index, TickStep(plan, t).index);
  }

  /** The index stops at the last block, so progress shows 100 at the natural end only for
      plans of at least 200 blocks: rounding 100 * (n - 1) / n reaches 100 only then. */
  lemma ProgressAtLastBlock(n: nat)
    requires n > 0
    ensures Progress(n, n - 1) == 100 <==> n >= 200
  {
  }

  /** JavaScript's `String.prototype.padStart(2, "0")`. */
  function PadStart2(s: string): (r: string)
    ensures |r| == if |s| < 2 then 2 else |s|
    ensures r[|r| - |s|..] == s
    ensures forall i :: 0 <= i < |r| - |s| ==> r[i] == '0'
  {
    if |s| == 0 then "00" else if |s| == 1 then "0" + s else s
  }

  /** JavaScript's `%`, whose result takes the sign of the dividend. */
  function JsRemainder(a: int, b: int): (r: int)
    requires b > 0
    ensures a >= 0 ==> r == a % b
    ensures a < 0 ==> -b < r <= 0
  {
    if a >= 0 then a % b else -((-a) % b)
  }

  /** The quotient truncated toward zero, as ECMAScript's `%` uses it. */
  function TruncatedQuotient(a: int, b: int): int
    requires b > 0
  {
    if a >= 0 then a / b else -((-a) / b)
  }

  /** With its range, this pins the remainder to the one value ECMAScript's `%` gives:
      the dividend less the divisor times the truncated quotient. */
  lemma JsRemainderValue(a: int, b: int)
    requires b > 0
    ensures a == b * TruncatedQuotient(a, b) + JsRemainder(a, b)
  {
  }

  /** The countdown text: whole minutes (`Math.floor`) and the remaining seconds, each
      rendered in decimal and padded to at least two characters, around a colon. */
  function FormatTime(seconds: int): (r: string)
    ensures seconds >= 0 ==> ParseTime(r) == Some(seconds)
  {
    var mm := PadStart2(IntToString(seconds / 60));
    var ss := PadStart2(IntToString(JsRemainder(seconds, 60)));
    if seconds >= 0 then
      ClockRoundTrip(seconds, mm, ss);
      mm + ":" + ss
    else mm + ":" + ss
  }

  /** Reads a countdown text back: minutes before the colon, two digits of seconds below 60
      after it. */
  function ParseTime(text: string): (r: Option<nat>)
    ensures r.Some? ==> |text| >= 4 && text[|text| - 3] == ':'
  {
    if |text| >= 4 && text[|text| - 3] == ':' then
      match (ParseNat(text[..|text| - 3]), ParseNat(text[|text| - 2..]))
      case (Some(m), Some(s)) => if s < 60 then Some(60 * m + s) else None
      case _ => None
    else None
  }

  lemma PadStart2Value(s: string)
    requires 1 <= |s| && AllDigits(s)
    ensures AllDigits(PadStart2(s)) && ParseNat(PadStart2(s)) == ParseNat(s)
  {
    if |s| == 1 {
      DigitsValueLeadingZero(s);
    }
  }

  lemma PadStart2Nat(n: nat)
    ensures ParseNat(PadStart2(NatToString(n))) == Some(n)
  {
    PadStart2Value(NatToString(n));
    NatToStringRoundTrip(n);
  }

  /** A seconds value below 60 is shown as exactly two digits, the first of them 0 to 5. */
  lemma SecondsField(v: nat)
    requires v < 60
    ensures var ss := PadStart2(NatToString(v));
      |ss| == 2 && '0' <= ss[0] <= '5' && IsDigit(ss[1]) && ParseNat(ss) == Some(v)
  {
    PadStart2Nat(v);
    if v >= 10 {
      assert NatToString(v) == NatToString(v / 10) + [DigitChar(v % 10)];
      assert NatToString(v / 10) == [DigitChar(v / 10)];
    }
  }

  lemma ColonJoin(mm: string, ss: string)
    requires |ss| == 2
    ensures var r := mm + ":" + ss;
      |r| == |mm| + 3 && r[..|mm|] == mm && r[|mm|] == ':' && r[|mm| + 1..] == ss
  {
  }

  /** A text of minutes, a colon and two digits of seconds below 60 reads back as `60 * m + v`. */
  lemma ParseClock(mm: string, ss: string, m: nat, v: nat)
    requires |mm| >= 1 && |ss| == 2 && v < 60
    requires ParseNat(mm) == Some(m) && ParseNat(ss) == Some(v)
    ensures ParseTime(mm + ":" + ss) == Some(60 * m + v)
  {
    ColonJoin(mm, ss);
  }

  /** Minutes, a colon and seconds below 60, each padded, read back as `60 * m + v`. */
  lemma MinutesSecondsRoundTrip(m: nat, v: nat)
    requires v < 60
    ensures ParseTime(PadStart2(NatToString(m)) + ":" + PadStart2(NatToString(v))) == Some(60 * m + v)
  {
    SecondsField(v);
    PadStart2Nat(m);
    ParseClock(PadStart2(NatToString(m)), PadStart2(NatToString(v)), m, v);
  }

  /** The countdown's padded minutes and remainder around a colon read back as the countdown. */
  lemma ClockRoundTrip(seconds: nat, mm: string, ss: string)
    requires mm == PadStart2(IntToString(seconds / 60))
    requires ss == PadStart2(IntToString(JsRemainder(seconds, 60)))
    ensures ParseTime(mm + ":" + ss) == Some(seconds)
  {
    var m: nat, v: nat := seconds / 60, seconds % 60;
    assert mm == PadStart2(NatToString(m));
    assert ss == PadStart2(NatToString(v));
    MinutesSecondsRoundTrip(m, v);
    assert 60 * m + v == seconds;
  }

  /** For a countdown that is not negative: the text ends in a colon and exactly two digits
      of seconds, 00 to 59, and reading the minutes and seconds back gives the countdown. */
  lemma FormatTimeFields(seconds: int)
    requires seconds >= 0
    ensures var r := FormatTime(seconds);
      |r| >= 5 && r[|r| - 3] == ':' &&
      '0' <= r[|r| - 2] <= '5' && IsDigit(r[|r| - 1]) &&
      ParseNat(r[..|r| - 3]) == Some(seconds / 60) &&
      ParseNat(r[|r| - 2..]) == Some(seconds % 60) &&
      60 * (seconds / 60) + seconds % 60 == seconds
  {
    var m: nat, v: nat := seconds / 60, seconds % 60;
    FormatTimeParts(seconds);
    SecondsField(v);
    PadStart2Nat(m);
    ColonJoin(PadStart2(NatToString(m)), PadStart2(NatToString(v)));
  }

  lemma FormatTimeParts(seconds: int)
    requires seconds >= 0
    ensures FormatTime(seconds) == PadStart2(NatToString(seconds / 60)) + ":" + PadStart2(NatToString(seconds % 60))
  {
  }

  /** Distinct countdowns are shown as distinct texts. */
  lemma FormatTimeInjective(a: int, b: int)
    requires a >= 0 && b >= 0 && FormatTime(a) == FormatTime(b)
    ensures a == b
  {
  }
}
