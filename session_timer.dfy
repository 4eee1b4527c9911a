/** The session timer of the plan page as pure state transitions
    (frontend/app/plan/page.tsx, lines 299-323 and 508-517).

    The page keeps the timer in four state fields. A 1 Hz interval decrements the seconds
    left, and a second effect, the zero-check, advances to the next block or ends the session
    once the seconds left reach zero. React re-runs the zero-check whenever the block index
    changes, so one run of it keeps advancing past blocks of zero minutes until the current
    block has time left or the plan is exhausted; `Settled` is that run to quiescence. */
module SessionTimer {
  import opened PageTypes

  /** `sessionActive`, `sessionHasEnded`, `currentBlockIndex` and `secondsLeft`. */
  datatype Timer = Timer(active: bool, ended: bool, index: nat, secondsLeft: int)

  /** The countdown a block starts from when it becomes current. */
  function BlockSeconds(plan: seq<Block>, i: nat): int
    requires i < |plan|
  {
    plan[i].minutes * 60
  }

  /** No block has a negative duration (what the backend's validator guarantees). */
  predicate NonNegativeMinutes(plan: seq<Block>) {
    forall i :: 0 <= i < |plan| ==> plan[i].minutes >= 0
  }

  /** While a session runs, the current block exists and the session has not ended. */
  predicate WellPlaced(plan: seq<Block>, t: Timer) {
    t.active ==> t.index < |plan| && !t.ended
  }

  /** The zero-check has nothing left to do. */
  predicate Quiescent(t: Timer) {
    t.active ==> t.secondsLeft > 0
  }

  /** The zero-check run to quiescence. */
  function Settled(plan: seq<Block>, t: Timer): (r: Timer)
    requires WellPlaced(plan, t)
    ensures WellPlaced(plan, r) && Quiescent(r)
    ensures !t.active || t.secondsLeft > 0 ==> r == t
    ensures t.index <= r.index
    ensures r.active ==> t.active
    ensures t.active && !r.active ==> r.ended && r.index == |plan| - 1 && r.secondsLeft <= 0
    ensures NonNegativeMinutes(plan) && t.secondsLeft >= 0 ==> r.secondsLeft >= 0
    decreases |plan| - t.index
  {
    if !t.active || t.secondsLeft > 0 then t
    else if t.index + 1 < |plan| then
      Settled(plan, t.(index := t.index + 1, secondsLeft := BlockSeconds(plan, t.index + 1)))
    else
      t.(active := false, ended := true)
  }

  /** What the "Start session" button does to the timer on a non-empty plan, followed by the
      zero-check. It does not depend on the previous timer: a running session starts over. */
  function StartTimer(plan: seq<Block>): (r: Timer)
    requires |plan| > 0
    ensures WellPlaced(plan, r) && Quiescent(r)
    ensures plan[0].minutes > 0 ==> r == Timer(true, false, 0, plan[0].minutes * 60)
    ensures NonNegativeMinutes(plan) ==> r.secondsLeft >= 0
  {
    Settled(plan, Timer(true, false, 0, BlockSeconds(plan, 0)))
  }

  /** One second of the interval: only a running session with time left is decremented,
      by exactly one, and the zero-check follows. */
  function TickStep(plan: seq<Block>, t: Timer): (r: Timer)
    requires WellPlaced(plan, t)
    ensures WellPlaced(plan, r)
    ensures Quiescent(t) ==> Quiescent(r)
    ensures !t.active || t.secondsLeft <= 0 ==> r == t
    ensures t.active && t.secondsLeft > 1 ==> r == t.(secondsLeft := t.secondsLeft - 1)
    ensures t.index <= r.index
    ensures r.active ==> t.active
    ensures NonNegativeMinutes(plan) && t.secondsLeft >= 0 ==> r.secondsLeft >= 0
  {
    if t.active && t.secondsLeft > 0 then Settled(plan, t.(secondsLeft := t.secondsLeft - 1)) else t
  }

  /** The timer after `k` delivered ticks. */
  function Run(plan: seq<Block>, t: Timer, k: nat): (r: Timer)
    requires WellPlaced(plan, t)
    ensures WellPlaced(plan, r)
    decreases k
  {
    if k == 0 then t else TickStep(plan, Run(plan, t, k - 1))
  }

  /** Seconds of all blocks before block `i`. */
  function ElapsedBefore(plan: seq<Block>, i: nat): int
    requires i <= |plan|
  {
    if i == 0 then 0 else ElapsedBefore(plan, i - 1) + BlockSeconds(plan, i - 1)
  }

  /** The whole plan in seconds: the sum of minutes * 60 over its blocks. */
  function TotalSeconds(plan: seq<Block>): int {
    ElapsedBefore(plan, |plan|)
  }

  /** After `k` elapsed seconds the session is running in the block whose time span holds
      second `k`, with the rest of that span left on the countdown. */
  predicate OnSchedule(plan: seq<Block>, t: Timer, k: int) {
    t.active && !t.ended && t.index < |plan| &&
    ElapsedBefore(plan, t.index) <= k < ElapsedBefore(plan, t.index + 1) &&
    t.secondsLeft == ElapsedBefore(plan, t.index + 1) - k
  }

  /** The natural end: ended in the last block with the countdown at zero. */
  predicate Finished(plan: seq<Block>, t: Timer) {
    !t.active && t.ended && t.index == |plan| - 1 && t.secondsLeft == 0
  }

  lemma {:induction false} ElapsedMonotone(plan: seq<Block>, i: nat, j: nat)
    requires NonNegativeMinutes(plan) && i <= j <= |plan|
    ensures ElapsedBefore(plan, i) <= ElapsedBefore(plan, j)
    decreases j - i
  {
    if i < j {
      ElapsedMonotone(plan, i, j - 1);
    }
  }

  /** The zero-check keeps a session on schedule, or ends it once the whole plan has elapsed. */
  lemma {:induction false} SettleOnSchedule(plan: seq<Block>, t: Timer, k: int)
    requires NonNegativeMinutes(plan)
    requires t.active && !t.ended && t.index < |plan|
    requires ElapsedBefore(plan, t.index) <= k <= ElapsedBefore(plan, t.index + 1)
    requires t.secondsLeft == ElapsedBefore(plan, t.index + 1) - k
    ensures k < TotalSeconds(plan) ==> OnSchedule(plan, Settled(plan, t), k)
    ensures k >= TotalSeconds(plan) ==> Finished(plan, Settled(plan, t))
    decreases |plan| - t.index
  {
    ElapsedMonotone(plan, t.index + 1, |plan|);
    if t.secondsLeft <= 0 && t.index + 1 < |plan| {
      var u := t.(index := t.index + 1, secondsLeft := BlockSeconds(plan, t.index + 1));
      SettleOnSchedule(plan, u, k);
    }
  }

  /** From "Start session", the session is on schedule at every second before the total
      duration of the plan, and has ended naturally in its last block exactly when that
      total has elapsed. Since each advance moves the index up by one, the session makes
      exactly |plan| - 1 advances before its natural end. */
  lemma {:induction false} Schedule(plan: seq<Block>, k: nat)
    requires |plan| > 0 && NonNegativeMinutes(plan)
    requires k <= TotalSeconds(plan)
    ensures k < TotalSeconds(plan) ==> OnSchedule(plan, Run(plan, StartTimer(plan), k), k)
    ensures k == TotalSeconds(plan) ==> Finished(plan, Run(plan, StartTimer(plan), k))
  {
    var t0 := Timer(true, false, 0, BlockSeconds(plan, 0));
    if k == 0 {
      SettleOnSchedule(plan, t0, 0);
    } else {
      Schedule(plan, k - 1);
      var t := Run(plan, StartTimer(plan), k - 1);
      SettleOnSchedule(plan, t.(secondsLeft := t.secondsLeft - 1), k);
    }
  }

  /** Once a session has ended naturally, further ticks change nothing. */
  lemma {:induction false} RunAfterEnd(plan: seq<Block>, k: nat)
    requires |plan| > 0 && NonNegativeMinutes(plan)
    requires k >= TotalSeconds(plan) && TotalSeconds(plan) >= 0
    ensures Run(plan, StartTimer(plan), k) == Run(plan, StartTimer(plan), TotalSeconds(plan) as nat)
    decreases k
  {
    if k == TotalSeconds(plan) {
    } else {
      RunAfterEnd(plan, k - 1);
      Schedule(plan, TotalSeconds(plan) as nat);
    }
  }

  /** Two blocks of 25 and 5 minutes: block 1 with 300 seconds left after 1500 ticks, and the
      natural end in block 1 after 300 more. */
  lemma TwoBlockScenario(a: string, b: string, da: string, db: string, fa: string, fb: string)
    ensures var plan := [Block(a, 25, da, fa), Block(b, 5, db, fb)];
      var s := StartTimer(plan);
      s == Timer(true, false, 0, 1500) &&
      Run(plan, s, 1500) == Timer(true, false, 1, 300) &&
      Run(plan, s, 1800) == Timer(false, true, 1, 0)
  {
    var plan := [Block(a, 25, da, fa), Block(b, 5, db, fb)];
    assert ElapsedBefore(plan, 1) == 1500;
    assert ElapsedBefore(plan, 2) == 1800;
    Schedule(plan, 1500);
    Schedule(plan, 1800);
  }
}
