/** The backend's plan post-processing (backend/services/plan_generator.py): the fixed
    four-block fallback plan and the sanitiser applied to a generated plan. */
module PlanGenerator {
  import opened Wrappers

  function Max(a: int, b: int): int { if a >= b then a else b }

  function Abs(x: int): int { if x < 0 then -x else x }

  /** A block of the fallback plan (the fields of backend/contracts/plan_contracts.py). */
  datatype PlanItem = PlanItem(title: string, minutes: int, details: string, difficulty: string)

  /** The fallback plan as the dictionary the generator returns. */
  datatype MockPlan = MockPlan(task: string, totalMinutes: int, focusTip: string, energyLevel: string, plan: seq<PlanItem>)

  function ItemsMinutes(items: seq<PlanItem>): int {
    if items == [] then 0 else ItemsMinutes(items[..|items| - 1]) + items[|items| - 1].minutes
  }

  /** The fallback plan: warm-up, deep work, break and review, in that order. Warm-up and
      break take 5 minutes, deep work takes what is left over 15 minutes but at least 20, and
      the review then always comes to 5. So every block has at least 5 minutes and the plan
      adds up to the requested total when that is at least 35, and to 35 otherwise. */
  function BuildMockPlan(task: string, totalMinutes: int): (r: MockPlan)
    ensures r.task == task && r.totalMinutes == totalMinutes
    ensures |r.plan| == 4
    ensures r.plan[0].title == "Warm up" && r.plan[0].difficulty == "easy"
    ensures r.plan[1].title == "Deep work block" && r.plan[1].difficulty == "hard"
    ensures r.plan[2].title == "Quick break" && r.plan[2].difficulty == "easy"
    ensures r.plan[3].title == "Review" && r.plan[3].difficulty == "medium"
    ensures r.plan[0].minutes == 5 && r.plan[2].minutes == 5 && r.plan[3].minutes == 5
    ensures r.plan[1].minutes == Max(20, totalMinutes - 15)
    ensures forall i :: 0 <= i < |r.plan| ==> r.plan[i].minutes >= 5
    ensures ItemsMinutes(r.plan) == Max(totalMinutes, 35)
  {
    var warmup := 5;
    var deepWork := Max(20, totalMinutes - 15);
    var breakMinutes := 5;
    var review := Max(5, totalMinutes - warmup - deepWork - breakMinutes);
    var items := [
      PlanItem("Warm up", warmup, "Review notes or outline key concepts.", "easy"),
      PlanItem("Deep work block", deepWork, "Work on core tasks related to " + task + ".", "hard"),
      PlanItem("Quick break", breakMinutes, "Stretch, hydrate, short reset.", "easy"),
      PlanItem("Review", review, "Summarize progress & next steps.", "medium")];
    assert items[..1][..0] == [] && items[..2][..1] == items[..1] && items[..3][..2] == items[..2];
    assert ItemsMinutes(items[..1]) == warmup;
    assert ItemsMinutes(items[..2]) == warmup + deepWork;
    assert ItemsMinutes(items[..3]) == warmup + deepWork + breakMinutes;
    assert ItemsMinutes(items) == warmup + deepWork + breakMinutes + review;
    MockPlan(task, totalMinutes, "Stay consistent, small wins add up.", "medium", items)
  }

  /** A block of a generated plan as a dictionary: its "minutes" entry may be missing or None. */
  datatype ItemDict = ItemDict(title: string, minutes: Option<int>, details: string, difficulty: string)

  /** The minutes a block is clamped to: missing, None or below 1 become 1. */
  function ClampMinutes(m: Option<int>): (r: int)
    ensures r >= 1
    ensures m.Some? && m.value > 0 ==> r == m.value
    ensures m.None? || m.value <= 0 ==> r == 1
  {
    if m.None? || m.value <= 0 then 1 else m.value
  }

  /** The block after the clamping step: rewritten only when its minutes are missing, None
      or not positive. */
  function ClampItem(item: ItemDict): (r: ItemDict)
    ensures r.minutes == Some(ClampMinutes(item.minutes))
    ensures r.title == item.title && r.details == item.details && r.difficulty == item.difficulty
    ensures item.minutes.Some? && item.minutes.value > 0 ==> r == item
  {
    if item.minutes.None? || item.minutes.value <= 0 then item.(minutes := Some(1)) else item
  }

  function Clamped(items: seq<ItemDict>): seq<ItemDict> {
    seq(|items|, i requires 0 <= i < |items| => ClampItem(items[i]))
  }

  /** The sum of the blocks' minutes, a missing entry counting as 0. */
  function Total(items: seq<ItemDict>): int {
    if items == [] then 0 else Total(items[..|items| - 1]) + items[|items| - 1].minutes.GetOr(0)
  }

  /** The repair step: when the blocks miss the requested total by more than 3 minutes, the
      last block absorbs the difference, but keeps at least 1 minute. */
  function Repaired(items: seq<ItemDict>, total: int): seq<ItemDict>
    requires |items| > 0
  {
    var diff := total - Total(items);
    if Abs(diff) > 3 then
      var last := items[|items| - 1];
      items[|items| - 1 := last.(minutes := Some(Max(1, last.minutes.GetOr(1) + diff)))]
    else
      items
  }

  /** The blocks of a non-empty plan after the sanitiser. */
  function Fixed(items: seq<ItemDict>, total: int): seq<ItemDict>
    requires |items| > 0
  {
    Repaired(Clamped(items), total)
  }

  /** A generated plan as the dictionary the sanitiser rewrites in place. */
  class PlanDict {
    /** The "plan" entry; a missing entry reads as no blocks. */
    var items: seq<ItemDict>
    /** The "total_minutes" entry, None when missing. */
    var totalMinutes: Option<int>

    constructor (items: seq<ItemDict>, totalMinutes: Option<int>)
      ensures this.items == items && this.totalMinutes == totalMinutes
    {
      this.items := items;
      this.totalMinutes := totalMinutes;
    }

    /** `validate_and_fix_plan`: a plan without blocks is returned untouched, without even
        setting its total. Otherwise every block is clamped to at least 1 minute, the last
        block repairs a mismatch of more than 3 minutes, and the total is set to `total`. */
    method ValidateAndFix(total: int)
      modifies this
      ensures old(items) == [] ==> items == old(items) && totalMinutes == old(totalMinutes)
      ensures old(items) != [] ==> items == Fixed(old(items), total) && totalMinutes == Some(total)
    {
      if items == [] {
        return;
      }
      var i := 0;
      while i < |items|
        invariant 0 <= i <= |items| == |old(items)|
        invariant forall j :: 0 <= j < i ==> items[j] == ClampItem(old(items)[j])
        invariant forall j :: i <= j < |items| ==> items[j] == old(items)[j]
      {
        var item := items[i];
        var mins := item.minutes.GetOr(0);
        if item.minutes.None? || mins <= 0 {
          items := items[i := item.(minutes := Some(1))];
        }
        i := i + 1;
      }
      assert items == Clamped(old(items));
      var currentTotal := Total(items);
      var diff := total - currentTotal;
      if Abs(diff) > 3 {
        var last := items[|items| - 1];
        var newLastMinutes := Max(1, last.minutes.GetOr(1) + diff);
        items := items[|items| - 1 := last.(minutes := Some(newLastMinutes))];
      }
      totalMinutes := Some(total);
    }
  }

  /** The sanitiser keeps the blocks, their order, their titles, details and difficulties,
      and leaves every block with minutes present and at least 1. */
  lemma FixedKeepsBlocks(items: seq<ItemDict>, total: int)
    requires |items| > 0
    ensures |Fixed(items, total)| == |items|
    ensures forall i :: 0 <= i < |items| ==>
      var f := Fixed(items, total)[i];
      f.title == items[i].title && f.details == items[i].details && f.difficulty == items[i].difficulty &&
      f.minutes.Some? && f.minutes.value >= 1
  {
  }

  /** Only the last block can be repaired: every other block keeps its clamped minutes, so a
      positive value stays as it was. */
  lemma FixedOnlyLastRepaired(items: seq<ItemDict>, total: int, i: nat)
    requires i + 1 < |items|
    ensures Fixed(items, total)[i] == ClampItem(items[i])
    ensures items[i].minutes.Some? && items[i].minutes.value > 0 ==> Fixed(items, total)[i] == items[i]
  {
  }

  /** What the sanitiser does to the total. With `diff` the difference between the requested
      total and the clamped blocks' sum: a mismatch of at most 3 minutes is kept; otherwise
      the blocks add up to the requested total exactly, unless the last block would drop
      below 1 minute, in which case it gets 1 and the sum stays above the total. */
  lemma FixedTotal(items: seq<ItemDict>, total: int)
    requires |items| > 0
    ensures var c := Clamped(items);
      var diff := total - Total(c);
      var last := ClampMinutes(items[|items| - 1].minutes);
      var f := Fixed(items, total);
      (Abs(diff) <= 3 ==> f == c && Abs(total - Total(f)) <= 3) &&
      (Abs(diff) > 3 ==> f[|f| - 1].minutes == Some(Max(1, last + diff))) &&
      (Abs(diff) > 3 && last + diff >= 1 ==> Total(f) == total) &&
      (Abs(diff) > 3 && last + diff < 1 ==> Total(f) > total && f[|f| - 1].minutes == Some(1))
  {
  }
}
