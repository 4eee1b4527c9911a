/** The deterministic part of the weekly summary (backend/main.py, lines 102-160): the reply
    for an empty history, the history text handed to the language model, and the totals the
    backend computes itself and writes over the model's. The model's reply is a parameter. */
module Summary {
  import opened Wrappers
  import opened Digits

  /** The fields of a stored plan that the summary reads. */
  datatype PlanRecord = PlanRecord(task: string, totalMinutes: int, energyLevel: string)

  datatype WeeklySummary = WeeklySummary(
    totalSessions: int,
    totalMinutes: int,
    topTasks: seq<string>,
    themes: seq<string>,
    suggestions: seq<string>)

  /** The reply when there is no history; the model is not consulted. */
  const NoDataSummary: WeeklySummary :=
    WeeklySummary(0, 0, [], ["No data yet"], ["Generate a few plans and run some sessions first."])

  /** One plan in the history text: `- {task} ({total_minutes} min, energy={energy_level})`. */
  function HistoryLine(p: PlanRecord): (line: string)
    ensures |line| > |p.task| + 2 && line[..|p.task| + 2] == "- " + p.task && line[|line| - 1] == ')'
  {
    "- " + p.task + " (" + IntToString(p.totalMinutes) + " min, energy=" + p.energyLevel + ")"
  }

  function HistoryLines(plans: seq<PlanRecord>): (r: seq<string>)
    ensures |r| == |plans|
  {
    seq(|plans|, i requires 0 <= i < |plans| => HistoryLine(plans[i]))
  }

  /** The sum of the plans' total minutes. */
  function SumMinutes(plans: seq<PlanRecord>): int {
    if plans == [] then 0 else SumMinutes(plans[..|plans| - 1]) + plans[|plans| - 1].totalMinutes
  }

  /** Python's `sep.join(lines)` for a one-character separator: the lines in order, with the
      separator between each two of them and nowhere else. */
  function Join(lines: seq<string>, sep: char): (text: string)
    ensures |lines| >= 1 ==> |lines[0]| <= |text| && text[..|lines[0]|] == lines[0]
    ensures |lines| >= 1 && (forall i :: 0 <= i < |lines| ==> sep !in lines[i]) ==>
      multiset(text)[sep] == |lines| - 1
  {
    if |lines| == 0 then "" else if |lines| == 1 then lines[0] else lines[0] + [sep] + Join(lines[1..], sep)
  }

  /** Python's `s.split(sep)` for a one-character separator: the pieces between separators. */
  function Split(s: string, sep: char): (r: seq<string>)
    ensures |r| >= 1
  {
    if s == [] then [""]
    else
      var rest := Split(s[1..], sep);
      if s[0] == sep then [""] + rest else [[s[0]] + rest[0]] + rest[1..]
  }

  /** `ai_summary`. An empty history gets the fixed no-data reply and no model call (no
      history text). Otherwise the history text has one line per plan, in order, and the
      reply passes the model's task, theme and suggestion lists through while the session
      count and the minutes are the backend's own: the number of plans and the sum of their
      total minutes. */
  method AiSummary(plans: seq<PlanRecord>, modelReply: WeeklySummary)
    returns (summary: WeeklySummary, historyText: Option<string>)
    ensures plans == [] ==> summary == NoDataSummary && historyText == None
    ensures plans != [] ==> historyText == Some(Join(HistoryLines(plans), '\n'))
    ensures plans != [] ==> summary.totalSessions == |plans| && summary.totalMinutes == SumMinutes(plans)
    ensures plans != [] ==>
      summary.topTasks == modelReply.topTasks && summary.themes == modelReply.themes &&
      summary.suggestions == modelReply.suggestions
  {
    if plans == [] {
      return NoDataSummary, None;
    }
    var historyLines: seq<string> := [];
    var totalMinutes := 0;
    var i := 0;
    while i < |plans|
      invariant 0 <= i <= |plans|
      invariant totalMinutes == SumMinutes(plans[..i])
      invariant historyLines == HistoryLines(plans[..i])
    {
      var p := plans[i];
      assert plans[..i + 1][..i] == plans[..i];
      totalMinutes := totalMinutes + p.totalMinutes;
      historyLines := historyLines + [HistoryLine(p)];
      i := i + 1;
    }
    assert plans[..i] == plans;
    historyText := Some(Join(historyLines, '\n'));
    summary := modelReply;
    summary := summary.(totalSessions := |plans|);
    summary := summary.(totalMinutes := totalMinutes);
  }

  lemma {:induction false} SplitWithoutSeparator(a: string, sep: char)
    requires sep !in a
    ensures Split(a, sep) == [a]
    decreases |a|
  {
    if a != [] {
      SplitWithoutSeparator(a[1..], sep);
      assert [a[0]] + a[1..] == a;
    }
  }

  lemma {:induction false} SplitAtSeparator(a: string, sep: char, b: string)
    requires sep !in a
    ensures Split(a + [sep] + b, sep) == [a] + Split(b, sep)
    decreases |a|
  {
    var s := a + [sep] + b;
    if a == [] {
      assert s[1..] == b;
    } else {
      assert s[0] == a[0] && s[1..] == a[1..] + [sep] + b;
      SplitAtSeparator(a[1..], sep, b);
      assert [a[0]] + a[1..] == a;
    }
  }

  /** Splitting a join at its separator gives back the lines, when none of them holds it. */
  lemma {:induction false} SplitJoin(lines: seq<string>, sep: char)
    requires |lines| >= 1
    requires forall i :: 0 <= i < |lines| ==> sep !in lines[i]
    ensures Split(Join(lines, sep), sep) == lines
    decreases |lines|
  {
    if |lines| == 1 {
      SplitWithoutSeparator(lines[0], sep);
    } else {
      SplitAtSeparator(lines[0], sep, Join(lines[1..], sep));
      SplitJoin(lines[1..], sep);
    }
  }

  /** A history line breaks no line unless its task or energy level does. */
  lemma HistoryLineIsOneLine(p: PlanRecord)
    requires '\n' !in p.task && '\n' !in p.energyLevel
    ensures '\n' !in HistoryLine(p)
  {
  }

  /** When no task or energy level holds a line break, the history text has exactly one line
      per plan, in the order of the plans. */
  lemma HistoryTextLines(plans: seq<PlanRecord>)
    requires |plans| >= 1
    requires forall i :: 0 <= i < |plans| ==> '\n' !in plans[i].task && '\n' !in plans[i].energyLevel
    ensures Split(Join(HistoryLines(plans), '\n'), '\n') == HistoryLines(plans)
    ensures |Split(Join(HistoryLines(plans), '\n'), '\n')| == |plans|
  {
    var lines := HistoryLines(plans);
    forall i | 0 <= i < |lines|
      ensures '\n' !in lines[i]
    {
      HistoryLineIsOneLine(plans[i]);
    }
    SplitJoin(lines, '\n');
  }
}
