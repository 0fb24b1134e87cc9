// The learning summary of screens/KnowledgeTrackerScreen.tsx: the payload
// check, the title and prompt shown, and the month calendar with today
// highlighted. The date is a parameter: the month's length, the weekday of
// its first day and today's day of the month.
module KnowledgeTracker {
  import opened Common
  import opened Content

  /** The render guard: the fallback screen shows for a missing payload, an
      empty overall summary, or a missing or empty activity or prompt array. */
  predicate IsValid(data: Option<KnowledgeTrackerData>)
    ensures data.None? ==> !IsValid(data)
    ensures data.Some? && data.value.overallSummary == "" ==> !IsValid(data)
    ensures data.Some? && data.value.activitySummaries.None? ==> !IsValid(data)
    ensures data.Some? && data.value.activitySummaries == Some([]) ==> !IsValid(data)
    ensures data.Some? && data.value.reflectionPrompts.None? ==> !IsValid(data)
    ensures data.Some? && data.value.reflectionPrompts == Some([]) ==> !IsValid(data)
    ensures (&& data.Some? && data.value.overallSummary != ""
             && data.value.activitySummaries.Some? && data.value.activitySummaries.value != []
             && data.value.reflectionPrompts.Some? && data.value.reflectionPrompts.value != [])
            ==> IsValid(data)
  {
    && data.Some?
    && data.value.overallSummary != ""
    && data.value.activitySummaries.Some? && |data.value.activitySummaries.value| > 0
    && data.value.reflectionPrompts.Some? && |data.value.reflectionPrompts.value| > 0
  }

  /** The tracker shown for blank notes passes the check, with eight
      activities and three prompts. */
  lemma DefaultIsValid()
    ensures IsValid(Some(DefaultKnowledgeTrackerData()))
    ensures |DefaultKnowledgeTrackerData().activitySummaries.value| == 8
    ensures |DefaultKnowledgeTrackerData().reflectionPrompts.value| == 3
  {
  }

  /** `gameData.title || "Your Learning Journey"`. */
  function Title(data: KnowledgeTrackerData): (t: string)
    ensures t != ""
    ensures data.title != "" ==> t == data.title
    ensures data.title == "" ==> t == "Your Learning Journey"
  {
    if data.title != "" then data.title else "Your Learning Journey"
  }

  /** The one prompt shown above the reflection box: the first of the
      payload's prompts. */
  function Prompt(data: KnowledgeTrackerData): (p: string)
    requires IsValid(Some(data))
    ensures p in data.reflectionPrompts.value
    ensures p == data.reflectionPrompts.value[0]
  {
    data.reflectionPrompts.value[0]
  }

  /** A cell of the calendar grid. */
  datatype DayCell = Blank | Day(day: nat, isToday: bool)

  /** The layout `Calendar` builds: `firstDay` blanks, then the days
      `1..daysInMonth` in order, only today's highlighted. */
  ghost predicate IsMonthLayout(cells: seq<DayCell>, firstDay: nat, daysInMonth: nat, today: int)
  {
    && |cells| == firstDay + daysInMonth
    && (forall i :: 0 <= i < firstDay ==> cells[i] == Blank)
    && (forall i :: firstDay <= i < |cells| ==> cells[i] == Day(i - firstDay + 1, i - firstDay + 1 == today))
  }

  /** The `Array.from` of blanks and the `for` loop over the days. */
  method Calendar(firstDay: nat, daysInMonth: nat, today: int) returns (cells: seq<DayCell>)
    ensures IsMonthLayout(cells, firstDay, daysInMonth, today)
  {
    cells := seq(firstDay, _ => Blank);
    var day := 1;
    while day <= daysInMonth
      invariant 1 <= day <= daysInMonth + 1
      invariant |cells| == firstDay + day - 1
      invariant forall i :: 0 <= i < firstDay ==> cells[i] == Blank
      invariant forall i :: firstDay <= i < |cells| ==> cells[i] == Day(i - firstDay + 1, i - firstDay + 1 == today)
    {
      var isToday := day == today;
      cells := cells + [Day(day, isToday)];
      day := day + 1;
    }
  }

  /** The number of highlighted cells. */
  function Highlighted(cells: seq<DayCell>): (n: nat)
    ensures n <= |cells|
  {
    if cells == [] then 0
    else Highlighted(cells[..|cells| - 1]) + (if cells[|cells| - 1].Day? && cells[|cells| - 1].isToday then 1 else 0)
  }

  /** Exactly one cell is highlighted, the one for today, when today is a
      day of the month; none otherwise. */
  lemma OneDayHighlighted(cells: seq<DayCell>, firstDay: nat, daysInMonth: nat, today: int)
    requires IsMonthLayout(cells, firstDay, daysInMonth, today)
    ensures Highlighted(cells) == if 1 <= today <= daysInMonth then 1 else 0
    ensures 1 <= today <= daysInMonth ==> cells[firstDay + today - 1] == Day(today, true)
  {
    HighlightedPrefix(cells, firstDay, today, |cells|);
    assert cells[..|cells|] == cells;
  }

  /** Among the first `k` cells, today's is highlighted once if it is there. */
  lemma {:induction false} HighlightedPrefix(cells: seq<DayCell>, firstDay: nat, today: int, k: nat)
    requires k <= |cells|
    requires forall i :: 0 <= i < firstDay && i < |cells| ==> cells[i] == Blank
    requires forall i :: firstDay <= i < |cells| ==> cells[i] == Day(i - firstDay + 1, i - firstDay + 1 == today)
    ensures Highlighted(cells[..k]) == if 1 <= today && firstDay + today <= k then 1 else 0
    decreases k
  {
    if k > 0 {
      assert cells[..k][..k - 1] == cells[..k - 1];
      HighlightedPrefix(cells, firstDay, today, k - 1);
    }
  }
}
