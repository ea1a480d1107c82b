/** The wellness store: a most-recent-first list of mood entries capped at 100,
    the current mood, an append-ordered list of goals, the actions that replace
    those fields, and the analytics read from them. */
module Wellness {
  import opened Wrappers

  /** Milliseconds since the epoch; `new Date()` becomes a caller-supplied clock reading. */
  type Timestamp = int

  const MaxMoodEntries: nat := 100
  const InitialMood: int := 5
  const MillisecondsPerDay: int := 86_400_000

  datatype MoodEntry = MoodEntry(
    id: string,
    mood: int,
    notes: Option<string>,
    timestamp: Timestamp,
    tags: Option<seq<string>>)

  datatype WellnessGoal = WellnessGoal(
    id: string,
    title: string,
    description: string,
    targetValue: real,
    currentValue: real,
    unit: string,
    deadline: Option<Timestamp>,
    completed: bool,
    createdAt: Timestamp)

  /** What the caller supplies for a new goal: everything but the id, creation time and progress. */
  datatype GoalData = GoalData(
    title: string,
    description: string,
    targetValue: real,
    unit: string,
    deadline: Option<Timestamp>)

  function Min(a: int, b: int): int {
    if a < b then a else b
  }

  // ---------------------------------------------------------------------------
  // The new field values each action computes
  // ---------------------------------------------------------------------------

  /** `[entry, ...entries].slice(0, 100)`: the newest entry first, the oldest dropped beyond the cap. */
  function PrependCapped(entry: MoodEntry, entries: seq<MoodEntry>): (r: seq<MoodEntry>)
    ensures |r| == Min(|entries| + 1, MaxMoodEntries)
    ensures r[0] == entry
    ensures r[1..] == entries[..|r| - 1]
  {
    ([entry] + entries)[..Min(|entries| + 1, MaxMoodEntries)]
  }

  /** Two insertions in a row: the later entry first, then the earlier, then the surviving old entries. */
  lemma PrependTwice(first: MoodEntry, second: MoodEntry, entries: seq<MoodEntry>)
    ensures PrependCapped(second, PrependCapped(first, entries))
         == ([second, first] + entries)[..Min(|entries| + 2, MaxMoodEntries)]
  {
    var once := PrependCapped(first, entries);
    var twice := PrependCapped(second, once);
    var expected := ([second, first] + entries)[..Min(|entries| + 2, MaxMoodEntries)];
    assert |twice| == |expected|;
    forall i | 0 <= i < |twice|
      ensures twice[i] == expected[i]
    {
      if i >= 2 {
        assert twice[i] == twice[1..][i - 1] == once[i - 1] == once[1..][i - 2];
      }
    }
  }

  /** The goal `addWellnessGoal` appends. */
  function NewGoal(data: GoalData, id: string, now: Timestamp): (g: WellnessGoal)
    ensures g.id == id && g.createdAt == now
    ensures g.currentValue == 0.0 && !g.completed
    ensures g.title == data.title && g.description == data.description && g.targetValue == data.targetValue
    ensures g.unit == data.unit && g.deadline == data.deadline
  {
    WellnessGoal(id, data.title, data.description, data.targetValue, 0.0, data.unit, data.deadline, false, now)
  }

  /** The goal after progress `newValue` is recorded: completion is recomputed from the target. */
  function Progressed(goal: WellnessGoal, newValue: real): (g: WellnessGoal)
    ensures g.currentValue == newValue
    ensures g.completed <==> newValue >= goal.targetValue
    ensures g.id == goal.id && g.title == goal.title && g.description == goal.description
    ensures g.targetValue == goal.targetValue && g.unit == goal.unit
    ensures g.deadline == goal.deadline && g.createdAt == goal.createdAt
  {
    goal.(currentValue := newValue, completed := newValue >= goal.targetValue)
  }

  /** `goals.map(goal => goal.id === goalId ? {...goal, currentValue, completed} : goal)`. */
  function WithProgress(goals: seq<WellnessGoal>, goalId: string, newValue: real): (r: seq<WellnessGoal>)
    ensures |r| == |goals|
    ensures forall i :: 0 <= i < |goals| && goals[i].id != goalId ==> r[i] == goals[i]
    ensures forall i :: 0 <= i < |goals| && goals[i].id == goalId ==>
      r[i].currentValue == newValue && r[i].completed == (newValue >= goals[i].targetValue)
      && r[i] == goals[i].(currentValue := r[i].currentValue, completed := r[i].completed)
  {
    if goals == [] then []
    else
      var goal := goals[0];
      [if goal.id == goalId then Progressed(goal, newValue) else goal] + WithProgress(goals[1..], goalId, newValue)
  }

  /** `goals.map(goal => goal.id === goalId ? {...goal, completed: true} : goal)`. */
  function WithCompleted(goals: seq<WellnessGoal>, goalId: string): (r: seq<WellnessGoal>)
    ensures |r| == |goals|
    ensures forall i :: 0 <= i < |goals| && goals[i].id != goalId ==> r[i] == goals[i]
    ensures forall i :: 0 <= i < |goals| && goals[i].id == goalId ==>
      r[i].completed && r[i] == goals[i].(completed := r[i].completed)
  {
    if goals == [] then []
    else
      var goal := goals[0];
      [if goal.id == goalId then goal.(completed := true) else goal] + WithCompleted(goals[1..], goalId)
  }

  // ---------------------------------------------------------------------------
  // Properties of the goal updates
  // ---------------------------------------------------------------------------

  /** A progress update for an id that no goal carries changes nothing. */
  lemma ProgressForUnknownIdIsNoOp(goals: seq<WellnessGoal>, goalId: string, newValue: real)
    requires forall i :: 0 <= i < |goals| ==> goals[i].id != goalId
    ensures WithProgress(goals, goalId, newValue) == goals
  {
  }

  /** Only the latest progress value counts: it can complete a goal and later un-complete it. */
  lemma ProgressLastWriteWins(goals: seq<WellnessGoal>, goalId: string, first: real, second: real)
    ensures WithProgress(WithProgress(goals, goalId, first), goalId, second) == WithProgress(goals, goalId, second)
  {
    var once := WithProgress(goals, goalId, first);
    assert forall i :: 0 <= i < |goals| ==> once[i].id == goals[i].id && once[i].targetValue == goals[i].targetValue;
  }

  /** Reaching the target completes a goal; a later, lower value reopens it. */
  lemma ProgressCanReopen(goals: seq<WellnessGoal>, i: nat, reached: real, lowered: real)
    requires i < |goals| && reached >= goals[i].targetValue > lowered
    ensures WithProgress(goals, goals[i].id, reached)[i].completed
    ensures !WithProgress(WithProgress(goals, goals[i].id, reached), goals[i].id, lowered)[i].completed
  {
    ProgressLastWriteWins(goals, goals[i].id, reached, lowered);
  }

  // ---------------------------------------------------------------------------
  // Completed-goal count
  // ---------------------------------------------------------------------------

  /** `goals.filter(goal => goal.completed).length`. */
  function CompletedGoalsCount(goals: seq<WellnessGoal>): (n: nat)
    ensures n <= |goals|
    ensures n == 0 <==> forall i :: 0 <= i < |goals| ==> !goals[i].completed
    ensures n == |goals| <==> forall i :: 0 <= i < |goals| ==> goals[i].completed
  {
    if goals == [] then 0
    else (if goals[0].completed then 1 else 0) + CompletedGoalsCount(goals[1..])
  }

  /** The count over a concatenation is the sum of the counts. */
  lemma {:induction false} CountConcat(a: seq<WellnessGoal>, b: seq<WellnessGoal>)
    ensures CompletedGoalsCount(a + b) == CompletedGoalsCount(a) + CompletedGoalsCount(b)
  {
    if a == [] {
      assert a + b == b;
    } else {
      assert (a + b)[1..] == a[1..] + b;
      CountConcat(a[1..], b);
    }
  }

  /** Appending a fresh goal leaves the completed count unchanged. */
  lemma NewGoalNotCounted(goals: seq<WellnessGoal>, data: GoalData, id: string, now: Timestamp)
    ensures CompletedGoalsCount(goals + [NewGoal(data, id, now)]) == CompletedGoalsCount(goals)
  {
    CountConcat(goals, [NewGoal(data, id, now)]);
  }

  /** How many goals carry `goalId` and are still open. */
  function OpenGoalsWithId(goals: seq<WellnessGoal>, goalId: string): (n: nat)
    ensures n > 0 <==> exists i :: 0 <= i < |goals| && goals[i].id == goalId && !goals[i].completed
  {
    if goals == [] then 0
    else
      var rest := OpenGoalsWithId(goals[1..], goalId);
      assert forall i :: 0 < i < |goals| ==> goals[i] == goals[1..][i - 1];
      (if goals[0].id == goalId && !goals[0].completed then 1 else 0) + rest
  }

  /** Force-completing adds exactly the matching goals that were still open to the count. */
  lemma {:induction false} CompleteGoalCount(goals: seq<WellnessGoal>, goalId: string)
    ensures CompletedGoalsCount(WithCompleted(goals, goalId)) == CompletedGoalsCount(goals) + OpenGoalsWithId(goals, goalId)
  {
    if goals != [] {
      CompleteGoalCount(goals[1..], goalId);
      var r := WithCompleted(goals, goalId);
      assert r[1..] == WithCompleted(goals[1..], goalId);
    }
  }

  // ---------------------------------------------------------------------------
  // Mood analytics
  // ---------------------------------------------------------------------------

  /** The entries stamped at or after `cutoff`, in list order. */
  function InWindow(entries: seq<MoodEntry>, cutoff: Timestamp): (r: seq<MoodEntry>)
    ensures |r| <= |entries|
    ensures forall e :: e in r <==> e in entries && e.timestamp >= cutoff
  {
    if entries == [] then []
    else (if entries[0].timestamp >= cutoff then [entries[0]] else []) + InWindow(entries[1..], cutoff)
  }

  /** The window keeps every in-window entry as often as it is logged, and nothing else. */
  lemma {:induction false} InWindowCounts(entries: seq<MoodEntry>, cutoff: Timestamp)
    ensures forall e :: multiset(InWindow(entries, cutoff))[e]
                     == if e.timestamp >= cutoff then multiset(entries)[e] else 0
  {
    if entries != [] {
      InWindowCounts(entries[1..], cutoff);
      assert entries == [entries[0]] + entries[1..];
      assert multiset(entries) == multiset([entries[0]]) + multiset(entries[1..]);
    }
  }

  /** The window of entries on the 1..10 scale is on that scale too. */
  lemma WindowInScale(entries: seq<MoodEntry>, cutoff: Timestamp)
    requires MoodsInScale(entries)
    ensures MoodsInScale(InWindow(entries, cutoff))
  {
  }

  /** The sum of the moods, added from the front. */
  function SumMoods(entries: seq<MoodEntry>): int {
    if entries == [] then 0 else entries[0].mood + SumMoods(entries[1..])
  }

  /**
   * Adding from the back, as `reduce((acc, entry) => acc + entry.mood, 0)`
   * does, gives the same sum.
   */
  lemma {:induction false} SumMoodsFromBack(entries: seq<MoodEntry>)
    requires entries != []
    ensures SumMoods(entries) == SumMoods(entries[..|entries| - 1]) + entries[|entries| - 1].mood
  {
    var rest := entries[1..];
    if rest != [] {
      SumMoodsFromBack(rest);
      assert entries[..|entries| - 1][1..] == rest[..|rest| - 1];
    }
  }

  predicate MoodsInScale(entries: seq<MoodEntry>) {
    forall e :: e in entries ==> 1 <= e.mood <= 10
  }

  /** With every mood in 1..10, the sum lies between |entries| and 10 * |entries|. */
  lemma {:induction false} SumMoodsBounds(entries: seq<MoodEntry>)
    requires MoodsInScale(entries)
    ensures |entries| <= SumMoods(entries) <= 10 * |entries|
  {
    if entries != [] {
      assert entries[0] in entries;
      assert forall e :: e in entries[1..] ==> e in entries;
      SumMoodsBounds(entries[1..]);
    }
  }

  /** `Math.round(x * 10) / 10`, where `Math.round(y)` is `floor(y + 0.5)`. */
  function RoundToTenth(x: real): (r: real)
    ensures (r * 10.0).Floor as real == r * 10.0
    ensures x - 0.05 < r <= x + 0.05
  {
    ((x * 10.0 + 0.5).Floor as real) / 10.0
  }

  /** Rounding to a tenth keeps a value between two whole numbers between them. */
  lemma RoundToTenthWithin(x: real, low: int, high: int)
    requires low as real <= x <= high as real
    ensures low as real <= RoundToTenth(x) <= high as real
  {
    var y := x * 10.0 + 0.5;
    assert (low * 10) as real <= y;
    assert y.Floor >= low * 10;
    assert y < (high * 10 + 1) as real;
    assert y.Floor <= high * 10;
  }

  /** `sum / length`, the mean of a non-empty list. */
  function Mean(entries: seq<MoodEntry>): real
    requires entries != []
  {
    SumMoods(entries) as real / |entries| as real
  }

  /** A quotient of a total lying between `low * n` and `high * n` lies between `low` and `high`. */
  lemma QuotientBounds(total: real, n: real, low: real, high: real)
    requires n > 0.0 && low * n <= total <= high * n
    ensures low <= total / n <= high
  {
    var q := total / n;
    assert q * n == total;
    if q < low {
      assert false;
    }
    if q > high {
      assert false;
    }
  }

  /** With every mood in 1..10, so is the mean. */
  lemma MeanInScale(entries: seq<MoodEntry>)
    requires entries != [] && MoodsInScale(entries)
    ensures 1.0 <= Mean(entries) <= 10.0
  {
    SumMoodsBounds(entries);
    QuotientBounds(SumMoods(entries) as real, |entries| as real, 1.0, 10.0);
  }

  /** `getMoodAverage(days)`: 0 for an empty window, else the window's mean rounded to one decimal. */
  function MoodAverage(entries: seq<MoodEntry>, now: Timestamp, days: int := 7): (r: real)
    ensures var window := InWindow(entries, now - days * MillisecondsPerDay);
      && (window == [] ==> r == 0.0)
      && (window != [] ==> (r * 10.0).Floor as real == r * 10.0)
      && (window != [] ==> Mean(window) - 0.05 < r <= Mean(window) + 0.05)
      && (window != [] && MoodsInScale(entries) ==> 1.0 <= r <= 10.0)
  {
    var window := InWindow(entries, now - days * MillisecondsPerDay);
    if |window| == 0 then 0.0
    else
      var average := RoundToTenth(Mean(window));
      assert (average * 10.0).Floor as real == average * 10.0;
      assert MoodsInScale(entries) ==> 1.0 <= average <= 10.0 by {
        if MoodsInScale(entries) {
          WindowInScale(entries, now - days * MillisecondsPerDay);
          MeanInScale(window);
          RoundToTenthWithin(Mean(window), 1, 10);
        }
      }
      average
  }

  /** Entries stamped no earlier than the cutoff all stay in the window, in order. */
  lemma {:induction false} AllInWindow(entries: seq<MoodEntry>, cutoff: Timestamp)
    requires forall i :: 0 <= i < |entries| ==> entries[i].timestamp >= cutoff
    ensures InWindow(entries, cutoff) == entries
  {
    if entries != [] {
      AllInWindow(entries[1..], cutoff);
      assert entries == [entries[0]] + entries[1..];
    }
  }

  /** The average of three moods logged at `now`, before rounding. */
  lemma AverageOfThree(x: MoodEntry, y: MoodEntry, z: MoodEntry, now: Timestamp)
    requires x.timestamp == now && y.timestamp == now && z.timestamp == now
    ensures MoodAverage([x, y, z], now) == RoundToTenth((x.mood + y.mood + z.mood) as real / 3.0)
  {
    var entries := [x, y, z];
    AllInWindow(entries, now - 7 * MillisecondsPerDay);
    assert entries[1..] == [y, z] && [y, z][1..] == [z] && [z][1..] == [];
    assert SumMoods([z]) == z.mood + SumMoods([]);
    assert SumMoods([y, z]) == y.mood + SumMoods([z]);
    assert SumMoods(entries) == x.mood + SumMoods([y, z]);
    assert Mean(entries) == (x.mood + y.mood + z.mood) as real / 3.0;
    assert InWindow(entries, now - 7 * MillisecondsPerDay) != [];
  }

  /** Three entries of the last day with moods 8, 6 and 4 average exactly 6. */
  lemma AverageOfEightSixFour(now: Timestamp)
    ensures MoodAverage([MoodEntry("a", 8, None, now, None), MoodEntry("b", 6, None, now, None),
                         MoodEntry("c", 4, None, now, None)], now) == 6.0
  {
    AverageOfThree(MoodEntry("a", 8, None, now, None), MoodEntry("b", 6, None, now, None),
                   MoodEntry("c", 4, None, now, None), now);
    assert (6.0 * 10.0 + 0.5).Floor == 60;
  }

  /** Moods 9, 8 and 8 have mean 8.33..., which the average reports rounded to 8.3. */
  lemma AverageRoundsToTenth(now: Timestamp)
    ensures MoodAverage([MoodEntry("a", 9, None, now, None), MoodEntry("b", 8, None, now, None),
                         MoodEntry("c", 8, None, now, None)], now) == 8.3
  {
    AverageOfThree(MoodEntry("a", 9, None, now, None), MoodEntry("b", 8, None, now, None),
                   MoodEntry("c", 8, None, now, None), now);
    assert (25.0 / 3.0 * 10.0 + 0.5).Floor == 83;
  }

  datatype Trend = Improving | Declining | Stable

  /** `getMoodTrend`: entries 0..6 against entries 7..13, with a dead band of half a point. */
  function MoodTrend(entries: seq<MoodEntry>): (t: Trend)
    ensures |entries| < 10 ==> t == Stable
    ensures |entries| >= 10 ==>
      var recent := entries[..7];
      var older := entries[7..Min(14, |entries|)];
      var gap := 2 * (SumMoods(recent) * |older| - SumMoods(older) * |recent|);
      && (t == Improving <==> gap > |recent| * |older|)
      && (t == Declining <==> gap < -(|recent| * |older|))
  {
    var recent := entries[..Min(7, |entries|)];
    var older := entries[Min(7, |entries|)..Min(14, |entries|)];
    if |recent| < 3 || |older| < 3 then Stable
    else
      var difference := Mean(recent) - Mean(older);
      CrossMultiplied(SumMoods(recent), SumMoods(older), |older|);
      if difference > 0.5 then Improving
      else if difference < -0.5 then Declining
      else Stable
  }

  /** Only the newest fourteen entries influence the trend. */
  lemma TrendSeesNewestFourteen(entries: seq<MoodEntry>)
    ensures MoodTrend(entries) == MoodTrend(entries[..Min(14, |entries|)])
  {
    var head := entries[..Min(14, |entries|)];
    assert head[..Min(7, |head|)] == entries[..Min(7, |entries|)];
    assert head[Min(7, |head|)..Min(14, |head|)] == entries[Min(7, |entries|)..Min(14, |entries|)];
  }

  /** Comparing the difference of a 7-entry mean and a `d`-entry mean with one half,
      without division; `d` is the size of the older window, 3 to 7 when it is compared. */
  lemma CrossMultiplied(a: int, c: int, d: int)
    requires 3 <= d <= 7
    ensures (a as real / 7.0 - c as real / d as real > 0.5) <==> 2 * (a * d - c * 7) > 7 * d
    ensures (a as real / 7.0 - c as real / d as real < -0.5) <==> 2 * (a * d - c * 7) < -(7 * d)
  {
    // With `d` fixed, every comparison is linear.
    if d == 3 {
    } else if d == 4 {
    } else if d == 5 {
    } else if d == 6 {
    } else {
      assert d == 7;
      assert c as real / d as real == c as real / 7.0;
    }
  }

  // ---------------------------------------------------------------------------
  // The store
  // ---------------------------------------------------------------------------

  class WellnessStore {
    var moodEntries: seq<MoodEntry>
    var currentMood: int
    var wellnessGoals: seq<WellnessGoal>

    /** The mood-entry list never exceeds its cap. */
    ghost predicate Valid()
      reads this
    {
      |moodEntries| <= MaxMoodEntries
    }

    /** The initial state: no entries, mood 5, no goals. */
    constructor ()
      ensures Valid()
      ensures moodEntries == [] && currentMood == InitialMood && wellnessGoals == []
    {
      moodEntries := [];
      currentMood := InitialMood;
      wellnessGoals := [];
    }

    /** `addMoodEntry`: the new entry goes first, the list keeps its newest 100, the mood becomes current. */
    method AddMoodEntry(id: string, mood: int, notes: Option<string>, tags: Option<seq<string>>, now: Timestamp)
      requires Valid()
      modifies this`moodEntries, this`currentMood
      ensures Valid()
      ensures moodEntries == PrependCapped(MoodEntry(id, mood, notes, now, tags), old(moodEntries))
      ensures moodEntries[0] == MoodEntry(id, mood, notes, now, tags)
      ensures moodEntries[1..] == old(moodEntries)[..|moodEntries| - 1]
      ensures |moodEntries| == Min(|old(moodEntries)| + 1, MaxMoodEntries)
      ensures currentMood == mood
      ensures wellnessGoals == old(wellnessGoals)
    {
      var entry := MoodEntry(id, mood, notes, now, tags);
      moodEntries := PrependCapped(entry, moodEntries);
      currentMood := mood;
    }

    /** `updateCurrentMood`: only the current mood changes. */
    method UpdateCurrentMood(mood: int)
      requires Valid()
      modifies this`currentMood
      ensures Valid()
      ensures currentMood == mood
      ensures moodEntries == old(moodEntries) && wellnessGoals == old(wellnessGoals)
    {
      currentMood := mood;
    }

    /** `addWellnessGoal`: exactly one new, open, zero-progress goal at the end. */
    method AddWellnessGoal(data: GoalData, id: string, now: Timestamp)
      requires Valid()
      modifies this`wellnessGoals
      ensures Valid()
      ensures wellnessGoals == old(wellnessGoals) + [NewGoal(data, id, now)]
      ensures wellnessGoals[|wellnessGoals| - 1].currentValue == 0.0
      ensures !wellnessGoals[|wellnessGoals| - 1].completed
      ensures CompletedGoalsCount(wellnessGoals) == CompletedGoalsCount(old(wellnessGoals))
      ensures moodEntries == old(moodEntries) && currentMood == old(currentMood)
    {
      NewGoalNotCounted(wellnessGoals, data, id, now);
      wellnessGoals := wellnessGoals + [NewGoal(data, id, now)];
    }

    /** `updateGoalProgress`: record the value on the goals with that id and recompute their completion. */
    method UpdateGoalProgress(goalId: string, newValue: real)
      requires Valid()
      modifies this`wellnessGoals
      ensures Valid()
      ensures wellnessGoals == WithProgress(old(wellnessGoals), goalId, newValue)
      ensures moodEntries == old(moodEntries) && currentMood == old(currentMood)
    {
      wellnessGoals := WithProgress(wellnessGoals, goalId, newValue);
    }

    /** `completeGoal`: mark the goals with that id completed, keeping their progress. */
    method CompleteGoal(goalId: string)
      requires Valid()
      modifies this`wellnessGoals
      ensures Valid()
      ensures wellnessGoals == WithCompleted(old(wellnessGoals), goalId)
      ensures CompletedGoalsCount(wellnessGoals)
           == CompletedGoalsCount(old(wellnessGoals)) + OpenGoalsWithId(old(wellnessGoals), goalId)
      ensures moodEntries == old(moodEntries) && currentMood == old(currentMood)
    {
      CompleteGoalCount(wellnessGoals, goalId);
      wellnessGoals := WithCompleted(wellnessGoals, goalId);
    }

    /** `getMoodAverage(days)` on the current entries; nothing changes. */
    method GetMoodAverage(now: Timestamp, days: int := 7) returns (r: real)
      ensures r == MoodAverage(moodEntries, now, days)
    {
      r := MoodAverage(moodEntries, now, days);
    }

    /** `getMoodTrend` on the current entries; nothing changes. */
    method GetMoodTrend() returns (t: Trend)
      ensures t == MoodTrend(moodEntries)
      ensures |moodEntries| < 10 ==> t == Stable
    {
      t := MoodTrend(moodEntries);
    }

    /** `getCompletedGoalsCount` on the current goals; nothing changes. */
    method GetCompletedGoalsCount() returns (n: nat)
      ensures n == CompletedGoalsCount(wellnessGoals)
      ensures n <= |wellnessGoals|
    {
      n := CompletedGoalsCount(wellnessGoals);
    }
  }
}
