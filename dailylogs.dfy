/** The daily log of App.tsx as values: how today's log is found in (or written back to) the
    date-keyed map kept in persistent storage, and what each event handler makes of today's log.
    The class in LogStore applies these transitions to its state. */
module DailyLogs {
  import opened Types
  import opened Metrics
  import WaterTracker

  // ------------------------------------------------------ sequences

  /** slice().reverse(): the most-recent-first order in which the foods are listed. */
  function Reverse<T>(s: seq<T>): seq<T>
  {
    seq(|s|, i requires 0 <= i < |s| => s[|s| - 1 - i])
  }

  /** Display row k shows storage index |s| - 1 - k, and the view has one row per food. */
  lemma ReverseAt<T>(s: seq<T>, k: int)
    requires 0 <= k < |s|
    ensures |Reverse(s)| == |s| && Reverse(s)[k] == s[|s| - 1 - k]
  {
  }

  /** The food appended last is the top row, above the rows shown before. */
  lemma ReversePush<T>(s: seq<T>, x: T)
    ensures Reverse(s + [x]) == [x] + Reverse(s)
  {
    forall k | 0 <= k < |s| + 1
      ensures Reverse(s + [x])[k] == ([x] + Reverse(s))[k]
    {
      ReverseAt(s + [x], k);
      if k > 0 {
        ReverseAt(s, k - 1);
      }
    }
  }

  /** Reading the newest-first view newest-first again gives the foods in storage order. */
  lemma ReverseInvolutive<T>(s: seq<T>)
    ensures Reverse(Reverse(s)) == s
  {
    forall k | 0 <= k < |s|
      ensures Reverse(Reverse(s))[k] == s[k]
    {
      ReverseAt(Reverse(s), k);
      ReverseAt(s, |s| - 1 - k);
    }
  }

  /** filter((_, i) => i !== k), written as the left-to-right scan the filter performs. */
  function ExceptIndex<T>(s: seq<T>, k: int): seq<T>
  {
    if s == [] then []
    else
      var kept := ExceptIndex(s[..|s| - 1], k);
      if |s| - 1 == k then kept else kept + [s[|s| - 1]]
  }

  /** The filter removes the element at k when k is an index of s, and nothing otherwise. */
  lemma {:induction false} ExceptIndexSlices<T>(s: seq<T>, k: int)
    ensures ExceptIndex(s, k) == if 0 <= k < |s| then s[..k] + s[k + 1..] else s
  {
    if s != [] {
      var init := s[..|s| - 1];
      ExceptIndexSlices(init, k);
      if 0 <= k < |s| - 1 {
        assert init[..k] + init[k + 1..] + [s[|s| - 1]] == s[..k] + s[k + 1..];
      } else if k != |s| - 1 {
        assert init + [s[|s| - 1]] == s;
      }
    }
  }

  /** A sequence that lists s back to front is Reverse(s). */
  lemma ReverseUnique<T>(s: seq<T>, t: seq<T>)
    requires |t| == |s|
    requires forall j :: 0 <= j < |t| ==> t[j] == s[|s| - 1 - j]
    ensures Reverse(s) == t
  {
    forall j | 0 <= j < |t|
      ensures Reverse(s)[j] == t[j]
    {
      ReverseAt(s, j);
    }
  }

  /** Element j of s without its element at idx. */
  lemma SkipAt<T>(s: seq<T>, idx: int, j: int)
    requires 0 <= idx < |s| && 0 <= j < |s| - 1
    ensures (s[..idx] + s[idx + 1..])[j] == if j < idx then s[j] else s[j + 1]
  {
  }

  /** Row j of the view with display row idx dropped lists s without storage index
      |s| - 1 - idx, back to front. */
  lemma RemovedRowAt<T>(s: seq<T>, idx: int, j: int)
    requires 0 <= idx < |s| && 0 <= j < |s| - 1
    ensures var k := |s| - 1 - idx;
      (Reverse(s)[..idx] + Reverse(s)[idx + 1..])[j] == (s[..k] + s[k + 1..])[|s| - 2 - j]
  {
    SkipAt(Reverse(s), idx, j);
    SkipAt(s, |s| - 1 - idx, |s| - 2 - j);
    if j < idx {
      ReverseAt(s, j);
    } else {
      ReverseAt(s, j + 1);
    }
  }

  /** Dropping storage index |s| - 1 - idx drops display index idx of the reversed view. */
  lemma ReverseOfRemoval<T>(s: seq<T>, idx: int)
    requires 0 <= idx < |s|
    ensures var k := |s| - 1 - idx;
      Reverse(s[..k] + s[k + 1..]) == Reverse(s)[..idx] + Reverse(s)[idx + 1..]
  {
    var k := |s| - 1 - idx;
    var rest := s[..k] + s[k + 1..];
    var rhs := Reverse(s)[..idx] + Reverse(s)[idx + 1..];
    forall j | 0 <= j < |rhs|
      ensures rhs[j] == rest[|rest| - 1 - j]
    {
      RemovedRowAt(s, idx, j);
    }
    ReverseUnique(rest, rhs);
  }

  // ------------------------------------------------------ persistence

  /** The log a day starts with. */
  function EmptyLog(key: string): DailyLog
  {
    DailyLog(key, [], 0.0)
  }

  /** The useState initialiser: the stored entry for today's key, or a fresh empty log. */
  function LoadOrCreate(saved: map<string, DailyLog>, todayKey: string): (log: DailyLog)
    ensures todayKey in saved ==> log == saved[todayKey]
    ensures todayKey !in saved ==> log == EmptyLog(todayKey)
  {
    if todayKey in saved then saved[todayKey] else EmptyLog(todayKey)
  }

  /** logs[todayKey] = todayLog: the entry for the key is replaced, every other day is kept. */
  function SaveLog(logs: map<string, DailyLog>, todayKey: string, todayLog: DailyLog): (saved: map<string, DailyLog>)
    ensures saved.Keys == logs.Keys + {todayKey}
    ensures saved[todayKey] == todayLog
    ensures forall key :: key in logs && key != todayKey ==> saved[key] == logs[key]
  {
    logs[todayKey := todayLog]
  }

  /** Loading after a save gives back the saved log for that day and what was there before for
      any other day. */
  lemma LoadAfterSave(logs: map<string, DailyLog>, saveKey: string, loadKey: string, todayLog: DailyLog)
    ensures LoadOrCreate(SaveLog(logs, saveKey, todayLog), loadKey)
         == if loadKey == saveKey then todayLog else LoadOrCreate(logs, loadKey)
  {
  }

  /** Saving what was just loaded from a store that held today's entry changes nothing. */
  lemma SaveAfterLoad(logs: map<string, DailyLog>, todayKey: string)
    requires todayKey in logs
    ensures SaveLog(logs, todayKey, LoadOrCreate(logs, todayKey)) == logs
  {
  }

  // ------------------------------------------------------ foods

  /** The characters String.prototype.trim strips: white space and line terminators. */
  predicate IsJsWhitespace(c: char)
  {
    || c in {'\t', '\n', '\U{000B}', '\U{000C}', '\r', ' ', '\U{00A0}', '\U{1680}'}
    || ('\U{2000}' <= c <= '\U{200A}')
    || c in {'\U{2028}', '\U{2029}', '\U{202F}', '\U{205F}', '\U{3000}', '\U{FEFF}'}
  }

  /** !input.trim(): the input is empty once trimmed. */
  predicate IsBlank(input: string)
  {
    forall i :: 0 <= i < |input| ==> IsJsWhitespace(input[i])
  }

  /** handleFoodSubmit: a blank input stops before the gateway is asked; a gateway answer of null
      leaves the log alone; an answer is appended, becomes the top of the displayed list, and adds
      its calories to the day's total. */
  function AfterFoodSubmit(log: DailyLog, input: string, result: Option<FoodItem>): (next: DailyLog)
    ensures next.date == log.date && next.waterIntake == log.waterIntake
    ensures IsBlank(input) || result.None? ==> next == log
    ensures !IsBlank(input) && result.Some? ==>
      && |next.foods| == |log.foods| + 1
      && next.foods[..|log.foods|] == log.foods
      && next.foods[|log.foods|] == result.value
      && Reverse(next.foods)[0] == result.value
      && ConsumedCalories(next.foods) == ConsumedCalories(log.foods) + result.value.calories
  {
    if IsBlank(input) || result.None? then log
    else
      var foods := log.foods + [result.value];
      ReverseAt(foods, 0);
      ConsumedAppend(log.foods, result.value);
      assert foods[..|log.foods|] == log.foods;
      log.(foods := foods)
  }

  /** The delete button of display row idx: the storage index is |foods| - 1 - idx. For an index
      on the list this removes exactly the food shown in that row, keeps the others in their order,
      and lowers the day's total by its calories; any other index changes nothing. */
  function AfterDelete(log: DailyLog, idx: int): (next: DailyLog)
    ensures next.date == log.date && next.waterIntake == log.waterIntake
    ensures !(0 <= idx < |log.foods|) ==> next == log
    ensures 0 <= idx < |log.foods| ==>
      var k := |log.foods| - 1 - idx;
      var shown := Reverse(log.foods);
      && next.foods == log.foods[..k] + log.foods[k + 1..]
      && Reverse(next.foods) == shown[..idx] + shown[idx + 1..]
      && multiset(next.foods) + multiset{shown[idx]} == multiset(log.foods)
      && ConsumedCalories(next.foods) == ConsumedCalories(log.foods) - shown[idx].calories
  {
    var realIdx := |log.foods| - 1 - idx;
    var foods := ExceptIndex(log.foods, realIdx);
    ExceptIndexSlices(log.foods, realIdx);
    if 0 <= idx < |log.foods| then
      var s := log.foods;
      ReverseOfRemoval(s, idx);
      ReverseAt(s, idx);
      assert s == s[..realIdx] + [s[realIdx]] + s[realIdx + 1..];
      ConsumedConcat(s[..realIdx] + [s[realIdx]], s[realIdx + 1..]);
      ConsumedConcat(s[..realIdx], s[realIdx + 1..]);
      ConsumedAppend(s[..realIdx], s[realIdx]);
      log.(foods := foods)
    else
      log.(foods := foods)
  }

  /** Deleting the top row right after a successful submit restores the log. */
  lemma DeleteTopUndoesSubmit(log: DailyLog, input: string, f: FoodItem)
    requires !IsBlank(input)
    ensures AfterDelete(AfterFoodSubmit(log, input, Some(f)), 0) == log
  {
    var added := AfterFoodSubmit(log, input, Some(f));
    assert added.foods[..|log.foods|] + added.foods[|log.foods| + 1..] == log.foods;
  }

  /** The example of a three-item day: deleting display row 1 of [c, b, a] removes b. */
  lemma DeleteExample(log: DailyLog, a: FoodItem, b: FoodItem, c: FoodItem)
    requires log.foods == [a, b, c]
    ensures Reverse(log.foods) == [c, b, a]
    ensures AfterDelete(log, 1).foods == [a, c]
  {
    ReverseUnique(log.foods, [c, b, a]);
    assert log.foods[..1] + log.foods[2..] == [a, c];
  }

  // ------------------------------------------------------ water

  /** Math.max(0, waterIntake + amount). */
  function AddedWater(waterIntake: real, amount: real): (ml: real)
    ensures ml >= 0.0
    ensures waterIntake + amount >= 0.0 ==> ml == waterIntake + amount
    ensures waterIntake + amount <= 0.0 ==> ml == 0.0
  {
    if 0.0 >= waterIntake + amount then 0.0 else waterIntake + amount
  }

  /** The onAdd handler of the water card: only the water changes. */
  function AfterWater(log: DailyLog, amount: real): (next: DailyLog)
    ensures next.date == log.date && next.foods == log.foods
    ensures next.waterIntake == AddedWater(log.waterIntake, amount)
  {
    log.(waterIntake := AddedWater(log.waterIntake, amount))
  }

  /** Undo takes back a glass: on a non-negative intake, the glass button leaves undo enabled,
      and pressing it then restores the log. */
  lemma UndoTakesBackGlass(log: DailyLog)
    requires log.waterIntake >= 0.0
    ensures var up := AfterWater(log, WaterTracker.OnAdd(WaterTracker.AddGlass, log.waterIntake).value);
      && WaterTracker.OnAdd(WaterTracker.Undo, up.waterIntake).Some?
      && AfterWater(up, WaterTracker.OnAdd(WaterTracker.Undo, up.waterIntake).value) == log
  {
  }

  /** From an empty day, undo is disabled (and the clamp would keep 0 anyway), and a bottle
      then an undo nets 350 ml. */
  lemma WaterExample(log: DailyLog)
    requires log.waterIntake == 0.0
    ensures WaterTracker.OnAdd(WaterTracker.Undo, 0.0).None?
    ensures AfterWater(log, -250.0).waterIntake == 0.0
    ensures var bottle := AfterWater(log, WaterTracker.OnAdd(WaterTracker.AddBottle, 0.0).value);
      && WaterTracker.OnAdd(WaterTracker.Undo, bottle.waterIntake).Some?
      && AfterWater(bottle, WaterTracker.OnAdd(WaterTracker.Undo, bottle.waterIntake).value).waterIntake == 350.0
  {
  }

  /** The legacy unit check: a positive value under 50 is read as glasses and scaled to ml. */
  function MigratedWater(waterIntake: real): real
  {
    if waterIntake > 0.0 && waterIntake < 50.0 then waterIntake * 250.0 else waterIntake
  }

  /** The migration effect: only the water changes, to its migrated value. */
  function AfterMigration(log: DailyLog): (next: DailyLog)
    ensures next.date == log.date && next.foods == log.foods
    ensures next.waterIntake == MigratedWater(log.waterIntake)
  {
    log.(waterIntake := MigratedWater(log.waterIntake))
  }

  /** The three cases of the migration: small positive values are scaled by 250, everything
      else is kept, and the result is never smaller than the input when it is non-negative. */
  lemma MigrationCases(w: real)
    ensures 0.0 < w < 50.0 ==> MigratedWater(w) == w * 250.0
    ensures w <= 0.0 || w >= 50.0 ==> MigratedWater(w) == w
    ensures w >= 0.0 ==> MigratedWater(w) >= w
  {
  }

  /** A second run of the migration changes nothing except for values in (0, 1/5), whose first
      result is still under 50 and so is scaled again. */
  lemma MigrationFixedPointIff(w: real)
    ensures MigratedWater(MigratedWater(w)) == MigratedWater(w) <==> !(0.0 < w < 0.2)
  {
    if 0.0 < w < 0.2 {
      assert 0.0 < MigratedWater(w) < 50.0;
    }
  }

  /** A legacy count of g glasses becomes 250 g ml, at least 250, and is then left alone. */
  lemma LegacyGlassesMigrated(g: int)
    requires 1 <= g < 50
    ensures MigratedWater(g as real) == 250.0 * g as real
    ensures MigratedWater(g as real) >= 250.0
    ensures MigratedWater(MigratedWater(g as real)) == MigratedWater(g as real)
  {
    MigrationFixedPointIff(g as real);
  }

  lemma MigrationExample()
    ensures MigratedWater(4.0) == 1000.0
    ensures MigratedWater(1000.0) == 1000.0
  {
  }

  /** A legacy value that is not a whole glass count is not left alone by the buttons: 1.1
      glasses migrates to 275 ml, undo is enabled there and leaves 25 ml, and the migration
      that runs after that change reads 25 as glasses and turns it into 6250 ml. */
  lemma FractionalLegacyRetriggers()
    ensures MigratedWater(1.1) == 275.0
    ensures WaterTracker.OnAdd(WaterTracker.Undo, 275.0) == Some(-250.0)
    ensures AddedWater(275.0, -250.0) == 25.0
    ensures MigratedWater(25.0) == 6250.0
  {
  }

  /** A whole, non-negative number of millilitres that is a multiple of 50. */
  predicate WholeFifties(ml: real)
  {
    ml >= 0.0 && ml == ml.Floor as real && ml.Floor % 50 == 0
  }

  /** Presses of the water buttons keep the intake a whole multiple of 50 ml, so the migration
      effect that runs after each change never rescales a value the buttons produced. */
  lemma ButtonPressKeepsMigrationIdle(waterIntake: real, b: WaterTracker.Button)
    requires WholeFifties(waterIntake)
    requires WaterTracker.OnAdd(b, waterIntake).Some?
    ensures var ml := AddedWater(waterIntake, WaterTracker.OnAdd(b, waterIntake).value);
      WholeFifties(ml) && MigratedWater(ml) == ml
  {
    var amount := WaterTracker.OnAdd(b, waterIntake).value;
    var n := waterIntake.Floor;
    var m := if n + amount.Floor <= 0 then 0 else n + amount.Floor;
    assert amount == amount.Floor as real;
    assert AddedWater(waterIntake, amount) == m as real;
    assert (m as real).Floor == m;
  }
}
