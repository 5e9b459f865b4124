/** The state App.tsx keeps for the daily log: today's log (replaced on every event), the text
    typed into the food box, and the date-keyed map of logs held in persistent storage (written
    back, one entry at a time, after every change of today's log). */
module LogStore {
  import opened Types
  import opened DailyLogs
  import WaterTracker

  class Store {
    /** todayLog, the log shown and edited. */
    var todayLog: DailyLog
    /** The parsed "lazyfit_daily_logs" entry of persistent storage; a missing entry is empty. */
    var logs: map<string, DailyLog>
    /** foodInput, the text of the food box. */
    var foodInput: string

    /** The state as the app starts: today's entry of the stored map, or a new empty log. */
    constructor Load(todayKey: string, saved: map<string, DailyLog>)
      ensures todayLog == LoadOrCreate(saved, todayKey)
      ensures todayKey in saved ==> todayLog == saved[todayKey]
      ensures todayKey !in saved ==> todayLog == DailyLog(todayKey, [], 0.0)
      ensures logs == saved && foodInput == ""
    {
      todayLog := LoadOrCreate(saved, todayKey);
      logs := saved;
      foodInput := "";
    }

    /** True when the stored entry for the key is the log in memory. */
    predicate Saved(key: string)
      reads this
    {
      key in logs && logs[key] == todayLog
    }

    /** The save effect: the key is the date at the time of saving, which is the load key unless
        the day has changed since; every other day's entry is left as it was. */
    method Persist(nowKey: string)
      modifies this`logs
      ensures logs == SaveLog(old(logs), nowKey, todayLog)
      ensures Saved(nowKey)
      ensures forall key :: key in old(logs) && key != nowKey ==> key in logs && logs[key] == old(logs)[key]
    {
      logs := logs[nowKey := todayLog];
    }

    /** The migration effect, run whenever the water intake changes. */
    method MigrateWater()
      modifies this`todayLog
      ensures todayLog == AfterMigration(old(todayLog))
      ensures todayLog.foods == old(todayLog.foods) && todayLog.date == old(todayLog.date)
    {
      todayLog := AfterMigration(todayLog);
    }

    /** onChange of the food box. */
    method TypeFood(input: string)
      modifies this`foodInput
      ensures foodInput == input
    {
      foodInput := input;
    }

    /** handleFoodSubmit, given what analyzeFood answered for the current input: a successful
        answer is appended and clears the box; otherwise nothing changes. */
    method SubmitFood(result: Option<FoodItem>)
      modifies this`todayLog, this`foodInput
      ensures todayLog == AfterFoodSubmit(old(todayLog), old(foodInput), result)
      ensures foodInput == if !IsBlank(old(foodInput)) && result.Some? then "" else old(foodInput)
    {
      if IsBlank(foodInput) {
        return;
      }
      if result.Some? {
        todayLog := AfterFoodSubmit(todayLog, foodInput, result);
        foodInput := "";
      }
    }

    /** onAdd of the water card. */
    method AddWater(amount: real)
      modifies this`todayLog
      ensures todayLog == AfterWater(old(todayLog), amount)
      ensures todayLog.waterIntake >= 0.0
    {
      todayLog := AfterWater(todayLog, amount);
    }

    /** The delete button of the food shown in display row idx of the newest-first list. */
    method DeleteDisplayed(idx: int)
      modifies this`todayLog
      ensures todayLog == AfterDelete(old(todayLog), idx)
    {
      var realIdx := |todayLog.foods| - 1 - idx;
      todayLog := todayLog.(foods := ExceptIndex(todayLog.foods, realIdx));
    }
  }

  /** A session: load, press the bottle button, press undo, save. The water ends at 350 ml, the foods are
      untouched, and the day's entry of the store holds the result while other days keep theirs. */
  method WaterSession(todayKey: string, saved: map<string, DailyLog>) returns (store: Store)
    requires todayKey !in saved
    ensures store.todayLog == DailyLog(todayKey, [], 350.0)
    ensures store.logs == saved[todayKey := DailyLog(todayKey, [], 350.0)]
  {
    store := new Store.Load(todayKey, saved);
    var bottle := WaterTracker.OnAdd(WaterTracker.AddBottle, store.todayLog.waterIntake);
    store.AddWater(bottle.value);
    store.MigrateWater();
    var undo := WaterTracker.OnAdd(WaterTracker.Undo, store.todayLog.waterIntake);
    store.AddWater(undo.value);
    store.MigrateWater();
    store.Persist(todayKey);
  }
}
