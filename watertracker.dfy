/** The water card of components/WaterTracker.tsx: progress against a 2000 ml goal, the
    glasses equivalent, and the three buttons that hand a delta to the daily log. */
module WaterTracker {
  import opened Types

  /** About eight glasses of 250 ml. */
  const GoalMl: real := 2000.0
  const GlassMl: real := 250.0

  /** currentMl / 250, before toFixed(1). */
  function GlassesEquivalent(currentMl: real): (glasses: real)
    ensures glasses * GlassMl == currentMl
    ensures currentMl >= 0.0 ==> glasses >= 0.0
  {
    currentMl / GlassMl
  }

  /** Width of the progress bar: the share of the goal in percent, capped at 100. */
  function Percentage(currentMl: real): (pct: real)
    ensures pct <= 100.0
    ensures currentMl >= 0.0 ==> pct >= 0.0
    ensures currentMl <= GoalMl ==> pct == currentMl / GoalMl * 100.0
    ensures currentMl >= GoalMl ==> pct == 100.0
  {
    var share := currentMl / GoalMl * 100.0;
    if share <= 100.0 then share else 100.0
  }

  datatype Button = AddGlass | AddBottle | Undo

  /** The undo button is disabled while nothing has been drunk. */
  predicate UndoDisabled(currentMl: real)
  {
    currentMl <= 0.0
  }

  /** The amount a press hands to onAdd; a disabled button hands nothing. */
  function OnAdd(b: Button, currentMl: real): (amount: Option<real>)
    ensures amount.None? <==> b == Undo && UndoDisabled(currentMl)
    ensures amount.Some? ==> amount.value in {250.0, 600.0, -250.0}
  {
    match b
    case AddGlass => Some(250.0)
    case AddBottle => Some(600.0)
    case Undo => if UndoDisabled(currentMl) then None else Some(-250.0)
  }
}
