/** The decision engine of the thermostat: the three-tier bang-bang cascade of
    `async_control_fan`, `_control_cooling` and `_control_heating`, written as pure
    functions from the entity's mode, temperatures and fan mode to a `Plan`. */
module Engine {
  import opened Wrappers
  import opened Const

  /** Home Assistant's HVAC modes: every value a service call may request. */
  datatype HvacMode = Off | Heat | Cool | HeatCool | Auto | Dry | FanOnly

  /** The actions this entity reports. */
  datatype HvacAction = Off | Idle | Heating | Cooling

  /** The fan modes the entity offers: the four speeds and "auto". */
  const FanAuto: string := "auto"
  const FanModes: seq<string> := ["off", "low", "medium", "high", "auto"]

  /** The two switch groups. */
  datatype Group = CoolingGroup | HeatingGroup

  /** Work a control step schedules with `hass.async_create_task`. It is not run by the
      step; it runs later, in an order the source does not promise. */
  datatype Task =
    | UpdateFan(speed: string)              // `async_update_fan(speed)`
    | SwitchGroup(group: Group, on: bool)   // `async_turn_on/off_cooling/heating_switches`

  /** What one control step decides: the action to report and the tasks it schedules, in scheduling order. */
  datatype Plan = Plan(action: HvacAction, tasks: seq<Task>)

  /** The four bands of the temperature-error axis. */
  datatype Band = Below | Low | Medium | High

  /** The band of an error, chosen by the cascade of strict `<` tests against the thresholds. */
  function BandOf(diff: real): (b: Band)
    ensures b == Below <==> diff < ThresholdLow
    ensures b == Low <==> ThresholdLow <= diff < ThresholdMedium
    ensures b == Medium <==> ThresholdMedium <= diff < ThresholdHigh
    ensures b == High <==> ThresholdHigh <= diff
  {
    if diff < ThresholdLow then Below
    else if diff < ThresholdMedium then Low
    else if diff < ThresholdHigh then Medium
    else High
  }

  /** The position of a band on the error axis, 0 for the idle band. */
  function Rank(b: Band): nat {
    match b
    case Below => 0
    case Low => 1
    case Medium => 2
    case High => 3
  }

  /** The fan speed a band asks for. */
  function SpeedOf(b: Band): string {
    match b
    case Below => FanOff
    case Low => FanLow
    case Medium => FanMed
    case High => FanHigh
  }

  /** The fan task of a step: scheduled only when the fan mode is "auto". */
  function FanTasks(fanMode: string, speed: string): seq<Task> {
    if fanMode == FanAuto then [UpdateFan(speed)] else []
  }

  /** One branch of `_control_cooling` / `_control_heating`: in the idle band the action is IDLE
      and the group is switched off, in the other bands the action is `active` and the group is
      switched on; the fan follows the band when the fan mode is "auto". */
  function BandPlan(b: Band, active: HvacAction, group: Group, fanMode: string): Plan {
    Plan(if b == Below then HvacAction.Idle else active,
         FanTasks(fanMode, SpeedOf(b)) + [SwitchGroup(group, b != Below)])
  }

  /** `_control_cooling`: bands the error itself. It idles below the low threshold and cools from
      there on; it ends with one command for the cooling group, on iff it cools, and never addresses
      the heating group; in fan mode "auto" it first sets the speed of the error's band. */
  function ControlCooling(tempDiff: real, fanMode: string): (p: Plan)
    ensures p.action == (if tempDiff < ThresholdLow then HvacAction.Idle else HvacAction.Cooling)
    ensures |p.tasks| == (if fanMode == FanAuto then 2 else 1)
    ensures p.tasks[|p.tasks| - 1] == SwitchGroup(CoolingGroup, ThresholdLow <= tempDiff)
    ensures HasFanTask(p.tasks) <==> fanMode == FanAuto
    ensures fanMode == FanAuto ==> p.tasks[0] == UpdateFan(
      if tempDiff < ThresholdLow then FanOff
      else if tempDiff < ThresholdMedium then FanLow
      else if tempDiff < ThresholdHigh then FanMed
      else FanHigh)
    ensures Avoids(p.tasks, HeatingGroup)
  {
    var p := BandPlan(BandOf(tempDiff), HvacAction.Cooling, CoolingGroup, fanMode);
    assert fanMode == FanAuto ==> p.tasks[0].UpdateFan?;
    p
  }

  /** `_control_heating`: bands the heating need `-tempDiff` exactly as cooling bands the error,
      with HEATING and the heating group, and never addresses the cooling group. */
  function ControlHeating(tempDiff: real, fanMode: string): (p: Plan)
    ensures p.action == (if -tempDiff < ThresholdLow then HvacAction.Idle else HvacAction.Heating)
    ensures |p.tasks| == (if fanMode == FanAuto then 2 else 1)
    ensures p.tasks[|p.tasks| - 1] == SwitchGroup(HeatingGroup, ThresholdLow <= -tempDiff)
    ensures HasFanTask(p.tasks) <==> fanMode == FanAuto
    ensures fanMode == FanAuto ==> p.tasks[0] == UpdateFan(
      if -tempDiff < ThresholdLow then FanOff
      else if -tempDiff < ThresholdMedium then FanLow
      else if -tempDiff < ThresholdHigh then FanMed
      else FanHigh)
    ensures Avoids(p.tasks, CoolingGroup)
  {
    var heatingDiff := -tempDiff;
    var p := BandPlan(BandOf(heatingDiff), HvacAction.Heating, HeatingGroup, fanMode);
    assert fanMode == FanAuto ==> p.tasks[0].UpdateFan?;
    p
  }

  /** `async_control_fan`: `None` when the step returns without doing anything. */
  function ControlStep(mode: HvacMode, current: Option<real>, target: Option<real>, fanMode: string): (r: Option<Plan>)
    ensures r.None? <==> (mode != HvacMode.Cool && mode != HvacMode.Heat) || current.None? || target.None?
    ensures r.Some? ==> r.value.action != HvacAction.Off
    ensures r.Some? && mode == HvacMode.Cool ==> r.value.action in {HvacAction.Idle, HvacAction.Cooling}
    ensures r.Some? && mode == HvacMode.Heat ==> r.value.action in {HvacAction.Idle, HvacAction.Heating}
  {
    if mode == HvacMode.Off then None
    else if current.None? || target.None? then None
    else
      var tempDiff := current.value - target.value;
      if mode == HvacMode.Cool then Some(ControlCooling(tempDiff, fanMode))
      else if mode == HvacMode.Heat then Some(ControlHeating(tempDiff, fanMode))
      else None
  }

  /** The group a mode's step addresses. */
  function GroupOf(mode: HvacMode): Group
    requires mode == HvacMode.Cool || mode == HvacMode.Heat
  {
    if mode == HvacMode.Cool then CoolingGroup else HeatingGroup
  }

  /** True when some task of `tasks` updates the fan. */
  predicate HasFanTask(tasks: seq<Task>) {
    exists i :: 0 <= i < |tasks| && tasks[i].UpdateFan?
  }

  /** True when no task of `tasks` addresses switch group `g`. */
  predicate Avoids(tasks: seq<Task>, g: Group) {
    forall i :: 0 <= i < |tasks| && tasks[i].SwitchGroup? ==> tasks[i].group != g
  }

  /** The other switch group. */
  function Other(g: Group): Group {
    if g == CoolingGroup then HeatingGroup else CoolingGroup
  }

  // ---------------------------------------------------------------------------------------
  // Banding

  /** COOL bands `d = current - target`: below the low threshold it idles and switches the cooling
      group off (fan off in auto); from there on it cools with the group on and the fan at low,
      medium or high speed. */
  lemma CoolBanding(current: real, target: real, fanMode: string)
    ensures var d := current - target;
      var r := ControlStep(HvacMode.Cool, Some(current), Some(target), fanMode);
      && r.Some?
      && (d < ThresholdLow ==>
            r.value == Plan(HvacAction.Idle, FanTasks(fanMode, FanOff) + [SwitchGroup(CoolingGroup, false)]))
      && (ThresholdLow <= d < ThresholdMedium ==>
            r.value == Plan(HvacAction.Cooling, FanTasks(fanMode, FanLow) + [SwitchGroup(CoolingGroup, true)]))
      && (ThresholdMedium <= d < ThresholdHigh ==>
            r.value == Plan(HvacAction.Cooling, FanTasks(fanMode, FanMed) + [SwitchGroup(CoolingGroup, true)]))
      && (ThresholdHigh <= d ==>
            r.value == Plan(HvacAction.Cooling, FanTasks(fanMode, FanHigh) + [SwitchGroup(CoolingGroup, true)]))
  {}

  /** HEAT bands `h = -(current - target)` with the same thresholds, addressing the heating group. */
  lemma HeatBanding(current: real, target: real, fanMode: string)
    ensures var h := -(current - target);
      var r := ControlStep(HvacMode.Heat, Some(current), Some(target), fanMode);
      && r.Some?
      && (h < ThresholdLow ==>
            r.value == Plan(HvacAction.Idle, FanTasks(fanMode, FanOff) + [SwitchGroup(HeatingGroup, false)]))
      && (ThresholdLow <= h < ThresholdMedium ==>
            r.value == Plan(HvacAction.Heating, FanTasks(fanMode, FanLow) + [SwitchGroup(HeatingGroup, true)]))
      && (ThresholdMedium <= h < ThresholdHigh ==>
            r.value == Plan(HvacAction.Heating, FanTasks(fanMode, FanMed) + [SwitchGroup(HeatingGroup, true)]))
      && (ThresholdHigh <= h ==>
            r.value == Plan(HvacAction.Heating, FanTasks(fanMode, FanHigh) + [SwitchGroup(HeatingGroup, true)]))
  {}

  /** A value on a threshold belongs to the higher band. */
  lemma BoundariesBelongToHigherBand()
    ensures BandOf(ThresholdLow) == Low
    ensures BandOf(ThresholdMedium) == Medium
    ensures BandOf(ThresholdHigh) == High
  {}

  /** A larger error never selects a lower band. */
  lemma BandMonotone(x: real, y: real)
    requires x <= y
    ensures Rank(BandOf(x)) <= Rank(BandOf(y))
  {}

  /** In COOL a warmer room (same target) never selects a lower band; in HEAT a colder one never does. */
  lemma StepMonotone(c1: real, c2: real, target: real)
    requires c1 <= c2
    ensures Rank(BandOf(c1 - target)) <= Rank(BandOf(c2 - target))
    ensures Rank(BandOf(-(c2 - target))) <= Rank(BandOf(-(c1 - target)))
  {
    BandMonotone(c1 - target, c2 - target);
    BandMonotone(-(c2 - target), -(c1 - target));
  }

  // ---------------------------------------------------------------------------------------
  // HEAT/COOL symmetry

  function MirrorAction(a: HvacAction): HvacAction {
    match a
    case Cooling => HvacAction.Heating
    case Heating => HvacAction.Cooling
    case _ => a
  }

  function MirrorTask(t: Task): Task {
    match t
    case UpdateFan(s) => UpdateFan(s)
    case SwitchGroup(g, on) => SwitchGroup(Other(g), on)
  }

  /** A plan with COOLING/HEATING and the two groups swapped. */
  function MirrorPlan(p: Plan): (q: Plan)
    ensures |q.tasks| == |p.tasks|
    ensures forall i :: 0 <= i < |p.tasks| ==> q.tasks[i] == MirrorTask(p.tasks[i])
  {
    Plan(MirrorAction(p.action), seq(|p.tasks|, i requires 0 <= i < |p.tasks| => MirrorTask(p.tasks[i])))
  }

  /** HEAT with (c, t) makes the same decision as COOL with (t, c), with heating in place of cooling. */
  lemma HeatCoolSymmetry(c: real, t: real, fanMode: string)
    ensures ControlStep(HvacMode.Heat, Some(c), Some(t), fanMode).Some?
    ensures ControlStep(HvacMode.Cool, Some(t), Some(c), fanMode).Some?
    ensures ControlStep(HvacMode.Heat, Some(c), Some(t), fanMode).value
         == MirrorPlan(ControlStep(HvacMode.Cool, Some(t), Some(c), fanMode).value)
  {
    var b := BandOf(t - c);
    assert -(c - t) == t - c;
    var heat := BandPlan(b, HvacAction.Heating, HeatingGroup, fanMode);
    var cool := BandPlan(b, HvacAction.Cooling, CoolingGroup, fanMode);
    assert heat.tasks == MirrorPlan(cool).tasks;
  }

  // ---------------------------------------------------------------------------------------
  // What a step schedules

  /** Every step that acts schedules a fan task iff the fan mode is "auto", and always ends
      with exactly one command for its own switch group. */
  lemma FanGatedOnAuto(mode: HvacMode, current: Option<real>, target: Option<real>, fanMode: string)
    requires ControlStep(mode, current, target, fanMode).Some?
    ensures var p := ControlStep(mode, current, target, fanMode).value;
      && (HasFanTask(p.tasks) <==> fanMode == FanAuto)
      && |p.tasks| == (if fanMode == FanAuto then 2 else 1)
      && p.tasks[|p.tasks| - 1].SwitchGroup?
      && p.tasks[|p.tasks| - 1].group == GroupOf(mode)
      && p.tasks[|p.tasks| - 1].on == (p.action != HvacAction.Idle)
  {
    var p := ControlStep(mode, current, target, fanMode).value;
    var b := if mode == HvacMode.Cool then BandOf(current.value - target.value)
             else BandOf(-(current.value - target.value));
    var active := if mode == HvacMode.Cool then HvacAction.Cooling else HvacAction.Heating;
    assert p == BandPlan(b, active, GroupOf(mode), fanMode);
    var last := SwitchGroup(GroupOf(mode), b != Below);
    if fanMode == FanAuto {
      assert p.tasks == [UpdateFan(SpeedOf(b)), last];
      assert p.tasks[0].UpdateFan?;
    } else {
      assert p.tasks == [last];
      assert !HasFanTask(p.tasks);
    }
  }

  /** A COOL step never addresses the heating group and a HEAT step never addresses the cooling
      group, whatever mode the entity was in before. */
  lemma StepAvoidsOtherGroup(mode: HvacMode, current: Option<real>, target: Option<real>, fanMode: string)
    requires ControlStep(mode, current, target, fanMode).Some?
    ensures Avoids(ControlStep(mode, current, target, fanMode).value.tasks, Other(GroupOf(mode)))
  {}

  /** The action a step reports does not depend on the fan mode. */
  lemma ActionIgnoresFanMode(mode: HvacMode, current: Option<real>, target: Option<real>, f1: string, f2: string)
    ensures ControlStep(mode, current, target, f1).Some? == ControlStep(mode, current, target, f2).Some?
    ensures ControlStep(mode, current, target, f1).Some? ==>
      ControlStep(mode, current, target, f1).value.action == ControlStep(mode, current, target, f2).value.action
  {}

  /** Worked cases: cooling at 23.2 against 22.0 runs the low speed; heating at 21.0 against 22.0
      runs the low speed; cooling at 22.1 against 22.0 idles; a fan pinned to "low" is left alone
      while cooling at 26.0 against 22.0 still switches the cooling group on. */
  lemma WorkedCases()
    ensures ControlStep(HvacMode.Cool, Some(23.2), Some(22.0), FanAuto)
         == Some(Plan(HvacAction.Cooling, [UpdateFan(FanLow), SwitchGroup(CoolingGroup, true)]))
    ensures ControlStep(HvacMode.Heat, Some(21.0), Some(22.0), FanAuto)
         == Some(Plan(HvacAction.Heating, [UpdateFan(FanLow), SwitchGroup(HeatingGroup, true)]))
    ensures ControlStep(HvacMode.Cool, Some(22.1), Some(22.0), FanAuto)
         == Some(Plan(HvacAction.Idle, [UpdateFan(FanOff), SwitchGroup(CoolingGroup, false)]))
    ensures ControlStep(HvacMode.Cool, Some(26.0), Some(22.0), FanLow)
         == Some(Plan(HvacAction.Cooling, [SwitchGroup(CoolingGroup, true)]))
  {
    CoolBanding(23.2, 22.0, FanAuto);
    assert [UpdateFan(FanLow)] + [SwitchGroup(CoolingGroup, true)] == [UpdateFan(FanLow), SwitchGroup(CoolingGroup, true)];
    HeatBanding(21.0, 22.0, FanAuto);
    assert [UpdateFan(FanLow)] + [SwitchGroup(HeatingGroup, true)] == [UpdateFan(FanLow), SwitchGroup(HeatingGroup, true)];
    CoolBanding(22.1, 22.0, FanAuto);
    assert [UpdateFan(FanOff)] + [SwitchGroup(CoolingGroup, false)] == [UpdateFan(FanOff), SwitchGroup(CoolingGroup, false)];
    CoolBanding(26.0, 22.0, FanLow);
    assert FanLow != FanAuto;
    assert [] + [SwitchGroup(CoolingGroup, true)] == [SwitchGroup(CoolingGroup, true)];
  }
}
