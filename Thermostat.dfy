/** The entity `GenericFanCoilThermostat`: its fields, the modes it offers, the user commands
    and the two observation callbacks. Work scheduled with `hass.async_create_task` is appended
    to `outbox` and not run; service calls the entity awaits itself are issued with an oracle
    and appended to `calls`. */
module Thermostat {
  import opened Wrappers
  import opened Const
  import opened Engine
  import opened Coordinator

  /** The HVAC modes offered for the configured switch lists: OFF first, then COOL if there
      are cooling switches, HEAT if there are heating switches, and both HEAT and COOL when
      there are none at all (fan-only operation). */
  function AvailableModes(cooling: seq<string>, heating: seq<string>): (r: seq<HvacMode>)
    ensures 0 < |r| && r[0] == HvacMode.Off
    ensures HvacMode.Cool in r <==> cooling != [] || heating == []
    ensures HvacMode.Heat in r <==> heating != [] || cooling == []
    ensures forall m :: m in r ==> m in {HvacMode.Off, HvacMode.Heat, HvacMode.Cool}
    ensures forall i, j :: 0 <= i < j < |r| ==> r[i] != r[j]
  {
    [HvacMode.Off]
    + (if cooling != [] then [HvacMode.Cool] else [])
    + (if heating != [] then [HvacMode.Heat] else [])
    + (if cooling == [] && heating == [] then [HvacMode.Heat, HvacMode.Cool] else [])
  }

  // States of other entities, as the state-change events carry them.
  const StateOff: string := "off"
  const StateUnknown: string := "unknown"
  const StateUnavailable: string := "unavailable"

  /** The new state of the temperature sensor: its state string and what `float()` makes of
      it (`None` where `float()` raises). */
  datatype SensorState = SensorState(state: string, number: Option<real>)

  /** An entry of a state's attributes: absent, present with value `None`, or present with a value. */
  datatype Attribute = Absent | Null | Present(value: string)

  /** The new state of the fan entity: its state string and its `preset_mode` attribute. */
  datatype FanState = FanState(state: string, presetMode: Attribute)

  /** How a command coroutine ended. */
  datatype Status = Done | Rejected | Raised

  class GenericFanCoilThermostat {
    // Configuration, fixed at construction.
    const currentTempEntityId: string
    const fanEntityId: string
    const coolingSwitches: seq<string>
    const heatingSwitches: seq<string>
    const hvacModes: seq<HvacMode>
    const minTemp: real
    const maxTemp: real
    const targetTempStep: real

    // State the entity updates.
    var hvacMode: HvacMode
    var fanMode: string
    var currentTemp: Option<real>
    var targetTemp: Option<real>
    var hvacAction: HvacAction
    var currentFanMode: Option<string>   // `None` when the fan reported `preset_mode: None`

    // Work scheduled but not yet run, in scheduling order.
    var outbox: seq<Task>
    // Service calls the entity has awaited, in issue order.
    var calls: seq<ServiceCall>

    function Devices(): Wiring {
      Wiring(fanEntityId, coolingSwitches, heatingSwitches)
    }

    /** The entity's invariant: the offered modes follow the switch lists, the current modes are
        valid, and whenever a control step would act the reported action is the one it decides. */
    ghost predicate Valid()
      reads this
    {
      && hvacModes == AvailableModes(coolingSwitches, heatingSwitches)
      && hvacMode in hvacModes
      && fanMode in FanModes
      && ActionFollowsTemperatures()
    }

    ghost predicate ActionFollowsTemperatures()
      reads this
    {
      var step := ControlStep(hvacMode, currentTemp, targetTemp, fanMode);
      step.Some? ==> hvacAction == step.value.action
    }

    /** The effect of one control step on the action and the outbox, from the given previous values. */
    ghost predicate ControlledFrom(prevAction: HvacAction, prevOutbox: seq<Task>)
      reads this
    {
      var step := ControlStep(hvacMode, currentTemp, targetTemp, fanMode);
      if step.Some? then hvacAction == step.value.action && outbox == prevOutbox + step.value.tasks
      else hvacAction == prevAction && outbox == prevOutbox
    }

    /** `__init__`, with the configuration already merged from the entry's data and options. */
    constructor (currentTempEntityId: string, fanEntityId: string,
                 coolingSwitches: Option<seq<string>>, heatingSwitches: Option<seq<string>>,
                 minTemp: real, maxTemp: real, targetTemp: Option<real>, tempStep: real)
      ensures Valid()
      ensures this.currentTempEntityId == currentTempEntityId && this.fanEntityId == fanEntityId
      ensures this.coolingSwitches == coolingSwitches.GetOr([])
      ensures this.heatingSwitches == heatingSwitches.GetOr([])
      ensures this.minTemp == minTemp && this.maxTemp == maxTemp && this.targetTempStep == tempStep
      ensures this.targetTemp == targetTemp
      ensures hvacMode == HvacMode.Off && currentTemp == None && fanMode == FanAuto
      ensures hvacAction == HvacAction.Off && currentFanMode == Some(FanOff)
      ensures outbox == [] && calls == []
    {
      this.currentTempEntityId := currentTempEntityId;
      this.fanEntityId := fanEntityId;
      this.coolingSwitches := coolingSwitches.GetOr([]);
      this.heatingSwitches := heatingSwitches.GetOr([]);
      this.hvacModes := AvailableModes(coolingSwitches.GetOr([]), heatingSwitches.GetOr([]));
      this.minTemp := minTemp;
      this.maxTemp := maxTemp;
      this.targetTemp := targetTemp;
      this.targetTempStep := tempStep;
      this.hvacMode := HvacMode.Off;
      this.currentTemp := None;
      this.fanMode := FanAuto;
      this.hvacAction := HvacAction.Off;
      this.currentFanMode := Some(FanOff);
      this.outbox := [];
      this.calls := [];
    }

    /** `async_control_fan`: nothing when the mode is not HEAT or COOL or a temperature is missing;
        otherwise set the action and schedule the step's tasks. */
    method ControlFan()
      modifies this`hvacAction, this`outbox
      ensures ControlledFrom(old(hvacAction), old(outbox))
      ensures ActionFollowsTemperatures()
    {
      var step := ControlStep(hvacMode, currentTemp, targetTemp, fanMode);
      if step.Some? {
        hvacAction := step.value.action;
        outbox := outbox + step.value.tasks;
      }
    }

    /** `async_update_fan`, awaited: its calls are issued now. */
    method UpdateFan(mode: string, ok: Oracle) returns (raised: bool)
      modifies this`calls
      ensures calls == old(calls) + FanUpdate(fanEntityId, mode, ok).log
      ensures raised == FanUpdate(fanEntityId, mode, ok).raised
    {
      var r := FanUpdate(fanEntityId, mode, ok);
      calls := calls + r.log;
      raised := r.raised;
    }

    /** `async_turn_on_cooling_switches`. */
    method TurnOnCoolingSwitches(ok: Oracle)
      modifies this`calls
      ensures calls == old(calls) + GroupCalls(TurnOn, coolingSwitches, ok)
    {
      var log := SwitchGroupCommand(TurnOn, coolingSwitches, ok);
      calls := calls + log;
    }

    /** `async_turn_off_cooling_switches`. */
    method TurnOffCoolingSwitches(ok: Oracle)
      modifies this`calls
      ensures calls == old(calls) + GroupCalls(TurnOff, coolingSwitches, ok)
    {
      var log := SwitchGroupCommand(TurnOff, coolingSwitches, ok);
      calls := calls + log;
    }

    /** `async_turn_on_heating_switches`. */
    method TurnOnHeatingSwitches(ok: Oracle)
      modifies this`calls
      ensures calls == old(calls) + GroupCalls(TurnOn, heatingSwitches, ok)
    {
      var log := SwitchGroupCommand(TurnOn, heatingSwitches, ok);
      calls := calls + log;
    }

    /** `async_turn_off_heating_switches`. */
    method TurnOffHeatingSwitches(ok: Oracle)
      modifies this`calls
      ensures calls == old(calls) + GroupCalls(TurnOff, heatingSwitches, ok)
    {
      var log := SwitchGroupCommand(TurnOff, heatingSwitches, ok);
      calls := calls + log;
    }

    /** `async_set_hvac_mode`. A mode that is not offered is rejected with nothing changed.
        OFF turns off the cooling switches, then the heating switches, then (in fan mode "auto")
        the fan, and only then reports action OFF: if the fan call raises, the exception leaves
        the coroutine before the action is set. Any other offered mode runs a control step. */
    method SetHvacMode(mode: HvacMode, ok: Oracle) returns (status: Status)
      requires Valid()
      modifies this`hvacMode, this`hvacAction, this`outbox, this`calls
      ensures Valid()
      ensures mode !in hvacModes ==> status == Rejected && unchanged(this)
      ensures mode in hvacModes ==> hvacMode == mode
      ensures mode in hvacModes && mode == HvacMode.Off ==>
        && calls == old(calls) + GroupCalls(TurnOff, coolingSwitches, ok) + GroupCalls(TurnOff, heatingSwitches, ok)
                    + (if fanMode == FanAuto then [FanCall(TurnOff, fanEntityId)] else [])
        && outbox == old(outbox)
        && (status == Raised <==> fanMode == FanAuto && !ok(FanCall(TurnOff, fanEntityId)))
        && (status == Done <==> !(fanMode == FanAuto && !ok(FanCall(TurnOff, fanEntityId))))
        && hvacAction == (if status == Done then HvacAction.Off else old(hvacAction))
      ensures mode in hvacModes && mode != HvacMode.Off ==>
        status == Done && calls == old(calls) && ControlledFrom(old(hvacAction), old(outbox))
    {
      if mode !in hvacModes {
        return Rejected;
      }
      hvacMode := mode;
      if mode == HvacMode.Off {
        TurnOffCoolingSwitches(ok);
        TurnOffHeatingSwitches(ok);
        if fanMode == FanAuto {
          var off := FanCall(TurnOff, fanEntityId);
          calls := calls + [off];
          if !ok(off) {
            return Raised;
          }
        }
        hvacAction := HvacAction.Off;
      } else {
        ControlFan();
      }
      status := Done;
    }

    /** `async_set_fan_mode`. A mode outside the offered fan modes is rejected with nothing changed.
        Otherwise the mode is stored; "auto" runs a control step, any other mode goes straight to the
        fan through `async_update_fan`, whose exception, if any, leaves the coroutine. */
    method SetFanMode(mode: string, ok: Oracle) returns (status: Status)
      requires Valid()
      modifies this`fanMode, this`hvacAction, this`outbox, this`calls
      ensures Valid()
      ensures mode !in FanModes ==> status == Rejected && unchanged(this)
      ensures mode in FanModes ==> fanMode == mode
      ensures mode == FanAuto ==> status == Done && calls == old(calls) && ControlledFrom(old(hvacAction), old(outbox))
      ensures mode in FanModes && mode != FanAuto ==>
        && hvacAction == old(hvacAction) && outbox == old(outbox)
        && calls == old(calls) + FanUpdate(fanEntityId, mode, ok).log
        && (status == Raised <==> FanUpdate(fanEntityId, mode, ok).raised)
        && (status == Done <==> !FanUpdate(fanEntityId, mode, ok).raised)
    {
      if mode !in FanModes {
        return Rejected;
      }
      ActionIgnoresFanMode(hvacMode, currentTemp, targetTemp, fanMode, mode);
      fanMode := mode;
      if mode == FanAuto {
        ControlFan();
      } else {
        var raised := UpdateFan(mode, ok);
        if raised {
          return Raised;
        }
      }
      status := Done;
    }

    /** `async_set_temperature`: without a temperature argument nothing happens; with one, the
        target takes it as given (no clamping to the minimum or maximum) and a control step runs. */
    method SetTemperature(temperature: Option<real>)
      requires Valid()
      modifies this`targetTemp, this`hvacAction, this`outbox
      ensures Valid()
      ensures temperature.None? ==> unchanged(this)
      ensures temperature.Some? ==> targetTemp == temperature && ControlledFrom(old(hvacAction), old(outbox))
    {
      if temperature.Some? {
        targetTemp := temperature;
        ControlFan();
      }
    }

    /** `_async_temp_changed`: a missing, "unknown", "unavailable" or non-numeric new state changes
        nothing; a numeric one becomes the current temperature and a control step runs. */
    method TempChanged(newState: Option<SensorState>)
      requires Valid()
      modifies this`currentTemp, this`hvacAction, this`outbox
      ensures Valid()
      ensures (|| newState.None?
               || newState.value.state == StateUnknown || newState.value.state == StateUnavailable
               || newState.value.number.None?) ==> unchanged(this)
      ensures (&& newState.Some?
               && newState.value.state != StateUnknown && newState.value.state != StateUnavailable
               && newState.value.number.Some?) ==>
        currentTemp == newState.value.number && ControlledFrom(old(hvacAction), old(outbox))
    {
      if newState.None? || newState.value.state == StateUnknown || newState.value.state == StateUnavailable {
        return;
      }
      if newState.value.number.Some? {
        currentTemp := newState.value.number;
        ControlFan();
      }
    }

    /** `_async_fan_changed`: only the tracked fan speed changes, and no command is issued. A missing
        state changes nothing; "off" tracks OFF; otherwise the `preset_mode` attribute is adopted,
        "low" when it is absent. */
    method FanChanged(newState: Option<FanState>)
      requires Valid()
      modifies this`currentFanMode
      ensures Valid()
      ensures newState.None? ==> currentFanMode == old(currentFanMode)
      ensures newState.Some? && newState.value.state == StateOff ==> currentFanMode == Some(FanOff)
      ensures newState.Some? && newState.value.state != StateOff ==>
        currentFanMode == match newState.value.presetMode
                          case Absent => Some(FanLow)
                          case Null => None
                          case Present(m) => Some(m)
    {
      if newState.None? {
        return;
      }
      if newState.value.state == StateOff {
        currentFanMode := Some(FanOff);
      } else {
        currentFanMode := match newState.value.presetMode
                          case Absent => Some(FanLow)
                          case Null => None
                          case Present(m) => Some(m);
      }
    }
  }

  // ---------------------------------------------------------------------------------------
  // Properties across the entity's state

  /** The fan speed names are the entity's fan modes other than "auto". */
  lemma FanModesAreSpeedsAndAuto()
    ensures FanModes == [FanOff, FanLow, FanMed, FanHigh, FanAuto]
    ensures forall m :: m in FanModes && m != FanAuto ==> m in {FanOff, FanLow, FanMed, FanHigh}
  {}

  /** After a direct switch between HEAT and COOL the step addresses only the new mode's group:
      running what it scheduled issues the same calls whatever the other group holds, and
      addresses only the fan and the new mode's switches. */
  lemma StepNeverCommandsOtherGroup(mode: HvacMode, current: real, target: real, fanMode: string,
                                    w: Wiring, w': Wiring, ok: Oracle)
    requires mode == HvacMode.Cool || mode == HvacMode.Heat
    requires w.fanId == w'.fanId && Members(w, GroupOf(mode)) == Members(w', GroupOf(mode))
    ensures var tasks := ControlStep(mode, Some(current), Some(target), fanMode).value.tasks;
      && ExecuteAll(tasks, w, ok) == ExecuteAll(tasks, w', ok)
      && Within(ExecuteAll(tasks, w, ok), [w.fanId] + Members(w, GroupOf(mode)))
  {
    var tasks := ControlStep(mode, Some(current), Some(target), fanMode).value.tasks;
    var g := Other(GroupOf(mode));
    StepAvoidsOtherGroup(mode, Some(current), Some(target), fanMode);
    assert Other(g) == GroupOf(mode);
    ExecuteAllIgnoresAvoidedGroup(tasks, g, w, w', ok);
    ExecuteAllStaysInGroup(tasks, g, w, ok);
  }
}
