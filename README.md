# Generic Fan Coil Thermostat — a Dafny model

This project models the Home Assistant climate entity `GenericFanCoilThermostat`. The entity
drives a fan coil unit: one fan entity plus two lists of switch entities, one for cooling and
one for heating. It compares a temperature sensor's reading with a target. On that basis it picks
an HVAC action (IDLE, COOLING or HEATING), a fan speed (off, low, medium, high) and an on/off
command for the active switch group. It is a bang-bang controller with three fixed thresholds,
0.5, 1.5 and 2.5 °C.

Both copies of `climate.py` (the repository root and `custom_components/generic_fan_coil_thermostat/`)
are identical line for line, so one model covers both. The table cites the `custom_components` copy
for the entity and the root copy for the actuation methods; the line numbers are the same in both.

The project has five modules:

- `Wrappers` (`Wrappers.dfy`): `Option`, for Python's `None`.
- `Const` (`Const.dfy`): the constants of `const.py` and facts about how they are ordered.
- `Engine` (`Engine.dfy`): the decision cascade of `async_control_fan`, `_control_cooling` and
  `_control_heating`, as pure functions over `real` temperatures. `ControlStep` gives `None` when
  the step returns early. Otherwise it gives a `Plan`: the action to report and the tasks the step
  schedules (`UpdateFan(speed)`, `SwitchGroup(group, on)`).
- `Coordinator` (`Coordinator.dfy`): the service calls. An `Oracle` (`ServiceCall -> bool`) stands
  for the transport and says whether a call succeeds or raises. Three pieces live here:
  - `FanUpdate` is `async_update_fan`.
  - `SwitchGroupCommand` is the batch-then-fallback body shared by the four switch-group
    coroutines, a loop over the switch list.
  - `ExecuteTask`/`ExecuteAll` give the calls a scheduled task issues when it runs.
- `Thermostat` (`Thermostat.dfy`): the class `GenericFanCoilThermostat`, with the source's mutable
  fields, the HVAC modes it offers, the user commands and the two observation callbacks.
  - Work the source hands to `hass.async_create_task` is appended to the field `outbox`. It is
    not run there.
  - Service calls the entity awaits itself are issued through the oracle and appended to `calls`.
    These come from `async_set_hvac_mode(OFF)` and from `async_set_fan_mode` with a fixed speed.
  - `Valid()` is the entity invariant, and every command and callback preserves it:
    - the offered modes follow the switch lists;
    - the HVAC mode is one of them;
    - the fan mode is one of the five offered;
    - whenever a control step would act, the reported action is the one it decides.

Behaviour of the code that a reader might not expect, modelled as written:

- The code does not keep "the action is OFF iff the mode is OFF":
  - Selecting HEAT or COOL while a temperature is missing leaves the old action, e.g. OFF.
  - In `async_set_hvac_mode(OFF)` with fan mode "auto", a failing fan `turn_off` raises before
    the action is set to OFF. The mode is then OFF but the old action stays (`SetHvacMode`,
    status `Raised`).
- With mode OFF the control step does nothing at all, rather than returning an "all off" plan.
  Only `async_set_hvac_mode(OFF)` turns things off.
- The target temperature is not clamped to `[min_temp, max_temp]`.
- A direct switch between HEAT and COOL does not turn off the other group. `StepNeverCommandsOtherGroup`
  proves that the new mode's step never addresses it, so those switches keep their last state.

## Model

| member | source | states |
|---|---|---|
| `Const.ThresholdsAscending` | custom_components/generic_fan_coil_thermostat/const.py:29-31 | the thresholds are positive and strictly ascending, 0.5 < 1.5 < 2.5 |
| `Const.DefaultsOrdered` | custom_components/generic_fan_coil_thermostat/const.py:17-19 | default min ≤ default target ≤ default max (15, 22, 30) |
| `Const.DefaultStepPositive` | custom_components/generic_fan_coil_thermostat/const.py:20 | the default temperature step 0.5 is positive |
| `Const.FanSpeedsDistinct` | custom_components/generic_fan_coil_thermostat/const.py:23-26 | the four fan speed names are pairwise distinct |
| `Thermostat.FanModesAreSpeedsAndAuto` | custom_components/generic_fan_coil_thermostat/climate.py:95 | the offered fan modes are exactly the four speed names followed by "auto", so every mode other than "auto" is a speed name |
| `Engine.BandOf` | custom_components/generic_fan_coil_thermostat/climate.py:278-292 | the strict-`<` cascade puts an error in the idle band iff it is below 0.5, low iff in [0.5, 1.5), medium iff in [1.5, 2.5), high iff ≥ 2.5 |
| `Engine.ControlCooling` | custom_components/generic_fan_coil_thermostat/climate.py:275-305 | IDLE iff the error is below 0.5, otherwise COOLING; one fan task iff the fan mode is "auto", setting off/low/medium/high by the strict-`<` bands; the last task switches the cooling group, on iff the error is at least 0.5; nothing addresses the heating group |
| `Engine.ControlHeating` | custom_components/generic_fan_coil_thermostat/climate.py:307-339 | the same on the heating need −(current − target): IDLE or HEATING, fan task only in "auto", the last task switches the heating group; nothing addresses the cooling group |
| `Engine.ControlStep` | custom_components/generic_fan_coil_thermostat/climate.py:256-273 | the step does nothing exactly when the mode is neither HEAT nor COOL (OFF included) or a temperature is missing; when it acts, the action is never OFF, and it is IDLE/COOLING in COOL and IDLE/HEATING in HEAT |
| `Engine.CoolBanding` | custom_components/generic_fan_coil_thermostat/climate.py:275-305 | in COOL with d = current − target: d < 0.5 gives IDLE, cooling group off, fan off (auto only); each higher band gives COOLING, cooling group on, fan low/medium/high (auto only) |
| `Engine.HeatBanding` | custom_components/generic_fan_coil_thermostat/climate.py:307-339 | in HEAT the same bands on h = −(current − target), with HEATING and the heating group |
| `Engine.BoundariesBelongToHigherBand` | custom_components/generic_fan_coil_thermostat/climate.py:278-292 | an error equal to 0.5, 1.5 or 2.5 falls into the low, medium or high band, the higher one |
| `Engine.BandMonotone` | custom_components/generic_fan_coil_thermostat/climate.py:278-292 | a larger error never selects a lower band |
| `Engine.StepMonotone` | custom_components/generic_fan_coil_thermostat/climate.py:267-326 | for a fixed target, a warmer room never lowers the COOL band and a colder one never lowers the HEAT band |
| `Engine.HeatCoolSymmetry` | custom_components/generic_fan_coil_thermostat/climate.py:307-339 | HEAT with (c, t) makes the plan of COOL with (t, c), with HEATING/heating group in place of COOLING/cooling group |
| `Engine.FanGatedOnAuto` | custom_components/generic_fan_coil_thermostat/climate.py:275-339 | a step schedules a fan task iff the fan mode is "auto", and in every band exactly one command for its own group, on iff the action is not IDLE |
| `Engine.StepAvoidsOtherGroup` | custom_components/generic_fan_coil_thermostat/climate.py:270-273 | a COOL step schedules nothing for the heating group and a HEAT step nothing for the cooling group |
| `Engine.ActionIgnoresFanMode` | custom_components/generic_fan_coil_thermostat/climate.py:275-339 | whether a step acts, and the action it reports, do not depend on the fan mode |
| `Engine.WorkedCases` | custom_components/generic_fan_coil_thermostat/climate.py:256-339 | 23.2/22.0 in COOL gives low speed and cooling on; 21.0/22.0 in HEAT gives low speed and heating on; 22.1/22.0 in COOL idles with fan off; a fan pinned to "low" at 26.0/22.0 in COOL gets no fan task while cooling is switched on |
| `Coordinator.FanUpdate` | climate.py:341-360 | "off" issues exactly one turn_off; any other mode issues turn_on and then, only if turn_on succeeded, set_preset_mode with that mode; all calls address the fan; the coroutine raises iff one of its calls failed |
| `Coordinator.SwitchGroupCommand` | climate.py:362-388 | an empty list issues nothing; otherwise one batched call to the whole list; if that succeeds nothing else; if it fails, exactly one individual call per switch in list order whatever their outcomes (nothing raises) |
| `Coordinator.GroupAddressesEverySwitch` | climate.py:370-388 | every switch of the list is addressed with the group's service |
| `Coordinator.GroupAddressesOnlyItsSwitches` | climate.py:370-388 | a group command issues only switch calls of its own service, addressing only switches of its own list |
| `Coordinator.ExecuteTask` | climate.py:341-472 | a scheduled fan task issues one or two calls, all to the fan; a scheduled group task issues nothing iff its list is empty, and only switch calls of its own service addressing switches of its own group |
| `Coordinator.ExecuteAllIgnoresAvoidedGroup` | custom_components/generic_fan_coil_thermostat/climate.py:282-339 | running tasks that never address a group issues the same calls whatever that group's switches are |
| `Coordinator.ExecuteAllStaysInGroup` | custom_components/generic_fan_coil_thermostat/climate.py:282-339 | running tasks that never address a group addresses only the fan and the other group's switches |
| `Thermostat.StepNeverCommandsOtherGroup` | custom_components/generic_fan_coil_thermostat/climate.py:270-339 | after any mode change, a COOL (HEAT) step's tasks, when run, never depend on or address the heating (cooling) switches |
| `Thermostat.AvailableModes` | custom_components/generic_fan_coil_thermostat/climate.py:119-127 | OFF is offered and listed first; COOL iff there are cooling switches or no switches at all; HEAT likewise; only OFF/HEAT/COOL, no duplicates |
| `Thermostat.GenericFanCoilThermostat.constructor` | custom_components/generic_fan_coil_thermostat/climate.py:97-141 | switch lists default to empty, modes offered per `AvailableModes`; mode OFF, no current temperature, fan mode "auto", action OFF, tracked speed "off", target as configured, nothing scheduled or issued; the invariant holds |
| `Thermostat.GenericFanCoilThermostat.ControlFan` | custom_components/generic_fan_coil_thermostat/climate.py:256-273 | when the step does nothing, action and outbox are unchanged; otherwise the action is the plan's and the plan's tasks are appended to the outbox |
| `Thermostat.GenericFanCoilThermostat.UpdateFan` | climate.py:341-360 | appends exactly `FanUpdate`'s calls and reports whether it raised |
| `Thermostat.GenericFanCoilThermostat.TurnOnCoolingSwitches` | climate.py:362-388 | appends the batch-then-fallback turn_on calls for the cooling list |
| `Thermostat.GenericFanCoilThermostat.TurnOffCoolingSwitches` | climate.py:390-416 | appends the batch-then-fallback turn_off calls for the cooling list |
| `Thermostat.GenericFanCoilThermostat.TurnOnHeatingSwitches` | climate.py:418-444 | appends the batch-then-fallback turn_on calls for the heating list |
| `Thermostat.GenericFanCoilThermostat.TurnOffHeatingSwitches` | climate.py:446-472 | appends the batch-then-fallback turn_off calls for the heating list |
| `Thermostat.GenericFanCoilThermostat.SetHvacMode` | custom_components/generic_fan_coil_thermostat/climate.py:234-254 | a mode not offered is rejected with the state unchanged; OFF turns off cooling, then heating, then the fan only in "auto", and sets action OFF unless that fan call raised; any other offered mode runs the control step; the invariant is kept |
| `Thermostat.GenericFanCoilThermostat.SetFanMode` | custom_components/generic_fan_coil_thermostat/climate.py:218-232 | a mode outside the five is rejected with the state unchanged; "auto" runs the control step; another mode is stored and sent straight to `async_update_fan` ("off" is one turn_off), action and outbox untouched; the invariant is kept |
| `Thermostat.GenericFanCoilThermostat.SetTemperature` | custom_components/generic_fan_coil_thermostat/climate.py:211-216 | no temperature argument changes nothing; otherwise the target takes the value unclamped and the control step runs |
| `Thermostat.GenericFanCoilThermostat.TempChanged` | custom_components/generic_fan_coil_thermostat/climate.py:180-192 | a missing, "unknown", "unavailable" or non-numeric state changes nothing; a numeric one sets the current temperature and runs the control step |
| `Thermostat.GenericFanCoilThermostat.FanChanged` | custom_components/generic_fan_coil_thermostat/climate.py:194-209 | a missing state changes nothing; "off" tracks "off"; otherwise the `preset_mode` attribute is tracked ("low" when absent); nothing else changes and no command is issued |

## Left out

- `async_setup_entry` (`climate.py:57-80`) and the package `__init__.py` files are out of the model. They handle platform setup and the `hass.data` registry, so the constructor takes the merged configuration directly.
- `config_flow.py` is not part of this model. It is the configuration form with no control logic.
- `async_added_to_hass` (`climate.py:143-178`) is out of the model. It covers state restore, event subscription and the first sensor read. The restores at lines 150-154 are not validated: a restored mode outside the offered modes, or a restored fan mode outside the five offered, would break `Valid()`. That path is not modelled.
- Concurrency: scheduled tasks are entries of `outbox` and are never run by the entity. `ExecuteTask`/`ExecuteAll` say what a task issues when it runs, one task after another. No order between separately scheduled tasks is claimed, and interleavings of their calls are not modelled.
- Service-call transport: the oracle (`ServiceCall -> bool`) is a parameter and gives each distinct call one fixed outcome. The outcomes of individual fallback calls never change which calls are issued. An exception raised inside a scheduled task ends only that task.
- Temperatures are `real`: IEEE rounding of `current - target` is not modelled. `float()` parsing is given as its result (`SensorState.number`).
- `SensorState.number` cannot hold the readings "nan" and "inf", which `float()` at `climate.py:188` accepts. With a NaN reading every strict `<` at `climate.py:278-292` and `312-326` is false, so both COOL and HEAT would fall into the HIGH band with their switches on. That case is not modelled.
- Logging and `async_write_ha_state` have no effect on the modelled state and are left out. So are the constant entity attributes (name, icon, unit, supported features).
- Idempotence on the devices ("running the same plan twice leaves them as running it once") is not stated, because the model keeps no physical device state. It only records the calls issued.
