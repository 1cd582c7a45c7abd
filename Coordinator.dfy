/** The actuation side of the thermostat: the service calls it issues to the fan and to the
    switch groups (`async_update_fan` and the four `async_turn_on/off_*_switches`), with a
    success/failure oracle in place of the service-call transport. */
module Coordinator {
  import opened Wrappers
  import opened Const
  import opened Engine

  /** The `entity_id` of a call: one entity, or a whole list in one batched call. */
  datatype Target = One(id: string) | Many(ids: seq<string>)

  /** One `hass.services.async_call(domain, service, data)`. */
  datatype ServiceCall = ServiceCall(domain: string, service: string, target: Target, presetMode: Option<string>)

  /** Whether a call succeeds (true) or raises (false). */
  type Oracle = ServiceCall -> bool

  const TurnOn: string := "turn_on"
  const TurnOff: string := "turn_off"
  const SetPresetMode: string := "set_preset_mode"

  /** The entities one thermostat drives. */
  datatype Wiring = Wiring(fanId: string, cooling: seq<string>, heating: seq<string>)

  function Members(w: Wiring, g: Group): seq<string> {
    if g == CoolingGroup then w.cooling else w.heating
  }

  function FanCall(service: string, fanId: string): ServiceCall {
    ServiceCall("fan", service, One(fanId), None)
  }

  function PresetCall(fanId: string, mode: string): ServiceCall {
    ServiceCall("fan", SetPresetMode, One(fanId), Some(mode))
  }

  function SwitchCall(service: string, target: Target): ServiceCall {
    ServiceCall("switch", service, target, None)
  }

  /** True when a call's target names entity `id`. */
  predicate Addresses(t: Target, id: string) {
    match t
    case One(x) => x == id
    case Many(xs) => id in xs
  }

  /** True when every entity the calls of `log` address is one of `ids`. */
  ghost predicate Within(log: seq<ServiceCall>, ids: seq<string>) {
    forall k, id :: 0 <= k < |log| && Addresses(log[k].target, id) ==> id in ids
  }

  /** The calls a coroutine issued, and whether an exception escaped it. */
  datatype Outcome = Outcome(log: seq<ServiceCall>, raised: bool)

  // ---------------------------------------------------------------------------------------
  // The fan

  /** `async_update_fan(mode)`: "off" is one turn_off; any other mode is turn_on and then
      set_preset_mode with that mode. A failing call raises out of the coroutine, so a failed
      turn_on is not followed by set_preset_mode. */
  function FanUpdate(fanId: string, mode: string, ok: Oracle): (r: Outcome)
    ensures 1 <= |r.log| <= 2
    ensures forall k :: 0 <= k < |r.log| ==> r.log[k].domain == "fan" && r.log[k].target == One(fanId)
    ensures r.log[0] == FanCall(if mode == FanOff then TurnOff else TurnOn, fanId)
    ensures |r.log| == 2 <==> mode != FanOff && ok(FanCall(TurnOn, fanId))
    ensures |r.log| == 2 ==> r.log[1] == PresetCall(fanId, mode)
    ensures r.raised <==> exists k :: 0 <= k < |r.log| && !ok(r.log[k])
  {
    if mode == FanOff then
      var off := FanCall(TurnOff, fanId);
      Outcome([off], !ok(off))
    else
      var on := FanCall(TurnOn, fanId);
      if !ok(on) then Outcome([on], true)
      else
        var preset := PresetCall(fanId, mode);
        Outcome([on, preset], !ok(preset))
  }

  // ---------------------------------------------------------------------------------------
  // The switch groups: batch, then fall back to one call per switch

  /** One call per switch, in list order. */
  function Individually(service: string, switches: seq<string>): (r: seq<ServiceCall>)
    ensures |r| == |switches|
    ensures forall k :: 0 <= k < |switches| ==> r[k] == SwitchCall(service, One(switches[k]))
  {
    seq(|switches|, k requires 0 <= k < |switches| => SwitchCall(service, One(switches[k])))
  }

  /** The calls of one group command, as a specification of `SwitchGroupCommand`. */
  function GroupCalls(service: string, switches: seq<string>, ok: Oracle): seq<ServiceCall> {
    if switches == [] then []
    else
      var batch := SwitchCall(service, Many(switches));
      if ok(batch) then [batch] else [batch] + Individually(service, switches)
  }

  /** The body shared by the four `async_turn_on/off_cooling/heating_switches`: nothing for an
      empty list; otherwise one batched call and, only if it raises, one call per switch in list
      order, each failure swallowed so that the later switches are still tried. Nothing raises. */
  method SwitchGroupCommand(service: string, switches: seq<string>, ok: Oracle) returns (log: seq<ServiceCall>)
    ensures log == GroupCalls(service, switches, ok)
    ensures switches == [] ==> log == []
    ensures switches != [] && ok(SwitchCall(service, Many(switches))) ==> log == [SwitchCall(service, Many(switches))]
    ensures switches != [] && !ok(SwitchCall(service, Many(switches))) ==>
      && |log| == |switches| + 1
      && log[0] == SwitchCall(service, Many(switches))
      && forall k :: 0 <= k < |switches| ==> log[k + 1] == SwitchCall(service, One(switches[k]))
  {
    log := [];
    if switches == [] {
      return;
    }
    var batch := SwitchCall(service, Many(switches));
    log := [batch];
    if ok(batch) {
      return;
    }
    var i := 0;
    while i < |switches|
      invariant 0 <= i <= |switches|
      invariant |log| == i + 1 && log[0] == batch
      invariant forall k :: 0 <= k < i ==> log[k + 1] == SwitchCall(service, One(switches[k]))
    {
      // The outcome of this call is only logged by the source; the loop goes on either way.
      log := log + [SwitchCall(service, One(switches[i]))];
      i := i + 1;
    }
    assert log == [batch] + Individually(service, switches);
  }

  /** Every switch of the list is addressed by the group command with its service: by the batched
      call, and when that call fails, also by a call of its own. */
  lemma GroupAddressesEverySwitch(service: string, switches: seq<string>, ok: Oracle, id: string)
    requires id in switches
    ensures exists k :: (0 <= k < |GroupCalls(service, switches, ok)|
      && GroupCalls(service, switches, ok)[k].service == service
      && Addresses(GroupCalls(service, switches, ok)[k].target, id))
    ensures ok(SwitchCall(service, Many(switches)))
      || exists k :: (0 <= k < |GroupCalls(service, switches, ok)|
           && GroupCalls(service, switches, ok)[k] == SwitchCall(service, One(id)))
  {
    var log := GroupCalls(service, switches, ok);
    assert Addresses(log[0].target, id);
    if !ok(SwitchCall(service, Many(switches))) {
      var j :| 0 <= j < |switches| && switches[j] == id;
      assert log[j + 1] == SwitchCall(service, One(id));
    }
  }

  /** A group command issues only switch calls of its own service addressing switches of its own list. */
  lemma GroupAddressesOnlyItsSwitches(service: string, switches: seq<string>, ok: Oracle)
    ensures Within(GroupCalls(service, switches, ok), switches)
    ensures forall k :: 0 <= k < |GroupCalls(service, switches, ok)| ==>
      GroupCalls(service, switches, ok)[k] == SwitchCall(service, GroupCalls(service, switches, ok)[k].target)
  {}

  // ---------------------------------------------------------------------------------------
  // Running scheduled tasks

  /** The calls a scheduled task issues when it runs. An exception ends the task and is not
      seen by the entity. */
  function ExecuteTask(t: Task, w: Wiring, ok: Oracle): (r: seq<ServiceCall>)
    ensures t.UpdateFan? ==> 1 <= |r| <= 2
    ensures t.UpdateFan? ==> forall k :: 0 <= k < |r| ==> r[k].domain == "fan" && r[k].target == One(w.fanId)
    ensures t.SwitchGroup? ==> (r == [] <==> Members(w, t.group) == [])
    ensures t.SwitchGroup? ==> forall k :: 0 <= k < |r| ==>
      r[k] == SwitchCall(if t.on then TurnOn else TurnOff, r[k].target)
    ensures t.SwitchGroup? ==> Within(r, Members(w, t.group))
  {
    match t
    case UpdateFan(speed) => FanUpdate(w.fanId, speed, ok).log
    case SwitchGroup(g, on) =>
      GroupAddressesOnlyItsSwitches(if on then TurnOn else TurnOff, Members(w, g), ok);
      GroupCalls(if on then TurnOn else TurnOff, Members(w, g), ok)
  }

  /** The calls of the tasks run one after the other in the given order (any order can be given). */
  function ExecuteAll(tasks: seq<Task>, w: Wiring, ok: Oracle): seq<ServiceCall> {
    if tasks == [] then [] else ExecuteTask(tasks[0], w, ok) + ExecuteAll(tasks[1..], w, ok)
  }

  /** Running tasks that avoid group `g` issues the same calls whatever the members of `g` are. */
  lemma {:induction false} ExecuteAllIgnoresAvoidedGroup(tasks: seq<Task>, g: Group, w: Wiring, w': Wiring, ok: Oracle)
    requires Avoids(tasks, g)
    requires w.fanId == w'.fanId && Members(w, Other(g)) == Members(w', Other(g))
    ensures ExecuteAll(tasks, w, ok) == ExecuteAll(tasks, w', ok)
  {
    if tasks != [] {
      assert ExecuteTask(tasks[0], w, ok) == ExecuteTask(tasks[0], w', ok) by {
        if tasks[0].SwitchGroup? {
          assert tasks[0].group == Other(g);
        }
      }
      assert Avoids(tasks[1..], g) by {
        forall i | 0 <= i < |tasks[1..]| && tasks[1..][i].SwitchGroup?
          ensures tasks[1..][i].group != g
        {
          assert tasks[1..][i] == tasks[i + 1];
        }
      }
      ExecuteAllIgnoresAvoidedGroup(tasks[1..], g, w, w', ok);
    }
  }

  /** Running tasks that avoid group `g` addresses only the fan and switches of the other group. */
  lemma {:induction false} ExecuteAllStaysInGroup(tasks: seq<Task>, g: Group, w: Wiring, ok: Oracle)
    requires Avoids(tasks, g)
    ensures Within(ExecuteAll(tasks, w, ok), [w.fanId] + Members(w, Other(g)))
  {
    if tasks != [] {
      var head := ExecuteTask(tasks[0], w, ok);
      var rest := ExecuteAll(tasks[1..], w, ok);
      assert Avoids(tasks[1..], g) by {
        forall i | 0 <= i < |tasks[1..]| && tasks[1..][i].SwitchGroup?
          ensures tasks[1..][i].group != g
        {
          assert tasks[1..][i] == tasks[i + 1];
        }
      }
      ExecuteAllStaysInGroup(tasks[1..], g, w, ok);
      if tasks[0].SwitchGroup? {
        assert tasks[0].group == Other(g);
        assert Within(head, Members(w, Other(g)));
      } else {
        assert forall k :: 0 <= k < |head| ==> head[k].target == One(w.fanId);
      }
      forall k, id | 0 <= k < |head + rest| && Addresses((head + rest)[k].target, id)
        ensures id in [w.fanId] + Members(w, Other(g))
      {
        if k >= |head| {
          assert (head + rest)[k] == rest[k - |head|];
        }
      }
    }
  }
}
