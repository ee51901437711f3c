/**
 * Automatic frame skipping (libretro.cpp, "HANDLING FRAMESKIPPING" and
 * "HANDLING CORE-SPECIFIC OPTIONS"): the option enable_frameskip, the last
 * audio buffer status the host pushed through its callback, the
 * registration of that callback, and the decision to skip a tick.
 *
 * Each transition is a function from the old state to the new state and
 * the events it emits; the class in LibretroCore performs them in place.
 */
module Frameskip {
  import opened Events
  import opened FrameTrace

  /** C++ `unsigned`. */
  newtype u32 = x: int | 0 <= x < 0x1_0000_0000

  /** The globals enable_frameskip, audio_buffer_active,
      audio_buffer_underrun_likely and audio_buffer_occupancy. */
  datatype PacingState = PacingState(
    enableFrameskip: bool,
    audioBufferActive: bool,
    audioBufferUnderrunLikely: bool,
    audioBufferOccupancy: u32)

  /** The initial values of the four globals. */
  const InitialPacing := PacingState(false, false, false, 0)

  /** The value of the option that turns frame skipping on. */
  const EnabledValue: string := "Enabled"

  /** skip_frame in retro_run.  The buffer occupancy plays no part. */
  predicate SkipFrame(p: PacingState) {
    p.enableFrameskip && p.audioBufferActive && p.audioBufferUnderrunLikely
  }

  /** The host's answer to RETRO_ENVIRONMENT_GET_VARIABLE for "enable_frameskip":
      the call fails, it succeeds with a null value, or it gives a value. */
  datatype VariableReply = QueryFailed | NullValue | Value(text: string)

  /** The host's answers during one tick's configuration check:
      RETRO_ENVIRONMENT_GET_VARIABLE_UPDATE (its result and the flag it fills),
      the variable itself, and whether the status callback registration is taken. */
  datatype ConfigReplies = ConfigReplies(
    updateQueryAnswered: bool,
    variablesChanged: bool,
    variable: VariableReply,
    statusCallbackAccepted: bool)

  /** A new pacing state and the events emitted on the way to it. */
  datatype Step = Step(pacing: PacingState, emitted: seq<Event>)

  /** retro_audio_buff_status_cb: the three status fields are overwritten. */
  function StatusReceived(p: PacingState, active: bool, occupancy: u32, underrunLikely: bool): PacingState {
    p.(audioBufferActive := active, audioBufferOccupancy := occupancy,
       audioBufferUnderrunLikely := underrunLikely)
  }

  /** configure_frameskip: register the status callback when skipping is enabled
      (clearing the underrun flag if the host refuses), unregister it otherwise. */
  function Configured(p: PacingState, accepted: bool): Step {
    if p.enableFrameskip then
      if accepted then Step(p, [StatusCallbackSet(true)])
      else Step(p.(audioBufferUnderrunLikely := false), [StatusCallbackSet(false)])
    else Step(p, [StatusCallbackCleared])
  }

  /** update_config_variables: only a successful read with a non-null value sets the
      option (on exactly "Enabled") and reconfigures. */
  function ConfigUpdated(p: PacingState, variable: VariableReply, accepted: bool): Step {
    if variable.Value? then Configured(p.(enableFrameskip := variable.text == EnabledValue), accepted)
    else Step(p, [])
  }

  /** The first lines of retro_run: re-read the options only when the host says
      they changed. */
  function ConfigPolled(p: PacingState, c: ConfigReplies): Step {
    if c.updateQueryAnswered && c.variablesChanged then ConfigUpdated(p, c.variable, c.statusCallbackAccepted)
    else Step(p, [])
  }

  /** The frame a tick runs once it has decided whether to skip. */
  function TickFrame(skip: bool, f: FrameInputs): seq<Event> {
    if skip then SkippedFrame() else FullFrame(f)
  }

  /** retro_run as a whole. */
  function Ticked(p: PacingState, c: ConfigReplies, f: FrameInputs): Step {
    var polled := ConfigPolled(p, c);
    Step(polled.pacing, polled.emitted + TickFrame(SkipFrame(polled.pacing), f))
  }

  /** Whether the host holds the status callback after `log`: the last accepted
      registration was not followed by an unregistration (a refused registration
      leaves things as they were). */
  function Subscribed(log: seq<Event>): bool {
    if log == [] then false
    else
      match log[|log| - 1]
      case StatusCallbackSet(accepted) => accepted || Subscribed(log[..|log| - 1])
      case StatusCallbackCleared => false
      case _ => Subscribed(log[..|log| - 1])
  }

  /** The host holds the status callback exactly when some accepted registration
      has no unregistration after it. */
  lemma {:induction false} SubscribedIffAcceptedNotCleared(log: seq<Event>)
    ensures Subscribed(log) <==>
      exists i :: 0 <= i < |log| && log[i] == StatusCallbackSet(true) &&
        forall j :: i < j < |log| ==> log[j] != StatusCallbackCleared
  {
    if log != [] {
      var n := |log| - 1;
      var prefix := log[..n];
      SubscribedIffAcceptedNotCleared(prefix);
      if log[n] != StatusCallbackCleared && log[n] != StatusCallbackSet(true) {
        forall i | 0 <= i < n
          ensures (log[i] == StatusCallbackSet(true) && forall j :: i < j < |log| ==> log[j] != StatusCallbackCleared)
              <==> (prefix[i] == StatusCallbackSet(true) && forall j :: i < j < |prefix| ==> prefix[j] != StatusCallbackCleared)
        {
          assert forall j :: i < j < |prefix| ==> log[j] == prefix[j];
        }
      }
    }
  }

  /** The invariant of frame skipping: a tick is skipped only while the host is
      subscribed to report the audio buffer status that decides it. */
  ghost predicate SkipsOnlyWhenSubscribed(p: PacingState, log: seq<Event>) {
    SkipFrame(p) ==> Subscribed(log)
  }

  ghost predicate NoSubscriptionEvents(s: seq<Event>) {
    forall e :: e in s ==> !IsSubscriptionEvent(e)
  }

  lemma {:induction false} SubscribedIgnoresOtherEvents(log: seq<Event>, extra: seq<Event>)
    requires NoSubscriptionEvents(extra)
    ensures Subscribed(log + extra) == Subscribed(log)
    decreases |extra|
  {
    if extra == [] {
      assert log + extra == log;
    } else {
      var shorter := extra[..|extra| - 1];
      assert (log + extra)[..|log + extra| - 1] == log + shorter;
      assert extra[|extra| - 1] in extra;
      SubscribedIgnoresOtherEvents(log, shorter);
    }
  }

  lemma FramesDoNotSubscribe(f: FrameInputs)
    ensures NoSubscriptionEvents(FullFrame(f)) && NoSubscriptionEvents(SkippedFrame())
  {
    ControlWritesAreSampled(GamepadPorts, f);
    var power: seq<Event> := if f.poweredOn then [] else [PoweredOn];
    assert FullFrame(f) == [InputPolled] + ControlWrites(GamepadPorts, f) + power + FrameTail();
  }

  /** Reconfiguring always re-establishes the invariant, whatever came before:
      enabled and accepted subscribes, enabled and refused clears the underrun flag,
      disabled cannot skip. */
  lemma ConfiguredRestoresInvariant(p: PacingState, accepted: bool, log: seq<Event>)
    ensures var s := Configured(p, accepted); SkipsOnlyWhenSubscribed(s.pacing, log + s.emitted)
  {
    var s := Configured(p, accepted);
    if SkipFrame(s.pacing) {
      assert (log + s.emitted)[..|log + s.emitted| - 1] == log;
    }
  }

  lemma ConfigUpdatedKeepsInvariant(p: PacingState, variable: VariableReply, accepted: bool, log: seq<Event>)
    requires SkipsOnlyWhenSubscribed(p, log)
    ensures var s := ConfigUpdated(p, variable, accepted); SkipsOnlyWhenSubscribed(s.pacing, log + s.emitted)
  {
    if variable.Value? {
      ConfiguredRestoresInvariant(p.(enableFrameskip := variable.text == EnabledValue), accepted, log);
    } else {
      assert log + [] == log;
    }
  }

  /** Whichever frame a tick runs, it leaves the registration as it was. */
  lemma FrameKeepsSubscription(log: seq<Event>, skip: bool, f: FrameInputs)
    ensures Subscribed(log + TickFrame(skip, f)) == Subscribed(log)
  {
    FramesDoNotSubscribe(f);
    if skip {
      SubscribedIgnoresOtherEvents(log, SkippedFrame());
    } else {
      SubscribedIgnoresOtherEvents(log, FullFrame(f));
    }
  }

  /** The configuration poll at the start of a tick keeps the invariant. */
  lemma ConfigPolledKeepsInvariant(p: PacingState, c: ConfigReplies, log: seq<Event>)
    requires SkipsOnlyWhenSubscribed(p, log)
    ensures var s := ConfigPolled(p, c); SkipsOnlyWhenSubscribed(s.pacing, log + s.emitted)
  {
    if c.updateQueryAnswered && c.variablesChanged {
      ConfigUpdatedKeepsInvariant(p, c.variable, c.statusCallbackAccepted, log);
    } else {
      assert log + [] == log;
    }
  }

  /** A tick keeps the invariant: its configuration step does, and the frame it
      runs touches no subscription. */
  lemma TickedKeepsInvariant(p: PacingState, c: ConfigReplies, f: FrameInputs, log: seq<Event>)
    requires SkipsOnlyWhenSubscribed(p, log)
    ensures var s := Ticked(p, c, f); SkipsOnlyWhenSubscribed(s.pacing, log + s.emitted)
  {
    var polled := ConfigPolled(p, c);
    ConfigPolledKeepsInvariant(p, c, log);
    var skip := SkipFrame(polled.pacing);
    assert Ticked(p, c, f) == Step(polled.pacing, polled.emitted + TickFrame(skip, f));
    FrameKeepsSubscription(log + polled.emitted, skip, f);
    assert log + (polled.emitted + TickFrame(skip, f)) == log + polled.emitted + TickFrame(skip, f);
  }

  /** The status callback can only be invoked by a host that holds it; what it
      reports then keeps the invariant. */
  lemma StatusReceivedKeepsInvariant(p: PacingState, active: bool, occupancy: u32, underrunLikely: bool, log: seq<Event>)
    requires Subscribed(log)
    ensures SkipsOnlyWhenSubscribed(StatusReceived(p, active, occupancy, underrunLikely), log)
    ensures SkipFrame(StatusReceived(p, active, occupancy, underrunLikely)) <==> p.enableFrameskip && active && underrunLikely
  {
  }

  /** A host that refuses the registration leaves the option on but can no longer
      make a tick skip, until it reports a new status. */
  lemma RefusedRegistrationStopsSkipping(p: PacingState)
    requires p.enableFrameskip
    ensures Configured(p, false).pacing.enableFrameskip
    ensures !SkipFrame(Configured(p, false).pacing)
    ensures Configured(p, false).emitted == [StatusCallbackSet(false)]
  {
  }

  /** update_config_variables: the option follows the value exactly when one is
      read, and nothing at all happens otherwise. */
  lemma ConfigUpdatedSetsOption(p: PacingState, variable: VariableReply, accepted: bool)
    ensures var s := ConfigUpdated(p, variable, accepted);
      if variable.Value? then
        s.pacing.enableFrameskip == (variable.text == EnabledValue) &&
        |s.emitted| == 1 && IsSubscriptionEvent(s.emitted[0]) &&
        (s.emitted[0].StatusCallbackCleared? <==> variable.text != EnabledValue) &&
        s.pacing.audioBufferActive == p.audioBufferActive &&
        s.pacing.audioBufferOccupancy == p.audioBufferOccupancy
      else s == Step(p, [])
  {
  }

  /** A tick re-reads the options only when the host reports a change; otherwise its
      state is untouched and it emits just the frame its current state selects. */
  lemma TickWithoutChangeKeepsState(p: PacingState, c: ConfigReplies, f: FrameInputs)
    requires !(c.updateQueryAnswered && c.variablesChanged)
    ensures Ticked(p, c, f).pacing == p
    ensures Ticked(p, c, f).emitted == TickFrame(SkipFrame(p), f)
  {
  }
}
