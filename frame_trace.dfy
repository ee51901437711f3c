/**
 * The events of one tick of retro_run once the skip decision is taken:
 * the full frame (input, console, video and audio) and the skipped frame
 * (console and audio only).
 */
module FrameTrace {
  import opened Events

  /** What the console and the host answer during one tick: Console.HasGamepad,
      Console.IsPowerOn and input_state_cb for the joypad of a port. */
  datatype FrameInputs = FrameInputs(
    hasGamepad: nat -> bool,
    poweredOn: bool,
    inputState: (nat, Control) -> int)

  /** Position of a control in the sampling order. */
  function ControlIndex(c: Control): (i: nat)
    ensures i < |ControlOrder| && ControlOrder[i] == c
  {
    match c
    case Left => 0
    case Right => 1
    case Up => 2
    case Down => 3
    case Start => 4
    case ButtonA => 5
    case ButtonB => 6
    case ButtonX => 7
    case ButtonY => 8
    case ButtonL => 9
    case ButtonR => 10
  }

  /** Console.SetGamepadControl with the sampled state: any non-zero answer of the
      host's input_state_cb counts as pressed. */
  function ControlWrite(port: nat, c: Control, inputState: (nat, Control) -> int): Event {
    GamepadControlSet(port, c, inputState(port, c) != 0)
  }

  /** The eleven writes for one connected port, one per control in `ControlOrder`. */
  function PortWrites(port: nat, inputState: (nat, Control) -> int): seq<Event> {
    seq(|ControlOrder|, i requires 0 <= i < |ControlOrder| => ControlWrite(port, ControlOrder[i], inputState))
  }

  /** The same writes listed control by control. */
  lemma PortWritesSpelledOut(port: nat, inputState: (nat, Control) -> int)
    ensures PortWrites(port, inputState) ==
      [ControlWrite(port, Left, inputState), ControlWrite(port, Right, inputState),
       ControlWrite(port, Up, inputState), ControlWrite(port, Down, inputState),
       ControlWrite(port, Start, inputState), ControlWrite(port, ButtonA, inputState),
       ControlWrite(port, ButtonB, inputState), ControlWrite(port, ButtonX, inputState),
       ControlWrite(port, ButtonY, inputState), ControlWrite(port, ButtonL, inputState),
       ControlWrite(port, ButtonR, inputState)]
  {
  }

  /** The writes of the port loop once ports 0 .. ports - 1 have been visited. */
  function ControlWrites(ports: nat, f: FrameInputs): seq<Event> {
    if ports == 0 then []
    else ControlWrites(ports - 1, f) + (if f.hasGamepad(ports - 1) then PortWrites(ports - 1, f.inputState) else [])
  }

  /** A tick that is not skipped. */
  function FullFrame(f: FrameInputs): seq<Event> {
    FrameAround(ControlWrites(GamepadPorts, f), f.poweredOn)
  }

  /** A full frame around the writes of its port loop. */
  function FrameAround(writes: seq<Event>, poweredOn: bool): seq<Event> {
    [InputPolled] + writes + (if poweredOn then [] else [PoweredOn]) + FrameTail()
  }

  function FrameTail(): seq<Event> {
    [FrameBegun, FrameRun, QuadQueueRendered, VideoRefreshed(ScreenWidth, ScreenHeight),
     SoundFetched, AudioBatchSent(SPUSamplesPerFrame)]
  }

  /** A skipped tick: one frame of emulation for its audio, nothing else. */
  function SkippedFrame(): seq<Event> {
    [FrameRun, SoundFetched, AudioBatchSent(SPUSamplesPerFrame)]
  }

  /** The rank of a control write in (port, control) order. */
  function WriteKey(e: Event): int {
    if e.GamepadControlSet? then e.port * |ControlOrder| + ControlIndex(e.control) else -1
  }

  /** The write a connected port's sampling makes for control `c`. */
  ghost predicate IsSampled(e: Event, ports: nat, f: FrameInputs) {
    e.GamepadControlSet? && e.port < ports && f.hasGamepad(e.port) &&
    e.pressed == (f.inputState(e.port, e.control) != 0)
  }

  lemma PortWritesInOrder(port: nat, inputState: (nat, Control) -> int)
    ensures |PortWrites(port, inputState)| == |ControlOrder|
    ensures forall i :: 0 <= i < |ControlOrder| ==>
      PortWrites(port, inputState)[i] == ControlWrite(port, ControlOrder[i], inputState) &&
      WriteKey(PortWrites(port, inputState)[i]) == port * |ControlOrder| + i
  {
  }

  /** The port loop writes exactly the sampled state of every control of every
      connected port below `ports`. */
  lemma {:induction false} ControlWritesAreSampled(ports: nat, f: FrameInputs)
    ensures forall e :: e in ControlWrites(ports, f) <==> IsSampled(e, ports, f)
  {
    if ports > 0 {
      var p := ports - 1;
      var added := if f.hasGamepad(p) then PortWrites(p, f.inputState) else [];
      ControlWritesAreSampled(p, f);
      PortWritesInOrder(p, f.inputState);
      assert ControlWrites(ports, f) == ControlWrites(p, f) + added;
      forall e | e in added ensures IsSampled(e, ports, f) {
        var i :| 0 <= i < |added| && added[i] == e;
        assert e == ControlWrite(p, ControlOrder[i], f.inputState);
      }
      forall e | IsSampled(e, ports, f) && e.port == p ensures e in added {
        assert e == added[ControlIndex(e.control)];
      }
    }
  }

  /** The write keys of `w` lie in [lo, hi) and strictly ascend. */
  ghost predicate KeysAscendWithin(w: seq<Event>, lo: int, hi: int) {
    (forall i :: 0 <= i < |w| ==> lo <= WriteKey(w[i]) < hi) &&
    (forall i, j :: 0 <= i < j < |w| ==> WriteKey(w[i]) < WriteKey(w[j]))
  }

  lemma AscendingJoin(a: seq<Event>, b: seq<Event>, lo: int, mid: int, hi: int)
    requires lo <= mid <= hi
    requires KeysAscendWithin(a, lo, mid) && KeysAscendWithin(b, mid, hi)
    ensures KeysAscendWithin(a + b, lo, hi)
  {
    var w := a + b;
    forall i | 0 <= i < |w| ensures lo <= WriteKey(w[i]) < hi {
      if i >= |a| {
        assert w[i] == b[i - |a|];
      } else {
        assert w[i] == a[i];
      }
    }
    forall i, j | 0 <= i < j < |w| ensures WriteKey(w[i]) < WriteKey(w[j]) {
      if j >= |a| {
        assert w[j] == b[j - |a|];
        if i >= |a| {
          assert w[i] == b[i - |a|];
        } else {
          assert w[i] == a[i];
        }
      } else {
        assert w[i] == a[i] && w[j] == a[j];
      }
    }
  }

  lemma PortWritesAscend(port: nat, inputState: (nat, Control) -> int)
    ensures KeysAscendWithin(PortWrites(port, inputState), port * |ControlOrder|, port * |ControlOrder| + |ControlOrder|)
  {
    PortWritesInOrder(port, inputState);
  }

  /** ... each once, in ascending (port, control) order: every write's rank lies
      below `ports` full ports, and ranks strictly increase along the frame. */
  lemma {:induction false} ControlWritesAscend(ports: nat, f: FrameInputs)
    ensures KeysAscendWithin(ControlWrites(ports, f), 0, ports * |ControlOrder|)
  {
    if ports > 0 {
      var p := ports - 1;
      var added := if f.hasGamepad(p) then PortWrites(p, f.inputState) else [];
      ControlWritesAscend(p, f);
      PortWritesAscend(p, f.inputState);
      assert ports * |ControlOrder| == p * |ControlOrder| + |ControlOrder|;
      AscendingJoin(ControlWrites(p, f), added, 0, p * |ControlOrder|, ports * |ControlOrder|);
      assert ControlWrites(ports, f) == ControlWrites(p, f) + added;
    }
  }

  lemma FrameAroundCounts(writes: seq<Event>, poweredOn: bool, e: Event)
    requires forall w :: w in writes ==> w.GamepadControlSet?
    requires !e.GamepadControlSet?
    ensures Count(FrameAround(writes, poweredOn), e)
         == Count([InputPolled], e) + Count(if poweredOn then [] else [PoweredOn], e) + Count(FrameTail(), e)
  {
    var power: seq<Event> := if poweredOn then [] else [PoweredOn];
    CountConcat([InputPolled], writes, e);
    CountConcat([InputPolled] + writes, power, e);
    CountConcat([InputPolled] + writes + power, FrameTail(), e);
  }

  /** A full frame polls input once, then writes controls, powers the console on only
      if it was off, and ends with one begin, one emulated frame, one draw flush, one
      video frame and one batch of a frame's samples, in that order. */
  lemma FullFrameOrder(f: FrameInputs)
    ensures FullFrame(f)[0] == InputPolled
    ensures FullFrame(f)[|FullFrame(f)| - |FrameTail()|..] == FrameTail()
  {
    var w := ControlWrites(GamepadPorts, f);
    var power: seq<Event> := if f.poweredOn then [] else [PoweredOn];
    assert FullFrame(f) == ([InputPolled] + w + power) + FrameTail();
  }

  /** Every closing event of a full frame is distinct. */
  lemma FrameTailCounts(e: Event)
    ensures Count(FrameTail(), e) == if e in FrameTail() then 1 else 0
  {
    CountOfDistinct(FrameTail(), e);
  }

  /** Outside its control writes, a full frame holds one input poll, the optional
      power-on and the six closing events. */
  lemma FullFrameCountsOutsideWrites(f: FrameInputs, e: Event)
    requires !e.GamepadControlSet?
    ensures Count(FullFrame(f), e)
         == (if e == InputPolled then 1 else 0) + (if e == PoweredOn && !f.poweredOn then 1 else 0) +
            (if e in FrameTail() then 1 else 0)
  {
    ControlWritesAreSampled(GamepadPorts, f);
    FrameAroundCounts(ControlWrites(GamepadPorts, f), f.poweredOn, e);
    FrameTailCounts(e);
    assert Count([InputPolled], e) == Count([], e) + (if e == InputPolled then 1 else 0);
    if !f.poweredOn {
      assert Count([PoweredOn], e) == Count([], e) + (if e == PoweredOn then 1 else 0);
    }
  }

  /** One poll, one emulated frame, one video frame and one audio batch per full frame. */
  lemma FullFrameCounts(f: FrameInputs)
    ensures Count(FullFrame(f), InputPolled) == 1
    ensures Count(FullFrame(f), FrameRun) == 1
    ensures Count(FullFrame(f), VideoRefreshed(ScreenWidth, ScreenHeight)) == 1
    ensures Count(FullFrame(f), AudioBatchSent(SPUSamplesPerFrame)) == 1
  {
    assert FrameTail()[1] == FrameRun && FrameTail()[3] == VideoRefreshed(ScreenWidth, ScreenHeight);
    assert FrameTail()[5] == AudioBatchSent(SPUSamplesPerFrame);
    FullFrameCountsOutsideWrites(f, InputPolled);
    FullFrameCountsOutsideWrites(f, FrameRun);
    FullFrameCountsOutsideWrites(f, VideoRefreshed(ScreenWidth, ScreenHeight));
    FullFrameCountsOutsideWrites(f, AudioBatchSent(SPUSamplesPerFrame));
  }

  /** One frame begin and one draw flush per full frame; power-on only when the console
      was off. */
  lemma FullFrameRenderCounts(f: FrameInputs)
    ensures Count(FullFrame(f), FrameBegun) == 1
    ensures Count(FullFrame(f), QuadQueueRendered) == 1
    ensures Count(FullFrame(f), PoweredOn) == if f.poweredOn then 0 else 1
  {
    assert FrameTail()[0] == FrameBegun && FrameTail()[2] == QuadQueueRendered;
    FullFrameCountsOutsideWrites(f, FrameBegun);
    FullFrameCountsOutsideWrites(f, QuadQueueRendered);
    FullFrameCountsOutsideWrites(f, PoweredOn);
  }

  /** A skipped frame neither polls input, writes controls nor emits video, and
      still sends one batch of a frame's samples. */
  lemma SkippedFrameIsAudioOnly()
    ensures Count(SkippedFrame(), InputPolled) == 0
    ensures forall e :: e in SkippedFrame() ==> !e.GamepadControlSet? && !e.VideoRefreshed?
    ensures Count(SkippedFrame(), FrameRun) == 1
    ensures Count(SkippedFrame(), AudioBatchSent(SPUSamplesPerFrame)) == 1
  {
  }
}
