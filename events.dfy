/**
 * What the adapter does to the world outside it, as events appended to one
 * log: requests to the libretro host, calls into the Vircon32 console and
 * the video output, and the error line written when loading fails.
 */
module Events {
  /** V32::Constants::GamepadPorts. */
  const GamepadPorts: nat := 4
  /** V32::Constants::ScreenWidth and ScreenHeight. */
  const ScreenWidth: nat := 640
  const ScreenHeight: nat := 360
  /** V32::Constants::SPUSamplesPerFrame: 44100 Hz at 60 frames per second. */
  const SPUSamplesPerFrame: nat := 735

  /** The eleven gamepad controls, in the order retro_run samples them. */
  datatype Control = Left | Right | Up | Down | Start | ButtonA | ButtonB | ButtonX | ButtonY | ButtonL | ButtonR

  const ControlOrder: seq<Control> :=
    [Left, Right, Up, Down, Start, ButtonA, ButtonB, ButtonX, ButtonY, ButtonL, ButtonR]

  /** Calls into the console that load or release resources. */
  datatype ConsoleOp =
    | LoadBiosFile(biosPath: string)
    | LoadEmbeddedBios
    | LoadCartridge(cartridgePath: string)
    | CreateMemoryCard(createdPath: string)
    | LoadMemoryCard(cardPath: string)
    | UnloadCartridge
    | UnloadBios
    | UnloadMemoryCard

  datatype Event =
    /** RETRO_ENVIRONMENT_SET_AUDIO_BUFFER_STATUS_CALLBACK with the status callback,
        and whether the host accepted it. */
    | StatusCallbackSet(accepted: bool)
    /** The same request with a null callback. */
    | StatusCallbackCleared
    /** RETRO_ENVIRONMENT_SET_PIXEL_FORMAT (XRGB8888) and the host's answer. */
    | PixelFormatRequested(accepted: bool)
    /** RETRO_ENVIRONMENT_SET_HW_RENDER and the host's answer. */
    | HwRenderRequested(accepted: bool)
    | InputPolled
    | GamepadControlSet(port: nat, control: Control, pressed: bool)
    | PoweredOn
    | FrameBegun
    | FrameRun
    | QuadQueueRendered
    | VideoRefreshed(width: nat, height: nat)
    | SoundFetched
    | AudioBatchSent(frames: nat)
    | ConsoleCalled(op: ConsoleOp)
    | LoadErrorLogged
    | VideoDestroyed

  predicate IsSubscriptionEvent(e: Event) {
    e.StatusCallbackSet? || e.StatusCallbackCleared?
  }

  /** How many times `e` occurs in `log`. */
  function Count(log: seq<Event>, e: Event): (n: nat)
    ensures n <= |log|
    ensures n == 0 <==> e !in log
  {
    if log == [] then 0
    else Count(log[..|log| - 1], e) + (if log[|log| - 1] == e then 1 else 0)
  }

  lemma {:induction false} CountConcat(a: seq<Event>, b: seq<Event>, e: Event)
    ensures Count(a + b, e) == Count(a, e) + Count(b, e)
    decreases |b|
  {
    if b != [] {
      var b' := b[..|b| - 1];
      assert (a + b)[..|a + b| - 1] == a + b';
      CountConcat(a, b', e);
    } else {
      assert a + b == a;
    }
  }

  /** In a log whose events are pairwise distinct, each event occurs at most once. */
  lemma {:induction false} CountOfDistinct(log: seq<Event>, e: Event)
    requires forall i, j :: 0 <= i < j < |log| ==> log[i] != log[j]
    ensures Count(log, e) == if e in log then 1 else 0
  {
    if log != [] {
      var shorter := log[..|log| - 1];
      CountOfDistinct(shorter, e);
      assert log == shorter + [log[|log| - 1]];
      if log[|log| - 1] == e {
        assert e !in shorter by {
          forall i | 0 <= i < |shorter| ensures shorter[i] != e {
            assert shorter[i] == log[i];
          }
        }
      }
    }
  }
}
