/**
 * The libretro entry points of the Vircon32 core as one object: the globals
 * libretro.cpp keeps (the frameskip option, the last audio buffer status, the
 * loaded cartridge and memory-card paths) are its fields. Every call that
 * changes something outside the adapter (a message or setting sent to the host,
 * a console or video operation, an error line) is appended to `events`; what
 * the adapter only asks (host queries, the input state, whether a gamepad is
 * connected or the console is on, whether a file exists) arrives as a parameter.
 * Each method performs its entry point step by step and promises that the new
 * state is what the functions of Frameskip, FrameTrace and ResourceLoading
 * say, and that a tick is skipped only while the host is subscribed to
 * report the audio buffer status (Valid).
 */
module LibretroCore {
  import opened Wrappers
  import opened Events
  import opened FrameTrace
  import opened Frameskip
  import opened ResourceLoading
  import MemoryCardPaths

  class Core {
    var enableFrameskip: bool
    var audioBufferActive: bool
    var audioBufferUnderrunLikely: bool
    var audioBufferOccupancy: u32
    var loadedCartridgePath: string
    var loadedMemoryCardPath: string
    var events: seq<Event>

    function Pacing(): PacingState
      reads this
    {
      PacingState(enableFrameskip, audioBufferActive, audioBufferUnderrunLikely, audioBufferOccupancy)
    }

    ghost predicate Valid()
      reads this
    {
      SkipsOnlyWhenSubscribed(Pacing(), events)
    }

    constructor ()
      ensures Valid()
      ensures Pacing() == InitialPacing && events == []
      ensures loadedCartridgePath == "" && loadedMemoryCardPath == ""
    {
      enableFrameskip, audioBufferActive, audioBufferUnderrunLikely, audioBufferOccupancy := false, false, false, 0;
      loadedCartridgePath, loadedMemoryCardPath := "", "";
      events := [];
    }

    method Emit(e: Event)
      modifies this`events
      ensures events == old(events) + [e]
    {
      events := events + [e];
    }

    /** A console call that may throw. */
    method CallConsole(op: ConsoleOp, throws: ConsoleOp -> bool) returns (threw: bool)
      modifies this`events
      ensures events == old(events) + [ConsoleCalled(op)]
      ensures threw == throws(op)
    {
      Emit(ConsoleCalled(op));
      threw := throws(op);
    }

    /** retro_audio_buff_status_cb, which only a host holding the callback can call. */
    method AudioBufferStatus(active: bool, occupancy: u32, underrunLikely: bool)
      requires Valid() && Subscribed(events)
      modifies this`audioBufferActive, this`audioBufferOccupancy, this`audioBufferUnderrunLikely
      ensures Valid()
      ensures Pacing() == StatusReceived(old(Pacing()), active, occupancy, underrunLikely)
    {
      audioBufferActive := active;
      audioBufferOccupancy := occupancy;
      audioBufferUnderrunLikely := underrunLikely;
      StatusReceivedKeepsInvariant(old(Pacing()), active, occupancy, underrunLikely, events);
    }

    /** configure_frameskip, with the host's answer to the registration. */
    method ConfigureFrameskip(statusCallbackAccepted: bool)
      modifies this`audioBufferUnderrunLikely, this`events
      ensures Valid()
      ensures Pacing() == Configured(old(Pacing()), statusCallbackAccepted).pacing
      ensures events == old(events) + Configured(old(Pacing()), statusCallbackAccepted).emitted
    {
      ConfiguredRestoresInvariant(Pacing(), statusCallbackAccepted, events);
      if enableFrameskip {
        Emit(StatusCallbackSet(statusCallbackAccepted));
        if !statusCallbackAccepted {
          audioBufferUnderrunLikely := false;
          return;
        }
      } else {
        Emit(StatusCallbackCleared);
      }
    }

    /** update_config_variables, with the host's answers. */
    method UpdateConfigVariables(variable: VariableReply, statusCallbackAccepted: bool)
      requires Valid()
      modifies this`enableFrameskip, this`audioBufferUnderrunLikely, this`events
      ensures Valid()
      ensures Pacing() == ConfigUpdated(old(Pacing()), variable, statusCallbackAccepted).pacing
      ensures events == old(events) + ConfigUpdated(old(Pacing()), variable, statusCallbackAccepted).emitted
    {
      if variable.Value? {
        enableFrameskip := variable.text == EnabledValue;
        ConfigureFrameskip(statusCallbackAccepted);
      } else {
        assert events == old(events) + [];
      }
    }

    /** The eleven Console.SetGamepadControl calls for one port, in their fixed order. */
    method SampleGamepad(port: nat, inputState: (nat, Control) -> int)
      modifies this`events
      ensures events == old(events) + PortWrites(port, inputState)
    {
      Emit(ControlWrite(port, Left, inputState));
      Emit(ControlWrite(port, Right, inputState));
      Emit(ControlWrite(port, Up, inputState));
      Emit(ControlWrite(port, Down, inputState));
      Emit(ControlWrite(port, Start, inputState));
      Emit(ControlWrite(port, ButtonA, inputState));
      Emit(ControlWrite(port, ButtonB, inputState));
      Emit(ControlWrite(port, ButtonX, inputState));
      Emit(ControlWrite(port, ButtonY, inputState));
      Emit(ControlWrite(port, ButtonL, inputState));
      Emit(ControlWrite(port, ButtonR, inputState));
      PortWritesSpelledOut(port, inputState);
    }

    /** The input half of retro_run's full-frame branch: poll, then every control of
        every connected gamepad, port by port. */
    method ReadGamepads(f: FrameInputs)
      modifies this`events
      ensures events == old(events) + [InputPolled] + ControlWrites(GamepadPorts, f)
    {
      Emit(InputPolled);
      var port := 0;
      while port < GamepadPorts
        invariant 0 <= port <= GamepadPorts
        invariant events == old(events) + [InputPolled] + ControlWrites(port, f)
      {
        if f.hasGamepad(port) {
          SampleGamepad(port, f.inputState);
        }
        port := port + 1;
      }
    }

    /** The output half of retro_run's full-frame branch: power on if needed, run,
        render, and hand over one frame of video and of audio. */
    method PresentFrame(poweredOn: bool)
      modifies this`events
      ensures events == old(events) + (if poweredOn then [] else [PoweredOn]) + FrameTail()
    {
      if !poweredOn {
        Emit(PoweredOn);
      }
      ghost var powered := events;
      Emit(FrameBegun);
      Emit(FrameRun);
      Emit(QuadQueueRendered);
      Emit(VideoRefreshed(ScreenWidth, ScreenHeight));
      Emit(SoundFetched);
      Emit(AudioBatchSent(SPUSamplesPerFrame));
      assert events == powered + FrameTail();
    }

    /** The full-frame branch of retro_run. */
    method RunFullFrame(f: FrameInputs)
      modifies this`events
      ensures events == old(events) + FullFrame(f)
    {
      ReadGamepads(f);
      PresentFrame(f.poweredOn);
      assert events == old(events) + FrameAround(ControlWrites(GamepadPorts, f), f.poweredOn);
    }

    /** The skipped-frame branch of retro_run. */
    method RunSkippedFrame()
      modifies this`events
      ensures events == old(events) + SkippedFrame()
    {
      Emit(FrameRun);
      Emit(SoundFetched);
      Emit(AudioBatchSent(SPUSamplesPerFrame));
    }

    /** The frame part of retro_run, once the skip decision is taken. */
    method RunFrame(skipFrame: bool, f: FrameInputs)
      modifies this`events
      ensures events == old(events) + TickFrame(skipFrame, f)
    {
      if !skipFrame {
        RunFullFrame(f);
      } else {
        RunSkippedFrame();
      }
    }

    /** retro_run. */
    method Run(c: ConfigReplies, f: FrameInputs)
      requires Valid()
      modifies this`enableFrameskip, this`audioBufferUnderrunLikely, this`events
      ensures Valid()
      ensures Pacing() == Ticked(old(Pacing()), c, f).pacing
      ensures events == old(events) + Ticked(old(Pacing()), c, f).emitted
    {
      ghost var polled := ConfigPolled(Pacing(), c);
      if c.updateQueryAnswered && c.variablesChanged {
        UpdateConfigVariables(c.variable, c.statusCallbackAccepted);
      } else {
        assert events == old(events) + polled.emitted;
      }
      ghost var mid := events;
      var skipFrame := enableFrameskip && audioBufferActive && audioBufferUnderrunLikely;
      assert skipFrame == SkipFrame(polled.pacing);
      RunFrame(skipFrame, f);
      FrameKeepsSubscription(mid, skipFrame, f);
      assert events == old(events) + (polled.emitted + TickFrame(skipFrame, f));
    }

    /** LoadVircon32Bios, with the host's system directory. */
    method LoadVircon32Bios(systemDirectory: string, fileExists: string -> bool, throws: ConsoleOp -> bool)
      returns (threw: bool)
      modifies this`events
      ensures events == old(events) + [ConsoleCalled(BiosLoad(systemDirectory, fileExists))]
      ensures threw == throws(BiosLoad(systemDirectory, fileExists))
    {
      var biosFilePath := systemDirectory + BiosFileName;
      if fileExists(biosFilePath) {
        threw := CallConsole(LoadBiosFile(biosFilePath), throws);
      } else {
        threw := CallConsole(LoadEmbeddedBios, throws);
      }
    }

    /** The cartridge half of context_reset's try block, reached once the BIOS has
        loaded: the cartridge, then its memory card, and the catch's error line when
        one of these calls throws.  The events are those of RunLoads on these calls. */
    method LoadCartridgeAndCard(cart: string, card: string, fileExists: string -> bool, throws: ConsoleOp -> bool)
      returns (threw: bool)
      modifies this`events
      ensures events == old(events) + RunLoads([LoadCartridge(cart)] + CardLoads(card, fileExists), throws)
      ensures threw <==> SomeThrows([LoadCartridge(cart)] + CardLoads(card, fileExists), throws)
    {
      ghost var ops := [LoadCartridge(cart)] + CardLoads(card, fileExists);
      ghost var cardOps := CardLoads(card, fileExists);
      threw := CallConsole(LoadCartridge(cart), throws);
      assert ops[1..] == cardOps;
      assert SomeThrows(ops, throws) == (threw || SomeThrows(cardOps, throws));
      if !threw {
        ghost var mid := events;
        assert RunLoads(ops, throws) == [ConsoleCalled(LoadCartridge(cart))] + RunLoads(cardOps, throws);
        if fileExists(card) {
          threw := CallConsole(LoadMemoryCard(card), throws);
          assert RunLoads(cardOps, throws) == [ConsoleCalled(LoadMemoryCard(card))] +
            (if threw then [LoadErrorLogged] else []);
          assert SomeThrows(cardOps, throws) == threw by {
            assert cardOps[1..] == [];
          }
        } else {
          threw := CallConsole(CreateMemoryCard(card), throws);
          if !threw {
            assert cardOps[1..] == [LoadMemoryCard(card)];
            assert RunLoads(cardOps, throws) == [ConsoleCalled(CreateMemoryCard(card))] + RunLoads([LoadMemoryCard(card)], throws);
            threw := CallConsole(LoadMemoryCard(card), throws);
            assert RunLoads([LoadMemoryCard(card)], throws) == [ConsoleCalled(LoadMemoryCard(card))] +
              (if threw then [LoadErrorLogged] else []);
            assert events == mid + [ConsoleCalled(CreateMemoryCard(card))] + [ConsoleCalled(LoadMemoryCard(card))];
            assert SomeThrows(cardOps, throws) == threw by {
              assert [LoadMemoryCard(card)][1..] == [];
              assert SomeThrows([LoadMemoryCard(card)], throws) == threw;
            }
          } else {
            assert RunLoads(cardOps, throws) == [ConsoleCalled(CreateMemoryCard(card)), LoadErrorLogged];
          }
        }
        assert events + (if threw then [LoadErrorLogged] else []) == mid + RunLoads(cardOps, throws);
      }
      if threw {
        Emit(LoadErrorLogged);
      }
    }

    /** The loading part of context_reset: one try block around the BIOS, the
        cartridge and its memory card. */
    method ContextReset(systemDirectory: string, fileExists: string -> bool, throws: ConsoleOp -> bool)
      requires Valid()
      modifies this`events
      ensures Valid()
      ensures events == old(events) +
        ResetLoads(systemDirectory, loadedCartridgePath, loadedMemoryCardPath, fileExists, throws)
    {
      var cart, card := loadedCartridgePath, loadedMemoryCardPath;
      ghost var loads := ResetLoads(systemDirectory, cart, card, fileExists, throws);
      var threw := LoadVircon32Bios(systemDirectory, fileExists, throws);
      ResetLoadsAfterBios(systemDirectory, cart, card, fileExists, throws);
      ghost var biosCall := [ConsoleCalled(BiosLoad(systemDirectory, fileExists))];
      ghost var afterBios := events;
      assert afterBios == old(events) + biosCall;
      if threw {
        assert loads == biosCall + [LoadErrorLogged];
        Emit(LoadErrorLogged);
        assert events == old(events) + loads;
      } else if cart != "" {
        ghost var cartLoads := RunLoads([LoadCartridge(cart)] + CardLoads(card, fileExists), throws);
        assert loads == biosCall + cartLoads;
        threw := LoadCartridgeAndCard(cart, card, fileExists, throws);
        assert events == old(events) + loads;
      } else {
        assert loads == biosCall;
      }
      ResetLoadsKeepSubscription(old(events), systemDirectory, cart, card, fileExists, throws);
    }

    /** context_destroy. */
    method ContextDestroy()
      requires Valid()
      modifies this`events
      ensures Valid()
      ensures events == old(events) + DestroyEvents()
    {
      Emit(ConsoleCalled(UnloadCartridge));
      Emit(ConsoleCalled(UnloadBios));
      Emit(VideoDestroyed);
      assert events == old(events) + DestroyEvents();
      SubscribedIgnoresOtherEvents(old(events), DestroyEvents());
    }

    /** retro_load_game, with the host's answers; `game` is the path of the game
        info, None when the info or its path is null. */
    method LoadGame(variable: VariableReply, statusCallbackAccepted: bool, pixelFormatAccepted: bool,
                    hwRenderAccepted: bool, game: Option<string>, saveDirectory: string)
      returns (loaded: bool)
      requires Valid()
      modifies this
      ensures Valid()
      ensures var s := ConfigUpdated(old(Pacing()), variable, statusCallbackAccepted);
        Pacing() == s.pacing &&
        events == old(events) + s.emitted + [PixelFormatRequested(pixelFormatAccepted)] +
          (if pixelFormatAccepted then [HwRenderRequested(hwRenderAccepted)] else [])
      ensures loaded == (pixelFormatAccepted && hwRenderAccepted)
      ensures !loaded ==> loadedCartridgePath == old(loadedCartridgePath) && loadedMemoryCardPath == old(loadedMemoryCardPath)
      ensures loaded && game.Some? ==>
        loadedCartridgePath == game.value &&
        loadedMemoryCardPath == MemoryCardPaths.MemoryCardPath(saveDirectory, game.value)
      ensures loaded && game.None? ==>
        loadedCartridgePath == "" && loadedMemoryCardPath == old(loadedMemoryCardPath)
    {
      UpdateConfigVariables(variable, statusCallbackAccepted);
      ghost var configured := events;
      Emit(PixelFormatRequested(pixelFormatAccepted));
      if !pixelFormatAccepted {
        SubscribedIgnoresOtherEvents(configured, [PixelFormatRequested(pixelFormatAccepted)]);
        return false;
      }
      Emit(HwRenderRequested(hwRenderAccepted));
      assert events == configured + [PixelFormatRequested(pixelFormatAccepted), HwRenderRequested(hwRenderAccepted)];
      SubscribedIgnoresOtherEvents(configured, [PixelFormatRequested(pixelFormatAccepted), HwRenderRequested(hwRenderAccepted)]);
      if !hwRenderAccepted {
        return false;
      }
      match game {
        case Some(path) =>
          loadedCartridgePath := path;
          loadedMemoryCardPath := MemoryCardPaths.GetMemoryCardPath(saveDirectory, path);
        case None =>
          loadedCartridgePath := "";
      }
      return true;
    }

    /** retro_unload_game. */
    method UnloadGame()
      requires Valid()
      modifies this`events
      ensures Valid()
      ensures events == old(events) + UnloadGameEvents()
    {
      Emit(ConsoleCalled(UnloadCartridge));
      Emit(ConsoleCalled(UnloadMemoryCard));
      assert events == old(events) + UnloadGameEvents();
      SubscribedIgnoresOtherEvents(old(events), UnloadGameEvents());
    }
  }
}
