# Vircon32 libretro adapter: a Dafny model

This project models the adapter that lets the Vircon32 virtual console run
as a libretro core (`libretro.cpp`). The host (a libretro frontend) owns the
main loop and calls the core's entry points; the core answers by calling the
console, the video output and the host's callbacks. Three parts are modelled:

- **Memory-card path derivation** (`GetMemoryCardPath`). Backslashes in the
  save directory and the cartridge path become forward slashes. The card is
  named after the cartridge's file name, cut before its last dot, with
  `.memc`, in the save directory. Module `MemoryCardPaths`.
- **Automatic frame skipping**. This covers the option `enable_frameskip`, the
  last audio buffer status pushed by the host, the registration of the status
  callback, the option read, and the per-tick decision to skip. Modules
  `Frameskip` and `FrameTrace`.
- **Tick and resource lifecycle**. These are `retro_run`, BIOS loading, the
  loading block of `context_reset`, `context_destroy`, `retro_load_game` and
  `retro_unload_game`. Every call that changes something outside the
  adapter (a console call, a video call, a registration or request to the
  host, an audio or video hand-over) is an event appended to one log.
  Queries are parameters instead: the host's `GET_VARIABLE_UPDATE`,
  `GET_VARIABLE`, `GET_SAVE_DIRECTORY` and `GET_SYSTEM_DIRECTORY` answers,
  `input_state_cb`, `Console.HasGamepad` and `Console.IsPowerOn`. Modules
  `ResourceLoading` and `LibretroCore`.

`LibretroCore.Core` is a class. Its fields are the globals of `libretro.cpp`,
and one method stands for each entry point. Each method does its work step by
step: loops over ports, one event per call, a flag for the exception of the
`try` block. Its `ensures` ties the new fields and the new log to functions of
the old state (`Frameskip.Ticked`, `ResourceLoading.ResetLoads`, ...). The
properties are proved as lemmas about those functions. The object invariant
`Valid` says that a tick is skipped only while the host holds the status
callback (`Frameskip.SkipsOnlyWhenSubscribed`), and every entry point keeps it.

`Valid` rests on two assumptions about the host:
- The host calls the status callback only while it holds it.
  `LibretroCore.Core.AudioBufferStatus` therefore requires
  `Frameskip.Subscribed(events)`.
- A refused registration leaves an earlier accepted one in place.
  `Frameskip.Subscribed` skips a refused `StatusCallbackSet` when it looks
  back for the last accepted registration or unregistration.

The host's answers are parameters:
- whether the options changed;
- the option's value;
- whether a registration, pixel format or HW context is accepted;
- the save and system directories;
- the game path;
- the joypad input state (`input_state_cb`).

The console's answers are parameters too: power state and gamepad presence.
`FileExists` and "this console call throws" are
oracle functions.

In these behaviours, which are easy to misread, the model follows the code:
- One `try` block surrounds all of BIOS, cartridge and memory-card loading
  (libretro.cpp:469-494). A throwing step skips every later step. For
  example, a BIOS failure means the cartridge is never loaded. Steps are not
  isolated from one another.
- When the host refuses the status callback, `configure_frameskip` clears
  only `audio_buffer_underrun_likely` and leaves `enable_frameskip` true
  (libretro.cpp:158-163). Skipping still stops.
- Turning the option off unregisters the callback but does not clear the
  underrun flag (libretro.cpp:167). The skip decision is false anyway.
- `retro_load_game` without a game clears the cartridge path and leaves the
  previous memory-card path as it was (libretro.cpp:661-665).
- `retro_load_game` reads the options before negotiating the pixel format
  (libretro.cpp:631). A load that is refused later has still updated them.

The constants `GamepadPorts` = 4, `ScreenWidth` = 640, `ScreenHeight` = 360
and `SPUSamplesPerFrame` = 735 (44100 Hz / 60 fps) come from
`VirconDefinitions/Constants.hpp`, which is not part of this model.

## Model

| member | source | states |
|---|---|---|
| MemoryCardPaths.Substr | libretro.cpp:383 | `std::string::substr(pos, count)`: the characters from `pos` on, at most `count` of them, clipped at the end of the string |
| MemoryCardPaths.FileName | libretro.cpp:377-383 | the part of a unified path after its last `/`, or the whole path when it has none |
| MemoryCardPaths.Stem | libretro.cpp:386-391 | a file name cut before its last `.`, or the whole name when it has none |
| MemoryCardPaths.MemoryCardPath | libretro.cpp:359-392 | the value `GetMemoryCardPath` returns: unified save directory, `/`, stem of the unified cartridge file name, `.memc` |
| MemoryCardPaths.Unified | libretro.cpp:366-374 | same length as the input; each character is kept, except that a backslash becomes `/` |
| MemoryCardPaths.UnifySeparators | libretro.cpp:366-374 | the in-place character loop returns exactly `Unified` of its input |
| MemoryCardPaths.LastIndexOf | libretro.cpp:377 | `rfind`: None iff the character is absent; otherwise the index holds that character and none follows it |
| MemoryCardPaths.GetMemoryCardPath | libretro.cpp:359-392 | the two separator loops and the two `rfind` cuts produce `MemoryCardPath(saveDirectory, cartridgePath)` |
| MemoryCardPaths.FileNameIsLastSegment | libretro.cpp:377-383 | the file name is the last segment of the path, both directions: a slash-free suffix that is the whole path or follows a slash, and no other string is one |
| MemoryCardPaths.StemIsBeforeLastDot | libretro.cpp:386-391 | the stem, both directions: the whole name when it has no dot, else the prefix ending at a dot that no later dot follows |
| MemoryCardPaths.MemoryCardPathFromSegments | libretro.cpp:389-391 | the card path is the unified save directory, `/`, the stem of the last segment of the unified cartridge path, and `.memc` |
| MemoryCardPaths.UnifiedIsIdempotent | libretro.cpp:366-374 | rewriting separators twice equals rewriting them once |
| MemoryCardPaths.MemoryCardPathIsSeparatorNeutral | libretro.cpp:366-391 | the card path has no backslash; unifying both inputs beforehand leaves it unchanged |
| MemoryCardPaths.MemoryCardPathIgnoresPriorUnify | libretro.cpp:366-374 | unifying only the save directory, or only the cartridge path, beforehand leaves the card path unchanged too |
| MemoryCardPaths.MemoryCardPathReplacesExtension | libretro.cpp:386-391 | `folder/base.ext` gives `saveDir/base.memc`; this covers an empty base (a leading dot gives an empty stem) and a save directory ending in `/` (giving `//`) |
| MemoryCardPaths.MemoryCardPathKeepsBareName | libretro.cpp:380-389 | a file name without a dot, with or without a folder before it, is used whole |
| FrameTrace.ControlWrite | libretro.cpp:297-307 | one `SetGamepadControl` call: the port, the control, and pressed iff `input_state_cb` answered non-zero |
| FrameTrace.PortWrites | libretro.cpp:297-307 | the writes of one connected port, one per control in `ControlOrder` |
| FrameTrace.ControlWrites | libretro.cpp:291-308 | the writes of the port loop after ports 0 .. n-1: a port without a gamepad adds nothing |
| FrameTrace.FrameTail | libretro.cpp:314-325 | the closing calls of a full frame: begin frame, run frame, render the quad queue, video refresh at screen size, fetch sound, audio batch of `SPUSamplesPerFrame` |
| FrameTrace.FrameAround | libretro.cpp:289-325 | a full frame around given control writes: input poll, the writes, a power-on only if the console was off, then `FrameTail` |
| FrameTrace.FullFrame | libretro.cpp:286-326 | the full-frame branch: `FrameAround` of the port loop's writes |
| FrameTrace.SkippedFrame | libretro.cpp:330-338 | the skipped-frame branch: run a frame, fetch its sound, send one audio batch |
| FrameTrace.PortWritesInOrder | libretro.cpp:297-307 | one port is sampled as 11 writes, the i-th for the i-th control of Left, Right, Up, Down, Start, A, B, X, Y, L, R, with rank `port * 11 + i`; a non-zero input state counts as pressed |
| FrameTrace.PortWritesSpelledOut | libretro.cpp:297-307 | the writes of one port are the eleven `SetGamepadControl` calls exactly as listed in the source, Left first and R last |
| FrameTrace.ControlWritesAreSampled | libretro.cpp:291-308 | a control write is in the port loop's output iff its port is connected, below the port count, and carries the sampled input state |
| FrameTrace.ControlWritesAscend | libretro.cpp:291-308 | every write of the port loop ranks below `ports` full ports of 11 controls, and ranks strictly ascend in (port, control) order, so each write happens once and ports come in ascending order |
| FrameTrace.FullFrameOrder | libretro.cpp:289-325 | a full frame starts with the input poll; it ends with begin frame, run frame, render queue, video refresh, sound fetch and audio batch, in that order |
| FrameTrace.FullFrameCounts | libretro.cpp:286-326 | a full frame has exactly one input poll, one emulated frame, one video refresh at screen size and one batch of `SPUSamplesPerFrame` samples |
| FrameTrace.FullFrameRenderCounts | libretro.cpp:311-318 | one begin frame and one quad-queue flush; the console is powered on once if it was off and never if it was on |
| FrameTrace.SkippedFrameIsAudioOnly | libretro.cpp:330-338 | a skipped frame has no input poll, no control write and no video, but one emulated frame and one batch of `SPUSamplesPerFrame` samples |
| Frameskip.SkipFrame | libretro.cpp:283 | `skip_frame`: the option is on, the host reports the audio buffer active, and it reports an underrun likely; the occupancy plays no part |
| Frameskip.StatusReceived | libretro.cpp:137-142 | the status callback overwrites active, occupancy and underrun-likely, and keeps the option |
| Frameskip.Configured | libretro.cpp:148-168 | `configure_frameskip`: with the option on, register the callback, and clear underrun-likely if the host refuses; with it off, unregister |
| Frameskip.ConfigUpdated | libretro.cpp:185-200 | `update_config_variables`: only a successful read of a non-null value sets the option (on iff `"Enabled"`) and reconfigures; otherwise nothing |
| Frameskip.ConfigPolled | libretro.cpp:276-280 | the options are re-read only when the update query succeeds and reports a change |
| Frameskip.TickFrame | libretro.cpp:285-338 | the frame a tick runs: the skipped frame when skipping, else the full frame |
| Frameskip.Ticked | libretro.cpp:274-339 | `retro_run`: the change poll, then the frame that `SkipFrame` of the resulting state selects |
| Frameskip.Subscribed | libretro.cpp:154-167 | whether the host holds the audio buffer status callback after a log: an accepted registration (line 158) turns it on, the unregistration with null (line 167) turns it off, and a refused registration changes nothing. The host is assumed to call the callback only while it holds it |
| Frameskip.SubscribedIffAcceptedNotCleared | libretro.cpp:154-167 | both directions: the host holds the callback exactly when some accepted registration is followed by no unregistration |
| Frameskip.SkipsOnlyWhenSubscribed | libretro.cpp:154-167 | the invariant of frame skipping: a tick is skipped (the test at line 283) only while the host holds the callback whose reports decide the skip |
| Frameskip.SubscribedIgnoresOtherEvents | libretro.cpp:154-167 | events other than registrations do not change whether the host holds the status callback |
| Frameskip.FramesDoNotSubscribe | libretro.cpp:286-338 | neither kind of frame registers or unregisters the callback |
| Frameskip.FrameKeepsSubscription | libretro.cpp:285-338 | whichever frame a tick runs, the host holds the status callback afterwards iff it did before |
| Frameskip.ConfiguredRestoresInvariant | libretro.cpp:148-168 | after `configure_frameskip`, whatever came before, a skip is possible only with the callback held: accepted means subscribed, refused clears the underrun flag, disabled unregisters |
| Frameskip.ConfigUpdatedKeepsInvariant | libretro.cpp:185-200 | `update_config_variables` keeps the skip-only-when-subscribed invariant |
| Frameskip.ConfigPolledKeepsInvariant | libretro.cpp:276-280 | the change poll at the start of a tick keeps the skip-only-when-subscribed invariant, whether or not the options are re-read |
| Frameskip.TickedKeepsInvariant | libretro.cpp:274-339 | a whole tick keeps the skip-only-when-subscribed invariant |
| Frameskip.StatusReceivedKeepsInvariant | libretro.cpp:137-142 | the status callback overwrites the three buffer fields; afterwards skip holds iff enabled, active and underrun likely, and the invariant holds |
| Frameskip.RefusedRegistrationStopsSkipping | libretro.cpp:154-163 | a refused registration leaves the option on, clears the underrun flag so no tick is skipped, and records one refused registration |
| Frameskip.ConfigUpdatedSetsOption | libretro.cpp:193-198 | with a value read, the option becomes `value == "Enabled"` and one (un)registration follows, unregistration iff not "Enabled"; on a failed read or a null value nothing changes and nothing is emitted |
| Frameskip.TickWithoutChangeKeepsState | libretro.cpp:277-283 | without a reported change the options are not re-read: the state is unchanged and the tick emits just the frame that the current state selects |
| ResourceLoading.BiosLoad | libretro.cpp:414-428 | the BIOS call: the file `systemDir + "/Vircon32Bios.v32"` if it exists, else the embedded image |
| ResourceLoading.CardLoads | libretro.cpp:480-488 | the card calls always end by loading the card at its path; a card is created first iff no file exists there |
| ResourceLoading.PlannedLoads | libretro.cpp:469-490 | the calls of the try block when none throws: the BIOS first, and nothing more iff the cartridge path is empty |
| ResourceLoading.RunLoads | libretro.cpp:469-494 | calls made one after another in a single try block: the first that throws ends the block, and the catch logs one error line |
| ResourceLoading.ResetLoads | libretro.cpp:469-494 | the loading events of `context_reset`: `RunLoads` of the planned calls for the stored paths |
| ResourceLoading.DestroyEvents | libretro.cpp:499-505 | `context_destroy`: unload the cartridge, unload the BIOS, destroy the video output |
| ResourceLoading.UnloadGameEvents | libretro.cpp:672-678 | `retro_unload_game`: unload the cartridge, then the memory card |
| ResourceLoading.RunLoadsWithoutThrow | libretro.cpp:469-490 | if no call throws, every planned call is made in order and no error is logged |
| ResourceLoading.RunLoadsStopsAtFirstThrow | libretro.cpp:469-494 | if call k is the first to throw, calls 0..k are made, the rest are skipped, and one error line is logged |
| ResourceLoading.RunLoadsLogsIffSomeThrow | libretro.cpp:491-494 | the error line is written iff some planned call throws |
| ResourceLoading.SomeThrowsIffOneThrows | libretro.cpp:469-494 | `SomeThrows`, taken call by call, holds exactly when some planned call throws |
| ResourceLoading.RunLoadsFollowsPlan | libretro.cpp:469-494 | each event other than the error line is the planned call at that position, made only after all earlier calls returned |
| ResourceLoading.BiosLoadsFirst | libretro.cpp:414-428 | loading starts with the BIOS: the system-directory file iff it exists, else the embedded image; no later event loads a BIOS |
| ResourceLoading.NoCartridgeLoadsOnlyBios | libretro.cpp:475 | with an empty cartridge path only the BIOS is loaded, with an error line if it throws |
| ResourceLoading.CardCreatedOnlyWhenMissing | libretro.cpp:475-488 | a card is created only at the card path, only when no file exists there, and only after the cartridge was loaded |
| ResourceLoading.CardAttachedWhenNothingThrows | libretro.cpp:472-488 | if nothing throws, the order is BIOS, cartridge, then either the existing card loaded or a new card created and then loaded |
| ResourceLoading.ResetLoadsDoNotSubscribe | libretro.cpp:469-494 | loading never touches the callback registration |
| ResourceLoading.ResetLoadsKeepSubscription | libretro.cpp:469-494 | whether the host is subscribed to the audio buffer status is the same after loading as before |
| LibretroCore.Core.constructor | libretro.cpp:126-132 | the initial globals: frameskip off, status all false and zero, empty paths, empty log |
| LibretroCore.Core.AudioBufferStatus | libretro.cpp:137-142 | `retro_audio_buff_status_cb` overwrites the three status fields, nothing else, and keeps `Valid` |
| LibretroCore.Core.ConfigureFrameskip | libretro.cpp:148-168 | `configure_frameskip` performs `Configured` in place and re-establishes `Valid` |
| LibretroCore.Core.UpdateConfigVariables | libretro.cpp:185-200 | `update_config_variables` performs `ConfigUpdated` in place |
| LibretroCore.Core.SampleGamepad | libretro.cpp:297-307 | the eleven `SetGamepadControl` calls of one port, in order |
| LibretroCore.Core.ReadGamepads | libretro.cpp:288-308 | one input poll, then the port loop appends exactly the control writes of the connected ports, in port order |
| LibretroCore.Core.PresentFrame | libretro.cpp:310-325 | a power-on only if the console was off, then begin frame, run, render, video refresh at screen size, sound fetch and one audio batch |
| LibretroCore.Core.RunFullFrame | libretro.cpp:286-326 | reading the gamepads and presenting the frame give exactly `FullFrame` |
| LibretroCore.Core.RunSkippedFrame | libretro.cpp:330-338 | a skipped frame gives exactly `SkippedFrame` |
| LibretroCore.Core.RunFrame | libretro.cpp:285-338 | the frame branch of `retro_run`: a full frame when not skipping, else the audio-only frame |
| LibretroCore.Core.Run | libretro.cpp:274-339 | `retro_run` performs `Ticked`: the options are re-read only on a reported change, the frame kind follows the skip decision, and `Valid` holds |
| LibretroCore.Core.LoadVircon32Bios | libretro.cpp:414-428 | one BIOS call to the file `systemDir + "/Vircon32Bios.v32"` if it exists, else the embedded image; it throws iff that call does |
| LibretroCore.Core.LoadCartridgeAndCard | libretro.cpp:477-494 | the cartridge, then its card (loaded if the file exists, else created and loaded), then the catch's error line if a call threw: the events are `RunLoads` of those calls; it reports a throw exactly when one of those calls throws (`SomeThrows`) |
| LibretroCore.Core.ContextReset | libretro.cpp:469-494 | the single `try` block appends exactly `ResetLoads` for the stored cartridge and card paths |
| LibretroCore.Core.ContextDestroy | libretro.cpp:499-505 | `context_destroy` unloads the cartridge, then the BIOS, then destroys the video output |
| LibretroCore.Core.LoadGame | libretro.cpp:626-668 | options read first; false, with both paths untouched, if the pixel format or HW context is refused (HW context asked only after the pixel format is accepted); with a game the card path is `MemoryCardPath(saveDir, path)`; without one the cartridge path is `""` |
| LibretroCore.Core.UnloadGame | libretro.cpp:672-678 | `retro_unload_game` unloads the cartridge, then the memory card |

## Left out

- GL symbol resolution, `Video.InitRendering` and the console callback wiring in `context_reset` (libretro.cpp:439-456) are foreign graphics and function-pointer plumbing. `retro_init_hw_context`'s field setup (libretro.cpp:509-535) is also left out; only the host's accept/refuse answer is kept, as `HwRenderRequested`.
- The date and time given to the console (libretro.cpp:458-466) come from the wall clock and are left out.
- `FileExists` (libretro.cpp:347-353) is an oracle. The embedded BIOS bytes (libretro.cpp:400-410) are the single call `LoadEmbeddedBios`. Its "Loading embedded bios" log line is left out.
- The console's internals are left out: emulating a frame, parsing the BIOS and cartridge, sample contents and `GetFrameSoundOutput`'s buffer. Each is an abstract event.
- `Console.IsPowerOn` and `Console.HasGamepad` are answers given to each tick, because the model keeps no console state; the power state lies outside the adapter. `retro_set_controller_port_device` forwards each port's connection to the console (`SetGamepadConnection`, libretro.cpp:208-211) but is left out. So `hasGamepad` is an answer the model does not constrain.
- Log text and the informational log lines are left out. Only the error line of the `catch` is an event.
- Descriptor and port tables, system/AV info and the callback setters are left out (libretro.cpp:40-117, 213-241, 563-594). They store constants or pointers. The AV sample rate is a floating-point constant.
- `retro_set_environment` (libretro.cpp:245-266) is left out. It stores the environment callback and sends the host the no-game flag, the controller descriptor and port tables and the frameskip option (libretro.cpp:252-259). It also fetches the log interface.
- `retro_set_controller_port_device` (libretro.cpp:208-211) is left out. It tells the console whether a joypad is connected to a port.
- `retro_init`, `retro_deinit`, `retro_reset` and the unsupported serialize, cheat, memory and special-load entry points (libretro.cpp:602-622, 682-763) are left out. They only log, forward to the console, or return a constant.
- A null save or system directory from the host is left out. `GetMemoryCardPath` and `LoadVircon32Bios` would build a `std::string` from a null pointer. The model takes both directories as strings.
- `std::string::substr` throws when its position is past the end. `GetMemoryCardPath` never does that (the position is at most the length), so `Substr` requires it.
- Console and video calls outside the `try` block are modelled as never throwing. These are `retro_run`'s calls (`SetGamepadControl`, `SetPower`, `Video.BeginFrame`, `RunNextFrame`, `Video.RenderQuadQueue`, `GetFrameSoundOutput`; libretro.cpp:297-337), `UnloadCartridge`, `UnloadBios`, `UnloadMemoryCard` and `Video.Destroy` (libretro.cpp:504). Once `context_reset` wires the console's `ThrowException` callback (libretro.cpp:456), a throw from one of them would leave `retro_run` uncaught and end the frame early. `FrameTrace.FullFrameCounts` and `FrameTrace.SkippedFrameIsAudioOnly` hold only under this assumption.
- Paths are modelled as character sequences, while the source scans the bytes of a `std::string`. In UTF-8 the positions of `/`, `\` and `.` are the same either way, because continuation bytes are at least 0x80. Multibyte encodings where 0x5C can be a trailing byte (Shift-JIS) are not modelled.
