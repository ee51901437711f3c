/**
 * The resource side of the context lifecycle (libretro.cpp: LoadVircon32Bios,
 * the try block of context_reset, context_destroy, retro_unload_game): which
 * console calls are made, in which order, and what a throwing call cuts short.
 *
 * FileExists and the console's failures are oracles: `fileExists` answers
 * for a path, `throws` says whether a console call raises an exception.
 */
module ResourceLoading {
  import opened Events
  import opened Frameskip

  /** The name LoadVircon32Bios appends to the host's system directory. */
  const BiosFileName: string := "/Vircon32Bios.v32"

  function BiosFilePath(systemDirectory: string): string {
    systemDirectory + BiosFileName
  }

  /** LoadVircon32Bios: the BIOS file of the system directory when it exists,
      otherwise the image embedded in the core. */
  function BiosLoad(systemDirectory: string, fileExists: string -> bool): ConsoleOp {
    if fileExists(BiosFilePath(systemDirectory)) then LoadBiosFile(BiosFilePath(systemDirectory))
    else LoadEmbeddedBios
  }

  /** The memory-card calls: load an existing card, or create one and load it. */
  function CardLoads(memoryCardPath: string, fileExists: string -> bool): (ops: seq<ConsoleOp>)
    ensures 0 < |ops| && ops[|ops| - 1] == LoadMemoryCard(memoryCardPath)
    ensures CreateMemoryCard(memoryCardPath) in ops <==> !fileExists(memoryCardPath)
  {
    if fileExists(memoryCardPath) then [LoadMemoryCard(memoryCardPath)]
    else [CreateMemoryCard(memoryCardPath), LoadMemoryCard(memoryCardPath)]
  }

  /** The console calls of context_reset's try block when none of them throws:
      the BIOS, then, for a non-empty cartridge path, the cartridge and its card. */
  function PlannedLoads(systemDirectory: string, cartridgePath: string, memoryCardPath: string,
                        fileExists: string -> bool): (ops: seq<ConsoleOp>)
    ensures 0 < |ops| && ops[0] == BiosLoad(systemDirectory, fileExists)
    ensures |ops| == 1 <==> cartridgePath == ""
  {
    [BiosLoad(systemDirectory, fileExists)] +
    if cartridgePath == "" then []
    else [LoadCartridge(cartridgePath)] + CardLoads(memoryCardPath, fileExists)
  }

  /** Whether one of the calls throws, taken call by call. */
  predicate SomeThrows(ops: seq<ConsoleOp>, throws: ConsoleOp -> bool) {
    ops != [] && (throws(ops[0]) || SomeThrows(ops[1..], throws))
  }

  /** SomeThrows holds exactly when one of the calls throws. */
  lemma {:induction false} SomeThrowsIffOneThrows(ops: seq<ConsoleOp>, throws: ConsoleOp -> bool)
    ensures SomeThrows(ops, throws) <==> exists op :: op in ops && throws(op)
  {
    if ops != [] {
      SomeThrowsIffOneThrows(ops[1..], throws);
      assert forall op :: op in ops <==> op == ops[0] || op in ops[1..];
    }
  }

  /** The calls made one after the other inside a single try block: the first call
      that throws ends the block, and the catch writes an error line. */
  function RunLoads(ops: seq<ConsoleOp>, throws: ConsoleOp -> bool): seq<Event> {
    if ops == [] then []
    else [ConsoleCalled(ops[0])] + if throws(ops[0]) then [LoadErrorLogged] else RunLoads(ops[1..], throws)
  }

  /** The events of the loading part of context_reset. */
  function ResetLoads(systemDirectory: string, cartridgePath: string, memoryCardPath: string,
                      fileExists: string -> bool, throws: ConsoleOp -> bool): seq<Event> {
    RunLoads(PlannedLoads(systemDirectory, cartridgePath, memoryCardPath, fileExists), throws)
  }

  /** context_reset's try block split after its first call: the BIOS, then either
      the catch's error line, nothing more, or the cartridge half. */
  lemma ResetLoadsAfterBios(systemDirectory: string, cartridgePath: string, memoryCardPath: string,
                            fileExists: string -> bool, throws: ConsoleOp -> bool)
    ensures ResetLoads(systemDirectory, cartridgePath, memoryCardPath, fileExists, throws) ==
      [ConsoleCalled(BiosLoad(systemDirectory, fileExists))] +
      if throws(BiosLoad(systemDirectory, fileExists)) then [LoadErrorLogged]
      else if cartridgePath == "" then []
      else RunLoads([LoadCartridge(cartridgePath)] + CardLoads(memoryCardPath, fileExists), throws)
  {
    var plan := PlannedLoads(systemDirectory, cartridgePath, memoryCardPath, fileExists);
    assert RunLoads(plan, throws) == [ConsoleCalled(plan[0])] +
      if throws(plan[0]) then [LoadErrorLogged] else RunLoads(plan[1..], throws);
    if cartridgePath != "" {
      assert plan[1..] == [LoadCartridge(cartridgePath)] + CardLoads(memoryCardPath, fileExists);
    } else {
      assert plan[1..] == [];
    }
  }

  /** context_destroy: cartridge, then BIOS, then the video output. */
  function DestroyEvents(): seq<Event> {
    [ConsoleCalled(UnloadCartridge), ConsoleCalled(UnloadBios), VideoDestroyed]
  }

  /** retro_unload_game: cartridge, then memory card. */
  function UnloadGameEvents(): seq<Event> {
    [ConsoleCalled(UnloadCartridge), ConsoleCalled(UnloadMemoryCard)]
  }

  /** The calls themselves, with nothing cut short. */
  function Calls(ops: seq<ConsoleOp>): (r: seq<Event>)
    ensures |r| == |ops| && forall i :: 0 <= i < |ops| ==> r[i] == ConsoleCalled(ops[i])
  {
    seq(|ops|, i requires 0 <= i < |ops| => ConsoleCalled(ops[i]))
  }

  lemma CallsConcat(a: seq<ConsoleOp>, b: seq<ConsoleOp>)
    ensures Calls(a + b) == Calls(a) + Calls(b)
  {
    assert forall i :: 0 <= i < |b| ==> (a + b)[|a| + i] == b[i];
  }

  /** With no call throwing, every planned call is made, in order, and nothing is logged. */
  lemma {:induction false} RunLoadsWithoutThrow(ops: seq<ConsoleOp>, throws: ConsoleOp -> bool)
    requires forall i :: 0 <= i < |ops| ==> !throws(ops[i])
    ensures RunLoads(ops, throws) == Calls(ops)
  {
    if ops != [] {
      RunLoadsWithoutThrow(ops[1..], throws);
      assert Calls(ops) == [ConsoleCalled(ops[0])] + Calls(ops[1..]);
    }
  }

  /** When call `k` is the first to throw, calls 0 .. k are made, the rest are
      skipped, and the error is logged once. */
  lemma {:induction false} RunLoadsStopsAtFirstThrow(ops: seq<ConsoleOp>, throws: ConsoleOp -> bool, k: nat)
    requires k < |ops| && throws(ops[k])
    requires forall i :: 0 <= i < k ==> !throws(ops[i])
    ensures RunLoads(ops, throws) == Calls(ops[..k + 1]) + [LoadErrorLogged]
  {
    if k == 0 {
      assert Calls(ops[..1]) == [ConsoleCalled(ops[0])];
    } else {
      assert !throws(ops[0]);
      assert RunLoads(ops, throws) == [ConsoleCalled(ops[0])] + RunLoads(ops[1..], throws);
      assert forall i :: 0 <= i < k - 1 ==> ops[1..][i] == ops[i + 1];
      RunLoadsStopsAtFirstThrow(ops[1..], throws, k - 1);
      assert ops[1..][..k] == ops[1..k + 1];
      assert Calls(ops[..k + 1]) == [ConsoleCalled(ops[0])] + Calls(ops[1..k + 1]);
    }
  }

  /** The error line is written exactly when some planned call throws. */
  lemma {:induction false} RunLoadsLogsIffSomeThrow(ops: seq<ConsoleOp>, throws: ConsoleOp -> bool)
    ensures LoadErrorLogged in RunLoads(ops, throws) <==> exists i :: 0 <= i < |ops| && throws(ops[i])
  {
    if ops != [] {
      RunLoadsLogsIffSomeThrow(ops[1..], throws);
      if !throws(ops[0]) {
        if exists i :: 0 <= i < |ops| && throws(ops[i]) {
          var i :| 0 <= i < |ops| && throws(ops[i]);
          assert ops[1..][i - 1] == ops[i];
        }
      }
    }
  }

  /** Loading starts with the BIOS, from the system directory's file when it exists,
      and nothing else loads a BIOS. */
  lemma BiosLoadsFirst(systemDirectory: string, cartridgePath: string, memoryCardPath: string,
                       fileExists: string -> bool, throws: ConsoleOp -> bool)
    ensures var t := ResetLoads(systemDirectory, cartridgePath, memoryCardPath, fileExists, throws);
      |t| > 0 && t[0] == ConsoleCalled(BiosLoad(systemDirectory, fileExists)) &&
      (fileExists(BiosFilePath(systemDirectory)) <==> t[0] == ConsoleCalled(LoadBiosFile(BiosFilePath(systemDirectory)))) &&
      forall i :: 0 < i < |t| ==> t[i] != ConsoleCalled(LoadEmbeddedBios) && !(t[i].ConsoleCalled? && t[i].op.LoadBiosFile?)
  {
    var ops := PlannedLoads(systemDirectory, cartridgePath, memoryCardPath, fileExists);
    RunLoadsFollowsPlan(ops, throws);
  }

  /** The i-th event, unless it is the error line, is the i-th planned call, and it
      is made only because every call before it returned. */
  lemma {:induction false} RunLoadsFollowsPlan(ops: seq<ConsoleOp>, throws: ConsoleOp -> bool)
    ensures forall i :: 0 <= i < |RunLoads(ops, throws)| && RunLoads(ops, throws)[i] != LoadErrorLogged ==>
      i < |ops| && RunLoads(ops, throws)[i] == ConsoleCalled(ops[i]) &&
      forall j :: 0 <= j < i ==> !throws(ops[j])
  {
    if ops != [] {
      RunLoadsFollowsPlan(ops[1..], throws);
      var t := RunLoads(ops, throws);
      forall i | 0 <= i < |t| && t[i] != LoadErrorLogged
        ensures i < |ops| && t[i] == ConsoleCalled(ops[i]) && forall j :: 0 <= j < i ==> !throws(ops[j])
      {
        if i > 0 {
          assert !throws(ops[0]);
          var rest := RunLoads(ops[1..], throws);
          assert t[i] == rest[i - 1];
          forall j | 0 <= j < i ensures !throws(ops[j]) {
            if j > 0 {
              assert ops[j] == ops[1..][j - 1];
            }
          }
        }
      }
    }
  }

  /** Without a cartridge, only the BIOS is loaded (and a failure logged). */
  lemma NoCartridgeLoadsOnlyBios(systemDirectory: string, memoryCardPath: string,
                                 fileExists: string -> bool, throws: ConsoleOp -> bool)
    ensures var bios := BiosLoad(systemDirectory, fileExists);
      ResetLoads(systemDirectory, "", memoryCardPath, fileExists, throws)
      == [ConsoleCalled(bios)] + if throws(bios) then [LoadErrorLogged] else []
  {
    var ops := PlannedLoads(systemDirectory, "", memoryCardPath, fileExists);
    var bios := BiosLoad(systemDirectory, fileExists);
    assert ops == [bios] && ops[1..] == [];
    assert RunLoads(ops, throws) == [ConsoleCalled(bios)] + if throws(bios) then [LoadErrorLogged] else RunLoads([], throws);
  }

  /** A card is created only at the card path, only when no file is there, and only
      for a cartridge that loaded. */
  lemma CardCreatedOnlyWhenMissing(systemDirectory: string, cartridgePath: string, memoryCardPath: string,
                                   fileExists: string -> bool, throws: ConsoleOp -> bool, path: string)
    requires ConsoleCalled(CreateMemoryCard(path)) in ResetLoads(systemDirectory, cartridgePath, memoryCardPath, fileExists, throws)
    ensures path == memoryCardPath && !fileExists(memoryCardPath) && cartridgePath != ""
    ensures ConsoleCalled(LoadCartridge(cartridgePath)) in ResetLoads(systemDirectory, cartridgePath, memoryCardPath, fileExists, throws)
  {
    var bios := BiosLoad(systemDirectory, fileExists);
    var ops := PlannedLoads(systemDirectory, cartridgePath, memoryCardPath, fileExists);
    assert RunLoads(ops, throws) == [ConsoleCalled(bios)] + if throws(bios) then [LoadErrorLogged] else RunLoads(ops[1..], throws);
    assert ConsoleCalled(CreateMemoryCard(path)) in RunLoads(ops[1..], throws);
    assert cartridgePath != "";
    var rest := ops[1..];
    var card := CardLoads(memoryCardPath, fileExists);
    assert rest == [LoadCartridge(cartridgePath)] + card;
    assert RunLoads(rest, throws) == [ConsoleCalled(LoadCartridge(cartridgePath))] +
      if throws(LoadCartridge(cartridgePath)) then [LoadErrorLogged] else RunLoads(card, throws);
    CalledIsPlanned(card, throws, CreateMemoryCard(path));
  }

  /** Every call in the log of a try block was planned. */
  lemma {:induction false} CalledIsPlanned(ops: seq<ConsoleOp>, throws: ConsoleOp -> bool, op: ConsoleOp)
    requires ConsoleCalled(op) in RunLoads(ops, throws)
    ensures op in ops
  {
    if op != ops[0] {
      CalledIsPlanned(ops[1..], throws, op);
    }
  }

  /** The calls a cartridge plan makes when none throws, written out. */
  lemma CallsOfCartridgePlan(systemDirectory: string, cartridgePath: string, memoryCardPath: string,
                             fileExists: string -> bool)
    requires cartridgePath != ""
    ensures Calls(PlannedLoads(systemDirectory, cartridgePath, memoryCardPath, fileExists))
         == [ConsoleCalled(BiosLoad(systemDirectory, fileExists)), ConsoleCalled(LoadCartridge(cartridgePath))] +
            (if fileExists(memoryCardPath) then [] else [ConsoleCalled(CreateMemoryCard(memoryCardPath))]) +
            [ConsoleCalled(LoadMemoryCard(memoryCardPath))]
  {
    var bios, cart := BiosLoad(systemDirectory, fileExists), LoadCartridge(cartridgePath);
    var card := CardLoads(memoryCardPath, fileExists);
    assert PlannedLoads(systemDirectory, cartridgePath, memoryCardPath, fileExists) == [bios, cart] + card;
    CallsConcat([bios, cart], card);
    assert Calls([bios, cart]) == [ConsoleCalled(bios), ConsoleCalled(cart)];
    if fileExists(memoryCardPath) {
      assert Calls(card) == [ConsoleCalled(LoadMemoryCard(memoryCardPath))];
    } else {
      assert Calls(card) == [ConsoleCalled(CreateMemoryCard(memoryCardPath)), ConsoleCalled(LoadMemoryCard(memoryCardPath))];
    }
  }

  /** When nothing throws, a cartridge is loaded and its card is attached: loaded as
      it was if it existed, created first otherwise. */
  lemma CardAttachedWhenNothingThrows(systemDirectory: string, cartridgePath: string, memoryCardPath: string,
                                      fileExists: string -> bool, throws: ConsoleOp -> bool)
    requires cartridgePath != ""
    requires forall op :: op in PlannedLoads(systemDirectory, cartridgePath, memoryCardPath, fileExists) ==> !throws(op)
    ensures ResetLoads(systemDirectory, cartridgePath, memoryCardPath, fileExists, throws)
         == [ConsoleCalled(BiosLoad(systemDirectory, fileExists)), ConsoleCalled(LoadCartridge(cartridgePath))] +
            (if fileExists(memoryCardPath) then [] else [ConsoleCalled(CreateMemoryCard(memoryCardPath))]) +
            [ConsoleCalled(LoadMemoryCard(memoryCardPath))]
  {
    var ops := PlannedLoads(systemDirectory, cartridgePath, memoryCardPath, fileExists);
    RunLoadsWithoutThrow(ops, throws);
    CallsOfCartridgePlan(systemDirectory, cartridgePath, memoryCardPath, fileExists);
  }

  /** Loading never touches the status callback registration. */
  lemma ResetLoadsDoNotSubscribe(systemDirectory: string, cartridgePath: string, memoryCardPath: string,
                                 fileExists: string -> bool, throws: ConsoleOp -> bool)
    ensures forall e :: e in ResetLoads(systemDirectory, cartridgePath, memoryCardPath, fileExists, throws) ==>
      !IsSubscriptionEvent(e)
  {
    RunLoadsFollowsPlan(PlannedLoads(systemDirectory, cartridgePath, memoryCardPath, fileExists), throws);
  }
  /** Loading the console's resources leaves the host's subscription as it was. */
  lemma ResetLoadsKeepSubscription(log: seq<Event>, systemDirectory: string, cartridgePath: string,
                                   memoryCardPath: string, fileExists: string -> bool, throws: ConsoleOp -> bool)
    ensures Subscribed(log + ResetLoads(systemDirectory, cartridgePath, memoryCardPath, fileExists, throws))
         == Subscribed(log)
  {
    ResetLoadsDoNotSubscribe(systemDirectory, cartridgePath, memoryCardPath, fileExists, throws);
    SubscribedIgnoresOtherEvents(log, ResetLoads(systemDirectory, cartridgePath, memoryCardPath, fileExists, throws));
  }

}
