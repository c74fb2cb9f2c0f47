/** The process supervisor: sweeps over the started processes, and the shutdown that
    terminates, waits under one deadline and kills. The operating system is an
    object that answers polls from any schedule of exits and lets any time pass. */
module Supervisor {
  import opened Wrappers

  datatype Effect =
    | Started(process: nat)
    | Polled(process: nat, code: Option<int>)
    | Terminated(process: nat)
    | Killed(process: nat)
    | Slept(duration: nat)

  /** When a process exits, counted in observations, and with which code. */
  datatype Exit = Exit(instant: nat, code: int)

  /** Processes, signals and the clock, in milliseconds. An exited process stays
      exited; between two observations any time may pass, but the clock does not go
      back, and a sleep lasts at least as long as asked. */
  class World {
    const exits: nat -> Option<Exit>
    const drift: nat -> nat
    var instant: nat
    var clock: nat
    var started: nat
    var sleeps: nat
    var log: seq<Effect>
    ghost var times: seq<nat>

    constructor (exits: nat -> Option<Exit>, drift: nat -> nat)
      ensures Valid() && log == [] && started == 0 && sleeps == 0
    {
      this.exits, this.drift := exits, drift;
      instant, clock, started, sleeps, log, times := 0, 0, 0, 0, [], [];
    }

    predicate HasExited(process: nat)
      reads this
    {
      exits(process).Some? && exits(process).value.instant <= instant
    }

    /** Every effect has the time at which it happened, and what was seen exited is. */
    ghost predicate Valid()
      reads this
    {
      && |times| == |log|
      && (forall i :: 0 <= i < |times| ==> times[i] <= clock)
      && (forall i :: 0 <= i < |log| && log[i].Polled? && log[i].code.Some? ==> HasExited(log[i].process))
      && ExitedStays(log)
    }

    // What one call does to the world: time goes on, and these effects happen at its end.
    twostate predicate Onward(effects: seq<Effect>)
      reads this
    {
      && Valid()
      && old(instant) <= instant && old(clock) <= clock
      && started == old(started)
      && log == old(log) + effects
      && |effects| <= 1 && times == old(times) + (if effects == [] then [] else [clock])
    }

    method Start() returns (process: nat)
      requires Valid()
      modifies this
      ensures Valid()
      ensures process == old(started) && started == old(started) + 1 && log == old(log) + [Started(process)]
      ensures sleeps == old(sleeps) && clock == old(clock) && times == old(times) + [clock]
    {
      process := started;
      started := started + 1;
      log := log + [Started(process)];
      times := times + [clock];
    }

    method Poll(process: nat) returns (code: Option<int>)
      requires Valid()
      modifies this
      ensures Onward([Polled(process, code)]) && sleeps == old(sleeps)
      ensures code.Some? <==> HasExited(process)
      ensures code.Some? ==> code.value == exits(process).value.code
    {
      instant := instant + 1;
      clock := clock + drift(instant);
      code := if HasExited(process) then Some(exits(process).value.code) else None;
      log := log + [Polled(process, code)];
      times := times + [clock];
    }

    method Time() returns (now: nat)
      requires Valid()
      modifies this
      ensures Onward([]) && sleeps == old(sleeps) && now == clock
    {
      instant := instant + 1;
      clock := clock + drift(instant);
      now := clock;
    }

    method Sleep(duration: nat)
      requires Valid()
      modifies this
      ensures Onward([Slept(duration)]) && sleeps == old(sleeps) + 1 && clock >= old(clock) + duration
    {
      instant := instant + 1;
      clock := clock + duration + drift(instant);
      sleeps := sleeps + 1;
      log := log + [Slept(duration)];
      times := times + [clock];
    }

    method Signal(effect: Effect)
      requires Valid() && (effect.Terminated? || effect.Killed?)
      modifies this
      ensures Onward([effect]) && instant == old(instant) && clock == old(clock) && sleeps == old(sleeps)
    {
      log := log + [effect];
      times := times + [clock];
    }
  }

  // A process that was seen exited is never seen running later.
  predicate ExitedStays(log: seq<Effect>) {
    forall i, j :: 0 <= i < j < |log| && log[i].Polled? && log[j].Polled? && log[i].process == log[j].process && log[i].code.Some? ==>
      log[j].code.Some?
  }

  const POLL_PAUSE := 100
  const STOP_TIMEOUT := 5000
  const SWEEP_PAUSE := 1000

  // ---------- what a log says ----------

  // From position `from` on, the process was seen exited.
  predicate SeenExited(log: seq<Effect>, from: nat, process: nat) {
    exists i :: from <= i < |log| && log[i].Polled? && log[i].process == process && log[i].code.Some?
  }

  predicate Happened(log: seq<Effect>, from: nat, effect: Effect) {
    exists i :: from <= i < |log| && log[i] == effect
  }

  /** From `from` on, the process was seen exited or was sent kill. */
  predicate Ended(log: seq<Effect>, from: nat, process: nat) {
    SeenExited(log, from, process) || Happened(log, from, Killed(process))
  }

  /** From `from` on, kill goes only to a process that was sent terminate before. */
  predicate KillsComeSecond(log: seq<Effect>, from: nat) {
    forall i :: from <= i < |log| && log[i].Killed? ==> exists j :: from <= j < i && log[j] == Terminated(log[i].process)
  }

  /** From `from` on, a signal goes only to a process just seen running. */
  predicate SignalsToRunning(log: seq<Effect>, from: nat) {
    forall i :: from <= i < |log| && (log[i].Killed? || log[i].Terminated?) ==>
      from < i && log[i - 1] == Polled(log[i].process, None)
  }

  /** From `from` on, terminate goes to processes in the reverse order of their start. */
  predicate LastStartedFirst(log: seq<Effect>, from: nat) {
    forall i, j :: from <= i < j < |log| && log[i].Terminated? && log[j].Terminated? ==> log[i].process > log[j].process
  }

  predicate TerminatedAbove(log: seq<Effect>, from: nat, process: nat) {
    forall i :: from <= i < |log| && log[i].Terminated? ==> log[i].process > process
  }

  predicate NoKills(log: seq<Effect>, from: nat) {
    forall i :: from <= i < |log| ==> !log[i].Killed?
  }

  predicate NoSignals(log: seq<Effect>, from: nat) {
    forall i :: from <= i < |log| ==> !log[i].Killed? && !log[i].Terminated?
  }

  predicate NoSleeps(log: seq<Effect>, from: nat) {
    forall i :: from <= i < |log| ==> !log[i].Slept?
  }

  predicate NoTerminates(log: seq<Effect>, from: nat) {
    forall i :: from <= i < |log| ==> !log[i].Terminated?
  }

  /** From `from` on, kill comes at least five seconds after every terminate. */
  predicate GivesTime(log: seq<Effect>, times: seq<nat>, from: nat)
    requires |times| == |log|
  {
    forall i, j :: from <= i < |log| && from <= j < |log| && log[i].Killed? && log[j].Terminated? ==> times[j] + 5000 <= times[i]
  }

  /** From `from` on, every sleep is a tenth of a second, right after a process was seen
      running. */
  predicate SleepsWhileRunning(log: seq<Effect>, from: nat) {
    forall i :: from <= i < |log| && log[i].Slept? ==>
      log[i].duration == 100 && from < i && log[i - 1].Polled? && log[i - 1].code.None?
  }

  /** From `from` on, no signal goes to a process that was seen exited before. */
  predicate NoSignalAfterExit(log: seq<Effect>, from: nat) {
    forall i, j :: from <= i < j < |log| && log[i].Polled? && log[i].code.Some? && (log[j].Killed? || log[j].Terminated?) ==>
      log[j].process != log[i].process
  }

  lemma ExitedGetNoSignal(log: seq<Effect>, from: nat)
    requires ExitedStays(log) && SignalsToRunning(log, from)
    ensures NoSignalAfterExit(log, from)
  {
    forall i, j | from <= i < j < |log| && log[i].Polled? && log[i].code.Some? && (log[j].Killed? || log[j].Terminated?)
      ensures log[j].process != log[i].process
    {
      assert log[j - 1] == Polled(log[j].process, None);
    }
  }

  /** How every shutdown goes: kill only after terminate and only five seconds later;
      signals only to processes just seen running, never to one seen exited; terminate
      in the reverse order of the starts; sleeps only while something runs. */
  predicate Orderly(log: seq<Effect>, times: seq<nat>, from: nat)
    requires |times| == |log|
  {
    && KillsComeSecond(log, from) && SignalsToRunning(log, from) && LastStartedFirst(log, from)
    && GivesTime(log, times, from) && SleepsWhileRunning(log, from) && NoSignalAfterExit(log, from)
  }

  // From `from` on, terminate comes up to `begun`, and kill no earlier than five
  // seconds after it.
  predicate StopsInTime(log: seq<Effect>, times: seq<nat>, from: nat, begun: nat)
    requires |times| == |log|
  {
    && (forall i :: from <= i < |log| && log[i].Terminated? ==> times[i] <= begun)
    && (forall i :: from <= i < |log| && log[i].Killed? ==> begun + STOP_TIMEOUT <= times[i])
  }

  // A stretch without effects.
  lemma NothingYet(log: seq<Effect>, from: nat, process: nat)
    requires from == |log|
    ensures NoKills(log, from) && SignalsToRunning(log, from) && LastStartedFirst(log, from) && NoSleeps(log, from)
    ensures TerminatedAbove(log, from, process) && NoTerminates(log, from)
  {
  }

  // A stretch that sent no kill and did not sleep.
  lemma QuietIsOrderly(log: seq<Effect>, times: seq<nat>, from: nat)
    requires |times| == |log| && ExitedStays(log)
    requires NoKills(log, from) && SignalsToRunning(log, from) && LastStartedFirst(log, from) && NoSleeps(log, from)
    ensures Orderly(log, times, from)
  {
    ExitedGetNoSignal(log, from);
  }

  // Before any kill, and with all effects up to `begun`.
  lemma TimeSoFar(log: seq<Effect>, times: seq<nat>, from: nat, begun: nat)
    requires |times| == |log| && NoKills(log, from)
    requires forall i :: from <= i < |log| && log[i].Terminated? ==> times[i] <= begun
    ensures StopsInTime(log, times, from, begun) && KillsComeSecond(log, from)
  {
  }

  // What was orderly before a stretch of polls and sleeps is orderly after it.
  lemma WaitingChangesNothing(before: seq<Effect>, log: seq<Effect>, from: nat)
    requires before <= log && from <= |before| && NoSignals(log, |before|)
    ensures NoKills(before, from) ==> NoKills(log, from)
    ensures SignalsToRunning(before, from) ==> SignalsToRunning(log, from)
    ensures LastStartedFirst(before, from) ==> LastStartedFirst(log, from)
    ensures NoSleeps(before, from) && SleepsWhileRunning(log, |before|) ==> SleepsWhileRunning(log, from)
  {
    assert forall i :: 0 <= i < |before| ==> log[i] == before[i];
  }

  lemma KillingTerminatesNothing(before: seq<Effect>, log: seq<Effect>, from: nat)
    requires before <= log && from <= |before| && NoTerminates(log, |before|) && SignalsToRunning(log, |before|)
    ensures SignalsToRunning(before, from) ==> SignalsToRunning(log, from)
    ensures LastStartedFirst(before, from) ==> LastStartedFirst(log, from)
    ensures SleepsWhileRunning(before, from) && NoSleeps(log, |before|) ==> SleepsWhileRunning(log, from)
  {
    assert forall i :: 0 <= i < |before| ==> log[i] == before[i];
  }

  // ---------- one child ----------

  // What is known of a process once terminate was sent to all that ran.
  predicate Told(world: World, from: nat, process: nat)
    reads world
  {
    world.HasExited(process) || Happened(world.log, from, Terminated(process))
  }

  method TerminateIfRunning(world: World, from: nat, process: nat) returns (code: Option<int>)
    requires world.Valid() && from <= |world.log| && NoKills(world.log, from)
    requires SignalsToRunning(world.log, from) && LastStartedFirst(world.log, from)
    requires TerminatedAbove(world.log, from, process) && NoSleeps(world.log, from)
    modifies world
    ensures world.Valid() && old(world.log) <= world.log && world.sleeps == old(world.sleeps)
    ensures Told(world, from, process)
    ensures forall other: nat :: other < process && old(TerminatedAbove(world.log, from, other)) ==> TerminatedAbove(world.log, from, other)
    ensures forall other: nat :: old(Told(world, from, other)) ==> Told(world, from, other)
    ensures NoKills(world.log, from) && SignalsToRunning(world.log, from) && LastStartedFirst(world.log, from)
    ensures NoSleeps(world.log, from) && old(world.times) <= world.times
    ensures code.Some? ==> world.log == old(world.log) + [Polled(process, code)] && SeenExited(world.log, from, process)
  {
    hide ExitedStays;
    code := world.Poll(process);
    ghost var last := |world.log| - 1;
    assert world.log[last] == Polled(process, code);
    if code.None? {
      world.Signal(Terminated(process));
      assert world.log[last + 1] == Terminated(process);
    }
  }

  // The process has exited, or has had five seconds since `begun`.
  predicate InTime(world: World, begun: nat, process: nat)
    reads world
  {
    world.HasExited(process) || begun + STOP_TIMEOUT <= world.clock
  }

  method KillIfRunning(world: World, from: nat, ghost since: nat, process: nat, ghost begun: nat)
    requires world.Valid() && from <= since <= |world.log| && Told(world, from, process) && KillsComeSecond(world.log, from)
    requires NoTerminates(world.log, since) && SignalsToRunning(world.log, since) && NoSleeps(world.log, since)
    requires InTime(world, begun, process) && StopsInTime(world.log, world.times, from, begun)
    modifies world
    ensures world.Valid() && old(world.log) <= world.log && world.sleeps == old(world.sleeps)
    ensures Ended(world.log, from, process) && KillsComeSecond(world.log, from)
    ensures forall other: nat :: old(Told(world, from, other)) ==> Told(world, from, other)
    ensures forall other: nat :: old(InTime(world, begun, other)) ==> InTime(world, begun, other)
    ensures forall other: nat :: old(Ended(world.log, from, other)) ==> Ended(world.log, from, other)
    ensures NoTerminates(world.log, since) && SignalsToRunning(world.log, since) && NoSleeps(world.log, since)
    ensures StopsInTime(world.log, world.times, from, begun) && old(world.times) <= world.times
  {
    hide ExitedStays, Ended, SeenExited, Happened, KillsComeSecond, SignalsToRunning, NoTerminates, NoSleeps;
    ghost var before := world.log;
    var code := world.Poll(process);
    ghost var polled := world.log;
    OnePoll(before, from, since, process, code);
    LongerKeeps(before, polled, from);
    if code.None? {
      assert Happened(before, from, Terminated(process));
      world.Signal(Killed(process));
      OneKill(polled, from, since, process);
      LongerKeeps(polled, world.log, from);
    }
  }

  // What has happened has happened.
  lemma LongerKeeps(before: seq<Effect>, log: seq<Effect>, from: nat)
    requires before <= log
    ensures forall process: nat :: Ended(before, from, process) ==> Ended(log, from, process)
    ensures forall effect :: Happened(before, from, effect) ==> Happened(log, from, effect)
  {
    assert forall i :: 0 <= i < |before| ==> log[i] == before[i];
  }

  lemma OnePoll(before: seq<Effect>, from: nat, since: nat, process: nat, code: Option<int>)
    requires from <= since <= |before| && KillsComeSecond(before, from)
    requires NoTerminates(before, since) && SignalsToRunning(before, since) && NoSleeps(before, since)
    ensures var log := before + [Polled(process, code)];
            && KillsComeSecond(log, from) && NoTerminates(log, since) && SignalsToRunning(log, since) && NoSleeps(log, since)
            && (code.Some? ==> Ended(log, from, process))
  {
    var log := before + [Polled(process, code)];
    assert log[|before|] == Polled(process, code);
    forall i | from <= i < |log| && log[i].Killed? ensures exists j :: from <= j < i && log[j] == Terminated(log[i].process) {
      var j :| from <= j < |before| && before[j] == Terminated(log[i].process) && j < i;
      assert log[j] == Terminated(log[i].process);
    }
  }

  lemma OneKill(before: seq<Effect>, from: nat, since: nat, process: nat)
    requires from <= since < |before| && before[|before| - 1] == Polled(process, None)
    requires Happened(before, from, Terminated(process)) && KillsComeSecond(before, from)
    requires NoTerminates(before, since) && SignalsToRunning(before, since) && NoSleeps(before, since)
    ensures var log := before + [Killed(process)];
            && KillsComeSecond(log, from) && NoTerminates(log, since) && SignalsToRunning(log, since) && NoSleeps(log, since)
            && Ended(log, from, process)
  {
    var log := before + [Killed(process)];
    assert log[|before|] == Killed(process);
    forall i | from <= i < |log| && log[i].Killed? ensures exists j :: from <= j < i && log[j] == Terminated(log[i].process) {
      var j :| from <= j < |before| && before[j] == Terminated(log[i].process) && j < i;
      assert log[j] == Terminated(log[i].process);
    }
  }

  /** Terminates one child, waits for it up to five seconds, and kills it then. */
  method TerminateChild(world: World, process: nat)
    requires world.Valid()
    modifies world
    ensures world.Valid() && old(world.log) <= world.log
    ensures Ended(world.log, |old(world.log)|, process)
    ensures Orderly(world.log, world.times, |old(world.log)|)
    ensures old(world.sleeps) <= world.sleeps <= old(world.sleeps) + 50
  {
    hide ExitedStays, SignalsToRunning, LastStartedFirst, NoSleeps, SleepsWhileRunning, NoKills, NoTerminates, TerminatedAbove;
    var from := |world.log|;
    NothingYet(world.log, from, process);
    var code := TerminateIfRunning(world, from, process);
    ghost var told := world.log;
    if code.Some? {
      QuietIsOrderly(world.log, world.times, from);
      return;
    }
    var begun := world.Time();
    AwaitExit(world, process, begun, world.sleeps);
    WaitingChangesNothing(told, world.log, from);
    ghost var waited := world.log;
    NothingYet(waited, |waited|, process);
    TimeSoFar(world.log, world.times, from, begun);
    KillIfRunning(world, from, |waited|, process, begun);
    KillingTerminatesNothing(waited, world.log, from);
    ExitedGetNoSignal(world.log, from);
  }

  // Polls one process every tenth of a second until it has exited or time is up. So far
  // there were `sleeps - base` sleeps since the deadline was set.
  method AwaitExit(world: World, process: nat, begun: nat, ghost base: nat)
    requires world.Valid() && base <= world.sleeps <= base + 50
    requires begun + POLL_PAUSE * (world.sleeps - base) <= world.clock
    modifies world
    ensures Waited(world) && base <= world.sleeps <= base + 50
    ensures begun + POLL_PAUSE * (world.sleeps - base) <= world.clock
    ensures world.HasExited(process) || begun + STOP_TIMEOUT <= world.clock
  {
    hide ExitedStays;
    var deadline := begun + STOP_TIMEOUT;
    while true
      invariant Waited(world) && base <= world.sleeps <= base + 50
      invariant begun + POLL_PAUSE * (world.sleeps - base) <= world.clock
      decreases base + 50 - world.sleeps
    {
      var code := world.Poll(process);
      if code.Some? {
        break;
      }
      var now := world.Time();
      if now >= deadline {
        break;
      }
      world.Sleep(POLL_PAUSE);
    }
  }

  // A stretch of polls and sleeps: time has gone on, and no signal was sent.
  twostate predicate Waited(world: World)
    reads world
  {
    && world.Valid()
    && old(world.log) <= world.log && old(world.times) <= world.times
    && old(world.instant) <= world.instant && old(world.clock) <= world.clock && world.started == old(world.started)
    && NoSignals(world.log, |old(world.log)|) && SleepsWhileRunning(world.log, |old(world.log)|)
  }

  // ---------- all of them ----------

  class Supervisor {
    const world: World
    var processes: seq<nat>

    constructor (world: World)
      ensures this.world == world && processes == []
    {
      this.world := world;
      processes := [];
    }

    method StartProcess() returns (process: nat)
      requires world.Valid()
      modifies this, world
      ensures world.Valid()
      ensures processes == old(processes) + [process] && process == old(world.started) && world.started == process + 1
      ensures world.log == old(world.log) + [Started(process)] && world.sleeps == old(world.sleeps)
    {
      process := world.Start();
      processes := processes + [process];
    }

    predicate InStartOrder()
      reads this
    {
      forall i, j :: 0 <= i < j < |processes| ==> processes[i] < processes[j]
    }

    /** Terminates what still runs, last started first; waits for all of them under
        one deadline; kills what is left. */
    method StopAll()
      requires InStartOrder() && world.Valid()
      modifies world
      ensures world.Valid() && old(world.log) <= world.log && old(world.times) <= world.times
      ensures forall k :: 0 <= k < |processes| ==> Ended(world.log, |old(world.log)|, processes[k])
      ensures Orderly(world.log, world.times, |old(world.log)|)
      ensures old(world.sleeps) <= world.sleeps <= old(world.sleeps) + 50
    {
      hide ExitedStays;
      var from := |world.log|;
      TerminateRunning(from);
      ghost var told := world.log;
      ghost var begun := WaitForAll(from);
      WaitingChangesNothing(told, world.log, from);
      ghost var waited := world.log;
      KillRunning(from, begun);
      KillingTerminatesNothing(waited, world.log, from);
      ExitedGetNoSignal(world.log, from);
    }

    method TerminateRunning(from: nat)
      requires from == |world.log| && InStartOrder() && world.Valid()
      modifies world
      ensures world.Valid() && old(world.log) <= world.log && old(world.times) <= world.times && world.sleeps == old(world.sleeps)
      ensures forall k :: 0 <= k < |processes| ==> Told(world, from, processes[k])
      ensures NoKills(world.log, from) && SignalsToRunning(world.log, from) && LastStartedFirst(world.log, from)
      ensures NoSleeps(world.log, from)
    {
      hide ExitedStays;
      var k := |processes|;
      while k > 0
        invariant 0 <= k <= |processes|
        invariant world.Valid() && old(world.log) <= world.log && old(world.times) <= world.times && world.sleeps == old(world.sleeps)
        invariant forall j :: k <= j < |processes| ==> Told(world, from, processes[j])
        invariant forall j :: 0 <= j < k ==> TerminatedAbove(world.log, from, processes[j])
        invariant NoKills(world.log, from) && SignalsToRunning(world.log, from) && LastStartedFirst(world.log, from)
        invariant NoSleeps(world.log, from)
      {
        k := k - 1;
        assert TerminatedAbove(world.log, from, processes[k]);
        var code := TerminateIfRunning(world, from, processes[k]);
      }
    }

    // Every process has exited by the end, or five seconds have passed.
    method WaitForAll(from: nat) returns (begun: nat)
      requires world.Valid() && from <= |world.log|
      requires forall k :: 0 <= k < |processes| ==> Told(world, from, processes[k])
      modifies world
      ensures Waited(world) && old(world.clock) <= begun <= world.clock
      ensures old(world.sleeps) <= world.sleeps <= old(world.sleeps) + 50
      ensures forall k :: 0 <= k < |processes| ==> Told(world, from, processes[k]) && InTime(world, begun, processes[k])
    {
      hide ExitedStays;
      ghost var base := world.sleeps;
      begun := world.Time();
      for k := 0 to |processes|
        invariant Waited(world) && base <= world.sleeps <= base + 50
        invariant begun + POLL_PAUSE * (world.sleeps - base) <= world.clock
        invariant forall j :: 0 <= j < |processes| ==> Told(world, from, processes[j])
        invariant forall j :: 0 <= j < k ==> InTime(world, begun, processes[j])
      {
        AwaitExit(world, processes[k], begun, base);
      }
    }

    method KillRunning(from: nat, ghost begun: nat)
      requires world.Valid() && from <= |world.log| && NoKills(world.log, from)
      requires StopsInTime(world.log, world.times, from, begun)
      requires forall k :: 0 <= k < |processes| ==> Told(world, from, processes[k]) && InTime(world, begun, processes[k])
      modifies world
      ensures world.Valid() && old(world.log) <= world.log && old(world.times) <= world.times && world.sleeps == old(world.sleeps)
      ensures forall k :: 0 <= k < |processes| ==> Ended(world.log, from, processes[k])
      ensures KillsComeSecond(world.log, from) && StopsInTime(world.log, world.times, from, begun)
      ensures NoTerminates(world.log, |old(world.log)|) && SignalsToRunning(world.log, |old(world.log)|)
      ensures NoSleeps(world.log, |old(world.log)|)
    {
      hide ExitedStays;
      for k := 0 to |processes|
        invariant world.Valid() && old(world.log) <= world.log && old(world.times) <= world.times && world.sleeps == old(world.sleeps)
        invariant forall j :: 0 <= j < |processes| ==> Told(world, from, processes[j]) && InTime(world, begun, processes[j])
        invariant forall j :: 0 <= j < k ==> Ended(world.log, from, processes[j])
        invariant KillsComeSecond(world.log, from) && StopsInTime(world.log, world.times, from, begun)
        invariant NoTerminates(world.log, |old(world.log)|) && SignalsToRunning(world.log, |old(world.log)|)
        invariant NoSleeps(world.log, |old(world.log)|)
      {
        KillIfRunning(world, from, |old(world.log)|, processes[k], begun);
      }
    }

    method StartAll(count: nat)
      requires processes == [] && world.Valid()
      modifies this, world
      ensures world.Valid()
      ensures world.log == old(world.log) + Starts(old(world.started), count) && world.sleeps == old(world.sleeps)
      ensures |processes| == count && forall k :: 0 <= k < count ==> processes[k] == old(world.started) + k
    {
      hide ExitedStays;
      for i := 0 to count
        invariant world.Valid()
        invariant world.log == old(world.log) + Starts(old(world.started), i) && world.started == old(world.started) + i
        invariant |processes| == i && forall k :: 0 <= k < i ==> processes[k] == old(world.started) + k
        invariant world.sleeps == old(world.sleeps)
      {
        var process := StartProcess();
        assert Starts(old(world.started), i + 1) == Starts(old(world.started), i) + [Started(process)];
      }
    }

    // Polls the processes in start order up to the first that has exited.
    method Sweep() returns (code: Option<int>)
      requires world.Valid()
      modifies world
      ensures world.Valid() && old(world.log) <= world.log && world.sleeps == old(world.sleeps)
      ensures code.Some? ==> FirstExit(old(world.log), world.log, processes, code.value)
      ensures code.None? ==> world.log == old(world.log) + FoundRunning(processes)
    {
      hide ExitedStays;
      ghost var before := world.log;
      for k := 0 to |processes|
        invariant world.Valid() && world.log == before + FoundRunning(processes[..k])
        invariant world.sleeps == old(world.sleeps)
      {
        code := world.Poll(processes[k]);
        if code.Some? {
          return;
        }
        assert FoundRunning(processes[..k + 1]) == FoundRunning(processes[..k]) + [Polled(processes[k], None)];
      }
      assert processes[..|processes|] == processes;
      return None;
    }

    // One shutdown from position `from` to position `to` of the log.
    ghost predicate StoppedAll(log: seq<Effect>, times: seq<nat>, from: nat, to: nat)
      reads this
    {
      && from <= to <= |log| && |times| == |log|
      && (forall k :: 0 <= k < |processes| ==> Ended(log[..to], from, processes[k]))
      && Orderly(log[..to], times[..to], from)
    }

    // The shutdown of the exit or signal, and the one on leaving the loop.
    method StopTwice() returns (ghost againAt: nat)
      requires InStartOrder() && world.Valid()
      modifies world
      ensures world.Valid() && old(world.log) <= world.log
      ensures old(world.sleeps) <= world.sleeps <= old(world.sleeps) + 100
      ensures StoppedAll(world.log, world.times, |old(world.log)|, againAt)
      ensures StoppedAll(world.log, world.times, againAt, |world.log|)
    {
      hide ExitedStays, Ended, Orderly;
      StopAll();
      againAt := |world.log|;
      ghost var stopped, stoppedTimes := world.log, world.times;
      StopAll();
      assert world.log[..againAt] == stopped && world.log[..|world.log|] == world.log;
      assert world.times[..againAt] == stoppedTimes && world.times[..|world.times|] == world.times;
    }

    /** Starts the processes and sweeps over them until one has exited, or until a
        signal arrives at the end of a sweep; every way out stops all of them, and
        leaving the loop stops them once more. The loop of the source has no end, so
        the run is cut after `sweeps` sweeps. Before the way out `full` sweeps found
        every process running; `stopAt` and `againAt` are where the two shutdowns
        begin in the log. */
    method RunManagedProcesses(count: nat, sweeps: nat, signalAt: Option<nat>)
      returns (r: RunResult, ghost full: nat, ghost stopAt: nat, ghost againAt: nat)
      requires processes == [] && world.Valid()
      modifies this, world
      ensures world.Valid()
      ensures |processes| == count && forall k :: 0 <= k < count ==> processes[k] == old(world.started) + k
      ensures var before := old(world.log) + Starts(old(world.started), count) + Sweeps(processes, full);
              && before <= world.log && stopAt <= |world.log|
              && match r
                 case StillRunning => full == sweeps && world.log == before
                 case Interrupted => full < sweeps && signalAt == Some(full) && world.log[..stopAt] == before + FoundRunning(processes)
                 case Returned(code) => full < sweeps && FirstExit(before, world.log[..stopAt], processes, code)
      ensures signalAt.Some? ==> full <= signalAt.value
      ensures r != StillRunning ==>
                StoppedAll(world.log, world.times, stopAt, againAt) && StoppedAll(world.log, world.times, againAt, |world.log|)
      ensures old(world.sleeps) + full <= world.sleeps <= old(world.sleeps) + full + if r == StillRunning then 0 else 100
    {
      hide ExitedStays, StoppedAll, FirstExit, Starts;
      full, stopAt, againAt := 0, 0, 0;
      StartAll(count);
      ghost var start := world.log;
      for sweep := 0 to sweeps
        modifies world
        invariant signalAt.Some? ==> sweep <= signalAt.value
        invariant world.Valid() && full == sweep && world.log == start + Sweeps(processes, sweep)
        invariant world.sleeps == old(world.sleeps) + sweep
      {
        var code := Sweep();
        stopAt := |world.log|;
        ghost var seen := world.log;
        if code.Some? {
          againAt := StopTwice();
          assert world.log[..stopAt] == seen;
          return Returned(code.value), full, stopAt, againAt;
        }
        if signalAt == Some(sweep) {
          againAt := StopTwice();
          assert world.log[..stopAt] == seen;
          return Interrupted, full, stopAt, againAt;
        }
        world.Sleep(SWEEP_PAUSE);
        full := full + 1;
      }
      return StillRunning, full, 0, 0;
    }
  }

  datatype RunResult = Returned(code: int) | Interrupted | StillRunning

  // The log of starting `count` processes.
  function Starts(first: nat, count: nat): seq<Effect> {
    seq(count, k requires 0 <= k < count => Started(first + k))
  }

  // The log of a sweep that found every process running.
  function FoundRunning(processes: seq<nat>): seq<Effect> {
    seq(|processes|, k requires 0 <= k < |processes| => Polled(processes[k], None))
  }

  // The log of `n` such sweeps, each with a pause of a second after it.
  function Sweeps(processes: seq<nat>, n: nat): seq<Effect> {
    if n == 0 then [] else Sweeps(processes, n - 1) + FoundRunning(processes) + [Slept(1000)]
  }

  /** After `before` the log is one sweep, in start order, that found every process
      running up to one that had exited with this code. */
  predicate FirstExit(before: seq<Effect>, log: seq<Effect>, processes: seq<nat>, code: int) {
    exists k :: 0 <= k < |processes| && log == before + FoundRunning(processes[..k]) + [Polled(processes[k], Some(code))]
  }
}
