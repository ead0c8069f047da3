/** The lifecycle of one managed child process (ProcessManager in purity/process.py).

    The manager is a six-state machine. The reactor's callbacks are modelled as events:
    the spawn attempt inside `start`, "connection made", "process ended", a line received
    on stdout or stderr, and the firing of the startup or shutdown check. The pure function
    `Next` is the transition table; the class's methods are specified by it, and what the
    source promises about the lifecycle is proved about `Next` over any sequence of events. */
module Process {
  import opened Outcomes
  import opened Deferreds
  import opened TextLines

  /** The six states; `Failed` is the source's ERROR state. */
  datatype State = Idle | Starting | Running | Stopping | Stopped | Failed

  /** The string constant the source keeps for each state. */
  function StateName(s: State): (n: string)
    ensures |n| >= 4
  {
    match s
    case Idle => "IDLE"
    case Starting => "STARTING"
    case Running => "RUNNING"
    case Stopping => "STOPPING"
    case Stopped => "STOPPED"
    case Failed => "ERROR"
  }

  lemma StateNamesDiffer(s: State, t: State)
    requires s != t
    ensures StateName(s) != StateName(t)
  {
  }

  /** What can happen to a manager. `start` ends in one of two ways: the spawn call returned
      (`StartSpawned`) or raised TypeError (`StartRaised`). */
  datatype Event = StartSpawned | StartRaised | ConnectionMade | ProcessEnded | StopRequested

  /** The transition table. Its contract says, state by state, exactly which events lead
      into it. A connection-made event always leads to RUNNING (the guard of
      `_on_connection_made` tests a non-empty string constant, which is always true). */
  function Next(s: State, ev: Event): (r: State)
    ensures r == Starting <==> ev == StartSpawned
    ensures r == Running <==> ev == ConnectionMade
    ensures r == Stopping <==> ev == StopRequested && s == Running
    ensures r == Stopped <==> (ev == StopRequested && s != Running) || (ev == ProcessEnded && (s == Stopping || s == Stopped))
    ensures r == Failed <==> ev == StartRaised || (ev == ProcessEnded && (s == Starting || s == Running || s == Failed))
    ensures r == Idle <==> ev == ProcessEnded && s == Idle
  {
    match ev
    case StartSpawned => Starting
    case StartRaised => Failed
    case ConnectionMade => Running
    case ProcessEnded =>
      if s == Starting || s == Running then Failed
      else if s == Stopping then Stopped
      else s
    case StopRequested => if s == Running then Stopping else Stopped
  }

  /** The state after a sequence of events, in order. */
  function Run(s: State, evs: seq<Event>): State
    decreases |evs|
  {
    if evs == [] then s else Run(Next(s, evs[0]), evs[1..])
  }

  /** The end of the process leaves no live state behind: STARTING and RUNNING become ERROR,
      STOPPING becomes STOPPED, and every other state is kept. */
  lemma ProcessEndSettles(s: State)
    ensures Next(s, ProcessEnded) in {Idle, Stopped, Failed}
    ensures s in {Idle, Stopped, Failed} ==> Next(s, ProcessEnded) == s
  {
  }

  /** A manager is reported STOPPING or STOPPED only after a stop was requested. */
  lemma {:induction false} StoppedOnlyAfterStop(s: State, evs: seq<Event>)
    requires s != Stopping && s != Stopped
    requires Run(s, evs) == Stopping || Run(s, evs) == Stopped
    ensures StopRequested in evs
    decreases |evs|
  {
    if evs != [] && evs[0] != StopRequested {
      StoppedOnlyAfterStop(Next(s, evs[0]), evs[1..]);
    }
  }

  /** A manager that is down (IDLE, STOPPED or ERROR) stays down until it is started
      again or a connection is made. */
  lemma {:induction false} StaysDown(s: State, evs: seq<Event>)
    requires s in {Idle, Stopped, Failed}
    requires StartSpawned !in evs && ConnectionMade !in evs
    ensures Run(s, evs) in {Idle, Stopped, Failed}
    decreases |evs|
  {
    if evs != [] {
      assert evs[0] in evs;
      assert forall e | e in evs[1..] :: e in evs;
      StaysDown(Next(s, evs[0]), evs[1..]);
    }
  }

  /** In particular, once the process has ended the manager is never STARTING, RUNNING or
      STOPPING again until it is started again or a connection is made. */
  lemma EndedProcessStaysDown(s: State, evs: seq<Event>)
    requires StartSpawned !in evs && ConnectionMade !in evs
    ensures Run(s, [ProcessEnded] + evs) in {Idle, Stopped, Failed}
  {
    assert ([ProcessEnded] + evs)[1..] == evs;
    ProcessEndSettles(s);
    StaysDown(Next(s, ProcessEnded), evs);
  }

  // ---------------------------------------------------------------- construction

  /** `__init__`'s handling of the command, with `which` standing for `procutils.which`.
      `list(command)` runs before the test for None, so a missing command raises TypeError;
      an empty list raises IndexError from inside the `except IndexError` handler itself. */
  function ResolveCommand(command: Option<seq<string>>, which: string -> seq<string>): (r: Result<seq<string>, Error>)
    ensures r.Ok? <==> command.Some? && command.value != [] && which(command.value[0]) != []
    ensures command.None? ==> r.error.kind == TypeError
    ensures command == Some([]) ==> r.error.kind == IndexError
    ensures command.Some? && command.value != [] && which(command.value[0]) == [] ==>
      r.error == Error(ManagedProcessError, "Could not find path of executable " + command.value[0] + ".")
    ensures r.Ok? ==> (|r.value| == |command.value| && r.value[0] == which(command.value[0])[0] &&
                       r.value[1..] == command.value[1..])
  {
    match command
    case None => Err(Error(TypeError, "'NoneType' object is not iterable"))
    case Some(c) =>
      if c == [] then Err(Error(IndexError, "list index out of range"))
      else
        var found := which(c[0]);
        if found == [] then Err(Error(ManagedProcessError, "Could not find path of executable " + c[0] + "."))
        else Ok([found[0]] + c[1..])
  }

  // ---------------------------------------------------------------- check verdicts

  const StartFailureHead := "Could not start process "
  const CrashedNote := "It crashed. "

  /** The error message of a failed startup check. */
  function StartFailureMessage(state: State, name: string, output: string): (m: string)
    ensures StartFailureHead + name + ". " <= m
    ensures |output| <= |m| && m[|m| - |output|..] == output
  {
    StartFailureHead + name + ". " +
    (if state == Failed then CrashedNote else "It state is " + StateName(state) + ". ") +
    "\nHere is its output:\n " + output
  }

  /** `_cl_check_if_started`: True when the process is RUNNING, otherwise a Failure whose
      message names the process and carries both logs. `format_output_when_crashed` is the
      identity in ProcessManager itself. */
  function StartupVerdict(state: State, name: string, outText: string, errText: string): (v: Value)
    ensures v == Bool(true) <==> state == Running
    ensures v.Failure? <==> state != Running
    ensures v.Failure? ==> v.error.kind == ManagedProcessError && StartFailureHead + name + ". " <= v.error.message
  {
    if state == Running then Bool(true)
    else Failure(Error(ManagedProcessError, StartFailureMessage(state, name, outText + "\n" + errText)))
  }

  /** The failure message says "It crashed." exactly when the state is ERROR, and it ends
      with the standard output text, a newline and the standard error text. */
  lemma StartFailureExplains(state: State, name: string, outText: string, errText: string)
    requires state != Running
    ensures var m := StartupVerdict(state, name, outText, errText).error.message;
      var at := |StartFailureHead + name + ". "|;
      at + |CrashedNote| <= |m| &&
      (m[at..at + |CrashedNote|] == CrashedNote <==> state == Failed) &&
      outText + "\n" + errText <= m[|m| - |outText + "\n" + errText|..]
  {
    var m := StartupVerdict(state, name, outText, errText).error.message;
    var at := |StartFailureHead + name + ". "|;
    if state != Failed {
      assert m[at + 3] == 's';
    }
  }

  const StopFailureHead := "Process "

  /** `_cl_check_if_stopped`: True when the process is STOPPED, otherwise a Failure naming the
      process and its state, followed by both logs stripped. */
  function ShutdownVerdict(state: State, name: string, outText: string, errText: string): (v: Value)
    ensures v == Bool(true) <==> state == Stopped
    ensures v.Failure? <==> state != Stopped
    ensures v.Failure? ==> v.error.kind == ManagedProcessError
    ensures v.Failure? ==>
      var at := |StopFailureHead + name + " : error while trying to stop it. It is in state "|;
      at + |StateName(state)| <= |v.error.message| &&
      v.error.message[at..at + |StateName(state)|] == StateName(state)
  {
    if state == Stopped then Bool(true)
    else
      var head := StopFailureHead + name + " : error while trying to stop it. It is in state ";
      var m := head + StateName(state) + ". Output :\n" + Strip(outText) + "\n" + Strip(errText) + "\n";
      assert m[|head|..|head| + |StateName(state)|] == StateName(state);
      Failure(Error(ManagedProcessError, m))
  }

  const StoppedHead := "Stopped process even if it was in an "
  const StoppedTail := " state."

  /** The message `stop` succeeds with when the process was not running: the state's name
      can be read back between the fixed head and tail. */
  function StoppedAnywayMessage(state: State): (m: string)
    ensures |m| == |StoppedHead| + |StateName(state)| + |StoppedTail|
    ensures m[..|StoppedHead|] == StoppedHead && m[|m| - |StoppedTail|..] == StoppedTail
    ensures m[|StoppedHead|..|m| - |StoppedTail|] == StateName(state)
  {
    StoppedHead + StateName(state) + StoppedTail
  }

  /** Different states give different messages. */
  lemma StoppedAnywayNamesState(s: State, t: State)
    requires s != t
    ensures StoppedAnywayMessage(s) != StoppedAnywayMessage(t)
  {
    StateNamesDiffer(s, t);
  }

  /** How the spawn call inside `start` turned out. */
  datatype Spawn = Spawned | SpawnTypeError(message: string)

  function StartEvent(spawn: Spawn): Event {
    if spawn.Spawned? then StartSpawned else StartRaised
  }

  /** Starts one child process and follows its lifecycle. */
  class ProcessManager {
    const name: string
    var command: seq<string>
    var state: State
    const stdoutLogger: TextLinesLogger
    const stderrLogger: TextLinesLogger
    var startupCheck: DelayedWrapper?
    var shutdownCheck: DelayedWrapper?
    ghost var Repr: set<object>

    ghost predicate Valid()
      reads this, Repr
    {
      this in Repr && stdoutLogger in Repr && stderrLogger in Repr && stdoutLogger != stderrLogger &&
      stdoutLogger.prefix == name && stderrLogger.prefix == name &&
      stdoutLogger.maxsize == stderrLogger.maxsize &&
      (startupCheck != null ==>
        startupCheck in Repr && startupCheck.Repr <= Repr &&
        this !in startupCheck.Repr && stdoutLogger !in startupCheck.Repr && stderrLogger !in startupCheck.Repr &&
        startupCheck.Valid()) &&
      (shutdownCheck != null ==>
        shutdownCheck in Repr && shutdownCheck.Repr <= Repr &&
        this !in shutdownCheck.Repr && stdoutLogger !in shutdownCheck.Repr && stderrLogger !in shutdownCheck.Repr &&
        shutdownCheck.Valid()) &&
      (startupCheck != null && shutdownCheck != null ==> startupCheck.Repr !! shutdownCheck.Repr)
    }

    constructor Resolved(name: string, logMaxSize: int, command: seq<string>)
      ensures Valid() && fresh(Repr)
      ensures this.name == name && this.command == command && state == Idle
      ensures stdoutLogger.lines == [] && stderrLogger.lines == [] && stdoutLogger.maxsize == logMaxSize
      ensures startupCheck == null && shutdownCheck == null
    {
      this.name := name;
      this.command := command;
      state := Idle;
      var out := new TextLinesLogger(logMaxSize, name);
      var err := new TextLinesLogger(logMaxSize, name);
      stdoutLogger := out;
      stderrLogger := err;
      startupCheck := null;
      shutdownCheck := null;
      Repr := {this, out, err};
    }

    /** `ProcessManager(name, log_max_size, command)`: fails as `ResolveCommand` does, and
        otherwise yields an IDLE manager with empty logs prefixed by its name. `which` is the
        executable lookup of the system; the other parameters keep the source's defaults. */
    static method Create(which: string -> seq<string>, name: string := "default", logMaxSize: int := 100,
                         command: Option<seq<string>> := None)
      returns (r: Result<ProcessManager, Error>)
      ensures r.Ok? <==> ResolveCommand(command, which).Ok?
      ensures r.Err? ==> r.error == ResolveCommand(command, which).error
      ensures r.Ok? ==> var m := r.value;
        fresh(m) && fresh(m.Repr) && m.Valid() && m.name == name && m.state == Idle &&
        m.command == ResolveCommand(command, which).value &&
        m.stdoutLogger.lines == [] && m.stderrLogger.lines == [] && m.stdoutLogger.maxsize == logMaxSize &&
        m.startupCheck == null && m.shutdownCheck == null
    {
      var resolved := ResolveCommand(command, which);
      if resolved.Err? {
        r := Err(resolved.error);
      } else {
        var m := new ProcessManager.Resolved(name, logMaxSize, resolved.value);
        r := Ok(m);
      }
    }

    /** `start`: clears both logs and tries to spawn the process. When the spawn call
        returns, the manager is STARTING and the deferred is that of a freshly scheduled
        startup check; when it raises TypeError, the manager is in ERROR and the deferred
        has already failed with a ManagedProcessError carrying the TypeError's text. */
    /** A fresh delayed call, scheduled, and its unresolved deferred. */
    static method ScheduledCheck() returns (check: DelayedWrapper, d: Deferred)
      ensures fresh(check) && fresh(check.Repr) && check.Valid()
      ensures check.State() == JustScheduled && check.Deferred() == d && d in check.Repr && d.result == None
    {
      check := new DelayedWrapper();
      d := check.CallLater();
    }

    /** Empties both logs; nothing else changes. */
    method ClearLogs()
      requires Valid()
      modifies stdoutLogger, stderrLogger
      ensures Valid() && stdoutLogger.lines == [] && stderrLogger.lines == []
      ensures startupCheck != null ==> startupCheck.State() == old(startupCheck.State())
      ensures shutdownCheck != null ==> shutdownCheck.State() == old(shutdownCheck.State())
    {
      stdoutLogger.Clear();
      stderrLogger.Clear();
    }

    method Start(spawn: Spawn) returns (d: Deferred)
      requires Valid()
      modifies Repr
      ensures Valid() && fresh(Repr - old(Repr))
      ensures state == Next(old(state), StartEvent(spawn))
      ensures stdoutLogger.lines == [] && stderrLogger.lines == []
      ensures command == old(command)
      ensures shutdownCheck == old(shutdownCheck)
      ensures shutdownCheck != null ==> shutdownCheck.State() == old(shutdownCheck.State())
      ensures spawn.Spawned? ==>
        fresh(startupCheck) && startupCheck.State() == JustScheduled && startupCheck.Deferred() == d && d.result == None
      ensures spawn.SpawnTypeError? ==>
        startupCheck == old(startupCheck) && fresh(d) &&
        d.result == Some(Failure(Error(ManagedProcessError, spawn.message))) &&
        (startupCheck != null ==> startupCheck.State() == old(startupCheck.State()))
    {
      ClearLogs();
      state := Starting;
      if spawn.SpawnTypeError? {
        state := Failed;
        d := new Deferred.Fired(Failure(Error(ManagedProcessError, spawn.message)));
      } else {
        var check;
        check, d := ScheduledCheck();
        startupCheck := check;
        Repr := Repr + check.Repr;
      }
    }

    /** The reactor reports that the process's pipes are connected. */
    method OnConnectionMade()
      modifies this`state
      ensures state == Next(old(state), ConnectionMade)
    {
      state := Running;
    }

    /** The reactor reports that the process has ended, for whatever reason. */
    method OnProcessEnded()
      modifies this`state
      ensures state == Next(old(state), ProcessEnded)
    {
      if state == Starting {
        state := Failed;
      } else if state == Running {
        state := Failed;
      } else if state == Stopping {
        state := Stopped;
      }
    }

    /** Data arrived on the process's standard output: it is logged stripped. */
    method OnOutReceived(data: string)
      requires Valid()
      modifies stdoutLogger
      ensures stdoutLogger.lines == Appended(old(stdoutLogger.lines), stdoutLogger.maxsize, Strip(data))
    {
      stdoutLogger.Append(Strip(data));
    }

    /** Data arrived on the process's standard error: it is logged stripped. */
    method OnErrReceived(data: string)
      requires Valid()
      modifies stderrLogger
      ensures stderrLogger.lines == Appended(old(stderrLogger.lines), stderrLogger.maxsize, Strip(data))
    {
      stderrLogger.Append(Strip(data));
    }

    /** The reactor fires the startup check: its deferred is resolved with
        `StartupVerdict` of the state and logs at that moment, unless the check has already
        run or been cancelled. Nothing else changes. */
    method StartupCheckFires()
      requires Valid() && startupCheck != null
      modifies startupCheck.Repr
      ensures Valid()
      ensures startupCheck.State() ==
        TimerStep(old(startupCheck.State()),
          Fire(StartupVerdict(state, name, LogText(name, stdoutLogger.lines), LogText(name, stderrLogger.lines)))).0
      ensures shutdownCheck != null ==> shutdownCheck.State() == old(shutdownCheck.State())
      ensures startupCheck.Deferred() == old(startupCheck.Deferred())
    {
      if startupCheck.IsPending() {
        var out := stdoutLogger.GetText();
        var err := stderrLogger.GetText();
        startupCheck.CallIt(StartupVerdict(state, name, out, err));
      }
    }

    /** The reactor fires the shutdown check, in the same way, with `ShutdownVerdict`. */
    method ShutdownCheckFires()
      requires Valid() && shutdownCheck != null
      modifies shutdownCheck.Repr
      ensures Valid()
      ensures shutdownCheck.State() ==
        TimerStep(old(shutdownCheck.State()),
          Fire(ShutdownVerdict(state, name, LogText(name, stdoutLogger.lines), LogText(name, stderrLogger.lines)))).0
      ensures startupCheck != null ==> startupCheck.State() == old(startupCheck.State())
      ensures shutdownCheck.Deferred() == old(shutdownCheck.Deferred())
    {
      if shutdownCheck.IsPending() {
        var out := stdoutLogger.GetText();
        var err := stderrLogger.GetText();
        shutdownCheck.CallIt(ShutdownVerdict(state, name, out, err));
      }
    }

    /** `stop`: a RUNNING manager becomes STOPPING and schedules a shutdown check whose
        deferred it returns; from any other state it becomes STOPPED at once, schedules
        nothing and returns a deferred that has already succeeded with a message. */
    method Stop() returns (d: Deferred)
      requires Valid()
      modifies this
      ensures Valid() && fresh(Repr - old(Repr))
      ensures state == Next(old(state), StopRequested)
      ensures command == old(command) && startupCheck == old(startupCheck)
      ensures startupCheck != null ==> startupCheck.State() == old(startupCheck.State())
      ensures stdoutLogger.lines == old(stdoutLogger.lines) && stderrLogger.lines == old(stderrLogger.lines)
      ensures old(state) == Running ==>
        fresh(shutdownCheck) && shutdownCheck.State() == JustScheduled && shutdownCheck.Deferred() == d &&
        d.result == None
      ensures old(state) != Running ==>
        shutdownCheck == old(shutdownCheck) && fresh(d) && d.result == Some(Text(StoppedAnywayMessage(old(state))))
    {
      if state == Running {
        state := Stopping;
        var check;
        check, d := ScheduledCheck();
        shutdownCheck := check;
        Repr := Repr + check.Repr;
      } else {
        var msg := StoppedAnywayMessage(state);
        state := Stopped;
        d := new Deferred.Fired(Text(msg));
      }
    }
  }
}
