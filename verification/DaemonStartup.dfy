/** The double fork of src/daemon/main.c as a state machine.

    The launcher forks a middle process, which forks the daemon.  The daemon
    reports its start-up status through `daemon_pipe2` to the middle process, which
    relays it through `daemon_pipe` to the launcher.  All three processes execute
    the same text and share the code after the label `finish`.  Every system call
    is a step, system calls may fail, and every process may crash between any two
    steps. */
module DaemonStartup {
  import opened Options

  /** The position of a process in the text. */
  datatype Pc =
    | Unborn
    | Begin
    | Piped            // pipe(daemon_pipe) done
    | Father           // launcher, after the first fork
    | ReadStatus       // launcher, reading daemon_pipe
    | Child            // middle process, after the first fork
    | Session          // about to call setsid()
    | Pipe2            // about to call pipe(daemon_pipe2)
    | Fork2            // about to fork again
    | Father2          // middle process, after the second fork
    | ReadStatus2      // middle process, reading daemon_pipe2
    | Relay            // about to write the status it has read
    | RelayClose
    | Child2           // daemon, after the second fork
    | CloseFirst       // daemon, about to close daemon_pipe
    | StartUp
    | Success          // start-up complete
    | SuccessClose
    | MainLoop
    | Finish           // the label finish
    | FinishClose
    | Exited
    | Crashed

  /** Which ends of daemon_pipe (1) and daemon_pipe2 (2) a process has open. */
  datatype Fds = Fds(read1: bool, write1: bool, read2: bool, write2: bool)

  const NO_FDS := Fds(false, false, false, false)

  datatype Process = Process(pc: Pc, fds: Fds, retval: int)

  /** `outcome`, `report` and `failed` are history: how the daemon's start-up ended,
      the status the daemon tried to write, and whether reading or writing a status
      ever failed.  `sent1` and `sent2` count the words ever put into the pipes. */
  datatype State = State(
    launcher: Process,
    middle: Process,
    daemon: Process,
    startMode: bool,
    pipe1: seq<int>,
    pipe2: seq<int>,
    sent1: nat,
    sent2: nat,
    outcome: Option<Outcome>,
    report: Option<int>,
    failed: bool)

  datatype Who = Launcher | Middle | Daemon

  datatype Outcome = Complete | AlreadyRunning | Failed

  /** `ok` decides whether a system call succeeds, `outcome` how the daemon's
      start-up ends and `code` what the main loop returns. */
  datatype Event =
    | Step(who: Who, ok: bool, outcome: Outcome, code: int)
    | Crash(who: Who)

  const UNBORN := Process(Unborn, NO_FDS, 1)

  function Init(startMode: bool): State {
    State(Process(Begin, NO_FDS, 1), UNBORN, UNBORN, startMode, [], [], 0, 0, None, None, false)
  }

  function Get(s: State, w: Who): Process {
    match w
    case Launcher => s.launcher
    case Middle => s.middle
    case Daemon => s.daemon
  }

  function Set(s: State, w: Who, p: Process): State {
    match w
    case Launcher => s.(launcher := p)
    case Middle => s.(middle := p)
    case Daemon => s.(daemon := p)
  }

  predicate Readers1(s: State) { s.launcher.fds.read1 || s.middle.fds.read1 || s.daemon.fds.read1 }
  predicate Writers1(s: State) { s.launcher.fds.write1 || s.middle.fds.write1 || s.daemon.fds.write1 }
  predicate Readers2(s: State) { s.launcher.fds.read2 || s.middle.fds.read2 || s.daemon.fds.read2 }
  predicate Writers2(s: State) { s.launcher.fds.write2 || s.middle.fds.write2 || s.daemon.fds.write2 }

  /** A write that fails, or has no reader, is lost; nobody looks at its result. */
  function Write1(s: State, v: int, ok: bool): (t: State)
    ensures t.launcher == s.launcher && t.middle == s.middle && t.daemon == s.daemon
    ensures t.startMode == s.startMode && t.outcome == s.outcome
  {
    if !ok then s.(failed := true)
    else if Readers1(s) then s.(pipe1 := s.pipe1 + [v], sent1 := s.sent1 + 1)
    else s
  }

  function Write2(s: State, w: Who, v: int, ok: bool): (t: State)
    ensures t.launcher == s.launcher && t.middle == s.middle && t.daemon == s.daemon
    ensures t.startMode == s.startMode && t.outcome == s.outcome
  {
    var s := if w.Daemon? then s.(report := Some(v)) else s;
    if !ok then s.(failed := true)
    else if Readers2(s) then s.(pipe2 := s.pipe2 + [v], sent2 := s.sent2 + 1)
    else s
  }

  predicate Alive(p: Process) {
    !p.pc.Unborn? && !p.pc.Exited? && !p.pc.Crashed?
  }

  /** A read blocks while the pipe is empty and somebody could still write, unless it
      fails. */
  predicate Enabled(s: State, e: Event) {
    var p := Get(s, e.who);
    && Alive(p)
    && (e.Step? ==>
          match p.pc
          case ReadStatus => s.pipe1 != [] || !Writers1(s) || !e.ok
          case ReadStatus2 => s.pipe2 != [] || !Writers2(s) || !e.ok
          case StartUp => e.outcome.AlreadyRunning? ==> s.startMode
          case _ => true)
  }

  /** The positions at which pipes, processes and descriptors are set up. */
  predicate IsSetup(pc: Pc) {
    pc.Begin? || pc.Piped? || pc.Father? || pc.Child? || pc.Session? || pc.Pipe2? || pc.Fork2? || pc.Father2?
    || pc.Child2? || pc.CloseFirst?
  }

  predicate IsFinish(pc: Pc) { pc.Finish? || pc.FinishClose? }

  function SetUp(s: State, e: Event): State
    requires Enabled(s, e) && e.Step? && IsSetup(Get(s, e.who).pc)
  {
    var p := Get(s, e.who);
    match p.pc
    case Begin =>
      if e.ok then Set(s, e.who, p.(pc := Piped, fds := p.fds.(read1 := true, write1 := true)))
      else Set(s, e.who, p.(pc := Finish))
    case Piped =>
      if e.ok then Set(s, e.who, p.(pc := Father)).(middle := p.(pc := Child))
      else Set(s, e.who, p.(pc := Finish, fds := p.fds.(read1 := false, write1 := false)))
    case Father =>
      Set(s, e.who, p.(pc := ReadStatus, fds := p.fds.(write1 := false)))
    case Child =>
      Set(s, e.who, p.(pc := Session, fds := p.fds.(read1 := false)))
    case Session =>
      Set(s, e.who, p.(pc := if e.ok then Pipe2 else Finish))
    case Pipe2 =>
      if e.ok then Set(s, e.who, p.(pc := Fork2, fds := p.fds.(read2 := true, write2 := true)))
      else Set(s, e.who, p.(pc := Finish))
    case Fork2 =>
      if e.ok then Set(s, e.who, p.(pc := Father2)).(daemon := p.(pc := Child2))
      else Set(s, e.who, p.(pc := Finish, fds := p.fds.(read2 := false, write2 := false)))
    case Father2 =>
      Set(s, e.who, p.(pc := ReadStatus2, fds := p.fds.(write2 := false)))
    case Child2 =>
      Set(s, e.who, p.(pc := CloseFirst, fds := p.fds.(read2 := false)))
    case CloseFirst =>
      Set(s, e.who, p.(pc := StartUp, fds := p.fds.(read1 := false, write1 := false)))
  }

  /** Starting the daemon, and passing its status on. */
  function Report(s: State, e: Event): State
    requires Enabled(s, e) && e.Step? && !IsSetup(Get(s, e.who).pc) && !IsFinish(Get(s, e.who).pc)
  {
    var p := Get(s, e.who);
    match p.pc
    case ReadStatus =>
      if !e.ok then Set(s, e.who, p.(pc := Finish, retval := 1)).(failed := true)
      else if s.pipe1 != [] then Set(s, e.who, p.(pc := Finish, retval := s.pipe1[0])).(pipe1 := s.pipe1[1..])
      else Set(s, e.who, p.(pc := Finish, retval := 1))
    case ReadStatus2 =>
      if !e.ok then Set(s, e.who, p.(pc := Relay, retval := 1)).(failed := true)
      else if s.pipe2 != [] then Set(s, e.who, p.(pc := Relay, retval := s.pipe2[0])).(pipe2 := s.pipe2[1..])
      else Set(s, e.who, p.(pc := Relay, retval := 1))
    case Relay =>
      Set(Write1(s, p.retval, e.ok), e.who, p.(pc := RelayClose))
    case RelayClose =>
      Set(s, e.who, p.(pc := Finish, fds := p.fds.(write1 := false)))
    case StartUp =>
      var q := match e.outcome
               case Complete => p.(pc := Success)
               case AlreadyRunning => p.(pc := Finish, retval := 0)
               case Failed => p.(pc := Finish);
      Set(s, e.who, q).(outcome := Some(e.outcome))
    case Success =>
      Set(if p.fds.write2 then Write2(s, e.who, 0, e.ok) else s, e.who, p.(pc := SuccessClose))
    case SuccessClose =>
      Set(s, e.who, p.(pc := MainLoop, fds := p.fds.(write2 := false), retval := 0))
    case MainLoop =>
      Set(s, e.who, p.(pc := Finish, retval := e.code))
  }

  /** The code after the label finish. */
  function Conclude(s: State, e: Event): State
    requires Enabled(s, e) && e.Step? && IsFinish(Get(s, e.who).pc)
  {
    var p := Get(s, e.who);
    match p.pc
    case Finish =>
      var t := if p.fds.write1 then Write1(s, p.retval, e.ok)
               else if p.fds.write2 then Write2(s, e.who, p.retval, e.ok)
               else s;
      Set(t, e.who, p.(pc := FinishClose))
    case FinishClose =>
      Set(s, e.who, p.(pc := Exited, fds := NO_FDS))
  }

  function Apply(s: State, e: Event): State
    requires Enabled(s, e)
  {
    var p := Get(s, e.who);
    if e.Crash? then Set(s, e.who, Process(Crashed, NO_FDS, p.retval))
    else if IsSetup(p.pc) then SetUp(s, e)
    else if IsFinish(p.pc) then Conclude(s, e)
    else Report(s, e)
  }

  ghost predicate Valid(s: State, es: seq<Event>)
    decreases |es|
  {
    es == [] || (Enabled(s, es[0]) && Valid(Apply(s, es[0]), es[1..]))
  }

  ghost function Run(s: State, es: seq<Event>): State
    requires Valid(s, es)
    decreases |es|
  {
    if es == [] then s else Run(Apply(s, es[0]), es[1..])
  }

  // ---------------------------------------------------------------- invariant

  /** Nothing the daemon does can change its report any more. */
  predicate Settled(s: State) {
    || s.report.Some?
    || s.daemon.pc.Crashed?
    || (s.daemon.pc.Unborn? && Ending(s.middle))
    || (s.middle.pc.Unborn? && Ending(s.launcher))
  }

  predicate Ending(p: Process) {
    p.pc.Finish? || p.pc.FinishClose? || p.pc.Exited? || p.pc.Crashed?
  }

  predicate Ok(s: State) {
    s.report == Some(0)
  }

  predicate LauncherInv(s: State) {
    var p := s.launcher;
    match p.pc
    case Begin => p.fds == NO_FDS && p.retval == 1 && s.middle == UNBORN
    case Piped => p.fds == Fds(true, true, false, false) && p.retval == 1 && s.middle == UNBORN
    case Father => p.fds == Fds(true, true, false, false) && p.retval == 1 && !s.middle.pc.Unborn?
    case ReadStatus => p.fds == Fds(true, false, false, false) && p.retval == 1 && !s.middle.pc.Unborn?
    case Finish => LauncherDone(s) && (p.fds == NO_FDS || p.fds == Fds(true, false, false, false))
    case FinishClose => LauncherDone(s) && (p.fds == NO_FDS || p.fds == Fds(true, false, false, false))
    case Exited => LauncherDone(s) && p.fds == NO_FDS
    case Crashed => p.fds == NO_FDS
    case _ => false
  }

  /** The way from the daemon to the launcher was cut. */
  predicate Broken(s: State) {
    s.middle.pc.Crashed? || s.failed
  }

  /** The launcher's exit code is 0 only if the daemon reported 0, and differs
      from a reported 0 only if the middle process crashed or a status got lost. */
  predicate LauncherDone(s: State) {
    && (Settled(s) || Broken(s))
    && (s.launcher.retval == 0 ==> Ok(s))
    && (Ok(s) && s.launcher.retval != 0 ==> Broken(s))
  }

  predicate MiddleInv(s: State) {
    var p := s.middle;
    match p.pc
    case Unborn => p == UNBORN && s.daemon == UNBORN && s.sent1 == 0
    case Child => p.fds == Fds(true, true, false, false) && p.retval == 1 && s.daemon == UNBORN && s.sent1 == 0
    case Session => p.fds == Fds(false, true, false, false) && p.retval == 1 && s.daemon == UNBORN && s.sent1 == 0
    case Pipe2 => p.fds == Fds(false, true, false, false) && p.retval == 1 && s.daemon == UNBORN && s.sent1 == 0
    case Fork2 => p.fds == Fds(false, true, true, true) && p.retval == 1 && s.daemon == UNBORN && s.sent1 == 0
    case Father2 => p.fds == Fds(false, true, true, true) && p.retval == 1 && !s.daemon.pc.Unborn? && s.sent1 == 0
                    && Unread2(s)
    case ReadStatus2 => p.fds == Fds(false, true, true, false) && p.retval == 1 && !s.daemon.pc.Unborn? && s.sent1 == 0
                        && Unread2(s)
    case Relay => p.fds == Fds(false, true, true, false) && Relayed(s) && s.sent1 == 0
    case RelayClose => p.fds == Fds(false, true, true, false) && Relayed(s)
    case Finish => (|| (p.fds == Fds(false, false, true, false) && Relayed(s))
                    || (p.fds == Fds(false, true, false, false) && p.retval == 1 && s.daemon == UNBORN && s.sent1 == 0))
    case FinishClose => (|| (p.fds == Fds(false, false, true, false) && Relayed(s))
                         || (p.fds == Fds(false, true, false, false) && p.retval == 1 && s.daemon == UNBORN))
    case Exited => p.fds == NO_FDS
    case Crashed => p.fds == NO_FDS
    case _ => false
  }

  /** What the daemon reported waits unread in daemon_pipe2, unless it got lost. */
  predicate Unread2(s: State) {
    if s.report.Some? then s.pipe2 == [s.report.value] || (s.failed && s.pipe2 == [])
    else s.pipe2 == [] && s.sent2 == 0
  }

  /** The middle process knows how the daemon fared. */
  predicate Relayed(s: State) {
    && !s.daemon.pc.Unborn?
    && (Settled(s) || s.failed)
    && (s.middle.retval == 0 ==> Ok(s))
    && (Ok(s) && s.middle.retval != 0 ==> s.failed)
  }

  /** A report of 0 means a completed start-up, or a daemon found running already
      by --start. */
  predicate ReportInv(s: State) {
    s.report.Some? ==>
      && s.outcome.Some?
      && (s.report.value == 0 <==> !s.outcome.value.Failed?)
      && (s.outcome.value.AlreadyRunning? ==> s.startMode)
  }

  predicate DaemonInv(s: State) {
    var p := s.daemon;
    ReportInv(s) &&
    match p.pc
    case Unborn => p == UNBORN && s.report.None? && s.sent2 == 0
    case Child2 => p.fds == Fds(false, true, true, true) && p.retval == 1 && s.report.None? && s.sent2 == 0
    case CloseFirst => p.fds == Fds(false, true, false, true) && p.retval == 1 && s.report.None? && s.sent2 == 0
    case StartUp => p.fds == Fds(false, false, false, true) && p.retval == 1 && s.report.None? && s.sent2 == 0
    case Success => p.fds == Fds(false, false, false, true) && s.report.None? && s.sent2 == 0
      && s.outcome == Some(Complete)
    case SuccessClose => p.fds == Fds(false, false, false, true) && Ok(s)
    case MainLoop => p.fds == NO_FDS && Ok(s)
    case Finish => (|| (&& p.fds == Fds(false, false, false, true) && s.report.None? && s.sent2 == 0
                        && (|| (s.outcome == Some(AlreadyRunning) && s.startMode && p.retval == 0)
                            || (s.outcome == Some(Failed) && p.retval == 1)))
                    || (p.fds == NO_FDS && Ok(s)))
    case FinishClose => s.report.Some? && (p.fds == NO_FDS || p.fds == Fds(false, false, false, true))
    case Exited => p.fds == NO_FDS && s.report.Some?
    case Crashed => p.fds == NO_FDS
    case _ => false
  }

  predicate PipesInv(s: State) {
    && s.sent1 <= 1 && s.sent2 <= 1 && |s.pipe1| <= s.sent1 && |s.pipe2| <= s.sent2
    && (s.sent1 == 1 ==> Settled(s) || s.failed)
    && (forall i :: 0 <= i < |s.pipe1| ==> (s.pipe1[i] == 0 ==> Ok(s)) && (Ok(s) && s.pipe1[i] != 0 ==> s.failed))
  }

  /** The middle process has got past its write to daemon_pipe. */
  predicate WroteStatus(p: Process) {
    p.pc.RelayClose? || p.pc.FinishClose? || p.pc.Exited? || (p.pc.Finish? && !p.fds.write1)
  }

  /** While the launcher waits, its word is unread, or still to come, or lost, or the
      middle process died. */
  predicate WaitInv(s: State) {
    s.launcher.pc.Father? || s.launcher.pc.ReadStatus? ==>
      && s.launcher.fds.read1
      && s.sent1 == |s.pipe1|
      && (WroteStatus(s.middle) ==> s.sent1 == 1 || s.failed)
  }

  predicate Inv(s: State) {
    LauncherInv(s) && MiddleInv(s) && DaemonInv(s) && PipesInv(s) && WaitInv(s)
  }

  // ---------------------------------------------- the invariant under one step

  /** What has been settled stays so. */
  predicate Stable(s: State, t: State) {
    (s.failed ==> t.failed) && (Settled(s) ==> Settled(t) && Ok(s) == Ok(t)) && (Ok(s) ==> Ok(t))
  }

  lemma FrameLauncher(s: State, t: State)
    requires LauncherInv(s) && Stable(s, t) && t.launcher == s.launcher
    requires || t.middle == s.middle
             || (!s.middle.pc.Unborn? && !t.middle.pc.Unborn? && (s.middle.pc.Crashed? ==> t.middle.pc.Crashed?))
    requires Ok(t) && !Ok(s) && Ending(s.launcher) && !s.launcher.pc.Crashed? ==> Broken(s)
    ensures LauncherInv(t)
  {
  }

  lemma FrameMiddle(s: State, t: State)
    requires MiddleInv(s) && Stable(s, t) && t.middle == s.middle
    requires s.sent1 == t.sent1
    requires if s.daemon == UNBORN then t.daemon == UNBORN else !t.daemon.pc.Unborn?
    requires !s.daemon.pc.Unborn? ==> !t.daemon.pc.Unborn?
    requires s.middle.fds.read2 && Unread2(s) ==> Unread2(t)
    ensures MiddleInv(t)
  {
  }

  lemma FrameDaemon(s: State, t: State)
    requires DaemonInv(s) && t.daemon == s.daemon && t.report == s.report && t.sent2 == s.sent2
    requires t.startMode == s.startMode && t.outcome == s.outcome
    ensures DaemonInv(t)
  {
  }

  lemma LauncherStep(s: State, e: Event)
    requires Inv(s) && Enabled(s, e) && e.who.Launcher?
    ensures Inv(Apply(s, e))
  {
    var t := Apply(s, e);
    LauncherOwn(s, e);
    hide LauncherInv, MiddleInv, DaemonInv, PipesInv, WaitInv;
    FrameDaemon(s, t);
    if t.middle == s.middle {
      FrameMiddle(s, t);
    }
  }

  predicate LauncherGoal(s: State, t: State) {
    && Stable(s, t) && LauncherInv(t) && PipesInv(t) && WaitInv(t)
    && (t.middle != s.middle ==> MiddleInv(t))
    && t.daemon == s.daemon && t.report == s.report && t.sent2 == s.sent2 && t.sent1 == s.sent1
    && t.pipe2 == s.pipe2 && t.startMode == s.startMode && t.outcome == s.outcome
  }

  lemma LauncherOwn(s: State, e: Event)
    requires Inv(s) && Enabled(s, e) && e.who.Launcher?
    ensures LauncherGoal(s, Apply(s, e))
  {
    if e.Crash? {
      LauncherCrash(s, e);
    } else if s.launcher.pc.ReadStatus? {
      LauncherReads(s, e);
    } else if s.launcher.pc.Piped? {
      LauncherForks(s, e);
    } else if IsFinish(s.launcher.pc) {
      LauncherEnds(s, e);
    } else {
      LauncherMoves(s, e);
    }
  }

  lemma LauncherCrash(s: State, e: Event)
    requires Inv(s) && Enabled(s, e) && e.who.Launcher? && e.Crash?
    ensures LauncherGoal(s, Apply(s, e))
  {
    hide DaemonInv, MiddleInv;
  }

  lemma LauncherReads(s: State, e: Event)
    requires Inv(s) && Enabled(s, e) && e.who.Launcher? && e.Step? && s.launcher.pc.ReadStatus?
    ensures LauncherGoal(s, Apply(s, e))
  {
    hide DaemonInv;
  }

  lemma LauncherForks(s: State, e: Event)
    requires Inv(s) && Enabled(s, e) && e.who.Launcher? && e.Step? && s.launcher.pc.Piped?
    ensures LauncherGoal(s, Apply(s, e))
  {
    MiddleReads(s);
    assert s.middle == UNBORN ==> s.daemon == UNBORN && s.sent1 == 0;
    hide DaemonInv, MiddleInv;
    if e.ok {
      MiddleIsBorn(Apply(s, e));
    }
  }

  lemma LauncherMoves(s: State, e: Event)
    requires Inv(s) && Enabled(s, e) && e.who.Launcher? && e.Step? && (s.launcher.pc.Begin? || s.launcher.pc.Father?)
    ensures LauncherGoal(s, Apply(s, e))
  {
    hide Report, Conclude;
    MiddleReads(s);
    assert s.middle == UNBORN ==> s.daemon == UNBORN && s.sent1 == 0;
    hide DaemonInv, MiddleInv;
  }

  lemma LauncherEnds(s: State, e: Event)
    requires Inv(s) && Enabled(s, e) && e.who.Launcher? && e.Step? && IsFinish(s.launcher.pc)
    ensures LauncherGoal(s, Apply(s, e))
  {
    hide Report, SetUp;
    MiddleReads(s);
    assert s.middle == UNBORN ==> s.daemon == UNBORN && s.sent1 == 0;
    hide DaemonInv, MiddleInv;
  }

  lemma MiddleIsBorn(t: State)
    requires t.middle == Process(Child, Fds(true, true, false, false), 1) && t.daemon == UNBORN && t.sent1 == 0
    ensures MiddleInv(t)
  {
  }

  lemma MiddleStep(s: State, e: Event)
    requires Inv(s) && Enabled(s, e) && e.who.Middle?
    ensures Inv(Apply(s, e))
  {
    var t := Apply(s, e);
    MiddleOwn(s, e);
    hide LauncherInv, MiddleInv, DaemonInv, PipesInv, WaitInv;
    FrameLauncher(s, t);
    if t.daemon == s.daemon {
      FrameDaemon(s, t);
    }
  }

  predicate MiddleGoal(s: State, t: State) {
    && Stable(s, t) && MiddleInv(t) && PipesInv(t) && WaitInv(t)
    && (t.daemon != s.daemon ==> DaemonInv(t))
    && t.launcher == s.launcher && !t.middle.pc.Unborn? && !s.middle.pc.Unborn? && !s.middle.pc.Crashed?
    && t.report == s.report && t.sent2 == s.sent2 && t.startMode == s.startMode && t.outcome == s.outcome
  }

  lemma MiddleOwn(s: State, e: Event)
    requires Inv(s) && Enabled(s, e) && e.who.Middle?
    ensures MiddleGoal(s, Apply(s, e))
  {
    var early := s.middle.pc.Child? || s.middle.pc.Session? || s.middle.pc.Pipe2? || s.middle.pc.Fork2?;
    if e.Crash? {
      MiddleCrash(s, e);
    } else if early {
      MiddleEarly(s, e);
    } else if s.middle.pc.Finish? {
      MiddleEnding(s, e);
    } else if s.middle.pc.FinishClose? {
      MiddleClosing(s, e);
    } else if s.middle.pc.Father2? || s.middle.pc.ReadStatus2? {
      MiddleWaiting(s, e);
    } else {
      MiddleRelays(s, e);
    }
  }

  lemma MiddleCrash(s: State, e: Event)
    requires Inv(s) && Enabled(s, e) && e.who.Middle? && e.Crash?
    ensures MiddleGoal(s, Apply(s, e))
  {
    hide DaemonInv, LauncherInv;
  }

  lemma MiddleEarly(s: State, e: Event)
    requires Inv(s) && Enabled(s, e) && e.who.Middle? && e.Step?
    requires s.middle.pc.Child? || s.middle.pc.Session? || s.middle.pc.Pipe2? || s.middle.pc.Fork2?
    ensures MiddleGoal(s, Apply(s, e))
  {
    hide Report, Conclude;
    MiddleReads(s);
    hide LauncherInv;
  }

  lemma MiddleWaiting(s: State, e: Event)
    requires Inv(s) && Enabled(s, e) && e.who.Middle? && e.Step?
    requires s.middle.pc.Father2? || s.middle.pc.ReadStatus2?
    ensures MiddleGoal(s, Apply(s, e))
  {
    MiddleReads(s);
    hide DaemonInv, LauncherInv;
  }

  lemma MiddleRelays(s: State, e: Event)
    requires Inv(s) && Enabled(s, e) && e.who.Middle? && e.Step? && (s.middle.pc.Relay? || s.middle.pc.RelayClose?)
    ensures MiddleGoal(s, Apply(s, e))
  {
    MiddleReads(s);
    hide DaemonInv, LauncherInv;
  }

  lemma MiddleEnding(s: State, e: Event)
    requires Inv(s) && Enabled(s, e) && e.who.Middle? && e.Step? && s.middle.pc.Finish?
    ensures MiddleGoal(s, Apply(s, e))
  {
    hide SetUp, Report;
    MiddleReads(s);
    hide DaemonInv, LauncherInv;
  }

  lemma MiddleClosing(s: State, e: Event)
    requires Inv(s) && Enabled(s, e) && e.who.Middle? && e.Step? && s.middle.pc.FinishClose?
    ensures MiddleGoal(s, Apply(s, e))
  {
    hide SetUp, Report, Write1, Write2;
    MiddleReads(s);
    hide DaemonInv, LauncherInv;
  }

  /** The middle process sees the end of daemon_pipe2 only after the daemon died
      without a report, or its report got lost. */
  lemma MiddleReads(s: State)
    requires Inv(s)
    ensures s.middle.pc.ReadStatus2? && s.pipe2 == [] && !Writers2(s) ==>
              s.failed || (s.daemon.pc.Crashed? && s.report.None?)
    ensures s.middle.pc.ReadStatus2? && s.pipe2 != [] ==> s.report == Some(s.pipe2[0])
    ensures s.daemon == UNBORN ==> s.report.None? && s.sent2 == 0
    ensures s.launcher.pc.Begin? || s.launcher.pc.Piped? ==> s.middle == UNBORN
  {
    hide PipesInv;
  }

  lemma DaemonStep(s: State, e: Event)
    requires Inv(s) && Enabled(s, e) && e.who.Daemon?
    ensures Inv(Apply(s, e))
  {
    var t := Apply(s, e);
    DaemonOwn(s, e);
    hide LauncherInv, MiddleInv, DaemonInv, PipesInv, WaitInv;
    FrameLauncher(s, t);
    FrameMiddle(s, t);
  }

  predicate DaemonGoal(s: State, t: State) {
    && Stable(s, t) && DaemonInv(t) && PipesInv(t) && WaitInv(t)
    && t.launcher == s.launcher && t.middle == s.middle && t.sent1 == s.sent1
    && s.daemon != UNBORN && !s.daemon.pc.Unborn? && !t.daemon.pc.Unborn?
    && (s.middle.fds.read2 && Unread2(s) ==> Unread2(t))
    && (Ok(t) && !Ok(s) && Ending(s.launcher) && !s.launcher.pc.Crashed? ==> Broken(s))
  }

  lemma DaemonOwn(s: State, e: Event)
    requires Inv(s) && Enabled(s, e) && e.who.Daemon?
    ensures DaemonGoal(s, Apply(s, e))
  {
    if e.Crash? {
      DaemonCrash(s, e);
    } else if s.daemon.pc.Success? {
      DaemonReports(s, e);
    } else if s.daemon.pc.Finish? {
      DaemonFinishes(s, e);
    } else if s.daemon.pc.Child2? || s.daemon.pc.CloseFirst? || s.daemon.pc.StartUp? {
      DaemonStarts(s, e);
    } else {
      DaemonQuiet(s, e);
    }
  }

  lemma DaemonCrash(s: State, e: Event)
    requires Inv(s) && Enabled(s, e) && e.who.Daemon? && e.Crash?
    ensures DaemonGoal(s, Apply(s, e))
  {
    hide MiddleInv, LauncherInv;
  }

  lemma DaemonStarts(s: State, e: Event)
    requires Inv(s) && Enabled(s, e) && e.who.Daemon? && e.Step?
    requires s.daemon.pc.Child2? || s.daemon.pc.CloseFirst? || s.daemon.pc.StartUp?
    ensures DaemonGoal(s, Apply(s, e))
  {
    hide MiddleInv, LauncherInv;
  }

  lemma DaemonQuiet(s: State, e: Event)
    requires Inv(s) && Enabled(s, e) && e.who.Daemon? && e.Step?
    requires s.daemon.pc.SuccessClose? || s.daemon.pc.MainLoop? || s.daemon.pc.FinishClose?
    ensures DaemonGoal(s, Apply(s, e))
  {
    hide MiddleInv, LauncherInv;
  }

  lemma DaemonReports(s: State, e: Event)
    requires Inv(s) && Enabled(s, e) && e.who.Daemon? && e.Step? && s.daemon.pc.Success?
    ensures DaemonGoal(s, Apply(s, e))
  {
    assert Ending(s.launcher) && !s.launcher.pc.Crashed? ==> Settled(s) || Broken(s);
    hide MiddleInv, LauncherInv, SetUp, Conclude;
  }

  lemma DaemonFinishes(s: State, e: Event)
    requires Inv(s) && Enabled(s, e) && e.who.Daemon? && e.Step? && s.daemon.pc.Finish?
    ensures DaemonGoal(s, Apply(s, e))
  {
    assert Ending(s.launcher) && !s.launcher.pc.Crashed? ==> Settled(s) || Broken(s);
    if s.daemon.fds.write2 {
      hide MiddleInv, LauncherInv;
      DaemonFinishesWriting(s, e);
    } else {
      hide SetUp, Report, MiddleInv, LauncherInv;
    }
  }

  lemma DaemonFinishesWriting(s: State, e: Event)
    requires Inv(s) && Enabled(s, e) && e.who.Daemon? && e.Step? && s.daemon.pc.Finish? && s.daemon.fds.write2
    requires Ending(s.launcher) && !s.launcher.pc.Crashed? ==> Settled(s) || Broken(s)
    ensures DaemonGoal(s, Apply(s, e))
  {
    hide SetUp, Report, Write1, LauncherInv;
    assert !s.middle.pc.Unborn?;
    hide MiddleInv;
    assert !s.daemon.fds.write1 && !s.daemon.fds.read1 && !s.daemon.fds.read2;
  }

  /** Every step and every crash keeps the invariant. */
  lemma StepKeepsInv(s: State, e: Event)
    requires Inv(s) && Enabled(s, e)
    ensures Inv(Apply(s, e))
  {
    match e.who
    case Launcher => LauncherStep(s, e);
    case Middle => MiddleStep(s, e);
    case Daemon => DaemonStep(s, e);
  }

  lemma {:induction false} RunKeepsInv(s: State, es: seq<Event>)
    requires Inv(s) && Valid(s, es)
    ensures Inv(Run(s, es))
    decreases |es|
  {
    hide Inv;
    if es != [] {
      StepKeepsInv(s, es[0]);
      RunKeepsInv(Apply(s, es[0]), es[1..]);
    }
  }

  // ------------------------------------------------- where a status can get lost

  /** The middle process has not read the daemon's status yet. */
  predicate Unaware(p: Process) {
    p.pc.Child? || p.pc.Session? || p.pc.Pipe2? || p.pc.Fork2? || p.pc.Father2? || p.pc.ReadStatus2?
  }

  /** While the launcher waits, a 0 on its way to it has met no failure. */
  predicate OnItsWay(s: State) {
    && (s.middle.pc.Unborn? ==> !s.failed)
    && (Unaware(s.middle) && s.failed ==> s.report.Some? && s.pipe2 == [])
    && (s.middle.pc.Relay? && s.middle.retval == 0 ==> !s.failed)
    && (0 in s.pipe1 ==> !s.failed)
  }

  /** A 0 arrived after no failure at all; any other status hides a reported 0 only
      after a failure, or because the middle process crashed before it had written. */
  predicate Arrived(s: State) {
    && (s.launcher.retval == 0 ==> !s.failed && s.sent1 == 1)
    && (s.launcher.retval != 0 && !s.failed && Ok(s) ==> s.middle.pc.Crashed? && s.sent1 == 0)
  }

  predicate Traced(s: State) {
    if s.launcher.pc.Crashed? then true else if Ending(s.launcher) then Arrived(s) else OnItsWay(s)
  }

  lemma LauncherTraced(s: State, e: Event)
    requires Inv(s) && Traced(s) && Enabled(s, e) && e.who.Launcher?
    ensures Traced(Apply(s, e))
  {
  }

  lemma MiddleTraced(s: State, e: Event)
    requires Inv(s) && Traced(s) && Enabled(s, e) && e.who.Middle?
    ensures Traced(Apply(s, e))
  {
    if e.Crash? || IsSetup(s.middle.pc) {
      hide Report, Conclude, DaemonInv;
    } else if IsFinish(s.middle.pc) {
      MiddleEndTraced(s, e);
    } else {
      MiddleReportTraced(s, e);
    }
  }

  lemma MiddleEndTraced(s: State, e: Event)
    requires Inv(s) && Traced(s) && Enabled(s, e) && e.who.Middle? && e.Step? && IsFinish(s.middle.pc)
    ensures Traced(Apply(s, e))
  {
    hide SetUp, Report;
    MiddleReads(s);
    hide DaemonInv;
  }

  lemma MiddleReportTraced(s: State, e: Event)
    requires Inv(s) && Traced(s) && Enabled(s, e) && e.who.Middle? && e.Step?
    requires s.middle.pc.ReadStatus2? || s.middle.pc.Relay? || s.middle.pc.RelayClose?
    ensures Traced(Apply(s, e))
  {
    hide SetUp, Conclude;
    MiddleReads(s);
    hide DaemonInv;
  }

  lemma DaemonTraced(s: State, e: Event)
    requires Inv(s) && Traced(s) && Enabled(s, e) && e.who.Daemon?
    ensures Traced(Apply(s, e))
  {
    if e.Step? && (s.daemon.pc.Success? || s.daemon.pc.Finish?) {
      DaemonReportTraced(s, e);
    } else {
      hide LauncherInv;
    }
  }

  lemma DaemonReportTraced(s: State, e: Event)
    requires Inv(s) && Traced(s) && Enabled(s, e) && e.who.Daemon? && e.Step?
    requires s.daemon.pc.Success? || s.daemon.pc.Finish?
    ensures Traced(Apply(s, e))
  {
    hide SetUp;
  }

  lemma {:induction false} RunTraced(s: State, es: seq<Event>)
    requires Inv(s) && Traced(s) && Valid(s, es)
    ensures Traced(Run(s, es))
    decreases |es|
  {
    hide Inv, Traced;
    if es != [] {
      StepKeepsInv(s, es[0]);
      match es[0].who {
        case Launcher => LauncherTraced(s, es[0]);
        case Middle => MiddleTraced(s, es[0]);
        case Daemon => DaemonTraced(s, es[0]);
      }
      RunTraced(Apply(s, es[0]), es[1..]);
    }
  }

  /** Every status on its way to the launcher is 0 or 1. */
  predicate IsStatus(v: int) { v == 0 || v == 1 }

  predicate Binary(s: State) {
    && IsStatus(s.launcher.retval) && IsStatus(s.middle.retval)
    && (s.report.Some? ==> IsStatus(s.report.value))
    && (forall i :: 0 <= i < |s.pipe1| ==> IsStatus(s.pipe1[i]))
    && (forall i :: 0 <= i < |s.pipe2| ==> IsStatus(s.pipe2[i]))
  }

  lemma LauncherBinary(s: State, e: Event)
    requires Inv(s) && Binary(s) && Enabled(s, e) && e.who.Launcher?
    ensures Binary(Apply(s, e))
  {
    if e.Step? && IsFinish(s.launcher.pc) {
      assert !s.launcher.fds.write1 && !s.launcher.fds.write2;
      hide Inv, SetUp, Report, Write1, Write2;
    } else if e.Step? && !IsSetup(s.launcher.pc) {
      assert s.launcher.pc.ReadStatus?;
      hide Inv, SetUp, Conclude, Write1, Write2;
    } else {
      hide Inv, Report, Conclude;
    }
  }

  lemma MiddleBinary(s: State, e: Event)
    requires Inv(s) && Binary(s) && Enabled(s, e) && e.who.Middle?
    ensures Binary(Apply(s, e))
  {
    hide Inv;
    if e.Step? && IsFinish(s.middle.pc) {
      MiddleEndBinary(s, e);
    } else if e.Step? && !IsSetup(s.middle.pc) {
      MiddleReportBinary(s, e);
    } else {
      hide Report, Conclude;
    }
  }

  lemma MiddleEndBinary(s: State, e: Event)
    requires Binary(s) && Enabled(s, e) && e.who.Middle? && e.Step? && IsFinish(s.middle.pc)
    ensures Binary(Apply(s, e))
  {
    hide SetUp, Report;
  }

  lemma MiddleReportBinary(s: State, e: Event)
    requires Inv(s) && Binary(s) && Enabled(s, e) && e.who.Middle? && e.Step?
    requires !IsFinish(s.middle.pc) && !IsSetup(s.middle.pc)
    ensures Binary(Apply(s, e))
  {
    assert s.middle.pc.ReadStatus2? || s.middle.pc.Relay? || s.middle.pc.RelayClose?;
    hide Inv, SetUp, Conclude;
  }

  lemma DaemonBinary(s: State, e: Event)
    requires Inv(s) && Binary(s) && Enabled(s, e) && e.who.Daemon?
    ensures Binary(Apply(s, e))
  {
    assert DaemonInv(s);
    hide Inv;
    if e.Step? && IsFinish(s.daemon.pc) {
      DaemonEndBinary(s, e);
    } else if e.Step? && !IsSetup(s.daemon.pc) {
      hide SetUp, Conclude;
    } else {
      hide Report, Conclude;
    }
  }

  lemma DaemonEndBinary(s: State, e: Event)
    requires DaemonInv(s) && Binary(s) && Enabled(s, e) && e.who.Daemon? && e.Step? && IsFinish(s.daemon.pc)
    ensures Binary(Apply(s, e))
  {
    hide SetUp, Report;
  }

  lemma {:induction false} RunBinary(s: State, es: seq<Event>)
    requires Inv(s) && Binary(s) && Valid(s, es)
    ensures Binary(Run(s, es))
    decreases |es|
  {
    hide Inv, Binary;
    if es != [] {
      StepKeepsInv(s, es[0]);
      match es[0].who {
        case Launcher => LauncherBinary(s, es[0]);
        case Middle => MiddleBinary(s, es[0]);
        case Daemon => DaemonBinary(s, es[0]);
      }
      RunBinary(Apply(s, es[0]), es[1..]);
    }
  }

  // ------------------------------------------------------------- main results

  /** In every interleaving, with any failures and crashes, each pipe carries at
      most one status word. */
  lemma OneWordPerPipe(startMode: bool, es: seq<Event>)
    requires Valid(Init(startMode), es)
    ensures var s := Run(Init(startMode), es); s.sent1 <= 1 && s.sent2 <= 1
  {
    RunKeepsInv(Init(startMode), es);
  }

  /** The launcher exits with 0 only if the daemon reported 0, which means that its
      start-up completed or that --start found a running daemon.  It hides a reported 0 if
      and only if reading or writing a status failed, or the middle process crashed before
      it had written one. */
  lemma ExitCodeIsTruthful(startMode: bool, es: seq<Event>)
    requires Valid(Init(startMode), es)
    requires Run(Init(startMode), es).launcher.pc.Exited?
    ensures var s := Run(Init(startMode), es);
            && (s.launcher.retval == 0 ==>
                  && s.report == Some(0)
                  && (s.outcome == Some(Complete) || (s.outcome == Some(AlreadyRunning) && startMode)))
            && (s.report == Some(0) ==>
                  (s.launcher.retval != 0 <==> s.failed || (s.middle.pc.Crashed? && s.sent1 == 0)))
  {
    RunKeepsInv(Init(startMode), es);
    RunTraced(Init(startMode), es);
    StartModeStays(Init(startMode), es);
  }

  /** A launcher that exits returns 0 or 1.  Unless reading or writing a status failed or
      the middle process crashed, it returns the status that the daemon reported, and 1 if
      the daemon reported none. */
  lemma StatusIsPassedOn(startMode: bool, es: seq<Event>)
    requires Valid(Init(startMode), es)
    requires Run(Init(startMode), es).launcher.pc.Exited?
    ensures var s := Run(Init(startMode), es);
            && IsStatus(s.launcher.retval)
            && (!s.failed && !s.middle.pc.Crashed? ==>
                  s.launcher.retval == if s.report.Some? then s.report.value else 1)
  {
    ExitCodeIsTruthful(startMode, es);
    RunBinary(Init(startMode), es);
    hide Valid, Run;
  }

  /** A system call of the set-up that is looked at fails. */
  predicate FailsSetUp(s: State, e: Event) {
    var pc := Get(s, e.who).pc;
    e.Step? && !e.ok && (pc.Begin? || pc.Piped? || pc.Session? || pc.Pipe2? || pc.Fork2?)
  }

  /** There is no daemon and there will be none. */
  predicate Doomed(s: State) {
    s.daemon == UNBORN && s.report.None? && (Ending(s.middle) || (s.middle == UNBORN && Ending(s.launcher)))
  }

  lemma FailureDooms(s: State, e: Event)
    requires Inv(s) && Enabled(s, e) && FailsSetUp(s, e)
    ensures Doomed(Apply(s, e))
  {
    MiddleReads(s);
    hide Report, Conclude, PipesInv, WaitInv;
  }

  lemma StaysDoomed(s: State, e: Event)
    requires Inv(s) && Enabled(s, e) && Doomed(s)
    ensures Doomed(Apply(s, e))
  {
    if e.who.Launcher? {
      hide MiddleInv, DaemonInv, PipesInv, WaitInv;
      if e.Step? && IsFinish(s.launcher.pc) {
        hide SetUp, Report;
      } else if e.Step? && IsSetup(s.launcher.pc) {
        hide Report, Conclude;
      } else {
        hide SetUp, Conclude;
      }
    } else {
      hide LauncherInv, DaemonInv, PipesInv, WaitInv, SetUp, Report;
    }
  }

  lemma {:induction false} RunStaysDoomed(s: State, es: seq<Event>)
    requires Inv(s) && Valid(s, es) && Doomed(s)
    ensures Doomed(Run(s, es))
    decreases |es|
  {
    hide Inv, Doomed;
    if es != [] {
      StepKeepsInv(s, es[0]);
      StaysDoomed(s, es[0]);
      RunStaysDoomed(Apply(s, es[0]), es[1..]);
    }
  }

  lemma {:induction false} RunTwice(s: State, es: seq<Event>, fs: seq<Event>)
    requires Valid(s, es) && Valid(Run(s, es), fs)
    ensures Valid(s, es + fs) && Run(s, es + fs) == Run(Run(s, es), fs)
    decreases |es|
  {
    hide Enabled, Apply;
    if es == [] {
      assert es + fs == fs;
    } else {
      assert (es + fs)[1..] == es[1..] + fs;
      RunTwice(Apply(s, es[0]), es[1..], fs);
    }
  }

  /** If a system call of the set-up fails no daemon is started, and a launcher that exits
      returns 1. */
  lemma FailedSetUpIsReported(startMode: bool, es: seq<Event>, e: Event, fs: seq<Event>)
    requires Valid(Init(startMode), es) && Enabled(Run(Init(startMode), es), e)
    requires FailsSetUp(Run(Init(startMode), es), e) && Valid(Apply(Run(Init(startMode), es), e), fs)
    ensures var t := Run(Apply(Run(Init(startMode), es), e), fs);
            t.daemon.pc.Unborn? && (t.launcher.pc.Exited? ==> t.launcher.retval == 1)
  {
    var i := Init(startMode);
    var s := Run(i, es);
    RunKeepsInv(i, es);
    StepKeepsInv(s, e);
    FailureDooms(s, e);
    RunStaysDoomed(Apply(s, e), fs);
    Append(i, es, e);
    RunTwice(i, es + [e], fs);
    hide Inv, Enabled, Apply, Valid, Run, FailsSetUp;
    if Run(Apply(s, e), fs).launcher.pc.Exited? {
      StatusIsPassedOn(startMode, es + [e] + fs);
      ExitCodeIsTruthful(startMode, es + [e] + fs);
    }
  }

  lemma {:induction false} StartModeStays(s: State, es: seq<Event>)
    requires Valid(s, es)
    ensures Run(s, es).startMode == s.startMode
    decreases |es|
  {
    hide Enabled, Apply;
    if es != [] {
      StartModeStep(s, es[0]);
      StartModeStays(Apply(s, es[0]), es[1..]);
    }
  }

  lemma StartModeStep(s: State, e: Event)
    requires Enabled(s, e)
    ensures Apply(s, e).startMode == s.startMode
  {
    hide Write1, Write2, Writers1, Writers2;
  }

  /** How many steps a process can still take. */
  function Rank(pc: Pc): nat {
    match pc
    case Unborn => 30
    case Begin => 22
    case Piped => 21
    case Father => 20
    case ReadStatus => 19
    case Child => 18
    case Session => 17
    case Pipe2 => 16
    case Fork2 => 15
    case Father2 => 14
    case ReadStatus2 => 13
    case Relay => 12
    case RelayClose => 11
    case Child2 => 10
    case CloseFirst => 9
    case StartUp => 8
    case Success => 7
    case SuccessClose => 6
    case MainLoop => 5
    case Finish => 4
    case FinishClose => 3
    case Exited => 0
    case Crashed => 0
  }

  function TotalRank(s: State): nat {
    Rank(s.launcher.pc) + Rank(s.middle.pc) + Rank(s.daemon.pc)
  }

  lemma StepsRunOut(s: State, e: Event)
    requires Inv(s) && Enabled(s, e)
    ensures TotalRank(Apply(s, e)) < TotalRank(s)
  {
    ForksComeFirst(s);
    hide Inv, SetUp, Report, Conclude, Lowers, Rank, Enabled;
    if e.Crash? {
      CrashRank(s, e);
    } else if IsSetup(Get(s, e.who).pc) {
      SetUpRank(s, e);
    } else if IsFinish(Get(s, e.who).pc) {
      ConcludeRank(s, e);
    } else {
      ReportRank(s, e);
    }
    LowersTotal(s, Apply(s, e), e.who);
  }

  lemma CrashRank(s: State, e: Event)
    requires Enabled(s, e) && e.Crash?
    ensures Lowers(s, Apply(s, e), e.who)
  {
  }

  /** The process that moves gets a smaller rank; the others stay where they are, but for
      the child that a fork gives birth to. */
  ghost predicate Lowers(s: State, t: State, w: Who) {
    && Rank(Get(t, w).pc) < Rank(Get(s, w).pc)
    && forall v :: v != w ==> Rank(Get(t, v).pc) <= Rank(Get(s, v).pc)
  }

  lemma SetUpRank(s: State, e: Event)
    requires Enabled(s, e) && e.Step? && IsSetup(Get(s, e.who).pc)
    requires Get(s, e.who).pc.Piped? ==> e.who.Launcher? && s.middle.pc.Unborn?
    requires Get(s, e.who).pc.Fork2? ==> e.who.Middle? && s.daemon.pc.Unborn?
    ensures Lowers(s, SetUp(s, e), e.who)
  {
    if Get(s, e.who).pc.Piped? || Get(s, e.who).pc.Fork2? {
      ForkRank(s, e);
    } else {
      hide Enabled;
    }
  }

  lemma ForkRank(s: State, e: Event)
    requires Enabled(s, e) && e.Step?
    requires || (Get(s, e.who).pc.Piped? && e.who.Launcher? && s.middle.pc.Unborn?)
             || (Get(s, e.who).pc.Fork2? && e.who.Middle? && s.daemon.pc.Unborn?)
    ensures Lowers(s, SetUp(s, e), e.who)
  {
    hide Enabled;
  }

  lemma ReportRank(s: State, e: Event)
    requires Enabled(s, e) && e.Step? && !IsSetup(Get(s, e.who).pc) && !IsFinish(Get(s, e.who).pc)
    ensures Lowers(s, Report(s, e), e.who)
  {
    hide Report, Lowers, Enabled;
    if Get(s, e.who).pc.ReadStatus? || Get(s, e.who).pc.ReadStatus2? {
      ReadRank(s, e);
    } else {
      OtherRank(s, e);
    }
  }

  lemma ReadRank(s: State, e: Event)
    requires Enabled(s, e) && e.Step? && (Get(s, e.who).pc.ReadStatus? || Get(s, e.who).pc.ReadStatus2?)
    ensures Lowers(s, Report(s, e), e.who)
  {
    hide Readers1, Readers2, Writers1, Writers2, Write1, Write2;
    match e.who
    case Launcher =>
    case Middle =>
    case Daemon =>
  }

  lemma OtherRank(s: State, e: Event)
    requires Enabled(s, e) && e.Step? && !IsSetup(Get(s, e.who).pc) && !IsFinish(Get(s, e.who).pc)
    requires !Get(s, e.who).pc.ReadStatus? && !Get(s, e.who).pc.ReadStatus2?
    ensures Lowers(s, Report(s, e), e.who)
  {
    var p := Get(s, e.who);
    if p.pc.Relay? || p.pc.Success? {
      WriteRank(s, e);
    } else {
      hide Write1, Write2, Readers1, Readers2, Writers1, Writers2;
    }
  }

  lemma WriteRank(s: State, e: Event)
    requires Enabled(s, e) && e.Step? && (Get(s, e.who).pc.Relay? || Get(s, e.who).pc.Success?)
    ensures Lowers(s, Report(s, e), e.who)
  {
    hide Write1, Write2, Readers1, Readers2, Writers1, Writers2;
  }

  lemma ConcludeRank(s: State, e: Event)
    requires Enabled(s, e) && e.Step? && IsFinish(Get(s, e.who).pc)
    ensures Lowers(s, Conclude(s, e), e.who)
  {
    hide Write1, Write2, Writers1, Writers2;
  }

  lemma LowersTotal(s: State, t: State, w: Who)
    requires Lowers(s, t, w)
    ensures TotalRank(t) < TotalRank(s)
  {
    hide Rank;
    assert Get(s, Launcher) == s.launcher && Get(s, Middle) == s.middle && Get(s, Daemon) == s.daemon;
    assert Get(t, Launcher) == t.launcher && Get(t, Middle) == t.middle && Get(t, Daemon) == t.daemon;
  }

  lemma ForksComeFirst(s: State)
    requires Inv(s)
    ensures s.launcher.pc.Piped? ==> s.middle.pc.Unborn?
    ensures s.middle.pc.Fork2? ==> s.daemon.pc.Unborn?
    ensures !s.launcher.pc.Fork2? && !s.middle.pc.Piped? && !s.daemon.pc.Piped? && !s.daemon.pc.Fork2?
  {
  }

  ghost predicate CanStep(s: State, w: Who) {
    exists outcome :: Enabled(s, Step(w, true, outcome, 0))
  }

  lemma CanStepFailed(s: State, w: Who)
    requires Enabled(s, Step(w, true, Failed, 0))
    ensures CanStep(s, w)
  {
  }

  /** The daemon's report got lost, and the daemon is about to close the pipe. */
  ghost predicate AboutToClose(s: State) {
    s.failed && (s.daemon.pc.SuccessClose? || s.daemon.pc.FinishClose?) && CanStep(s, Daemon)
  }

  /** Once the daemon has reported or died, or will never be born, the launcher or
      the middle process can move without a failure until the launcher is gone; only
      after a lost report they may have to wait for the daemon to close the pipe, which
      is its next step. */
  lemma LauncherIsNeverStuck(s: State)
    requires Inv(s) && Settled(s) && Alive(s.launcher)
    ensures CanStep(s, Launcher) || CanStep(s, Middle) || AboutToClose(s)
  {
    if Enabled(s, Step(Launcher, true, Failed, 0)) {
      CanStepFailed(s, Launcher);
    } else if Enabled(s, Step(Middle, true, Failed, 0)) {
      CanStepFailed(s, Middle);
    } else {
      assert s.failed && (s.daemon.pc.SuccessClose? || s.daemon.pc.FinishClose?);
      CanStepFailed(s, Daemon);
    }
  }

  /** No run is longer than the total rank it starts with. */
  lemma {:induction false} RunsAreFinite(s: State, es: seq<Event>)
    requires Inv(s) && Valid(s, es)
    ensures |es| + TotalRank(Run(s, es)) <= TotalRank(s)
    decreases |es|
  {
    hide Inv, TotalRank;
    if es != [] {
      StepsRunOut(s, es[0]);
      StepKeepsInv(s, es[0]);
      RunsAreFinite(Apply(s, es[0]), es[1..]);
    }
  }

  lemma {:induction false} SettledStays(s: State, es: seq<Event>)
    requires Inv(s) && Settled(s) && Valid(s, es)
    ensures Settled(Run(s, es))
    decreases |es|
  {
    if es != [] {
      match es[0].who {
        case Launcher => LauncherOwn(s, es[0]);
        case Middle => MiddleOwn(s, es[0]);
        case Daemon => DaemonOwn(s, es[0]);
      }
      StepKeepsInv(s, es[0]);
      hide Inv, Settled;
      SettledStays(Apply(s, es[0]), es[1..]);
    }
  }

  /** Once the daemon has reported or died, the launcher always gets to its end:
      whatever happens, at most 82 steps remain, and no run can come to rest before
      the launcher has exited or crashed. */
  lemma LauncherAlwaysEnds(startMode: bool, es: seq<Event>, fs: seq<Event>)
    requires Valid(Init(startMode), es) && Settled(Run(Init(startMode), es))
    requires Valid(Run(Init(startMode), es), fs)
    ensures var s := Run(Run(Init(startMode), es), fs);
            && |fs| <= 82
            && (|| CanStep(s, Launcher) || CanStep(s, Middle) || AboutToClose(s)
                || s.launcher.pc.Exited? || s.launcher.pc.Crashed?)
  {
    var i := Init(startMode);
    RunKeepsInv(i, es);
    RunsAreFinite(i, es);
    var s := Run(i, es);
    RunsAreFinite(s, fs);
    RunKeepsInv(s, fs);
    SettledStays(s, fs);
    var t := Run(s, fs);
    if Alive(t.launcher) {
      LauncherIsNeverStuck(t);
    } else {
      assert !t.launcher.pc.Unborn?;
    }
  }

  ghost predicate Reachable(s: State) {
    exists es :: Valid(Init(false), es) && Run(Init(false), es) == s
  }

  lemma {:induction false} Append(s: State, es: seq<Event>, e: Event)
    requires Valid(s, es) && Enabled(Run(s, es), e)
    ensures Valid(s, es + [e]) && Run(s, es + [e]) == Apply(Run(s, es), e)
    decreases |es|
  {
    hide Enabled, Apply;
    if es == [] {
      assert es + [e] == [e] && [e][1..] == [];
    } else {
      assert (es + [e])[1..] == es[1..] + [e];
      Append(Apply(s, es[0]), es[1..], e);
    }
  }

  lemma Moves(s: State, w: Who, ok: bool) returns (t: State)
    requires Reachable(s) && Enabled(s, Step(w, ok, Complete, 0))
    ensures t == Apply(s, Step(w, ok, Complete, 0)) && Reachable(t)
  {
    hide Enabled, Apply;
    var es :| Valid(Init(false), es) && Run(Init(false), es) == s;
    Append(Init(false), es, Step(w, ok, Complete, 0));
    t := Apply(s, Step(w, ok, Complete, 0));
  }

  /** The launcher waits for the middle process. */
  lemma OneFork() returns (s: State)
    ensures Reachable(s)
    ensures s == State(Process(ReadStatus, Fds(true, false, false, false), 1),
                       Process(Child, Fds(true, true, false, false), 1),
                       UNBORN, false, [], [], 0, 0, None, None, false)
  {
    assert Valid(Init(false), []) && Run(Init(false), []) == Init(false);
    hide Reachable, Report, Conclude;
    s := Moves(Init(false), Launcher, true);
    s := Moves(s, Launcher, true);
    s := Moves(s, Launcher, true);
  }

  /** The middle process waits for the daemon, which is about to start up. */
  lemma TwoForks() returns (s: State)
    ensures Reachable(s)
    ensures s == State(Process(ReadStatus, Fds(true, false, false, false), 1),
                       Process(Father2, Fds(false, true, true, true), 1),
                       Process(StartUp, Fds(false, false, false, true), 1), false, [], [], 0, 0, None, None, false)
  {
    s := OneFork();
    hide Reachable, Report, Conclude;
    s := Moves(s, Middle, true);
    s := Moves(s, Middle, true);
    s := Moves(s, Middle, true);
    s := Moves(s, Middle, true);
    s := Moves(s, Daemon, true);
    s := Moves(s, Daemon, true);
  }

  /** The launcher cannot read the status of a daemon whose start-up is complete. */
  lemma SuccessCanBeHidden() returns (s: State)
    ensures Reachable(s) && s.launcher.pc.Exited? && s.launcher.retval == 1 && s.report == Some(0)
    ensures !s.middle.pc.Crashed?
  {
    s := TwoForks();
    hide Reachable, SetUp;
    s := Moves(s, Daemon, true);
    s := Moves(s, Daemon, true);
    s := Moves(s, Launcher, false);
    s := Moves(s, Launcher, true);
    s := Moves(s, Launcher, true);
  }
}
