/** The service under the Windows service control manager: ServiceMain, the control handler and the
    collector loop as interleaved threads, one step per atomic action.

    `ServiceController` guards its flags and its reports with one mutex, held across the callbacks into
    `ServiceHost`; the host flips atomic flags and starts or joins the thread of `CollectorPipeline`,
    whose ticks push into the telemetry history. */
module Lifecycle {
  import opened Text
  import opened Rings

  datatype Control = Stop | Pause | Continue

  datatype Report = StartPending | Running | PausePending | Paused | ContinuePending | StopPending | Stopped

  /** Where a callback made under the state mutex stands. */
  datatype Work =
    | PauseEnter | PauseStop | PauseJoin | PauseReport
    | ContEnter | ContStart | ContSpawn | ContReport
    | StopEnter | StopPipe | StopJoin | StopDone
  {
    predicate IsStop() { StopEnter? || StopPipe? || StopJoin? || StopDone? }
    predicate IsCont() { ContEnter? || ContStart? || ContSpawn? || ContReport? }
  }

  // ---------------------------------------------------------------- host and pipeline

  datatype LoopPc = Check | Collect | Callback | Sleep | Exited

  datatype Host = Host(running: bool, paused: bool)

  /** `handle` is the joinable thread; `threads` are all threads not yet joined. */
  datatype Pipe = Pipe(running: bool, handle: Option<nat>, threads: map<nat, LoopPc>, spawned: nat) {
    function Spawn(): Pipe {
      this.(handle := Some(spawned), threads := threads[spawned := Check], spawned := spawned + 1)
    }

    function Join(): Pipe {
      if handle.Some? then this.(handle := None, threads := threads - {handle.value}) else this
    }

    predicate Joinable() {
      handle.Some? ==> handle.value in threads && threads[handle.value] == Exited
    }

    function Alive(): set<nat> { set t | t in threads && threads[t] != Exited }

    /** Flag down and nothing left to join. */
    predicate Frozen() { !running && handle.None? }
  }

  datatype Plant = Plant(host: Host, pipe: Pipe)

  /** What a callback does next; None when it is over. */
  function NextWork(p: Plant, w: Work): Option<Work> {
    match w
    case PauseEnter => Some(if p.host.paused then PauseReport else PauseStop)
    case PauseStop => Some(if p.pipe.running then PauseJoin else PauseReport)
    case PauseJoin => Some(PauseReport)
    case PauseReport => None
    case ContEnter => Some(if p.host.paused then ContStart else ContReport)
    case ContStart => Some(if p.pipe.running then ContReport else ContSpawn)
    case ContSpawn => Some(ContReport)
    case ContReport => None
    case StopEnter => Some(if p.host.running then StopPipe else StopDone)
    case StopPipe => Some(if p.pipe.running then StopJoin else StopDone)
    case StopJoin => Some(StopDone)
    case StopDone => None
  }

  /** One atomic action of a callback. */
  function Worked(p: Plant, w: Work): Plant {
    match w
    case PauseEnter => p.(host := p.host.(paused := true))
    case PauseStop => p.(pipe := p.pipe.(running := false))
    case PauseJoin => p.(pipe := p.pipe.Join())
    case ContEnter => p.(host := p.host.(paused := false))
    case ContStart => p.(pipe := p.pipe.(running := true))
    case ContSpawn => p.(pipe := p.pipe.Spawn())
    case StopEnter => p.(host := p.host.(running := false))
    case StopPipe => p.(pipe := p.pipe.(running := false))
    case StopJoin => p.(pipe := p.pipe.Join())
    case _ => p
  }

  /** A join waits for the thread to leave its loop. */
  predicate CanWork(p: Plant, w: Work) {
    w.PauseJoin? || w.StopJoin? ==> p.pipe.Joinable()
  }

  /** The tick loop: test the flag, collect, publish, sleep out the interval. */
  function Looped(p: Pipe, t: nat): Pipe
    requires t in p.threads
  {
    p.(threads := p.threads[t :=
         match p.threads[t]
         case Check => if p.running then Collect else Exited
         case Collect => Callback
         case Callback => Sleep
         case Sleep => Check
         case Exited => Exited])
  }

  // ---------------------------------------------------------------- controller

  datatype MainPc =
    | Registered                            // handler installed, nothing reported
    | HostStart | HostSpawn | HostBind      // inside on_start_
    | HostStarted                           // on_start_ has returned
    | Finalizing(work: Work)                // holds the mutex
    | Waiting | Woken | Finished

  datatype HandlerPc = Idle | Arrived(control: Control) | Busy(work: Work)

  datatype Owner = Free | ByMain | ByHandler

  datatype Ctl = Ctl(main: MainPc, handler: HandlerPc, lock: Owner,
                     startDone: bool, pauseRequested: bool, stopRequested: bool, exitEvent: bool)

  /** History. `startup`: the controls handled before on_start_ returned; `stops`: completed on_stop_
      calls; `continues`: continue controls acted on; `started`: did the host start succeed?;
      `revived`: has a continue found the collectors paused after a stop? */
  datatype Record = Record(reports: seq<Report>, startup: seq<Control>, stops: nat, continues: nat,
                           started: bool, revived: bool)
  {
    function Say(report: Report): Record { this.(reports := reports + [report]) }
  }

  datatype State<T> = State(ctl: Ctl, plant: Plant, history: Ring<T>, record: Record)

  function Start<T>(historyCapacity: nat): State<T> {
    State(Ctl(Registered, Idle, Free, false, false, false, false),
          Plant(Host(false, false), Pipe(false, None, map[], 0)),
          Empty(historyCapacity), Record([], [], 0, 0, false, false))
  }

  datatype Action<T> =
    | ReportStart | HostStartPipe | HostSpawnLoop | HostBindServer(ok: bool)
    | FinalizeStart | MainWork | Wake | ReportStopped
    | Arrive(control: Control) | Acquire | HandlerWork
    | LoopStep(thread: nat, sample: T)

  predicate Enabled<T>(s: State<T>, a: Action<T>) {
    match a
    case ReportStart => s.ctl.main.Registered? && s.ctl.lock.Free?
    case HostStartPipe => s.ctl.main.HostStart?
    case HostSpawnLoop => s.ctl.main.HostSpawn?
    case HostBindServer(_) => s.ctl.main.HostBind?
    case FinalizeStart => s.ctl.main.HostStarted? && s.ctl.lock.Free?
    case MainWork => s.ctl.main.Finalizing? && CanWork(s.plant, s.ctl.main.work)
    case Wake => s.ctl.main.Waiting? && s.ctl.exitEvent
    case ReportStopped => s.ctl.main.Woken? && s.ctl.lock.Free?
    case Arrive(_) => s.ctl.handler.Idle?
    case Acquire => s.ctl.handler.Arrived? && s.ctl.lock.Free?
    case HandlerWork => s.ctl.handler.Busy? && CanWork(s.plant, s.ctl.handler.work)
    case LoopStep(t, _) => t in s.plant.pipe.threads && s.plant.pipe.threads[t] != Exited
  }

  /** What a callback's action adds to the record. */
  function Noted(r: Record, p: Plant, stopRequested: bool, w: Work): Record {
    match w
    case PauseReport => r.Say(Paused)
    case ContReport => r.Say(Running)
    case ContEnter => r.(revived := r.revived || (p.host.paused && stopRequested))
    case StopDone => r.(stops := r.stops + 1)
    case _ => r
  }

  /** FinalizeStart: a stop received during startup wins, else a pause, else running. */
  function Finalized(c: Ctl): (Ctl, Report) {
    if c.stopRequested then (c.(startDone := true, lock := ByMain, main := Finalizing(StopEnter)), StopPending)
    else if c.pauseRequested then (c.(startDone := true, lock := ByMain, main := Finalizing(PauseEnter)), PausePending)
    else (c.(startDone := true, main := Waiting), Running)
  }

  /** The flag a control sets. */
  function Requested(c: Ctl, control: Control): Ctl {
    match control
    case Stop => c.(stopRequested := true)
    case Pause => c.(pauseRequested := true)
    case Continue => c.(pauseRequested := false)
  }

  /** The handler has the mutex: during startup it only records the request, afterwards it reports and
      begins the callback. */
  function Handled(c: Ctl, control: Control): Ctl {
    var c := Requested(c, control);
    if !c.startDone then c.(handler := Idle, exitEvent := c.exitEvent || control.Stop?)
    else c.(lock := ByHandler,
            handler := Busy(match control case Stop => StopEnter case Pause => PauseEnter case Continue => ContEnter))
  }

  function HandledRecord(r: Record, startDone: bool, control: Control): Record {
    if !startDone then r.(startup := r.startup + [control])
    else match control
      case Stop => r.Say(StopPending)
      case Pause => r.Say(PausePending)
      case Continue => r.Say(ContinuePending).(continues := r.continues + 1)
  }

  function MainAfter(c: Ctl, next: Option<Work>): Ctl {
    match next
    case Some(w) => c.(main := Finalizing(w))
    case None => c.(main := Waiting, lock := Free)
  }

  /** The stop handler sets the exit event before it lets the mutex go. */
  function HandlerAfter(c: Ctl, next: Option<Work>, stopped: bool): Ctl {
    match next
    case Some(w) => c.(handler := Busy(w))
    case None => c.(handler := Idle, lock := Free, exitEvent := c.exitEvent || stopped)
  }

  function Apply<T>(s: State<T>, a: Action<T>): State<T>
    requires Enabled(s, a)
  {
    match a
    case ReportStart => s.(ctl := s.ctl.(main := HostStart), record := s.record.Say(StartPending))
    case HostStartPipe =>
      s.(ctl := s.ctl.(main := if s.plant.pipe.running then HostBind else HostSpawn),
         plant := s.plant.(pipe := s.plant.pipe.(running := true)))
    case HostSpawnLoop =>
      s.(ctl := s.ctl.(main := HostBind), plant := s.plant.(pipe := s.plant.pipe.Spawn()))
    case HostBindServer(ok) =>
      s.(ctl := s.ctl.(main := HostStarted), plant := s.plant.(host := s.plant.host.(running := ok)),
         record := s.record.(started := ok))
    case FinalizeStart =>
      s.(ctl := Finalized(s.ctl).0, record := s.record.Say(Finalized(s.ctl).1))
    case MainWork =>
      var w := s.ctl.main.work;
      s.(ctl := MainAfter(s.ctl, NextWork(s.plant, w)), plant := Worked(s.plant, w),
         record := Noted(s.record, s.plant, s.ctl.stopRequested, w))
    case Wake => s.(ctl := s.ctl.(main := Woken))
    case ReportStopped => s.(ctl := s.ctl.(main := Finished), record := s.record.Say(Stopped))
    case Arrive(control) => s.(ctl := s.ctl.(handler := Arrived(control)))
    case Acquire =>
      s.(ctl := Handled(s.ctl, s.ctl.handler.control),
         record := HandledRecord(s.record, s.ctl.startDone, s.ctl.handler.control))
    case HandlerWork =>
      var w := s.ctl.handler.work;
      s.(ctl := HandlerAfter(s.ctl, NextWork(s.plant, w), w.StopDone?), plant := Worked(s.plant, w),
         record := Noted(s.record, s.plant, s.ctl.stopRequested, w))
    case LoopStep(t, sample) =>
      s.(plant := s.plant.(pipe := Looped(s.plant.pipe, t)),
         history := if s.plant.pipe.threads[t].Callback? && s.history.Valid() then s.history.Push(sample) else s.history)
  }

  ghost predicate Step<T>(s: State<T>, a: Action<T>, t: State<T>) {
    Enabled(s, a) && t == Apply(s, a)
  }

  ghost predicate Run<T>(states: seq<State<T>>, acts: seq<Action<T>>) {
    && |states| == |acts| + 1
    && forall i {:trigger acts[i]} :: 0 <= i < |acts| ==> Step(states[i], acts[i], states[i + 1])
  }

  // ---------------------------------------------------------------- invariants

  /** How far the service is, as far as the plant is concerned. */
  datatype Phase = Unstarted | Spawning | Spawned | Quiescent | In(work: Work)

  function PhaseOf(c: Ctl): Phase {
    match c.main
    case Registered => Unstarted
    case HostStart => Unstarted
    case HostSpawn => Spawning
    case HostBind => Spawned
    case HostStarted => Spawned
    case Finalizing(w) => In(w)
    case _ => if c.handler.Busy? then In(c.handler.work) else Quiescent
  }

  /** The mutex has one owner, and callbacks happen only once on_start_ has returned. */
  predicate Locking(c: Ctl) {
    && (c.lock.ByMain? <==> c.main.Finalizing?)
    && (c.lock.ByHandler? <==> c.handler.Busy?)
    && (c.startDone <==> c.main.Finalizing? || c.main.Waiting? || c.main.Woken? || c.main.Finished?)
    && (c.handler.Busy? ==> c.startDone)
    && (c.main.Finalizing? ==> !c.main.work.IsCont())
  }

  /** At most one loop thread exists; it is the joinable one; while the flag is up it has not exited. */
  predicate Threads(p: Pipe) {
    && p.threads.Keys == (if p.handle.Some? then {p.handle.value} else {})
    && (p.handle.Some? ==> p.handle.value < p.spawned)
    && (p.handle.Some? && p.running ==> p.threads[p.handle.value] != Exited)
  }

  /** Paused collectors are stopped and joined, except while the pause itself is in progress. */
  predicate Steady(p: Plant) {
    && (p.pipe.running <==> p.pipe.handle.Some?)
    && (p.host.paused ==> p.pipe.Frozen())
  }

  predicate PlantAt(p: Plant, phase: Phase) {
    && Threads(p.pipe)
    && match phase
       case Unstarted => !p.host.paused && p.pipe.Frozen()
       case Spawning => !p.host.paused && p.pipe.running && p.pipe.handle.None?
       case Spawned => !p.host.paused && p.pipe.running && p.pipe.handle.Some?
       case Quiescent => Steady(p)
       case In(w) =>
         match w
         case PauseStop => p.host.paused && (p.pipe.running <==> p.pipe.handle.Some?)
         case PauseJoin => p.host.paused && !p.pipe.running && p.pipe.handle.Some?
         case PauseReport => p.host.paused && p.pipe.Frozen()
         case ContStart => !p.host.paused && p.pipe.Frozen()
         case ContSpawn => !p.host.paused && p.pipe.running && p.pipe.handle.None?
         case ContReport => !p.host.paused && Steady(p)
         case StopJoin => !p.host.paused && !p.pipe.running && p.pipe.handle.Some?
         case _ => Steady(p)
  }

  function Last(reports: seq<Report>): Report { if reports == [] then StartPending else reports[|reports| - 1] }

  /** PAUSED is the last word only while no callback is in progress and the collectors are paused. */
  predicate PausedReport(c: Ctl, p: Plant, r: Record) {
    Last(r.reports) == Paused ==> c.startDone && PhaseOf(c) == Quiescent && p.host.paused
  }

  // ---- the first report after START_PENDING

  function LastPause(startup: seq<Control>): bool {
    if startup == [] then false
    else match startup[|startup| - 1]
      case Pause => true
      case Continue => false
      case Stop => LastPause(startup[..|startup| - 1])
  }

  /** Any stop wins, else the last of pause and continue. */
  function Decided(startup: seq<Control>): Report {
    if Stop in startup then StopPending else if LastPause(startup) then PausePending else Running
  }

  predicate Reporting(c: Ctl, r: Record) {
    && (!c.startDone ==> c.stopRequested == (Stop in r.startup) && c.pauseRequested == LastPause(r.startup))
    && (c.main.Registered? ==> r.reports == [])
    && (!c.main.Registered? ==> r.reports != [] && r.reports[0] == StartPending)
    && (!c.startDone && !c.main.Registered? ==> r.reports == [StartPending])
    && (c.startDone ==> |r.reports| >= 2 && r.reports[1] == Decided(r.startup))
  }

  // ---- stopping

  predicate InStop(phase: Phase) { phase.In? && phase.work.IsStop() }

  predicate Stopping(c: Ctl, r: Record) {
    && (c.exitEvent ==> c.stopRequested)
    && (InStop(PhaseOf(c)) ==> c.stopRequested)
    && (c.main.Finalizing? && !InStop(PhaseOf(c)) ==> !c.stopRequested)
    && (c.stopRequested && (!c.startDone || c.main.Finalizing?) ==> c.exitEvent)
    && (c.startDone && c.stopRequested && !InStop(PhaseOf(c)) ==> c.exitEvent && r.stops >= 1)
    && (c.exitEvent && c.startDone && !c.main.Finalizing? ==> r.stops >= 1)
    && (c.main.Woken? || c.main.Finished? ==> c.exitEvent)
    && (Stopped in r.reports ==> c.main.Finished?)
    && (r.stops >= 1 ==> c.startDone && c.stopRequested)
  }

  // ---- agreement before a stop

  /** Flags, plant and last report, in every phase after a successful start and before any stop. */
  predicate AgreeAt(p: Plant, last: Report, pauseRequested: bool, phase: Phase) {
    && p.host.running
    && match phase
       case Quiescent => && p.host.paused == pauseRequested
                         && p.pipe.running == !pauseRequested
                         && last == (if pauseRequested then Paused else Running)
       case In(w) =>
         (match w
          case PauseEnter => pauseRequested && p.pipe.running == !p.host.paused
          case PauseStop => pauseRequested && p.pipe.running
          case PauseJoin => pauseRequested
          case PauseReport => pauseRequested
          case ContEnter => !pauseRequested && p.pipe.running == !p.host.paused
          case ContStart => !pauseRequested
          case ContSpawn => !pauseRequested
          case ContReport => !pauseRequested && p.pipe.running
          case _ => false)
       case _ => true
  }

  predicate Agreement(c: Ctl, p: Plant, r: Record) {
    && (r.started ==> c.startDone || c.main.HostStarted?)
    && (r.started && !c.stopRequested ==> AgreeAt(p, Last(r.reports), c.pauseRequested, PhaseOf(c)))
    && (r.started && !c.startDone ==> p.host.running)
  }

  // ---- quiet after a stop

  predicate QuietAt(p: Plant, stops: nat, revived: bool, phase: Phase) {
    && (stops == 0 && !(phase.In? && (phase.work.StopPipe? || phase.work.StopJoin? || phase.work.StopDone?)) ==>
          p.host.running)
    && (phase.In? && (phase.work.StopPipe? || phase.work.StopJoin?) ==> !p.host.running)
    && (!revived && phase == In(StopDone) ==> !p.host.running && p.pipe.Frozen())
    && (!revived && stops >= 1 ==>
          !p.host.running && p.pipe.Frozen() && phase != In(ContStart) && phase != In(ContSpawn))
  }

  predicate Quiet(c: Ctl, p: Plant, r: Record) {
    r.started ==> QuietAt(p, r.stops, r.revived, PhaseOf(c))
  }

  // ---- collectors nobody stops

  /** Once startup is over, collectors that no stop can reach: the host's start failed, or a continue
      after the stop found them paused. They run unless paused. */
  predicate Unreached(c: Ctl, r: Record) { c.startDone && (!r.started || r.revived) }

  predicate UnreachedAt(p: Plant, phase: Phase) {
    && !p.host.running
    && match phase
       case In(w) =>
         (match w
          case PauseStop => p.pipe.running
          case PauseJoin => true
          case ContStart => true
          case ContSpawn => true
          case StopPipe => false
          case StopJoin => false
          case _ => p.pipe.running == !p.host.paused)
       case _ => p.pipe.running == !p.host.paused
  }

  /** A host whose start failed is not running; and nothing is revived before a stop. */
  predicate Reach(c: Ctl, p: Plant, r: Record) {
    && (!r.started ==> !p.host.running)
    && (r.revived ==> c.startDone)
    && (Unreached(c, r) ==> UnreachedAt(p, PhaseOf(c)))
  }

  predicate Inv<T>(s: State<T>) {
    && Locking(s.ctl) && PlantAt(s.plant, PhaseOf(s.ctl)) && PausedReport(s.ctl, s.plant, s.record)
    && Reporting(s.ctl, s.record) && Stopping(s.ctl, s.record)
    && Agreement(s.ctl, s.plant, s.record) && Quiet(s.ctl, s.plant, s.record) && Reach(s.ctl, s.plant, s.record)
  }
}
