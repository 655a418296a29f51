/** What holds in every interleaving of ServiceMain, the control handler and the collector loop. */
module LifecycleRuns {
  import opened Text
  import opened Rings
  import opened Lifecycle

  // ---------------------------------------------------------------- one step keeps the invariants

  /** A callback stays the callback it is. */
  lemma NextKind(p: Plant, w: Work)
    ensures NextWork(p, w).Some? ==> NextWork(p, w).value.IsStop() == w.IsStop() && NextWork(p, w).value.IsCont() == w.IsCont()
    ensures NextWork(p, w).None? <==> w.PauseReport? || w.ContReport? || w.StopDone?
  {
  }

  function After(next: Option<Work>): Phase {
    match next
    case Some(w) => In(w)
    case None => Quiescent
  }

  /** What a callback's action does to the phase, whoever makes it. */
  lemma PhaseWork<T>(s: State<T>, a: Action<T>, t: State<T>) returns (w: Work)
    requires Locking(s.ctl) && Step(s, a, t) && (a.MainWork? || a.HandlerWork?)
    ensures PhaseOf(s.ctl) == In(w) && CanWork(s.plant, w)
    ensures PhaseOf(t.ctl) == After(NextWork(s.plant, w)) && t.plant == Worked(s.plant, w)
    ensures t.record == Noted(s.record, s.plant, s.ctl.stopRequested, w)
    ensures Locking(t.ctl) && t.ctl.startDone && s.ctl.startDone
    ensures t.ctl.stopRequested == s.ctl.stopRequested && t.ctl.pauseRequested == s.ctl.pauseRequested
  {
    w := if a.MainWork? then s.ctl.main.work else s.ctl.handler.work;
    NextKind(s.plant, w);
  }

  /** Taking the mutex in the handler begins a callback, or nothing during startup. */
  lemma PhaseHandled(c: Ctl, control: Control)
    requires Locking(c) && c.lock.Free?
    ensures Locking(Handled(c, control))
    ensures PhaseOf(Handled(c, control))
            == if !c.startDone then PhaseOf(c)
               else In(match control case Stop => StopEnter case Pause => PauseEnter case Continue => ContEnter)
    ensures c.startDone ==> PhaseOf(c) == Quiescent
  {
  }

  lemma PhaseFinal(c: Ctl)
    requires Locking(c) && c.lock.Free? && c.main.HostStarted?
    ensures Locking(Finalized(c).0) && PhaseOf(c) == Spawned && !c.startDone
    ensures PhaseOf(Finalized(c).0)
            == if c.stopRequested then In(StopEnter) else if c.pauseRequested then In(PauseEnter) else Quiescent
  {
  }

  predicate InHostStart<T>(a: Action<T>) { a.HostStartPipe? || a.HostSpawnLoop? || a.HostBindServer? }

  /** The remaining actions move neither the plant nor the phase. */
  predicate Minor<T>(a: Action<T>) { a.ReportStart? || a.Wake? || a.ReportStopped? || a.Arrive? }

  lemma PhaseMinor<T>(s: State<T>, a: Action<T>, t: State<T>)
    requires Locking(s.ctl) && Step(s, a, t) && Minor(a)
    ensures Locking(t.ctl) && t.plant == s.plant && PhaseOf(t.ctl) == PhaseOf(s.ctl)
    ensures t.ctl.startDone == s.ctl.startDone && t.ctl.pauseRequested == s.ctl.pauseRequested
    ensures t.ctl.stopRequested == s.ctl.stopRequested && t.ctl.exitEvent == s.ctl.exitEvent
    ensures t.record == s.record.(reports := t.record.reports)
    ensures t.record.reports == s.record.reports || a.ReportStart? || a.ReportStopped?
  {
  }

  lemma LockingStep<T>(s: State<T>, a: Action<T>, t: State<T>)
    requires Locking(s.ctl) && Step(s, a, t)
    ensures Locking(t.ctl)
  {
    if a.MainWork? || a.HandlerWork? {
      var w := PhaseWork(s, a, t);
    } else if a.Acquire? {
      PhaseHandled(s.ctl, s.ctl.handler.control);
    } else if a.FinalizeStart? {
      PhaseFinal(s.ctl);
    } else if Minor(a) {
      PhaseMinor(s, a, t);
    }
  }

  /** A callback's action takes the plant where the callback goes next. */
  lemma PlantWork(p: Plant, w: Work)
    requires PlantAt(p, In(w)) && CanWork(p, w)
    ensures PlantAt(Worked(p, w), After(NextWork(p, w)))
  {
  }

  lemma PlantLoop(p: Plant, t: nat, phase: Phase)
    requires PlantAt(p, phase) && t in p.pipe.threads && p.pipe.threads[t] != Exited
    ensures PlantAt(p.(pipe := Looped(p.pipe, t)), phase)
  {
  }

  lemma PlantBoot<T>(s: State<T>, a: Action<T>, t: State<T>)
    requires Locking(s.ctl) && PlantAt(s.plant, PhaseOf(s.ctl)) && Step(s, a, t) && InHostStart(a)
    ensures PlantAt(t.plant, PhaseOf(t.ctl))
  {
  }

  lemma PlantStep<T>(s: State<T>, a: Action<T>, t: State<T>)
    requires Locking(s.ctl) && PlantAt(s.plant, PhaseOf(s.ctl)) && Step(s, a, t)
    ensures PlantAt(t.plant, PhaseOf(t.ctl))
  {
    if a.MainWork? || a.HandlerWork? {
      var w := PhaseWork(s, a, t);
      PlantWork(s.plant, w);
    } else if a.LoopStep? {
      PlantLoop(s.plant, a.thread, PhaseOf(s.ctl));
    } else if a.Acquire? {
      PhaseHandled(s.ctl, s.ctl.handler.control);
    } else if a.FinalizeStart? {
      PhaseFinal(s.ctl);
    } else if Minor(a) {
      PhaseMinor(s, a, t);
    } else {
      PlantBoot(s, a, t);
    }
  }

  lemma PausedReportStep<T>(s: State<T>, a: Action<T>, t: State<T>)
    requires Locking(s.ctl) && PlantAt(s.plant, PhaseOf(s.ctl)) && Reporting(s.ctl, s.record)
    requires PausedReport(s.ctl, s.plant, s.record) && Step(s, a, t)
    ensures PausedReport(t.ctl, t.plant, t.record)
  {
    if a.MainWork? || a.HandlerWork? { var w := PhaseWork(s, a, t); }
  }

  lemma ReportingWork<T>(s: State<T>, a: Action<T>, t: State<T>)
    requires Locking(s.ctl) && Reporting(s.ctl, s.record) && Step(s, a, t) && (a.MainWork? || a.HandlerWork?)
    ensures Reporting(t.ctl, t.record)
  {
    var w := PhaseWork(s, a, t);
  }

  lemma ReportingHandled(c: Ctl, r: Record, control: Control)
    requires Locking(c) && c.lock.Free? && Reporting(c, r)
    ensures Reporting(Handled(c, control), HandledRecord(r, c.startDone, control))
  {
    var startup' := r.startup + [control];
    assert startup'[..|r.startup|] == r.startup;
    assert Stop in startup' <==> Stop in r.startup || control == Stop;
  }

  lemma ReportingFinal(c: Ctl, r: Record)
    requires Locking(c) && c.main.HostStarted? && Reporting(c, r)
    ensures Reporting(Finalized(c).0, r.Say(Finalized(c).1))
  {
  }

  lemma ReportingStep<T>(s: State<T>, a: Action<T>, t: State<T>)
    requires Locking(s.ctl) && Reporting(s.ctl, s.record) && Step(s, a, t)
    ensures Reporting(t.ctl, t.record)
  {
    if a.MainWork? || a.HandlerWork? {
      ReportingWork(s, a, t);
    } else if a.Acquire? {
      ReportingHandled(s.ctl, s.record, s.ctl.handler.control);
    } else if a.FinalizeStart? {
      ReportingFinal(s.ctl, s.record);
    }
  }

  lemma StoppingWork<T>(s: State<T>, a: Action<T>, t: State<T>)
    requires Locking(s.ctl) && Stopping(s.ctl, s.record) && Step(s, a, t) && (a.MainWork? || a.HandlerWork?)
    ensures Stopping(t.ctl, t.record)
  {
    var w := PhaseWork(s, a, t);
    NextKind(s.plant, w);
  }

  lemma StoppingHandled(c: Ctl, r: Record, control: Control)
    requires Locking(c) && c.lock.Free? && Stopping(c, r)
    ensures Stopping(Handled(c, control), HandledRecord(r, c.startDone, control))
  {
  }

  lemma StoppingFinal(c: Ctl, r: Record)
    requires Locking(c) && c.lock.Free? && c.main.HostStarted? && Stopping(c, r)
    ensures Stopping(Finalized(c).0, r.Say(Finalized(c).1))
  {
  }

  lemma StoppingStep<T>(s: State<T>, a: Action<T>, t: State<T>)
    requires Locking(s.ctl) && Stopping(s.ctl, s.record) && Step(s, a, t)
    ensures Stopping(t.ctl, t.record)
  {
    if a.MainWork? || a.HandlerWork? {
      StoppingWork(s, a, t);
    } else if a.Acquire? {
      StoppingHandled(s.ctl, s.record, s.ctl.handler.control);
    } else if a.FinalizeStart? {
      StoppingFinal(s.ctl, s.record);
    }
  }

  lemma AgreeWork(p: Plant, r: Record, pauseRequested: bool, w: Work)
    requires PlantAt(p, In(w)) && AgreeAt(p, Last(r.reports), pauseRequested, In(w))
    ensures AgreeAt(Worked(p, w), Last(Noted(r, p, false, w).reports), pauseRequested, After(NextWork(p, w)))
  {
  }

  lemma AgreementStep<T>(s: State<T>, a: Action<T>, t: State<T>)
    requires Locking(s.ctl) && PlantAt(s.plant, PhaseOf(s.ctl)) && Stopping(s.ctl, s.record)
    requires Agreement(s.ctl, s.plant, s.record) && Step(s, a, t)
    ensures Agreement(t.ctl, t.plant, t.record)
  {
    if a.MainWork? || a.HandlerWork? {
      var w := PhaseWork(s, a, t);
      if s.record.started && !s.ctl.stopRequested { AgreeWork(s.plant, s.record, s.ctl.pauseRequested, w); }
    } else if a.Acquire? {
      PhaseHandled(s.ctl, s.ctl.handler.control);
    } else if a.FinalizeStart? {
      PhaseFinal(s.ctl);
    } else if Minor(a) {
      PhaseMinor(s, a, t);
    }
  }

  lemma QuietWork(p: Plant, r: Record, stopRequested: bool, w: Work)
    requires PlantAt(p, In(w)) && QuietAt(p, r.stops, r.revived, In(w))
    requires r.stops >= 1 ==> stopRequested
    ensures var r' := Noted(r, p, stopRequested, w);
            QuietAt(Worked(p, w), r'.stops, r'.revived, After(NextWork(p, w)))
  {
  }

  lemma QuietStep<T>(s: State<T>, a: Action<T>, t: State<T>)
    requires Locking(s.ctl) && PlantAt(s.plant, PhaseOf(s.ctl)) && Stopping(s.ctl, s.record)
    requires Agreement(s.ctl, s.plant, s.record) && Quiet(s.ctl, s.plant, s.record) && Step(s, a, t)
    ensures Quiet(t.ctl, t.plant, t.record)
  {
    if a.MainWork? || a.HandlerWork? {
      var w := PhaseWork(s, a, t);
      if s.record.started { QuietWork(s.plant, s.record, s.ctl.stopRequested, w); }
    } else if a.Acquire? {
      PhaseHandled(s.ctl, s.ctl.handler.control);
    } else if a.FinalizeStart? {
      PhaseFinal(s.ctl);
    } else if Minor(a) {
      PhaseMinor(s, a, t);
    }
  }

  lemma ReachWork(p: Plant, r: Record, stopRequested: bool, w: Work)
    requires PlantAt(p, In(w)) && QuietAt(p, r.stops, r.revived, In(w)) && r.started && !r.revived
    requires stopRequested && !w.IsStop() ==> r.stops >= 1
    ensures var r' := Noted(r, p, stopRequested, w);
            r'.started && (r'.revived ==> UnreachedAt(Worked(p, w), After(NextWork(p, w))))
  {
  }

  lemma UnreachedWork(p: Plant, w: Work)
    requires PlantAt(p, In(w)) && UnreachedAt(p, In(w))
    ensures UnreachedAt(Worked(p, w), After(NextWork(p, w)))
  {
  }

  lemma ReachStep<T>(s: State<T>, a: Action<T>, t: State<T>)
    requires Locking(s.ctl) && PlantAt(s.plant, PhaseOf(s.ctl)) && Stopping(s.ctl, s.record)
    requires Quiet(s.ctl, s.plant, s.record) && Reach(s.ctl, s.plant, s.record) && Step(s, a, t)
    ensures Reach(t.ctl, t.plant, t.record)
  {
    if a.MainWork? || a.HandlerWork? {
      var w := PhaseWork(s, a, t);
      if Unreached(s.ctl, s.record) {
        UnreachedWork(s.plant, w);
      } else {
        ReachWork(s.plant, s.record, s.ctl.stopRequested, w);
      }
    } else if a.Acquire? {
      PhaseHandled(s.ctl, s.ctl.handler.control);
    } else if a.FinalizeStart? {
      PhaseFinal(s.ctl);
    } else if Minor(a) {
      PhaseMinor(s, a, t);
    }
  }

  lemma InvStep<T>(s: State<T>, a: Action<T>, t: State<T>)
    requires Inv(s) && Step(s, a, t)
    ensures Inv(t)
  {
    LockingStep(s, a, t);
    PlantStep(s, a, t);
    PausedReportStep(s, a, t);
    ReportingStep(s, a, t);
    StoppingStep(s, a, t);
    AgreementStep(s, a, t);
    QuietStep(s, a, t);
    ReachStep(s, a, t);
  }

  lemma {:induction false} InvRun<T>(capacity: nat, states: seq<State<T>>, acts: seq<Action<T>>, k: nat)
    requires Run(states, acts) && states[0] == Start(capacity) && k <= |acts|
    ensures Inv(states[k])
  {
    if k > 0 {
      InvRun(capacity, states, acts, k - 1);
      InvStep(states[k - 1], acts[k - 1], states[k]);
    }
  }

  // ---------------------------------------------------------------- theorems over every run

  /** `ServiceHost::StateName`. */
  function StateName(host: Host): string {
    if !host.running then "STOPPED" else if host.paused then "PAUSED" else "RUNNING"
  }

  lemma AliveThreads(p: Pipe)
    requires Threads(p) && (p.running <==> p.handle.Some?)
    ensures |p.Alive()| == if p.running then 1 else 0
  {
    if p.running {
      assert p.Alive() == {p.handle.value};
    } else {
      assert p.Alive() == {};
    }
  }

  /** After a successful start and before any stop, whenever the state mutex is free, the last state
      reported to the SCM, `StateName`, the requested flag and the number of running collector loops
      agree, whatever pause and continue controls came, during startup or later. */
  lemma ReportsAgree<T>(capacity: nat, states: seq<State<T>>, acts: seq<Action<T>>, k: nat)
    requires Run(states, acts) && states[0] == Start(capacity) && k <= |acts|
    requires states[k].ctl.lock.Free? && states[k].ctl.startDone
    requires states[k].record.started && !states[k].ctl.stopRequested
    ensures var s := states[k];
            if s.ctl.pauseRequested
            then Last(s.record.reports) == Paused && StateName(s.plant.host) == "PAUSED" && |s.plant.pipe.Alive()| == 0
            else Last(s.record.reports) == Running && StateName(s.plant.host) == "RUNNING" && |s.plant.pipe.Alive()| == 1
  {
    InvRun(capacity, states, acts, k);
    AliveThreads(states[k].plant.pipe);
  }

  /** The control an action hands over to the service. */
  function ControlOf<T>(s: State<T>, a: Action<T>): seq<Control> {
    if a.Acquire? && s.ctl.handler.Arrived? then [s.ctl.handler.control] else []
  }

  /** The controls that got the mutex between two states of a run. */
  function Acquired<T>(states: seq<State<T>>, acts: seq<Action<T>>, i: nat, j: nat): seq<Control>
    requires |states| == |acts| + 1 && i <= j <= |acts|
  {
    if i == j then [] else Acquired(states, acts, i, j - 1) + ControlOf(states[j - 1], acts[j - 1])
  }

  lemma StartupStep<T>(s: State<T>, a: Action<T>, t: State<T>)
    requires Locking(s.ctl) && Step(s, a, t)
    ensures t.ctl.startDone <==> s.ctl.startDone || a.FinalizeStart?
    ensures a.FinalizeStart? ==> !s.ctl.startDone
    ensures t.record.startup == s.record.startup + (if s.ctl.startDone then [] else ControlOf(s, a))
  {
    if a.MainWork? || a.HandlerWork? { var w := PhaseWork(s, a, t); }
  }

  lemma StartupNext<T>(capacity: nat, states: seq<State<T>>, acts: seq<Action<T>>, k: nat)
    requires Run(states, acts) && states[0] == Start(capacity) && k < |acts|
    ensures states[k + 1].ctl.startDone <==> states[k].ctl.startDone || acts[k].FinalizeStart?
    ensures acts[k].FinalizeStart? ==> !states[k].ctl.startDone
    ensures states[k + 1].record.startup
         == states[k].record.startup + (if states[k].ctl.startDone then [] else ControlOf(states[k], acts[k]))
    ensures acts[k].FinalizeStart? ==> ControlOf(states[k], acts[k]) == []
  {
    InvRun(capacity, states, acts, k);
    StartupStep(states[k], acts[k], states[k + 1]);
  }

  lemma {:induction false} DoneOnceFinalized<T>(capacity: nat, states: seq<State<T>>, acts: seq<Action<T>>, k: nat)
    requires Run(states, acts) && states[0] == Start(capacity) && k <= |acts|
    ensures states[k].ctl.startDone <==> exists f :: 0 <= f < k && acts[f].FinalizeStart?
  {
    if k > 0 {
      DoneOnceFinalized(capacity, states, acts, k - 1);
      StartupNext(capacity, states, acts, k - 1);
    }
  }

  lemma {:induction false} StartupSoFar<T>(capacity: nat, states: seq<State<T>>, acts: seq<Action<T>>, k: nat)
    requires Run(states, acts) && states[0] == Start(capacity) && k <= |acts|
    ensures !states[k].ctl.startDone ==> states[k].record.startup == Acquired(states, acts, 0, k)
  {
    if k > 0 {
      StartupSoFar(capacity, states, acts, k - 1);
      StartupNext(capacity, states, acts, k - 1);
    }
  }

  lemma {:induction false} StartupStays<T>(capacity: nat, states: seq<State<T>>, acts: seq<Action<T>>, i: nat, k: nat)
    requires Run(states, acts) && states[0] == Start(capacity) && i <= k <= |acts| && states[i].ctl.startDone
    ensures states[k].ctl.startDone && states[k].record.startup == states[i].record.startup
    decreases k
  {
    if i < k {
      StartupStays(capacity, states, acts, i, k - 1);
      StartupNext(capacity, states, acts, k - 1);
    }
  }

  lemma StartupAtFinalize<T>(capacity: nat, states: seq<State<T>>, acts: seq<Action<T>>, f: nat, k: nat)
    requires Run(states, acts) && states[0] == Start(capacity) && f < k <= |acts| && acts[f].FinalizeStart?
    ensures states[k].record.startup == Acquired(states, acts, 0, f)
  {
    StartupNext(capacity, states, acts, f);
    StartupSoFar(capacity, states, acts, f);
    StartupStays(capacity, states, acts, f + 1, k);
  }

  /** Startup is over once FinalizeStart has had the mutex. Until then the record of startup is what the
      handler was given; from then on it is what it had been given before. */
  lemma StartupIsWhatArrived<T>(capacity: nat, states: seq<State<T>>, acts: seq<Action<T>>, k: nat)
    requires Run(states, acts) && states[0] == Start(capacity) && k <= |acts|
    ensures states[k].ctl.startDone <==> exists f :: 0 <= f < k && acts[f].FinalizeStart?
    ensures !states[k].ctl.startDone ==> states[k].record.startup == Acquired(states, acts, 0, k)
    ensures forall f :: 0 <= f < k && acts[f].FinalizeStart? ==> states[k].record.startup == Acquired(states, acts, 0, f)
  {
    DoneOnceFinalized(capacity, states, acts, k);
    StartupSoFar(capacity, states, acts, k);
    forall f | 0 <= f < k && acts[f].FinalizeStart? ensures states[k].record.startup == Acquired(states, acts, 0, f) {
      StartupAtFinalize(capacity, states, acts, f, k);
    }
  }

  /** The report that follows START_PENDING comes with FinalizeStart and is decided by the controls that
      got the mutex before it (step f): any stop wins, else the last of pause and continue. */
  lemma FirstReportDecided<T>(capacity: nat, states: seq<State<T>>, acts: seq<Action<T>>, k: nat)
    requires Run(states, acts) && states[0] == Start(capacity) && k <= |acts|
    ensures var reports := states[k].record.reports;
            && (|reports| >= 1 ==> reports[0] == StartPending)
            && (|reports| >= 2 <==> exists f :: 0 <= f < k && acts[f].FinalizeStart?)
            && forall f :: 0 <= f < k && acts[f].FinalizeStart? ==>
                 reports[1] == Decided(Acquired(states, acts, 0, f))
  {
    InvRun(capacity, states, acts, k);
    StartupIsWhatArrived(capacity, states, acts, k);
  }

  /** No stop is lost: STOPPED is reported only after on_stop_ has run, and as soon as the mutex is
      free after startup every stop received so far has been carried out and ServiceMain released. */
  lemma NoLostStop<T>(capacity: nat, states: seq<State<T>>, acts: seq<Action<T>>, k: nat)
    requires Run(states, acts) && states[0] == Start(capacity) && k <= |acts|
    ensures Stopped in states[k].record.reports ==> states[k].record.stops >= 1
    ensures var c := states[k].ctl;
            c.stopRequested && c.startDone && c.lock.Free? ==> states[k].record.stops >= 1 && c.exitEvent
  {
    InvRun(capacity, states, acts, k);
  }

  /** Pause, continue and stop callbacks overlap neither each other nor on_start_. */
  lemma CallbacksNeverOverlap<T>(capacity: nat, states: seq<State<T>>, acts: seq<Action<T>>, k: nat)
    requires Run(states, acts) && states[0] == Start(capacity) && k <= |acts|
    ensures var c := states[k].ctl;
            && !(c.main.Finalizing? && c.handler.Busy?)
            && (c.main.HostStart? || c.main.HostSpawn? || c.main.HostBind? ==> !c.handler.Busy?)
  {
    InvRun(capacity, states, acts, k);
  }

  /** A new collector thread is never stored over one that has not been joined. */
  lemma SpawnNeedsNoJoin<T>(capacity: nat, states: seq<State<T>>, acts: seq<Action<T>>, k: nat)
    requires Run(states, acts) && states[0] == Start(capacity) && k <= |acts|
    requires states[k].ctl.main.HostSpawn? || states[k].ctl.handler == Busy(ContSpawn)
    ensures states[k].plant.pipe.handle.None? && states[k].plant.pipe.Alive() == {}
  {
    InvRun(capacity, states, acts, k);
  }

  /** Steps a thread has left before it is out of its loop, once the flag is down. */
  function ToExit(pc: LoopPc): nat {
    match pc case Collect => 4 case Callback => 3 case Sleep => 2 case Check => 1 case Exited => 0
  }

  predicate Joining(phase: Phase) { phase == In(PauseJoin) || phase == In(StopJoin) }

  /** A callback waiting in a join, with the state mutex held, is not stuck: the thread it waits for can
      always step, never needs the mutex, and each of its at most four steps brings it nearer its end,
      where the join goes on. */
  lemma JoinsEnd<T>(capacity: nat, states: seq<State<T>>, acts: seq<Action<T>>, k: nat, sample: T)
    requires Run(states, acts) && states[0] == Start(capacity) && k <= |acts|
    requires Joining(PhaseOf(states[k].ctl))
    ensures var p := states[k].plant.pipe;
            && p.handle.Some? && p.handle.value in p.threads
            && (ToExit(p.threads[p.handle.value]) == 0 <==> p.Joinable())
            && (!p.Joinable() ==>
                  var a := LoopStep(p.handle.value, sample);
                  && Enabled(states[k], a)
                  && var q := Apply(states[k], a).plant.pipe;
                     q.handle == p.handle && ToExit(q.threads[p.handle.value]) == ToExit(p.threads[p.handle.value]) - 1)
  {
    InvRun(capacity, states, acts, k);
  }

  /** A callback goes on unless it waits in a join, and there exactly when the thread is out of its loop. */
  lemma CallbacksGoOn<T>(capacity: nat, states: seq<State<T>>, acts: seq<Action<T>>, k: nat)
    requires Run(states, acts) && states[0] == Start(capacity) && k <= |acts|
    ensures var s := states[k];
            var goesOn := Joining(PhaseOf(s.ctl)) ==> forall t :: t in s.plant.pipe.threads ==> s.plant.pipe.threads[t] == Exited;
            && (s.ctl.main.Finalizing? ==> (Enabled(s, MainWork) <==> goesOn))
            && (s.ctl.handler.Busy? ==> (Enabled(s, HandlerWork) <==> goesOn))
  {
    InvRun(capacity, states, acts, k);
  }

  lemma ThreadStays<T>(s: State<T>, a: Action<T>, t: State<T>, thread: nat)
    requires Inv(s) && Step(s, a, t) && thread in s.plant.pipe.threads
    ensures thread in t.plant.pipe.threads || s.plant.pipe.threads[thread] == Exited
  {
    if a.MainWork? || a.HandlerWork? { var w := PhaseWork(s, a, t); }
  }

  /** No collector thread is ever given up while it runs: one that is gone has left its loop, its last
      tick published, and was joined after that. */
  lemma {:induction false} JoinedHasExited<T>(capacity: nat, states: seq<State<T>>, acts: seq<Action<T>>, i: nat, j: nat, thread: nat)
    requires Run(states, acts) && states[0] == Start(capacity) && i <= j <= |acts|
    requires thread in states[i].plant.pipe.threads && thread !in states[j].plant.pipe.threads
    ensures exists k :: i <= k < j && thread in states[k].plant.pipe.threads && states[k].plant.pipe.threads[thread] == Exited
    decreases j
  {
    if thread in states[j - 1].plant.pipe.threads {
      InvRun(capacity, states, acts, j - 1);
      ThreadStays(states[j - 1], acts[j - 1], states[j], thread);
    } else {
      JoinedHasExited(capacity, states, acts, i, j - 1, thread);
    }
  }

  // ---------------------------------------------------------------- ticks

  /** The sample an action publishes: a collector thread at its callback. */
  function TickOf<T>(s: State<T>, a: Action<T>): seq<T> {
    if a.LoopStep? && a.thread in s.plant.pipe.threads && s.plant.pipe.threads[a.thread].Callback? then [a.sample] else []
  }

  /** The samples published between two states of a run. */
  function Ticks<T>(states: seq<State<T>>, acts: seq<Action<T>>, i: nat, j: nat): seq<T>
    requires |states| == |acts| + 1 && i <= j <= |acts|
  {
    if i == j then [] else Ticks(states, acts, i, j - 1) + TickOf(states[j - 1], acts[j - 1])
  }

  lemma TickRecorded<T>(s: State<T>, a: Action<T>, t: State<T>, log: seq<T>)
    requires Step(s, a, t) && s.history.Represents(log)
    ensures t.history.Represents(log + TickOf(s, a)) && t.history.cap == s.history.cap
  {
    if TickOf(s, a) == [] {
      assert log + TickOf(s, a) == log;
    } else {
      PushRepresents(s.history, log, a.sample);
    }
  }

  lemma {:induction false} HistoryIsTicks<T>(capacity: nat, states: seq<State<T>>, acts: seq<Action<T>>, k: nat)
    requires Run(states, acts) && states[0] == Start(capacity) && k <= |acts|
    ensures states[k].history.Represents(Ticks(states, acts, 0, k))
    ensures states[k].history.cap == if capacity == 0 then 1 else capacity
  {
    if k > 0 {
      HistoryIsTicks(capacity, states, acts, k - 1);
      TickRecorded(states[k - 1], acts[k - 1], states[k], Ticks(states, acts, 0, k - 1));
    }
  }

  /** In every run the history is what the collector threads have published: every sample given to a
      callback, in order, as far as the ring reaches back. */
  lemma HistoryOfTicks<T>(capacity: nat, states: seq<State<T>>, acts: seq<Action<T>>, k: nat, n: int)
    requires Run(states, acts) && states[0] == Start(capacity) && k <= |acts|
    ensures states[k].history.Valid()
    ensures var log, cap := Ticks(states, acts, 0, k), if capacity == 0 then 1 else capacity;
            states[k].history.History(n) == Suffix(log, Min(if n < 0 then 0 else n, Min(cap, |log|)))
  {
    HistoryIsTicks(capacity, states, acts, k);
    var history := states[k].history;
    LastNIsSuffix(history, Ticks(states, acts, 0, k), if n < 0 then 0 else if n > history.cap then history.cap else n);
  }

  // ---- a running loop publishes

  /** Steps from the flag test to here. */
  function Place(pc: LoopPc): nat {
    match pc case Check => 0 case Collect => 1 case Callback => 2 case Sleep => 3 case Exited => 4
  }

  function StepsOf<T>(acts: seq<Action<T>>, t: nat, i: nat, j: nat): nat
    requires i <= j <= |acts|
  {
    if i == j then 0 else StepsOf(acts, t, i, j - 1) + (if acts[j - 1].LoopStep? && acts[j - 1].thread == t then 1 else 0)
  }

  predicate At(p: Pipe, t: nat, place: nat) { t in p.threads && Place(p.threads[t]) == place }

  /** While the flag is up the only thread there is stays, and every step of it is a step round its loop. */
  lemma RoundStep<T>(s: State<T>, a: Action<T>, t: State<T>, thread: nat)
    requires Inv(s) && Step(s, a, t) && s.plant.pipe.running
    requires thread in s.plant.pipe.threads && s.plant.pipe.threads[thread] != Exited
    ensures var mine := a.LoopStep? && a.thread == thread;
            var place := Place(s.plant.pipe.threads[thread]);
            && At(t.plant.pipe, thread, if mine then (place + 1) % 4 else place)
            && TickOf(s, a) == if mine && place == 2 then [a.sample] else []
  {
    if a.MainWork? || a.HandlerWork? {
      var w := PhaseWork(s, a, t);
      assert !w.PauseJoin? && !w.StopJoin?;
    }
  }

  /** The thread has made n steps from its flag test, and there have been `ticks` ticks. */
  predicate Round(p: Pipe, thread: nat, n: nat, ticks: nat) {
    At(p, thread, n % 4) && ticks == (n + 1) / 4
  }

  lemma RoundNext<T>(s: State<T>, a: Action<T>, t: State<T>, thread: nat, n: nat, ticks: nat)
    requires Inv(s) && Step(s, a, t) && s.plant.pipe.running && Round(s.plant.pipe, thread, n, ticks)
    ensures Round(t.plant.pipe, thread, n + (if a.LoopStep? && a.thread == thread then 1 else 0), ticks + |TickOf(s, a)|)
  {
    RoundStep(s, a, t, thread);
  }

  lemma RoundAt<T>(capacity: nat, states: seq<State<T>>, acts: seq<Action<T>>, k: nat, thread: nat, n: nat, ticks: nat)
    requires Run(states, acts) && states[0] == Start(capacity) && k < |acts|
    requires states[k].plant.pipe.running && Round(states[k].plant.pipe, thread, n, ticks)
    ensures Round(states[k + 1].plant.pipe, thread, n + (if acts[k].LoopStep? && acts[k].thread == thread then 1 else 0),
                  ticks + |TickOf(states[k], acts[k])|)
  {
    InvRun(capacity, states, acts, k);
    RoundNext(states[k], acts[k], states[k + 1], thread, n, ticks);
  }

  /** As long as the flag is up, a collector thread that stood at its flag test has published once for
      every four of its steps, the third being the first to publish, and nobody else has. */
  lemma {:induction false} LoopPublishes<T>(capacity: nat, states: seq<State<T>>, acts: seq<Action<T>>, i: nat, j: nat, thread: nat)
    requires Run(states, acts) && states[0] == Start(capacity) && i <= j <= |acts|
    requires At(states[i].plant.pipe, thread, 0)
    requires forall k :: i <= k < j ==> states[k].plant.pipe.running
    ensures Round(states[j].plant.pipe, thread, StepsOf(acts, thread, i, j), |Ticks(states, acts, i, j)|)
    decreases j
  {
    if i < j {
      LoopPublishes(capacity, states, acts, i, j - 1, thread);
      var n, ticks := StepsOf(acts, thread, i, j - 1), |Ticks(states, acts, i, j - 1)|;
      assert Round(states[j - 1].plant.pipe, thread, n, ticks);
      RoundAt(capacity, states, acts, j - 1, thread, n, ticks);
      assert |Ticks(states, acts, i, j)| == ticks + |TickOf(states[j - 1], acts[j - 1])|;
    }
  }

  // ---------------------------------------------------------------- freeze

  predicate FrozenPause<T>(s: State<T>) {
    && s.plant.host.paused && s.plant.pipe.Frozen() && s.plant.pipe.threads == map[]
    && !(PhaseOf(s.ctl).In? && PhaseOf(s.ctl).work.IsCont())
    && s.ctl.startDone
  }

  lemma FrozenWork(p: Plant, w: Work)
    requires p.host.paused && p.pipe.Frozen() && p.pipe.threads == map[] && !w.IsCont()
    ensures var p' := Worked(p, w);
            p'.host.paused && p'.pipe.Frozen() && p'.pipe.threads == map[]
  {
  }

  lemma FrozenStep<T>(s: State<T>, a: Action<T>, t: State<T>)
    requires Locking(s.ctl) && FrozenPause(s) && Step(s, a, t)
    ensures t.record.continues >= s.record.continues
    ensures t.record.continues == s.record.continues ==> FrozenPause(t) && t.history == s.history && !a.LoopStep?
  {
    if a.MainWork? || a.HandlerWork? {
      var w := PhaseWork(s, a, t);
      FrozenWork(s.plant, w);
      NextKind(s.plant, w);
    }
  }

  lemma ContinuesGrow<T>(s: State<T>, a: Action<T>, t: State<T>)
    requires Step(s, a, t)
    ensures t.record.continues >= s.record.continues
  {
  }

  lemma {:induction false} FrozenRun<T>(capacity: nat, states: seq<State<T>>, acts: seq<Action<T>>, i: nat, j: nat)
    requires Run(states, acts) && states[0] == Start(capacity) && i <= j <= |acts|
    requires FrozenPause(states[i])
    ensures states[j].record.continues >= states[i].record.continues
    ensures states[j].record.continues == states[i].record.continues ==>
              && FrozenPause(states[j]) && states[j].history == states[i].history
              && forall k :: i <= k < j ==> !acts[k].LoopStep?
    decreases j
  {
    if i < j {
      FrozenRun(capacity, states, acts, i, j - 1);
      ContinuesGrow(states[j - 1], acts[j - 1], states[j]);
      if states[j].record.continues == states[i].record.continues {
        InvRun(capacity, states, acts, j - 1);
        FrozenStep(states[j - 1], acts[j - 1], states[j]);
      }
    }
  }

  /** From a PAUSED report until the next continue control is acted on, no collector loop takes a step
      and the telemetry history does not change, so every `History(n)` keeps its answer. This needs
      neither a successful start nor the absence of stops. */
  lemma PausedFreezesHistory<T>(capacity: nat, states: seq<State<T>>, acts: seq<Action<T>>, i: nat, j: nat, n: int)
    requires Run(states, acts) && states[0] == Start(capacity) && i <= j <= |acts|
    requires Last(states[i].record.reports) == Paused
    requires states[j].record.continues == states[i].record.continues
    ensures forall k :: i <= k < j ==> !acts[k].LoopStep?
    ensures states[j].plant.pipe.Alive() == {}
    ensures states[i].history.Valid() && states[j].history.Valid()
    ensures states[j].history.History(n) == states[i].history.History(n)
  {
    InvRun(capacity, states, acts, i);
    FrozenRun(capacity, states, acts, i, j);
    HistoryValid(capacity, states, acts, i);
  }

  lemma {:induction false} HistoryValid<T>(capacity: nat, states: seq<State<T>>, acts: seq<Action<T>>, k: nat)
    requires Run(states, acts) && states[0] == Start(capacity) && k <= |acts|
    ensures states[k].history.Valid()
  {
    if k > 0 {
      HistoryValid(capacity, states, acts, k - 1);
      assert Step(states[k - 1], acts[k - 1], states[k]);
    }
  }

  // ---------------------------------------------------------------- after a stop

  lemma QuietWhenFree<T>(s: State<T>)
    requires Inv(s) && s.ctl.lock.Free? && s.ctl.startDone && s.record.stops >= 1
    ensures s.plant.pipe.Alive() == {} <==> s.plant.host.paused || (s.record.started && !s.record.revived)
  {
    AliveThreads(s.plant.pipe);
  }

  /** Once STOPPED is reported the host is down, for good; and whenever the state mutex is free no
      collector loop runs if and only if the collectors are paused, or the host's start had succeeded
      and no continue control found them paused after the stop. */
  lemma StoppedIsQuiet<T>(capacity: nat, states: seq<State<T>>, acts: seq<Action<T>>, k: nat)
    requires Run(states, acts) && states[0] == Start(capacity) && k <= |acts|
    requires Stopped in states[k].record.reports
    ensures var s := states[k];
            && StateName(s.plant.host) == "STOPPED"
            && (s.record.started && !s.record.revived ==> s.plant.pipe.Alive() == {})
            && (s.ctl.lock.Free? ==>
                  (s.plant.pipe.Alive() == {} <==> s.plant.host.paused || (s.record.started && !s.record.revived)))
  {
    InvRun(capacity, states, acts, k);
    if states[k].ctl.lock.Free? { QuietWhenFree(states[k]); }
  }

  /** Appending one enabled action to a run. */
  lemma Extend<T>(states: seq<State<T>>, acts: seq<Action<T>>, a: Action<T>) returns (states': seq<State<T>>, acts': seq<Action<T>>)
    requires Run(states, acts) && Enabled(states[|acts|], a)
    ensures states' == states + [Apply(states[|acts|], a)] && acts' == acts + [a]
    ensures Run(states', acts') && |acts'| == |acts| + 1 && states'[|acts'|] == Apply(states[|acts|], a)
    ensures states'[0] == states[0]
  {
    states', acts' := states + [Apply(states[|acts|], a)], acts + [a];
    forall i | 0 <= i < |acts'| ensures Step(states'[i], acts'[i], states'[i + 1]) {
      if i < |acts| { assert Step(states[i], acts[i], states[i + 1]); }
    }
  }

  /** A service asked to pause before its host has started. */
  lemma StartedRun() returns (states: seq<State<nat>>, acts: seq<Action<nat>>)
    ensures Run(states, acts) && states[0] == Start(1)
    ensures var s := states[|acts|];
            && s.ctl == Ctl(HostStarted, Idle, Free, false, true, false, false)
            && s.plant == Plant(Host(true, false), Pipe(true, Some(0), map[0 := Check], 1))
            && s.record.started
  {
    states, acts := [Start(1)], [];
    states, acts := Extend(states, acts, Arrive(Pause));
    states, acts := Extend(states, acts, Acquire);
    states, acts := Extend(states, acts, ReportStart);
    states, acts := Extend(states, acts, HostStartPipe);
    states, acts := Extend(states, acts, HostSpawnLoop);
    states, acts := Extend(states, acts, HostBindServer(true));
  }

  /** The same service up to its PAUSED report. */
  lemma PausedRun() returns (states: seq<State<nat>>, acts: seq<Action<nat>>)
    ensures Run(states, acts) && states[0] == Start(1)
    ensures var s := states[|acts|];
            && s.ctl == Ctl(Waiting, Idle, Free, true, true, false, false)
            && s.plant == Plant(Host(true, true), Pipe(false, None, map[], 1))
            && s.record.started
  {
    states, acts := StartedRun();
    states, acts := Extend(states, acts, FinalizeStart);
    states, acts := Extend(states, acts, MainWork);
    states, acts := Extend(states, acts, MainWork);
    states, acts := Extend(states, acts, LoopStep(0, 7));
    states, acts := Extend(states, acts, MainWork);
    states, acts := Extend(states, acts, MainWork);
    assert states[|acts|].plant.pipe.threads == map[];
  }

  /** Both ways to stay loud are real. One: stop a paused service, then continue it before ServiceMain reports STOPPED,
      and a collector loop runs on in a stopped service. */
  lemma ContinueAfterStopRevives() returns (states: seq<State<nat>>, acts: seq<Action<nat>>)
    ensures Run(states, acts) && states[0] == Start(1)
    ensures Stopped in states[|acts|].record.reports && states[|acts|].record.started && states[|acts|].record.revived
    ensures |states[|acts|].plant.pipe.Alive()| == 1
  {
    states, acts := PausedRun();
    states, acts := Extend(states, acts, Arrive(Stop));
    states, acts := Extend(states, acts, Acquire);
    states, acts := Extend(states, acts, HandlerWork);
    states, acts := Extend(states, acts, HandlerWork);
    states, acts := Extend(states, acts, HandlerWork);
    states, acts := Extend(states, acts, Arrive(Continue));
    states, acts := Extend(states, acts, Acquire);
    states, acts := Extend(states, acts, HandlerWork);
    states, acts := Extend(states, acts, HandlerWork);
    states, acts := Extend(states, acts, HandlerWork);
    states, acts := Extend(states, acts, HandlerWork);
    states, acts := Extend(states, acts, Wake);
    states, acts := Extend(states, acts, ReportStopped);
    assert states[|acts|].plant.pipe.Alive() == {1};
  }

  /** A service whose host could not bind, serving nothing. */
  lemma FailedStartRun() returns (states: seq<State<nat>>, acts: seq<Action<nat>>)
    ensures Run(states, acts) && states[0] == Start(1)
    ensures var s := states[|acts|];
            && s.ctl == Ctl(Waiting, Idle, Free, true, false, false, false)
            && s.plant == Plant(Host(false, false), Pipe(true, Some(0), map[0 := Check], 1))
            && !s.record.started && !s.record.revived
  {
    states, acts := [Start(1)], [];
    states, acts := Extend(states, acts, ReportStart);
    states, acts := Extend(states, acts, HostStartPipe);
    states, acts := Extend(states, acts, HostSpawnLoop);
    states, acts := Extend(states, acts, HostBindServer(false));
    states, acts := Extend(states, acts, FinalizeStart);
  }

  /** The other: when no server can be built the collectors have been started all the same, the
      host does not count as running, and a stop leaves them alone. */
  lemma FailedStartNeverStops() returns (states: seq<State<nat>>, acts: seq<Action<nat>>)
    ensures Run(states, acts) && states[0] == Start(1)
    ensures var s := states[|acts|];
            && Stopped in s.record.reports && !s.record.started && !s.record.revived
            && s.ctl.lock.Free? && |s.plant.pipe.Alive()| == 1
  {
    states, acts := FailedStartRun();
    states, acts := Extend(states, acts, Arrive(Stop));
    states, acts := Extend(states, acts, Acquire);
    states, acts := Extend(states, acts, HandlerWork);
    states, acts := Extend(states, acts, HandlerWork);
    states, acts := Extend(states, acts, Wake);
    states, acts := Extend(states, acts, ReportStopped);
    assert states[|acts|].plant.pipe.Alive() == {0};
  }
}
