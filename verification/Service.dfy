/** `CollectorPipeline`, `ServiceHost` and `ServiceController` as the classes they are, their callbacks
    run from beginning to end, and the proof that the interleaved service looks just like that to
    whoever has the state mutex. */
module Service {
  import opened Text
  import opened Lifecycle
  import opened LifecycleRuns

  // ---------------------------------------------------------------- a callback run alone

  /** Bound on the actions a callback still has before it. */
  function Rank(w: Work): nat {
    match w
    case PauseEnter => 4 case PauseStop => 3 case PauseJoin => 2 case PauseReport => 1
    case ContEnter => 4 case ContStart => 3 case ContSpawn => 2 case ContReport => 1
    case StopEnter => 4 case StopPipe => 3 case StopJoin => 2 case StopDone => 1
  }

  function Ran(p: Plant, w: Work): Plant
    decreases Rank(w)
  {
    match NextWork(p, w)
    case None => Worked(p, w)
    case Some(next) => Ran(Worked(p, w), next)
  }

  /** The plant without the position of each thread in its loop. */
  function Outline(p: Plant): Plant {
    p.(pipe := p.pipe.(threads := map t | t in p.pipe.threads :: Check))
  }

  lemma OutlineWorked(p: Plant, w: Work)
    ensures Outline(Worked(p, w)) == Outline(Worked(Outline(p), w))
    ensures NextWork(p, w) == NextWork(Outline(p), w)
  {
    if w.PauseJoin? || w.StopJoin? || w.ContSpawn? {
      assert Outline(Worked(p, w)).pipe.threads == Outline(Worked(Outline(p), w)).pipe.threads;
    } else {
      assert Outline(Outline(p)).pipe.threads == Outline(p).pipe.threads;
    }
  }

  /** What a callback does to the plant does not depend on where the threads stand. */
  lemma {:induction false} OutlineRan(p: Plant, q: Plant, w: Work)
    requires Outline(p) == Outline(q)
    ensures Outline(Ran(p, w)) == Outline(Ran(q, w))
    decreases Rank(w)
  {
    OutlineWorked(p, w);
    OutlineWorked(q, w);
    match NextWork(p, w)
    case None =>
    case Some(next) => OutlineRan(Worked(p, w), Worked(q, w), next);
  }

  lemma OutlineLoop(p: Plant, t: nat)
    requires t in p.pipe.threads
    ensures Outline(p.(pipe := Looped(p.pipe, t))) == Outline(p)
  {
    assert Outline(p.(pipe := Looped(p.pipe, t))).pipe.threads == Outline(p).pipe.threads;
  }

  // ---------------------------------------------------------------- the service with atomic callbacks

  /** What the state mutex protects. */
  datatype View = View(startDone: bool, pauseRequested: bool, stopRequested: bool, exitEvent: bool,
                       plant: Plant, reports: seq<Report>)

  function Begin(control: Control): Work {
    match control case Stop => StopEnter case Pause => PauseEnter case Continue => ContEnter
  }

  /** The report before a callback and the one after it. */
  function Pending(w: Work): Report {
    if w.IsStop() then StopPending else if w.IsCont() then ContinuePending else PausePending
  }
  function Closing(w: Work): seq<Report> {
    if w.IsStop() then [] else if w.IsCont() then [Running] else [Paused]
  }

  function WithCallback(v: View, w: Work): View {
    v.(plant := Outline(Ran(v.plant, w)), reports := v.reports + [Pending(w)] + Closing(w))
  }

  /** A control, handled in one piece. */
  function Controlled(v: View, control: Control): View {
    var v := match control
             case Stop => v.(stopRequested := true, exitEvent := true)
             case Pause => v.(pauseRequested := true)
             case Continue => v.(pauseRequested := false);
    if v.startDone then WithCallback(v, Begin(control)) else v
  }

  /** The end of startup, in one piece. */
  function Finalised(v: View): View {
    var v := v.(startDone := true);
    if v.stopRequested then WithCallback(v, StopEnter)
    else if v.pauseRequested then WithCallback(v, PauseEnter)
    else v.(reports := v.reports + [Running])
  }

  // ---------------------------------------------------------------- refinement

  /** The state as it will be once the callback in progress, if any, is over. */
  function Settled<T>(s: State<T>): View {
    var c := s.ctl;
    match PhaseOf(c)
    case In(w) => View(c.startDone, c.pauseRequested, c.stopRequested, c.exitEvent || (c.handler.Busy? && w.IsStop()),
                       Outline(Ran(s.plant, w)), s.record.reports + Closing(w))
    case _ => View(c.startDone, c.pauseRequested, c.stopRequested, c.exitEvent, Outline(s.plant), s.record.reports)
  }

  /** What each action does to the settled state: taking the mutex does a whole callback, the callback's
      own actions and the collector threads do nothing. */
  function Atomically<T>(v: View, s: State<T>, a: Action<T>): View
    requires Enabled(s, a)
  {
    match a
    case Acquire => Controlled(v, s.ctl.handler.control)
    case FinalizeStart => Finalised(v)
    case ReportStart => v.(reports := v.reports + [StartPending])
    case ReportStopped => v.(reports := v.reports + [Stopped])
    case HostStartPipe => v.(plant := v.plant.(pipe := v.plant.pipe.(running := true)))
    case HostSpawnLoop => v.(plant := Outline(v.plant.(pipe := v.plant.pipe.Spawn())))
    case HostBindServer(ok) => v.(plant := v.plant.(host := v.plant.host.(running := ok)))
    case _ => v
  }

  lemma OutlineTwice(p: Plant)
    ensures Outline(Outline(p)) == Outline(p)
  {
    assert Outline(Outline(p)).pipe.threads == Outline(p).pipe.threads;
  }

  lemma SettledBegin(p: Plant, control: Control)
    ensures Outline(Ran(Outline(p), Begin(control))) == Outline(Ran(p, Begin(control)))
  {
    OutlineTwice(p);
    OutlineRan(Outline(p), p, Begin(control));
  }

  lemma SettledWork<T>(s: State<T>, a: Action<T>, t: State<T>)
    requires Locking(s.ctl) && Step(s, a, t) && (a.MainWork? || a.HandlerWork?)
    ensures Settled(t) == Settled(s)
  {
    var w := PhaseWork(s, a, t);
    NextKind(s.plant, w);
    assert a.HandlerWork? <==> s.ctl.handler.Busy?;
  }

  lemma SettledLoop<T>(s: State<T>, a: Action<T>, t: State<T>)
    requires Locking(s.ctl) && Step(s, a, t) && a.LoopStep?
    ensures Settled(t) == Settled(s)
  {
    OutlineLoop(s.plant, a.thread);
    match PhaseOf(s.ctl)
    case In(w) => OutlineRan(s.plant, t.plant, w);
    case _ =>
  }

  lemma SettledAcquire<T>(s: State<T>, a: Action<T>, t: State<T>)
    requires Locking(s.ctl) && Step(s, a, t) && a.Acquire?
    ensures Settled(t) == Controlled(Settled(s), s.ctl.handler.control)
  {
    var control := s.ctl.handler.control;
    PhaseHandled(s.ctl, control);
    SettledBegin(s.plant, control);
  }

  lemma SettledFinal<T>(s: State<T>, a: Action<T>, t: State<T>)
    requires Locking(s.ctl) && Stopping(s.ctl, s.record) && Step(s, a, t) && a.FinalizeStart?
    ensures Settled(t) == Finalised(Settled(s))
  {
    PhaseFinal(s.ctl);
    SettledBegin(s.plant, Stop);
    SettledBegin(s.plant, Pause);
  }

  lemma SettledHost<T>(s: State<T>, a: Action<T>, t: State<T>)
    requires Locking(s.ctl) && Step(s, a, t) && InHostStart(a)
    ensures Settled(t) == Atomically(Settled(s), s, a)
  {
    if a.HostSpawnLoop? {
      assert Outline(s.plant.(pipe := s.plant.pipe.Spawn())).pipe.threads
          == Outline(Outline(s.plant).(pipe := Outline(s.plant).pipe.Spawn())).pipe.threads;
    }
  }

  /** The interleaved service refines the one with atomic callbacks: control by control, in the order
      in which they get the mutex, flags, reports and plant come out as if nothing else were running. */
  lemma RefinesAtomic<T>(s: State<T>, a: Action<T>, t: State<T>)
    requires Locking(s.ctl) && Stopping(s.ctl, s.record) && Step(s, a, t)
    ensures Settled(t) == Atomically(Settled(s), s, a)
  {
    if a.MainWork? || a.HandlerWork? {
      SettledWork(s, a, t);
    } else if a.LoopStep? {
      SettledLoop(s, a, t);
    } else if a.Acquire? {
      SettledAcquire(s, a, t);
    } else if a.FinalizeStart? {
      SettledFinal(s, a, t);
    } else if InHostStart(a) {
      SettledHost(s, a, t);
    } else {
      PhaseMinor(s, a, t);
    }
  }

  /** `ServiceHost::Start` as the class below does it, in one piece. */
  function AfterHostStart(p: Plant, bound: bool): Plant {
    var pipe := if p.pipe.running then p.pipe else p.pipe.(running := true).Spawn();
    Plant(p.host.(running := bound), pipe)
  }

  /** ServiceMain's steps through it come to the same. */
  lemma HostStartInTurn<T>(s: State<T>, bound: bool)
    requires Enabled(s, HostStartPipe)
    ensures var s1 := Apply(s, HostStartPipe);
            var s2 := if s1.ctl.main.HostSpawn? then Apply(s1, HostSpawnLoop) else s1;
            && Enabled(s2, HostBindServer(bound))
            && Apply(s2, HostBindServer(bound)).plant == AfterHostStart(s.plant, bound)
  {
    var s1 := Apply(s, HostStartPipe);
    assert s1.ctl.main.HostSpawn? <==> !s.plant.pipe.running;
    if s.plant.pipe.running { assert s1.plant.pipe == s.plant.pipe; }
  }

  // ---------------------------------------------------------------- any number of controls

  function AllControlled(v: View, controls: seq<Control>): View {
    if controls == [] then v
    else
      var n := |controls| - 1;
      Controlled(AllControlled(v, controls[..n]), controls[n])
  }

  function Responded(v: View, more: seq<Control>): View {
    if more == [] then v else Controlled(v, more[0])
  }

  lemma OneTurn<T>(s: State<T>, a: Action<T>, t: State<T>)
    requires Inv(s) && Step(s, a, t) && s.ctl.startDone
    ensures t.ctl.startDone && (s.ctl.main.Finished? ==> t.ctl.main.Finished?)
    ensures !t.ctl.main.Finished? ==> Settled(t) == Responded(Settled(s), ControlOf(s, a))
  {
    RefinesAtomic(s, a, t);
  }

  lemma RespondedNext(v: View, cs: seq<Control>, more: seq<Control>)
    requires |more| <= 1
    ensures AllControlled(v, cs + more) == Responded(AllControlled(v, cs), more)
  {
    if more == [] { assert cs + more == cs; } else { assert (cs + more)[..|cs|] == cs; }
  }

  /** The settled states along a run, and whether ServiceMain has finished. */
  ghost predicate InTurn<T>(states: seq<State<T>>, acts: seq<Action<T>>, views: seq<View>, k: nat)
    requires |views| == |states| == |acts| + 1 && k < |acts|
  {
    && states[k + 1].ctl.startDone && (states[k].ctl.main.Finished? ==> states[k + 1].ctl.main.Finished?)
    && (!states[k + 1].ctl.main.Finished? ==> views[k + 1] == Responded(views[k], ControlOf(states[k], acts[k])))
  }

  lemma TurnAt<T>(capacity: nat, states: seq<State<T>>, acts: seq<Action<T>>, i: nat, k: nat)
    requires Run(states, acts) && states[0] == Start(capacity) && i <= k < |acts| && states[i].ctl.startDone
    ensures states[k + 1].ctl.startDone && (states[k].ctl.main.Finished? ==> states[k + 1].ctl.main.Finished?)
    ensures !states[k + 1].ctl.main.Finished? ==>
              Settled(states[k + 1]) == Responded(Settled(states[k]), ControlOf(states[k], acts[k]))
  {
    assert states[k].ctl.startDone by { StartupStays(capacity, states, acts, i, k); }
    assert Inv(states[k]) by { InvRun(capacity, states, acts, k); }
    OneTurn(states[k], acts[k], states[k + 1]);
  }

  lemma {:induction false} ViewsInTurn<T>(states: seq<State<T>>, acts: seq<Action<T>>, views: seq<View>, i: nat, j: nat)
    requires |views| == |states| == |acts| + 1 && i <= j <= |acts|
    requires forall k :: i <= k < j ==> InTurn(states, acts, views, k)
    ensures !states[j].ctl.main.Finished? ==> views[j] == AllControlled(views[i], Acquired(states, acts, i, j))
    decreases j
  {
    if i < j {
      ViewsInTurn(states, acts, views, i, j - 1);
      assert InTurn(states, acts, views, j - 1);
      RespondedNext(views[i], Acquired(states, acts, i, j - 1), ControlOf(states[j - 1], acts[j - 1]));
    }
  }

  /** Over any stretch of a run after startup and before STOPPED, however the threads interleave, the
      settled state is what the controls make of it one after the other. */
  lemma ControlsInTurn<T>(capacity: nat, states: seq<State<T>>, acts: seq<Action<T>>, i: nat, j: nat)
    requires Run(states, acts) && states[0] == Start(capacity) && i <= j <= |acts|
    requires states[i].ctl.startDone && !states[j].ctl.main.Finished?
    ensures Settled(states[j]) == AllControlled(Settled(states[i]), Acquired(states, acts, i, j))
  {
    var views := seq(|states|, k requires 0 <= k < |states| => Settled(states[k]));
    forall k | i <= k < j ensures InTurn(states, acts, views, k) {
      TurnAt(capacity, states, acts, i, k);
    }
    ViewsInTurn(states, acts, views, i, j);
  }

  /** A started service that has not been asked to stop. */
  predicate Serving(v: View) {
    && v.startDone && !v.stopRequested && v.plant.host.running
    && v.plant.host.paused == v.pauseRequested
    && v.plant.pipe.running == !v.pauseRequested
    && v.plant.pipe.running == v.plant.pipe.handle.Some?
    && v.plant.pipe.threads.Keys == (if v.plant.pipe.running then {v.plant.pipe.handle.value} else {})
    && v.reports != [] && Last(v.reports) == (if v.pauseRequested then Paused else Running)
  }

  lemma ServeOne(v: View, control: Control)
    requires Serving(v) && !control.Stop?
    ensures var v' := Controlled(v, control);
            && Serving(v') && v'.pauseRequested == control.Pause?
            && v'.plant.pipe.spawned == v.plant.pipe.spawned + (if v.pauseRequested && control.Continue? then 1 else 0)
            && |v'.reports| == |v.reports| + 2
  {
  }

  /** The continue controls that find the service paused. */
  function Resumptions(paused: bool, controls: seq<Control>): nat {
    if controls == [] then 0
    else
      var n := |controls| - 1;
      Resumptions(paused, controls[..n])
      + (if controls[n].Continue? && (if n == 0 then paused else controls[n - 1].Pause?) then 1 else 0)
  }

  /** What two settled states say of the controls between them. */
  predicate Followed(v: View, controls: seq<Control>, w: View) {
    && w.pauseRequested == (if controls == [] then v.pauseRequested else controls[|controls| - 1].Pause?)
    && w.plant.host.paused == w.pauseRequested
    && w.plant.pipe.spawned == v.plant.pipe.spawned + Resumptions(v.pauseRequested, controls)
    && |w.reports| == |v.reports| + 2 * |controls|
  }

  /** Any sequence of pauses and continues leaves the service as its last one says, with two reports
      for each, and starts a thread exactly for those continues that follow a pause; repeating a
      control changes nothing more. */
  lemma {:induction false} LastControlDecides(v: View, controls: seq<Control>)
    requires Serving(v) && Stop !in controls
    ensures Serving(AllControlled(v, controls)) && Followed(v, controls, AllControlled(v, controls))
  {
    if controls != [] {
      var n := |controls| - 1;
      LastControlDecides(v, controls[..n]);
      ServeOne(AllControlled(v, controls[..n]), controls[n]);
    }
  }

  lemma ServingBetweenControls<T>(s: State<T>)
    requires Inv(s) && s.ctl.lock.Free? && s.ctl.startDone && s.record.started && !s.ctl.stopRequested
    ensures Serving(Settled(s))
  {
  }

  lemma SettledWhenFree<T>(s: State<T>)
    requires Locking(s.ctl) && s.ctl.lock.Free?
    ensures var v := Settled(s);
            && v.pauseRequested == s.ctl.pauseRequested && v.reports == s.record.reports
            && v.plant.host == s.plant.host && v.plant.pipe.spawned == s.plant.pipe.spawned
  {
  }

  /** Over any stretch of a run between two moments when the mutex is free, in which only pauses and
      continues get it: the last of them decides, each is answered with two reports, and the collector
      threads started are those of the continues that found the service paused. */
  lemma StretchOfControls<T>(capacity: nat, states: seq<State<T>>, acts: seq<Action<T>>, i: nat, j: nat)
    requires Run(states, acts) && states[0] == Start(capacity) && i <= j <= |acts|
    requires states[i].ctl.lock.Free? && states[j].ctl.lock.Free? && !states[j].ctl.main.Finished?
    requires states[i].ctl.startDone && states[i].record.started && !states[i].ctl.stopRequested
    requires Stop !in Acquired(states, acts, i, j)
    ensures var controls, s, t := Acquired(states, acts, i, j), states[i], states[j];
            && t.ctl.pauseRequested == (if controls == [] then s.ctl.pauseRequested else controls[|controls| - 1].Pause?)
            && t.plant.host.paused == t.ctl.pauseRequested
            && t.plant.pipe.spawned == s.plant.pipe.spawned + Resumptions(s.ctl.pauseRequested, controls)
            && |t.record.reports| == |s.record.reports| + 2 * |controls|
  {
    assert Locking(states[i].ctl) && Locking(states[j].ctl) by {
      InvRun(capacity, states, acts, i);
      InvRun(capacity, states, acts, j);
    }
    assert Followed(Settled(states[i]), Acquired(states, acts, i, j), Settled(states[j])) by {
      assert Serving(Settled(states[i])) by {
        InvRun(capacity, states, acts, i);
        ServingBetweenControls(states[i]);
      }
      ControlsInTurn(capacity, states, acts, i, j);
      LastControlDecides(Settled(states[i]), Acquired(states, acts, i, j));
    }
    SettledWhenFree(states[i]);
    SettledWhenFree(states[j]);
  }

  // ---------------------------------------------------------------- the classes

  class CollectorPipeline {
    var running: bool
    /** The joinable thread, the threads not joined, and how many were ever started. */
    var thread: Option<nat>
    var unjoined: set<nat>
    var spawned: nat

    constructor ()
      ensures AsPipe() == Pipe(false, None, map[], 0)
    {
      running, thread, unjoined, spawned := false, None, {}, 0;
    }

    ghost function AsPipe(): Pipe
      reads this
    {
      Pipe(running, thread, map t | t in unjoined :: Check, spawned)
    }

    method Start()
      modifies this
      ensures AsPipe() == if old(running) then old(AsPipe()) else old(AsPipe()).(running := true).Spawn()
    {
      var was := running;
      running := true;
      if was {
        return;
      }
      thread := Some(spawned);
      unjoined := unjoined + {spawned};
      spawned := spawned + 1;
      assert AsPipe().threads == old(AsPipe()).threads[old(spawned) := Check];
    }

    method Stop()
      modifies this
      ensures AsPipe() == if old(running) then old(AsPipe()).(running := false).Join() else old(AsPipe())
    {
      var was := running;
      running := false;
      if !was {
        return;
      }
      if thread.Some? {
        unjoined := unjoined - {thread.value};
        thread := None;
      }
      assert old(thread).Some? ==> AsPipe().threads == old(AsPipe()).threads - {old(thread).value};
    }
  }

  class ServiceHost {
    var running: bool
    var paused: bool
    const pipeline: CollectorPipeline

    constructor ()
      ensures fresh(pipeline)
      ensures AsPlant() == Plant(Host(false, false), Pipe(false, None, map[], 0))
    {
      running, paused := false, false;
      pipeline := new CollectorPipeline();
    }

    ghost function AsPlant(): (p: Plant)
      reads this, pipeline
      ensures Outline(p) == p
    {
      var p := Plant(Host(running, paused), pipeline.AsPipe());
      assert Outline(p).pipe.threads == p.pipe.threads;
      p
    }

    /** `bound`: could the server be built, on the pipe or on the TCP fallback? */
    method Start(bound: bool) returns (ok: bool)
      modifies this, pipeline
      ensures ok == (old(running) || bound)
      ensures AsPlant() == if old(running) then old(AsPlant()) else AfterHostStart(old(AsPlant()), bound)
    {
      if running {
        return true;
      }
      pipeline.Start();
      if !bound {
        return false;
      }
      running := true;
      return true;
    }

    method Stop()
      modifies this, pipeline
      ensures AsPlant() == Ran(old(AsPlant()), StopEnter)
    {
      var was := running;
      running := false;
      if !was {
        return;
      }
      pipeline.Stop();
    }

    method PauseCollectors()
      modifies this, pipeline
      ensures AsPlant() == Ran(old(AsPlant()), PauseEnter)
    {
      var was := paused;
      paused := true;
      if was {
        return;
      }
      pipeline.Stop();
    }

    method ResumeCollectors()
      modifies this, pipeline
      ensures AsPlant() == Ran(old(AsPlant()), ContEnter)
    {
      var was := paused;
      paused := false;
      if !was {
        return;
      }
      pipeline.Start();
    }
  }

  class ServiceController {
    var startDone: bool
    var pauseRequested: bool
    var stopRequested: bool
    var exitEvent: bool
    /** What SetServiceStatus was told. */
    var reports: seq<Report>
    const host: ServiceHost

    constructor (host: ServiceHost)
      ensures this.host == host && AsView() == View(false, false, false, false, host.AsPlant(), [])
    {
      startDone, pauseRequested, stopRequested, exitEvent, reports := false, false, false, false, [];
      this.host := host;
    }

    ghost function AsView(): View
      reads this, host, host.pipeline
    {
      View(startDone, pauseRequested, stopRequested, exitEvent, host.AsPlant(), reports)
    }

    method ReportState(report: Report)
      modifies this
      ensures reports == old(reports) + [report]
      ensures startDone == old(startDone) && pauseRequested == old(pauseRequested)
      ensures stopRequested == old(stopRequested) && exitEvent == old(exitEvent)
    {
      reports := reports + [report];
    }

    method HandleControl(control: Control)
      modifies this, host, host.pipeline
      ensures AsView() == Controlled(old(AsView()), control)
    {
      match control {
        case Stop =>
          stopRequested := true;
          if startDone {
            ReportState(StopPending);
            host.Stop();
          }
          exitEvent := true;
        case Pause =>
          pauseRequested := true;
          if !startDone {
            return;
          }
          ReportState(PausePending);
          host.PauseCollectors();
          ReportState(Paused);
        case Continue =>
          pauseRequested := false;
          if !startDone {
            return;
          }
          ReportState(ContinuePending);
          host.ResumeCollectors();
          ReportState(Running);
      }
    }

    method FinalizeStart()
      modifies this, host, host.pipeline
      ensures AsView() == Finalised(old(AsView()))
    {
      startDone := true;
      if stopRequested {
        ReportState(StopPending);
        host.Stop();
      } else if pauseRequested {
        ReportState(PausePending);
        host.PauseCollectors();
        ReportState(Paused);
      } else {
        ReportState(Running);
      }
    }
  }
}
