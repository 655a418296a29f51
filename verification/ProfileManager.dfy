/** Profile switching: snapshot, apply, and on the first refusal roll back in reverse order.

    Executors act on one shared world, so the order of the rollback matters: each one is undone in the
    very world its application left behind. */
module Switching {
  import opened Text
  import opened Profiles

  // ---------------------------------------------------------------- executors

  datatype Effect<+W> = Effect(world: W, ok: bool, message: string)

  datatype Executor<!W> = Executor(key: string, available: W -> bool, read: W -> string,
                                   apply: (W, string) -> Effect<W>)

  /** Applying the value read before a successful application restores the world. */
  ghost predicate UndoesAt<W>(e: Executor<W>, good: W -> bool, w: W, v: string) {
    good(w) && e.apply(w, v).ok ==>
      good(e.apply(w, v).world) && e.apply(e.apply(w, v).world, e.read(w)).world == w
  }

  ghost predicate Undoes<W(!new)>(e: Executor<W>, good: W -> bool) {
    forall w, v :: UndoesAt(e, good, w, v)
  }

  ghost predicate FailsCleanly<W(!new)>(e: Executor<W>, good: W -> bool) {
    forall w, v :: good(w) && !e.apply(w, v).ok ==> e.apply(w, v).world == w
  }

  ghost predicate Lawful<W(!new)>(executors: seq<Executor<W>>, good: W -> bool) {
    forall i :: 0 <= i < |executors| ==> Undoes(executors[i], good) && FailsCleanly(executors[i], good)
  }

  /** The first executor with the key. */
  function Find<W>(executors: seq<Executor<W>>, key: string): (r: Option<nat>)
    ensures r.Some? ==> r.value < |executors| && executors[r.value].key == key
    ensures r.Some? ==> forall i :: 0 <= i < r.value ==> executors[i].key != key
    ensures r.None? ==> forall i :: 0 <= i < |executors| ==> executors[i].key != key
  {
    FindFrom(executors, key, 0)
  }

  function FindFrom<W>(executors: seq<Executor<W>>, key: string, from: nat): (r: Option<nat>)
    requires from <= |executors|
    ensures r.Some? ==> from <= r.value < |executors| && executors[r.value].key == key
    ensures r.Some? ==> forall i :: from <= i < r.value ==> executors[i].key != key
    ensures r.None? ==> forall i :: from <= i < |executors| ==> executors[i].key != key
    decreases |executors| - from
  {
    if from == |executors| then None
    else if executors[from].key == key then Some(from)
    else FindFrom(executors, key, from + 1)
  }

  // ---------------------------------------------------------------- the transaction

  datatype Undo = Undo(executor: nat, previous: string)

  datatype Refusal = Missing(key: string) | Unavailable(key: string) | Failed(key: string, message: string) {
    function Reason(): string {
      match this
      case Missing(key) => "no executor for key " + key
      case Unavailable(key) => "executor unavailable: " + key
      case Failed(_, message) => message
    }

    function EventText(): string {
      match this
      case Failed(key, message) => key + ": " + message + " (rolled back)"
      case _ => Reason()
    }
  }

  /** The world after the first n settings have been applied. */
  function After<W>(executors: seq<Executor<W>>, settings: seq<Entry<string>>, w: W, n: nat): W
    requires n <= |settings|
  {
    if n == 0 then w
    else
      var before := After(executors, settings, w, n - 1);
      match Find(executors, settings[n - 1].key)
      case None => before
      case Some(e) => executors[e].apply(before, settings[n - 1].value).world
  }

  /** Why setting n cannot be applied, given that all before it have been. */
  function Refused<W>(executors: seq<Executor<W>>, settings: seq<Entry<string>>, w: W, n: nat): Option<Refusal>
    requires n < |settings|
  {
    var key, before := settings[n].key, After(executors, settings, w, n);
    match Find(executors, key)
    case None => Some(Missing(key))
    case Some(e) =>
      if !executors[e].available(before) then Some(Unavailable(key))
      else
        var effect := executors[e].apply(before, settings[n].value);
        if effect.ok then None else Some(Failed(key, effect.message))
  }

  /** How many settings are applied before the first refusal. */
  function Accepted<W>(executors: seq<Executor<W>>, settings: seq<Entry<string>>, w: W, from: nat): (n: nat)
    requires from <= |settings|
    ensures from <= n <= |settings|
    ensures forall i :: from <= i < n ==> Refused(executors, settings, w, i).None?
    ensures n < |settings| ==> Refused(executors, settings, w, n).Some?
    decreases |settings| - from
  {
    if from == |settings| || Refused(executors, settings, w, from).Some? then from
    else Accepted(executors, settings, w, from + 1)
  }

  lemma {:induction false} AcceptedFrom<W>(executors: seq<Executor<W>>, settings: seq<Entry<string>>, w: W, i: nat)
    requires i <= |settings|
    requires forall k :: 0 <= k < i ==> Refused(executors, settings, w, k).None?
    ensures Accepted(executors, settings, w, 0) == Accepted(executors, settings, w, i)
  {
    if i > 0 { AcceptedFrom(executors, settings, w, i - 1); }
  }

  /** What `applied` holds after n settings: each executor with the value it had just before. */
  function Undos<W>(executors: seq<Executor<W>>, settings: seq<Entry<string>>, w: W, n: nat): (undos: seq<Undo>)
    requires n <= |settings|
    requires forall i :: 0 <= i < n ==> Refused(executors, settings, w, i).None?
    ensures |undos| == n
    ensures forall i :: 0 <= i < n ==> undos[i].executor < |executors| && executors[undos[i].executor].key == settings[i].key
  {
    if n == 0 then []
    else
      assert Refused(executors, settings, w, n - 1).None?;
      var e := Find(executors, settings[n - 1].key).value;
      Undos(executors, settings, w, n - 1) + [Undo(e, executors[e].read(After(executors, settings, w, n - 1)))]
  }

  /** The forward loop has applied the first i settings, which led to `reached`. */
  ghost predicate Progress<W>(executors: seq<Executor<W>>, settings: seq<Entry<string>>, w: W, i: nat, reached: W, applied: seq<Undo>) {
    && i <= |settings| && (forall k :: 0 <= k < i ==> Refused(executors, settings, w, k).None?)
    && reached == After(executors, settings, w, i) && applied == Undos(executors, settings, w, i)
  }

  /** The forward loop ends at setting i, in the world `reached`. */
  ghost predicate Stops<W>(executors: seq<Executor<W>>, settings: seq<Entry<string>>, w: W, i: nat, refusal: Refusal,
                           reached: W, applied: seq<Undo>) {
    && i == Accepted(executors, settings, w, 0) < |settings|
    && Refused(executors, settings, w, i) == Some(refusal)
    && Attempted(executors, settings, w, i) == reached
    && applied == Undos(executors, settings, w, i)
  }

  /** Everything that can become of setting i once those before it have been applied. */
  lemma SettingOutcome<W>(executors: seq<Executor<W>>, settings: seq<Entry<string>>, w: W, i: nat, reached: W, applied: seq<Undo>)
    requires i < |settings| && Progress(executors, settings, w, i, reached, applied)
    ensures var key := settings[i].key;
            match Find(executors, key)
            case None => Stops(executors, settings, w, i, Missing(key), reached, applied)
            case Some(e) =>
              var effect := executors[e].apply(reached, settings[i].value);
              if !executors[e].available(reached) then Stops(executors, settings, w, i, Unavailable(key), reached, applied)
              else if !effect.ok then Stops(executors, settings, w, i, Failed(key, effect.message), effect.world, applied)
              else Progress(executors, settings, w, i + 1, effect.world, applied + [Undo(e, executors[e].read(reached))])
  {
    AcceptedFrom(executors, settings, w, i);
  }

  predicate UndosValid<W>(executors: seq<Executor<W>>, undos: seq<Undo>) {
    forall i :: 0 <= i < |undos| ==> undos[i].executor < |executors|
  }

  /** Last applied, first restored. Whether a restoring `Apply` succeeds is not looked at. */
  function RollBack<W>(executors: seq<Executor<W>>, w: W, undos: seq<Undo>): W
    requires UndosValid(executors, undos)
  {
    if undos == [] then w
    else
      var last := undos[|undos| - 1];
      RollBack(executors, executors[last.executor].apply(w, last.previous).world, undos[..|undos| - 1])
  }

  function UndoKeys<W>(executors: seq<Executor<W>>, undos: seq<Undo>): (keys: seq<string>)
    requires UndosValid(executors, undos)
    ensures |keys| == |undos|
    ensures forall i :: 0 <= i < |undos| ==> keys[i] == executors[undos[i].executor].key
  {
    seq(|undos|, i requires 0 <= i < |undos| => executors[undos[i].executor].key)
  }

  // ---------------------------------------------------------------- one switch

  datatype Event = Event(level: string, title: string, message: string)
  datatype SwitchResult = SwitchResult(ok: bool, message: string, rolledBackKeys: seq<string>)

  /** `Threw`: reading the profile raised. */
  datatype Outcome = Returned(result: SwitchResult) | Threw {
    predicate Ok() { Returned? && result.ok }
  }

  /** A call of `SwitchTo`, with the fate of the write of `active.json` it ends in: could the temporary
      be opened, and was it renamed? */
  datatype Call = Call(id: string, canOpen: bool, moved: bool) {
    predicate Recorded() { canOpen && moved }
    function Reached(): (step: nat)
      ensures step < 4
    {
      StepReached(canOpen, moved)
    }
  }

  datatype Manager<+W> = Manager(files: Files, world: W, events: seq<Event>)

  /** Everything a switch changes. Events are published only when there is a bus. */
  function Switch<W>(executors: seq<Executor<W>>, bus: bool, m: Manager<W>, call: Call): (Manager<W>, Outcome) {
    match ReadProfile(m.files, call.id)
    case Raised => (m, Threw)
    case Rejected => (m, Returned(SwitchResult(false, "profile not found: " + call.id, [])))
    case Parsed(profile) =>
      var settings := profile.settings;
      var n := Accepted(executors, settings, m.world, 0);
      if n == |settings| then
        (Manager(ReplaceSteps(m.files, "active", ActiveDoc(call.id))[call.Reached()], After(executors, settings, m.world, n),
                 if bus then m.events + [Event("info", "Profile applied", profile.name)] else m.events),
         Returned(SwitchResult(true, "ok", [])))
      else
        var refusal := Refused(executors, settings, m.world, n).value;
        var undos := Undos(executors, settings, m.world, n);
        (m.(world := RollBack(executors, Attempted(executors, settings, m.world, n), undos),
            events := if bus then m.events + [Event("error", "Profile switch failed", refusal.EventText())] else m.events),
         Returned(SwitchResult(false, refusal.Reason(), Reverse(UndoKeys(executors, undos)))))
  }

  /** The world in which rolling back starts: a refused `Apply` has been called too. */
  function Attempted<W>(executors: seq<Executor<W>>, settings: seq<Entry<string>>, w: W, n: nat): W
    requires n < |settings| && Refused(executors, settings, w, n).Some?
  {
    if Refused(executors, settings, w, n).value.Failed?
    then After(executors, settings, w, n + 1)
    else After(executors, settings, w, n)
  }

  lemma SwitchRefused<W>(executors: seq<Executor<W>>, bus: bool, m: Manager<W>, call: Call, profile: Profile, n: nat)
    requires ReadProfile(m.files, call.id) == Parsed(profile)
    requires n == Accepted(executors, profile.settings, m.world, 0) < |profile.settings|
    ensures var refusal := Refused(executors, profile.settings, m.world, n).value;
            var undos := Undos(executors, profile.settings, m.world, n);
            Switch(executors, bus, m, call)
            == (Manager(m.files, RollBack(executors, Attempted(executors, profile.settings, m.world, n), undos),
                        if bus then m.events + [Event("error", "Profile switch failed", refusal.EventText())] else m.events),
                Returned(SwitchResult(false, refusal.Reason(), Reverse(UndoKeys(executors, undos)))))
  {
  }

  lemma SwitchAccepted<W>(executors: seq<Executor<W>>, bus: bool, m: Manager<W>, call: Call, profile: Profile)
    requires ReadProfile(m.files, call.id) == Parsed(profile)
    requires Accepted(executors, profile.settings, m.world, 0) == |profile.settings|
    ensures Switch(executors, bus, m, call)
            == (Manager(ReplaceSteps(m.files, "active", ActiveDoc(call.id))[call.Reached()],
                        After(executors, profile.settings, m.world, |profile.settings|),
                        if bus then m.events + [Event("info", "Profile applied", profile.name)] else m.events),
                Returned(SwitchResult(true, "ok", [])))
  {
  }

  class ProfileManager<W> {
    const store: ProfileStore
    const executors: seq<Executor<W>>
    const bus: bool
    var world: W
    var events: seq<Event>

    ghost predicate Valid()
      reads this, store
    {
      AllWellFormed(store.files)
    }

    ghost function State(): Manager<W>
      reads this, store
    {
      Manager(store.files, world, events)
    }

    constructor (store: ProfileStore, executors: seq<Executor<W>>, bus: bool, world: W)
      ensures this.store == store && this.executors == executors && this.bus == bus
      ensures State() == Manager(store.files, world, [])
    {
      this.store, this.executors, this.bus, this.world := store, executors, bus, world;
      events := [];
    }

    method FindExecutor(key: string) returns (r: Option<nat>)
      ensures r == Find(executors, key)
    {
      for i := 0 to |executors|
        invariant Find(executors, key) == FindFrom(executors, key, i)
      {
        if executors[i].key == key {
          return Some(i);
        }
      }
      return None;
    }

    method PublishNow(level: string, title: string, message: string)
      modifies this`events
      ensures events == if bus then old(events) + [Event(level, title, message)] else old(events)
    {
      if bus {
        events := events + [Event(level, title, message)];
      }
    }

    /** The backwards loop over `applied`. */
    method Restore(applied: seq<Undo>) returns (rolled: seq<string>)
      requires UndosValid(executors, applied)
      modifies this`world
      ensures world == RollBack(executors, old(world), applied)
      ensures rolled == Reverse(UndoKeys(executors, applied))
    {
      rolled := [];
      var k := |applied|;
      assert applied[..k] == applied;
      while k > 0
        invariant 0 <= k <= |applied| && |rolled| == |applied| - k
        invariant RollBack(executors, world, applied[..k]) == RollBack(executors, old(world), applied)
        invariant forall i :: 0 <= i < |rolled| ==> rolled[i] == UndoKeys(executors, applied)[|applied| - 1 - i]
      {
        k := k - 1;
        assert applied[..k + 1][..k] == applied[..k];
        var undo := applied[k];
        rolled := rolled + [executors[undo.executor].key];
        world := executors[undo.executor].apply(world, undo.previous).world;
      }
    }

    /** The forward loop: apply in key order until everything is applied or a setting is refused. */
    method ApplyAll(settings: seq<Entry<string>>) returns (applied: seq<Undo>, refusal: Option<Refusal>)
      modifies this`world
      ensures refusal.None? ==> && Accepted(executors, settings, old(world), 0) == |settings|
                                && Progress(executors, settings, old(world), |settings|, world, applied)
      ensures refusal.Some? ==> Stops(executors, settings, old(world), Accepted(executors, settings, old(world), 0),
                                      refusal.value, world, applied)
    {
      ghost var w := world;
      applied := [];
      for i := 0 to |settings|
        invariant Progress(executors, settings, w, i, world, applied)
      {
        SettingOutcome(executors, settings, w, i, world, applied);
        var key := settings[i].key;
        var found := FindExecutor(key);
        if found.None? {
          return applied, Some(Missing(key));
        }
        var executor := executors[found.value];
        if !executor.available(world) {
          return applied, Some(Unavailable(key));
        }
        var previous := executor.read(world);
        var effect := executor.apply(world, settings[i].value);
        world := effect.world;
        if !effect.ok {
          return applied, Some(Failed(key, effect.message));
        }
        applied := applied + [Undo(found.value, previous)];
      }
      AcceptedFrom(executors, settings, w, |settings|);
      return applied, None;
    }

    /** The two failing returns of a switch. */
    method Refuse(applied: seq<Undo>, refusal: Refusal) returns (outcome: Outcome)
      requires UndosValid(executors, applied)
      modifies this`world, this`events
      ensures world == RollBack(executors, old(world), applied)
      ensures events == if bus then old(events) + [Event("error", "Profile switch failed", refusal.EventText())] else old(events)
      ensures outcome == Returned(SwitchResult(false, refusal.Reason(), Reverse(UndoKeys(executors, applied))))
    {
      var rolled := Restore(applied);
      PublishNow("error", "Profile switch failed", refusal.EventText());
      return Returned(SwitchResult(false, refusal.Reason(), rolled));
    }

    /** `canOpen` and `moved` are the fate of the write that records the active id, which the switch
        does not look at. */
    method SwitchTo(id: string, canOpen: bool, moved: bool) returns (outcome: Outcome)
      requires Valid()
      modifies this`world, this`events, store
      ensures Valid()
      ensures (State(), outcome) == Switch(executors, bus, old(State()), Call(id, canOpen, moved))
    {
      var read := store.Get(id);
      if read.Raised? {
        return Threw;
      }
      if read.Rejected? {
        return Returned(SwitchResult(false, "profile not found: " + id, []));
      }
      ghost var call := Call(id, canOpen, moved);
      ghost var m, n := State(), Accepted(executors, read.profile.settings, world, 0);
      var applied, refusal := ApplyAll(read.profile.settings);
      if refusal.Some? {
        SwitchRefused(executors, bus, m, call, read.profile, n);
        outcome := Refuse(applied, refusal.value);
        return;
      }
      SwitchAccepted(executors, bus, m, call, read.profile);
      ReplaceKeepsWellFormed(store.files, "active", ActiveDoc(id), call.Reached());
      store.SetActiveId(id, canOpen, moved);
      PublishNow("info", "Profile applied", read.profile.name);
      return Returned(SwitchResult(true, "ok", []));
    }
  }

  // ---------------------------------------------------------------- a failing switch changes nothing

  /** One more application and one more undo leave the way back unchanged. */
  lemma UndoOne<W(!new)>(executors: seq<Executor<W>>, good: W -> bool, w: W, before: W, undos: seq<Undo>, e: nat, v: string)
    requires UndosValid(executors, undos) && RollBack(executors, before, undos) == w
    requires e < |executors| && Undoes(executors[e], good) && good(before) && executors[e].apply(before, v).ok
    ensures var after := executors[e].apply(before, v).world;
            var undos' := undos + [Undo(e, executors[e].read(before))];
            good(after) && UndosValid(executors, undos') && RollBack(executors, after, undos') == w
  {
    var undos' := undos + [Undo(e, executors[e].read(before))];
    assert undos'[..|undos|] == undos;
    assert UndoesAt(executors[e], good, before, v);
  }

  /** Setting n was applied by the executor found for it, whose value had been read just before. */
  lemma AppliedOne<W>(executors: seq<Executor<W>>, settings: seq<Entry<string>>, w: W, n: nat) returns (e: nat)
    requires n < |settings|
    requires forall i :: 0 <= i <= n ==> Refused(executors, settings, w, i).None?
    ensures var before := After(executors, settings, w, n);
            && e < |executors|
            && executors[e].apply(before, settings[n].value).ok
            && After(executors, settings, w, n + 1) == executors[e].apply(before, settings[n].value).world
            && Undos(executors, settings, w, n + 1)
               == Undos(executors, settings, w, n) + [Undo(e, executors[e].read(before))]
  {
    assert Refused(executors, settings, w, n).None?;
    e := Find(executors, settings[n].key).value;
  }

  lemma UnwindNext<W(!new)>(executors: seq<Executor<W>>, settings: seq<Entry<string>>, w: W, n: nat, good: W -> bool)
    requires Lawful(executors, good) && n < |settings|
    requires forall i :: 0 <= i <= n ==> Refused(executors, settings, w, i).None?
    requires good(After(executors, settings, w, n))
    requires RollBack(executors, After(executors, settings, w, n), Undos(executors, settings, w, n)) == w
    ensures good(After(executors, settings, w, n + 1))
    ensures RollBack(executors, After(executors, settings, w, n + 1), Undos(executors, settings, w, n + 1)) == w
  {
    var e := AppliedOne(executors, settings, w, n);
    UndoOne(executors, good, w, After(executors, settings, w, n), Undos(executors, settings, w, n), e, settings[n].value);
  }

  /** Undoing in reverse what was applied in order leads back to the start. */
  lemma {:induction false} Unwinds<W(!new)>(executors: seq<Executor<W>>, settings: seq<Entry<string>>, w: W, n: nat, good: W -> bool)
    requires Lawful(executors, good) && good(w) && n <= |settings|
    requires forall i :: 0 <= i < n ==> Refused(executors, settings, w, i).None?
    ensures good(After(executors, settings, w, n))
    ensures RollBack(executors, After(executors, settings, w, n), Undos(executors, settings, w, n)) == w
    decreases n
  {
    if n > 0 {
      Unwinds(executors, settings, w, n - 1, good);
      UnwindNext(executors, settings, w, n - 1, good);
    }
  }

  lemma AttemptIsClean<W(!new)>(executors: seq<Executor<W>>, settings: seq<Entry<string>>, w: W, n: nat, good: W -> bool)
    requires Lawful(executors, good) && n < |settings| && good(After(executors, settings, w, n))
    requires Refused(executors, settings, w, n).Some?
    ensures Attempted(executors, settings, w, n) == After(executors, settings, w, n)
  {
    if Refused(executors, settings, w, n).value.Failed? {
      var e := Find(executors, settings[n].key).value;
      assert FailsCleanly(executors[e], good);
    }
  }

  lemma ReverseDescends(keys: seq<string>)
    requires Ascending(keys)
    ensures Descending(Reverse(keys))
  {
  }

  /** Every failing switch leaves the world, the profiles and the active id as they were, whatever the
      executors are, as long as each undoes its own successful applications and fails cleanly. The keys
      reported as rolled back are exactly those before the first refused one, in reverse, and one error
      event tells about it. */
  lemma FailedSwitchIsUndone<W(!new)>(executors: seq<Executor<W>>, bus: bool, m: Manager<W>, call: Call, good: W -> bool)
    requires Lawful(executors, good) && good(m.world)
    requires ReadProfile(m.files, call.id).Parsed? && !Switch(executors, bus, m, call).1.Ok()
    requires Ordered(ReadProfile(m.files, call.id).profile.settings)
    ensures var (m', outcome) := Switch(executors, bus, m, call);
            var settings := ReadProfile(m.files, call.id).profile.settings;
            var n := Accepted(executors, settings, m.world, 0);
            && m'.world == m.world && m'.files == m.files
            && n < |settings|
            && outcome.Returned?
            && outcome.result.rolledBackKeys == Reverse(Keys(settings[..n]))
            && Descending(outcome.result.rolledBackKeys)
            && |m'.events| == |m.events| + (if bus then 1 else 0)
            && (bus ==> m'.events[|m.events|].level == "error")
  {
    var settings := ReadProfile(m.files, call.id).profile.settings;
    var n := Accepted(executors, settings, m.world, 0);
    Unwinds(executors, settings, m.world, n, good);
    AttemptIsClean(executors, settings, m.world, n, good);
    var keys := UndoKeys(executors, Undos(executors, settings, m.world, n));
    assert keys == Keys(settings[..n]);
    ReverseDescends(keys);
  }

  // ---------------------------------------------------------------- which switches succeed

  /** Setting i takes world w to w': the first executor with its key is available there and applies it. */
  ghost predicate Applies<W>(executors: seq<Executor<W>>, setting: Entry<string>, w: W, w': W) {
    exists e :: 0 <= e < |executors| && AppliesBy(executors, e, setting, w, w')
  }

  ghost predicate AppliesBy<W>(executors: seq<Executor<W>>, e: nat, setting: Entry<string>, w: W, w': W)
    requires e < |executors|
  {
    && executors[e].key == setting.key && (forall i :: 0 <= i < e ==> executors[i].key != setting.key)
    && executors[e].available(w)
    && executors[e].apply(w, setting.value).ok && executors[e].apply(w, setting.value).world == w'
  }

  /** The settings take the first of the worlds to the last, one by one. */
  ghost predicate Chain<W>(executors: seq<Executor<W>>, settings: seq<Entry<string>>, worlds: seq<W>) {
    && |worlds| == |settings| + 1
    && forall i {:trigger settings[i]} :: 0 <= i < |settings| ==> Applies(executors, settings[i], worlds[i], worlds[i + 1])
  }

  /** One setting is accepted if and only if it applies. */
  lemma AcceptedApplies<W>(executors: seq<Executor<W>>, settings: seq<Entry<string>>, w: W, n: nat, w': W)
    requires n < |settings|
    ensures Applies(executors, settings[n], After(executors, settings, w, n), w')
            <==> Refused(executors, settings, w, n).None? && After(executors, settings, w, n + 1) == w'
  {
    var before := After(executors, settings, w, n);
    if e :| 0 <= e < |executors| && AppliesBy(executors, e, settings[n], before, w') {
      var found := Find(executors, settings[n].key).value;
      assert found == e;
    }
    if Refused(executors, settings, w, n).None? && After(executors, settings, w, n + 1) == w' {
      assert AppliesBy(executors, Find(executors, settings[n].key).value, settings[n], before, w');
    }
  }

  lemma ChainNext<W>(executors: seq<Executor<W>>, setting: Entry<string>, settings: seq<Entry<string>>, w: W, before: W, after: W, n: nat)
    requires n < |settings| && setting == settings[n] && before == After(executors, settings, w, n)
    requires Applies(executors, setting, before, after)
    ensures Refused(executors, settings, w, n).None? && after == After(executors, settings, w, n + 1)
  {
    AcceptedApplies(executors, settings, w, n, after);
  }

  lemma {:induction false} ChainIsAfter<W>(executors: seq<Executor<W>>, settings: seq<Entry<string>>, w: W, worlds: seq<W>, n: nat)
    requires Chain(executors, settings, worlds) && worlds[0] == w && n <= |settings|
    ensures worlds[n] == After(executors, settings, w, n)
    ensures forall i :: 0 <= i < n ==> Refused(executors, settings, w, i).None?
  {
    if n > 0 {
      var k := n - 1;
      assert Applies(executors, settings[k], worlds[k], worlds[k + 1]);
      ChainIsAfter(executors, settings, w, worlds, k);
      ChainNext(executors, settings[k], settings, w, worlds[k], worlds[n], k);
    }
  }

  ghost function Worlds<W>(executors: seq<Executor<W>>, settings: seq<Entry<string>>, w: W): (worlds: seq<W>)
    ensures |worlds| == |settings| + 1 && worlds[0] == w
    ensures forall n :: 0 <= n < |worlds| ==> worlds[n] == After(executors, settings, w, n)
  {
    seq(|settings| + 1, n requires 0 <= n <= |settings| => After(executors, settings, w, n))
  }

  lemma AfterIsChain<W>(executors: seq<Executor<W>>, settings: seq<Entry<string>>, w: W)
    requires forall i :: 0 <= i < |settings| ==> Refused(executors, settings, w, i).None?
    ensures Chain(executors, settings, Worlds(executors, settings, w))
  {
    forall i | 0 <= i < |settings|
      ensures Applies(executors, settings[i], Worlds(executors, settings, w)[i], Worlds(executors, settings, w)[i + 1])
    {
      AcceptedApplies(executors, settings, w, i, After(executors, settings, w, i + 1));
    }
  }

  /** A switch succeeds if and only if its profile can be read and its settings apply one by one; then
      the world is the one they lead to, and success is announced under the profile's name. */
  lemma SucceedsIffAllApply<W>(executors: seq<Executor<W>>, bus: bool, m: Manager<W>, call: Call)
    ensures var (m', outcome) := Switch(executors, bus, m, call);
            && (outcome.Ok() <==>
                  && ReadProfile(m.files, call.id).Parsed?
                  && exists worlds :: Chain(executors, ReadProfile(m.files, call.id).profile.settings, worlds)
                                      && worlds[0] == m.world)
            && (outcome.Ok() ==> forall worlds ::
                  Chain(executors, ReadProfile(m.files, call.id).profile.settings, worlds) && worlds[0] == m.world
                  ==> m'.world == worlds[|worlds| - 1])
            && (outcome.Ok() && bus ==>
                  m'.events == m.events + [Event("info", "Profile applied", ReadProfile(m.files, call.id).profile.name)])
  {
    var (m', outcome) := Switch(executors, bus, m, call);
    if ReadProfile(m.files, call.id).Parsed? {
      var settings := ReadProfile(m.files, call.id).profile.settings;
      forall worlds | Chain(executors, settings, worlds) && worlds[0] == m.world
        ensures outcome.Ok() && m'.world == worlds[|worlds| - 1]
      {
        ChainIsAfter(executors, settings, m.world, worlds, |settings|);
      }
      if outcome.Ok() { AfterIsChain(executors, settings, m.world); }
    }
  }

  /** What is said of a setting that cannot be applied in world w: the message of the result and the text
      of the event. */
  ghost predicate Tells<W>(executors: seq<Executor<W>>, setting: Entry<string>, w: W, message: string, text: string) {
    || (message == text == "no executor for key " + setting.key
        && forall e :: 0 <= e < |executors| ==> executors[e].key != setting.key)
    || exists e :: 0 <= e < |executors| && TellsOf(executors, e, setting, w, message, text)
  }

  ghost predicate TellsOf<W>(executors: seq<Executor<W>>, e: nat, setting: Entry<string>, w: W, message: string, text: string)
    requires e < |executors|
  {
    && executors[e].key == setting.key && (forall i :: 0 <= i < e ==> executors[i].key != setting.key)
    && if !executors[e].available(w) then message == text == "executor unavailable: " + setting.key
       else && !executors[e].apply(w, setting.value).ok && message == executors[e].apply(w, setting.value).message
            && text == setting.key + ": " + message + " (rolled back)"
  }

  lemma RefusalText<W>(executors: seq<Executor<W>>, settings: seq<Entry<string>>, w: W, n: nat)
    requires n < |settings| && Refused(executors, settings, w, n).Some?
    ensures var refusal := Refused(executors, settings, w, n).value;
            Tells(executors, settings[n], After(executors, settings, w, n), refusal.Reason(), refusal.EventText())
  {
    var refusal := Refused(executors, settings, w, n).value;
    match Find(executors, settings[n].key)
    case None =>
    case Some(e) =>
      assert TellsOf(executors, e, settings[n], After(executors, settings, w, n), refusal.Reason(), refusal.EventText());
  }

  /** The settings before the n-th lead through these worlds, and the n-th applies in none after them. */
  ghost predicate StuckAt<W(!new)>(executors: seq<Executor<W>>, settings: seq<Entry<string>>, w: W, worlds: seq<W>, n: nat) {
    && n < |settings| && Chain(executors, settings[..n], worlds) && worlds[0] == w
    && forall w' :: !Applies(executors, settings[n], worlds[n], w')
  }

  /** What a switch refused at setting n returns and publishes. */
  ghost predicate Says<W>(executors: seq<Executor<W>>, bus: bool, m: Manager<W>, setting: Entry<string>, reached: W,
                          text: string, m': Manager<W>, outcome: Outcome) {
    && outcome.Returned? && !outcome.result.ok
    && Tells(executors, setting, reached, outcome.result.message, text)
    && m'.events == m.events + (if bus then [Event("error", "Profile switch failed", text)] else [])
  }

  lemma RefusalSaid<W>(executors: seq<Executor<W>>, bus: bool, m: Manager<W>, call: Call, profile: Profile, n: nat)
      returns (text: string)
    requires ReadProfile(m.files, call.id) == Parsed(profile)
    requires n == Accepted(executors, profile.settings, m.world, 0) < |profile.settings|
    ensures var (m', outcome) := Switch(executors, bus, m, call);
            Says(executors, bus, m, profile.settings[n], After(executors, profile.settings, m.world, n), text, m', outcome)
  {
    text := Refused(executors, profile.settings, m.world, n).value.EventText();
    RefusalText(executors, profile.settings, m.world, n);
    SwitchRefused(executors, bus, m, call, profile, n);
  }

  /** A failing switch of a profile that can be read tells of the first setting that cannot be applied
      once those before it have been, and why; in its result and in its one event. */
  lemma RefusalTells<W(!new)>(executors: seq<Executor<W>>, bus: bool, m: Manager<W>, call: Call, profile: Profile)
      returns (worlds: seq<W>, n: nat, text: string)
    requires ReadProfile(m.files, call.id) == Parsed(profile)
    ensures var (m', outcome) := Switch(executors, bus, m, call);
            !outcome.Ok() ==>
              && StuckAt(executors, profile.settings, m.world, worlds, n)
              && Says(executors, bus, m, profile.settings[n], worlds[n], text, m', outcome)
  {
    n, worlds, text := Accepted(executors, profile.settings, m.world, 0), [], "";
    if n == |profile.settings| {
      SwitchAccepted(executors, bus, m, call, profile);
    } else {
      text := RefusalSaid(executors, bus, m, call, profile, n);
      worlds := Stuck(executors, profile.settings, m.world, n);
    }
  }

  lemma {:induction false} SameAfter<W>(executors: seq<Executor<W>>, settings: seq<Entry<string>>, w: W, n: nat, k: nat)
    requires k <= n <= |settings|
    ensures After(executors, settings[..n], w, k) == After(executors, settings, w, k)
    ensures forall i :: 0 <= i < k ==> Refused(executors, settings[..n], w, i) == Refused(executors, settings, w, i)
  {
    if k > 0 { SameAfter(executors, settings, w, n, k - 1); }
  }

  lemma Stuck<W(!new)>(executors: seq<Executor<W>>, settings: seq<Entry<string>>, w: W, n: nat) returns (worlds: seq<W>)
    requires n < |settings| && Refused(executors, settings, w, n).Some?
    requires forall i :: 0 <= i < n ==> Refused(executors, settings, w, i).None?
    ensures StuckAt(executors, settings, w, worlds, n) && worlds[n] == After(executors, settings, w, n)
  {
    SameAfter(executors, settings, w, n, n);
    AfterIsChain(executors, settings[..n], w);
    worlds := Worlds(executors, settings[..n], w);
    forall w' ensures !Applies(executors, settings[n], worlds[n], w') {
      AcceptedApplies(executors, settings, w, n, w');
    }
  }

  /** A profile that cannot be read changes nothing, and with a bus to announce to it is the only case
      in which nothing changes. */
  lemma MissingProfileChangesNothing<W>(executors: seq<Executor<W>>, bus: bool, m: Manager<W>, call: Call)
    ensures !ReadProfile(m.files, call.id).Parsed? ==>
              Switch(executors, bus, m, call).0 == m && !Switch(executors, bus, m, call).1.Ok()
    ensures ReadProfile(m.files, call.id).Rejected? ==>
              Switch(executors, bus, m, call).1 == Returned(SwitchResult(false, "profile not found: " + call.id, []))
    ensures bus ==> (Switch(executors, bus, m, call).0 == m <==> !ReadProfile(m.files, call.id).Parsed?)
  {
    if bus && ReadProfile(m.files, call.id).Parsed? {
      assert |Switch(executors, bus, m, call).0.events| == |m.events| + 1;
    }
  }
}
