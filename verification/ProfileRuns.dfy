/** Any sequence of serialized `SwitchTo` calls: what the machine, the active id and the event stream
    look like afterwards. */
module ProfileRuns {
  import opened Text
  import opened Profiles
  import opened Switching

  /** Each executor owns one facet of the world: a successful application sets its own facet to what
      the value denotes and touches no other. */
  ghost predicate Facets<W(!new), V(!new)>(executors: seq<Executor<W>>, good: W -> bool,
                                           view: (nat, W) -> V, denote: (nat, string) -> V)
  {
    forall e, w, v, f :: 0 <= e < |executors| ==> FacetAt(executors[e], e, good, view, denote, w, v, f)
  }

  ghost predicate FacetAt<W, V>(executor: Executor<W>, e: nat, good: W -> bool, view: (nat, W) -> V,
                                denote: (nat, string) -> V, w: W, v: string, f: nat)
  {
    good(w) && executor.apply(w, v).ok ==>
      view(f, executor.apply(w, v).world) == if f == e then denote(e, v) else view(f, w)
  }

  function SwitchAll<W>(executors: seq<Executor<W>>, bus: bool, m: Manager<W>, calls: seq<Call>): Manager<W> {
    if calls == [] then m
    else Switch(executors, bus, SwitchAll(executors, bus, m, calls[..|calls| - 1]), calls[|calls| - 1]).0
  }

  /** Did the last switch of a non-empty sequence succeed? */
  function LastOk<W>(executors: seq<Executor<W>>, bus: bool, m: Manager<W>, calls: seq<Call>): bool
    requires calls != []
  {
    Switch(executors, bus, SwitchAll(executors, bus, m, calls[..|calls| - 1]), calls[|calls| - 1]).1.Ok()
  }

  /** The value of `key` in the latest successful profile that mentions it. */
  function Latest<W>(executors: seq<Executor<W>>, bus: bool, m: Manager<W>, calls: seq<Call>, key: string): Option<string> {
    if calls == [] then None
    else
      var n := |calls| - 1;
      var earlier := Latest(executors, bus, m, calls[..n], key);
      if !LastOk(executors, bus, m, calls) || !ReadProfile(m.files, calls[n].id).Parsed? then earlier
      else
        var mentioned := Lookup(ReadProfile(m.files, calls[n].id).profile.settings, key);
        if mentioned.Some? then mentioned else earlier
  }

  /** The id of the last successful switch whose record of it was written. */
  function LatestId<W>(executors: seq<Executor<W>>, bus: bool, m: Manager<W>, calls: seq<Call>): string {
    if calls == [] then ActiveOf(m.files)
    else if LastOk(executors, bus, m, calls) && calls[|calls| - 1].Recorded() then calls[|calls| - 1].id
    else LatestId(executors, bus, m, calls[..|calls| - 1])
  }

  /** An id whose file may change without its profile changing: any but `active`, and `active` too as
      long as its file is the record of the active id and not a profile. */
  predicate Nameable(files: Files, id: string) { id == "active" ==> !ReadProfile(files, id).Parsed? }

  predicate AllNameable(files: Files, calls: seq<Call>) {
    forall i :: 0 <= i < |calls| ==> Nameable(files, calls[i].id)
  }

  /** The same profile, or none. */
  predicate SameProfile(a: Read, b: Read) { a == b || (!a.Parsed? && !b.Parsed?) }

  /** How many of the switches found their profile. */
  function FoundCount(files: Files, calls: seq<Call>): nat {
    if calls == [] then 0
    else FoundCount(files, calls[..|calls| - 1]) + (if ReadProfile(files, calls[|calls| - 1].id).Parsed? then 1 else 0)
  }

  /** What has been announced: info for every successful switch, error for every failed one whose
      profile was found. */
  function Announced<W>(executors: seq<Executor<W>>, bus: bool, m: Manager<W>, calls: seq<Call>): seq<string> {
    if calls == [] then []
    else
      var n := |calls| - 1;
      Announced(executors, bus, m, calls[..n])
      + (if bus && ReadProfile(m.files, calls[n].id).Parsed?
         then [if LastOk(executors, bus, m, calls) then "info" else "error"] else [])
  }

  function Levels(events: seq<Event>): (levels: seq<string>)
    ensures |levels| == |events|
    ensures forall i :: 0 <= i < |events| ==> levels[i] == events[i].level
  {
    seq(|events|, i requires 0 <= i < |events| => events[i].level)
  }

  // ---------------------------------------------------------------- one switch

  lemma {:induction false} LookupNext<V>(m: seq<Entry<V>>, x: Entry<V>, key: string)
    ensures Lookup(m + [x], key) == if Lookup(m, key).Some? then Lookup(m, key)
                                    else if x.key == key then Some(x.value) else None
  {
    if m == [] {
      assert m + [x] == [x];
    } else {
      assert (m + [x])[1..] == m[1..] + [x];
      LookupNext(m[1..], x, key);
    }
  }

  /** A facet once the value mentioned for its key, if any, has been applied. */
  ghost function Shown<W(!new), V(!new)>(view: (nat, W) -> V, denote: (nat, string) -> V, f: nat, w: W, mentioned: Option<string>): V {
    match mentioned
    case Some(v) => denote(f, v)
    case None => view(f, w)
  }

  /** After n applied settings each facet holds what the latest of them denotes for its key. */
  lemma {:induction false} AppliedFacets<W(!new), V(!new)>(executors: seq<Executor<W>>, settings: seq<Entry<string>>, w: W, n: nat,
                                           good: W -> bool, view: (nat, W) -> V, denote: (nat, string) -> V, f: nat)
    requires Lawful(executors, good) && good(w) && Facets(executors, good, view, denote)
    requires n <= |settings| && Ordered(settings)
    requires forall i :: 0 <= i < n ==> Refused(executors, settings, w, i).None?
    requires f < |executors| && Find(executors, executors[f].key) == Some(f)
    ensures view(f, After(executors, settings, w, n))
            == Shown(view, denote, f, w, Lookup(settings[..n], executors[f].key))
    decreases n
  {
    if n > 0 {
      assert view(f, After(executors, settings, w, n - 1))
          == Shown(view, denote, f, w, Lookup(settings[..n - 1], executors[f].key)) by {
        AppliedFacets(executors, settings, w, n - 1, good, view, denote, f);
      }
      assert good(After(executors, settings, w, n - 1)) by { Unwinds(executors, settings, w, n - 1, good); }
      AppliedNext(executors, settings, w, n - 1, good, view, denote, f);
    }
  }

  lemma AppliedNext<W(!new), V(!new)>(executors: seq<Executor<W>>, settings: seq<Entry<string>>, w: W, n: nat,
                    good: W -> bool, view: (nat, W) -> V, denote: (nat, string) -> V, f: nat)
    requires n < |settings| && Ordered(settings)
    requires Facets(executors, good, view, denote) && good(After(executors, settings, w, n))
    requires forall i :: 0 <= i <= n ==> Refused(executors, settings, w, i).None?
    requires f < |executors| && Find(executors, executors[f].key) == Some(f)
    requires view(f, After(executors, settings, w, n))
             == Shown(view, denote, f, w, Lookup(settings[..n], executors[f].key))
    ensures view(f, After(executors, settings, w, n + 1))
            == Shown(view, denote, f, w, Lookup(settings[..n + 1], executors[f].key))
  {
    FacetNext(executors, settings, w, n, good, view, denote, f);
    assert settings[..n + 1] == settings[..n] + [settings[n]];
    LookupNext(settings[..n], settings[n], executors[f].key);
    FirstMention(settings, n);
  }

  lemma FirstMention(settings: seq<Entry<string>>, i: nat)
    requires Ordered(settings) && i < |settings|
    ensures Lookup(settings[..i], settings[i].key).None?
  {
    LessIrreflexive(settings[i].key);
  }

  lemma FacetNext<W(!new), V(!new)>(executors: seq<Executor<W>>, settings: seq<Entry<string>>, w: W, n: nat,
                    good: W -> bool, view: (nat, W) -> V, denote: (nat, string) -> V, f: nat)
    requires n < |settings| && Facets(executors, good, view, denote) && good(After(executors, settings, w, n))
    requires forall i :: 0 <= i <= n ==> Refused(executors, settings, w, i).None?
    requires f < |executors| && Find(executors, executors[f].key) == Some(f)
    ensures view(f, After(executors, settings, w, n + 1))
            == if settings[n].key == executors[f].key then denote(f, settings[n].value)
               else view(f, After(executors, settings, w, n))
  {
    assert Refused(executors, settings, w, n).None?;
    var e := Find(executors, settings[n].key).value;
    assert FacetAt(executors[e], e, good, view, denote, After(executors, settings, w, n), settings[n].value, f);
  }

  /** Settings read from well-formed files come in key order. */
  ghost predicate OrderedProfiles(files: Files) {
    forall id :: ReadProfile(files, id).Parsed? ==> Ordered(ReadProfile(files, id).profile.settings)
  }

  lemma {:induction false} EntriesOrdered(fields: seq<Entry<Json>>)
    requires Ordered(fields)
    ensures Ordered(StringEntries(fields))
  {
    if fields != [] {
      var n := |fields| - 1;
      EntriesOrdered(fields[..n]);
      EntriesBelow(fields[..n], fields[n].key);
    }
  }

  lemma WellFormedAreOrdered(files: Files)
    requires AllWellFormed(files)
    ensures OrderedProfiles(files)
  {
    forall id | ReadProfile(files, id).Parsed?
      ensures Ordered(ReadProfile(files, id).profile.settings)
    {
      var doc := files[FileOf(id)].doc;
      assert WellFormed(doc);
      var found := Lookup<Json>(doc.fields, "settings");
      if found.Some? && found.value.Obj? {
        FieldWellFormed(doc, "settings");
        EntriesOrdered(found.value.fields);
      }
    }
  }

  /** The value a switch applied for a key: none unless it succeeded. */
  function Mentioned(read: Read, ok: bool, key: string): Option<string> {
    if ok && read.Parsed? then Lookup(read.profile.settings, key) else None
  }

  lemma AcceptedFacet<W(!new), V(!new)>(executors: seq<Executor<W>>, settings: seq<Entry<string>>, w: W,
                      good: W -> bool, view: (nat, W) -> V, denote: (nat, string) -> V, f: nat)
    requires Lawful(executors, good) && good(w) && Facets(executors, good, view, denote) && Ordered(settings)
    requires f < |executors| && Find(executors, executors[f].key) == Some(f)
    requires Accepted(executors, settings, w, 0) == |settings|
    ensures good(After(executors, settings, w, |settings|))
    ensures view(f, After(executors, settings, w, |settings|))
            == Shown(view, denote, f, w, Lookup(settings, executors[f].key))
  {
    AppliedFacets(executors, settings, w, |settings|, good, view, denote, f);
    Unwinds(executors, settings, w, |settings|, good);
    assert settings[..|settings|] == settings;
  }

  /** What one switch does, seen through one facet. */
  lemma SwitchFacet<W(!new), V(!new)>(executors: seq<Executor<W>>, bus: bool, m: Manager<W>, call: Call,
                      good: W -> bool, view: (nat, W) -> V, denote: (nat, string) -> V, f: nat)
    requires Lawful(executors, good) && good(m.world) && Facets(executors, good, view, denote)
    requires ReadProfile(m.files, call.id).Parsed? ==> Ordered(ReadProfile(m.files, call.id).profile.settings)
    requires f < |executors| && Find(executors, executors[f].key) == Some(f)
    ensures var (m', outcome) := Switch(executors, bus, m, call);
            && good(m'.world)
            && view(f, m'.world)
               == Shown(view, denote, f, m.world, Mentioned(ReadProfile(m.files, call.id), outcome.Ok(), executors[f].key))
  {
    var read := ReadProfile(m.files, call.id);
    if read.Parsed? {
      if Accepted(executors, read.profile.settings, m.world, 0) == |read.profile.settings| {
        AcceptedFacet(executors, read.profile.settings, m.world, good, view, denote, f);
      } else {
        FailedSwitchIsUndone(executors, bus, m, call, good);
      }
    }
  }

  /** What one switch does to the files: at most the active id changes, and only to its own. */
  lemma SwitchFiles<W>(executors: seq<Executor<W>>, bus: bool, m: Manager<W>, call: Call, other: string)
    requires Nameable(m.files, other)
    ensures var (m', outcome) := Switch(executors, bus, m, call);
            && ActiveOf(m'.files) == (if outcome.Ok() && call.Recorded() then call.id else ActiveOf(m.files))
            && SameProfile(ReadProfile(m'.files, other), ReadProfile(m.files, other))
            && |m'.events| == |m.events| + (if bus && ReadProfile(m.files, call.id).Parsed? then 1 else 0)
            && m.events <= m'.events
            && (bus && ReadProfile(m.files, call.id).Parsed? ==>
                  m'.events[|m.events|].level == if outcome.Ok() then "info" else "error")
  {
    SetActiveIsAtomic(m.files, call.id, call.Reached(), other);
  }

  // ---------------------------------------------------------------- every sequence of switches

  lemma {:induction false} FilesAfter<W>(executors: seq<Executor<W>>, bus: bool, m: Manager<W>, calls: seq<Call>, other: string)
    requires Nameable(m.files, other)
    ensures SameProfile(ReadProfile(SwitchAll(executors, bus, m, calls).files, other), ReadProfile(m.files, other))
    decreases |calls|
  {
    if calls != [] {
      var n := |calls| - 1;
      FilesAfter(executors, bus, m, calls[..n], other);
      SwitchFiles(executors, bus, SwitchAll(executors, bus, m, calls[..n]), calls[n], other);
    }
  }

  /** The facet after the sequence. */
  ghost predicate Follows<W(!new), V(!new)>(executors: seq<Executor<W>>, bus: bool, m: Manager<W>, calls: seq<Call>,
                          good: W -> bool, view: (nat, W) -> V, denote: (nat, string) -> V, f: nat)
    requires f < |executors|
  {
    && good(SwitchAll(executors, bus, m, calls).world)
    && view(f, SwitchAll(executors, bus, m, calls).world)
       == Shown(view, denote, f, m.world, Latest(executors, bus, m, calls, executors[f].key))
  }

  lemma OneMore<W>(executors: seq<Executor<W>>, bus: bool, m: Manager<W>, calls: seq<Call>, call: Call, key: string)
    ensures var (m', outcome) := Switch(executors, bus, SwitchAll(executors, bus, m, calls), call);
            var mentioned := Mentioned(ReadProfile(m.files, call.id), outcome.Ok(), key);
            && SwitchAll(executors, bus, m, calls + [call]) == m'
            && Latest(executors, bus, m, calls + [call], key)
               == if mentioned.Some? then mentioned else Latest(executors, bus, m, calls, key)
  {
    assert (calls + [call])[..|calls|] == calls;
  }

  lemma FollowsNext<W(!new), V(!new)>(executors: seq<Executor<W>>, bus: bool, m: Manager<W>, calls: seq<Call>, call: Call,
                    good: W -> bool, view: (nat, W) -> V, denote: (nat, string) -> V, f: nat)
    requires Lawful(executors, good) && Facets(executors, good, view, denote)
    requires ReadProfile(m.files, call.id).Parsed? ==> Ordered(ReadProfile(m.files, call.id).profile.settings)
    requires Nameable(m.files, call.id) && f < |executors| && Find(executors, executors[f].key) == Some(f)
    requires Follows(executors, bus, m, calls, good, view, denote, f)
    ensures Follows(executors, bus, m, calls + [call], good, view, denote, f)
  {
    var before := SwitchAll(executors, bus, m, calls);
    OneMore(executors, bus, m, calls, call, executors[f].key);
    FilesAfter(executors, bus, m, calls, call.id);
    SwitchFacet(executors, bus, before, call, good, view, denote, f);
  }

  /** After any sequence of switches every executor's facet is what its key's value in the latest
      successful profile mentioning it denotes, and untouched if there is none. */
  lemma {:induction false} MachineFollowsProfiles<W(!new), V(!new)>(executors: seq<Executor<W>>, bus: bool, m: Manager<W>, calls: seq<Call>,
                                 good: W -> bool, view: (nat, W) -> V, denote: (nat, string) -> V, f: nat)
    requires Lawful(executors, good) && good(m.world) && Facets(executors, good, view, denote)
    requires OrderedProfiles(m.files) && AllNameable(m.files, calls)
    requires f < |executors| && Find(executors, executors[f].key) == Some(f)
    ensures good(SwitchAll(executors, bus, m, calls).world)
    ensures view(f, SwitchAll(executors, bus, m, calls).world)
            == match Latest(executors, bus, m, calls, executors[f].key)
               case Some(v) => denote(f, v)
               case None => view(f, m.world)
    decreases |calls|
  {
    if calls != [] {
      var n := |calls| - 1;
      MachineFollowsProfiles(executors, bus, m, calls[..n], good, view, denote, f);
      assert calls == calls[..n] + [calls[n]];
      FollowsNext(executors, bus, m, calls[..n], calls[n], good, view, denote, f);
    }
  }

  /** Active id and events after the sequence. */
  predicate Accounted<W>(executors: seq<Executor<W>>, bus: bool, m: Manager<W>, calls: seq<Call>, now: Manager<W>) {
    && ActiveOf(now.files) == LatestId(executors, bus, m, calls)
    && |now.events| == |m.events| + (if bus then FoundCount(m.files, calls) else 0)
    && Levels(now.events) == Levels(m.events) + Announced(executors, bus, m, calls)
  }

  lemma AccountNext<W>(executors: seq<Executor<W>>, bus: bool, m: Manager<W>, calls: seq<Call>, call: Call)
    requires Nameable(m.files, call.id)
    ensures var (now, outcome) := Switch(executors, bus, SwitchAll(executors, bus, m, calls), call);
            var found := ReadProfile(m.files, call.id).Parsed?;
            && SwitchAll(executors, bus, m, calls + [call]) == now
            && SameProfile(ReadProfile(SwitchAll(executors, bus, m, calls).files, call.id), ReadProfile(m.files, call.id))
            && LatestId(executors, bus, m, calls + [call])
               == (if outcome.Ok() && call.Recorded() then call.id else LatestId(executors, bus, m, calls))
            && FoundCount(m.files, calls + [call]) == FoundCount(m.files, calls) + (if found then 1 else 0)
            && Announced(executors, bus, m, calls + [call])
               == Announced(executors, bus, m, calls)
                  + (if bus && found then [if outcome.Ok() then "info" else "error"] else [])
  {
    assert (calls + [call])[..|calls|] == calls;
    FilesAfter(executors, bus, m, calls, call.id);
  }

  lemma AccountedNext<W>(executors: seq<Executor<W>>, bus: bool, m: Manager<W>, calls: seq<Call>, call: Call)
    requires Nameable(m.files, call.id) && Accounted(executors, bus, m, calls, SwitchAll(executors, bus, m, calls))
    ensures Accounted(executors, bus, m, calls + [call], SwitchAll(executors, bus, m, calls + [call]))
  {
    var before, after := SwitchAll(executors, bus, m, calls), SwitchAll(executors, bus, m, calls + [call]);
    AccountNext(executors, bus, m, calls, call);
    SwitchFiles(executors, bus, before, call, call.id);
    LevelsNext(before.events, after.events);
  }

  /** After any sequence of switches, whatever the executors do, the active id is the last successful one
      whose record was written, and exactly one event has been published per profile found, info on
      success and error on failure: none for a missing one. */
  lemma {:induction false} ActiveAndEvents<W>(executors: seq<Executor<W>>, bus: bool, m: Manager<W>, calls: seq<Call>)
    requires AllNameable(m.files, calls)
    ensures Accounted(executors, bus, m, calls, SwitchAll(executors, bus, m, calls))
    decreases |calls|
  {
    if calls != [] {
      var n := |calls| - 1;
      ActiveAndEvents(executors, bus, m, calls[..n]);
      AccountedNext(executors, bus, m, calls[..n], calls[n]);
      assert calls == calls[..n] + [calls[n]];
    }
  }

  lemma LevelsNext(before: seq<Event>, after: seq<Event>)
    requires before <= after && |after| <= |before| + 1
    ensures Levels(after) == Levels(before) + (if |after| > |before| then [after[|before|].level] else [])
  {
  }
}
