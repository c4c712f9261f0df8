/** Optimistic concurrency: records are the replay of the stored writes, a
    revision counts them, and a conditional update is based on what its client
    read. */
module Revisions {
  import opened ETag
  import opened Machine
  import opened Policy
  import opened Records
  import opened SoloRuns
  import opened Wrappers

  function Lookup(w: World, k: Kind, n: string): Option<Record> {
    if n in w.Table(k) then Some(w.Table(k)[n]) else None
  }

  predicate StoresNew(e: Event, k: Kind, n: string) {
    e.StoredCreate? && e.body.Kind() == k && e.body.name == n
  }

  predicate StoresChange(e: Event, k: Kind, n: string) {
    e.StoredUpdate? && e.kind == k && e.name == n
  }

  predicate Removes(e: Event, k: Kind, n: string) {
    e.Removed? && e.kind == k && e.name == n
  }

  predicate Writes(e: Event, k: Kind, n: string) {
    StoresNew(e, k, n) || StoresChange(e, k, n) || Removes(e, k, n)
  }

  /** One event's effect on one record. */
  function After(r: Option<Record>, e: Event, k: Kind, n: string): Option<Record> {
    if StoresNew(e, k, n) then Some(Fresh(e.body, e.now))
    else if StoresChange(e, k, n) then if r.Some? then Some(Merge(r.value, e.changes, e.now)) else None
    else if Removes(e, k, n) then None
    else r
  }

  /** The record a history of writes amounts to. */
  function Replay(log: seq<Event>, k: Kind, n: string): Option<Record> {
    if log == [] then None else After(Replay(log[..|log| - 1], k, n), log[|log| - 1], k, n)
  }

  /** Writes stored under the name since it was last removed. */
  function Count(log: seq<Event>, k: Kind, n: string): nat {
    if log == [] then 0
    else
      var e, before := log[|log| - 1], Count(log[..|log| - 1], k, n);
      if StoresNew(e, k, n) then 1
      else if StoresChange(e, k, n) then before + 1
      else if Removes(e, k, n) then 0
      else before
  }

  lemma ReplayOne(log: seq<Event>, e: Event, k: Kind, n: string)
    ensures Replay(log + [e], k, n) == After(Replay(log, k, n), e, k, n)
  {
    hide After;
    assert (log + [e])[..|log|] == log;
  }

  /** Creates are stored only where nothing is, updates only over the record
      their expectation names. */
  ghost predicate SoundAt(log: seq<Event>, i: nat)
    requires i < |log|
  {
    match log[i]
    case StoredCreate(b, _) => Replay(log[..i], b.Kind(), b.name).None?
    case StoredUpdate(k, n, expected, _, _) =>
      Replay(log[..i], k, n).Some? && (expected.Some? ==> expected == Replay(log[..i], k, n).value.revision)
    case _ => true
  }

  ghost predicate Sound(log: seq<Event>) {
    forall i :: 0 <= i < |log| ==> SoundAt(log, i)
  }

  ghost predicate Mirrors(w: World, log: seq<Event>) {
    forall k, n :: Lookup(w, k, n) == Replay(log, k, n)
  }

  ghost predicate Replayed(s: Sys) {
    Coherent(s) && Mirrors(s.world, s.log) && Sound(s.log)
  }

  lemma SoundOne(log: seq<Event>, e: Event)
    requires Sound(log) && SoundAt(log + [e], |log|)
    ensures Sound(log + [e])
  {
    hide Replay;
    var log' := log + [e];
    forall i | 0 <= i < |log'|
      ensures SoundAt(log', i)
    {
      if i < |log| {
        assert log'[..i] == log[..i];
        assert SoundAt(log, i);
      }
    }
  }

  /** A step whose world moves as its one event says. */
  lemma OneEvent(w: World, w': World, log: seq<Event>, e: Event)
    requires Mirrors(w, log) && Sound(log)
    requires forall k, n :: Lookup(w', k, n) == After(Lookup(w, k, n), e, k, n)
    requires e.StoredCreate? ==> Lookup(w, e.body.Kind(), e.body.name).None?
    requires e.StoredUpdate? ==> Lookup(w, e.kind, e.name).Some?
    requires e.StoredUpdate? && e.expected.Some? ==> e.expected == Lookup(w, e.kind, e.name).value.revision
    ensures Mirrors(w', log + [e]) && Sound(log + [e])
  {
    hide After, Lookup;
    forall k, n
      ensures Lookup(w', k, n) == Replay(log + [e], k, n)
    {
      ReplayOne(log, e, k, n);
    }
    assert (log + [e])[..|log|] == log;
    hide Replay;
    SoundOne(log, e);
  }

  lemma NoEvent(w: World, w': World, log: seq<Event>, log': seq<Event>)
    requires Mirrors(w, log) && Sound(log)
    requires w'.adapters == w.adapters && w'.tools == w.tools && log' == log + []
    ensures Mirrors(w', log') && Sound(log')
  {
    hide Replay;
    assert log' == log;
    forall k, n
      ensures Lookup(w', k, n) == Lookup(w, k, n)
    {
    }
  }

  /** Storing a record changes one entry. */
  lemma PutLookup(w: World, r: Record)
    ensures forall k, n :: Lookup(w.Put(r), k, n) == if k == r.Kind() && n == r.name then Some(r) else Lookup(w, k, n)
  {
  }

  lemma RemoveLookup(w: World, k: Kind, n: string)
    ensures forall k', n' :: Lookup(w.Remove(k, n), k', n') == if k' == k && n' == n then None else Lookup(w, k', n')
  {
  }

  ghost predicate ReplayedBy(o: Outcome, log: seq<Event>) {
    Mirrors(o.world, log + o.events) && Sound(log + o.events)
  }

  lemma ReplayedPut(p: RbacPolicy, t: Task, f: Fault, w: World, log: seq<Event>)
    requires t.CreatePut? || t.UpdatePut?
    requires TaskCoherent(t, w) && Mirrors(w, log) && Sound(log)
    ensures ReplayedBy(Step(p, t, f, w), log)
  {
    hide StartCreate, StartUpdate, StartDelete, ApplyNew, RollBack, ApplyChange, TearDownFirst, Forget;
    hide CreatedResponse, UpdatedResponse, Mirrors, Sound, Fresh, Merge, NeedsApply;
    var o := Step(p, t, f, w);
    if f.Fails? {
      NoEvent(w, o.world, log, log + o.events);
    } else if t.CreatePut? {
      PutLookup(w, Fresh(t.body, t.now));
      OneEvent(w, o.world, log, StoredCreate(t.body, t.now));
    } else {
      var r := Merge(t.base, t.changes, t.now);
      PutLookup(w, r);
      OneEvent(w, o.world, log, StoredUpdate(r.Kind(), r.name, t.expected, t.changes, t.now));
    }
  }

  lemma ReplayedRemoval(p: RbacPolicy, t: Task, f: Fault, w: World, log: seq<Event>)
    requires t.CreateRollback? || t.DeleteRecord?
    requires TaskCoherent(t, w) && Mirrors(w, log) && Sound(log)
    ensures ReplayedBy(Step(p, t, f, w), log)
  {
    hide StartCreate, StartUpdate, StartDelete, PutNew, ApplyNew, PutChange, ApplyChange, TearDownFirst;
    hide Mirrors, Sound;
    var o := Step(p, t, f, w);
    if f.Fails? {
      NoEvent(w, o.world, log, log + o.events);
    } else {
      var k, n := if t.CreateRollback? then t.record.Kind() else t.op.kind, t.op.name;
      RemoveLookup(w, k, n);
      OneEvent(w, o.world, log, Removed(k, n));
    }
  }

  lemma ReplayedProvider(p: RbacPolicy, t: Task, f: Fault, w: World, log: seq<Event>)
    requires t.CreateApply? || t.UpdateApply? || t.DeleteTeardown?
    requires Mirrors(w, log) && Sound(log)
    ensures ReplayedBy(Step(p, t, f, w), log)
  {
    hide StartCreate, StartUpdate, StartDelete, PutNew, RollBack, PutChange, Forget;
    hide CreatedResponse, UpdatedResponse, Mirrors, Sound;
    var o := Step(p, t, f, w);
    if t.DeleteTeardown? && f.Fails? {
      NoEvent(w, o.world, log, log + o.events);
    } else {
      OneEvent(w, o.world, log, o.events[0]);
    }
  }

  lemma ReplayedStart(p: RbacPolicy, request: Request, f: Fault, w: World, log: seq<Event>)
    requires Mirrors(w, log) && Sound(log)
    ensures ReplayedBy(Step(p, Start(request), f, w), log)
  {
    hide StartCreate, StartUpdate, StartDelete, PutNew, ApplyNew, RollBack, PutChange, ApplyChange;
    hide TearDownFirst, Forget;
    hide Mirrors, Sound;
    var o := Step(p, Start(request), f, w);
    NoEvent(w, o.world, log, log + o.events);
  }

  lemma ReplayedStep(p: RbacPolicy, t: Task, f: Fault, w: World, log: seq<Event>)
    requires TaskCoherent(t, w) && Mirrors(w, log) && Sound(log)
    ensures ReplayedBy(Step(p, t, f, w), log)
  {
    hide Step, ReplayedBy, Mirrors, Sound;
    match t
    case Start(request) => ReplayedStart(p, request, f, w, log);
    case CreatePut(_, _, _) => ReplayedPut(p, t, f, w, log);
    case CreateApply(_, _) => ReplayedProvider(p, t, f, w, log);
    case CreateRollback(_, _) => ReplayedRemoval(p, t, f, w, log);
    case UpdatePut(_, _, _, _, _) => ReplayedPut(p, t, f, w, log);
    case UpdateApply(_, _) => ReplayedProvider(p, t, f, w, log);
    case DeleteTeardown(_) => ReplayedProvider(p, t, f, w, log);
    case DeleteRecord(_) => ReplayedRemoval(p, t, f, w, log);
  }

  lemma ReplayedNext(p: RbacPolicy, s: Sys, a: Action)
    requires Replayed(s)
    ensures Replayed(Next(p, s, a))
  {
    hide Step, Mirrors, Sound, Coherent;
    CoherentNext(p, s, a);
    match (a, s.task)
    case (Advance(f), Some(t)) =>
      assert TaskCoherent(t, s.world) by { CoherentTask(s); }
      ReplayedStep(p, t, f, s.world, s.log);
    case (Crash, Some(t)) =>
      if LeftBehind(t) == [] { NoEvent(s.world, s.world, s.log, s.log + []); }
      else { Unrelated(s.world, s.log, LeftBehind(t)[0]); }
    case _ =>
  }

  lemma CoherentTask(s: Sys)
    requires Coherent(s) && s.task.Some?
    ensures TaskCoherent(s.task.value, s.world)
  {
  }

  lemma Unrelated(w: World, log: seq<Event>, e: Event)
    requires Mirrors(w, log) && Sound(log) && e.Abandoned?
    ensures Mirrors(w, log + [e]) && Sound(log + [e])
  {
    hide Lookup;
    OneEvent(w, w, log, e);
  }

  lemma {:induction false} ReplayedRun(p: RbacPolicy, s: Sys, actions: seq<Action>)
    requires Replayed(s)
    ensures Replayed(Run(p, s, actions))
  {
    hide Next, Replayed;
    if actions != [] {
      ReplayedRun(p, s, actions[..|actions| - 1]);
      ReplayedNext(p, Run(p, s, actions[..|actions| - 1]), actions[|actions| - 1]);
    }
  }

  /** The store refines its history: after any run from an empty control plane,
      whatever failed, what is stored under a name is the replay of the writes
      that succeeded. */
  lemma StoreRefinesWrites(p: RbacPolicy, actions: seq<Action>, k: Kind, n: string)
    ensures var s := Run(p, INITIAL, actions); Lookup(s.world, k, n) == Replay(s.log, k, n) && Sound(s.log)
  {
    hide Run, Next, Coherent, Sound;
    InitiallyReplayed();
    ReplayedRun(p, INITIAL, actions);
  }

  lemma InitiallyReplayed()
    ensures Replayed(INITIAL)
  {
  }

  /** Between a create and the next removal a record's revision is one plus the
      number of updates stored, in u64 arithmetic. */
  lemma {:induction false} RevisionCountsWrites(log: seq<Event>, k: Kind, n: string)
    requires Sound(log)
    ensures Replay(log, k, n).Some? <==> Count(log, k, n) > 0
    ensures Replay(log, k, n).Some? ==> Replay(log, k, n).value.revision == Some(Count(log, k, n) % TWO_TO_THE_64)
  {
    hide Replay, SoundAt, NextRevision;
    if log == [] {
      NothingReplayed(k, n);
    } else {
      var m := |log| - 1;
      SoundPrefix(log, m);
      RevisionCountsWrites(log[..m], k, n);
      assert SoundAt(log, m);
      LastStep(log, k, n);
      NextOfCount(Count(log[..m], k, n));
    }
  }

  lemma NothingReplayed(k: Kind, n: string)
    ensures Replay([], k, n).None?
  {
  }

  lemma NextOfCount(count: nat)
    ensures NextRevision(Some(count % TWO_TO_THE_64)) == (count + 1) % TWO_TO_THE_64
  {
  }

  lemma SoundPrefix(log: seq<Event>, m: nat)
    requires Sound(log) && m <= |log|
    ensures Sound(log[..m])
  {
    hide Replay;
    forall i | 0 <= i < m
      ensures SoundAt(log[..m], i)
    {
      assert log[..m][..i] == log[..i];
      assert SoundAt(log, i);
    }
  }

  /** How the last event of a sound history moves the revision. */
  lemma LastStep(log: seq<Event>, k: Kind, n: string)
    requires log != [] && SoundAt(log, |log| - 1)
    ensures var e, before, r := log[|log| - 1], Replay(log[..|log| - 1], k, n), Replay(log, k, n);
      && (StoresNew(e, k, n) ==> r.Some? && r.value.revision == Some(1))
      && (StoresChange(e, k, n) ==>
            before.Some? && r.Some? && r.value.revision == Some(NextRevision(before.value.revision)))
      && (Removes(e, k, n) ==> r.None?)
      && (!Writes(e, k, n) ==> r == before)
  {
  }

  /** No removal of the name happens in [i, j): one life of the record. */
  predicate OneLife(log: seq<Event>, i: nat, j: nat, k: Kind, n: string)
    requires i <= j <= |log|
  {
    forall m :: i <= m < j ==> !Removes(log[m], k, n)
  }

  /** Within one life the count never falls, rises with every stored update,
      and where it stands still so does the record. */
  lemma {:induction false} LifeGoesOn(log: seq<Event>, i: nat, j: nat, k: Kind, n: string)
    requires Sound(log) && i <= j <= |log| && OneLife(log, i, j, k, n)
    requires Replay(log[..i], k, n).Some?
    ensures Replay(log[..j], k, n).Some?
    ensures Count(log[..i], k, n) <= Count(log[..j], k, n)
    ensures Count(log[..i], k, n) == Count(log[..j], k, n) ==> Replay(log[..i], k, n) == Replay(log[..j], k, n)
    ensures (exists m :: i <= m < j && StoresChange(log[m], k, n)) ==> Count(log[..i], k, n) < Count(log[..j], k, n)
    decreases j - i
  {
    hide SoundAt, Sound, Replay, Count, StoresNew, StoresChange, Removes;
    if i < j {
      LifeGoesOn(log, i, j - 1, k, n);
      var prefix := log[..j];
      assert prefix[..j - 1] == log[..j - 1] && prefix[j - 1] == log[j - 1];
      SoundPrefix(log, j);
      SoundLast(prefix);
      LifeStep(prefix, k, n);
    }
  }

  lemma LifeStep(log: seq<Event>, k: Kind, n: string)
    requires log != [] && SoundAt(log, |log| - 1) && Replay(log[..|log| - 1], k, n).Some?
    requires !Removes(log[|log| - 1], k, n)
    ensures Replay(log, k, n).Some?
    ensures if StoresChange(log[|log| - 1], k, n)
            then Count(log, k, n) == Count(log[..|log| - 1], k, n) + 1
            else (
              && Count(log, k, n) == Count(log[..|log| - 1], k, n)
              && Replay(log, k, n) == Replay(log[..|log| - 1], k, n))
  {
    hide Fresh, Merge;
  }

  lemma SoundLast(log: seq<Event>)
    requires Sound(log) && log != []
    ensures SoundAt(log, |log| - 1)
  {
  }

  /** A revision identifies one content: two moments of one life show the same
      revision exactly when the updates stored between them number a multiple
      of 2^64, so below that many updates the same revision means the same
      record. */
  lemma RevisionIdentifiesContent(log: seq<Event>, i: nat, j: nat, k: Kind, n: string)
    requires Sound(log) && i <= j <= |log| && OneLife(log, i, j, k, n)
    requires Replay(log[..i], k, n).Some?
    ensures Replay(log[..j], k, n).Some?
    ensures
      var a, b := Replay(log[..i], k, n).value, Replay(log[..j], k, n).value;
      var stored := Count(log[..j], k, n) - Count(log[..i], k, n);
      && stored >= 0
      && (a.revision == b.revision <==> stored % TWO_TO_THE_64 == 0)
      && (a.revision == b.revision && stored < TWO_TO_THE_64 ==> a == b)
  {
    hide Replay, Count, Sound;
    LifeGoesOn(log, i, j, k, n);
    SoundPrefix(log, i);
    SoundPrefix(log, j);
    RevisionCountsWrites(log[..i], k, n);
    RevisionCountsWrites(log[..j], k, n);
    SameResidue(Count(log[..i], k, n), Count(log[..j], k, n));
  }

  lemma SameResidue(a: nat, b: nat)
    requires a <= b
    ensures a % TWO_TO_THE_64 == b % TWO_TO_THE_64 <==> (b - a) % TWO_TO_THE_64 == 0
  {
  }

  /** No lost update, over every run with one handler in flight at a time.
      A stored conditional update found the revision its client read and merged
      its changes into exactly that record; and a second stored update with the
      same expectation in the same life is separated from it by a positive
      multiple of 2^64 stored updates. An update that was stored before its
      apply failed is among those counted. */
  lemma NoLostUpdate(p: RbacPolicy, actions: seq<Action>, i: nat, k: Kind, n: string, r: U64)
    requires var log := Run(p, INITIAL, actions).log;
      i < |log| && StoresChange(log[i], k, n) && log[i].expected == Some(r)
    ensures var log := Run(p, INITIAL, actions).log;
      && Replay(log[..i], k, n).Some?
      && Replay(log[..i], k, n).value.revision == Some(r)
      && Replay(log[..i + 1], k, n) == Some(Merge(Replay(log[..i], k, n).value, log[i].changes, log[i].now))
    ensures var log := Run(p, INITIAL, actions).log;
      forall j | i < j < |log| && OneLife(log, i, j, k, n)
                 && StoresChange(log[j], k, n) && log[j].expected == Some(r) ::
        Count(log[..j], k, n) > Count(log[..i], k, n)
        && (Count(log[..j], k, n) - Count(log[..i], k, n)) % TWO_TO_THE_64 == 0
  {
    hide Run, Next, Sound, Merge, Replay, Count;
    var log := Run(p, INITIAL, actions).log;
    StoreRefinesWrites(p, actions, k, n);
    ConditionalUpdate(log, i, k, n, r);
    forall j | i < j < |log| && OneLife(log, i, j, k, n) && StoresChange(log[j], k, n) && log[j].expected == Some(r)
      ensures Count(log[..j], k, n) > Count(log[..i], k, n)
      ensures (Count(log[..j], k, n) - Count(log[..i], k, n)) % TWO_TO_THE_64 == 0
    {
      ConditionalUpdate(log, j, k, n, r);
      LifeGoesOn(log, i, j, k, n);
      RevisionIdentifiesContent(log, i, j, k, n);
    }
  }

  lemma ConditionalUpdate(log: seq<Event>, i: nat, k: Kind, n: string, r: U64)
    requires Sound(log) && i < |log| && StoresChange(log[i], k, n) && log[i].expected == Some(r)
    ensures Replay(log[..i], k, n).Some?
    ensures Replay(log[..i], k, n).value.revision == Some(r)
    ensures Replay(log[..i + 1], k, n) == Some(Merge(Replay(log[..i], k, n).value, log[i].changes, log[i].now))
  {
    hide Merge;
    assert SoundAt(log, i);
    assert log[..i + 1] == log[..i] + [log[i]];
    ReplayOne(log[..i], log[i], k, n);
  }

  /** A successful create or update answers with the record now stored and that
      record's ETag. */
  predicate Describes(response: Response, request: Request, w: World) {
    && (response.Created? || response.Updated?)
    && response.record.name == request.Target() && response.record.Kind() == request.TargetKind()
    && Holds(w, response.record)
    && response.record.revision.Some?
    && response.etag == EtagFor(response.record.revision.value)
  }

  lemma CreateDescribes(p: RbacPolicy, request: Request, fs: Faults, w: World)
    requires Filed(w) && request.Create?
    ensures var c := Complete(p, Start(request), fs, w); c.response.Failed? || Describes(c.response, request, c.world)
  {
    hide StartCreate, StartUpdate, StartDelete, RollBack, PutChange, ApplyChange, TearDownFirst, Forget;
    hide Filed, Fresh, EtagFor, Complete;
    var o := Step(p, Start(request), fs.get, w);
    CompleteUnfolds(p, Start(request), fs, w);
    if o.task.Done? {
      FinishedIsDone(p, o.task, fs, o.world);
    } else {
      var o' := Step(p, o.task, fs.put, o.world);
      CompleteUnfolds(p, o.task, fs, o.world);
      if o'.task.Done? {
        FinishedIsDone(p, o'.task, fs, o'.world);
      } else {
        var o'' := Step(p, o'.task, fs.apply, o'.world);
        CompleteUnfolds(p, o'.task, fs, o'.world);
        if o''.task.Done? {
          FinishedIsDone(p, o''.task, fs, o''.world);
        } else {
          RollbackFails(p, o''.task, fs, o''.world);
        }
      }
    }
  }

  lemma RollbackFails(p: RbacPolicy, t: Task, fs: Faults, w: World)
    requires t.CreateRollback?
    ensures Complete(p, t, fs, w).response == Failed(ProviderFailed)
  {
    hide StartCreate, StartUpdate, StartDelete, PutNew, ApplyNew, PutChange, ApplyChange, TearDownFirst;
    hide Forget, Complete;
    var o := Step(p, t, fs.rollback, w);
    CompleteUnfolds(p, t, fs, w);
    FinishedIsDone(p, o.task, fs, o.world);
  }

  lemma UpdateDescribes(p: RbacPolicy, request: Request, fs: Faults, w: World)
    requires Filed(w) && request.Update?
    ensures var c := Complete(p, Start(request), fs, w); c.response.Failed? || Describes(c.response, request, c.world)
  {
    hide StartCreate, StartUpdate, StartDelete, PutNew, ApplyNew, RollBack, TearDownFirst, Forget;
    hide NeedsApply, EtagFor, Complete;
    var o := Step(p, Start(request), fs.get, w);
    CompleteUnfolds(p, Start(request), fs, w);
    if o.task.Done? {
      FinishedIsDone(p, o.task, fs, o.world);
    } else {
      FiledUnder(w, request.TargetKind(), request.name);
      hide Filed;
      var o' := Step(p, o.task, fs.put, o.world);
      CompleteUnfolds(p, o.task, fs, o.world);
      if o'.task.Done? {
        FinishedIsDone(p, o'.task, fs, o'.world);
      } else {
        var o'' := Step(p, o'.task, fs.apply, o'.world);
        CompleteUnfolds(p, o'.task, fs, o'.world);
        FinishedIsDone(p, o''.task, fs, o''.world);
      }
    }
  }

  lemma FiledUnder(w: World, k: Kind, n: string)
    requires Filed(w) && n in w.Table(k)
    ensures w.Table(k)[n].name == n && w.Table(k)[n].Kind() == k
  {
  }

  lemma {:induction false} NoWriteKeeps(log: seq<Event>, more: seq<Event>, k: Kind, n: string)
    requires forall e :: e in more ==> !Writes(e, k, n)
    ensures Replay(log + more, k, n) == Replay(log, k, n)
    decreases |more|
  {
    hide Replay, After;
    if more == [] {
      assert log + more == log;
    } else {
      var m := |more| - 1;
      NoWriteKeeps(log, more[..m], k, n);
      assert log + more == log + more[..m] + [more[m]];
      ReplayOne(log + more[..m], more[m], k, n);
      NoWriteAfter(Replay(log + more[..m], k, n), more[m], k, n);
    }
  }

  lemma NoWriteAfter(r: Option<Record>, e: Event, k: Kind, n: string)
    requires !Writes(e, k, n)
    ensures After(r, e, k, n) == r
  {
  }

  /** The control plane after running one request to its response. */
  function Resume(p: RbacPolicy, s: Sys, request: Request, fs: Faults): Sys {
    var c := Complete(p, Start(request), fs, s.world);
    Sys(c.world, None, s.log + c.events)
  }

  predicate RefusedForHeader(o: Outcome) {
    && o.task.Done? && o.task.response.Failed?
    && (o.task.response.error.RevisionMismatch? || o.task.response.error.InvalidIfMatch?)
  }

  lemma MatchingHeaderPasses(p: RbacPolicy, again: Request, f: Fault, w: World, rev: U64)
    requires again.Update? || again.Delete?
    requires again.ifMatch == Some(EtagFor(rev))
    requires again.Target() in w.Table(again.TargetKind())
    requires w.Table(again.TargetKind())[again.Target()].revision == Some(rev)
    ensures !RefusedForHeader(Step(p, Start(again), f, w))
  {
    hide PutNew, ApplyNew, RollBack, PutChange, ApplyChange, TearDownFirst, Forget, ParseIfMatch;
    hide EtagFor, FirstBadEnv, Decide;
    EtagRoundTrip(rev);
  }

  lemma ResumeReplayed(p: RbacPolicy, before: seq<Action>, request: Request, fs: Faults)
    requires Run(p, INITIAL, before).task.None?
    ensures Replayed(Resume(p, Run(p, INITIAL, before), request, fs))
    ensures Filed(Run(p, INITIAL, before).world)
  {
    hide Run, Next, Mirrors, Sound, Complete;
    InitiallyReplayed();
    ReplayedRun(p, INITIAL, before);
    var s := Run(p, INITIAL, before);
    var started := Sys(s.world, Some(Start(request)), s.log);
    var actions := CompletionIsRun(p, Start(request), fs, s.world, s.log);
    ReplayedRun(p, started, actions);
  }

  /** The ETag protocol closes: take the ETag of any successful create or
      update, let any run of other requests, failures and crashes follow that
      stores and removes nothing under that name, and a conditional update or
      delete carrying the ETag is not refused for it. */
  lemma EtagStaysGood(p: RbacPolicy, before: seq<Action>, request: Request, fs: Faults, more: seq<Action>,
                      written: seq<Event>, again: Request, f: Fault)
    requires Run(p, INITIAL, before).task.None?
    requires var response := Complete(p, Start(request), fs, Run(p, INITIAL, before).world).response;
      && (response.Created? || response.Updated?)
      && (again.Update? || again.Delete?)
      && again.Target() == request.Target() && again.TargetKind() == request.TargetKind()
      && again.ifMatch == Some(response.etag)
    requires var s := Resume(p, Run(p, INITIAL, before), request, fs);
      Run(p, s, more).log == s.log + written
    requires forall e :: e in written ==> !Writes(e, request.TargetKind(), request.Target())
    ensures var s := Resume(p, Run(p, INITIAL, before), request, fs);
      !RefusedForHeader(Step(p, Start(again), f, Run(p, s, more).world))
  {
    hide Run, Next, Step, Mirrors, Sound, Coherent, Complete, RefusedForHeader, Replay, EtagFor, Filed;
    hide Writes;
    ResumeReplayed(p, before, request, fs);
    var s0 := Run(p, INITIAL, before);
    if request.Create? {
      CreateDescribes(p, request, fs, s0.world);
    } else if request.Update? {
      UpdateDescribes(p, request, fs, s0.world);
    } else {
      DeleteDescribes(p, request, fs, s0.world);
    }
    var s1 := Resume(p, s0, request, fs);
    var s2 := Run(p, s1, more);
    var r := Complete(p, Start(request), fs, s0.world).response.record;
    ReplayedRun(p, s1, more);
    var k, n := request.TargetKind(), request.Target();
    NoWriteKeeps(s1.log, written, k, n);
    assert Lookup(s2.world, k, n) == Lookup(s1.world, k, n) == Some(r) by {
      MirrorsAt(s1, k, n);
      MirrorsAt(s2, k, n);
    }
    MatchingHeaderPasses(p, again, f, s2.world, r.revision.value);
  }

  lemma MirrorsAt(s: Sys, k: Kind, n: string)
    requires Replayed(s)
    ensures Lookup(s.world, k, n) == Replay(s.log, k, n)
  {
  }

  lemma DeleteDescribes(p: RbacPolicy, request: Request, fs: Faults, w: World)
    requires request.Delete?
    ensures var response := Complete(p, Start(request), fs, w).response; response.Failed? || response.Deleted?
  {
    hide StartCreate, StartUpdate, StartDelete, PutNew, ApplyNew, RollBack, PutChange, ApplyChange, Complete;
    var o := Step(p, Start(request), fs.get, w);
    CompleteUnfolds(p, Start(request), fs, w);
    if o.task.Done? {
      FinishedIsDone(p, o.task, fs, o.world);
    } else {
      var o' := Step(p, o.task, FaultFor(o.task, fs), o.world);
      CompleteUnfolds(p, o.task, fs, o.world);
      if o'.task.Done? {
        FinishedIsDone(p, o'.task, fs, o'.world);
      } else {
        var o'' := Step(p, o'.task, fs.remove, o'.world);
        CompleteUnfolds(p, o'.task, fs, o'.world);
        FinishedIsDone(p, o''.task, fs, o''.world);
      }
    }
  }
}
