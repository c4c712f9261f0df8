/** Desired and actual state: what the records of managed resources say against
    what the provider was last given. */
module Agreement {
  import opened Effects
  import opened Machine
  import opened Ownership
  import opened Policy
  import opened Records
  import Revisions
  import opened SoloRuns
  import opened Wrappers

  /** Whether an event decides what runs under `name`. */
  predicate Deploys(e: Event, name: string) {
    || (e.Applied? && e.record.name == name)
    || ((e.ApplyFailed? || e.TornDown? || e.Abandoned?) && e.name == name)
  }

  /** The last such event in a history. */
  function LastDeploy(log: seq<Event>, name: string): Option<Event> {
    if log == [] then None
    else if Deploys(log[|log| - 1], name) then Some(log[|log| - 1])
    else LastDeploy(log[..|log| - 1], name)
  }

  function Redeployed(deployed: map<string, Record>, e: Event): map<string, Record> {
    if e.Applied? then deployed[e.record.name := e.record]
    else if e.TornDown? then deployed - {e.name}
    else deployed
  }

  /** What the provider runs, read off the history alone. */
  function DeployedBy(log: seq<Event>): map<string, Record> {
    if log == [] then map[]
    else
      Redeployed(DeployedBy(log[..|log| - 1]), log[|log| - 1])
  }

  lemma LastDeployOne(log: seq<Event>, e: Event, name: string)
    ensures LastDeploy(log + [e], name) == if Deploys(e, name) then Some(e) else LastDeploy(log, name)
  {
    assert (log + [e])[..|log|] == log;
  }

  lemma DeployedByOne(log: seq<Event>, e: Event)
    ensures DeployedBy(log + [e]) == Redeployed(DeployedBy(log), e)
  {
    assert (log + [e])[..|log|] == log;
  }

  /** A handler that has stored a record and not yet reached the provider. */
  predicate Pending(t: Option<Task>, k: Kind, name: string) {
    && t.Some? && (t.value.CreateApply? || t.value.UpdateApply?)
    && t.value.record.name == name && t.value.record.Kind() == k
  }

  /** If the last deployment event under the record's name was a successful
      apply, its workload runs, and if that was an apply of the record's own kind
      it is the one the record states. */
  ghost predicate InStep(s: Sys, r: Record) {
    match LastDeploy(s.log, r.name)
    case Some(Applied(a)) =>
      && r.name in s.world.deployed && s.world.deployed[r.name] == a
      && (a.Kind() == r.Kind() ==> SameWorkload(a, r))
    case Some(_) => true
    case None => false
  }

  ghost predicate Agrees(s: Sys) {
    forall r: Record :: Holds(s.world, r) && r.Managed() && !Pending(s.task, r.Kind(), r.name) ==> InStep(s, r)
  }

  ghost predicate Accounted(s: Sys) {
    Coherent(s) && s.world.deployed == DeployedBy(s.log) && Agrees(s)
  }

  predicate Named(r: Record, k: Kind, n: string) {
    r.Kind() == k && r.name == n
  }

  /** A step that stores, removes or does nothing: the provider and its history
      are as they were, and every record it leaves was there before or is
      spoken for. */
  lemma StoreStep(s: Sys, s': Sys, e: Option<Event>, k: Kind, spoken: string)
    requires Agrees(s) && s.world.deployed == DeployedBy(s.log)
    requires s'.world.deployed == s.world.deployed
    requires s'.log == s.log + (if e.Some? then [e.value] else [])
    requires e.Some? ==> !e.value.Applied? && !e.value.TornDown? && forall n :: !Deploys(e.value, n)
    requires forall r :: Holds(s'.world, r) && !Named(r, k, spoken) ==>
      Holds(s.world, r) && !Pending(s.task, r.Kind(), r.name)
    requires forall r :: Holds(s'.world, r) && Named(r, k, spoken) && r.Managed() && !Pending(s'.task, k, spoken) ==>
      exists b :: (
        && Holds(s.world, b) && b.Managed() && Named(b, k, spoken) && SameWorkload(b, r)
        && !Pending(s.task, k, spoken))
    ensures Agrees(s') && s'.world.deployed == DeployedBy(s'.log)
  {
    hide Holds, SameWorkload, Pending;
    if e.Some? {
      DeployedByOne(s.log, e.value);
    } else {
      assert s'.log == s.log;
    }
    forall r: Record | Holds(s'.world, r) && r.Managed() && !Pending(s'.task, r.Kind(), r.name)
      ensures InStep(s', r)
    {
      if e.Some? { LastDeployOne(s.log, e.value, r.name); }
      if Named(r, k, spoken) {
        var b :| Holds(s.world, b) && b.Managed() && Named(b, k, spoken) && SameWorkload(b, r)
          && !Pending(s.task, k, spoken);
        assert InStep(s, b);
        if b.name in s.world.deployed { SameWorkloads(s.world.deployed[b.name], b, r); }
      } else {
        assert InStep(s, r);
      }
    }
  }

  /** A step that reaches the provider for `name`. */
  lemma ProviderStep(s: Sys, s': Sys, e: Event, name: string)
    requires Agrees(s) && s.world.deployed == DeployedBy(s.log)
    requires Deploys(e, name)
    requires s'.log == s.log + [e]
    requires s'.world.deployed == Redeployed(s.world.deployed, e)
    requires forall r :: Holds(s'.world, r) ==>
      Holds(s.world, r) && (r.name != name ==> !Pending(s.task, r.Kind(), r.name))
    requires e.Applied? ==> forall r :: Holds(s'.world, r) && Named(r, e.record.Kind(), name) ==> r == e.record
    ensures Agrees(s') && s'.world.deployed == DeployedBy(s'.log)
  {
    hide Holds, SameWorkload, Pending;
    DeployedByOne(s.log, e);
    forall r: Record | Holds(s'.world, r) && r.Managed() && !Pending(s'.task, r.Kind(), r.name)
      ensures InStep(s', r)
    {
      LastDeployOne(s.log, e, r.name);
      SameWorkloads(r, r, r);
      if r.name != name {
        assert InStep(s, r);
      }
    }
  }

  lemma StartAgrees(p: RbacPolicy, s: Sys, f: Fault)
    requires Agrees(s) && s.world.deployed == DeployedBy(s.log) && s.task.Some? && s.task.value.Start?
    ensures var s' := Next(p, s, Advance(f)); Agrees(s') && s'.world.deployed == DeployedBy(s'.log)
  {
    hide StartCreate, StartUpdate, StartDelete, Agrees, DeployedBy, PutNew, ApplyNew, RollBack;
    hide PutChange, ApplyChange, TearDownFirst, Forget;
    var s' := Next(p, s, Advance(f));
    NothingNamed(s, s');
  }

  /** Steps that touch neither the tables nor the provider. */
  lemma NothingNamed(s: Sys, s': Sys)
    requires Agrees(s) && s.world.deployed == DeployedBy(s.log)
    requires s'.world == s.world.(audit := s'.world.audit) && s'.log == s.log + []
    requires forall k, n :: Pending(s.task, k, n) ==> Pending(s'.task, k, n)
    ensures Agrees(s') && s'.world.deployed == DeployedBy(s'.log)
  {
    hide SameWorkload, Pending;
    assert s'.log == s.log;
    forall r: Record | Holds(s'.world, r) && r.Managed() && !Pending(s'.task, r.Kind(), r.name)
      ensures InStep(s', r)
    {
      assert Holds(s.world, r);
      assert InStep(s, r);
    }
  }

  lemma CreatePutAgrees(p: RbacPolicy, s: Sys, f: Fault)
    requires Accounted(s) && s.task.Some? && s.task.value.CreatePut?
    ensures var s' := Next(p, s, Advance(f)); Agrees(s') && s'.world.deployed == DeployedBy(s'.log)
  {
    hide StartCreate, StartUpdate, StartDelete, CreatedResponse, UpdatedResponse, Agrees, DeployedBy;
    hide Filed, ApplyNew, RollBack, PutChange, ApplyChange, TearDownFirst, Forget, Fresh;
    var t, s' := s.task.value, Next(p, s, Advance(f));
    if f.Fails? {
      NothingNamed(s, s');
    } else {
      StoreStep(s, s', Some(StoredCreate(t.body, t.now)), t.body.Kind(), t.body.name);
    }
  }

  lemma CreateApplyAgrees(p: RbacPolicy, s: Sys, f: Fault)
    requires Accounted(s) && s.task.Some? && s.task.value.CreateApply?
    ensures var s' := Next(p, s, Advance(f)); Agrees(s') && s'.world.deployed == DeployedBy(s'.log)
  {
    hide StartCreate, StartUpdate, StartDelete, CreatedResponse, UpdatedResponse, Agrees, DeployedBy;
    hide Filed, PutNew, RollBack, PutChange, ApplyChange, TearDownFirst, Forget;
    var r, s' := s.task.value.record, Next(p, s, Advance(f));
    ProviderStep(s, s', if f.Works? then Applied(r) else ApplyFailed(r.name), r.name);
  }

  lemma CreateRollbackAgrees(p: RbacPolicy, s: Sys, f: Fault)
    requires Accounted(s) && s.task.Some? && s.task.value.CreateRollback?
    ensures var s' := Next(p, s, Advance(f)); Agrees(s') && s'.world.deployed == DeployedBy(s'.log)
  {
    hide StartCreate, StartUpdate, StartDelete, CreatedResponse, UpdatedResponse, Agrees, DeployedBy;
    hide Filed, PutNew, ApplyNew, PutChange, ApplyChange, TearDownFirst, Forget;
    var r, s' := s.task.value.record, Next(p, s, Advance(f));
    if f.Fails? {
      NothingNamed(s, s');
    } else {
        StoreStep(s, s', Some(Removed(r.Kind(), r.name)), r.Kind(), r.name);
    }
  }

  lemma UpdatePutAgrees(p: RbacPolicy, s: Sys, f: Fault)
    requires Accounted(s) && s.task.Some? && s.task.value.UpdatePut?
    ensures var s' := Next(p, s, Advance(f)); Agrees(s') && s'.world.deployed == DeployedBy(s'.log)
  {
    hide StartCreate, StartUpdate, StartDelete, CreatedResponse, UpdatedResponse, Agrees, DeployedBy;
    hide Filed, PutNew, ApplyNew, RollBack, ApplyChange, TearDownFirst, Forget;
    var t, s' := s.task.value, Next(p, s, Advance(f));
    if f.Fails? {
      NothingNamed(s, s');
    } else {
      var r := Merge(t.base, t.changes, t.now);
      assert Holds(s.world, t.base);
      MergedManaged(t.base, t.changes, t.now);
      hide Merge;
      PutAlone(s.world, r);
      StoreStep(s, s', Some(StoredUpdate(r.Kind(), r.name, t.expected, t.changes, t.now)), r.Kind(), r.name);
    }
  }

  lemma MergedManaged(r: Record, b: UpdateBody, now: Time)
    ensures Merge(r, b, now).Managed() ==> r.Managed()
  {
  }

  /** After storing `r`, it is the only record of its kind and name. */
  lemma PutAlone(w: World, r: Record)
    ensures forall r' :: Holds(w.Put(r), r') ==> if Named(r', r.Kind(), r.name) then r' == r else Holds(w, r')
  {
  }

  lemma UpdateApplyAgrees(p: RbacPolicy, s: Sys, f: Fault)
    requires Accounted(s) && s.task.Some? && s.task.value.UpdateApply?
    ensures var s' := Next(p, s, Advance(f)); Agrees(s') && s'.world.deployed == DeployedBy(s'.log)
  {
    hide StartCreate, StartUpdate, StartDelete, CreatedResponse, UpdatedResponse, Agrees, DeployedBy;
    hide Filed, PutNew, ApplyNew, RollBack, PutChange, TearDownFirst, Forget;
    var r, s' := s.task.value.record, Next(p, s, Advance(f));
    ProviderStep(s, s', if f.Works? then Applied(r) else ApplyFailed(r.name), r.name);
  }

  lemma DeleteAgrees(p: RbacPolicy, s: Sys, f: Fault)
    requires Accounted(s) && s.task.Some? && (s.task.value.DeleteTeardown? || s.task.value.DeleteRecord?)
    ensures var s' := Next(p, s, Advance(f)); Agrees(s') && s'.world.deployed == DeployedBy(s'.log)
  {
    hide StartCreate, StartUpdate, StartDelete, CreatedResponse, UpdatedResponse, Agrees, DeployedBy;
    hide Filed, PutNew, ApplyNew, RollBack, PutChange, ApplyChange;
    var t, s' := s.task.value, Next(p, s, Advance(f));
    if f.Fails? {
      NothingNamed(s, s');
    } else if t.DeleteTeardown? {
      ProviderStep(s, s', TornDown(t.op.name), t.op.name);
    } else {
      RemoveAlone(s.world, t.op.kind, t.op.name);
      StoreStep(s, s', Some(Removed(t.op.kind, t.op.name)), t.op.kind, t.op.name);
    }
  }

  lemma RemoveAlone(w: World, k: Kind, name: string)
    ensures forall r :: Holds(w.Remove(k, name), r) ==> !Named(r, k, name) && Holds(w, r)
  {
  }

  lemma CrashAgrees(p: RbacPolicy, s: Sys)
    requires Agrees(s) && s.world.deployed == DeployedBy(s.log) && s.task.Some?
    ensures var s' := Next(p, s, Crash); Agrees(s') && s'.world.deployed == DeployedBy(s'.log)
  {
    hide Agrees, DeployedBy;
    var s' := Next(p, s, Crash);
    var t := s.task.value;
    if t.CreateApply? || t.UpdateApply? {
      ProviderStep(s, s', Abandoned(t.record.name), t.record.name);
    } else {
      NothingNamed(s, s');
    }
  }

  /** Every step, a crash included, keeps the accounts. */
  lemma AccountedNext(p: RbacPolicy, s: Sys, a: Action)
    requires Accounted(s)
    ensures Accounted(Next(p, s, a))
  {
    hide Step, Agrees, DeployedBy, Filed;
    CoherentNext(p, s, a);
    match (a, s.task)
    case (Begin(request), None) => NothingNamed(s, Next(p, s, a));
    case (Advance(f), Some(t)) =>
      match t {
        case Start(_) => StartAgrees(p, s, f);
        case CreatePut(_, _, _) => CreatePutAgrees(p, s, f);
        case CreateApply(_, _) => CreateApplyAgrees(p, s, f);
        case CreateRollback(_, _) => CreateRollbackAgrees(p, s, f);
        case UpdatePut(_, _, _, _, _) => UpdatePutAgrees(p, s, f);
        case UpdateApply(_, _) => UpdateApplyAgrees(p, s, f);
        case DeleteTeardown(_) => DeleteAgrees(p, s, f);
        case DeleteRecord(_) => DeleteAgrees(p, s, f);
      }
    case (Crash, Some(_)) => CrashAgrees(p, s);
    case _ =>
  }

  lemma {:induction false} AccountedRun(p: RbacPolicy, actions: seq<Action>)
    ensures Accounted(Run(p, INITIAL, actions))
  {
    hide Next, Accounted;
    if actions == [] {
      InitiallyAccounted();
    } else {
      AccountedRun(p, actions[..|actions| - 1]);
      AccountedNext(p, Run(p, INITIAL, actions[..|actions| - 1]), actions[|actions| - 1]);
    }
  }

  lemma InitiallyAccounted()
    ensures Accounted(INITIAL)
  {
  }

  /** What the history says runs under `name`: the record of the last successful
      apply, unless it was torn down since. */
  function Running(log: seq<Event>, name: string): Option<Record> {
    if log == [] then None
    else
      var e := log[|log| - 1];
      if e.Applied? && e.record.name == name then Some(e.record)
      else if e.TornDown? && e.name == name then None
      else Running(log[..|log| - 1], name)
  }

  lemma {:induction false} RunningIsDeployed(log: seq<Event>, name: string)
    ensures name in DeployedBy(log) <==> Running(log, name).Some?
    ensures name in DeployedBy(log) ==> DeployedBy(log)[name] == Running(log, name).value
  {
    if log != [] {
      RunningIsDeployed(log[..|log| - 1], name);
    }
  }

  lemma {:induction false} TornDownRunsNothing(log: seq<Event>, name: string)
    requires LastDeploy(log, name).Some?
    ensures Deploys(LastDeploy(log, name).value, name)
    ensures LastDeploy(log, name).value.TornDown? ==> Running(log, name).None?
    ensures LastDeploy(log, name).value.Applied? ==> Running(log, name) == Some(LastDeploy(log, name).value.record)
  {
    if !Deploys(log[|log| - 1], name) {
      TornDownRunsNothing(log[..|log| - 1], name);
    }
  }

  /** Desired and actual agree. After any run with any failures and crashes,
      whatever names adapters and tools share, with no handler in flight, what
      runs under a managed record's name is what was last applied there and not
      torn down since. If the last deployment event under the name is an apply,
      what runs is exactly what the record states if and only if it was applied
      for a record of its kind; a teardown leaves nothing running; otherwise the
      event is a failed apply or a crash before one. */
  lemma DesiredMatchesActual(p: RbacPolicy, actions: seq<Action>, r: Record)
    requires var s := Run(p, INITIAL, actions); s.task.None? && Holds(s.world, r) && r.Managed()
    ensures var s := Run(p, INITIAL, actions);
      var runs := if r.name in s.world.deployed then Some(s.world.deployed[r.name]) else None;
      && runs == Running(s.log, r.name)
      && match LastDeploy(s.log, r.name)
         case None => false
         case Some(Applied(a)) => runs == Some(a) && (SameWorkload(a, r) <==> a.Kind() == r.Kind())
         case Some(TornDown(_)) => runs == None
         case Some(e) => e.ApplyFailed? || e.Abandoned?
  {
    hide Run, Next, Holds;
    AccountedRun(p, actions);
    var s := Run(p, INITIAL, actions);
    assert InStep(s, r);
    RunningIsDeployed(s.log, r.name);
    TornDownRunsNothing(s.log, r.name);
  }

  /** Field by field: what was last applied for a record of its kind is what the
      record says now. */
  lemma RunningFields(p: RbacPolicy, actions: seq<Action>, r: Record, a: Record)
    requires var s := Run(p, INITIAL, actions); s.task.None? && Holds(s.world, r) && r.Managed()
    requires LastDeploy(Run(p, INITIAL, actions).log, r.name) == Some(Applied(a)) && a.Kind() == r.Kind()
    ensures var w := Run(p, INITIAL, actions).world;
      r.name in w.deployed && w.deployed[r.name] == a
    ensures a.image == r.image && a.port == r.port && a.path == r.path
    ensures a.env == r.env && a.secretRefs == r.secretRefs && a.resources == r.resources
    ensures r.Kind() == Adapter ==> a.extra.AdapterExtra? && a.extra.replicas == r.extra.replicas
  {
    hide Run, Holds;
    DesiredMatchesActual(p, actions, r);
  }

  /** A step applies only the record of the task, which is of the task's kind. */
  lemma AppliedByTask(p: RbacPolicy, t: Task, f: Fault, w: World, e: Event)
    requires TaskCoherent(t, w) && e in Step(p, t, f, w).events && e.Applied?
    ensures !t.Start? && !t.Done? && e.record.name == t.op.name && e.record.Kind() == t.op.kind
  {
    hide StartCreate, StartUpdate, StartDelete, CreatedResponse, UpdatedResponse, Fresh, Merge, Redeploys;
  }

  lemma {:induction false} AppliedOwned(p: RbacPolicy, owner: Owner, actions: seq<Action>)
    requires AllOwned(owner, actions)
    ensures forall e :: e in Run(p, INITIAL, actions).log && e.Applied? ==> owner(e.record.name) == e.record.Kind()
  {
    hide Step, TaskCoherent, Filed, TablesOwned;
    if actions != [] {
      var n := |actions| - 1;
      var s := Run(p, INITIAL, actions[..n]);
      AppliedOwned(p, owner, actions[..n]);
      OwnedRun(p, owner, actions[..n]);
      InitiallyCoherent();
      CoherentRun(p, INITIAL, actions[..n]);
      forall e | e in Run(p, INITIAL, actions).log && e.Applied? && e !in s.log
        ensures owner(e.record.name) == e.record.Kind()
      {
        AppliedByTask(p, s.task.value, actions[n].fault, s.world, e);
      }
    }
  }

  /** Where adapter and tool names are told apart, a last event that is an apply
      means that exactly the record's tracked fields run. */
  lemma OwnedRecordsMatch(p: RbacPolicy, owner: Owner, actions: seq<Action>, r: Record)
    requires AllOwned(owner, actions)
    requires var s := Run(p, INITIAL, actions); s.task.None? && Holds(s.world, r) && r.Managed()
    requires var last := LastDeploy(Run(p, INITIAL, actions).log, r.name); last.Some? && last.value.Applied?
    ensures var w := Run(p, INITIAL, actions).world;
      r.name in w.deployed && SameWorkload(w.deployed[r.name], r)
  {
    hide Run, SameWorkload;
    var s := Run(p, INITIAL, actions);
    DesiredMatchesActual(p, actions, r);
    OwnedRun(p, owner, actions);
    AppliedOwned(p, owner, actions);
    TornDownRunsNothing(s.log, r.name);
    LastDeployLogged(s.log, r.name);
  }

  lemma {:induction false} LastDeployLogged(log: seq<Event>, name: string)
    ensures LastDeploy(log, name).Some? ==> LastDeploy(log, name).value in log
  {
    if log != [] {
      LastDeployLogged(log[..|log| - 1], name);
    }
  }

  /** What the provider runs under a name agrees with the record stored there,
      if that is one it is meant to run. */
  predicate Faithful(w: World, k: Kind, n: string) {
    n in w.Table(k) && w.Table(k)[n].Managed() ==>
      n in w.deployed && SameWorkload(w.deployed[n], w.Table(k)[n])
  }

  /** The requests that set the two apart: a create whose apply and rollback
      both fail, unless what runs there happens to be the same; an update of
      tracked fields whose apply fails; a delete that tears down and then cannot
      remove the record. */
  predicate Drifts(p: RbacPolicy, request: Request, fs: Faults, w: World) {
    && Passes(p, request, fs.get, w)
    && match request
       case Create(_, b, now) =>
         && fs.put.Works? && Fresh(b, now).Managed() && fs.apply.Fails? && fs.rollback.Fails?
         && !(b.name in w.deployed && SameWorkload(w.deployed[b.name], Fresh(b, now)))
       case Update(_, name, _, c, _) =>
         fs.put.Works? && fs.apply.Fails? && Redeploys(w.Table(c.Kind())[name], Revised(request, w))
       case Delete(_, k, name, _) => w.Table(k)[name].Managed() && fs.teardown.Works? && fs.remove.Fails?
  }

  lemma CreateKeepsAgreement(p: RbacPolicy, request: Request, fs: Faults, w: World)
    requires request.Create? && Faithful(w, request.TargetKind(), request.Target())
    ensures Faithful(Effect(p, request, fs, w), request.TargetKind(), request.Target()) <==> !Drifts(p, request, fs, w)
  {
    hide SameWorkload;
    if Passes(p, request, fs.get, w) {
      FreeName(p, request, fs.get, w);
      var r := Fresh(request.body, request.now);
      SameWorkloads(r, r, r);
    }
    hide Passes, Fresh;
  }

  lemma UpdateKeepsAgreement(p: RbacPolicy, request: Request, fs: Faults, w: World)
    requires request.Update? && Filed(w) && Faithful(w, request.TargetKind(), request.Target())
    ensures Faithful(Effect(p, request, fs, w), request.TargetKind(), request.Target()) <==> !Drifts(p, request, fs, w)
  {
    hide SameWorkload, Passes;
    if Passes(p, request, fs.get, w) {
      var k, n := request.TargetKind(), request.name;
      NamedRecord(p, request, fs.get, w);
      Revisions.FiledUnder(w, k, n);
      MergedManaged(w.Table(k)[n], request.changes, request.now);
      var r := Revised(request, w);
      SameWorkloads(r, r, r);
      if n in w.deployed { SameWorkloads(w.deployed[n], w.Table(k)[n], r); }
    }
    hide Merge, Filed;
  }

  lemma DeleteKeepsAgreement(p: RbacPolicy, request: Request, fs: Faults, w: World)
    requires request.Delete? && Faithful(w, request.TargetKind(), request.Target())
    ensures Faithful(Effect(p, request, fs, w), request.TargetKind(), request.Target()) <==> !Drifts(p, request, fs, w)
  {
    hide SameWorkload;
    if Passes(p, request, fs.get, w) {
      NamedRecord(p, request, fs.get, w);
    }
    hide Passes;
  }

  lemma SameFaith(w: World, w': World, k: Kind, n: string)
    requires SameStores(w, w')
    ensures Faithful(w, k, n) <==> Faithful(w', k, n)
  {
    hide SameWorkload;
  }

  /** The requests that change what runs under their name. */
  predicate Reaches(p: RbacPolicy, request: Request, fs: Faults, w: World) {
    && Passes(p, request, fs.get, w)
    && match request
       case Create(_, b, now) => fs.put.Works? && Fresh(b, now).Managed() && fs.apply.Works?
       case Update(_, name, _, c, _) =>
         fs.put.Works? && Redeploys(w.Table(c.Kind())[name], Revised(request, w)) && fs.apply.Works?
       case Delete(_, k, name, _) => w.Table(k)[name].Managed() && fs.teardown.Works?
  }

  /** A managed record of the other kind under the request's name shares the
      provider's handle with the record the request is about. */
  lemma OtherKindKeptExactly(p: RbacPolicy, request: Request, fs: Faults, w: World)
    requires Filed(w) && Faithful(w, Other(request.TargetKind()), request.Target())
    requires request.Target() in w.Table(Other(request.TargetKind()))
    requires w.Table(Other(request.TargetKind()))[request.Target()].Managed()
    ensures Faithful(Effect(p, request, fs, w), Other(request.TargetKind()), request.Target())
       <==> !Reaches(p, request, fs, w)
  {
    var k, n := request.TargetKind(), request.Target();
    if Passes(p, request, fs.get, w) && !request.Create? {
      NamedRecord(p, request, fs.get, w);
      Revisions.FiledUnder(w, k, n);
    }
    Revisions.FiledUnder(w, Other(k), n);
    hide SameWorkload, Passes, Fresh, Merge, Redeploys, Filed;
  }

  /** The two worlds agree on a record and on what runs under its name. */
  predicate SameAt(w: World, w': World, k: Kind, n: string) {
    && (n in w'.Table(k) <==> n in w.Table(k))
    && (n in w.Table(k) ==> w'.Table(k)[n] == w.Table(k)[n])
    && (n in w'.deployed <==> n in w.deployed)
    && (n in w.deployed ==> w'.deployed[n] == w.deployed[n])
  }

  lemma StoringElsewhere(w: World, r: Record, k: Kind, n: string)
    requires n != r.name
    ensures SameAt(w, w, k, n) && SameAt(w, w.Put(r), k, n) && SameAt(w, w.Put(r).Deploy(r), k, n)
  {
  }

  lemma RemovingElsewhere(w: World, k': Kind, n': string, k: Kind, n: string)
    requires n != n'
    ensures SameAt(w, w, k, n) && SameAt(w, w.Remove(k', n'), k, n)
    ensures SameAt(w, w.TearDown(n'), k, n) && SameAt(w, w.TearDown(n').Remove(k', n'), k, n)
  {
  }

  lemma EffectElsewhere(p: RbacPolicy, request: Request, fs: Faults, w: World, k: Kind, n: string)
    requires Filed(w) && n != request.Target()
    ensures SameAt(w, Effect(p, request, fs, w), k, n)
  {
    hide SameAt, Passes, Redeploys, Fresh, Merge, Filed;
    RemovingElsewhere(w, request.TargetKind(), request.Target(), k, n);
    if Passes(p, request, fs.get, w) {
      if request.Create? {
        StoringElsewhere(w, Fresh(request.body, request.now), k, n);
      } else if request.Update? {
        NamedRecord(p, request, fs.get, w);
        Revisions.FiledUnder(w, request.TargetKind(), request.Target());
        StoringElsewhere(w, Revised(request, w), k, n);
      }
    }
  }

  /** A request leaves every other name alone: its records, and what runs. */
  lemma OtherNamesUntouched(p: RbacPolicy, request: Request, fs: Faults, w: World, k: Kind, n: string)
    requires Filed(w) && n != request.Target()
    ensures SameAt(w, Complete(p, Start(request), fs, w).world, k, n)
  {
    hide Complete, Effect, Filed;
    EffectExactly(p, request, fs, w);
    EffectElsewhere(p, request, fs, w, k, n);
  }

  /** A request that breaks the agreement of the record of that kind and name:
      its own, by drifting, or one of the other kind that shares its name, by
      reaching the provider at all. */
  predicate Unsettles(p: RbacPolicy, request: Request, fs: Faults, w: World, k: Kind, n: string) {
    && n == request.Target()
    && if k == request.TargetKind() then Drifts(p, request, fs, w)
       else n in w.Table(k) && w.Table(k)[n].Managed() && Reaches(p, request, fs, w)
  }

  lemma EffectKeepsAgreement(p: RbacPolicy, request: Request, fs: Faults, w: World, k: Kind, n: string)
    requires Filed(w) && Faithful(w, k, n)
    ensures Faithful(Effect(p, request, fs, w), k, n) <==> !Unsettles(p, request, fs, w, k, n)
  {
    if n != request.Target() {
      hide Effect, Drifts, Reaches, Filed, SameWorkload;
      EffectElsewhere(p, request, fs, w, k, n);
    } else if k != request.TargetKind() {
      hide SameWorkload, Drifts, Reaches, Passes, Fresh, Merge, Redeploys;
      OtherTableUntouched(p, request, fs, w);
      hide Effect, Filed;
      if n in w.Table(k) && w.Table(k)[n].Managed() {
        OtherKindKeptExactly(p, request, fs, w);
      }
    } else if request.Create? {
      hide Effect, Drifts, Faithful, Filed;
      CreateKeepsAgreement(p, request, fs, w);
    } else if request.Update? {
      hide Effect, Drifts, Faithful, Filed;
      UpdateKeepsAgreement(p, request, fs, w);
    } else {
      hide Effect, Drifts, Faithful, Filed;
      DeleteKeepsAgreement(p, request, fs, w);
    }
  }

  lemma StoringKind(w: World, r: Record)
    ensures w.Put(r).Table(Other(r.Kind())) == w.Table(Other(r.Kind()))
    ensures w.Put(r).Deploy(r).Table(Other(r.Kind())) == w.Table(Other(r.Kind()))
  {
  }

  lemma RemovingKind(w: World, k: Kind, n: string)
    ensures w.Remove(k, n).Table(Other(k)) == w.TearDown(n).Table(Other(k)) == w.Table(Other(k))
    ensures w.TearDown(n).Remove(k, n).Table(Other(k)) == w.Table(Other(k))
  {
  }

  lemma OtherTableUntouched(p: RbacPolicy, request: Request, fs: Faults, w: World)
    requires Filed(w)
    ensures var k := Other(request.TargetKind()); Effect(p, request, fs, w).Table(k) == w.Table(k)
  {
    hide Passes, Redeploys, Fresh, Merge, Filed;
    RemovingKind(w, request.TargetKind(), request.Target());
    if Passes(p, request, fs.get, w) {
      if request.Create? {
        StoringKind(w, Fresh(request.body, request.now));
      } else if request.Update? {
        NamedRecord(p, request, fs.get, w);
        Revisions.FiledUnder(w, request.TargetKind(), request.Target());
        StoringKind(w, Revised(request, w));
      }
    }
  }

  /** Agreement, request by request and exactly: a record of any kind and name
      that agrees with what runs still does after any completed request, unless
      the request is one of those, and then it does not. */
  lemma AgreementKeptExactly(p: RbacPolicy, request: Request, fs: Faults, w: World, k: Kind, n: string)
    requires Filed(w) && Faithful(w, k, n)
    ensures Faithful(Complete(p, Start(request), fs, w).world, k, n) <==> !Unsettles(p, request, fs, w, k, n)
  {
    hide Complete, Effect, Unsettles, Faithful, Filed, SameStores;
    EffectExactly(p, request, fs, w);
    SameFaith(Complete(p, Start(request), fs, w).world, Effect(p, request, fs, w), k, n);
    EffectKeepsAgreement(p, request, fs, w, k, n);
  }

  /** An update whose calls all work, on a record in step with what runs, leaves
      exactly the fields of the updated record running, if it is still managed. */
  lemma UpdateRunsFields(p: RbacPolicy, request: Request, fs: Faults, w: World)
    requires Filed(w) && request.Update? && Passes(p, request, fs.get, w) && fs.put.Works? && fs.apply.Works?
    requires Faithful(w, request.TargetKind(), request.name) && Revised(request, w).Managed()
    ensures var w', n, r := Complete(p, Start(request), fs, w).world, request.name, Revised(request, w);
      && n in w'.Table(request.TargetKind()) && w'.Table(request.TargetKind())[n] == r
      && n in w'.deployed && var a := w'.deployed[n];
         && a.image == r.image && a.port == r.port && a.path == r.path
         && a.env == r.env && a.secretRefs == r.secretRefs && a.resources == r.resources
         && (r.extra.AdapterExtra? ==> a.extra.AdapterExtra? && a.extra.replicas == r.extra.replicas)
  {
    hide Complete, Passes, Merge;
    var k, n := request.TargetKind(), request.name;
    AgreementKeptExactly(p, request, fs, w, k, n);
    UpdateEffect(p, request, fs, w);
    NamedRecord(p, request, fs.get, w);
    Revisions.FiledUnder(w, k, n);
    hide Filed, SameStores;
    assert SameStores(Complete(p, Start(request), fs, w).world, Effect(p, request, fs, w));
    StoredRevised(w, Complete(p, Start(request), fs, w).world, Effect(p, request, fs, w), Revised(request, w));
  }

  lemma StoredRevised(w: World, w': World, effect: World, r: Record)
    requires SameStores(w', effect) && (effect == w.Put(r) || effect == w.Put(r).Deploy(r))
    ensures r.name in w'.Table(r.Kind()) && w'.Table(r.Kind())[r.name] == r
  {
  }

  /** The provider is called for an update exactly when it passes, is stored, the
      adapter has no upstream, and one of the fields that shape the workload is
      not what it was. */
  lemma UpdateReachesExactly(p: RbacPolicy, request: Request, fs: Faults, w: World)
    requires request.Update?
    ensures (exists e :: e in Complete(p, Start(request), fs, w).events && (e.Applied? || e.ApplyFailed?))
       <==> (
         && Passes(p, request, fs.get, w) && fs.put.Works?
         && var base, r := w.Table(request.TargetKind())[request.name], Revised(request, w);
            && (r.extra.AdapterExtra? ==> r.extra.upstream == None)
            && (|| r.image != base.image || r.port != base.port || r.path != base.path
                || r.env != base.env || r.secretRefs != base.secretRefs || r.resources != base.resources
                || (base.extra.AdapterExtra? && r.extra.AdapterExtra? && r.extra.replicas != base.extra.replicas)))
  {
    UpdateEvents(p, request, fs, w);
    hide Complete, Passes, Merge;
    if Passes(p, request, fs.get, w) {
      NamedRecord(p, request, fs.get, w);
    }
  }

  /** An update whose apply fails has stored the merged record all the same and
      left the provider as it was, although the tracked fields changed. */
  lemma FailedApplyIsStored(p: RbacPolicy, request: Request, fs: Faults, w: World)
    requires Filed(w) && request.Update?
    ensures var c := Complete(p, Start(request), fs, w);
      && (c.response == Failed(ProviderFailed) <==> Drifts(p, request, fs, w))
      && (Drifts(p, request, fs, w) ==>
            && SameStores(c.world, w.Put(Revised(request, w)))
            && !SameWorkload(w.Table(request.changes.Kind())[request.name], Revised(request, w)))
  {
    hide Complete, Passes, Merge, SameWorkload;
    UpdateEffect(p, request, fs, w);
  }

  /** Sending the same update again after its apply failed never reaches the
      provider, even when every call works and the request succeeds: the record
      already holds the change, so nothing looks different any more, and what
      runs stays out of step. */
  lemma RetryReachesNothing(p: RbacPolicy, request: Request, fs: Faults, w: World, again: Request, fs': Faults)
    requires Filed(w) && request.Update? && again.Update?
    requires Drifts(p, request, fs, w)
    requires again.name == request.name && again.changes == request.changes.(revision := again.changes.revision)
    ensures var c := Complete(p, Start(request), fs, w);
      var w' := Complete(p, Start(again), fs', c.world).world;
      && w'.deployed == w.deployed
      && (Faithful(w, request.TargetKind(), request.name) ==> !Faithful(w', request.TargetKind(), request.name))
  {
    hide Complete, Merge, Passes;
    var k := request.TargetKind();
    var w1 := Complete(p, Start(request), fs, w).world;
    FailedApplyIsStored(p, request, fs, w);
    NamedRecord(p, request, fs.get, w);
    Revisions.FiledUnder(w, k, request.name);
    UpdateEffect(p, again, fs', w1);
    var base, r := w.Table(k)[request.name], Revised(request, w);
    MergedManaged(base, request.changes, request.now);
    MergeTracked(base, request.changes, again.changes, request.now, again.now);
    hide SameWorkload, Filed;
    assert w1.Table(k)[request.name] == r;
    var w' := Complete(p, Start(again), fs', w1).world;
    assert w'.deployed == w.deployed;
    assert SameWorkload(r, w'.Table(k)[request.name]) && w'.Table(k)[request.name].Managed();
  }

  lemma MergeTracked(r: Record, b: UpdateBody, again: UpdateBody, now: Time, later: Time)
    requires again == b.(revision := again.revision)
    ensures var once := Merge(r, b, now);
      var twice := Merge(once, again, later);
      SameWorkload(once, twice) && twice.Managed() == once.Managed() && twice.Kind() == once.Kind()
  {
  }
}
