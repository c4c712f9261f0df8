/** Handlers interleaved at their store and provider calls. The get-then-put
    code guarantees no revision discipline here, but every stored, deployed or
    in-flight record stays well formed. */
module Interleaving {
  import opened Machine
  import opened Policy
  import opened Records
  import opened SoloRuns
  import opened Validation
  import opened Wrappers
  import Text

  datatype Crowd = Crowd(world: World, tasks: map<nat, Task>)

  datatype Move =
    | Launch(id: nat, request: Request)
    | Proceed(id: nat, fault: Fault)
    | Kill(id: nat)

  function Turn(p: RbacPolicy, c: Crowd, m: Move): Crowd {
    match m
    case Launch(id, request) => if id in c.tasks then c else c.(tasks := c.tasks[id := Start(request)])
    case Proceed(id, f) =>
      if id !in c.tasks then c
      else
        var o := Step(p, c.tasks[id], f, c.world);
        Crowd(o.world, c.tasks[id := o.task])
    case Kill(id) => c.(tasks := c.tasks - {id})
  }

  function Interleave(p: RbacPolicy, c: Crowd, moves: seq<Move>): Crowd {
    if moves == [] then c
    else Turn(p, Interleave(p, c, moves[..|moves| - 1]), moves[|moves| - 1])
  }

  predicate EnvOk(env: seq<EnvVar>) {
    forall e :: e in env ==> ValidateEnvVarName(e.name).Ok?
  }

  predicate Sane(r: Record) {
    ValidateResourceName(r.name).Ok? && EnvOk(r.env)
  }

  ghost predicate SaneWorld(w: World) {
    && Filed(w)
    && (forall n :: n in w.adapters ==> Sane(w.adapters[n]))
    && (forall n :: n in w.tools ==> Sane(w.tools[n]))
    && (forall n :: n in w.deployed ==> w.deployed[n].name == n && Sane(w.deployed[n]))
  }

  predicate SaneTask(t: Task) {
    match t
    case CreatePut(_, b, _) => ValidateResourceName(b.name).Ok? && EnvOk(b.env)
    case CreateApply(_, r) => Sane(r)
    case CreateRollback(_, r) => Sane(r)
    case UpdatePut(_, base, _, changes, _) => Sane(base) && (changes.env.Some? ==> EnvOk(changes.env.value))
    case UpdateApply(_, r) => Sane(r)
    case _ => true
  }

  ghost predicate SaneCrowd(c: Crowd) {
    SaneWorld(c.world) && forall id :: id in c.tasks ==> SaneTask(c.tasks[id])
  }

  lemma StartSane(p: RbacPolicy, request: Request, f: Fault, w: World)
    requires SaneWorld(w)
    ensures var o := Step(p, Start(request), f, w); SaneWorld(o.world) && SaneTask(o.task)
  {
    hide PutNew, ApplyNew, RollBack, PutChange, ApplyChange, TearDownFirst, Forget;
    hide Authorize, ValidateResourceName, ValidateEnvVarName, FirstBadEnv, LocationFor, ETag.ParseIfMatch;
  }

  lemma PutSane(w: World, r: Record)
    requires SaneWorld(w) && Sane(r)
    ensures SaneWorld(w.Put(r))
  {
    hide Sane;
  }

  lemma DeploySane(w: World, r: Record)
    requires SaneWorld(w) && Sane(r)
    ensures SaneWorld(w.Deploy(r))
  {
    hide Sane;
  }

  lemma LogSane(w: World, op: Op, e: Option<HandlerError>)
    requires SaneWorld(w)
    ensures SaneWorld(w.Log(op, e))
  {
    hide Sane;
  }

  lemma FreshSane(b: CreateBody, now: Time)
    requires ValidateResourceName(b.name).Ok? && EnvOk(b.env)
    ensures Sane(Fresh(b, now))
  {
    hide ValidateResourceName, ValidateEnvVarName;
  }

  lemma MergeSane(r: Record, b: UpdateBody, now: Time)
    requires Sane(r) && (b.env.Some? ==> EnvOk(b.env.value))
    ensures Sane(Merge(r, b, now))
  {
    hide ValidateResourceName, ValidateEnvVarName;
  }

  lemma StepSane(p: RbacPolicy, t: Task, f: Fault, w: World)
    requires SaneWorld(w) && SaneTask(t) && !t.Start?
    ensures var o := Step(p, t, f, w); SaneWorld(o.world) && SaneTask(o.task)
  {
    hide StartCreate, StartUpdate, StartDelete, CreatedResponse, UpdatedResponse, NeedsApply, SaneWorld, Sane;
    hide ValidateResourceName, ValidateEnvVarName, Fresh, Merge, EnvOk;
    var o := Step(p, t, f, w);
    if !t.Done? {
      var bad := Some(ProviderFailed);
      LogSane(w, t.op, bad);
      match t
      case CreatePut(op, b, now) =>
        FreshSane(b, now);
        PutSane(w, Fresh(b, now));
        LogSane(w.Put(Fresh(b, now)), op, None);
      case CreateApply(op, r) =>
        DeploySane(w, r);
        LogSane(w.Deploy(r), op, None);
      case CreateRollback(op, r) =>
        RemovalSane(w, r.Kind(), r.name);
        LogSane(w.Remove(r.Kind(), r.name), op, bad);
      case UpdatePut(op, base, _, b, now) =>
        var r := Merge(base, b, now);
        MergeSane(base, b, now);
        PutSane(w, r);
        LogSane(w.Put(r), op, None);
      case UpdateApply(op, r) =>
        DeploySane(w, r);
        LogSane(w.Deploy(r), op, None);
      case DeleteTeardown(op) => RemovalSane(w, op.kind, op.name);
      case DeleteRecord(op) =>
        RemovalSane(w, op.kind, op.name);
        LogSane(w.Remove(op.kind, op.name), op, None);
    }
  }

  lemma RemovalSane(w: World, k: Kind, n: string)
    requires SaneWorld(w)
    ensures SaneWorld(w.TearDown(n)) && SaneWorld(w.Remove(k, n))
  {
    hide Sane;
  }

  lemma TurnSane(p: RbacPolicy, c: Crowd, m: Move)
    requires SaneCrowd(c)
    ensures SaneCrowd(Turn(p, c, m))
  {
    hide Step, SaneWorld, Sane;
    if m.Proceed? && m.id in c.tasks {
      var t := c.tasks[m.id];
      if t.Start? {
        StartSane(p, t.request, m.fault, c.world);
      } else {
        StepSane(p, t, m.fault, c.world);
      }
    }
  }

  /** Under any interleaving of any requests, with any failures and handlers
      dying anywhere, every stored record sits under its own name in the table
      of its kind, its name and environment names have passed validation, and
      the same goes for everything deployed. */
  lemma {:induction false} RecordsStaySane(p: RbacPolicy, moves: seq<Move>)
    ensures SaneCrowd(Interleave(p, Crowd(EMPTY_WORLD, map[]), moves))
  {
    hide Turn, SaneTask;
    if moves != [] {
      var n := |moves| - 1;
      RecordsStaySane(p, moves[..n]);
      TurnSane(p, Interleave(p, Crowd(EMPTY_WORLD, map[]), moves[..n]), moves[n]);
    }
  }

  /** The guarantees spelled out: names in the documented language, environment
      names safe to pass to a workload. */
  lemma StoredNamesInLanguage(p: RbacPolicy, moves: seq<Move>, k: Kind, n: string)
    requires n in Interleave(p, Crowd(EMPTY_WORLD, map[]), moves).world.Table(k)
    ensures
      var r := Interleave(p, Crowd(EMPTY_WORLD, map[]), moves).world.Table(k)[n];
      && r.name == n && r.Kind() == k
      && Matches(ResourceNamePattern(), n)
      && forall e :: e in r.env ==> SafeEnvName(e.name)
  {
    hide Interleave, Turn, SaneTask, Matches, ValidateResourceName, SafeEnvName, ValidateEnvVarName;
    RecordsStaySane(p, moves);
    ResourceNameLanguage(n);
    var r := Interleave(p, Crowd(EMPTY_WORLD, map[]), moves).world.Table(k)[n];
    forall e | e in r.env
      ensures SafeEnvName(e.name)
    {
      EnvNameLanguage(e.name);
    }
  }

  /** A validated name always makes a valid Location header, so that refusal
      never happens after validation. */
  lemma ValidNamesLocate(k: Kind, name: string)
    requires ValidateResourceName(name).Ok?
    ensures LocationFor(k, name).Ok?
  {
    var path := (if k == Adapter then "/adapters/" else "/tools/") + name;
    assert forall i :: 0 <= i < |name| ==> IsLabelChar(name[i]);
    assert forall i :: 0 <= i < |name| ==> IsHeaderChar(name[i]);
    var prefix := if k == Adapter then "/adapters/" else "/tools/";
    assert Text.All(IsHeaderChar, prefix);
  }
}
