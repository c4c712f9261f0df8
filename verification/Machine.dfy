/** The control plane's create, update and delete handlers as one small-step
    machine. A step is what happens between two calls into the metadata store
    or the deployment provider, so a crash or another handler's step can fall
    between any two of them. */
module Machine {
  import opened Claims
  import opened ETag
  import opened Policy
  import opened Records
  import Text
  import opened Validation
  import opened Wrappers

  datatype Verb = CreateVerb | UpdateVerb | DeleteVerb

  /** Whether the next store or provider call works. A call that fails changes
      nothing: this is the provider contract the handlers rely on. */
  datatype Fault = Works | Fails

  datatype HandlerError =
    | Forbidden(reason: string)
    | InvalidName(name: NameError)
    | InvalidEnv(env: EnvError)
    | InvalidLocation
    | InvalidIfMatch(header: HeaderError)
    | AlreadyExists
    | NotFound
    | RevisionMismatch
    | StoreFailed
    | ProviderFailed

  datatype Response =
    | Created(location: string, etag: string, record: Record)
    | Updated(etag: string, record: Record)
    | Deleted
    | Failed(error: HandlerError)

  datatype Request =
    | Create(user: UserContext, body: CreateBody, now: Time)
    | Update(user: UserContext, name: string, ifMatch: Option<string>, changes: UpdateBody, now: Time)
    | Delete(user: UserContext, kind: Kind, name: string, ifMatch: Option<string>)
  {
    function Target(): string {
      if Create? then body.name else name
    }

    function TargetKind(): Kind {
      match this
      case Create(_, b, _) => b.Kind()
      case Update(_, _, _, c, _) => c.Kind()
      case Delete(_, k, _, _) => k
    }

    function Verb(): Verb {
      match this
      case Create(_, _, _) => CreateVerb
      case Update(_, _, _, _, _) => UpdateVerb
      case Delete(_, _, _, _) => DeleteVerb
    }
  }

  datatype AuditEntry = AuditEntry(
    kind: Kind, verb: Verb, name: string, allowed: bool, policyId: Option<string>, error: Option<HandlerError>)

  datatype World = World(
    adapters: map<string, Record>,
    tools: map<string, Record>,
    deployed: map<string, Record>,
    audit: seq<AuditEntry>
  ) {
    function Table(k: Kind): map<string, Record> {
      if k == Adapter then adapters else tools
    }

    function Put(r: Record): World {
      if r.Kind() == Adapter then this.(adapters := adapters[r.name := r])
      else this.(tools := tools[r.name := r])
    }

    function Remove(k: Kind, name: string): World {
      if k == Adapter then this.(adapters := adapters - {name})
      else this.(tools := tools - {name})
    }

    function Deploy(r: Record): World {
      this.(deployed := deployed[r.name := r])
    }

    function TearDown(name: string): World {
      this.(deployed := deployed - {name})
    }

    function Log(op: Op, error: Option<HandlerError>): World {
      this.(audit := audit + [AuditEntry(op.kind, op.verb, op.name, error.None?, op.policyId, error)])
    }
  }

  /** What the handler is doing, for whom it will be audited. */
  datatype Op = Op(kind: Kind, verb: Verb, name: string, policyId: Option<string>)

  /** A handler in flight, named by the call it is about to make. */
  datatype Task =
    | Start(request: Request)
    | CreatePut(op: Op, body: CreateBody, now: Time)
    | CreateApply(op: Op, record: Record)
    | CreateRollback(op: Op, record: Record)
    | UpdatePut(op: Op, base: Record, expected: Option<U64>, changes: UpdateBody, now: Time)
    | UpdateApply(op: Op, record: Record)
    | DeleteTeardown(op: Op)
    | DeleteRecord(op: Op)
    | Done(response: Response)

  /** What a step did, as later theorems about whole runs need to know it. */
  datatype Event =
    | StoredCreate(body: CreateBody, now: Time)
    | StoredUpdate(kind: Kind, name: string, expected: Option<U64>, changes: UpdateBody, now: Time)
    | Removed(kind: Kind, name: string)
    | Applied(record: Record)
    | ApplyFailed(name: string)
    | TornDown(name: string)
    | Abandoned(name: string)

  datatype Outcome = Outcome(task: Task, world: World, events: seq<Event>)

  function ActionName(k: Kind, v: Verb): string {
    (if k == Adapter then "adapters" else "tools")
    + (match v case CreateVerb => ".create" case UpdateVerb => ".update" case DeleteVerb => ".delete")
  }

  /** The tags are those of the request: an update or delete is decided without
      the stored record's tags. */
  function Authorize(p: RbacPolicy, user: UserContext, k: Kind, v: Verb, name: string, tags: seq<string>)
    : Result<Option<string>, HandlerError>
  {
    var resource := if k == Adapter then AdapterResource else ToolResource;
    var d := Decide(p, PolicyInput(user, Control, ActionName(k, v), None, resource, name, tags, []));
    if d.allow then Ok(d.policyId) else Err(Forbidden(d.reason.GetOr("forbidden")))
  }

  predicate IsHeaderChar(c: char) {
    c == '\t' || (' ' <= c && c != '\U{007F}')
  }

  function LocationFor(k: Kind, name: string): Result<string, HandlerError> {
    var path := (if k == Adapter then "/adapters/" else "/tools/") + name;
    if Text.All(IsHeaderChar, path) then Ok(path) else Err(InvalidLocation)
  }

  /** The first environment name refused, in order. */
  function FirstBadEnv(env: seq<EnvVar>): (r: Option<EnvError>)
    ensures r.None? <==> forall e :: e in env ==> ValidateEnvVarName(e.name).Ok?
    ensures r.Some? ==> exists i :: (
      && 0 <= i < |env| && ValidateEnvVarName(env[i].name) == Err(r.value)
      && forall j :: 0 <= j < i ==> ValidateEnvVarName(env[j].name).Ok?)
  {
    if env == [] then None
    else if ValidateEnvVarName(env[0].name).Err? then Some(ValidateEnvVarName(env[0].name).error)
    else FirstBadEnv(env[1..])
  }

  function Stay(t: Task, w: World): Outcome {
    Outcome(t, w, [])
  }

  function Deny(op: Op, e: HandlerError, w: World): Outcome {
    Stay(Done(Failed(e)), w.Log(op, Some(e)))
  }

  /** An early return through `?`, which leaves no audit record. */
  function Bail(e: HandlerError, w: World): Outcome {
    Stay(Done(Failed(e)), w)
  }

  function CreatedResponse(r: Record): (response: Response)
    ensures response.Created? && response.record == r
  {
    Created((if r.Kind() == Adapter then "/adapters/" else "/tools/") + r.name, EtagFor(1), r)
  }

  function StartCreate(p: RbacPolicy, user: UserContext, b: CreateBody, now: Time, f: Fault, w: World)
    : (o: Outcome)
    ensures o.world == w.(audit := o.world.audit) && o.events == []
    ensures o.task.Done? ==> o.task.response.Failed? && !o.task.response.error.ProviderFailed?
    ensures !o.task.Done? ==> (
      && o.task.CreatePut? && o.task.body == b && o.task.now == now
      && o.task.op.kind == b.Kind() && o.task.op.verb == CreateVerb && o.task.op.name == b.name
      && b.name !in w.Table(b.Kind()))
  {
    var k := b.Kind();
    var op := Op(k, CreateVerb, b.name, None);
    match Authorize(p, user, k, CreateVerb, b.name, b.tags)
    case Err(e) => Deny(op, e, w)
    case Ok(pid) =>
      var op := op.(policyId := pid);
      var name := ValidateResourceName(b.name);
      var env := FirstBadEnv(b.env);
      var location := LocationFor(k, b.name);
      if name.Err? then Deny(op, InvalidName(name.error), w)
      else if env.Some? then Deny(op, InvalidEnv(env.value), w)
      else if location.Err? then Deny(op, location.error, w)
      else if f.Fails? then Bail(StoreFailed, w)
      else if b.name in w.Table(k) then Deny(op, AlreadyExists, w)
      else Stay(CreatePut(op, b, now), w)
  }

  function StartUpdate(p: RbacPolicy, user: UserContext, name: string, ifMatch: Option<string>, b: UpdateBody,
                       now: Time, f: Fault, w: World)
    : (o: Outcome)
    ensures o.world == w.(audit := o.world.audit) && o.events == []
    ensures o.task.Done? ==> o.task.response.Failed? && !o.task.response.error.ProviderFailed?
    ensures !o.task.Done? ==> (
      && name in w.Table(b.Kind())
      && o.task.UpdatePut? && o.task.base == w.Table(b.Kind())[name] && o.task.changes == b && o.task.now == now
      && o.task.op.kind == b.Kind() && o.task.op.verb == UpdateVerb && o.task.op.name == name
      && (o.task.expected.Some? ==> o.task.expected == o.task.base.revision))
  {
    var k := b.Kind();
    var op := Op(k, UpdateVerb, name, None);
    match Authorize(p, user, k, UpdateVerb, name, [])
    case Err(e) => Deny(op, e, w)
    case Ok(pid) =>
      var op := op.(policyId := pid);
      var env := if b.env.Some? then FirstBadEnv(b.env.value) else None;
      var header := ParseIfMatch(ifMatch);
      if env.Some? then Deny(op, InvalidEnv(env.value), w)
      else if header.Err? then Bail(InvalidIfMatch(header.error), w)
      else if f.Fails? then Bail(StoreFailed, w)
      else if name !in w.Table(k) then Bail(NotFound, w)
      else
        var base := w.Table(k)[name];
        var expected := header.value.Or(b.revision);
        if expected.Some? && expected != base.revision then Deny(op, RevisionMismatch, w)
        else Stay(UpdatePut(op, base, expected, b, now), w)
  }

  function StartDelete(p: RbacPolicy, user: UserContext, k: Kind, name: string, ifMatch: Option<string>,
                       f: Fault, w: World)
    : (o: Outcome)
    ensures o.world == w.(audit := o.world.audit) && o.events == []
    ensures o.task.Done? ==> o.task.response.Failed? && !o.task.response.error.ProviderFailed?
    ensures !o.task.Done? ==> (
      && name in w.Table(k)
      && (o.task.DeleteTeardown? || o.task.DeleteRecord?)
      && o.task.op.kind == k && o.task.op.verb == DeleteVerb && o.task.op.name == name
      && (o.task.DeleteTeardown? <==> w.Table(k)[name].Managed()))
  {
    var op := Op(k, DeleteVerb, name, None);
    match Authorize(p, user, k, DeleteVerb, name, [])
    case Err(e) => Deny(op, e, w)
    case Ok(pid) =>
      var op := op.(policyId := pid);
      if f.Fails? then Bail(StoreFailed, w)
      else if name !in w.Table(k) then Deny(op, NotFound, w)
      else
        var existing := w.Table(k)[name];
        var header := ParseIfMatch(ifMatch);
        if header.Err? then Bail(InvalidIfMatch(header.error), w)
        else if header.value.Some? && header.value != existing.revision then Deny(op, RevisionMismatch, w)
        else if existing.Managed() then Stay(DeleteTeardown(op), w)
        else Stay(DeleteRecord(op), w)
  }

  function UpdatedResponse(r: Record): (response: Response)
    ensures response.Updated? && response.record == r
  {
    Updated(EtagFor(r.revision.GetOr(0)), r)
  }

  /** Whether a stored change must reach the provider. */
  predicate NeedsApply(base: Record, r: Record) {
    r.Managed() && TrackedOf(base) != TrackedOf(r)
  }

  function PutNew(op: Op, b: CreateBody, now: Time, f: Fault, w: World): Outcome {
    var r := Fresh(b, now);
    if f.Fails? then Bail(StoreFailed, w)
    else if r.Managed() then Outcome(CreateApply(op, r), w.Put(r), [StoredCreate(b, now)])
    else Outcome(Done(CreatedResponse(r)), w.Put(r).Log(op, None), [StoredCreate(b, now)])
  }

  function ApplyNew(op: Op, r: Record, f: Fault, w: World): Outcome {
    if f.Fails? then Outcome(CreateRollback(op, r), w, [ApplyFailed(r.name)])
    else Outcome(Done(CreatedResponse(r)), w.Deploy(r).Log(op, None), [Applied(r)])
  }

  /** The rollback's own failure is ignored. */
  function RollBack(op: Op, r: Record, f: Fault, w: World): Outcome {
    if f.Fails? then Deny(op, ProviderFailed, w)
    else
      Outcome(Done(Failed(ProviderFailed)), w.Remove(r.Kind(), r.name).Log(op, Some(ProviderFailed)),
              [Removed(r.Kind(), r.name)])
  }

  function PutChange(op: Op, base: Record, expected: Option<U64>, b: UpdateBody, now: Time, f: Fault, w: World)
    : Outcome
  {
    var r := Merge(base, b, now);
    var event := StoredUpdate(r.Kind(), r.name, expected, b, now);
    if f.Fails? then Bail(StoreFailed, w)
    else if NeedsApply(base, r) then Outcome(UpdateApply(op, r), w.Put(r), [event])
    else Outcome(Done(UpdatedResponse(r)), w.Put(r).Log(op, None), [event])
  }

  function ApplyChange(op: Op, r: Record, f: Fault, w: World): Outcome {
    if f.Fails? then
      Outcome(Done(Failed(ProviderFailed)), w.Log(op, Some(ProviderFailed)), [ApplyFailed(r.name)])
    else Outcome(Done(UpdatedResponse(r)), w.Deploy(r).Log(op, None), [Applied(r)])
  }

  /** An absent deployment counts as torn down. */
  function TearDownFirst(op: Op, f: Fault, w: World): Outcome {
    if f.Fails? then Deny(op, ProviderFailed, w)
    else Outcome(DeleteRecord(op), w.TearDown(op.name), [TornDown(op.name)])
  }

  function Forget(op: Op, f: Fault, w: World): Outcome {
    if f.Fails? then Bail(StoreFailed, w)
    else Outcome(Done(Deleted), w.Remove(op.kind, op.name).Log(op, None), [Removed(op.kind, op.name)])
  }

  function Step(p: RbacPolicy, t: Task, f: Fault, w: World): Outcome {
    match t
    case Start(Create(user, b, now)) => StartCreate(p, user, b, now, f, w)
    case Start(Update(user, name, ifMatch, b, now)) => StartUpdate(p, user, name, ifMatch, b, now, f, w)
    case Start(Delete(user, k, name, ifMatch)) => StartDelete(p, user, k, name, ifMatch, f, w)
    case CreatePut(op, b, now) => PutNew(op, b, now, f, w)
    case CreateApply(op, r) => ApplyNew(op, r, f, w)
    case CreateRollback(op, r) => RollBack(op, r, f, w)
    case UpdatePut(op, base, expected, b, now) => PutChange(op, base, expected, b, now, f, w)
    case UpdateApply(op, r) => ApplyChange(op, r, f, w)
    case DeleteTeardown(op) => TearDownFirst(op, f, w)
    case DeleteRecord(op) => Forget(op, f, w)
    case Done(_) => Stay(t, w)
  }

  /** Calls a handler can still make. */
  function Rank(t: Task): nat {
    match t
    case Start(_) => 4
    case CreatePut(_, _, _) => 3
    case CreateApply(_, _) => 2
    case CreateRollback(_, _) => 1
    case UpdatePut(_, _, _, _, _) => 2
    case UpdateApply(_, _) => 1
    case DeleteTeardown(_) => 2
    case DeleteRecord(_) => 1
    case Done(_) => 0
  }

  lemma CompleteUnfolds(p: RbacPolicy, t: Task, fs: Faults, w: World)
    requires !t.Done?
    ensures var o := Step(p, t, FaultFor(t, fs), w);
      var rest := Complete(p, o.task, fs, o.world);
      Complete(p, t, fs, w) == Completion(rest.response, rest.world, [o.world] + rest.worlds, o.events + rest.events)
  {
    hide Step;
  }

  lemma FinishedIsDone(p: RbacPolicy, t: Task, fs: Faults, w: World)
    requires t.Done?
    ensures Complete(p, t, fs, w) == Completion(t.response, w, [], [])
  {
    hide Step;
  }

  lemma StepDescends(p: RbacPolicy, t: Task, f: Fault, w: World)
    requires !t.Done?
    ensures Rank(Step(p, t, f, w).task) < Rank(t)
  {
    hide StartCreate, StartUpdate, StartDelete, Fresh, Merge;
  }

  /** Which of a request's calls work. */
  datatype Faults = Faults(get: Fault, put: Fault, apply: Fault, rollback: Fault, teardown: Fault, remove: Fault)

  function FaultFor(t: Task, fs: Faults): Fault {
    match t
    case Start(_) => fs.get
    case CreatePut(_, _, _) => fs.put
    case CreateApply(_, _) => fs.apply
    case CreateRollback(_, _) => fs.rollback
    case UpdatePut(_, _, _, _, _) => fs.put
    case UpdateApply(_, _) => fs.apply
    case DeleteTeardown(_) => fs.teardown
    case DeleteRecord(_) => fs.remove
    case Done(_) => Works
  }

  /** A handler run to its response with nothing in between: the final world,
      every world on the way, and the events. */
  datatype Completion = Completion(response: Response, world: World, worlds: seq<World>, events: seq<Event>)

  function Complete(p: RbacPolicy, t: Task, fs: Faults, w: World): Completion
    decreases Rank(t)
  {
    if t.Done? then Completion(t.response, w, [], [])
    else
      var o := Step(p, t, FaultFor(t, fs), w);
      StepDescends(p, t, FaultFor(t, fs), w);
      var rest := Complete(p, o.task, fs, o.world);
      Completion(rest.response, rest.world, [o.world] + rest.worlds, o.events + rest.events)
  }
}
