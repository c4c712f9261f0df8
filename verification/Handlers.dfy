/** The control-plane handlers as the gateway writes them: step-by-step methods
    over the metadata store, the deployment provider and the audit sink. Each is
    proved to do exactly what the small-step machine does, call by call. */
module Handlers {
  import opened Claims
  import opened ETag
  import opened Machine
  import opened Policy
  import opened Records
  import opened SoloRuns
  import Text
  import opened Validation
  import opened Wrappers

  method CheckEnv(env: seq<EnvVar>) returns (bad: Option<EnvError>)
    ensures bad == FirstBadEnv(env)
  {
    for i := 0 to |env|
      invariant FirstBadEnv(env) == FirstBadEnv(env[i..])
    {
      var v := ValidateEnvVarName(env[i].name);
      if v.Err? {
        return Some(v.error);
      }
    }
    return None;
  }

  /** The mutable fields both kinds of record share, assigned one by one. */
  method ChangeShared(base: Record, body: UpdateBody, now: Time) returns (r: Record)
    ensures r == Merge(base, body, now).(extra := base.extra)
  {
    hide NextRevision, MergeExtra;
    var description, image, port, path := base.description, base.image, base.port, base.path;
    var env, secretRefs, requiredRoles, tags := base.env, base.secretRefs, base.requiredRoles, base.tags;
    var resources := base.resources;
    if body.description.Some? { description := body.description; }
    assert description == body.description.Or(base.description);
    if body.image.Some? { image := body.image.value; }
    assert image == body.image.GetOr(base.image);
    if body.port.Some? { port := body.port.value; }
    assert port == body.port.GetOr(base.port);
    if body.path.Some? { path := body.path.value; }
    assert path == body.path.GetOr(base.path);
    if body.env.Some? { env := body.env.value; }
    assert env == body.env.GetOr(base.env);
    if body.secretRefs.Some? { secretRefs := body.secretRefs.value; }
    assert secretRefs == body.secretRefs.GetOr(base.secretRefs);
    if body.requiredRoles.Some? { requiredRoles := body.requiredRoles.value; }
    assert requiredRoles == body.requiredRoles.GetOr(base.requiredRoles);
    if body.tags.Some? { tags := body.tags.value; }
    assert tags == body.tags.GetOr(base.tags);
    if body.resources.Some? { resources := body.resources.value; }
    assert resources == body.resources.GetOr(base.resources);
    var newRev := NextRevision(base.revision);
    r := Record(base.name, description, image, port, path, env, secretRefs, requiredRoles, tags, resources,
                base.extra, Some(newRev), base.createdAt, Some(now));
  }

  method ChangeAdapterExtra(base: Extra, b: ExtraUpdate) returns (extra: Extra)
    requires base.AdapterExtra? && b.AdapterUpdate?
    ensures extra == MergeExtra(base, b)
  {
    var upstream, replicas, health := base.upstream, base.replicas, base.health;
    var affinity, labels := base.affinity, base.labels;
    if b.upstream.Some? { upstream := b.upstream; }
    if b.replicas.Some? { replicas := b.replicas.value; }
    if b.health.Some? { health := b.health; }
    if b.affinity.Some? { affinity := ParseAffinity(b.affinity); }
    if b.labels.Some? { labels := b.labels.value; }
    extra := AdapterExtra(upstream, replicas, health, affinity, labels);
  }

  /** The update of an adapter, and whether the deployment has to follow. */
  method ChangeAdapter(base: Record, body: UpdateBody, now: Time) returns (adapter: Record, deploymentChanged: bool)
    requires base.extra.AdapterExtra? && body.extra.AdapterUpdate?
    ensures adapter == Merge(base, body, now)
    ensures deploymentChanged <==> !SameWorkload(base, adapter) || base.extra.upstream != adapter.extra.upstream
    ensures deploymentChanged <==> TrackedOf(base) != TrackedOf(adapter)
  {
    hide NextRevision, MergeExtra;
    var extra := ChangeAdapterExtra(base.extra, body.extra);
    adapter := ChangeShared(base, body, now);
    adapter := adapter.(extra := extra);
    assert adapter == Merge(base, body, now);
    deploymentChanged :=
      || base.image != adapter.image
      || base.port != adapter.port
      || base.path != adapter.path
      || base.env != adapter.env
      || base.secretRefs != adapter.secretRefs
      || base.extra.replicas != adapter.extra.replicas
      || base.resources.cpu != adapter.resources.cpu
      || base.resources.memory != adapter.resources.memory
      || base.extra.upstream != adapter.extra.upstream;
  }

  method ChangeTool(base: Record, body: UpdateBody, now: Time) returns (tool: Record, deploymentChanged: bool)
    requires base.extra.ToolExtra? && body.extra.ToolUpdate?
    ensures tool == Merge(base, body, now)
    ensures deploymentChanged <==> !SameWorkload(base, tool)
    ensures deploymentChanged <==> TrackedOf(base) != TrackedOf(tool)
  {
    var definition := base.extra.definition;
    if body.extra.definition.Some? { definition := body.extra.definition.value; }
    assert definition == body.extra.definition.GetOr(base.extra.definition);
    tool := ChangeShared(base, body, now);
    tool := tool.(extra := ToolExtra(definition));
    deploymentChanged :=
      || base.image != tool.image
      || base.port != tool.port
      || base.path != tool.path
      || base.env != tool.env
      || base.secretRefs != tool.secretRefs
      || base.resources != tool.resources;
  }

  method Change(base: Record, body: UpdateBody, now: Time) returns (r: Record, deploymentChanged: bool)
    requires base.Kind() == body.Kind()
    ensures r == Merge(base, body, now)
    ensures deploymentChanged <==> TrackedOf(base) != TrackedOf(r)
  {
    match base.Kind()
    case Adapter => r, deploymentChanged := ChangeAdapter(base, body, now);
    case Tool => r, deploymentChanged := ChangeTool(base, body, now);
  }

  /** A completion preceded by a step that changed nothing. */
  function After(c: Completion, w: World): Completion {
    Completion(c.response, c.world, [w] + c.worlds, [] + c.events)
  }

  /** Running a task from `w` is one step and then the rest. */
  lemma Unfold(p: RbacPolicy, t: Task, fs: Faults, w: World)
    requires !t.Done?
    ensures
      var o := Step(p, t, FaultFor(t, fs), w);
      var rest := Complete(p, o.task, fs, o.world);
      Complete(p, t, fs, w) ==
        if o.task.Done? then Completion(o.task.response, o.world, [o.world], o.events)
        else Completion(rest.response, rest.world, [o.world] + rest.worlds, o.events + rest.events)
  {
    hide Step;
    CompleteUnfolds(p, t, fs, w);
    var o := Step(p, t, FaultFor(t, fs), w);
    if o.task.Done? {
      FinishedIsDone(p, o.task, fs, o.world);
      assert [o.world] + [] == [o.world] && o.events + [] == o.events;
    }
  }

  /** The same for the write of an update. */
  lemma UnfoldChange(p: RbacPolicy, op: Op, base: Record, expected: Option<U64>, b: UpdateBody, now: Time,
                     fs: Faults, w: World)
    ensures
      var r := Merge(base, b, now);
      var event := StoredUpdate(r.Kind(), r.name, expected, b, now);
      var rest := Complete(p, UpdateApply(op, r), fs, w.Put(r));
      Complete(p, UpdatePut(op, base, expected, b, now), fs, w) ==
        if fs.put.Fails? then Completion(Failed(StoreFailed), w, [w], [])
        else if NeedsApply(base, r)
        then Completion(rest.response, rest.world, [w.Put(r)] + rest.worlds, [event] + rest.events)
        else Completion(UpdatedResponse(r), w.Put(r).Log(op, None), [w.Put(r).Log(op, None)], [event])
  {
    hide Complete, StartCreate, StartUpdate, StartDelete, PutNew, ApplyNew, RollBack, ApplyChange;
    hide TearDownFirst, Forget, Merge, UpdatedResponse, NeedsApply;
    Unfold(p, UpdatePut(op, base, expected, b, now), fs, w);
  }

  datatype TeardownResult = Gone | WasAbsent | TeardownError

  class ControlPlane {
    const policy: RbacPolicy
    var adapters: map<string, Record>
    var tools: map<string, Record>
    var deployed: map<string, Record>
    var audit: seq<AuditEntry>
    /** What the successful calls did, and the world after each call. */
    ghost var history: seq<Event>
    ghost var worlds: seq<World>

    function World(): World
      reads this
    {
      Machine.World(adapters, tools, deployed, audit)
    }

    ghost predicate Valid()
      reads this
    {
      Filed(World())
    }

    constructor (policy: RbacPolicy)
      ensures Valid()
      ensures this.policy == policy && World() == Machine.World(map[], map[], map[], [])
      ensures history == [] && worlds == []
    {
      this.policy := policy;
      adapters, tools, deployed, audit := map[], map[], map[], [];
      history, worlds := [], [];
    }

    /** One call's worth of progress, for the ghost record. */
    ghost method Note(events: seq<Event>)
      modifies this`history, this`worlds
      ensures history == old(history) + events && worlds == old(worlds) + [World()]
    {
      history := history + events;
      worlds := worlds + [World()];
    }

    method EmitAudit(op: Op, error: Option<HandlerError>)
      modifies this`audit
      ensures World() == old(World()).Log(op, error)
    {
      audit := audit + [AuditEntry(op.kind, op.verb, op.name, error.None?, op.policyId, error)];
    }

    /** `put_adapter` or `put_tool`. */
    method Put(r: Record, f: Fault) returns (ok: bool)
      modifies this`adapters, this`tools
      ensures ok == f.Works? && World() == (if ok then old(World()).Put(r) else old(World()))
    {
      ok := f.Works?;
      if ok {
        match r.Kind()
        case Adapter => adapters := adapters[r.name := r];
        case Tool => tools := tools[r.name := r];
      }
    }

    /** `delete_adapter` or `delete_tool` of the metadata store. */
    method Remove(k: Kind, name: string, f: Fault) returns (ok: bool)
      modifies this`adapters, this`tools
      ensures ok == f.Works? && World() == (if ok then old(World()).Remove(k, name) else old(World()))
    {
      ok := f.Works?;
      if ok {
        match k
        case Adapter => adapters := adapters - {name};
        case Tool => tools := tools - {name};
      }
    }

    method Apply(r: Record, f: Fault) returns (ok: bool)
      modifies this`deployed
      ensures ok == f.Works? && World() == (if ok then old(World()).Deploy(r) else old(World()))
    {
      ok := f.Works?;
      if ok { deployed := deployed[r.name := r]; }
    }

    /** The provider's delete: an absent deployment is an answer of its own. */
    method Teardown(name: string, f: Fault) returns (result: TeardownResult)
      modifies this`deployed
      ensures result == (if f.Fails? then TeardownError else if name in old(deployed) then Gone else WasAbsent)
      ensures World() == (if f.Fails? then old(World()) else old(World()).TearDown(name))
    {
      if f.Fails? {
        result := TeardownError;
      } else if name in deployed {
        deployed := deployed - {name};
        result := Gone;
      } else {
        result := WasAbsent;
        assert deployed - {name} == deployed;
      }
    }

    /** The call went as `c` says: same response, same world, same worlds on the
        way, same events. */
    twostate predicate Did(c: Completion, response: Response)
      reads this
    {
      && response == c.response
      && World() == c.world
      && history == old(history) + c.events
      && worlds == old(worlds) + c.worlds
    }

    /** Audit a refusal and answer with it. */
    method Refuse(op: Op, e: HandlerError) returns (response: Response)
      modifies this
      ensures var w := old(World()).Log(op, Some(e)); Did(Completion(Failed(e), w, [w], []), response)
    {
      EmitAudit(op, Some(e));
      Note([]);
      response := Failed(e);
    }

    /** Answer with an error that goes unaudited. */
    method Quit(e: HandlerError) returns (response: Response)
      modifies this
      ensures Did(Completion(Failed(e), old(World()), [old(World())], []), response)
    {
      Note([]);
      response := Failed(e);
    }

    /** `create_adapter` and `create_tool`. */
    method Create(user: UserContext, body: CreateBody, now: Time, fs: Faults)
      returns (response: Response)
      requires Valid()
      modifies this
      ensures Valid()
      ensures Did(Complete(policy, Start(Request.Create(user, body, now)), fs, old(World())), response)
    {
      hide Complete, Authorize, ValidateResourceName, FirstBadEnv, LocationFor, StartUpdate, StartDelete;
      hide Filed;
      hide PutNew, ApplyNew, RollBack, PutChange, ApplyChange, TearDownFirst, Forget;
      CompletionFiled(policy, Start(Request.Create(user, body, now)), fs, World());
      Unfold(policy, Start(Request.Create(user, body, now)), fs, World());
      var op := Op(body.Kind(), CreateVerb, body.name, None);
      var authorized := Authorize(policy, user, op.kind, CreateVerb, body.name, body.tags);
      if authorized.Err? {
        response := Refuse(op, authorized.error);
        return;
      }
      op := op.(policyId := authorized.value);
      var name := ValidateResourceName(body.name);
      if name.Err? {
        response := Refuse(op, InvalidName(name.error));
        return;
      }
      var env := CheckEnv(body.env);
      if env.Some? {
        response := Refuse(op, InvalidEnv(env.value));
        return;
      }
      var location := LocationFor(op.kind, body.name);
      if location.Err? {
        response := Refuse(op, location.error);
        return;
      }
      if fs.get.Fails? {
        response := Quit(StoreFailed);
        return;
      }
      if body.name in World().Table(op.kind) {
        response := Refuse(op, AlreadyExists);
        return;
      }
      response := StoreNew(op, body, location.value, now, fs);
    }

    /** Persist first, deploy second. */
    method StoreNew(op: Op, body: CreateBody, location: string, now: Time, fs: Faults)
      returns (response: Response)
      requires LocationFor(body.Kind(), body.name) == Ok(location)
      modifies this
      ensures Did(After(Complete(policy, CreatePut(op, body, now), fs, old(World())), old(World())), response)
    {
      hide Complete, StartCreate, StartUpdate, StartDelete, PutChange, ApplyChange, TearDownFirst;
      hide Forget, Fresh, ApplyNew, RollBack, EtagFor;
      Note([]);
      Unfold(policy, CreatePut(op, body, now), fs, World());
      var r := Fresh(body, now);
      var stored := Put(r, fs.put);
      if !stored {
        response := Quit(StoreFailed);
        return;
      }
      if r.Managed() {
        Note([StoredCreate(body, now)]);
        ghost var rest := Complete(policy, CreateApply(op, r), fs, World());
        Text.Associative(old(worlds), [old(World())], [World()] + rest.worlds);
        response := DeployNew(op, r, location, fs);
        return;
      }
      EmitAudit(op, None);
      Note([StoredCreate(body, now)]);
      response := Created(location, EtagFor(1), r);
    }

    method DeployNew(op: Op, r: Record, location: string, fs: Faults)
      returns (response: Response)
      requires CreatedResponse(r) == Created(location, EtagFor(1), r)
      modifies this
      ensures Did(Complete(policy, CreateApply(op, r), fs, old(World())), response)
    {
      hide Complete, StartCreate, StartUpdate, StartDelete, PutNew, PutChange, ApplyChange;
      hide TearDownFirst, Forget;
      Unfold(policy, CreateApply(op, r), fs, World());
      var applied := Apply(r, fs.apply);
      if !applied {
        Note([ApplyFailed(r.name)]);
        response := Undo(op, r, fs);
        return;
      }
      EmitAudit(op, None);
      Note([Applied(r)]);
      response := Created(location, EtagFor(1), r);
    }

    /** Roll the record back so nothing unroutable stays listed. */
    method Undo(op: Op, r: Record, fs: Faults)
      returns (response: Response)
      modifies this
      ensures Did(Complete(policy, CreateRollback(op, r), fs, old(World())), response)
    {
      hide Complete, StartCreate, StartUpdate, StartDelete, PutNew, ApplyNew, PutChange, ApplyChange;
      hide TearDownFirst, Forget;
      Unfold(policy, CreateRollback(op, r), fs, World());
      var removed := Remove(r.Kind(), r.name, fs.rollback);
      EmitAudit(op, Some(ProviderFailed));
      Note(if removed then [Removed(r.Kind(), r.name)] else []);
      response := Failed(ProviderFailed);
    }

    /** `update_adapter` and `update_tool`. */
    method Update(user: UserContext, name: string, ifMatch: Option<string>, body: UpdateBody, now: Time, fs: Faults)
      returns (response: Response)
      requires Valid()
      modifies this
      ensures Valid()
      ensures Did(Complete(policy, Start(Request.Update(user, name, ifMatch, body, now)), fs, old(World())), response)
    {
      hide Complete, Authorize, ParseIfMatch, FirstBadEnv, StartCreate, StartDelete, Filed;
      hide PutNew, ApplyNew, RollBack, PutChange, ApplyChange, TearDownFirst, Forget;
      CompletionFiled(policy, Start(Request.Update(user, name, ifMatch, body, now)), fs, World());
      Unfold(policy, Start(Request.Update(user, name, ifMatch, body, now)), fs, World());
      var op := Op(body.Kind(), UpdateVerb, name, None);
      var authorized := Authorize(policy, user, op.kind, UpdateVerb, name, []);
      if authorized.Err? {
        response := Refuse(op, authorized.error);
        return;
      }
      op := op.(policyId := authorized.value);
      if body.env.Some? {
        var bad := CheckEnv(body.env.value);
        if bad.Some? {
          response := Refuse(op, InvalidEnv(bad.value));
          return;
        }
      }
      var header := ParseIfMatch(ifMatch);
      if header.Err? {
        response := Quit(InvalidIfMatch(header.error));
        return;
      }
      if fs.get.Fails? {
        response := Quit(StoreFailed);
        return;
      }
      if name !in World().Table(op.kind) {
        response := Quit(NotFound);
        return;
      }
      var base := World().Table(op.kind)[name];
      var expected := header.value.Or(body.revision);
      if expected.Some? && expected != base.revision {
        response := Refuse(op, RevisionMismatch);
        return;
      }
      FiledKind(World(), op.kind, name);
      response := StoreChange(op, base, expected, body, now, fs);
    }

    method StoreChange(op: Op, base: Record, expected: Option<U64>, body: UpdateBody, now: Time, fs: Faults)
      returns (response: Response)
      requires base.Kind() == body.Kind()
      modifies this
      ensures Did(After(Complete(policy, UpdatePut(op, base, expected, body, now), fs, old(World())), old(World())),
                  response)
    {
      hide Complete, Step, PutChange, Merge, TrackedOf, EtagFor, NextRevision;
      Note([]);
      UnfoldChange(policy, op, base, expected, body, now, fs, World());
      var r, deploymentChanged := Change(base, body, now);
      var stored := Put(r, fs.put);
      if !stored {
        response := Quit(StoreFailed);
        return;
      }
      if deploymentChanged && r.Managed() {
        Note([StoredUpdate(r.Kind(), r.name, expected, body, now)]);
        ghost var rest := Complete(policy, UpdateApply(op, r), fs, World());
        Text.Associative(old(worlds), [old(World())], [World()] + rest.worlds);
        response := Redeploy(op, r, fs);
        return;
      }
      EmitAudit(op, None);
      Note([StoredUpdate(r.Kind(), r.name, expected, body, now)]);
      response := Updated(EtagFor(r.revision.GetOr(0)), r);
    }

    method Redeploy(op: Op, r: Record, fs: Faults)
      returns (response: Response)
      modifies this
      ensures Did(Complete(policy, UpdateApply(op, r), fs, old(World())), response)
    {
      hide Complete, StartCreate, StartUpdate, StartDelete, PutNew, ApplyNew, RollBack, PutChange;
      hide TearDownFirst, Forget;
      Unfold(policy, UpdateApply(op, r), fs, World());
      var applied := Apply(r, fs.apply);
      if !applied {
        EmitAudit(op, Some(ProviderFailed));
        Note([ApplyFailed(r.name)]);
        response := Failed(ProviderFailed);
        return;
      }
      EmitAudit(op, None);
      Note([Applied(r)]);
      response := Updated(EtagFor(r.revision.GetOr(0)), r);
    }

    /** `delete_adapter` and `delete_tool`. */
    method Delete(user: UserContext, kind: Kind, name: string, ifMatch: Option<string>, fs: Faults)
      returns (response: Response)
      requires Valid()
      modifies this
      ensures Valid()
      ensures Did(Complete(policy, Start(Request.Delete(user, kind, name, ifMatch)), fs, old(World())), response)
    {
      hide Complete, Authorize, ParseIfMatch, StartCreate, StartUpdate, Filed;
      hide PutNew, ApplyNew, RollBack, PutChange, ApplyChange, TearDownFirst, Forget;
      CompletionFiled(policy, Start(Request.Delete(user, kind, name, ifMatch)), fs, World());
      Unfold(policy, Start(Request.Delete(user, kind, name, ifMatch)), fs, World());
      var op := Op(kind, DeleteVerb, name, None);
      var authorized := Authorize(policy, user, kind, DeleteVerb, name, []);
      if authorized.Err? {
        response := Refuse(op, authorized.error);
        return;
      }
      op := op.(policyId := authorized.value);
      if fs.get.Fails? {
        response := Quit(StoreFailed);
        return;
      }
      if name !in World().Table(kind) {
        response := Refuse(op, NotFound);
        return;
      }
      var existing := World().Table(kind)[name];
      var header := ParseIfMatch(ifMatch);
      if header.Err? {
        response := Quit(InvalidIfMatch(header.error));
        return;
      }
      if header.value.Some? && header.value != existing.revision {
        response := Refuse(op, RevisionMismatch);
        return;
      }
      response := Dismantle(op, existing.Managed(), fs);
    }

    method Dismantle(op: Op, managed: bool, fs: Faults)
      returns (response: Response)
      modifies this
      ensures var t := if managed then DeleteTeardown(op) else DeleteRecord(op);
        Did(After(Complete(policy, t, fs, old(World())), old(World())), response)
    {
      hide Step, Complete;
      ghost var rest := Complete(policy, if managed then DeleteTeardown(op) else DeleteRecord(op), fs, World());
      Note([]);
      if managed {
        response := TearDownThenForget(op, fs);
      } else {
        response := ForgetRecord(op, fs);
      }
      Text.Associative(old(worlds), [old(World())], rest.worlds);
      Text.Associative(old(history), [], rest.events);
    }

    /** Tear the workload down before removing the record that accounts for it. */
    method TearDownThenForget(op: Op, fs: Faults)
      returns (response: Response)
      modifies this
      ensures Did(Complete(policy, DeleteTeardown(op), fs, old(World())), response)
    {
      hide Complete, StartCreate, StartUpdate, StartDelete, PutNew, ApplyNew, RollBack, PutChange;
      hide ApplyChange, Forget;
      Unfold(policy, DeleteTeardown(op), fs, World());
      var result := Teardown(op.name, fs.teardown);
      match result {
        case Gone =>
        case WasAbsent =>
        case TeardownError =>
          response := Refuse(op, ProviderFailed);
          return;
      }
      Note([TornDown(op.name)]);
      response := ForgetRecord(op, fs);
    }

    method ForgetRecord(op: Op, fs: Faults)
      returns (response: Response)
      modifies this
      ensures Did(Complete(policy, DeleteRecord(op), fs, old(World())), response)
    {
      hide Complete, StartCreate, StartUpdate, StartDelete, PutNew, ApplyNew, RollBack, PutChange;
      hide ApplyChange, TearDownFirst;
      Unfold(policy, DeleteRecord(op), fs, World());
      var removed := Remove(op.kind, op.name, fs.remove);
      if !removed {
        response := Quit(StoreFailed);
        return;
      }
      EmitAudit(op, None);
      Note([Removed(op.kind, op.name)]);
      response := Deleted;
    }
  }

  lemma FiledKind(w: World, k: Kind, n: string)
    requires Filed(w) && n in w.Table(k)
    ensures w.Table(k)[n].Kind() == k
  {
  }
}
