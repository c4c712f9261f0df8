/** What one request does to the stores, from its checks to its response, in
    terms that can be tested before it is sent: the guards that let it past its
    checks, and which of its calls work. */
module Effects {
  import opened Claims
  import opened ETag
  import opened Interleaving
  import opened Machine
  import opened Policy
  import opened Records
  import SoloRuns
  import Text
  import opened Validation
  import opened Wrappers

  predicate Admitted(p: RbacPolicy, request: Request) {
    match request
    case Create(user, b, _) => Authorize(p, user, b.Kind(), CreateVerb, b.name, b.tags).Ok?
    case Update(user, name, _, c, _) => Authorize(p, user, c.Kind(), UpdateVerb, name, []).Ok?
    case Delete(user, k, name, _) => Authorize(p, user, k, DeleteVerb, name, []).Ok?
  }

  predicate RevisionAgrees(expected: Option<U64>, r: Record) {
    expected.Some? ==> expected == r.revision
  }

  predicate SuppliedEnvOk(env: Option<seq<EnvVar>>) {
    env.Some? ==> EnvOk(env.value)
  }

  /** The action names the control plane asks the policy about. */
  function ControlAction(k: Kind, v: Verb): string {
    match (k, v)
    case (Adapter, CreateVerb) => "adapters.create"
    case (Adapter, UpdateVerb) => "adapters.update"
    case (Adapter, DeleteVerb) => "adapters.delete"
    case (Tool, CreateVerb) => "tools.create"
    case (Tool, UpdateVerb) => "tools.update"
    case (Tool, DeleteVerb) => "tools.delete"
  }

  /** What the policy is asked, whole; the engine reads all of it but the
      resource kind. */
  lemma AuthorizeAsks(p: RbacPolicy, user: UserContext, k: Kind, v: Verb, name: string, tags: seq<string>)
    ensures
      var resource := (match k case Adapter => AdapterResource case Tool => ToolResource);
      var asked := PolicyInput(user, Control, ControlAction(k, v), None, resource, name, tags, []);
      Authorize(p, user, k, v, name, tags)
        == if Decide(p, asked).allow then Ok(Decide(p, asked).policyId) else Err(Forbidden("default-deny"))
    ensures Authorize(p, user, k, v, name, tags)
        == if Permits(p, Control, ControlAction(k, v), name, tags, user.roles)
           then Ok(Some("yaml-rbac:" + p.source)) else Err(Forbidden("default-deny"))
  {
    hide Permits, DecideBy;
    var resource := if k == Adapter then AdapterResource else ToolResource;
    assert ActionName(k, v) == ControlAction(k, v);
    var asked := PolicyInput(user, Control, ActionName(k, v), None, resource, name, tags, []);
    DecidePermits(p, asked);
    DecisionNames(p.rules, p, asked);
  }

  /** Who may ask for what: a create is decided with the new record's tags,
      updates and deletes without any. */
  ghost predicate Permitted(p: RbacPolicy, request: Request) {
    match request
    case Create(user, b, _) => Permits(p, Control, ControlAction(b.Kind(), CreateVerb), b.name, b.tags, user.roles)
    case Update(user, name, _, c, _) => Permits(p, Control, ControlAction(c.Kind(), UpdateVerb), name, [], user.roles)
    case Delete(user, k, name, _) => Permits(p, Control, ControlAction(k, DeleteVerb), name, [], user.roles)
  }

  lemma AdmittedExactly(p: RbacPolicy, request: Request)
    ensures Admitted(p, request) <==> Permitted(p, request)
  {
    hide Permits, Authorize;
    AuthorizeAsks(p, request.user, request.TargetKind(), request.Verb(), request.Target(),
                  if request.Create? then request.body.tags else []);
  }

  /** The guards of a request, the first read included: what is asked for is
      allowed and well formed, a create's name is free, and what an update or
      delete names exists with the revision it expects. */
  predicate Passes(p: RbacPolicy, request: Request, get: Fault, w: World) {
    && Admitted(p, request) && get.Works?
    && match request
       case Create(_, b, _) => ValidateResourceName(b.name).Ok? && EnvOk(b.env) && b.name !in w.Table(b.Kind())
       case Update(_, name, ifMatch, c, _) =>
         && SuppliedEnvOk(c.env) && ParseIfMatch(ifMatch).Ok?
         && name in w.Table(c.Kind())
         && RevisionAgrees(ParseIfMatch(ifMatch).value.Or(c.revision), w.Table(c.Kind())[name])
       case Delete(_, k, name, ifMatch) =>
         && ParseIfMatch(ifMatch).Ok?
         && name in w.Table(k)
         && RevisionAgrees(ParseIfMatch(ifMatch).value, w.Table(k)[name])
  }

  /** A request gets past its checks exactly when its guards hold. */
  lemma PassesExactly(p: RbacPolicy, request: Request, get: Fault, w: World)
    ensures !Step(p, Start(request), get, w).task.Done? <==> Passes(p, request, get, w)
  {
    hide PutNew, ApplyNew, RollBack, PutChange, ApplyChange, TearDownFirst, Forget;
    hide Authorize, ValidateResourceName, ValidateEnvVarName, FirstBadEnv, LocationFor, ParseIfMatch;
    if request.Create? && ValidateResourceName(request.body.name).Ok? {
      ValidNamesLocate(request.body.Kind(), request.body.name);
    }
  }

  /** The record an update lays over what is stored. */
  function Revised(request: Request, w: World): Record
    requires request.Update? && request.name in w.Table(request.changes.Kind())
  {
    Merge(w.Table(request.changes.Kind())[request.name], request.changes, request.now)
  }

  /** Whether a stored change concerns what the provider runs. */
  predicate Redeploys(base: Record, r: Record) {
    r.Managed() && !SameWorkload(base, r)
  }

  lemma NeedsApplyExactly(base: Record, b: UpdateBody, now: Time)
    ensures NeedsApply(base, Merge(base, b, now)) <==> Redeploys(base, Merge(base, b, now))
    ensures Merge(base, b, now).Managed() ==> base.Managed()
  {
    WorkloadTracked(base, Merge(base, b, now));
    hide TrackedOf, SameWorkload;
  }

  /** The world a request leaves, but for the audit trail. */
  function Effect(p: RbacPolicy, request: Request, fs: Faults, w: World): World {
    if !Passes(p, request, fs.get, w) then w
    else
      match request
      case Create(_, b, now) =>
        var r := Fresh(b, now);
        if fs.put.Fails? then w
        else if !r.Managed() then w.Put(r)
        else if fs.apply.Works? then w.Put(r).Deploy(r)
        else if fs.rollback.Works? then w
        else w.Put(r)
      case Update(_, name, _, c, _) =>
        var r := Revised(request, w);
        if fs.put.Fails? then w
        else if Redeploys(w.Table(c.Kind())[name], r) && fs.apply.Works? then w.Put(r).Deploy(r)
        else w.Put(r)
      case Delete(_, k, name, _) =>
        if !w.Table(k)[name].Managed() then if fs.remove.Works? then w.Remove(k, name) else w
        else if fs.teardown.Fails? then w
        else if fs.remove.Works? then w.TearDown(name).Remove(k, name)
        else w.TearDown(name)
  }

  predicate SameStores(a: World, b: World) {
    a.adapters == b.adapters && a.tools == b.tools && a.deployed == b.deployed
  }

  lemma CreateEffect(p: RbacPolicy, request: Request, fs: Faults, w: World)
    requires request.Create?
    ensures SameStores(Complete(p, Start(request), fs, w).world, Effect(p, request, fs, w))
  {
    hide StartCreate, StartUpdate, StartDelete, PutChange, ApplyChange, TearDownFirst, Forget;
    hide Passes, Complete, CreatedResponse, Fresh;
    PassesExactly(p, request, fs.get, w);
    var o := Step(p, Start(request), fs.get, w);
    CompleteUnfolds(p, Start(request), fs, w);
    if o.task.Done? {
      FinishedIsDone(p, o.task, fs, o.world);
    } else {
      FreeName(p, request, fs.get, w);
      var o' := Step(p, o.task, fs.put, o.world);
      CompleteUnfolds(p, o.task, fs, o.world);
      if o'.task.Done? {
        FinishedIsDone(p, o'.task, fs, o'.world);
      } else {
        CreateApplied(p, o'.task, fs, o'.world);
        PutRemove(w, Fresh(request.body, request.now));
      }
    }
  }

  lemma FreeName(p: RbacPolicy, request: Request, get: Fault, w: World)
    requires Passes(p, request, get, w) && request.Create?
    ensures request.body.name !in w.Table(request.body.Kind())
  {
  }

  lemma NamedRecord(p: RbacPolicy, request: Request, get: Fault, w: World)
    requires Passes(p, request, get, w) && !request.Create?
    ensures request.name in w.Table(request.TargetKind())
  {
  }

  lemma PutRemove(w: World, r: Record)
    requires r.name !in w.Table(r.Kind())
    ensures w.Put(r).Remove(r.Kind(), r.name) == w
  {
  }

  lemma CreateApplied(p: RbacPolicy, t: Task, fs: Faults, w: World)
    requires t.CreateApply?
    ensures SameStores(Complete(p, t, fs, w).world,
      if fs.apply.Works? then w.Deploy(t.record)
      else if fs.rollback.Works? then w.Remove(t.record.Kind(), t.record.name)
      else w)
  {
    hide StartCreate, StartUpdate, StartDelete, PutNew, PutChange, ApplyChange, TearDownFirst, Forget;
    hide Complete, CreatedResponse;
    var o := Step(p, t, fs.apply, w);
    CompleteUnfolds(p, t, fs, w);
    if o.task.Done? {
      FinishedIsDone(p, o.task, fs, o.world);
    } else {
      var o' := Step(p, o.task, fs.rollback, o.world);
      CompleteUnfolds(p, o.task, fs, o.world);
      FinishedIsDone(p, o'.task, fs, o'.world);
    }
  }

  lemma UpdateEffect(p: RbacPolicy, request: Request, fs: Faults, w: World)
    requires request.Update?
    ensures var c := Complete(p, Start(request), fs, w);
      && SameStores(c.world, Effect(p, request, fs, w))
      && (c.response == Failed(ProviderFailed) <==>
            && Passes(p, request, fs.get, w) && fs.put.Works? && fs.apply.Fails?
            && Redeploys(w.Table(request.changes.Kind())[request.name], Revised(request, w)))
  {
    hide StartCreate, StartUpdate, StartDelete, PutNew, ApplyNew, RollBack, TearDownFirst, Forget;
    hide Passes, Complete, UpdatedResponse, Merge, NeedsApply, Redeploys;
    PassesExactly(p, request, fs.get, w);
    if request.name in w.Table(request.changes.Kind()) {
      NeedsApplyExactly(w.Table(request.changes.Kind())[request.name], request.changes, request.now);
    }
    var o := Step(p, Start(request), fs.get, w);
    CompleteUnfolds(p, Start(request), fs, w);
    if o.task.Done? {
      FinishedIsDone(p, o.task, fs, o.world);
    } else {
      var o' := Step(p, o.task, fs.put, o.world);
      CompleteUnfolds(p, o.task, fs, o.world);
      if o'.task.Done? {
        FinishedIsDone(p, o'.task, fs, o'.world);
      } else {
        var o'' := Step(p, o'.task, fs.apply, o'.world);
        CompleteUnfolds(p, o'.task, fs, o'.world);
        FinishedIsDone(p, o''.task, fs, o''.world);
      }
    }
  }

  /** The provider hears of an update exactly when it is stored and concerns what
      runs. */
  lemma UpdateEvents(p: RbacPolicy, request: Request, fs: Faults, w: World)
    requires request.Update?
    ensures (exists e :: e in Complete(p, Start(request), fs, w).events && (e.Applied? || e.ApplyFailed?))
       <==> (
         && Passes(p, request, fs.get, w) && fs.put.Works?
         && Redeploys(w.Table(request.changes.Kind())[request.name], Revised(request, w)))
    ensures request.name in w.Table(request.changes.Kind()) ==>
      w.Table(request.changes.Kind())[request.name].Kind() == Revised(request, w).Kind()
  {
    hide StartCreate, StartUpdate, StartDelete, PutNew, ApplyNew, RollBack, TearDownFirst, Forget;
    hide Passes, Complete, UpdatedResponse, Merge, NeedsApply, Redeploys;
    PassesExactly(p, request, fs.get, w);
    if request.name in w.Table(request.changes.Kind()) {
      NeedsApplyExactly(w.Table(request.changes.Kind())[request.name], request.changes, request.now);
    }
    var o := Step(p, Start(request), fs.get, w);
    CompleteUnfolds(p, Start(request), fs, w);
    if o.task.Done? {
      FinishedIsDone(p, o.task, fs, o.world);
    } else {
      var o' := Step(p, o.task, fs.put, o.world);
      CompleteUnfolds(p, o.task, fs, o.world);
      if o'.task.Done? {
        FinishedIsDone(p, o'.task, fs, o'.world);
      } else {
        var o'' := Step(p, o'.task, fs.apply, o'.world);
        CompleteUnfolds(p, o'.task, fs, o'.world);
        FinishedIsDone(p, o''.task, fs, o''.world);
        assert o''.events[0] in Complete(p, Start(request), fs, w).events;
      }
    }
  }

  lemma DeleteEffect(p: RbacPolicy, request: Request, fs: Faults, w: World)
    requires request.Delete?
    ensures SameStores(Complete(p, Start(request), fs, w).world, Effect(p, request, fs, w))
  {
    hide StartCreate, StartUpdate, StartDelete, PutNew, ApplyNew, RollBack, PutChange, ApplyChange;
    hide Passes, Complete;
    PassesExactly(p, request, fs.get, w);
    var o := Step(p, Start(request), fs.get, w);
    CompleteUnfolds(p, Start(request), fs, w);
    if o.task.Done? {
      FinishedIsDone(p, o.task, fs, o.world);
    } else {
      var o' := Step(p, o.task, FaultFor(o.task, fs), o.world);
      CompleteUnfolds(p, o.task, fs, o.world);
      if o'.task.Done? {
        FinishedIsDone(p, o'.task, fs, o'.world);
      } else {
        var o'' := Step(p, o'.task, fs.remove, o'.world);
        CompleteUnfolds(p, o'.task, fs, o'.world);
        FinishedIsDone(p, o''.task, fs, o''.world);
      }
    }
  }

  /** The machine, run call by call, does to the stores exactly what the guards
      and the failures say. */
  lemma EffectExactly(p: RbacPolicy, request: Request, fs: Faults, w: World)
    ensures SameStores(Complete(p, Start(request), fs, w).world, Effect(p, request, fs, w))
  {
    hide Complete, Effect, SameStores;
    if request.Create? {
      CreateEffect(p, request, fs, w);
    } else if request.Update? {
      UpdateEffect(p, request, fs, w);
    } else {
      DeleteEffect(p, request, fs, w);
    }
  }

  // ---- Answers ----

  /** What a completed request answers: the first thing that is wrong with it, in
      the order the handlers look, or its success. */
  ghost function Answer(p: RbacPolicy, request: Request, fs: Faults, w: World): Response {
    if !Permitted(p, request) then Failed(Forbidden("default-deny"))
    else
      match request
      case Create(_, b, now) => AnswerCreate(b, now, fs, w)
      case Update(_, name, ifMatch, c, _) => AnswerUpdate(request, fs, w)
      case Delete(_, k, name, ifMatch) => AnswerDelete(k, name, ifMatch, fs, w)
  }

  ghost function AnswerCreate(b: CreateBody, now: Time, fs: Faults, w: World): Response {
    if ValidateResourceName(b.name).Err? then Failed(InvalidName(ValidateResourceName(b.name).error))
    else if FirstBadEnv(b.env).Some? then Failed(InvalidEnv(FirstBadEnv(b.env).value))
    else if fs.get.Fails? then Failed(StoreFailed)
    else if b.name in w.Table(b.Kind()) then Failed(AlreadyExists)
    else if fs.put.Fails? then Failed(StoreFailed)
    else if Fresh(b, now).Managed() && fs.apply.Fails? then Failed(ProviderFailed)
    else
      var collection := match b.Kind() case Adapter => "/adapters/" case Tool => "/tools/";
      Created(collection + b.name, EtagFor(1), Fresh(b, now))
  }

  ghost function AnswerUpdate(request: Request, fs: Faults, w: World): Response
    requires request.Update?
  {
    var c, k, n := request.changes, request.changes.Kind(), request.name;
    var header := ParseIfMatch(request.ifMatch);
    if c.env.Some? && FirstBadEnv(c.env.value).Some? then Failed(InvalidEnv(FirstBadEnv(c.env.value).value))
    else if header.Err? then Failed(InvalidIfMatch(header.error))
    else if fs.get.Fails? then Failed(StoreFailed)
    else if n !in w.Table(k) then Failed(NotFound)
    else if !RevisionAgrees(header.value.Or(c.revision), w.Table(k)[n]) then Failed(RevisionMismatch)
    else if fs.put.Fails? then Failed(StoreFailed)
    else if Redeploys(w.Table(k)[n], Revised(request, w)) && fs.apply.Fails? then Failed(ProviderFailed)
    else Updated(EtagFor(NextRevision(w.Table(k)[n].revision)), Revised(request, w))
  }

  ghost function AnswerDelete(k: Kind, n: string, ifMatch: Option<string>, fs: Faults, w: World): Response {
    var header := ParseIfMatch(ifMatch);
    if fs.get.Fails? then Failed(StoreFailed)
    else if n !in w.Table(k) then Failed(NotFound)
    else if header.Err? then Failed(InvalidIfMatch(header.error))
    else if !RevisionAgrees(header.value, w.Table(k)[n]) then Failed(RevisionMismatch)
    else if w.Table(k)[n].Managed() && fs.teardown.Fails? then Failed(ProviderFailed)
    else if fs.remove.Fails? then Failed(StoreFailed)
    else Deleted
  }

  lemma CreateAnswered(p: RbacPolicy, request: Request, fs: Faults, w: World)
    requires request.Create?
    ensures Complete(p, Start(request), fs, w).response == Answer(p, request, fs, w)
  {
    hide StartUpdate, StartDelete, PutChange, ApplyChange, TearDownFirst, Forget;
    hide Complete, Authorize, ValidateResourceName, FirstBadEnv, LocationFor, Fresh, EtagFor, Permits;
    var t := Start(request);
    AuthorizeAsks(p, request.user, request.TargetKind(), CreateVerb, request.body.name, request.body.tags);
    if ValidateResourceName(request.body.name).Ok? {
      LocationIs(request.body.Kind(), request.body.name);
    }
    var o := Step(p, t, fs.get, w);
    CompleteUnfolds(p, t, fs, w);
    if o.task.Done? {
      FinishedIsDone(p, o.task, fs, o.world);
    } else {
      PutAnswered(p, o.task, fs, o.world);
    }
  }

  /** A Location header is refused for control characters only. */
  lemma LocationRefused(k: Kind, name: string)
    ensures LocationFor(k, name).Err?
       <==> exists i :: 0 <= i < |name| && (0 <= name[i] as int < 9 || 9 < name[i] as int < 32 || name[i] as int == 127)
    ensures LocationFor(k, name).Err? ==> LocationFor(k, name).error == InvalidLocation
  {
    var prefix := if k == Adapter then "/adapters/" else "/tools/";
    var path := prefix + name;
    assert Text.All(IsHeaderChar, prefix);
    assert forall i :: 0 <= i < |name| ==> path[|prefix| + i] == name[i];
    assert forall i :: 0 <= i < |path| ==> path[i] == if i < |prefix| then prefix[i] else name[i - |prefix|];
  }

  lemma LocationIs(k: Kind, name: string)
    requires ValidateResourceName(name).Ok?
    ensures LocationFor(k, name) == Ok((match k case Adapter => "/adapters/" case Tool => "/tools/") + name)
  {
    hide ValidateResourceName;
    ValidNamesLocate(k, name);
  }

  lemma PutAnswered(p: RbacPolicy, t: Task, fs: Faults, w: World)
    requires t.CreatePut?
    ensures var r := Fresh(t.body, t.now);
      Complete(p, t, fs, w).response ==
        if fs.put.Fails? then Failed(StoreFailed)
        else if r.Managed() && fs.apply.Fails? then Failed(ProviderFailed)
        else CreatedResponse(r)
  {
    hide StartCreate, StartUpdate, StartDelete, PutChange, ApplyChange, TearDownFirst, Forget;
    hide Complete, Fresh, CreatedResponse;
    var o := Step(p, t, fs.put, w);
    CompleteUnfolds(p, t, fs, w);
    if o.task.Done? {
      FinishedIsDone(p, o.task, fs, o.world);
    } else {
      var o' := Step(p, o.task, fs.apply, o.world);
      CompleteUnfolds(p, o.task, fs, o.world);
      if o'.task.Done? {
        FinishedIsDone(p, o'.task, fs, o'.world);
      } else {
        var o'' := Step(p, o'.task, fs.rollback, o'.world);
        CompleteUnfolds(p, o'.task, fs, o'.world);
        FinishedIsDone(p, o''.task, fs, o''.world);
      }
    }
  }

  lemma UpdateAnswered(p: RbacPolicy, request: Request, fs: Faults, w: World)
    requires request.Update?
    ensures Complete(p, Start(request), fs, w).response == Answer(p, request, fs, w)
  {
    hide StartCreate, StartDelete, PutNew, ApplyNew, RollBack, TearDownFirst, Forget;
    hide Complete, Authorize, FirstBadEnv, ParseIfMatch, Permits, EtagFor, NextRevision, Redeploys, NeedsApply;
    var t := Start(request);
    AuthorizeAsks(p, request.user, request.TargetKind(), UpdateVerb, request.name, []);
    if request.name in w.Table(request.changes.Kind()) {
      NeedsApplyExactly(w.Table(request.changes.Kind())[request.name], request.changes, request.now);
    }
    var o := Step(p, t, fs.get, w);
    CompleteUnfolds(p, t, fs, w);
    if o.task.Done? {
      FinishedIsDone(p, o.task, fs, o.world);
    } else {
      ChangeAnswered(p, o.task, fs, o.world);
    }
  }

  lemma ChangeAnswered(p: RbacPolicy, t: Task, fs: Faults, w: World)
    requires t.UpdatePut?
    ensures var r := Merge(t.base, t.changes, t.now);
      Complete(p, t, fs, w).response ==
        if fs.put.Fails? then Failed(StoreFailed)
        else if NeedsApply(t.base, r) && fs.apply.Fails? then Failed(ProviderFailed)
        else Updated(EtagFor(NextRevision(t.base.revision)), r)
  {
    hide StartCreate, StartUpdate, StartDelete, PutNew, ApplyNew, RollBack, TearDownFirst, Forget;
    hide Complete, NextRevision, EtagFor, NeedsApply;
    assert Merge(t.base, t.changes, t.now).revision == Some(NextRevision(t.base.revision));
    hide Merge;
    var o := Step(p, t, fs.put, w);
    CompleteUnfolds(p, t, fs, w);
    if o.task.Done? {
      FinishedIsDone(p, o.task, fs, o.world);
    } else {
      var o' := Step(p, o.task, fs.apply, o.world);
      CompleteUnfolds(p, o.task, fs, o.world);
      FinishedIsDone(p, o'.task, fs, o'.world);
    }
  }

  lemma DeleteAnswered(p: RbacPolicy, request: Request, fs: Faults, w: World)
    requires request.Delete?
    ensures Complete(p, Start(request), fs, w).response == Answer(p, request, fs, w)
  {
    hide StartCreate, StartUpdate, PutNew, ApplyNew, RollBack, PutChange, ApplyChange;
    hide Complete, Authorize, ParseIfMatch, Permits;
    var t := Start(request);
    AuthorizeAsks(p, request.user, request.kind, DeleteVerb, request.name, []);
    var o := Step(p, t, fs.get, w);
    CompleteUnfolds(p, t, fs, w);
    if o.task.Done? {
      FinishedIsDone(p, o.task, fs, o.world);
    } else {
      RemovalAnswered(p, o.task, fs, o.world);
    }
  }

  lemma RemovalAnswered(p: RbacPolicy, t: Task, fs: Faults, w: World)
    requires t.DeleteTeardown? || t.DeleteRecord?
    ensures Complete(p, t, fs, w).response ==
      if t.DeleteTeardown? && fs.teardown.Fails? then Failed(ProviderFailed)
      else if fs.remove.Fails? then Failed(StoreFailed)
      else Deleted
  {
    hide StartCreate, StartUpdate, StartDelete, PutNew, ApplyNew, RollBack, PutChange, ApplyChange, Complete;
    var o := Step(p, t, FaultFor(t, fs), w);
    CompleteUnfolds(p, t, fs, w);
    if o.task.Done? {
      FinishedIsDone(p, o.task, fs, o.world);
    } else {
      var o' := Step(p, o.task, fs.remove, o.world);
      CompleteUnfolds(p, o.task, fs, o.world);
      FinishedIsDone(p, o'.task, fs, o'.world);
    }
  }

  /** The answer to every request, exactly. */
  lemma AnswerExactly(p: RbacPolicy, request: Request, fs: Faults, w: World)
    ensures Complete(p, Start(request), fs, w).response == Answer(p, request, fs, w)
  {
    hide Complete, Answer;
    if request.Create? {
      CreateAnswered(p, request, fs, w);
    } else if request.Update? {
      UpdateAnswered(p, request, fs, w);
    } else {
      DeleteAnswered(p, request, fs, w);
    }
  }

  /** What a create stores, field by field, wherever its record is left. */
  lemma CreateStores(p: RbacPolicy, request: Request, fs: Faults, w: World)
    requires request.Create? && Passes(p, request, fs.get, w)
    ensures var b, table := request.body, Complete(p, Start(request), fs, w).world.Table(request.TargetKind());
      && (b.name in table <==>
            fs.put.Works? && (Fresh(b, request.now).Managed() && fs.apply.Fails? ==> fs.rollback.Fails?))
      && (b.name in table ==> SaysBody(table[b.name], b, request.now))
  {
    hide Complete, SaysBody;
    CreateEffect(p, request, fs, w);
    FreeName(p, request, fs.get, w);
    FreshSaysBody(request.body, request.now);
    hide Passes, Fresh;
  }

  /** What an update stores, field by field, whether or not its apply works. */
  lemma UpdateStores(p: RbacPolicy, request: Request, fs: Faults, w: World)
    requires request.Update? && Passes(p, request, fs.get, w) && fs.put.Works? && SoloRuns.Filed(w)
    ensures var k, n := request.TargetKind(), request.name;
      var table := Complete(p, Start(request), fs, w).world.Table(k);
      && n in w.Table(k) && n in table
      && SaysChanges(table[n], w.Table(k)[n], request.changes, request.now)
  {
    hide Complete, SaysChanges;
    UpdateEffect(p, request, fs, w);
    NamedRecord(p, request, fs.get, w);
    var base := w.Table(request.TargetKind())[request.name];
    assert base.name == request.name && base.Kind() == request.TargetKind();
    MergeSaysChanges(base, request.changes, request.now);
    hide Passes, Merge, Redeploys;
  }
}
