/** "One audit record per operation": what the handlers promise, and exactly
    which requests end without one. */
module AuditTrail {
  import opened Effects
  import opened ETag
  import opened Machine
  import opened Policy
  import opened Records
  import opened Validation
  import opened Wrappers

  /** The requests that return early through `?`: a store call fails, an
      If-Match header does not parse, or an update names nothing. */
  predicate EndsUnaudited(p: RbacPolicy, request: Request, fs: Faults, w: World) {
    && Admitted(p, request)
    && match request
       case Create(_, b, _) =>
         && ValidateResourceName(b.name).Ok? && FirstBadEnv(b.env).None? && LocationFor(b.Kind(), b.name).Ok?
         && (fs.get.Fails? || (b.name !in w.Table(b.Kind()) && fs.put.Fails?))
       case Update(_, name, ifMatch, c, _) =>
         && (c.env.Some? ==> FirstBadEnv(c.env.value).None?)
         && (|| ParseIfMatch(ifMatch).Err? || fs.get.Fails? || name !in w.Table(c.Kind())
             || (RevisionAgrees(ParseIfMatch(ifMatch).value.Or(c.revision), w.Table(c.Kind())[name]) && fs.put.Fails?))
       case Delete(_, k, name, ifMatch) =>
         || fs.get.Fails?
         || (&& name in w.Table(k)
             && (|| ParseIfMatch(ifMatch).Err?
                 || (&& RevisionAgrees(ParseIfMatch(ifMatch).value, w.Table(k)[name])
                     && (w.Table(k)[name].Managed() ==> fs.teardown.Works?)
                     && fs.remove.Fails?)))
  }

  /** One entry, about this request, saying whether it succeeded and, once the
      policy has let it in, which policy that was. */
  ghost predicate AuditsOnce(p: RbacPolicy, before: seq<AuditEntry>, after: seq<AuditEntry>, request: Request,
                             response: Response)
  {
    && |after| == |before| + 1 && after[..|before|] == before
    && var e := after[|before|];
       && e.kind == request.TargetKind() && e.verb == request.Verb() && e.name == request.Target()
       && e.allowed == !response.Failed?
       && e.error == (if response.Failed? then Some(response.error) else None)
       && e.policyId == (if Permitted(p, request) then Some("yaml-rbac:" + p.source) else None)
  }

  ghost predicate Audited(p: RbacPolicy, request: Request, fs: Faults, w: World) {
    var c := Complete(p, Start(request), fs, w);
    if EndsUnaudited(p, request, fs, w) then c.world.audit == w.audit && c.response.Failed?
    else AuditsOnce(p, w.audit, c.world.audit, request, c.response)
  }

  /** What a handler past its checks adds to the trail: nothing when its last
      store call fails, otherwise one entry for its operation. */
  predicate Finishes(op: Op, before: World, c: Completion, silent: bool) {
    if silent then c.world.audit == before.audit && c.response.Failed?
    else
      c.world.audit == before.audit
        + [AuditEntry(op.kind, op.verb, op.name, !c.response.Failed?, op.policyId,
                      if c.response.Failed? then Some(c.response.error) else None)]
  }

  lemma CreateFinishes(p: RbacPolicy, t: Task, fs: Faults, w: World)
    requires t.CreatePut?
    ensures Finishes(t.op, w, Complete(p, t, fs, w), fs.put.Fails?)
  {
    hide StartCreate, StartUpdate, StartDelete, Complete, Fresh, Merge, NeedsApply, CreatedResponse;
    hide UpdatedResponse, PutChange, ApplyChange, TearDownFirst, Forget;
    var o' := Step(p, t, fs.put, w);
    CompleteUnfolds(p, t, fs, w);
    if o'.task.Done? {
      FinishedIsDone(p, o'.task, fs, o'.world);
    } else {
      var o'' := Step(p, o'.task, fs.apply, o'.world);
      CompleteUnfolds(p, o'.task, fs, o'.world);
      if o''.task.Done? {
        FinishedIsDone(p, o''.task, fs, o''.world);
      } else {
        var o3 := Step(p, o''.task, fs.rollback, o''.world);
        CompleteUnfolds(p, o''.task, fs, o''.world);
        FinishedIsDone(p, o3.task, fs, o3.world);
      }
    }
  }

  lemma UpdateFinishes(p: RbacPolicy, t: Task, fs: Faults, w: World)
    requires t.UpdatePut?
    ensures Finishes(t.op, w, Complete(p, t, fs, w), fs.put.Fails?)
  {
    hide StartCreate, StartUpdate, StartDelete, Complete, Fresh, Merge, NeedsApply, CreatedResponse;
    hide UpdatedResponse, PutNew, ApplyNew, RollBack, TearDownFirst, Forget;
    var o' := Step(p, t, fs.put, w);
    CompleteUnfolds(p, t, fs, w);
    if o'.task.Done? {
      FinishedIsDone(p, o'.task, fs, o'.world);
    } else {
      var o'' := Step(p, o'.task, fs.apply, o'.world);
      CompleteUnfolds(p, o'.task, fs, o'.world);
      FinishedIsDone(p, o''.task, fs, o''.world);
    }
  }

  lemma DeleteFinishes(p: RbacPolicy, t: Task, fs: Faults, w: World)
    requires t.DeleteTeardown? || t.DeleteRecord?
    ensures Finishes(t.op, w, Complete(p, t, fs, w), (t.DeleteTeardown? ==> fs.teardown.Works?) && fs.remove.Fails?)
  {
    hide StartCreate, StartUpdate, StartDelete, Complete, Fresh, Merge, NeedsApply, CreatedResponse;
    hide UpdatedResponse, PutNew, ApplyNew, RollBack, PutChange, ApplyChange;
    var o' := Step(p, t, FaultFor(t, fs), w);
    CompleteUnfolds(p, t, fs, w);
    if o'.task.Done? {
      FinishedIsDone(p, o'.task, fs, o'.world);
    } else {
      var o'' := Step(p, o'.task, fs.remove, o'.world);
      CompleteUnfolds(p, o'.task, fs, o'.world);
      FinishedIsDone(p, o''.task, fs, o''.world);
    }
  }

  lemma CreateAudited(p: RbacPolicy, request: Request, fs: Faults, w: World)
    requires request.Create?
    ensures Audited(p, request, fs, w)
  {
    hide StartUpdate, StartDelete, PutNew, ApplyNew, RollBack, PutChange, ApplyChange, TearDownFirst, Forget;
    hide Authorize, ValidateResourceName, FirstBadEnv, LocationFor, Complete;
    AuthorizeAsks(p, request.user, request.TargetKind(), CreateVerb, request.Target(), request.body.tags);
    hide Permits;
    var o := Step(p, Start(request), fs.get, w);
    CompleteUnfolds(p, Start(request), fs, w);
    if o.task.Done? {
      FinishedIsDone(p, o.task, fs, o.world);
    } else {
      CreateFinishes(p, o.task, fs, o.world);
    }
  }

  lemma UpdateAudited(p: RbacPolicy, request: Request, fs: Faults, w: World)
    requires request.Update?
    ensures Audited(p, request, fs, w)
  {
    hide StartCreate, StartDelete, PutNew, ApplyNew, RollBack, PutChange, ApplyChange, TearDownFirst, Forget;
    hide Authorize, FirstBadEnv, ParseIfMatch, Complete;
    AuthorizeAsks(p, request.user, request.TargetKind(), UpdateVerb, request.Target(), []);
    hide Permits;
    var o := Step(p, Start(request), fs.get, w);
    CompleteUnfolds(p, Start(request), fs, w);
    if o.task.Done? {
      FinishedIsDone(p, o.task, fs, o.world);
    } else {
      UpdateFinishes(p, o.task, fs, o.world);
    }
  }

  lemma DeleteAudited(p: RbacPolicy, request: Request, fs: Faults, w: World)
    requires request.Delete?
    ensures Audited(p, request, fs, w)
  {
    hide StartCreate, StartUpdate, PutNew, ApplyNew, RollBack, PutChange, ApplyChange, TearDownFirst, Forget;
    hide Authorize, ParseIfMatch, Complete;
    AuthorizeAsks(p, request.user, request.TargetKind(), DeleteVerb, request.Target(), []);
    hide Permits;
    var o := Step(p, Start(request), fs.get, w);
    CompleteUnfolds(p, Start(request), fs, w);
    if o.task.Done? {
      FinishedIsDone(p, o.task, fs, o.world);
    } else {
      DeleteFinishes(p, o.task, fs, o.world);
    }
  }

  /** Every completed operation is audited exactly once, with the decision that
      matches its response, if and only if it is not one of those early
      returns; those leave no record at all and are all failures. */
  lemma AuditedExactlyOnce(p: RbacPolicy, request: Request, fs: Faults, w: World)
    ensures
      var c := Complete(p, Start(request), fs, w);
      && (AuditsOnce(p, w.audit, c.world.audit, request, c.response) <==> !EndsUnaudited(p, request, fs, w))
      && (EndsUnaudited(p, request, fs, w) ==> c.world.audit == w.audit && c.response.Failed?)
  {
    hide Step, Complete, EndsUnaudited;
    if request.Create? {
      CreateAudited(p, request, fs, w);
    } else if request.Update? {
      UpdateAudited(p, request, fs, w);
    } else {
      DeleteAudited(p, request, fs, w);
    }
  }
}
