/** No workload runs without a record: when that holds, and exactly when it
    does not. Names may be shared between adapters and tools: a workload is
    accounted for by a record of either kind. */
module Orphans {
  import opened Effects
  import opened Interleaving
  import opened Machine
  import opened Ownership
  import opened Policy
  import opened Records
  import opened SoloRuns
  import opened Wrappers

  ghost predicate NoOrphans(w: World) {
    forall n :: n in w.deployed ==> n in w.adapters || n in w.tools
  }

  /** Whether a name would still be recorded without its record of kind `k`. */
  predicate Covered(w: World, k: Kind, n: string) {
    n in w.deployed ==> n in w.Table(Other(k))
  }

  /** The removal that leaves a workload behind: the last record of a name is
      forgotten while something still runs under it. */
  predicate AbandonsWorkload(s: Sys, a: Action) {
    && a == Advance(Works) && s.task.Some? && s.task.value.DeleteRecord?
    && !Covered(s.world, s.task.value.op.kind, s.task.value.op.name)
  }

  /** A record not yet applied is not what accounts for a running workload. */
  predicate CoveredTask(t: Task, w: World) {
    t.CreateApply? || t.CreateRollback? ==> Covered(w, t.op.kind, t.op.name)
  }

  ghost predicate Orderly(s: Sys) {
    Coherent(s) && NoOrphans(s.world) && (s.task.Some? ==> CoveredTask(s.task.value, s.world))
  }

  lemma OrderlyStart(p: RbacPolicy, request: Request, f: Fault, w: World)
    requires NoOrphans(w)
    ensures var o := Step(p, Start(request), f, w); NoOrphans(o.world) && CoveredTask(o.task, o.world)
  {
    hide StartCreate, StartUpdate, StartDelete, PutNew, ApplyNew, RollBack;
    hide PutChange, ApplyChange, TearDownFirst, Forget;
  }

  lemma PutKeeps(w: World, r: Record, op: Op, e: Option<HandlerError>)
    requires NoOrphans(w)
    ensures NoOrphans(w.Put(r)) && NoOrphans(w.Put(r).Log(op, e))
    ensures r.name !in w.Table(r.Kind()) ==> Covered(w.Put(r), r.Kind(), r.name)
  {
  }

  lemma DeployKeeps(w: World, r: Record, op: Op, e: Option<HandlerError>)
    requires NoOrphans(w) && Holds(w, r)
    ensures NoOrphans(w.Deploy(r).Log(op, e))
  {
  }

  lemma TearDownKeeps(w: World, name: string)
    requires NoOrphans(w)
    ensures NoOrphans(w.TearDown(name))
  {
  }

  lemma RemoveKeepsExactly(w: World, k: Kind, name: string, op: Op, e: Option<HandlerError>)
    requires NoOrphans(w)
    ensures NoOrphans(w.Remove(k, name).Log(op, e)) <==> Covered(w, k, name)
  {
    var w' := w.Remove(k, name).Log(op, e);
    assert forall n :: n != name && (n in w.adapters || n in w.tools) ==> n in w'.adapters || n in w'.tools;
    assert name !in w'.Table(k) && w'.Table(Other(k)) == w.Table(Other(k));
  }

  lemma LogKeeps(w: World, op: Op, e: Option<HandlerError>)
    requires NoOrphans(w)
    ensures NoOrphans(w.Log(op, e))
  {
  }

  lemma OrderlyStep(p: RbacPolicy, t: Task, f: Fault, w: World)
    requires !t.Start? && TaskCoherent(t, w) && NoOrphans(w) && CoveredTask(t, w)
    ensures var o := Step(p, t, f, w);
      && (NoOrphans(o.world) <==> !(t.DeleteRecord? && f.Works? && !Covered(w, t.op.kind, t.op.name)))
      && CoveredTask(o.task, o.world)
  {
    hide StartCreate, StartUpdate, StartDelete, CreatedResponse, UpdatedResponse, NoOrphans, Fresh, Merge;
    hide Covered;
    match t
    case CreatePut(op, b, now) => PutKeeps(w, Fresh(b, now), op, None);
    case CreateApply(op, r) => DeployKeeps(w, r, op, None);
    case CreateRollback(op, r) =>
      RemoveKeepsExactly(w, r.Kind(), r.name, op, Some(ProviderFailed));
      LogKeeps(w, op, Some(ProviderFailed));
    case UpdatePut(op, base, expected, b, now) => PutKeeps(w, Merge(base, b, now), op, None);
    case UpdateApply(op, r) =>
      DeployKeeps(w, r, op, None);
      LogKeeps(w, op, Some(ProviderFailed));
    case DeleteTeardown(op) =>
      TearDownKeeps(w, op.name);
      LogKeeps(w, op, Some(ProviderFailed));
    case DeleteRecord(op) => RemoveKeepsExactly(w, op.kind, op.name, op, None);
    case Done(_) =>
  }

  /** One step keeps the deployments accounted for exactly when it is not such
      a removal. */
  lemma OrderlyNext(p: RbacPolicy, s: Sys, a: Action)
    requires Orderly(s)
    ensures NoOrphans(Next(p, s, a).world) <==> !AbandonsWorkload(s, a)
    ensures !AbandonsWorkload(s, a) ==> Orderly(Next(p, s, a))
  {
    hide Step, Covered, NoOrphans;
    CoherentNext(p, s, a);
    if a.Advance? && s.task.Some? {
      var t := s.task.value;
      if t.Start? {
        OrderlyStart(p, t.request, a.fault, s.world);
      } else {
        OrderlyStep(p, t, a.fault, s.world);
      }
    }
  }

  lemma {:induction false} OrderlyRun(p: RbacPolicy, s: Sys, actions: seq<Action>)
    requires Orderly(s)
    requires forall i :: 0 <= i < |actions| ==> !AbandonsWorkload(Run(p, s, actions[..i]), actions[i])
    ensures Orderly(Run(p, s, actions))
  {
    hide Next, AbandonsWorkload;
    if actions != [] {
      var n := |actions| - 1;
      var before := actions[..n];
      assert forall i :: 0 <= i < n ==> before[..i] == actions[..i];
      OrderlyRun(p, s, before);
      OrderlyNext(p, Run(p, s, before), actions[n]);
    }
  }

  /** Crash-safe accounting over whole runs, exactly: every state a run passes
      through, whatever calls fail and wherever the process crashes, has a
      record for each workload if and only if no step of the run forgot the last
      record of a name whose workload was still there. */
  lemma NoOrphansExactly(p: RbacPolicy, s: Sys, actions: seq<Action>)
    requires Orderly(s)
    ensures (forall i :: 0 <= i <= |actions| ==> NoOrphans(Run(p, s, actions[..i]).world))
       <==> (forall i :: 0 <= i < |actions| ==> !AbandonsWorkload(Run(p, s, actions[..i]), actions[i]))
  {
    hide Run, Next, NoOrphans, AbandonsWorkload, Orderly;
    if forall i :: 0 <= i < |actions| ==> !AbandonsWorkload(Run(p, s, actions[..i]), actions[i]) {
      forall i | 0 <= i <= |actions|
        ensures NoOrphans(Run(p, s, actions[..i]).world)
      {
        OrderlyPrefix(p, s, actions, i);
      }
    } else {
      var k := FirstAbandon(p, s, actions);
      OrderlyPrefix(p, s, actions, k);
      OrderlyNext(p, Run(p, s, actions[..k]), actions[k]);
      assert actions[..k + 1] == actions[..k] + [actions[k]];
      RunSnoc(p, s, actions[..k], actions[k]);
    }
  }

  lemma OrderlyPrefix(p: RbacPolicy, s: Sys, actions: seq<Action>, k: nat)
    requires Orderly(s) && k <= |actions|
    requires forall i :: 0 <= i < k ==> !AbandonsWorkload(Run(p, s, actions[..i]), actions[i])
    ensures Orderly(Run(p, s, actions[..k])) && NoOrphans(Run(p, s, actions[..k]).world)
  {
    hide Run, Next, NoOrphans, AbandonsWorkload, Coherent;
    var prefix := actions[..k];
    assert forall j :: 0 <= j < k ==> prefix[..j] == actions[..j];
    OrderlyRun(p, s, prefix);
  }

  lemma {:induction false} FirstAbandon(p: RbacPolicy, s: Sys, actions: seq<Action>) returns (k: nat)
    requires exists i :: 0 <= i < |actions| && AbandonsWorkload(Run(p, s, actions[..i]), actions[i])
    ensures k < |actions| && AbandonsWorkload(Run(p, s, actions[..k]), actions[k])
    ensures forall i :: 0 <= i < k ==> !AbandonsWorkload(Run(p, s, actions[..i]), actions[i])
  {
    hide Run, Next, AbandonsWorkload;
    k :| 0 <= k < |actions| && AbandonsWorkload(Run(p, s, actions[..k]), actions[k]);
    if i :| 0 <= i < k && AbandonsWorkload(Run(p, s, actions[..i]), actions[i]) {
      var prefix := actions[..k];
      assert forall j :: 0 <= j < k ==> prefix[..j] == actions[..j];
      k := FirstAbandon(p, s, prefix);
      assert forall j :: 0 <= j <= k ==> prefix[..j] == actions[..j];
    }
  }

  /** In runs whose adapter and tool names are told apart, that means a record
      in the table of the name's own kind. */
  lemma NoOrphansByOwner(p: RbacPolicy, owner: Owner, actions: seq<Action>)
    requires AllOwned(owner, actions)
    ensures var w := Run(p, INITIAL, actions).world;
      NoOrphans(w) <==> forall n :: n in w.deployed ==> n in w.Table(owner(n))
  {
    hide Run;
    OwnedRun(p, owner, actions);
  }

  /** The same at the level of one delete request, in terms a caller can check
      beforehand: it leaves an orphan exactly when it gets past its checks and
      its removal works, on an externally routed adapter under whose name
      something is deployed that no record of the other kind accounts for. */
  lemma DeleteLeavesOrphanExactly(p: RbacPolicy, request: Request, fs: Faults, w: World)
    requires request.Delete? && NoOrphans(w)
    ensures
      var leaves := (
        && Passes(p, request, fs.get, w) && fs.remove.Works?
        && !w.Table(request.kind)[request.name].Managed()
        && request.name in w.deployed && request.name !in w.Table(Other(request.kind)));
      NoOrphans(Complete(p, Start(request), fs, w).world) <==> !leaves
  {
    hide Complete, NoOrphans;
    DeleteEffect(p, request, fs, w);
    var op := Op(request.kind, DeleteVerb, request.name, None);
    SameAccounting(Complete(p, Start(request), fs, w).world, Effect(p, request, fs, w));
    TearDownKeeps(w, request.name);
    RemoveKeepsExactly(w, request.kind, request.name, op, None);
    RemoveKeepsExactly(w.TearDown(request.name), request.kind, request.name, op, None);
    LogIrrelevant(w.Remove(request.kind, request.name), op);
    LogIrrelevant(w.TearDown(request.name).Remove(request.kind, request.name), op);
  }

  lemma SameAccounting(w: World, w': World)
    requires SameStores(w, w')
    ensures NoOrphans(w) <==> NoOrphans(w')
  {
  }

  lemma LogIrrelevant(w: World, op: Op)
    ensures NoOrphans(w) <==> NoOrphans(w.Log(op, None))
  {
  }

  /** An update that gives an upstream to an adapter the provider runs. */
  predicate Externalizes(s: Sys, a: Action) {
    && a == Advance(Works) && s.task.Some? && s.task.value.UpdatePut?
    && s.task.value.base.Managed()
    && !Merge(s.task.value.base, s.task.value.changes, s.task.value.now).Managed()
  }

  /** A record under whose name the provider is meant to run something. */
  predicate Backs(w: World, k: Kind, n: string) {
    n in w.Table(k) && w.Table(k)[n].Managed()
  }

  ghost predicate BackedWorld(w: World) {
    forall n :: n in w.deployed ==> Backs(w, Adapter, n) || Backs(w, Tool, n)
  }

  /** A record that is about to go is not what backs a running workload. */
  predicate BackedTask(t: Task, w: World) {
    (t.CreateApply? || t.CreateRollback? || t.DeleteRecord?) && t.op.name in w.deployed ==>
      Backs(w, Other(t.op.kind), t.op.name)
  }

  ghost predicate Backed(s: Sys) {
    Coherent(s) && BackedWorld(s.world) && (s.task.Some? ==> BackedTask(s.task.value, s.world))
  }

  lemma BackedHasNoOrphans(w: World)
    requires BackedWorld(w)
    ensures NoOrphans(w)
  {
  }

  lemma BackedStart(p: RbacPolicy, request: Request, f: Fault, w: World)
    requires BackedWorld(w)
    ensures var o := Step(p, Start(request), f, w); BackedWorld(o.world) && BackedTask(o.task, o.world)
  {
    hide StartCreate, StartUpdate, StartDelete, PutNew, ApplyNew, RollBack;
    hide PutChange, ApplyChange, TearDownFirst, Forget;
  }

  lemma PutBacked(w: World, r: Record, op: Op)
    requires BackedWorld(w)
    requires r.Managed() || (r.name in w.deployed ==> Backs(w, Other(r.Kind()), r.name))
    ensures BackedWorld(w.Put(r)) && BackedWorld(w.Put(r).Log(op, None))
    ensures forall k, n :: k != r.Kind() ==> (Backs(w.Put(r), k, n) <==> Backs(w, k, n))
  {
  }

  lemma DeployBacked(w: World, r: Record, op: Op)
    requires BackedWorld(w) && Holds(w, r) && r.Managed()
    ensures BackedWorld(w.Deploy(r).Log(op, None))
  {
  }

  lemma RemovalBacked(w: World, k: Kind, n: string, op: Op, e: Option<HandlerError>)
    requires BackedWorld(w)
    ensures BackedWorld(w.TearDown(n)) && BackedWorld(w.Log(op, e))
    ensures (n in w.deployed ==> Backs(w, Other(k), n)) ==> BackedWorld(w.Remove(k, n).Log(op, e))
  {
  }

  lemma BackedByOther(w: World, k: Kind, n: string)
    requires BackedWorld(w) && n in w.deployed && !Backs(w, k, n)
    ensures Backs(w, Other(k), n)
  {
  }

  lemma BackedStep(p: RbacPolicy, s: Sys, f: Fault)
    requires Backed(s) && s.task.Some? && !s.task.value.Start? && !Externalizes(s, Advance(f))
    ensures var o := Step(p, s.task.value, f, s.world); BackedWorld(o.world) && BackedTask(o.task, o.world)
  {
    hide StartCreate, StartUpdate, StartDelete, CreatedResponse, UpdatedResponse;
    hide BackedWorld, Filed, Fresh, Merge, Backs;
    var w, bad := s.world, Some(ProviderFailed);
    match s.task.value
    case CreatePut(op, b, now) =>
      var r := Fresh(b, now);
      if r.name in w.deployed {
        NoRecordNoBacking(w, r.Kind(), r.name);
        BackedByOther(w, r.Kind(), r.name);
      }
      PutBacked(w, r, op);
    case CreateApply(op, r) => DeployBacked(w, r, op);
    case CreateRollback(op, r) => RemovalBacked(w, r.Kind(), r.name, op, bad);
    case UpdatePut(op, base, expected, b, now) =>
      var r := Merge(base, b, now);
      if f.Works? {
        if !r.Managed() && r.name in w.deployed {
          UnmanagedNoBacking(w, base);
          BackedByOther(w, r.Kind(), r.name);
        }
        PutBacked(w, r, op);
      }
    case UpdateApply(op, r) =>
      DeployBacked(w, r, op);
      RemovalBacked(w, r.Kind(), r.name, op, bad);
    case DeleteTeardown(op) => RemovalBacked(w, op.kind, op.name, op, bad);
    case DeleteRecord(op) => RemovalBacked(w, op.kind, op.name, op, None);
    case Done(_) =>
  }

  lemma NoRecordNoBacking(w: World, k: Kind, n: string)
    ensures n !in w.Table(k) ==> !Backs(w, k, n)
  {
  }

  lemma UnmanagedNoBacking(w: World, r: Record)
    requires Holds(w, r) && !r.Managed()
    ensures !Backs(w, r.Kind(), r.name)
  {
  }

  lemma BackedNext(p: RbacPolicy, s: Sys, a: Action)
    requires Backed(s) && !Externalizes(s, a)
    ensures Backed(Next(p, s, a))
  {
    hide Step, Externalizes, BackedWorld, Backs;
    CoherentNext(p, s, a);
    if a.Advance? && s.task.Some? {
      if s.task.value.Start? {
        BackedStart(p, s.task.value.request, a.fault, s.world);
      } else {
        BackedStep(p, s, a.fault);
      }
    }
  }

  /** In runs without such updates every workload stays backed by a managed
      record, so no workload is ever abandoned, whatever names are shared. */
  lemma {:induction false} NoOrphansWithoutExternalizing(p: RbacPolicy, s: Sys, actions: seq<Action>)
    requires Backed(s)
    requires forall i :: 0 <= i < |actions| ==> !Externalizes(Run(p, s, actions[..i]), actions[i])
    ensures Backed(Run(p, s, actions)) && NoOrphans(Run(p, s, actions).world)
  {
    hide Next, Externalizes, NoOrphans;
    if actions != [] {
      var n := |actions| - 1;
      var before := actions[..n];
      assert forall i :: 0 <= i < n ==> before[..i] == actions[..i];
      NoOrphansWithoutExternalizing(p, s, before);
      BackedNext(p, Run(p, s, before), actions[n]);
    }
    BackedHasNoOrphans(Run(p, s, actions).world);
  }

  /** A fresh control plane starts orderly and backed. */
  lemma InitiallyOrderly()
    ensures Orderly(INITIAL) && Backed(INITIAL)
  {
  }

  /** Tools are always run by the provider, so runs over tools alone account
      for every workload, unconditionally. */
  lemma {:induction false} ToolRunsHaveNoOrphans(p: RbacPolicy, actions: seq<Action>)
    requires forall i :: 0 <= i < |actions| && actions[i].Begin? ==> actions[i].request.TargetKind() == Tool
    ensures Backed(Run(p, INITIAL, actions)) && NoOrphans(Run(p, INITIAL, actions).world)
  {
    hide Next, Externalizes, Backed, NoOrphans;
    InitiallyOrderly();
    if actions != [] {
      var n := |actions| - 1;
      ToolRunsHaveNoOrphans(p, actions[..n]);
      var s := Run(p, INITIAL, actions[..n]);
      var owner: Owner := name => Tool;
      OwnedRun(p, owner, actions[..n]);
      ToolsStayManaged(owner, s, actions[n]);
      BackedNext(p, s, actions[n]);
    }
    assert BackedWorld(Run(p, INITIAL, actions).world) by { BackedParts(Run(p, INITIAL, actions)); }
    BackedHasNoOrphans(Run(p, INITIAL, actions).world);
  }

  lemma BackedParts(s: Sys)
    requires Backed(s)
    ensures BackedWorld(s.world) && Coherent(s)
  {
  }

  lemma ToolsStayManaged(owner: Owner, s: Sys, a: Action)
    requires Backed(s) && SysOwned(owner, s) && forall n :: owner(n) == Tool
    ensures !Externalizes(s, a)
  {
    hide BackedWorld, Filed, TablesOwned;
  }

  // ---- Handlers interleaved ----

  /** A working move that leaves a workload without a record: an apply for a name
      that has meanwhile lost its record, or the removal of a name's last record
      while something runs under it. */
  predicate Strands(c: Crowd, m: Move) {
    && m.Proceed? && m.fault.Works? && m.id in c.tasks
    && match c.tasks[m.id]
       case CreateApply(_, r) => r.name !in c.world.adapters && r.name !in c.world.tools
       case UpdateApply(_, r) => r.name !in c.world.adapters && r.name !in c.world.tools
       case CreateRollback(_, r) => !Covered(c.world, r.Kind(), r.name)
       case DeleteRecord(op) => !Covered(c.world, op.kind, op.name)
       case _ => false
  }

  lemma DeployKeepsExactly(w: World, r: Record, op: Op, e: Option<HandlerError>)
    requires NoOrphans(w)
    ensures NoOrphans(w.Deploy(r).Log(op, e)) <==> r.name in w.adapters || r.name in w.tools
  {
    assert r.name in w.Deploy(r).Log(op, e).deployed;
  }

  lemma StrandsExactly(p: RbacPolicy, c: Crowd, m: Move)
    requires NoOrphans(c.world) && m.Proceed? && m.id in c.tasks && !c.tasks[m.id].Start?
    ensures NoOrphans(Step(p, c.tasks[m.id], m.fault, c.world).world) <==> !Strands(c, m)
  {
    hide StartCreate, StartUpdate, StartDelete, CreatedResponse, UpdatedResponse, NoOrphans, Fresh, Merge;
    hide Covered, NeedsApply;
    var w, bad := c.world, Some(ProviderFailed);
    match c.tasks[m.id]
    case CreatePut(op, b, now) => PutKeeps(w, Fresh(b, now), op, None);
    case CreateApply(op, r) => DeployKeepsExactly(w, r, op, None);
    case CreateRollback(op, r) =>
      RemoveKeepsExactly(w, r.Kind(), r.name, op, bad);
      LogKeeps(w, op, bad);
    case UpdatePut(op, base, expected, b, now) => PutKeeps(w, Merge(base, b, now), op, None);
    case UpdateApply(op, r) =>
      DeployKeepsExactly(w, r, op, None);
      LogKeeps(w, op, bad);
    case DeleteTeardown(op) =>
      TearDownKeeps(w, op.name);
      LogKeeps(w, op, bad);
    case DeleteRecord(op) => RemoveKeepsExactly(w, op.kind, op.name, op, None);
    case Done(_) =>
  }

  /** Whatever handlers are in flight, one move keeps the workloads accounted for
      exactly when it strands none. */
  lemma TurnStrandsExactly(p: RbacPolicy, c: Crowd, m: Move)
    requires NoOrphans(c.world)
    ensures NoOrphans(Turn(p, c, m).world) <==> !Strands(c, m)
  {
    hide Step, NoOrphans;
    if m.Proceed? && m.id in c.tasks {
      if c.tasks[m.id].Start? {
        OrderlyStart(p, c.tasks[m.id].request, m.fault, c.world);
      } else {
        StrandsExactly(p, c, m);
      }
    }
  }

  /** Over whole interleaved runs, exactly: every state on the way accounts for
      its workloads if and only if no move strands one. */
  lemma InterleavedOrphansExactly(p: RbacPolicy, c: Crowd, moves: seq<Move>)
    requires NoOrphans(c.world)
    ensures (forall i :: 0 <= i <= |moves| ==> NoOrphans(Interleave(p, c, moves[..i]).world))
       <==> (forall i :: 0 <= i < |moves| ==> !Strands(Interleave(p, c, moves[..i]), moves[i]))
  {
    hide Turn, NoOrphans, Strands, Interleave;
    if forall i :: 0 <= i <= |moves| ==> NoOrphans(Interleave(p, c, moves[..i]).world) {
      forall i | 0 <= i < |moves|
        ensures !Strands(Interleave(p, c, moves[..i]), moves[i])
      {
        InterleaveNext(p, c, moves, i);
        TurnStrandsExactly(p, Interleave(p, c, moves[..i]), moves[i]);
      }
    }
    if forall i :: 0 <= i < |moves| ==> !Strands(Interleave(p, c, moves[..i]), moves[i]) {
      forall i | 0 <= i <= |moves|
        ensures NoOrphans(Interleave(p, c, moves[..i]).world)
      {
        NothingStranded(p, c, moves, i);
      }
    }
  }

  lemma InterleaveNext(p: RbacPolicy, c: Crowd, moves: seq<Move>, i: nat)
    requires i < |moves|
    ensures Interleave(p, c, moves[..i + 1]) == Turn(p, Interleave(p, c, moves[..i]), moves[i])
    ensures Interleave(p, c, moves[..0]) == c
  {
    hide Turn;
    assert moves[..i + 1][..i] == moves[..i];
  }

  lemma {:induction false} NothingStranded(p: RbacPolicy, c: Crowd, moves: seq<Move>, i: nat)
    requires NoOrphans(c.world) && i <= |moves|
    requires forall j :: 0 <= j < |moves| ==> !Strands(Interleave(p, c, moves[..j]), moves[j])
    ensures NoOrphans(Interleave(p, c, moves[..i]).world)
  {
    hide Turn, NoOrphans, Strands;
    if i > 0 {
      NothingStranded(p, c, moves, i - 1);
      InterleaveNext(p, c, moves, i - 1);
      TurnStrandsExactly(p, Interleave(p, c, moves[..i - 1]), moves[i - 1]);
    }
  }
}
