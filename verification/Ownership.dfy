/** Provider handles carry no kind. Runs whose adapter and tool names are told
    apart by an owner function keep their tables told apart too. */
module Ownership {
  import opened Machine
  import opened Policy
  import opened Records
  import opened SoloRuns

  type Owner = string -> Kind

  predicate Owned(owner: Owner, a: Action) {
    a.Begin? ==> owner(a.request.Target()) == a.request.TargetKind()
  }

  predicate AllOwned(owner: Owner, actions: seq<Action>) {
    forall i :: 0 <= i < |actions| ==> Owned(owner, actions[i])
  }

  predicate TaskOwned(owner: Owner, t: Task) {
    match t
    case Start(request) => owner(request.Target()) == request.TargetKind()
    case Done(_) => true
    case _ => owner(t.op.name) == t.op.kind
  }

  ghost predicate TablesOwned(owner: Owner, w: World) {
    && (forall n :: n in w.adapters ==> owner(n) == Adapter)
    && (forall n :: n in w.tools ==> owner(n) == Tool)
  }

  ghost predicate SysOwned(owner: Owner, s: Sys) {
    TablesOwned(owner, s.world) && (s.task.Some? ==> TaskOwned(owner, s.task.value))
  }

  lemma TablesStayOwned(p: RbacPolicy, owner: Owner, t: Task, f: Fault, w: World)
    requires TaskCoherent(t, w) && TaskOwned(owner, t) && TablesOwned(owner, w)
    ensures TablesOwned(owner, Step(p, t, f, w).world)
  {
    hide StartCreate, StartUpdate, StartDelete, CreatedResponse, UpdatedResponse, Fresh, Merge;
  }

  lemma OwnedStep(p: RbacPolicy, owner: Owner, t: Task, f: Fault, w: World)
    requires TaskCoherent(t, w) && TaskOwned(owner, t)
    ensures TaskOwned(owner, Step(p, t, f, w).task)
  {
    hide StartCreate, StartUpdate, StartDelete, CreatedResponse, UpdatedResponse, Fresh, Merge;
  }

  lemma OwnedNext(p: RbacPolicy, owner: Owner, s: Sys, a: Action)
    requires Coherent(s) && SysOwned(owner, s) && Owned(owner, a)
    ensures SysOwned(owner, Next(p, s, a))
  {
    hide Step, TablesOwned, Filed;
    if a.Advance? && s.task.Some? {
      TablesStayOwned(p, owner, s.task.value, a.fault, s.world);
      OwnedStep(p, owner, s.task.value, a.fault, s.world);
    }
  }

  lemma {:induction false} OwnedRun(p: RbacPolicy, owner: Owner, actions: seq<Action>)
    requires AllOwned(owner, actions)
    ensures SysOwned(owner, Run(p, INITIAL, actions))
  {
    hide Next, Owned, Coherent;
    if actions != [] {
      var n := |actions| - 1;
      OwnedRun(p, owner, actions[..n]);
      InitiallyCoherent();
      CoherentRun(p, INITIAL, actions[..n]);
      OwnedNext(p, owner, Run(p, INITIAL, actions[..n]), actions[n]);
    }
  }

  lemma InitiallyCoherent()
    ensures Coherent(INITIAL)
  {
  }
}
