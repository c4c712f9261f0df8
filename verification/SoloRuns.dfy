/** Runs of the control plane with one handler in flight at a time: requests
    begin, their calls work or fail, and the process may crash between any two
    calls. Every prefix of a run is a run, so what is shown for the end of
    every run holds at every intermediate step. */
module SoloRuns {
  import opened Machine
  import opened Policy
  import opened Records
  import Text
  import opened Wrappers

  datatype Sys = Sys(world: World, task: Option<Task>, log: seq<Event>)

  datatype Action = Begin(request: Request) | Advance(fault: Fault) | Crash

  const EMPTY_WORLD: World := World(map[], map[], map[], [])
  const INITIAL: Sys := Sys(EMPTY_WORLD, None, [])

  /** A crash between storing a record and applying it leaves the workload
      behind; at any other point it leaves nothing to note. */
  function LeftBehind(t: Task): seq<Event> {
    if t.CreateApply? || t.UpdateApply? then [Abandoned(t.record.name)] else []
  }

  function Next(p: RbacPolicy, s: Sys, a: Action): Sys {
    match (a, s.task)
    case (Begin(request), None) => s.(task := Some(Start(request)))
    case (Begin(_), Some(_)) => s
    case (_, None) => s
    case (Advance(f), Some(t)) =>
      var o := Step(p, t, f, s.world);
      Sys(o.world, if o.task.Done? then None else Some(o.task), s.log + o.events)
    case (Crash, Some(t)) => Sys(s.world, None, s.log + LeftBehind(t))
  }

  function Run(p: RbacPolicy, s: Sys, actions: seq<Action>): Sys {
    if actions == [] then s
    else Next(p, Run(p, s, actions[..|actions| - 1]), actions[|actions| - 1])
  }

  lemma RunSnoc(p: RbacPolicy, s: Sys, actions: seq<Action>, a: Action)
    ensures Run(p, s, actions + [a]) == Next(p, Run(p, s, actions), a)
  {
    hide Next;
    assert (actions + [a])[..|actions|] == actions;
  }

  lemma {:induction false} RunConcat(p: RbacPolicy, s: Sys, first: seq<Action>, second: seq<Action>)
    ensures Run(p, s, first + second) == Run(p, Run(p, s, first), second)
  {
    hide Next;
    if second == [] {
      assert first + second == first;
    } else {
      var n := |second| - 1;
      RunConcat(p, s, first, second[..n]);
      assert (first + second)[..|first + second| - 1] == first + second[..n];
    }
  }

  /** Records sit under their own name in the table of their kind. */
  ghost predicate Filed(w: World) {
    && (forall n :: n in w.adapters ==> w.adapters[n].name == n && w.adapters[n].Kind() == Adapter)
    && (forall n :: n in w.tools ==> w.tools[n].name == n && w.tools[n].Kind() == Tool)
  }

  predicate Holds(w: World, r: Record) {
    r.name in w.Table(r.Kind()) && w.Table(r.Kind())[r.name] == r
  }

  /** What the handler in flight has read is still what is stored. */
  predicate TaskCoherent(t: Task, w: World) {
    match t
    case Start(_) => true
    case CreatePut(op, b, _) => op.kind == b.Kind() && op.name == b.name && b.name !in w.Table(b.Kind())
    case CreateApply(op, r) => op.kind == r.Kind() && op.name == r.name && r.Managed() && Holds(w, r)
    case CreateRollback(op, r) => op.kind == r.Kind() && op.name == r.name && Holds(w, r)
    case UpdatePut(op, base, expected, b, _) =>
      && op.kind == base.Kind() && op.name == base.name && Holds(w, base)
      && (expected.Some? ==> expected == base.revision)
    case UpdateApply(op, r) => op.kind == r.Kind() && op.name == r.name && r.Managed() && Holds(w, r)
    case DeleteTeardown(op) => op.name in w.Table(op.kind) && w.Table(op.kind)[op.name].Managed()
    case DeleteRecord(op) => op.name in w.Table(op.kind)
    case Done(_) => false
  }

  ghost predicate Coherent(s: Sys) {
    Filed(s.world) && (s.task.Some? ==> TaskCoherent(s.task.value, s.world))
  }

  lemma PutHolds(w: World, r: Record)
    requires Filed(w)
    ensures Filed(w.Put(r)) && Holds(w.Put(r), r)
  {
  }

  lemma RemoveFiled(w: World, k: Kind, name: string)
    requires Filed(w)
    ensures Filed(w.Remove(k, name))
  {
  }

  ghost predicate CoherentOutcome(o: Outcome) {
    Filed(o.world) && (o.task.Done? || TaskCoherent(o.task, o.world))
  }

  lemma CoherentStart(p: RbacPolicy, request: Request, f: Fault, w: World)
    requires Filed(w)
    ensures CoherentOutcome(Step(p, Start(request), f, w))
  {
    hide StartCreate, StartUpdate, StartDelete, PutNew, ApplyNew, RollBack, PutChange, ApplyChange;
    hide TearDownFirst, Forget;
  }

  lemma CoherentCreate(p: RbacPolicy, t: Task, f: Fault, w: World)
    requires t.CreatePut? || t.CreateApply? || t.CreateRollback?
    requires Filed(w) && TaskCoherent(t, w)
    ensures CoherentOutcome(Step(p, t, f, w))
  {
    hide StartCreate, StartUpdate, StartDelete, PutChange, ApplyChange, TearDownFirst, Forget, Fresh;
    hide CreatedResponse;
    match t
    case CreatePut(op, b, now) => PutHolds(w, Fresh(b, now));
    case CreateRollback(op, r) => RemoveFiled(w, r.Kind(), r.name);
    case _ =>
  }

  lemma CoherentUpdate(p: RbacPolicy, t: Task, f: Fault, w: World)
    requires t.UpdatePut? || t.UpdateApply?
    requires Filed(w) && TaskCoherent(t, w)
    ensures CoherentOutcome(Step(p, t, f, w))
  {
    hide StartCreate, StartUpdate, StartDelete, PutNew, ApplyNew, RollBack, TearDownFirst, Forget, Merge;
    hide UpdatedResponse;
    match t
    case UpdatePut(op, base, expected, b, now) => PutHolds(w, Merge(base, b, now));
    case _ =>
  }

  lemma CoherentDelete(p: RbacPolicy, t: Task, f: Fault, w: World)
    requires t.DeleteTeardown? || t.DeleteRecord?
    requires Filed(w) && TaskCoherent(t, w)
    ensures CoherentOutcome(Step(p, t, f, w))
  {
    hide StartCreate, StartUpdate, StartDelete, PutNew, ApplyNew, RollBack, PutChange, ApplyChange;
    RemoveFiled(w, t.op.kind, t.op.name);
  }

  lemma CoherentStep(p: RbacPolicy, t: Task, f: Fault, w: World)
    requires Filed(w) && TaskCoherent(t, w)
    ensures CoherentOutcome(Step(p, t, f, w))
  {
    hide Step, CoherentOutcome;
    match t
    case Start(request) => CoherentStart(p, request, f, w);
    case CreatePut(_, _, _) => CoherentCreate(p, t, f, w);
    case CreateApply(_, _) => CoherentCreate(p, t, f, w);
    case CreateRollback(_, _) => CoherentCreate(p, t, f, w);
    case UpdatePut(_, _, _, _, _) => CoherentUpdate(p, t, f, w);
    case UpdateApply(_, _) => CoherentUpdate(p, t, f, w);
    case DeleteTeardown(_) => CoherentDelete(p, t, f, w);
    case DeleteRecord(_) => CoherentDelete(p, t, f, w);
  }

  lemma CoherentNext(p: RbacPolicy, s: Sys, a: Action)
    requires Coherent(s)
    ensures Coherent(Next(p, s, a))
  {
    hide Step;
    if a.Advance? && s.task.Some? {
      CoherentStep(p, s.task.value, a.fault, s.world);
    }
  }

  lemma {:induction false} CoherentRun(p: RbacPolicy, s: Sys, actions: seq<Action>)
    requires Coherent(s)
    ensures Coherent(Run(p, s, actions))
  {
    hide Next;
    if actions != [] {
      CoherentRun(p, s, actions[..|actions| - 1]);
      CoherentNext(p, Run(p, s, actions[..|actions| - 1]), actions[|actions| - 1]);
    }
  }

  lemma {:induction false} CompletionFiled(p: RbacPolicy, t: Task, fs: Faults, w: World)
    requires Filed(w) && (t.Done? || TaskCoherent(t, w))
    ensures Filed(Complete(p, t, fs, w).world)
    decreases Rank(t)
  {
    hide Step, Filed, TaskCoherent;
    if !t.Done? {
      var o := Step(p, t, FaultFor(t, fs), w);
      StepDescends(p, t, FaultFor(t, fs), w);
      CoherentStep(p, t, FaultFor(t, fs), w);
      CompletionFiled(p, o.task, fs, o.world);
    }
  }

  /** A handler run to completion is a solo run: its world is where the run
      ends, and the worlds it passed are the run's intermediate worlds. */
  lemma {:induction false} CompletionIsRun(p: RbacPolicy, t: Task, fs: Faults, w: World, log: seq<Event>)
    returns (actions: seq<Action>)
    requires !t.Done?
    ensures var c := Complete(p, t, fs, w);
      && (forall a :: a in actions ==> a.Advance?)
      && |actions| == |c.worlds|
      && Run(p, Sys(w, Some(t), log), actions) == Sys(c.world, None, log + c.events)
      && forall i :: 0 <= i < |actions| ==> Run(p, Sys(w, Some(t), log), actions[..i + 1]).world == c.worlds[i]
    decreases Rank(t)
  {
    hide Step;
    var f := FaultFor(t, fs);
    var o := Step(p, t, f, w);
    StepDescends(p, t, f, w);
    var s := Sys(w, Some(t), log);
    var s' := Next(p, s, Advance(f));
    assert Run(p, s, [Advance(f)]) == s' by { RunSnoc(p, s, [], Advance(f)); }
    if o.task.Done? {
      actions := [Advance(f)];
      assert actions[..1] == actions;
      assert log + o.events + [] == log + o.events;
    } else {
      var rest := CompletionIsRun(p, o.task, fs, o.world, log + o.events);
      actions := [Advance(f)] + rest;
      RunConcat(p, s, [Advance(f)], rest);
      forall i | 0 <= i < |actions|
        ensures Run(p, s, actions[..i + 1]).world == Complete(p, t, fs, w).worlds[i]
      {
        assert actions[..i + 1] == [Advance(f)] + rest[..i];
        RunConcat(p, s, [Advance(f)], rest[..i]);
      }
      Text.Associative(log, o.events, Complete(p, o.task, fs, o.world).events);
    }
  }
}
