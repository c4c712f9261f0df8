/** Concrete runs that mark the limits of the control plane's guarantees: why
    the exact conditions and the one-handler assumption elsewhere are needed. */
module Witnesses {
  import opened Claims
  import opened Interleaving
  import opened Lexicographic
  import opened Machine
  import opened Policy
  import opened Records
  import opened SoloRuns
  import opened ToolRouter
  import opened Validation
  import opened Walks
  import opened Wrappers

  const OPEN: RbacPolicy := RbacPolicy(Allow, [], "open")
  const USER: UserContext := UserContext("u", None, [], [], [], Null)

  function NewAdapter(image: string): CreateBody {
    CreateBody("a", None, image, 80, "/mcp", [], [], [], [], None, AdapterBody(None, 1, None, None, map[]))
  }

  function NewTool(name: string): CreateBody {
    CreateBody(name, None, "t", 80, "/mcp", [], [], [], [], None,
               ToolBody(ToolDefinition(name, None, None, Null, None)))
  }

  function Change(upstream: Option<string>, description: Option<string>, tags: Option<seq<string>>,
                  revision: Option<U64>)
    : UpdateBody
  {
    UpdateBody(description, None, None, None, None, None, None, tags, None,
               AdapterUpdate(upstream, None, None, None, None), revision)
  }

  /** Under the open policy a free one-letter name passes every check of a
      create. */
  lemma CreateStarts(b: CreateBody, w: World)
    requires b.name in {"a", "b"} && b.env == [] && b.name !in w.Table(b.Kind())
    ensures var o := Step(OPEN, Start(Create(USER, b, 0)), Works, w);
      && o.task == CreatePut(Op(b.Kind(), CreateVerb, b.name, Some("yaml-rbac:open")), b, 0)
      && o.world == w
  {
    hide PutNew, ApplyNew, RollBack, PutChange, ApplyChange, TearDownFirst, Forget;
    assert ValidateResourceName("a").Ok? && ValidateResourceName("b").Ok?;
    ValidNamesLocate(b.Kind(), b.name);
    assert "yaml-rbac:" + "open" == "yaml-rbac:open";
  }

  lemma UpdateStarts(c: UpdateBody, w: World)
    requires c.env.None? && "a" in w.Table(c.Kind())
    requires c.revision.Some? ==> c.revision == w.Table(c.Kind())["a"].revision
    ensures var o := Step(OPEN, Start(Update(USER, "a", None, c, 0)), Works, w);
      var op := Op(c.Kind(), UpdateVerb, "a", Some("yaml-rbac:open"));
      && o.task == UpdatePut(op, w.Table(c.Kind())["a"], c.revision, c, 0)
      && o.world == w
  {
    hide PutNew, ApplyNew, RollBack, PutChange, ApplyChange, TearDownFirst, Forget;
    assert "yaml-rbac:" + "open" == "yaml-rbac:open";
  }

  lemma DeleteStarts(k: Kind, w: World)
    requires "a" in w.Table(k)
    ensures var o := Step(OPEN, Start(Delete(USER, k, "a", None)), Works, w);
      var op := Op(k, DeleteVerb, "a", Some("yaml-rbac:open"));
      && o.task == (if w.Table(k)["a"].Managed() then DeleteTeardown(op) else DeleteRecord(op))
      && o.world == w
  {
    hide PutNew, ApplyNew, RollBack, PutChange, ApplyChange, TearDownFirst, Forget;
    assert "yaml-rbac:" + "open" == "yaml-rbac:open";
  }

  const ALL_WORK: Faults := Faults(Works, Works, Works, Works, Works, Works)

  /** A create that meets no failure stores its record and deploys it. */
  lemma CreateCompletes(b: CreateBody, w: World)
    requires b.name == "a" && b.env == [] && "a" !in w.Table(b.Kind()) && Fresh(b, 0).Managed()
    ensures var c := Complete(OPEN, Start(Create(USER, b, 0)), ALL_WORK, w);
      var r := Fresh(b, 0);
      && c.world.adapters == w.Put(r).adapters && c.world.tools == w.Put(r).tools
      && c.world.deployed == w.deployed["a" := r]
      && c.response == CreatedResponse(r)
  {
    hide StartCreate, StartUpdate, StartDelete, RollBack, PutChange, ApplyChange, TearDownFirst, Forget;
    hide Complete, Fresh, CreatedResponse;
    var t := Start(Create(USER, b, 0));
    CreateStarts(b, w);
    CompleteUnfolds(OPEN, t, ALL_WORK, w);
    var o := Step(OPEN, t, Works, w);
    CompleteUnfolds(OPEN, o.task, ALL_WORK, o.world);
    var o' := Step(OPEN, o.task, Works, o.world);
    CompleteUnfolds(OPEN, o'.task, ALL_WORK, o'.world);
    var o'' := Step(OPEN, o'.task, Works, o'.world);
    FinishedIsDone(OPEN, o''.task, ALL_WORK, o''.world);
  }

  const APPLY_FAILS: Faults := ALL_WORK.(apply := Fails)

  lemma UpdateCompletes(c: UpdateBody, w: World, fs: Faults)
    requires c.env.None? && "a" in w.Table(c.Kind()) && fs in {ALL_WORK, APPLY_FAILS}
    requires w.Table(c.Kind())["a"].name == "a" && w.Table(c.Kind())["a"].Kind() == c.Kind()
    requires c.revision.Some? ==> c.revision == w.Table(c.Kind())["a"].revision
    ensures var r := Merge(w.Table(c.Kind())["a"], c, 0);
      var done := Complete(OPEN, Start(Update(USER, "a", None, c, 0)), fs, w);
      var applies := NeedsApply(w.Table(c.Kind())["a"], r);
      && done.world.adapters == w.Put(r).adapters && done.world.tools == w.Put(r).tools
      && done.world.deployed == (if applies && fs.apply.Works? then w.deployed["a" := r] else w.deployed)
      && done.response == if applies && fs.apply.Fails? then Failed(ProviderFailed) else UpdatedResponse(r)
  {
    hide StartCreate, StartUpdate, StartDelete, PutNew, ApplyNew, RollBack, TearDownFirst, Forget;
    hide Complete, Merge, UpdatedResponse, NeedsApply;
    var t := Start(Update(USER, "a", None, c, 0));
    UpdateStarts(c, w);
    CompleteUnfolds(OPEN, t, fs, w);
    var o := Step(OPEN, t, Works, w);
    CompleteUnfolds(OPEN, o.task, fs, o.world);
    var o' := Step(OPEN, o.task, Works, o.world);
    if o'.task.Done? {
      FinishedIsDone(OPEN, o'.task, fs, o'.world);
    } else {
      CompleteUnfolds(OPEN, o'.task, fs, o'.world);
      var o'' := Step(OPEN, o'.task, fs.apply, o'.world);
      FinishedIsDone(OPEN, o''.task, fs, o''.world);
    }
  }

  lemma DeleteCompletes(k: Kind, w: World)
    requires "a" in w.Table(k)
    ensures var c := Complete(OPEN, Start(Delete(USER, k, "a", None)), ALL_WORK, w);
      && c.world.adapters == w.Remove(k, "a").adapters && c.world.tools == w.Remove(k, "a").tools
      && c.world.deployed == (if w.Table(k)["a"].Managed() then w.deployed - {"a"} else w.deployed)
      && c.response == Deleted
  {
    hide StartCreate, StartUpdate, StartDelete, PutNew, ApplyNew, RollBack, PutChange, ApplyChange, Complete;
    var t := Start(Delete(USER, k, "a", None));
    DeleteStarts(k, w);
    CompleteUnfolds(OPEN, t, ALL_WORK, w);
    var o := Step(OPEN, t, Works, w);
    CompleteUnfolds(OPEN, o.task, ALL_WORK, o.world);
    var o' := Step(OPEN, o.task, Works, o.world);
    if o'.task.Done? {
      FinishedIsDone(OPEN, o'.task, ALL_WORK, o'.world);
    } else {
      CompleteUnfolds(OPEN, o'.task, ALL_WORK, o'.world);
      var o'' := Step(OPEN, o'.task, Works, o'.world);
      FinishedIsDone(OPEN, o''.task, ALL_WORK, o''.world);
    }
  }

  /** Create an adapter, give it an upstream, delete it: every call works, every
      request succeeds, and the workload stays deployed without a record. */
  lemma ExternalizedAdapterIsOrphaned()
    ensures
      var w1 := Complete(OPEN, Start(Create(USER, NewAdapter("x"), 0)), ALL_WORK, EMPTY_WORLD).world;
      var update := Update(USER, "a", None, Change(Some("http://up"), None, None, None), 0);
      var w2 := Complete(OPEN, Start(update), ALL_WORK, w1).world;
      var c3 := Complete(OPEN, Start(Delete(USER, Adapter, "a", None)), ALL_WORK, w2);
      c3.response == Deleted && "a" in c3.world.deployed && "a" !in c3.world.adapters && "a" !in c3.world.tools
  {
    hide Complete, CreatedResponse, UpdatedResponse;
    CreateCompletes(NewAdapter("x"), EMPTY_WORLD);
    var w1 := Complete(OPEN, Start(Create(USER, NewAdapter("x"), 0)), ALL_WORK, EMPTY_WORLD).world;
    var c := Change(Some("http://up"), None, None, None);
    UpdateCompletes(c, w1, ALL_WORK);
    var w2 := Complete(OPEN, Start(Update(USER, "a", None, c, 0)), ALL_WORK, w1).world;
    DeleteCompletes(Adapter, w2);
  }

  /** An adapter and a tool of one name share the provider's handle: deleting
      the tool tears down what the adapter's record still describes. */
  lemma SharedNameTearsDownTheOther()
    ensures
      var w1 := Complete(OPEN, Start(Create(USER, NewAdapter("x"), 0)), ALL_WORK, EMPTY_WORLD).world;
      var w2 := Complete(OPEN, Start(Create(USER, NewTool("a"), 0)), ALL_WORK, w1).world;
      var c3 := Complete(OPEN, Start(Delete(USER, Tool, "a", None)), ALL_WORK, w2);
      && c3.response == Deleted
      && "a" in w2.deployed && w2.deployed["a"].Kind() == Tool
      && "a" in c3.world.adapters && c3.world.adapters["a"].Managed() && "a" !in c3.world.deployed
  {
    hide Complete, CreatedResponse, UpdatedResponse;
    CreateCompletes(NewAdapter("x"), EMPTY_WORLD);
    var w1 := Complete(OPEN, Start(Create(USER, NewAdapter("x"), 0)), ALL_WORK, EMPTY_WORLD).world;
    CreateCompletes(NewTool("a"), w1);
    var w2 := Complete(OPEN, Start(Create(USER, NewTool("a"), 0)), ALL_WORK, w1).world;
    DeleteCompletes(Tool, w2);
  }

  /** Create an adapter, update its image with the apply failing, and send the
      same update again with every call working: it succeeds, the record says the
      new image, and the old one goes on running. */
  lemma FailedApplyIsNeverRepaired()
    ensures
      var update := Update(USER, "a", None, Change(None, None, None, None).(image := Some("y")), 0);
      var w1 := Complete(OPEN, Start(Create(USER, NewAdapter("x"), 0)), ALL_WORK, EMPTY_WORLD).world;
      var c2 := Complete(OPEN, Start(update), APPLY_FAILS, w1);
      var c3 := Complete(OPEN, Start(update), ALL_WORK, c2.world);
      && c2.response == Failed(ProviderFailed) && c3.response.Updated?
      && "a" in c3.world.adapters && c3.world.adapters["a"].image == "y"
      && "a" in c3.world.deployed && c3.world.deployed["a"].image == "x"
  {
    hide Complete, CreatedResponse, UpdatedResponse;
    var change := Change(None, None, None, None).(image := Some("y"));
    CreateCompletes(NewAdapter("x"), EMPTY_WORLD);
    var w1 := Complete(OPEN, Start(Create(USER, NewAdapter("x"), 0)), ALL_WORK, EMPTY_WORLD).world;
    UpdateCompletes(change, w1, APPLY_FAILS);
    var w2 := Complete(OPEN, Start(Update(USER, "a", None, change, 0)), APPLY_FAILS, w1).world;
    UpdateCompletes(change, w2, ALL_WORK);
  }

  /** Revisions start over with each life: the expectation a client formed
      about a deleted record is met by its successor's different content. */
  lemma RevisionsStartOver() returns (read: Record)
    ensures
      var w1 := Complete(OPEN, Start(Create(USER, NewAdapter("x"), 0)), ALL_WORK, EMPTY_WORLD).world;
      var w2 := Complete(OPEN, Start(Delete(USER, Adapter, "a", None)), ALL_WORK, w1).world;
      var w3 := Complete(OPEN, Start(Create(USER, NewAdapter("y"), 0)), ALL_WORK, w2).world;
      var change := Change(None, Some("d"), None, read.revision);
      var c4 := Complete(OPEN, Start(Update(USER, "a", None, change, 0)), ALL_WORK, w3);
      && Holds(w1, read) && read.name == "a" && read.image == "x"
      && c4.response.Updated? && c4.response.record.image == "y"
  {
    hide Complete, CreatedResponse, UpdatedResponse;
    CreateCompletes(NewAdapter("x"), EMPTY_WORLD);
    var w1 := Complete(OPEN, Start(Create(USER, NewAdapter("x"), 0)), ALL_WORK, EMPTY_WORLD).world;
    read := w1.adapters["a"];
    DeleteCompletes(Adapter, w1);
    var w2 := Complete(OPEN, Start(Delete(USER, Adapter, "a", None)), ALL_WORK, w1).world;
    CreateCompletes(NewAdapter("y"), w2);
    var w3 := Complete(OPEN, Start(Create(USER, NewAdapter("y"), 0)), ALL_WORK, w2).world;
    UpdateCompletes(Change(None, Some("d"), None, Some(1)), w3, ALL_WORK);
  }

  lemma {:induction false} InterleaveConcat(p: RbacPolicy, c: Crowd, first: seq<Move>, second: seq<Move>)
    ensures Interleave(p, c, first + second) == Interleave(p, Interleave(p, c, first), second)
  {
    hide Turn;
    if second == [] {
      assert first + second == first;
    } else {
      var n := |second| - 1;
      InterleaveConcat(p, c, first, second[..n]);
      assert (first + second)[..|first + second| - 1] == first + second[..n];
    }
  }

  lemma TwoMoves(p: RbacPolicy, c: Crowd, a: Move, b: Move)
    ensures Interleave(p, c, [a, b]) == Turn(p, Turn(p, c, a), b)
  {
    hide Turn;
    assert [a, b][..1] == [a];
    assert Interleave(p, c, [a]) == Turn(p, c, a);
  }

  lemma FourMoves(p: RbacPolicy, c: Crowd, a: Move, b: Move, d: Move, e: Move)
    ensures Interleave(p, c, [a, b, d, e]) == Turn(p, Turn(p, Turn(p, Turn(p, c, a), b), d), e)
  {
    hide Turn, Interleave;
    InterleaveConcat(p, c, [a, b], [d, e]);
    TwoMoves(p, c, a, b);
    TwoMoves(p, Turn(p, Turn(p, c, a), b), d, e);
    assert [a, b] + [d, e] == [a, b, d, e];
  }

  /** Two updates that both expect the stored revision and interleave between
      their reads and their writes both succeed, and the second erases the
      first. */
  lemma InterleavedUpdateIsLost(w: World)
    requires w == EMPTY_WORLD.Put(Fresh(NewAdapter("x"), 0)).Deploy(Fresh(NewAdapter("x"), 0))
    ensures
      var first := Update(USER, "a", None, Change(None, Some("d"), None, Some(1)), 0);
      var second := Update(USER, "a", None, Change(None, None, Some(["t"]), Some(1)), 0);
      var moves := [Launch(0, first), Launch(1, second), Proceed(0, Works), Proceed(1, Works)]
                 + [Proceed(0, Works), Proceed(1, Works)];
      var c := Interleave(OPEN, Crowd(w, map[]), moves);
      && 0 in c.tasks && c.tasks[0].Done? && c.tasks[0].response.Updated?
      && 1 in c.tasks && c.tasks[1].Done? && c.tasks[1].response.Updated?
      && c.tasks[0].response.record.description == Some("d")
      && "a" in c.world.adapters && c.world.adapters["a"].description == None
  {
    hide StartCreate, StartUpdate, StartDelete, CreatedResponse, UpdatedResponse, Interleave;
    var b0, b1 := Change(None, Some("d"), None, Some(1)), Change(None, None, Some(["t"]), Some(1));
    var first, second := Launch(0, Update(USER, "a", None, b0, 0)), Launch(1, Update(USER, "a", None, b1, 0));
    UpdateStarts(b0, w);
    UpdateStarts(b1, w);
    var c0 := Crowd(w, map[]);
    var c4 := Turn(OPEN, Turn(OPEN, Turn(OPEN, Turn(OPEN, c0, first), second), Proceed(0, Works)), Proceed(1, Works));
    InterleaveConcat(OPEN, c0, [first, second, Proceed(0, Works), Proceed(1, Works)],
                     [Proceed(0, Works), Proceed(1, Works)]);
    FourMoves(OPEN, c0, first, second, Proceed(0, Works), Proceed(1, Works));
    TwoMoves(OPEN, c4, Proceed(0, Works), Proceed(1, Works));
  }

  /** A delete that runs between a create's write and its apply leaves the
      create's workload without a record, although both report success. */
  lemma InterleavedDeleteOrphans()
    ensures
      var create := Create(USER, NewAdapter("x"), 0);
      var delete := Delete(USER, Adapter, "a", None);
      var moves := [Launch(0, create), Proceed(0, Works), Proceed(0, Works), Launch(1, delete)]
                 + [Proceed(1, Works), Proceed(1, Works), Proceed(1, Works), Proceed(0, Works)];
      var c := Interleave(OPEN, Crowd(EMPTY_WORLD, map[]), moves);
      && 0 in c.tasks && c.tasks[0].Done? && c.tasks[0].response.Created?
      && 1 in c.tasks && c.tasks[1] == Done(Deleted)
      && "a" in c.world.deployed && "a" !in c.world.adapters
  {
    hide StartCreate, StartUpdate, StartDelete, CreatedResponse, UpdatedResponse, Interleave;
    var create, delete := Launch(0, Create(USER, NewAdapter("x"), 0)), Launch(1, Delete(USER, Adapter, "a", None));
    var c0 := Crowd(EMPTY_WORLD, map[]);
    CreateStarts(NewAdapter("x"), EMPTY_WORLD);
    var c3 := Turn(OPEN, Turn(OPEN, Turn(OPEN, c0, create), Proceed(0, Works)), Proceed(0, Works));
    DeleteStarts(Adapter, c3.world);
    var c4 := Turn(OPEN, c3, delete);
    InterleaveConcat(OPEN, c0, [create, Proceed(0, Works), Proceed(0, Works), delete],
                     [Proceed(1, Works), Proceed(1, Works), Proceed(1, Works), Proceed(0, Works)]);
    FourMoves(OPEN, c0, create, Proceed(0, Works), Proceed(0, Works), delete);
    FourMoves(OPEN, c4, Proceed(1, Works), Proceed(1, Works), Proceed(1, Works), Proceed(0, Works));
  }

  lemma OpenTool(t: Record)
    requires t.requiredRoles == []
    ensures CanCallTool(OPEN, USER, t)
  {
  }

  lemma VisibleOneMore(rs: seq<Record>, t: Record)
    requires t.requiredRoles == []
    ensures Visible(OPEN, USER, rs + [t]) == Visible(OPEN, USER, rs) + [t]
  {
    hide CanCallTool;
    OpenTool(t);
    assert (rs + [t])[..|rs|] == rs;
  }

  lemma AllVisible(a: Record, b: Record)
    requires a.requiredRoles == [] && b.requiredRoles == []
    ensures Visible(OPEN, USER, [a, b]) == [a, b] && Visible(OPEN, USER, [b]) == [b]
  {
    hide CanCallTool;
    VisibleOneMore([], a);
    VisibleOneMore([a], b);
    VisibleOneMore([], b);
    assert [] + [a] == [a] && [a] + [b] == [a, b] && [] + [b] == [b];
  }

  /** Two requests of one tool each, from [a, b] and then from [b], return `a`
      and nothing. */
  lemma SecondIsMissed(a: Record, b: Record)
    requires a.requiredRoles == [] && b.requiredRoles == [] && Less(a.name, b.name)
    ensures PageWalk(OPEN, USER, [[a, b], [b]], [1, 1], [0, 1], [[a], []])
    ensures b in Visible(OPEN, USER, [a, b]) && b in Visible(OPEN, USER, [b])
    ensures a != b
  {
    hide Visible, PageOf;
    AllVisible(a, b);
    LessIrreflexive(b.name);
    ServerCursorsSlice([a, b], 0, 1);
    ServerCursorsSlice([b], 1, 1);
    assert [0, 1][1..] == [1] && [0, 1][2..] == [];
  }

  /** The four moves that create a tool with every call working. */
  function Creating(id: nat, name: string): seq<Move> {
    [Launch(id, Create(USER, NewTool(name), 0)), Proceed(id, Works), Proceed(id, Works), Proceed(id, Works)]
  }

  lemma Created(c: Crowd, id: nat, name: string)
    requires id !in c.tasks && name in {"a", "b"} && name !in c.world.tools
    ensures var c' := Interleave(OPEN, c, Creating(id, name));
      && c'.world.tools == c.world.tools[name := Fresh(NewTool(name), 0)]
      && c'.tasks.Keys == c.tasks.Keys + {id}
  {
    hide StartCreate, StartUpdate, StartDelete, CreatedResponse, UpdatedResponse, Interleave;
    var moves := Creating(id, name);
    FourMoves(OPEN, c, moves[0], moves[1], moves[2], moves[3]);
    CreateStarts(NewTool(name), c.world);
  }

  /** The first four moves of a create whose apply fails, and the rollback. */
  function Failing(id: nat, name: string): seq<Move> {
    [Launch(id, Create(USER, NewTool(name), 0)), Proceed(id, Works), Proceed(id, Works), Proceed(id, Fails)]
  }

  lemma CreateFails(c: Crowd, id: nat, name: string)
    requires id !in c.tasks && name in {"a", "b"} && name !in c.world.tools
    ensures var c' := Interleave(OPEN, c, Failing(id, name));
      var c'' := Turn(OPEN, c', Proceed(id, Works));
      && c'.world.tools == c.world.tools[name := Fresh(NewTool(name), 0)]
      && c''.world.tools == c.world.tools
      && id in c''.tasks && c''.tasks[id] == Done(Failed(ProviderFailed))
  {
    hide StartCreate, StartUpdate, StartDelete, CreatedResponse, UpdatedResponse, Interleave;
    var moves := Failing(id, name);
    FourMoves(OPEN, c, moves[0], moves[1], moves[2], moves[3]);
    CreateStarts(NewTool(name), c.world);
    assert c.world.tools[name := Fresh(NewTool(name), 0)] - {name} == c.world.tools;
  }

  /** The four moves that delete the tool "a" with every call working. */
  function Deleting(id: nat): seq<Move> {
    [Launch(id, Delete(USER, Tool, "a", None)), Proceed(id, Works), Proceed(id, Works), Proceed(id, Works)]
  }

  lemma DeletedTool(c: Crowd, id: nat)
    requires id !in c.tasks && "a" in c.world.tools && c.world.tools["a"].Managed()
    ensures Interleave(OPEN, c, Deleting(id)).world.tools == c.world.tools - {"a"}
  {
    hide StartCreate, StartUpdate, StartDelete, CreatedResponse, UpdatedResponse, Interleave;
    var moves := Deleting(id);
    FourMoves(OPEN, c, moves[0], moves[1], moves[2], moves[3]);
    DeleteStarts(Tool, c.world);
  }

  lemma ListsBoth(a: Record, b: Record, tools: map<string, Record>)
    requires Less(a.name, b.name) && tools == map[a.name := a, b.name := b]
    ensures Lists([a, b], tools)
  {
    LessIrreflexive(a.name);
  }

  lemma ListsOne(b: Record, tools: map<string, Record>)
    requires tools == map[b.name := b]
    ensures Lists([b], tools)
  {
  }

  lemma ServedTwice(moves: seq<Move>, first: nat, second: nat, all: seq<Record>, rest: seq<Record>)
    requires first <= second <= |moves|
    requires Lists(all, At(OPEN, moves, first).world.tools) && Lists(rest, At(OPEN, moves, second).world.tools)
    ensures Served(OPEN, moves, [first, second], [all, rest])
  {
    hide At, Lists;
  }

  lemma OneMove(p: RbacPolicy, c: Crowd, moves: seq<Move>, m: Move)
    ensures Interleave(p, c, moves + [m]) == Turn(p, Interleave(p, c, moves), m)
  {
    hide Turn;
    assert (moves + [m])[..|moves|] == moves;
  }

  /** Only creates ran, and still the walk misses a tool that was there all the
      time: `a` is listed between its write and the rollback of its failed
      deployment, which moves `b` to the left of the cursor. */
  lemma RollbackLosesATool()
    ensures
      var a, b := Fresh(NewTool("a"), 0), Fresh(NewTool("b"), 0);
      var moves := Creating(1, "b") + Failing(0, "a") + [Proceed(0, Works)];
      && PageWalk(OPEN, USER, [[a, b], [b]], [1, 1], [0, 1], [[a], []])
      && Served(OPEN, moves, [8, 9], [[a, b], [b]])
      && b in Visible(OPEN, USER, [a, b]) && b in Visible(OPEN, USER, [b])
      && 0 in At(OPEN, moves, 9).tasks && At(OPEN, moves, 9).tasks[0] == Done(Failed(ProviderFailed))
  {
    hide Turn, Interleave, PageWalk, Visible, Fresh, Lists, Served;
    var a, b := Fresh(NewTool("a"), 0), Fresh(NewTool("b"), 0);
    var c0 := Crowd(EMPTY_WORLD, map[]);
    var first, second, third := Creating(1, "b"), Failing(0, "a"), [Proceed(0, Works)];
    var moves := first + second + third;
    assert moves[..8] == first + second && moves[..9] == moves;
    Created(c0, 1, "b");
    CreateFails(Interleave(OPEN, c0, first), 0, "a");
    InterleaveConcat(OPEN, c0, first, second);
    OneMove(OPEN, c0, first + second, Proceed(0, Works));
    FreshTools();
    SecondIsMissed(a, b);
    ListsBoth(a, b, At(OPEN, moves, 8).world.tools);
    ListsOne(b, At(OPEN, moves, 9).world.tools);
    ServedTwice(moves, 8, 9, [a, b], [b]);
  }

  lemma FreshTools()
    ensures forall n :: Fresh(NewTool(n), 0).requiredRoles == [] && Fresh(NewTool(n), 0).Managed()
    ensures Less("a", "b")
  {
  }

  /** So does a walk between whose two requests `a` is deleted. */
  lemma RemovalLosesATool()
    ensures
      var a, b := Fresh(NewTool("a"), 0), Fresh(NewTool("b"), 0);
      var moves := Creating(0, "a") + Creating(1, "b") + Deleting(2);
      && PageWalk(OPEN, USER, [[a, b], [b]], [1, 1], [0, 1], [[a], []])
      && Served(OPEN, moves, [8, 12], [[a, b], [b]])
      && b in Visible(OPEN, USER, [a, b]) && b in Visible(OPEN, USER, [b])
  {
    hide Turn, Interleave, PageWalk, Visible, Fresh, Lists, Served;
    var a, b := Fresh(NewTool("a"), 0), Fresh(NewTool("b"), 0);
    var c0 := Crowd(EMPTY_WORLD, map[]);
    var first, second, third := Creating(0, "a"), Creating(1, "b"), Deleting(2);
    var moves := first + second + third;
    assert moves[..8] == first + second && moves[..12] == moves;
    Created(c0, 0, "a");
    Created(Interleave(OPEN, c0, first), 1, "b");
    InterleaveConcat(OPEN, c0, first, second);
    InterleaveConcat(OPEN, c0, first + second, third);
    FreshTools();
    DeletedTool(Interleave(OPEN, c0, first + second), 2);
    SecondIsMissed(a, b);
    ListsBoth(a, b, At(OPEN, moves, 8).world.tools);
    ListsOne(b, At(OPEN, moves, 12).world.tools);
    ServedTwice(moves, 8, 12, [a, b], [b]);
  }
}
