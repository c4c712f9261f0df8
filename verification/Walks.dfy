/** Walking the pages of `tools/list` while the store changes between them:
    which tools a walk returns, which it skips, and what that means for runs of
    the control plane. */
module Walks {
  import opened Claims
  import opened Interleaving
  import opened Lexicographic
  import opened Machine
  import opened MetadataStores
  import opened Policy
  import opened Records
  import opened SoloRuns
  import opened Text
  import opened ToolRouter
  import opened Wrappers

  /** What is listed before a name. */
  function Before(rs: seq<Record>, name: string): set<Record> {
    set r | r in rs && Less(r.name, name)
  }

  function Position(rs: seq<Record>, name: string): nat {
    |Before(rs, name)|
  }

  lemma {:induction false} DistinctCount(rs: seq<Record>)
    requires ByName(rs)
    ensures |set r | r in rs| == |rs|
  {
    if rs != [] {
      var n := |rs| - 1;
      DistinctCount(rs[..n]);
      LessIrreflexive(rs[n].name);
      assert rs[n] !in rs[..n];
      assert (set r | r in rs) == (set r | r in rs[..n]) + {rs[n]};
    }
  }

  /** A listed tool stands at its position, and nowhere else. */
  lemma PositionOf(rs: seq<Record>, k: nat)
    requires ByName(rs) && k < |rs|
    ensures Position(rs, rs[k].name) == k
  {
    var t := rs[k];
    forall r
      ensures r in Before(rs, t.name) <==> r in rs[..k]
    {
      if i :| 0 <= i < |rs| && rs[i] == r {
        if i >= k && Less(r.name, t.name) {
          LessIrreflexive(t.name);
          if i > k { LessAsymmetric(t.name, r.name); }
          assert false;
        }
      }
    }
    assert Before(rs, t.name) == set r | r in rs[..k];
    DistinctCount(rs[..k]);
  }

  lemma OnPage(rs: seq<Record>, t: Record, from: nat, end: nat)
    requires ByName(rs) && t in rs && from <= end <= |rs|
    ensures t in rs[from..end] <==> from <= Position(rs, t.name) < end
    ensures Position(rs, t.name) < |rs|
  {
    hide Position;
    var k :| 0 <= k < |rs| && rs[k] == t;
    PositionOf(rs, k);
    if from <= k < end {
      assert rs[from..end][k - from] == t;
    }
    if i :| 0 <= i < end - from && rs[from..end][i] == t {
      PositionOf(rs, from + i);
    }
  }

  lemma {:induction false} SubsetCount<T>(a: set<T>, b: set<T>)
    requires a <= b
    ensures |a| <= |b|
    decreases |a|
  {
    if x :| x in a {
      SubsetCount(a - {x}, b - {x});
    }
  }

  lemma SplitCount<T>(a: set<T>, b: set<T>)
    ensures |b| == |a| - |a - b| + |b - a|
  {
    assert a == (a - b) + (a * b) && (a - b) !! (a * b);
    assert b == (b - a) + (a * b) && (b - a) !! (a * b);
  }

  /** What a cursor still has ahead of it. */
  function Rest(rs: seq<Record>, cursor: nat): seq<Record> {
    rs[Least(cursor, |rs|)..]
  }

  /** A tool that was ahead of the cursor and is still listed has fallen behind
      it exactly when more tools left the list below it than joined it there, by
      more than its distance from the cursor. An update that replaces a record
      counts once on each side. */
  lemma SkippedExactly(before: seq<Record>, after: seq<Record>, cursor: nat, k: nat)
    requires ByName(before) && ByName(after) && cursor <= k < |before| && before[k] in after
    ensures
      var n := before[k].name;
      var left, joined := Before(before, n) - Before(after, n), Before(after, n) - Before(before, n);
      before[k] !in Rest(after, cursor) <==> |left| - |joined| > k - cursor
  {
    var t := before[k];
    PositionOf(before, k);
    SplitCount(Before(before, t.name), Before(after, t.name));
    OnPage(after, t, Least(cursor, |after|), |after|);
  }

  /** With a single removal, the rest of the walk keeps every other tool that
      was ahead of the cursor exactly when what was removed was ahead of it too,
      or nothing was. */
  lemma OneRemovalKeepsExactly(v: seq<Record>, cursor: nat, i: nat)
    requires ByName(v) && cursor <= |v| && i < |v|
    ensures
      var after := v[..i] + v[i + 1..];
      (forall k :: cursor <= k < |v| && k != i ==> v[k] in Rest(after, cursor)) <==> i >= cursor || cursor == |v|
  {
    var after := v[..i] + v[i + 1..];
    forall k | cursor <= k < |v| && k != i
      ensures v[k] in Rest(after, cursor) <==> i >= cursor || k > cursor
    {
      var j := if k < i then k else k - 1;
      assert after[j] == v[k];
      assert ByName(after);
      PositionOf(after, j);
      OnPage(after, v[k], Least(cursor, |after|), |after|);
    }
    if i < cursor < |v| {
      assert v[cursor] !in Rest(after, cursor);
    }
  }

  /** A walk from no cursor to a page without one, whatever happens between the
      requests: what the store listed at each, the size asked for, the cursor
      used and the tools returned. */
  ghost predicate PageWalk(p: RbacPolicy, user: UserContext, stores: seq<seq<Record>>, sizes: seq<PageSize>,
                       cursors: seq<U64>, pages: seq<seq<Record>>)
  {
    && |stores| == |sizes| == |cursors| == |pages| >= 1
    && cursors[0] == 0
    && (forall i :: 0 <= i < |stores| ==> ByName(stores[i]) && |stores[i]| <= MAX_VEC)
    && (forall i :: 0 <= i < |stores| ==>
          Answered(Visible(p, user, stores[i]), cursors[i], sizes[i], pages[i], cursors[i + 1..]))
  }

  /** The page returned, and the next cursor the client was handed, if any. */
  predicate Answered(visible: seq<Record>, cursor: U64, size: PageSize, page: seq<Record>, following: seq<U64>) {
    PageOf(visible, cursor, size) == Page(page, if following == [] then None else Some(following[0]))
  }

  /** The same, told by the operation's own answers: no cursor at first, then
      each cursor as the server printed it, and none at the end. */
  ghost predicate Replied(p: RbacPolicy, user: UserContext, stores: seq<seq<Record>>, sizes: seq<Option<U64>>,
                          cursors: seq<Option<string>>, pages: seq<seq<Record>>)
  {
    && |stores| == |sizes| == |cursors| == |pages| >= 1
    && cursors[0] == None
    && (forall i :: 0 <= i < |stores| ==> ByName(stores[i]) && |stores[i]| <= MAX_VEC)
    && (forall i :: 0 <= i < |stores| ==> AnsweredPage(p, user, stores, sizes, cursors, pages, i))
  }

  /** Request `i` was answered with page `i` and with the cursor of the next. */
  ghost predicate AnsweredPage(p: RbacPolicy, user: UserContext, stores: seq<seq<Record>>, sizes: seq<Option<U64>>,
                               cursors: seq<Option<string>>, pages: seq<seq<Record>>, i: nat)
    requires |stores| == |sizes| == |cursors| == |pages| && i < |stores|
  {
    var r := ToolsList(p, user, stores[i], ListParams(cursors[i], sizes[i]));
    && r.Ok? && r.value.Page? && r.value.tools == pages[i]
    && (r.value.next.Some? <==> i + 1 < |stores|)
    && (i + 1 < |stores| ==> cursors[i + 1] == Some(Digits(r.value.next.value)))
  }

  /** So every theorem about page walks is about what the operation answers. */
  lemma RepliesAreWalk(p: RbacPolicy, user: UserContext, stores: seq<seq<Record>>, sizes: seq<Option<U64>>,
                       cursors: seq<Option<string>>, pages: seq<seq<Record>>)
    requires Replied(p, user, stores, sizes, cursors, pages)
    ensures PageWalk(p, user, stores, seq(|sizes|, i requires 0 <= i < |sizes| => Clamp(sizes[i])),
                     seq(|cursors|, i requires 0 <= i < |cursors| => CursorStart(cursors[i])), pages)
  {
    hide Visible, PageOf, ToolsList, CursorStart, Clamp;
    var clamped := seq(|sizes|, i requires 0 <= i < |sizes| => Clamp(sizes[i]));
    var starts := seq(|cursors|, i requires 0 <= i < |cursors| => CursorStart(cursors[i]));
    assert CursorStart(None) == 0 by { NoCursorStarts(); }
    forall i | 0 <= i < |stores|
      ensures Answered(Visible(p, user, stores[i]), starts[i], clamped[i], pages[i], starts[i + 1..])
    {
      RepliesStart(p, user, stores, sizes, cursors, pages, i);
      var v := Visible(p, user, stores[i]);
      assert AnsweredPage(p, user, stores, sizes, cursors, pages, i);
      ListAnswered(p, user, stores[i], ListParams(cursors[i], sizes[i]));
      VisibleMeaning(p, user, stores[i]);
      ServerCursorsSlice(v, starts[i], clamped[i]);
      if i + 1 < |stores| {
        assert starts[i + 1..][0] == starts[i + 1];
      } else {
        assert starts[i + 1..] == [];
      }
    }
  }

  lemma NoCursorStarts()
    ensures CursorStart(None) == 0
  {
  }

  lemma {:induction false} RepliesStart(p: RbacPolicy, user: UserContext, stores: seq<seq<Record>>,
                                        sizes: seq<Option<U64>>, cursors: seq<Option<string>>,
                                        pages: seq<seq<Record>>, i: nat)
    requires Replied(p, user, stores, sizes, cursors, pages) && i < |stores|
    ensures CursorStart(cursors[i]) <= MAX_VEC
  {
    hide Visible, PageOf, ToolsList, CursorStart, Clamp;
    NoCursorStarts();
    if i > 0 {
      RepliesStart(p, user, stores, sizes, cursors, pages, i - 1);
      assert AnsweredPage(p, user, stores, sizes, cursors, pages, i - 1);
      ListAnswered(p, user, stores[i - 1], ListParams(cursors[i - 1], sizes[i - 1]));
      VisibleMeaning(p, user, stores[i - 1]);
      ServerCursorsSlice(Visible(p, user, stores[i - 1]), CursorStart(cursors[i - 1]), Clamp(sizes[i - 1]));
    }
  }

  /** One request of a walk: the page is what stands between the cursor and the
      next one, and on the last request everything from the cursor on. */
  lemma {:induction false} Request(p: RbacPolicy, user: UserContext, stores: seq<seq<Record>>, sizes: seq<PageSize>,
                                   cursors: seq<U64>, pages: seq<seq<Record>>, i: nat)
    requires PageWalk(p, user, stores, sizes, cursors, pages) && i < |stores|
    ensures var v := Visible(p, user, stores[i]);
      && ByName(v) && |v| <= MAX_VEC && cursors[i] <= MAX_VEC
      && (i + 1 < |stores| ==> cursors[i] < cursors[i + 1] < |v| && pages[i] == v[cursors[i]..cursors[i + 1]])
      && (i + 1 == |stores| ==> pages[i] == Rest(v, cursors[i]))
  {
    hide CanCallTool, Visible, PageOf, CursorStart;
    var v := Visible(p, user, stores[i]);
    VisibleMeaning(p, user, stores[i]);
    if i > 0 {
      Request(p, user, stores, sizes, cursors, pages, i - 1);
    }
    assert Answered(v, cursors[i], sizes[i], pages[i], cursors[i + 1..]);
    ServerCursorsSlice(v, cursors[i], sizes[i]);
    if i + 1 == |stores| {
      assert cursors[i + 1..] == [];
    } else {
      assert cursors[i + 1..][0] == cursors[i + 1];
    }
  }

  /** Between request `i` and the next one the tool falls behind the cursor. */
  predicate Skips(p: RbacPolicy, user: UserContext, stores: seq<seq<Record>>, cursors: seq<U64>, i: nat, name: string)
    requires |stores| == |cursors| && i + 1 < |stores|
  {
    && cursors[i + 1] <= Position(Visible(p, user, stores[i]), name)
    && Position(Visible(p, user, stores[i + 1]), name) < cursors[i + 1]
  }

  lemma {:induction false} ReachedUnlessSkipped(
      p: RbacPolicy, user: UserContext, stores: seq<seq<Record>>, sizes: seq<PageSize>,
      cursors: seq<U64>, pages: seq<seq<Record>>, t: Record, i: nat) returns (page: nat)
    requires PageWalk(p, user, stores, sizes, cursors, pages)
    requires forall j :: i <= j < |stores| ==> t in Visible(p, user, stores[j])
    requires forall j :: i <= j && j + 1 < |stores| ==> !Skips(p, user, stores, cursors, j, t.name)
    requires i < |stores| && cursors[i] <= Position(Visible(p, user, stores[i]), t.name)
    ensures page < |pages| && t in pages[page]
    decreases |stores| - i
  {
    hide Visible, Position, Answered;
    var v := Visible(p, user, stores[i]);
    Request(p, user, stores, sizes, cursors, pages, i);
    OnPage(v, t, 0, |v|);
    if i + 1 == |stores| {
      page := i;
      OnPage(v, t, cursors[i], |v|);
    } else if Position(v, t.name) < cursors[i + 1] {
      page := i;
      OnPage(v, t, cursors[i], cursors[i + 1]);
    } else {
      assert !Skips(p, user, stores, cursors, i, t.name);
      page := ReachedUnlessSkipped(p, user, stores, sizes, cursors, pages, t, i + 1);
    }
  }

  /** A tool that stays visible throughout a walk is returned by it unless it
      falls behind the cursor between two requests. */
  lemma ReturnedUnlessSkipped(p: RbacPolicy, user: UserContext, stores: seq<seq<Record>>, sizes: seq<PageSize>,
                              cursors: seq<U64>, pages: seq<seq<Record>>, t: Record)
    requires PageWalk(p, user, stores, sizes, cursors, pages)
    requires forall j :: 0 <= j < |stores| ==> t in Visible(p, user, stores[j])
    requires forall j :: 0 <= j && j + 1 < |stores| ==> !Skips(p, user, stores, cursors, j, t.name)
    ensures exists i :: 0 <= i < |pages| && t in pages[i]
  {
    hide Visible, Position, Answered, Skips;
    var i := ReachedUnlessSkipped(p, user, stores, sizes, cursors, pages, t, 0);
  }

  /** Exactly, whatever comes and goes: a tool visible at every request is on
      some page if and only if at some request it stands between the cursor used
      and the next one, or anywhere ahead on the last request. */
  lemma ReturnedExactly(p: RbacPolicy, user: UserContext, stores: seq<seq<Record>>, sizes: seq<PageSize>,
                        cursors: seq<U64>, pages: seq<seq<Record>>, t: Record)
    requires PageWalk(p, user, stores, sizes, cursors, pages)
    requires forall j :: 0 <= j < |stores| ==> t in Visible(p, user, stores[j])
    ensures (exists i :: 0 <= i < |pages| && t in pages[i])
       <==> exists i :: 0 <= i < |stores| && StandsOnPage(p, user, stores, cursors, i, t.name)
  {
    hide Visible, Answered, StandsOnPage;
    forall i | 0 <= i < |stores|
      ensures t in pages[i] <==> StandsOnPage(p, user, stores, cursors, i, t.name)
    {
      PageByPosition(p, user, stores, sizes, cursors, pages, t, i);
    }
  }

  predicate StandsOnPage(p: RbacPolicy, user: UserContext, stores: seq<seq<Record>>, cursors: seq<U64>, i: nat,
                         name: string)
    requires |stores| == |cursors| && i < |stores|
  {
    var position := Position(Visible(p, user, stores[i]), name);
    cursors[i] <= position && (i + 1 < |stores| ==> position < cursors[i + 1])
  }

  lemma PageByPosition(p: RbacPolicy, user: UserContext, stores: seq<seq<Record>>, sizes: seq<PageSize>,
                       cursors: seq<U64>, pages: seq<seq<Record>>, t: Record, i: nat)
    requires PageWalk(p, user, stores, sizes, cursors, pages) && i < |stores| && t in Visible(p, user, stores[i])
    ensures t in pages[i] <==> StandsOnPage(p, user, stores, cursors, i, t.name)
  {
    hide Visible, Position, Answered;
    var v := Visible(p, user, stores[i]);
    Request(p, user, stores, sizes, cursors, pages, i);
    if i + 1 < |stores| {
      OnPage(v, t, cursors[i], cursors[i + 1]);
    } else {
      OnPage(v, t, Least(cursors[i], |v|), |v|);
    }
  }

  /** Positions that never rise stay at or below where they were. */
  lemma {:induction false} NeverRises(p: RbacPolicy, user: UserContext, stores: seq<seq<Record>>, name: string,
                                      i: nat, j: nat)
    requires i <= j < |stores|
    requires forall m :: 0 <= m && m + 1 < |stores| ==>
      Position(Visible(p, user, stores[m + 1]), name) <= Position(Visible(p, user, stores[m]), name)
    ensures Position(Visible(p, user, stores[j]), name) <= Position(Visible(p, user, stores[i]), name)
    decreases j
  {
    hide Visible, Position;
    if i < j {
      NeverRises(p, user, stores, name, i, j - 1);
      assert Position(Visible(p, user, stores[j - 1 + 1]), name) <= Position(Visible(p, user, stores[j - 1]), name);
    }
  }

  lemma {:induction false} CursorsAscend(p: RbacPolicy, user: UserContext, stores: seq<seq<Record>>,
                                         sizes: seq<PageSize>, cursors: seq<U64>, pages: seq<seq<Record>>,
                                         i: nat, j: nat)
    requires PageWalk(p, user, stores, sizes, cursors, pages) && i <= j < |stores|
    ensures cursors[i] <= cursors[j]
    decreases j
  {
    hide Visible, Answered;
    if i < j {
      CursorsAscend(p, user, stores, sizes, cursors, pages, i, j - 1);
      Request(p, user, stores, sizes, cursors, pages, j - 1);
    }
  }

  /** Where nothing joins the list below it, a tool that stays visible is missed
      by the walk exactly when it falls behind the cursor between two requests. */
  lemma MissedExactly(p: RbacPolicy, user: UserContext, stores: seq<seq<Record>>, sizes: seq<PageSize>,
                      cursors: seq<U64>, pages: seq<seq<Record>>, t: Record)
    requires PageWalk(p, user, stores, sizes, cursors, pages)
    requires forall j :: 0 <= j < |stores| ==> t in Visible(p, user, stores[j])
    requires forall m :: 0 <= m && m + 1 < |stores| ==>
      Position(Visible(p, user, stores[m + 1]), t.name) <= Position(Visible(p, user, stores[m]), t.name)
    ensures (forall i :: 0 <= i < |pages| ==> t !in pages[i])
       <==> exists i :: 0 <= i && i + 1 < |stores| && Skips(p, user, stores, cursors, i, t.name)
  {
    hide Visible, Position, Answered, Skips;
    if i :| 0 <= i && i + 1 < |stores| && Skips(p, user, stores, cursors, i, t.name) {
      forall j | 0 <= j < |pages|
        ensures t !in pages[j]
      {
        SkippedIsOffPage(p, user, stores, sizes, cursors, pages, t, i, j);
      }
    } else {
      ReturnedUnlessSkipped(p, user, stores, sizes, cursors, pages, t);
    }
  }

  lemma SkippedIsOffPage(p: RbacPolicy, user: UserContext, stores: seq<seq<Record>>, sizes: seq<PageSize>,
                         cursors: seq<U64>, pages: seq<seq<Record>>, t: Record, i: nat, j: nat)
    requires PageWalk(p, user, stores, sizes, cursors, pages)
    requires forall j :: 0 <= j < |stores| ==> t in Visible(p, user, stores[j])
    requires forall m :: 0 <= m && m + 1 < |stores| ==>
      Position(Visible(p, user, stores[m + 1]), t.name) <= Position(Visible(p, user, stores[m]), t.name)
    requires i + 1 < |stores| && Skips(p, user, stores, cursors, i, t.name) && j < |pages|
    ensures t !in pages[j]
  {
    hide Visible, Position, Answered;
    PageByPosition(p, user, stores, sizes, cursors, pages, t, j);
    if j <= i {
      NeverRises(p, user, stores, t.name, j, i);
      CursorsAscend(p, user, stores, sizes, cursors, pages, j + 1, i + 1);
    } else {
      NeverRises(p, user, stores, t.name, i + 1, j);
      CursorsAscend(p, user, stores, sizes, cursors, pages, i + 1, j);
    }
  }

  /** Everything in one list is in the other. */
  predicate Within(a: seq<Record>, b: seq<Record>) {
    forall t :: t in a ==> t in b
  }

  lemma WithinPosition(p: RbacPolicy, user: UserContext, a: seq<Record>, b: seq<Record>, name: string)
    requires Within(a, b)
    ensures Within(Visible(p, user, a), Visible(p, user, b))
    ensures Position(Visible(p, user, a), name) <= Position(Visible(p, user, b), name)
  {
    hide Visible, CanCallTool;
    VisibleMeaning(p, user, a);
    VisibleMeaning(p, user, b);
    SubsetCount(Before(Visible(p, user, a), name), Before(Visible(p, user, b), name));
  }

  // ---- Walks over runs of the control plane ----

  /** The tool record a task is about to store. */
  function ToolPut(t: Task): Option<Record> {
    match t
    case CreatePut(_, b, now) => if b.Kind() == Tool then Some(Fresh(b, now)) else None
    case UpdatePut(_, base, _, changes, now) => if base.Kind() == Tool then Some(Merge(base, changes, now)) else None
    case _ => None
  }

  /** The name of the tool record a task is about to remove: a delete's, or that
      of a create whose apply failed. */
  function ToolDropped(t: Task): Option<string> {
    match t
    case CreateRollback(_, r) => if r.Kind() == Tool then Some(r.name) else None
    case DeleteRecord(op) => if op.kind == Tool then Some(op.name) else None
    case _ => None
  }

  lemma StepTools(p: RbacPolicy, t: Task, f: Fault, w: World)
    ensures Step(p, t, f, w).world.tools ==
      if f.Fails? then w.tools
      else
        match ToolPut(t)
        case Some(r) => w.tools[r.name := r]
        case None => if ToolDropped(t).Some? then w.tools - {ToolDropped(t).value} else w.tools
  {
    hide StartCreate, StartUpdate, StartDelete, CreatedResponse, UpdatedResponse, Fresh, Merge, NeedsApply;
  }

  predicate AlreadyHolds(tools: map<string, Record>, r: Record) {
    r.name in tools && tools[r.name] == r
  }

  /** A move that removes a stored tool or stores a different record over it. */
  predicate Displaces(c: Crowd, m: Move) {
    && m.Proceed? && m.fault.Works? && m.id in c.tasks
    && var put, dropped := ToolPut(c.tasks[m.id]), ToolDropped(c.tasks[m.id]);
       if put.Some? then put.value.name in c.world.tools && !AlreadyHolds(c.world.tools, put.value)
       else dropped.Some? && dropped.value in c.world.tools
  }

  /** A move that stores a tool record that is not there yet. */
  predicate Adds(c: Crowd, m: Move) {
    && m.Proceed? && m.fault.Works? && m.id in c.tasks
    && var put := ToolPut(c.tasks[m.id]);
       put.Some? && !AlreadyHolds(c.world.tools, put.value)
  }

  ghost predicate Extends(a: map<string, Record>, b: map<string, Record>) {
    forall n :: n in a ==> n in b && b[n] == a[n]
  }

  /** Under any interleaving, one move loses no tool record exactly when it
      displaces none, and gains none exactly when it adds none. */
  lemma TurnTools(p: RbacPolicy, c: Crowd, m: Move)
    ensures Extends(c.world.tools, Turn(p, c, m).world.tools) <==> !Displaces(c, m)
    ensures Extends(Turn(p, c, m).world.tools, c.world.tools) <==> !Adds(c, m)
  {
    hide Step, ToolPut, ToolDropped;
    if m.Proceed? && m.id in c.tasks {
      StepTools(p, c.tasks[m.id], m.fault, c.world);
      var put, dropped := ToolPut(c.tasks[m.id]), ToolDropped(c.tasks[m.id]);
      if m.fault.Works? && put.Some? {
        assert Turn(p, c, m).world.tools[put.value.name] == put.value;
      } else if m.fault.Works? && dropped.Some? {
        assert dropped.value !in Turn(p, c, m).world.tools;
      }
    }
  }

  /** The control plane after the first `k` moves of a run. */
  function At(p: RbacPolicy, moves: seq<Move>, k: nat): Crowd
    requires k <= |moves|
  {
    Interleave(p, Crowd(EMPTY_WORLD, map[]), moves[..k])
  }

  lemma AtNext(p: RbacPolicy, moves: seq<Move>, k: nat)
    requires k < |moves|
    ensures At(p, moves, k + 1) == Turn(p, At(p, moves, k), moves[k])
  {
    hide Turn;
    assert moves[..k + 1][..k] == moves[..k];
  }

  lemma {:induction false} ExtendsAlong(p: RbacPolicy, moves: seq<Move>, i: nat, j: nat)
    requires i <= j <= |moves|
    ensures (forall k :: i <= k < j ==> !Displaces(At(p, moves, k), moves[k])) ==>
      Extends(At(p, moves, i).world.tools, At(p, moves, j).world.tools)
    ensures (forall k :: i <= k < j ==> !Adds(At(p, moves, k), moves[k])) ==>
      Extends(At(p, moves, j).world.tools, At(p, moves, i).world.tools)
    decreases j
  {
    hide At, Turn, Displaces, Adds;
    if i < j {
      ExtendsAlong(p, moves, i, j - 1);
      AtNext(p, moves, j - 1);
      TurnTools(p, At(p, moves, j - 1), moves[j - 1]);
    }
  }

  /** The requests of a walk served during a run: request `i` after the first
      `at[i]` moves, from what the store then lists. */
  ghost predicate Served(p: RbacPolicy, moves: seq<Move>, at: seq<nat>, stores: seq<seq<Record>>) {
    && |at| == |stores|
    && (forall i :: 0 <= i < |at| ==> at[i] <= |moves|)
    && (forall i :: 0 <= i && i + 1 < |at| ==> at[i] <= at[i + 1])
    && (forall i :: 0 <= i < |at| ==> Lists(stores[i], At(p, moves, at[i]).world.tools))
  }

  lemma ExtendsWithin(a: seq<Record>, b: seq<Record>, tools: map<string, Record>, tools': map<string, Record>)
    requires Lists(a, tools) && Lists(b, tools') && Extends(tools, tools')
    ensures Within(a, b)
  {
  }

  /** Pagination survives growth, over runs: whatever handlers run between the
      pages, interleaved and failing anyhow, as long as no move displaces a
      stored tool, a walk followed to its end returns every tool that was
      visible when it started. */
  lemma GrowthLosesNothing(p: RbacPolicy, user: UserContext, moves: seq<Move>, at: seq<nat>, stores: seq<seq<Record>>,
                           sizes: seq<PageSize>, cursors: seq<U64>, pages: seq<seq<Record>>, t: Record)
    requires PageWalk(p, user, stores, sizes, cursors, pages) && Served(p, moves, at, stores)
    requires forall k :: at[0] <= k < at[|at| - 1] ==> !Displaces(At(p, moves, k), moves[k])
    requires t in Visible(p, user, stores[0])
    ensures exists i :: 0 <= i < |pages| && t in pages[i]
  {
    hide Visible, Position, Answered, At, Displaces, Lists, Extends;
    ServedInOrder(p, moves, at, stores);
    forall i | 0 <= i && i + 1 < |stores|
      ensures Within(stores[i], stores[i + 1])
    {
      ExtendsAlong(p, moves, at[i], at[i + 1]);
      ExtendsWithin(stores[i], stores[i + 1], At(p, moves, at[i]).world.tools, At(p, moves, at[i + 1]).world.tools);
    }
    forall j | 0 <= j < |stores|
      ensures t in Visible(p, user, stores[j])
    {
      VisibleThroughout(p, user, stores, t, j);
    }
    forall j | 0 <= j && j + 1 < |stores|
      ensures !Skips(p, user, stores, cursors, j, t.name)
    {
      WithinPosition(p, user, stores[j], stores[j + 1], t.name);
    }
    ReturnedUnlessSkipped(p, user, stores, sizes, cursors, pages, t);
  }

  lemma {:induction false} VisibleThroughout(p: RbacPolicy, user: UserContext, stores: seq<seq<Record>>, t: Record,
                                             j: nat)
    requires j < |stores| && t in Visible(p, user, stores[0])
    requires forall i :: 0 <= i && i + 1 < |stores| ==> Within(stores[i], stores[i + 1])
    ensures t in Visible(p, user, stores[j])
  {
    hide Visible, Position, Within;
    if j > 0 {
      VisibleThroughout(p, user, stores, t, j - 1);
      assert Within(stores[j - 1], stores[j - 1 + 1]);
      WithinPosition(p, user, stores[j - 1], stores[j], t.name);
      WithinMember(Visible(p, user, stores[j - 1]), Visible(p, user, stores[j]), t);
    }
  }

  lemma WithinMember(a: seq<Record>, b: seq<Record>, t: Record)
    requires Within(a, b) && t in a
    ensures t in b
  {
  }

  lemma {:induction false} ServedInOrder(p: RbacPolicy, moves: seq<Move>, at: seq<nat>, stores: seq<seq<Record>>)
    requires Served(p, moves, at, stores)
    ensures forall i, j :: 0 <= i <= j < |at| ==> at[i] <= at[j]
  {
    hide At, Lists;
    forall i, j | 0 <= i <= j < |at|
      ensures at[i] <= at[j]
    {
      OrderedBetween(at, i, j);
    }
  }

  lemma {:induction false} OrderedBetween(at: seq<nat>, i: nat, j: nat)
    requires i <= j < |at| && forall i :: 0 <= i && i + 1 < |at| ==> at[i] <= at[i + 1]
    ensures at[i] <= at[j]
    decreases j
  {
    if i < j {
      OrderedBetween(at, i, j - 1);
      assert at[j - 1] <= at[j - 1 + 1];
    }
  }

  /** And over runs that only take tools away: a tool that survives the walk is
      missed by it exactly when between two requests more of the visible tools
      below it went than its distance from the cursor. */
  lemma RemovalsLoseExactly(p: RbacPolicy, user: UserContext, moves: seq<Move>, at: seq<nat>, stores: seq<seq<Record>>,
                            sizes: seq<PageSize>, cursors: seq<U64>, pages: seq<seq<Record>>, t: Record)
    requires PageWalk(p, user, stores, sizes, cursors, pages) && Served(p, moves, at, stores)
    requires forall k :: at[0] <= k < at[|at| - 1] ==> !Adds(At(p, moves, k), moves[k])
    requires t in Visible(p, user, stores[|stores| - 1])
    ensures (forall i :: 0 <= i < |pages| ==> t !in pages[i])
       <==> exists i :: 0 <= i && i + 1 < |stores| && LosesBelow(p, user, stores, cursors, i, t.name)
  {
    hide Visible, Position, Answered, At, Adds, Lists, Extends, Skips, LosesBelow;
    ServedInOrder(p, moves, at, stores);
    forall i | 0 <= i && i + 1 < |stores|
      ensures Within(stores[i + 1], stores[i])
    {
      ExtendsAlong(p, moves, at[i], at[i + 1]);
      ExtendsWithin(stores[i + 1], stores[i], At(p, moves, at[i + 1]).world.tools, At(p, moves, at[i]).world.tools);
    }
    forall j | 0 <= j < |stores|
      ensures t in Visible(p, user, stores[j])
    {
      VisibleBefore(p, user, stores, t, j);
    }
    forall m | 0 <= m && m + 1 < |stores|
      ensures Position(Visible(p, user, stores[m + 1]), t.name) <= Position(Visible(p, user, stores[m]), t.name)
      ensures Skips(p, user, stores, cursors, m, t.name) <==> LosesBelow(p, user, stores, cursors, m, t.name)
    {
      WithinPosition(p, user, stores[m + 1], stores[m], t.name);
      LossIsSkip(p, user, stores, cursors, m, t.name);
    }
    MissedExactly(p, user, stores, sizes, cursors, pages, t);
  }

  /** The tool is ahead of the cursor, and more visible tools below it leave the
      list before the next request than stand between the cursor and it. */
  predicate LosesBelow(p: RbacPolicy, user: UserContext, stores: seq<seq<Record>>, cursors: seq<U64>, i: nat,
                       name: string)
    requires |stores| == |cursors| && i + 1 < |stores|
  {
    var v, v' := Visible(p, user, stores[i]), Visible(p, user, stores[i + 1]);
    cursors[i + 1] <= Position(v, name) && |Before(v, name) - Before(v', name)| > Position(v, name) - cursors[i + 1]
  }

  lemma LossIsSkip(p: RbacPolicy, user: UserContext, stores: seq<seq<Record>>, cursors: seq<U64>, i: nat, name: string)
    requires |stores| == |cursors| && i + 1 < |stores| && Within(stores[i + 1], stores[i])
    ensures Skips(p, user, stores, cursors, i, name) <==> LosesBelow(p, user, stores, cursors, i, name)
  {
    hide Visible, CanCallTool;
    var v, v' := Visible(p, user, stores[i]), Visible(p, user, stores[i + 1]);
    VisibleMeaning(p, user, stores[i]);
    VisibleMeaning(p, user, stores[i + 1]);
    SplitCount(Before(v, name), Before(v', name));
    assert Before(v', name) - Before(v, name) == {};
  }

  lemma {:induction false} VisibleBefore(p: RbacPolicy, user: UserContext, stores: seq<seq<Record>>, t: Record, j: nat)
    requires j < |stores| && t in Visible(p, user, stores[|stores| - 1])
    requires forall i :: 0 <= i && i + 1 < |stores| ==> Within(stores[i + 1], stores[i])
    ensures t in Visible(p, user, stores[j])
    decreases |stores| - j
  {
    hide Visible, Position, Within;
    if j + 1 < |stores| {
      VisibleBefore(p, user, stores, t, j + 1);
      WithinPosition(p, user, stores[j + 1], stores[j], t.name);
      WithinMember(Visible(p, user, stores[j + 1]), Visible(p, user, stores[j]), t);
    }
  }

  /** What the in-memory store lists is the full listing of its table, so the
      listings above are those the server reads. */
  lemma StoreLists(es: seq<Entry<Record>>, tools: map<string, Record>)
    requires Ordered(es) && UnderOwnNames(es)
    requires forall n :: Find(es, n) == if n in tools then Some(tools[n]) else None
    requires forall n :: n in tools ==> tools[n].name == n
    ensures Lists(Listing(es, []), tools)
  {
    hide Find, Listing;
    ListingByName(es, []);
    forall t
      ensures t in Listing(es, []) <==> t.name in tools && tools[t.name] == t
    {
      ListingMeaning(es, [], t);
      StoredFound(es, t);
    }
  }
}
