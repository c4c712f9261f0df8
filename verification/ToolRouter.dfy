/** The tool gateway: `tools/list` as a per-user filtered view walked by
    decimal cursors, and the authorization stage of `tools/call`. */
module ToolRouter {
  import opened Claims
  import opened Lexicographic
  import opened MetadataStores
  import opened Policy
  import opened Records
  import opened Text
  import opened Wrappers

  const MAX_TOOLS_PAGE_SIZE: U64 := 200
  const DEFAULT_TOOLS_PAGE_SIZE: U64 := 50

  /** Rust's own bound on a vector's length. */
  const MAX_VEC: int := 0x7FFF_FFFF_FFFF_FFFF

  type PageSize = n: int | 1 <= n <= 200 witness 1

  datatype ListParams = ListParams(cursor: Option<string>, pageSize: Option<U64>)

  datatype ListError = ListForbidden(reason: string)

  /** A page, or the abort a slice out of order causes. */
  datatype PageOutcome = Page(tools: seq<Record>, next: Option<nat>) | Aborted

  function DefinitionName(t: Record): string {
    if t.extra.ToolExtra? then t.extra.definition.name else t.name
  }

  function AuthorizeCall(p: RbacPolicy, user: UserContext, t: Record): Result<Option<string>, string> {
    AuthorizeDataPlane(p, user, "tools/call", Some(DefinitionName(t)), ToolResource, t.name, t.tags, t.requiredRoles)
  }

  predicate CanCallTool(p: RbacPolicy, user: UserContext, t: Record) {
    AuthorizeCall(p, user, t).Ok?
  }

  /** The tools a caller may call, in the order given. */
  function Visible(p: RbacPolicy, user: UserContext, all: seq<Record>): seq<Record> {
    if all == [] then []
    else
      var n := |all| - 1;
      Visible(p, user, all[..n]) + (if CanCallTool(p, user, all[n]) then [all[n]] else [])
  }

  function Distance(a: int, b: int): nat {
    if a <= b then b - a else a - b
  }

  /** The allowed page size nearest to the one asked for. */
  function Clamp(requested: Option<U64>): (size: PageSize)
    ensures requested.None? ==> size == 50
    ensures requested.Some? ==> forall k: PageSize {:trigger Distance(k, requested.value)} ::
      Distance(size, requested.value) <= Distance(k, requested.value)
  {
    var n := requested.GetOr(DEFAULT_TOOLS_PAGE_SIZE);
    if n < 1 then 1 else if n > MAX_TOOLS_PAGE_SIZE then MAX_TOOLS_PAGE_SIZE else n
  }

  /** A cursor that is missing or not a number. */
  predicate Unnumbered(cursor: Option<string>) {
    cursor.None? || ParseU64(cursor.value).None?
  }

  /** A cursor that is missing or not a number starts from the beginning. */
  function CursorStart(cursor: Option<string>): U64 {
    match cursor
    case None => 0
    case Some(c) => ParseU64(c).GetOr(0)
  }

  function Least(a: int, b: int): int {
    if a <= b then a else b
  }

  /** The slice of one page. The sum wraps, as it does in the release profile;
      a start past the end then makes the slice abort. */
  function PageOf(visible: seq<Record>, start: U64, size: PageSize): PageOutcome {
    var end := Least((start + size) % TWO_TO_THE_64, |visible|);
    var from := Least(start, |visible|);
    if from > end then Aborted
    else Page(visible[from..end], if end < |visible| then Some(end) else None)
  }

  function ToolsList(p: RbacPolicy, user: UserContext, all: seq<Record>, params: ListParams)
    : Result<PageOutcome, ListError>
  {
    match AuthorizeDataPlane(p, user, "tools/list", None, ToolResource, "*", [], [])
    case Err(reason) => Err(ListForbidden(reason))
    case Ok(_) => Ok(PageOf(Visible(p, user, all), CursorStart(params.cursor), Clamp(params.pageSize)))
  }

  method HandleToolsList(p: RbacPolicy, user: UserContext, all: seq<Record>, params: ListParams)
    returns (r: Result<PageOutcome, ListError>)
    // only those who may list get an answer
    ensures !MayList(p, user) ==> r == Err(ListForbidden("default-deny"))
    // without a usable cursor it is the first page of what the caller may call
    ensures MayList(p, user) && Unnumbered(params.cursor) && |Visible(p, user, all)| <= MAX_VEC ==>
      var v, size := Visible(p, user, all), Clamp(params.pageSize);
      r == Ok(Page(v[..Least(size, |v|)], if size < |v| then Some(size) else None))
    // with one, the page from there on
    ensures MayList(p, user) && params.cursor.Some? && ParseU64(params.cursor.value).Some? ==>
      r == Ok(PageOf(Visible(p, user, all), ParseU64(params.cursor.value).value, Clamp(params.pageSize)))
    ensures r == ToolsList(p, user, all, params)
  {
    hide CanCallTool, AuthorizeDataPlane, MayList, PageOf, Clamp, ParseU64;
    ListAnswered(p, user, all, params);
    if MayList(p, user) && Unnumbered(params.cursor) && |Visible(p, user, all)| <= MAX_VEC {
      FirstPage(p, user, all, params);
    }
    var authorized := AuthorizeDataPlane(p, user, "tools/list", None, ToolResource, "*", [], []);
    if authorized.Err? {
      return Err(ListForbidden(authorized.error));
    }
    var pageSize := Clamp(params.pageSize);
    var cursorStart := CursorStart(params.cursor);
    var visible := [];
    for i := 0 to |all|
      invariant visible == Visible(p, user, all[..i])
    {
      assert all[..i + 1][..i] == all[..i];
      if CanCallTool(p, user, all[i]) {
        visible := visible + [all[i]];
      }
    }
    assert all[..|all|] == all;
    return Ok(PageOf(visible, cursorStart, pageSize));
  }

  /** The page request aborts exactly for cursors so near the top of the range
      that adding the page size wraps to a point inside the list. */
  lemma AbortsExactly(visible: seq<Record>, start: U64, size: PageSize)
    requires |visible| <= MAX_VEC
    ensures PageOf(visible, start, size).Aborted?
       <==> start + size >= TWO_TO_THE_64 && start + size - TWO_TO_THE_64 < |visible|
  {
    var sum := start + size;
    if sum < TWO_TO_THE_64 {
      assert sum % TWO_TO_THE_64 == sum;
    } else {
      assert sum % TWO_TO_THE_64 == sum - TWO_TO_THE_64;
    }
  }

  /** A cursor no longer than a list can be aborts nothing: the page is the
      plain slice, empty when the list has become shorter than the cursor; the
      next cursor lies strictly further on and survives printing and parsing, so
      these are all the cursors the server ever issues. */
  lemma ServerCursorsSlice(visible: seq<Record>, start: U64, size: PageSize)
    requires |visible| <= MAX_VEC && start <= MAX_VEC
    ensures var from, end := Least(start, |visible|), Least(start + size, |visible|);
      && PageOf(visible, start, size) == Page(visible[from..end], if end < |visible| then Some(end) else None)
      && (end < |visible| ==> start < end <= MAX_VEC && CursorStart(Some(Digits(end))) == end)
  {
    var end := Least(start + size, |visible|);
    assert (start + size) % TWO_TO_THE_64 == start + size;
    if end < |visible| {
      ParsePrinted(end);
    }
  }

  /** The pages a client gets by following the cursor it is handed, asking for
      the i-th page with the i-th size. */
  function Pages(visible: seq<Record>, start: U64, sizes: nat -> PageSize, i: nat): seq<seq<Record>>
    requires |visible| <= MAX_VEC && start <= |visible|
    decreases |visible| - start
  {
    ServerCursorsSlice(visible, start, sizes(i));
    var page := PageOf(visible, start, sizes(i));
    match page.next
    case None => [page.tools]
    case Some(c) => [page.tools] + Pages(visible, CursorStart(Some(Digits(c))), sizes, i + 1)
  }

  function Flatten(pages: seq<seq<Record>>): seq<Record> {
    if pages == [] then [] else pages[0] + Flatten(pages[1..])
  }

  /** Pagination is a partition: whatever page sizes are asked for, following
      the cursors ends, and the pages put together are the visible list, each
      tool once and in order. */
  lemma {:induction false} PagesPartition(visible: seq<Record>, start: U64, sizes: nat -> PageSize, i: nat)
    requires |visible| <= MAX_VEC && start <= |visible|
    ensures Flatten(Pages(visible, start, sizes, i)) == visible[start..]
    decreases |visible| - start
  {
    hide PageOf, CursorStart;
    ServerCursorsSlice(visible, start, sizes(i));
    var end := Least(start + sizes(i), |visible|);
    if end < |visible| {
      var rest := Pages(visible, end, sizes, i + 1);
      PagesPartition(visible, end, sizes, i + 1);
      assert Pages(visible, start, sizes, i) == [visible[start..end]] + rest;
      assert ([visible[start..end]] + rest)[1..] == rest;
      assert visible[start..end] + visible[end..] == visible[start..];
    } else {
      assert Flatten([visible[start..end]][1..]) == [];
      assert visible[start..end] == visible[start..];
    }
  }

  /** With a constant size the number of calls is the least that can hold what
      is left, and one when nothing is. */
  lemma {:induction false} PageCount(visible: seq<Record>, start: U64, sizes: nat -> PageSize, size: PageSize, i: nat)
    requires |visible| <= MAX_VEC && start <= |visible| && forall k :: sizes(k) == size
    ensures
      var left, calls := |visible| - start, |Pages(visible, start, sizes, i)|;
      if left == 0 then calls == 1 else size * (calls - 1) < left <= size * calls
    decreases |visible| - start
  {
    hide PageOf, CursorStart;
    ServerCursorsSlice(visible, start, sizes(i));
    var end := Least(start + size, |visible|);
    if end < |visible| {
      PageCount(visible, end, sizes, size, i + 1);
      OneMoreCall(size, |Pages(visible, end, sizes, i + 1)|);
    }
  }

  /** The caller may list at all: permission for the action on no tool in
      particular. */
  ghost predicate MayList(p: RbacPolicy, user: UserContext) {
    Permits(p, Data, "tools/list", "*", [], user.roles)
  }

  /** The caller may call a tool: permission for the action on it, and one of
      the roles it asks for, if it asks for any. */
  ghost predicate MayCall(p: RbacPolicy, user: UserContext, t: Record) {
    && Permits(p, Data, "tools/call", t.name, t.tags, user.roles)
    && (t.requiredRoles == [] || exists r :: r in t.requiredRoles && r in user.roles)
  }

  lemma CallableExactly(p: RbacPolicy, user: UserContext, t: Record)
    ensures CanCallTool(p, user, t) <==> MayCall(p, user, t)
  {
    hide AuthorizeDataPlane, Permits;
    DataPlaneExactly(p, user, "tools/call", Some(DefinitionName(t)), ToolResource, t.name, t.tags, t.requiredRoles);
  }

  /** A listing is answered exactly for those who may list, with the page of the
      tools they may call; anyone else is told the default denied them. */
  lemma ListAnswered(p: RbacPolicy, user: UserContext, all: seq<Record>, params: ListParams)
    ensures ToolsList(p, user, all, params) ==
      if MayList(p, user) then Ok(PageOf(Visible(p, user, all), CursorStart(params.cursor), Clamp(params.pageSize)))
      else Err(ListForbidden("default-deny"))
  {
    hide AuthorizeDataPlane, Permits, Visible, PageOf;
    DataPlaneExactly(p, user, "tools/list", None, ToolResource, "*", [], []);
  }

  /** Without a cursor, or with one that is not a number, the answer is the
      first page; with a number it is the page from there on. */
  lemma FirstPage(p: RbacPolicy, user: UserContext, all: seq<Record>, params: ListParams)
    requires MayList(p, user) && |Visible(p, user, all)| <= MAX_VEC
    requires Unnumbered(params.cursor)
    ensures var v, size := Visible(p, user, all), Clamp(params.pageSize);
      ToolsList(p, user, all, params)
        == Ok(Page(v[..Least(size, |v|)], if size < |v| then Some(size) else None))
  {
    hide Visible, PageOf, Permits;
    ListAnswered(p, user, all, params);
    var v := Visible(p, user, all);
    ServerCursorsSlice(v, 0, Clamp(params.pageSize));
    assert v[0..Least(Clamp(params.pageSize), |v|)] == v[..Least(Clamp(params.pageSize), |v|)];
  }

  /** A client's walk over the answers of the operation itself: ask with a
      cursor, and again with each next cursor as the server printed it. */
  function Follow(p: RbacPolicy, user: UserContext, all: seq<Record>, cursor: Option<string>,
                  sizes: nat -> Option<U64>, i: nat): seq<seq<Record>>
    requires MayList(p, user) && |Visible(p, user, all)| <= MAX_VEC && CursorStart(cursor) <= |Visible(p, user, all)|
    decreases |Visible(p, user, all)| - CursorStart(cursor)
  {
    ListAnswered(p, user, all, ListParams(cursor, sizes(i)));
    ServerCursorsSlice(Visible(p, user, all), CursorStart(cursor), Clamp(sizes(i)));
    match ToolsList(p, user, all, ListParams(cursor, sizes(i)))
    case Ok(Page(tools, Some(next))) => [tools] + Follow(p, user, all, Some(Digits(next)), sizes, i + 1)
    case Ok(Page(tools, None)) => [tools]
    case _ => []
  }

  lemma {:induction false} FollowIsPages(p: RbacPolicy, user: UserContext, all: seq<Record>, cursor: Option<string>,
                                         sizes: nat -> Option<U64>, clamped: nat -> PageSize, i: nat)
    requires MayList(p, user) && |Visible(p, user, all)| <= MAX_VEC && CursorStart(cursor) <= |Visible(p, user, all)|
    requires forall k :: clamped(k) == Clamp(sizes(k))
    ensures Follow(p, user, all, cursor, sizes, i) == Pages(Visible(p, user, all), CursorStart(cursor), clamped, i)
    decreases |Visible(p, user, all)| - CursorStart(cursor)
  {
    hide PageOf, CursorStart, Visible, ToolsList, Permits, Clamp;
    var v := Visible(p, user, all);
    ListAnswered(p, user, all, ListParams(cursor, sizes(i)));
    ServerCursorsSlice(v, CursorStart(cursor), Clamp(sizes(i)));
    var end := Least(CursorStart(cursor) + Clamp(sizes(i)), |v|);
    if end < |v| {
      FollowIsPages(p, user, all, Some(Digits(end)), sizes, clamped, i + 1);
    }
  }

  /** Walking from no cursor with any page sizes, the answers put together are
      the tools the caller may call, each once and in order. */
  lemma WalkReturnsVisible(p: RbacPolicy, user: UserContext, all: seq<Record>, sizes: nat -> Option<U64>)
    requires MayList(p, user) && |Visible(p, user, all)| <= MAX_VEC
    ensures CursorStart(None) == 0
    ensures Flatten(Follow(p, user, all, None, sizes, 0)) == Visible(p, user, all)
  {
    hide Visible, Follow, Pages, Permits;
    var clamped: nat -> PageSize := k => Clamp(sizes(k));
    FollowIsPages(p, user, all, None, sizes, clamped, 0);
    PagesPartition(Visible(p, user, all), 0, clamped, 0);
    assert Visible(p, user, all)[0..] == Visible(p, user, all);
  }

  lemma OneMoreCall(size: PageSize, calls: nat)
    ensures size * (calls + 1) == size * calls + size
    ensures size * calls == size * (calls - 1) + size
  {
  }

  lemma {:induction false} VisibleMeaning(p: RbacPolicy, user: UserContext, all: seq<Record>)
    ensures forall t :: t in Visible(p, user, all) <==> t in all && CanCallTool(p, user, t)
    ensures ByName(all) ==> ByName(Visible(p, user, all))
    ensures |Visible(p, user, all)| <= |all|
  {
    hide CanCallTool;
    if all != [] {
      var n := |all| - 1;
      VisibleMeaning(p, user, all[..n]);
      assert all == all[..n] + [all[n]];
      var v := Visible(p, user, all[..n]);
      forall i | 0 <= i < |v| && ByName(all)
        ensures Less(v[i].name, all[n].name)
      {
        assert v[i] in all[..n];
      }
    }
  }

  /** The visible tools, said in the fields of policy, tool and caller. */
  lemma VisibleExactly(p: RbacPolicy, user: UserContext, all: seq<Record>)
    ensures forall t :: t in Visible(p, user, all) <==> t in all && MayCall(p, user, t)
  {
    hide Visible, CanCallTool, MayCall;
    VisibleMeaning(p, user, all);
    forall t { CallableExactly(p, user, t); }
  }

  /** A caller with more roles, or under a policy with more rules, sees a
      supersequence: hiding what the lesser caller may not call from the greater
      caller's list leaves exactly the lesser caller's list. */
  lemma {:induction false} VisibleMonotone(p: RbacPolicy, p': RbacPolicy, user: UserContext, user': UserContext,
                                           all: seq<Record>)
    requires Loosens(p, p') && forall r :: r in user.roles ==> r in user'.roles
    ensures Visible(p, user, Visible(p', user', all)) == Visible(p, user, all)
  {
    hide CanCallTool;
    if all != [] {
      var n := |all| - 1;
      var t := all[n];
      VisibleMonotone(p, p', user, user', all[..n]);
      var v := Visible(p', user', all[..n]);
      if CanCallTool(p, user, t) {
        CallMonotone(p, p', user, user', t);
      }
      if CanCallTool(p', user', t) {
        assert (v + [t])[..|v|] == v;
      } else {
        assert v + [] == v;
      }
    }
  }

  lemma CallMonotone(p: RbacPolicy, p': RbacPolicy, user: UserContext, user': UserContext, t: Record)
    requires Loosens(p, p') && forall r :: r in user.roles ==> r in user'.roles
    requires CanCallTool(p, user, t)
    ensures CanCallTool(p', user', t)
  {
    DataPlaneMonotone(p, p', user, user', "tools/call", Some(DefinitionName(t)), ToolResource, t.name,
                      t.tags, t.tags, t.requiredRoles, t.requiredRoles);
  }

  /** What `tools/call` decides before it looks for an endpoint. */
  datatype CallOutcome = NoSuchTool | CallForbidden(reason: string) | Cleared(tool: Record)

  function CallStage(p: RbacPolicy, user: UserContext, tools: map<string, Record>, name: string): CallOutcome {
    if name !in tools then NoSuchTool
    else
      match AuthorizeCall(p, user, tools[name])
      case Err(reason) => CallForbidden(reason)
      case Ok(_) => Cleared(tools[name])
  }

  /** A call is cleared for the tool of that registry name exactly when there is
      one and the caller may call it; otherwise the answer says which failed, the
      policy before the roles. */
  lemma CallStageExactly(p: RbacPolicy, user: UserContext, tools: map<string, Record>, name: string)
    ensures CallStage(p, user, tools, name) ==
      if name !in tools then NoSuchTool
      else if MayCall(p, user, tools[name]) then Cleared(tools[name])
      else
        var t := tools[name];
        CallForbidden(if Permits(p, Data, "tools/call", t.name, t.tags, user.roles) then "required_roles"
                      else "default-deny")
  {
    hide AuthorizeDataPlane, Permits;
    if name in tools {
      var t := tools[name];
      DataPlaneExactly(p, user, "tools/call", Some(DefinitionName(t)), ToolResource, t.name, t.tags, t.requiredRoles);
    }
  }

  /** `all` is the full listing of the tools table. */
  ghost predicate Lists(all: seq<Record>, tools: map<string, Record>) {
    && ByName(all)
    && (forall n :: n in tools ==> tools[n].name == n)
    && forall t :: t in all <==> t.name in tools && tools[t.name] == t
  }

  lemma {:induction false} FlattenMember(pages: seq<seq<Record>>, t: Record)
    ensures t in Flatten(pages) <==> exists i :: 0 <= i < |pages| && t in pages[i]
  {
    if pages != [] {
      FlattenMember(pages[1..], t);
      assert forall i :: 0 < i < |pages| ==> pages[i] == pages[1..][i - 1];
    }
  }

  /** Listing and calling agree: a tool is on some page of a walk, with any page
      sizes, exactly when a call on its registry name is cleared for it. */
  lemma ListedExactlyWhenCallable(p: RbacPolicy, user: UserContext, all: seq<Record>, tools: map<string, Record>,
                                  sizes: nat -> PageSize, t: Record)
    requires Lists(all, tools) && |all| <= MAX_VEC
    ensures |Visible(p, user, all)| <= MAX_VEC
    ensures var pages := Pages(Visible(p, user, all), 0, sizes, 0);
      (exists i :: 0 <= i < |pages| && t in pages[i])
       <==> CallStage(p, user, tools, t.name) == Cleared(t)
  {
    hide Visible, AuthorizeCall, Pages;
    VisibleMeaning(p, user, all);
    var v := Visible(p, user, all);
    PagesPartition(v, 0, sizes, 0);
    assert v[0..] == v;
    FlattenMember(Pages(v, 0, sizes, 0), t);
  }

  /** Clients are shown the definition's name, but calls are routed by registry
      name: calling a listed tool by the name it is listed under is cleared for
      that tool exactly when the two names are the same. */
  lemma ListedNameCallsTool(p: RbacPolicy, user: UserContext, all: seq<Record>, tools: map<string, Record>, t: Record)
    requires Lists(all, tools) && t in Visible(p, user, all) && t.extra.ToolExtra?
    ensures var listed := t.extra.definition.name;
      CallStage(p, user, tools, listed) == Cleared(t) <==> listed == t.name
  {
    hide Visible, AuthorizeCall;
    VisibleMeaning(p, user, all);
  }
}
