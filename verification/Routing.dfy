/** Where requests go: adapter resolution against the history of stored writes,
    and tool listing against every reachable state. */
module Routing {
  import opened Claims
  import opened Interleaving
  import opened Machine
  import opened MetadataStores
  import opened Policy
  import opened Records
  import opened Revisions
  import opened SoloRuns
  import opened ToolRouter
  import opened Wrappers

  datatype ResolvedAdapter =
    ResolvedAdapter(name: string, upstream: string, requiredRoles: seq<string>, tags: seq<string>)

  /** The provider's answer for a handle: none when the query fails. */
  type Endpoints = string -> Option<seq<string>>

  /** Static configuration first, then the record's upstream, then the
      provider's first endpoint; otherwise nothing. */
  function ResolveAdapter(configured: map<string, ResolvedAdapter>, w: World, endpoints: Endpoints, name: string,
                          get: Fault)
    : Result<Option<ResolvedAdapter>, HandlerError>
  {
    if name in configured then Ok(Some(configured[name]))
    else if get.Fails? then Err(StoreFailed)
    else if name !in w.adapters then Ok(None)
    else
      var a := w.adapters[name];
      match a.Upstream()
      case Some(upstream) => Ok(Some(ResolvedAdapter(a.name, upstream, a.requiredRoles, a.tags)))
      case None =>
        match endpoints(a.name)
        case None => Ok(None)
        case Some(urls) =>
          if urls == [] then Ok(None)
          else Ok(Some(ResolvedAdapter(a.name, urls[0], a.requiredRoles, a.tags)))
  }

  /** The upstream a write supplies for the adapter, if any. */
  function Supplied(e: Event, n: string): Option<string> {
    if StoresNew(e, Adapter, n) then if e.body.extra.AdapterBody? then e.body.extra.upstream else None
    else if StoresChange(e, Adapter, n) then if e.changes.extra.AdapterUpdate? then e.changes.extra.upstream else None
    else None
  }

  /** Whether a write starts the adapter's upstream afresh. */
  predicate Resets(e: Event, n: string) {
    StoresNew(e, Adapter, n) || Removes(e, Adapter, n)
  }

  /** The upstream given by the latest stored create or update that gave one,
      since the adapter was last created or removed. */
  function LatestUpstream(log: seq<Event>, n: string): Option<string> {
    if log == [] then None
    else
      var e := log[|log| - 1];
      if Resets(e, n) then Supplied(e, n) else Supplied(e, n).Or(LatestUpstream(log[..|log| - 1], n))
  }

  /** The same with positions. */
  lemma {:induction false} LatestUpstreamMeaning(log: seq<Event>, n: string, u: string)
    ensures LatestUpstream(log, n) == Some(u)
       <==> exists i :: 0 <= i < |log| && Supplied(log[i], n) == Some(u)
              && forall j :: i < j < |log| ==> Supplied(log[j], n).None? && !Resets(log[j], n)
  {
    hide Supplied, Resets;
    if log != [] {
      var m := |log| - 1;
      LatestUpstreamMeaning(log[..m], n, u);
      assert forall i :: 0 <= i < m ==> log[i] == log[..m][i];
      if Resets(log[m], n) || Supplied(log[m], n).Some? {
        assert LatestUpstream(log, n) == Supplied(log[m], n);
      }
    }
  }

  lemma {:induction false} UpstreamIsLatest(log: seq<Event>, n: string)
    requires Sound(log)
    ensures Replay(log, Adapter, n).Some? ==> Replay(log, Adapter, n).value.Upstream() == LatestUpstream(log, n)
    ensures Replay(log, Adapter, n).None? ==> LatestUpstream(log, n).None?
  {
    hide SoundAt;
    if log != [] {
      var m := |log| - 1;
      SoundPrefix(log, m);
      UpstreamIsLatest(log[..m], n);
      ReplayKind(log[..m], Adapter, n);
      UpstreamStep(log, n);
    }
  }

  lemma {:induction false} ReplayKind(log: seq<Event>, k: Kind, n: string)
    ensures Replay(log, k, n).Some? ==> Replay(log, k, n).value.Kind() == k && Replay(log, k, n).value.name == n
  {
    hide Fresh, Merge;
    if log != [] {
      ReplayKind(log[..|log| - 1], k, n);
    }
  }

  lemma UpstreamStep(log: seq<Event>, n: string)
    requires log != [] && SoundAt(log, |log| - 1)
    requires Replay(log[..|log| - 1], Adapter, n).Some? ==> Replay(log[..|log| - 1], Adapter, n).value.Kind() == Adapter
    ensures var before, after := Replay(log[..|log| - 1], Adapter, n), Replay(log, Adapter, n);
      var e := log[|log| - 1];
      && (StoresNew(e, Adapter, n) ==> after.Some? && after.value.Upstream() == Supplied(e, n))
      && (StoresChange(e, Adapter, n) ==>
            before.Some? && after.Some? && after.value.Upstream() == Supplied(e, n).Or(before.value.Upstream()))
      && (Removes(e, Adapter, n) ==> after.None?)
      && (!Writes(e, Adapter, n) ==> after == before)
  {
    hide Replay;
    var before := log[..|log| - 1];
    assert log == before + [log[|log| - 1]];
    ReplayOne(before, log[|log| - 1], Adapter, n);
    hide NextRevision;
  }

  /** What the history says a name routes to. */
  function RouteByHistory(configured: map<string, ResolvedAdapter>, log: seq<Event>, endpoints: Endpoints, name: string)
    : Option<ResolvedAdapter>
  {
    if name in configured then Some(configured[name])
    else
      match Replay(log, Adapter, name)
      case None => None
      case Some(a) =>
        match LatestUpstream(log, name)
        case Some(u) => Some(ResolvedAdapter(name, u, a.requiredRoles, a.tags))
        case None =>
          var urls := endpoints(name).GetOr([]);
          if urls == [] then None else Some(ResolvedAdapter(name, urls[0], a.requiredRoles, a.tags))
  }

  /** Routing follows the writes: in every state a run reaches, a name resolves
      to its static entry, else to the upstream given by the latest stored write
      that gave one in this life of the record, else to the provider's first
      endpoint, else to nothing. */
  lemma RoutesFollowWrites(p: RbacPolicy, actions: seq<Action>, configured: map<string, ResolvedAdapter>,
                           endpoints: Endpoints, name: string)
    ensures var s := Run(p, INITIAL, actions);
      ResolveAdapter(configured, s.world, endpoints, name, Works)
        == Ok(RouteByHistory(configured, s.log, endpoints, name))
    ensures var s := Run(p, INITIAL, actions);
      ResolveAdapter(configured, s.world, endpoints, name, Fails)
        == if name in configured then Ok(Some(configured[name])) else Err(StoreFailed)
  {
    hide Run, Next, Sound, Replay, LatestUpstream, Filed;
    var s := Run(p, INITIAL, actions);
    StoreRefinesWrites(p, actions, Adapter, name);
    UpstreamIsLatest(s.log, name);
    InitiallyReplayed();
    CoherentRun(p, INITIAL, actions);
    if name in s.world.adapters {
      FiledUnder(s.world, Adapter, name);
    }
  }

  /** In every state any interleaving of handlers can reach, a tool shows up on
      some page of a user's listing exactly when that user's call on its
      registry name is cleared for it. */
  lemma ReachableListingAgrees(p: RbacPolicy, moves: seq<Move>, user: UserContext, all: seq<Record>,
                               sizes: nat -> PageSize, t: Record)
    requires var tools := Interleave(p, Crowd(EMPTY_WORLD, map[]), moves).world.tools;
      ByName(all) && |all| <= MAX_VEC && forall r :: r in all <==> r.name in tools && tools[r.name] == r
    ensures |Visible(p, user, all)| <= MAX_VEC
    ensures var pages := Pages(Visible(p, user, all), 0, sizes, 0);
      (exists i :: 0 <= i < |pages| && t in pages[i])
       <==> CallStage(p, user, Interleave(p, Crowd(EMPTY_WORLD, map[]), moves).world.tools, t.name) == Cleared(t)
  {
    hide Interleave, Turn, Visible, Pages, CallStage, SaneTask, Sane;
    RecordsStaySane(p, moves);
    ListedExactlyWhenCallable(p, user, all, Interleave(p, Crowd(EMPTY_WORLD, map[]), moves).world.tools, sizes, t);
  }
}
