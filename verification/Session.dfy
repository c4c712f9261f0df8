/** The in-memory session store: sticky routes with a time to live, refined
    against the history of binds and drops. */
module Session {
  import opened Wrappers

  type Instant = nat

  datatype Entry = Entry(backend: string, expiresAt: Instant)

  datatype Event =
    | Bound(session: string, adapter: string, backend: string, at: Instant, ttl: nat)
    | Dropped(session: string)

  /** Whether `e` replaces or removes the route of (session, adapter). */
  predicate Settles(e: Event, session: string, adapter: string) {
    e.session == session && (e.Bound? ==> e.adapter == adapter)
  }

  /** The last event that settled the route, if any did. */
  function LastSettled(history: seq<Event>, session: string, adapter: string): Option<Event> {
    if history == [] then None
    else if Settles(history[|history| - 1], session, adapter) then Some(history[|history| - 1])
    else LastSettled(history[..|history| - 1], session, adapter)
  }

  /** What the history says a lookup at `now` must answer. */
  function Answer(history: seq<Event>, session: string, adapter: string, now: Instant): Option<string> {
    match LastSettled(history, session, adapter)
    case Some(Bound(_, _, backend, at, ttl)) => if now < at + ttl then Some(backend) else None
    case _ => None
  }

  class InMemorySessionStore {
    var inner: map<(string, string), Entry>
    ghost var history: seq<Event>

    ghost predicate Valid()
      reads this
    {
      forall s, a ::
        match LastSettled(history, s, a)
        case Some(Bound(_, _, backend, at, ttl)) => (s, a) in inner && inner[(s, a)] == Entry(backend, at + ttl)
        case _ => (s, a) !in inner
    }

    constructor ()
      ensures Valid() && history == []
    {
      inner := map[];
      history := [];
    }

    method Resolve(session: string, adapter: string, now: Instant) returns (r: Option<string>)
      requires Valid()
      ensures r == Answer(history, session, adapter, now)
    {
      var key := (session, adapter);
      if key in inner && inner[key].expiresAt > now {
        return Some(inner[key].backend);
      }
      return None;
    }

    method Bind(session: string, adapter: string, backend: string, ttl: nat, now: Instant)
      requires Valid()
      modifies this
      ensures Valid()
      ensures history == old(history) + [Bound(session, adapter, backend, now, ttl)]
    {
      inner := inner[(session, adapter) := Entry(backend, now + ttl)];
      history := history + [Bound(session, adapter, backend, now, ttl)];
      assert history[..|history| - 1] == old(history);
    }

    method DropSession(session: string)
      requires Valid()
      modifies this
      ensures Valid()
      ensures history == old(history) + [Dropped(session)]
    {
      inner := map k | k in inner && k.0 != session :: inner[k];
      history := history + [Dropped(session)];
      assert history[..|history| - 1] == old(history);
    }
  }

  /** The answer, said with positions: it is the backend of a bind that no
      later bind of the same route and no later drop of the same session
      follows, and whose time to live has not run out. No assumption about the
      clock is needed. */
  lemma {:induction false} AnswerMeaning(history: seq<Event>, s: string, a: string, now: Instant, backend: string)
    ensures Answer(history, s, a, now) == Some(backend)
       <==> exists i :: 0 <= i < |history|
              && history[i].Bound? && Settles(history[i], s, a)
              && history[i].backend == backend && now < history[i].at + history[i].ttl
              && forall j :: i < j < |history| ==> !Settles(history[j], s, a)
  {
    if history != [] {
      var n := |history| - 1;
      if !Settles(history[n], s, a) {
        AnswerMeaning(history[..n], s, a, now, backend);
        assert forall i :: 0 <= i < n ==> history[i] == history[..n][i];
      }
    }
  }

  /** Dropping a session empties its routes and touches no other session's. */
  lemma DropIsIsolated(history: seq<Event>, dropped: string, s: string, a: string, now: Instant)
    ensures Answer(history + [Dropped(dropped)], s, a, now)
         == if s == dropped then None else Answer(history, s, a, now)
  {
    assert (history + [Dropped(dropped)])[..|history|] == history;
  }

  /** A bind decides its own route and no other. */
  lemma BindIsIsolated(history: seq<Event>, e: Event, s: string, a: string, now: Instant)
    requires e.Bound?
    ensures Answer(history + [e], s, a, now)
         == if e.session == s && e.adapter == a
            then if now < e.at + e.ttl then Some(e.backend) else None
            else Answer(history, s, a, now)
  {
    assert (history + [e])[..|history|] == history;
  }
}
