/** The two kinds of registered resource, the bodies that create and update
    them, and what those bodies mean for a record. */
module Records {
  import opened Claims
  import opened Wrappers

  type Time = nat
  type Port = n: nat | n < 0x1_0000
  type Replicas = n: nat | n < 0x1_0000_0000

  datatype Kind = Adapter | Tool

  function Other(k: Kind): Kind {
    if k == Adapter then Tool else Adapter
  }

  datatype EnvVar = EnvVar(name: string, value: string)

  datatype SecretRef = SecretRef(name: string, provider: string, key: string)

  datatype Resources = Resources(cpu: Option<string>, memory: Option<string>)

  datatype HealthProbe = HealthProbe(path: string, port: Port)

  datatype SessionAffinity = Sticky | Unpinned

  datatype ToolDefinition = ToolDefinition(
    name: string,
    title: Option<string>,
    description: Option<string>,
    inputSchema: Json,
    annotations: Option<Json>
  )

  /** What only one kind of record has. */
  datatype Extra =
    | AdapterExtra(
        upstream: Option<string>,
        replicas: Replicas,
        health: Option<HealthProbe>,
        affinity: SessionAffinity,
        labels: map<string, string>)
    | ToolExtra(definition: ToolDefinition)

  datatype Record = Record(
    name: string,
    description: Option<string>,
    image: string,
    port: Port,
    path: string,
    env: seq<EnvVar>,
    secretRefs: seq<SecretRef>,
    requiredRoles: seq<string>,
    tags: seq<string>,
    resources: Resources,
    extra: Extra,
    revision: Option<U64>,
    createdAt: Option<Time>,
    updatedAt: Option<Time>
  ) {
    function Kind(): Kind {
      if extra.AdapterExtra? then Adapter else Tool
    }

    /** Whether the deployment provider runs this resource. */
    predicate Managed() {
      extra.AdapterExtra? ==> extra.upstream.None?
    }

    function Upstream(): Option<string> {
      if extra.AdapterExtra? then extra.upstream else None
    }
  }

  datatype ExtraBody =
    | AdapterBody(
        upstream: Option<string>,
        replicas: Replicas,
        health: Option<HealthProbe>,
        affinity: Option<string>,
        labels: map<string, string>)
    | ToolBody(definition: ToolDefinition)

  datatype CreateBody = CreateBody(
    name: string,
    description: Option<string>,
    image: string,
    port: Port,
    path: string,
    env: seq<EnvVar>,
    secretRefs: seq<SecretRef>,
    requiredRoles: seq<string>,
    tags: seq<string>,
    resources: Option<Resources>,
    extra: ExtraBody
  ) {
    function Kind(): Kind {
      if extra.AdapterBody? then Adapter else Tool
    }
  }

  datatype ExtraUpdate =
    | AdapterUpdate(
        upstream: Option<string>,
        replicas: Option<Replicas>,
        health: Option<HealthProbe>,
        affinity: Option<string>,
        labels: Option<map<string, string>>)
    | ToolUpdate(definition: Option<ToolDefinition>)

  datatype UpdateBody = UpdateBody(
    description: Option<string>,
    image: Option<string>,
    port: Option<Port>,
    path: Option<string>,
    env: Option<seq<EnvVar>>,
    secretRefs: Option<seq<SecretRef>>,
    requiredRoles: Option<seq<string>>,
    tags: Option<seq<string>>,
    resources: Option<Resources>,
    extra: ExtraUpdate,
    revision: Option<U64>
  ) {
    function Kind(): Kind {
      if extra.AdapterUpdate? then Adapter else Tool
    }
  }

  function ParseAffinity(s: Option<string>): SessionAffinity {
    if s == Some("none") then Unpinned else Sticky
  }

  /** The record a create request stores. */
  function Fresh(b: CreateBody, now: Time): (r: Record)
    ensures r.name == b.name && r.Kind() == b.Kind() && r.revision == Some(1)
  {
    Record(
      b.name, b.description, b.image, b.port, b.path, b.env, b.secretRefs, b.requiredRoles, b.tags,
      b.resources.GetOr(Resources(None, None)),
      (match b.extra
       case AdapterBody(upstream, replicas, health, affinity, labels) =>
         AdapterExtra(upstream, replicas, health, ParseAffinity(affinity), labels)
       case ToolBody(definition) => ToolExtra(definition)),
      Some(1), Some(now), Some(now))
  }

  /** `revision.unwrap_or(0) + 1` on a u64, which wraps in the release profile. */
  function NextRevision(revision: Option<U64>): U64 {
    (revision.GetOr(0) + 1) % TWO_TO_THE_64
  }

  /** Adapters are only ever updated by adapter bodies and tools by tool
      bodies; a mismatch, which the source's types exclude, changes nothing. */
  function MergeExtra(e: Extra, u: ExtraUpdate): (e': Extra)
    ensures e'.AdapterExtra? <==> e.AdapterExtra?
  {
    match (e, u)
    case (AdapterExtra(upstream, replicas, health, affinity, labels), AdapterUpdate(_, _, _, _, _)) =>
      AdapterExtra(
        u.upstream.Or(upstream),
        u.replicas.GetOr(replicas),
        u.health.Or(health),
        if u.affinity.Some? then ParseAffinity(u.affinity) else affinity,
        u.labels.GetOr(labels))
    case (ToolExtra(definition), ToolUpdate(_)) => ToolExtra(u.definition.GetOr(definition))
    case (_, _) => e
  }

  /** The record an update request stores over `r`: every supplied field, the
      next revision, a new modification time, the old creation time. */
  function Merge(r: Record, b: UpdateBody, now: Time): (r': Record)
    ensures r'.name == r.name && r'.Kind() == r.Kind()
  {
    Record(
      r.name,
      b.description.Or(r.description),
      b.image.GetOr(r.image),
      b.port.GetOr(r.port),
      b.path.GetOr(r.path),
      b.env.GetOr(r.env),
      b.secretRefs.GetOr(r.secretRefs),
      b.requiredRoles.GetOr(r.requiredRoles),
      b.tags.GetOr(r.tags),
      b.resources.GetOr(r.resources),
      MergeExtra(r.extra, b.extra),
      Some(NextRevision(r.revision)),
      r.createdAt,
      Some(now))
  }

  /** The fields that shape a running workload. */
  datatype Tracked = Tracked(
    image: string,
    port: Port,
    path: string,
    env: seq<EnvVar>,
    secretRefs: seq<SecretRef>,
    resources: Resources,
    replicas: Option<Replicas>,
    upstream: Option<string>
  )

  function TrackedOf(r: Record): Tracked {
    Tracked(r.image, r.port, r.path, r.env, r.secretRefs, r.resources,
            if r.extra.AdapterExtra? then Some(r.extra.replicas) else None,
            r.Upstream())
  }

  /** Two records of one kind describe the same workload: the same image, port,
      path, environment, secrets and resources, and for adapters as many
      replicas. */
  predicate SameWorkload(a: Record, b: Record) {
    && a.Kind() == b.Kind()
    && a.image == b.image && a.port == b.port && a.path == b.path
    && a.env == b.env && a.secretRefs == b.secretRefs && a.resources == b.resources
    && (a.extra.AdapterExtra? && b.extra.AdapterExtra? ==> a.extra.replicas == b.extra.replicas)
  }

  lemma SameWorkloads(a: Record, b: Record, c: Record)
    ensures SameWorkload(a, a)
    ensures SameWorkload(a, b) ==> (SameWorkload(b, c) <==> SameWorkload(a, c))
  {
  }

  lemma WorkloadTracked(a: Record, b: Record)
    ensures TrackedOf(a) == TrackedOf(b) <==> SameWorkload(a, b) && a.Upstream() == b.Upstream()
  {
  }

  /** What a record made from a create body holds, field by field. */
  predicate SaysBody(r: Record, b: CreateBody, now: Time) {
    && r.name == b.name && r.description == b.description
    && r.image == b.image && r.port == b.port && r.path == b.path
    && r.env == b.env && r.secretRefs == b.secretRefs
    && r.requiredRoles == b.requiredRoles && r.tags == b.tags
    && r.resources == (if b.resources == None then Resources(None, None) else b.resources.value)
    && r.revision == Some(1) && r.createdAt == Some(now) && r.updatedAt == Some(now)
    && (b.extra.ToolBody? <==> r.extra.ToolExtra?)
    && (b.extra.ToolBody? ==> r.extra.definition == b.extra.definition)
    && (b.extra.AdapterBody? ==>
          && r.extra.upstream == b.extra.upstream && r.extra.replicas == b.extra.replicas
          && r.extra.health == b.extra.health && r.extra.labels == b.extra.labels
          && (r.extra.affinity == Unpinned <==> b.extra.affinity == Some("none")))
  }

  /** A field after an update: what was supplied, or what was there. */
  predicate Settled<T(==)>(after: T, supplied: Option<T>, before: T) {
    (supplied.Some? ==> after == supplied.value) && (supplied.None? ==> after == before)
  }

  /** The same for a field that may be absent, which an update cannot clear. */
  predicate SettledMaybe<T(==)>(after: Option<T>, supplied: Option<T>, before: Option<T>) {
    (supplied.Some? ==> after == supplied) && (supplied.None? ==> after == before)
  }

  /** What an updated record holds, field by field. */
  predicate SaysChanges(r: Record, base: Record, b: UpdateBody, now: Time) {
    && r.name == base.name && r.createdAt == base.createdAt && r.updatedAt == Some(now)
    && SettledMaybe(r.description, b.description, base.description)
    && Settled(r.image, b.image, base.image) && Settled(r.port, b.port, base.port) && Settled(r.path, b.path, base.path)
    && Settled(r.env, b.env, base.env) && Settled(r.secretRefs, b.secretRefs, base.secretRefs)
    && Settled(r.requiredRoles, b.requiredRoles, base.requiredRoles) && Settled(r.tags, b.tags, base.tags)
    && Settled(r.resources, b.resources, base.resources)
    && (match base.revision
        case None => r.revision == Some(1)
        case Some(n) => r.revision == Some(if n == TWO_TO_THE_64 - 1 then 0 else n + 1))
    && (base.extra.ToolExtra? <==> r.extra.ToolExtra?)
    && (base.extra.ToolExtra? && b.extra.ToolUpdate? ==>
          Settled(r.extra.definition, b.extra.definition, base.extra.definition))
    && (base.extra.AdapterExtra? && b.extra.AdapterUpdate? ==>
          && SettledMaybe(r.extra.upstream, b.extra.upstream, base.extra.upstream)
          && Settled(r.extra.replicas, b.extra.replicas, base.extra.replicas)
          && SettledMaybe(r.extra.health, b.extra.health, base.extra.health)
          && Settled(r.extra.labels, b.extra.labels, base.extra.labels)
          && (b.extra.affinity == Some("none") ==> r.extra.affinity == Unpinned)
          && (b.extra.affinity.Some? && b.extra.affinity != Some("none") ==> r.extra.affinity == Sticky)
          && (b.extra.affinity == None ==> r.extra.affinity == base.extra.affinity))
  }

  lemma FreshSaysBody(b: CreateBody, now: Time)
    ensures SaysBody(Fresh(b, now), b, now)
  {
  }

  lemma MergeSaysChanges(base: Record, b: UpdateBody, now: Time)
    ensures SaysChanges(Merge(base, b, now), base, b, now)
  {
  }

  /** The update that supplies every field of a create body. */
  function Everything(b: CreateBody): UpdateBody {
    UpdateBody(
      b.description, Some(b.image), Some(b.port), Some(b.path), Some(b.env), Some(b.secretRefs),
      Some(b.requiredRoles), Some(b.tags), Some(b.resources.GetOr(Resources(None, None))),
      (match b.extra
       case AdapterBody(upstream, replicas, health, affinity, labels) =>
         AdapterUpdate(upstream, Some(replicas), health, Some(affinity.GetOr("sticky")), Some(labels))
       case ToolBody(definition) => ToolUpdate(Some(definition))),
      None)
  }

  /** What a create body leaves out and an update therefore cannot clear. */
  predicate NothingToClear(r: Record, b: CreateBody) {
    && (b.description.None? ==> r.description.None?)
    && (r.extra.AdapterExtra? && b.extra.AdapterBody? ==>
          (b.extra.upstream.None? ==> r.extra.upstream.None?) && (b.extra.health.None? ==> r.extra.health.None?))
  }

  /** Creating a resource and updating one to all of the same body store the
      same record, up to revision and creation time, exactly when the body does
      not leave out something the record has: updates cannot clear a field. */
  lemma FullUpdateMatchesCreate(r: Record, b: CreateBody, now: Time)
    requires r.name == b.name && r.Kind() == b.Kind()
    ensures Merge(r, Everything(b), now)
         == Fresh(b, now).(revision := Some(NextRevision(r.revision)), createdAt := r.createdAt)
       <==> NothingToClear(r, b)
  {
    hide NextRevision;
    var merged := Merge(r, Everything(b), now);
    var created := Fresh(b, now).(revision := Some(NextRevision(r.revision)), createdAt := r.createdAt);
    assert merged == created <==> merged.description == created.description && merged.extra == created.extra;
  }

  /** One update after another amounts to the second laid over the first. */
  function Overlay(a: UpdateBody, b: UpdateBody): UpdateBody {
    UpdateBody(
      b.description.Or(a.description), b.image.Or(a.image), b.port.Or(a.port), b.path.Or(a.path),
      b.env.Or(a.env), b.secretRefs.Or(a.secretRefs), b.requiredRoles.Or(a.requiredRoles), b.tags.Or(a.tags),
      b.resources.Or(a.resources),
      (match (a.extra, b.extra)
       case (AdapterUpdate(_, _, _, _, _), AdapterUpdate(_, _, _, _, _)) =>
         AdapterUpdate(b.extra.upstream.Or(a.extra.upstream), b.extra.replicas.Or(a.extra.replicas),
                       b.extra.health.Or(a.extra.health), b.extra.affinity.Or(a.extra.affinity),
                       b.extra.labels.Or(a.extra.labels))
       case (ToolUpdate(_), ToolUpdate(_)) => ToolUpdate(b.extra.definition.Or(a.extra.definition))
       case (_, _) => b.extra),
      b.revision)
  }

  lemma UpdatesCompose(r: Record, a: UpdateBody, b: UpdateBody, t: Time, t': Time)
    requires r.Kind() == a.Kind() == b.Kind()
    ensures Merge(Merge(r, a, t), b, t')
         == Merge(r, Overlay(a, b), t').(revision := Some(NextRevision(Some(NextRevision(r.revision)))))
  {
  }
}
