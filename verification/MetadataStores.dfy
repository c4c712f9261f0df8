/** The two metadata stores: a BTreeMap in memory, and SQLite rows that keep a
    tags column beside the JSON payload. One table of each is modelled; adapters
    and tools are stored by the same text. */
module MetadataStores {
  import opened Lexicographic
  import opened Records
  import opened Wrappers

  datatype Entry<+T> = Entry(name: string, value: T)

  /** Entries in strictly ascending name order, as a BTreeMap iterates them. */
  ghost predicate Ordered<T>(es: seq<Entry<T>>) {
    forall i, j :: 0 <= i < j < |es| ==> Less(es[i].name, es[j].name)
  }

  /** `BTreeMap::insert`: replace the entry of that name or make room for it. */
  function Insert<T>(es: seq<Entry<T>>, name: string, value: T): seq<Entry<T>> {
    if es == [] || Less(name, es[0].name) then [Entry(name, value)] + es
    else if name == es[0].name then [Entry(name, value)] + es[1..]
    else [es[0]] + Insert(es[1..], name, value)
  }

  function Without<T>(es: seq<Entry<T>>, name: string): seq<Entry<T>> {
    if es == [] then []
    else if es[0].name == name then es[1..]
    else [es[0]] + Without(es[1..], name)
  }

  function Find<T>(es: seq<Entry<T>>, name: string): Option<T> {
    if es == [] then None
    else if es[0].name == name then Some(es[0].value)
    else Find(es[1..], name)
  }

  lemma {:induction false} FindNone<T>(es: seq<Entry<T>>, name: string)
    ensures Find(es, name).None? <==> forall i :: 0 <= i < |es| ==> es[i].name != name
  {
    if es != [] {
      FindNone(es[1..], name);
      assert forall i :: 0 < i < |es| ==> es[i] == es[1..][i - 1];
    }
  }

  lemma {:induction false} FindInsert<T>(es: seq<Entry<T>>, name: string, value: T, n: string)
    requires Ordered(es)
    ensures Find(Insert(es, name, value), n) == if n == name then Some(value) else Find(es, n)
  {
    if es != [] && !Less(name, es[0].name) && name != es[0].name {
      FindInsert(es[1..], name, value, n);
    } else if es != [] && name == es[0].name {
      assert ([Entry(name, value)] + es[1..])[1..] == es[1..];
    } else {
      assert ([Entry(name, value)] + es)[1..] == es;
    }
  }

  lemma {:induction false} InsertOrdered<T>(es: seq<Entry<T>>, name: string, value: T)
    requires Ordered(es)
    ensures Ordered(Insert(es, name, value))
  {
    if es == [] {
    } else if Less(name, es[0].name) {
      forall j | 0 <= j < |es|
        ensures Less(name, es[j].name)
      {
        if j > 0 { LessTransitive(name, es[0].name, es[j].name); }
      }
    } else if name == es[0].name {
    } else {
      LessTotal(name, es[0].name);
      InsertOrdered(es[1..], name, value);
      InsertNames(es[1..], name, value);
    }
  }

  lemma {:induction false} InsertNames<T>(es: seq<Entry<T>>, name: string, value: T)
    ensures forall i :: 0 <= i < |Insert(es, name, value)| ==>
      Insert(es, name, value)[i].name == name || exists j :: 0 <= j < |es| && es[j] == Insert(es, name, value)[i]
  {
    if es != [] && !Less(name, es[0].name) && name != es[0].name {
      InsertNames(es[1..], name, value);
      var rest := Insert(es[1..], name, value);
      forall i | 0 <= i < |rest| && rest[i].name != name
        ensures exists j :: 0 <= j < |es| && es[j] == rest[i]
      {
        var j :| 0 <= j < |es[1..]| && es[1..][j] == rest[i];
        assert es[j + 1] == rest[i];
      }
    }
  }

  lemma {:induction false} WithoutOrdered<T>(es: seq<Entry<T>>, name: string)
    requires Ordered(es)
    ensures Ordered(Without(es, name))
    ensures forall i :: 0 <= i < |Without(es, name)| ==> Without(es, name)[i] in es
  {
    if es != [] && es[0].name != name {
      WithoutOrdered(es[1..], name);
    }
  }

  lemma {:induction false} FindWithout<T>(es: seq<Entry<T>>, name: string, n: string)
    requires Ordered(es)
    ensures Find(Without(es, name), n) == if n == name then None else Find(es, n)
  {
    if es != [] {
      if es[0].name == name {
        FindNone(es[1..], name);
        forall i | 0 < i < |es| ensures es[i].name != name { LessIrreflexive(name); }
      } else {
        FindWithout(es[1..], name, n);
      }
    }
  }

  lemma NotAgain<T>(a: seq<Entry<T>>)
    requires Ordered(a) && a != []
    ensures Find(a[1..], a[0].name).None?
  {
    FindNone(a[1..], a[0].name);
    LessIrreflexive(a[0].name);
  }

  predicate MatchesFilter(tags: seq<string>, filter: seq<string>) {
    filter == [] || forall t :: t in filter ==> t in tags
  }

  /** The records of the entries that match, in order. */
  function Listing(es: seq<Entry<Record>>, filter: seq<string>): seq<Record> {
    if es == [] then []
    else (if MatchesFilter(es[0].value.tags, filter) then [es[0].value] else []) + Listing(es[1..], filter)
  }

  lemma EmptyFilterMatches(tags: seq<string>, filter: seq<string>)
    ensures filter == [] ==> MatchesFilter(tags, filter)
  {
  }

  lemma NothingListed(filter: seq<string>)
    ensures Listing([], filter) == []
  {
  }

  lemma Regroup<T>(a: seq<T>, x: T, b: seq<T>)
    ensures a + [x] + b == a + ([x] + b)
  {
  }

  lemma ListingFrom(es: seq<Entry<Record>>, i: nat, filter: seq<string>)
    requires i < |es|
    ensures Listing(es[i..], filter)
         == (if MatchesFilter(es[i].value.tags, filter) then [es[i].value] else []) + Listing(es[i + 1..], filter)
  {
    assert es[i..][1..] == es[i + 1..];
  }

  /** Every entry sits under its record's own name. */
  ghost predicate UnderOwnNames(es: seq<Entry<Record>>) {
    forall i :: 0 <= i < |es| ==> es[i].value.name == es[i].name
  }

  /** Records in strictly ascending name order, as the stores list them. */
  ghost predicate ByName(rs: seq<Record>) {
    forall i, j :: 0 <= i < j < |rs| ==> Less(rs[i].name, rs[j].name)
  }

  /** A listing holds exactly the stored records that carry every tag asked
      for. */
  lemma {:induction false} ListingMeaning(es: seq<Entry<Record>>, filter: seq<string>, r: Record)
    ensures r in Listing(es, filter)
       <==> exists i :: 0 <= i < |es| && es[i].value == r && forall t :: t in filter ==> t in r.tags
  {
    if es != [] {
      ListingMeaning(es[1..], filter, r);
      assert forall i :: 0 < i < |es| ==> es[i] == es[1..][i - 1];
    }
  }

  /** An entry is stored exactly when looking its name up finds it. */
  lemma {:induction false} StoredFound(es: seq<Entry<Record>>, r: Record)
    requires Ordered(es) && UnderOwnNames(es)
    ensures Find(es, r.name) == Some(r) <==> exists i :: 0 <= i < |es| && es[i].value == r
  {
    if es != [] {
      StoredFound(es[1..], r);
      assert forall i :: 0 < i < |es| ==> es[i] == es[1..][i - 1];
      if es[0].name == r.name {
        LessIrreflexive(r.name);
      }
    }
  }

  lemma {:induction false} ListingByName(es: seq<Entry<Record>>, filter: seq<string>)
    requires Ordered(es) && UnderOwnNames(es)
    ensures ByName(Listing(es, filter))
  {
    if es != [] {
      ListingByName(es[1..], filter);
      var rest := Listing(es[1..], filter);
      forall j | 0 <= j < |rest|
        ensures Less(es[0].value.name, rest[j].name)
      {
        ListingMeaning(es[1..], filter, rest[j]);
      }
    }
  }

  lemma {:induction false} InsertUnderOwnNames(es: seq<Entry<Record>>, r: Record)
    requires UnderOwnNames(es)
    ensures UnderOwnNames(Insert(es, r.name, r))
  {
    if es != [] && !Less(r.name, es[0].name) && r.name != es[0].name {
      InsertUnderOwnNames(es[1..], r);
    }
  }

  /** Storing a record displaces the one of its name and no other, so a listing
      grows, losing nothing it had, exactly when the name was free or already
      held that very record. */
  lemma InsertGrowsListing(es: seq<Entry<Record>>, r: Record)
    requires Ordered(es) && UnderOwnNames(es)
    ensures var before, after := Listing(es, []), Listing(Insert(es, r.name, r), []);
      && ByName(before) && ByName(after)
      && (forall t :: t in after <==> t == r || (t in before && t.name != r.name))
      && ((forall t :: t in before ==> t in after) <==> Find(es, r.name).Or(Some(r)) == Some(r))
  {
    hide Find, Insert, Listing, MatchesFilter;
    var es' := Insert(es, r.name, r);
    InsertOrdered(es, r.name, r);
    InsertUnderOwnNames(es, r);
    ListingByName(es, []);
    ListingByName(es', []);
    forall t
      ensures t in Listing(es, []) <==> Find(es, t.name) == Some(t)
      ensures t in Listing(es', []) <==> t == r || (t in Listing(es, []) && t.name != r.name)
    {
      ListingMeaning(es, [], t);
      ListingMeaning(es', [], t);
      StoredFound(es, t);
      StoredFound(es', t);
      FindInsert(es, r.name, r, t.name);
    }
    if Find(es, r.name).Some? {
      FoundName(es, r.name);
      assert Find(es, r.name).value in Listing(es, []);
    }
  }

  lemma {:induction false} FoundName(es: seq<Entry<Record>>, name: string)
    requires UnderOwnNames(es) && Find(es, name).Some?
    ensures Find(es, name).value.name == name
  {
    if es[0].name != name {
      FoundName(es[1..], name);
    }
  }

  class InMemoryTable {
    var entries: seq<Entry<Record>>

    ghost predicate Valid()
      reads this
    {
      Ordered(entries) && UnderOwnNames(entries)
    }

    constructor ()
      ensures Valid() && entries == []
    {
      entries := [];
    }

    method Put(r: Record)
      requires Valid()
      modifies this
      ensures Valid() && entries == Insert(old(entries), r.name, r)
    {
      InsertOrdered(entries, r.name, r);
      InsertUnderOwnNames(entries, r);
      entries := Insert(entries, r.name, r);
    }

    method Get(name: string) returns (r: Option<Record>)
      requires Valid()
      ensures r == Find(entries, name)
    {
      r := Find(entries, name);
    }

    /** The stored records that carry every tag asked for, in ascending name
        order. */
    method List(filter: seq<string>) returns (rs: seq<Record>)
      requires Valid()
      ensures ByName(rs)
      ensures forall r :: r in rs <==> Find(entries, r.name) == Some(r) && forall t :: t in filter ==> t in r.tags
      ensures rs == Listing(entries, filter)
    {
      rs := Listing(entries, filter);
      ListingByName(entries, filter);
      forall r
        ensures r in rs <==> Find(entries, r.name) == Some(r) && forall t :: t in filter ==> t in r.tags
      {
        ListingMeaning(entries, filter, r);
        StoredFound(entries, r);
      }
    }

    method Delete(name: string)
      requires Valid()
      modifies this
      ensures Valid() && entries == Without(old(entries), name)
    {
      WithoutOrdered(entries, name);
      entries := Without(entries, name);
    }
  }

  /** The JSON codec, of which only the inverse law is used. */
  datatype Codec = Codec(
    encode: Record -> string,
    decode: string -> Option<Record>,
    encodeTags: seq<string> -> string,
    decodeTags: string -> Option<seq<string>>
  ) {
    ghost predicate Inverse() {
      && (forall r {:trigger encode(r)} :: decode(encode(r)) == Some(r))
      && (forall ts {:trigger encodeTags(ts)} :: decodeTags(encodeTags(ts)) == Some(ts))
    }
  }

  datatype Row = Row(name: string, tags: string, payload: string, revision: int, updatedAt: Time)

  const I64_LIMIT: int := 0x8000_0000_0000_0000

  /** `i64::try_from(revision.unwrap_or(1)).unwrap_or(1)`. */
  function RowRevision(r: Record): int {
    var n := r.revision.GetOr(1);
    if n < I64_LIMIT then n else 1
  }

  /** The row of a name; the primary key leaves at most one. */
  function RowFor(rows: seq<Row>, name: string): Option<Row> {
    if rows == [] then None
    else if rows[|rows| - 1].name == name then Some(rows[|rows| - 1])
    else RowFor(rows[..|rows| - 1], name)
  }

  ghost predicate PrimaryKey(rows: seq<Row>) {
    forall i, j :: 0 <= i < j < |rows| ==> rows[i].name != rows[j].name
  }

  /** `ORDER BY name`. */
  function OrderByName(rows: seq<Row>): seq<Entry<Row>> {
    if rows == [] then []
    else Insert(OrderByName(rows[..|rows| - 1]), rows[|rows| - 1].name, rows[|rows| - 1])
  }

  lemma {:induction false} RowForAt(rows: seq<Row>, i: nat)
    requires PrimaryKey(rows) && i < |rows|
    ensures RowFor(rows, rows[i].name) == Some(rows[i])
  {
    if i < |rows| - 1 {
      RowForAt(rows[..|rows| - 1], i);
    }
  }

  lemma {:induction false} RowForNone(rows: seq<Row>, name: string)
    ensures RowFor(rows, name).None? <==> forall i :: 0 <= i < |rows| ==> rows[i].name != name
    ensures RowFor(rows, name).Some? ==> RowFor(rows, name).value.name == name
  {
    if rows != [] {
      RowForNone(rows[..|rows| - 1], name);
    }
  }

  lemma {:induction false} OrderByNameSorts(rows: seq<Row>)
    ensures Ordered(OrderByName(rows))
    ensures forall n :: Find(OrderByName(rows), n) == RowFor(rows, n)
  {
    if rows != [] {
      var m := |rows| - 1;
      OrderByNameSorts(rows[..m]);
      InsertOrdered(OrderByName(rows[..m]), rows[m].name, rows[m]);
      forall n
        ensures Find(OrderByName(rows), n) == RowFor(rows, n)
      {
        FindInsert(OrderByName(rows[..m]), rows[m].name, rows[m], n);
      }
    }
  }

  /** Updating the row that has the name, or appending one, changes that one
      lookup. */
  lemma UpsertLookup(rows: seq<Row>, i: nat, row: Row, n: string)
    requires PrimaryKey(rows) && i < |rows| && rows[i].name == row.name
    ensures PrimaryKey(rows[i := row])
    ensures RowFor(rows[i := row], n) == if n == row.name then Some(row) else RowFor(rows, n)
  {
    var rows' := rows[i := row];
    assert forall k :: 0 <= k < |rows| ==> rows'[k].name == rows[k].name;
    RowForNone(rows, n);
    RowForNone(rows', n);
    if k :| 0 <= k < |rows'| && rows'[k].name == n {
      RowForAt(rows', k);
      RowForAt(rows, k);
    }
  }

  lemma AppendLookup(rows: seq<Row>, row: Row, n: string)
    requires PrimaryKey(rows) && RowFor(rows, row.name).None?
    ensures PrimaryKey(rows + [row])
    ensures RowFor(rows + [row], n) == if n == row.name then Some(row) else RowFor(rows, n)
  {
    RowForNone(rows, row.name);
    assert (rows + [row])[..|rows|] == rows;
  }

  /** What a row means: its payload, with the redundant tags column equal to the
      tags inside it. */
  ghost predicate Encodes(c: Codec, row: Row, r: Record) {
    && row.name == r.name
    && c.decode(row.payload) == Some(r)
    && c.decodeTags(row.tags) == Some(r.tags)
    && row.revision == RowRevision(r)
  }

  ghost predicate Stores(c: Codec, rows: seq<Row>, contents: seq<Entry<Record>>) {
    forall n ::
      match Find(contents, n)
      case None => RowFor(rows, n).None?
      case Some(r) => RowFor(rows, n).Some? && Encodes(c, RowFor(rows, n).value, r)
  }

  datatype StoreError = JsonDecode

  class SqliteTable {
    const codec: Codec
    var rows: seq<Row>
    /** The records the rows encode, in name order. */
    ghost var contents: seq<Entry<Record>>

    ghost predicate Valid()
      reads this
    {
      codec.Inverse() && PrimaryKey(rows) && Ordered(contents) && Stores(codec, rows, contents)
    }

    constructor (codec: Codec)
      requires codec.Inverse()
      ensures Valid() && contents == [] && this.codec == codec
    {
      this.codec := codec;
      rows := [];
      contents := [];
    }

    /** INSERT ... ON CONFLICT(name) DO UPDATE. */
    method Put(r: Record, now: Time)
      requires Valid()
      modifies this
      ensures Valid() && contents == Insert(old(contents), r.name, r)
      ensures var stored := RowFor(rows, r.name);
        && stored.Some? && stored.value.name == r.name && stored.value.updatedAt == now
        && stored.value.payload == codec.encode(r) && stored.value.tags == codec.encodeTags(r.tags)
        && (r.revision.Some? && r.revision.value < 0x8000_0000_0000_0000 ==> stored.value.revision == r.revision.value)
        && (r.revision.None? || r.revision.value >= 0x8000_0000_0000_0000 ==> stored.value.revision == 1)
    {
      var row := Row(r.name, codec.encodeTags(r.tags), codec.encode(r), RowRevision(r), now);
      var i := 0;
      while i < |rows| && rows[i].name != r.name
        invariant 0 <= i <= |rows|
        invariant forall k :: 0 <= k < i ==> rows[k].name != r.name
      {
        i := i + 1;
      }
      ghost var before := rows;
      if i < |rows| {
        UpsertLookup(before, i, row, r.name);
        forall n { UpsertLookup(before, i, row, n); }
        rows := rows[i := row];
      } else {
        RowForNone(rows, r.name);
        AppendLookup(before, row, r.name);
        forall n { AppendLookup(before, row, n); }
        rows := rows + [row];
      }
      assert Encodes(codec, row, r);
      assert forall n :: RowFor(rows, n) == if n == r.name then Some(row) else RowFor(before, n);
      InsertOrdered(contents, r.name, r);
      forall n { FindInsert(contents, r.name, r, n); }
      ghost var held := contents;
      contents := Insert(contents, r.name, r);
      assert forall n :: Find(contents, n) == if n == r.name then Some(r) else Find(held, n);
    }

    /** SELECT payload ... WHERE name. */
    method Get(name: string) returns (r: Result<Option<Record>, StoreError>)
      requires Valid()
      ensures r == Ok(Find(contents, name))
    {
      var i := 0;
      while i < |rows|
        invariant 0 <= i <= |rows|
        invariant forall k :: 0 <= k < i ==> rows[k].name != name
      {
        if rows[i].name == name {
          RowForAt(rows, i);
          match codec.decode(rows[i].payload) {
            case Some(rec) => return Ok(Some(rec));
            case None => return Err(JsonDecode);
          }
        }
        i := i + 1;
      }
      RowForNone(rows, name);
      return Ok(None);
    }

    /** SELECT payload, tags ... ORDER BY name, filtered on the tags column. */
    method List(filter: seq<string>) returns (r: Result<seq<Record>, StoreError>)
      requires Valid()
      ensures r == Ok(Listing(contents, filter))
    {
      hide Listing, OrderByName, MatchesFilter;
      var sorted := OrderByName(rows);
      SortedRowsMatch(codec, rows, contents);
      var out := [];
      assert contents[0..] == contents;
      for i := 0 to |sorted|
        invariant out + Listing(contents[i..], filter) == Listing(contents, filter)
      {
        var row := sorted[i].value;
        ghost var r := contents[i].value;
        assert Encodes(codec, row, r);
        ListingFrom(contents, i, filter);
        var tags := codec.decodeTags(row.tags);
        if tags.None? {
          return Err(JsonDecode);
        }
        if filter != [] && !MatchesFilter(tags.value, filter) {
          continue;
        }
        EmptyFilterMatches(r.tags, filter);
        var payload := codec.decode(row.payload);
        if payload.None? {
          return Err(JsonDecode);
        }
        Regroup(out, r, Listing(contents[i + 1..], filter));
        out := out + [payload.value];
      }
      assert contents[|sorted|..] == [];
      NothingListed(filter);
      assert out + [] == out;
      return Ok(out);
    }

    method Delete(name: string)
      requires Valid()
      modifies this
      ensures Valid() && contents == Without(old(contents), name)
    {
      ghost var before := rows;
      var kept := [];
      for i := 0 to |rows|
        invariant kept == Keeping(rows[..i], name)
      {
        assert rows[..i + 1][..i] == rows[..i];
        if rows[i].name != name {
          kept := kept + [rows[i]];
        }
      }
      assert rows[..|rows|] == rows;
      rows := kept;
      KeepingKeys(before, name);
      WithoutOrdered(contents, name);
      forall n { FindWithout(contents, name, n); }
      contents := Without(contents, name);
    }
  }

  function Keeping(rows: seq<Row>, name: string): seq<Row> {
    if rows == [] then []
    else
      var last := rows[|rows| - 1];
      Keeping(rows[..|rows| - 1], name) + (if last.name != name then [last] else [])
  }

  lemma {:induction false} KeepingKeys(rows: seq<Row>, name: string)
    requires PrimaryKey(rows)
    ensures PrimaryKey(Keeping(rows, name))
    ensures forall row :: row in Keeping(rows, name) ==> row in rows
    ensures forall n :: RowFor(Keeping(rows, name), n) == if n == name then None else RowFor(rows, n)
  {
    if rows != [] {
      var m := |rows| - 1;
      KeepingKeys(rows[..m], name);
      var kept := Keeping(rows[..m], name);
      if rows[m].name != name {
        assert forall i :: 0 <= i < |kept| ==> kept[i] in rows[..m];
        assert forall k :: 0 <= k < m ==> rows[k].name != rows[m].name;
        assert (kept + [rows[m]])[..|kept|] == kept;
      } else {
        assert kept + [] == kept;
      }
    }
  }

  /** Row by row, the ordered rows encode the ordered contents. */
  lemma SortedRowsMatch(c: Codec, rows: seq<Row>, contents: seq<Entry<Record>>)
    requires c.Inverse() && Ordered(contents) && Stores(c, rows, contents)
    ensures var sorted := OrderByName(rows);
      |sorted| == |contents| && forall i :: 0 <= i < |sorted| ==> Encodes(c, sorted[i].value, contents[i].value)
  {
    OrderByNameSorts(rows);
    SortedEntriesMatch(c, OrderByName(rows), contents);
  }

  lemma {:induction false} SortedEntriesMatch(c: Codec, sorted: seq<Entry<Row>>, contents: seq<Entry<Record>>)
    requires Ordered(sorted) && Ordered(contents)
    requires forall n ::
      match Find(contents, n)
      case None => Find(sorted, n).None?
      case Some(r) => Find(sorted, n).Some? && Encodes(c, Find(sorted, n).value, r)
    ensures |sorted| == |contents| && forall i :: 0 <= i < |sorted| ==> Encodes(c, sorted[i].value, contents[i].value)
    decreases |sorted|
  {
    if sorted == [] || contents == [] {
      if contents != [] { assert Find(contents, contents[0].name).Some?; }
      if sorted != [] { assert Find(sorted, sorted[0].name).Some?; }
    } else {
      assert Find(sorted, sorted[0].name).Some? && Find(contents, sorted[0].name).Some?;
      assert Find(contents, contents[0].name).Some? && Find(sorted, contents[0].name).Some?;
      FindNone(contents, sorted[0].name);
      FindNone(sorted, contents[0].name);
      FirstsAgree(sorted, contents);
      NotAgain(sorted);
      NotAgain(contents);
      forall n
        ensures match Find(contents[1..], n)
                case None => Find(sorted[1..], n).None?
                case Some(r) => Find(sorted[1..], n).Some? && Encodes(c, Find(sorted[1..], n).value, r)
      {
        if n != sorted[0].name {
          assert Find(contents, n) == Find(contents[1..], n) && Find(sorted, n) == Find(sorted[1..], n);
        }
      }
      SortedEntriesMatch(c, sorted[1..], contents[1..]);
    }
  }

  lemma FirstsAgree<T, U>(a: seq<Entry<T>>, b: seq<Entry<U>>)
    requires Ordered(a) && Ordered(b) && a != [] && b != []
    requires exists i :: 0 <= i < |b| && b[i].name == a[0].name
    requires exists j :: 0 <= j < |a| && a[j].name == b[0].name
    ensures a[0].name == b[0].name
  {
    var i :| 0 <= i < |b| && b[i].name == a[0].name;
    var j :| 0 <= j < |a| && a[j].name == b[0].name;
    if i > 0 && j > 0 {
      LessAsymmetric(b[0].name, a[0].name);
    }
  }

  datatype StoreOp =
    | PutOp(record: Record, now: Time)
    | GetOp(name: string)
    | ListOp(filter: seq<string>)
    | DeleteOp(name: string)

  datatype Answer = Stored | Found(record: Option<Record>) | Listed(records: seq<Record>) | Unreadable

  function AfterOp(es: seq<Entry<Record>>, op: StoreOp): seq<Entry<Record>> {
    match op
    case PutOp(r, _) => Insert(es, r.name, r)
    case DeleteOp(name) => Without(es, name)
    case _ => es
  }

  function Reply(es: seq<Entry<Record>>, op: StoreOp): Answer {
    match op
    case GetOp(name) => Found(Find(es, name))
    case ListOp(filter) => Listed(Listing(es, filter))
    case _ => Stored
  }

  function AfterOps(es: seq<Entry<Record>>, ops: seq<StoreOp>): seq<Entry<Record>> {
    if ops == [] then es else AfterOp(AfterOps(es, ops[..|ops| - 1]), ops[|ops| - 1])
  }

  method RunOne(mem: InMemoryTable, sql: SqliteTable, op: StoreOp) returns (a: Answer, b: Answer)
    requires mem.Valid() && sql.Valid() && mem.entries == sql.contents
    modifies mem, sql
    ensures mem.Valid() && sql.Valid() && mem.entries == sql.contents
    ensures mem.entries == AfterOp(old(mem.entries), op)
    ensures a == b == Reply(old(mem.entries), op)
  {
    hide Insert, Without, Find, Listing;
    match op {
      case PutOp(r, now) =>
        mem.Put(r);
        sql.Put(r, now);
        a, b := Stored, Stored;
      case GetOp(name) =>
        var x := mem.Get(name);
        var y := sql.Get(name);
        a := Found(x);
        b := if y.Ok? then Found(y.value) else Unreadable;
      case ListOp(filter) =>
        var x := mem.List(filter);
        var y := sql.List(filter);
        a := Listed(x);
        b := if y.Ok? then Listed(y.value) else Unreadable;
      case DeleteOp(name) =>
        mem.Delete(name);
        sql.Delete(name);
        a, b := Stored, Stored;
    }
  }

  /** The two stores are observationally equal: over any run of operations from
      equal contents they give the same answers, in the same name order, the
      SQL store never fails to read what it wrote, and the answers are those of
      the ordered contents. */
  method RunBoth(mem: InMemoryTable, sql: SqliteTable, ops: seq<StoreOp>) returns (a: seq<Answer>, b: seq<Answer>)
    requires mem.Valid() && sql.Valid() && mem.entries == sql.contents
    modifies mem, sql
    ensures mem.Valid() && sql.Valid() && mem.entries == sql.contents
    ensures mem.entries == AfterOps(old(mem.entries), ops)
    ensures a == b && |a| == |ops|
    ensures forall i :: 0 <= i < |ops| ==> a[i] == Reply(AfterOps(old(mem.entries), ops[..i]), ops[i])
  {
    hide AfterOp, Reply;
    a, b := [], [];
    ghost var start := mem.entries;
    for i := 0 to |ops|
      invariant mem.Valid() && sql.Valid() && mem.entries == sql.contents
      invariant mem.entries == AfterOps(start, ops[..i])
      invariant a == b && |a| == i
      invariant forall k :: 0 <= k < i ==> a[k] == Reply(AfterOps(start, ops[..k]), ops[k])
    {
      var x, y := RunOne(mem, sql, ops[i]);
      a, b := a + [x], b + [y];
      assert ops[..i + 1][..i] == ops[..i];
    }
    assert ops[..|ops|] == ops;
  }
}
