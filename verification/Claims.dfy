/** Claim extraction: dotted paths into a token's claims, and the canonical
    role and group lists built from them. */
module Claims {
  import opened Lexicographic
  import opened Text
  import opened Wrappers

  datatype Json =
    | Null
    | Bool(value: bool)
    | Number(literal: string)
    | Str(text: string)
    | Array(items: seq<Json>)
    | Object(fields: map<string, Json>)

  datatype UserContext = UserContext(
    sub: string,
    tenant: Option<string>,
    roles: seq<string>,
    groups: seq<string>,
    scopes: seq<string>,
    claims: Json
  )

  datatype ClaimExtractor = ClaimExtractor(
    rolePaths: seq<string>,
    groupPaths: seq<string>,
    tenantPath: Option<string>,
    scopesPath: string
  )

  /** `Value::get` with a string key: only objects have members. */
  function Member(v: Json, key: string): Option<Json> {
    if v.Object? && key in v.fields then Some(v.fields[key]) else None
  }

  /** Member access along a list of keys. */
  function Walk(v: Json, keys: seq<string>): Option<Json>
    decreases |keys|
  {
    if keys == [] then Some(v)
    else
      match Member(v, keys[0])
      case None => None
      case Some(next) => Walk(next, keys[1..])
  }

  function PathValue(v: Json, path: string): Option<Json> {
    Walk(v, Split(path, '.'))
  }

  method GetPath(v: Json, path: string) returns (r: Option<Json>)
    ensures r == PathValue(v, path)
  {
    var cur := v;
    var segments := Split(path, '.');
    for i := 0 to |segments|
      invariant Walk(v, segments) == Walk(cur, segments[i..])
    {
      match Member(cur, segments[i]) {
        case None => return None;
        case Some(next) => cur := next;
      }
    }
    return Some(cur);
  }

  lemma {:induction false} WalkConcat(v: Json, a: seq<string>, b: seq<string>)
    ensures Walk(v, a + b) == match Walk(v, a) case None => None case Some(w) => Walk(w, b)
    decreases |a|
  {
    if a == [] {
      assert a + b == b;
    } else {
      assert (a + b)[1..] == a[1..] + b;
      if Member(v, a[0]).Some? {
        WalkConcat(Member(v, a[0]).value, a[1..], b);
      }
    }
  }

  /** A dotted path is the composition of its halves, wherever it is cut and
      whatever characters the halves contain. */
  lemma DottedPathComposes(v: Json, p: string, q: string)
    ensures PathValue(v, p + ("." + q))
         == match PathValue(v, p) case None => None case Some(w) => PathValue(w, q)
  {
    SplitConcat(p, q, '.');
    WalkConcat(v, Split(p, '.'), Split(q, '.'));
  }

  /** Where a list of keys leads: from object to object, member by member. */
  ghost predicate Leads(v: Json, keys: seq<string>, w: Json)
    decreases |keys|
  {
    if keys == [] then v == w
    else v.Object? && keys[0] in v.fields && Leads(v.fields[keys[0]], keys[1..], w)
  }

  lemma {:induction false} WalkLeads(v: Json, keys: seq<string>, w: Json)
    ensures Walk(v, keys) == Some(w) <==> Leads(v, keys, w)
    decreases |keys|
  {
    if keys != [] && v.Object? && keys[0] in v.fields {
      WalkLeads(v.fields[keys[0]], keys[1..], w);
    }
  }

  /** A path without dots is one member of one object; with composition this
      fixes the value of every path. */
  lemma SimplePathIsMember(v: Json, path: string)
    requires '.' !in path
    ensures PathValue(v, path) == if v.Object? && path in v.fields then Some(v.fields[path]) else None
  {
    assert Split(path, '.') == [path] && [path][1..] == [];
    if v.Object? && path in v.fields {
      assert Walk(v.fields[path], []) == Some(v.fields[path]);
      assert Walk(v, [path]) == Walk(v.fields[path], [path][1..]);
    }
  }

  function GetString(v: Json, path: string): Option<string> {
    match PathValue(v, path)
    case Some(Str(s)) => Some(s)
    case _ => None
  }

  function StringItems(items: seq<Json>): seq<string> {
    if items == [] then []
    else if items[0].Str? then [items[0].text] + StringItems(items[1..])
    else StringItems(items[1..])
  }

  function GetStringVec(v: Json, path: string): seq<string> {
    match PathValue(v, path)
    case Some(Array(items)) => StringItems(items)
    case _ => []
  }

  lemma {:induction false} StringItemsMeaning(items: seq<Json>, s: string)
    ensures s in StringItems(items) <==> Str(s) in items
  {
    if items != [] {
      StringItemsMeaning(items[1..], s);
      assert items == [items[0]] + items[1..];
    }
  }

  function SplitWhitespace(s: string): (words: seq<string>)
    ensures forall w :: w in words ==> w != [] && forall i :: 0 <= i < |w| ==> !IsWhitespace(w[i])
    decreases |s|
  {
    if s == [] then []
    else if IsWhitespace(s[0]) then SplitWhitespace(s[1..])
    else
      var n := WordLength(s);
      [s[..n]] + SplitWhitespace(s[n..])
  }

  function WordLength(s: string): (n: nat)
    ensures n <= |s| && forall i :: 0 <= i < n ==> !IsWhitespace(s[i])
    ensures s != [] && !IsWhitespace(s[0]) ==> n > 0
  {
    if s == [] || IsWhitespace(s[0]) then 0 else 1 + WordLength(s[1..])
  }

  lemma {:induction false} WordLengthOf(w: string, rest: string)
    requires All(IsWord, w) && (rest == [] || IsWhitespace(rest[0]))
    ensures WordLength(w + rest) == |w|
  {
    if w == [] {
      assert w + rest == rest;
    } else {
      assert (w + rest)[1..] == w[1..] + rest;
      WordLengthOf(w[1..], rest);
    }
  }

  predicate IsWord(c: char) {
    !IsWhitespace(c)
  }

  /** A string without blanks is one word. */
  lemma OneWord(w: string)
    requires w != [] && All(IsWord, w)
    ensures SplitWhitespace(w) == [w]
  {
    assert w + "" == w;
    WordLengthOf(w, "");
    assert w[|w|..] == [] && w[..|w|] == w;
  }

  /** Splitting distributes over any blank; with the words themselves this fixes
      what a scope list is. */
  lemma {:induction false} SplitAtBlank(a: string, c: char, b: string)
    requires IsWhitespace(c)
    ensures SplitWhitespace(a + ([c] + b)) == SplitWhitespace(a) + SplitWhitespace(b)
    decreases |a|
  {
    var s := a + ([c] + b);
    if a == [] {
      assert s == [c] + b && s[1..] == b;
    } else if IsWhitespace(a[0]) {
      assert s[1..] == a[1..] + ([c] + b);
      SplitAtBlank(a[1..], c, b);
    } else {
      var n := WordLength(a);
      assert a == a[..n] + a[n..];
      assert s == a[..n] + (a[n..] + ([c] + b));
      WordEnds(a);
      WordLengthOf(a[..n], a[n..] + ([c] + b));
      assert s[n..] == a[n..] + ([c] + b) && s[..n] == a[..n];
      SplitAtBlank(a[n..], c, b);
      Associative([a[..n]], SplitWhitespace(a[n..]), SplitWhitespace(b));
    }
  }

  lemma {:induction false} WordEnds(s: string)
    ensures WordLength(s) < |s| ==> IsWhitespace(s[WordLength(s)])
  {
    if s != [] && !IsWhitespace(s[0]) {
      WordEnds(s[1..]);
    }
  }

  /** Sorted, duplicates kept. */
  predicate Sorted(s: seq<string>) {
    forall i, j :: 0 <= i < j < |s| ==> !Less(s[j], s[i])
  }

  function InsertSorted(s: seq<string>, x: string): seq<string> {
    if s == [] || !Less(s[0], x) then [x] + s else [s[0]] + InsertSorted(s[1..], x)
  }

  /** `Vec::sort`. */
  function Sort(s: seq<string>): seq<string> {
    if s == [] then [] else InsertSorted(Sort(s[1..]), s[0])
  }

  /** `Vec::dedup`: drops an element equal to its predecessor. */
  function Dedup(s: seq<string>): seq<string> {
    if |s| < 2 then s
    else if s[0] == s[1] then Dedup(s[1..])
    else [s[0]] + Dedup(s[1..])
  }

  lemma {:induction false} InsertSortedElements(s: seq<string>, x: string)
    ensures multiset(InsertSorted(s, x)) == multiset(s) + multiset{x}
  {
    if s == [] || !Less(s[0], x) {
    } else {
      InsertSortedElements(s[1..], x);
      assert s == [s[0]] + s[1..];
    }
  }

  lemma {:induction false} SortElements(s: seq<string>)
    ensures multiset(Sort(s)) == multiset(s)
  {
    if s != [] {
      SortElements(s[1..]);
      InsertSortedElements(Sort(s[1..]), s[0]);
      assert s == [s[0]] + s[1..];
    }
  }

  lemma {:induction false} InsertSortedSorted(s: seq<string>, x: string)
    requires Sorted(s)
    ensures Sorted(InsertSorted(s, x))
  {
    if s == [] {
    } else if !Less(s[0], x) {
      forall j | 0 <= j < |s|
        ensures !Less(s[j], x)
      {
        if j > 0 && Less(s[j], x) {
          LessTotal(s[0], s[j]);
          if Less(s[0], s[j]) { LessTransitive(s[0], s[j], x); }
        }
      }
    } else {
      InsertSortedSorted(s[1..], x);
      InsertSortedElements(s[1..], x);
      var r := InsertSorted(s[1..], x);
      forall j | 0 <= j < |r|
        ensures !Less(r[j], s[0])
      {
        LessAsymmetric(s[0], x);
        assert r[j] in multiset(r);
        assert r[j] in s[1..] || r[j] == x;
      }
    }
  }

  lemma {:induction false} SortSorted(s: seq<string>)
    ensures Sorted(Sort(s))
  {
    if s != [] {
      SortSorted(s[1..]);
      InsertSortedSorted(Sort(s[1..]), s[0]);
    }
  }

  lemma {:induction false} DedupElements(s: seq<string>, x: string)
    ensures x in Dedup(s) <==> x in s
  {
    if |s| >= 2 {
      DedupElements(s[1..], x);
      assert s == [s[0]] + s[1..];
    }
  }

  lemma {:induction false} DedupAscending(s: seq<string>)
    requires Sorted(s)
    ensures Ascending(Dedup(s))
  {
    if |s| >= 2 {
      var t := s[1..];
      DedupAscending(t);
      if s[0] != s[1] {
        var d := Dedup(t);
        forall j | 0 <= j < |d|
          ensures Less(s[0], d[j])
        {
          DedupElements(t, d[j]);
          HeadBelowTail(s, d[j]);
        }
      }
    }
  }

  lemma HeadBelowTail(s: seq<string>, x: string)
    requires Sorted(s) && |s| >= 2 && s[0] != s[1] && x in s[1..]
    ensures Less(s[0], x)
  {
    LessTotal(s[0], s[1]);
    assert Less(s[0], s[1]);
    var j :| 1 <= j < |s| && s[j] == x;
    if j > 1 {
      LessTotal(s[1], x);
      if Less(s[1], x) { LessTransitive(s[0], s[1], x); }
    }
  }

  function Collect(claims: Json, paths: seq<string>): seq<string> {
    if paths == [] then []
    else Collect(claims, paths[..|paths| - 1]) + GetStringVec(claims, paths[|paths| - 1])
  }

  lemma CollectStep(claims: Json, paths: seq<string>, i: nat)
    requires i < |paths|
    ensures Collect(claims, paths[..i + 1]) == Collect(claims, paths[..i]) + GetStringVec(claims, paths[i])
  {
    assert paths[..i + 1][..i] == paths[..i];
  }

  lemma CollectAll(claims: Json, paths: seq<string>)
    ensures Collect(claims, paths[..|paths|]) == Collect(claims, paths)
  {
    assert paths[..|paths|] == paths;
  }

  /** What `extract` puts in a role or group list. */
  function Canonical(claims: Json, paths: seq<string>): seq<string> {
    Dedup(Sort(Collect(claims, paths)))
  }

  /** A string entry of an array some path leads to. */
  ghost predicate ClaimLists(claims: Json, path: string, x: string) {
    exists items :: Leads(claims, Split(path, '.'), Array(items)) && Str(x) in items
  }

  lemma StringVecLists(claims: Json, path: string, x: string)
    ensures x in GetStringVec(claims, path) <==> ClaimLists(claims, path, x)
  {
    hide Walk, Leads, Split;
    var keys := Split(path, '.');
    forall items
      ensures Walk(claims, keys) == Some(Array(items)) <==> Leads(claims, keys, Array(items))
    {
      WalkLeads(claims, keys, Array(items));
    }
    match Walk(claims, keys)
    case Some(Array(items)) => StringItemsMeaning(items, x);
    case _ =>
  }

  lemma StringLeads(claims: Json, path: string)
    ensures var r := GetString(claims, path);
      && (forall s :: r == Some(s) <==> Leads(claims, Split(path, '.'), Str(s)))
      && (r == None <==> forall s :: !Leads(claims, Split(path, '.'), Str(s)))
  {
    hide Walk, Leads, Split;
    var keys := Split(path, '.');
    forall s
      ensures GetString(claims, path) == Some(s) <==> Leads(claims, keys, Str(s))
    {
      WalkLeads(claims, keys, Str(s));
    }
    if GetString(claims, path).Some? {
      assert Leads(claims, keys, Str(GetString(claims, path).value));
    }
  }

  /** The list is strictly ascending and holds exactly the string entries of the
      arrays the claim paths lead to. */
  lemma CanonicalLists(claims: Json, paths: seq<string>)
    ensures Ascending(Canonical(claims, paths))
    ensures forall x :: x in Canonical(claims, paths) <==> exists path :: path in paths && ClaimLists(claims, path, x)
  {
    hide Canonical, GetStringVec, ClaimLists;
    CanonicalMeaning(claims, paths);
    forall x
      ensures x in Canonical(claims, paths) <==> exists path :: path in paths && ClaimLists(claims, path, x)
    {
      forall path { StringVecLists(claims, path, x); }
    }
  }

  /** Roles and groups are the string entries of the arrays their claim paths
      lead to, each once and in ascending order; subject, tenant and scopes come
      from the strings theirs lead to. */
  method Extract(ex: ClaimExtractor, claims: Json) returns (user: UserContext)
    ensures Ascending(user.roles)
    ensures forall x :: x in user.roles <==> exists path :: path in ex.rolePaths && ClaimLists(claims, path, x)
    ensures Ascending(user.groups)
    ensures forall x :: x in user.groups <==> exists path :: path in ex.groupPaths && ClaimLists(claims, path, x)
    ensures Leads(claims, ["sub"], Str(user.sub))
      || (user.sub == "" && forall s :: !Leads(claims, ["sub"], Str(s)))
    ensures ex.tenantPath.None? ==> user.tenant == None
    ensures ex.tenantPath.Some? ==> forall s :: (
      user.tenant == Some(s) <==> Leads(claims, Split(ex.tenantPath.value, '.'), Str(s)))
    ensures forall s :: Leads(claims, Split(ex.scopesPath, '.'), Str(s)) ==> user.scopes == SplitWhitespace(s)
    ensures (forall s :: !Leads(claims, Split(ex.scopesPath, '.'), Str(s))) ==> user.scopes == []
    ensures user.claims == claims
    ensures user.roles == Canonical(claims, ex.rolePaths)
    ensures user.groups == Canonical(claims, ex.groupPaths)
  {
    hide Leads, ClaimLists, GetString, GetStringVec;
    assert Split("sub", '.') == ["sub"];
    StringLeads(claims, "sub");
    StringLeads(claims, ex.scopesPath);
    if ex.tenantPath.Some? {
      StringLeads(claims, ex.tenantPath.value);
    }
    var sub := GetString(claims, "sub").GetOr("");
    var roles := [];
    for i := 0 to |ex.rolePaths|
      invariant roles == Collect(claims, ex.rolePaths[..i])
    {
      roles := roles + GetStringVec(claims, ex.rolePaths[i]);
      CollectStep(claims, ex.rolePaths, i);
    }
    CollectAll(claims, ex.rolePaths);
    roles := Sort(roles);
    roles := Dedup(roles);
    var groups := [];
    for i := 0 to |ex.groupPaths|
      invariant groups == Collect(claims, ex.groupPaths[..i])
    {
      groups := groups + GetStringVec(claims, ex.groupPaths[i]);
      CollectStep(claims, ex.groupPaths, i);
    }
    CollectAll(claims, ex.groupPaths);
    groups := Sort(groups);
    groups := Dedup(groups);
    var tenant := if ex.tenantPath.None? then None else GetString(claims, ex.tenantPath.value);
    var scopes := SplitWhitespace(GetString(claims, ex.scopesPath).GetOr(""));
    CanonicalLists(claims, ex.rolePaths);
    CanonicalLists(claims, ex.groupPaths);
    user := UserContext(sub, tenant, roles, groups, scopes, claims);
  }

  lemma {:induction false} CollectElements(claims: Json, paths: seq<string>, x: string)
    ensures x in Collect(claims, paths) <==> exists p :: p in paths && x in GetStringVec(claims, p)
  {
    if paths != [] {
      var n := |paths| - 1;
      CollectElements(claims, paths[..n], x);
      assert paths == paths[..n] + [paths[n]];
    }
  }

  /** The list is strictly ascending and holds exactly the union of the claim
      paths' string entries. */
  lemma CanonicalMeaning(claims: Json, paths: seq<string>)
    ensures Ascending(Canonical(claims, paths))
    ensures forall x :: (x in Canonical(claims, paths)
      <==> exists p :: p in paths && x in GetStringVec(claims, p))
  {
    var all := Collect(claims, paths);
    SortSorted(all);
    DedupAscending(Sort(all));
    forall x
      ensures x in Canonical(claims, paths) <==> exists p :: p in paths && x in GetStringVec(claims, p)
    {
      DedupElements(Sort(all), x);
      SortElements(all);
      assert x in Sort(all) <==> x in multiset(Sort(all));
      assert x in all <==> x in multiset(all);
      CollectElements(claims, paths, x);
    }
  }

  /** Permuting or repeating the configured paths changes nothing. */
  lemma CanonicalOrderFree(claims: Json, paths: seq<string>, paths': seq<string>)
    requires forall p :: p in paths <==> p in paths'
    ensures Canonical(claims, paths) == Canonical(claims, paths')
  {
    CanonicalMeaning(claims, paths);
    CanonicalMeaning(claims, paths');
    AscendingUnique(Canonical(claims, paths), Canonical(claims, paths'));
  }
}
