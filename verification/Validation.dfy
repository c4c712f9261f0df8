/** Validation of user-supplied names, and an independent regular-expression
    semantics that says what the resource-name checks accept. */
module Validation {
  import opened Text
  import opened Wrappers

  const MAX_NAME_LEN: nat := 63

  datatype NameError = EmptyName | NameTooLong | BadFirst | BadLast | BadCharacter

  /** Bytes `c` takes in UTF-8; the source measures names in bytes. */
  function Utf8Size(c: char): (n: nat)
    ensures n >= 1
  {
    if c < '\U{0080}' then 1
    else if c < '\U{0800}' then 2
    else if (c as int) < 0x1_0000 then 3
    else 4
  }

  /** The code points one, two, three and four bytes can carry: 7, 11, 16 and 21
      bits, of which the last is cut off where code points end. */
  const CAPACITY: seq<int> := [128, 2048, 65536, 1114112]

  /** A character takes the fewest bytes that can carry it. */
  lemma Utf8Fewest(c: char)
    ensures var n := Utf8Size(c);
      1 <= n <= 4 && c as int < CAPACITY[n - 1] && (n > 1 ==> c as int >= CAPACITY[n - 2])
  {
  }

  function Utf8Length(s: string): nat {
    if s == [] then 0 else Utf8Size(s[0]) + Utf8Length(s[1..])
  }

  predicate IsLowerOrDigit(c: char) {
    'a' <= c <= 'z' || '0' <= c <= '9'
  }

  predicate IsLabelChar(c: char) {
    IsLowerOrDigit(c) || c == '-'
  }

  /** Every byte of a character outside ASCII fails the byte tests of the
      source, exactly as the character fails these. */
  function ValidateResourceName(name: string): Result<(), NameError> {
    if name == [] then Err(EmptyName)
    else if Utf8Length(name) > MAX_NAME_LEN then Err(NameTooLong)
    else if !IsLowerOrDigit(name[0]) then Err(BadFirst)
    else if !IsLowerOrDigit(name[|name| - 1]) then Err(BadLast)
    else if !All(IsLabelChar, name) then Err(BadCharacter)
    else Ok(())
  }

  /** The part of regular expressions the documented name pattern uses. */
  datatype Regex =
    | OneOf(ranges: seq<(char, char)>)
    | Then(first: Regex, second: Regex)
    | Maybe(inner: Regex)
    | UpTo(max: nat, inner: Regex)

  predicate InRanges(ranges: seq<(char, char)>, c: char) {
    exists range :: range in ranges && range.0 <= c <= range.1
  }

  ghost predicate Matches(r: Regex, s: string)
    decreases |s|, r
  {
    match r
    case OneOf(ranges) => |s| == 1 && InRanges(ranges, s[0])
    case Then(a, b) => exists i :: 0 <= i <= |s| && Matches(a, s[..i]) && Matches(b, s[i..])
    case Maybe(a) => s == [] || Matches(a, s)
    case UpTo(n, a) =>
      || s == []
      || (n > 0 && exists i :: 0 < i <= |s| && Matches(a, s[..i]) && Matches(UpTo(n - 1, a), s[i..]))
  }

  /** `[a-z0-9]([a-z0-9-]{0,61}[a-z0-9])?` */
  const EDGE: seq<(char, char)> := [('a', 'z'), ('0', '9')]
  const INNER: seq<(char, char)> := [('a', 'z'), ('0', '9'), ('-', '-')]

  function ResourceNamePattern(): Regex {
    Then(OneOf(EDGE), Maybe(Then(UpTo(61, OneOf(INNER)), OneOf(EDGE))))
  }

  lemma RangesTested(c: char)
    ensures InRanges(EDGE, c) <==> IsLowerOrDigit(c)
    ensures InRanges(INNER, c) <==> IsLabelChar(c)
  {
    if IsLowerOrDigit(c) {
      var range := if 'a' <= c <= 'z' then ('a', 'z') else ('0', '9');
      assert EDGE[if 'a' <= c <= 'z' then 0 else 1] == range && INNER[if 'a' <= c <= 'z' then 0 else 1] == range;
    }
    if c == '-' {
      assert INNER[2] == ('-', '-');
    }
  }

  predicate AllIn(ranges: seq<(char, char)>, s: string) {
    forall i :: 0 <= i < |s| ==> InRanges(ranges, s[i])
  }

  lemma {:induction false} UpToOneOf(n: nat, ranges: seq<(char, char)>, s: string)
    ensures Matches(UpTo(n, OneOf(ranges)), s) <==> |s| <= n && AllIn(ranges, s)
    decreases |s|
  {
    hide InRanges;
    if s != [] && n > 0 {
      UpToOneOf(n - 1, ranges, s[1..]);
      assert forall i :: 0 < i <= |s| && Matches(OneOf(ranges), s[..i]) ==> i == 1;
      if Matches(UpTo(n, OneOf(ranges)), s) {
        assert Matches(OneOf(ranges), s[..1]);
        assert forall i :: 0 < i < |s| ==> s[i] == s[1..][i - 1];
      }
      if |s| <= n && AllIn(ranges, s) {
        assert Matches(OneOf(ranges), s[..1]) && Matches(UpTo(n - 1, OneOf(ranges)), s[1..]);
      }
    }
  }

  lemma {:induction false} LabelLength(s: string)
    ensures All(IsLabelChar, s) ==> Utf8Length(s) == |s|
    ensures Utf8Length(s) >= |s|
  {
    if s != [] {
      LabelLength(s[1..]);
      assert forall i :: 0 < i < |s| ==> s[i] == s[1..][i - 1];
    }
  }

  /** A label: what the pattern's inner group and the byte loop agree on. */
  ghost predicate IsLabel(s: string) {
    && 1 <= |s| <= MAX_NAME_LEN
    && IsLowerOrDigit(s[0]) && IsLowerOrDigit(s[|s| - 1])
    && All(IsLabelChar, s)
  }

  lemma TailMatches(t: string)
    ensures Matches(Then(UpTo(61, OneOf(INNER)), OneOf(EDGE)), t)
       <==> 1 <= |t| <= 62 && IsLowerOrDigit(t[|t| - 1]) && All(IsLabelChar, t)
  {
    hide InRanges;
    forall c { RangesTested(c); }
    var a, b := UpTo(61, OneOf(INNER)), OneOf(EDGE);
    forall i | 0 <= i <= |t|
      ensures Matches(a, t[..i]) <==> i <= 61 && All(IsLabelChar, t[..i])
      ensures Matches(b, t[i..]) <==> i == |t| - 1 && IsLowerOrDigit(t[i])
    {
      UpToOneOf(61, INNER, t[..i]);
    }
    if t != [] {
      var k := |t| - 1;
      assert t == t[..k] + [t[k]];
      if 1 <= |t| <= 62 && IsLowerOrDigit(t[k]) && All(IsLabelChar, t) {
        assert Matches(a, t[..k]) && Matches(b, t[k..]);
      }
    }
  }

  lemma PatternIsLabel(s: string)
    ensures Matches(ResourceNamePattern(), s) <==> IsLabel(s)
  {
    hide InRanges;
    forall c { RangesTested(c); }
    var a := OneOf(EDGE);
    var b := Maybe(Then(UpTo(61, OneOf(INNER)), OneOf(EDGE)));
    assert forall i :: 0 <= i <= |s| && Matches(a, s[..i]) ==> i == 1;
    if s != [] {
      TailMatches(s[1..]);
      assert s == [s[0]] + s[1..];
      if IsLabel(s) || Matches(ResourceNamePattern(), s) {
        assert Matches(a, s[..1]);
        assert Matches(b, s[1..]);
      }
    }
  }

  /** The byte-by-byte checks accept exactly the language of the documented
      pattern, however the name is encoded. */
  lemma ResourceNameLanguage(name: string)
    ensures ValidateResourceName(name).Ok? <==> Matches(ResourceNamePattern(), name)
  {
    LabelLength(name);
    PatternIsLabel(name);
  }

  const RESERVED_PREFIXES: seq<string> := [
    "LD_", "DYLD_", "DOCKER_", "KUBERNETES_", "AWS_", "GOOGLE_", "AZURE_",
    "PATH", "PYTHONPATH", "NODE_OPTIONS"
  ]

  datatype EnvError = EmptyEnv | EqualsInEnv | WhitespaceInEnv | ReservedPrefix(prefix: string)

  predicate Contains(p: char -> bool, s: string) {
    exists i :: 0 <= i < |s| && p(s[i])
  }

  predicate IsEquals(c: char) {
    c == '='
  }

  function FindReserved(name: string, prefixes: seq<string>): (r: Option<string>)
    ensures r.Some? ==> r.value in prefixes && StartsWith(name, r.value)
    ensures r.None? ==> forall p :: p in prefixes ==> !StartsWith(name, p)
  {
    if prefixes == [] then None
    else if name == prefixes[0] || StartsWith(name, prefixes[0]) then Some(prefixes[0])
    else FindReserved(name, prefixes[1..])
  }

  function ValidateEnvVarName(name: string): Result<(), EnvError> {
    if name == [] then Err(EmptyEnv)
    else if Contains(IsEquals, name) then Err(EqualsInEnv)
    else if Contains(IsWhitespace, name) then Err(WhitespaceInEnv)
    else
      match FindReserved(name, RESERVED_PREFIXES)
      case Some(p) => Err(ReservedPrefix(p))
      case None => Ok(())
  }

  /** What steers the loader, the container tools, the cloud clients and the
      interpreters. */
  const STEERING: set<string> :=
    {"LD_", "DYLD_"} + {"DOCKER_", "KUBERNETES_"} + {"AWS_", "GOOGLE_", "AZURE_"}
    + {"PATH", "PYTHONPATH", "NODE_OPTIONS"}

  /** What an accepted environment-variable name guarantees to a workload. */
  ghost predicate SafeEnvName(name: string) {
    && name != []
    && (forall i :: 0 <= i < |name| ==> name[i] != '=' && !IsWhitespace(name[i]))
    && forall p :: p in STEERING ==> !(p <= name)
  }

  lemma EnvNameLanguage(name: string)
    ensures ValidateEnvVarName(name).Ok? <==> SafeEnvName(name)
  {
    hide FindReserved, IsWhitespace;
    ReservedPrefixes();
    EqualsContained(name);
  }

  lemma ReservedPrefixes()
    ensures forall p :: p in RESERVED_PREFIXES <==> p in STEERING
  {
    var ps := RESERVED_PREFIXES;
    assert ps == ["LD_", "DYLD_"] + ["DOCKER_", "KUBERNETES_"] + ["AWS_", "GOOGLE_", "AZURE_"]
                 + ["PATH", "PYTHONPATH", "NODE_OPTIONS"];
  }

  lemma EqualsContained(name: string)
    ensures '=' in name <==> Contains(IsEquals, name)
  {
    if '=' in name {
      var i :| 0 <= i < |name| && name[i] == '=';
      assert IsEquals(name[i]);
    }
  }

  /** Why a resource name is refused: the first of the checks it fails. */
  lemma NameRefusals(name: string)
    ensures ValidateResourceName(name) == Err(EmptyName) <==> name == ""
    ensures ValidateResourceName(name) == Err(NameTooLong) <==> Utf8Length(name) > 63
    ensures name != "" && Utf8Length(name) <= 63 ==>
      var first, last := name[0], name[|name| - 1];
      && (ValidateResourceName(name) == Err(BadFirst) <==> !InRanges(EDGE, first))
      && (ValidateResourceName(name) == Err(BadLast) <==> InRanges(EDGE, first) && !InRanges(EDGE, last))
      && (ValidateResourceName(name) == Err(BadCharacter) <==>
            InRanges(EDGE, first) && InRanges(EDGE, last) && !AllIn(INNER, name))
  {
    hide InRanges, IsLowerOrDigit;
    forall c { RangesTested(c); }
    assert Utf8Length("") == 0;
  }

  /** Why an environment name is refused; a reserved prefix is only named when
      nothing else is wrong. */
  lemma EnvRefusals(name: string)
    ensures ValidateEnvVarName(name) == Err(EmptyEnv) <==> name == ""
    ensures ValidateEnvVarName(name) == Err(EqualsInEnv) <==> '=' in name
    ensures ValidateEnvVarName(name) == Err(WhitespaceInEnv)
       <==> '=' !in name && exists i :: 0 <= i < |name| && IsWhitespace(name[i])
    ensures forall prefix :: ValidateEnvVarName(name) == Err(ReservedPrefix(prefix)) ==> prefix <= name
  {
    hide FindReserved, IsWhitespace;
    EqualsContained(name);
  }
}
