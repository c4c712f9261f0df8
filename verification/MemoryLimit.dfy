/** Docker memory limits: `512Mi`, `1Gi`, `256M`, or a plain byte count. */
module MemoryLimit {
  import opened Text
  import opened Wrappers

  const I64_MAX: int := TWO_TO_THE_63 - 1
  const TWO_TO_THE_63: int := 0x8000_0000_0000_0000

  lemma ProductIsNat(a: nat, b: nat)
    ensures 0 <= a * b
  {
  }

  function SaturatingMul(a: U64, b: U64): U64 {
    ProductIsNat(a, b);
    var product := a * b;
    if product < TWO_TO_THE_64 then product else TWO_TO_THE_64 - 1
  }

  function Min(a: int, b: int): int {
    if a <= b then a else b
  }

  /** The suffix tests in the source's order. */
  function SplitSuffix(raw: string): (string, U64) {
    if EndsWith(raw, "Gi") then (raw[..|raw| - 2], 1024 * 1024 * 1024)
    else if EndsWith(raw, "Mi") then (raw[..|raw| - 2], 1024 * 1024)
    else if EndsWith(raw, "Ki") then (raw[..|raw| - 2], 1024)
    else if EndsWith(raw, "G") then (raw[..|raw| - 1], 1_000_000_000)
    else if EndsWith(raw, "M") then (raw[..|raw| - 1], 1_000_000)
    else if EndsWith(raw, "K") then (raw[..|raw| - 1], 1_000)
    else (raw, 1)
  }

  function ParseMemoryLimit(s: Option<string>): Option<int> {
    match s
    case None => None
    case Some(text) =>
      var raw := Trim(IsWhitespace, text);
      if raw == [] then None
      else
        var (num, mult) := SplitSuffix(raw);
        match ParseU64(Trim(IsWhitespace, num))
        case None => None
        case Some(n) => Some(Min(SaturatingMul(n, mult), I64_MAX))
  }

  /** The units, as a table without an order. */
  const UNITS: map<string, U64> := map[
    "Gi" := 1024 * 1024 * 1024, "Mi" := 1024 * 1024, "Ki" := 1024,
    "G" := 1_000_000_000, "M" := 1_000_000, "K" := 1_000
  ]

  lemma EndsWithOne(s: string, c: char)
    ensures EndsWith(s, [c]) <==> |s| >= 1 && s[|s| - 1] == c
  {
  }

  lemma EndsWithTwo(s: string, c: char, d: char)
    ensures EndsWith(s, [c, d]) <==> |s| >= 2 && s[|s| - 2] == c && s[|s| - 1] == d
  {
    if |s| >= 2 {
      assert s[|s| - 2..] == [s[|s| - 2], s[|s| - 1]];
    }
  }

  lemma UnitsByLastCharacters(s: string)
    ensures forall c :: EndsWith(s, [c]) <==> |s| >= 1 && s[|s| - 1] == c
    ensures forall c, d :: EndsWith(s, [c, d]) <==> |s| >= 2 && s[|s| - 2] == c && s[|s| - 1] == d
  {
    forall c { EndsWithOne(s, c); }
    forall c, d { EndsWithTwo(s, c, d); }
  }

  /** At most one unit ends any string, so the order of the tests is
      immaterial. */
  lemma UnitsExclusive(raw: string, u: string, v: string)
    requires u in UNITS && v in UNITS && EndsWith(raw, u) && EndsWith(raw, v)
    ensures u == v
  {
    EndsWithLast(raw, u);
    EndsWithLast(raw, v);
  }

  lemma EndsWithLast(s: string, u: string)
    requires u != [] && EndsWith(s, u)
    ensures s[|s| - 1] == u[|u| - 1]
    ensures |u| >= 2 ==> s[|s| - 2] == u[|u| - 2]
  {
    var t := s[|s| - |u|..];
    assert t[|t| - 1] == s[|s| - 1];
  }

  lemma DropUnit(num: string, u: string)
    ensures EndsWith(num + u, u) && (num + u)[..|num + u| - |u|] == num
  {
  }

  lemma SplitUnit(num: string, u: string)
    requires u in UNITS
    ensures SplitSuffix(num + u) == (num, UNITS[u])
  {
    DropUnit(num, u);
    UnitsByLastCharacters(num + u);
  }

  lemma SplitNoUnit(num: string)
    requires num != [] && IsDigit(num[|num| - 1])
    ensures SplitSuffix(num) == (num, 1)
  {
    UnitsByLastCharacters(num);
  }

  /** The shape of the limits that are accepted: padding, an optional plus sign,
      digits, and perhaps a unit, which blanks may precede. */
  datatype Limit = Limit(pad: string, plus: bool, digits: string, gap: string, unit: string, end: string) {
    ghost predicate WellFormed() {
      && All(IsWhitespace, pad) && All(IsWhitespace, gap) && All(IsWhitespace, end)
      && digits != [] && All(IsDigit, digits) && Value(digits) < TWO_TO_THE_64
      && (unit in UNITS || (unit == [] && gap == []))
    }

    function Number(): string {
      Numeral(plus, digits)
    }

    function Core(): string {
      Number() + gap + unit
    }

    function Text(): string {
      pad + Core() + end
    }

    /** The bytes the text denotes, over unbounded integers. */
    function Bytes(): nat {
      var multiplier: nat := if unit in UNITS then UNITS[unit] else 1;
      ProductIsNat(Value(digits), multiplier);
      Value(digits) * multiplier
    }
  }

  lemma CoreEnds(x: Limit)
    requires x.WellFormed()
    ensures x.Core() != [] && !IsWhitespace(x.Core()[0]) && !IsWhitespace(x.Core()[|x.Core()| - 1])
  {
    hide Value;
    var n := x.Number();
    NumeralEnds(x.plus, x.digits);
    assert x.Core()[0] == n[0];
    if x.unit in UNITS {
      assert x.Core()[|x.Core()| - 1] == x.unit[|x.unit| - 1];
    } else {
      assert x.Core() == n;
    }
  }

  /** Whether the suffix is a unit or nothing, what is left of it trims to the
      number. */
  lemma CoreSplits(x: Limit)
    requires x.WellFormed()
    ensures var (num, multiplier) := SplitSuffix(x.Core());
      Trim(IsWhitespace, num) == x.Number() && Value(x.digits) * multiplier == x.Bytes()
  {
    hide SplitSuffix, Trim, Value, Numeral;
    var n := x.Number();
    NumeralEnds(x.plus, x.digits);
    assert "" + n + x.gap == n + x.gap;
    TrimRecovers(IsWhitespace, "", n, x.gap);
    if x.unit in UNITS {
      SplitUnit(n + x.gap, x.unit);
    } else {
      assert x.Core() == n == n + x.gap;
      SplitNoUnit(n);
    }
  }

  /** A limit means the bytes it denotes, capped once at the largest signed
      64-bit value: the saturating multiplication never shows through the cap. */
  lemma LimitIsCappedProduct(x: Limit)
    requires x.WellFormed()
    ensures ParseMemoryLimit(Some(x.Text())) == Some(Min(x.Bytes(), I64_MAX))
  {
    hide SplitSuffix, Trim, ParseU64, Value, Numeral;
    CoreEnds(x);
    TrimRecovers(IsWhitespace, x.pad, x.Core(), x.end);
    CoreSplits(x);
    ParseNumeral(x.plus, x.digits);
  }

  /** Every accepted text has that shape. */
  lemma LimitHasShape(s: string) returns (x: Limit)
    requires ParseMemoryLimit(Some(s)).Some?
    ensures x.WellFormed() && x.Text() == s
  {
    hide ParseU64, Value, Numeral, Trim;
    var pad, end := TrimSplits(IsWhitespace, s);
    var raw := Trim(IsWhitespace, s);
    var (num, multiplier) := SplitSuffix(raw);
    var before, gap := TrimSplits(IsWhitespace, num);
    var number := Trim(IsWhitespace, num);
    var plus, digits := NumeralParsed(number);
    var unit := UnitLeft(raw);
    NothingBefore(num, before, number, gap, unit);
    if unit == [] {
      assert number + gap == raw;
      NothingAfter(number, gap);
    }
    x := Limit(pad, plus, digits, gap, unit, end);
  }

  lemma UnitLeft(raw: string) returns (unit: string)
    ensures SplitSuffix(raw).0 + unit == raw
    ensures unit in UNITS || unit == []
    ensures SplitSuffix(raw).1 == if unit in UNITS then UNITS[unit] else 1
  {
    hide EndsWith;
    unit :=
      if EndsWith(raw, "Gi") then "Gi"
      else if EndsWith(raw, "Mi") then "Mi"
      else if EndsWith(raw, "Ki") then "Ki"
      else if EndsWith(raw, "G") then "G"
      else if EndsWith(raw, "M") then "M"
      else if EndsWith(raw, "K") then "K"
      else "";
    SuffixBack(raw, unit);
  }

  lemma SuffixBack(raw: string, unit: string)
    ensures EndsWith(raw, unit) ==> raw[..|raw| - |unit|] + unit == raw
    ensures raw + "" == raw
    ensures EndsWith(raw, "")
  {
  }

  lemma NothingBefore(num: string, before: string, number: string, gap: string, unit: string)
    requires num == before + number + gap && number != []
    requires All(IsWhitespace, before) && !IsWhitespace((num + unit)[0])
    ensures before == [] && num == number + gap
  {
    assert before + (number + gap + unit) == num + unit;
    if before != [] {
      FirstIsBlank(before, number + gap + unit);
    }
  }

  lemma FirstIsBlank(blanks: string, rest: string)
    requires blanks != [] && All(IsWhitespace, blanks)
    ensures IsWhitespace((blanks + rest)[0])
  {
  }

  lemma LastIsBlank(rest: string, blanks: string)
    requires blanks != [] && All(IsWhitespace, blanks)
    ensures IsWhitespace((rest + blanks)[|rest + blanks| - 1])
  {
  }

  lemma NothingAfter(number: string, gap: string)
    requires number != [] && All(IsWhitespace, gap)
    requires var raw := number + gap; !IsWhitespace(raw[|raw| - 1])
    ensures gap == []
  {
    if gap != [] {
      LastIsBlank(number, gap);
    }
  }

  /** The accepted limits and what they mean, in both directions. */
  lemma LimitLanguage(s: string, n: int)
    ensures ParseMemoryLimit(Some(s)) == Some(n)
       <==> exists x: Limit :: x.WellFormed() && x.Text() == s && n == Min(x.Bytes(), I64_MAX)
  {
    hide ParseMemoryLimit, Min;
    if ParseMemoryLimit(Some(s)) == Some(n) {
      var x := LimitHasShape(s);
      LimitIsCappedProduct(x);
    }
    forall x: Limit | x.WellFormed() && x.Text() == s && n == Min(x.Bytes(), I64_MAX)
      ensures ParseMemoryLimit(Some(s)) == Some(n)
    {
      LimitIsCappedProduct(x);
    }
  }

  /** A larger count never gives a smaller limit, whatever the padding, sign or
      leading zeros, and no limit is negative. */
  lemma LimitMonotone(x: Limit, y: Limit)
    requires x.WellFormed() && y.WellFormed() && x.unit == y.unit && Value(x.digits) <= Value(y.digits)
    ensures
      var a, b := ParseMemoryLimit(Some(x.Text())), ParseMemoryLimit(Some(y.Text()));
      a.Some? && b.Some? && 0 <= a.value <= b.value
  {
    hide ParseMemoryLimit, Value;
    LimitIsCappedProduct(x);
    LimitIsCappedProduct(y);
    ProductMonotone(Value(x.digits), Value(y.digits), if x.unit in UNITS then UNITS[x.unit] else 1);
  }

  lemma ProductMonotone(a: nat, b: nat, c: nat)
    requires a <= b
    ensures a * c <= b * c
  {
  }
}
