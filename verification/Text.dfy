/** The string operations the gateway takes from Rust's `str` and `char`. */
module Text {
  import opened Wrappers

  /** Unicode White_Space, as `char::is_whitespace` tests it. */
  predicate IsWhitespace(c: char) {
    || '\U{0009}' <= c <= '\U{000D}'
    || c == ' ' || c == '\U{0085}' || c == '\U{00A0}' || c == '\U{1680}'
    || '\U{2000}' <= c <= '\U{200A}'
    || c == '\U{2028}' || c == '\U{2029}' || c == '\U{202F}' || c == '\U{205F}' || c == '\U{3000}'
  }

  /** The property as the Unicode character database lists it. */
  lemma WhitespaceListed(c: char)
    ensures IsWhitespace(c) <==> c as int in {
      0x9, 0xA, 0xB, 0xC, 0xD, 0x20, 0x85, 0xA0, 0x1680, 0x2000, 0x2001, 0x2002, 0x2003, 0x2004, 0x2005, 0x2006,
      0x2007, 0x2008, 0x2009, 0x200A, 0x2028, 0x2029, 0x202F, 0x205F, 0x3000}
  {
  }

  predicate StartsWith(s: string, prefix: string) {
    prefix <= s
  }

  predicate EndsWith(s: string, suffix: string) {
    |suffix| <= |s| && s[|s| - |suffix|..] == suffix
  }

  predicate All(p: char -> bool, s: string) {
    forall i :: 0 <= i < |s| ==> p(s[i])
  }

  function TrimStart(p: char -> bool, s: string): string {
    if s != [] && p(s[0]) then TrimStart(p, s[1..]) else s
  }

  function TrimEnd(p: char -> bool, s: string): string {
    if s != [] && p(s[|s| - 1]) then TrimEnd(p, s[..|s| - 1]) else s
  }

  /** `trim_matches(p)`; `trim()` is `Trim(IsWhitespace, s)`. */
  function Trim(p: char -> bool, s: string): string {
    TrimEnd(p, TrimStart(p, s))
  }

  lemma {:induction false} TrimStartSkips(p: char -> bool, a: string, s: string)
    requires All(p, a)
    ensures TrimStart(p, a + s) == TrimStart(p, s)
  {
    if a == [] {
      assert a + s == s;
    } else {
      assert (a + s)[1..] == a[1..] + s;
      TrimStartSkips(p, a[1..], s);
    }
  }

  lemma {:induction false} TrimEndSkips(p: char -> bool, s: string, b: string)
    requires All(p, b)
    ensures TrimEnd(p, s + b) == TrimEnd(p, s)
  {
    if b == [] {
      assert s + b == s;
    } else {
      assert (s + b)[..|s + b| - 1] == s + b[..|b| - 1];
      TrimEndSkips(p, s, b[..|b| - 1]);
    }
  }

  /** Trimming recovers a core that neither starts nor ends with a trimmed
      character from any padding around it. */
  lemma TrimRecovers(p: char -> bool, a: string, core: string, b: string)
    requires All(p, a) && All(p, b)
    requires core != [] && !p(core[0]) && !p(core[|core| - 1])
    ensures Trim(p, a + core + b) == core
  {
    assert a + core + b == a + (core + b);
    TrimStartSkips(p, a, core + b);
    TrimEndSkips(p, core, b);
  }

  /** Conversely every string is its trimmed core with padding around it. */
  lemma {:induction false} TrimSplits(p: char -> bool, s: string) returns (a: string, b: string)
    ensures All(p, a) && All(p, b)
    ensures s == a + Trim(p, s) + b
    ensures var core := Trim(p, s); core != [] ==> !p(core[0]) && !p(core[|core| - 1])
  {
    a := TrimStartSplits(p, s);
    b := TrimEndSplits(p, TrimStart(p, s));
  }

  lemma {:induction false} TrimStartSplits(p: char -> bool, s: string) returns (a: string)
    ensures All(p, a) && s == a + TrimStart(p, s)
    ensures TrimStart(p, s) != [] ==> !p(TrimStart(p, s)[0])
  {
    if s != [] && p(s[0]) {
      var a' := TrimStartSplits(p, s[1..]);
      a := [s[0]] + a';
    } else {
      a := [];
    }
  }

  lemma {:induction false} TrimEndSplits(p: char -> bool, s: string) returns (b: string)
    ensures All(p, b) && s == TrimEnd(p, s) + b
    ensures TrimEnd(p, s) != [] ==> !p(TrimEnd(p, s)[|TrimEnd(p, s)| - 1]) && TrimEnd(p, s)[0] == s[0]
  {
    if s != [] && p(s[|s| - 1]) {
      var b' := TrimEndSplits(p, s[..|s| - 1]);
      b := b' + [s[|s| - 1]];
    } else {
      b := [];
    }
  }

  /** `find(c)`: the index of the first occurrence. */
  function FirstIndex(s: string, c: char): (r: Option<nat>)
    ensures r.Some? ==> r.value < |s| && s[r.value] == c && forall j :: 0 <= j < r.value ==> s[j] != c
    ensures r.None? ==> forall j :: 0 <= j < |s| ==> s[j] != c
  {
    if s == [] then None
    else if s[0] == c then Some(0)
    else
      match FirstIndex(s[1..], c)
      case None => None
      case Some(i) => Some(i + 1)
  }

  /** `rfind(c)`: the index of the last occurrence. */
  function LastIndex(s: string, c: char): (r: Option<nat>)
    ensures r.Some? ==> r.value < |s| && s[r.value] == c && forall j :: r.value < j < |s| ==> s[j] != c
    ensures r.None? ==> forall j :: 0 <= j < |s| ==> s[j] != c
  {
    if s == [] then None
    else if s[|s| - 1] == c then Some(|s| - 1)
    else LastIndex(s[..|s| - 1], c)
  }

  /** `split(c)`: always at least one segment, possibly empty ones. */
  function Split(s: string, c: char): (parts: seq<string>)
    ensures parts != []
    decreases |s|
  {
    match FirstIndex(s, c)
    case None => [s]
    case Some(i) => [s[..i]] + Split(s[i + 1..], c)
  }

  /** Segments put back together with the separator between them. */
  function Join(parts: seq<string>, c: char): string
    requires parts != []
  {
    if |parts| == 1 then parts[0] else parts[0] + [c] + Join(parts[1..], c)
  }

  lemma JoinCons(first: string, rest: seq<string>, c: char)
    requires rest != []
    ensures Join([first] + rest, c) == first + [c] + Join(rest, c)
  {
    assert ([first] + rest)[1..] == rest;
  }

  lemma {:induction false} JoinSplit(s: string, c: char)
    ensures Join(Split(s, c), c) == s
    decreases |s|
  {
    match FirstIndex(s, c)
    case None =>
    case Some(i) =>
      var rest := Split(s[i + 1..], c);
      JoinSplit(s[i + 1..], c);
      JoinCons(s[..i], rest, c);
      assert s == s[..i] + [c] + s[i + 1..];
  }

  lemma {:induction false} JoinConcat(a: seq<string>, b: seq<string>, c: char)
    requires a != [] && b != []
    ensures Join(a + b, c) == Join(a, c) + [c] + Join(b, c)
  {
    if |a| == 1 {
      assert (a + b)[1..] == b;
    } else {
      assert (a + b)[1..] == a[1..] + b;
      JoinConcat(a[1..], b, c);
    }
  }

  lemma SplitAt(s: string, c: char, i: nat)
    requires i < |s| && s[i] == c && forall j :: 0 <= j < i ==> s[j] != c
    ensures Split(s, c) == [s[..i]] + Split(s[i + 1..], c)
  {
    assert FirstIndex(s, c).value == i;
  }

  /** Splitting distributes over joining with the separator. */
  lemma {:induction false} SplitConcat(a: string, b: string, c: char)
    ensures Split(a + ([c] + b), c) == Split(a, c) + Split(b, c)
    decreases |a|
  {
    match FirstIndex(a, c)
    case None => SplitWhole(a, b, c);
    case Some(k) =>
      hide Split;
      SplitConcat(a[k + 1..], b, c);
      CutLeft(a, [c] + b, k);
      SplitAt(a + ([c] + b), c, k);
      Associative([a[..k]], Split(a[k + 1..], c), Split(b, c));
  }

  lemma SplitWhole(a: string, b: string, c: char)
    requires FirstIndex(a, c).None?
    ensures Split(a + ([c] + b), c) == Split(a, c) + Split(b, c)
  {
    var s := a + ([c] + b);
    SplitAt(s, c, |a|);
    assert s[..|a|] == a && s[|a| + 1..] == b;
  }

  lemma Associative<T>(x: seq<T>, y: seq<T>, z: seq<T>)
    ensures x + (y + z) == x + y + z
  {
  }

  lemma CutLeft(a: string, b: string, k: nat)
    requires k < |a|
    ensures (a + b)[..k] == a[..k] && (a + b)[k + 1..] == a[k + 1..] + b
  {
  }

  predicate IsDigit(c: char) {
    '0' <= c <= '9'
  }

  function DigitValue(c: char): nat {
    if IsDigit(c) then c as int - '0' as int else 0
  }

  /** The value of a decimal digit string. */
  function Value(ds: string): nat {
    if ds == [] then 0
    else Value(ds[..|ds| - 1]) * 10 + DigitValue(ds[|ds| - 1])
  }

  /** `to_string()` on an unsigned integer. */
  function Digits(n: nat): (ds: string)
    ensures ds != [] && All(IsDigit, ds)
  {
    var last := [('0' as int + n % 10) as char];
    if n < 10 then last else Digits(n / 10) + last
  }

  lemma {:induction false} ValueOfDigits(n: nat)
    ensures Value(Digits(n)) == n
  {
    var ds := Digits(n);
    if n < 10 {
      assert ds[..|ds| - 1] == [];
    } else {
      assert ds[..|ds| - 1] == Digits(n / 10);
      ValueOfDigits(n / 10);
    }
  }

  /** Printed numbers have no leading zeros. */
  lemma {:induction false} DigitsCanonical(n: nat)
    ensures Digits(n)[0] == '0' ==> n == 0 && Digits(n) == "0"
  {
    if n >= 10 {
      DigitsCanonical(n / 10);
    }
  }

  /** `parse::<u64>()` (and `parse::<usize>()` on a 64-bit target): an optional
      plus sign and at least one digit, the value within range. */
  function ParseU64(s: string): Option<U64> {
    var ds := if StartsWith(s, "+") then s[1..] else s;
    if ds == [] || !All(IsDigit, ds) then None
    else if Value(ds) < TWO_TO_THE_64 then Some(Value(ds))
    else None
  }

  lemma ParsePrinted(n: U64)
    ensures ParseU64(Digits(n)) == Some(n)
  {
    assert IsDigit(Digits(n)[0]);
    ValueOfDigits(n);
  }

  /** Decimal digits, with or without a plus sign. */
  function Numeral(plus: bool, digits: string): string {
    (if plus then "+" else "") + digits
  }

  lemma PlusSign(digits: string)
    requires digits != [] && All(IsDigit, digits)
    ensures StartsWith("+" + digits, "+") && ("+" + digits)[1..] == digits
    ensures !StartsWith(digits, "+")
  {
    assert IsDigit(digits[0]);
  }

  lemma ParseNumeral(plus: bool, digits: string)
    requires digits != [] && All(IsDigit, digits) && Value(digits) < TWO_TO_THE_64
    ensures ParseU64(Numeral(plus, digits)) == Some(Value(digits))
  {
    hide Value, StartsWith;
    PlusSign(digits);
    if !plus {
      assert Numeral(plus, digits) == digits;
    }
  }

  /** Conversely, whatever parses is such a numeral. */
  lemma NumeralParsed(s: string) returns (plus: bool, digits: string)
    requires ParseU64(s).Some?
    ensures digits != [] && All(IsDigit, digits) && Value(digits) < TWO_TO_THE_64
    ensures Numeral(plus, digits) == s && s != [] && ParseU64(s) == Some(Value(digits))
  {
    plus := StartsWith(s, "+");
    digits := if plus then s[1..] else s;
  }

  lemma NumeralEnds(plus: bool, digits: string)
    requires digits != [] && All(IsDigit, digits)
    ensures var n := Numeral(plus, digits);
      && n != [] && (n[0] == '+' || IsDigit(n[0]))
      && n[|n| - 1] == digits[|digits| - 1] && IsDigit(n[|n| - 1])
  {
  }
}
