/** The weak ETags of the control plane and the If-Match header that brings
    them back (sections 8.8.3 and 13.1.1 of RFC 9110). */
module ETag {
  import opened Text
  import opened Wrappers

  /** The ways `parse_if_match` refuses a header. */
  datatype HeaderError = NotVisibleAscii | NotARevision

  /** Bytes `HeaderValue::to_str` lets through. */
  predicate IsVisibleAscii(c: char) {
    c == '\t' || ' ' <= c <= '~'
  }

  predicate IsQuote(c: char) {
    c == '"'
  }

  function StripWeak(s: string): string {
    if StartsWith(s, "W/") then s[2..] else s
  }

  /** Absent header: no expectation. */
  function ParseIfMatch(header: Option<string>): Result<Option<U64>, HeaderError> {
    match header
    case None => Ok(None)
    case Some(v) =>
      if !All(IsVisibleAscii, v) then Err(NotVisibleAscii)
      else
        match ParseU64(Trim(IsQuote, StripWeak(Trim(IsWhitespace, v))))
        case Some(r) => Ok(Some(r))
        case None => Err(NotARevision)
  }

  function EtagFor(revision: U64): string {
    "W/" + ("\"" + Digits(revision) + "\"")
  }

  /** The shape of the headers that mean revision `r`: padding, an optional
      weak marker, any quotes, an optional plus sign, digits, any quotes,
      padding. Weak and strong tags are not told apart. */
  datatype Shape = Shape(pad: string, weak: bool, open: string, plus: bool, digits: string, close: string, end: string)
  {
    ghost predicate WellFormed() {
      && All(IsPadding, pad) && All(IsPadding, end)
      && All(IsQuote, open) && All(IsQuote, close)
      && digits != [] && All(IsDigit, digits) && Value(digits) < TWO_TO_THE_64
    }

    function Number(): string {
      Numeral(plus, digits)
    }

    function Body(): string {
      open + Number() + close
    }

    function Core(): string {
      if weak then "W/" + Body() else Body()
    }

    function Text(): string {
      pad + Core() + end
    }
  }

  predicate IsPadding(c: char) {
    c == ' ' || c == '\t'
  }

  lemma BodyEnds(x: Shape)
    requires x.WellFormed()
    ensures x.Body() != []
    ensures var c := x.Body()[0]; IsQuote(c) || IsDigit(c) || c == '+'
    ensures var c := x.Body()[|x.Body()| - 1]; IsQuote(c) || IsDigit(c)
    ensures All(IsVisibleAscii, x.Body())
  {
    var n := x.Number();
    NumeralEnds(x.plus, x.digits);
    assert All(IsVisibleAscii, n) by {
      assert All(IsVisibleAscii, x.digits);
      assert x.plus ==> n == ['+'] + x.digits;
    }
    assert All(IsVisibleAscii, x.open) && All(IsVisibleAscii, x.close);
  }

  lemma NotBlank(c: char)
    ensures IsQuote(c) || IsDigit(c) || c == '+' ==> !IsWhitespace(c) && c != 'W'
    ensures !IsWhitespace('W')
  {
  }

  lemma CoreEnds(x: Shape)
    requires x.WellFormed()
    ensures x.Core() != []
    ensures !IsWhitespace(x.Core()[0]) && !IsWhitespace(x.Core()[|x.Core()| - 1])
    ensures StripWeak(x.Core()) == x.Body()
    ensures All(IsVisibleAscii, x.Core())
  {
    var body := x.Body();
    BodyEnds(x);
    hide IsWhitespace, IsQuote, IsDigit, IsVisibleAscii, All, Shape.Body, Shape.WellFormed, StripWeak;
    NotBlank(body[0]);
    NotBlank(body[|body| - 1]);
    WeakPrefix(body);
    if x.weak {
      var core := "W/" + body;
      assert x.Core() == core && core[0] == 'W' && core[|core| - 1] == body[|body| - 1];
    } else {
      assert x.Core() == body;
    }
  }

  lemma WeakPrefix(body: string)
    requires body != [] && body[0] != 'W' && All(IsVisibleAscii, body)
    ensures StripWeak("W/" + body) == StripWeak(body) == body
    ensures ("W/" + body)[0] == 'W' && ("W/" + body)[|body| + 1] == body[|body| - 1]
    ensures All(IsVisibleAscii, "W/" + body)
  {
    assert ("W/" + body)[2..] == body;
  }

  /** Every header of the accepted shape parses to its number. */
  lemma ShapeParses(x: Shape)
    requires x.WellFormed()
    ensures ParseIfMatch(Some(x.Text())) == Ok(Some(Value(x.digits)))
  {
    CoreEnds(x);
    assert All(IsVisibleAscii, x.Text());
    TrimRecovers(IsWhitespace, x.pad, x.Core(), x.end);
    TrimRecovers(IsQuote, x.open, x.Number(), x.close);
    ParseNumeral(x.plus, x.digits);
  }

  /** Every accepted header has that shape. */
  lemma ParseHasShape(v: string, r: U64) returns (x: Shape)
    requires ParseIfMatch(Some(v)) == Ok(Some(r))
    ensures x.WellFormed() && x.Text() == v && Value(x.digits) == r
  {
    var pad, end := TrimSplits(IsWhitespace, v);
    var core := Trim(IsWhitespace, v);
    var stripped := StripWeak(core);
    var open, close := TrimSplits(IsQuote, stripped);
    var number := Trim(IsQuote, stripped);
    var plus, digits := NumeralParsed(number);
    x := Shape(pad, StartsWith(core, "W/"), open, plus, digits, close, end);
    assert x.Number() == number;
    assert x.Core() == core;
    PaddingIsBlank(v, pad, core, end);
  }

  lemma PaddingIsBlank(v: string, pad: string, core: string, end: string)
    requires v == pad + core + end && All(IsVisibleAscii, v)
    requires All(IsWhitespace, pad) && All(IsWhitespace, end)
    ensures All(IsPadding, pad) && All(IsPadding, end)
  {
    assert forall i :: 0 <= i < |pad| ==> pad[i] == v[i];
    assert forall i :: 0 <= i < |end| ==> end[i] == v[|pad| + |core| + i];
  }

  /** The accepted language and its meaning, in both directions. */
  lemma IfMatchLanguage(v: string, r: U64)
    ensures ParseIfMatch(Some(v)) == Ok(Some(r))
       <==> exists x: Shape :: x.WellFormed() && x.Text() == v && Value(x.digits) == r
  {
    if ParseIfMatch(Some(v)) == Ok(Some(r)) {
      var x := ParseHasShape(v, r);
    }
    forall x: Shape | x.WellFormed() && x.Text() == v && Value(x.digits) == r
      ensures ParseIfMatch(Some(v)) == Ok(Some(r))
    {
      ShapeParses(x);
    }
  }

  lemma PrintedText(x: Shape)
    requires x.pad == [] && x.end == [] && !x.plus
    ensures x.Number() == x.digits && x.Text() == x.Core()
  {
  }

  /** Weak, strong and bare forms of a printed revision all parse back to it:
      the comparison the code makes is the weak one. */
  lemma PrintedParses(r: U64, weak: bool, quotes: string)
    requires All(IsQuote, quotes)
    ensures var body := quotes + Digits(r) + quotes;
      ParseIfMatch(Some(if weak then "W/" + body else body)) == Ok(Some(r))
  {
    ValueOfDigits(r);
    var x := Shape("", weak, quotes, false, Digits(r), quotes, "");
    PrintedText(x);
    ShapeParses(x);
  }

  /** Round trip for every revision. */
  lemma EtagRoundTrip(r: U64)
    ensures ParseIfMatch(Some(EtagFor(r))) == Ok(Some(r))
  {
    PrintedParses(r, true, "\"");
  }

  /** The tag of a revision is the weak one of section 8.8.3 of RFC 9110: its
      decimal digits, without leading zeros, in quotes behind the weak marker. */
  lemma EtagIsWeak(r: U64)
    ensures exists ds :: (
      && EtagFor(r) == "W/\"" + ds + "\"" && ds != [] && All(IsDigit, ds) && Value(ds) == r
      && (ds[0] == '0' ==> ds == "0"))
  {
    hide Value, Digits;
    var ds := Digits(r);
    ValueOfDigits(r);
    DigitsCanonical(r);
    assert EtagFor(r) == "W/\"" + ds + "\"" by {
      assert "W/" + ("\"" + ds + "\"") == "W/\"" + ds + "\"";
    }
  }

  /** A header that is absent expects nothing; one that is refused is refused for
      a character outside visible ASCII if it has one, and otherwise because it
      means no revision. */
  lemma IfMatchRefusals(v: string)
    ensures ParseIfMatch(None) == Ok(None)
    ensures ParseIfMatch(Some(v)) == Err(NotVisibleAscii)
       <==> exists i :: 0 <= i < |v| && v[i] != '\t' && !(' ' <= v[i] <= '~')
    ensures ParseIfMatch(Some(v)) == Err(NotARevision)
       <==> && (forall i :: 0 <= i < |v| ==> v[i] == '\t' || ' ' <= v[i] <= '~')
            && forall r :: ParseIfMatch(Some(v)) != Ok(Some(r))
    ensures ParseIfMatch(Some(v)) != Ok(None)
  {
    hide Trim, StripWeak, ParseU64;
  }
}
