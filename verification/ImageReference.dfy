/** OCI image references: parsing, rendering, and the exact correspondence
    between accepted strings and well-formed triples. */
module ImageReference {
  import opened Text
  import opened Wrappers

  datatype ImageRef = ImageRef(name: string, tag: Option<string>, digest: Option<string>)

  datatype ParseError = EmptyReference | EndsWithAt | BadDigest | EmptyTag | EmptyName

  function SplitDigest(reference: string): Result<(string, Option<string>), ParseError> {
    match LastIndex(reference, '@')
    case None => Ok((reference, None))
    case Some(i) =>
      var tail := reference[i + 1..];
      if tail == [] then Err(EndsWithAt)
      else if ':' !in tail then Err(BadDigest)
      else Ok((reference[..i], Some(tail)))
  }

  /** Where the part after the last slash begins. */
  function SegmentStart(s: string): (i: nat)
    ensures i <= |s|
    ensures '/' !in s[i..]
  {
    match LastIndex(s, '/') case None => 0 case Some(i) => i + 1
  }

  /** The tag separator is the last colon after the last slash. */
  function SplitTag(remainder: string): Result<(string, Option<string>), ParseError> {
    var searchFrom := SegmentStart(remainder);
    match LastIndex(remainder[searchFrom..], ':')
    case None => Ok((remainder, None))
    case Some(rel) =>
      var idx := searchFrom + rel;
      var tag := remainder[idx + 1..];
      if tag == [] then Err(EmptyTag) else Ok((remainder[..idx], Some(tag)))
  }

  function Parse(reference: string): Result<ImageRef, ParseError> {
    if reference == [] then Err(EmptyReference)
    else
      match SplitDigest(reference)
      case Err(e) => Err(e)
      case Ok((remainder, digest)) =>
        match SplitTag(remainder)
        case Err(e) => Err(e)
        case Ok((name, tag)) =>
          if name == [] then Err(EmptyName) else Ok(ImageRef(name, tag, digest))
  }

  function Suffixed(head: string, mark: char, tail: Option<string>): string {
    if tail.Some? then head + ([mark] + tail.value) else head
  }

  /** The printed form `name[:tag][@digest]`. */
  function Render(r: ImageRef): string {
    Suffixed(Suffixed(r.name, ':', r.tag), '@', r.digest)
  }

  /** The triples parsing can produce. */
  predicate WellFormed(r: ImageRef) {
    && r.name != []
    && TagWellFormed(r.name, r.tag)
    && (r.digest.Some? ==> ':' in r.digest.value && '@' !in r.digest.value)
    && (r.digest.None? ==> '@' !in Suffixed(r.name, ':', r.tag))
  }

  lemma LastIndexIs(s: string, c: char, i: nat)
    requires i < |s| && s[i] == c && forall j :: i < j < |s| ==> s[j] != c
    ensures LastIndex(s, c) == Some(i)
  {
    assert LastIndex(s, c).value == i;
  }

  lemma CutAt(a: string, b: string, c: char)
    ensures var s := a + ([c] + b);
      && s[..|a|] == a && s[|a|] == c && s[|a| + 1..] == b
      && forall j :: |a| < j < |s| ==> s[j] == b[j - |a| - 1]
  {
  }

  lemma LastIndexAfter(a: string, b: string, c: char)
    requires c !in b
    ensures LastIndex(a + ([c] + b), c) == Some(|a|)
  {
    CutAt(a, b, c);
    LastIndexIs(a + ([c] + b), c, |a|);
  }

  /** A slash-free suffix leaves the last slash where it was. */
  lemma LastSlashKept(a: string, b: string)
    requires '/' !in b
    ensures LastIndex(a + b, '/') == LastIndex(a, '/')
  {
    var s := a + b;
    assert forall j :: |a| <= j < |s| ==> s[j] == b[j - |a|];
    match LastIndex(a, '/')
    case Some(i) => LastIndexIs(s, '/', i);
    case None => assert forall j :: 0 <= j < |a| ==> s[j] == a[j];
  }

  predicate TagWellFormed(name: string, tag: Option<string>) {
    && (tag.Some? ==> tag.value != [] && ':' !in tag.value && '/' !in tag.value)
    && (tag.None? ==> ':' !in name[SegmentStart(name)..])
  }

  lemma SplitTagNone(name: string)
    requires ':' !in name[SegmentStart(name)..]
    ensures SplitTag(name) == Ok((name, None))
  {
    var segment := name[SegmentStart(name)..];
    assert forall j :: 0 <= j < |segment| ==> segment[j] != ':';
  }

  lemma SplitTagSome(name: string, t: string)
    requires t != [] && ':' !in t && '/' !in t
    ensures SplitTag(name + ([':'] + t)) == Ok((name, Some(t)))
  {
    SegmentStartKept(name, t);
    LastIndexAfter(name[SegmentStart(name)..], t, ':');
    CutAt(name, t, ':');
  }

  lemma SegmentStartKept(name: string, t: string)
    requires '/' !in t
    ensures SegmentStart(name + ([':'] + t)) == SegmentStart(name)
    ensures (name + ([':'] + t))[SegmentStart(name)..] == name[SegmentStart(name)..] + ([':'] + t)
  {
    LastSlashKept(name, [':'] + t);
    DropPrefix(name, [':'] + t, SegmentStart(name));
  }

  lemma DropPrefix(a: string, b: string, k: nat)
    requires k <= |a|
    ensures (a + b)[k..] == a[k..] + b
  {
  }

  lemma SplitTagOfTagged(name: string, tag: Option<string>)
    requires TagWellFormed(name, tag)
    ensures SplitTag(Suffixed(name, ':', tag)) == Ok((name, tag))
  {
    match tag
    case None => SplitTagNone(name);
    case Some(t) => SplitTagSome(name, t);
  }

  lemma SplitDigestOfDigested(head: string, digest: Option<string>)
    requires digest.Some? ==> ':' in digest.value && '@' !in digest.value
    requires digest.None? ==> '@' !in head
    ensures SplitDigest(Suffixed(head, '@', digest)) == Ok((head, digest))
  {
    match digest
    case None => assert forall j :: 0 <= j < |head| ==> head[j] != '@';
    case Some(d) =>
      LastIndexAfter(head, d, '@');
      CutAt(head, d, '@');
  }

  /** Parsing what was printed gives the triple back. */
  lemma ParseRender(r: ImageRef)
    requires WellFormed(r)
    ensures Parse(Render(r)) == Ok(r)
  {
    SplitTagOfTagged(r.name, r.tag);
    SplitDigestOfDigested(Suffixed(r.name, ':', r.tag), r.digest);
  }

  lemma SplitDigestShape(reference: string)
    requires SplitDigest(reference).Ok?
    ensures var (head, digest) := SplitDigest(reference).value;
      && reference == Suffixed(head, '@', digest)
      && (digest.Some? ==> ':' in digest.value && '@' !in digest.value)
      && (digest.None? ==> '@' !in head)
  {
    match LastIndex(reference, '@')
    case None =>
    case Some(i) => Uncut(reference, i, '@');
  }

  lemma Uncut(s: string, i: nat, c: char)
    requires i < |s| && s[i] == c
    ensures s == s[..i] + ([c] + s[i + 1..])
    ensures (forall j :: i < j < |s| ==> s[j] != c) ==> c !in s[i + 1..]
  {
  }

  lemma SplitTagShape(remainder: string)
    requires SplitTag(remainder).Ok?
    ensures var (name, tag) := SplitTag(remainder).value;
      remainder == Suffixed(name, ':', tag) && TagWellFormed(name, tag)
  {
    hide SegmentStart;
    match LastIndex(remainder[SegmentStart(remainder)..], ':')
    case None =>
    case Some(rel) => SplitTagShapeSome(remainder, SegmentStart(remainder), rel);
  }

  lemma SplitTagShapeSome(remainder: string, from: nat, rel: nat)
    requires from <= |remainder| && '/' !in remainder[from..]
    requires LastIndex(remainder[from..], ':') == Some(rel)
    ensures from + rel < |remainder| && remainder[from + rel] == ':'
    ensures var tag := remainder[from + rel + 1..];
      remainder == remainder[..from + rel] + ([':'] + tag) && ':' !in tag && '/' !in tag
  {
    hide LastIndex;
    Uncut(remainder[from..], rel, ':');
    Uncut(remainder, from + rel, ':');
    DropTwice(remainder, from, rel + 1);
  }

  lemma DropTwice(s: string, i: nat, j: nat)
    requires i + j <= |s|
    ensures s[i..][j..] == s[i + j..]
    ensures '/' !in s[i..] ==> '/' !in s[i + j..]
  {
    assert s[i..][j..] == s[i + j..];
  }

  /** Every accepted string is rebuilt exactly, and what parsing yields is
      well formed. */
  lemma RenderParse(s: string)
    requires Parse(s).Ok?
    ensures Render(Parse(s).value) == s && WellFormed(Parse(s).value)
  {
    SplitDigestShape(s);
    SplitTagShape(SplitDigest(s).value.0);
  }

  /** Accepted strings and well-formed triples correspond one to one: the
      outputs of parsing are exactly the well-formed triples, and a string is
      accepted with a given triple exactly when it is that triple's printed
      form. */
  lemma ParseBijection(s: string, r: ImageRef)
    ensures Parse(s) == Ok(r) <==> WellFormed(r) && Render(r) == s
  {
    if Parse(s) == Ok(r) {
      RenderParse(s);
    }
    if WellFormed(r) {
      ParseRender(r);
    }
  }

  /** What precedes the last at sign, or the whole string without one. */
  ghost predicate Precedes(remainder: string, s: string) {
    || ('@' !in s && remainder == s)
    || exists digest :: s == remainder + ("@" + digest) && '@' !in digest
  }

  /** Why a reference is refused, in the order the parser looks: it is empty,
      ends with its at sign, has no colon in its digest, ends the part before
      the digest with a colon, or has no name there. */
  lemma Refusals(s: string)
    ensures Parse(s) == Err(EmptyReference) <==> s == ""
    ensures Parse(s) == Err(EndsWithAt) <==> s != "" && s[|s| - 1] == '@'
    ensures Parse(s) == Err(BadDigest)
       <==> exists head, digest :: s == head + ("@" + digest) && '@' !in digest && digest != "" && ':' !in digest
    ensures SplitDigest(s).Ok? && s != "" ==>
      var remainder := SplitDigest(s).value.0;
      && Precedes(remainder, s)
      && (Parse(s) == Err(EmptyTag) <==> remainder != "" && remainder[|remainder| - 1] == ':')
      && (Parse(s) == Err(EmptyName) <==>
            remainder == "" || exists tag :: remainder == ":" + tag && tag != "" && ':' !in tag && '/' !in tag)
  {
    hide Suffixed;
    DigestRefusals(s);
    if SplitDigest(s).Ok? && s != "" {
      TagRefusals(SplitDigest(s).value.0);
    }
  }

  lemma DigestRefusals(s: string)
    ensures SplitDigest(s) == Err(EndsWithAt) <==> s != "" && s[|s| - 1] == '@'
    ensures SplitDigest(s) == Err(BadDigest)
       <==> exists head, digest :: s == head + ("@" + digest) && '@' !in digest && digest != "" && ':' !in digest
    ensures SplitDigest(s).Ok? ==> Precedes(SplitDigest(s).value.0, s)
    ensures SplitDigest(s).Err? ==> SplitDigest(s).error == EndsWithAt || SplitDigest(s).error == BadDigest
  {
    match LastIndex(s, '@')
    case Some(i) =>
      Uncut(s, i, '@');
      assert s == s[..i] + ("@" + s[i + 1..]) && '@' !in s[i + 1..];
      forall head, digest | s == head + ("@" + digest) && '@' !in digest
        ensures digest == s[i + 1..]
      {
        LastIndexAfter(head, digest, '@');
        CutAt(head, digest, '@');
      }
    case None =>
      forall head, digest {
        AtSignInside(head, digest);
      }
  }

  lemma AtSignInside(head: string, digest: string)
    ensures '@' in head + ("@" + digest)
  {
    assert (head + ("@" + digest))[|head|] == '@';
  }

  lemma TagRefusals(remainder: string)
    ensures SplitTag(remainder) == Err(EmptyTag) <==> remainder != "" && remainder[|remainder| - 1] == ':'
    ensures SplitTag(remainder).Err? ==> SplitTag(remainder).error == EmptyTag
    ensures SplitTag(remainder).Ok? ==> (SplitTag(remainder).value.0 == "" <==>
      remainder == "" || exists tag :: remainder == ":" + tag && tag != "" && ':' !in tag && '/' !in tag)
  {
    var from := SegmentStart(remainder);
    var segment := remainder[from..];
    if remainder != "" && remainder[|remainder| - 1] == ':' {
      assert from < |remainder|;
      assert segment[|segment| - 1] == ':';
      LastIndexIs(segment, ':', |segment| - 1);
    }
    match LastIndex(segment, ':')
    case Some(rel) =>
      SplitTagShapeSome(remainder, from, rel);
      assert remainder[from + rel] == ':';
    case None =>
    if SplitTag(remainder).Ok? {
      SplitTagShape(remainder);
      forall tag | tag != "" && ':' !in tag && '/' !in tag {
        OnlyTag(tag);
      }
    }
  }

  lemma OnlyTag(tag: string)
    requires tag != "" && ':' !in tag && '/' !in tag
    ensures SplitTag(":" + tag) == Ok(("", Some(tag)))
  {
    assert ":" + tag == "" + ([':'] + tag);
    SplitTagSome("", tag);
  }
}
