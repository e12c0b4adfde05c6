// scripts/version.py: version numbers, the step a set of commit messages asks for,
// and the version that follows another.
module Versions {
  import opened Options
  import opened Numerals

  datatype Result<T> = Ok(value: T) | Err(error: string)

  // Release is MAJOR.MINOR.PATCH; Legacy is the old MAJOR.MINOR.PATCH-pre.N series.
  datatype Version =
    | Release(major: nat, minor: nat, patch: nat)
    | Legacy(major: nat, minor: nat, patch: nat, pre: nat)

  datatype Kind = PatchStep | MinorStep | MajorStep

  // ---- text ----

  predicate IsBlank(c: char) {
    c == ' ' || '\t' <= c <= '\r' || '\U{1c}' <= c <= '\U{1f}' || c == '\U{85}' || c == '\U{a0}'
  }

  function StripLeft(text: string): (r: string)
    ensures r == [] || !IsBlank(r[0])
  {
    if text != [] && IsBlank(text[0]) then StripLeft(text[1..]) else text
  }

  function StripRight(text: string): (r: string)
    ensures r <= text
    ensures r == [] || !IsBlank(r[|r| - 1])
  {
    if text != [] && IsBlank(text[|text| - 1]) then StripRight(text[..|text| - 1]) else text
  }

  function Strip(text: string): string { StripRight(StripLeft(text)) }

  predicate StartsWith(text: string, prefix: string) { prefix <= text }

  // One numeral at the front of the text, and what follows it.
  function ReadNumber(text: string): Option<(nat, string)> {
    var k := LeadingDigits(text);
    if k == 0 then None else Some((DecimalValue(text[..k]), text[k..]))
  }

  // ---- parse and fmt ----

  function ParsePre(major: nat, minor: nat, patch: nat, rest: string): Result<Version> {
    if rest == "" then Ok(Release(major, minor, patch))
    else if !StartsWith(rest, "-pre.") then Err("not MAJOR.MINOR.PATCH")
    else match ReadNumber(rest[5..])
      case Some((pre, "")) => Ok(Legacy(major, minor, patch, pre))
      case _ => Err("not MAJOR.MINOR.PATCH")
  }

  function ParsePatch(major: nat, minor: nat, rest: string): Result<Version> {
    if rest == "" then Ok(Release(major, minor, 0))
    else if rest[0] != '.' then Err("not MAJOR.MINOR.PATCH")
    else match ReadNumber(rest[1..])
      case Some((patch, tail)) => ParsePre(major, minor, patch, tail)
      case None => Err("not MAJOR.MINOR.PATCH")
  }

  function ParseMinor(major: nat, rest: string): Result<Version> {
    if rest == "" || rest[0] != '.' then Err("not MAJOR.MINOR.PATCH")
    else match ReadNumber(rest[1..])
      case Some((minor, tail)) => ParsePatch(major, minor, tail)
      case None => Err("not MAJOR.MINOR.PATCH")
  }

  function Parse(text: string): Result<Version> {
    match ReadNumber(Strip(text))
    case Some((major, tail)) => ParseMinor(major, tail)
    case None => Err("not MAJOR.MINOR.PATCH")
  }

  function Fmt(major: nat, minor: nat, patch: nat): string {
    Decimal(major) + "." + Decimal(minor) + "." + Decimal(patch)
  }

  lemma ReadNumberOf(n: nat, rest: string)
    requires rest == [] || !IsDecimal(rest[0])
    ensures ReadNumber(Decimal(n) + rest) == Some((n, rest))
  {
    var text := Decimal(n) + rest;
    LeadingDigitsOf(Decimal(n), rest);
    assert text[..|Decimal(n)|] == Decimal(n) && text[|Decimal(n)|..] == rest;
    DecimalRoundTrip(n);
  }

  lemma StripNothing(text: string)
    requires text != [] && !IsBlank(text[0]) && !IsBlank(text[|text| - 1])
    ensures Strip(text) == text
  {
  }

  lemma ParsePatchOf(major: nat, minor: nat, patch: nat, tail: string)
    requires tail == [] || !IsDecimal(tail[0])
    ensures ParsePatch(major, minor, "." + Decimal(patch) + tail) == ParsePre(major, minor, patch, tail)
  {
    var rest := "." + Decimal(patch) + tail;
    assert rest[1..] == Decimal(patch) + tail;
    ReadNumberOf(patch, tail);
  }

  lemma ParseMinorOf(major: nat, minor: nat, tail: string)
    requires tail != [] && tail[0] == '.'
    ensures ParseMinor(major, "." + Decimal(minor) + tail) == ParsePatch(major, minor, tail)
  {
    var rest := "." + Decimal(minor) + tail;
    assert rest[1..] == Decimal(minor) + tail;
    ReadNumberOf(minor, tail);
  }

  // The text of a version, as its tag names it.
  function Text(v: Version): string {
    Fmt(v.major, v.minor, v.patch) + match v case Release(_, _, _) => "" case Legacy(_, _, _, pre) => "-pre." + Decimal(pre)
  }

  lemma ParseTail(v: Version)
    ensures var tail := match v case Release(_, _, _) => "" case Legacy(_, _, _, pre) => "-pre." + Decimal(pre);
      (tail == [] || !IsDecimal(tail[0])) && ParsePre(v.major, v.minor, v.patch, tail) == Ok(v)
  {
    if v.Legacy? {
      var tail := "-pre." + Decimal(v.pre);
      assert tail[5..] == Decimal(v.pre) + "";
      ReadNumberOf(v.pre, "");
    }
  }

  // Reading back a written version, plain or of the old series, gives the same numbers.
  lemma ParseText(v: Version)
    ensures Parse(Text(v)) == Ok(v)
  {
    var tail := match v case Release(_, _, _) => "" case Legacy(_, _, _, pre) => "-pre." + Decimal(pre);
    var text := Text(v);
    var patchPart := "." + Decimal(v.patch) + tail;
    var minorPart := "." + Decimal(v.minor) + patchPart;
    assert text == Decimal(v.major) + minorPart;
    assert Strip(text) == text by {
      assert IsDecimal(text[0]) && IsDecimal(text[|text| - 1]);
      StripNothing(text);
    }
    ParseTail(v);
    ReadNumberOf(v.major, minorPart);
    ParseMinorOf(v.major, v.minor, patchPart);
    ParsePatchOf(v.major, v.minor, v.patch, tail);
  }

  lemma ParseFmt(major: nat, minor: nat, patch: nat)
    ensures Parse(Fmt(major, minor, patch)) == Ok(Release(major, minor, patch))
  {
    ParseText(Release(major, minor, patch));
    assert Text(Release(major, minor, patch)) == Fmt(major, minor, patch);
  }

  // Two different versions never share a tag name, so a remote's tags can be
  // keyed by version.
  lemma TagNamesDistinct(v: Version, w: Version)
    ensures Text(v) == Text(w) <==> v == w
  {
    ParseText(v);
    ParseText(w);
  }

  // ---- what a commit message asks for ----

  predicate IsLineEnd(c: char) {
    '\n' <= c <= '\r' || '\U{1c}' <= c <= '\U{1e}' || c == '\U{85}' || c == '\U{2028}' || c == '\U{2029}'
  }

  function FirstLine(text: string): string {
    if text == [] || IsLineEnd(text[0]) then [] else [text[0]] + FirstLine(text[1..])
  }

  predicate IsWord(c: char) { 'a' <= c <= 'z' || 'A' <= c <= 'Z' || '0' <= c <= '9' || c == '_' }

  function Lower(c: char): char {
    if 'A' <= c <= 'Z' then (c as int + 32) as char else c
  }

  // What follows an optional parenthesised scope.
  function AfterScope(text: string): string {
    if text != [] && text[0] == '(' then
      var close := FindChar(text, ')');
      if close < |text| then text[close + 1..] else text
    else text
  }

  function FindChar(text: string, c: char): (k: nat)
    ensures k <= |text|
  {
    if text == [] || text[0] == c then 0 else 1 + FindChar(text[1..], c)
  }

  // ^feat(\([^)]*\))?!?: without regard to case
  predicate IsFeature(subject: string) {
    && |subject| >= 4
    && Lower(subject[0]) == 'f' && Lower(subject[1]) == 'e' && Lower(subject[2]) == 'a' && Lower(subject[3]) == 't'
    && var rest := AfterScope(subject[4..]);
       StartsWith(rest, ":") || StartsWith(rest, "!:")
  }

  function LeadingWord(text: string): (k: nat)
    ensures k <= |text|
  {
    if text != [] && IsWord(text[0]) then 1 + LeadingWord(text[1..]) else 0
  }

  // ^\w+(\([^)]*\))?!:
  predicate IsBreakingType(subject: string) {
    var k := LeadingWord(subject);
    k > 0 && StartsWith(AfterScope(subject[k..]), "!:")
  }

  // \bBREAKING[ -]CHANGE\b at position i
  predicate BreakingAt(message: string, i: nat)
    requires i <= |message|
  {
    && (StartsWith(message[i..], "BREAKING CHANGE") || StartsWith(message[i..], "BREAKING-CHANGE"))
    && (i == 0 || !IsWord(message[i - 1]))
    && (i + 15 == |message| || (i + 15 < |message| && !IsWord(message[i + 15])))
  }

  predicate HasBreakingBody(message: string) {
    exists i :: 0 <= i < |message| && BreakingAt(message, i)
  }

  predicate AsksForMinor(message: string) {
    var text := Strip(message);
    && text != []
    && var subject := Strip(FirstLine(text));
       IsFeature(subject) || IsBreakingType(subject) || HasBreakingBody(text)
  }

  // The step a list of messages asks for: the first message that asks for a minor
  // step decides, and never a major one.
  function KindBy(messages: seq<string>, asks: string -> bool): Kind {
    if messages == [] then PatchStep
    else if asks(messages[0]) then MinorStep
    else KindBy(messages[1..], asks)
  }

  function KindOf(messages: seq<string>): Kind { KindBy(messages, (m: string) => AsksForMinor(m)) }

  lemma {:induction false} KindByAny(messages: seq<string>, asks: string -> bool)
    ensures KindBy(messages, asks) == if exists m :: m in messages && asks(m) then MinorStep else PatchStep
  {
    if messages != [] {
      KindByAny(messages[1..], asks);
      assert messages == [messages[0]] + messages[1..];
    }
  }

  // One message that asks for a minor step is enough, wherever it stands.
  lemma KindOfAny(messages: seq<string>)
    ensures KindOf(messages) == if exists m :: m in messages && AsksForMinor(m) then MinorStep else PatchStep
  {
    var asks := (m: string) => AsksForMinor(m);
    KindByAny(messages, asks);
    assert forall m :: asks(m) == AsksForMinor(m);
  }

  // ---- the version that follows ----

  function Next(v: Version, kind: Kind): Version
    requires kind != MajorStep
  {
    match v
    case Legacy(major, minor, patch, _) => Release(major, minor, patch)
    case Release(major, minor, patch) =>
      if kind == MinorStep then Release(major, minor + 1, 0) else Release(major, minor, patch + 1)
  }

  // next_version on text, with its errors.
  function NextVersion(text: string, kind: Kind): Result<string> {
    match Parse(text)
    case Err(e) => Err(e)
    case Ok(v) =>
      if v.Release? && kind == MajorStep then Err("a major version is a decision")
      else
        var w := Next(v, if kind == MajorStep then PatchStep else kind);
        Ok(Fmt(w.major, w.minor, w.patch))
  }

  predicate Precedes(v: Version, w: Version) {
    || v.major < w.major
    || (v.major == w.major && v.minor < w.minor)
    || (v.major == w.major && v.minor == w.minor && v.patch < w.patch)
    || (v.major == w.major && v.minor == w.minor && v.patch == w.patch && v.Legacy? && w.Release?)
    || (v.major == w.major && v.minor == w.minor && v.patch == w.patch && v.Legacy? && w.Legacy? && v.pre < w.pre)
  }

  // A written version, plain or of the old series, steps to a strictly later plain one
  // that parses to the model's Next, whatever the step; a major step is refused on exactly
  // the plain ones, and one of the old series becomes its own release by any step.
  lemma {:induction false} NextVersionParses(v: Version, kind: Kind)
    ensures match NextVersion(Text(v), kind)
      case Err(_) => v.Release? && kind == MajorStep
      case Ok(text) =>
        && (v.Release? ==> kind != MajorStep)
        && var w := Next(v, if kind == MajorStep then PatchStep else kind);
           text == Text(w) && Parse(text) == Ok(w) && w.Release? && Precedes(v, w)
  {
    ParseText(v);
    if kind != MajorStep || v.Legacy? {
      var w := Next(v, if kind == MajorStep then PatchStep else kind);
      ParseText(w);
      assert Text(w) == Fmt(w.major, w.minor, w.patch);
    }
  }
}
