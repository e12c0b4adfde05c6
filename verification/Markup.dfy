// mitm/kosher_filter.py `_injection_point`: where a script tag can go into a page, and
// the two tags that go there.
module Markup {
  import opened Options
  import opened Walks

  // ---- characters, as the scanner's patterns compare them ----

  // White space as `\s` matches it in a str pattern.
  predicate IsSpace(c: char) {
    || c == ' ' || '\t' <= c <= '\r' || '\U{1c}' <= c <= '\U{1f}' || c == '\U{85}' || c == '\U{a0}'
    || c == '\U{1680}' || '\U{2000}' <= c <= '\U{200a}' || c == '\U{2028}' || c == '\U{2029}'
    || c == '\U{202f}' || c == '\U{205f}' || c == '\U{3000}'
  }

  // [\s>/]
  predicate EndsName(c: char) { IsSpace(c) || c == '>' || c == '/' }

  // One spelling for letters that match without regard to case: the ASCII ones, and
  // the few others a pattern of ASCII letters also matches.
  function Fold(c: char): char {
    if 'A' <= c <= 'Z' then (c as int + 32) as char
    else if c == '\U{17f}' then 's'
    else if c == '\U{130}' || c == '\U{131}' then 'i'
    else if c == '\U{212a}' then 'k'
    else c
  }

  function FoldAll(s: string): (r: string)
    ensures |r| == |s|
  {
    seq(|s|, i requires 0 <= i < |s| => Fold(s[i]))
  }

  // str.lower(): a capital I with a dot becomes two characters.
  function Lower(s: string): string {
    if s == "" then ""
    else (if s[0] == '\U{130}' then "i\U{307}"
          else if s[0] == '\U{212a}' then "k"
          else if 'A' <= s[0] <= 'Z' then [(s[0] as int + 32) as char]
          else [s[0]]) + Lower(s[1..])
  }

  const RAW_TEXT_ELEMENTS := {"script", "style", "textarea", "title", "xmp", "noscript", "iframe", "noembed", "noframes"}

  const END_NAMES := {"head", "body", "html"}

  // ---- one step of the scan, on the rest of the page ----

  // Where the name that starts at j ends.
  function NameEnd(s: string, j: nat): (k: nat)
    requires j <= |s|
    ensures j <= k <= |s|
    ensures forall p :: j <= p < k ==> !EndsName(s[p])
    ensures k < |s| ==> EndsName(s[k])
    decreases |s| - j
  {
    if j < |s| && !EndsName(s[j]) then NameEnd(s, j + 1) else j
  }

  function SpaceEnd(s: string, j: nat): (k: nat)
    requires j <= |s|
    ensures j <= k <= |s|
    ensures forall p :: j <= p < k ==> IsSpace(s[p])
    ensures k < |s| ==> !IsSpace(s[k])
    decreases |s| - j
  {
    if j < |s| && IsSpace(s[j]) then SpaceEnd(s, j + 1) else j
  }

  // What starts here: `size` is the length of what the pattern matches.
  datatype Token =
    | Comment
    | Raw(name: string, size: nat)
    | End(name: string, size: nat)
    | Text

  function TokenAt(s: string): (t: Token)
    ensures t.Raw? ==> t.size < |s| && s[0] == '<'
    ensures t.End? ==> 0 < t.size <= |s| && s[0] == '<'
    ensures t.Comment? ==> 4 <= |s| && s[0] == '<'
  {
    if "<!--" <= s then Comment
    else if s == "" || s[0] != '<' then Text
    else if |s| > 1 && s[1] == '/' then
      var k := NameEnd(s, 2);
      var m := SpaceEnd(s, k);
      if FoldAll(s[2..k]) in END_NAMES && m < |s| && s[m] == '>' then End(FoldAll(s[2..k]), m + 1) else Text
    else
      var k := NameEnd(s, 1);
      if k < |s| && FoldAll(s[1..k]) in RAW_TEXT_ELEMENTS then Raw(Lower(s[1..k]), k) else Text
  }

  // The first "-->" at or after j, or the length.
  function CommentClose(s: string, j: nat): (k: nat)
    requires j <= |s|
    ensures j <= k <= |s|
    ensures k < |s| ==> "-->" <= s[k..]
    decreases |s| - j
  {
    if j == |s| then j else if "-->" <= s[j..] then j else CommentClose(s, j + 1)
  }

  // An end tag of this raw text element starts at j.
  predicate ClosesAt(s: string, name: string, j: nat)
    requires j <= |s|
  {
    && j + 2 + |name| < |s|
    && s[j] == '<' && s[j + 1] == '/'
    && FoldAll(s[j + 2..j + 2 + |name|]) == FoldAll(name)
    && EndsName(s[j + 2 + |name|])
  }

  function RawClose(s: string, name: string, j: nat): (k: nat)
    requires j <= |s|
    ensures j <= k <= |s|
    ensures k < |s| ==> ClosesAt(s, name, k)
    ensures forall p :: j <= p < k ==> !ClosesAt(s, name, p)
    decreases |s| - j
  {
    if j == |s| then j else if ClosesAt(s, name, j) then j else RawClose(s, name, j + 1)
  }

  predicate Fits(t: Token, s: string) {
    match t case Text => s != "" case End(_, size) => 0 < size <= |s| case Comment => 4 <= |s| case Raw(_, size) => size < |s|
  }

  // How far the scan goes on from a token: none inside a comment or raw text element
  // that never ends.
  function SkipToken(s: string, t: Token): (n: Option<nat>)
    requires Fits(t, s)
    ensures n.Some? ==> 0 < n.value <= |s|
  {
    match t
    case Text => Some(1)
    case End(_, size) => Some(size)
    case Comment =>
      var k := CommentClose(s, 4);
      if k == |s| then None else Some(k + 3)
    case Raw(name, size) =>
      var k := RawClose(s, name, size);
      if k == |s| then None else Some(k + 3 + |name|)
  }

  function Skip(s: string): (n: Option<nat>)
    requires s != ""
    ensures n.Some? ==> 0 < n.value <= |s|
  {
    SkipToken(s, TokenAt(s))
  }

  // What the scan does at the front of a text.
  function Step(s: string): Look
  {
    if s == "" then PLAIN
    else match Skip(s)
      case None => Stuck
      case Some(n) => Go(n, if TokenAt(s).End? then Some(TokenAt(s).name) else None)
  }

  function Scanner(): string -> Look { s => Step(s) }

  function InjectionPoint(page: string): Option<nat> { Point(page, Scanner()) }

  // `_injection_point`.
  method FindInjectionPoint(page: string) returns (at: Option<nat>)
    ensures at == InjectionPoint(page)
  {
    at := FindPoint(page, Scanner());
  }

  lemma SeesStep(page: string, pos: nat)
    requires pos < |page|
    ensures See(page, pos, Scanner()) == Step(page[pos..])
    ensures See(page, pos, Scanner()).Stuck? <==> Skip(page[pos..]).None?
  {
  }

  // The offset is the first </head> in markup, else the first </body>, else the first
  // </html>, else the end of the page, and never inside a comment or a raw text
  // element; there is none exactly when the page ends inside one of those.
  lemma {:induction false} InjectionPointIsInMarkup(page: string)
    ensures match InjectionPoint(page)
      case None => exists at: nat :: at < |page| && Visits(page, 0, at, Scanner()) && Skip(page[at..]).None?
      case Some(at) =>
        && (forall x: nat :: x < |page| && Visits(page, 0, x, Scanner()) ==> Skip(page[x..]).Some?)
        && at <= |page| && Visits(page, 0, at, Scanner())
        && (|| FirstEndTag(page, "head", at, Scanner())
            || (NoEndTag(page, "head", Scanner()) && FirstEndTag(page, "body", at, Scanner()))
            || (NoEndTag(page, "head", Scanner()) && NoEndTag(page, "body", Scanner()) && FirstEndTag(page, "html", at, Scanner()))
            || (NoEndTag(page, "head", Scanner()) && NoEndTag(page, "body", Scanner()) && NoEndTag(page, "html", Scanner())
                && at == |page|))
  {
    PointIsInMarkup(page, Scanner());
    forall x: nat | x < |page| ensures See(page, x, Scanner()).Stuck? <==> Skip(page[x..]).None? {
      SeesStep(page, x);
    }
  }

  // ---- a script tag put there ----

  function ScriptTag(attrs: string): string { "<script " + attrs + "></script>" }

  lemma {:induction false} NameEndSame(s: string, t: string, j: nat, k: nat)
    requires Cut(s, t, k) && j <= k
    ensures if NameEnd(s, j) < k then NameEnd(t, j) == NameEnd(s, j) else NameEnd(t, j) > k
    decreases k - j
  {
    if j < k {
      assert s[j] == s[..k][j] == t[..k][j] == t[j];
      if !EndsName(s[j]) {
        NameEndSame(s, t, j + 1, k);
      }
    }
  }

  lemma {:induction false} SpaceEndSame(s: string, t: string, j: nat, k: nat)
    requires Cut(s, t, k) && j <= k
    ensures if SpaceEnd(s, j) < k then SpaceEnd(t, j) == SpaceEnd(s, j) else SpaceEnd(s, j) == k == SpaceEnd(t, j)
    decreases k - j
  {
    if j < k {
      assert s[j] == s[..k][j] == t[..k][j] == t[j];
      if IsSpace(s[j]) {
        SpaceEndSame(s, t, j + 1, k);
      }
    }
  }

  // No element name holds a "<".
  lemma NamesHaveNoAngle(name: string)
    requires '<' in name
    ensures FoldAll(name) !in RAW_TEXT_ELEMENTS && FoldAll(name) !in END_NAMES
  {
    var i :| 0 <= i < |name| && name[i] == '<';
    assert FoldAll(name)[i] == '<';
    assert forall n <- RAW_TEXT_ELEMENTS :: '<' !in n;
    assert forall n <- END_NAMES :: '<' !in n;
  }

  // How much of the text a token's pattern looks at.
  function Opening(t: Token): nat {
    match t case Comment => 4 case Raw(_, size) => size + 1 case End(_, size) => size case Text => 0
  }

  lemma SameSlice(s: string, t: string, k: nat, a: nat, b: nat)
    requires k <= |s| && k <= |t| && s[..k] == t[..k] && a <= b <= k
    ensures s[a..b] == t[a..b]
  {
    assert s[a..b] == s[..k][a..b] && t[a..b] == t[..k][a..b];
  }

  lemma SameChar(s: string, t: string, k: nat, i: nat)
    requires Cut(s, t, k) && i < k
    ensures s[i] == t[i]
  {
    assert s[i] == s[..k][i] == t[..k][i];
  }

  lemma CommentStartSame(s: string, t: string, k: nat)
    requires Cut(s, t, k) && k >= 1
    ensures "<!--" <= s && 4 <= k ==> "<!--" <= t
    ensures "<!--" <= t ==> 4 <= k && "<!--" <= s
  {
    if "<!--" <= t {
      assert forall i :: 0 <= i < 4 ==> t[i] == "<!--"[i];
      assert 4 <= k;
    }
    if 4 <= k {
      SameSlice(s, t, k, 0, 4);
    }
  }

  lemma TokenSame(s: string, t: string, k: nat)
    requires Cut(s, t, k) && k >= 1 && Opening(TokenAt(s)) <= k
    ensures TokenAt(t) == TokenAt(s)
  {
    SameChar(s, t, k, 0);
    CommentStartSame(s, t, k);
    if !("<!--" <= s) && s[0] == '<' {
      if k >= 2 {
        SameChar(s, t, k, 1);
      }
      if k >= 2 && s[1] == '/' {
        EndTokenSame(s, t, k);
      } else {
        RawTokenSame(s, t, k);
      }
    }
  }

  lemma RawTokenSame(s: string, t: string, k: nat)
    requires Cut(s, t, k) && k >= 1 && s[0] == '<' && t[0] == '<' && Opening(TokenAt(s)) <= k
    requires !("<!--" <= s) && !("<!--" <= t) && (k >= 2 ==> s[1] != '/' && t[1] != '/')
    ensures TokenAt(t) == TokenAt(s)
  {
    var e, f := NameEnd(s, 1), NameEnd(t, 1);
    NameEndSame(s, t, 1, k);
    if e < k {
      SameSlice(s, t, k, 1, e);
    } else {
      assert t[1..f][k - 1] == '<';
      NamesHaveNoAngle(t[1..f]);
      if e > k {
        assert s[1..e][k - 1] == '<';
        NamesHaveNoAngle(s[1..e]);
      }
    }
  }

  lemma EndTokenSame(s: string, t: string, k: nat)
    requires Cut(s, t, k) && k >= 2 && s[0] == '<' && t[0] == '<' && s[1] == '/' && t[1] == '/' && Opening(TokenAt(s)) <= k
    ensures TokenAt(t) == TokenAt(s)
  {
    var e, f := NameEnd(s, 2), NameEnd(t, 2);
    NameEndSame(s, t, 2, k);
    if e < k {
      SameSlice(s, t, k, 2, e);
      SpaceEndSame(s, t, e, k);
      var m := SpaceEnd(s, e);
      if m < k {
        assert s[m] == s[..k][m] == t[..k][m] == t[m];
      }
    } else {
      assert t[2..f][k - 2] == '<';
      NamesHaveNoAngle(t[2..f]);
      if e > k {
        assert s[2..e][k - 2] == '<';
        NamesHaveNoAngle(s[2..e]);
      }
    }
  }

  lemma {:induction false} CommentCloseSame(s: string, t: string, j: nat, k: nat)
    requires Cut(s, t, k) && j <= k && CommentClose(s, j) + 3 <= k
    ensures CommentClose(t, j) == CommentClose(s, j)
    decreases k - j
  {
    SameSlice(s, t, k, j, j + 3);
    assert "-->" <= s[j..] <==> s[j..j + 3] == "-->";
    assert "-->" <= t[j..] <==> t[j..j + 3] == "-->";
    if !("-->" <= s[j..]) {
      CommentCloseSame(s, t, j + 1, k);
    }
  }

  lemma {:induction false} RawCloseSame(s: string, t: string, name: string, j: nat, k: nat)
    requires Cut(s, t, k) && j <= k && RawClose(s, name, j) + 3 + |name| <= k
    ensures RawClose(t, name, j) == RawClose(s, name, j)
    decreases k - j
  {
    var e := j + 3 + |name|;
    SameSlice(s, t, k, j, e);
    assert s[j] == s[j..e][0] && s[j + 1] == s[j..e][1] && s[e - 1] == s[j..e][e - 1 - j];
    assert t[j] == t[j..e][0] && t[j + 1] == t[j..e][1] && t[e - 1] == t[j..e][e - 1 - j];
    SameSlice(s, t, k, j + 2, e - 1);
    assert ClosesAt(s, name, j) == ClosesAt(t, name, j);
    if !ClosesAt(s, name, j) {
      RawCloseSame(s, t, name, j + 1, k);
    }
  }

  lemma SkipTokenSame(s: string, t: string, token: Token, k: nat)
    requires Cut(s, t, k) && Fits(token, s) && SkipToken(s, token).Some? && SkipToken(s, token).value <= k
    ensures Opening(token) <= k && Fits(token, t) && SkipToken(t, token) == SkipToken(s, token)
  {
    match token
    case Comment => CommentCloseSame(s, t, 4, k);
    case Raw(name, size) => RawCloseSame(s, t, name, size, k);
    case _ =>
  }

  lemma SkipSame(s: string, t: string, k: nat)
    requires Cut(s, t, k) && k >= 1 && Skip(s).Some? && Skip(s).value <= k
    ensures TokenAt(t) == TokenAt(s) && Skip(t) == Skip(s)
  {
    var token := TokenAt(s);
    SkipTokenSame(s, t, token, k);
    TokenSame(s, t, k);
  }

  lemma {:induction false} LowerOfLower(s: string)
    requires forall i :: 0 <= i < |s| ==> 'a' <= s[i] <= 'z'
    ensures Lower(s) == s && FoldAll(s) == s
  {
    if s != "" {
      LowerOfLower(s[1..]);
    }
  }

  lemma NameOfScript(rest: string)
    ensures var s := "<script " + rest;
      NameEnd(s, 1) == 7 && s[1..7] == "script" && s[0] == '<' && s[1] == 's'
  {
    var s := "<script " + rest;
    assert s[..8] == "<script ";
    assert s[1..7] == s[..8][1..7] == "script";
    assert forall p :: 0 <= p < 8 ==> s[p] == s[..8][p];
    assert s[1] == 's' && s[2] == 'c' && s[3] == 'r' && s[4] == 'i' && s[5] == 'p' && s[6] == 't' && s[7] == ' ';
  }

  lemma OpensRaw(s: string, k: nat, name: string)
    requires |s| > 1 && s[0] == '<' && s[1] != '/' && s[1] != '!'
    requires NameEnd(s, 1) == k < |s| && FoldAll(s[1..k]) in RAW_TEXT_ELEMENTS && Lower(s[1..k]) == name
    ensures TokenAt(s) == Raw(name, k)
  {
    assert "<!--"[1] == '!';
  }

  lemma OpensScript(rest: string)
    ensures TokenAt("<script " + rest) == Raw("script", 7)
  {
    NameOfScript(rest);
    LowerOfLower("script");
    OpensRaw("<script " + rest, 7, "script");
  }

  lemma ClosesHere(front: string, rest: string)
    ensures ClosesAt(front + ("</script>" + rest), "script", |front|)
  {
    var s, c := front + ("</script>" + rest), |front|;
    var e := s[c..c + 9];
    assert e == "</script>";
    assert s[c] == e[0] && s[c + 1] == e[1] && s[c + 8] == e[8];
    assert s[c + 2..c + 8] == e[2..8] == "script";
    LowerOfLower("script");
  }

  // The first end tag is the first "<".
  lemma ClosesFirst(front: string, rest: string, j: nat)
    requires j <= |front| && '<' !in front[j..]
    ensures RawClose(front + ("</script>" + rest), "script", j) == |front|
  {
    var s := front + ("</script>" + rest);
    ClosesHere(front, rest);
    forall p | j <= p < |front| ensures s[p] != '<' {
      assert s[p] == front[j..][p - j];
    }
  }

  lemma ScriptCloses(attrs: string, rest: string)
    requires '<' !in attrs
    ensures 7 < |ScriptTag(attrs) + rest|
    ensures RawClose(ScriptTag(attrs) + rest, "script", 7) == |ScriptTag(attrs)| - 9
  {
    var front := "<script " + attrs + ">";
    assert front[7..] == " " + attrs + ">";
    ClosesFirst(front, rest, 7);
    assert ScriptTag(attrs) + rest == front + ("</script>" + rest);
  }

  // A script tag with no "<" in its attributes is one raw text element, whatever
  // follows it.
  lemma ScriptTagIsOneElement(attrs: string, rest: string)
    requires '<' !in attrs
    ensures Step(ScriptTag(attrs) + rest) == Go(|ScriptTag(attrs)|, None)
  {
    var s := ScriptTag(attrs) + rest;
    assert s == "<script " + (attrs + "></script>" + rest);
    OpensScript(attrs + "></script>" + rest);
    ScriptCloses(attrs, rest);
    RawIsPassed(s, "script", 7, |ScriptTag(attrs)| - 9);
  }

  lemma RawIsPassed(s: string, name: string, k: nat, close: nat)
    requires k < |s| && TokenAt(s) == Raw(name, k) && RawClose(s, name, k) == close < |s|
    ensures Step(s) == Go(close + 3 + |name|, None)
  {
  }

  lemma ScriptTagIsPassed(attrs: string)
    requires '<' !in attrs
    ensures PassedOver(ScriptTag(attrs), Scanner()) && ScriptTag(attrs) != "" && ScriptTag(attrs)[0] == '<'
  {
    forall rest: string ensures Step(ScriptTag(attrs) + rest) == Go(|ScriptTag(attrs)|, None) {
      ScriptTagIsOneElement(attrs, rest);
    }
  }

  lemma EndTagsStartWithAngle()
    ensures EndsWithAngle(Scanner())
  {
  }

  lemma ScannerIsLocal()
    ensures Local(Scanner())
  {
    forall s: string, t: string, k | Cut(s, t, k) && k >= 1 && Step(s).Go? && Step(s).n <= k ensures Step(t) == Step(s) {
      SkipSame(s, t, k);
    }
  }

  lemma ScannerPassesScripts(attrs: string)
    requires '<' !in attrs
    ensures Passes(Scanner(), ScriptTag(attrs))
  {
    ScannerIsLocal();
    ScriptTagIsPassed(attrs);
    EndTagsStartWithAngle();
  }
}
