// The scan of a page as a walk: at each position it looks at the rest of the page, may
// find an end tag there, and goes on by so many characters, or is stuck in something
// that never ends. `Markup` says what the look is.
module Walks {
  import opened Options

  // What there is at the front of a text: nothing that ever ends, or `n` characters to
  // go on by, an end tag among them or not.
  datatype Look = Stuck | Go(n: nat, end: Option<string>)

  const PLAIN := Go(1, None)

  datatype Tag = Tag(name: string, at: nat)

  // What is seen at a position; a look that would not go on within the page is stuck.
  function See(page: string, pos: nat, look: string -> Look): (l: Look)
    requires pos < |page|
    ensures l.Go? ==> 0 < l.n <= |page| - pos
  {
    var l := look(page[pos..]);
    if l.Go? && 0 < l.n <= |page| - pos then l else Stuck
  }

  function Here(look: Look, pos: nat): seq<Tag> {
    if look.Go? && look.end.Some? then [Tag(look.end.value, pos)] else []
  }

  function Prepend(here: seq<Tag>, rest: Option<seq<Tag>>): Option<seq<Tag>> {
    match rest case None => None case Some(tags) => Some(here + tags)
  }

  // The end tags from pos on; none when the walk gets stuck.
  function Walk(page: string, pos: nat, look: string -> Look): (tags: Option<seq<Tag>>)
    requires pos <= |page|
    decreases |page| - pos
  {
    if pos == |page| then Some([])
    else
      var l := See(page, pos, look);
      if l.Stuck? then None else Prepend(Here(l, pos), Walk(page, pos + l.n, look))
  }

  // The positions the walk stops at from pos on, the end of the page among them.
  ghost predicate Visits(page: string, pos: nat, at: nat, look: string -> Look)
    requires pos <= |page|
    decreases |page| - pos
  {
    pos == at || (pos < |page| && See(page, pos, look).Go? && Visits(page, pos + See(page, pos, look).n, at, look))
  }

  function FirstOf(tags: seq<Tag>, name: string): (at: Option<nat>)
  {
    if tags == [] then None
    else if tags[0].name == name then Some(tags[0].at)
    else FirstOf(tags[1..], name)
  }

  function Choose(tags: seq<Tag>, end: nat): nat {
    if FirstOf(tags, "head").Some? then FirstOf(tags, "head").value
    else if FirstOf(tags, "body").Some? then FirstOf(tags, "body").value
    else if FirstOf(tags, "html").Some? then FirstOf(tags, "html").value
    else end
  }

  function Point(page: string, look: string -> Look): Option<nat>
  {
    match Walk(page, 0, look)
    case None => None
    case Some(tags) => Some(Choose(tags, |page|))
  }

  lemma PrependTwice(a: seq<Tag>, b: seq<Tag>, rest: Option<seq<Tag>>)
    ensures Prepend(a, Prepend(b, rest)) == Prepend(a + b, rest)
    ensures Prepend([], rest) == rest
  {
    if rest.Some? {
      assert a + (b + rest.value) == a + b + rest.value;
      assert [] + rest.value == rest.value;
    }
  }

  // ---- the loop ----

  // `_MARKUP_RE.search`: the next position where something but text starts.
  method Search(page: string, pos: nat, look: string -> Look) returns (at: nat)
    requires pos <= |page|
    ensures pos <= at <= |page|
    ensures at < |page| ==> See(page, at, look) != PLAIN
    ensures Walk(page, pos, look) == Walk(page, at, look)
  {
    at := pos;
    while at < |page| && See(page, at, look) == PLAIN
      invariant pos <= at <= |page|
      invariant Walk(page, pos, look) == Walk(page, at, look)
    {
      PrependTwice([], [], Walk(page, at + 1, look));
      at := at + 1;
    }
  }

  // The first tag of each name so far, as `found.setdefault` keeps them.
  ghost predicate FoundIn(found: map<string, nat>, tags: seq<Tag>) {
    forall name :: FirstOf(tags, name) == if name in found then Some(found[name]) else None
  }

  lemma FoundMore(found: map<string, nat>, tags: seq<Tag>, here: seq<Tag>)
    requires FoundIn(found, tags) && |here| <= 1
    ensures FoundIn(if here == [] || here[0].name in found then found else found[here[0].name := here[0].at], tags + here)
  {
    var more := if here == [] || here[0].name in found then found else found[here[0].name := here[0].at];
    forall name ensures FirstOf(tags + here, name) == if name in more then Some(more[name]) else None {
      FirstOfJoined(tags, here, name);
      assert FirstOf(tags, name) == if name in found then Some(found[name]) else None;
      if here != [] {
        assert here[1..] == [];
        assert FirstOf(here[1..], name) == None;
      }
    }
  }

  lemma {:induction false} FirstOfJoined(a: seq<Tag>, b: seq<Tag>, name: string)
    ensures FirstOf(a + b, name) == if FirstOf(a, name).Some? then FirstOf(a, name) else FirstOf(b, name)
  {
    if a == [] {
      assert a + b == b;
    } else {
      assert (a + b)[1..] == a[1..] + b;
      FirstOfJoined(a[1..], b, name);
    }
  }

  method FindPoint(page: string, look: string -> Look) returns (at: Option<nat>)
    ensures at == Point(page, look)
  {
    var found: map<string, nat> := map[];
    var pos := 0;
    ghost var seen: seq<Tag> := [];
    PrependTwice([], [], Walk(page, 0, look));
    while true
      invariant 0 <= pos <= |page|
      invariant FoundIn(found, seen)
      invariant Walk(page, 0, look) == Prepend(seen, Walk(page, pos, look))
      decreases |page| - pos
    {
      pos := Search(page, pos, look);
      if pos == |page| {
        break;
      }
      var l := See(page, pos, look);
      if l.Stuck? {
        return None;
      }
      ghost var here := Here(l, pos);
      FoundMore(found, seen, here);
      PrependTwice(seen, here, Walk(page, pos + l.n, look));
      if l.end.Some? && l.end.value !in found {
        found := found[l.end.value := pos];
      }
      seen := seen + here;
      pos := pos + l.n;
    }
    assert seen + [] == seen;
    assert forall name :: FirstOf(seen, name).Some? <==> name in found;
    if "head" in found {
      return Some(found["head"]);
    }
    if "body" in found {
      return Some(found["body"]);
    }
    if "html" in found {
      return Some(found["html"]);
    }
    return Some(|page|);
  }

  // ---- the offset is in markup ----

  lemma {:induction false} VisitsAhead(page: string, pos: nat, at: nat, look: string -> Look)
    requires pos <= |page|
    ensures Visits(page, pos, at, look) ==> pos <= at <= |page|
    decreases |page| - pos
  {
    if pos < |page| && See(page, pos, look).Go? {
      VisitsAhead(page, pos + See(page, pos, look).n, at, look);
    }
  }

  // The walk is stuck exactly when it visits a position it cannot leave.
  lemma {:induction false} WalkIsStuck(page: string, pos: nat, look: string -> Look)
    requires pos <= |page|
    ensures Walk(page, pos, look).None? <==> exists at: nat :: at < |page| && Visits(page, pos, at, look) && See(page, at, look).Stuck?
    ensures Walk(page, pos, look).Some? ==> Visits(page, pos, |page|, look)
    decreases |page| - pos
  {
    if pos < |page| {
      var l := See(page, pos, look);
      if l.Stuck? {
        assert Visits(page, pos, pos, look);
      } else {
        WalkIsStuck(page, pos + l.n, look);
        assert forall at: nat :: Visits(page, pos, at, look) <==> at == pos || Visits(page, pos + l.n, at, look);
      }
    }
  }

  // The walk collects exactly the end tags at the positions it visits.
  lemma {:induction false} WalkCollects(page: string, pos: nat, tag: Tag, look: string -> Look)
    requires pos <= |page| && Walk(page, pos, look).Some?
    ensures tag in Walk(page, pos, look).value <==>
      tag.at < |page| && Visits(page, pos, tag.at, look) && See(page, tag.at, look).Go? && See(page, tag.at, look).end == Some(tag.name)
    decreases |page| - pos
  {
    if pos < |page| {
      var l := See(page, pos, look);
      WalkCollects(page, pos + l.n, tag, look);
      VisitsAhead(page, pos + l.n, tag.at, look);
    }
  }

  lemma {:induction false} WalkAscends(page: string, pos: nat, look: string -> Look)
    requires pos <= |page| && Walk(page, pos, look).Some?
    ensures var tags := Walk(page, pos, look).value;
      (forall i :: 0 <= i < |tags| ==> pos <= tags[i].at) && forall i, j :: 0 <= i < j < |tags| ==> tags[i].at < tags[j].at
    decreases |page| - pos
  {
    if pos < |page| {
      WalkAscends(page, pos + See(page, pos, look).n, look);
    }
  }

  // An end tag of this name is in markup at this position.
  ghost predicate EndTagIn(page: string, name: string, at: nat, look: string -> Look)
  {
    at < |page| && Visits(page, 0, at, look) && See(page, at, look).Go? && See(page, at, look).end == Some(name)
  }

  // The first end tag of this name in markup.
  ghost predicate FirstEndTag(page: string, name: string, at: nat, look: string -> Look)
  {
    EndTagIn(page, name, at, look) && forall other: nat :: EndTagIn(page, name, other, look) ==> at <= other
  }

  ghost predicate NoEndTag(page: string, name: string, look: string -> Look)
  {
    forall at: nat :: !EndTagIn(page, name, at, look)
  }

  lemma {:induction false} FirstOfIsIn(tags: seq<Tag>, name: string)
    ensures match FirstOf(tags, name)
      case None => forall at :: Tag(name, at) !in tags
      case Some(at) => exists i :: 0 <= i < |tags| && tags[i] == Tag(name, at) && forall j :: 0 <= j < i ==> tags[j].name != name
  {
    if tags != [] {
      var rest := tags[1..];
      FirstOfIsIn(rest, name);
      assert forall i :: 0 <= i < |rest| ==> rest[i] == tags[i + 1];
      if tags[0].name != name && FirstOf(rest, name).Some? {
        var i :| 0 <= i < |rest| && rest[i] == Tag(name, FirstOf(rest, name).value) && forall j :: 0 <= j < i ==> rest[j].name != name;
        assert forall j :: 0 <= j < i + 1 ==> tags[j].name != name by {
          forall j | 0 <= j < i + 1 ensures tags[j].name != name { if j > 0 { assert tags[j] == rest[j - 1]; } }
        }
        assert tags[i + 1] == Tag(name, FirstOf(rest, name).value);
      }
    }
  }

  // In ascending tags the first of a name is the least.
  lemma FirstIsLeast(tags: seq<Tag>, name: string)
    requires forall i, j :: 0 <= i < j < |tags| ==> tags[i].at < tags[j].at
    ensures match FirstOf(tags, name)
      case Some(at) => Tag(name, at) in tags && forall other :: Tag(name, other) in tags ==> at <= other
      case None => forall other :: Tag(name, other) !in tags
  {
    FirstOfIsIn(tags, name);
    match FirstOf(tags, name)
    case None =>
    case Some(at) =>
      var i :| 0 <= i < |tags| && tags[i] == Tag(name, at) && forall j :: 0 <= j < i ==> tags[j].name != name;
      forall other | Tag(name, other) in tags ensures at <= other {
        var j :| 0 <= j < |tags| && tags[j] == Tag(name, other);
        assert i <= j;
      }
  }

  lemma FirstOfWalk(page: string, name: string, look: string -> Look)
    requires Walk(page, 0, look).Some?
    ensures match FirstOf(Walk(page, 0, look).value, name)
      case Some(at) => FirstEndTag(page, name, at, look)
      case None => NoEndTag(page, name, look)
  {
    var tags := Walk(page, 0, look).value;
    WalkAscends(page, 0, look);
    FirstIsLeast(tags, name);
    forall other: nat ensures Tag(name, other) in tags <==> EndTagIn(page, name, other, look) {
      WalkCollects(page, 0, Tag(name, other), look);
    }
  }

  // The point is the first </head> in markup, else the first </body>, else the first
  // </html>, else the end of the page; there is none exactly when the walk gets stuck.
  lemma {:induction false} PointIsInMarkup(page: string, look: string -> Look)
    ensures match Point(page, look)
      case None => exists at: nat :: at < |page| && Visits(page, 0, at, look) && See(page, at, look).Stuck?
      case Some(at) =>
        && (forall x: nat :: x < |page| && Visits(page, 0, x, look) ==> See(page, x, look).Go?)
        && at <= |page| && Visits(page, 0, at, look)
        && (|| FirstEndTag(page, "head", at, look)
            || (NoEndTag(page, "head", look) && FirstEndTag(page, "body", at, look))
            || (NoEndTag(page, "head", look) && NoEndTag(page, "body", look) && FirstEndTag(page, "html", at, look))
            || (NoEndTag(page, "head", look) && NoEndTag(page, "body", look) && NoEndTag(page, "html", look) && at == |page|))
  {
    WalkIsStuck(page, 0, look);
    if Walk(page, 0, look).Some? {
      FirstOfWalk(page, "head", look);
      FirstOfWalk(page, "body", look);
      FirstOfWalk(page, "html", look);
    }
  }

  // ---- a tag put at the point ----

  function Inject(page: string, at: nat, tag: string): string
    requires at <= |page|
  {
    page[..at] + tag + page[at..]
  }

  // Two texts that agree up to k, where a "<" stands in each (or the first one ends).
  ghost predicate Cut(s: string, t: string, k: nat) {
    k <= |s| && k < |t| && s[..k] == t[..k] && (k == |s| || s[k] == '<') && t[k] == '<'
  }

  // What is seen before a cut does not depend on what follows the cut.
  ghost predicate Local(look: string -> Look) {
    forall s, t, k :: Cut(s, t, k) && k >= 1 && look(s).Go? && look(s).n <= k ==> look(t) == look(s)
  }

  // Up to a visited position, the walks of the two pages collect the same tags.
  lemma {:induction false} WalkSameBefore(page: string, more: string, pos: nat, at: nat, look: string -> Look) returns (before: seq<Tag>)
    requires Local(look)
    requires Cut(page, more, at) && pos <= at && Visits(page, pos, at, look)
    ensures forall i :: 0 <= i < |before| ==> before[i].at < at
    ensures Walk(page, pos, look) == Prepend(before, Walk(page, at, look))
    ensures Walk(more, pos, look) == Prepend(before, Walk(more, at, look))
    decreases at - pos
  {
    if pos == at {
      before := [];
      PrependTwice([], [], Walk(page, at, look));
      PrependTwice([], [], Walk(more, at, look));
    } else {
      var s, t := page[pos..], more[pos..];
      var l := See(page, pos, look);
      VisitsAhead(page, pos + l.n, at, look);
      assert s[..at - pos] == page[..at][pos..] == more[..at][pos..] == t[..at - pos];
      assert Cut(s, t, at - pos);
      assert look(t) == l && See(more, pos, look) == l;
      var rest := WalkSameBefore(page, more, pos + l.n, at, look);
      before := Here(l, pos) + rest;
      PrependTwice(Here(l, pos), rest, Walk(page, at, look));
      PrependTwice(Here(l, pos), rest, Walk(more, at, look));
    }
  }

  function Shift(tags: seq<Tag>, d: nat): seq<Tag> {
    if tags == [] then [] else [Tag(tags[0].name, tags[0].at + d)] + Shift(tags[1..], d)
  }

  function ShiftWalk(tags: Option<seq<Tag>>, d: nat): Option<seq<Tag>> {
    match tags case None => None case Some(ts) => Some(Shift(ts, d))
  }

  // The walk of a suffix does not depend on where it stands.
  lemma {:induction false} WalkShifts(page: string, more: string, pos: nat, d: nat, look: string -> Look)
    requires pos <= |page| && pos + d <= |more| && more[pos + d..] == page[pos..]
    ensures Walk(more, pos + d, look) == ShiftWalk(Walk(page, pos, look), d)
    decreases |page| - pos
  {
    assert |more| - d == |page|;
    if pos < |page| {
      var l := See(page, pos, look);
      if l.Go? {
        assert more[pos + l.n + d..] == more[pos + d..][l.n..] == page[pos..][l.n..] == page[pos + l.n..];
        WalkShifts(page, more, pos + l.n, d, look);
        if l.end.Some? && Walk(page, pos + l.n, look).Some? {
          var rest := Walk(page, pos + l.n, look).value;
          assert ([Tag(l.end.value, pos)] + rest)[1..] == rest;
        } else {
          PrependTwice([], [], Walk(page, pos + l.n, look));
          PrependTwice([], [], Walk(more, pos + l.n + d, look));
        }
      }
    }
  }

  lemma {:induction false} FirstOfShifted(tags: seq<Tag>, d: nat, name: string)
    ensures FirstOf(Shift(tags, d), name) ==
      match FirstOf(tags, name) case None => None case Some(at) => Some(at + d)
  {
    if tags != [] {
      assert Shift(tags, d)[1..] == Shift(tags[1..], d);
      FirstOfShifted(tags[1..], d, name);
    }
  }

  lemma {:induction false} FirstOfBefore(tags: seq<Tag>, at: nat, name: string)
    requires forall i :: 0 <= i < |tags| ==> tags[i].at < at
    ensures FirstOf(tags, name).Some? ==> FirstOf(tags, name).value < at
  {
    if tags != [] {
      FirstOfBefore(tags[1..], at, name);
    }
  }

  lemma FirstOfBoth(before: seq<Tag>, rest: seq<Tag>, at: nat, d: nat, name: string)
    requires forall i :: 0 <= i < |before| ==> before[i].at < at
    ensures var f, g := FirstOf(before + rest, name), FirstOf(before + Shift(rest, d), name);
      && (f.None? <==> g.None?)
      && (f == Some(at) ==> g == Some(at + d))
  {
    FirstOfJoined(before, rest, name);
    FirstOfJoined(before, Shift(rest, d), name);
    FirstOfShifted(rest, d, name);
    FirstOfBefore(before, at, name);
  }

  lemma ChooseShifted(before: seq<Tag>, rest: seq<Tag>, at: nat, d: nat, end: nat)
    requires Choose(before + rest, end) == at
    requires forall i :: 0 <= i < |before| ==> before[i].at < at
    ensures Choose(before + Shift(rest, d), end + d) == at + d
  {
    FirstOfBoth(before, rest, at, d, "head");
    FirstOfBoth(before, rest, at, d, "body");
    FirstOfBoth(before, rest, at, d, "html");
  }

  // Whatever follows it, the tag is passed over whole.
  ghost predicate PassedOver(tag: string, look: string -> Look) {
    forall rest: string :: look(tag + rest) == Go(|tag|, None)
  }

  ghost predicate EndsWithAngle(look: string -> Look) {
    forall s :: look(s).Go? && look(s).end.Some? ==> s != "" && s[0] == '<'
  }

  // A scan that looks no further than it goes, and a tag it passes over whole.
  ghost predicate Passes(look: string -> Look, tag: string) {
    Local(look) && EndsWithAngle(look) && PassedOver(tag, look) && tag != "" && tag[0] == '<'
  }

  lemma Injected(page: string, at: nat, tag: string)
    requires at <= |page| && tag != "" && tag[0] == '<' && (at == |page| || page[at] == '<')
    ensures var more := Inject(page, at, tag);
      && |more| == |page| + |tag| && Cut(page, more, at)
      && more[at..] == tag + page[at..] && more[at + |tag|..] == page[at..]
  {
    var more := Inject(page, at, tag);
    assert more[..at] == page[..at] && more[at..] == tag + page[at..];
    assert more[at] == more[at..][0];
  }

  lemma StepsOver(more: string, at: nat, tag: string, rest: string, look: string -> Look)
    requires at < |more| && more[at..] == tag + rest && tag != "" && PassedOver(tag, look)
    ensures Walk(more, at, look) == Walk(more, at + |tag|, look)
  {
    assert look(more[at..]) == Go(|tag|, None);
    PrependTwice([], [], Walk(more, at + |tag|, look));
  }

  lemma EndTagStartsWithAngle(page: string, name: string, at: nat, look: string -> Look)
    requires EndTagIn(page, name, at, look) && EndsWithAngle(look)
    ensures at < |page| && page[at] == '<'
  {
    assert page[at..][0] == page[at];
  }

  lemma PointStartsWithAngle(page: string, look: string -> Look)
    requires Point(page, look).Some? && EndsWithAngle(look)
    ensures var at := Point(page, look).value; at <= |page| && Visits(page, 0, at, look) && (at == |page| || page[at] == '<')
  {
    PointIsInMarkup(page, look);
    var at := Point(page, look).value;
    if name: string :| EndTagIn(page, name, at, look) {
      EndTagStartsWithAngle(page, name, at, look);
    }
  }

  // A tag that starts with "<" and is passed over whole, put at the point, moves the
  // point right behind itself. An end tag starts with "<".
  lemma PointMovesBehind(page: string, at: nat, tag: string, look: string -> Look)
    requires Passes(look, tag) && Point(page, look) == Some(at)
    ensures at <= |page| && Point(Inject(page, at, tag), look) == Some(at + |tag|)
  {
    PointStartsWithAngle(page, look);
    Injected(page, at, tag);
    WalksJoin(page, Inject(page, at, tag), at, tag, look);
  }

  lemma WalksJoin(page: string, more: string, at: nat, tag: string, look: string -> Look)
    requires Local(look) && PassedOver(tag, look) && tag != ""
    requires Point(page, look) == Some(at) && Visits(page, 0, at, look) && Cut(page, more, at)
    requires |more| == |page| + |tag| && more[at..] == tag + page[at..] && more[at + |tag|..] == page[at..]
    ensures Point(more, look) == Some(at + |tag|)
  {
    var d := |tag|;
    var before := WalkSameBefore(page, more, 0, at, look);
    WalkShifts(page, more, at, d, look);
    StepsOver(more, at, tag, page[at..], look);
    ChooseShifted(before, Walk(page, at, look).value, at, d, |page|);
  }

  // A second tag put at the point of the first page with a tag stands behind the first.
  lemma TwoTagsBehind(page: string, at: nat, first: string, second: string, look: string -> Look)
    requires Passes(look, first) && Passes(look, second) && Point(page, look) == Some(at)
    ensures at <= |page|
    ensures var once, twice := Inject(page, at, first), page[..at] + first + second + page[at..];
      && Point(once, look) == Some(at + |first|)
      && Inject(once, at + |first|, second) == twice
      && Point(twice, look) == Some(at + |first| + |second|)
  {
    PointMovesBehind(page, at, first, look);
    var once := Inject(page, at, first);
    assert once[..at + |first|] == page[..at] + first && once[at + |first|..] == page[at..];
    PointMovesBehind(once, at + |first|, second, look);
  }
}
