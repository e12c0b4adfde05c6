// mitm/kosher_calm.js `capFeed`: the two post names a JavaScript object cannot be asked
// about like any other, and exactly what pages they spoil.
module FeedNames {
  import opened Options
  import opened Numerals
  import opened FeedCap

  // ---- a pass in names alone ----

  // The names of the first n nodes' items, in order, and the numbers given out by then.
  function NamesTo(doc: Document, n: nat, byLink: bool, anon: nat): (r: (seq<string>, nat))
    requires n <= |doc|
  {
    if n == 0 then ([], anon)
    else
      var (names, last) := NamesTo(doc, n - 1, byLink, anon);
      if !Counts(doc[n - 1]) then (names, last)
      else
        var (item, number) := Named(doc[n - 1].item, byLink, last);
        (names + [NameOf(item, byLink).value], number)
  }

  // What counting these names in turn makes of a count, up to the one that breaks it.
  function Tally(seen: Seen, names: seq<string>, items: nat): Seen {
    if names == [] then seen
    else
      var before := Tally(seen, names[..|names| - 1], items);
      if Broken(before) then before else Counted(before, names[|names| - 1], items)
  }

  lemma TallyMore(seen: Seen, names: seq<string>, key: string, items: nat)
    ensures var before := Tally(seen, names, items);
      Tally(seen, names + [key], items) == if Broken(before) then before else Counted(before, key, items)
  {
    assert (names + [key])[..|names|] == names;
  }

  ghost predicate Tallied(v: Walk, w: Walk, n: nat, byLink: bool, items: nat) {
    && n <= |w.doc| == |v.doc| && (forall i :: n <= i < |w.doc| ==> v.doc[i] == w.doc[i])
    && var (names, last) := NamesTo(w.doc, n, byLink, w.anon);
       && v.seen == Tally(w.seen, names, items) && (!v.threw ==> v.anon == last)
       && (v.threw <==> Broken(v.seen) && names != [])
  }

  lemma VisitTallies(v: Walk, w: Walk, n: nat, byLink: bool, items: nat)
    requires n < |w.doc| && Tallied(v, w, n, byLink, items)
    ensures Tallied(Visited(v, n, byLink, items), w, n + 1, byLink, items)
  {
    if Counts(w.doc[n]) {
      var (names, last) := NamesTo(w.doc, n, byLink, w.anon);
      TallyMore(w.seen, names, NameOf(Named(w.doc[n].item, byLink, last).0, byLink).value, items);
    }
  }

  // A walk counts the names of the page as it was.
  lemma WalkTallies(w: Walk, n: nat, byLink: bool, items: nat)
    requires n <= |w.doc| && !w.threw
    ensures Tallied(WalkTo(w, n, Visitor(byLink, items)), w, n, byLink, items)
  {
    var inv := (v: Walk, i: nat) => i <= n ==> Tallied(v, w, i, byLink, items);
    var visit := Visitor(byLink, items);
    forall v: Walk, i: nat | i < n && inv(v, i)
      ensures inv(visit(v, i), i + 1)
    {
      VisitTallies(v, w, i, byLink, items);
    }
    WalkKeeps(w, n, visit, inv);
  }

  function NamesOn(page: Page, site: Site): seq<string> {
    NamesTo(page.doc, |page.doc|, site.byLink, page.anon).0
  }

  lemma PassTallies(page: Page, site: Site)
    ensures var w := WalkOf(page, site);
      && w.seen == Tally(SeenAt(page, page.path), NamesOn(page, site), site.items)
      && (w.threw <==> Broken(w.seen) && NamesOn(page, site) != [])
  {
    WalkTallies(StartOf(page), |page.doc|, site.byLink, site.items);
  }

  // ---- how full the list is when a name is reached ----

  // How many of the names would be counted if there were no limit: each that is not yet
  // known, and the one the object cannot hold every time.
  function New(seen: Seen, names: seq<string>): nat {
    if names == [] then 0
    else
      var before, key := names[..|names| - 1], names[|names| - 1];
      New(seen, before) + if key == PROTO || (key !in seen.at && key !in before) then 1 else 0
  }

  predicate RoomAt(seen: Seen, names: seq<string>, k: nat, items: nat)
    requires k <= |names|
  {
    |seen.order| + New(seen, names[..k]) < items
  }

  // The name that hides the lookup is reached with room for it.
  ghost predicate Breaks(seen: Seen, names: seq<string>, items: nat) {
    exists k :: 0 <= k < |names| && names[k] == ASK && RoomAt(seen, names, k, items)
  }

  lemma BreaksMore(seen: Seen, names: seq<string>, key: string, items: nat)
    ensures Breaks(seen, names + [key], items) <==> Breaks(seen, names, items) || (key == ASK && RoomAt(seen, names, |names|, items))
  {
    var more := names + [key];
    assert forall k :: 0 <= k <= |names| ==> more[..k] == names[..k];
    assert forall k :: 0 <= k < |names| ==> more[k] == names[k] && (RoomAt(seen, more, k, items) <==> RoomAt(seen, names, k, items));
    assert more[|names|] == key && (RoomAt(seen, more, |names|, items) <==> RoomAt(seen, names, |names|, items));
    if Breaks(seen, names, items) {
      var k :| 0 <= k < |names| && names[k] == ASK && RoomAt(seen, names, k, items);
      assert more[k] == ASK && RoomAt(seen, more, k, items);
    }
  }

  // What an unbroken count of names is.
  ghost predicate CountIs(t: Seen, seen: Seen, names: seq<string>, items: nat) {
    && |t.order| == (if |seen.order| + New(seen, names) < items then |seen.order| + New(seen, names) else items)
    && (|t.order| < items ==> forall key :: key in t.at <==> key in seen.at || (key in names && key != PROTO))
  }

  lemma CountMore(t: Seen, seen: Seen, names: seq<string>, key: string, items: nat)
    requires PROTO !in seen.at && PROTO !in t.at && CountIs(t, seen, names, items)
    ensures CountIs(Counted(t, key, items), seen, names + [key], items)
  {
    var more := names + [key];
    assert more[..|names|] == names;
    assert forall other :: other in more <==> other in names || other == key;
  }

  lemma {:induction false} TallyIs(seen: Seen, names: seq<string>, items: nat)
    requires IsSeen(seen, items) && !Broken(seen)
    ensures var t := Tally(seen, names, items);
      IsSeen(t, items) && (Broken(t) <==> Breaks(seen, names, items)) && (!Broken(t) ==> CountIs(t, seen, names, items))
  {
    if names != [] {
      var before, key := names[..|names| - 1], names[|names| - 1];
      assert names == before + [key];
      TallyIs(seen, before, items);
      TallyMore(seen, before, key, items);
      BreaksMore(seen, before, key, items);
      var t := Tally(seen, before, items);
      if !Broken(t) {
        assert before[..|before|] == before;
        CountedIsSeen(t, key, items);
        CountMore(t, seen, before, key, items);
      }
    }
  }

  // A pass throws exactly when the address's count was broken before and there is an item
  // to look up, or an item named hasOwnProperty is reached with room in the list.
  lemma PassThrowsExactly(page: Page, site: Site)
    requires GoodPage(page, site)
    ensures var seen, names := SeenAt(page, page.path), NamesOn(page, site);
      WalkOf(page, site).threw <==> if Broken(seen) then names != [] else Breaks(seen, names, site.items)
  {
    var seen, names := SeenAt(page, page.path), NamesOn(page, site);
    assert IsSeen(EMPTY, site.items);
    PassTallies(page, site);
    if Broken(seen) {
      BrokenStays(seen, names, site.items);
    } else {
      TallyIs(seen, names, site.items);
    }
  }

  lemma {:induction false} BrokenStays(seen: Seen, names: seq<string>, items: nat)
    requires Broken(seen)
    ensures Tally(seen, names, items) == seen
  {
    if names != [] {
      BrokenStays(seen, names[..|names| - 1], items);
    }
  }

  // ---- lists that repeat ----

  ghost predicate Repeats(order: seq<string>) {
    exists i, j :: 0 <= i < j < |order| && order[i] == order[j]
  }

  // The name that is never known is reached with room for it, before any lookup throws.
  ghost predicate CountsProto(seen: Seen, names: seq<string>, k: nat, items: nat)
    requires k < |names|
  {
    names[k] == PROTO && RoomAt(seen, names, k, items) && !Broken(seen) && !Breaks(seen, names[..k], items)
  }

  ghost predicate ProtoCounted(seen: Seen, names: seq<string>, items: nat) {
    exists k :: 0 <= k < |names| && CountsProto(seen, names, k, items)
  }

  ghost predicate ProtoCountedTwice(seen: Seen, names: seq<string>, items: nat) {
    exists j, k :: 0 <= j < k < |names| && CountsProto(seen, names, j, items) && CountsProto(seen, names, k, items)
  }

  lemma ProtoMore(seen: Seen, names: seq<string>, key: string, items: nat)
    ensures var more := names + [key];
      var last := CountsProto(seen, more, |names|, items);
      && (last <==> key == PROTO && RoomAt(seen, names, |names|, items) && !Broken(seen) && !Breaks(seen, names, items))
      && (ProtoCounted(seen, more, items) <==> ProtoCounted(seen, names, items) || last)
      && (ProtoCountedTwice(seen, more, items) <==> ProtoCountedTwice(seen, names, items) || (ProtoCounted(seen, names, items) && last))
  {
    var more := names + [key];
    assert forall k :: 0 <= k <= |names| ==> more[..k] == names[..k];
    assert names[..|names|] == names;
    assert forall k :: 0 <= k < |names| ==> (CountsProto(seen, more, k, items) <==> CountsProto(seen, names, k, items));
  }

  lemma RepeatsMore(order: seq<string>, key: string)
    ensures Repeats(order + [key]) <==> Repeats(order) || key in order
  {
    var more := order + [key];
    assert forall i :: 0 <= i < |order| ==> more[i] == order[i];
    assert more[|order|] == key;
    if i :| 0 <= i < |order| && order[i] == key {
      assert more[i] == more[|order|];
    }
    if Repeats(order) {
      var i, j :| 0 <= i < j < |order| && order[i] == order[j];
      assert more[i] == more[j];
    }
  }

  ghost predicate RepeatsRightly(t: Seen, seen: Seen, names: seq<string>, items: nat) {
    && (PROTO in t.order <==> PROTO in seen.order || ProtoCounted(seen, names, items))
    && (Repeats(t.order) <==>
          || Repeats(seen.order)
          || (PROTO in seen.order && ProtoCounted(seen, names, items))
          || ProtoCountedTwice(seen, names, items))
  }

  lemma CountedRepeats(t: Seen, key: string, items: nat)
    requires IsSeen(t, items)
    ensures var more := Counted(t, key, items);
      && (PROTO in more.order <==> PROTO in t.order || (key == PROTO && |t.order| < items))
      && (Repeats(more.order) <==> Repeats(t.order) || (key == PROTO && |t.order| < items && PROTO in t.order))
  {
    RepeatsMore(t.order, key);
  }

  lemma {:induction false} TallyRepeats(seen: Seen, names: seq<string>, items: nat)
    requires IsSeen(seen, items) && !Broken(seen)
    ensures RepeatsRightly(Tally(seen, names, items), seen, names, items)
  {
    if names != [] {
      var before, key := names[..|names| - 1], names[|names| - 1];
      assert names == before + [key];
      TallyRepeats(seen, before, items);
      TallyMore(seen, before, key, items);
      ProtoMore(seen, before, key, items);
      TallyIs(seen, before, items);
      var t := Tally(seen, before, items);
      if !Broken(t) {
        assert before[..|before|] == before;
        CountedRepeats(t, key, items);
      }
    }
  }

  // After a pass the list repeats exactly when it did before, or names __proto__ twice,
  // counting those reached with room before anything throws.
  lemma ListRepeatsExactly(page: Page, site: Site)
    requires GoodPage(page, site)
    ensures var seen, names := SeenAt(page, page.path), NamesOn(page, site);
      Repeats(WalkOf(page, site).seen.order) <==>
        || Repeats(seen.order)
        || (PROTO in seen.order && ProtoCounted(seen, names, site.items))
        || ProtoCountedTwice(seen, names, site.items)
  {
    var seen, names := SeenAt(page, page.path), NamesOn(page, site);
    assert IsSeen(EMPTY, site.items);
    PassTallies(page, site);
    if Broken(seen) {
      BrokenStays(seen, names, site.items);
    } else {
      TallyRepeats(seen, names, site.items);
    }
  }

  // ---- runs that never show such a post ----

  // The site's names: those the script gives start with "#".
  predicate IsSiteName(name: string) { name != "" && name[0] != '#' }

  ghost predicate Nameless(doc: Document, bad: string, byLink: bool) {
    forall i :: 0 <= i < |doc| && Counts(doc[i]) ==> NameOf(doc[i].item, byLink) != Some(bad)
  }

  lemma {:induction false} NamesToLack(doc: Document, n: nat, byLink: bool, anon: nat, bad: string)
    requires n <= |doc| && Nameless(doc, bad, byLink) && IsSiteName(bad)
    ensures bad !in NamesTo(doc, n, byLink, anon).0
  {
    if n > 0 {
      NamesToLack(doc, n - 1, byLink, anon, bad);
    }
  }

  ghost predicate NotCounted(seen: Seen, bad: string) { bad !in seen.order && bad !in seen.at }

  lemma {:induction false} TallyLacks(seen: Seen, names: seq<string>, items: nat, bad: string)
    requires NotCounted(seen, bad) && bad !in names
    ensures NotCounted(Tally(seen, names, items), bad)
  {
    if names != [] {
      TallyLacks(seen, names[..|names| - 1], items, bad);
    }
  }

  ghost predicate NeverHad(page: Page, bad: string, site: Site) {
    Nameless(page.doc, bad, site.byLink) && forall path :: path in page.seen ==> NotCounted(page.seen[path], bad)
  }

  lemma VisitLacks(w: Walk, i: nat, byLink: bool, items: nat, bad: string)
    requires Nameless(w.doc, bad, byLink) && IsSiteName(bad)
    ensures Nameless(Visited(w, i, byLink, items).doc, bad, byLink)
  {
  }

  lemma NoticeLacks(w: Walk, i: nat, added: seq<nat>, byLink: bool, bad: string)
    requires Nameless(w.doc, bad, byLink) && IsSiteName(bad)
    ensures Nameless(Noticed(w, i, added, byLink).doc, bad, byLink)
  {
  }

  lemma WalkLacks(w: Walk, n: nat, site: Site, bad: string)
    requires Nameless(w.doc, bad, site.byLink) && IsSiteName(bad)
    ensures Nameless(WalkTo(w, n, Visitor(site.byLink, site.items)).doc, bad, site.byLink)
  {
    var inv := (v: Walk, i: nat) => Nameless(v.doc, bad, site.byLink);
    var visit := Visitor(site.byLink, site.items);
    forall v: Walk, i: nat | i < n && inv(v, i)
      ensures inv(visit(v, i), i + 1)
    {
      VisitLacks(v, i, site.byLink, site.items, bad);
    }
    WalkKeeps(w, n, visit, inv);
  }

  lemma MarkedLacks(page: Page, added: seq<nat>, site: Site, bad: string)
    requires Nameless(page.doc, bad, site.byLink) && IsSiteName(bad)
    ensures Nameless(Marked(page, added, site).doc, bad, site.byLink)
  {
    var inv := (v: Walk, i: nat) => Nameless(v.doc, bad, site.byLink);
    var visit := Noticer(added, site.byLink);
    forall v: Walk, i: nat | i < |added| && inv(v, i)
      ensures inv(visit(v, i), i + 1)
    {
      NoticeLacks(v, i, added, site.byLink, bad);
    }
    WalkKeeps(StartOf(page), |added|, visit, inv);
  }

  lemma FewerLack(doc: Document, more: Document, bad: string, byLink: bool)
    requires Nameless(doc, bad, byLink) && forall node :: node in more ==> node.EndCard? || node in doc
    ensures Nameless(more, bad, byLink)
  {
    forall i | 0 <= i < |more| && Counts(more[i]) ensures NameOf(more[i].item, byLink) != Some(bad) {
      assert more[i] in more;
    }
  }

  lemma PassLacks(page: Page, site: Site, bad: string)
    requires GoodPage(page, site) && NeverHad(page, bad, site) && IsSiteName(bad)
    ensures NeverHad(Capped(page, site).0, bad, site)
  {
    var w := WalkOf(page, site);
    WalkLacks(StartOf(page), |page.doc|, site, bad);
    PassTallies(page, site);
    NamesToLack(page.doc, |page.doc|, site.byLink, page.anon, bad);
    TallyLacks(SeenAt(page, page.path), NamesOn(page, site), site.items, bad);
    if !w.threw {
      WalkOfPage(page, site);
      PlacedNodes(w.doc, w.past);
      FewerLack(w.doc, Placed(w.doc, w.past).0, bad, site.byLink);
    }
  }

  lemma AppliedLacks(page: Page, mode: Mode, site: Site, bad: string)
    requires GoodPage(page, site) && NeverHad(page, bad, site) && IsSiteName(bad)
    ensures NeverHad(Applied(page, mode, site).0, bad, site)
  {
    match mode
    case LoginPage =>
    case SinglePost =>
      FewerLack(page.doc, Uncarded(page.doc), bad, site.byLink);
      CleanedShape(Uncarded(page.doc), page.path, site);
    case FeedPage => PassLacks(page, site, bad);
  }

  lemma NavigatedLacks(page: Page, url: string, modeOf: string -> Mode, site: Site, bad: string)
    requires GoodPage(page, site) && NeverHad(page, bad, site) && IsSiteName(bad)
    ensures NeverHad(Navigated(page, url, modeOf, site), bad, site)
  {
    UncardedIsGood(page, site);
    FewerLack(page.doc, Uncarded(page.doc), bad, site.byLink);
    AppliedLacks(page.(lastURL := url, path := site.pathOf(url), full := false, doc := Uncarded(page.doc)),
                 modeOf(site.pathOf(url)), site, bad);
  }

  lemma StepLacks(page: Page, e: Event, modeOf: string -> Mode, site: Site, bad: string)
    requires GoodPage(page, site) && NeverHad(page, bad, site) && IsSiteName(bad)
    requires e.SiteChanges? ==> Nameless(e.doc, bad, site.byLink)
    ensures NeverHad(Step(page, e, modeOf, site), bad, site)
  {
    match e
    case SiteChanges(doc) =>
    case ObserverSees(added) => MarkedLacks(page, added, site, bad);
    case TimerFires => AppliedLacks(page, modeOf(page.path), site, bad);
    case GoesTo(url) => NavigatedLacks(page, url, modeOf, site, bad);
    case GoesBackTo(url) => NavigatedLacks(page.(lastURL := ""), url, modeOf, site, bad);
  }

  // No document the site shows, at first or later, has a post of this name.
  ghost predicate NeverShown(doc: Document, events: seq<Event>, bad: string, site: Site) {
    Nameless(doc, bad, site.byLink) && forall e :: e in events && e.SiteChanges? ==> Nameless(e.doc, bad, site.byLink)
  }

  lemma {:induction false} RunLacks(url: string, doc: Document, events: seq<Event>, modeOf: string -> Mode, site: Site, bad: string)
    requires OneCard(doc) && NeverShown(doc, events, bad, site) && IsSiteName(bad)
    ensures NeverHad(Play(Start(url, doc, site), events, modeOf, site), bad, site)
  {
    if events != [] {
      var first := events[..|events| - 1];
      RunLacks(url, doc, first, modeOf, site, bad);
      PlayKeepsInv(Start(url, doc, site), first, modeOf, site);
      StepLacks(Play(Start(url, doc, site), first, modeOf, site), events[|events| - 1], modeOf, site, bad);
    }
  }

  // While no document shows a post named __proto__, no list ever repeats.
  lemma NoProtoNoRepeat(url: string, doc: Document, events: seq<Event>, modeOf: string -> Mode, site: Site)
    requires OneCard(doc) && NeverShown(doc, events, PROTO, site)
    ensures var page := Play(Start(url, doc, site), events, modeOf, site);
      forall path :: path in page.seen ==> !Repeats(page.seen[path].order)
  {
    RunLacks(url, doc, events, modeOf, site, PROTO);
    PlayKeepsInv(Start(url, doc, site), events, modeOf, site);
  }

  // While none shows one named hasOwnProperty, no pass ever throws.
  lemma NoAskNoThrow(url: string, doc: Document, events: seq<Event>, modeOf: string -> Mode, site: Site)
    requires OneCard(doc) && NeverShown(doc, events, ASK, site)
    ensures !WalkOf(Play(Start(url, doc, site), events, modeOf, site), site).threw
  {
    RunLacks(url, doc, events, modeOf, site, ASK);
    PlayKeepsInv(Start(url, doc, site), events, modeOf, site);
    var page := Play(Start(url, doc, site), events, modeOf, site);
    NamesToLack(page.doc, |page.doc|, site.byLink, page.anon, ASK);
    PassThrowsExactly(page, site);
  }

  // ---- the two names at work ----

  function Post(name: string): Node { Feed(0, Item("", name, "", None, [], false, false, false, false)) }

  function FreshPage(doc: Document): Page { Page("/", "/", doc, false, map[], 0, true) }

  lemma VisitPost(w: Walk, i: nat, name: string, site: Site)
    requires i < |w.doc| && w.doc[i] == Post(name) && !w.threw && !Broken(w.seen) && name != ""
    ensures Visited(w, i, site.byLink, site.items).seen == Counted(w.seen, name, site.items)
    ensures Visited(w, i, site.byLink, site.items).threw <==> Broken(Counted(w.seen, name, site.items))
    ensures forall j :: 0 <= j < |w.doc| && j != i ==> Visited(w, i, site.byLink, site.items).doc[j] == w.doc[j]
  {
  }

  // Two posts named __proto__ are one post counted twice.
  lemma ProtoIsCountedTwice(site: Site)
    requires site.items >= 2
    ensures WalkOf(FreshPage([Post(PROTO), Post(PROTO)]), site).seen.order == [PROTO, PROTO]
  {
    var start, visit := StartOf(FreshPage([Post(PROTO), Post(PROTO)])), Visitor(site.byLink, site.items);
    VisitPost(start, 0, PROTO, site);
    var one := WalkTo(start, 1, visit);
    assert one == visit(WalkTo(start, 0, visit), 0);
    VisitPost(one, 1, PROTO, site);
    assert WalkTo(start, 2, visit) == visit(one, 1);
  }

  // A post named hasOwnProperty ends the pass that counts it with an error, and every
  // pass after that.
  lemma AskStopsTheScript(site: Site)
    requires site.items >= 1
    ensures var page := FreshPage([Post(ASK)]);
            && WalkOf(page, site).threw && WalkOf(Capped(page, site).0, site).threw
            && !Capped(page, site).0.full
  {
    var page := FreshPage([Post(ASK)]);
    var start, visit := StartOf(page), Visitor(site.byLink, site.items);
    VisitPost(start, 0, ASK, site);
    assert WalkTo(start, 1, visit) == visit(WalkTo(start, 0, visit), 0);
    assert IsSeen(EMPTY, site.items);
    BrokenPass(page, site);
  }
}
