// mitm/kosher_calm.js: the feed that ends. Posts are counted per address, by name; what is
// past the end is hidden; and the script must not keep waking itself by what it draws.
module FeedCap {
  import opened Options
  import opened Numerals

  // ---- the page ----

  // A feed item: what names its post, the addresses linked to in it, whether it stands in
  // a side rail, the script's mark and hiding on it, and whether the site gave it another
  // post since it was last looked at. `anonKey` is the name the script itself gave a
  // nameless element.
  datatype Item = Item(href: string, permalink: string, id: string, anonKey: Option<string>, links: seq<string>,
                       aside: bool, ok: bool, hidden: bool, redrawn: bool)

  // The nodes of a document in document order, each with the element it is a child of.
  datatype Node =
    | Feed(parent: nat, item: Item)
    | EndCard(parent: nat)
    | Other(parent: nat)

  type Document = seq<Node>

  predicate Counts(node: Node) { node.Feed? && !node.item.aside }

  function FirstCard(doc: Document): (c: Option<nat>)
    ensures c.Some? ==> c.value < |doc| && doc[c.value].EndCard? && forall i :: 0 <= i < c.value ==> !doc[i].EndCard?
    ensures c.None? ==> forall i :: 0 <= i < |doc| ==> !doc[i].EndCard?
  {
    if doc == [] then None
    else if doc[0].EndCard? then Some(0)
    else
      var rest := FirstCard(doc[1..]);
      if rest.Some? then Some(rest.value + 1) else None
  }

  function SiblingFrom(doc: Document, parent: nat, from: nat): (s: Option<nat>)
    requires from <= |doc|
    ensures s.Some? ==> from <= s.value < |doc| && doc[s.value].parent == parent && forall i :: from <= i < s.value ==> doc[i].parent != parent
    decreases |doc| - from
  {
    if from == |doc| then None
    else if doc[from].parent == parent then Some(from)
    else SiblingFrom(doc, parent, from + 1)
  }

  function NextSibling(doc: Document, c: nat): Option<nat>
    requires c < |doc|
  {
    SiblingFrom(doc, doc[c].parent, c + 1)
  }

  // ---- the name of a post ----

  function BeforeQuery(href: string): string {
    if href == "" || href[0] == '?' || href[0] == '#' then "" else [href[0]] + BeforeQuery(href[1..])
  }

  // An item's name, if it has one yet. `byLink` is whether the site's posts are named by
  // a link in them.
  function NameOf(item: Item, byLink: bool): Option<string> {
    if byLink && item.href != "" then Some(BeforeQuery(item.href))
    else if item.permalink != "" then Some(item.permalink)
    else if item.id != "" then Some(item.id)
    else item.anonKey
  }

  function Named(item: Item, byLink: bool, anon: nat): (r: (Item, nat))
    ensures NameOf(r.0, byLink).Some?
    ensures NameOf(item, byLink).Some? ==> r == (item, anon)
  {
    if NameOf(item, byLink).Some? then (item, anon)
    else (item.(anonKey := Some("#" + Decimal(anon + 1))), anon + 1)
  }

  // ---- the count of an address ----

  // The posts counted, in order, and the JavaScript object that looks them up.
  datatype Seen = Seen(order: seq<string>, at: map<string, nat>)

  const EMPTY := Seen([], map[])

  // Setting this property of an object makes no property of its own.
  const PROTO := "__proto__"
  // An object with this property of its own cannot be asked for others.
  const ASK := "hasOwnProperty"

  predicate Broken(seen: Seen) { ASK in seen.at }

  function Counted(seen: Seen, key: string, items: nat): Seen {
    if key !in seen.at && |seen.order| < items
    then Seen(seen.order + [key], if key == PROTO then seen.at else seen.at[key := |seen.order|])
    else seen
  }

  // ---- one pass over the feed ----

  // How far a pass has come: the page, the count, the numbers given to nameless elements,
  // the first item past the end, and whether a lookup threw.
  datatype Walk = Walk(doc: Document, seen: Seen, anon: nat, past: Option<nat>, threw: bool)

  function Visited(w: Walk, i: nat, byLink: bool, items: nat): (r: Walk)
    ensures |r.doc| == |w.doc|
  {
    if w.threw || i >= |w.doc| || !Counts(w.doc[i]) then w
    else
      var (item, anon) := Named(w.doc[i].item, byLink, w.anon);
      var key := NameOf(item, byLink).value;
      var seen := if Broken(w.seen) then w.seen else Counted(w.seen, key, items);
      if Broken(seen) then w.(doc := w.doc[i := w.doc[i].(item := item)], seen := seen, anon := anon, threw := true)
      else if key in seen.at then
        w.(doc := w.doc[i := w.doc[i].(item := item.(ok := true, hidden := false, redrawn := false))], seen := seen, anon := anon)
      else
        w.(doc := w.doc[i := w.doc[i].(item := item.(ok := false, hidden := true, redrawn := false))], seen := seen, anon := anon,
           past := if w.past.None? then Some(i) else w.past)
  }

  function Visitor(byLink: bool, items: nat): (Walk, nat) -> Walk {
    (w: Walk, i: nat) => Visited(w, i, byLink, items)
  }

  // The first n nodes visited in turn.
  function WalkTo(w: Walk, n: nat, visit: (Walk, nat) -> Walk): Walk {
    if n == 0 then w else visit(WalkTo(w, n - 1, visit), n - 1)
  }

  lemma {:induction false} WalkKeeps(w: Walk, n: nat, visit: (Walk, nat) -> Walk, inv: (Walk, nat) -> bool)
    requires inv(w, 0) && forall v: Walk, i: nat :: i < n && inv(v, i) ==> inv(visit(v, i), i + 1)
    ensures inv(WalkTo(w, n, visit), n)
  {
    if n > 0 {
      WalkKeeps(w, n - 1, visit, inv);
    }
  }

  function Removed(doc: Document, c: nat): Document
    requires c < |doc|
  {
    doc[..c] + doc[c + 1..]
  }

  // The end card stands just before the first item past the end; the flag is whether the
  // page's children had to change for that.
  function Placed(doc: Document, past: Option<nat>): (Document, bool)
    requires past.Some? ==> past.value < |doc| && Counts(doc[past.value])
  {
    var card := FirstCard(doc);
    if past.None? then if card.None? then (doc, false) else (Removed(doc, card.value), true)
    else if card.Some? && NextSibling(doc, card.value) == past then (doc, false)
    else
      var at := if card.Some? && card.value < past.value then past.value - 1 else past.value;
      var rest := if card.Some? then Removed(doc, card.value) else doc;
      (rest[..at] + [EndCard(doc[past.value].parent)] + rest[at..], true)
  }

  // The script in a page; `path` is that of the address it was last applied for.
  datatype Page = Page(lastURL: string, path: string, doc: Document, full: bool, seen: map<string, Seen>, anon: nat, sheetDone: bool)

  // `constructed` is whether the browser takes a constructed sheet rather than a style
  // element; `focal` is the number of the post an address names, if the site's do.
  datatype Site = Site(byLink: bool, items: nat, constructed: bool, keepComments: bool,
                       focal: string -> Option<string>, pathOf: string -> string)

  function SeenAt(page: Page, path: string): Seen { if path in page.seen then page.seen[path] else EMPTY }

  // Whether the sheet had to be added as an element.
  predicate AddsStyle(page: Page, site: Site) { !page.sheetDone && !site.constructed }

  function WalkOf(page: Page, site: Site): Walk {
    WalkTo(Walk(page.doc, SeenAt(page, page.path), page.anon, None, false), |page.doc|, Visitor(site.byLink, site.items))
  }

  // A pass, and whether it changed the page's children.
  function Capped(page: Page, site: Site): (Page, bool) {
    var w := WalkOf(page, site);
    var after := page.(doc := w.doc, seen := page.seen[page.path := w.seen], anon := w.anon, sheetDone := true);
    if w.threw then (after, AddsStyle(page, site))
    else
      WalkPast(page, site);
      var (doc, moved) := Placed(w.doc, w.past);
      (after.(doc := doc, full := |w.seen.order| >= site.items), moved || AddsStyle(page, site))
  }

  // A walk changes what items carry, never the nodes themselves.
  ghost predicate SameShape(a: Document, b: Document) {
    |a| == |b| && forall i :: 0 <= i < |a| ==> a[i].parent == b[i].parent && a[i].EndCard? == b[i].EndCard? && Counts(a[i]) == Counts(b[i])
  }

  ghost predicate PastIsItem(w: Walk, doc: Document, n: nat) {
    SameShape(w.doc, doc) && (w.past.Some? ==> w.past.value < n && w.past.value < |w.doc| && Counts(w.doc[w.past.value]))
  }

  lemma VisitShape(w: Walk, i: nat, byLink: bool, items: nat)
    ensures var r := Visited(w, i, byLink, items);
            && SameShape(r.doc, w.doc)
            && (r.past == w.past || (r.past == Some(i) && i < |w.doc| && Counts(w.doc[i])))
            && (r.threw <==> w.threw || (i < |w.doc| && Counts(w.doc[i]) && Broken(r.seen)))
            && (Broken(w.seen) ==> Broken(r.seen))
            && (Broken(r.seen) && !Broken(w.seen) ==> r.threw)
  {
  }

  lemma WalkPastTo(w: Walk, n: nat, byLink: bool, items: nat)
    requires n <= |w.doc| && w.past.None?
    ensures PastIsItem(WalkTo(w, n, Visitor(byLink, items)), w.doc, n)
  {
    var inv := (v: Walk, i: nat) => PastIsItem(v, w.doc, i);
    var visit := Visitor(byLink, items);
    forall v: Walk, i: nat | i < n && inv(v, i)
      ensures inv(visit(v, i), i + 1)
    {
      VisitShape(v, i, byLink, items);
      PastStays(v, visit(v, i), w.doc, i);
    }
    WalkKeeps(w, n, visit, inv);
  }

  lemma PastStays(v: Walk, r: Walk, doc: Document, i: nat)
    requires PastIsItem(v, doc, i) && SameShape(r.doc, v.doc)
    requires r.past == v.past || (r.past == Some(i) && i < |v.doc| && Counts(v.doc[i]))
    ensures PastIsItem(r, doc, i + 1)
  {
  }

  lemma WalkPast(page: Page, site: Site)
    ensures var w := WalkOf(page, site); w.past.Some? ==> w.past.value < |w.doc| && Counts(w.doc[w.past.value])
  {
    WalkPastTo(Walk(page.doc, SeenAt(page, page.path), page.anon, None, false), |page.doc|, site.byLink, site.items);
  }

  // ---- what a pass leaves ----

  // No post is counted twice, but for the one name the object cannot hold; the object is
  // the inverse of the list; the list stops at the limit.
  ghost predicate IsSeen(seen: Seen, items: nat) {
    && |seen.order| <= items
    && (forall i, j :: 0 <= i < j < |seen.order| && seen.order[i] == seen.order[j] ==> seen.order[i] == PROTO)
    && (forall i :: 0 <= i < |seen.order| && seen.order[i] != PROTO ==> seen.order[i] in seen.at && seen.at[seen.order[i]] == i)
    && (forall key :: key in seen.at ==> key != PROTO && seen.at[key] < |seen.order| && seen.order[seen.at[key]] == key)
  }

  lemma CountedIsSeen(seen: Seen, key: string, items: nat)
    requires IsSeen(seen, items)
    ensures IsSeen(Counted(seen, key, items), items) && seen.order <= Counted(seen, key, items).order
  {
  }

  ghost predicate Exact(node: Node, seen: Seen, byLink: bool, items: nat) {
    Counts(node) ==>
      var name := NameOf(node.item, byLink);
      && name.Some? && !node.item.redrawn
      && node.item.ok == (name.value in seen.at)
      && node.item.hidden == !node.item.ok
      && (node.item.ok || name.value == PROTO || |seen.order| >= items)
  }

  ghost predicate IsFirstHidden(doc: Document, n: nat, past: Option<nat>)
    requires n <= |doc|
  {
    if past.None? then forall i :: 0 <= i < n && Counts(doc[i]) ==> doc[i].item.ok
    else && past.value < n && Counts(doc[past.value]) && !doc[past.value].item.ok
         && forall i :: 0 <= i < past.value && Counts(doc[i]) ==> doc[i].item.ok
  }

  // The first n nodes are as the walk leaves them.
  ghost predicate DoneTo(w: Walk, n: nat, byLink: bool, items: nat)
    requires n <= |w.doc|
  {
    && IsSeen(w.seen, items)
    && (!w.threw ==> IsFirstHidden(w.doc, n, w.past) && forall i :: 0 <= i < n ==> Exact(w.doc[i], w.seen, byLink, items))
  }

  lemma ExactStays(node: Node, seen: Seen, key: string, byLink: bool, items: nat)
    requires Exact(node, seen, byLink, items)
    ensures Exact(node, Counted(seen, key, items), byLink, items)
  {
  }

  // What a visit makes of the node itself.
  lemma VisitIsExact(w: Walk, i: nat, byLink: bool, items: nat)
    requires i < |w.doc| && !Visited(w, i, byLink, items).threw
    ensures Exact(Visited(w, i, byLink, items).doc[i], Visited(w, i, byLink, items).seen, byLink, items)
  {
  }

  lemma FirstHiddenStep(doc: Document, more: Document, i: nat, past: Option<nat>)
    requires i < |doc| == |more| && IsFirstHidden(doc, i, past) && forall j :: 0 <= j < i ==> more[j] == doc[j]
    ensures IsFirstHidden(more, i + 1, if past.None? && Counts(more[i]) && !more[i].item.ok then Some(i) else past)
  {
  }

  // A visit changes no other node, and notes the first item it hides.
  lemma VisitNotes(w: Walk, i: nat, byLink: bool, items: nat)
    requires i < |w.doc|
    ensures var r := Visited(w, i, byLink, items);
            && (forall j :: 0 <= j < |w.doc| && j != i ==> r.doc[j] == w.doc[j])
            && (!r.threw ==> r.past == if w.past.None? && Counts(r.doc[i]) && !r.doc[i].item.ok then Some(i) else w.past)
  {
  }

  // A visit leaves the count alone, or counts the name of the item it comes to.
  lemma VisitCounts(w: Walk, i: nat, byLink: bool, items: nat)
    requires i < |w.doc|
    ensures var r := Visited(w, i, byLink, items);
            r.seen == w.seen || exists key :: r.seen == Counted(w.seen, key, items)
  {
  }

  lemma VisitStep(w: Walk, i: nat, byLink: bool, items: nat)
    requires i < |w.doc| && DoneTo(w, i, byLink, items)
    ensures var r := Visited(w, i, byLink, items);
            && DoneTo(r, i + 1, byLink, items) && w.seen.order <= r.seen.order
            && (forall j :: 0 <= j < |w.doc| && j != i ==> r.doc[j] == w.doc[j])
  {
    var r := Visited(w, i, byLink, items);
    VisitNotes(w, i, byLink, items);
    VisitCounts(w, i, byLink, items);
    if r.seen != w.seen {
      var key :| r.seen == Counted(w.seen, key, items);
      CountedIsSeen(w.seen, key, items);
    }
    if !r.threw {
      FirstHiddenStep(w.doc, r.doc, i, w.past);
      VisitIsExact(w, i, byLink, items);
      EarlierStayExact(w, r, i, byLink, items);
    }
  }

  lemma EarlierStayExact(w: Walk, r: Walk, i: nat, byLink: bool, items: nat)
    requires i <= |w.doc| == |r.doc| && forall j :: 0 <= j < i ==> Exact(w.doc[j], w.seen, byLink, items) && r.doc[j] == w.doc[j]
    requires r.seen == w.seen || exists key :: r.seen == Counted(w.seen, key, items)
    ensures forall j :: 0 <= j < i ==> Exact(r.doc[j], r.seen, byLink, items)
  {
    if r.seen != w.seen {
      var key :| r.seen == Counted(w.seen, key, items);
      forall j | 0 <= j < i ensures Exact(r.doc[j], r.seen, byLink, items) {
        ExactStays(w.doc[j], w.seen, key, byLink, items);
      }
    }
  }

  lemma {:induction false} WalkDone(w: Walk, n: nat, byLink: bool, items: nat)
    requires n <= |w.doc| && w.past.None? && !w.threw && IsSeen(w.seen, items)
    ensures var r := WalkTo(w, n, Visitor(byLink, items));
            |r.doc| == |w.doc| && DoneTo(r, n, byLink, items) && w.seen.order <= r.seen.order
  {
    var inv := (v: Walk, i: nat) =>
      |v.doc| == |w.doc| && i <= |w.doc| && DoneTo(v, i, byLink, items) && w.seen.order <= v.seen.order;
    var visit := Visitor(byLink, items);
    forall v: Walk, i: nat | i < n && inv(v, i)
      ensures inv(visit(v, i), i + 1)
    {
      VisitStep(v, i, byLink, items);
    }
    WalkKeeps(w, n, visit, inv);
  }

  ghost predicate ThrewRightly(v: Walk, w: Walk, n: nat) {
    && SameShape(v.doc, w.doc) && (Broken(w.seen) ==> Broken(v.seen))
    && (v.threw <==> Broken(v.seen) && exists i :: 0 <= i < n && i < |w.doc| && Counts(w.doc[i]))
  }

  // A pass throws exactly when it looks a post up after counting one by the name that
  // hides the lookup.
  lemma ThrowsExactly(w: Walk, n: nat, byLink: bool, items: nat)
    requires n <= |w.doc| && !w.threw
    ensures ThrewRightly(WalkTo(w, n, Visitor(byLink, items)), w, n)
  {
    var inv := (v: Walk, i: nat) => ThrewRightly(v, w, i);
    var visit := Visitor(byLink, items);
    forall v: Walk, i: nat | i < n && inv(v, i)
      ensures inv(visit(v, i), i + 1)
    {
      VisitShape(v, i, byLink, items);
      ThrewStays(v, visit(v, i), w, i);
    }
    WalkKeeps(w, n, visit, inv);
  }

  lemma ThrewStays(v: Walk, r: Walk, w: Walk, i: nat)
    requires ThrewRightly(v, w, i) && SameShape(r.doc, v.doc)
    requires r.threw <==> v.threw || (i < |v.doc| && Counts(v.doc[i]) && Broken(r.seen))
    requires Broken(v.seen) ==> Broken(r.seen)
    requires Broken(r.seen) && !Broken(v.seen) ==> r.threw
    ensures ThrewRightly(r, w, i + 1)
  {
    if r.threw && !v.threw {
      assert Counts(w.doc[i]);
    }
  }

  // ---- a second pass ----

  ghost predicate AllExact(doc: Document, seen: Seen, site: Site) {
    forall node :: node in doc ==> Exact(node, seen, site.byLink, site.items)
  }

  // What a pass over an item it has dealt with finds: nothing to change but, for the name
  // the object cannot hold, one more entry in the list.
  lemma VisitAgain(w: Walk, i: nat, site: Site)
    requires i < |w.doc| && !w.threw && !Broken(w.seen) && Exact(w.doc[i], w.seen, site.byLink, site.items)
    ensures var r := Visited(w, i, site.byLink, site.items);
            && r.doc == w.doc && r.anon == w.anon && !r.threw && r.seen.at == w.seen.at && w.seen.order <= r.seen.order
            && r.past == (if w.past.None? && Counts(w.doc[i]) && !w.doc[i].item.ok then Some(i) else w.past)
            && (!(Counts(w.doc[i]) && NameOf(w.doc[i].item, site.byLink) == Some(PROTO)) ==> r.seen == w.seen)
  {
  }

  lemma ExactWithMore(node: Node, seen: Seen, more: Seen, site: Site)
    requires Exact(node, seen, site.byLink, site.items) && seen.at == more.at && seen.order <= more.order
    ensures Exact(node, more, site.byLink, site.items)
  {
  }

  predicate NamesProto(doc: Document, site: Site) {
    exists i :: 0 <= i < |doc| && Counts(doc[i]) && NameOf(doc[i].item, site.byLink) == Some(PROTO)
  }

  ghost predicate Unmoved(v: Walk, w: Walk, i: nat, site: Site) {
    && v.doc == w.doc && v.anon == w.anon && !v.threw && v.seen.at == w.seen.at && w.seen.order <= v.seen.order
    && i <= |w.doc| && IsFirstHidden(w.doc, i, v.past)
    && (!NamesProto(w.doc, site) ==> v.seen == w.seen)
  }

  lemma SecondWalk(w: Walk, n: nat, site: Site)
    requires n <= |w.doc| && !w.threw && w.past.None? && !Broken(w.seen) && AllExact(w.doc, w.seen, site)
    ensures Unmoved(WalkTo(w, n, Visitor(site.byLink, site.items)), w, n, site)
  {
    var inv := (v: Walk, i: nat) => Unmoved(v, w, i, site);
    var visit := Visitor(site.byLink, site.items);
    forall v: Walk, i: nat | i < n && inv(v, i)
      ensures inv(visit(v, i), i + 1)
    {
      assert w.doc[i] in w.doc;
      ExactWithMore(w.doc[i], w.seen, v.seen, site);
      VisitAgain(v, i, site);
    }
    WalkKeeps(w, n, visit, inv);
  }

  ghost predicate OneCard(doc: Document) { forall i, j :: 0 <= i < j < |doc| ==> !(doc[i].EndCard? && doc[j].EndCard?) }

  lemma RemovedNodes(doc: Document, c: nat)
    requires c < |doc| && doc[c].EndCard? && OneCard(doc)
    ensures forall i :: 0 <= i < |Removed(doc, c)| ==> Removed(doc, c)[i] == doc[if i < c then i else i + 1] && !Removed(doc, c)[i].EndCard?
  {
  }

  lemma CardInPlace(rest: Document, at: nat, again: Option<nat>)
    requires at < |rest| && Counts(rest[at]) && !rest[at].item.ok
    requires forall i :: 0 <= i < |rest| ==> !rest[i].EndCard?
    requires forall i :: 0 <= i < at && Counts(rest[i]) ==> rest[i].item.ok
    requires var placed := rest[..at] + [EndCard(rest[at].parent)] + rest[at..]; IsFirstHidden(placed, |placed|, again)
    ensures var placed := rest[..at] + [EndCard(rest[at].parent)] + rest[at..];
            && OneCard(placed) && again == Some(at + 1) && Placed(placed, again) == (placed, false)
            && forall node :: node in placed ==> node.EndCard? || node in rest
  {
    var placed := rest[..at] + [EndCard(rest[at].parent)] + rest[at..];
    assert placed[at].EndCard? && placed[at + 1] == rest[at];
    assert forall i :: 0 <= i < |placed| ==> placed[i] == if i < at then rest[i] else if i == at then EndCard(rest[at].parent) else rest[i - 1];
    assert FirstCard(placed) == Some(at);
    assert NextSibling(placed, at) == Some(at + 1);
  }

  lemma NothingPast(doc: Document, again: Option<nat>)
    requires OneCard(doc) && IsFirstHidden(doc, |doc|, None)
    requires IsFirstHidden(Placed(doc, None).0, |Placed(doc, None).0|, again)
    ensures Placed(Placed(doc, None).0, again) == (Placed(doc, None).0, false)
    ensures OneCard(Placed(doc, None).0) && forall node :: node in Placed(doc, None).0 ==> node in doc
  {
    var card := FirstCard(doc);
    if card.Some? {
      var rest := Removed(doc, card.value);
      RemovedNodes(doc, card.value);
      assert FirstCard(rest).None?;
      assert again.None?;
    }
  }

  lemma CardMoves(doc: Document, past: nat, again: Option<nat>)
    requires OneCard(doc) && IsFirstHidden(doc, |doc|, Some(past))
    requires FirstCard(doc).None? || NextSibling(doc, FirstCard(doc).value) != Some(past)
    requires IsFirstHidden(Placed(doc, Some(past)).0, |Placed(doc, Some(past)).0|, again)
    ensures Placed(Placed(doc, Some(past)).0, again) == (Placed(doc, Some(past)).0, false)
    ensures OneCard(Placed(doc, Some(past)).0)
    ensures forall node :: node in Placed(doc, Some(past)).0 ==> node.EndCard? || node in doc
  {
    var card := FirstCard(doc);
    if card.None? {
      CardInPlace(doc, past, again);
    } else {
      var at := if card.value < past then past - 1 else past;
      var rest := Removed(doc, card.value);
      RemovedKeepsFirst(doc, card.value, past);
      assert Placed(doc, Some(past)).0 == rest[..at] + [EndCard(rest[at].parent)] + rest[at..];
      CardInPlace(rest, at, again);
    }
  }

  lemma RemovedKeepsFirst(doc: Document, c: nat, past: nat)
    requires OneCard(doc) && c < |doc| && doc[c].EndCard? && IsFirstHidden(doc, |doc|, Some(past))
    ensures var at, rest := if c < past then past - 1 else past, Removed(doc, c);
            && at < |rest| && rest[at] == doc[past]
            && (forall i :: 0 <= i < |rest| ==> !rest[i].EndCard?)
            && (forall i :: 0 <= i < at && Counts(rest[i]) ==> rest[i].item.ok)
            && (forall node :: node in rest ==> node in doc)
  {
    RemovedNodes(doc, c);
  }

  lemma {:induction false} PlacedSettles(doc: Document, past: Option<nat>, again: Option<nat>)
    requires OneCard(doc) && IsFirstHidden(doc, |doc|, past)
    requires IsFirstHidden(Placed(doc, past).0, |Placed(doc, past).0|, again)
    ensures Placed(Placed(doc, past).0, again) == (Placed(doc, past).0, false)
    ensures OneCard(Placed(doc, past).0)
    ensures forall node :: node in Placed(doc, past).0 ==> node.EndCard? || node in doc
  {
    if past.None? {
      NothingPast(doc, again);
    } else if FirstCard(doc).Some? && NextSibling(doc, FirstCard(doc).value) == past {
      assert again == past;
    } else {
      CardMoves(doc, past.value, again);
    }
  }

  // ---- what a pass does to the page ----

  function StartOf(page: Page): Walk { Walk(page.doc, SeenAt(page, page.path), page.anon, None, false) }

  ghost predicate GoodPage(page: Page, site: Site) {
    OneCard(page.doc) && forall path :: path in page.seen ==> IsSeen(page.seen[path], site.items)
  }

  // Whether anything the script does keeps the browser from drawing the item: the hiding
  // of a pass, or the sheet's rule while the page is marked full.
  predicate Visible(node: Node, full: bool)
    requires node.Feed?
  {
    !node.item.hidden && (node.item.ok || !full)
  }

  predicate IsCounted(page: Page, node: Node, site: Site)
    requires node.Feed?
  {
    NameOf(node.item, site.byLink).Some? && NameOf(node.item, site.byLink).value in SeenAt(page, page.path).at
  }

  lemma WalkOfPage(page: Page, site: Site)
    requires GoodPage(page, site)
    ensures var w := WalkOf(page, site);
            && SameShape(w.doc, page.doc) && OneCard(w.doc) && IsSeen(w.seen, site.items)
            && SeenAt(page, page.path).order <= w.seen.order
            && (!w.threw ==> IsFirstHidden(w.doc, |w.doc|, w.past) && AllExact(w.doc, w.seen, site))
            && (w.threw <==> Broken(w.seen) && exists i :: 0 <= i < |page.doc| && Counts(page.doc[i]))
  {
    var w := StartOf(page);
    WalkPastTo(w, |page.doc|, site.byLink, site.items);
    WalkDone(w, |page.doc|, site.byLink, site.items);
    ThrowsExactly(w, |page.doc|, site.byLink, site.items);
  }

  // A pass that ends leaves every feed item visible exactly when its post is counted, and
  // the page marked full exactly when the count has reached the limit.
  lemma CompletePass(page: Page, site: Site)
    requires GoodPage(page, site) && !WalkOf(page, site).threw
    ensures var after := Capped(page, site).0;
            && GoodPage(after, site) && AllExact(after.doc, SeenAt(after, after.path), site)
            && (after.full <==> |SeenAt(after, after.path).order| >= site.items)
            && forall node :: node in after.doc && Counts(node) ==> (Visible(node, after.full) <==> IsCounted(after, node, site))
  {
    WalkOfPage(page, site);
    var w, after := WalkOf(page, site), Capped(page, site).0;
    PlacedNodes(w.doc, w.past);
    forall node | node in after.doc
      ensures Exact(node, w.seen, site.byLink, site.items)
    {
    }
  }

  lemma PlacedNodes(doc: Document, past: Option<nat>)
    requires OneCard(doc) && IsFirstHidden(doc, |doc|, past)
    ensures OneCard(Placed(doc, past).0)
    ensures forall node :: node in Placed(doc, past).0 ==> node.EndCard? || node in doc
  {
    var again := FirstHiddenOf(Placed(doc, past).0, |Placed(doc, past).0|);
    PlacedSettles(doc, past, again);
  }

  ghost function FirstHiddenOf(doc: Document, n: nat): (past: Option<nat>)
    requires n <= |doc|
    ensures IsFirstHidden(doc, n, past)
  {
    if n == 0 then None
    else
      var before := FirstHiddenOf(doc, n - 1);
      if before.None? && Counts(doc[n - 1]) && !doc[n - 1].item.ok then Some(n - 1) else before
  }

  lemma BrokenPass(page: Page, site: Site)
    requires GoodPage(page, site) && WalkOf(page, site).threw
    ensures var (after, touched) := Capped(page, site);
            && GoodPage(after, site) && after.full == page.full && touched == AddsStyle(page, site)
            && WalkOf(after, site).threw
  {
    WalkOfPage(page, site);
    var after := Capped(page, site).0;
    WalkOfPage(after, site);
    ThrowsExactly(StartOf(after), |after.doc|, site.byLink, site.items);
    var i :| 0 <= i < |page.doc| && Counts(page.doc[i]);
    assert Counts(after.doc[i]);
  }

  lemma WalkAgain(after: Page, site: Site)
    requires AllExact(after.doc, SeenAt(after, after.path), site)
    requires Broken(SeenAt(after, after.path)) ==> forall i :: 0 <= i < |after.doc| ==> !Counts(after.doc[i])
    ensures var w := WalkOf(after, site);
            && w.doc == after.doc && w.anon == after.anon && !w.threw && IsFirstHidden(w.doc, |w.doc|, w.past)
            && (!NamesProto(after.doc, site) ==> w.seen == SeenAt(after, after.path))
  {
    var w := StartOf(after);
    if Broken(w.seen) {
      NothingToWalk(w, |w.doc|, site);
    } else {
      SecondWalk(w, |w.doc|, site);
    }
  }

  lemma NothingToWalk(w: Walk, n: nat, site: Site)
    requires forall i :: 0 <= i < |w.doc| ==> !Counts(w.doc[i])
    ensures WalkTo(w, n, Visitor(site.byLink, site.items)) == w
  {
    WalkKeeps(w, n, Visitor(site.byLink, site.items), (v: Walk, i: nat) => v == w);
  }

  // A second pass over a page nobody touched does not change its children, so nothing
  // wakes the script again.
  lemma SecondPassIsQuiet(page: Page, site: Site)
    requires GoodPage(page, site)
    ensures !Capped(Capped(page, site).0, site).1
  {
    var w, after := WalkOf(page, site), Capped(page, site).0;
    WalkOfPage(page, site);
    if w.threw {
      BrokenPass(page, site);
    } else {
      CompletePass(page, site);
      NoItemsWhenBroken(page, site);
      WalkAgain(after, site);
      PlacedSettles(w.doc, w.past, WalkOf(after, site).past);
    }
  }

  lemma NoItemsWhenBroken(page: Page, site: Site)
    requires GoodPage(page, site) && !WalkOf(page, site).threw
    ensures var after := Capped(page, site).0;
            Broken(SeenAt(after, after.path)) ==> forall i :: 0 <= i < |after.doc| ==> !Counts(after.doc[i])
  {
    WalkOfPage(page, site);
    var w := WalkOf(page, site);
    PlacedNodes(w.doc, w.past);
  }

  // And, unless a post bears the name the object cannot hold, it changes nothing at all.
  lemma SecondPassChangesNothing(page: Page, site: Site)
    requires GoodPage(page, site) && !WalkOf(page, site).threw
    requires !NamesProto(Capped(page, site).0.doc, site)
    ensures Capped(Capped(page, site).0, site) == (Capped(page, site).0, false)
  {
    var w, after := WalkOf(page, site), Capped(page, site).0;
    WalkOfPage(page, site);
    CompletePass(page, site);
    NoItemsWhenBroken(page, site);
    WalkAgain(after, site);
    PlacedSettles(w.doc, w.past, WalkOf(after, site).past);
    assert after.seen[after.path := w.seen] == after.seen;
  }

  // ---- whole runs ----

  datatype Mode = LoginPage | SinglePost | FeedPage

  function Noticed(w: Walk, i: nat, added: seq<nat>, byLink: bool): (r: Walk)
    ensures |r.doc| == |w.doc|
  {
    if w.threw || i >= |added| || added[i] >= |w.doc| || !w.doc[added[i]].Feed? then w
    else
      var (item, anon) := Named(w.doc[added[i]].item, byLink, w.anon);
      var marked := !Broken(w.seen) && NameOf(item, byLink).value in w.seen.at;
      w.(doc := w.doc[added[i] := w.doc[added[i]].(item := if marked then item.(ok := true) else item)],
         anon := anon, threw := Broken(w.seen))
  }

  function Noticer(added: seq<nat>, byLink: bool): (Walk, nat) -> Walk {
    (w: Walk, i: nat) => Noticed(w, i, added, byLink)
  }

  function Marked(page: Page, added: seq<nat>, site: Site): Page {
    if page.path !in page.seen then page
    else
      var w := WalkTo(StartOf(page), |added|, Noticer(added, site.byLink));
      page.(doc := w.doc, anon := w.anon)
  }

  function Uncarded(doc: Document): Document {
    if FirstCard(doc).Some? then Removed(doc, FirstCard(doc).value) else doc
  }

  predicate EndsWith(s: string, end: string) { |end| <= |s| && s[|s| - |end|..] == end }

  // Whether an item links to the post an address names.
  predicate Shows(node: Node, id: string)
    requires node.Feed?
  {
    exists k :: 0 <= k < |node.item.links| && EndsWith(BeforeQuery(node.item.links[k]), "/status/" + id)
  }

  predicate IsFocal(node: Node, focal: Option<string>) {
    Counts(node) && (focal.None? || Shows(node, focal.value))
  }

  // The last item that stays on a page of its own: the one that shows the post the address
  // names, or the first where addresses name none.
  function FocalFrom(doc: Document, from: nat, focal: Option<string>): (keep: Option<nat>)
    requires from <= |doc|
    ensures keep.Some? ==> from <= keep.value < |doc| && IsFocal(doc[keep.value], focal)
    ensures keep.Some? ==> forall i :: from <= i < keep.value ==> !IsFocal(doc[i], focal)
    ensures keep.None? ==> forall i :: from <= i < |doc| ==> !IsFocal(doc[i], focal)
    decreases |doc| - from
  {
    if from == |doc| then None
    else if IsFocal(doc[from], focal) then Some(from)
    else FocalFrom(doc, from + 1, focal)
  }

  function HiddenAfter(node: Node, i: nat, keep: nat): Node {
    if Counts(node) then node.(item := node.item.(hidden := i > keep)) else node
  }

  function Cleaned(doc: Document, path: string, site: Site): Document {
    var keep := FocalFrom(doc, 0, site.focal(path));
    if site.keepComments || keep.None? then doc
    else seq(|doc|, i requires 0 <= i < |doc| => HiddenAfter(doc[i], i, keep.value))
  }

  function Applied(page: Page, mode: Mode, site: Site): (Page, bool) {
    match mode
    case LoginPage => (page, false)
    case SinglePost =>
      (page.(full := false, doc := Cleaned(Uncarded(page.doc), page.path, site)), FirstCard(page.doc).Some?)
    case FeedPage => Capped(page, site)
  }

  // What the script does on hearing of an address it may have been applied for already.
  function Navigated(page: Page, url: string, modeOf: string -> Mode, site: Site): Page {
    if url == page.lastURL then page
    else
      var path := site.pathOf(url);
      Applied(page.(lastURL := url, path := path, full := false, doc := Uncarded(page.doc)), modeOf(path), site).0
  }

  // What the site may do to its page: move, drop and add elements as it likes, and give
  // an element another post, though not mark one itself or make an end card of its own.
  ghost predicate SiteMay(before: Document, after: Document) {
    && OneCard(after)
    && forall node :: node in after && Counts(node) && node.item.ok && !node.item.redrawn ==>
         exists former :: former in before && former.Feed? && former.item == node.item
  }

  datatype Event =
    | SiteChanges(doc: Document)
    | ObserverSees(added: seq<nat>)
    | TimerFires
    | GoesTo(url: string)
    | GoesBackTo(url: string)

  ghost function Step(page: Page, e: Event, modeOf: string -> Mode, site: Site): Page {
    match e
    case SiteChanges(doc) => if SiteMay(page.doc, doc) then page.(doc := doc) else page
    case ObserverSees(added) => if modeOf(page.path) == FeedPage then Marked(page, added, site) else page
    case TimerFires => Applied(page, modeOf(page.path), site).0
    case GoesTo(url) => Navigated(page, url, modeOf, site)
    case GoesBackTo(url) => Navigated(page.(lastURL := ""), url, modeOf, site)
  }

  // The script's mark tells the truth about an element not redrawn since.
  ghost predicate Honest(node: Node, seen: Seen, byLink: bool) {
    Counts(node) && !node.item.redrawn && node.item.ok ==>
      NameOf(node.item, byLink).Some? && NameOf(node.item, byLink).value in seen.at
  }

  ghost predicate AllHonest(doc: Document, seen: Seen, byLink: bool) {
    forall i :: 0 <= i < |doc| ==> Honest(doc[i], seen, byLink)
  }

  ghost predicate Inv(page: Page, modeOf: string -> Mode, site: Site) {
    && GoodPage(page, site)
    && (page.full ==>
          && modeOf(page.path) == FeedPage
          && |SeenAt(page, page.path).order| >= site.items
          && AllHonest(page.doc, SeenAt(page, page.path), site.byLink))
  }

  // While a feed is full, an item for a post not counted is never drawn, before a pass or
  // after, unless the site has put the post into an element of another.
  lemma NotDrawnPastTheEnd(page: Page, node: Node, modeOf: string -> Mode, site: Site)
    requires Inv(page, modeOf, site) && page.full
    requires node in page.doc && Counts(node) && !node.item.redrawn && !IsCounted(page, node, site)
    ensures !Visible(node, page.full)
  {
    var i :| 0 <= i < |page.doc| && page.doc[i] == node;
    assert Honest(page.doc[i], SeenAt(page, page.path), site.byLink);
  }

  lemma VisitHonest(w: Walk, i: nat, byLink: bool, items: nat)
    requires AllHonest(w.doc, w.seen, byLink)
    ensures AllHonest(Visited(w, i, byLink, items).doc, Visited(w, i, byLink, items).seen, byLink)
  {
  }

  lemma WalkHonest(w: Walk, n: nat, site: Site)
    requires AllHonest(w.doc, w.seen, site.byLink)
    ensures var r := WalkTo(w, n, Visitor(site.byLink, site.items)); AllHonest(r.doc, r.seen, site.byLink)
  {
    var inv := (v: Walk, i: nat) => AllHonest(v.doc, v.seen, site.byLink);
    var visit := Visitor(site.byLink, site.items);
    forall v: Walk, i: nat | i < n && inv(v, i)
      ensures inv(visit(v, i), i + 1)
    {
      VisitHonest(v, i, site.byLink, site.items);
    }
    WalkKeeps(w, n, visit, inv);
  }

  lemma NoticeHonest(w: Walk, i: nat, added: seq<nat>, byLink: bool)
    requires AllHonest(w.doc, w.seen, byLink)
    ensures var r := Noticed(w, i, added, byLink); AllHonest(r.doc, r.seen, byLink) && r.seen == w.seen
  {
  }

  lemma NoticeShape(w: Walk, i: nat, added: seq<nat>, byLink: bool)
    ensures var r := Noticed(w, i, added, byLink); r.seen == w.seen && SameShape(r.doc, w.doc)
  {
  }

  lemma MarkedHonest(page: Page, added: seq<nat>, site: Site)
    ensures SameShape(Marked(page, added, site).doc, page.doc)
    ensures AllHonest(page.doc, SeenAt(page, page.path), site.byLink) ==>
              AllHonest(Marked(page, added, site).doc, SeenAt(page, page.path), site.byLink)
  {
    var w, visit := StartOf(page), Noticer(added, site.byLink);
    var shape := (v: Walk, i: nat) => SameShape(v.doc, w.doc) && v.seen == w.seen;
    forall v: Walk, i: nat | i < |added| && shape(v, i)
      ensures shape(visit(v, i), i + 1)
    {
      NoticeShape(v, i, added, site.byLink);
    }
    WalkKeeps(w, |added|, visit, shape);
    if AllHonest(w.doc, w.seen, site.byLink) {
      var honest := (v: Walk, i: nat) => AllHonest(v.doc, v.seen, site.byLink) && v.seen == w.seen;
      forall v: Walk, i: nat | i < |added| && honest(v, i)
        ensures honest(visit(v, i), i + 1)
      {
        NoticeHonest(v, i, added, site.byLink);
      }
      WalkKeeps(w, |added|, visit, honest);
    }
  }

  lemma PassKeepsInv(page: Page, modeOf: string -> Mode, site: Site)
    requires Inv(page, modeOf, site) && modeOf(page.path) == FeedPage
    ensures Inv(Capped(page, site).0, modeOf, site)
  {
    var w, after := WalkOf(page, site), Capped(page, site).0;
    WalkOfPage(page, site);
    if w.threw {
      BrokenPass(page, site);
      if page.full {
        WalkHonest(StartOf(page), |page.doc|, site);
      }
    } else {
      CompletePass(page, site);
      assert forall i :: 0 <= i < |after.doc| ==> after.doc[i] in after.doc;
    }
  }

  lemma UncardedIsGood(page: Page, site: Site)
    requires GoodPage(page, site)
    ensures GoodPage(page.(doc := Uncarded(page.doc)), site) && FirstCard(Uncarded(page.doc)).None?
  {
    if FirstCard(page.doc).Some? {
      RemovedNodes(page.doc, FirstCard(page.doc).value);
    }
  }

  lemma CleanedShape(doc: Document, path: string, site: Site)
    ensures SameShape(Cleaned(doc, path, site), doc)
  {
  }

  // On a page of its own a post stays with what leads up to it, and what follows goes:
  // an item is hidden exactly when one before it shows the post the address names. Where
  // addresses name none the first item is the post. With no such item yet, or on a site
  // whose posts keep their comments, nothing is hidden or shown.
  lemma RepliesAreHidden(page: Page, site: Site)
    ensures var before, after := Uncarded(page.doc), Applied(page, SinglePost, site).0;
            && !after.full && SameShape(after.doc, before)
            && (site.keepComments || (forall i :: 0 <= i < |before| ==> !IsFocal(before[i], site.focal(page.path))) ==> after.doc == before)
            && (!site.keepComments && (exists j :: 0 <= j < |before| && IsFocal(before[j], site.focal(page.path))) ==>
                  forall i :: 0 <= i < |before| && Counts(before[i]) ==>
                    (after.doc[i].item.hidden <==> exists j :: 0 <= j < i && IsFocal(before[j], site.focal(page.path))))
  {
    CleanedShape(Uncarded(page.doc), page.path, site);
  }

  lemma AppliedKeepsInv(page: Page, modeOf: string -> Mode, site: Site)
    requires Inv(page, modeOf, site)
    ensures Inv(Applied(page, modeOf(page.path), site).0, modeOf, site)
  {
    match modeOf(page.path)
    case LoginPage =>
    case SinglePost =>
      UncardedIsGood(page, site);
      CleanedShape(Uncarded(page.doc), page.path, site);
    case FeedPage => PassKeepsInv(page, modeOf, site);
  }

  lemma NavigatedKeepsInv(page: Page, url: string, modeOf: string -> Mode, site: Site)
    requires Inv(page, modeOf, site)
    ensures Inv(Navigated(page, url, modeOf, site), modeOf, site)
  {
    UncardedIsGood(page, site);
    AppliedKeepsInv(page.(lastURL := url, path := site.pathOf(url), full := false, doc := Uncarded(page.doc)), modeOf, site);
  }

  lemma StepKeepsInv(page: Page, e: Event, modeOf: string -> Mode, site: Site)
    requires Inv(page, modeOf, site)
    ensures Inv(Step(page, e, modeOf, site), modeOf, site)
  {
    match e
    case SiteChanges(doc) =>
      if SiteMay(page.doc, doc) && page.full {
        forall i | 0 <= i < |doc|
          ensures Honest(doc[i], SeenAt(page, page.path), site.byLink)
        {
          if Counts(doc[i]) && doc[i].item.ok && !doc[i].item.redrawn {
            assert doc[i] in doc;
            var former :| former in page.doc && former.Feed? && former.item == doc[i].item;
            var j :| 0 <= j < |page.doc| && page.doc[j] == former;
            assert Honest(page.doc[j], SeenAt(page, page.path), site.byLink);
          }
        }
      }
    case ObserverSees(added) =>
      if modeOf(page.path) == FeedPage {
        MarkedHonest(page, added, site);
      }
    case TimerFires => AppliedKeepsInv(page, modeOf, site);
    case GoesTo(url) => NavigatedKeepsInv(page, url, modeOf, site);
    case GoesBackTo(url) => NavigatedKeepsInv(page.(lastURL := ""), url, modeOf, site);
  }

  // Whatever happens, no address ever forgets a post or an order of posts.
  lemma CountsOnlyGrow(page: Page, e: Event, path: string, modeOf: string -> Mode, site: Site)
    requires Inv(page, modeOf, site)
    ensures SeenAt(page, path).order <= SeenAt(Step(page, e, modeOf, site), path).order
  {
    match e
    case SiteChanges(doc) =>
    case ObserverSees(added) =>
    case TimerFires => AppliedGrows(page, modeOf(page.path), path, site);
    case GoesTo(url) => NavigatedGrows(page, url, path, modeOf, site);
    case GoesBackTo(url) => NavigatedGrows(page.(lastURL := ""), url, path, modeOf, site);
  }

  lemma NavigatedGrows(page: Page, url: string, path: string, modeOf: string -> Mode, site: Site)
    requires GoodPage(page, site)
    ensures SeenAt(page, path).order <= SeenAt(Navigated(page, url, modeOf, site), path).order
  {
    UncardedIsGood(page, site);
    AppliedGrows(page.(lastURL := url, path := site.pathOf(url), full := false, doc := Uncarded(page.doc)),
                 modeOf(site.pathOf(url)), path, site);
  }

  lemma AppliedGrows(page: Page, mode: Mode, path: string, site: Site)
    requires GoodPage(page, site)
    ensures SeenAt(page, path).order <= SeenAt(Applied(page, mode, site).0, path).order
  {
    if mode == FeedPage {
      WalkOfPage(page, site);
    }
  }

  ghost function Play(page: Page, events: seq<Event>, modeOf: string -> Mode, site: Site): Page {
    if events == [] then page
    else Step(Play(page, events[..|events| - 1], modeOf, site), events[|events| - 1], modeOf, site)
  }

  lemma {:induction false} PlayKeepsInv(page: Page, events: seq<Event>, modeOf: string -> Mode, site: Site)
    requires Inv(page, modeOf, site)
    ensures Inv(Play(page, events, modeOf, site), modeOf, site)
  {
    if events != [] {
      PlayKeepsInv(page, events[..|events| - 1], modeOf, site);
      StepKeepsInv(Play(page, events[..|events| - 1], modeOf, site), events[|events| - 1], modeOf, site);
    }
  }

  function Start(url: string, doc: Document, site: Site): Page {
    Page(url, site.pathOf(url), doc, false, map[], 0, false)
  }

  // From a page the script has just been put into, whatever happens: every address counts
  // no post twice (but __proto__) and never past the limit, and while the feed is full
  // nothing uncounted is drawn that was not put into an element of another post.
  lemma EveryRunEndsTheFeed(url: string, doc: Document, events: seq<Event>, modeOf: string -> Mode, site: Site)
    requires OneCard(doc)
    ensures var page := Play(Start(url, doc, site), events, modeOf, site);
            && (forall at :: at in page.seen ==> IsSeen(page.seen[at], site.items))
            && (page.full ==> modeOf(page.path) == FeedPage && |SeenAt(page, page.path).order| >= site.items)
            && forall node :: page.full && node in page.doc && Counts(node) && !node.item.redrawn && !IsCounted(page, node, site) ==>
                 !Visible(node, page.full)
  {
    var page := Play(Start(url, doc, site), events, modeOf, site);
    PlayKeepsInv(Start(url, doc, site), events, modeOf, site);
    forall node | page.full && node in page.doc && Counts(node) && !node.item.redrawn && !IsCounted(page, node, site)
      ensures !Visible(node, page.full)
    {
      NotDrawnPastTheEnd(page, node, modeOf, site);
    }
  }

  lemma NoCardInSame(doc: Document, same: Document)
    requires SameShape(doc, same) && FirstCard(same).None?
    ensures FirstCard(doc).None?
  {
  }

  // Applying the script twice to a page nobody touched wakes nothing.
  lemma ApplyingIsQuiet(page: Page, mode: Mode, site: Site)
    requires GoodPage(page, site)
    ensures GoodPage(Applied(page, mode, site).0, site) && !Applied(Applied(page, mode, site).0, mode, site).1
  {
    match mode
    case LoginPage =>
    case SinglePost =>
      UncardedIsGood(page, site);
      CleanedShape(Uncarded(page.doc), page.path, site);
      NoCardInSame(Cleaned(Uncarded(page.doc), page.path, site), Uncarded(page.doc));
    case FeedPage =>
      SecondPassIsQuiet(page, site);
      if WalkOf(page, site).threw {
        BrokenPass(page, site);
      } else {
        CompletePass(page, site);
      }
  }

  // ---- the script itself ----

  lemma {:induction false} ThrewStops(w: Walk, i: nat, n: nat, site: Site)
    requires i <= n && WalkTo(w, i, Visitor(site.byLink, site.items)).threw
    ensures WalkTo(w, n, Visitor(site.byLink, site.items)) == WalkTo(w, i, Visitor(site.byLink, site.items))
  {
    if i < n {
      ThrewStops(w, i, n - 1, site);
    }
  }

  class Calm {
    const site: Site
    var lastURL: string
    var path: string
    var doc: Document
    var full: bool
    var seen: map<string, Seen>
    var anon: nat
    var sheetDone: bool

    constructor (site: Site, url: string, doc: Document)
      ensures this.site == site && Now() == Start(url, doc, site)
    {
      this.site, lastURL, path, this.doc := site, url, site.pathOf(url), doc;
      full, seen, anon, sheetDone := false, map[], 0, false;
    }

    function Now(): Page
      reads this
    {
      Page(lastURL, path, doc, full, seen, anon, sheetDone)
    }

    // Whether a style element had to be added.
    method AddSheet() returns (added: bool)
      modifies this`sheetDone
      ensures sheetDone && added == AddsStyle(old(Now()), site)
    {
      if sheetDone {
        return false;
      }
      sheetDone := true;
      return !site.constructed;
    }

    method SetFull(on: bool)
      modifies this`full
      ensures full == on
    {
      if on {
        if !full {
          full := true;
        }
      } else if full {
        full := false;
      }
    }

    // The name of an item, the script giving it one if it has none.
    method KeyOf(i: nat) returns (key: string)
      requires i < |doc| && doc[i].Feed?
      modifies this`doc, this`anon
      ensures var (item, number) := Named(old(doc[i]).item, site.byLink, old(anon));
              && doc == old(doc)[i := old(doc[i]).(item := item)] && anon == number
              && NameOf(item, site.byLink) == Some(key)
    {
      var item := doc[i].item;
      if site.byLink && item.href != "" {
        return BeforeQuery(item.href);
      }
      if item.permalink != "" {
        return item.permalink;
      }
      if item.id != "" {
        return item.id;
      }
      if item.anonKey.None? {
        anon := anon + 1;
        item := item.(anonKey := Some("#" + Decimal(anon)));
        doc := doc[i := doc[i].(item := item)];
      }
      return item.anonKey.value;
    }

    // One item of a pass; `threw` when the lookup does.
    method Visit(i: nat, count: Seen, past: Option<nat>) returns (counted: Seen, first: Option<nat>, threw: bool)
      requires i < |doc|
      modifies this`doc, this`anon
      ensures Walk(doc, counted, anon, first, threw) == Visited(Walk(old(doc), count, old(anon), past, false), i, site.byLink, site.items)
    {
      counted, first := count, past;
      if !Counts(doc[i]) {
        return counted, first, false;
      }
      var key := KeyOf(i);
      if Broken(counted) {
        return counted, first, true;
      }
      if key !in counted.at && |counted.order| < site.items {
        counted := Seen(counted.order + [key], if key == PROTO then counted.at else counted.at[key := |counted.order|]);
      }
      if Broken(counted) {
        return counted, first, true;
      }
      var item := doc[i].item;
      if key in counted.at {
        doc := doc[i := doc[i].(item := item.(ok := true, hidden := false, redrawn := false))];
      } else {
        doc := doc[i := doc[i].(item := item.(ok := false, hidden := true, redrawn := false))];
        if first.None? {
          first := Some(i);
        }
      }
      return counted, first, false;
    }

    method RemoveEndCard()
      modifies this`doc
      ensures doc == Uncarded(old(doc))
    {
      var card := FirstCard(doc);
      if card.Some? {
        doc := doc[..card.value] + doc[card.value + 1..];
      }
    }

    // Puts the end card in front of the first item past the end, if it is not there yet.
    method PlaceCard(past: Option<nat>) returns (moved: bool)
      requires past.Some? ==> past.value < |doc| && Counts(doc[past.value])
      modifies this`doc
      ensures (doc, moved) == Placed(old(doc), past)
    {
      var card := FirstCard(doc);
      if past.None? {
        RemoveEndCard();
        return card.Some?;
      }
      if card.Some? && NextSibling(doc, card.value) == past {
        return false;
      }
      var parent := doc[past.value].parent;
      var at := if card.Some? && card.value < past.value then past.value - 1 else past.value;
      RemoveEndCard();
      doc := doc[..at] + [EndCard(parent)] + doc[at..];
      return true;
    }

    // Looks every item over, in order, until a lookup throws.
    method LookOver(before: Seen) returns (count: Seen, past: Option<nat>, threw: bool)
      modifies this`doc, this`anon
      ensures Walk(doc, count, anon, past, threw)
           == WalkTo(Walk(old(doc), before, old(anon), None, false), |old(doc)|, Visitor(site.byLink, site.items))
    {
      ghost var start, visit := Walk(doc, before, anon, None, false), Visitor(site.byLink, site.items);
      count, past, threw := before, None, false;
      for i := 0 to |doc|
        invariant |doc| == |start.doc|
        invariant Walk(doc, count, anon, past, false) == WalkTo(start, i, visit)
      {
        count, past, threw := Visit(i, count, past);
        if threw {
          ThrewStops(start, i + 1, |doc|, site);
          return;
        }
      }
    }

    method CapFeed() returns (touched: bool)
      modifies this
      ensures (Now(), touched) == Capped(old(Now()), site)
    {
      WalkPast(Now(), site);
      touched := AddSheet();
      var count, past, threw := LookOver(if path in seen then seen[path] else EMPTY);
      seen := seen[path := count];
      if !threw {
        SetFull(|count.order| >= site.items);
        var moved := PlaceCard(past);
        touched := touched || moved;
      }
    }

    // Hides the replies on a post's own page.
    method CleanSingle() returns (touched: bool)
      modifies this`doc
      ensures doc == Cleaned(Uncarded(old(doc)), path, site) && touched == FirstCard(old(doc)).Some?
    {
      touched := FirstCard(doc).Some?;
      RemoveEndCard();
      if site.keepComments {
        return;
      }
      var keep := FocalFrom(doc, 0, site.focal(path));
      if keep.None? {
        return;
      }
      ghost var before := doc;
      for n := 0 to |doc|
        invariant |doc| == |before| && forall i :: n <= i < |doc| ==> doc[i] == before[i]
        invariant forall i :: 0 <= i < n ==> doc[i] == HiddenAfter(before[i], i, keep.value)
      {
        if Counts(doc[n]) {
          doc := doc[n := doc[n].(item := doc[n].item.(hidden := n > keep.value))];
        }
      }
    }

    method Apply(mode: Mode) returns (touched: bool)
      modifies this
      ensures (Now(), touched) == Applied(old(Now()), mode, site)
    {
      match mode {
        case LoginPage => touched := false;
        case SinglePost =>
          SetFull(false);
          touched := CleanSingle();
        case FeedPage => touched := CapFeed();
      }
    }

    // The address may have changed under the script.
    method CheckURL(url: string, modeOf: string -> Mode)
      modifies this
      ensures Now() == Navigated(old(Now()), url, modeOf, site)
    {
      if url == lastURL {
        return;
      }
      lastURL, path := url, site.pathOf(url);
      RemoveEndCard();
      SetFull(false);
      var _ := Apply(modeOf(path));
    }

    // Going back or to a fragment: the last address is forgotten first.
    method PopState(url: string, modeOf: string -> Mode)
      modifies this
      ensures Now() == Navigated(old(Now()).(lastURL := ""), url, modeOf, site)
    {
      lastURL := "";
      CheckURL(url, modeOf);
    }

    // The observer's first look at added elements: the ones for counted posts are marked
    // at once.
    method MarkCounted(added: seq<nat>)
      modifies this`doc, this`anon
      ensures Now() == Marked(old(Now()), added, site)
    {
      if path !in seen {
        return;
      }
      ghost var start, notice := StartOf(Now()), Noticer(added, site.byLink);
      var threw := false;
      for i := 0 to |added|
        invariant Walk(doc, start.seen, anon, None, threw) == WalkTo(start, i, notice)
      {
        if !threw && added[i] < |doc| && doc[added[i]].Feed? {
          var key := KeyOf(added[i]);
          if Broken(seen[path]) {
            threw := true;
          } else if key in seen[path].at {
            doc := doc[added[i] := doc[added[i]].(item := doc[added[i]].item.(ok := true))];
          }
        }
      }
    }

    // The page has stopped changing. Each pass that touches its children wakes the
    // observer, which asks for another: there are at most two.
    method Settle(modeOf: string -> Mode) returns (passes: nat)
      requires GoodPage(Now(), site)
      modifies this
      ensures 1 <= passes <= 2
      ensures !Applied(Now(), modeOf(path), site).1
    {
      var pending := true;
      passes := 0;
      while pending
        invariant GoodPage(Now(), site) && passes <= 2 && (passes == 0 ==> pending) && (passes == 2 ==> !pending)
        invariant passes > 0 ==> !Applied(Now(), modeOf(path), site).1
        decreases 2 - passes
      {
        ApplyingIsQuiet(Now(), modeOf(path), site);
        pending := Apply(modeOf(path));
        passes := passes + 1;
      }
    }
  }
}
