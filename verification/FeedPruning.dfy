// mitm/kosher_filter.py, class YouTube: the three walks over a feed's JSON that take out
// Shorts, hover players and the videos of channels an account is not approved for.
module FeedPruning {
  import opened Options

  // A JSON value as it was read. A dict keeps its keys in order.
  datatype Json =
    | Null
    | Bool(b: bool)
    | Number(n: real)
    | Text(s: string)
    | List(items: seq<Json>)
    | Dict(fields: seq<Field>)

  datatype Field = Field(key: string, value: Json)

  const MAX_DEPTH := 24
  const SHORTS_DEPTH := 12

  const SHORTS_KEYS: set<string> := {"reelShelfRenderer", "reelItemRenderer", "shortsLockupViewModel", "reelWatchEndpoint"}

  const PREVIEW_KEYS: set<string> := {
    "inlinePlaybackRenderer", "movingThumbnailRenderer", "movingThumbnailDetails",
    "animatedThumbnailRenderer", "richGridMovingThumbnailRenderer", "onHoverInlinePlaybackRenderer"}

  function KeysOf(fields: seq<Field>): seq<string> { seq(|fields|, i requires 0 <= i < |fields| => fields[i].key) }

  function Lookup(fields: seq<Field>, key: string): (found: Option<Json>)
    ensures found.Some? <==> key in KeysOf(fields)
    ensures found.Some? ==> Field(key, found.value) in fields
  {
    if fields == [] then None
    else if fields[0].key == key then
      assert KeysOf(fields)[0] == key;
      Some(fields[0].value)
    else
      assert KeysOf(fields) == [fields[0].key] + KeysOf(fields[1..]);
      Lookup(fields[1..], key)
  }

  // ---- dropping list entries ----

  // Does this value carry a Shorts shape within reach?
  predicate MentionsShorts(node: Json, depth: nat)
    decreases SHORTS_DEPTH + 1 - depth
  {
    if depth > SHORTS_DEPTH then false
    else match node
      case Dict(fields) =>
        || (exists i :: 0 <= i < |fields| && fields[i].key in SHORTS_KEYS)
        || (exists i :: 0 <= i < |fields| && MentionsShorts(fields[i].value, depth + 1))
      case List(items) => exists i :: 0 <= i < |items| && MentionsShorts(items[i], depth + 1)
      case _ => false
  }

  predicate IsShort(entry: Json) { entry.Dict? && MentionsShorts(entry, 0) }

  // A copy of the tree without the list entries `drop` names. Below the depth limit the
  // tree is left as it came.
  function PruneEntries(node: Json, depth: nat, drop: Json -> bool): (r: Json)
    ensures node.Dict? ==> r.Dict? && KeysOf(r.fields) == KeysOf(node.fields)
    decreases MAX_DEPTH + 1 - depth, 1, 0
  {
    if depth > MAX_DEPTH then node
    else match node
      case List(items) => List(PruneItems(items, depth, drop))
      case Dict(fields) => Dict(PruneFields(fields, depth, drop))
      case _ => node
  }

  function PruneItems(items: seq<Json>, depth: nat, drop: Json -> bool): (r: seq<Json>)
    requires depth <= MAX_DEPTH
    decreases MAX_DEPTH + 1 - depth, 0, |items|
  {
    if items == [] then []
    else (if drop(items[0]) then [] else [PruneEntries(items[0], depth + 1, drop)]) + PruneItems(items[1..], depth, drop)
  }

  function PruneFields(fields: seq<Field>, depth: nat, drop: Json -> bool): (r: seq<Field>)
    requires depth <= MAX_DEPTH
    ensures KeysOf(r) == KeysOf(fields)
    decreases MAX_DEPTH + 1 - depth, 0, 0
  {
    seq(|fields|, i requires 0 <= i < |fields| => Field(fields[i].key, PruneEntries(fields[i].value, depth + 1, drop)))
  }

  function PruneShorts(node: Json): Json { PruneEntries(node, 0, IsShort) }

  // How many of the first entries are kept, and where the entry kept at a place came from.
  function KeptBefore(items: seq<Json>, i: nat, drop: Json -> bool): nat
    requires i <= |items|
  {
    if i == 0 then 0 else (if drop(items[0]) then 0 else 1) + KeptBefore(items[1..], i - 1, drop)
  }

  function NthKept(items: seq<Json>, place: nat, drop: Json -> bool): (i: nat)
    requires place < KeptBefore(items, |items|, drop)
    ensures i < |items| && !drop(items[i]) && KeptBefore(items, i, drop) == place
  {
    if drop(items[0]) then 1 + NthKept(items[1..], place, drop)
    else if place == 0 then 0
    else 1 + NthKept(items[1..], place - 1, drop)
  }

  lemma {:induction false} KeptIsNth(items: seq<Json>, i: nat, depth: nat, drop: Json -> bool)
    requires i < |items| && !drop(items[i]) && depth <= MAX_DEPTH
    ensures KeptBefore(items, i, drop) < KeptBefore(items, |items|, drop) == |PruneItems(items, depth, drop)|
    ensures NthKept(items, KeptBefore(items, i, drop), drop) == i
    ensures PruneItems(items, depth, drop)[KeptBefore(items, i, drop)] == PruneEntries(items[i], depth + 1, drop)
  {
    KeptCount(items, depth, drop);
    if i > 0 {
      KeptIsNth(items[1..], i - 1, depth, drop);
    } else {
      KeptCount(items[1..], depth, drop);
    }
  }

  lemma {:induction false} KeptCount(items: seq<Json>, depth: nat, drop: Json -> bool)
    requires depth <= MAX_DEPTH
    ensures |PruneItems(items, depth, drop)| == KeptBefore(items, |items|, drop) <= |items|
    ensures KeptBefore(items, |items|, drop) == |items| <==> forall i :: 0 <= i < |items| ==> !drop(items[i])
  {
    if items != [] {
      KeptCount(items[1..], depth, drop);
      assert forall i :: 1 <= i < |items| ==> items[i] == items[1..][i - 1];
      assert forall i :: 0 <= i < |items[1..]| ==> items[1..][i] == items[i + 1];
    }
  }

  // ---- where each value of the feed goes ----

  datatype Step = Index(i: nat) | Key(key: string)
  type Path = seq<Step>

  function Child(node: Json, step: Step): Option<Json> {
    match step
    case Index(i) => if node.List? && i < |node.items| then Some(node.items[i]) else None
    case Key(key) => if node.Dict? then Lookup(node.fields, key) else None
  }

  function Get(node: Json, path: Path): Option<Json> {
    if path == [] then Some(node)
    else
      var child := Child(node, path[0]);
      if child.Some? then Get(child.value, path[1..]) else None
  }

  predicate DropsChild(node: Json, step: Step, drop: Json -> bool) {
    step.Index? && Child(node, step).Some? && drop(Child(node, step).value)
  }

  // The step a kept child is reached by in the pruned feed, and the one it was reached by.
  function StepAfter(node: Json, step: Step, drop: Json -> bool): Step
    requires Child(node, step).Some?
  {
    if step.Index? then Index(KeptBefore(node.items, step.i, drop)) else step
  }

  // The path in the pruned feed of the value at `path`, or None when it is taken out.
  function Fate(node: Json, path: Path, depth: nat, drop: Json -> bool): Option<Path>
    requires Get(node, path).Some?
    decreases |path|
  {
    if path == [] || depth > MAX_DEPTH then Some(path)
    else if DropsChild(node, path[0], drop) then None
    else
      var rest := Fate(Child(node, path[0]).value, path[1..], depth + 1, drop);
      if rest.Some? then Some([StepAfter(node, path[0], drop)] + rest.value) else None
  }

  lemma {:induction false} LookupPruned(fields: seq<Field>, key: string, depth: nat, drop: Json -> bool)
    requires depth <= MAX_DEPTH
    ensures Lookup(fields, key).Some? <==> Lookup(PruneFields(fields, depth, drop), key).Some?
    ensures Lookup(fields, key).Some? ==>
              Lookup(PruneFields(fields, depth, drop), key).value == PruneEntries(Lookup(fields, key).value, depth + 1, drop)
  {
    if fields != [] && fields[0].key != key {
      LookupPruned(fields[1..], key, depth, drop);
      assert PruneFields(fields, depth, drop)[1..] == PruneFields(fields[1..], depth, drop);
    }
  }

  lemma KeptChild(node: Json, step: Step, depth: nat, drop: Json -> bool)
    requires depth <= MAX_DEPTH && Child(node, step).Some? && !DropsChild(node, step, drop)
    ensures Child(PruneEntries(node, depth, drop), StepAfter(node, step, drop))
         == Some(PruneEntries(Child(node, step).value, depth + 1, drop))
  {
    match step
    case Index(i) => KeptIsNth(node.items, i, depth, drop);
    case Key(key) => LookupPruned(node.fields, key, depth, drop);
  }

  lemma KeptSteps(node: Json, one: Step, other: Step, drop: Json -> bool)
    requires Child(node, one).Some? && !DropsChild(node, one, drop)
    requires Child(node, other).Some? && !DropsChild(node, other, drop)
    requires StepAfter(node, one, drop) == StepAfter(node, other, drop)
    ensures one == other
  {
    if one.Index? {
      KeptIsNth(node.items, one.i, 0, drop);
      KeptIsNth(node.items, other.i, 0, drop);
    }
  }

  lemma ChildWasKept(node: Json, step: Step, depth: nat, drop: Json -> bool) returns (before: Step)
    requires depth <= MAX_DEPTH && Child(PruneEntries(node, depth, drop), step).Some?
    ensures Child(node, before).Some? && !DropsChild(node, before, drop) && StepAfter(node, before, drop) == step
  {
    match step
    case Index(place) =>
      KeptCount(node.items, depth, drop);
      before := Index(NthKept(node.items, place, drop));
    case Key(key) =>
      LookupPruned(node.fields, key, depth, drop);
      before := step;
  }

  lemma GetStep(node: Json, step: Step, child: Json, rest: Path)
    requires Child(node, step) == Some(child)
    ensures Get(node, [step] + rest) == Get(child, rest)
  {
    assert ([step] + rest)[1..] == rest;
  }

  // A value that is kept is found at its new path, itself pruned.
  lemma {:induction false} FateIsFound(node: Json, path: Path, depth: nat, drop: Json -> bool)
    requires Get(node, path).Some? && Fate(node, path, depth, drop).Some?
    ensures var to := Fate(node, path, depth, drop).value;
            && |to| == |path|
            && Get(PruneEntries(node, depth, drop), to) == Some(PruneEntries(Get(node, path).value, depth + |path|, drop))
    decreases |path|
  {
    if path != [] && depth <= MAX_DEPTH {
      var child := Child(node, path[0]).value;
      KeptChild(node, path[0], depth, drop);
      FateIsFound(child, path[1..], depth + 1, drop);
      var rest := Fate(child, path[1..], depth + 1, drop).value;
      GetStep(PruneEntries(node, depth, drop), StepAfter(node, path[0], drop), PruneEntries(child, depth + 1, drop), rest);
    } else if path != [] {
      BelowTheLimit(node, path, depth, drop);
    }
  }

  lemma BelowTheLimit(node: Json, path: Path, depth: nat, drop: Json -> bool)
    requires depth > MAX_DEPTH && Get(node, path).Some?
    ensures PruneEntries(Get(node, path).value, depth + |path|, drop) == Get(node, path).value
  {
  }

  lemma FateStep(node: Json, path: Path, depth: nat, drop: Json -> bool)
    requires path != [] && depth <= MAX_DEPTH && Get(node, path).Some? && Fate(node, path, depth, drop).Some?
    ensures !DropsChild(node, path[0], drop) && Fate(Child(node, path[0]).value, path[1..], depth + 1, drop).Some?
    ensures var to := Fate(node, path, depth, drop).value;
            && to != [] && to[0] == StepAfter(node, path[0], drop)
            && to[1..] == Fate(Child(node, path[0]).value, path[1..], depth + 1, drop).value
  {
  }

  // No two values end up in one place.
  lemma {:induction false} FatesDiffer(node: Json, one: Path, other: Path, depth: nat, drop: Json -> bool)
    requires Get(node, one).Some? && Get(node, other).Some?
    requires Fate(node, one, depth, drop).Some? && Fate(node, one, depth, drop) == Fate(node, other, depth, drop)
    ensures one == other
    decreases |one|
  {
    if one != [] && other != [] && depth <= MAX_DEPTH {
      FateStep(node, one, depth, drop);
      FateStep(node, other, depth, drop);
      KeptSteps(node, one[0], other[0], drop);
      FatesDiffer(Child(node, one[0]).value, one[1..], other[1..], depth + 1, drop);
      assert one == [one[0]] + one[1..] && other == [other[0]] + other[1..];
    }
  }

  // Nothing is in the pruned feed that was not in the feed.
  lemma {:induction false} NothingIsAdded(node: Json, path: Path, depth: nat, drop: Json -> bool) returns (from: Path)
    requires Get(PruneEntries(node, depth, drop), path).Some?
    ensures Get(node, from).Some? && Fate(node, from, depth, drop) == Some(path)
    decreases |path|
  {
    if path == [] || depth > MAX_DEPTH {
      from := path;
    } else {
      var before := ChildWasKept(node, path[0], depth, drop);
      KeptChild(node, before, depth, drop);
      var rest := NothingIsAdded(Child(node, before).value, path[1..], depth + 1, drop);
      from := [before] + rest;
      assert from[1..] == rest;
      assert path == [path[0]] + path[1..];
    }
  }

  // A list entry on the way to the value at `path` that `drop` names.
  ghost predicate DroppedAt(node: Json, path: Path, j: int, depth: nat, drop: Json -> bool) {
    && 0 <= j < |path| && depth + j <= MAX_DEPTH
    && Get(node, path[..j]).Some? && DropsChild(Get(node, path[..j]).value, path[j], drop)
  }

  lemma DroppedBelow(node: Json, path: Path, j: nat, depth: nat, drop: Json -> bool)
    requires Get(node, path).Some? && j + 1 < |path| && depth <= MAX_DEPTH
    ensures DroppedAt(node, path, j + 1, depth, drop)
       <==> DroppedAt(Child(node, path[0]).value, path[1..], j, depth + 1, drop)
  {
    assert path[..j + 1][1..] == path[1..][..j] && path[..j + 1][0] == path[0];
    assert path[1..][j] == path[j + 1];
  }

  // A value is taken out exactly when it is, or lies inside, a list entry to drop.
  lemma {:induction false} TakenOutExactly(node: Json, path: Path, depth: nat, drop: Json -> bool)
    requires Get(node, path).Some?
    ensures Fate(node, path, depth, drop).None? <==> exists j :: DroppedAt(node, path, j, depth, drop)
    decreases |path|
  {
    if path != [] && depth <= MAX_DEPTH {
      var child := Child(node, path[0]).value;
      var rest := path[1..];
      TakenOutExactly(child, rest, depth + 1, drop);
      assert Get(node, path[..0]) == Some(node);
      forall j | 1 <= j < |path|
        ensures DroppedAt(node, path, j, depth, drop) <==> DroppedAt(child, rest, j - 1, depth + 1, drop)
      {
        DroppedBelow(node, path, j - 1, depth, drop);
      }
      if DropsChild(node, path[0], drop) {
        assert DroppedAt(node, path, 0, depth, drop);
      } else if Fate(child, rest, depth + 1, drop).None? {
        var j :| DroppedAt(child, rest, j, depth + 1, drop);
        assert DroppedAt(node, path, j + 1, depth, drop);
      }
    }
  }

  // Kept entries keep their order.
  lemma {:induction false} KeptInOrder(items: seq<Json>, i: nat, j: nat, drop: Json -> bool)
    requires i < j < |items| && !drop(items[i])
    ensures KeptBefore(items, i, drop) < KeptBefore(items, j, drop)
  {
    if i > 0 {
      KeptInOrder(items[1..], i - 1, j - 1, drop);
    }
  }

  // ---- a pruned feed has nothing left to prune ----

  predicate Clean(node: Json, depth: nat, drop: Json -> bool)
    decreases MAX_DEPTH + 1 - depth
  {
    if depth > MAX_DEPTH then true
    else match node
      case List(items) => forall i :: 0 <= i < |items| ==> !drop(items[i]) && Clean(items[i], depth + 1, drop)
      case Dict(fields) => forall i :: 0 <= i < |fields| ==> Clean(fields[i].value, depth + 1, drop)
      case _ => true
  }

  // Pruning changes a feed exactly when there is something in it to drop.
  lemma {:induction false} UnchangedExactlyWhenClean(node: Json, depth: nat, drop: Json -> bool)
    ensures PruneEntries(node, depth, drop) == node <==> Clean(node, depth, drop)
    decreases MAX_DEPTH + 1 - depth, 1, 0
  {
    if depth <= MAX_DEPTH {
      match node
      case List(items) => UnchangedItems(items, depth, drop);
      case Dict(fields) =>
        var pruned := PruneFields(fields, depth, drop);
        forall i | 0 <= i < |fields|
          ensures pruned[i] == fields[i] <==> Clean(fields[i].value, depth + 1, drop)
        {
          UnchangedExactlyWhenClean(fields[i].value, depth + 1, drop);
          assert KeysOf(pruned)[i] == KeysOf(fields)[i];
        }
        assert pruned == fields <==> forall i :: 0 <= i < |fields| ==> pruned[i] == fields[i];
      case _ =>
    }
  }

  lemma {:induction false} UnchangedItems(items: seq<Json>, depth: nat, drop: Json -> bool)
    requires depth <= MAX_DEPTH
    ensures PruneItems(items, depth, drop) == items <==> Clean(List(items), depth, drop)
    decreases MAX_DEPTH + 1 - depth, 0, |items|
  {
    if items != [] {
      var head, rest := items[0], items[1..];
      UnchangedItems(rest, depth, drop);
      UnchangedExactlyWhenClean(head, depth + 1, drop);
      KeptCount(items, depth, drop);
      assert items == [head] + rest;
      assert forall i :: 1 <= i < |items| ==> items[i] == rest[i - 1];
      assert forall i :: 0 <= i < |rest| ==> rest[i] == items[i + 1];
      if !drop(head) {
        var pruned := PruneItems(items, depth, drop);
        assert pruned[0] == PruneEntries(head, depth + 1, drop) && pruned[1..] == PruneItems(rest, depth, drop);
      }
    }
  }

  // What is kept is clean, provided pruning never makes `drop` name an entry it did not.
  lemma {:induction false} PrunedIsClean(node: Json, depth: nat, drop: Json -> bool)
    requires forall x, d :: drop(PruneEntries(x, d, drop)) ==> drop(x)
    ensures Clean(PruneEntries(node, depth, drop), depth, drop)
    decreases MAX_DEPTH + 1 - depth
  {
    if depth <= MAX_DEPTH {
      match node
      case List(items) =>
        var pruned := PruneItems(items, depth, drop);
        KeptCount(items, depth, drop);
        forall place | 0 <= place < |pruned|
          ensures !drop(pruned[place]) && Clean(pruned[place], depth + 1, drop)
        {
          var i := NthKept(items, place, drop);
          KeptIsNth(items, i, depth, drop);
          PrunedIsClean(items[i], depth + 1, drop);
        }
      case Dict(fields) =>
        forall i | 0 <= i < |fields|
          ensures Clean(PruneFields(fields, depth, drop)[i].value, depth + 1, drop)
        {
          PrunedIsClean(fields[i].value, depth + 1, drop);
        }
      case _ =>
    }
  }

  // ---- Shorts ----

  lemma MentionInItems(items: seq<Json>, reach: nat, depth: nat, drop: Json -> bool) returns (i: nat)
    requires depth <= MAX_DEPTH && reach <= SHORTS_DEPTH
    requires MentionsShorts(List(PruneItems(items, depth, drop)), reach)
    ensures i < |items| && MentionsShorts(PruneEntries(items[i], depth + 1, drop), reach + 1)
  {
    var pruned := PruneItems(items, depth, drop);
    var place :| 0 <= place < |pruned| && MentionsShorts(pruned[place], reach + 1);
    KeptCount(items, depth, drop);
    i := NthKept(items, place, drop);
    KeptIsNth(items, i, depth, drop);
  }

  lemma MentionInFields(fields: seq<Field>, reach: nat, depth: nat, drop: Json -> bool) returns (j: nat)
    requires depth <= MAX_DEPTH && reach <= SHORTS_DEPTH
    requires MentionsShorts(Dict(PruneFields(fields, depth, drop)), reach)
    ensures j < |fields|
    ensures fields[j].key in SHORTS_KEYS || MentionsShorts(PruneEntries(fields[j].value, depth + 1, drop), reach + 1)
  {
    var pruned := PruneFields(fields, depth, drop);
    if i :| 0 <= i < |pruned| && pruned[i].key in SHORTS_KEYS {
      j := i;
    } else {
      j :| 0 <= j < |pruned| && MentionsShorts(pruned[j].value, reach + 1);
    }
  }

  lemma MentionOfField(fields: seq<Field>, j: nat, reach: nat)
    requires reach <= SHORTS_DEPTH && j < |fields|
    requires fields[j].key in SHORTS_KEYS || MentionsShorts(fields[j].value, reach + 1)
    ensures MentionsShorts(Dict(fields), reach)
  {
  }

  lemma MentionOfItem(items: seq<Json>, i: nat, reach: nat)
    requires reach <= SHORTS_DEPTH && i < |items| && MentionsShorts(items[i], reach + 1)
    ensures MentionsShorts(List(items), reach)
  {
  }

  // Taking entries out of a value takes no Shorts shape into it.
  lemma {:induction false} MentionsShrink(node: Json, reach: nat, depth: nat, drop: Json -> bool)
    requires MentionsShorts(PruneEntries(node, depth, drop), reach)
    ensures MentionsShorts(node, reach)
    decreases SHORTS_DEPTH + 1 - reach
  {
    if depth <= MAX_DEPTH && reach <= SHORTS_DEPTH {
      match node
      case List(items) =>
        var i := MentionInItems(items, reach, depth, drop);
        MentionsShrink(items[i], reach + 1, depth + 1, drop);
        MentionOfItem(items, i, reach);
      case Dict(fields) =>
        var j := MentionInFields(fields, reach, depth, drop);
        if fields[j].key !in SHORTS_KEYS {
          MentionsShrink(fields[j].value, reach + 1, depth + 1, drop);
        }
        MentionOfField(fields, j, reach);
      case _ =>
    }
  }

  // No list within reach keeps an entry with a Shorts shape, and a second pass finds
  // nothing more to take.
  lemma {:induction false} NoShortsLeft(feed: Json)
    ensures Clean(PruneShorts(feed), 0, IsShort)
    ensures PruneShorts(PruneShorts(feed)) == PruneShorts(feed)
  {
    forall x, d | IsShort(PruneEntries(x, d, IsShort))
      ensures IsShort(x)
    {
      MentionsShrink(x, 0, d, IsShort);
    }
    PrunedIsClean(feed, 0, IsShort);
    UnchangedExactlyWhenClean(PruneShorts(feed), 0, IsShort);
  }

  // ---- hover players ----

  function PrunePreviews(node: Json, depth: nat): (r: Json)
    ensures node.List? ==> r.List? && |r.items| == |node.items|
    decreases MAX_DEPTH + 1 - depth, 1, 0
  {
    if depth > MAX_DEPTH then node
    else match node
      case Dict(fields) => Dict(PruneKeys(fields, depth))
      case List(items) => List(seq(|items|, i requires 0 <= i < |items| => PrunePreviews(items[i], depth + 1)))
      case _ => node
  }

  function PruneKeys(fields: seq<Field>, depth: nat): seq<Field>
    requires depth <= MAX_DEPTH
    decreases MAX_DEPTH + 1 - depth, 0, |fields|
  {
    if fields == [] then []
    else (if fields[0].key in PREVIEW_KEYS then [] else [Field(fields[0].key, PrunePreviews(fields[0].value, depth + 1))])
         + PruneKeys(fields[1..], depth)
  }

  lemma {:induction false} LookupKept(fields: seq<Field>, key: string, depth: nat)
    requires depth <= MAX_DEPTH
    ensures Lookup(PruneKeys(fields, depth), key)
         == if key in PREVIEW_KEYS || Lookup(fields, key).None? then None
            else Some(PrunePreviews(Lookup(fields, key).value, depth + 1))
  {
    if fields != [] {
      LookupKept(fields[1..], key, depth);
      var rest := PruneKeys(fields[1..], depth);
      if fields[0].key !in PREVIEW_KEYS {
        assert PruneKeys(fields, depth)[1..] == rest;
      } else {
        assert PruneKeys(fields, depth) == rest;
      }
    }
  }

  predicate NamesPreview(path: Path, depth: nat) {
    exists j :: 0 <= j < |path| && depth + j <= MAX_DEPTH && path[j].Key? && path[j].key in PREVIEW_KEYS
  }

  lemma NamesPreviewStep(path: Path, depth: nat)
    requires path != [] && depth <= MAX_DEPTH
    ensures NamesPreview(path, depth) <==> (path[0].Key? && path[0].key in PREVIEW_KEYS) || NamesPreview(path[1..], depth + 1)
  {
    var rest := path[1..];
    if j :| 0 <= j < |path| && depth + j <= MAX_DEPTH && path[j].Key? && path[j].key in PREVIEW_KEYS {
      assert j == 0 || rest[j - 1] == path[j];
    }
    if j :| 0 <= j < |rest| && depth + 1 + j <= MAX_DEPTH && rest[j].Key? && rest[j].key in PREVIEW_KEYS {
      assert path[j + 1] == rest[j];
    }
  }

  lemma PreviewChild(node: Json, step: Step, depth: nat)
    requires depth <= MAX_DEPTH
    ensures Child(PrunePreviews(node, depth), step)
         == if (step.Key? && step.key in PREVIEW_KEYS) || Child(node, step).None? then None
            else Some(PrunePreviews(Child(node, step).value, depth + 1))
  {
    if step.Key? && node.Dict? {
      LookupKept(node.fields, step.key, depth);
    }
  }

  // Exactly the values under a hover player's key are gone; everything else is where
  // it was.
  lemma {:induction false} OnlyPreviewsGo(node: Json, path: Path, depth: nat)
    ensures Get(PrunePreviews(node, depth), path)
         == if NamesPreview(path, depth) || Get(node, path).None? then None
            else Some(PrunePreviews(Get(node, path).value, depth + |path|))
    decreases |path|
  {
    if path != [] && depth <= MAX_DEPTH {
      NamesPreviewStep(path, depth);
      PreviewChild(node, path[0], depth);
      if Child(node, path[0]).Some? {
        OnlyPreviewsGo(Child(node, path[0]).value, path[1..], depth + 1);
      }
    }
  }

  predicate NoPreviews(node: Json, depth: nat)
    decreases MAX_DEPTH + 1 - depth
  {
    if depth > MAX_DEPTH then true
    else match node
      case Dict(fields) => forall i :: 0 <= i < |fields| ==> fields[i].key !in PREVIEW_KEYS && NoPreviews(fields[i].value, depth + 1)
      case List(items) => forall i :: 0 <= i < |items| ==> NoPreviews(items[i], depth + 1)
      case _ => true
  }

  lemma {:induction false} NoPreviewsLeft(node: Json, depth: nat)
    ensures NoPreviews(PrunePreviews(node, depth), depth)
    decreases MAX_DEPTH + 1 - depth, 1, 0
  {
    if depth <= MAX_DEPTH {
      match node
      case Dict(fields) => NoPreviewsInKeys(fields, depth);
      case List(items) =>
        forall i | 0 <= i < |items|
          ensures NoPreviews(PrunePreviews(items[i], depth + 1), depth + 1)
        {
          NoPreviewsLeft(items[i], depth + 1);
        }
      case _ =>
    }
  }

  lemma {:induction false} NoPreviewsInKeys(fields: seq<Field>, depth: nat)
    requires depth <= MAX_DEPTH
    ensures NoPreviews(Dict(PruneKeys(fields, depth)), depth)
    decreases MAX_DEPTH + 1 - depth, 0, |fields|
  {
    if fields != [] {
      NoPreviewsInKeys(fields[1..], depth);
      NoPreviewsLeft(fields[0].value, depth + 1);
      var rest := PruneKeys(fields[1..], depth);
      var all := PruneKeys(fields, depth);
      if fields[0].key in PREVIEW_KEYS {
        assert all == rest;
      } else {
        assert forall i :: 1 <= i < |all| ==> all[i] == rest[i - 1];
      }
    }
  }

  // Taking the hover players out changes a feed exactly when it has one within reach.
  lemma {:induction false} UnchangedExactlyWithoutPreviews(node: Json, depth: nat)
    ensures PrunePreviews(node, depth) == node <==> NoPreviews(node, depth)
    decreases MAX_DEPTH + 1 - depth, 1, 0
  {
    if depth <= MAX_DEPTH {
      match node
      case Dict(fields) => UnchangedKeys(fields, depth);
      case List(items) =>
        var pruned := PrunePreviews(node, depth).items;
        forall i | 0 <= i < |items|
          ensures pruned[i] == items[i] <==> NoPreviews(items[i], depth + 1)
        {
          UnchangedExactlyWithoutPreviews(items[i], depth + 1);
        }
        assert pruned == items <==> forall i :: 0 <= i < |items| ==> pruned[i] == items[i];
      case _ =>
    }
  }

  lemma NoPreviewsCons(head: Field, rest: seq<Field>, depth: nat)
    requires depth <= MAX_DEPTH
    ensures NoPreviews(Dict([head] + rest), depth)
       <==> head.key !in PREVIEW_KEYS && NoPreviews(head.value, depth + 1) && NoPreviews(Dict(rest), depth)
  {
    var fields := [head] + rest;
    assert fields[0] == head && forall i :: 0 <= i < |rest| ==> rest[i] == fields[i + 1];
    assert forall i :: 1 <= i < |fields| ==> fields[i] == rest[i - 1];
  }

  lemma {:induction false} UnchangedKeys(fields: seq<Field>, depth: nat)
    requires depth <= MAX_DEPTH
    ensures |PruneKeys(fields, depth)| <= |fields|
    ensures PruneKeys(fields, depth) == fields <==> NoPreviews(Dict(fields), depth)
    decreases MAX_DEPTH + 1 - depth, 0, |fields|
  {
    if fields != [] {
      var head, rest := fields[0], fields[1..];
      UnchangedKeys(rest, depth);
      UnchangedExactlyWithoutPreviews(head.value, depth + 1);
      NoPreviewsCons(head, rest, depth);
      assert fields == [head] + rest;
      if head.key !in PREVIEW_KEYS {
        var pruned := PruneKeys(fields, depth);
        assert pruned[0] == Field(head.key, PrunePreviews(head.value, depth + 1)) && pruned[1..] == PruneKeys(rest, depth);
      }
    }
  }

  lemma PreviewsGoOnce(feed: Json)
    ensures PrunePreviews(PrunePreviews(feed, 0), 0) == PrunePreviews(feed, 0)
  {
    NoPreviewsLeft(feed, 0);
    UnchangedExactlyWithoutPreviews(PrunePreviews(feed, 0), 0);
  }

  // ---- videos of channels not approved ----

  predicate Truthy(value: Json) {
    match value
    case Null => false
    case Bool(b) => b
    case Number(n) => n != 0.0
    case Text(text) => text != ""
    case List(items) => items != []
    case Dict(fields) => fields != []
  }

  // `(d.get(key) or {})` where a dict is wanted: None when a method call on it raises.
  function DictAt(fields: seq<Field>, key: string): Option<seq<Field>> {
    match Lookup(fields, key)
    case None => Some([])
    case Some(value) => if !Truthy(value) then Some([]) else if value.Dict? then Some(value.fields) else None
  }

  // A name a field gives, if any. One that is not text raises, here or when it is folded.
  function NameAt(fields: seq<Field>, key: string): Option<set<string>> {
    match Lookup(fields, key)
    case None => Some({})
    case Some(value) => if !Truthy(value) then Some({}) else if value.Text? then Some({value.s}) else None
  }

  function Both(one: Option<set<string>>, other: Option<set<string>>): Option<set<string>> {
    if one.Some? && other.Some? then Some(one.value + other.value) else None
  }

  function HandleAt(endpoint: seq<Field>): Option<set<string>> {
    var url := NameAt(endpoint, "canonicalBaseUrl");
    if url.None? then None
    else Some(set text | text in url.value && "/@" <= text :: text[1..])
  }

  function NamesOfRun(run: Json): Option<set<string>> {
    if !run.Dict? then Some({})
    else
      var navigation := DictAt(run.fields, "navigationEndpoint");
      if navigation.None? then None
      else
        var endpoint := DictAt(navigation.value, "browseEndpoint");
        if endpoint.None? then None
        else Both(NameAt(run.fields, "text"), Both(NameAt(endpoint.value, "browseId"), HandleAt(endpoint.value)))
  }

  function NamesOfRuns(runs: seq<Json>): Option<set<string>> {
    if runs == [] then Some({}) else Both(NamesOfRun(runs[0]), NamesOfRuns(runs[1..]))
  }

  function NamesIn(fields: seq<Field>, key: string): Option<set<string>> {
    var holder := DictAt(fields, key);
    if holder.None? then None
    else match Lookup(holder.value, "runs")
      case None => Some({})
      case Some(runs) =>
        if !Truthy(runs) || runs.Text? || runs.Dict? then Some({})
        else if runs.List? then NamesOfRuns(runs.items)
        else None
  }

  // Every way a renderer names its channel; None when its shape makes the walk raise.
  function RendererChannel(fields: seq<Field>): Option<set<string>> {
    Both(NamesIn(fields, "ownerText"),
         Both(NamesIn(fields, "longBylineText"),
              Both(NamesIn(fields, "shortBylineText"), NameAt(fields, "channelId"))))
  }

  // One spelling for each name, by the folding of channel names.
  function Folded(names: set<string>, fold: string -> Option<string>): set<string> {
    set name | name in names && fold(name).Some? :: fold(name).value
  }

  predicate NamesOnlyOthers(value: Json, approved: set<string>, fold: string -> Option<string>) {
    && value.Dict? && RendererChannel(value.fields).Some?
    && Folded(RendererChannel(value.fields).value, fold) != {}
    && Folded(RendererChannel(value.fields).value, fold) !! approved
  }

  predicate NamesOthers(fields: seq<Field>, approved: set<string>, fold: string -> Option<string>) {
    exists i :: 0 <= i < |fields| && NamesOnlyOthers(fields[i].value, approved, fold)
  }

  // Whether an entry is refused, its fields looked at in turn up to the first that
  // refuses it; None when one before that raises.
  function Refuses(fields: seq<Field>, approved: set<string>, fold: string -> Option<string>): (r: Option<bool>)
    ensures r.Some? ==> (r.value <==> NamesOthers(fields, approved, fold))
  {
    if fields == [] then Some(false)
    else
      assert forall i :: 1 <= i < |fields| ==> fields[i] == fields[1..][i - 1];
      assert forall i :: 0 <= i < |fields[1..]| ==> fields[1..][i] == fields[i + 1];
      if fields[0].value.Dict? && RendererChannel(fields[0].value.fields).None? then None
      else if NamesOnlyOthers(fields[0].value, approved, fold) then Some(true)
      else Refuses(fields[1..], approved, fold)
  }

  function Judge(approved: set<string>, fold: string -> Option<string>): seq<Field> -> Option<bool> {
    (fields: seq<Field>) => Refuses(fields, approved, fold)
  }

  function Refusal(entry: Json, judge: seq<Field> -> Option<bool>): Option<bool> {
    if entry.Dict? then judge(entry.fields) else Some(false)
  }

  predicate Refused(entry: Json, judge: seq<Field> -> Option<bool>) { Refusal(entry, judge) == Some(true) }

  function RefusedBy(judge: seq<Field> -> Option<bool>): Json -> bool {
    (entry: Json) => Refused(entry, judge)
  }

  // The walk meets an entry whose shape it cannot read.
  predicate Raises(node: Json, judge: seq<Field> -> Option<bool>, depth: nat)
    decreases MAX_DEPTH + 1 - depth
  {
    if depth > MAX_DEPTH then false
    else match node
      case List(items) => exists i :: 0 <= i < |items| && RaisesAt(items[i], judge, depth)
      case Dict(fields) => exists i :: 0 <= i < |fields| && Raises(fields[i].value, judge, depth + 1)
      case _ => false
  }

  predicate RaisesAt(entry: Json, judge: seq<Field> -> Option<bool>, depth: nat)
    requires depth <= MAX_DEPTH
    decreases MAX_DEPTH + 1 - depth, 0
  {
    || Refusal(entry, judge).None?
    || (Refusal(entry, judge) == Some(false) && Raises(entry, judge, depth + 1))
  }

  method PruneNode(node: Json, judge: seq<Field> -> Option<bool>, depth: nat) returns (r: Option<Json>)
    ensures r.None? <==> Raises(node, judge, depth)
    ensures r.Some? ==> r.value == PruneEntries(node, depth, RefusedBy(judge))
    decreases MAX_DEPTH + 1 - depth, 1
  {
    if depth > MAX_DEPTH {
      return Some(node);
    }
    match node {
      case List(items) =>
        var kept := PruneList(items, judge, depth);
        if kept.Some? {
          KeptFromAll(items, kept.value, depth, RefusedBy(judge));
        }
        r := if kept.Some? then Some(List(kept.value)) else None;
      case Dict(fields) =>
        var pruned := PruneDict(fields, judge, depth);
        r := if pruned.Some? then Some(Dict(pruned.value)) else None;
      case _ => r := Some(node);
    }
  }

  method PruneList(items: seq<Json>, judge: seq<Field> -> Option<bool>, depth: nat) returns (r: Option<seq<Json>>)
    requires depth <= MAX_DEPTH
    ensures r.None? <==> exists i :: 0 <= i < |items| && RaisesAt(items[i], judge, depth)
    ensures r.Some? ==> KeptFrom(items, |items|, r.value, depth, RefusedBy(judge))
    decreases MAX_DEPTH + 1 - depth, 0
  {
    var kept: seq<Json> := [];
    for i := 0 to |items|
      invariant forall j :: 0 <= j < i ==> !RaisesAt(items[j], judge, depth)
      invariant KeptFrom(items, i, kept, depth, RefusedBy(judge))
    {
      var item := items[i];
      var refusal := Refusal(item, judge);
      if refusal.None? {
        return None;
      }
      KeptStep(items, i, RefusedBy(judge));
      if !refusal.value {
        var pruned := PruneNode(item, judge, depth + 1);
        if pruned.None? {
          return None;
        }
        kept := kept + [pruned.value];
      }
    }
    return Some(kept);
  }

  // What is kept of the first n entries, each pruned.
  ghost predicate KeptFrom(items: seq<Json>, n: nat, kept: seq<Json>, depth: nat, drop: Json -> bool)
    requires n <= |items|
  {
    && |kept| == KeptBefore(items, n, drop)
    && forall i :: 0 <= i < n && !drop(items[i]) ==>
         KeptBefore(items, i, drop) < |kept| && kept[KeptBefore(items, i, drop)] == PruneEntries(items[i], depth + 1, drop)
  }

  lemma {:induction false} KeptStep(items: seq<Json>, i: nat, drop: Json -> bool)
    requires i < |items|
    ensures KeptBefore(items, i + 1, drop) == KeptBefore(items, i, drop) + if drop(items[i]) then 0 else 1
  {
    if i > 0 {
      KeptStep(items[1..], i - 1, drop);
    }
  }

  lemma KeptFromAll(items: seq<Json>, kept: seq<Json>, depth: nat, drop: Json -> bool)
    requires depth <= MAX_DEPTH && KeptFrom(items, |items|, kept, depth, drop)
    ensures kept == PruneItems(items, depth, drop)
  {
    KeptCount(items, depth, drop);
    forall place | 0 <= place < |kept|
      ensures kept[place] == PruneItems(items, depth, drop)[place]
    {
      KeptIsNth(items, NthKept(items, place, drop), depth, drop);
    }
  }

  method PruneDict(fields: seq<Field>, judge: seq<Field> -> Option<bool>, depth: nat) returns (r: Option<seq<Field>>)
    requires depth <= MAX_DEPTH
    ensures r.None? <==> exists i :: 0 <= i < |fields| && Raises(fields[i].value, judge, depth + 1)
    ensures r.Some? ==> r.value == PruneFields(fields, depth, RefusedBy(judge))
    decreases MAX_DEPTH + 1 - depth, 0
  {
    ghost var drop := RefusedBy(judge);
    var pruned: seq<Field> := [];
    for i := 0 to |fields|
      invariant forall j :: 0 <= j < i ==> !Raises(fields[j].value, judge, depth + 1)
      invariant pruned == PruneFields(fields, depth, drop)[..i]
    {
      var value := PruneNode(fields[i].value, judge, depth + 1);
      if value.None? {
        return None;
      }
      pruned := pruned + [Field(fields[i].key, value.value)];
    }
    return Some(pruned);
  }

  method PruneFeed(feed: Json, allowed: set<string>, fold: string -> Option<string>) returns (r: Option<Json>)
    ensures r.None? <==> Raises(feed, Judge(Folded(allowed, fold), fold), 0)
    ensures r.Some? ==> r.value == PruneEntries(feed, 0, RefusedBy(Judge(Folded(allowed, fold), fold)))
  {
    r := PruneNode(feed, Judge(Folded(allowed, fold), fold), 0);
  }

  // A video is taken out exactly when it lies in a list entry, within reach, that has a
  // field naming channels of which none is approved.
  lemma OnlyOthersVideosGo(feed: Json, approved: set<string>, fold: string -> Option<string>, path: Path)
    requires Get(feed, path).Some?
    ensures Fate(feed, path, 0, RefusedBy(Judge(approved, fold))).None? <==>
            exists j: nat :: j < |path| && j <= MAX_DEPTH && path[j].Index? && RefusedOnTheWay(feed, path, j, approved, fold)
  {
    var drop := RefusedBy(Judge(approved, fold));
    TakenOutExactly(feed, path, 0, drop);
    forall j: nat | j < |path| && j <= MAX_DEPTH && path[j].Index?
      ensures DroppedAt(feed, path, j, 0, drop) <==> RefusedOnTheWay(feed, path, j, approved, fold)
    {
      GetPrefix(feed, path, j);
    }
    assert forall j :: DroppedAt(feed, path, j, 0, drop) ==> 0 <= j < |path| && path[j].Index?;
  }

  predicate RefusedOnTheWay(feed: Json, path: Path, j: nat, approved: set<string>, fold: string -> Option<string>)
    requires j < |path|
  {
    var entry := Get(feed, path[..j + 1]);
    && entry.Some? && entry.value.Dict?
    && Refuses(entry.value.fields, approved, fold).Some? && NamesOthers(entry.value.fields, approved, fold)
  }

  lemma {:induction false} GetPrefix(node: Json, path: Path, j: nat)
    requires Get(node, path).Some? && j < |path|
    ensures Get(node, path[..j]).Some?
    ensures Get(node, path[..j + 1]) == Child(Get(node, path[..j]).value, path[j])
    decreases j
  {
    if j > 0 {
      GetPrefix(Child(node, path[0]).value, path[1..], j - 1);
      assert path[..j][1..] == path[1..][..j - 1] && path[..j + 1][1..] == path[1..][..j];
    } else {
      assert path[..1][1..] == [] && path[..1][0] == path[0];
    }
  }
}
