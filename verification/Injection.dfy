// mitm/kosher_filter.py `_inject_page_script` and `_inject_calm`: two script tags put at the
// injection point of the page, one after the other.
module Injection {
  import opened Options
  import opened Walks
  import opened Markup

  // Scanned again with the tag put in, the page gives the place right after it.
  ghost predicate PointMovesPast(page: string, at: nat, tag: string) {
    at <= |page| && InjectionPoint(Inject(page, at, tag)) == Some(at + |tag|)
  }

  lemma RescanGoesAfter(page: string, at: nat, tag: string)
    requires InjectionPoint(page) == Some(at) && Passes(Scanner(), tag)
    ensures PointMovesPast(page, at, tag)
  {
    PointMovesBehind(page, at, tag, Scanner());
  }

  // What two tags put in one after the other make of the page.
  ghost predicate StandTogether(page: string, at: nat, first: string, second: string) {
    && PointMovesPast(page, at, first)
    && var once, twice := Inject(page, at, first), page[..at] + first + second + page[at..];
       && Inject(once, at + |first|, second) == twice
       && InjectionPoint(twice) == Some(at + |first| + |second|)
  }

  lemma TagsStandTogether(page: string, at: nat, first: string, second: string)
    requires InjectionPoint(page) == Some(at) && Passes(Scanner(), first) && Passes(Scanner(), second)
    ensures StandTogether(page, at, first, second)
  {
    TwoTagsBehind(page, at, first, second, Scanner());
  }

  // Scanning again a page that has a script tag at its injection point gives the place
  // right after that tag.
  lemma RescanGoesAfterTag(page: string, at: nat, attrs: string)
    requires InjectionPoint(page) == Some(at) && '<' !in attrs
    ensures PointMovesPast(page, at, ScriptTag(attrs))
  {
    ScannerPassesScripts(attrs);
    RescanGoesAfter(page, at, ScriptTag(attrs));
  }

  // The page script and then the calm script: both stand before the same end tag, the
  // first before the second, and taking them out gives the page back.
  lemma {:induction false} BothScriptsBeforeSameTag(page: string, at: nat, first: string, second: string)
    requires InjectionPoint(page) == Some(at) && '<' !in first && '<' !in second
    ensures StandTogether(page, at, ScriptTag(first), ScriptTag(second))
  {
    ScannerPassesScripts(first);
    ScannerPassesScripts(second);
    TagsStandTogether(page, at, ScriptTag(first), ScriptTag(second));
  }
}
