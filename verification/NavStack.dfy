/** The preview's navigation stack: a shadow of the browser's session history kept by the page. */
module NavStack {
  import opened Text

  type Url = string

  datatype Mode = Auto | Push | Replace

  datatype Nav = Nav(stack: seq<Url>, index: int)

  ghost predicate Valid(n: Nav) { 0 <= n.index < |n.stack| }

  // ---------- Observing a location ----------

  /** Array.prototype.slice(0, end): a negative end counts from the back. */
  function Slice(s: seq<Url>, end: int): seq<Url>
  {
    if end < 0 then (if |s| + end <= 0 then [] else s[..|s| + end])
    else if end > |s| then s
    else s[..end]
  }

  predicate Matches(norm: Url -> Url, s: seq<Url>, i: int, href: Url)
  {
    0 <= i < |s| && norm(s[i]) == norm(href)
  }

  /** The first matching entry from position `from` on. */
  function FirstMatch(norm: Url -> Url, s: seq<Url>, from: nat, href: Url): Option<nat>
    decreases |s| - from
  {
    if from >= |s| then None
    else if Matches(norm, s, from, href) then Some(from)
    else FirstMatch(norm, s, from + 1, href)
  }

  /** The current entry, then the next, then the previous, then the first anywhere. */
  function FoundAt(norm: Url -> Url, n: Nav, href: Url): Option<nat>
  {
    if Matches(norm, n.stack, n.index, href) then Some(n.index)
    else if Matches(norm, n.stack, n.index + 1, href) then Some(n.index + 1)
    else if n.index > 0 && Matches(norm, n.stack, n.index - 1, href) then Some(n.index - 1)
    else FirstMatch(norm, n.stack, 0, href)
  }

  function PushOn(n: Nav, href: Url): Nav
  {
    var kept := Slice(n.stack, n.index + 1);
    Nav(kept + [href], |kept|)
  }

  function Ensure(norm: Url -> Url, n: Nav, href: Url, mode: Mode): Nav
  {
    match mode
    case Replace => if 0 <= n.index < |n.stack| then n.(stack := n.stack[n.index := href]) else Nav([href], 0)
    case Push => PushOn(n, href)
    case Auto =>
      match FoundAt(norm, n, href)
      case Some(i) =>
        FoundInRange(norm, n, href);
        Nav(n.stack[i := href], i)
      case None => PushOn(n, href)
  }

  lemma {:induction false} FirstMatchSound(norm: Url -> Url, s: seq<Url>, from: nat, href: Url)
    ensures match FirstMatch(norm, s, from, href)
      case None => forall j :: from <= j < |s| ==> !Matches(norm, s, j, href)
      case Some(i) =>
        from <= i < |s| && Matches(norm, s, i, href) && forall j :: from <= j < i ==> !Matches(norm, s, j, href)
    decreases |s| - from
  {
    if from < |s| && !Matches(norm, s, from, href) { FirstMatchSound(norm, s, from + 1, href); }
  }

  lemma FoundInRange(norm: Url -> Url, n: Nav, href: Url)
    ensures FoundAt(norm, n, href).Some? ==>
              FoundAt(norm, n, href).value < |n.stack| && Matches(norm, n.stack, FoundAt(norm, n, href).value, href)
    ensures FoundAt(norm, n, href).None? ==> forall j :: 0 <= j < |n.stack| ==> !Matches(norm, n.stack, j, href)
  {
    FirstMatchSound(norm, n.stack, 0, href);
  }

  /** How late an entry is tried. */
  function Rank(index: int, q: int): int
  {
    if q == index then 0 else if q == index + 1 then 1 else if q == index - 1 then 2 else 3 + q
  }

  /** Observing entry `p` after a traversal lands on `p` exactly when no entry with the same
      normalised URL is tried earlier. */
  lemma TraversalLandsIff(norm: Url -> Url, n: Nav, p: nat)
    requires Valid(n) && p < |n.stack|
    ensures Ensure(norm, n, n.stack[p], Auto) == Nav(n.stack, p) <==>
            forall q :: Matches(norm, n.stack, q, n.stack[p]) ==> Rank(n.index, p) <= Rank(n.index, q)
  {
    var href := n.stack[p];
    FirstMatchSound(norm, n.stack, 0, href);
    FoundInRange(norm, n, href);
    assert Matches(norm, n.stack, p, href);
    var f := FoundAt(norm, n, href).value;
    assert n.stack[f := href][f] == href;
    if f == p { assert n.stack[p := href] == n.stack; }
  }

  /** Going back from the middle of "a", "b", "a" lands on the wrong "a": the next entry is tried first. */
  lemma BackToEqualUrlLandsAhead(norm: Url -> Url)
    requires norm("a") != norm("b")
    ensures Ensure(norm, Nav(["a", "b", "a"], 1), ["a", "b", "a"][0], Auto) == Nav(["a", "b", "a"], 2)
  {
    var n := Nav(["a", "b", "a"], 1);
    assert Matches(norm, n.stack, 2, "a") && !Matches(norm, n.stack, 1, "a");
    assert n.stack[2 := "a"] == n.stack;
  }

  // ---------- Session storage ----------

  /** One element of a stored stack: a string, an object with a string url, or anything else. */
  datatype Entry = Link(url: Url) | Object(url: Url) | Junk

  /** What the storage slot holds: nothing, unparsable text, or a state whose stack may not be an
      array and whose index may not be a number, nor a whole one. */
  datatype Stored = Absent | Malformed | Stored(stack: Option<seq<Entry>>, index: Option<real>)

  function Urls(es: seq<Entry>): (us: seq<Url>)
  {
    if es == [] then []
    else (if es[0].Junk? || es[0].url == "" then [] else [es[0].url]) + Urls(es[1..])
  }

  function Links(us: seq<Url>): seq<Entry> { seq(|us|, i requires 0 <= i < |us| => Link(us[i])) }

  const NO_NAV := Nav([], -1)

  /** A stack and an index as read from storage. */
  datatype RawNav = RawNav(stack: seq<Url>, index: real)

  function Load(stored: Stored): RawNav
  {
    match stored
    case Absent => RawNav([], -1.0)
    case Malformed => RawNav([], -1.0)
    case Stored(stack, index) =>
      var urls := if stack.Some? then Urls(stack.value) else [];
      var i := if index.Some? then index.value else -1.0;
      RawNav(urls, if i >= |urls| as real then (|urls| - 1) as real else i)
  }

  function Save(n: Nav): Stored { Stored(Some(Links(n.stack)), Some(n.index as real)) }

  /** Entries that hold a URL, as a string or in an object, are read in order; anything else is skipped. */
  lemma {:induction false} UrlsSkipJunk(a: seq<Entry>, e: Entry, b: seq<Entry>)
    ensures Urls(a + ([e] + b)) == Urls(a) + (if e.Junk? || e.url == "" then [] else [e.url]) + Urls(b)
  {
    if a == [] {
      AppendEmpty([e] + b);
      AppendHead([e], b);
      AppendEmpty(b);
      AppendEmpty(if e.Junk? || e.url == "" then [] else [e.url]);
    } else {
      AppendHead(a, [e] + b);
      UrlsSkipJunk(a[1..], e, b);
    }
  }

  /** A stored index outside the stack stands for its last entry. */
  lemma OutsideIsLast(norm: Url -> Url, us: seq<Url>, x: real, href: Url)
    requires us != [] && NonEmpty(us) && (x < 0.0 || x >= |us| as real)
    ensures Initialised(norm, Stored(Some(Links(us)), Some(x)), href) == Ensure(norm, Nav(us, |us| - 1), href, Auto)
  {
    UrlsOfLinks(us);
    hide Ensure, EnsureBetween;
  }

  /** A stored index between two entries points at neither: the first entry with the URL is found, and
      without one the new entry goes after the lower of the two. */
  lemma BetweenEntries(norm: Url -> Url, us: seq<Url>, x: real, href: Url)
    requires us != [] && NonEmpty(us) && 0.0 <= x < |us| as real && x != x.Floor as real
    ensures var n := Initialised(norm, Stored(Some(Links(us)), Some(x)), href);
      if exists i :: Matches(norm, us, i, href)
      then Matches(norm, us, n.index, href) && n.stack == us[n.index := href]
           && forall i :: Matches(norm, us, i, href) ==> n.index <= i
      else n == Nav(us[..x.Floor + 1] + [href], x.Floor + 1)
  {
    UrlsOfLinks(us);
    FirstMatchSound(norm, us, 0, href);
    hide Ensure, FirstMatch;
  }

  ghost predicate NonEmpty(us: seq<Url>) { forall i :: 0 <= i < |us| ==> us[i] != "" }

  lemma {:induction false} UrlsOfLinks(us: seq<Url>)
    requires NonEmpty(us)
    ensures Urls(Links(us)) == us
  {
    if us != [] {
      assert Links(us)[1..] == Links(us[1..]);
      UrlsOfLinks(us[1..]);
      assert us == [us[0]] + us[1..];
    }
  }

  /** Loading what was saved gives the stack and position back. */
  lemma LoadOfSave(n: Nav)
    requires Valid(n) && NonEmpty(n.stack)
    ensures Load(Save(n)) == RawNav(n.stack, n.index as real)
  {
    UrlsOfLinks(n.stack);
  }

  /** Observing with an index between two entries: none is current, so only the search over the whole
      stack can find one. */
  function EnsureBetween(norm: Url -> Url, stack: seq<Url>, below: int, href: Url): Nav
  {
    match FirstMatch(norm, stack, 0, href)
    case Some(i) =>
      FirstMatchSound(norm, stack, 0, href);
      Nav(stack[i := href], i)
    case None => PushOn(Nav(stack, below), href)
  }

  /** The state once a document has loaded what was stored and observed its own location. */
  function Initialised(norm: Url -> Url, stored: Stored, href: Url): Nav
  {
    var raw := Load(stored);
    if raw.stack == [] then Ensure(norm, Nav([href], 0), href, Auto)
    else if raw.index < 0.0 || raw.index >= |raw.stack| as real then
      Ensure(norm, Nav(raw.stack, |raw.stack| - 1), href, Auto)
    else if raw.index == raw.index.Floor as real then Ensure(norm, Nav(raw.stack, raw.index.Floor), href, Auto)
    else EnsureBetween(norm, raw.stack, raw.index.Floor, href)
  }

  lemma InitialisedOfSave(norm: Url -> Url, n: Nav, href: Url)
    requires Valid(n) && NonEmpty(n.stack)
    ensures Initialised(norm, Save(n), href) == Ensure(norm, n, href, Auto)
  {
    LoadOfSave(n);
    hide Ensure, EnsureBetween;
  }

  // ---------- The script ----------

  class Navigation {
    var navStack: seq<Url>
    var navIndex: int
    var lastObservedHref: Url
    var storage: Stored

    function Contents(): Nav
      reads this
    {
      Nav(navStack, navIndex)
    }

    /** A new document: variables start empty, session storage survives. */
    constructor (storage: Stored, href: Url)
      ensures Contents() == NO_NAV && this.storage == storage && lastObservedHref == href
    {
      navStack, navIndex, this.storage, lastObservedHref := [], -1, storage, href;
    }

    method EnsureCurrentInStack(norm: Url -> Url, href: Url, mode: Mode)
      modifies this`navStack, this`navIndex
      ensures Contents() == Ensure(norm, old(Contents()), href, mode)
    {
      if mode == Replace {
        if navIndex >= 0 && navIndex < |navStack| {
          navStack := navStack[navIndex := href];
        } else {
          navStack, navIndex := [href], 0;
        }
        return;
      }
      if mode == Push {
        navStack := Slice(navStack, navIndex + 1) + [href];
        navIndex := |navStack| - 1;
        return;
      }
      FoundInRange(norm, Contents(), href);
      if Matches(norm, navStack, navIndex, href) {
        navStack := navStack[navIndex := href];
      } else if Matches(norm, navStack, navIndex + 1, href) {
        navIndex := navIndex + 1;
        navStack := navStack[navIndex := href];
      } else if navIndex > 0 && Matches(norm, navStack, navIndex - 1, href) {
        navIndex := navIndex - 1;
        navStack := navStack[navIndex := href];
      } else {
        var i := Search(norm, href);
        if i < |navStack| {
          navIndex := i;
          navStack := navStack[navIndex := href];
        } else {
          navStack := Slice(navStack, navIndex + 1) + [href];
          navIndex := |navStack| - 1;
        }
      }
    }

    /** The first matching position, or the length of the stack. */
    method Search(norm: Url -> Url, href: Url) returns (i: nat)
      ensures i <= |navStack|
      ensures FirstMatch(norm, navStack, 0, href) == if i < |navStack| then Some(i) else None
    {
      i := 0;
      while i < |navStack| && !Matches(norm, navStack, i, href)
        invariant 0 <= i <= |navStack|
        invariant FirstMatch(norm, navStack, 0, href) == FirstMatch(norm, navStack, i, href)
      {
        i := i + 1;
      }
    }

    method ObserveLocation(norm: Url -> Url, href: Url, mode: Mode)
      modifies this
      ensures Contents() == Ensure(norm, old(Contents()), href, mode)
      ensures storage == Save(Contents()) && lastObservedHref == href
    {
      lastObservedHref := href;
      EnsureCurrentInStack(norm, href, mode);
      storage := Save(Contents());
    }

    method InitializeNavigation(norm: Url -> Url, href: Url)
      requires Contents() == NO_NAV
      modifies this
      ensures Contents() == Initialised(norm, old(storage), href)
      ensures storage == Save(Contents()) && lastObservedHref == href
    {
      hide Ensure, EnsureBetween;
      var loaded := Load(storage);
      navStack := loaded.stack;
      if |navStack| == 0 {
        navStack, navIndex := [href], 0;
        storage := Save(Contents());
      } else if loaded.index < 0.0 || loaded.index >= |navStack| as real {
        navIndex := |navStack| - 1;
        storage := Save(Contents());
      } else {
        navIndex := loaded.index.Floor;
        if navIndex as real != loaded.index {
          ObserveBetween(norm, href);
          return;
        }
      }
      ObserveLocation(norm, href, Auto);
    }

    /** The first observation when the stored index is not whole; `navIndex` is the entry below it. */
    method ObserveBetween(norm: Url -> Url, href: Url)
      modifies this
      ensures Contents() == EnsureBetween(norm, old(navStack), old(navIndex), href)
      ensures storage == Save(Contents()) && lastObservedHref == href
    {
      lastObservedHref := href;
      FirstMatchSound(norm, navStack, 0, href);
      var i := Search(norm, href);
      if i < |navStack| {
        navIndex := i;
        navStack := navStack[navIndex := href];
      } else {
        navStack := Slice(navStack, navIndex + 1) + [href];
        navIndex := |navStack| - 1;
      }
      storage := Save(Contents());
    }
  }

  // ---------- The page inside a browser ----------

  datatype Browser = Browser(entries: seq<Url>, pos: nat)

  /** A page in a browser: the session history, the script's variables, session storage, and the
      variables of the documents the browser keeps frozen, by the entry at which each was left. */
  datatype Page = Page(browser: Browser, nav: Nav, storage: Stored, frozen: map<nat, Nav>)

  datatype Event =
    | PushState(url: Url)
    | ReplaceState(url: Url)
    | HashJump(url: Url)                    // a new entry within the document
    | Traverse(to: nat)                     // back or forward within the document
    | TraverseTo(to: nat, freeze: bool)     // back or forward to a document that is loaded again
    | Restore(to: nat, freeze: bool)        // back or forward to a frozen document
    | Reload
    | Navigate(url: Url, freeze: bool)      // a new document at a new entry
    | Goto(url: Url, freeze: bool)          // the parent's "goto" message
    | ObserveAgain                          // pageshow, load, or the polling timer

  function BrowserPush(b: Browser, url: Url): Browser
    requires b.pos < |b.entries|
  {
    Browser(b.entries[..b.pos + 1] + [url], b.pos + 1)
  }

  function Observed(norm: Url -> Url, p: Page, mode: Mode): Page
    requires p.browser.pos < |p.browser.entries|
  {
    var nav := Ensure(norm, p.nav, p.browser.entries[p.browser.pos], mode);
    p.(nav := nav, storage := Save(nav))
  }

  /** A document load runs the script afresh on the stored state. */
  function Loaded(norm: Url -> Url, p: Page): Page
    requires p.browser.pos < |p.browser.entries|
  {
    var nav := Initialised(norm, p.storage, p.browser.entries[p.browser.pos]);
    p.(nav := nav, storage := Save(nav))
  }

  /** The current document is left, and may be kept frozen. */
  function Left(p: Page, freeze: bool): Page
  {
    p.(frozen := if freeze then p.frozen[p.browser.pos := p.nav] else p.frozen)
  }

  /** A new entry: the browser drops all entries ahead, with their documents. */
  function Pushed(p: Page, url: Url): Page
    requires p.browser.pos < |p.browser.entries|
  {
    p.(browser := BrowserPush(p.browser, url), frozen := map k | k in p.frozen && k <= p.browser.pos :: p.frozen[k])
  }

  function Moved(p: Page, to: nat): Page
  {
    p.(browser := p.browser.(pos := to), frozen := p.frozen - {to})
  }

  /** What a browser can do. */
  predicate Possible(p: Page, e: Event)
  {
    && p.browser.pos < |p.browser.entries|
    && match e
       case Traverse(to) => to < |p.browser.entries|
       case TraverseTo(to, _) => to < |p.browser.entries| && to != p.browser.pos
       case Restore(to, _) => to < |p.browser.entries| && to != p.browser.pos && to in p.frozen
       case _ => true
  }

  function Step(norm: Url -> Url, p: Page, e: Event): Page
    requires Possible(p, e)
  {
    var b := p.browser;
    match e
    case PushState(url) => Observed(norm, Pushed(p, url), Push)
    case ReplaceState(url) => Observed(norm, p.(browser := b.(entries := b.entries[b.pos := url])), Replace)
    case HashJump(url) => Observed(norm, Pushed(p, url), Auto)
    case Traverse(to) => Observed(norm, Moved(p, to), Auto)
    case TraverseTo(to, freeze) => Loaded(norm, Moved(Left(p, freeze), to))
    case Restore(to, freeze) => Observed(norm, Moved(Left(p, freeze), to).(nav := p.frozen[to]), Auto)
    case Reload => Loaded(norm, p)
    case Navigate(url, freeze) => Loaded(norm, Pushed(Left(p, freeze), url))
    case Goto(url, freeze) =>
      // the script pushes the entry itself before it leaves
      var nav := PushOn(p.nav, url);
      Loaded(norm, Pushed(Left(p.(nav := nav), freeze), url).(storage := Save(nav)))
    case ObserveAgain => Observed(norm, p, Auto)
  }

  /** URLs in the history are non-empty and no two agree after normalisation. */
  ghost predicate Apart(norm: Url -> Url, entries: seq<Url>)
  {
    && NonEmpty(entries)
    && forall i, j :: 0 <= i < j < |entries| ==> norm(entries[i]) != norm(entries[j])
  }

  /** The shadow is the browser's history and position, and is what storage holds. */
  ghost predicate Mirrors(p: Page)
  {
    && p.nav == Nav(p.browser.entries, p.browser.pos) && Valid(p.nav)
    && p.storage == Save(p.nav)
  }

  lemma ObserveEntry(norm: Url -> Url, n: Nav, p: nat)
    requires Valid(n) && p < |n.stack| && Apart(norm, n.stack)
    ensures Ensure(norm, n, n.stack[p], Auto) == Nav(n.stack, p)
  {
    TraversalLandsIff(norm, n, p);
  }

  /** A jump reuses no URL of the history, or only that of the one entry ahead it replaces. */
  ghost predicate JumpSafe(norm: Url -> Url, n: Nav, url: Url)
  {
    forall q :: Matches(norm, n.stack, q, url) ==> q == n.index + 1 == |n.stack| - 1
  }

  lemma EarlierEntriesDiffer(norm: Url -> Url, n: Nav, url: Url, q: nat)
    requires Valid(n) && q <= n.index && Apart(norm, n.stack[..n.index + 1] + [url])
    ensures !Matches(norm, n.stack, q, url)
  {
    var after := n.stack[..n.index + 1] + [url];
    assert after[q] == n.stack[q] && after[n.index + 1] == url;
  }

  /** A new entry that the script can only observe, not intercept, is mirrored exactly when the jump
      is safe: otherwise the script takes it for a traversal and keeps entries the browser dropped. */
  lemma JumpMirrorsIff(norm: Url -> Url, n: Nav, url: Url)
    requires Valid(n) && Apart(norm, n.stack) && Apart(norm, n.stack[..n.index + 1] + [url])
    ensures Ensure(norm, n, url, Auto) == Nav(n.stack[..n.index + 1] + [url], n.index + 1) <==> JumpSafe(norm, n, url)
  {
    FoundInRange(norm, n, url);
    var after := n.stack[..n.index + 1] + [url];
    assert after[n.index + 1] == url;
    forall q | Matches(norm, n.stack, q, url) ensures q > n.index {
      if q <= n.index {
        EarlierEntriesDiffer(norm, n, url, q);
        assert false;
      }
    }
    var found := FoundAt(norm, n, url);
    if found.Some? {
      var f := found.value;
      assert forall q :: Matches(norm, n.stack, q, url) ==> q == f;
      if f == n.index + 1 == |n.stack| - 1 {
        assert n.stack[f := url] == after;
      } else {
        assert |n.stack[f := url]| == |n.stack|;
      }
    }
  }

  /** A jump from "a" to the URL of the entry after next: the browser drops both entries ahead, the
      script steps to the second. */
  lemma JumpAheadKeepsDroppedEntries(norm: Url -> Url)
    requires Apart(norm, ["a", "b", "c"])
    ensures Ensure(norm, Nav(["a", "b", "c"], 0), "c", Auto) == Nav(["a", "b", "c"], 2)
    ensures BrowserPush(Browser(["a", "b", "c"], 0), "c") == Browser(["a", "c"], 1)
  {
    var s := ["a", "b", "c"];
    assert s[0] == "a" && s[1] == "b" && s[2] == "c";
    assert FirstMatch(norm, s, 2, "c") == Some(2);
    assert FirstMatch(norm, s, 1, "c") == Some(2);
    assert s[2 := "c"] == s;
    assert s[..1] + ["c"] == ["a", "c"];
  }

  /** A document restored at an entry it knew, with the variables it was frozen with, mirrors exactly
      when the history is still the one it knew. */
  lemma RestoreMirrorsIff(norm: Url -> Url, f: Nav, entries: seq<Url>, to: nat)
    requires Valid(f) && Apart(norm, f.stack)
    requires to < |f.stack| && to < |entries| && f.stack[to] == entries[to]
    ensures Ensure(norm, f, entries[to], Auto) == Nav(entries, to) <==> f.stack == entries
  {
    ObserveEntry(norm, f, to);
  }

  /** The variables of a document that knew entry `k`. */
  ghost predicate KnownAt(norm: Url -> Url, f: Nav, entries: seq<Url>, k: nat)
  {
    Valid(f) && Apart(norm, f.stack) && k < |f.stack| && k < |entries| && f.stack[k] == entries[k]
  }

  /** Frozen documents knew the entry they were left at. */
  ghost predicate FrozenOk(norm: Url -> Url, p: Page)
  {
    p.browser.pos !in p.frozen && FrozenKnown(norm, p)
  }

  ghost predicate FrozenKnown(norm: Url -> Url, p: Page)
  {
    forall k :: k in p.frozen ==> KnownAt(norm, p.frozen[k], p.browser.entries, k)
  }

  /** The events whose effect the script can tell: jumps and navigations it cannot intercept must be
      safe, and a restored document must know the present history. */
  ghost predicate Safe(norm: Url -> Url, p: Page, e: Event)
    requires Possible(p, e)
  {
    match e
    case HashJump(url) => JumpSafe(norm, Nav(p.browser.entries, p.browser.pos), url)
    case Navigate(url, _) => JumpSafe(norm, Nav(p.browser.entries, p.browser.pos), url)
    case Restore(to, _) => p.frozen[to].stack == p.browser.entries
    case _ => true
  }

  /** What the browser may do while URLs stay apart. */
  ghost predicate Allowed(norm: Url -> Url, p: Page, e: Event)
  {
    Possible(p, e) && Apart(norm, Step(norm, p, e).browser.entries)
  }

  lemma LeftKnown(norm: Url -> Url, p: Page, freeze: bool)
    requires FrozenKnown(norm, p) && KnownAt(norm, p.nav, p.browser.entries, p.browser.pos)
    ensures FrozenKnown(norm, Left(p, freeze))
  {
    hide KnownAt;
  }

  lemma PushedKnown(norm: Url -> Url, p: Page, url: Url)
    requires FrozenKnown(norm, p) && p.browser.pos < |p.browser.entries|
    ensures FrozenOk(norm, Pushed(p, url))
  {
    var entries := Pushed(p, url).browser.entries;
    forall k | k in p.frozen && k <= p.browser.pos ensures KnownAt(norm, p.frozen[k], entries, k) {
      assert KnownAt(norm, p.frozen[k], p.browser.entries, k);
    }
    hide KnownAt;
  }

  lemma MovedKnown(norm: Url -> Url, p: Page, to: nat)
    requires FrozenKnown(norm, p)
    ensures FrozenOk(norm, Moved(p, to))
  {
    hide KnownAt;
  }

  lemma ReplacedKnown(norm: Url -> Url, p: Page, url: Url)
    requires FrozenOk(norm, p) && p.browser.pos < |p.browser.entries|
    ensures FrozenOk(norm, p.(browser := p.browser.(entries := p.browser.entries[p.browser.pos := url])))
  {}

  lemma FrozenKept(norm: Url -> Url, p: Page, e: Event)
    requires Mirrors(p) && Apart(norm, p.browser.entries) && FrozenOk(norm, p) && Allowed(norm, p, e)
    ensures FrozenOk(norm, Step(norm, p, e))
  {
    assert KnownAt(norm, p.nav, p.browser.entries, p.browser.pos);
    hide KnownAt, FrozenKnown, Apart, Initialised, Ensure, Pushed, Moved, Left;
    match e
    case PushState(url) => PushedKnown(norm, p, url);
    case HashJump(url) => PushedKnown(norm, p, url);
    case ReplaceState(url) => ReplacedKnown(norm, p, url);
    case Traverse(to) => MovedKnown(norm, p, to);
    case TraverseTo(to, freeze) => LeftKnown(norm, p, freeze); MovedKnown(norm, Left(p, freeze), to);
    case Restore(to, freeze) => LeftKnown(norm, p, freeze); MovedKnown(norm, Left(p, freeze), to);
    case Navigate(url, freeze) => LeftKnown(norm, p, freeze); PushedKnown(norm, Left(p, freeze), url);
    case Goto(url, freeze) => GotoKnown(norm, p, url, freeze);
    case Reload =>
    case ObserveAgain =>
  }

  lemma GotoKnown(norm: Url -> Url, p: Page, url: Url, freeze: bool)
    requires Mirrors(p) && FrozenOk(norm, p) && Apart(norm, Pushed(p, url).browser.entries)
    ensures FrozenOk(norm, Pushed(Left(p.(nav := PushOn(p.nav, url)), freeze), url))
  {
    var pushed := PushOn(p.nav, url);
    assert pushed.stack == Pushed(p, url).browser.entries;
    assert KnownAt(norm, pushed, p.browser.entries, p.browser.pos);
    hide KnownAt, Apart;
    LeftKnown(norm, p.(nav := pushed), freeze);
    PushedKnown(norm, Left(p.(nav := pushed), freeze), url);
  }

  lemma JumpKeepsIff(norm: Url -> Url, p: Page, e: Event)
    requires Mirrors(p) && Apart(norm, p.browser.entries) && Allowed(norm, p, e) && (e.HashJump? || e.Navigate?)
    ensures Mirrors(Step(norm, p, e)) <==> JumpSafe(norm, p.nav, e.url)
  {
    var n := p.nav;
    if e.Navigate? { InitialisedOfSave(norm, n, e.url); }
    assert Step(norm, p, e).browser == Browser(n.stack[..n.index + 1] + [e.url], n.index + 1);
    JumpMirrorsIff(norm, n, e.url);
    hide Ensure, Initialised, Apart, JumpSafe;
  }

  lemma MoveKeeps(norm: Url -> Url, p: Page, e: Event)
    requires Mirrors(p) && Apart(norm, p.browser.entries) && Allowed(norm, p, e)
    requires e.Traverse? || e.TraverseTo? || e.Reload? || e.ObserveAgain?
    ensures Mirrors(Step(norm, p, e))
  {
    var to := if e.Traverse? || e.TraverseTo? then e.to else p.browser.pos;
    InitialisedOfSave(norm, p.nav, p.browser.entries[to]);
    ObserveEntry(norm, p.nav, to);
    hide Ensure, Initialised, Apart;
  }

  lemma GotoKeeps(norm: Url -> Url, p: Page, e: Event)
    requires Mirrors(p) && Apart(norm, p.browser.entries) && Allowed(norm, p, e) && e.Goto?
    ensures Mirrors(Step(norm, p, e))
  {
    var after := Step(norm, p, e).browser;
    var pushed := PushOn(p.nav, e.url);
    assert pushed == Nav(after.entries, after.pos);
    InitialisedOfSave(norm, pushed, e.url);
    ObserveEntry(norm, pushed, after.pos);
    hide Ensure, Initialised, Apart;
  }

  lemma RestoreKeepsIff(norm: Url -> Url, p: Page, e: Event)
    requires Mirrors(p) && FrozenOk(norm, p) && Allowed(norm, p, e) && e.Restore?
    ensures Mirrors(Step(norm, p, e)) <==> p.frozen[e.to].stack == p.browser.entries
  {
    RestoreMirrorsIff(norm, p.frozen[e.to], p.browser.entries, e.to);
    hide Ensure, Apart;
  }

  /** An event keeps the mirror exactly when it is safe. */
  lemma MirrorsKeptIff(norm: Url -> Url, p: Page, e: Event)
    requires Mirrors(p) && Apart(norm, p.browser.entries) && FrozenOk(norm, p) && Allowed(norm, p, e)
    ensures Mirrors(Step(norm, p, e)) <==> Safe(norm, p, e)
  {
    if e.HashJump? || e.Navigate? {
      hide Step, JumpSafe, Apart;
      JumpKeepsIff(norm, p, e);
    } else if e.Goto? {
      GotoKeeps(norm, p, e);
    } else if e.Restore? {
      RestoreKeepsIff(norm, p, e);
    } else if !e.PushState? && !e.ReplaceState? {
      MoveKeeps(norm, p, e);
    }
  }

  /** A run from a fresh tab at `url`. */
  ghost predicate IsRun(norm: Url -> Url, url: Url, pages: seq<Page>, events: seq<Event>)
  {
    && |pages| == |events| + 1
    && pages[0] == Loaded(norm, Page(Browser([url], 0), NO_NAV, Absent, map[]))
    && forall k :: 0 <= k < |events| ==>
      Allowed(norm, pages[k], events[k]) && pages[k + 1] == Step(norm, pages[k], events[k])
  }

  ghost predicate Tracks(norm: Url -> Url, p: Page)
  {
    Mirrors(p) && Apart(norm, p.browser.entries) && FrozenOk(norm, p)
  }

  lemma FreshTabTracks(norm: Url -> Url, url: Url)
    requires url != ""
    ensures Tracks(norm, Loaded(norm, Page(Browser([url], 0), NO_NAV, Absent, map[])))
  {
    ObserveEntry(norm, Nav([url], 0), 0);
  }

  /** Over every run in which normalised URLs stay apart and every event is safe, the navigation stack
      and index are the browser's session history and position. */
  lemma {:induction false} StackMirrorsHistory(norm: Url -> Url, url: Url, pages: seq<Page>, events: seq<Event>, k: nat)
    requires url != "" && IsRun(norm, url, pages, events) && k < |pages|
    requires forall i :: 0 <= i < k ==> Safe(norm, pages[i], events[i])
    ensures Tracks(norm, pages[k])
  {
    if k == 0 {
      FreshTabTracks(norm, url);
    } else {
      StackMirrorsHistory(norm, url, pages, events, k - 1);
      var p, e := pages[k - 1], events[k - 1];
      assert Allowed(norm, p, e) && Safe(norm, p, e);
      hide Step, Mirrors, Safe, FrozenOk;
      MirrorsKeptIff(norm, p, e);
      FrozenKept(norm, p, e);
    }
  }

  /** A run in which normalised URLs stay apart is mirrored throughout exactly when all its events are
      safe. */
  lemma MirrorsThroughoutIff(norm: Url -> Url, url: Url, pages: seq<Page>, events: seq<Event>)
    requires url != "" && IsRun(norm, url, pages, events)
    ensures (forall k :: 0 <= k < |pages| ==> Mirrors(pages[k])) <==>
            forall k :: 0 <= k < |events| ==> Safe(norm, pages[k], events[k])
  {
    if forall k :: 0 <= k < |events| ==> Safe(norm, pages[k], events[k]) {
      forall k | 0 <= k < |pages| ensures Mirrors(pages[k]) {
        StackMirrorsHistory(norm, url, pages, events, k);
      }
    } else {
      var k := FirstUnsafe(norm, url, pages, events, 0);
    }
  }

  /** The first unsafe event breaks the mirror. */
  lemma {:induction false} FirstUnsafe(norm: Url -> Url, url: Url, pages: seq<Page>, events: seq<Event>,
                                       from: nat) returns (k: nat)
    requires url != "" && IsRun(norm, url, pages, events) && from < |events|
    requires forall i :: 0 <= i < from ==> Safe(norm, pages[i], events[i])
    requires exists i :: from <= i < |events| && !Safe(norm, pages[i], events[i])
    ensures k < |pages| && !Mirrors(pages[k])
    decreases |events| - from
  {
    if Safe(norm, pages[from], events[from]) {
      k := FirstUnsafe(norm, url, pages, events, from + 1);
    } else {
      StackMirrorsHistory(norm, url, pages, events, from);
      k := from + 1;
      hide Mirrors, Safe, FrozenOk, Step;
      MirrorsKeptIff(norm, pages[from], events[from]);
    }
  }

  /** A run that is not: a document frozen at `a` while the user visits `b` does not know, when it is
      restored, that `b` lies ahead. */
  lemma FrozenDocumentForgets(norm: Url -> Url, a: Url, b: Url) returns (pages: seq<Page>)
    requires a != "" && b != "" && norm(a) != norm(b)
    ensures IsRun(norm, a, pages, [Navigate(b, true), Restore(0, false)])
    ensures pages[2].browser == Browser([a, b], 0) && pages[2].nav == Nav([a], 0)
  {
    var start := Loaded(norm, Page(Browser([a], 0), NO_NAV, Absent, map[]));
    var away := Page(Browser([a, b], 1), Nav([a, b], 1), Save(Nav([a, b], 1)), map[0 := Nav([a], 0)]);
    var back := Page(Browser([a, b], 0), Nav([a], 0), Save(Nav([a], 0)), map[]);
    FreshTabTracks(norm, a);
    Away(norm, a, b, start);
    Back(norm, a, b, away);
    pages := [start, away, back];
    hide Loaded, Step, Mirrors;
  }

  lemma Away(norm: Url -> Url, a: Url, b: Url, p: Page)
    requires a != "" && b != "" && norm(a) != norm(b)
    requires Tracks(norm, p) && p.browser == Browser([a], 0) && p.frozen == map[]
    ensures Allowed(norm, p, Navigate(b, true))
    ensures Step(norm, p, Navigate(b, true)) ==
            Page(Browser([a, b], 1), Nav([a, b], 1), Save(Nav([a, b], 1)), map[0 := Nav([a], 0)])
  {
    var e := Navigate(b, true);
    assert [a][..1] + [b] == [a, b];
    assert Apart(norm, [a, b]);
    assert JumpSafe(norm, p.nav, b);
    JumpKeepsIff(norm, p, e);
    assert Step(norm, p, e).frozen == map[0 := Nav([a], 0)];
    hide Loaded, Initialised, Ensure;
  }

  lemma Back(norm: Url -> Url, a: Url, b: Url, p: Page)
    requires a != "" && b != "" && norm(a) != norm(b)
    requires p.browser == Browser([a, b], 1) && p.frozen == map[0 := Nav([a], 0)]
    ensures Allowed(norm, p, Restore(0, false))
    ensures Step(norm, p, Restore(0, false)) == Page(Browser([a, b], 0), Nav([a], 0), Save(Nav([a], 0)), map[])
  {
    ObserveEntry(norm, Nav([a], 0), 0);
    hide Ensure, Save;
    assert map[0 := Nav([a], 0)] - {0} == map[];
  }

  // ---------- Always in range ----------

  lemma EnsureValid(norm: Url -> Url, n: Nav, href: Url, mode: Mode)
    requires Valid(n)
    ensures Valid(Ensure(norm, n, href, mode))
  {
    if mode == Auto { FoundInRange(norm, n, href); }
  }

  lemma InitialisedValid(norm: Url -> Url, stored: Stored, href: Url)
    ensures Valid(Initialised(norm, stored, href))
  {
    var raw := Load(stored);
    if raw.stack == [] {
      EnsureValid(norm, Nav([href], 0), href, Auto);
    } else if raw.index < 0.0 || raw.index >= |raw.stack| as real {
      EnsureValid(norm, Nav(raw.stack, |raw.stack| - 1), href, Auto);
    } else if raw.index == raw.index.Floor as real {
      EnsureValid(norm, Nav(raw.stack, raw.index.Floor), href, Auto);
    } else {
      FirstMatchSound(norm, raw.stack, 0, href);
    }
  }

  /** Whatever storage holds and whatever is observed afterwards, the index stays inside the stack. */
  lemma {:induction false} IndexAlwaysInRange(norm: Url -> Url, stored: Stored, navs: seq<Nav>, hrefs: seq<Url>,
                                              modes: seq<Mode>, k: nat)
    requires |navs| == |hrefs| + 1 && |modes| == |hrefs| && k < |navs|
    requires exists href :: navs[0] == Initialised(norm, stored, href)
    requires forall i :: 0 <= i < |hrefs| ==> navs[i + 1] == Ensure(norm, navs[i], hrefs[i], modes[i])
    ensures Valid(navs[k])
  {
    if k == 0 {
      var href :| navs[0] == Initialised(norm, stored, href);
      InitialisedValid(norm, stored, href);
    } else {
      IndexAlwaysInRange(norm, stored, navs, hrefs, modes, k - 1);
      EnsureValid(norm, navs[k - 1], hrefs[k - 1], modes[k - 1]);
    }
  }
}
