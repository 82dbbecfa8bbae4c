/**
 * The content loader as a specification: the document state it acts on,
 * the answer of the network as an input, and the state and ordered list of
 * steps one call of `loadContent` produces.
 */
module Navigation {
  import opened Common
  import opened Routing
  import opened Assets

  /** The markup in the content region. */
  datatype Content =
    | Markup(links: seq<Link>, scripts: seq<ScriptTag>)  // a fragment, as inserted
    | Message(html: string)                                  // one of the two error headings

  const NotFoundHtml: string := "<h1>Страница не найдена</h1>"
  const FailureHtml: string := "<h1>Ошибка загрузки страницы</h1>"

  /** What the network answers to the fetch of a route's file. */
  datatype Response = Ok(fragment: Fragment) | NotOk | NetworkError

  /** The state `loadContent` reads and writes. */
  datatype DocState = DocState(
    loaded: set<string>,       // the loaded-style set
    links: seq<Link>,          // stylesheet links in the head, in order
    scripts: seq<Script>,      // script elements outside the content region, in order
    content: Content,
    contentDisplay: Display,
    footerDisplay: Display)

  /** The observable steps of one load, in the order they happen. */
  datatype Step =
    | HideContent
    | HideFooter
    | Fetch(resource: string)
    | Cleanup
    | AwaitStyles(ok: bool)
    | SetContent(content: Content)
    | AppendScript(script: Script)
    | Settle(delayMs: nat)
    | ShowContent
    | ShowFooter

  /** The content region after a fragment's markup is inserted. */
  function Render(fragment: Fragment): Content
  {
    Markup(seq(|fragment.styles|, i requires 0 <= i < |fragment.styles| => Link(fragment.styles[i], false, false)),
           fragment.scripts)
  }

  /** The fresh module script that re-runs a fragment's script tag. */
  function Recreate(tag: ScriptTag): Script
  {
    if tag.src != "" then Script(External(tag.src), true, true)
    else Script(Inline(tag.text), true, true)
  }

  function RecreateAll(tags: seq<ScriptTag>): (ss: seq<Script>)
  {
    seq(|tags|, i requires 0 <= i < |tags| => Recreate(tags[i]))
  }

  function AppendSteps(ss: seq<Script>): seq<Step>
  {
    seq(|ss|, i requires 0 <= i < |ss| => AppendScript(ss[i]))
  }

  /** The stylesheet links that are part of the content region's markup. */
  function ContentLinks(c: Content): seq<Link>
  {
    if c.Markup? then c.links else []
  }

  /**
   * The state after `cleanupDynamicAssets`: removable links leave the head
   * and the content region, their hrefs leave the loaded set, and every
   * dynamic script is removed.
   */
  function Cleaned(s: DocState): DocState
  {
    s.(loaded := s.loaded - RemovedHrefs(s.links) - RemovedHrefs(ContentLinks(s.content)),
       links := Kept(s.links),
       scripts := StaticScripts(s.scripts),
       content := if s.content.Markup? then s.content.(links := Kept(s.content.links)) else s.content)
  }

  /** The state after `addStyles` appended the links for the fragment's new hrefs. */
  function WithStyles(s: DocState, hrefs: seq<string>): DocState
  {
    s.(loaded := s.loaded + NonEmpty(hrefs), links := s.links + DynamicLinks(Appended(s.loaded, hrefs)))
  }

  /** The heading shown in the content region, made visible with the footer. */
  function ShowMessage(s: DocState, html: string): DocState
  {
    s.(content := Message(html), contentDisplay := Default, footerDisplay := Block)
  }

  const MessageSteps: seq<Step> := [ShowContent, ShowFooter]

  /**
   * The part of `loadContent` after a successful fetch: cleanup, awaiting
   * the new styles, inserting the markup, re-creating its scripts and
   * revealing the page — or the failure heading when a style fails.
   */
  function Insert(hidden: DocState, path: string, fragment: Fragment, outcomes: seq<LoadOutcome>): (DocState, seq<Step>)
  {
    var cleaned := Cleaned(hidden);
    var styled := WithStyles(cleaned, fragment.styles);
    if !StylesFail(cleaned.loaded, fragment.styles, outcomes) then
      var recreated := RecreateAll(fragment.scripts);
      var content := Render(fragment);
      (styled.(content := content, scripts := styled.scripts + recreated,
               contentDisplay := Default, footerDisplay := Block),
       [Cleanup, AwaitStyles(true), SetContent(content)] + AppendSteps(recreated)
         + [Settle(SettleDelay(path)), ShowContent, ShowFooter])
    else
      (ShowMessage(styled, FailureHtml), [Cleanup, AwaitStyles(false), SetContent(Message(FailureHtml))] + MessageSteps)
  }

  /** The `try` block of `loadContent` for a known route, from hiding onwards. */
  function Attempt(s: DocState, resource: string, path: string, response: Response, outcomes: seq<LoadOutcome>): (DocState, seq<Step>)
  {
    var hidden := s.(contentDisplay := DisplayNone, footerDisplay := DisplayNone);
    var started := [HideContent, HideFooter, Fetch(resource)];
    if response.Ok? then
      var (s2, steps) := Insert(hidden, path, response.fragment, outcomes);
      (s2, started + steps)
    else
      (ShowMessage(hidden, FailureHtml), started + [SetContent(Message(FailureHtml))] + MessageSteps)
  }

  /**
   * One call of `loadContent(path)`: the resulting state and the steps in
   * order, given what the fetch answers and what each new stylesheet reports.
   */
  function Load(s: DocState, path: string, response: Response, outcomes: seq<LoadOutcome>): (DocState, seq<Step>)
  {
    var route := Lookup(Routes(), path);
    if route.Some? && route.value.path != "" then Attempt(s, route.value.path, path, response, outcomes)
    else (ShowMessage(s, NotFoundHtml), [SetContent(Message(NotFoundHtml))] + MessageSteps)
  }

  /** Index of the first occurrence of a step in a trace (|trace| when absent). */
  function IndexOf(trace: seq<Step>, step: Step): (k: nat)
    ensures k <= |trace|
    ensures k < |trace| ==> trace[k] == step
    ensures forall i :: 0 <= i < k ==> trace[i] != step
  {
    if trace == [] then 0
    else if trace[0] == step then 0
    else 1 + IndexOf(trace[1..], step)
  }

  /** The style-cache invariant on a document state. */
  predicate Consistent(s: DocState)
  {
    StyleInv(s.loaded, s.links)
  }

  /** A hash of the route table reaches the `try` block, with the route's file as the resource. */
  lemma KnownRoute(path: string) returns (resource: string)
    requires HasKey(Routes(), path)
    ensures Lookup(Routes(), path) == Some(Route(resource, Lookup(Routes(), path).value.name))
    ensures resource != ""
  {
    RoutesWellFormed();
    var route := Lookup(Routes(), path);
    var i :| 0 <= i < |Routes()| && Routes()[i] == (path, route.value);
    resource := route.value.path;
  }

  /**
   * Every exit of `loadContent` — success, caught failure, unknown route —
   * leaves the content region at its default display and the footer at
   * `block`, and the last two steps reveal them.
   */
  lemma LoadEndsVisible(s: DocState, path: string, response: Response, outcomes: seq<LoadOutcome>)
    ensures Load(s, path, response, outcomes).0.contentDisplay == Default
    ensures Load(s, path, response, outcomes).0.footerDisplay == Block
    ensures var t := Load(s, path, response, outcomes).1;
      |t| >= 2 && t[|t| - 2] == ShowContent && t[|t| - 1] == ShowFooter
  {
  }

  /**
   * A path with no route fetches nothing: the content region shows the
   * not-found heading and the styles, links and scripts are untouched.
   * A known route is fetched right after the content and footer are hidden.
   */
  lemma FetchIffKnownRoute(s: DocState, path: string, response: Response, outcomes: seq<LoadOutcome>)
    ensures var (s2, t) := Load(s, path, response, outcomes);
      (forall i :: 0 <= i < |t| ==> !t[i].Fetch?) <==> !HasKey(Routes(), path)
    ensures var (s2, t) := Load(s, path, response, outcomes);
      !HasKey(Routes(), path) ==>
        s2.content == Message(NotFoundHtml) && s2.loaded == s.loaded && s2.links == s.links && s2.scripts == s.scripts
    ensures var (s2, t) := Load(s, path, response, outcomes);
      HasKey(Routes(), path) ==>
        |t| >= 3 && t[..3] == [HideContent, HideFooter, Fetch(Lookup(Routes(), path).value.path)]
  {
    var (s2, t) := Load(s, path, response, outcomes);
    var route := Lookup(Routes(), path);
    RoutesWellFormed();
    if route.Some? {
      var i :| 0 <= i < |Routes()| && Routes()[i] == (path, route.value);
      assert route.value.path != "";
      assert t[2].Fetch?;
    }
  }

  /**
   * On the success path the fetched markup is inserted only after the
   * cleanup and after the style promise resolved, the scripts follow it in
   * fragment order, and the resulting state holds exactly the kept links
   * plus the new ones, the static scripts plus the recreated ones.
   */
  lemma SuccessOrdering(s: DocState, path: string, fragment: Fragment, outcomes: seq<LoadOutcome>)
    requires HasKey(Routes(), path)
    requires !StylesFail(Cleaned(s).loaded, fragment.styles, outcomes)
    ensures var (s2, t) := Load(s, path, Ok(fragment), outcomes);
      var n := |fragment.scripts|;
      |t| == 9 + n
      && IndexOf(t, Cleanup) == 3
      && IndexOf(t, AwaitStyles(true)) == 4
      && IndexOf(t, SetContent(Render(fragment))) == 5
      && (forall k :: 0 <= k < n ==> t[6 + k] == AppendScript(Recreate(fragment.scripts[k])))
      && s2.content == Render(fragment)
      && s2.links == Kept(s.links) + DynamicLinks(Appended(Cleaned(s).loaded, fragment.styles))
      && s2.scripts == StaticScripts(s.scripts) + RecreateAll(fragment.scripts)
      && s2.loaded == Cleaned(s).loaded + NonEmpty(fragment.styles)
  {
    var resource := KnownRoute(path);
    var hidden := s.(contentDisplay := DisplayNone, footerDisplay := DisplayNone);
    assert Cleaned(hidden).loaded == Cleaned(s).loaded;
    var inserted := Insert(hidden, path, fragment, outcomes);
    var head := [HideContent, HideFooter, Fetch(resource), Cleanup, AwaitStyles(true), SetContent(Render(fragment))];
    assert inserted.1 == head[3..] + AppendSteps(RecreateAll(fragment.scripts))
      + [Settle(SettleDelay(path)), ShowContent, ShowFooter];
    var t := Load(s, path, Ok(fragment), outcomes).1;
    assert t == head + AppendSteps(RecreateAll(fragment.scripts)) + [Settle(SettleDelay(path)), ShowContent, ShowFooter];
    assert t[..6] == head;
    assert t[0] == HideContent && t[1] == HideFooter && t[2] == Fetch(resource);
    assert t[3] == Cleanup && t[4] == AwaitStyles(true) && t[5] == SetContent(Render(fragment));
  }

  /**
   * A response that is not ok (or a failed fetch) throws before the cleanup:
   * the old styles, links and scripts stay, and the content region shows
   * the failure heading.
   */
  lemma FailedFetchKeepsStyles(s: DocState, path: string, response: Response, outcomes: seq<LoadOutcome>)
    requires HasKey(Routes(), path)
    requires !response.Ok?
    ensures var (s2, t) := Load(s, path, response, outcomes);
      s2.loaded == s.loaded && s2.links == s.links && s2.scripts == s.scripts
      && s2.content == Message(FailureHtml)
      && (forall i :: 0 <= i < |t| ==> t[i] != Cleanup)
  {
  }

  /**
   * A stylesheet error after the cleanup fails the whole navigation: the
   * old dynamic assets are gone, the new links stay appended, no script is
   * added and the content region shows the failure heading.
   */
  lemma StyleErrorFailsNavigation(s: DocState, path: string, fragment: Fragment, outcomes: seq<LoadOutcome>)
    requires HasKey(Routes(), path)
    requires StylesFail(Cleaned(s).loaded, fragment.styles, outcomes)
    ensures var (s2, t) := Load(s, path, Ok(fragment), outcomes);
      s2.content == Message(FailureHtml)
      && s2.links == Kept(s.links) + DynamicLinks(Appended(Cleaned(s).loaded, fragment.styles))
      && s2.scripts == StaticScripts(s.scripts)
      && (forall i :: 0 <= i < |t| ==> !t[i].AppendScript?)
  {
  }

  /**
   * The empty hash navigates exactly as the home hash does, and the home
   * hash is a route: its file is fetched and the not-found heading is never
   * shown for it.
   */
  lemma EmptyHashLoadsHome(s: DocState, response: Response, outcomes: seq<LoadOutcome>)
    ensures Load(s, EffectivePath(""), response, outcomes) == Load(s, HomePath, response, outcomes)
    ensures var t := Load(s, HomePath, response, outcomes).1;
      |t| >= 3 && t[2] == Fetch("html/main.html")
    ensures Load(s, HomePath, response, outcomes).0.content != Message(NotFoundHtml)
  {
  }

  /** The two-second settling delay is never applied: every settle step waits 0 ms. */
  lemma NoSettlingDelay(s: DocState, path: string, response: Response, outcomes: seq<LoadOutcome>)
    ensures var t := Load(s, path, response, outcomes).1;
      forall i :: 0 <= i < |t| && t[i].Settle? ==> t[i].delayMs == 0
  {
  }

  /**
   * Links that the cleanup does not remove (a protected href, `data-keep`)
   * survive every navigation.
   */
  lemma ProtectedLinksSurvive(s: DocState, path: string, response: Response, outcomes: seq<LoadOutcome>, l: Link)
    requires l in s.links && !Removable(l)
    ensures l in Load(s, path, response, outcomes).0.links
  {
    KeptMembers(s.links, l);
  }

  /** Every navigation keeps the loaded set equal to the hrefs of the distinct dynamic links. */
  lemma LoadKeepsConsistent(s: DocState, path: string, response: Response, outcomes: seq<LoadOutcome>)
    requires Consistent(s)
    ensures Consistent(Load(s, path, response, outcomes).0)
  {
    if response.Ok? {
      var c := Cleaned(s);
      CleanupKeepsInv(s.loaded, s.links, ContentLinks(s.content));
      AddKeepsInv(c.loaded, c.links, response.fragment.styles);
    }
  }

  /**
   * Stylesheet eviction: after a successful navigation to a page that does
   * not use an unprotected href, that href is neither loaded nor the href of
   * any dynamic link.
   */
  lemma EvictedAfterNavigation(s: DocState, path: string, fragment: Fragment, outcomes: seq<LoadOutcome>, href: string)
    requires Consistent(s)
    requires HasKey(Routes(), path)
    requires href != "" && !ProtectedHref(href)
    requires href !in fragment.styles
    ensures var s2 := Load(s, path, Ok(fragment), outcomes).0;
      href !in s2.loaded && forall l :: l in s2.links && l.dynamic ==> l.href != href
  {
    LoadKeepsConsistent(s, path, Ok(fragment), outcomes);
    var c := Cleaned(s);
    AppendedMembers(c.loaded, fragment.styles, href);
  }
}
