/**
 * The live document as the router mutates it: the loaded-style set, the
 * stylesheet links of the head, the scripts, the content region and the
 * display of the content and footer elements. Each method is proved to
 * produce the state the Navigation specification describes.
 */
module Page {
  import opened Common
  import opened Routing
  import opened Assets
  import opened Navigation
  import Menu

  class Document {
    var loaded: set<string>
    var links: seq<Link>
    var scripts: seq<Script>
    var content: Content
    var contentDisplay: Display
    var footerDisplay: Display

    /** The document's state as a value. */
    function State(): DocState
      reads this
    {
      DocState(loaded, links, scripts, content, contentDisplay, footerDisplay)
    }

    /** The page shell before the first navigation: nothing loaded yet. */
    constructor (shellLinks: seq<Link>, shellScripts: seq<Script>, initial: Content)
      ensures State() == DocState({}, shellLinks, shellScripts, initial, Default, Default)
    {
      loaded := {};
      links := shellLinks;
      scripts := shellScripts;
      content := initial;
      contentDisplay := Default;
      footerDisplay := Default;
    }

    /**
     * Removes every removable stylesheet link (in the head, then in the
     * content region) and evicts its href, then removes every dynamic script.
     */
    method CleanupDynamicAssets()
      modifies this
      ensures State() == Cleaned(old(State()))
    {
      var keptHead, evictedHead := RemoveUnprotected(links);
      var keptContent, evictedContent := RemoveUnprotected(ContentLinks(content));
      links := keptHead;
      if content.Markup? {
        content := content.(links := keptContent);
      }
      loaded := loaded - evictedHead - evictedContent;

      scripts := RemoveDynamicScripts(scripts);
    }

    /**
     * Appends one dynamic link per new non-empty href of the fragment, in
     * order, adding each to the loaded set; `ok` is false exactly when some
     * appended link reports an error.
     */
    method AddStyles(hrefs: seq<string>, outcomes: seq<LoadOutcome>) returns (ok: bool)
      modifies this
      ensures State() == WithStyles(old(State()), hrefs)
      ensures ok <==> !StylesFail(old(loaded), hrefs, outcomes)
    {
      ghost var loaded0 := loaded;
      ok := true;
      var i := 0;
      while i < |hrefs|
        invariant 0 <= i <= |hrefs|
        invariant loaded == loaded0 + NonEmpty(hrefs[..i])
        invariant links == old(links) + DynamicLinks(Appended(loaded0, hrefs[..i]))
        invariant ok <==> !exists k :: 0 <= k < i && IsNew(loaded0, hrefs, k) && OutcomeAt(outcomes, k) == ErrorEvent
        invariant scripts == old(scripts) && content == old(content)
        invariant contentDisplay == old(contentDisplay) && footerDisplay == old(footerDisplay)
      {
        var href := hrefs[i];
        AddPassStep(loaded0, hrefs, i);
        if href != "" && href !in loaded {
          links := links + [Link(href, false, true)];
          loaded := loaded + {href};
          if OutcomeAt(outcomes, i) == ErrorEvent {
            ok := false;
          }
        }
        i := i + 1;
      }
      assert hrefs[..i] == hrefs;
    }

    /**
     * Appends, in order, one fresh `data-dynamic` module script per script tag
     * of the fragment: the tag's `src` when it has one, else its text.
     */
    method AppendScripts(tags: seq<ScriptTag>) returns (steps: seq<Step>)
      modifies this
      ensures State() == old(State()).(scripts := old(scripts) + RecreateAll(tags))
      ensures steps == AppendSteps(RecreateAll(tags))
    {
      steps := [];
      var i := 0;
      while i < |tags|
        invariant 0 <= i <= |tags|
        invariant State() == old(State()).(scripts := old(scripts) + RecreateAll(tags[..i]))
        invariant steps == AppendSteps(RecreateAll(tags[..i]))
      {
        var script: Script;
        if tags[i].src != "" {
          script := Script(External(tags[i].src), true, true);
        } else {
          script := Script(Inline(tags[i].text), true, true);
        }
        assert RecreateAll(tags[..i + 1]) == RecreateAll(tags[..i]) + [script];
        scripts := scripts + [script];
        steps := steps + [AppendScript(script)];
        i := i + 1;
      }
      assert tags[..i] == tags;
    }

    /**
     * The steps of `loadContent` once the fragment has been fetched: cleanup,
     * awaiting the styles, then (if they resolved) inserting the markup,
     * appending one module script per fragment script and revealing the page;
     * a rejected style load ends in the failure heading instead.
     */
    method InsertFragment(path: string, fragment: Fragment, outcomes: seq<LoadOutcome>) returns (steps: seq<Step>)
      modifies this
      ensures State() == Insert(old(State()), path, fragment, outcomes).0
      ensures steps == Insert(old(State()), path, fragment, outcomes).1
    {
      var delay := SettleDelay(path);
      CleanupDynamicAssets();
      ghost var cleaned := State();
      var stylesOk := AddStyles(fragment.styles, outcomes);
      ghost var styled := State();
      assert cleaned == Cleaned(old(State())) && styled == WithStyles(cleaned, fragment.styles);
      assert stylesOk <==> !StylesFail(cleaned.loaded, fragment.styles, outcomes);
      if stylesOk {
        content := Render(fragment);
        var appended := AppendScripts(fragment.scripts);
        contentDisplay := Default;
        footerDisplay := Block;
        steps := [Cleanup, AwaitStyles(true), SetContent(content)] + appended + [Settle(delay), ShowContent, ShowFooter];
        assert State() == styled.(content := Render(fragment), scripts := styled.scripts + RecreateAll(fragment.scripts),
                                  contentDisplay := Default, footerDisplay := Block);
      } else {
        content := Message(FailureHtml);
        contentDisplay := Default;
        footerDisplay := Block;
        steps := [Cleanup, AwaitStyles(false), SetContent(Message(FailureHtml))] + MessageSteps;
        assert State() == ShowMessage(styled, FailureHtml);
      }
    }

    /**
     * `loadContent(path)` with the fetch's answer and each new stylesheet's
     * outcome as inputs; returns the steps it took, in order.
     */
    method LoadContent(path: string, response: Response, outcomes: seq<LoadOutcome>) returns (trace: seq<Step>)
      modifies this
      ensures State() == Load(old(State()), path, response, outcomes).0
      ensures trace == Load(old(State()), path, response, outcomes).1
    {
      var route := Lookup(Routes(), path);
      if route.Some? && route.value.path != "" {
        contentDisplay := DisplayNone;
        footerDisplay := DisplayNone;
        trace := [HideContent, HideFooter, Fetch(route.value.path)];
        if response.Ok? {
          var steps := InsertFragment(path, response.fragment, outcomes);
          trace := trace + steps;
        } else {
          content := Message(FailureHtml);
          contentDisplay := Default;
          footerDisplay := Block;
          trace := trace + [SetContent(Message(FailureHtml)), ShowContent, ShowFooter];
        }
      } else {
        content := Message(NotFoundHtml);
        contentDisplay := Default;
        footerDisplay := Block;
        trace := [SetContent(Message(NotFoundHtml)), ShowContent, ShowFooter];
      }
    }
  }

  /** One iteration of the style-appending pass keeps its loop invariant. */
  lemma AddPassStep(loaded0: set<string>, hrefs: seq<string>, i: nat)
    requires i < |hrefs|
    ensures hrefs[..i + 1][..i] == hrefs[..i]
    ensures NonEmpty(hrefs[..i + 1]) == NonEmpty(hrefs[..i]) + (if hrefs[i] != "" then {hrefs[i]} else {})
    ensures IsNew(loaded0, hrefs, i) <==> hrefs[i] != "" && hrefs[i] !in loaded0 + NonEmpty(hrefs[..i])
    ensures Appended(loaded0, hrefs[..i + 1])
      == Appended(loaded0, hrefs[..i]) + (if IsNew(loaded0, hrefs, i) then [hrefs[i]] else [])
    ensures DynamicLinks(Appended(loaded0, hrefs[..i + 1]))
      == DynamicLinks(Appended(loaded0, hrefs[..i])) + (if IsNew(loaded0, hrefs, i) then [Link(hrefs[i], false, true)] else [])
  {
  }

  /**
   * `handleHashChange`: the hash, defaulted to the home route, marks the
   * menu and is loaded.
   */
  method HandleHashChange(menu: Menu.MenuView, doc: Document, hash: string, response: Response, outcomes: seq<LoadOutcome>)
    returns (trace: seq<Step>)
    modifies menu, doc
    ensures menu.links == Menu.Marked(old(menu.links), EffectivePath(hash))
    ensures doc.State() == Load(old(doc.State()), EffectivePath(hash), response, outcomes).0
    ensures trace == Load(old(doc.State()), EffectivePath(hash), response, outcomes).1
  {
    var path := EffectivePath(hash);
    menu.GenerateMenu(path);
    trace := doc.LoadContent(path, response, outcomes);
  }
}
