/**
 * Stylesheet and script reconciliation: which `<link rel="stylesheet">`
 * elements the cleanup removes, which hrefs `addStyles` appends, when the
 * aggregate style load fails, and the invariant that ties the set of
 * loaded styles to the dynamic links in the document head.
 */
module Assets {
  /**
   * A stylesheet link element: its `href` attribute ("" when absent),
   * whether it carries `data-keep`, and whether it carries `data-dynamic`.
   */
  datatype Link = Link(href: string, keep: bool, dynamic: bool)

  /** A `<script>` tag inside a fetched fragment: its `src` ("" when absent) and its text. */
  datatype ScriptTag = ScriptTag(src: string, text: string)

  datatype ScriptSource = External(src: string) | Inline(text: string)

  /** A script element in the document outside the content region. */
  datatype Script = Script(source: ScriptSource, isModule: bool, dynamic: bool)

  /** A fetched HTML fragment, reduced to its stylesheet hrefs and its scripts, in order. */
  datatype Fragment = Fragment(styles: seq<string>, scripts: seq<ScriptTag>)

  /**
   * What a newly appended link reports first: its `load` event, its `error`
   * event, or neither before the 5000 ms timer fires.
   */
  datatype LoadOutcome = LoadEvent | ErrorEvent | TimerFired

  /** Substring test, as `String.prototype.includes`. */
  predicate Contains(s: string, part: string)
  {
    exists i :: 0 <= i <= |s| - |part| && OccursAt(s, part, i)
  }

  /** `part` occurs in `s` starting at index i. */
  predicate OccursAt(s: string, part: string, i: int)
  {
    0 <= i <= |s| - |part| && s[i..i + |part|] == part
  }

  /** Hrefs that are never removed: the base stylesheet and the highlighter's. */
  predicate ProtectedHref(href: string)
  {
    Contains(href, "general.css") || Contains(href, "highlight.js")
  }

  /** The cleanup's removal test for one stylesheet link. */
  predicate Removable(link: Link)
  {
    link.href != "" && !ProtectedHref(link.href) && !link.keep
  }

  /** The links a cleanup leaves, in their original relative order. */
  function Kept(links: seq<Link>): (kept: seq<Link>)
    ensures |kept| <= |links|
  {
    if links == [] then []
    else
      var last := links[|links| - 1];
      Kept(links[..|links| - 1]) + (if Removable(last) then [] else [last])
  }

  /** The hrefs a cleanup evicts from the loaded-style set. */
  function RemovedHrefs(links: seq<Link>): set<string>
  {
    set l | l in links && Removable(l) :: l.href
  }

  /** One more link in the snapshot: the cleanup's result grows by that link's verdict. */
  lemma CleanupStep(links: seq<Link>, i: nat)
    requires i < |links|
    ensures Kept(links[..i + 1]) == Kept(links[..i]) + (if Removable(links[i]) then [] else [links[i]])
    ensures RemovedHrefs(links[..i + 1]) == RemovedHrefs(links[..i]) + (if Removable(links[i]) then {links[i].href} else {})
  {
    assert links[..i + 1] == links[..i] + [links[i]];
    assert links[..i + 1][..i] == links[..i];
  }

  /** A link survives the cleanup exactly when it is present and not removable. */
  lemma {:induction false} KeptMembers(links: seq<Link>, l: Link)
    ensures l in Kept(links) <==> l in links && !Removable(l)
  {
    if links != [] {
      var init := links[..|links| - 1];
      KeptMembers(init, l);
      assert links == init + [links[|links| - 1]];
    }
  }

  /** The cleanup works link by link: it distributes over concatenation, so order is kept. */
  lemma {:induction false} KeptConcat(a: seq<Link>, b: seq<Link>)
    ensures Kept(a + b) == Kept(a) + Kept(b)
    decreases |b|
  {
    if b == [] {
      assert a + b == a;
    } else {
      var init := b[..|b| - 1];
      KeptConcat(a, init);
      assert (a + b)[..|a + b| - 1] == a + init;
    }
  }

  /** One iteration of the cleanup pass keeps its loop invariant. */
  lemma CleanupPassStep(links: seq<Link>, i: nat, kept: seq<Link>, j: nat)
    requires i < |links|
    requires kept == Kept(links[..i]) + links[i..] && j == |Kept(links[..i])|
    ensures Removable(links[i]) ==>
      kept[..j] + kept[j + 1..] == Kept(links[..i + 1]) + links[i + 1..] && j == |Kept(links[..i + 1])|
    ensures !Removable(links[i]) ==>
      kept == Kept(links[..i + 1]) + links[i + 1..] && j + 1 == |Kept(links[..i + 1])|
    ensures RemovedHrefs(links[..i + 1]) == RemovedHrefs(links[..i]) + (if Removable(links[i]) then {links[i].href} else {})
  {
    CleanupStep(links, i);
    assert links[i..] == [links[i]] + links[i + 1..];
    if Removable(links[i]) {
      assert kept[..j] == Kept(links[..i]) && kept[j + 1..] == links[i + 1..];
    }
  }

  /**
   * One pass over a snapshot of the stylesheet links, removing in place each
   * one the cleanup's test selects and noting its href for eviction.
   */
  method RemoveUnprotected(links: seq<Link>) returns (kept: seq<Link>, evicted: set<string>)
    ensures kept == Kept(links)
    ensures evicted == RemovedHrefs(links)
  {
    kept := links;
    evicted := {};
    var i, j := 0, 0;
    while i < |links|
      invariant 0 <= i <= |links|
      invariant kept == Kept(links[..i]) + links[i..]
      invariant j == |Kept(links[..i])|
      invariant evicted == RemovedHrefs(links[..i])
    {
      var link := links[i];
      CleanupPassStep(links, i, kept, j);
      if link.href != "" && !Contains(link.href, "general.css") && !Contains(link.href, "highlight.js") && !link.keep {
        kept := kept[..j] + kept[j + 1..];
        evicted := evicted + {link.href};
      } else {
        j := j + 1;
      }
      i := i + 1;
    }
    assert links[..i] == links;
  }

  /** The scripts left after removing every `data-dynamic` one, in order. */
  function StaticScripts(scripts: seq<Script>): (kept: seq<Script>)
    ensures |kept| <= |scripts|
  {
    if scripts == [] then []
    else
      var last := scripts[|scripts| - 1];
      StaticScripts(scripts[..|scripts| - 1]) + (if last.dynamic then [] else [last])
  }

  /** Exactly the non-dynamic scripts survive. */
  lemma {:induction false} StaticScriptsMembers(scripts: seq<Script>, s: Script)
    ensures s in StaticScripts(scripts) <==> s in scripts && !s.dynamic
  {
    if scripts != [] {
      var init := scripts[..|scripts| - 1];
      StaticScriptsMembers(init, s);
      assert scripts == init + [scripts[|scripts| - 1]];
    }
  }

  /** One iteration of the script-removal pass keeps its loop invariant. */
  lemma ScriptPassStep(snapshot: seq<Script>, i: nat, scripts: seq<Script>, j: nat)
    requires i < |snapshot|
    requires scripts == StaticScripts(snapshot[..i]) + snapshot[i..] && j == |StaticScripts(snapshot[..i])|
    ensures j < |scripts| && scripts[j] == snapshot[i]
    ensures snapshot[i].dynamic ==>
      scripts[..j] + scripts[j + 1..] == StaticScripts(snapshot[..i + 1]) + snapshot[i + 1..] && j == |StaticScripts(snapshot[..i + 1])|
    ensures !snapshot[i].dynamic ==>
      scripts == StaticScripts(snapshot[..i + 1]) + snapshot[i + 1..] && j + 1 == |StaticScripts(snapshot[..i + 1])|
  {
    assert snapshot[..i + 1] == snapshot[..i] + [snapshot[i]];
    assert snapshot[..i + 1][..i] == snapshot[..i];
    assert snapshot[i..] == [snapshot[i]] + snapshot[i + 1..];
    if snapshot[i].dynamic {
      assert scripts[..j] == StaticScripts(snapshot[..i]) && scripts[j + 1..] == snapshot[i + 1..];
    }
  }

  /** One pass over a snapshot of the scripts, removing in place each `data-dynamic` one. */
  method RemoveDynamicScripts(scripts: seq<Script>) returns (kept: seq<Script>)
    ensures kept == StaticScripts(scripts)
  {
    kept := scripts;
    var i, j := 0, 0;
    while i < |scripts|
      invariant 0 <= i <= |scripts|
      invariant kept == StaticScripts(scripts[..i]) + scripts[i..]
      invariant j == |StaticScripts(scripts[..i])|
    {
      ScriptPassStep(scripts, i, kept, j);
      if scripts[i].dynamic {
        kept := kept[..j] + kept[j + 1..];
      } else {
        j := j + 1;
      }
      i := i + 1;
    }
    assert scripts[..i] == scripts;
  }

  /** The non-empty hrefs of a fragment. */
  function NonEmpty(hrefs: seq<string>): set<string>
  {
    set h | h in hrefs && h != ""
  }

  /**
   * The i-th href of a fragment gets a new link: it is non-empty, not in the
   * loaded set, and not seen earlier in the same fragment.
   */
  predicate IsNew(loaded: set<string>, hrefs: seq<string>, i: nat)
    requires i < |hrefs|
  {
    hrefs[i] != "" && hrefs[i] !in loaded && hrefs[i] !in hrefs[..i]
  }

  /** The hrefs `addStyles` appends links for, in fragment order. */
  function Appended(loaded: set<string>, hrefs: seq<string>): (added: seq<string>)
    ensures |added| <= |hrefs|
  {
    if hrefs == [] then []
    else
      Appended(loaded, hrefs[..|hrefs| - 1])
        + (if IsNew(loaded, hrefs, |hrefs| - 1) then [hrefs[|hrefs| - 1]] else [])
  }

  /** An href is appended exactly when it is non-empty, in the fragment and not yet loaded. */
  lemma {:induction false} AppendedMembers(loaded: set<string>, hrefs: seq<string>, h: string)
    ensures h in Appended(loaded, hrefs) <==> h != "" && h !in loaded && h in hrefs
  {
    if hrefs != [] {
      var init := hrefs[..|hrefs| - 1];
      AppendedMembers(loaded, init, h);
      assert hrefs == init + [hrefs[|hrefs| - 1]];
    }
  }

  /** No href is appended twice, even when the fragment repeats it. */
  lemma {:induction false} AppendedDistinct(loaded: set<string>, hrefs: seq<string>)
    ensures forall i, j :: 0 <= i < j < |Appended(loaded, hrefs)| ==>
      Appended(loaded, hrefs)[i] != Appended(loaded, hrefs)[j]
  {
    if hrefs != [] {
      var init := hrefs[..|hrefs| - 1];
      AppendedDistinct(loaded, init);
      if IsNew(loaded, hrefs, |hrefs| - 1) {
        var last := hrefs[|hrefs| - 1];
        AppendedMembers(loaded, init, last);
        assert init == hrefs[..|hrefs| - 1];
      }
    }
  }

  /**
   * Appending for two fragments in a row is appending for their
   * concatenation: the second one sees everything the first one loaded.
   */
  lemma {:induction false} AppendedConcat(loaded: set<string>, a: seq<string>, b: seq<string>)
    ensures Appended(loaded, a + b) == Appended(loaded, a) + Appended(loaded + NonEmpty(a), b)
    decreases |b|
  {
    if b == [] {
      assert a + b == a;
    } else {
      var init := b[..|b| - 1];
      var last := b[|b| - 1];
      AppendedConcat(loaded, a, init);
      assert (a + b)[..|a + b| - 1] == a + init;
      assert (a + b)[..|a + b| - 1][..|a + b| - 1] == a + init;
      assert (a + init) + [last] == a + b;
      assert IsNew(loaded, a + b, |a + b| - 1) <==> IsNew(loaded + NonEmpty(a), b, |b| - 1) by {
        assert (a + b)[|a + b| - 1] == last;
        assert (a + b)[..|a + b| - 1] == a + init;
        assert last in a + init <==> last in a || last in init;
      }
    }
  }

  /** The data-dynamic link elements created for the given hrefs. */
  function DynamicLinks(hrefs: seq<string>): (links: seq<Link>)
  {
    seq(|hrefs|, i requires 0 <= i < |hrefs| => Link(hrefs[i], false, true))
  }

  /** The outcome reported by the i-th link; a link with no recorded event times out. */
  function OutcomeAt(outcomes: seq<LoadOutcome>, i: nat): LoadOutcome
  {
    if i < |outcomes| then outcomes[i] else TimerFired
  }

  /** The aggregate style load rejects: some newly appended link reports an error. */
  predicate StylesFail(loaded: set<string>, hrefs: seq<string>, outcomes: seq<LoadOutcome>)
  {
    exists i :: 0 <= i < |hrefs| && IsNew(loaded, hrefs, i) && OutcomeAt(outcomes, i) == ErrorEvent
  }

  /** Hrefs of the data-dynamic links. */
  function DynamicHrefs(links: seq<Link>): set<string>
  {
    set l | l in links && l.dynamic :: l.href
  }

  /**
   * The style-cache invariant: the loaded set is exactly the hrefs of the
   * dynamic links in the head, no two dynamic links share an href, and no
   * dynamic link carries `data-keep`.
   */
  predicate StyleInv(loaded: set<string>, links: seq<Link>)
  {
    loaded == DynamicHrefs(links)
    && (forall l :: l in links && l.dynamic ==> !l.keep)
    && (forall i, j :: 0 <= i < j < |links| && links[i].dynamic && links[j].dynamic ==> links[i].href != links[j].href)
  }

  /** A page with only its own (non-dynamic) links and nothing loaded satisfies the invariant. */
  lemma ShellSatisfiesInv(links: seq<Link>)
    requires forall l :: l in links ==> !l.dynamic
    ensures StyleInv({}, links)
  {
  }

  /** The cleanup keeps distinct dynamic hrefs distinct. */
  lemma {:induction false} KeptDistinctDynamic(links: seq<Link>)
    requires forall i, j :: 0 <= i < j < |links| && links[i].dynamic && links[j].dynamic ==> links[i].href != links[j].href
    ensures forall i, j :: 0 <= i < j < |Kept(links)| && Kept(links)[i].dynamic && Kept(links)[j].dynamic ==>
      Kept(links)[i].href != Kept(links)[j].href
  {
    if links != [] {
      var init := links[..|links| - 1];
      var last := links[|links| - 1];
      KeptDistinctDynamic(init);
      if !Removable(last) && last.dynamic {
        var k := Kept(links);
        assert k == Kept(init) + [last];
        forall i | 0 <= i < |Kept(init)| && Kept(init)[i].dynamic
          ensures Kept(init)[i].href != last.href
        {
          KeptMembers(init, Kept(init)[i]);
          var m :| 0 <= m < |init| && init[m] == Kept(init)[i];
          assert links[m] == init[m];
        }
      }
    }
  }

  /**
   * The cleanup preserves the invariant, whatever other (content-region)
   * links it also evicts hrefs for: a dynamic link it keeps has a protected
   * href, and no removed link can have a protected href.
   */
  lemma CleanupKeepsInv(loaded: set<string>, links: seq<Link>, others: seq<Link>)
    requires StyleInv(loaded, links)
    ensures StyleInv(loaded - RemovedHrefs(links) - RemovedHrefs(others), Kept(links))
  {
    var kept := Kept(links);
    var after := loaded - RemovedHrefs(links) - RemovedHrefs(others);
    forall h | h in after ensures h in DynamicHrefs(kept) {
      var l :| l in links && l.dynamic && l.href == h;
      KeptMembers(links, l);
    }
    forall h | h in DynamicHrefs(kept) ensures h in after {
      var l :| l in kept && l.dynamic && l.href == h;
      KeptMembers(links, l);
      assert !Removable(l);
      assert h !in RemovedHrefs(links) && h !in RemovedHrefs(others);
    }
    forall l | l in kept && l.dynamic ensures !l.keep {
      KeptMembers(links, l);
    }
    KeptDistinctDynamic(links);
  }

  /** Appending new links for a fragment preserves the invariant. */
  lemma AddKeepsInv(loaded: set<string>, links: seq<Link>, hrefs: seq<string>)
    requires StyleInv(loaded, links)
    ensures StyleInv(loaded + NonEmpty(hrefs), links + DynamicLinks(Appended(loaded, hrefs)))
  {
    var added := Appended(loaded, hrefs);
    var dl := DynamicLinks(added);
    var all := links + dl;
    forall h ensures h in added <==> h != "" && h !in loaded && h in hrefs {
      AppendedMembers(loaded, hrefs, h);
    }
    forall h ensures h in DynamicHrefs(dl) <==> h in added {
      if h in added {
        var k :| 0 <= k < |added| && added[k] == h;
        assert dl[k] in dl;
      }
    }
    assert DynamicHrefs(all) == DynamicHrefs(links) + DynamicHrefs(dl);
    AppendedDistinct(loaded, hrefs);
    forall i, j | 0 <= i < j < |all| && all[i].dynamic && all[j].dynamic
      ensures all[i].href != all[j].href
    {
      if j >= |links| && i < |links| {
        assert all[i] in links;
        assert all[j].href == added[j - |links|];
        assert added[j - |links|] in added;
      } else if i >= |links| {
        assert all[i].href == added[i - |links|] && all[j].href == added[j - |links|];
      }
    }
  }
}
