/**
 * The navigation menu: the ordered list of anchors rendered from the route
 * table, and the marking of the active anchor after each navigation.
 */
module Menu {
  import opened Routing

  /** The href of the dropdown's toggle anchor, which is also in the menu. */
  const ToggleHref: string := "#"

  /** One anchor of the menu: its href, its label and whether it carries `active`. */
  datatype MenuLink = MenuLink(href: string, caption: string, active: bool)

  /**
   * The anchors of the freshly rendered menu in document order: the dropdown
   * toggle, then one anchor per route in table order, none of them active.
   */
  function StaticMenu(table: seq<(string, Route)>): (links: seq<MenuLink>)
  {
    [MenuLink(ToggleHref, "Sections", false)]
      + seq(|table|, i requires 0 <= i < |table| => MenuLink(table[i].0, table[i].1.name, false))
  }

  /** The menu's anchors after the active flag is set by href equality with `activePath`. */
  function Marked(links: seq<MenuLink>, activePath: string): (marked: seq<MenuLink>)
  {
    seq(|links|, i requires 0 <= i < |links| => links[i].(active := links[i].href == activePath))
  }

  /** True when no two anchors share an href. */
  predicate DistinctHrefs(links: seq<MenuLink>)
  {
    forall i, j :: 0 <= i < j < |links| ==> links[i].href != links[j].href
  }

  /**
   * The rendered menu has one anchor per route plus the toggle, labelled
   * with the route names in table order, and when the table's hashes are
   * distinct and none is the toggle's, every anchor has its own href.
   */
  lemma StaticMenuShape(table: seq<(string, Route)>)
    requires DistinctKeys(table)
    requires !HasKey(table, ToggleHref)
    ensures |StaticMenu(table)| == |table| + 1
    ensures StaticMenu(table)[0].href == ToggleHref
    ensures forall i :: 0 <= i < |table| ==>
      StaticMenu(table)[i + 1].href == table[i].0 && StaticMenu(table)[i + 1].caption == table[i].1.name
    ensures forall l :: l in StaticMenu(table) ==> !l.active
    ensures DistinctHrefs(StaticMenu(table))
  {
  }

  /**
   * Marking changes nothing but the flags: an anchor is active exactly when
   * its href equals the path, and none is when no anchor has that href.
   */
  lemma MarkedActiveIff(links: seq<MenuLink>, activePath: string)
    ensures |Marked(links, activePath)| == |links|
    ensures forall i :: 0 <= i < |links| ==>
      Marked(links, activePath)[i].href == links[i].href
      && Marked(links, activePath)[i].caption == links[i].caption
      && (Marked(links, activePath)[i].active <==> links[i].href == activePath)
    ensures (forall i :: 0 <= i < |links| ==> links[i].href != activePath) ==>
      forall l :: l in Marked(links, activePath) ==> !l.active
  {
  }

  /** With distinct hrefs, marking leaves at most one anchor active. */
  lemma MarkedAtMostOne(links: seq<MenuLink>, activePath: string)
    requires DistinctHrefs(links)
    ensures forall i, j :: (0 <= i < |links| && 0 <= j < |links|
      && Marked(links, activePath)[i].active && Marked(links, activePath)[j].active) ==> i == j
  {
  }

  /** The toggle's href is not a hash of the built-in route table. */
  lemma ToggleIsNotARoute()
    ensures !HasKey(Routes(), ToggleHref)
  {
  }

  /**
   * After navigating the built-in menu to `path`, the anchor for route i is
   * active exactly when `path` is that route's hash, the toggle is active
   * only for "#", and an unknown path leaves every anchor inactive.
   */
  lemma ActiveAfterNavigation(path: string)
    ensures var m := Marked(StaticMenu(Routes()), path);
      |m| == |Routes()| + 1
      && (forall i :: 0 <= i < |Routes()| ==> (m[i + 1].active <==> Routes()[i].0 == path))
      && (m[0].active <==> path == ToggleHref)
      && (forall i, j :: 0 <= i < |m| && 0 <= j < |m| && m[i].active && m[j].active ==> i == j)
      && (!HasKey(Routes(), path) && path != ToggleHref ==> forall l :: l in m ==> !l.active)
  {
  }

  /** The menu element; its anchors are updated in place. */
  class MenuView {
    var links: seq<MenuLink>

    /** The menu element before anything is rendered into it. */
    constructor ()
      ensures links == []
    {
      links := [];
    }

    /** Replaces the menu's markup with the anchors built from the route table. */
    method CreateStaticMenu()
      modifies this
      ensures links == StaticMenu(Routes())
      ensures DistinctHrefs(links)
    {
      links := StaticMenu(Routes());
      RoutesWellFormed();
      ToggleIsNotARoute();
      StaticMenuShape(Routes());
    }

    /** Toggles `active` on every anchor of the menu according to its href. */
    method GenerateMenu(activePath: string)
      modifies this
      ensures links == Marked(old(links), activePath)
    {
      var i := 0;
      while i < |links|
        invariant 0 <= i <= |links| == |old(links)|
        invariant forall k :: 0 <= k < i ==> links[k] == old(links)[k].(active := old(links)[k].href == activePath)
        invariant forall k :: i <= k < |links| ==> links[k] == old(links)[k]
      {
        var link := links[i];
        links := links[i := link.(active := link.href == activePath)];
        i := i + 1;
      }
    }
  }
}
