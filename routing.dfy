/**
 * The route table of the shell and the pure parts of hash routing:
 * looking a hash up, the default hash, and the settling delay that is
 * computed before syntax highlighting.
 */
module Routing {
  import opened Common

  /** A route: the fragment file fetched for it and its label in the menu. */
  datatype Route = Route(path: string, name: string)

  /** The hash every empty hash stands for. */
  const HomePath: string := "#/main"

  /** The one hash that gets a settling delay before highlighting. */
  const DelayedPath: string := "#/blog"

  /** The route table, in insertion order (which is also the menu order). */
  function Routes(): seq<(string, Route)>
  {
    [ ("#/main", Route("html/main.html", "Главная")),
      ("#/dicom", Route("html/dicom.html", "Коллекция")),
      ("#/books", Route("html/books.html", "Книги")) ]
  }

  /** True when the table's hashes are pairwise distinct, as the keys of an object are. */
  predicate DistinctKeys(table: seq<(string, Route)>)
  {
    forall i, j :: 0 <= i < j < |table| ==> table[i].0 != table[j].0
  }

  /** True when `key` is one of the table's hashes. */
  predicate HasKey(table: seq<(string, Route)>, key: string)
  {
    exists i :: 0 <= i < |table| && table[i].0 == key
  }

  /**
   * Property lookup on the route table: the route stored under `key`,
   * or None when no entry has that hash.
   */
  function Lookup(table: seq<(string, Route)>, key: string): (r: Option<Route>)
    ensures r.Some? <==> HasKey(table, key)
    ensures r.Some? ==> exists i :: 0 <= i < |table| && table[i] == (key, r.value)
    decreases |table|
  {
    if table == [] then None
    else if table[0].0 == key then Some(table[0].1)
    else Lookup(table[1..], key)
  }

  /** With distinct keys, looking up the i-th hash finds the i-th route. */
  lemma LookupFindsEntry(table: seq<(string, Route)>, i: nat)
    requires DistinctKeys(table)
    requires i < |table|
    ensures Lookup(table, table[i].0) == Some(table[i].1)
    decreases i
  {
  }

  /** The built-in table has distinct keys and every route names a non-empty file. */
  lemma RoutesWellFormed()
    ensures DistinctKeys(Routes())
    ensures forall i :: 0 <= i < |Routes()| ==> Routes()[i].1.path != ""
  {
  }

  /**
   * The path a hash change navigates to: the location's hash, or the home
   * hash when the location has none.
   */
  function EffectivePath(hash: string): (path: string)
    ensures path != ""
    ensures hash != "" ==> path == hash
    ensures hash == "" ==> path == HomePath
  {
    if hash != "" then hash else HomePath
  }

  /** The settling delay (in milliseconds) chosen for a path before highlighting. */
  function SettleDelay(path: string): nat
  {
    if path == DelayedPath then 2000 else 0
  }

  /**
   * The delayed hash is not a key of the route table, so every path that
   * reaches the delay computation (a known route) gets no delay at all.
   */
  lemma DelayNeverApplies(path: string)
    requires Lookup(Routes(), path).Some?
    ensures SettleDelay(path) == 0
    ensures Lookup(Routes(), DelayedPath) == None
  {
  }
}
