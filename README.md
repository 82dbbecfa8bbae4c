# Hash router of the Radiographia site shell, modelled in Dafny

`routes.js` is the client-side shell of a small single-page site. A static
route table maps hashes (`#/main`, `#/dicom`, `#/books`) to HTML fragment files
and menu labels. On every hash change the router does three things:

- It marks the active menu anchor.
- It fetches the route's fragment.
- It reconciles the stylesheets and scripts the fragment brings, then swaps the
  fragment into the content region.

A "Sections" dropdown opens on click. It closes through a 150 ms debounce timer
and is pinned to the left or right edge so that it fits the viewport.

The DOM is replaced by plain data:

- A stylesheet link is `(href, data-keep, data-dynamic)`.
- A fetched fragment is its ordered stylesheet hrefs and its script tags (`src`, text).
- The content region holds a fragment's markup or one of the two error headings.
- The content and footer elements keep only their inline `display` value.

The network's answer (`Ok(fragment)`, `NotOk`, `NetworkError`) and each new
stylesheet's first event (load, error, or neither before the 5000 ms timer) are
inputs. Layout measurements are integer inputs.

Modules, one per component of the file:

- `Common` (common.dfy): `Option` and the inline `display` value (`''`, `none`, `block`) shared by the other modules.
- `Routing` (routing.dfy): the route table, lookup, the `#/main` default and the settling delay.
- `Menu` (menu.dfy): the anchors `createStaticMenu` renders, and the `MenuView` class whose `GenerateMenu` loop toggles `active`.
- `Dropdown` (dropdown.dfy): the `Controller` class for `initDropdown`'s closure variables, with one method per handler.
- `Assets` (assets.dfy): the specification of `cleanupDynamicAssets` and `addStyles`.
  - `Kept`, `RemovedHrefs` and `StaticScripts` describe the cleanup.
  - `Appended`, `NonEmpty` and `StylesFail` describe `addStyles`.
  - `StyleInv` is the style-cache invariant.
  - It also holds the loop methods for the two removal passes.
- `Navigation` (navigation.dfy): `loadContent` as a function from a document state to the new state and the ordered list of steps. The lemmas about it are here.
- `Page` (page.dfy): the `Document` class. Its methods mutate the fields in place and are proved to produce exactly the states of `Assets`/`Navigation`.

The style-cache invariant proved here (`StyleInv`) has three parts:

- The loaded set equals the set of hrefs of the `data-dynamic` links in the head.
- No two dynamic links share an href.
- No dynamic link carries `data-keep`.

Every navigation preserves it.

## Model

| member | source | states |
|---|---|---|
| Routing.Lookup | routes.js:1-5 | the lookup finds a route exactly when some entry of the table has that hash, and the route it returns is stored under that hash |
| Routing.LookupFindsEntry | routes.js:207 | with distinct hashes, looking up the i-th hash returns the i-th route |
| Routing.RoutesWellFormed | routes.js:1-5 | the table's hashes are distinct and every route names a non-empty file, so the `route.path` guard never rejects a known route |
| Routing.EffectivePath | routes.js:272 | an empty hash becomes `#/main`; any other hash is used unchanged; the result is never empty |
| Routing.DelayNeverApplies | routes.js:213 | `#/blog` is not a route, so every path that reaches the delay computation gets 0 ms |
| Menu.StaticMenuShape | routes.js:23-42 | the rendered menu is the toggle anchor `#` followed by one anchor per route, in table order and with the route's name; none is active; all hrefs are distinct |
| Menu.MarkedActiveIff | routes.js:123-127 | for any list of anchors, marking changes only the flags: an anchor is active iff its href equals the path, and none is active when no href matches |
| Menu.MarkedAtMostOne | routes.js:123-127 | with distinct hrefs, at most one anchor is active after marking |
| Menu.ActiveAfterNavigation | routes.js:123-126 | on the built-in menu, route anchor i is active iff the path is route i's hash; the toggle is active only for `#`; at most one anchor is active; an unknown path leaves all inactive |
| Menu.ToggleIsNotARoute | routes.js:29-32 | the toggle's href `#` is not a hash of the route table |
| Menu.MenuView.CreateStaticMenu | routes.js:23-42 | the menu's anchors become the rendered list, whose hrefs are distinct |
| Menu.MenuView.GenerateMenu | routes.js:123-127 | every anchor keeps its href and label and is active iff its href equals the path |
| Dropdown.Controller.constructor | routes.js:53-54 | the controller starts closed, with no remembered handle and no pending close |
| Dropdown.Controller.ShowMenu | routes.js:56-80 | clears only the remembered close timer; pins the submenu right iff left + width > viewport width; the submenu ends open, block and visible |
| Dropdown.Controller.HideMenu | routes.js:82-87 | schedules a fresh close timer and remembers its handle instead of the previous one; nothing closes yet |
| Dropdown.Controller.OnCloseTimer | routes.js:83-86 | a pending close timer fires: the submenu's display becomes none and the controller is closed; placement and visibility are untouched |
| Dropdown.Controller.OnToggleClick | routes.js:89-96 | a toggle click on an open menu only schedules a close (display, visibility and placement stay until the timer fires); on a closed menu it shows the menu |
| Dropdown.Controller.OnDocumentClick | routes.js:98-102 | a click outside the dropdown schedules a close, even when the menu is already closed; a click inside changes nothing; neither touches the open flag, display, visibility or placement |
| Dropdown.Controller.OnResize | routes.js:104-108 | a resize re-places (and re-shows) the submenu only when it is open; a closed submenu keeps its pending timers, placement, display and visibility |
| Dropdown.StaleCloseTimer | routes.js:54-57 | two outside clicks and then a toggle click open the menu, and the first click's still-pending timer closes it again |
| Dropdown.SingleCloseCancelled | routes.js:56-57 | with a single pending close, showing the menu again cancels it, so the menu stays open |
| Assets.KeptMembers | routes.js:136-144 | a link survives cleanup iff it is present and not removable (empty href, `general.css` or `highlight.js` in the href, or `data-keep`) |
| Assets.KeptConcat | routes.js:134-145 | cleanup decides link by link and keeps the survivors in their relative order |
| Assets.RemoveUnprotected | routes.js:134-145 | one pass over the snapshot of links removes exactly the removable ones, keeping order, and collects exactly their hrefs for eviction |
| Assets.StaticScriptsMembers | routes.js:148-150 | exactly the scripts without `data-dynamic` survive |
| Assets.RemoveDynamicScripts | routes.js:148-150 | one pass removes every `data-dynamic` script and keeps the rest in order |
| Assets.AppendedMembers | routes.js:157-166 | an href gets a new link iff it is non-empty, occurs in the fragment and is not already loaded |
| Assets.AppendedDistinct | routes.js:159-166 | no href gets two links, even when the fragment repeats it |
| Assets.AppendedConcat | routes.js:157-166 | links are appended in fragment order: appending for two fragments in turn equals appending for their concatenation |
| Assets.ShellSatisfiesInv | routes.js:18 | an empty loaded set over a page with no dynamic links satisfies the style-cache invariant |
| Assets.CleanupKeepsInv | routes.js:132-145 | cleanup preserves the style-cache invariant, even when it also evicts hrefs for links in the content region |
| Assets.AddKeepsInv | routes.js:156-166 | appending the new links and adding their hrefs preserves the style-cache invariant |
| Navigation.LoadEndsVisible | routes.js:253-264 | every exit (success, caught failure, unknown route) leaves the content display `''` and the footer `block`, and the last two steps reveal them |
| Navigation.FetchIffKnownRoute | routes.js:207-215 | a fetch happens iff the path is a route; an unknown path shows the not-found heading and leaves styles, links and scripts untouched; a known route is hidden and then fetched |
| Navigation.SuccessOrdering | routes.js:215-245 | on success: the cleanup comes before awaiting the styles, which comes before inserting the markup; one recreated module script per fragment script follows, in order; the final links, scripts and loaded set are those of cleanup followed by `addStyles` |
| Navigation.FailedFetchKeepsStyles | routes.js:215-216 | a non-ok or failed fetch throws before the cleanup: the loaded set, links and scripts are unchanged and the failure heading is shown |
| Navigation.StyleErrorFailsNavigation | routes.js:168-186 | an error from a newly appended stylesheet rejects the load after cleanup: the failure heading is shown, the new links stay, and no script is appended |
| Navigation.NoSettlingDelay | routes.js:213-248 | every settle step of every load waits 0 ms |
| Navigation.EmptyHashLoadsHome | routes.js:272-274 | the empty hash loads exactly as `#/main`, which is a route: `html/main.html` is fetched and the not-found heading is never shown |
| Navigation.ProtectedLinksSurvive | routes.js:136-141 | a head link that is not removable survives every navigation |
| Navigation.LoadKeepsConsistent | routes.js:206-245 | every navigation preserves the style-cache invariant, so no href is injected twice |
| Navigation.EvictedAfterNavigation | routes.js:134-166 | after navigating to a page that does not use an unprotected href, that href is neither loaded nor the href of any dynamic link |
| Page.Document.constructor | routes.js:17-18 | the shell starts with an empty loaded set and its own links and scripts |
| Page.Document.CleanupDynamicAssets | routes.js:132-151 | the document becomes exactly `Cleaned` of the old document: removable links are gone from the head and the content region, their hrefs are evicted, dynamic scripts are removed |
| Page.Document.AddStyles | routes.js:156-187 | one dynamic link per new href is appended in order and the loaded set gains the fragment's non-empty hrefs; the result is false iff an appended link reports an error |
| Page.Document.AppendScripts | routes.js:233-244 | one `data-dynamic` module script per fragment script tag is appended, in order, using the tag's `src` when it has one and its text otherwise; nothing else in the document changes |
| Page.Document.InsertFragment | routes.js:220-254 | after the fetch, the document and the steps are exactly those of `Insert`: cleanup, await styles, then either insert the markup, append the scripts and reveal, or show the failure heading |
| Page.Document.LoadContent | routes.js:206-266 | the document and the steps are exactly those of `Load` |
| Page.HandleHashChange | routes.js:271-275 | the menu is marked with the defaulted hash, and that same path is loaded |

## Left out

- Fetching, `response.text()` and transport: the network's answer is an input. A failure of `response.text()` is folded into `NetworkError`.
- Timers and promise scheduling. The 150 ms close delay is an explicit `OnCloseTimer` event. The 5000 ms style timeout is the `TimerFired` outcome. The settling delay is a `Settle` step carrying its duration.
- Overlapping `loadContent` calls from rapid hash changes. They interleave at `await` points and the code does not guard against them. Each load is modelled as running to completion.
- HTML parsing (`innerHTML`, `querySelectorAll`) and the menu and footer markup. A fragment is only its stylesheet hrefs and script tags. Fragment links are taken to carry neither `data-keep` nor `data-dynamic`, and fragment scripts to carry no `data-dynamic`.
- Scripts inside the content region are not part of `scripts`. With the assumption above, the cleanup never selects them.
- `hljs.highlightAll()`, `console.error`/`console.warn`, event-listener registration, and the startup check for missing `menu`/`content`/`footer` elements.
- `createStaticFooter` is not modelled. It only sets fixed markup.
- Layout measurement. `getBoundingClientRect().left` is a float and the widths come from layout; all three are integer inputs. `ShowMenu` sets `visibility: hidden` while measuring, as the code does, but its contract states only the final, visible style.
- JavaScript property lookup on `routes` also finds inherited names such as `constructor`. Their `path` is undefined, so the `route && route.path` guard sends them to the not-found branch, as the model's lookup does. A location hash always starts with `#`, so such names never arrive.
- Routing.Lookup: returns the first entry with the hash. Object keys are unique, so this is the only one.
- Script `src`: `script.src` in the code is the resolved absolute URL. So a present but empty `src=""` is truthy there and resolves to the document's URL. The model keeps the raw attribute and treats `""` as no `src`, which re-runs the tag's text instead.
