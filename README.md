# Transit control studio: route pickers, bus filter, store and map pages

This project models the filter and selection logic of the transit control
studio front end, a React dashboard for a Dallas bus and rail network, and
proves properties of it in Dafny. With the React and Leaflet rendering
removed, these are the parts it models:

- **Route pickers.** There are four of them, and each searches an ordered
  catalog of `{id, label}` entries with a case-insensitive substring test.
  Each has its own trimming and capping policy.
  - `RouteMultiSelect`: untrimmed query; toggle, select all visible, clear
    visible, clear all; eight chips and a "+N more" marker.
  - `RouteSelect`: trimmed query, capped at 50 routes for an empty query and
    100 matches otherwise. It is a keyboard-driven combobox with `open`,
    `query` and `highlight` state.
  - `SearchSelect`: trimmed query, capped at 50 results; add, remove.
  - `RouteCombobox`: a fixed catalog of seventeen routes, an untrimmed search
    and the caption for the chosen code.
- **Bus markers.** A bus id such as `BUS-315` is split at `-`. The bus is kept
  when its second segment, with leading zeros stripped, equals a selected
  route id stripped the same way.
- **The application store.** A `mode`, the bus-route catalog, the selected
  route ids and the stop-layer switch, each overwritten by its own setter.
- **The rail map page.** A visibility record with one flag per line, all on
  at first, a toggle per line, the "Showing N of M" count, and the lines
  drawn on the map. Mounting the page switches the store to rail mode.
- **The live map page.** Mode tabs, the route text, the stops checkbox, five
  rail-line flags (only green on at first), the panel height the page computes
  from the window height (and does not use), and the choice of overlay.
- **The statistics cards.** The vehicle count, and the on-time, late and
  off-route counts.

Each piece of state becomes a Dafny `class` whose methods state the whole new
state. Each computed value becomes a function with a named result, and lemmas
relate the functions to one another.

The modules:

| module | file | contents |
|---|---|---|
| `Basics` | `basics.dfy` | `Option`, `Min`, `Max` |
| `Text` | `text.dfy` | ASCII `toLowerCase`; ECMAScript `trim`; `includes` |
| `Seqs` | `seqs.dfy` | `filter`, `slice(0, n)`, `Array.from(new Set(...))`, subsequences |
| `Catalog` | `catalog.dfy` | the entries, the match test, `find`, the `id — label` caption |
| `RouteMultiSelect` | `route_multi_select.dfy` | multi-route picker |
| `RouteSelect` | `route_select.dfy` | single-route combobox |
| `SearchSelect` | `search_select.dfy` | chip search |
| `RouteCombobox` | `route_combobox.dfy` | curated combobox |
| `BusMarkers` | `bus_markers.dfy` | bus route filter |
| `AppStore` | `app_store.dfy` | store |
| `Toggles` | `toggles.dfy` | the `{...v, [k]: !v[k]}` flag flip |
| `RailMap` | `rail_map.dfy` | rail map page |
| `LiveMap` | `live_map.dfy` | live map page |
| `StatsCards` | `stats_cards.dfy` | statistics cards |

Strings are `seq<char>`. Case folding covers ASCII letters only. Trimming
removes ECMAScript's white-space and line-terminator characters.

A callback such as `onChange` is modelled as a returned value: `Some(x)` when
it is called with `x`, `None` when it is not called.

## Model

| member | source | states |
|---|---|---|
| Text.Lower | src/components/RouteMultiSelect.tsx:38 | lower-casing keeps the length, folds each character independently and leaves no capital letter |
| Text.LowerIdempotent | src/components/RouteMultiSelect.tsx:38 | lower-casing twice is lower-casing once |
| Text.TrimSpec | src/widgets/RouteSelect.tsx:24 | `trim` leaves nothing exactly when the string is all white space; otherwise the result neither starts nor ends with white space and is a run of consecutive characters of the string |
| Text.TrimStartSpec | src/widgets/RouteSelect.tsx:24 | the leading-white-space drop keeps a suffix that does not start with white space, and drops only white space |
| Text.TrimEndSpec | src/widgets/RouteSelect.tsx:24 | the trailing-white-space drop keeps a prefix that does not end with white space, and drops only white space |
| Text.BlankIffSearchEmpty | src/widgets/RouteSelect.tsx:24-25 | `!query.trim().toLowerCase()` holds exactly when `!query.trim()` does |
| Text.ContainsIff | src/components/RouteMultiSelect.tsx:40 | `includes` holds exactly when the needle occurs at some index |
| Seqs.FilterMembers | src/components/RouteMultiSelect.tsx:39-41 | `filter` keeps exactly the elements that pass, and only those |
| Seqs.FilterMultiset | src/components/RouteMultiSelect.tsx:39-41 | `filter` keeps each passing value with all its occurrences |
| Seqs.FilterIsSubsequence | src/components/RouteMultiSelect.tsx:39-41 | `filter` keeps the original order |
| Seqs.Dedup | src/components/RouteMultiSelect.tsx:52 | `Array.from(new Set(s))` has no duplicates and the same values as `s` |
| Seqs.DedupSpec | src/components/RouteMultiSelect.tsx:52 | `Array.from(new Set(s))` is a subsequence of `s` listing the values in the order of their first occurrences |
| Seqs.FirstIndex | src/components/RouteMultiSelect.tsx:52 | the first position at which a value occurs: it holds the value and no earlier position does |
| Seqs.DedupAppend | src/components/RouteMultiSelect.tsx:52 | a duplicate-free front part survives deduplication of a concatenation unchanged, followed by the new values only |
| Catalog.MatchingSpec | src/components/RouteMultiSelect.tsx:39-41 | the matches are exactly the entries whose lower-cased label or id contains the query, each as often as in the catalog, in order |
| Catalog.MatchingEmptyQuery | src/components/RouteMultiSelect.tsx:39-41 | an empty query matches every entry |
| Catalog.TakeMatching | src/widgets/RouteSelect.tsx:26-32 | the first `cap` matches number min(cap, matches), each is a match, and they are in catalog order |
| Catalog.Find | src/components/RouteMultiSelect.tsx:92 | `find` returns the first entry with the id, or nothing exactly when no entry has it |
| Catalog.FindMember | src/widgets/RouteCombobox.tsx:45 | with distinct ids, looking up an entry's id finds that entry |
| Catalog.LabelOf | src/components/RouteMultiSelect.tsx:92-93 | `find(...)?.label ?? id`: the label of the first entry with the id, or the raw id when there is none |
| Catalog.Caption | src/widgets/RouteSelect.tsx:47 | the `${id} — ${label}` caption is as long as the id, the three-character separator and the label together |
| Catalog.CaptionParts | src/widgets/RouteSelect.tsx:47 | the caption starts with the id, then ` — `, and ends with the label |
| Catalog.CaptionInjective | src/widgets/RouteSelect.tsx:47 | the `id — label` caption determines the label for a given id |
| RouteMultiSelect.Filtered | src/components/RouteMultiSelect.tsx:36-42 | a blank query lists every option in order; any other query, lower-cased but untrimmed, lists in order exactly the matching options, each as often as in the catalog |
| RouteMultiSelect.VisibleIds | src/components/RouteMultiSelect.tsx:49 | one id per listed option, in listing order: the visible ids are exactly the ids of the listed options |
| RouteMultiSelect.Toggle | src/components/RouteMultiSelect.tsx:44-47 | a selected id loses every occurrence, and the rest keep their order and multiplicity; an unselected id is appended at the end |
| RouteMultiSelect.ToggleTwiceAbsent | src/components/RouteMultiSelect.tsx:44-47 | toggling an unselected id twice restores the selection exactly |
| RouteMultiSelect.ToggleTwiceSameIds | src/components/RouteMultiSelect.tsx:44-47 | toggling any id twice restores the set of selected ids; a selected id comes back once, at the end |
| RouteMultiSelect.SelectAllVisible | src/components/RouteMultiSelect.tsx:51-54 | the result has no duplicates and holds exactly the selected and visible ids; a duplicate-free selection stays in front, unchanged |
| RouteMultiSelect.SelectAllVisibleOrder | src/components/RouteMultiSelect.tsx:51-54 | select-all lists the ids in the order of their first occurrence in the selection followed by the visible ids, so the added ids come in listing order |
| RouteMultiSelect.ClearVisible | src/components/RouteMultiSelect.tsx:56-58 | keeps, in order, exactly the selected ids that are not visible; hidden ids keep every occurrence |
| RouteMultiSelect.SelectAllThenClearVisible | src/components/RouteMultiSelect.tsx:51-58 | select-all followed by clear-visible gives back a duplicate-free selection that held no visible id |
| RouteMultiSelect.ClearAll | src/components/RouteMultiSelect.tsx:60 | clear-all gives the empty selection |
| RouteMultiSelect.Chips | src/components/RouteMultiSelect.tsx:91-93 | at most eight chips, one per leading selected id, in order, each with that id's label |
| RouteMultiSelect.MoreCount | src/components/RouteMultiSelect.tsx:106-108 | the "+N more" marker appears exactly when more than eight ids are selected, with N the number of ids without a chip |
| RouteMultiSelect.Picker.constructor | src/components/RouteMultiSelect.tsx:22-23 | closed, empty query |
| RouteMultiSelect.Picker.PopoverShown | src/components/RouteMultiSelect.tsx:116 | a disabled picker never shows the list; an enabled one shows it exactly while open |
| RouteMultiSelect.Picker.ClickInput | src/components/RouteMultiSelect.tsx:67-69 | a click flips `open`, and with it whether the list shows, unless disabled; the query is kept |
| RouteMultiSelect.Picker.Type | src/components/RouteMultiSelect.tsx:76-79 | typing sets the query and opens the list |
| RouteMultiSelect.Picker.Focus | src/components/RouteMultiSelect.tsx:80 | focus opens the list and keeps the query |
| RouteMultiSelect.Picker.Dismiss | src/components/RouteMultiSelect.tsx:27-34 | an outside press closes the list and keeps the query |
| RouteSelect.Filtered | src/widgets/RouteSelect.tsx:23-33 | a blank query lists the first min(50, n) routes; every list holds at most 50 or 100 routes and keeps catalog order |
| RouteSelect.FilteredMatches | src/widgets/RouteSelect.tsx:24-32 | a non-blank query lists the first min(100, matches) matches of the trimmed, lower-cased query, in order; every match is listed when there are at most 100 |
| RouteSelect.Clamp | src/widgets/RouteSelect.tsx:35-42 | gives 0 for an empty list; otherwise it lowers the highlight to the last row if needed, so a non-negative highlight lands in range |
| RouteSelect.StepDown | src/widgets/RouteSelect.tsx:112 | ArrowDown moves one row down, stops at the last row, and stays in range |
| RouteSelect.StepUp | src/widgets/RouteSelect.tsx:116 | ArrowUp moves one row up and stops at the first row |
| RouteSelect.Combobox.constructor | src/widgets/RouteSelect.tsx:19-21 | closed, empty query, highlight 0 |
| RouteSelect.Combobox.Displayed | src/widgets/RouteSelect.tsx:87-93 | while open the input shows the query; when closed it shows the chosen route's caption, or the query when none is chosen |
| RouteSelect.Combobox.ClampHighlight | src/widgets/RouteSelect.tsx:35-42 | the clamp effect puts a non-negative highlight in range of the current list |
| RouteSelect.Combobox.Resynced | src/widgets/RouteSelect.tsx:46-50 | the resync text is the chosen route's caption, or empty |
| RouteSelect.Combobox.SyncQuery | src/widgets/RouteSelect.tsx:44-51 | while closed the query becomes the chosen route's caption or empty; while open it is kept |
| RouteSelect.Combobox.Settle | src/widgets/RouteSelect.tsx:35-51 | the highlight is clamped over the old list and then over the list after the resync, so an in-range highlight on an open list is kept; the highlight ends in range, and the query is resynced when closed |
| RouteSelect.Combobox.Focus | src/widgets/RouteSelect.tsx:94-97 | focus opens the list at the first row |
| RouteSelect.Combobox.Type | src/widgets/RouteSelect.tsx:98-102 | typing sets the query, opens the list and highlights the first row |
| RouteSelect.Combobox.Hover | src/widgets/RouteSelect.tsx:144 | hovering a row highlights it |
| RouteSelect.Combobox.Commit | src/widgets/RouteSelect.tsx:71-78 | a row in range is handed to `onChange`, its caption becomes the query and the list closes; out of range nothing changes |
| RouteSelect.Combobox.SetValue | src/widgets/RouteSelect.tsx:6 | the parent passes a new `value` |
| RouteSelect.Combobox.Dismiss | src/widgets/RouteSelect.tsx:54-69 | an outside press closes the list |
| RouteSelect.Combobox.KeyDown | src/widgets/RouteSelect.tsx:103-124 | while closed, only ArrowDown and Enter open the list. While open, the arrows move the highlight and keep it in range, Enter commits the highlighted row (and does nothing when the highlight is out of range), and Escape closes the list without touching the query or highlight |
| RouteSelect.Combobox.CommitAndAccept | src/widgets/RouteSelect.tsx:44-51 | after a pick is accepted and the effects have run, the query still holds the caption that Commit wrote, the list is closed, and the highlight is the old one clamped into the new list |
| SearchSelect.Filtered | src/components/SearchSelect.tsx:24-30 | at most 50 options for every query; a blank query lists the first min(50, n) options; the list keeps catalog order |
| SearchSelect.FilteredMatches | src/components/SearchSelect.tsx:25-29 | a non-blank query lists the first min(50, matches) matches of the trimmed, lower-cased query, in order |
| SearchSelect.Remove | src/components/SearchSelect.tsx:42 | every occurrence of the id is dropped; the rest keep their order and multiplicity |
| SearchSelect.Added | src/components/SearchSelect.tsx:44-46 | an absent id is appended at the end and a present one leaves the value unchanged, so a duplicate-free value stays duplicate-free and gains the id |
| SearchSelect.AddThenRemove | src/components/SearchSelect.tsx:42-46 | adding an absent id and removing it restores the value exactly |
| SearchSelect.ChipText | src/components/SearchSelect.tsx:55-58 | a chip's text `found?.id ?? id` is always the id itself |
| SearchSelect.Picker.constructor | src/components/SearchSelect.tsx:20-21 | closed, empty query |
| SearchSelect.Picker.Type | src/components/SearchSelect.tsx:74-77 | typing sets the query and opens the list |
| SearchSelect.Picker.Focus | src/components/SearchSelect.tsx:78 | focus opens the list |
| SearchSelect.Picker.Dismiss | src/components/SearchSelect.tsx:32-40 | an outside click closes the list |
| SearchSelect.Picker.Add | src/components/SearchSelect.tsx:43-49 | an absent id is handed to `onChange` appended at the end (`[...value, id]`); a present one leaves the value alone with no call; either way the query is cleared and the list closes |
| RouteCombobox.CodesDistinct | src/widgets/RouteCombobox.tsx:5-23 | no two catalog routes share a code |
| RouteCombobox.CodesAreDigits | src/widgets/RouteCombobox.tsx:5-23 | every code is three decimal digits |
| RouteCombobox.NamesHaveNoZero | src/widgets/RouteCombobox.tsx:5-23 | no route name contains the digit 0 |
| RouteCombobox.Filtered | src/widgets/RouteCombobox.tsx:34-42 | a blank query lists every route in order; any other query, lower-cased but untrimmed, lists in order exactly the routes whose code or name contains it |
| RouteCombobox.MatchesCodeQuery | src/widgets/RouteCombobox.tsx:37-41 | for an entry whose code has no capital letter, a query as long as the code whose first character is not a lower-case letter and does not occur in the entry's name matches the entry exactly when it is the code |
| RouteCombobox.OnlyRoute005Matches | src/widgets/RouteCombobox.tsx:5-23 | of the seventeen routes only the third matches "005" |
| RouteCombobox.Query005 | src/widgets/RouteCombobox.tsx:34-42 | the query "005" lists exactly the Love Field Shuttle, code 005 |
| RouteCombobox.Display | src/widgets/RouteCombobox.tsx:44-47 | the caption is `code — name` of the route with the chosen code; it is empty exactly when nothing is chosen or the code is unknown |
| RouteCombobox.Choose | src/widgets/RouteCombobox.tsx:71-74 | picking a listed route hands on its code, and the caption then shows that route |
| RouteCombobox.Combobox.constructor | src/widgets/RouteCombobox.tsx:32 | empty query |
| RouteCombobox.Combobox.Type | src/widgets/RouteCombobox.tsx:56 | typing sets the query |
| RouteCombobox.Combobox.AfterLeave | src/widgets/RouteCombobox.tsx:65 | once the list has closed the query is emptied, so every route is listed again |
| BusMarkers.Split | src/widgets/BusMarkers.tsx:30 | `split("-")` gives at least one piece, and no piece contains the separator |
| BusMarkers.SplitJoin | src/widgets/BusMarkers.tsx:30 | joining the pieces of a split gives the string back |
| BusMarkers.JoinSplit | src/widgets/BusMarkers.tsx:30 | splitting a join of separator-free pieces gives the pieces back |
| BusMarkers.SecondSegment | src/widgets/BusMarkers.tsx:30 | the second piece exists exactly when the id has a dash, and it has no dash |
| BusMarkers.SecondSegmentOf | src/widgets/BusMarkers.tsx:30 | the second piece is the run between the first dash and the next one, or the end |
| BusMarkers.StripSpec | src/widgets/BusMarkers.tsx:26 | `replace(/^0+/, "")` keeps a suffix that does not start with 0, and drops only zeros |
| BusMarkers.StripPadded | src/widgets/BusMarkers.tsx:26 | leading zeros make no difference after stripping |
| BusMarkers.StripIdempotent | src/widgets/BusMarkers.tsx:26 | stripping twice is stripping once |
| BusMarkers.Normalized | src/widgets/BusMarkers.tsx:25-27 | the normalised set holds exactly the stripped route ids |
| BusMarkers.Filtered | src/widgets/BusMarkers.tsx:22-35 | no route ids keep every bus; otherwise a bus is kept exactly when its second segment is non-empty and, stripped, equals a stripped route id; each kept bus keeps all its occurrences, and the order is kept |
| BusMarkers.Kept | src/widgets/BusMarkers.tsx:30-33 | a bus passes exactly when its id has a second segment that is non-empty and, stripped of leading zeros, is a normalised route id |
| BusMarkers.KeptIgnoresBusPadding | src/widgets/BusMarkers.tsx:30-33 | leading zeros in the bus id's segment make no difference: `BUS-0315` passes exactly when `BUS-315` does |
| BusMarkers.FilteredSingle | src/widgets/BusMarkers.tsx:29-34 | with routes selected, when exactly one bus passes the test, only that bus is drawn |
| BusMarkers.DemoFeedRoute315 | src/widgets/BusMarkers.tsx:6-34 | on the demo feed, route "315" with any number of leading zeros draws `BUS-315` alone |
| BusMarkers.SameNormalizedSameBuses | src/widgets/BusMarkers.tsx:25-34 | route lists with the same normalised set select the same buses |
| BusMarkers.NormalizedPadded | src/widgets/BusMarkers.tsx:26 | padding a route id with leading zeros leaves the normalised set alone |
| BusMarkers.LeadingZeroInsensitive | src/widgets/BusMarkers.tsx:26-33 | padding a selected route id with zeros ("0315" for "315") selects the same buses |
| BusMarkers.NoDashNeverKept | src/widgets/BusMarkers.tsx:30-31 | with routes selected, a bus whose id has no dash is never drawn |
| BusMarkers.EmptySegmentNeverKept | src/widgets/BusMarkers.tsx:30-31 | with routes selected, a bus with nothing between its first dash and the next, or the end, is never drawn |
| BusMarkers.MarkerColor | src/widgets/BusMarkers.tsx:43-48 | on time is green `#22c55e`, late is orange `#f97316`, and offline is slate `#64748b`, each a `#rrggbb` colour |
| BusMarkers.MarkerColorsDistinct | src/widgets/BusMarkers.tsx:43-48 | the three statuses have three different colours |
| AppStore.BusRouteIdsDistinct | src/store/useAppStore.ts:21 | the route catalog has distinct ids |
| AppStore.Store.constructor | src/store/useAppStore.ts:20-23 | bus mode, the whole catalog, nothing selected, stops shown |
| AppStore.Store.SetMode | src/store/useAppStore.ts:24 | only the mode changes; the selection survives a mode switch |
| AppStore.Store.SetSelectedRoutes | src/store/useAppStore.ts:25 | the selection becomes exactly the given ids and nothing else changes |
| AppStore.Store.SetShowStops | src/store/useAppStore.ts:26 | only the stop-layer switch changes |
| AppStore.Step | src/store/useAppStore.ts:24-26 | each setter changes its own field only and never the catalog |
| AppStore.RunKeepsCatalog | src/store/useAppStore.ts:19-27 | no sequence of setter calls changes the route catalog |
| AppStore.RunSelection | src/store/useAppStore.ts:25 | with no `setSelectedRoutes` call the selection is unchanged; when the final call sets it, the selection is that one |
| AppStore.RunSelectionLast | src/store/useAppStore.ts:24-26 | the selection after a run is the one set by the last `setSelectedRoutes` call, whatever other setters follow it |
| AppStore.ModeSwitchKeepsSelection | src/store/useAppStore.ts:24-25 | selecting routes and then switching mode keeps the selection |
| Toggles.Flip | src/pages/RailMap.tsx:104-106 | `{...v, [k]: !v[k]}` flips how `k` reads, adds `k` if missing, and keeps every other entry |
| Toggles.FlipOnlyChangesKey | src/pages/RailMap.tsx:104-106 | a flip changes how its own key reads and no other key |
| Toggles.FlipTwice | src/pages/RailMap.tsx:104-106 | flipping a key that has an entry twice restores the record exactly |
| Toggles.FlipTwiceReadsSame | src/pages/LiveMap.tsx:147-148 | flipping any key twice leaves every key reading as before |
| RailMap.RailLineIdsDistinct | src/data/rail.ts:20-83 | the five rail lines have distinct ids |
| RailMap.InitialVisible | src/pages/RailMap.tsx:67-69 | every line id, and nothing else, starts mapped to `true` |
| RailMap.VisibleLines | src/pages/RailMap.tsx:155-156 | the lines drawn are exactly the lines whose flag is on, in line order, each as often as it is listed |
| RailMap.ActiveCount | src/pages/RailMap.tsx:76-79 | the active count is the number of drawn lines, at most the number of lines |
| RailMap.ActiveCountAgree | src/pages/RailMap.tsx:76-79 | records that read the same on every line give the same count |
| RailMap.InitialAllActive | src/pages/RailMap.tsx:67-79 | at first every line is counted and drawn: "Showing M of M" |
| RailMap.ToggleMovesCount | src/pages/RailMap.tsx:76-79 | with distinct ids, toggling a line moves the count by one: down when the line was on, up when it was off |
| RailMap.StatusCaption | src/pages/RailMap.tsx:120-124 | each status has its own caption |
| RailMap.RailMapPage.constructor | src/pages/RailMap.tsx:67-69 | the record starts with every line on, and every line has an entry |
| RailMap.RailMapPage.Toggle | src/pages/RailMap.tsx:104-106 | a click flips that line's flag, and every line keeps its entry |
| RailMap.RailMapPage.Mount | src/pages/RailMap.tsx:72-74 | mounting sets the store's mode to rail and changes nothing else in the store |
| RailMap.RailMapPage.Showing | src/pages/RailMap.tsx:91-92 | "Showing N of M": N is the active count, the number of lines drawn, and M is the number of lines |
| LiveMap.PanelAndMapHeight | src/pages/LiveMap.tsx:39 | the value the page computes (and discards) is the larger of 640 and the window height less 160 |
| LiveMap.PanelHeightMonotone | src/pages/LiveMap.tsx:39 | a taller window never gives a shorter panel |
| LiveMap.InitialVisible | src/pages/LiveMap.tsx:22-28 | every line has a flag and only green is on |
| LiveMap.ToggleKeepsTotal | src/pages/LiveMap.tsx:147-148 | a line toggle keeps a flag for every line, and toggling twice restores the record |
| LiveMap.ExactlyOneOverlay | src/pages/LiveMap.tsx:214-215 | in every mode exactly one of the two overlays renders |
| LiveMap.OverlayFor | src/pages/LiveMap.tsx:214-215 | bus mode shows the bus markers with the stop switch and route text; rail mode shows the rail lines with their flags |
| LiveMap.LiveMapPage.constructor | src/pages/LiveMap.tsx:15-33 | bus mode, no route text, stops shown, only green visible, the given window height |
| LiveMap.LiveMapPage.SetMode | src/pages/LiveMap.tsx:52 | a mode tab changes only the mode |
| LiveMap.LiveMapPage.SetRoute | src/pages/LiveMap.tsx:97 | typing changes only the route text |
| LiveMap.LiveMapPage.SetShowStops | src/pages/LiveMap.tsx:107 | the checkbox changes only the stop switch |
| LiveMap.LiveMapPage.ToggleLine | src/pages/LiveMap.tsx:147-148 | a line button flips only that line's flag, and every line keeps a flag |
| LiveMap.LiveMapPage.Resize | src/pages/LiveMap.tsx:35 | a resize changes only the window height |
| LiveMap.LiveMapPage.Height | src/pages/LiveMap.tsx:39 | the unused height computed for the current window is at least 640 |
| LiveMap.LiveMapPage.CurrentOverlay | src/pages/LiveMap.tsx:214-215 | the bus overlay is shown exactly in bus mode, with the page's stop switch and route text; otherwise the rail overlay with the page's line flags |
| StatsCards.CountStatus | src/components/StatsCards.tsx:9-11 | a status count is at most the number of vehicles |
| StatsCards.CountStatusIsOccurrences | src/components/StatsCards.tsx:9-11 | a status count is the number of vehicles whose status string is exactly that status |
| StatsCards.DistinctCountsBounded | src/components/StatsCards.tsx:9-11 | the counts for three distinct statuses add up to at most the number of vehicles |
| StatsCards.Summarize | src/components/StatsCards.tsx:9-17 | the active figure is the vehicle count, and the on-time, late and off-route counts add up to at most that |

## Left out

- Outside-click dismissal is abstracted as a `Dismiss` event. The DOM listeners and node containment are not modelled.
- Headless UI's `Combobox` and `Transition` in `RouteCombobox`, the active-option styling and the "Clear filter" option are not modelled. They belong to a foreign library. Only the picker's `onChange(code)` (as `Choose`) and the `afterLeave` query reset are kept.
- All Leaflet rendering is left out. This covers map positions (bus `pos`, rail `positions`), tooltips, markers, path options other than the bus colours, and the silver line's dash pattern.
- The `FitToVisible` bounds computation in `src/pages/RailMap.tsx` is left out: it is floating-point latitude/longitude arithmetic feeding a library call.
- The live map's KPI cards show fixed strings and are not modelled.
- `RouteMultiSelect`'s "x/N selected" counter, `SearchSelect`'s remove-button `aria-label` and `sub` column, and all class names are rendering only.
- `RouteSelect`'s `preventDefault` calls are not modelled: they affect only the browser.
- The hovered row index comes from a rendered list. `RouteSelect.Combobox.Hover` therefore requires the index to be in range.
- The height computed at `src/pages/LiveMap.tsx:39` is discarded at line 40, and the map is drawn at a fixed 780 pixels (line 205). The model computes the value but does not tie it to anything drawn.
- `BusMarkers.Filtered` takes the bus list as a parameter; the component always filters its own `BUS_POINTS`, which `BusMarkers.DemoFeedRoute315` uses.
- Window height is an input: `LiveMap.LiveMapPage.constructor` and `Resize` take it as an integer parameter (the browser's `innerHeight`, or 900 without a window).
- The live map passes `route` to `BusMarkers`, which expects `routeIds` (`src/pages/LiveMap.tsx:214`, `src/widgets/BusMarkers.tsx:17-20`). `BusMarkers` is modelled against its own props. `LiveMap.OverlayFor` records the route text the page passes, and does not connect it to `BusMarkers.Filtered`.
- The store has one `selectedRoutes` shared by both modes. The model has no per-mode selection because the code has none.
- `RailMap.RailMapPage.Toggle` and `LiveMap.LiveMapPage.ToggleLine` restore the record exactly on a double toggle only because every line already has an entry (`Valid`). For a key with no entry, `Toggles.FlipTwiceReadsSame` shows that it comes back as an explicit `false`.
- `RouteMultiSelect.ToggleTwiceSameIds`: toggling a selected id twice restores the set of ids but not the order, because the id moves to the end. This is what `filter` and then spread do.
- `StatsCards` reads only `status` from the `Vehicle` type. That type is declared in `src/data/mock`, which is not part of this model.
- Case folding is ASCII only. JavaScript's full Unicode `toLowerCase` is not modelled.
- `LiveMap` reuses `AppStore.Mode` for its own `"bus" | "rail"` type.
- The catalogs are constants:
  - `RouteCombobox.ROUTES` is its own list. It spells route 018 "Samuell", where the store's `BUS_ROUTES` from `src/data/routes.ts` has "Samuel".
  - `RailMap.RAIL_LINES` follows `src/data/rail.ts`, which includes each line's status.
