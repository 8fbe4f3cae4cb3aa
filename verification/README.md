# System-tray host for GNOME Shell: a Dafny model

This project models the sequential core of a GNOME Shell system-tray extension. The extension is the host side of the freedesktop StatusNotifierItem protocol, served as `org.kde.StatusNotifierWatcher`, and a client of the `com.canonical.dbusmenu` protocol. The model covers:

- **Utils** (`utils.dfy`, utils.js): the object-path check; tooltip truncation to 80 characters; variant unwrapping; the three-pass mnemonic stripping; the choice of the best icon pixmap.
  - Bus values are a tagged union `Value` (null, boolean, integer, string, dbusmenu layout node, variant).
  - Stripping is proved equal to a one-pass left-to-right scan.
  - The pixmap choice is a loop proved against a ghost "best candidate" predicate.
- **Seqs** (`seqs.dfy`): `indexOf` and `splice`-style removal on sequences. Both the popup's button array and the watcher's insertion-ordered `Map` are built on them.
- **DbusMenu** (`dbus_menu.dfy`, dbusMenu.js):
  - the conversion of a `GetLayout` reply into a menu tree, a recursive function related to an independent "survivors, then one entry each" reading;
  - the classification of a failed fetch;
  - the `MinimalDbusMenu` client as a class whose flags and calls change step by step.
- **SniItem** (`sni_item_button.dfy`, sniItemButton.js): the item button as a class.
  - Click and right-press routing (Activate, dbusmenu, ContextMenu).
  - The re-entrancy guard, and the sticky "menu unsupported" flag.
  - The icon priority chain and the tooltip rule of a property refresh.
  - Idempotent destroy.
  - Five short scenarios.
- **Host** (`host.dfy`, host.js): the popup grid, a duplicate-free button list.
  - Buttons are split into rows of four.
  - The popup is sized with integer arithmetic.
- **Watcher** (`watcher.dfy`, watcher.js): the registry of items, keyed by `busName::objPath`, with these operations:
  - registration, with its derivation of address and path;
  - removal of every item of a connection that left the bus;
  - the registered-items list;
  - destroy.

Replies from the bus are inputs: a layout reply, a property record or an error message. What the code sends or emits is appended to a recorded sequence of calls or events. The asynchronous steps are explicit methods:
- a press that starts an open, followed by the step in which it settles;
- the LayoutUpdated signal, the idle callback it schedules, and the deferred callback that one queues.

The model follows the code in four places where its behaviour is easy to misread:
- A node is a submenu when its raw child list is non-empty. The list is counted before hidden children are dropped, so a submenu whose children are all hidden still appears, with no entries (`DbusMenu.HiddenChildrenKeepSubmenu`).
- The `(unnamed)` placeholder is chosen before stripping. A label that is only `_` therefore shows as the empty string (`DbusMenu.MarkerOnlyLabelShowsEmpty`).
- An idle rebuild that finds the menu open closes it. It queues a rebuild but never reopens the menu (`DbusMenu.MinimalDbusMenu.OnIdleRebuild`).
- A refresh that changes the `Menu` property resets neither the sticky unsupported flag nor the menu client (`SniItem.SniItemButton.RefreshFromProperties`).

## Model

| member | source | states |
|---|---|---|
| Utils.IsObjectPathExactly | utils.js:16-18 | A value is an object path exactly when it is a string of at least two characters starting with `/`; `"/"` and `""` are rejected, `"/a"` accepted |
| Utils.SafeText | utils.js:20-24 | The tooltip text is never longer than 80; a text of at most 80 characters (the empty one included) is kept unchanged; a longer one becomes exactly 80 characters: its first 77 followed by `...` |
| Utils.ToInt32 | sniItemButton.js:52 | `x \| 0`: the result is in the signed 32-bit range, congruent to `x` modulo 2^32, and equal to `x` when `x` is already in range |
| Utils.Unpack | utils.js:30-34 | One variant layer is removed and the fully peeled value is unchanged; a non-variant is returned as it is |
| Utils.PeeledIdempotent | utils.js:36-40 | Peeling every variant layer is idempotent and leaves a non-variant unchanged |
| Utils.Vunpack | utils.js:36-40 | The loop returns the value with every variant layer removed, never a variant |
| Utils.PassesAreScan | utils.js:46-49 | The three replace passes (pairs to Nul, drop underscores, Nul to underscore) equal a single left-to-right scan in which each non-overlapping `__` yields `_` and every other `_` is dropped |
| Utils.StripMnemonicIsScan | utils.js:42-50 | `stripMnemonic`, the empty-label case included, equals the one-scan reading on every label |
| Utils.ScanNeverLonger | utils.js:46-49 | The scan never lengthens its input |
| Utils.ScanIdentity | utils.js:46-49 | The scan leaves a label with no `_` and no Nul unchanged |
| Utils.StripMnemonicBounds | utils.js:42-50 | Stripping never lengthens a label and is the identity on labels without `_` or Nul |
| Utils.StripDoubledExample | utils.js:46-49 | `"a__b"` strips to `"a_b"` |
| Utils.StripSingleExample | utils.js:46-49 | `"a_b"` strips to `"ab"` |
| Utils.StripTripleExample | utils.js:46-49 | `"___"` strips to `"_"`: pairs are taken left to right |
| Utils.StripQuitExample | utils.js:46-49 | `"__Quit"` strips to `"_Quit"` |
| Utils.StripMnemonicEdgeCases | utils.js:45-49 | A lone `_` strips to `""`, and a Nul already in the label comes out as `_` |
| Utils.BestPixmapForSize | utils.js:52-87 | Nothing for a missing list; for a list, nothing exactly when no candidate is usable (zero width or height, no bytes, or row stride below 4*w); otherwise the usable candidate of minimal score `(maxDim < target ? 100000 : 0) + \|maxDim - target\|`, the earliest on a tie, with a positive size and `rowStride == len / h >= 4*w` |
| Utils.BestIsUnique | utils.js:80-83 | The choice rule (minimal score, strict `<` so ties go to the earliest) determines a single index |
| Utils.OversizedBeatsUndersized | utils.js:76-83 | If some usable candidate has `target <= maxDim < target + 100001`, the pick is not undersized |
| Seqs.IndexOf | host.js:116 | `indexOf`: -1 exactly when the element is absent; otherwise a position holding it with no earlier occurrence |
| Seqs.RemoveFirst | host.js:116-118 | The guarded `splice` drops the first occurrence of the element and leaves the array unchanged when it is absent |
| Seqs.RemoveFirstNoDup | host.js:113-118 | On a duplicate-free array, removal keeps it duplicate-free, the removed element is gone, and every other element stays |
| Host.CeilDiv | host.js:80 | `Math.ceil(a / b)`: the least `q` with `q*b >= a` |
| Host.PopupGeometry | host.js:76-100 | Columns lie in 1..4, with at least one row; `cols*rows` covers `max(count, 1)` with no empty trailing row; up to four buttons fit in a single row; `gridW = cols*cell + (cols-1)*6`, `gridH` likewise; the popup is `2*8 + gridW + 2` by `2*8 + gridH + 10` |
| Host.PopupGrowsWithCount | host.js:77-89 | Adding a button never shrinks the popup, in either dimension |
| Host.Chunks | host.js:57-71 | The rows number `ceil(count / 4)` |
| Host.ChunksAt | host.js:57-71 | Row `i` holds exactly the buttons at positions `4i .. 4i+3` (fewer in the last row), in list order, and is never empty |
| Host.ChunksAppend | host.js:61-70 | Placing the next button opens a new row at an index divisible by 4 and otherwise extends the last row |
| Host.RowsMatchGeometry | host.js:57-80 | For a non-empty list, the number of rows laid out equals the row count the popup is sized for |
| Host.PopupGridHost.constructor | host.js:24-41 | A new host has no buttons and no rows, and is sized for one empty cell |
| Host.PopupGridHost.SyncPopupSize | host.js:76-100 | The applied geometry is the one for the current button count |
| Host.PopupGridHost.RebuildRows | host.js:52-74 | The loop leaves the rows box holding the button list split into rows of four, and re-syncs the size |
| Host.PopupGridHost.AddButton | host.js:102-111 | A missing button changes nothing. A present button is not added twice; a new one is appended. The list stays duplicate-free, and rows and size follow it |
| Host.PopupGridHost.RemoveButton | host.js:113-124 | A missing button changes nothing. Otherwise the first occurrence is removed, the others keep their order, the button is gone, and rows and size follow the list |
| DbusMenu.PeeledSize | dbusMenu.js:130 | Unwrapping a child never makes it larger, so the tree walk terminates |
| DbusMenu.BuildNode | dbusMenu.js:144-161 | A surviving child becomes a separator iff its type is `separator`. It becomes a submenu iff it is not a separator and has raw children with type `submenu` or empty. Any other child becomes an action carrying its own id. The label is the placeholder-then-stripped text; the entry is sensitive iff `enabled` is not `false`. A submenu's entries are its children's build |
| DbusMenu.SurvivorsFilter | dbusMenu.js:129-142 | The children kept are exactly the visible ones, unwrapped, in order: the filter distributes over concatenation |
| DbusMenu.BuildItemsFollowsSurvivors | dbusMenu.js:127-176 | The built entries correspond one to one, in order, to the surviving children, each being `BuildNode` of its child. Hidden children vanish with their whole subtree |
| DbusMenu.SeparatorWins | dbusMenu.js:144-147 | A visible child typed `separator` builds to a separator whatever its label, enabled state or children |
| DbusMenu.LeafRules | dbusMenu.js:149-161 | An empty `submenu` and a `standard` child with children both build to a plain action with the child's id |
| DbusMenu.HiddenChildrenKeepSubmenu | dbusMenu.js:149 | A `submenu` whose only child is hidden still builds as a submenu, with no entries |
| DbusMenu.MarkerOnlyLabelShowsEmpty | dbusMenu.js:139-150 | A label that is only `_` is not replaced by the placeholder, and shows as `""` |
| DbusMenu.QuitScenario | dbusMenu.js:125-178 | A reply with a hidden separator and an enabled `__Quit` entry, every field in variants, builds a single sensitive action `_Quit` with id 2 |
| DbusMenu.Contains | dbusMenu.js:108 | `includes`: true exactly when the pattern occurs at some position |
| DbusMenu.ClassifyFailureRules | dbusMenu.js:106-122 | For every message: not supported exactly when it contains `UnknownMethod`, `doesn't exist` or `UnknownObject`; peer gone exactly when it contains none of those but `ServiceUnknown`, `NoReply` or `disconnected`; any other message is another failure |
| DbusMenu.ClassifyFailureExamples | dbusMenu.js:105-122 | The checks apply in source order: `UnknownMethod` means not supported, and so does `UnknownObject` combined with `NoReply`; `NoReply` alone means the peer is gone; an empty message is another failure |
| DbusMenu.MinimalDbusMenu.constructor | dbusMenu.js:11-26 | A new client has no proxy and no menu, and is neither destroyed nor unsupported, with nothing pending |
| DbusMenu.MinimalDbusMenu.Destroy | dbusMenu.js:181-204 | A second call changes nothing. The first marks the client destroyed, cancels the tracked idle rebuild, and clears the proxy and the menu, leaving the unsupported flag alone |
| DbusMenu.MinimalDbusMenu.Rebuild | dbusMenu.js:88-179 | The call does nothing when destroyed, without a menu or proxy, or while the menu is open. Otherwise it sends the fixed `GetLayout(0, -1, [label, enabled, visible, type])`. A reply is built into the menu. Every failure destroys the client, and it is marked unsupported exactly when the message classifies as not supported |
| DbusMenu.MinimalDbusMenu.Open | dbusMenu.js:32-86 | The call does nothing when destroyed or unsupported. A menu already open stays open, with no fetch and nothing else changed. Otherwise the call creates what is missing and rebuilds. After a reply the menu is open and holds the built layout, with the pending mark unchanged. After a failure the client is destroyed, with no menu, proxy or pending rebuild, and the unsupported flag as classified; no menu is opened. Queued untracked rebuilds are never touched |
| DbusMenu.MinimalDbusMenu.OnLayoutUpdated | dbusMenu.js:39-47 | The signal is ignored once destroyed or unsupported, and while a rebuild is pending; otherwise it only marks a rebuild as pending, so at most one is pending |
| DbusMenu.MinimalDbusMenu.OnIdleRebuild | dbusMenu.js:46-68 | The pending mark is cleared. An open menu is closed and kept, and one untracked rebuild is queued, with no fetch. Otherwise nothing more is queued. Without a menu nothing else changes and the menu stays absent. A closed menu is rebuilt now, with `Rebuild`'s outcome: after a reply it holds the built layout and stays closed, with the client alive; after a failure the client is destroyed and classified |
| DbusMenu.MinimalDbusMenu.OnDeferredRebuild | dbusMenu.js:56-61 | One queued rebuild is consumed. If the client was destroyed or marked unsupported meanwhile, or `_rebuild`'s own guards hold, nothing else changes. Otherwise the call fetches, with `Rebuild`'s outcome: the built layout after a reply; after a failure the client is destroyed and classified |
| DbusMenu.MinimalDbusMenu.CloseMenu | dbusMenu.js:52-54 | Dismissing the popup leaves the menu closed and the client consistent |
| DbusMenu.MinimalDbusMenu.ActivateItem | dbusMenu.js:162-173 | Activating an entry sends `Event(id, "clicked", v(v("")), 0)` with the entry's own id. Without a proxy or an id, the failure is swallowed and nothing is sent |
| SniItem.TooltipFor | sniItemButton.js:128 | The tooltip is at most 80 characters: the safe text of a non-empty string title, otherwise that of `busName + objPath` |
| SniItem.SniItemButton.constructor | sniItemButton.js:10-48 | The three flags start false, with no menu path and an empty tooltip. The icon is `dialog-information-symbolic`, with no temp file and no menu client |
| SniItem.SniItemButton.OnClicked | sniItemButton.js:50-53 | A click calls `Activate` at the pointer, truncated to 32 bits, unless the button is destroyed |
| SniItem.SniItemButton.OnButtonPress | sniItemButton.js:55-88 | A non-secondary press, or any press after destroy, propagates and changes nothing. A right press always stops. With an object-path menu and the item not recorded as unsupported, the press is swallowed while an open is running. Otherwise it reuses the attached client or creates a fresh, idle one for this address and path, and starts the open. In every other case it calls `ContextMenu` at the pointer. The sticky flag, menu path, tooltip, icon, temp file and destroyed state never change |
| SniItem.SniItemButton.OnMenuOpenSettled | sniItemButton.js:73-80 | The open runs to completion with its reply and the guard is cleared. A client that is unsupported afterwards (through this open or an earlier idle rebuild) sets the sticky flag and is dropped. Any other client, destroyed or not, is kept. The client's own outcome is that of `Open`: a destroyed client is left as it was, and a live client whose menu is already open is left as it was too. Its queued rebuilds are untouched. Tooltip, icon, temp file and destroyed state are unchanged |
| SniItem.SniItemButton.OnMenuOpenSettledDroppingDead | sniItemButton.js:73-80 | The corrected settle step: like the one above, but a client that ended destroyed is also dropped, so a kept client is never destroyed. It has the same frame |
| SniItem.SniItemButton.RefreshFromProperties | sniItemButton.js:100-169 | A failed `GetAll` changes nothing and logs only on the initial fetch. Otherwise the menu path is read. Once destroyed, nothing else changes. Otherwise the tooltip follows `TooltipFor`. The icon is the themed name if present, else the converted pixmap (deleting the previous temp file first), else `image-missing-symbolic` |
| SniItem.SniItemButton.Destroy | sniItemButton.js:190-223 | A second call changes nothing. The first drops the actor, deletes the temp file, and destroys and drops the menu client; the client keeps its unsupported flag and its calls. The open guard, tooltip and icon are unchanged, so an open still under way settles afterwards against no client |
| SniItem.TransientFailureSilencesButton | sniItemButton.js:60-80 | As written: after a first open that fails with `NoReply`, a second right press stops, fetches only once, and neither shows a menu nor calls `ContextMenu` |
| SniItem.TransientFailureRetried | sniItemButton.js:60-80 | With the corrected settle step, the second right press opens a fresh client and shows the menu |
| SniItem.IdleFailureThenFallBack | sniItemButton.js:60-80 | A menu is shown once; then its own LayoutUpdated leads to an idle rebuild that fails with `UnknownMethod`, leaving an unsupported client attached. The next right press is swallowed, and its settle step records the item as unsupported. The press after that calls `ContextMenu(10, 20)`; there were two fetches in all |
| SniItem.DestroyDuringOpen | sniItemButton.js:72-80 | The button is destroyed while an open is under way. The open's `finally` block still runs afterwards, releases the open guard and finds no client, and nothing is sent to the item |
| SniItem.UnsupportedMenuFallsBack | sniItemButton.js:60-87 | After a first open that fails with `UnknownMethod`, the second right press goes to `ContextMenu(10, 20)` |
| Watcher.DeriveTarget | watcher.js:82-89 | A service starting with `/` names the path, at the caller's address; any other service names the address, with the default path |
| Watcher.RejectedExactly | watcher.js:83-94 | With a non-empty default path, a registration is refused exactly when the service is empty, or when it is a path and the caller has no name |
| Watcher.RegisteredItems | watcher.js:37-39 | One string per entry, in insertion order: `busName + objPath`, with no separator |
| Watcher.Kept | watcher.js:72-75 | The entries that survive a departure are never more than the entries before it |
| Watcher.KeptMembers | watcher.js:72-75 | An entry survives the departure of `name` exactly when neither its address nor its registrant is `name` |
| Watcher.KeptSnoc | watcher.js:72-75 | Filtering one more entry extends the survivors by that entry or by nothing |
| Watcher.SweepEventsCount | watcher.js:55-75 | A departure emits two events for each removed entry (its button destroyed, then one items-changed) and none for the others |
| Watcher.DestroyedAll | watcher.js:149-151 | One button destruction per entry, in order |
| Watcher.StatusNotifierWatcherMinimal.constructor | watcher.js:8-35 | A new watcher is exported, has requested its well-known name and is subscribed to NameOwnerChanged, with an empty registry |
| Watcher.StatusNotifierWatcherMinimal.RemoveItemByKey | watcher.js:55-65 | An unknown key changes nothing. Otherwise the entry's button leaves the popup and is destroyed, only that entry is deleted, and the new list is announced. Keys stay unique |
| Watcher.StatusNotifierWatcherMinimal.OnNameOwnerChanged | watcher.js:67-76 | A non-empty new owner changes nothing. An empty one removes exactly the entries whose address or registrant is the name, keeps the others in order, and emits per removal a destroyed button and an items-changed |
| Watcher.StatusNotifierWatcherMinimal.VisitEntry | watcher.js:73-74 | One step of the loop over the entries taken at the start: the matching entry is removed, and any other is kept |
| Watcher.StatusNotifierWatcherMinimal.RegisterStatusNotifierItem | watcher.js:78-126 | An invalid derivation replies with `ValueError` / "Invalid registration" and changes nothing. A known key replies success and changes nothing. A new key appends one entry with the caller as registrant and hands a new button to the popup, then emits started, `ItemRegistered(busName)` and items-changed before replying success. Keys stay unique |
| Watcher.StatusNotifierWatcherMinimal.RegisterStatusNotifierHost | watcher.js:128-130 | Only acknowledges |
| Watcher.StatusNotifierWatcherMinimal.StatusNotifierItemUnregistered | watcher.js:132-134 | Only acknowledges |
| Watcher.StatusNotifierWatcherMinimal.Destroy | watcher.js:136-153 | The watcher stops exporting, withdraws its name request and stops listening, destroys every item's button in order, and leaves the registry empty |
| Watcher.ExampleRegistration | watcher.js:78-119 | Registering `/org/ExampleItem` from `:1.42` succeeds and lists `:1.42/org/ExampleItem` |
| Watcher.ExampleListing | watcher.js:37-39 | The listing of that entry is `:1.42/org/ExampleItem` |
| Watcher.ExampleExit | watcher.js:67-76 | When `:1.42` leaves the bus, its item is no longer listed and its button leaves the popup |

## Left out

- The session bus itself: calls, exported objects, name ownership, signal subscription and emission. Replies are inputs, and what is sent or emitted is a recorded sequence.
- St, Clutter and PopupMenu actors: creation, parenting, styling, `set_size`, relayout, and the panel icon's open/closed arrow. The popup holds opaque handles and the menu is a tree of entries.
- `_applyCellSize` and the settings connection (sniItemButton.js:33-36, 91-94). The popup's cell size is a parameter.
- Icon theme lookup and `append_search_path` for `IconThemePath` (sniItemButton.js:131-148). Whether the theme knows the name is an input.
- `pickBestPixmap` and `pixmapToFileIcon` (sniItemButton.js:151-164) are not defined in utils.js. Whether a pixmap was picked, and the converted file if any, are inputs. They are not equated with `Utils.BestPixmapForSize`.
- `readTextFile`, `getTheme` and `bytesToGBytes` (utils.js:4-14, 26-28, 89-91): file I/O and foreign calls.
- prefs.js (the preferences window) and extension.js (enable/disable wiring, stylesheet and interface loading).
- constants.js is not part of this model. `DEFAULT_ITEM_OBJECT_PATH` and `CELL_SIZE` are parameters.
- Interleavings at `await` points and idle callbacks. Each asynchronous step is one atomic method, and a destroy that lands mid-step is modelled only as an earlier or later step.
- Utils.BestPixmapForSize: dimensions are non-negative integers, so the `| 0` truncation of huge or negative widths and heights, and `Object.values` on a non-array, are not modelled.
- SniItem.TooltipFor: a truthy `Title` that is not a string (a number, say) is treated as absent. The source would hand it to `safeText`.
- DbusMenu.TextOf: JavaScript's `toString()` of a compound value (a layout node used as a label or type) is not modelled; such a value reads as the fixed text `[object]`.
- Watcher.StatusNotifierWatcherMinimal.RegisterStatusNotifierItem: the outer `try/catch` (watcher.js:120-125) only matters when something throws. Nothing in the modelled steps throws, so the `JSError.Error` reply is not modelled.
- The watcher's buttons are handles. What a button does once created (`init`, refresh, presses) is modelled by `SniItem.SniItemButton` alone, not per entry.
- Watcher.StatusNotifierWatcherMinimal.Destroy: the popup grid is left as it was, as in the source, which never calls `removeButton` there.
- Utils.SafeText: lengths count Unicode scalar values, while JavaScript's `length` and `slice` count UTF-16 code units. A title with characters outside the Basic Multilingual Plane is cut at a different place, or kept whole where the source cuts it. The source's cut can split a surrogate pair, which the model cannot express.
- SniItem.TooltipFor: the same counting applies, so the 80-character bound is in scalar values and can exceed 80 UTF-16 units.
- DbusMenu.BuildItems: a child that is not a layout node (a bare string, say) is built as an action with no id. The source indexes into such a value as if it were a triple, which can yield a submenu made of its characters.
- Logging (`log`, `logError`) is not recorded, apart from the initial-fetch flag of a failed refresh.

## Findings

| source | as written | input that shows it | evidently intended | confidence | as-written member | corrected member |
|---|---|---|---|---|---|---|
| sniItemButton.js:73-80 | After an open settles, only a client marked unsupported is dropped. A client that `_rebuild` destroyed after a transient failure (`NoReply`, `ServiceUnknown`, `disconnected`, or any other non-"unsupported" error) is kept, and its `open()` returns at once from then on (dbusMenu.js:33-34). The same dead client arises when a LayoutUpdated-triggered rebuild fails | an item with menu path `/MenuBar`; the first right press's `GetLayout` fails with `NoReply`; on the second right press no fetch is made, no menu is shown, and no `ContextMenu` is sent, while the press is still swallowed | drop the dead client as well, so that the next press creates a fresh one and retries | medium, not executed | SniItem.TransientFailureSilencesButton | SniItem.TransientFailureRetried |
