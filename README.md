# ct-net-tester, modelled in Dafny

The c't Net-Tester is a full-screen kiosk program for a small touch display. It shows:
- the addresses of the selected wired or wireless network interface;
- the result of a wifi scan;
- a reachability check of configured remotes;
- the output of a configured custom command.

A titlebar button opens a 3 x 2 menu. With the menu closed, the upper and lower halves of the textbox scroll the text one page up or down.

This project models the three core files in Dafny:

- **gui.py**: modelled in `geometry.dfy`, `paging.dfy` and `gui.dfy`.
  - `calculate_sizes` becomes `Geometry.ComputeLayout`, stored by `Gui.Gui.CalculateSizes`.
  - The bounds `render_menu` writes come from `Geometry.MenuButtonBounds`, and the loop is `Gui.Gui.RenderMenu`.
  - The bounds `render_titlebar` writes come from `Gui.TitlebarBounds`, with the pen advancing by 1.1 label widths (`Gui.TitlebarPenX`). The loop is `Gui.PlaceTitlebarButtons`.
  - `render_textbox` becomes `TextPaging.RenderPage`, a list of `Draw` records saying which logical line, glyph or wrap marker lands where. The method `Gui.Gui.RenderTextbox` (with `Gui.DrawWrapped`) runs the source's loops and is proved to compute that list.
  - The page cursor is covered by `scroll_textbox` / `set_text`.
  - Also modelled: the colour parser and the display-size parse.
- **net.py**: modelled in `net.dfy`.
  - The interface lists and their rotation.
  - The interface information text, read from a snapshot of the netifaces tables.
  - The wifi-scan text.
  - The workers of the reachability check, the custom command and the wifi scanner.
  - Every call into pyric, getmac, netifaces, the resolver, ping or subprocess is a function parameter (an oracle) or a snapshot value.
- **ct-net-tester.py**: modelled in `nettester.dfy`.
  - The controller: `_running`, the three "in progress" flags, event dispatch through the button lists, and the commands.
  - Each wait loop runs over a given sequence of `Tick`s. A `Tick` holds what the poll returned and whether the nested event step processed a tap on the titlebar menu button.
- `strings.dfy` holds the Python string operations the three files share: `str.split`, `int()`, `str()`, `list.index`.

Source quirks the model keeps, with the lemmas that state them:
- `pages` is the floor of lines over rows per page. It is the highest page index the cursor may take. Every line's page index is at most `pages`; for text with no wrapped line, that page draws it (`TextPaging.PageOfShortLines`). When the line count is an exact multiple, the last page is empty (`TextPaging.LastPageEmptyOnExactFit`).
- The wrap counter is never reset, so a long line wraps at most once (`TextPaging.LongLineWrapsOnce`).
- A wrapped line can hide the following line from every page (`TextPaging.WrappedLineHidesNextLine`).
- A wrap on the last row skips the `==` stop test and draws below the page (`TextPaging.WrapOnLastRowOverflowsPage`).
- The titlebar button's `Rect` takes the pen position plus the label width as its width, not the label width (`Gui.TitlebarBoundsShape`).
- The menu-grid counter is never reset, so every button after the third sits on the second row (`Geometry.CursorAtClosedForm`).
- The display size uses the first comma field for both width and height (`Gui.DisplaySizeIgnoresHeight`).
- The menu starts open, although the source comment next to it says closed.
- The first `switch_to_wired` at start-up already rotates, so the second wired interface is shown first (`NetTester.FirstSwitchSelectsSecond`).
- After the custom command delivers, its own "in progress" flag stays set. The success branch clears the net-check flag instead (`NetTester.DeliveryClearsOwnFlag`).
- A card lookup that fails in the wifi scanner leaves the scan incomplete for good (`Net.Net.WifiScannerWorker`).

## Model

| member | source | states |
|---|---|---|
| Strings.Split | net.py:227 | `str.split` on one character yields one more field than there are separators, and no field contains the separator |
| Strings.JoinSplit | net.py:227 | joining the fields of a split with the separator gives back the input |
| Strings.SplitJoin | gui.py:423 | separator-free fields survive join-then-split unchanged |
| Strings.ParseInt | gui.py:426-428 | `int()` succeeds exactly on a non-empty run of ASCII digits with an optional `+` or `-` in front. The value is the decimal value of the digits, negated after `-`. `None` means the `ValueError` |
| Strings.ParseIntToString | gui.py:426-428 | `int(str(n)) == n` for every integer |
| Strings.NatToString | net.py:134 | `str(n)` of a natural number is a non-empty digit string |
| Strings.IndexOf | net.py:53 | `list.index` returns the first position holding the item |
| Geometry.Trunc | gui.py:103 | `int()` on a float truncates toward zero: the floor for non-negative values, the ceiling for negative ones (`x <= r < x + 1`) |
| Geometry.ComputeLayout | gui.py:99-134 | the titlebar and textbox heights sum to the display height. Both regions, and the menu, span the full width and start at (0, titlebar height). The paging zones are full width and half the textbox high, with Down starting where Up ends. The icon size is at most 200 and at most the button size. Three buttons and four paddings fit in the width |
| Geometry.MenuSizing | gui.py:128-129 | for a non-negative width the button size and padding are non-negative and 3 buttons plus 4 paddings fit |
| Geometry.PagingZonesInsideTextbox | gui.py:111-125 | both paging zones lie inside the textbox and do not overlap |
| Geometry.CursorAtClosedForm | gui.py:274-280 | the menu cursor before button k: buttons 0-2 on row `padding`, every later one on the single second row, since the counter is never reset |
| Geometry.MenuButtonBounds | gui.py:266-271 | button k's bounds are a square of the button size at its grid cell offset by the menu position, in closed form |
| Geometry.MenuButtonsDisjoint | gui.py:237-280 | with non-negative sizes no two menu buttons overlap |
| Geometry.DisjointNoCommonPoint | ct-net-tester.py:144 | no point hits two disjoint rectangles |
| Geometry.MenuGridInsideTextbox | gui.py:127-134 | when two rows fit in the textbox height, all six buttons lie inside the textbox |
| TextPaging.FloorDiv | gui.py:344-347 | `math.floor(a / b)` on integers: the floor bounds for both signs of the divisor |
| TextPaging.MetricsFor | gui.py:344-345 | characters per row and rows per page are the floors of the textbox size over glyph width and line height |
| TextPaging.LastPage | gui.py:347 | `pages` is the highest page index, the floor of lines over rows: `pages * rows <= lines < (pages + 1) * rows` |
| TextPaging.Scroll | gui.py:407-418 | with `pages >= 0` the result is in `[0, pages]`; up at 0 and down at `pages` stay put; otherwise up decrements and down increments |
| TextPaging.RenderPageSkipsEarlierLines | gui.py:350-359 | every line drawn on a page has index at least `rows * page` |
| TextPaging.LinesFromDrawsOnly | gui.py:356-396 | draws only name lines at or after the start line, and a line is drawn whole exactly when it is shorter than a row |
| TextPaging.WrapCharsIndices | gui.py:365-390 | the character loop draws only glyphs and markers of its own line |
| TextPaging.WrapCharsMarker | gui.py:365-390 | a line reaching `char_count_v - 1` characters gets glyphs, the marker after them and its mirror on the next row, and its remaining glyphs from one glyph width on that row. The row counter goes up by one |
| TextPaging.WrapCharsNoMarker | gui.py:365-373 | a line that does not reach the wrap column is a plain run of glyphs |
| TextPaging.LongLineWrapsOnce | gui.py:361-390 | a wrapped line carries exactly one marker (none when a row holds fewer than 2 characters) and uses one extra row |
| TextPaging.LinesFromShort | gui.py:391-402 | short lines are drawn one per row until the page is full or the text ends |
| TextPaging.LinesFromSkip | gui.py:358-359 | lines before the start line contribute nothing |
| TextPaging.PageOfShortLines | gui.py:350-402 | a page of short lines shows lines `rows * page` onward, one per row, as many as fit |
| TextPaging.EveryLineReachable | gui.py:347 | every line's page index lies within `[0, pages]` |
| TextPaging.LastPageEmptyOnExactFit | gui.py:347-350 | when the line count is a multiple of the page size, the page at `pages` is empty |
| TextPaging.EmptyText | gui.py:347-356 | empty text has `pages == 0` and draws nothing |
| TextPaging.WrapExampleFirstPage | gui.py:350-402 | in the hidden-line example, page 0 draws only line 0 |
| TextPaging.WrappedLineHidesNextLine | gui.py:350-402 | an example where a wrapped line hides the next line from every reachable page |
| TextPaging.WrapOnLastRowOverflowsPage | gui.py:375-402 | an example where a wrap on the last row skips the stop test, so the next line is drawn at row offset 3 of a two-row page |
| TextPaging.CountWrapSignsAppend | gui.py:374-379 | wrap markers of a concatenation add up |
| Gui.StringToColor | gui.py:421-431 | a colour exists exactly when the first three comma fields parse as integers in 0..255, and it is built from them |
| Gui.ColorRoundTrip | gui.py:421-431 | a valid colour written as "R,G,B" parses back to itself |
| Gui.SplitThree | gui.py:423 | three comma-free fields joined by commas split back into those fields |
| Gui.ParseDisplaySize | gui.py:16 | a size exists exactly when the first comma field parses. The width is that field's value and the height equals the width |
| Gui.DisplaySizeIgnoresHeight | gui.py:16 | "W,H" yields a W x W display whatever H is |
| Gui.Gui.constructor | gui.py:11-52 | fullscreen, menu open, empty lists, the layout of the granted surface, and the Up and Down paging buttons with the paging zones as bounds. The model attaches their page-up and page-down commands here (see Left out). Antialiasing is on exactly when the text font reaches 15 |
| Gui.Gui.CalculateSizes | gui.py:94-134 | the stored layout is `ComputeLayout` of the display size and the paging buttons get the two paging zones |
| Gui.Gui.CreateFonts | gui.py:136-142 | antialiasing is switched off below font size 15 and never back on |
| Gui.Gui.DisplayResize | gui.py:287-290 | the display takes the granted size, the layout is `ComputeLayout` of it, the two paging buttons keep label and command and get the paging zones as bounds, and antialiasing stays on only while the text font reaches 15 (`Valid` kept) |
| Gui.Gui.SetText | gui.py:329-332 | the content is replaced and the cursor returns to page 0 |
| Gui.Gui.ScrollTextbox | gui.py:407-418 | the cursor becomes `Scroll(page, up, pages)` |
| Gui.Gui.RenderMenu | gui.py:237-280 | every menu button keeps its label and command and gets `MenuButtonBounds` of its index |
| Gui.Gui.RenderTextbox | gui.py:335-404 | `pages` becomes `LastPage` and the draws are `RenderPage` of the text at the cursor; no row fitting is the `ZeroDivisionError` |
| Gui.DrawWrapped | gui.py:361-390 | the character loop computes `WrapChars` of the line |
| Gui.TitlebarPenNonNegative | gui.py:193-217 | with non-negative label widths the pen never moves left of 0 |
| Gui.TitlebarBoundsShape | gui.py:193-217 | titlebar button k's bounds start at the truncated pen position on row 0. The width is that position plus the label width, and the height is the label height plus twice the text offset |
| Gui.PlaceTitlebarButtons | gui.py:193-217 | every titlebar button keeps its label and command and gets `TitlebarBounds` of its index |
| Gui.Gui.RenderTitlebar | gui.py:193-217 | the stored titlebar buttons get `TitlebarBounds` for the current titlebar height |
| Gui.Gui.UpdateDisplay | gui.py:302-315 | the titlebar bounds are written first; then an open menu is laid out, otherwise the textbox page is |
| Net.ClassifiedMembers | net.py:35-42 | a name is in a list exactly when it is listed (not "lo", MAC not all-zero) and of that kind |
| Net.ClassifiedAppend | net.py:35-42 | classification keeps input order |
| Net.ClassifiedPartition | net.py:35-42 | every listed interface lands in exactly one of the two lists |
| Net.Padded | net.py:45-48 | an empty list becomes `["None"]`; a non-empty one is kept |
| Net.IterateInterface | net.py:51-67 | a missing `last` is the `ValueError`. A different `current` yields `last`. Otherwise the result is the entry after `last` modulo the length, always a member of the list |
| Net.NextIndex | net.py:61-64 | the reset to 0 at the list length is the successor modulo the length |
| Net.RotateStep | net.py:53-67 | on a list of distinct names one press moves from entry j to entry j+1 modulo the length |
| Net.RotateFrom | net.py:51-67 | a rotation at entry (i+k-1) modulo the length moves to entry (i+k) modulo the length with the next press |
| Net.RotationCycles | net.py:51-67 | k presses from entry i select entry (i+k) modulo the length, so every interface is reached |
| Net.DatasetLinesShape | net.py:96-116 | each address record adds exactly one blank line and at most three more lines |
| Net.InterfaceInfoShape | net.py:87-123 | on success the MAC line comes first with one blank line per IPv4/IPv6 record; any failure yields exactly the two "Not available:" lines |
| Net.WifiScanTextShape | net.py:126-141 | five lines per access point in list order, access point k owning lines 5k to 5k+4 |
| Net.CollectedFromUsableCards | net.py:150-177 | every collected access point came from a valid, not hard-blocked card |
| Net.NetCheckCounts | net.py:190-214 | one line per remote plus one per resolved hostname; remotes without an address are never pinged and the rest are pinged once |
| Net.NetCheckAppend | net.py:190-214 | remotes are reported independently and in order |
| Net.NetCheckSnoc | net.py:190-214 | one more remote appends exactly its own report |
| Net.NetCheckExample | net.py:190-214 | a reachable IPv4 literal and an unresolvable name give "erreichbar" and "Gegenstelle ungültig", with one ping |
| Net.CommandArgv | net.py:227 | the argument vector contains no spaces and joins back to the command |
| Net.CustomCommandText | net.py:226-237 | the output lines of a run that exits 0 and decodes, otherwise exactly the failure line |
| Net.Net.constructor | net.py:14-27 | the classified, padded lists; the first wired interface selected and remembered, the first wireless one remembered; no scan complete |
| Net.Net.GetInterfaces | net.py:30-48 | the lists become the old lists plus the classified interfaces, padded with the placeholder when empty |
| Net.Net.SwitchToWired | net.py:70-76 | current and last wired both become the rotated interface, and `Valid` is kept so no switch can raise |
| Net.Net.SwitchToWireless | net.py:78-84 | current and last wireless both become the rotated interface, and `Valid` is kept |
| Net.Net.GetInterfaceInfo | net.py:87-123 | the text is `InterfaceInfo` of the snapshot for the current interface |
| Net.AppendDatasets | net.py:97-116 | the record loop appends `DatasetLines` of the records |
| Net.Net.GetWifiScan | net.py:126-141 | `None` before the first complete scan, then `WifiScanText` of the access points |
| Net.Net.WifiScannerWorker | net.py:150-177 | the scan completes exactly when no card lookup fails, and then the access points are those collected from the usable cards |
| Net.Net.NetChecker | net.py:184-187 | the previous result is withdrawn |
| Net.Net.NetCheckerWorker | net.py:190-214 | the published result is `NetCheckText` and the pinged addresses are `PingTargets` |
| Net.Net.CustomCommand | net.py:220-223 | the previous result is withdrawn |
| Net.Net.CustomCommandWorker | net.py:226-237 | the published result is `CustomCommandText` |
| NetTester.FirstHit | ct-net-tester.py:141-146 | the first button in list order whose bounds contain the point; buttons without bounds never hit |
| NetTester.Fired | ct-net-tester.py:141-146 | at most one command runs per list, and one runs exactly when some button is hit |
| NetTester.CheckButtonclick | ct-net-tester.py:141-146 | the loop with `break` finds `FirstHit` |
| NetTester.FirstHitIsFirst | ct-net-tester.py:142-146 | the first hit index is unique |
| NetTester.WaitFrom | ct-net-tester.py:169-183 | a delivery is the first non-empty poll, a cancellation the first tap, with nothing before either; otherwise no tick delivers or taps |
| NetTester.OutcomeIgnoresLaterTicks | ct-net-tester.py:169-183 | once the wait has ended, later ticks do not change the outcome |
| NetTester.NeverDelivered | ct-net-tester.py:199-213 | polls that never deliver and no tap keep the controller waiting |
| NetTester.DeliveryClearsOwnFlag | ct-net-tester.py:229-236 | a delivered job's own flag ends false, except the custom command's, which stays as it was. The wifi flag is cleared only by a wifi delivery |
| NetTester.Started | ct-net-tester.py:165-167 | starting a job sets its own flag and no other |
| NetTester.MenuTapFiresToggle | ct-net-tester.py:129-130 | once rendered with a visible label, the titlebar menu button fires `ToggleMenu` for a tap at the origin |
| NetTester.FirstSwitchSelectsSecond | ct-net-tester.py:45 | the start-up switch selects the second wired interface (the first when there is one) |
| NetTester.Launched | ct-net-tester.py:187-197 | starting a waiting command sets its own flag and flips the menu; `running`, the power-off request, the textbox and the interface selection are untouched (`scan_wifi` and `custom_command` start the same way) |
| NetTester.Awaited | ct-net-tester.py:199-213 | a wait changes only the menu, the flags and the textbox. The menu flips back exactly when a tap cancels. The job's flag stays set exactly while it waits, or after a custom-command delivery. A delivery or a cancellation leaves the cursor on page 0 |
| NetTester.Switched | ct-net-tester.py:149-158 | the new interface is in its list and stays selectable; it is named in the titlebar and shown from page 0; `running`, the flags and the menu are untouched |
| NetTester.AfterCommand | ct-net-tester.py:145-266 | every command keeps the remembered interfaces in their lists, and only `Shutdown` stops the program and requests the power-off |
| NetTester.AfterClick | ct-net-tester.py:141-146 | a miss changes nothing, and the program stops exactly when the fired command is `Shutdown` |
| NetTester.AfterLeftClick | ct-net-tester.py:126-138 | a left click keeps the interfaces selectable and never restarts a stopped program |
| NetTester.Resized | gui.py:287-290 | the display takes the granted size, the layout is `ComputeLayout` of it and the paging buttons get its paging zones; the window size and fullscreen flag stay, and antialiasing never comes back on |
| NetTester.AfterEvent | ct-net-tester.py:103-138 | quit and Escape stop the program and change nothing else of the controller; only a resize and F11 change the display; another key, another event or a non-left button changes nothing; nothing restarts the program |
| NetTester.AfterEvents | ct-net-tester.py:105 | a batch keeps the state well-formed and never restarts a stopped program |
| NetTester.QuitInBatchStops | ct-net-tester.py:105-119 | a quit or Escape anywhere in a batch leaves the program stopped after the whole batch |
| NetTester.NetTester.WaitForJob | ct-net-tester.py:199-213 | the controller fields end as `Awaited` says; the display and the button lists are untouched |
| NetTester.NetTester.StartNetCheck | ct-net-tester.py:187-197 | titlebar "Netztest", the remotes split at commas, the old result withdrawn, and the controller fields as `Launched` says; nothing else touched |
| NetTester.NetTester.StartCustomCommand | ct-net-tester.py:217-227 | titlebar "Eigener Befehl", the configured command, the old result withdrawn, and the controller fields as `Launched` says; nothing else touched |
| NetTester.NetTester.ResizeWindow | ct-net-tester.py:111-113 | the window size is stored and the display becomes `Resized` on the granted surface; the controller fields and the button lists stay |
| NetTester.NetTester.ToggleFullscreen | ct-net-tester.py:121-123 | fullscreen flips and the display becomes `Resized` on the granted surface; the controller fields and the button lists stay |
| NetTester.NetTester.constructor | ct-net-tester.py:30-46 | running, menu open, the titlebar and six menu buttons, the second wired interface shown with its address text |
| NetTester.NetTester.PopulateAndSelect | ct-net-tester.py:42-46 | the buttons are appended and the start-up switch selects the second wired interface, which is named and shown |
| NetTester.NetTester.CreateButtons | ct-net-tester.py:49-91 | the titlebar menu button and the six menu buttons are appended in order |
| NetTester.NetTester.ToggleMenu | ct-net-tester.py:255-260 | the menu flips and all three flags are false. Nothing else of the controller, the display or the button lists changes |
| NetTester.NetTester.Shutdown | ct-net-tester.py:263-266 | the goodbye text, the power-off request, and `running` false. Nothing else of the controller, the display or the button lists changes |
| NetTester.NetTester.PageUp | ct-net-tester.py:251-252 | the cursor scrolls up (decrement, clamp). Nothing else of the controller, the display or the button lists changes |
| NetTester.NetTester.PageDown | ct-net-tester.py:247-248 | the cursor scrolls down (increment, clamp). Nothing else of the controller, the display or the button lists changes |
| NetTester.NetTester.SwitchToWired | ct-net-tester.py:155-158 | the rotated wired interface becomes current and last wired, is named in the titlebar, and its info text is shown from page 0. Nothing else of the controller, the display or the button lists changes |
| NetTester.NetTester.SwitchToWireless | ct-net-tester.py:149-152 | the rotated wireless interface becomes current and last wireless, is named in the titlebar, and its info text is shown from page 0. Nothing else of the controller, the display or the button lists changes |
| NetTester.NetTester.AwaitResult | ct-net-tester.py:169-183 | delivered: the result is shown, the menu is unchanged and the flags are as `ClearedOnDelivery`. Cancelled: the waiting notice, the menu flipped, all flags false. Still waiting: the notice once a tick has passed, flags unchanged |
| NetTester.NetTester.ScanWifi | ct-net-tester.py:161-184 | titlebar "WiFi-Scan", and the controller fields end as `Awaited` says after `Launched` of the wifi job. So the menu flips once by the toggle and back only on a tap, the scan text is shown on delivery, and only the wifi flag stays set while waiting. The display and the button lists are untouched |
| NetTester.NetTester.CheckNet | ct-net-tester.py:187-214 | titlebar "Netztest", the configured remotes split at commas, the old result withdrawn, and the controller fields as `Awaited` after `Launched` of the net-check job: the report on delivery with all flags false, the waiting notice and the menu back on a tap. The display and the button lists are untouched |
| NetTester.NetTester.CustomCommand | ct-net-tester.py:217-244 | titlebar "Eigener Befehl", the configured command passed on, the old result withdrawn, and the controller fields as `Awaited` after `Launched` of the custom-command job: on delivery the output with the custom-command flag still set, on a tap the waiting notice and the menu back. The display and the button lists are untouched |
| NetTester.NetTester.Run | ct-net-tester.py:145 | the controller fields become `AfterCommand` of the bound command, field by field; the display and the button lists are untouched. So the program stops exactly when the command is `Shutdown`, and the invariants are kept |
| NetTester.NetTester.ClickList | ct-net-tester.py:129-138 | the commands run are `Fired` of the list, and the controller fields become `AfterClick`: a miss changes nothing, a hit has its command's full `AfterCommand` effect. The display and the button lists are untouched |
| NetTester.NetTester.ClickTitlebar | ct-net-tester.py:129-130 | the titlebar list is checked as `ClickList` does it: `AfterClick` of the titlebar list, nothing else touched |
| NetTester.NetTester.ClickMenuOrPaging | ct-net-tester.py:133-138 | `AfterClick` of the menu list when the menu is open at that moment, of the paging list otherwise; nothing else touched |
| NetTester.NetTester.LeftClick | ct-net-tester.py:126-138 | the controller fields become `AfterLeftClick`: the titlebar list first, then the menu or paging list chosen by the menu state after the titlebar command. That state is the one before the click when the titlebar fired nothing, and its negation when it fired the toggle. The display and the button lists are untouched |
| NetTester.NetTester.ProcessEvent | ct-net-tester.py:103-138 | the state becomes `AfterEvent` of the event: quit and Escape change only `running`; a resize and F11 change only the display; a left release dispatches as `LeftClick`; every other event changes nothing. The button lists stay, and nothing sets `running` |
| NetTester.NetTester.ProcessEvents | ct-net-tester.py:103-138 | the state becomes `AfterEvents` of the batch, the button lists stay, and any quit or Escape in the batch stops the program for good |
| NetTester.NetTester.Loop | ct-net-tester.py:94-100 | the state after the events is `AfterEvents` of the batch. Then the titlebar bounds are written. An open menu gets `MenuButtonBounds` and the menu frame. A closed one sets `pages` to `LastPage` and shows `RenderPage` at the cursor, or the failure when no row fits |

## Left out

- Drawing is left out: surfaces, fonts, blitting, the splash screen, the window icon, the frame clock and the clock in the titlebar. Glyph width and line height are positive inputs of `Gui.Gui.RenderTextbox`.
- Label sizes are an input: `Gui.Gui.RenderTitlebar` and `Gui.Gui.UpdateDisplay` take the rendered size of each label as a function `textSize`. `pygame.Rect` truncates float coordinates, and the model writes that truncation out.
- Geometry.ComputeLayout: the float factors (`/ 20 * scale_correction`, `0.8`, `1.5`, `0.9`) are exact reals, not IEEE doubles. So is the `* 1.1` by which `Gui.TitlebarPenX` advances the pen.
- Strings.ParseInt: the whitespace and digit underscores that Python's `int()` also accepts are not modelled. Neither are non-ASCII Unicode decimal digits, such as fullwidth `１２`, which Python's `int()` also accepts.
- Gui.Gui.constructor: takes colours that are already parsed and the surface size the display grants. A failing parse at start-up is the `None` of `Gui.StringToColor` / `Gui.ParseDisplaySize`. A display that cannot be opened (the program exits) is not modelled.
- Gui.Gui.RenderTextbox: when no row fits, the source's `ZeroDivisionError` ends the program. The model returns `TextboxFailed`, and `NetTester.NetTester.Loop` goes on to the next turn instead of terminating.
- Gui.Gui.constructor: the paging buttons carry their page-up and page-down commands from the start. In the source they begin as label-only dicts (gui.py:40-47), and `create_buttons` binds the commands (ct-net-tester.py:90-91); no click can reach them in between.
- Gui.Gui.RenderTextbox: `self.pages` does not exist before the first textbox render, so a page click before it raises `AttributeError`. The model starts `pages` at 0.
- Threads are left out: `threading.Thread`, `start`, `join(30)`, and the race in `net.__init__`, where a scanner finishing before `first_scan_complete = False` is overwritten. The worker bodies are sequential methods.
- NetTester.NetTester.AwaitResult: the polls are given, so the model does not link them to what the worker methods publish.
- NetTester.NetTester.AwaitResult: Python waits without bound; the model observes a finite sequence of ticks.
- NetTester.NetTester.AwaitResult: the nested `self.loop()` is reduced to "a tap on the titlebar menu button". Other events during a wait are not modelled: quit, resize, paging, a click that starts a nested command. The display refresh inside the wait is not modelled either.
- The radio set-up of the wifi scanner (unblock, up, power-save) is left out, since its failures are swallowed. So are exceptions from `iswireless` and from the access-point scanner.
- `net_helper.py` (address tests, resolver, ping) and `subprocess` become oracles. `sudo poweroff` becomes the `poweroffRequested` flag.
- `switch_to_wired` / `switch_to_wireless` in net.py also call `get_interface_info` and discard the result. That call changes no state and is omitted.
- `config.py` (file reading) is not part of this model: the controller takes a `Config` value.
- `cleanup`, `execute` and `quit` are left out; `NetTester.NetTester.Loop` models one turn of the main loop.
