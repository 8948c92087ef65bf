# Bustaferl, verified model

Bustaferl is e-paper firmware: an ESP32 wakes, fetches departures, draws a 400 x 300
board, refreshes as little of the panel as it can, and sleeps. This project models the
parts of it that carry state or arithmetic and proves what they are for.

* **The glass** (`Push`, `Cycle`, `GlassRuns`, `PanelRam`, `Overlay`, `Screens`,
  `Refusals`, `Upkeep`, `Histories`, on `Display`, `Store`, `Rle`, `Planner`, `Raster`).
  The panel is an array of pixels, the store is the RTC memory with its run-length coded
  frame, the renderer and the update stamp are arbitrary functions. A device is a class
  whose cycles are methods; each is proved equal to a function on the device's value, and
  the theorems are about runs of those functions: the stored frame mirrors the glass, so
  the glass always shows the last screen the firmware decided on, under the stamp of the
  time it remembers, also on a panel that loses its RAM in deep sleep as long as no window
  is drawn on what it lost. The two overlays break this, and the project says, for every
  branch of every later cycle, exactly which pixels of them survive.
* **Routing, refresh counters, sessions** (`Routing`, `RefreshRuns`, `Sessions`). Which
  cycle a wake runs, over whole histories of resets, button presses, polls and power cuts;
  how many partial refreshes can follow one another; and what the first refresh of a
  waking session is.
* **The chunked decoder** (`Chunked`), the inverse of the chunked transfer coding of
  section 7.1 of RFC 9112 for every way of chunking a body, and honest when cut short.
* **Departures** (`Slots`, `Merge`, `SleepPlan`, `WakeTarget`, `Hafas`, `Efa`): the
  bounded sorted merge, the two parsers that feed it and the sleep planner that consumes
  it, with the bound, from the replies and hints to the saved wake target, that no
  departure on offer is overslept; what the hints leave out is on the list below.
* **Fetching and rescue** (`Fetch`, `Rescue`): retries, batch accounting, the auth
  tripwire over histories, and the rescue loop under an arbitrary clock.
* **Integer algorithms** (`Civil`, `Canvas`, `Glyphs`, `FrameBuffer`): days from a civil
  date, Bresenham's line, glyph packing and drawing.

Code that changes things step by step is imperative here too, on arrays and class fields,
and is proved against a function; what the function is worth is proved in lemmas. Times
and coordinates are mathematical integers; `uint8_t` and `uint16_t` counters, run bytes
and unsigned spans keep their widths. Replies, clock readings, schedules and error screens
are inputs; the merge, the screen and the sleep plan are computed, as in the source. A cycle
is one atomic step.

Where the code falls short of what its comments intend, it is modelled as it is, with the
exact condition and a concrete case: a reset notice can stay on the glass
(`Overlay.SetupOutcome`, `Histories.NoticeStaysUp`), and so can a diagnostic page
(`Overlay.DiagPollOutcome`, `Histories.PageStaysUp`); a button press inside the cold retry
loop leaves the next wake booting although the board is up (`Routing.SettledAfterIff`,
`Routing.PressStrandsTheBoot`, `Histories.StrandingWakes`); the first refresh after deep
sleep can be a partial one (`Sessions.FirstRefreshIsPartialIff`,
`Sessions.PartialOnUntrustedRam`), with noise around it
(`PanelRam.BlindWindowShowsNoise`); the hints for today are the last two departures before
the cutoff, not the next two (`Efa.NextTodayIff`), so one can be overslept
(`Efa.LeftOutIsOverslept`, `Efa.SuchAnEveningExists`); the empty-box fallback of the
planner is dead only for widths divisible by eight (`Planner.PlanMeaning`,
`Planner.RaggedPanelMissesAChange`); a chunk size of more than eleven characters, or past
32 bits, is misread (`Chunked.SizeIsReadIff`, `Chunked.TwelveDigitSize`); a long WiFi
outage looks like clock drift (`WakeTarget.OutageLooksLikeDrift`,
`WakeTarget.OutageFromPowerOn`, `WakeTarget.OutageFromThePollingPhase`); the no-network
screen is painted twice in a row when its counter wraps (`Routing.RepaintsTwiceIff`,
`Routing.WrapPaintsTwice`).

`dafny verify dfyconfig.toml` checks everything.

## Model

| member | source | states |
|---|---|---|
| `Push.PushKeepsMirror` | src/logic/cycle_runner.cpp:105-157 | From a mirrored store, one renderAndPush leaves exactly the final frame on the glass, whether the decision was none, partial or full, and the store mirrors the glass again, even if the save overflowed |
| `Push.PushStamps` | src/logic/cycle_runner.cpp:114-151 | With a stamp that overwrites: the glass shows the rendered picture under the stamp of the time in the metadata; that time is this push's exactly if it was forced or no valid stored frame equals the picture under the old stamp, else it is the old time and the glass is unchanged |
| `Push.PushAgainIsQuiet` | src/logic/cycle_runner.cpp:114-138 | The same picture pushed again, unforced, at any time, changes nothing: glass, counters, store |
| `Push.PushStores` | src/logic/cycle_runner.cpp:153-156 | After a push both copies of the validity flag say whether its frame fitted, and the next push finds exactly that frame |
| `Push.NoFrameMeansFull` | src/logic/cycle_runner.cpp:129-138 | Without a frame that RAM and RTC memory call valid the next push redraws everything |
| `Push.RefreshShowsFrame` | src/logic/display_apply.cpp:5-26 | Whatever is planned against the stored frame, carrying it out makes the glass show the new frame |
| `Push.NoneIffUnchanged` | src/logic/refresh_planner.cpp:52-79 | On the 400 x 300 panel: no refresh iff a valid stored frame is unchanged; partial iff it changed, RAM is trusted and neither trigger is due; never a deep clean |
| `Push.PlannedWindow` | src/logic/refresh_planner.cpp:74-79 | A planned partial window is byte-aligned and lies on the panel |
| `Push.SavedMirrors` | src/hal/Esp32PersistentStore.cpp:82-94 | A store just saved with the frame on the glass mirrors it, fitting or not |
| `Push.Device.constructor` | src/logic/cycle_runner.h:103-119 | A device starts with empty RTC memory and fresh metadata |
| `Push.Device.ApplyDisplayDecision` | src/logic/display_apply.cpp:5-26 | The glass and the three counters change as decided, nothing else does; the 16-bit counter wraps |
| `Push.Device.LoadPrev` | src/logic/cycle_runner.cpp:129-133 | The stored frame is loaded iff RAM and RTC memory call it valid and it decodes to a whole frame |
| `Push.Device.PlanCurrent` | src/logic/cycle_runner.cpp:135-138 | Plans for the current frame against the loaded one |
| `Push.Device.ApplyAndSave` | src/logic/cycle_runner.cpp:153-156 | Refreshes, saves, and takes the validity flag from the save |
| `Push.Device.RenderAndPush` | src/logic/cycle_runner.cpp:105-157 | The whole device state after a push, with both stamping paths: old stamp first and restamped if something will be drawn, or forced at once |
| `GlassRuns.GlassShowsLastScreen` | src/logic/cycle_runner.cpp:105-1007 | Over every run of set-ups, polls and power cuts without an overlay, from a mirrored device, the glass shows exactly the last screen the firmware decided on, and the mirror holds throughout (for windows drawn on RAM that is faithful; PanelRam drops that assumption) |
| `PanelRam.EventPaints` | src/logic/cycle_runner.cpp:105-1007 | For every event the list of its panel writes, each with its frame, painted in order is the glass the event leaves |
| `PanelRam.RealIsPaint` | src/logic/refresh_planner.cpp:63-65 | A list of writes that does not start with a window on untrusted RAM paints on the real panel what it paints in the model, and RAM is trusted once written whole |
| `PanelRam.RealGlassIsGlass` | src/logic/refresh_planner.cpp:63-65 | With a panel whose RAM is lost at every reset, sleep and power cut: over every run in which no event starts with a window on untrusted RAM, the real glass is the modelled one, whatever noise is in that RAM |
| `PanelRam.RealGlassShowsLastScreen` | src/logic/cycle_runner.cpp:105-1007 | So without overlays and such windows the real glass shows exactly the last screen decided on |
| `PanelRam.BlindWindowShowsNoise` | src/logic/refresh_planner.cpp:63-65 | With such a window the noise shows at every pixel outside it |
| `GlassRuns.StepShows` | src/logic/cycle_runner.cpp:647-1007 | One event without an overlay leaves its own screen (or what was there) on the glass and keeps the mirror |
| `GlassRuns.ColdShows` | src/logic/cycle_runner.cpp:647-694 | A cold cycle ends with the board, the error screen if it is due, the boot screen, or the old picture, and mirrors from any state |
| `GlassRuns.UpdateShows` | src/logic/cycle_runner.cpp:774-789 | Nightly clean, push or neither: the glass shows the frame of the branch taken, and the mirror survives |
| `GlassRuns.RescueShows` | src/logic/cycle_runner.cpp:254-290 | A rescue changes the glass only when it succeeds, and then to its board |
| `GlassRuns.FinishShows` | src/logic/cycle_runner.cpp:760-814 | The warm tail with its rescue: the later screen wins |
| `GlassRuns.WarmShows` | src/logic/cycle_runner.cpp:819-893 | Every branch of the warm cycle (offline, wrong password, lost clock, normal) shows its screen and keeps the mirror |
| `GlassRuns.PressShows` | src/logic/cycle_runner.cpp:895-916 | A long press shows the stored frame, or the blank one, and keeps the mirror |
| `GlassRuns.FreshDeviceMirrors` | src/hal/Esp32PersistentStore.cpp:20-25 | A factory-fresh device qualifies, whatever its panel shows |
| `GlassRuns.OverflowForcesFull` | src/logic/cycle_runner.cpp:741-756 | After a nightly clean whose save overflowed the frame is called valid although the slot is empty; the next push finds no frame and draws in full |
| `Overlay.OverlayKeepsMirrorIff` | src/logic/cycle_runner.cpp:637-645 | Painting an overlay keeps the mirror iff no stored frame counts or the overlay is the stored frame |
| `Overlay.PushedPixel` | src/logic/cycle_runner.cpp:105-157 | After a push every pixel is the new frame's if a panel write covered it, and untouched otherwise, whatever the glass showed |
| `Overlay.UncoveredIsStored` | src/logic/refresh_planner.cpp:54-79 | A push leaves out only pixels in which the stored frame already agrees with the new one |
| `Overlay.PushOverOverlay` | src/logic/cycle_runner.cpp:135-153 | A push brings its frame up over an overlay iff the overlay agrees outside what the push writes: always for a full one, only if the overlay is the frame for none |
| `Overlay.WakePushCover` | src/logic/cycle_runner.cpp:135-138 | After deep sleep a push writes everything, or nothing exactly if the stored frame is the new one |
| `Overlay.WarmPixel` | src/logic/cycle_runner.cpp:760-893 | Every pixel after any warm cycle, in every branch, rescue included, over any picture: the screen's if some write covered it, else what it was |
| `Overlay.OverlayOutcome` | src/logic/cycle_runner.cpp:760-893 | Any warm cycle over an overlay shows its screen iff the overlay agrees with it on the uncovered pixels; without a screen the overlay stays |
| `Overlay.WakeOutcome` | src/logic/cycle_runner.cpp:760-893 | After a deep-sleep wake the cycle repaints everything, by the guards of its branches, or leaves the overlay whole |
| `Overlay.SetupOutcome` | src/main.cpp:97-131 | For every boot with a reset notice or diagnostic pages, cold, warm or by button, in every branch: what the glass shows, exactly when its own screen is up, and exactly when the overlay stays |
| `Overlay.LongPressShows` | src/logic/cycle_runner.cpp:895-916 | A long press shows its frame and restores the mirror from any picture |
| `Overlay.DiagPollOutcome` | src/logic/cycle_runner.cpp:982-1007 | For every poll with a double press, in every branch: the board is back after the pages iff the last page agrees with it wherever the cycle wrote nothing |
| `Histories.FirstBootShows` | src/logic/cycle_runner.cpp:647-694 | A first boot from power-on that reaches the network and a usable fetch leaves its board on the glass and in the slot, with these metadata |
| `Histories.SameAgainIsQuiet` | src/logic/cycle_runner.cpp:118-140 | A timer wake that would draw the stored board again, stamp and all, repaints nothing |
| `Histories.NoticeStaysUp` | src/logic/cycle_runner.cpp:637-645 | From power-on, with one renderer and one timetable: a good first boot, then within half an hour a reset with its notice: the glass shows the notice and nothing of the board |
| `Histories.PageStaysOutsideTheStamp` | src/logic/cycle_runner.cpp:976-1007 | From power-on, with one renderer and one timetable: a good first boot that plans to stay awake, then a double press while polling: the board is back iff the page agrees with it outside the box in which the two stamps differ, and every pixel is the board's inside that box and the page's outside |
| `Histories.PageStaysUp` | src/logic/cycle_runner.cpp:976-1007 | Concrete boot, timetable, page and ticking stamp: the board is not back, and the pixel next to the stamp is the page's and not the board's |
| `Store.BlankFits` | src/hal/Esp32PersistentStore.cpp:82-94 | Some frames fit the slot: the blank one |
| `Store.FitsIff` | src/hal/Esp32PersistentStore.cpp:82-94 | The slot takes a frame iff some readable code of its row delta has at most 7168 bytes |
| `Store.EqualRowsFit` | src/hal/Esp32PersistentStore.cpp:82-94 | A frame of equal rows fits the slot, however ragged the row |
| `Cycle.FetchSnapshot` | src/logic/cycle_runner.cpp:72-85 | The snapshot, whether it is usable and complete, the tripwire, and on success the three freshness fields |
| `Cycle.DoFetchCycle` | src/logic/cycle_runner.cpp:202-245 | The fetch with its merge against the schedule and the chosen screen |
| `Screens.CompleteIff` | src/logic/cycle_runner.cpp:195-200 | A fetch is complete iff both bus replies came back 2xx and parsed and the HAFAS one, if there is one, did too; it is usable iff some reply did |
| `Screens.HafasMovesFlag` | src/logic/snapshot_fetcher.cpp:127-134 | A HAFAS reply AID or AUTH raises the auth flag, a good one clears it, any other leaves it to the bus batches |
| `Screens.ColdPictures` | src/logic/cycle_runner.cpp:466-505 | A boot that gets through ends, by the replies alone, on the auth, boot, offline or board picture, each named outright and stamped with its time |
| `Screens.ColdFailure` | src/logic/cycle_runner.cpp:552-632 | What a boot that does not get through shows, by the miss counter, and leaves in both copies of the metadata |
| `Screens.AuthIsShown` | src/logic/render_input.cpp:25-27 | While the flag is up after the fetch, whether it worked or not, by push or nightly clean, every connected warm cycle on a usable clock ends on the stamped auth screen; after a rescue if the flag is still up |
| `Screens.WarmPictures` | src/logic/cycle_runner.cpp:760-814 | Without flag and rescue: boot screen without data, the board once a reply came back, the offline screen, the board of the schedule, or the old picture, by the replies, the network and the age of the data |
| `Screens.WithoutWifi` | src/logic/cycle_runner.cpp:840-863 | Without WiFi the offline screen is pushed exactly with data, without the flag, and with the last success more than 300 s back; otherwise nothing changes |
| `Screens.WrongPassword` | src/logic/cycle_runner.cpp:824-837 | With the wrong password its screen goes up and no copy of the metadata trusts the stored frame |
| `Screens.RescueShowsBoard` | src/logic/cycle_runner.cpp:254-290 | A cycle that does not clean and misses a reply: if an attempt inside the window has every reply, the first such attempt's board ends up on the glass, stamped |
| `Screens.NoRescueWhenAllBack` | src/logic/cycle_runner.cpp:791-796 | With every reply back, or on a nightly clean, nothing a rescue would find makes a difference |
| `Screens.WarmShowsStamped` | src/logic/cycle_runner.cpp:760-893 | What every connected cycle leaves on the glass: the rescued picture, that of the update, or the old one, under the stamp of the time in the metadata |
| `Refusals.FirstRefusal` | src/logic/snapshot_fetcher.cpp:169-181 | A wake refused on both batches, 401 and 403, counts two, draws nothing and comes back in a minute |
| `Refusals.ThreeRefusedBatches` | src/logic/snapshot_fetcher.cpp:169-181 | From power-on: a good boot, a wake refused on both batches, the board still up, and a third refused batch that puts the auth screen on the glass |
| `Upkeep.RefusedClock` | src/logic/cycle_runner.cpp:706-738 | On a clock never set, or past the planned wake by more than the overshoot, and without an answer from the time server, the cycle touches nothing |
| `Upkeep.SyncTimes` | src/logic/cycle_runner.cpp:869-878 | The last sync after a cycle: the forced one if the clock was refused, then the daily one if that is longer ago than the interval and the server answers |
| `Upkeep.NightlyIff` | src/logic/cycle_runner.cpp:531-546 | The cycle cleans iff its plan is a long enough deep sleep and the last clean is unknown or an interval back on a clock that did not go back |
| `Upkeep.CleanLeaves` | src/logic/cycle_runner.cpp:741-756 | A clean leaves its time as that of the last clean, the last full refresh and the picture, and no partials, in RTC memory |
| `Upkeep.NoSecondClean` | src/logic/cycle_runner.cpp:769-777 | Whatever the next wake or poll fetches, it does not clean again within the interval |
| `Upkeep.LongPressLeaves` | src/logic/cycle_runner.cpp:895-916 | A long press leaves a fresh full refresh in both copies, over the stored frame or the blank one |
| `Cycle.ComposeRenderInput` | src/logic/render_input.cpp:56-95 | Only the board shows departures: realtime merged with the schedule at the moment of drawing |
| `Cycle.DoSleepOrLoop` | src/logic/cycle_runner.cpp:159-177 | Writes the wake target (0 without a plausible clock) and saves the metadata |
| `Cycle.PaintNoNetwork` | src/logic/cycle_runner.cpp:581-589 | Repaints on every n-th missed boot only |
| `Cycle.HandleColdBootOutcome` | src/logic/cycle_runner.cpp:552-600 | Counters, validity flag, glass and RTC memory after each boot outcome |
| `Cycle.FinishColdCycle` | src/logic/cycle_runner.cpp:466-505 | Board of the chosen screen and view, stamp, full paint, four timestamps, save, valid flag set whatever the save says, sleep planned from the same view |
| `Cycle.RunColdCycle` | src/logic/cycle_runner.cpp:647-694 | The whole cold cycle as a function of the device before it |
| `Cycle.RescueAttempt` | src/logic/cycle_runner.cpp:280-281 | One attempt: the fetch result, and whether it is usable and complete |
| `Cycle.RescueLoop` | src/logic/cycle_runner.cpp:262-289 | The loop performs exactly the actions of Rescue.Finish in order, and leaves the metadata of that many fetches |
| `Cycle.RunRescueFetch` | src/logic/cycle_runner.cpp:254-290 | The rescue's whole effect; true iff a complete snapshot was pushed, and then its merge replaces the cycle's; its action log is Rescue.RescueTrace |
| `Cycle.DoNightlyClean` | src/logic/cycle_runner.cpp:741-756 | Stamp, deep clean, timestamps, counter reset, save, valid flag |
| `Cycle.ShowUpdate` | src/logic/cycle_runner.cpp:774-789 | Nightly clean, push or freeze, drawing the chosen screen and its view |
| `Cycle.FinishWarmCycle` | src/logic/cycle_runner.cpp:760-814 | Sleep planned from the merge of the fetch, update, rescue when incomplete, and a new plan from the rescued merge |
| `Cycle.EnsureClockSynced` | src/logic/cycle_runner.cpp:706-739 | Goes on iff the clock is synced and not ahead of the wake target by more than the overshoot, or a forced sync works; then the sync time is noted |
| `Cycle.HandleWarmWifiDown` | src/logic/cycle_runner.cpp:819-863 | Wrong password: final screen, frame forgotten, metadata saved. Otherwise the offline screen once data are old, with no metadata saved |
| `Cycle.RunWarmCycle` | src/logic/cycle_runner.cpp:865-893 | The whole warm cycle as a function of the device before it |
| `Cycle.LoadIntoCurr` | src/logic/cycle_runner.cpp:897-899 | The stored frame for the redraw, or none |
| `Cycle.RunBwReset` | src/logic/cycle_runner.cpp:895-916 | Deep clean with the stored or the blank frame; counters and timestamps reset and saved |
| `Cycle.RunDiagMode` | src/logic/cycle_runner.cpp:918-959 | A fetch if connected, pages on the glass, nothing saved |
| `Cycle.ShowPages` | src/logic/cycle_runner.cpp:936-958 | The last page flipped to stays on the glass |
| `Cycle.HandlePress` | src/logic/cycle_runner.cpp:961-976 | Long, double and short press |
| `Cycle.LoadMetaAtWake` | src/main.cpp:97-97 | Every wake starts from the metadata in RTC memory |
| `Cycle.ShowBrownoutScreen` | src/logic/cycle_runner.cpp:637-645 | The reset notice, when enabled, is painted and nothing is stored |
| `Cycle.RunSetup` | src/main.cpp:88-131 | One boot: metadata, notice, routing, the routed cycle with untrusted panel RAM |
| `Cycle.PollButtonAndRunWarm` | src/logic/cycle_runner.cpp:982-1007 | One poll: button, then a warm cycle that trusts the panel RAM |
| `Routing.StepRoute` | src/logic/cycle_runner.cpp:509-529 | Seen through (has_any_data, cold_boot_retries), every event of the firmware is one of six moves of a small machine |
| `Routing.WarmRoute` | src/logic/cycle_runner.cpp:865-893 | A warm cycle adds data iff some fetch worked and the metadata was saved, and never touches the retry counter |
| `Routing.ColdRoute` | src/logic/cycle_runner.cpp:647-694 | A cold cycle zeroes the retry counter iff it reached the access point, else counts up to the maximum |
| `Routing.PressRoute` | src/logic/cycle_runner.cpp:961-976 | Presses leave the stored routing state alone; a diagnostic fetch counts only in RAM |
| `Routing.SettledAfterIff` | src/logic/cycle_runner.cpp:509-529 | "Data imply no retries" is broken by exactly those events that bypass the boot while the counter is up and save new data |
| `Routing.HealsIff` | src/logic/cycle_runner.cpp:552-576 | A broken state heals exactly at a power cut or a cold boot that reaches the access point |
| `Routing.RunStaysSettled` | src/logic/cycle_runner.cpp:509-529 | Every wake of a run without a bypass inside the retry loop finds the invariant |
| `Routing.NeverColdAgain` | src/logic/cycle_runner.cpp:514-528 | In such a run, once data are there, no later wake of any cause runs the boot path until a power cut |
| `Routing.PressStrandsTheBoot` | src/logic/cycle_runner.cpp:961-980 | From power-on: a boot without network, then any short press whose warm cycle fetches: the press's screen is on the glass, the whole board when its fetch is complete and nothing was refused, and the next timer or reset wake boots all the same |
| `Histories.StrandingWakes` | src/logic/cycle_runner.cpp:961-980 | Concrete inputs for those two wakes, after which the stamped board of any timetable is on the glass and the next timer or reset wake boots |
| `Routing.CountersAfterMisses` | src/logic/cycle_runner.cpp:590-597 | After n missed boots the retry counter stands at min(n, max) and the 8-bit cycle counter at n mod 256 |
| `Routing.MissedBootsLeave` | src/logic/cycle_runner.cpp:552-600 | n boots from power-on without a network leave in RTC memory exactly the metadata of n misses |
| `Routing.RepaintsTwiceIff` | src/logic/cycle_runner.cpp:581-595 | Two repaints in consecutive minutes happen exactly at the wrap of the 8-bit counter, when the cadence divides 255 as the default does |
| `Routing.WrapPaintsTwice` | src/logic/cycle_runner.cpp:581-595 | With the defaults the 256th and the 257th missed boot from power-on both repaint |
| `RefreshRuns.CountStaysWithinCap` | src/logic/refresh_planner.cpp:66-72 | Over any frames and clocks the partial counter never passes the cap |
| `RefreshRuns.AtMostCapPartialsBetweenFulls` | src/logic/display_apply.cpp:11-18 | Without a full refresh in between the counter counts the partials, so there are at most cap of them |
| `RefreshRuns.PartialsFollowAFull` | src/logic/refresh_planner.cpp:63-72 | Every partial comes less than light_full_every_s after the last full one, with at most cap partials since |
| `RefreshRuns.TouchesPanelOnlyWithReason` | src/logic/refresh_planner.cpp:54-72 | Partial only on trusted RAM over a valid, different frame; unchanged valid frame: nothing; invalid or untrusted: full |
| `RefreshRuns.LastFull` | src/logic/display_apply.cpp:15-18 | The remembered time is that of the last full refresh |
| `RefreshRuns.CountsSinceLastFull` | src/logic/display_apply.cpp:5-26 | The stored counter is the number of partials since the last full |
| `RefreshRuns.FirstRefreshIsPartialIff` | src/main.cpp:68-77 | On one threaded metadata: if the untrusted pushes of a boot come first, the first refresh of the session is a partial iff it comes from a poll over a valid frame before either trigger is due on the metadata the session began with |
| `Sessions.WritesAreCovers` | src/logic/cycle_runner.cpp:760-893 | The list of panel writes of a warm cycle is the one that decides every pixel |
| `Sessions.SetupWritesWhole` | src/main.cpp:97-131 | The first write of a boot is the whole panel, or there is none, exactly without an overlay and without a repaint |
| `Sessions.PollWindowIff` | src/logic/cycle_runner.cpp:982-1007 | The first write of a poll is a window iff its first drawing push, the update's or the rescue's, finds a different valid frame before either trigger is due |
| `Sessions.FirstRefreshIsPartialIff` | src/main.cpp:68-77 | For every boot followed by any polls, in every branch: the first refresh to reach the panel is a window iff the boot wrote nothing and the first poll to write does so by such a push |
| `Sessions.PartialOnUntrustedRam` | src/main.cpp:68-77 | From power-on on the real device, with one renderer: boot, sleep towards the departure, a timer wake with the same board, and a poll that finds the departure changed: its window is the first write since the panel was powered |
| `Sessions.NapEnds` | src/logic/cycle_runner.cpp:159-177 | In that history the sleep ends when the timer wake comes, and it is routed to the warm cycle |
| `Sessions.WakeStaysUp` | src/logic/cycle_runner.cpp:769-770 | And the wake plans to stay awake, so the poll happens |
| `Sessions.SuchTimetablesExist` | src/hal/Esp32PersistentStore.cpp:82-94 | A departure that slips by five minutes, a renderer and a stamp for that history exist |
| `Planner.DiffBbox` | src/logic/refresh_planner.cpp:13-41 | The loops compute the box of the scan |
| `Planner.DiffBoxIsTight` | src/logic/refresh_planner.cpp:13-41 | The box is byte-aligned, inside the frame, holds every differing byte and has a difference on each side; it is empty iff the scanned bytes agree |
| `Planner.TightBoxIsSmallest` | src/logic/refresh_planner.cpp:13-41 | Every rectangle that holds all differences contains it |
| `Planner.PlanRefresh` | src/logic/refresh_planner.cpp:48-80 | The decision, branch by branch |
| `Planner.PlanMeaning` | src/logic/refresh_planner.cpp:54-79 | For any panel size: the empty-box fallback is taken iff a real change lies past the last whole byte column; partial and none characterised exactly |
| `Planner.WholeBytesMissNothing` | src/logic/refresh_planner.cpp:74-78 | With a width divisible by eight the fallback is never taken |
| `Planner.RaggedPanelMissesAChange` | src/logic/refresh_planner.cpp:74-78 | Concrete panel 12 pixels wide on which a change is never drawn |
| `Display.Panel.FillWindow` | src/hal/Esp32Display.cpp:44-54 | Fills exactly the window |
| `Display.Panel.BlitByte` | src/hal/Esp32Display.cpp:33-40 | Eight pixels of one byte, most significant bit left |
| `Display.Panel.BlitPartial` | src/hal/Esp32Display.cpp:29-42 | Exactly the window's pixels become the frame's |
| `Display.Panel.Blit` | src/hal/Esp32Display.cpp:25-27 | The whole frame |
| `Display.Panel.DrawFull` | src/hal/Esp32Display.cpp:93-101 | The glass shows the frame |
| `Display.Panel.DrawPartial` | src/hal/Esp32Display.cpp:103-118 | The window shows the frame, the rest is untouched, an empty box does nothing |
| `Display.Panel.LightFull` | src/hal/Esp32Display.cpp:120-126 | The glass shows the frame after one flash |
| `Display.Panel.DeepClean` | src/hal/Esp32Display.cpp:128-133 | The glass shows the frame after three flashes |
| `Display.PartialIsEnough` | src/hal/Esp32Display.cpp:103-118 | If the glass shows prev, writing the box of differences from curr makes it show curr |
| `Display.GlassIsFaithful` | src/hal/Esp32Display.cpp:25-27 | Different frames look different |
| `Store.SaveThenLoad` | src/hal/Esp32PersistentStore.cpp:74-94 | A saved frame reads back bit for bit iff it fitted; otherwise nothing can be read |
| `Store.RtcStore.LoadMeta` | src/hal/Esp32PersistentStore.cpp:63-67 | Fresh metadata without the magic number |
| `Store.RtcStore.SaveMeta` | src/hal/Esp32PersistentStore.cpp:69-72 | Metadata and magic number, frame untouched |
| `Store.RtcStore.LoadFramebuffer` | src/hal/Esp32PersistentStore.cpp:74-80 | Returns a full frame iff the stored one is live and decodes to one, and then that frame |
| `Store.RtcStore.SaveFramebuffer` | src/hal/Esp32PersistentStore.cpp:82-94 | Succeeds iff the code fits; either way the flag says so |
| `Rle.RoundTrip` | src/render/rle.cpp:10-81 | Both codecs give every input back, in-place front-to-back XOR included |
| `Rle.OneRun` | src/render/rle.cpp:10-44 | A run of up to 255 equal bytes is coded as its length and its value |
| `Rle.ExpandEncode` | src/render/rle.cpp:10-44 | The greedy code is readable and means its input |
| `Rle.IntegrateDelta` | src/render/rle.cpp:71-81 | The running XOR undoes the row XOR, ragged last row included |
| `Rle.DeltaIntegrate` | src/render/rle.cpp:46-81 | And the other way round, so the delta stream is determined by the frame |
| `Rle.GreedyIsMinimal` | src/render/rle.cpp:46-69 | No readable code of the same bytes is shorter |
| `Rle.LaterIsShorter` | src/render/rle.cpp:46-69 | Starting later never costs more pairs |
| `Rle.FitsIffSomeCodeFits` | src/render/rle.cpp:59-61 | The encoder runs out of room iff no code at all would fit |
| `Rle.RleEncode` | src/render/rle.cpp:10-26 | Writes the greedy code, or returns 0 iff it does not fit |
| `Rle.RleEncodeDelta` | src/render/rle.cpp:46-69 | The same for the row-delta stream |
| `Rle.RleDecode` | src/render/rle.cpp:28-44 | Accepts exactly the well-formed codes that fit and writes what they mean |
| `Rle.RleDecodeDelta` | src/render/rle.cpp:71-81 | The in-place XOR pass computes the integral of the decoded stream |
| `Rle.ScanRun` | src/render/rle.cpp:13-17 | The longest run of equal bytes, at most 255 |
| `Chunked.DecodesEveryChunking` | src/hal/Esp32Network.cpp:108-178 | For every body, every chunking, any leading zeros (eleven characters at most), extensions and trailer: the n-th read is the n-th byte of the body, and -1 for ever after it |
| `Chunked.PrintedChunksDecode` | src/hal/Esp32Network.cpp:140-180 | A body sent in parts, each size printed in hexadecimal of either case, is read back, and then the end |
| `Chunked.PrintedIsRead` | src/hal/Esp32Network.cpp:168 | The hex digits of any number, of either case, mean that number |
| `Chunked.StrtolLaws` | src/hal/Esp32Network.cpp:168 | White space before a size is skipped; a size line without a number reads as 0 |
| `Chunked.SignsAndPrefix` | src/hal/Esp32Network.cpp:168 | A sign and an 0x prefix are read and the value saturates at 32 bits |
| `Chunked.NoPositiveSizeEnds` | src/hal/Esp32Network.cpp:168-175 | A size that is not positive ends the stream |
| `Chunked.ChunkingIsInvisible` | src/hal/Esp32Network.cpp:86-91 | Two chunkings of one body cannot be told apart by reading |
| `Chunked.PeekAgrees` | src/hal/Esp32Network.cpp:127-132 | On any input peek shows the next read and disturbs no later one |
| `Chunked.EndIsFinal` | src/hal/Esp32Network.cpp:112-116 | On any input, after one -1 every read is -1 |
| `Chunked.CutNeverLies` | src/hal/Esp32Network.cpp:140-178 | A connection cut anywhere yields a prefix of the body and then the end, never a wrong byte |
| `Chunked.SizeIsReadIff` | src/hal/Esp32Network.cpp:147-166 | Every positive size is read right iff its field has at most eleven characters and its value fits a 32-bit long, although the coding allows more of both |
| `Chunked.ElevenZerosEndTheStream` | src/hal/Esp32Network.cpp:147-174 | A size field starting with eleven zeros ends the stream at once |
| `Chunked.TwelveDigitSize` | src/hal/Esp32Network.cpp:147-174 | Concrete chunk of one byte whose size has eleven leading zeros: nothing is read |
| `Chunked.SizeLineParsed` | src/hal/Esp32Network.cpp:147-166 | Size line with extensions: the size, and the input behind CR LF |
| `Chunked.LastChunkEnds` | src/hal/Esp32Network.cpp:167-174 | The last chunk, with any number of zeros, ends the stream whatever follows |
| `Chunked.ReadsInside` | src/hal/Esp32Network.cpp:117-124 | Inside a chunk the reads are its data; the last one also swallows the line break |
| `Chunked.ChunkedDecodingStream.constructor` | src/hal/Esp32Network.cpp:94-95 | Starts before a size line |
| `Chunked.ChunkedDecodingStream.WaitForByte` | src/hal/Esp32Network.cpp:54-68 | Next byte or end, taken or left |
| `Chunked.ChunkedDecodingStream.ReadSizeLine` | src/hal/Esp32Network.cpp:147-165 | Keeps eleven characters, stops after CR LF, fails at the end of the input or a lone CR |
| `Chunked.ChunkedDecodingStream.EnsureChunk` | src/hal/Esp32Network.cpp:140-178 | Moves on to a body byte or ends the stream |
| `Chunked.ChunkedDecodingStream.Read` | src/hal/Esp32Network.cpp:108-125 | Result and new state of a read |
| `Chunked.ChunkedDecodingStream.Peek` | src/hal/Esp32Network.cpp:127-132 | Result and new state of a peek |
| `Slots.InsertSorted` | src/logic/slot_merger.cpp:23-55 | The array after one offer is the spec's insertion: duplicate minutes and late ones refused, the last evicted, bubbled into place |
| `Slots.OfferedIsBest` | src/logic/slot_merger.cpp:23-55 | After any offers the slots hold exactly the up to three smallest distinct minutes, ascending and packed, each as first offered |
| `Slots.BestIsUnique` | src/logic/slot_merger.cpp:23-55 | That description determines the slots |
| `Slots.InsertKeepsBest` | src/logic/slot_merger.cpp:23-55 | Every single offer keeps it |
| `Slots.NewMinute` | src/logic/slot_merger.cpp:30-46 | A candidate that gets in is the first ever offered of its minute: an evicted minute never comes back |
| `Merge.MergeStream` | src/logic/slot_merger.cpp:66-92 | Realtime slots first, then the four hint times |
| `Merge.MergeSlots` | src/logic/slot_merger.cpp:59-96 | All four streams, flags carried over |
| `Merge.OffersAre` | src/logic/slot_merger.cpp:66-92 | What is on offer: valid realtime slots not yet past, and non-zero future hints of a usable schedule |
| `Merge.FreshHintIsOffered` | src/logic/slot_merger.cpp:10-20 | A future hint of a schedule fetched less than 172800 s ago is on offer |
| `Merge.StaleHintsAreNot` | src/logic/slot_merger.cpp:10-20 | An older schedule, or none, offers only what is live |
| `Merge.MergeKeepsFlags` | src/logic/slot_merger.cpp:59-63 | The merge changes slots and no flag |
| `Merge.MergedIsBest` | src/logic/slot_merger.cpp:59-96 | Each merged stream shows the best of its offers |
| `Merge.RealtimeBeatsHint` | src/logic/slot_merger.cpp:65-93 | A future realtime departure is never replaced by a hint of the same minute |
| `Merge.MergeLosesOnlyLater` | src/logic/slot_merger.cpp:59-96 | A departure on offer is shown by its minute or displaced by three earlier minutes |
| `SleepPlan.PlanSleep` | src/logic/sleep_planner.cpp:7-48 | The loop computes the planned decision, which is a retry after a failure, a nap without departures, and else the earliest departure minus the margins |
| `SleepPlan.FirstIsEarliest` | src/logic/sleep_planner.cpp:21-32 | The scan finds the earliest valid slot of all streams |
| `SleepPlan.PlanOfPlans` | src/logic/sleep_planner.cpp:7-48 | The computed decision is the described one |
| `SleepPlan.NeverOversleeps` | src/logic/sleep_planner.cpp:21-47 | For any margins the wake-up is early enough for every departure on offer in any stream, up to the seconds the minute dedup hides |
| `SleepPlan.NeverOversleepsByDefault` | src/logic/sleep_planner.cpp:21-47 | With the default margins at least 871 s remain on any clock past the epoch, 812 s on any clock |
| `SleepPlan.WakesForARealDeparture` | src/logic/sleep_planner.cpp:21-47 | The plan is made for a departure really on offer and shown |
| `SleepPlan.ShownWithinAMinute` | src/logic/slot_merger.cpp:23-55 | Every offer has a slot at most 59 s later (118 s within a minute before the epoch) |
| `SleepPlan.BoundIsTight` | src/logic/sleep_planner.cpp:21-47 | The 871 s are attained when a live departure hides a hint 59 s earlier |
| `SleepPlan.TightBoardExists` | src/logic/slot_merger.cpp:65-93 | Such a board exists |
| `WakeTarget.PlanInTime` | src/logic/sleep_planner.cpp:21-47 | A deep sleep planned from a usable fetch ends the margins, less what the minute dedup hides, before every departure on offer |
| `WakeTarget.WakeTargetInTime` | src/logic/cycle_runner.cpp:760-814 | End to end, for every warm cycle and any margins, rescued or not: the sleep it computes from its own fetch ends that long before every departure on offer, and the wake target saved in RTC memory is that moment or 0 |
| `WakeTarget.DefaultWakeTargetInTime` | src/logic/cycle_runner.cpp:760-814 | With the default configuration the target is at least 871 s before every departure on offer |
| `WakeTarget.ColdTargetInTime` | src/logic/cycle_runner.cpp:466-505 | The same for a cold boot that shows the board |
| `WakeTarget.ColdErrorRetries` | src/logic/cycle_runner.cpp:466-505 | On an error screen the cold boot plans a short retry |
| `WakeTarget.TargetIs` | src/logic/cycle_runner.cpp:159-168 | The saved wake target is the deciding clock reading plus the plan of the deciding merge, or 0 without a plausible clock |
| `WakeTarget.DriftIff` | src/logic/cycle_runner.cpp:706-711 | What sleep writes and the next wake reads: the clock is taken for drifted iff it passed the planned wake by more than the overshoot, and never after a sleep without a plausible clock |
| `WakeTarget.OutageKeepsTarget` | src/logic/cycle_runner.cpp:819-863 | Through any number of wakes and polls without WiFi, pressed or not, the saved wake target stays |
| `WakeTarget.OutageLooksLikeDrift` | src/logic/cycle_runner.cpp:706-711 | After a sleep or a pause in the polling phase and any outage, whether it begins with a poll or a wake, a true clock is taken for drifted iff the planned end was written with a plausible clock and the reading is past it by more than the overshoot |
| `WakeTarget.DriftAfterWakes` | src/logic/cycle_runner.cpp:706-711 | In wakes and polls: iff their number times the poll interval exceeds the overshoot |
| `WakeTarget.OutageFromPowerOn` | src/logic/cycle_runner.cpp:706-711 | Concrete histories from power-on with the defaults: a boot that sleeps towards its departure, or naps for half an hour without one, and timer wakes without WiFi every 30 s from its end on: drift is seen from the 61st wake on and no earlier |
| `WakeTarget.OutageFromThePollingPhase` | src/logic/cycle_runner.cpp:706-711 | The same for a boot that stays awake and an outage that begins with a poll and goes on with wakes |
| `Hafas.CopyLineLabelStripped` | src/data/oebb_hafas_parse.cpp:60-83 | The label without blanks, cut to the field |
| `Hafas.ConsumeJourneys` | src/data/oebb_hafas_parse.cpp:164-253 | The slots are the first three fresh journeys in document order, and their number |
| `Hafas.ConsumeOebbDoc` | src/data/oebb_hafas_parse.cpp:138-257 | Flags and slots for every document: auth error, other error, no result, no list, list |
| `Hafas.SlotsAreTheNextTrains` | src/data/oebb_hafas_parse.cpp:158-256 | The slots, in document order, are the first trains of their minutes among those that run, are dated and still ahead, with real time before plan, source and label; every such train has its minute among the slots or comes after three of them |
| `Hafas.FlagsOfReply` | src/data/oebb_hafas_parse.cpp:137-156 | What the three flags of a reply mean, and that no other reply fills a slot |
| `Hafas.LabelLaws` | src/data/oebb_hafas_parse.cpp:60-85 | Blanks in a name make no difference to its label; without them it is the name up to five characters and xx beyond |
| `Hafas.FreshAreDistinct` | src/data/oebb_hafas_parse.cpp:166-229 | Kept journeys are dated, running, not departed, and in pairwise distinct minutes |
| `Hafas.SeenIsKept` | src/data/oebb_hafas_parse.cpp:218-229 | A minute was seen before iff a kept journey has it: comparing with the kept slots is enough |
| `Hafas.LaterOnesDropOut` | src/data/oebb_hafas_parse.cpp:165-167 | Stopping at three kept journeys changes nothing |
| `Hafas.NothingLost` | src/logic/slot_merger.cpp:23-55 | Up to three offers in distinct minutes all stay |
| `Hafas.HafasSurvivesMerge` | src/logic/slot_merger.cpp:59-96 | Without hints the merge at the same moment shows a sorted permutation of what the parser kept |
| `Efa.CreditOne` | src/data/efa_parse.cpp:86-115 | One departure goes to the first matching filter and shifts that window only |
| `Efa.ResetAddressed` | src/data/efa_parse.cpp:64-68 | Hints of the addressed stop are cleared, others untouched |
| `Efa.ConsumeEfaDoc` | src/data/efa_parse.cpp:61-117 | Each addressed stream ends with its last two matches before the cutoff and its first two from it on; streams of other stops are unchanged |
| `Efa.TimesAre` | src/data/efa_parse.cpp:86-115 | The two lists hold exactly the credited times on either side of the cutoff |
| `Efa.HintBeforeCutoff` | src/data/efa_parse.cpp:86-115 | Whatever the order of the reply: before the cutoff the hint holds the last two departures that count for the stream, by first filter served, or 0 |
| `Efa.HintFromCutoff` | src/data/efa_parse.cpp:86-115 | From the cutoff on it holds the first two, or 0 |
| `Efa.HintSurroundsCutoff` | src/data/efa_parse.cpp:98-110 | On chronological input no credited time lies between the hints and the cutoff |
| `Efa.HintTimesInOrder` | src/data/efa_parse.cpp:98-110 | On chronological input the four times are ordered around the cutoff; last_today is next_today[1] |
| `Efa.NextTodayIff` | src/data/ScheduleHint.h:19-23 | On chronological input the usable next_today hints are the next two departures still ahead, as documented, iff at most two credited times are left before the cutoff, or all that are left share one instant |
| `Efa.NextIsOfferedIff` | src/logic/slot_merger.cpp:73-89 | The merger is offered the very next departure iff no more than one later instant follows it before the cutoff |
| `Efa.LeftOutIsOverslept` | src/logic/sleep_planner.cpp:21-47 | With the timetable alone on the board, a departure left out of the hints is slept through once the two that are kept are far enough away |
| `Efa.SuchAnEveningExists` | src/data/efa_parse.cpp:98-110 | A concrete reply and board for that: three departures left, at 30, 120 and 180 minutes |
| `Efa.CreditedExactlyOnce` | src/data/efa_parse.cpp:112-114 | Over all streams each dated matching departure is credited once |
| `Fetch.RunRetryLoop` | src/logic/api_fetcher.cpp:66-88 | The first attempt not worth retrying decides, else the last; attempts counted |
| `Fetch.SucceedsIff` | src/logic/api_fetcher.cpp:36-88 | Success iff some allowed attempt is a 2xx and all earlier ones were retryable |
| `Fetch.Fetcher.RunOgdBatch` | src/logic/snapshot_fetcher.cpp:141-205 | Streams, counters and tripwire after one batch |
| `Fetch.Fetcher.CopyStreams` | src/logic/snapshot_fetcher.cpp:192-203 | Only the streams asked for are copied |
| `Fetch.Fetcher.FetchOebbStream` | src/logic/snapshot_fetcher.cpp:92-135 | Stream, counters and flag after the HAFAS call |
| `Fetch.Fetcher.FetchSnapshot` | src/logic/snapshot_fetcher.cpp:220-253 | The whole snapshot, its counters and the tripwire; usable iff a batch survived |
| `Fetch.SummaryMeaning` | src/logic/snapshot_fetcher.cpp:220-253 | Complete iff every batch came back parsable, usable iff one did |
| `Fetch.StreamsOfReplies` | src/logic/snapshot_fetcher.cpp:141-204 | Stream order[k] of the snapshot, with order 2, 1, 0, is that of reply k / 2 if it came back parsed and empty otherwise; the fourth is the HAFAS one with its flags |
| `Fetch.ReplyReachesItsStreams` | src/logic/snapshot_fetcher.cpp:198-203 | Replacing a reply leaves the streams its batch did not ask for as they were |
| `Fetch.FetchedIsOffered` | src/logic/snapshot_fetcher.cpp:198-203 | A valid departure ahead in the asking batch's reply is on offer to the merge |
| `Fetch.StreakCounts` | src/logic/snapshot_fetcher.cpp:160-186 | Over any history the streak is min(3, refused batches since the last one that got through) |
| `Fetch.FlagAfterFetch` | src/logic/snapshot_fetcher.cpp:127-134 | After a fetch the flag is up iff HAFAS said AID/AUTH, or HAFAS did not answer normally and it was up or a refused batch left the streak at three |
| `Fetch.FlagOverHistory` | src/logic/snapshot_fetcher.cpp:127-134 | Over any history the flag is up iff some fetch raised it and HAFAS has not answered normally since |
| `Rescue.RescueIsBounded` | src/logic/cycle_runner.cpp:254-290 | For every clock and every outcome: at most max_attempts fetches, each inside the window; at most max_attempts + 1 waits, each exactly up to its start; at most one push, last, straight after the only complete fetch |
| `Rescue.FinishIsTrace` | src/logic/cycle_runner.cpp:262-289 | The loop's accumulated log, attempt count and result are those of the trace |
| `Rescue.FirstCompleteWins` | src/logic/cycle_runner.cpp:270-290 | The loop ends with the first complete fetch and with no other |
| `Rescue.StuckClock` | src/logic/cycle_runner.cpp:263-276 | On a clock stuck before the window: max_attempts + 1 waits, no fetch, no push |
| `Rescue.RunningClockWaitsOnce` | src/logic/rescue_policy.cpp:5-18 | A clock that passes the time waited for makes the loop wait at most once |
| `Rescue.RescueSucceedsIff` | src/logic/cycle_runner.cpp:262-289 | From the anchor, on a clock that does not go back and passes the time waited for, the board is pushed iff some allowed attempt, after the one wait, finds the window open and is complete |
| `Rescue.RescueInsideWindow` | src/logic/cycle_runner.cpp:266-286 | The same from any point inside the window |
| `Civil.CivilCountsDays` | src/data/wienerlinien_parse.cpp:32-40 | On every Gregorian date the formula is the naive day count |
| `Civil.OneDayAtATime` | src/data/wienerlinien_parse.cpp:32-40 | 1970-01-01 is day 0 and the next calendar date is one more, over month ends, leap years and eras |
| `Civil.SameOrder` | src/data/wienerlinien_parse.cpp:32-40 | Strictly monotone, hence injective |
| `Civil.EveryDayHasADate` | src/data/wienerlinien_parse.cpp:32-40 | Onto: every day number is the number of a date |
| `Civil.Iso8601IsPosix` | src/data/wienerlinien_parse.cpp:57-78 | The sum is Seconds Since the Epoch (section 4.16 of IEEE Std 1003.1-2017) minus the zone offset |
| `Canvases.Canvas.DrawLine` | src/render/canvas.cpp:32-54 | The endless loop ends and draws exactly the specified line |
| `Canvases.Advance` | src/render/canvas.cpp:42-53 | One step of the error update follows the ideal track |
| `Canvases.TrackInRange` | src/render/canvas.cpp:32-54 | The position after n steps: inside the box, at distance n, with the error term in range |
| `Canvases.LineEndpoints` | src/render/canvas.cpp:32-54 | max(abs(dx),abs(dy))+1 pixels, the endpoints first and last |
| `Canvases.LinePixels` | src/render/canvas.cpp:32-54 | Every pixel lies in the bounding box and within 1/2 of the true line on the minor axis; neighbours touch |
| `Canvases.NearestMeaning` | src/render/canvas.cpp:46-52 | Rounding to nearest, ties settled |
| `Raster.IndexInjective` | src/render/frame_buffer.h:28-45 | Distinct byte positions are distinct addresses |
| `Raster.SamePixelsSameBytes` | src/render/frame_buffer.h:39-45 | Bitmaps with the same pixels have the same bytes |
| `Raster.WritePixel` | src/render/frame_buffer.h:28-37 | Setting one bit changes one pixel |
| `Bytes.LeftmostIsMsb` | src/render/frame_buffer.h:28-37 | Pixel k from the left of a byte is worth 128 / 2^k, set or cleared |
| `FrameBuffers.FrameBuffer.Clear` | src/render/frame_buffer.h:19-21 | Every pixel becomes the colour; outside reads white |
| `FrameBuffers.FrameBuffer.SetPixel` | src/render/frame_buffer.h:28-37 | Exactly that pixel changes, and only if it is inside |
| `FrameBuffers.FrameBuffer.GetPixel` | src/render/frame_buffer.h:39-45 | The pixel, white outside |
| `FrameBuffers.FrameBuffer.FillRect` | src/render/frame_buffer.h:47-51 | Exactly the pixels of the clipped rectangle |
| `Glyphs.PackMsbPerRow` | scripts/pbm-to-progmem.py:78-87 | The packed bytes unpack to the bits, with clear padding |
| `Glyphs.PackingIsUnique` | scripts/pbm-to-progmem.py:78-87 | No other bytes do: the packing is determined |
| `Glyphs.DrawGlyphRow` | src/render/custom_glyph.cpp:10-20 | Draws the ink of one row, left to right |
| `Glyphs.DrawCustomGlyph` | src/render/custom_glyph.cpp:24-32 | Draws the ink of the unpacked glyph, row by row |
| `Glyphs.InkExactly` | src/render/custom_glyph.cpp:10-32 | A pixel is drawn iff its bit in the glyph is set; padding never is |
| `Glyphs.PackThenDraw` | src/render/custom_glyph.cpp:24-32 | Drawing a packed matrix draws pixel (x+c, y+r) iff bit (r,c) was 1 |

## Left out

- Routing.RunStaysSettled: excludes bypasses of the boot while the retry counter is up, because the invariant is false there; `Routing.SettledAfterIff` gives the exact step that breaks it.
- GlassRuns.GlassShowsLastScreen: excludes the reset notice and the diagnostic pages, because they paint the glass and keep the stored frame valid; `Overlay.SetupOutcome` and `Overlay.DiagPollOutcome` say exactly what they cost. It takes every window write to be faithful, also on panel RAM nobody has written; `PanelRam.RealGlassShowsLastScreen` is the theorem without that assumption.
- PanelRam.RealGlassShowsLastScreen: excludes runs in which an event starts with a window on untrusted RAM, because the noise shows there; `Sessions.FirstRefreshIsPartialIff` says exactly when that happens.
- Chunked.DecodesEveryChunking: assumes chunk sizes of at most eleven characters and below 2^31, because only eleven are kept and the value is a 32-bit integer; `Chunked.SizeIsReadIff` shows both bounds are exact.
- Sessions.FirstRefreshIsPartialIff: what the panel driver itself does on its first refresh after power-up is not modelled.
- Civil.CivilCountsDays: years and day numbers are unbounded; the 32-bit `long` of the target overflows only far outside the calendar the APIs send.
- Civil.Iso8601IsPosix: starts from the numbers read; scanning the text with sscanf is not modelled.
- Push.Device.RenderAndPush: the update stamp is compiled in, as configured; without it the same theorems hold of a stamp that draws nothing, except for the stored stamp time.
- Push.PushStamps: takes of the stamp only that drawing one clears the one before and that time 0 draws nothing; where it stands and what it looks like is not modelled.
- Screens.WarmPictures: asks for a push that is forced or reads a clock other than 0, because at 0 nothing is stamped over the old time; `Push.PushStamps` says what such a push shows.
- Fetch.RunRetryLoop: follows the code in reporting failure after a last 5xx answer, where the header comment of src/logic/api_fetcher.h reads otherwise; bodies and pauses between attempts are left out.
- Hafas.ConsumeOebbDoc: starts from decoded records with dates already converted; JSON text and local time are not modelled.
- Rle.RleDecode: bytes written before a malformed code is noticed are unspecified, as no caller reads them.
- Cycles are atomic: a reset in the middle of one is not modelled.
- Polls are allowed after any event, also where the hardware would be in deep sleep, so the run theorems cover more runs than can happen.
- WiFi, TLS, HTTP, JSON documents, time zones and local-time conversion are foreign calls; their results are inputs.
- Fonts, layout, the boot, offline and diagnostic screens: the renderer is an arbitrary function of the screen and its departures, and error screens are arbitrary frames.
- The schedule refresh inside a cycle: the schedule after it is an input.
- Panel waveforms (full flashes are counted), power guards, GPIO and the deep-sleep hardware: a window write sets exactly that window (on untrusted RAM, with arbitrary noise around it), and a cycle ends.
- Stream time-outs and `available()` of the chunked stream: a time-out is the end of the input.
- The schedule slot, the event trace, the filter-health streak, the last reset reason, SSID matching, the stale policy and the deviation gauge: they would only add easy members.
