# QuineLauncher home screen: a Dafny model of `MainActivity`

QuineLauncher is an Android home-screen replacement for a kiosk device. Its
`MainActivity` shows a grid of allow-listed apps, starts the Termux X11 server
and the camera app at start-up, and keeps two live indicators in the title bar:
the device's IPv4 address (refreshed every minute) and a status dot for the
local Docker API (probed every five seconds).

This project models the decision and bookkeeping logic of that activity with the
Android calls around it replaced by inputs:

- `AllowList` (`allow_list.dfy`): `isAllowed`, the seven fixed package names
  matched by exact string equality, and the filter `loadApps` applies to the
  launcher query.
- `Ipv4` (`ipv4.dfy`): `getIpAddress`, the packed `Int` from the Wi-Fi service
  rendered as a dotted quad with the low byte first, and its inverse `ParseIp`.
- `Title` (`title.dfy`): the title `QuineOS (u0_a<uid>@<ip>)`, and `ParseTitle`,
  which reads a title back.
- `Health` (`health.dfy`): the health-check result turned into a dot colour.
- `Launching` (`launching.dfy`): the effects of `startApps`.
- `Scheduler` (`scheduler.dfy`): the main-thread `Handler` as a class holding a
  queue of pending callbacks and a clock, with `Post`, `PostDelayed`,
  `RemoveCallbacks` and `Fire`. It also holds what the two runnables,
  `onResume` and `onPause` do to that queue.
- `Activity` (`activity.dfy`): the `MainActivity` class, with `appList`, the
  handler and a trace of visible effects (`Launch`, `Sleep`, `Toast`,
  `SetTitle`, `SetDot`). Its constructor `OnCreate` models `onCreate`.
- Support modules: `KotlinInt` (Kotlin `Int`, `shr`, `and 0xff`, truncating `%`),
  `Decimal` (how Kotlin prints an `Int`, and its inverse), `Text` (splitting on
  a separator) and `Wrappers` (`Option`).

The package manager is a `Device` value. It holds the installed packages, the
packages that have a launch intent, the uid of `com.termux` and the launcher
query. The Wi-Fi address and the outcome of each health request are passed to
the looper step that uses them.

Three behaviours of the code worth knowing:

- The title's uid is not always reduced modulo 10000
  (`MainActivity.kt:121`). In
  `termuxUid ?: packageManager.getApplicationInfo(...).uid % 10000` the elvis
  operator binds looser than `%`. A uid passed in (as `onCreate` does) is
  printed whole, and only the fallback lookup used by the periodic refresh is
  reduced. `Title.SuppliedAndLookedUpDiffer` shows that the two titles differ
  for every uid of 10000 or more.
- `onResume` posts both runnables without checking whether they are already
  pending (`MainActivity.kt:175-178`). Two calls without an `onPause` in
  between leave two pending entries of each runnable
  (`Scheduler.ResumeTwiceDuplicates`). One pending entry per runnable is kept
  only while `onResume` and `onPause` alternate
  (`Scheduler.LifecycleKeepsOnePending`).
- A probe result is applied whenever its worker thread finishes
  (`MainActivity.kt:124-153`), even after `onPause`. The code only ever sets
  the dot to green or red; before the first result arrives it keeps the look
  the layout gives it.

## Model

| member | source | states |
|---|---|---|
| `AllowList.IsAllowed` | app/src/main/java/com/example/quinelauncher/MainActivity.kt:213-224 | true exactly when the name equals one of the seven listed packages; every other string, case variants included, gives false |
| `AllowList.Contains` | app/src/main/java/com/example/quinelauncher/MainActivity.kt:223 | `Array.contains` is true exactly when the element occurs in the array |
| `AllowList.UpperCaseRefused` | app/src/main/java/com/example/quinelauncher/MainActivity.kt:213-224 | any name containing an upper-case letter is refused, so the match is case-sensitive |
| `AllowList.AllowedAppsAppend` | app/src/main/java/com/example/quinelauncher/MainActivity.kt:197-201 | filtering a concatenated query filters each part and keeps the parts in order, so relative query order is preserved |
| `AllowList.AllowedAppsSingle` | app/src/main/java/com/example/quinelauncher/MainActivity.kt:198-199 | one query entry contributes the app with its own label and package name exactly when its package is allowed |
| `AllowList.AllowedAppsMembers` | app/src/main/java/com/example/quinelauncher/MainActivity.kt:197-201 | every kept app has an allowed package, and every allowed query entry is kept |
| `Activity.MainActivity.LoadApps` | app/src/main/java/com/example/quinelauncher/MainActivity.kt:192-202 | the loop appends to `appList` exactly the allowed query entries, in query order; entries already there are unchanged |
| `Ipv4.Octet` | app/src/main/java/com/example/quinelauncher/MainActivity.kt:168-171 | field k is `(ip shr 8k) and 0xff`, a value in 0..255 |
| `Ipv4.OctetValues` | app/src/main/java/com/example/quinelauncher/MainActivity.kt:168-171 | field k is the address divided by 256^k, rounded down, modulo 256; the first field is the low byte |
| `Ipv4.FormatIpFields` | app/src/main/java/com/example/quinelauncher/MainActivity.kt:166-172 | the text is always four canonical decimal fields separated by dots, each in 0..255 and each the matching octet |
| `Ipv4.PackOctets` | app/src/main/java/com/example/quinelauncher/MainActivity.kt:163-173 | packing the four fields back little-endian recovers the original 32-bit value |
| `Ipv4.OctetsOfPack` | app/src/main/java/com/example/quinelauncher/MainActivity.kt:163-173 | an `Int` packed from four octets yields exactly those octets |
| `Ipv4.ParseFormatIp` | app/src/main/java/com/example/quinelauncher/MainActivity.kt:166-172 | reading the rendered text back gives the address |
| `Ipv4.FormatParseIp` | app/src/main/java/com/example/quinelauncher/MainActivity.kt:166-172 | text reads back as an address exactly when it is that address's rendering (a bijection) |
| `Ipv4.ParsedIsFormat` | app/src/main/java/com/example/quinelauncher/MainActivity.kt:166-172 | any text that reads back as an address is exactly that address's rendering, so there are no alternative spellings |
| `Ipv4.NoConnectionPlaceholder` | app/src/main/java/com/example/quinelauncher/MainActivity.kt:165-172 | address 0, reported when there is no connection, renders as `0.0.0.0` |
| `Ipv4.ExampleAddress` | app/src/main/java/com/example/quinelauncher/MainActivity.kt:166-172 | bytes 192, 168, 1, 42 packed little-endian render as `192.168.1.42` |
| `Decimal.NatToString` | app/src/main/java/com/example/quinelauncher/MainActivity.kt:167 | `%d` of a non-negative value is canonical decimal text |
| `Decimal.DecimalText` | app/src/main/java/com/example/quinelauncher/MainActivity.kt:167 | printing is a bijection between naturals and canonical decimal text |
| `Decimal.ParseIntToString` | app/src/main/java/com/example/quinelauncher/MainActivity.kt:121 | the printed text of any `Int`, negative ones included, reads back as that value |
| `KotlinInt.Rem` | app/src/main/java/com/example/quinelauncher/MainActivity.kt:121 | Kotlin's `%` takes the sign of the dividend, is smaller than the divisor in magnitude, and pairs with truncating division |
| `Title.ParseTitleText` | app/src/main/java/com/example/quinelauncher/MainActivity.kt:121 | the title `QuineOS (u0_a<uid>@<ip>)` reads back as exactly the uid and address text it was built from |
| `Title.SuppliedUidUnchanged` | app/src/main/java/com/example/quinelauncher/MainActivity.kt:119-121 | a uid passed in is shown unchanged, and the address part reads back as the reported address |
| `Title.FallbackUidReduced` | app/src/main/java/com/example/quinelauncher/MainActivity.kt:119-121 | without a uid the looked-up uid is shown modulo 10000 (truncating) |
| `Title.SuppliedAndLookedUpDiffer` | app/src/main/java/com/example/quinelauncher/MainActivity.kt:119-121 | for a uid of 10000 or more, the title built from a passed uid differs from the one built by the lookup |
| `Activity.MainActivity.UpdateTitleWithIpAddress` | app/src/main/java/com/example/quinelauncher/MainActivity.kt:119-122 | appends one `SetTitle` with the title for the given uid and address |
| `Health.Classify` | app/src/main/java/com/example/quinelauncher/MainActivity.kt:140-152 | green exactly for response code 200; red for any other code and for an `IOException` |
| `Activity.MainActivity.CheckDockerApiConnection` | app/src/main/java/com/example/quinelauncher/MainActivity.kt:130-154 | appends one `SetDot` with the colour for the probe's outcome |
| `Launching.RunSequenceStopsAtFirstMissing` | app/src/main/java/com/example/quinelauncher/MainActivity.kt:83-109 | every step before the first missing package is launched in order, followed by one toast naming that package; later steps are never attempted |
| `Launching.LaunchedOnlyBeforeMissing` | app/src/main/java/com/example/quinelauncher/MainActivity.kt:83-109 | a package is launched only if it is the target of a step before the first missing one |
| `Launching.StartupWithoutX11` | app/src/main/java/com/example/quinelauncher/MainActivity.kt:85-96 | without X11 the only effect is `Toast("App not installed: com.termux.x11")`, and the camera is never tried |
| `Launching.StartupWithoutCamera` | app/src/main/java/com/example/quinelauncher/MainActivity.kt:98-108 | a missing camera gives Launch(x11), Sleep(5000), then only its toast |
| `Launching.StartupBoth` | app/src/main/java/com/example/quinelauncher/MainActivity.kt:83-109 | with both installed: Launch(x11), Sleep(5000), Launch(camera) |
| `Activity.MainActivity.StartApps` | app/src/main/java/com/example/quinelauncher/MainActivity.kt:83-109 | the straight-line code with early returns emits exactly the effects of the two-step launch sequence |
| `Scheduler.Handler.constructor` | app/src/main/java/com/example/quinelauncher/MainActivity.kt:111 | a fresh handler has no pending callbacks |
| `Scheduler.Handler.Post` | app/src/main/java/com/example/quinelauncher/MainActivity.kt:177-178 | appends an entry due now and changes nothing else |
| `Scheduler.Handler.PostDelayed` | app/src/main/java/com/example/quinelauncher/MainActivity.kt:115 | appends an entry due after the given delay and changes nothing else |
| `Scheduler.Handler.RemoveCallbacks` | app/src/main/java/com/example/quinelauncher/MainActivity.kt:188-189 | the queue becomes the old queue without the entries of that callback |
| `Scheduler.Handler.NextIndex` | app/src/main/java/com/example/quinelauncher/MainActivity.kt:111 | the search returns the earliest-due entry, the first of equals in posting order |
| `Scheduler.Handler.Fire` | app/src/main/java/com/example/quinelauncher/MainActivity.kt:111 | takes that entry off the queue, advances the clock to its due time and returns its callback |
| `Scheduler.EarliestIndex` | app/src/main/java/com/example/quinelauncher/MainActivity.kt:111 | the index is due no later than any entry and strictly earlier than every entry before it |
| `Scheduler.EarliestUnique` | app/src/main/java/com/example/quinelauncher/MainActivity.kt:111 | the entry the looper runs next is uniquely determined |
| `Scheduler.CountAppend` | app/src/main/java/com/example/quinelauncher/MainActivity.kt:115 | appending to the queue adds the pending counts of the two parts |
| `Scheduler.CountWithout` | app/src/main/java/com/example/quinelauncher/MainActivity.kt:111 | taking one entry off lowers the count of its own callback by one and no other |
| `Scheduler.RemovedCount` | app/src/main/java/com/example/quinelauncher/MainActivity.kt:188-189 | `removeCallbacks` leaves no entry of its callback and every other count unchanged |
| `Scheduler.RemovedMembers` | app/src/main/java/com/example/quinelauncher/MainActivity.kt:188-189 | `removeCallbacks` keeps exactly the entries of other callbacks |
| `Scheduler.RemovedAppend` | app/src/main/java/com/example/quinelauncher/MainActivity.kt:188-189 | `removeCallbacks` works piecewise, so the kept entries stay in posting order |
| `Scheduler.FireCounts` | app/src/main/java/com/example/quinelauncher/MainActivity.kt:112-117 | running the next entry leaves each runnable's pending count unchanged (one removed, one re-posted); a foreign callback that ran is gone |
| `Scheduler.FireRearms` | app/src/main/java/com/example/quinelauncher/MainActivity.kt:112-161 | a runnable that ran re-posts itself 60 000 ms (IP, `IP_UPDATE_INTERVAL`, line 27) or 5 000 ms (probe, `DOCKER_CHECK_INTERVAL`, line 34) after it ran |
| `Scheduler.ResumedCounts` | app/src/main/java/com/example/quinelauncher/MainActivity.kt:175-178 | `onResume` adds exactly one entry for each runnable and none for anything else |
| `Scheduler.PausedClears` | app/src/main/java/com/example/quinelauncher/MainActivity.kt:186-190 | after `onPause` no entry of either runnable remains and other entries are untouched |
| `Scheduler.PausedAppend` | app/src/main/java/com/example/quinelauncher/MainActivity.kt:186-190 | `onPause` removes entries piecewise, so the foreign entries it keeps stay in posting order |
| `Scheduler.LifecycleKeepsOnePending` | app/src/main/java/com/example/quinelauncher/MainActivity.kt:175-190 | while `onResume` and `onPause` alternate, each runnable has exactly one pending entry when resumed and none when paused |
| `Scheduler.PausedNeverFires` | app/src/main/java/com/example/quinelauncher/MainActivity.kt:186-190 | once paused, the looper never runs either runnable until the next `onResume` |
| `Scheduler.ResumeTwiceDuplicates` | app/src/main/java/com/example/quinelauncher/MainActivity.kt:175-178 | a second `onResume` without `onPause` leaves two pending entries of each runnable |
| `Activity.MainActivity.RunUpdateIp` | app/src/main/java/com/example/quinelauncher/MainActivity.kt:112-117 | refreshes the title using the fallback uid, then re-posts itself one minute later |
| `Activity.MainActivity.RunCheckDockerApi` | app/src/main/java/com/example/quinelauncher/MainActivity.kt:156-161 | sets the dot from the probe, then re-posts itself five seconds later |
| `Activity.MainActivity.OnResume` | app/src/main/java/com/example/quinelauncher/MainActivity.kt:175-178 | posts both runnables, due at once |
| `Activity.MainActivity.OnPause` | app/src/main/java/com/example/quinelauncher/MainActivity.kt:186-190 | removes every pending entry of both runnables |
| `Activity.MainActivity.RunNext` | app/src/main/java/com/example/quinelauncher/MainActivity.kt:111-117 | one looper turn: the earliest entry runs, the queue becomes `AfterFire` of the old one, and the trace grows by that job's effects |
| `Activity.MainActivity.OnCreate` | app/src/main/java/com/example/quinelauncher/MainActivity.kt:37-77 | apps are loaded only with Magisk; the title is set, then the launch sequence runs; the handler is empty |
| `Activity.InitialAppsGate` | app/src/main/java/com/example/quinelauncher/MainActivity.kt:44-52 | without Magisk the grid stays empty; with it, every app shown is allowed and every allowed launcher entry is shown |
| `Activity.InitialTitleUid` | app/src/main/java/com/example/quinelauncher/MainActivity.kt:62-70 | the first title carries the termux uid unreduced when termux is installed, and 0 after a toast when it is not |

## Left out

- `NsdService.kt` (the two DNS-SD registrations, their logging listeners and the notification channel) is not part of this model: it only wraps `NsdManager` and keeps no state.
- `AppAdapter.kt` (grid view binding and the click and long-click intents) is not part of this model: it is UI code without state.
- The HTTP request itself is not modelled: the connection, its 10 s timeouts, the worker `Thread` and `runOnUiThread`. The outcome of each request is an input.
- Activity.MainActivity.CheckDockerApiConnection: appends the colour at once, whereas the source applies it later from the worker thread. A result that arrives after `onPause` or after a later title change is therefore not ordered as in the source.
- `WifiManager`: the packed address is an input.
- `String.format` is assumed to run under a locale with ASCII digits. A locale with other digits would render them differently.
- The package manager is the `Device` value.
- Activity.MainActivity.RunUpdateIp: the fallback lookup of the termux uid is treated as always answering. The source would throw an uncaught `NameNotFoundException` when termux is absent.
- `Thread.sleep(5000)` is only a `Sleep` effect in the trace. The time it takes does not advance the handler's clock.
- The handler's clock advances only when the looper runs an entry, to that entry's due time. Work done by a callback takes no time. Foreign callbacks are counted in the queue but their work is not modelled.
- The status dot before the first probe result (no colour filter yet, drawn as the layout gives it) is not modelled: the trace only records the `SetDot` effects the code performs.
- The HOME-intent relaunch in `onResume`, `openAppSettings`, `openTermuxX11Preferences`, `onDestroy`, the visibility of the "Magisk not found" text and the grid, layout managers, adapters, icons and logging are not modelled. Toasts appear only as trace entries.
