# packwiz vanilla installer — a Dafny model of its core

The packwiz vanilla installer is a desktop wizard that reads a packwiz
modpack descriptor (`pack.toml`) from a URL and offers the Minecraft and
mod-loader versions the pack can be installed with. This project models the
installer's decision logic as pure Dafny functions and proves properties of
them:

- **Loader metadata getters** (`LoaderMetadataGetter` with its Fabric,
  Quilt and Forge strategies). Each getter keeps a memoised raw upstream
  list and filters it per call. Forge splits every `<minecraft>-<forge>`
  maven version string with the pattern `(.*?)-(.*)`. That pattern is
  modelled exactly as Java's `Matcher.find()` runs it, including how `.`
  behaves at Java's line terminators. Modules: `Memo`, `GameIndex`,
  `FabricMeta`, `QuiltMeta`, `ForgeMeta` and `Loaders`. The `Seqs` module
  holds the stream steps (`filter`, `map`, `distinct`) and their lemmas.
- **The debouncer** that delays the pack download until typing stops
  (`Debounce`). It is a state machine over an explicit clock. The
  single-thread scheduler is its queue of absolute wake-up times.
- **The pack metadata retriever** (`Retriever`). It tracks the current pack
  URI, starts one background task per URI change, and delivers parsed data
  to `onDataUpdated`. Tasks finish when an event says so. A `DONE` notice
  raised off the UI thread waits in an explicit queue until the UI thread
  dispatches it. One raised by `update` on the UI thread runs its listener
  at once. Each `update` says which thread it runs on.
- **The installer's decision helpers** (`Installer`): URL validation
  messages, the warning label, starting a download, and the default
  selection of the two version combo boxes.

Network, file and parser results are parameters: the `Fetch` oracles,
`Upstream`, and the `read` function. The URL validator and the URI parser
are function parameters too.

The installer's own comments state what the debouncer and the retriever are
meant to do: the paste handler finishes the debouncer so that the pasted URL
is downloaded at once (VanillaInstaller.java:549-550), every edit calls the
debouncer again (557-572), and the retriever's listener marks the point where
a task has "Finished!" (PackMetadataRetriever.java:41). The model follows the
code where it falls short of that, and Findings lists each gap:

- `finish()` shuts the scheduler down for good, so no typed edit after a
  paste is downloaded. Only another paste reaches the download, because its
  `finish()` runs the callback directly.
- The listener reads the `task` field rather than its own task. A
  replacement from the timer thread delivers the new data twice. A paste
  during a running fetch throws, and the pasted URL is not fetched until
  another URI is adopted.

The Quilt getter really does report the name `"fabric"`, and the model
keeps that.

## Model

Source paths are relative to the repository root.

| member | source | states |
|---|---|---|
| ForgeMeta.SplitEntry | app/src/main/java/link/infra/packwiz/vanillainstaller/meta/ForgeMetadata.java:29 | `find()` succeeds exactly when the entry contains a hyphen. Group 1 never contains a hyphen. Both groups lie on one line. On a one-line entry, group 1 + "-" + group 2 is the whole entry. |
| ForgeMeta.SplitIsInfix | app/src/main/java/link/infra/packwiz/vanillainstaller/meta/ForgeMetadata.java:29 | Wherever the match sits, the text `group1-group2` occurs verbatim in the entry. |
| ForgeMeta.JoinThenSplit | app/src/main/java/link/infra/packwiz/vanillainstaller/meta/ForgeMetadata.java:29 | Round trip: joining a hyphen-free one-line Minecraft version and a one-line loader version with `-` splits back into exactly those two parts. |
| ForgeMeta.MinecraftVersions | app/src/main/java/link/infra/packwiz/vanillainstaller/meta/ForgeMetadata.java:65-77 | The result has no duplicates and no hyphens. A version is listed if and only if it is group 1 of some matching entry. |
| ForgeMeta.MinecraftVersionsFirstSeen | app/src/main/java/link/infra/packwiz/vanillainstaller/meta/ForgeMetadata.java:68-73 | Versions are listed in the order in which they first occur among the group-1 values. |
| ForgeMeta.MinecraftVersionsAppend | app/src/main/java/link/infra/packwiz/vanillainstaller/meta/ForgeMetadata.java:68-73 | Appending an entry appends its group 1 exactly when it matches and that version is new. Otherwise the list is unchanged. |
| ForgeMeta.GroupOneMatches | app/src/main/java/link/infra/packwiz/vanillainstaller/meta/ForgeMetadata.java:69-71 | A single left-to-right scan that remembers where the current line began finds a group 1 exactly when `find()` succeeds, and the same group 1. It also equals the text from the first hyphen's line start to that hyphen. |
| ForgeMeta.CollectedIsMinecraftVersions | app/src/main/java/link/infra/packwiz/vanillainstaller/meta/ForgeMetadata.java:68-73 | A single pass that adds each new group 1 gives the same list as the filter/map/distinct pipeline. |
| ForgeMeta.CollectMinecraftVersions | app/src/main/java/link/infra/packwiz/vanillainstaller/meta/ForgeMetadata.java:68-73 | The pipeline written as a loop computes exactly `getMinecraftVersions`' list. |
| ForgeMeta.LoaderVersions | app/src/main/java/link/infra/packwiz/vanillainstaller/meta/ForgeMetadata.java:79-90 | Every listed loader version is group 2 of an entry whose group 1 equals the requested version. Every such group 2 is listed. The list is no longer than the raw list. |
| ForgeMeta.LoaderVersionsAppend | app/src/main/java/link/infra/packwiz/vanillainstaller/meta/ForgeMetadata.java:82-86 | Appending an entry for the version appends its group 2, even a repeated one. Any other entry adds nothing. This fixes order and multiplicity. |
| ForgeMeta.LoaderVersionsRejoin | app/src/main/java/link/infra/packwiz/vanillainstaller/meta/ForgeMetadata.java:82-86 | When all entries are single-line, each listed loader version `l` for `mc` rejoins into the raw entry `mc-l`. |
| ForgeMeta.TwoVersionsThreeEntries | app/src/main/java/link/infra/packwiz/vanillainstaller/meta/ForgeMetadata.java:68-73 | Entries for `x`, `x`, `y` list `[x, y]`. |
| ForgeMeta.TwoLoadersThreeEntries | app/src/main/java/link/infra/packwiz/vanillainstaller/meta/ForgeMetadata.java:82-86 | Entries `x-p`, `x-q` and one for another version give loader versions `[p, q]` for `x`. |
| ForgeMeta.Example | app/src/main/java/link/infra/packwiz/vanillainstaller/meta/ForgeMetadata.java:65-90 | On `1.20.1-47.0.1`, `1.20.1-47.1.0`, `1.19.2-43.2.0`: the Minecraft versions are `1.20.1`, `1.19.2`, and the loader versions for `1.20.1` are `47.0.1`, `47.1.0`. |
| ForgeMeta.ExampleSplit1 | app/src/main/java/link/infra/packwiz/vanillainstaller/meta/ForgeMetadata.java:29 | `1.20.1-47.0.1` splits into `1.20.1` and `47.0.1`. |
| ForgeMeta.ExampleSplit2 | app/src/main/java/link/infra/packwiz/vanillainstaller/meta/ForgeMetadata.java:29 | `1.20.1-47.1.0` splits into `1.20.1` and `47.1.0`. |
| ForgeMeta.ExampleSplit3 | app/src/main/java/link/infra/packwiz/vanillainstaller/meta/ForgeMetadata.java:29 | `1.19.2-43.2.0` splits into `1.19.2` and `43.2.0`. |
| Seqs.Distinct | app/src/main/java/link/infra/packwiz/vanillainstaller/meta/ForgeMetadata.java:72 | `distinct()` keeps no duplicates and exactly the same set of elements. |
| Seqs.DistinctFirstSeenOrder | app/src/main/java/link/infra/packwiz/vanillainstaller/meta/ForgeMetadata.java:72 | `distinct()` orders elements by their first occurrence. |
| Seqs.Filter | app/src/main/java/link/infra/packwiz/vanillainstaller/meta/FabricMetadata.java:138-141 | `filter` keeps exactly the accepted elements and is no longer than its input. |
| Seqs.FilterCounts | app/src/main/java/link/infra/packwiz/vanillainstaller/meta/FabricMetadata.java:138-141 | `filter` keeps each accepted element as many times as it occurs and drops rejected ones entirely. |
| Seqs.FilterIsSubsequence | app/src/main/java/link/infra/packwiz/vanillainstaller/meta/FabricMetadata.java:138-141 | `filter` keeps the input order. |
| Seqs.FilterMonotone | app/src/main/java/link/infra/packwiz/vanillainstaller/meta/FabricMetadata.java:138-141 | A stricter predicate keeps an order-preserving part of what a looser one keeps. |
| GameIndex.MinecraftVersions | app/src/main/java/link/infra/packwiz/vanillainstaller/meta/FabricMetadata.java:60-73 | A version is listed if and only if some game entry has it and is stable or `stableOnly` is off. The list is no longer than the game list. |
| GameIndex.AllVersionsWhenUnfiltered | app/src/main/java/link/infra/packwiz/vanillainstaller/meta/QuiltMetadata.java:68-71 | Without `stableOnly`, every game version is listed in order. |
| GameIndex.StableIsSubsequence | app/src/main/java/link/infra/packwiz/vanillainstaller/meta/QuiltMetadata.java:68-71 | The stable-only list is an order-preserving part of the full list. |
| GameIndex.MinecraftVersionsAppend | app/src/main/java/link/infra/packwiz/vanillainstaller/meta/FabricMetadata.java:69-72 | An appended game entry contributes its version exactly when it is listed. |
| GameIndex.Example | app/src/main/java/link/infra/packwiz/vanillainstaller/meta/FabricMetadata.java:69-72 | Stable `1.20.1` and unstable `1.21-rc1`: the stable-only list is `[1.20.1]` and the full list is both. |
| FabricMeta.LoaderVersions | app/src/main/java/link/infra/packwiz/vanillainstaller/meta/FabricMetadata.java:130-142 | A yarn version is listed if and only if an entry for that game version has it and is stable or `stableOnly` is off. The list is no longer than the yarn list. |
| FabricMeta.LoaderVersionsAppend | app/src/main/java/link/infra/packwiz/vanillainstaller/meta/FabricMetadata.java:138-141 | An appended yarn entry contributes its version exactly when it passes both conditions. |
| FabricMeta.StableIsSubsequence | app/src/main/java/link/infra/packwiz/vanillainstaller/meta/FabricMetadata.java:138-141 | The stable-only loader list is an order-preserving part of the full one. |
| QuiltMeta.LoaderVersions | app/src/main/java/link/infra/packwiz/vanillainstaller/meta/QuiltMetadata.java:122-134 | A loader version is listed if and only if an entry for that game version has it. There is no stability filter. The list is no longer than the mapping list. |
| QuiltMeta.LoaderVersionsAppend | app/src/main/java/link/infra/packwiz/vanillainstaller/meta/QuiltMetadata.java:130-133 | An appended entry contributes its version exactly when its game version matches. |
| QuiltMeta.AllForOneGame | app/src/main/java/link/infra/packwiz/vanillainstaller/meta/QuiltMetadata.java:130-133 | When every entry is for the requested game version, all of them are listed in order. |
| Memo.Load | app/src/main/java/link/infra/packwiz/vanillainstaller/meta/ForgeMetadata.java:44-63 | Upstream is contacted exactly when the cache is empty. A filled cache is kept and returned. The call succeeds exactly when the cache ends up filled. A successful fetch fills the cache with its content. A failed fetch on a miss leaves the cache empty and answers with the failure's reason. |
| Memo.LoadTwice | app/src/main/java/link/infra/packwiz/vanillainstaller/meta/FabricMetadata.java:58-68 | After a successful read, the next read does not fetch and returns the same list. After a failed read, the next one fetches again. |
| Memo.LoadStable | app/src/main/java/link/infra/packwiz/vanillainstaller/meta/ForgeMetadata.java:46 | Once filled, the cache answers every later read without fetching. |
| Memo.LoadMany | app/src/main/java/link/infra/packwiz/vanillainstaller/meta/QuiltMetadata.java:120-128 | A filled cache survives any number of reads. There are never more fetches than reads. |
| Memo.AtMostOneSuccessfulFetch | app/src/main/java/link/infra/packwiz/vanillainstaller/meta/QuiltMetadata.java:120-128 | After `k` failed fetches and then a success, the cache holds that success and exactly `k + 1` fetches were made, however many reads follow. |
| Loaders.New | app/src/main/java/link/infra/packwiz/vanillainstaller/VanillaInstaller.java:492 | A newly instantiated getter has every cache empty and is of the requested family. |
| Loaders.LoaderName | app/src/main/java/link/infra/packwiz/vanillainstaller/meta/LoaderMetadataGetter.java:6 | Forge reports `forge`. Fabric and Quilt both report `fabric`. |
| Loaders.MinecraftVersions | app/src/main/java/link/infra/packwiz/vanillainstaller/meta/LoaderMetadataGetter.java:7 | The call fetches exactly when the game list is not cached. It succeeds exactly when the list is cached afterwards. On a miss, a successful fetch caches the family's upstream content, and a failed one leaves the cache empty and answers with its reason. A cache hit leaves the getter unchanged, and the loader cache is never touched. The result is the family's filter applied to the cached list. |
| Loaders.LoaderVersions | app/src/main/java/link/infra/packwiz/vanillainstaller/meta/LoaderMetadataGetter.java:8 | The same contract for the loader list. It fetches exactly on a miss and succeeds exactly when the list is cached. On a miss, the cache holds the family's upstream content, or stays empty with the failure's reason. The game cache is untouched. The result is the family's filter applied to the cached list. |
| Loaders.StableOnlyIgnored | app/src/main/java/link/infra/packwiz/vanillainstaller/meta/QuiltMetadata.java:122 | Forge ignores `stableOnly` in both operations, and Quilt ignores it for loader versions. |
| Loaders.MinecraftVersionsMemoised | app/src/main/java/link/infra/packwiz/vanillainstaller/meta/FabricMetadata.java:58-73 | Of two consecutive calls, the second never fetches after a successful first, and always fetches after a failed one. |
| Loaders.ForgeSharesOneFetch | app/src/main/java/link/infra/packwiz/vanillainstaller/meta/ForgeMetadata.java:44-90 | After a successful `getMinecraftVersions`, Forge's `getLoaderVersions` does not fetch. |
| Loaders.QuiltUsesFabricName | app/src/main/java/link/infra/packwiz/vanillainstaller/meta/QuiltMetadata.java:32-34 | Quilt's name is `fabric`, not its own table key `quilt`. Every other family's name equals its table key. |
| Debounce.Extend | app/src/main/java/link/infra/packwiz/vanillainstaller/util/Debouncer.java:46-53 | The deadline moves to `now + interval` exactly when the task has not fired. A fired task is returned unchanged. |
| Debounce.Call | app/src/main/java/link/infra/packwiz/vanillainstaller/util/Debouncer.java:20-26 | Afterwards the pending task is due at `now + interval`. A pending task is extended in place, with no new wake-up and no rejection. With nothing pending, a running scheduler queues one wake-up for `now + interval`. A shut-down scheduler stores the task and rejects the call. |
| Debounce.Wake | app/src/main/java/link/infra/packwiz/vanillainstaller/util/Debouncer.java:55-69 | Before the deadline, the task re-queues itself for the remaining time. At or after the deadline it fires and clears `delayed`. A wake-up not yet due changes nothing. |
| Debounce.Terminate | app/src/main/java/link/infra/packwiz/vanillainstaller/util/Debouncer.java:33-35 | All queued wake-ups are dropped and the scheduler is shut down. `delayed` and the `final` `interval` are untouched. |
| Debounce.Finish | app/src/main/java/link/infra/packwiz/vanillainstaller/util/Debouncer.java:28-31 | The callback runs once, and the debouncer ends shut down with nothing queued. `delayed` and `interval` are kept, and nothing is rejected. |
| Debounce.DebounceBurst | app/src/main/java/link/infra/packwiz/vanillainstaller/util/Debouncer.java:20-69 | Calls each less than `interval` apart, with arbitrary wake-ups between them, run the callback at most once, and never before `interval` after the last call. If it has not run yet, the queued wake-ups run it exactly once, exactly `interval` after the last call. |
| Debounce.BurstFrom | app/src/main/java/link/infra/packwiz/vanillainstaller/util/Debouncer.java:20-69 | The invariant behind the burst theorem holds: the task is pending since the last call and its wake-up is no later than its deadline. |
| Debounce.IdleStaysSilent | app/src/main/java/link/infra/packwiz/vanillainstaller/util/Debouncer.java:55-69 | With nothing pending, wake-ups alone never run the callback or change the state. |
| Debounce.SettlePending | app/src/main/java/link/infra/packwiz/vanillainstaller/util/Debouncer.java:55-69 | A pending task's wake-ups run the callback exactly once, at its deadline, and clear it. |
| Debounce.CallThenSettle | app/src/main/java/link/infra/packwiz/vanillainstaller/util/Debouncer.java:20-26 | A call on an idle debouncer runs the callback once, `interval` later, and leaves it idle. |
| Debounce.FinishIsFinal | app/src/main/java/link/infra/packwiz/vanillainstaller/util/Debouncer.java:28-35 | `finish()` runs the callback once and leaves `delayed` as it was. From any state, no later sequence of calls and wake-ups runs the callback again. If a task was pending, a later `call()` is not rejected: it extends that task to `now + interval`, queues no wake-up, and the callback still never runs. |
| Debounce.FinishedStaysSilent | app/src/main/java/link/infra/packwiz/vanillainstaller/util/Debouncer.java:33-35 | A shut-down debouncer never runs the callback from its scheduler. |
| Debounce.EditAfterPasteIsLost | app/src/main/java/link/infra/packwiz/vanillainstaller/util/Debouncer.java:20-35 | On the installer's paste path, `call()` then `finish()`, every later `call()` extends the orphaned task without rejection, and no sequence of calls and wake-ups runs the callback. A further `finish()`, as another paste makes, still runs it directly. From an idle debouncer, the call after `finish()` is rejected and never runs either. |
| Debounce.FinishReusable | app/src/main/java/link/infra/packwiz/vanillainstaller/util/Debouncer.java:28-31 | The corrected `finish()` runs the callback, drops the pending task and its wake-ups, and keeps the scheduler. |
| Debounce.FinishReusableThenCall | app/src/main/java/link/infra/packwiz/vanillainstaller/util/Debouncer.java:28-31 | After the corrected `finish()`, stale wake-ups never fire. The next call is debounced as usual and fires `interval` later. |
| Retriever.FormatTag | app/src/main/java/link/infra/packwiz/vanillainstaller/meta/PackMetadataRetriever.java:131-143 | The only pack format is tagged `packwiz:1.0.0`. |
| Retriever.ChannelFor | app/src/main/java/link/infra/packwiz/vanillainstaller/meta/PackMetadataRetriever.java:72-82 | `http` and `https` exactly select the network, and `file` exactly selects the file system. Any other scheme fails with `Invalid URL scheme supplied: <scheme>`. |
| Retriever.Retrieve | app/src/main/java/link/infra/packwiz/vanillainstaller/meta/PackMetadataRetriever.java:69-86 | An unsupported scheme fails with the switch's message. Otherwise the task succeeds exactly when reading the selected stream succeeds, and with that stream's data. |
| Retriever.GetData | app/src/main/java/link/infra/packwiz/vanillainstaller/meta/PackMetadataRetriever.java:59-61 | It returns the `data` field, which is empty or the successful result of the newest task. |
| Retriever.Update | app/src/main/java/link/infra/packwiz/vanillainstaller/meta/PackMetadataRetriever.java:26-55 | An equal URI changes nothing and answers false. A new URI is adopted, the data is cleared, and a running predecessor is cancelled. Off the UI thread, the predecessor's notice is queued and a new running task starts. On the UI thread with a running predecessor, it throws `CancellationException`: no task starts and no notice is queued. A dispatch blocked in `get()` on the cancelled task ends, and its notice leaves the queue without a delivery. Deliveries are untouched, and the field invariant is kept. |
| Retriever.Complete | app/src/main/java/link/infra/packwiz/vanillainstaller/meta/PackMetadataRetriever.java:69-86 | A running task ends with `doInBackground`'s result and queues its `DONE` notice. Every other task, and this task's URI, is unchanged. An ended task changes nothing. If the UI thread is blocked in `get()` on this task, that dispatch finishes at once: it delivers the result if the task succeeded, and its notice leaves the queue. Otherwise deliveries and `data` are unchanged. The invariant is kept. |
| Retriever.Dispatch | app/src/main/java/link/infra/packwiz/vanillainstaller/meta/PackMetadataRetriever.java:39-49 | Whatever the notice's task, the listener reads the current task. It blocks exactly when that task is still running, and records that it waits on that task. It delivers exactly when that task succeeded, appending that task's result and storing it as `data`. Otherwise deliveries and `data` are unchanged. |
| Retriever.Run | app/src/main/java/link/infra/packwiz/vanillainstaller/meta/PackMetadataRetriever.java:19-55 | Any sequence of updates from either thread, task completions and dispatches keeps the field invariant. |
| Retriever.NoStaleData | app/src/main/java/link/infra/packwiz/vanillainstaller/meta/PackMetadataRetriever.java:29-49 | After any run, `data` is empty or the newest task's result for the current URI. Every delivered value is some task's successful result. |
| Retriever.DuplicateDelivery | app/src/main/java/link/infra/packwiz/vanillainstaller/meta/PackMetadataRetriever.java:34-49 | Replacing a running task and letting the new one succeed calls `onDataUpdated` twice with the same data. |
| Retriever.CancelledWhileBlocked | app/src/main/java/link/infra/packwiz/vanillainstaller/meta/PackMetadataRetriever.java:33-49 | Timer-thread `update(a)` and `update(b)`, then a dispatch that blocks in `get()` on `b`'s task. A timer-thread `update(c)` cancels that task, so the blocked `get()` throws and its notice ends without a delivery. When `c`'s task succeeds, three more dispatches call `onDataUpdated` exactly twice with its data, once for each remaining notice. |
| Retriever.StrandedStaysSilent | app/src/main/java/link/infra/packwiz/vanillainstaller/meta/PackMetadataRetriever.java:39-49 | Once the current task was cancelled by a throwing `update`, no run of completions and dispatches delivers anything, and `data` stays empty. |
| Retriever.PasteDuringFetchStrands | app/src/main/java/link/infra/packwiz/vanillainstaller/meta/PackMetadataRetriever.java:29-38 | A timer-thread `update(a)` followed by a UI-thread `update(b)` throws `CancellationException` and adopts `b` with no task for it. Asking for `b` again from either thread answers false and changes nothing. Without another `update`, nothing is delivered. |
| Retriever.StrandedRecovers | app/src/main/java/link/infra/packwiz/vanillainstaller/meta/PackMetadataRetriever.java:29-38 | After the paste-during-fetch strand, an `update` with a different URI, from either thread, answers true, adopts that URI and starts a running task for it. The cancelled task is kept. |
| Retriever.UpdateOwn | app/src/main/java/link/infra/packwiz/vanillainstaller/meta/PackMetadataRetriever.java:26-55 | With the corrected listener, a new URI always starts a running task for it and clears the data, on either thread. The cancelled predecessor's notice is queued only off the UI thread. An equal URI changes nothing. |
| Retriever.UpdateOwnAgrees | app/src/main/java/link/infra/packwiz/vanillainstaller/meta/PackMetadataRetriever.java:26-55 | The corrected `update` gives the same answer and state as the one as written wherever that one does not throw. Where it throws, the corrected one starts the task for the new URI. |
| Retriever.DispatchOwn | app/src/main/java/link/infra/packwiz/vanillainstaller/meta/PackMetadataRetriever.java:39-49 | The corrected listener delivers exactly when the notice is for the current task and that task succeeded: it appends that result and stores it as `data`. Otherwise deliveries and `data` are unchanged. It never blocks, and it does nothing while the UI thread is blocked. |
| Retriever.RunOwnOnce | app/src/main/java/link/infra/packwiz/vanillainstaller/meta/PackMetadataRetriever.java:39-49 | With the corrected listener, any run keeps the exactly-once bookkeeping: no task has two notices, and none is delivered twice. |
| Retriever.AtMostOncePerTask | app/src/main/java/link/infra/packwiz/vanillainstaller/meta/PackMetadataRetriever.java:39-49 | With the corrected listener, `onDataUpdated` runs at most once per task, and only with that task's successful result. |
| Retriever.ReplacementDeliveredOnce | app/src/main/java/link/infra/packwiz/vanillainstaller/meta/PackMetadataRetriever.java:34-49 | With the corrected listener, the replacement scenario delivers the new task's data exactly once. |
| Retriever.PasteDuringFetchDeliveredOnce | app/src/main/java/link/infra/packwiz/vanillainstaller/meta/PackMetadataRetriever.java:29-49 | With the corrected listener, a paste during a running fetch starts a task for the pasted URI, and that task's data is delivered exactly once. The cancelled task finishing later changes nothing. |
| Installer.SetError | app/src/main/java/link/infra/packwiz/vanillainstaller/VanillaInstaller.java:600-605 | The label is visible exactly when the error is non-null and non-empty, and only then is its text replaced. |
| Installer.SetLoading | app/src/main/java/link/infra/packwiz/vanillainstaller/VanillaInstaller.java:594-598 | The loading bar follows the flag. Starting to load hides the warning, and stopping leaves it as it was. |
| Installer.Validate | app/src/main/java/link/infra/packwiz/vanillainstaller/VanillaInstaller.java:634-648 | The form is disabled in every case. An empty field shows `Pack URL is required`. A rejected URL shows `Invalid Pack URL`. An accepted URL hides the warning. |
| Installer.DownloadPackFile | app/src/main/java/link/infra/packwiz/vanillainstaller/VanillaInstaller.java:671-687 | A rejected URL shows `Invalid pack file URL` and leaves the retriever alone. An unparsable URI changes nothing. Otherwise the retriever is updated, and loading shows exactly when the update starts a fetch. An exception from `update` escapes with the window unchanged. The retriever invariant is kept. |
| Installer.ValidateThenDownload | app/src/main/java/link/infra/packwiz/vanillainstaller/VanillaInstaller.java:634-687 | For non-empty text: when `validate()` hides the warning, the download leaves the warning text alone, and the loading bar shows whenever a new task starts. When `validate()` shows a warning, the download shows `Invalid pack file URL` and leaves the retriever alone. |
| Installer.PasteWhileFetching | app/src/main/java/link/infra/packwiz/vanillainstaller/VanillaInstaller.java:671-687 | Called from the paste handler (line 549), a UI-thread download of a new URL while a fetch runs throws `CancellationException`, leaves the window unchanged and leaves no task running. Downloading the same URL again, from either thread, changes nothing. |
| Installer.DefaultSelection | app/src/main/java/link/infra/packwiz/vanillainstaller/VanillaInstaller.java:729-737 | A pinned version is selected at its first index. Otherwise the first entry is selected if there is one. The box is disabled exactly when the list is empty, and any selected index is in range. |
| Installer.MinecraftVersionsDone | app/src/main/java/link/infra/packwiz/vanillainstaller/VanillaInstaller.java:701-738 | The loading bar is always hidden. A failed load disables the box and shows `Error while loading <loader> MC versions: <message>`. A successful load leaves the warning alone. The pack's Minecraft version is preselected exactly when the pack also names this getter's loader and the list offers it. Otherwise index 0 is selected, or the box is disabled when the list is empty. |
| Installer.LoaderVersionsDone | app/src/main/java/link/infra/packwiz/vanillainstaller/VanillaInstaller.java:758-802 | The loading bar is always hidden. A cancelled load changes nothing else. A failed one disables the box and shows `Error while loading <loader> versions: <message>`. Otherwise the pack's version for this loader is preselected at its first index when offered, else index 0, else the box is disabled. |
| Installer.GithubPassesValidationButCannotBeFetched | app/src/main/java/link/infra/packwiz/vanillainstaller/VanillaInstaller.java:31 | Of the whitelisted schemes, exactly `github` has no branch in the retriever's scheme switch and fails there. |
| Installer.QuiltPackNotPreselected | app/src/main/java/link/infra/packwiz/vanillainstaller/VanillaInstaller.java:729-734 | A pack naming `quilt` but not `fabric` never gets its Minecraft version preselected by the Quilt getter. The first entry is chosen instead. |

## Left out

- The Swing user interface is not modelled. This covers component layout, `setValid`, the paste proxy, radio-button wiring and combo-box listener juggling. Only the decisions these helpers make are modelled.
- Network, file and XML/JSON/TOML parsing (Gson, toml4j, the DOM parser) become oracles: `Fetch` values, `Upstream`, and `read`. Malformed documents appear only as a fetch failure.
- `UrlValidator` and `new URI(...)` are function parameters. `URI.equals` is modelled as value equality, without its case-insensitive scheme and host comparison.
- Threads are not modelled: `SwingWorker` scheduling, interruption, and the executor thread. In particular, the race between a UI-thread `call()` and `run()` clearing `delayed` (where `extend()` returns false and the call is lost) is not modelled.
- Retriever.Run: events interleave freely, so a UI-thread `update` can run while the UI thread is blocked in `get()`, which the real program cannot do. A blocked `get()` resumes in the same step as its task ending (`Complete`) or being cancelled (`Update`). The race in which the timer thread's `update` runs after the task ended but before the UI thread stores its result is therefore not modelled.
- `System.currentTimeMillis()` is the parameter `now`, a natural number. The debouncer's `int interval` is a `nat`, and 64-bit overflow of `long` due times is not modelled.
- Null fields of `Data` and null version maps from the JSON or TOML mapping, and the resulting `NullPointerException`s, are not modelled. A missing scheme is the error `NullPointerException` in `ChannelFor`.
- The unused Yarn and Quilt loader fields (`separator`, `build`, `maven`) are not modelled.
- `onPackDataLoaded` is not modelled. It picks the first loader found by `HashMap` iteration order, which Java does not specify, and it needs `PathUtils`.
- Installer.LoaderVersionsDone: the per-item `setSelectedIndex` inside the filling loop (VanillaInstaller.java:777-778) is not modelled, because the branch at 794-801 always overrides it.
- Installer.MinecraftVersionsDone: the removal and re-adding of the combo box's listeners is not modelled. The error text is the exception's localized message as the oracle supplies it.
- Retriever.Update: the `assert` that `update` runs on the UI thread (PackMetadataRetriever.java:27) is taken as disabled, Java's default, because the debouncer's timer calls `update` from its own thread. With assertions enabled, that call would throw `AssertionError` instead.
- Retriever.Update: the exception escaping a UI-thread `update` ends the model's step. What Swing's event dispatch thread does with an uncaught exception is not modelled.
- `Main`, `PathUtils`, `Tuple`, the launcher profile writing and the build script are not modelled.

## Findings

| source | as written | input that shows it | evidently intended | confidence | as-written member | corrected member |
|---|---|---|---|---|---|---|
| app/src/main/java/link/infra/packwiz/vanillainstaller/util/Debouncer.java:28-35 | `finish()` calls `shutdownNow()`, which is permanent, and leaves `delayed` set. A paste first calls `call()` for the pasted text and then `finish()` (VanillaInstaller.java:549), so the task `call()` created stays in `delayed` while its wake-up is dropped. Every later edit calls `call()` (557-572), which extends that orphaned task without being rejected, so no typed edit reaches the download again. Only another paste does, because its `finish()` runs the callback directly. | `call()`, `finish()`, then `call()`, then any amount of time passing | After the immediate run, later edits are debounced and downloaded as before | not executed; follows from the `ScheduledExecutorService` contract | Debounce.EditAfterPasteIsLost | Debounce.FinishReusableThenCall |
| app/src/main/java/link/infra/packwiz/vanillainstaller/meta/PackMetadataRetriever.java:39-49 | The `DONE` listener reads the `task` field instead of the task it was registered on. The cancelled predecessor's `DONE` notice therefore reads the new task, which blocks the UI thread if it is still running. If the new task has succeeded, `onDataUpdated` runs twice with the same data. | `update(a)` and then `update(b)` from the debouncer's timer thread before the first task ends; the second task succeeds and both notices are dispatched | `onDataUpdated` runs once per successful task, with that task's own result | not executed; follows from `SwingWorker` firing `DONE` on cancellation | Retriever.DuplicateDelivery | Retriever.AtMostOncePerTask |
| app/src/main/java/link/infra/packwiz/vanillainstaller/meta/PackMetadataRetriever.java:33-45 | On the UI thread, `cancel(true)` runs the cancelled task's `DONE` listener at once. That listener reads the `task` field, which still holds the cancelled task, so `get()` throws `CancellationException`. Nothing catches it, not even `downloadPackFile` (VanillaInstaller.java:678-686), so no task is started for the new URI. The new URI was already adopted, so asking for it again answers false. | the debouncer's timer starts a fetch of `a`; while it runs, the user pastes `b`, and the paste's `finish()` calls `update(b)` on the UI thread | The pasted URL is fetched and its data delivered once | not executed; follows from `SwingWorker` firing its `DONE` state change synchronously on the event dispatch thread | Retriever.PasteDuringFetchStrands | Retriever.PasteDuringFetchDeliveredOnce |
