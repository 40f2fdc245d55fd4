# AJAZZ Control Center: verified models

Dafny models of nine pieces of AJAZZ Control Center whose behaviour spans whole runs
or all inputs, with proofs of what each of them promises. Run
`dafny verify dfyconfig.toml` in this directory to check everything.

| Files | Piece |
|---|---|
| `Timing`, `Hotplug` | the hot-plug debouncer, as a product of independent one-key debouncers |
| `Json`, `JsonRoundTrip`, `Lex`, `Utf8`, `Canonical`, `Manifest`, `SignedManifest` | the plugin manifest's canonical form, its signing and verification |
| `Bytes`, `Division`, `StreamDockWire`, `LockedBus`, `StreamDockLock`, `Ak980` | the image framings of the Stream Docks and of the AK980 screen, and the lock around the AKP153 |
| `DeviceModel` | the device list and its diff-driven refresh |
| `Trimming`, `Version`, `Tags`, `AppUpdate` | the release order and the update checker |
| `HostChild`, `HostChildRuns`, `TauriShim`, `DebugServer` | three message protocols |
| `BundlePaths`, `BundleInstaller`, `InstallerRuns` | the GitHub bundle installer |
| `Autogen`, `AutogenIdempotence`, `AutogenCounterexamples`, `GenerateDocs` | the AUTOGEN block rewriter |
| `Seqs`, `Wrappers` | facts and types the others share |
| `Foreground`, `LunBo` | the foreground-application pipeline and the LunBo carousel |

How the models are built. Objects that change in place are classes; each of their
methods is proved equal to a function of the old state (`Abs() == Apply(old(Abs()), step)`),
and the theorems are proved about runs of that function, in words of their own
(`SignedManifest`, `Tags`, `HostChildRuns` and `InstallerRuns` hold nothing else): arbitrary interleavings of
steps in which the environment supplies reports, replies, reads, directory listings,
clock ticks and the order of unordered containers. Libraries (Ed25519, base64, the
JPEG encoder, the profile and device registries) are parameters, with the one law a
proof needs stated as a predicate. Fields that only record what went in and out
(`history`, `log`, `word`, `answered` and the like) are there for the theorems to speak about.

Seven results are about where the code does not meet a promise made for it, or a wider claim
one might make. Each gives the exact condition:

- `HostChild.OneSegmentUnlessUncaught`: the protocol's documentation (`python/ajazz_plugins/_host_child.py:49-52`)
  promises that no op but two is silent and that long answers end with a terminator. An op is answered by one whole segment if and
  only if no exception that nothing catches occurs while it is handled; otherwise the child is dead and the
  output ends in the beginning of that segment. A search path with a NUL in it is answered by nothing
  (`NulPathIsNeverAnswered`).
- `AppUpdate.NotModifiedReproducesVerdictWhen`, `AppUpdate.BannersStayHonest`: the `304` branch reproduces the standing verdict
  exactly when nothing is recorded or the recorded release is newer than the running version, although
  `src/app/src/app_update_service.cpp:314-315` says that a `304` does not churn the status. A run announces a release that
  is no newer than the running version (`NotModifiedCanAnnounceTheRunningVersion`).
- `AppUpdate.DisabledUntilDismissed`: a disabled update service stays disabled exactly until an update is dismissed.
- `Foreground.SubmittedInfoIsCommittedWhen`: `src/app/src/active_window_watcher_wayland.cpp:85-87` speaks of the
  protocol's atomicity, but only the activated bit is staged. The app id and title submitted are the
  committed ones if and only if the toplevel's `app_id` and `title` events since its last `done` repeat what was committed;
  `UncommittedAppIdIsSubmitted` is a run in which they do not.
- `GenerateDocs.WriteRaisesWhen`: `scripts/generate-docs.py` raises in a writing run, after it wrote the file, if and only if
  a stale target, as given, does not lie under the repository's root, which a relative path never does. The default targets all do.
- `AutogenCounterexamples.IdempotentExactlyWhenSettled`: rewriting twice is rewriting once, for every text, if and only if no rendered
  body has an END of a known block, and after the first END of an unknown block leaves no BEGIN of another name open.
- `StreamDockWire.ImageReadsExactlyWhenItFits`: a JPEG reads back exactly up to 65535 bytes, because the announce frame holds
  16 bits of length. The driver and the probe encode images of 85 by 85 pixels, so it is not claimed that a longer
  one is ever sent.

## Model

| member | source | states |
|---|---|---|
| `JsonRoundTrip.LoadsUndoesDumps` | scripts/sign-plugin-manifest.py:53-68 | parsing undoes the JSON printer on every value, in the compact and the indented layout, string escapes and nesting included |
| `JsonRoundTrip.LoadsGivesWellFormed` | scripts/sign-plugin-manifest.py:144 | whatever text is parsed, its dictionaries have distinct keys, as the printer and the signer need |
| `JsonRoundTrip.LastPairCounts` | scripts/sign-plugin-manifest.py:144 | of the pairs with one key the last one counts, in the place of the first |
| `JsonRoundTrip.PlainTextPrintsAsItself` | scripts/sign-plugin-manifest.py:63-68 | only quotes, backslashes and control characters are escaped; any other text prints as itself between quotes |
| `JsonRoundTrip.CompactIsOneLine` | scripts/sign-plugin-manifest.py:63-68 | the compact layout of every value is one line |
| `Lex.BeforeIsStrictTotalOrder` | scripts/sign-plugin-manifest.py:63-68 | the order `sort_keys` sorts by is a strict total order on strings |
| `Lex.BeforeIsFirstDifference` | scripts/sign-plugin-manifest.py:63-68 | one string comes before another if and only if, after a common beginning, it ends or has the smaller character |
| `Utf8.EncodeInjective` | scripts/sign-plugin-manifest.py:63-68 | distinct texts have distinct UTF-8 bytes |
| `Utf8.CharIsUtf8` | scripts/sign-plugin-manifest.py:63-68 | a character's bytes are its UTF-8 code: as many bytes as its magnitude needs, a lead byte that says how many, continuation bytes, and its number read back from them |
| `Utf8.EncodeAppend` | scripts/sign-plugin-manifest.py:63-68 | texts are encoded character by character, in order |
| `Canonical.CanonicalTextIsMeaning` | scripts/sign-plugin-manifest.py:63-68 | sorted-key compact texts are equal if and only if the values are equal up to key order |
| `Canonical.NormalKeepsMeaning` | scripts/sign-plugin-manifest.py:63-68 | sorting the keys at every depth gives a sorted value equal to the original |
| `Canonical.NormalFormIsUnique` | scripts/sign-plugin-manifest.py:63-68 | equal values have the same sorted form |
| `Canonical.StripMeaning` | scripts/sign-plugin-manifest.py:60-62 | stripping removes `Ajazz.Signing.Ed25519Signature` and nothing else |
| `Canonical.CanonicalBytesInjective` | scripts/sign-plugin-manifest.py:53-68 | two manifests have the same signed bytes if and only if they are equal except for the signature field |
| `Manifest.ManifestFile.CmdSign` | scripts/sign-plugin-manifest.py:111-139 | the step-by-step command leaves in the file, and exits with, what `Sign` says, an uncaught exception included |
| `Manifest.ManifestFile.CmdVerify` | scripts/sign-plugin-manifest.py:142-168 | the command's steps, field reads, base64 decodes, key check, stripping and signature check in their order, exit as `Verify` says on every text without floating-point numbers, lone surrogates and over-long integers, the uncaught exceptions included |
| `Manifest.AcceptsExactlySignedManifests` | scripts/sign-plugin-manifest.py:142-168 | a file is accepted if and only if it parses to a manifest that carries, decodable, a public key and a signature by it of the canonical bytes |
| `Manifest.VerifyRaisesWhen` | scripts/sign-plugin-manifest.py:142-168 | verification raises if and only if the file does not parse, cannot be navigated, or the first bad one of its two fields is no text or no key rather than undecodable; else it exits with 0 or 1 |
| `Manifest.SignSucceedsWhen` | scripts/sign-plugin-manifest.py:111-139 | signing succeeds if and only if the key is an Ed25519 key and the manifest parses and has dictionaries on the way to `Signing`; another key exits with 2 if the manifest parses; a failure leaves the file alone |
| `SignedManifest.SignSetsTheTwoFields` | scripts/sign-plugin-manifest.py:120-139 | a signing that succeeds writes the indented text of a manifest and a newline; it sets `Ajazz.Signing.Ed25519PublicKey` and a signature of the file's own canonical bytes; every other member, of the manifest, of `Ajazz` and of `Signing`, keeps its value and its place, by lookups and key order |
| `SignedManifest.SignedMeaning` | scripts/sign-plugin-manifest.py:120-139 | the signed manifest means the manifest before with these two members of `Ajazz.Signing` updated |
| `Manifest.SigningKeepsCanonicalBytes` | scripts/sign-plugin-manifest.py:53-68 | adding the signature does not change the bytes it signs |
| `Manifest.SignedManifestVerifies` | scripts/sign-plugin-manifest.py:111-168 | verification accepts every file signing wrote, whatever the key order and whatever signature it carried before |
| `Manifest.VerdictIgnoresKeyOrder` | scripts/sign-plugin-manifest.py:142-168 | reordering keys at any depth or changing the layout never changes the verdict |
| `Hotplug.HotplugDebouncer.OnObserve` | src/app/src/hotplug_debouncer.cpp:16-22 | observing posts the event and touches nothing else |
| `Hotplug.HotplugDebouncer.RunPosted` | src/app/src/hotplug_debouncer.cpp:22-62 | the posted call replaces the key's pending event and restarts or creates its timer |
| `Hotplug.HotplugDebouncer.OnTimeout` | src/app/src/hotplug_debouncer.cpp:40-59 | a timeout emits the key's pending event and drops the event and the timer |
| `Hotplug.KeysTellDevicesApart` | src/app/src/hotplug_debouncer.hpp:71-79 | two events coalesce under one key if and only if vendor, product and serial number are equal |
| `Hotplug.StepProjects` | src/app/src/hotplug_debouncer.cpp:16-64 | a step is a step of its own key's one-key debouncer and leaves every other key's as it was |
| `Hotplug.RunProjects` | src/app/src/hotplug_debouncer.cpp:16-64 | every timed run, projected to a key, is a run of the one-key debouncer |
| `Hotplug.EveryRunIsDebounced` | src/app/src/hotplug_debouncer.cpp:16-64 | for every key each burst collapses to its last event, emitted 300 ms after it up to the timer's earliness and lateness, whatever they are; observed events are delivered or still queued, in order; pending events and timers have the same keys |
| `Hotplug.GapDecides` | src/app/src/hotplug_debouncer.cpp:24-34 | an event followed by another of its key within 300 ms less the timer's earliness is superseded; one followed later than 300 ms and its lateness was emitted |
| `StreamDockWire.FindUiKey` | streamdock-host/src/akp153.rs:188-195 | the search loop finds the key of a slot, or none |
| `StreamDockWire.SlotsMatchKeys` | streamdock-host/src/akp153.rs:17-21 | a key's image goes to the slot whose presses are reported as that key; touch zones answer no key; no two surfaces share a slot |
| `StreamDockWire.SlotsRunDownColumns` | streamdock-host/src/akp153.rs:17-21 | the slots of the keys run down the columns from the right one, touch zones follow, and a surface past the last is the last |
| `StreamDockWire.WriteCmd` | streamdock-host/src/akp153.rs:71-79 | a command is one report: a zero report id, then the data |
| `StreamDockWire.SetBrightness` | streamdock-host/src/akp153.rs:81-86 | the percentage is written at index 7 of the `LIG` command, as the code does |
| `StreamDockWire.SetImage` | streamdock-host/src/akp153.rs:99-156 | the wire grows by one announce, the chunks in order and the commit, for the slot of the key or touch zone |
| `StreamDockWire.ReadInput` | streamdock-host/src/akp153.rs:159-179 | an input report gives a key and state exactly when it is long enough, acknowledged and names a known slot |
| `StreamDockWire.ImageReads` | streamdock-host/src/akp153.rs:99-156 | a receiver that sees only reports reads a transaction back as exactly its slot and JPEG, and leaves the reports after it |
| `StreamDockWire.ImageReadsExactlyWhenItFits` | streamdock-host/src/akp153.rs:129-138 | a transaction reads back if and only if the JPEG is at most 65535 bytes |
| `StreamDockWire.CommandReads` | streamdock-host/src/akp153.rs:64-96 | each command reads back as one opaque report and is never taken for an announce |
| `StreamDockWire.CommandsSpellTheirNames` | streamdock-host/src/akp153.rs:64-96 | commands are `CRT`, two zeros and their ASCII names and arguments, the brightness clamped to 100 |
| `Bytes.ChunksSpellTheBuffer` | streamdock-host/src/akp153.rs:140-147 | the 1024-byte chunks concatenate to the buffer, are as many as its length calls for and none is empty or too long |
| `StreamDockWire.ImageChunks` | scripts/akp05_color_probe.py:169-173 | the loop yields the padded chunks of the image, in order |
| `StreamDockWire.SendImage` | scripts/akp05_color_probe.py:212-216 | header, padded chunks and `ULEND` are written, in that order |
| `StreamDockWire.PaddingIsZeros` | scripts/akp05_color_probe.py:212-216 | a padded report is the report and zeros up to 1025 bytes |
| `StreamDockWire.PaddedImageReads` | scripts/akp05_color_probe.py:141-178 | the padded 1025-byte framing decodes to its wire byte and JPEG if and only if the JPEG is at most 65535 bytes |
| `LockedBus.RunIsSerial` | streamdock-host/src/akp153.rs:71-79 | for any threads taking a lock around their writes, the wire is whole transactions in lock order but for what the holder has still to write, each thread's in program order |
| `StreamDockLock.WireIsSerial` | streamdock-host/src/akp153.rs:71-165 | for any threads interleaving `set_image`, `write_cmd` and `read_input`, the wire is a prefix of whole transactions in lock order, and reads back as exactly their images and commands whenever the lock is free |
| `Ak980.StampChecksum` | scripts/ak980_tft_probe.py:50-53 | byte 32 becomes the sum of the other bytes below it modulo 256; no other byte changes |
| `Ak980.BuildHeader` | scripts/ak980_tft_probe.py:56-67 | the packet filled in place is the header with its checksum |
| `Ak980.BuildChunk` | scripts/ak980_tft_probe.py:70-78 | the packet filled in place is the indexed chunk with its checksum |
| `Ak980.Upload` | scripts/ak980_tft_probe.py:110-126 | the packets sent are the header and then every chunk of the buffer once, in order |
| `Ak980.OneByteChangeIsDetected` | scripts/ak980_tft_probe.py:50-53 | changing any one byte of a good packet, its checksum or a byte after it included, makes it fail |
| `Ak980.ChecksumIsTheSum` | scripts/ak980_tft_probe.py:50-53 | a packet verifies if and only if byte 32 is the sum of the 32 bytes before it and the 31 after it, modulo 256 |
| `Ak980.PacketsReadBack` | scripts/ak980_tft_probe.py:56-78 | headers and chunks verify, are never confused, and their count, index and payload read back; the selected screen is byte 4, and unused bytes are zero |
| `Ak980.AnyOrderReassembles` | scripts/ak980_tft_probe.py:110-126 | in any order, with repetitions, over any earlier frame, the packets reassemble the exact buffer, up to 2^23 chunks |
| `DeviceModel.DeviceModel.BuildKeys` | src/app/src/device_model.cpp:185-189 | the loop groups every rebadge key under its codename |
| `DeviceModel.DeviceModel.CollapseByCodename` | src/app/src/device_model.cpp:191-204 | the loop keeps the first descriptor of each codename |
| `DeviceModel.DeviceModel.LayoutUnchanged` | src/app/src/device_model.cpp:239-248 | the layout test compares the codenames in order |
| `DeviceModel.DeviceModel.ConnectedRows` | src/app/src/device_model.cpp:218-233 | the per-row connected values, each the OR over the row's rebadge keys |
| `DeviceModel.DeviceModel.SignalFlips` | src/app/src/device_model.cpp:268-286 | one `dataChanged` per flipped row, in row order |
| `DeviceModel.DeviceModel.Refresh` | src/app/src/device_model.cpp:176-315 | the new rows, keys and live set, and the signals, are those of `Refreshed` |
| `DeviceModel.DeviceModel.ConnectedCodenames` | src/app/src/device_model.cpp:352-376 | the loop lists the online codenames in row order |
| `DeviceModel.LayoutIsSortedFirsts` | src/app/src/device_model.cpp:191-216 | the rows are strictly sorted by (family, codename) and are exactly the first descriptors registered under each codename |
| `DeviceModel.RowsAscend` | src/app/src/device_model.cpp:205-230 | families ascend from row to row, and codenames within a family |
| `DeviceModel.SortedRowsAreUnique` | src/app/src/device_model.cpp:206-216 | sorted arrangements of the same rows are equal, so the sorting algorithm does not matter |
| `DeviceModel.GroupCollectsRebadges` | src/app/src/device_model.cpp:185-189 | a codename's keys are those of all descriptors registered under it |
| `DeviceModel.ConnectedIsAnyRebadge` | src/app/src/device_model.cpp:91-112 | after a refresh every row has its group, and is connected if and only if some descriptor of its codename is live |
| `DeviceModel.SignalsAreExact` | src/app/src/device_model.cpp:239-286 | in the common path a row is signalled if and only if the OR over its keys flipped; a reset if and only if the codename layout changed |
| `DeviceModel.ViewIsAlwaysCoherent` | src/app/src/device_model.cpp:176-315 | over any run of registry changes, plug events and refreshes a view that rereads only what is signalled shows every row's connected value |
| `DeviceModel.OnlyFirstRefreshResets` | src/app/src/device_model.cpp:239-261 | with a fixed registry no refresh after the first one of a run resets the model |
| `DeviceModel.SameCodenamesSameRows` | src/app/src/device_model.cpp:191-248 | registering more devices either changes the sequence of codenames or leaves every field of every row as it was |
| `DeviceModel.StaticRolesStayCoherent` | src/app/src/device_model.cpp:176-287 | over any run whose registry only grows, as `DeviceRegistry` does, the rows change at a reset alone, so a view that rereads whole descriptors on resets alone always shows every row as it is |
| `DeviceModel.OnlineCodenamesAreConnectedRows` | src/app/src/device_model.cpp:352-376 | the connected codenames are exactly those of the rows whose connected role is true |
| `Version.ParseVersion` | src/app/src/app_update_service.cpp:63-100 | a tag splits into components, suffix and nightly flag as `Parse` says, for every string |
| `Version.CompareComponents` | src/app/src/app_update_service.cpp:259-270 | the loop's answer is the sign of the first difference after zero padding |
| `Version.IsNewerThan` | src/app/src/app_update_service.cpp:241-284 | the branches compute `NewerThan` on every pair of tags |
| `Version.GreaterIsFirstDifference` | src/app/src/app_update_service.cpp:259-270 | one component list is greater if and only if at the first place where they differ after padding with zeros it has the larger number |
| `Version.GreaterTrichotomy` | src/app/src/app_update_service.cpp:259-270 | padded comparison never answers greater both ways, and neither way exactly for components equal after padding |
| `Version.NewerThanIsStrictWeakOrder` | src/app/src/app_update_service.cpp:63-284 | on all tags: irreflexive, asymmetric, transitive, incomparability transitive, and incomparable exactly when both nightly with equal suffixes or both stable with equal padded components and suffixes |
| `Tags.TagReads` | src/app/src/app_update_service.cpp:78-102 | `v1.2.3-suffix`, with or without the `v` and the suffix, parses to the numbers and the suffix it is written with |
| `Tags.SpaceAround` | src/app/src/app_update_service.cpp:78-102 | white space around a tag does not matter |
| `Tags.NewerThanOnTags` | src/app/src/app_update_service.cpp:241-288 | of two stable tags one is newer if and only if the first number that differs is larger in it, or none differs and its suffix outranks the other's: none before some, else the later by code units |
| `Tags.NewerThanOnNightlies` | src/app/src/app_update_service.cpp:241-255 | a nightly, in any case, is newer than every stable tag, and of two nightlies the later by code units is newer |
| `AppUpdate.AppUpdateService.RunCheckNow` | src/app/src/app_update_service.cpp:217-227 | a check is requested unless disabled or already checking |
| `AppUpdate.AppUpdateService.RunPerformCheck` | src/app/src/app_update_service.cpp:286-307 | the status becomes checking and one request goes out, unless disabled |
| `AppUpdate.AppUpdateService.DismissCurrentUpdate` | src/app/src/app_update_service.cpp:229-239 | the recorded tag is dismissed and the status becomes idle, without a guard |
| `AppUpdate.AppUpdateService.OnLatestReply` | src/app/src/app_update_service.cpp:309-388 | each kind of reply, `304` included, leaves the state `OnLatest` says |
| `AppUpdate.AppUpdateService.OnNightlyReply` | src/app/src/app_update_service.cpp:390-415 | a nightly replaces the recorded release only if it is newer |
| `AppUpdate.AppUpdateService.RunApplyRelease` | src/app/src/app_update_service.cpp:417-446 | the release is recorded and the status is the verdict on its tag |
| `AppUpdate.CheckRecordsTheNewest` | src/app/src/app_update_service.cpp:370-446 | after one uninterrupted check with nightly on, the recorded release is the newest received, ties to stable, and the status is the verdict on it |
| `AppUpdate.NewerThanIsAsymmetric` | src/app/src/app_update_service.cpp:241-284 | the real version order has the law the update results need |
| `AppUpdate.NotModifiedReproducesVerdictWhen` | src/app/src/app_update_service.cpp:316-332 | a `304` reproduces the standing verdict if and only if nothing is recorded or the recorded release is newer than the running version |
| `AppUpdate.IntendedNotModified` | src/app/src/app_update_service.cpp:316-332 | with the missing test the branch always reproduces it, and differs from the code exactly where the code does not |
| `AppUpdate.NextNotModifiedKeepsTheStatusWhen` | src/app/src/app_update_service.cpp:217-332 | over whole checks: a check answered `304` ends with the status the check before it ended with, if and only if the recorded release is newer than the running version |
| `AppUpdate.NotModifiedCanAnnounceTheRunningVersion` | src/app/src/app_update_service.cpp:316-332 | the diverging run, for every release that is not newer than the running version and came with an entity tag: it is first up to date and, after a `304`, announced |
| `AppUpdate.BannersStayHonest` | src/app/src/app_update_service.cpp:217-446 | from an honest start every banner shown in a run is for a newer, undismissed release if and only if no `304` in the run meets, while checking, a recorded and undismissed release that is not newer |
| `AppUpdate.CheckingWaitsForAReply` | src/app/src/app_update_service.cpp:217-446 | in every run a check that has not ended has a request in flight, and any reply to it ends it |
| `AppUpdate.DismissedStaysDismissed` | src/app/src/app_update_service.cpp:229-239 | after a dismissal no banner of any run names the dismissed tag, in spite of checks in flight, until another tag is dismissed |
| `AppUpdate.UnusableRepliesAreErrors` | src/app/src/app_update_service.cpp:309-430 | a check ends in an error if and only if its request failed or its reply holds no release with a tag, and then the recorded release stays; an unusable nightly changes nothing |
| `AppUpdate.TagIsTheLastReceived` | src/app/src/app_update_service.cpp:296-345 | over every run the entity tag kept for the next request is the last non-empty one received |
| `AppUpdate.NoNightlyUnlessWanted` | src/app/src/app_update_service.cpp:296-345 | over every run in which the option is never on, no nightly is asked for |
| `AppUpdate.ChecksAsk` | src/app/src/app_update_service.cpp:217-307 | a check or a poll asks for the latest release unless the service is disabled; a check does not where one is under way |
| `AppUpdate.DisabledUntilDismissed` | src/app/src/app_update_service.cpp:217-239 | a disabled service with nothing in flight stays disabled over a run if and only if the run dismisses nothing |
| `TauriShim.Shim.OnInvoke` | resources/opendeck-shim/tauri-shim.js:31-110 | event and window commands are answered locally; any other gets the next number, a pending entry, and is sent or queued |
| `TauriShim.Shim.OnChannelReady` | resources/opendeck-shim/tauri-shim.js:125-148 | connecting flushes the queue in order, once; without the object nothing happens |
| `TauriShim.Shim.OnResponse` | resources/opendeck-shim/tauri-shim.js:128-139 | a response settles and removes its pending entry, rejecting exactly on a real error text; an unknown one changes nothing |
| `TauriShim.RequestIdsAreInjective` | resources/opendeck-shim/tauri-shim.js:37-38 | distinct invocations have distinct request ids |
| `TauriShim.EveryRunIsExact` | resources/opendeck-shim/tauri-shim.js:31-148 | in every run the bridge calls made or queued are the non-local invocations, once each, in issue order across the connect boundary; a promise settles at most once, by its own response; pending is issued minus settled |
| `TauriShim.ResponsesSettleTheirOwnPromise` | resources/opendeck-shim/tauri-shim.js:128-139 | a response settles the one unsettled promise whose request it names, rejecting it if and only if its error is neither empty nor `null`; a duplicate or unknown response changes nothing |
| `TauriShim.AppCommandsGoToTheBridge` | resources/opendeck-shim/tauri-shim.js:48-79 | every command other than those of the event and the window plugin is numbered and meant for the bridge |
| `TauriShim.ReadyOnceConnected` | resources/opendeck-shim/tauri-shim.js:125-148 | the shim is connected exactly once the channel has come with the bridge object |
| `BundlePaths.FindBundleRoot` | src/app/src/mirabox_github_installer.cpp:48-76 | the loop finds the root `FindRoot` says |
| `InstallerRuns.RootIs` | src/app/src/mirabox_github_installer.cpp:48-76 | the root of a tree is the directory of its first blob named `manifest.json` the fewest levels down, and there is none exactly when no blob is |
| `BundlePaths.SafePathsHaveNoDotDot` | src/app/src/mirabox_github_installer.cpp:78-97 | a path is safe if and only if it is not empty, has no leading slash, no backslash, no colon, and nowhere `..` between slashes or its ends |
| `BundlePaths.CollectBlobs` | src/app/src/mirabox_github_installer.cpp:221-250 | the collecting loop yields the bundle's blobs exactly when no path, size or count check fails |
| `InstallerRuns.FetchListIsMembers` | src/app/src/mirabox_github_installer.cpp:221-250 | the fetch list is exactly the blobs under the root in tree order, each with its path from the root |
| `InstallerRuns.LimitsAreAcceptable` | src/app/src/mirabox_github_installer.cpp:221-250 | every check of the collecting loop passes if and only if all paths from the root are safe, there are at most 512 files, and no beginning of the list declares more than 64 MiB |
| `BundlePaths.ManifestAtTheRoot` | src/app/src/mirabox_github_installer.cpp:48-97 | an accepted bundle has `manifest.json` at its root; a manifest at `/manifest.json` is refused |
| `BundleInstaller.MiraboxGithubInstaller.OnParentListing` | src/app/src/mirabox_github_installer.cpp:150-191 | the listing yields the directory's tree request, or a failure |
| `BundleInstaller.MiraboxGithubInstaller.OnTreeReply` | src/app/src/mirabox_github_installer.cpp:193-262 | the tree yields the fetch list and the first request, or a failure |
| `BundleInstaller.MiraboxGithubInstaller.FetchNextBlob` | src/app/src/mirabox_github_installer.cpp:264-291 | the next blob is requested, or success is signalled |
| `BundleInstaller.MiraboxGithubInstaller.OnBlobReply` | src/app/src/mirabox_github_installer.cpp:293-333 | the body is counted, capped, written and followed by the next request, or the run fails |
| `BundleInstaller.MiraboxGithubInstaller.EmitFailure` | src/app/src/mirabox_github_installer.cpp:103-111 | a failure signals `finished` with no success, once; what was staged stays where it is |
| `BundleInstaller.FinishesExactlyOnce` | src/app/src/mirabox_github_installer.cpp:103-333 | a run takes at most 514 replies and has signalled exactly once when, and only when, no request is in flight |
| `BundleInstaller.SuccessStagesTheBundle` | src/app/src/mirabox_github_installer.cpp:193-333 | on success the staging area holds exactly one file per blob under the shallowest manifest's directory, with `manifest.json` at its root, at most 512 files and 64 MiB received |
| `InstallerRuns.InstallSucceedsWhen` | src/app/src/mirabox_github_installer.cpp:113-335 | answered by a listing, a tree and blobs, an installation succeeds if and only if there is a network, the path has a parent, the listing names the directory with a hash, the tree's bundle is acceptable, and each of its blobs arrives, can be written, and all are within the byte cap |
| `BundleInstaller.DistinctPathsStayDistinct` | src/app/src/mirabox_github_installer.cpp:221-250 | blobs with distinct paths get distinct destinations |
| `BundleInstaller.StagedBody` | src/app/src/mirabox_github_installer.cpp:293-333 | with distinct destinations every staged file is its own blob's body |
| `HostChild.Child.LoadOnePlugin` | python/ajazz_plugins/_host_child.py:194-251 | a plugin directory is registered under its checked id, or refused with a reason, or raises at the step that does |
| `HostChild.Child.VisitEntry` | python/ajazz_plugins/_host_child.py:278-297 | one entry of a search path emits one event, or none if it is no plugin or something in visiting it raises |
| `HostChild.Child.LoadAllPlugins` | python/ajazz_plugins/_host_child.py:254-298 | the nested loops over search paths and directories emit the events `LoadRoots` says, then the count; an uncaught exception ends them where it occurs |
| `HostChild.Child.List` | python/ajazz_plugins/_host_child.py:301-323 | the inventory, then the number of plugins; or the inventory up to the first plugin whose attributes raise |
| `HostChild.InventoryListsEach` | python/ajazz_plugins/_host_child.py:301-323 | a whole inventory lists each plugin once, in dictionary order, with the attributes its instance has then |
| `HostChild.Child.HandleLine` | python/ajazz_plugins/_host_child.py:410-441 | one turn of the loop leaves the state and emits the events `Process` says, for every line, those that kill the child included |
| `HostChild.RunMain` | python/ajazz_plugins/_host_child.py:410-441 | the loop of the child emits `ready` and then the segments of the run, one after the other, and ends in the run's state |
| `HostChildRuns.SearchPathsAreThoseAdded` | python/ajazz_plugins/_host_child.py:176-191 | after every run the search paths are the distinct resolved paths of the `add_search_path` ops taken up, in the order in which they were first added |
| `HostChildRuns.LoadAllReportsEach` | python/ajazz_plugins/_host_child.py:254-298 | after every run, an uninterrupted `load_all` reports in order on each plugin directory of each search path added so far, and on nothing else: a loadable one with its id, attributes and manifest, another with a refusal; and ends with the count |
| `HostChildRuns.LoadAllRegistersLast` | python/ajazz_plugins/_host_child.py:194-251 | it registers under each id the instance and manifest of the last loadable plugin that reports the id, keeps all other ids, and keeps ids in the order in which they first came |
| `HostChildRuns.LoadAllImportsFrom` | python/ajazz_plugins/_host_child.py:215-220 | it adds to the import path exactly the search paths that hold a directory with an acceptable name |
| `HostChildRuns.DispatchReachesRegistered` | python/ajazz_plugins/_host_child.py:326-371 | after every run, a dispatch is answered by `dispatched` with its ids if and only if both are strings, the plugin was announced as loaded before and its `dispatch` returns |
| `HostChildRuns.ListNamesEach` | python/ajazz_plugins/_host_child.py:301-323 | after every run, an uninterrupted `list_plugins` lists each registered plugin in order with its instance's attributes and its manifest, and then their number |
| `HostChildRuns.OtherAnswers` | python/ajazz_plugins/_host_child.py:410-441 | after every run, a line that is no op is answered by one error of the parser, an unknown op by one that names it, and a search path by its acceptance or by one error |
| `HostChildRuns.ExitsWhenAsked` | python/ajazz_plugins/_host_child.py:374-441 | a run ends in an orderly exit if and only if it takes up a `shutdown` or the crash op of the tests, which is then the last op, answered by its own acknowledgement |
| `HostChild.OneSegmentUnlessUncaught` | python/ajazz_plugins/_host_child.py:176-441 | a non-blank line is answered by exactly one whole segment if and only if no exception that nothing catches occurs while it is handled; otherwise the child dies, having emitted a proper beginning, without a terminator, of the segment it would answer with the faults repaired |
| `HostChild.NulPathIsNeverAnswered` | python/ajazz_plugins/_host_child.py:184-191 | a search path with a NUL, which cannot be resolved, is answered by nothing, and nothing after it is either |
| `HostChild.OutputIsSelfDelimiting` | python/ajazz_plugins/_host_child.py:410-441 | for every sequence of lines, a reader that stops at each op's terminator recovers exactly the segments if and only if nothing uncaught occurs in the run; otherwise it recovers those before the last, finds no end in that one, and the child is dead |
| `HostChild.RunKeepsValid` | python/ajazz_plugins/_host_child.py:132-251 | in every run ids are within the grammar and unique, and every id announced is registered; unless the child died, the plugin and manifest dictionaries have the same keys and they are the ids announced as loaded |
| `HostChild.CountsAreExact` | python/ajazz_plugins/_host_child.py:254-323 | after any run the child did not die of, `load_complete` counts the segment's `plugin_loaded` events and `plugins_complete` the distinct ids loaded, wherever they are emitted |
| `DebugServer.DebugControlServer.OnNewConnection` | src/app/src/debug_control_server.cpp:138-148 | a connection starts with an empty buffer of its own |
| `DebugServer.DebugControlServer.OnReadyRead` | src/app/src/debug_control_server.cpp:150-168 | a read leaves the socket's tail in its buffer and writes the replies to its complete lines; other sockets are untouched |
| `DebugServer.Drain` | src/app/src/debug_control_server.cpp:157-167 | the loop keeps the unterminated tail and writes the replies to the lines of the whole buffer, in order |
| `DebugServer.ProcessRequestLine` | src/app/src/debug_control_server.cpp:170-214 | a blank line answers nothing, any other exactly one line |
| `DebugServer.BlankLinesAreSpaces` | src/app/src/debug_control_server.cpp:170-214 | a line is blank if and only if it is all ASCII white space |
| `DebugServer.SplitAnywhere` | src/app/src/debug_control_server.cpp:150-168 | reading a stream in two parts gives the lines and the tail of reading it at once |
| `DebugServer.EverySocketIsReassembled` | src/app/src/debug_control_server.cpp:138-214 | over any interleaving of connections, disconnections and reads, each socket's requests are the non-blank lines of its bytes, its buffer their tail, and its output splits into one reply line per request, in order, each the answer to its own request |
| `DebugServer.ReceivedIsDelivered` | src/app/src/debug_control_server.cpp:138-168 | a socket's bytes are those delivered since its last connection |
| `DebugServer.SplitIsInvisible` | src/app/src/debug_control_server.cpp:150-214 | buffer, requests and number of replies depend on the bytes delivered alone, not on how reads were split or interleaved, and the i-th line written answers the i-th request |
| `Autogen.ParseReads` | scripts/generate-docs.py:54-59 | every text has a reading as leftmost, shortest, non-overlapping blocks |
| `Autogen.ReadingIsUnique` | scripts/generate-docs.py:54-59 | and only one |
| `Autogen.OnlyKnownBodiesChange` | scripts/generate-docs.py:378-408 | rewriting keeps every token outside blocks, every marker and every unknown block in place; a known block gets its rendered body |
| `AutogenIdempotence.BlocksSurvive` | scripts/generate-docs.py:378-408 | with renderers that emit no END marker, the blocks of the rewritten text are those of the text with rendered bodies |
| `AutogenIdempotence.RewriteIsIdempotent` | scripts/generate-docs.py:378-408 | rewriting twice is rewriting once for settled renderers, those that emit no END marker among them |
| `AutogenCounterexamples.IdempotentExactlyWhenSettled` | scripts/generate-docs.py:378-408 | rewriting is idempotent on every text if and only if no rendered body has an END of a known block, and after the first END of an unknown one leaves no BEGIN open but of the same name |
| `AutogenCounterexamples.OwnEndChanges` | scripts/generate-docs.py:54-59 | a renderer that emits the END marker of its own block makes the block change on the second run |
| `GenerateDocs.Tree.Generate` | scripts/generate-docs.py:414-483 | the command writes, reports and exits as `Pass` says, in both modes, or raises without touching the header |
| `GenerateDocs.Tree.RewriteTargets` | scripts/generate-docs.py:439-451 | the loop over the targets leaves the files and reports what `Pass` says, up to the target that raises |
| `GenerateDocs.CheckWritesNothing` | scripts/generate-docs.py:439-451 | check mode changes no file; it reports exactly the stale targets, or raises if and only if one of them lies outside the root |
| `GenerateDocs.WriteRaisesWhen` | scripts/generate-docs.py:439-451 | a writing run raises if and only if some stale target lies outside the root |
| `GenerateDocs.EachTargetIsRewrittenOnce` | scripts/generate-docs.py:439-451 | a writing run rewrites each existing target once, however often it is listed, and no other file; one that raises leaves each target as it was or rewritten once |
| `GenerateDocs.WriteReportsTheStale` | scripts/generate-docs.py:439-451 | a writing run that ends reports exactly the targets that were stale, each once |
| `GenerateDocs.CheckAfterWriteIsClean` | scripts/generate-docs.py:414-483 | a check right after a writing run that ended raises nothing and reports no file and no header |
| `Foreground.ActiveWindowDebouncer.SubmitFocus` | src/app/src/active_window_debounce.hpp:62-66 | the last focus is pending and the timer restarts |
| `Foreground.ActiveWindowDebouncer.OnTimeout` | src/app/src/active_window_debounce.hpp:69-84 | the pending focus is handed to the callback unless its app is the last one handled |
| `Foreground.WlrToplevelManager.RecomputeFocus` | src/app/src/active_window_watcher_wayland.cpp:126-151 | some activated toplevel with an app id is submitted; without one nothing is |
| `Foreground.WlrToplevelManager.OnState` | src/app/src/active_window_watcher_wayland.cpp:88-101 | the search over the state array stages whether it holds the activated value |
| `Foreground.WlrToplevelManager.OnDone` | src/app/src/active_window_watcher_wayland.cpp:172-175 | the staged activation is committed, then the focus recomputed |
| `Foreground.WlrToplevelManager.OnClosed` | src/app/src/active_window_watcher_wayland.cpp:153-156 | the toplevel is forgotten, then the focus recomputed |
| `Foreground.Application.OnChange` | src/app/src/application.cpp:1736-1781 | terminate of the old app, launch of the new, and a profile load only behind the guard |
| `Foreground.EveryRunAlternates` | src/app/src/application.cpp:1736-1781 | over any run the notifications are launch a, terminate a, launch b with a and b different; `m_lastForegroundApp` is the open app; every delivery stood for 180 ms less the timer's earliness; the active profile is never reloaded |
| `Foreground.DeliverySwitches` | src/app/src/application.cpp:1740-1780 | over every run, a timer delivers the last focus submitted if and only if the watcher is started and that app was not the last handled; then the open app, if another, is terminated and the new one launched, and a profile resolved for it that is not the active one is loaded and, if that works, becomes active |
| `Foreground.OnlyDeliveriesAct` | src/app/src/application.cpp:1740-1780 | no other step acts on the application, but for a selection by hand |
| `Foreground.TimesAscend` | src/app/src/application.cpp:1736-1781 | over every run, what is submitted and delivered later bears a later time or the same |
| `Foreground.ActivationIsCommitted` | src/app/src/active_window_watcher_wayland.cpp:88-175 | a toplevel's activated flag is what its last state before its last `done` said; its app id and title are those it sent last |
| `Foreground.FocusIsCommitted` | src/app/src/active_window_watcher_wayland.cpp:126-179 | a focus is submitted only by a `done` or a `closed`, of a live toplevel whose committed state is activated, and whenever one with an app id is picked; none is picked only where none is activated |
| `Foreground.SubmittedInfoIsCommittedWhen` | src/app/src/active_window_watcher_wayland.cpp:82-179 | the app id and title submitted are those of the toplevel's last `done` if and only if the last `app_id` and the last `title` it sent since, if any, repeat them; they are when its own `done` submits them |
| `Foreground.UncommittedAppIdIsSubmitted` | src/app/src/active_window_watcher_wayland.cpp:82-179 | the run in which they are not: another toplevel's `done` submits an app id that was never committed |
| `Foreground.SettledFocusIsOpen` | src/app/src/active_window_debounce.hpp:62-84 | with the watcher never stopped, a focus that stood for 180 ms and the lateness is the open app, and no app is delivered twice in a row |
| `LunBo.BuiltinActionsService.OnLunBo` | src/app/src/builtin_actions_service.cpp:599-620 | a press runs the action at the key's cursor and advances it; an empty list does nothing; without an engine only the cursor moves |
| `LunBo.BuiltinActionsService.ResetLunBoCursors` | src/app/src/builtin_actions_service.cpp:275-277 | a reset forgets every cursor |
| `LunBo.FallbackKeysAreDistinct` | src/app/src/builtin_actions_service.cpp:168-177 | without a binding id two keys share a cursor if and only if they are the same key of the same page |
| `LunBo.ExplicitIdSharesACursorWhen` | src/app/src/builtin_actions_service.cpp:168-177 | an explicit binding id shares the cursor of a key without one if and only if, cut at its last colon, it is that key's page and its index in decimal; it shares that of another explicit id if and only if they are equal |
| `LunBo.EveryPressRunsTheNext` | src/app/src/builtin_actions_service.cpp:599-620 | for any interleaving of keys and resets, the j-th press of a key since the last reset runs its action j mod n |
| `LunBo.RunsAreFair` | src/app/src/builtin_actions_service.cpp:599-620 | the run counts of a key's actions never differ by more than one |
| `LunBo.OtherKeysHaveNoEffect` | src/app/src/builtin_actions_service.cpp:599-620 | presses of other keys, whatever their lists, leave a key's cursor and runs as if they had not happened |

## Left out

- JSON floating-point numbers, lone surrogates in strings and Python's limit of 4300 digits for an integer: a manifest with a float does not parse in the model.
- Json.PrintTo: that the indented layout has two spaces per level and one after a colon is its definition; no other statement repeats it.
- Ed25519, SHA-256, base64 and PEM reading are functions with the law each proof needs; a law that a forged signature is refused is not needed and not stated. `cmd_keygen` writes files only.
- Reading and writing of files, sockets, HID handles and HTTP is the environment's; `ReadInput` gets the bytes a timed read returned.
- Wire runs cut short by a write error: the driver then releases its lock with a partial frame and specifies no recovery.
- StreamDockWire.SetBrightness: states the bytes sent and makes no claim that a device decodes them, because the percentage replaces the `G` of `LIG`, unlike in `scripts/akp05_color_probe.py:183-186`.
- The JPEG and RGB565 encoders, image scaling and rotation.
- The text of log, error and status messages, and change signals other than those a proof speaks about.
- What the roles of `DeviceModel` make of a descriptor's fields; registries that lose or replace a descriptor, which `DeviceRegistry` does not (`src/core/src/device_registry.cpp:28-47`).
- Non-ASCII case folding in `StartsWithNightly`, and Unicode digits other than ASCII.
- The update checker's poll timer and settings page; which asset a download opens.
- The shim's listener registry and event dispatch, what `JSON.parse` makes of the texts that settle a promise, and JavaScript property names inherited from `Object.prototype` used as response ids.
- `BundleInstaller`: what becomes of the staging directory after a failure, which the installer leaves alone. Two spellings of one path, such as `a//b` and `a/b`, are different files in the model; so is a partly filled fetch list after a failure, which nothing reads.
- The child's import machinery and its reading of manifests from disk: what an import, an attribute or a directory gives, or that it raises, comes with the op. Plugin code that writes to the child's own dictionaries or to its output, and an output pipe closed by the host.
- The content of the debug server's replies: `respond` is any function whose results hold no newline, which compact JSON does not.
- The regular expression engine and its tokenising of a file: texts are already split into begin, end and plain tokens, and a marker keeps its spelling. Renderers' output is a parameter. Line-ending translation on reading and writing.
- Which plugins receive a launch or a terminate: the fan-out to registered plugins and their filters is the plugin server's. Profile resolution and loading are inputs of each delivery. The other desktop back ends.
- Actions that reset the carousel while they run, and the engine's own execution of an action.
- QML, icons, theming, screenshots, packaging, autostart and the finite look-up tables, which hold no property over runs or unbounded inputs.
