# fschanges: the watchman backend and the notify translator, in Dafny

This project models two event sources of the fschanges file-watching engine
and proves what they promise.

- **The watchman backend** (`src/watchman/watchman.cc`) does four things:
  - it turns each watchman "files" response into `create`, `update` and
    `remove` calls on a watcher's event list (`handleFiles`);
  - it builds the ignore expression that a subscription sends to watchman
    (`subscribe`);
  - it keeps the table of subscriptions, keyed by a name derived from the
    watcher's address (`subscribe`, `unsubscribe`, `handleSubscription`);
  - it reads one BSER message in chunks (`readBSER`).
- **The notify translator** (`src/watcher.rs`) drains notify's debounced
  events (`process_events`). It maps each event to zero, one or two
  broadcasts. It then calls every registered callback once per broadcast
  whose path is valid UTF-8 (`broadcast_event`).

Files:

- `wrappers.dfy`: `Option` and `Outcome`. An `Outcome` is `Pass`, or
  `Fail` with the message the source throws.
- `sequences.dfy`: `FlatMap`, which maps each element to a sequence and
  concatenates the results in order, with its lemmas. Each of the three
  loops here is a `FlatMap`:
  - each record appends its event;
  - each ignore rule adds its term;
  - each debounced event makes its callback calls.
- `watchman_files.dfy`: the file record and the record classifier. It also
  holds the specification `Translate` of a whole response, the `Watcher`
  class whose `events` log is appended to, and `HandleFiles`.
- `watchman_backend.dfy`: the ignore expression and the subscription name.
  It also holds the `Backend` class, whose `subscriptions` map and `sent`
  log are updated in place.
- `watchman_read.dfy`: the `readBSER` loop. The byte source and BSER's
  length decoder are parameters.
- `notify_watcher.dfy`: the `ParcelWatcher` class, with its callbacks, its
  pending events and its log of callback calls.

Where the loops of the source update state, the model does so too. The
watchman loop appends to `Watcher.events`, and the ignore loop pushes onto
a local sequence. The Rust loops call callbacks, which the model records in
`ParcelWatcher.invocations`. Each such method is proved equal to a
function of its inputs and old state: `Translate`, `IgnoreExpression`,
`Received`, `BroadcastInvocations` or `Processed`. The lemmas about those
functions carry what the source promises.

Three behaviours of the code are worth stating plainly:

- **Ignore rules and the watchman expression.** The expression sent to
  watchman holds a `dirname` term only for rules under `root + "/"`. A rule
  outside the root is dropped, and a rule equal to the root itself yields no
  term either.
- **Event order.** `handleFiles` appends its calls in record order. It does
  not move deletes ahead of creates; any reordering would happen in the
  event list (Event.hh), which is not part of this model.
- **One entry per watcher.** The watchman table is keyed by a name derived
  from the watcher object's address. Every entry is filed under its own
  watcher's name (`Backend.Valid`), so the table holds at most one entry per
  watcher and keeps no count of how many watchers share a root.

## Model

| member | source | states |
|---|---|---|
| WatchmanFiles.Classify | src/watchman/watchman.cc:134-140 | A new record that exists is a create. An existing, not-new, non-directory record is an update. A record that is neither new nor existing is a remove. Nothing is produced exactly for new-but-gone records and for existing, not-new directories. Each clause is an if-and-only-if, and the event is at the record's path. |
| WatchmanFiles.RecordPath | src/watchman/watchman.cc:129 | The event path is the watch root, then `/`, then the record name. Both parts can be recovered from the path. |
| WatchmanFiles.RecordEventsCases | src/watchman/watchman.cc:130-140 | What one record contributes in each branch of the loop body: nothing when ignored, otherwise the classifier's one event or nothing. |
| WatchmanFiles.HandleFiles | src/watchman/watchman.cc:113-142 | Without "files", the error message is returned and the event list is unchanged. With "files", the event list gains exactly `Translate` of the records, in record order. |
| WatchmanFiles.TranslateSound | src/watchman/watchman.cc:120-141 | Every appended event comes from some record. Its path is that record's path, the path is not ignored, and the event is the record's classification. |
| WatchmanFiles.TranslateComplete | src/watchman/watchman.cc:120-141 | Every record whose path is not ignored and that classifies to an event has that event in the result. |
| WatchmanFiles.TranslateAtMostOnePerRecord | src/watchman/watchman.cc:134-140 | A response appends at most one event per record. |
| WatchmanFiles.TranslateAppend | src/watchman/watchman.cc:120 | Records are handled one after another: translating a concatenation is concatenating the translations. |
| WatchmanFiles.IgnoredRecordSkipped | src/watchman/watchman.cc:130-132 | An ignored record adds nothing, and the records after it are handled as if it were absent. |
| WatchmanBackend.IgnoreTermsExact | src/watchman/watchman.cc:306-315 | `dirname(relative)` is a term iff `root + "/" + relative` is one of the ignore rules. Both directions are proved: no rule under the root is lost, and none is invented. |
| WatchmanBackend.IgnoreTermsShape | src/watchman/watchman.cc:306-315 | Every term is a `dirname` term, and there are at most as many terms as rules. |
| WatchmanBackend.BuildIgnoreExpression | src/watchman/watchman.cc:301-321 | An expression is attached iff there is at least one ignore rule, and it is `not(anyof(terms))` over the terms above. |
| WatchmanBackend.Hex | src/watchman/watchman.cc:269 | A printed address has at least one digit, and at least two from 16 on. |
| WatchmanBackend.SubscriptionId | src/watchman/watchman.cc:266-271 | Every subscription name starts with `fschanges-`. |
| WatchmanBackend.HexDigitInjective | src/watchman/watchman.cc:269 | Distinct hexadecimal digit values print as distinct characters. |
| WatchmanBackend.HexInjective | src/watchman/watchman.cc:269 | Distinct addresses print as distinct numerals. |
| WatchmanBackend.SubscriptionIdInjective | src/watchman/watchman.cc:266-271 | Watchers at distinct addresses get distinct subscription names. |
| WatchmanBackend.OneEntryPerWatcher | src/watchman/watchman.cc:280-281 | In a table where every entry is filed under its watcher's name, two entries whose watchers share an address are the same entry. |
| WatchmanBackend.EraseKeepsOthers | src/watchman/watchman.cc:330-331 | In such a table, erasing one watcher's name keeps the entry of every watcher at another address, unchanged. |
| WatchmanBackend.Backend.Subscribe | src/watchman/watchman.cc:273-327 | Keeps every entry filed under its watcher's name. `watch`, then a table entry is added unless the name is present (an existing entry is kept), then `clock`. Without a clock, the clock error is returned and the entry stays. With a clock, `subscribe` is sent with the name, the four fields, the clock and the ignore expression. |
| WatchmanBackend.Backend.Unsubscribe | src/watchman/watchman.cc:329-341 | Keeps every entry filed under its watcher's name. The watcher's name is removed from the table, and the entry of every watcher at another address stays as it was. `unsubscribe` is sent iff an entry was removed. |
| WatchmanBackend.Backend.HandleSubscription | src/watchman/watchman.cc:144-155 | An unknown name changes no watcher. A known name's watcher gains `Translate` of the files and one notification. When "files" is missing, it gets the error and no notification. No other watcher changes. |
| WatchmanBackend.UnsubscribeTwice | src/watchman/watchman.cc:329-341 | Unsubscribing twice removes only the watcher's name from the table. The log gains exactly one `unsubscribe` when the watcher was registered and nothing otherwise: the second call is a no-op. |
| WatchmanBackend.SubscribeThenUnsubscribe | src/watchman/watchman.cc:273-341 | Subscribing a new watcher and then unsubscribing it restores the table, and the last request sent is its `unsubscribe`. |
| BserRead.ReceivedSnoc | src/watchman/watchman.cc:26 | Each read appends the bytes it returned to what was collected. |
| BserRead.ChunkSizesExtend | src/watchman/watchman.cc:25 | A read that asks for the missing part of the message, capped at 256, keeps the chunk-size rule. |
| BserRead.ReadBser | src/watchman/watchman.cc:16-37 | The first read asks for 20 bytes. Every later read asks for the still-missing part, capped at 256 and never zero. The result is the concatenation of the reads, holds the whole announced message, and goes past its end by no more than the 20-byte probe took. |
| ParcelWatcherModel.Broadcasts | src/watcher.rs:67-79 | Create → "create". Remove → "delete". Write and Chmod → "update". Rename → "delete" of the old path, then "create" of the new one. Every other event → nothing. |
| ParcelWatcherModel.FanoutExact | src/watcher.rs:53-55 | A broadcast calls every callback exactly once, in vector order, each with the same event. |
| ParcelWatcherModel.NonUtf8PathSilent | src/watcher.rs:44-57 | A path that is not valid UTF-8 calls no callback. |
| ParcelWatcherModel.BroadcastCallsRegistered | src/watcher.rs:53-55 | Every call a broadcast makes is of a registered callback. |
| ParcelWatcherModel.AllInvocationsOne | src/watcher.rs:68-71 | An arm with one broadcast makes exactly that broadcast's calls. |
| ParcelWatcherModel.AllInvocationsTwo | src/watcher.rs:72-75 | The rename arm makes the calls of its first broadcast, then those of its second. |
| ParcelWatcherModel.ProcessedSnoc | src/watcher.rs:64-80 | Each further event adds the calls of its own broadcasts after the calls already made. |
| ParcelWatcherModel.ProcessedPrefix | src/watcher.rs:64 | Taking the next event from the receiver adds that event's calls. |
| ParcelWatcherModel.ProcessedAppend | src/watcher.rs:64-80 | Draining two batches in turn makes the same calls as draining them as one. |
| ParcelWatcherModel.RenameDeleteBeforeCreate | src/watcher.rs:72-75 | A rename with UTF-8 paths calls every callback with "delete" of the old path before any callback sees "create" of the new one. That is 2 × callbacks calls, in vector order. |
| ParcelWatcherModel.UnhandledEventsSilent | src/watcher.rs:76-78 | Any number of NoticeWrite, NoticeRemove, Rescan and Error events calls no callback. |
| ParcelWatcherModel.ProcessedCallsRegistered | src/watcher.rs:61-81 | Every call made while processing events is of a registered callback. |
| ParcelWatcherModel.ParcelWatcher.constructor | src/watcher.rs:31-41 | A new watcher has no callbacks, no pending events and has made no calls. |
| ParcelWatcherModel.ParcelWatcher.BroadcastEvent | src/watcher.rs:43-59 | The calls made are exactly `BroadcastInvocations`: none for a non-UTF-8 path, else one per callback in order. |
| ParcelWatcherModel.ParcelWatcher.HandleEvent | src/watcher.rs:67-79 | One arm of the `match` makes exactly the calls of `Broadcasts(event)`. |
| ParcelWatcherModel.ParcelWatcher.ProcessEvents | src/watcher.rs:61-81 | The receiver is drained and the callbacks are unchanged. The calls made are exactly `Processed` of the pending events, in the order received. |

## Left out

- Event.hh is not part of this model. It coalesces create, update and remove calls on a watcher's event list. The list is modelled as an append-only log of the calls made on it.
- DirTree snapshots and snapshot diffing are not part of this model.
- `writeSnapshot` and `getEventsSince` are left out. They are socket and file I/O around `clock` and `handleFiles`, and both of those are modelled.
- Socket and process I/O are left out: `getSockPath`, `watchmanConnect`, `checkAvailable`, `watchmanRequest` and the `start()` thread. Each request sent is appended to `Backend.sent`, and the one response used (the clock) is a parameter of `Subscribe`.
- The destructor and the mutex are left out. Each method is modelled as one atomic step.
- BSER encoding and decoding are left out. `readBSER` returns the collected bytes, and `decodeLength` together with `tellg` is an uninterpreted function of the probe.
- BserRead.ReadBser: assumes that a read of n bytes returns at most n bytes, and at least one when n > 0. Without that, the source loops forever once the stream ends, so termination is not modelled for a read that returns nothing.
- BserRead.ReadBser: `len` is a 64-bit signed integer and `r` an `int` in the source. The model uses unbounded integers, so an overflow of `l + tellg()` is not modelled.
- WatchmanBackend.Backend.HandleSubscription: requires a "subscription" key. The source dereferences the missing key without a check, which is undefined behaviour.
- WatchmanFiles.HandleFiles: records always carry "name", "mode", "new" and "exists". The source dereferences missing keys without a check.
- `Watcher::isIgnored` is a function of the path, because Watcher.hh is not part of this model.
- `mIgnore` is an unordered set in the source. The model uses a sequence, so the order of the `dirname` terms follows that sequence, not the set's hash order.
- `getId` prints the address in lowercase hexadecimal with a `0x` prefix. This is the usual form of pointer output, but the exact form is implementation-defined.
- The Windows build is not modelled: the `/` to `\` replacement in names, the `\` separator, and its `S_ISDIR` variant. The model uses POSIX `S_ISDIR` on the low 32 bits of the mode.
- The debounce delay is not modelled, and neither is the `printf` and `println!` output.
- `ParcelWatcher::new` can fail when notify's watcher cannot be created. Only the success path is modelled.
- `watch` is not modelled. It hands the directory to notify's watcher, which is not part of this model.
- Registration of callbacks is not modelled. The source never adds one, so `callbacks` is a field and every property holds for any callback sequence.
- `Path::to_str` is a function from the path to an optional string. UTF-8 validation belongs to the standard library, which is not part of this model.
- FSChanges.cc, lib.rs, error.rs and BruteForceBackend are not part of this model. Neither are the build and test scripts.
