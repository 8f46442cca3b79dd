# ts1p, modelled and proved in Dafny

ts1p is a secrets service in layers: an HTTP API (`server`) over setec's version rules (`store`), over an
expiring, coalescing read cache (`backend/cache`), over a backend: 1Password (`backend/onepassword`) or a map
in memory (`backend/mem`). This project models each layer and proves what the layers promise one another.

| file | contents |
|---|---|
| `Records.dfy` | a record as a value and as Go's maps and slices, and when two are equal |
| `Versions.dfy` | the version rules as a machine on a bare map, its invariant, and histories of runs |
| `ReadCache.dfy` | the cache's critical sections as functions, and the class `Cache` that does them in place |
| `Protocol.dfy` | the whole running service as a step system: threads, flights, the write mutex, eviction, flushes, the clock, edits from outside |
| `Coherence.dfy` | the inductive invariant of that system and the proof that every step keeps it |
| `Guarantees.dfy` | what follows for clients, over every run |
| `Provenance.dfy`, `Freshness.dfy` | what still holds when others edit the vault behind the cache: nothing returns after a denial, nothing older than a Save after it |
| `Text.dfy`, `Meta.dfy` | decimal, base64 and JSON text with printers and parsers; the `ts1p-meta` field |
| `Vault.dfy`, `VaultLaws.dfy`, `OnePassword.dfy` | the 1Password backend over a vault whose calls may fail: functions, laws, and the class in place |
| `VaultWorks.dfy` | when the operations of the 1Password backend succeed, and what their errors mean |
| `Traffic.dfy` | the same backend with many callers at once sharing the title memo: each operation is atomic all the same |
| `SdkCall.dfy` | one guarded call into the SDK: retries, faults, timeouts, exits |
| `Stack.dfy` | the version rules run straight on the 1Password backend |
| `Lifetimes.dfy` | how long the cache serves what was stored, what it serves in an outage, and that failures reported are real |
| `Gaps.dfy` | runs that show where the cache's promises end |
| `Currency.dfy` | exactly when the forced load of a store write is current, whatever happened before |
| `Store.dfy` | the store in place on a backend that may fail; reads and the sorted listing; the journal of effects |
| `Server.dfy` | the API handlers as traces of audit entries, backend accesses and responses |
| `Replies.dfy` | exactly what every request is answered |
| `Warmer.dfy` | the warmer's scheduling loop as a timed step system among other users of the cache, and its deadline map in place |
| `WarmerLaws.dfy` | how late a refresh can be, exactly which mishaps let a key go cold, and when a secret deleted elsewhere leaves the cache |
| `Isolation.dfy` | records as heap objects: cloning in and out makes shared references behave like values |

`dafny verify dfyconfig.toml` checks everything.

## How to read it

Code that changes state in place is a class or a method whose `ensures` equates the new state with a function of
the old one; the laws are lemmas about those functions. Where several goroutines interleave, each critical
section, inner call and decision of the environment is one step, and the laws quantify over all sequences of
steps. History variables (`Coherence.History`, `Provenance.Trace`, the past in `Traffic.System`) record the past of a
run; no guard of a step system reads them.

The central argument is in `Coherence.dfy`. A write has up to three steps after it holds the mutex (inner commit;
sequence bump with its cache update; for a delete, dropping the name list). The history numbers the inner states
and remembers, for each sequence number, how many writes had reached the cache when it was current (`marks`). A
flight is keyed by the sequence number its callers read, so whatever it fetched is no older than `marks` of that
number, and a caller that started after a completed write holds a number whose mark already counts that write.
Hits, negatives and the outage fallback need one more fact: a resident answer is the bare map's answer at the last
completed write, or at the single pending one.

## Assumptions

- In `Coherence.dfy` and `Guarantees.dfy` a write the inner backend refuses has had no effect there. `mem` satisfies
  this. The 1Password backend does not always: `call` may report the caller's cancellation for a write that was
  applied (backend/onepassword/onepassword.go:400-404). Such a write is a refused commit followed by an edit from
  outside (`Gaps.AppliedButFailed`), so everything in `Provenance.dfy` and `Freshness.dfy`, where edits from outside
  may come at any moment, holds with it too, and `Stack.RunsRefine` covers that backend for operations one at a
  time. The currency of the forced load then depends on the flights under way when the writer gets the mutex:
  `Currency.CurrentIff` gives the exact condition, over every state that any run, such writes and edits included,
  can reach.
- At most one write is in progress through a cache. `Store.mu` provides it (store/store.go:78-86), and the step
  system contains that mutex.
- The cache's sequence number is an unbounded natural (it is 64 bits wide in the code). A secret's version is 32
  bits wide and wraps in the model as it does in the code.
- The inner backend answers each call at one moment between the call's beginning and its end. `mem` holds a mutex;
  for the 1Password backend `Traffic.OperationsAreAtomic` proves it, from calls into the SDK that do so.
- A failed SDK mutation has either taken effect by the time it is reported or never will.
- Jitter may be any value of its range, and an inner call may fail at any time, with any of the error classes the
  code tells apart.
- The warmer's own computing takes no time; its calls, its relists and its timer's lateness take what
  `WarmerLaws.Limits` allows. Its forced Load opens a flight of its own, or joins a client's, applied to the cache or
  not.
- The warmer's cadence is the exact floor of three quarters of the lifetime. The code multiplies a float64, which
  gives the same number for every lifetime below 34 days.

## What the proofs turned up

- `Put` increments a 32-bit version without a check (store/store.go:262). On a plain map, which is what `mem` is,
  a `Put` of another value after `CreateVersion` with the largest version assigns version 0 and breaks the
  record's invariant: `Versions.ExecKeepsSoundIff` gives the exact condition, `Versions.WrapIsReachable` the two
  requests. The 1Password backend refuses to encode the wrapped record, so there the `Put` fails and changes
  nothing (`Stack.WrapIsRefused`), and no run on it loses the invariant (`Stack.RunsRefine`).
- The backend contract has deleting a missing secret succeed (backend/backend.go:132-134). The 1Password backend
  reports an error exactly when its memo still holds an ID for the missing name
  (`VaultLaws.DeleteMissingIff`), for instance on retrying a `Delete` whose failed call had been applied
  (`VaultLaws.StaleAfterFailedDelete`). `Load` re-resolves a stale ID; `Delete` does not.
- `Save` re-resolves a stale ID too, but uses what it finds only to learn that the title is gone. If another item has
  taken the title of one that is gone (deleted and made again in 1Password, say), the next `Save` fails although
  every other call works, and mends the memo: `VaultWorks.SaveSucceedsIff` gives the exact condition. The store's
  writes are spared, since their `Load` mends the memo first (`Stack.ExecuteSucceedsIff`).
- Deleting a version makes the stored text shorter exactly when a version is already deleted or the removed value
  has at least four bytes (`Meta.DeleteVersionShrinksIff`). A record near the size ceiling may therefore be refused
  for size when it is shrunk that way; `VaultLaws.ShrinkingIsTooLargeIff` says exactly which.
- The warmer takes a refresh for a success even when a change to the cache, of any name, landed while it waited
  and the cache discarded its answer (backend/cache/cache.go:145-152). If it had found the secret, the key is due
  again only after its entry has expired (`WarmerLaws.DiscardedFillStrands`). If it had found the secret missing,
  the warmer forgets the key and the cache goes on serving the deleted secret until its expiry: a later relist
  only evicts names that still have a deadline (`WarmerLaws.FoundMissingIsEvictedIff`, and
  `Gaps.LateDenialIsServed` step by step).
- A rate-limited or permanently failing refresh parks its key for a whole cadence, by which time its entry has
  expired (`WarmerLaws.ParkingStrands`). Were calls instant, keys would stay warm if and only if no refresh is
  parked or discarded, nothing is pushed out for capacity, and a twentieth of the lifetime exceeds five seconds for
  each refresh failing in a row and, for each refresh, failing or not, the waits after failing relists
  (`WarmerLaws.KeepsWarmIff`): over 100 seconds of lifetime for each failing refresh when relists do not fail
  (`WarmerLaws.KeepsWarmPerFailure`).
- A write that 1Password applied but the backend reported as failed does not move the cache's sequence number, nor
  does an edit in the vault itself. The next write to the secret may then join a read opened before. Its load can
  end with exactly two kinds of answer: what the backend holds, and what a flight of that name under the current
  sequence number held already when the writer got the mutex (`Currency.LoadsIff`). It is current, on every
  continuation, if and only if no such flight holds anything else (`Currency.CurrentIff`), and a `Put` can give a
  version number out again if and only if such a flight would make it (`Currency.ReissuesIff`);
  `Gaps.FailedWriteIsOvertaken` is a run that does, with other bytes.

## Model

| member | source | states |
|---|---|---|
| Guarantees.ReadAfterWrite | backend/cache/cache.go:131-229 | a Load or List started after a write returned answers with the bare map's answer at some moment no earlier than that write, whether by hit, shared flight, negative or outage fallback, however old the fetches still in flight |
| Guarantees.ForcedLoadIsCurrent | store/store.go:67-76 | the forced load inside a read-modify-write, not-found included, is the inner backend's current state |
| Guarantees.NoLostUpdate | store/store.go:233-270 | the record about to be committed was computed from the very record it will replace, and no other write is in progress |
| Guarantees.WritesAreSerial | store/store.go:67-86 | at every moment of every run the inner contents are those of running the logged operations one by one; the log holds exactly the operations of threads that took effect, each once and with the outcome its caller is given; every acknowledged one is there, and none refused by the backend |
| Guarantees.RealTimeOrder | store/store.go:78-86 | an operation that took effect before another began stands before it in that order |
| Guarantees.ResidentIsTruth | backend/cache/cache.go:144-210 | each resident record, negative or name list is the inner backend's answer, unless a write affecting it stands between its inner commit and its last cache step |
| Guarantees.StoreStaysSound | backend/backend.go:38-57 | concurrent operation keeps every record well formed unless some Put went past the last version |
| Guarantees.ConcurrentPuts | store/store.go:220-271 | concurrent Puts of pairwise distinct values to a fresh name hold exactly versions 1..k, each Put told the number of its own value, version 1 active |
| Guarantees.RunKeeps | backend/cache/cache.go:23-29 | the whole invariant holds in every reachable state |
| Coherence.StepKeepsCoherence | backend/cache/cache.go:131-336 | every step keeps the invariant over flights, sequence numbers, residents, readers, the mutex and the pending write |
| Guarantees.OneFetchPerKey | backend/cache/cache.go:191-193 | in every reachable state at most one fetch per sequence number and name is in flight |
| Lifetimes.ServedWhileLive | backend/cache/cache.go:115-129 | over every run, edits from outside included: a read is answered from the cache only with what a fetch or a Save stored and nothing removed since; always while that is younger than four fifths of the lifetime, never once it is six fifths old; a not-found for exactly a tenth of it or 30 seconds; without expiry always |
| Lifetimes.StaleOnlyInOutage | backend/cache/cache.go:211-228 | a read that waited for a fetch ends with the fetch's own reply, except an ordinary one whose fetch met an outage while a record or name list is stored: that gets what is stored, however old |
| Lifetimes.FailuresAreReal | backend/cache/cache.go:179-315 | a failure is reported to a reader or a writer only if some inner call met it |
| Coherence.KeepsFlights | backend/cache/cache.go:131-142 | what a flight fetched is no older than the writes counted when its sequence number was current |
| Coherence.WokenFits | backend/cache/cache.go:211-228 | a waiter's answer, from its flight or from the fallback, is no older than the writes complete when it started |
| Coherence.KeepsApply | backend/cache/cache.go:145-173 | a fill guarded by the sequence number keeps the invariant: what becomes resident is the bare map's answer at the last completed write or at the pending one |
| Coherence.KeepsRefresh | backend/cache/cache.go:238-245 | the cache step of a Save keeps the invariant and completes the write: residents belong to the state it committed |
| Coherence.KeepsEvict | backend/cache/cache.go:321-326 | the eviction step of a Delete keeps the invariant: records then belong to the new state while the name list may still be the old one |
| Coherence.KeepsDrop | backend/cache/cache.go:309-312 | dropping the name list keeps the invariant and completes the Delete |
| Coherence.EffectStep | store/store.go:224-400 | each operation takes effect at one step, where inner contents and outcome are the bare machine's |
| Coherence.StepKeepsRefinement | store/store.go:224-400 | every step keeps the inner contents equal to the bare machine run on the log |
| Provenance.NoResurrection | backend/cache/cache.go:154-173 | with edits from outside: once a not-found was applied under a current sequence number, a read begun later, a client's or a store write's, returns a record for that name only if a Save's cache step, or the start of a fetch that found it, came after |
| Provenance.ForcedReadIsFetched | backend/cache/cache.go:198-223 | a forced read, a client's or the one inside a store write, answers with what an inner fetch of its target returned, failures included, never with a resident value |
| Provenance.EvictedUntilSupplied | backend/cache/cache.go:154-173 | with edits from outside, a record resident under a name once denied was supplied by a Save or a fetch after that denial |
| Freshness.SaveIsFollowed | backend/cache/cache.go:232-248 | with edits from outside: once a Save's cache step is done, a read of that secret begun later, a client's or a store write's, is answered, found or not, with what that Save stored, what a later one did, or what a fetch begun after that step returned |
| Freshness.StepKeepsFresh | backend/cache/cache.go:131-248 | every step, outside edits included, keeps residents, flights and answers no older than the Saves they follow |
| Currency.LoadsIff | backend/cache/cache.go:131-142 | from any reachable state, edits from outside and writes applied but reported failed included: a store write that has just got the mutex can load an answer, its secret not being edited meanwhile, if and only if the inner backend holds it or a flight of that name under the current sequence number already does |
| Currency.CurrentIff | store/store.go:67-76 | that load is the inner backend's current state on every such continuation if and only if no such flight holds another answer |
| Currency.ReissuesIff | store/store.go:258-270 | a Put over a well-formed record can be about to commit under a version number its secret has already used if and only if such a flight holds an answer from which it would |
| Currency.OvertakenReissues | backend/onepassword/onepassword.go:400-404 | in a reachable state after a write applied but reported failed, the next Put's load need not be current and its version number may be one already used |
| Gaps.LateDenialIsServed | backend/cache/cache.go:159-173 | a secret deleted elsewhere, whose forced read has just answered not-found, is still served from the cache, when any other name was evicted or written while that read waited |
| Gaps.FailedWriteIsOvertaken | backend/onepassword/onepassword.go:400-404 | after a write applied but reported failed, the next write can join a fetch opened before it, and gives the same version number out again with other bytes, though nobody edits the secret once it has begun |
| Provenance.StepKeeps | backend/cache/cache.go:154-229 | every step, outside edits included, keeps residents, flights and answers newer than the denials they follow |
| Versions.ExecKeepsSoundIff | store/store.go:224-387 | an operation keeps every record well formed (live active version, no version 0, live and deleted disjoint, latest bounding all) if and only if it is not a Put past the largest version |
| Versions.WrapIsReachable | store/store.go:262-263 | on a plain map two ordinary requests on an empty store reach the wrap-around: version 0 is assigned |
| Versions.RunsKeepSound | store/store.go:224-400 | runs without that wrap keep every record well formed |
| Versions.HistoryGrows | backend/backend.go:49-56 | between two full deletes the latest version and the claimed set only grow, a live version's bytes never change, nothing deleted comes back |
| Versions.ClaimedForever | store/store.go:273-303 | a version ever assigned is refused for as long as the secret exists, and a Put that allocates never reuses one |
| Versions.DistinctPuts | store/store.go:220-271 | Puts of distinct values to a fresh name, mixed with anything on other names, yield exactly versions 1..k in order, version 1 active |
| Versions.ActiveIsLastRequested | store/store.go:301-343 | over any run the active version is the one the last accepted Activate or CreateVersion asked for, and no other operation moves it |
| Versions.RepeatingIsHarmless | store/store.go:220-256 | repeating a Put, Activate or Delete changes nothing more and is answered the same; repeating an accepted CreateVersion is refused |
| Versions.PutIsReadable | store/store.go:224-271 | an acknowledged Put reads back under the version it was told and leaves the active version alone |
| Versions.PutLeaves | store/store.go:224-271 | the exact store and answer after a Put, field by field and version by version: a new name gets version 1, active; otherwise the next version is added, inactive, unless the latest is live with these bytes; nothing is deleted and no other version or secret changes |
| Versions.CreateVersionLeaves | store/store.go:275-310 | the same for CreateVersion: the version asked for holds the bytes given and is active, every other version stays as it was; a version ever assigned is refused |
| Versions.ActivateLeaves | store/store.go:313-345 | the same for Activate: only the active version moves, and only to a live one |
| Versions.DeleteVersionLeaves | store/store.go:349-387 | the same for DeleteVersion: the version is absent and claimed, all else as before; the active one is refused |
| Versions.DeleteLeaves | store/store.go:391-400 | the same for Delete: the name is absent, no other secret changes |
| Versions.ReadsLastWritten | store/store.go:166-400 | after any run a version reads as what the last request answered with that version wrote, unless an accepted delete came after, and is claimed exactly if it was given out since the secret was last deleted whole |
| ReadCache.Cache.Load | backend/cache/cache.go:179-229 | with no other caller in the way: a hit on an unexpired entry, a fetch with guarded fill, or a resident record in an outage, told from the entry itself and as the specification functions say; from a coherent cache every answer is the inner backend's, and the cache stays coherent |
| ReadCache.Cache.List | backend/cache/cache.go:252-299 | the same for the name list |
| ReadCache.Cache.Save | backend/cache/cache.go:232-248 | write-through: refused writes change nothing, accepted ones update inner contents and cache together, coherence is kept |
| ReadCache.Cache.Delete | backend/cache/cache.go:303-315 | the same for a delete: inner record, cached record and name list all go |
| ReadCache.Cache.Remove | backend/cache/cache.go:321-326 | evicts one name and moves the sequence number on |
| ReadCache.Cache.Purge | backend/cache/cache.go:330-336 | drops every entry and moves the sequence number on |
| ReadCache.Cache.Store | backend/cache/cache.go:145-152 | a fill happens only under an unchanged sequence number |
| ReadCache.Cache.StoreNotFound | backend/cache/cache.go:159-173 | a not-found evicts the resident value, and is cached only when expiry is on |
| ReadCache.CoherentAfterSave | backend/cache/cache.go:238-245 | the cache step of a Save keeps a coherent cache coherent with the new inner contents |
| ReadCache.CoherentAfterDelete | backend/cache/cache.go:303-315 | so do the two cache steps of a Delete |
| ReadCache.LifetimeIsJittered | backend/cache/cache.go:104-124 | the lifetimes an entry can get are exactly those within a fifth of the base lifetime |
| ReadCache.NegativeIsBrief | backend/cache/cache.go:49-52 | after a not-found nothing is left to fall back on; it is answered from the cache for less than 30 seconds and less than a tenth of the lifetime, and never without expiry |
| Records.EqualIsSameMeaning | backend/backend.go:97-113 | the comparison is exactly equality of what the records mean, nil and empty identified |
| Stack.RunsRefine | store/store.go:220-400 | any sequence of operations on a 1Password vault that holds some names alongside anything else, unreadable items and duplicated titles included, whatever calls fail, is explained by a run of the bare map machine on a log holding every acknowledged operation on those names with its outcome and only those failed writes that got through; from well-formed records no run ever wraps a version |
| Stack.WrapIsRefused | backend/onepassword/onepassword.go:1007-1023 | a Put past the largest version fails on this backend and changes nothing in the vault |
| Stack.ExecuteSpares | backend/onepassword/onepassword.go:805-934 | an operation on one name changes no other name's answer, whatever the vault holds |
| Stack.ExecuteRefines | store/store.go:220-400 | one operation on the vault: answered, it did what the bare machine does; failed, that or nothing; every other secret unchanged |
| Stack.LoadIsTrueOrFails | backend/onepassword/onepassword.go:754-791 | however stale the memo and whatever fails, a Load gives the memo-free answer or reports a failed call |
| Stack.ExecuteSucceedsIff | store/store.go:224-400 | an operation none of whose calls fails, but for the Get of a remembered item that is gone, is answered just as the bare map answers it, unless the record it leads to does not fit the backend, or it is a Delete by the ID of an item gone |
| VaultLaws.SaveRefinesMap | backend/onepassword/onepassword.go:805-872 | whatever else the vault holds, a Save changes no other name's answer; for a title borne by at most one item, after a completed Save, Load(name) is Equal to what was saved, non-managed fields survive in order and exactly one meta field is present; a failed Save did that or nothing |
| VaultLaws.DeleteRefinesMap | backend/onepassword/onepassword.go:916-934 | whatever else the vault holds, a Delete changes no other name's answer; for a title borne by at most one item, a completed Delete leaves the name absent; a failed one did that or nothing |
| VaultLaws.DeleteMissingIff | backend/onepassword/onepassword.go:916-934 | deleting a missing secret, every call working, succeeds if and only if the memo holds no ID for it |
| VaultLaws.StaleAfterFailedDelete | backend/onepassword/onepassword.go:926-933 | a run in which retrying a Delete that was applied but reported failed is an error |
| VaultWorks.SaveSucceedsIff | backend/onepassword/onepassword.go:805-872 | a Save of a record that fits, every call working, succeeds if and only if it is not that the memo remembers an item gone while another has taken its title; then it reports the failed Get and mends the memo |
| VaultWorks.DeleteSucceedsIff | backend/onepassword/onepassword.go:916-934 | a Delete, every call working, succeeds if and only if the memo does not remember an item that is gone |
| VaultWorks.DeleteTwice | backend/onepassword/onepassword.go:926-933 | a Delete done again after it succeeded succeeds again |
| VaultWorks.SaveErrs | backend/onepassword/onepassword.go:805-872 | a Save is refused exactly for an empty name, an inconsistent record or one over 1 MiB, for a duplicated title, or because one of its calls failed |
| VaultWorks.LoadErrs | backend/onepassword/onepassword.go:754-791 | a Load reports a failed call only if one of its calls failed |
| VaultWorks.DeleteErrs | backend/onepassword/onepassword.go:916-934 | a Delete fails only for a duplicated title or because one of its calls failed |
| VaultWorks.SavedFields | backend/onepassword/onepassword.go:849-872 | after a successful Save the item holds the fields it had that ts1p does not own, in order, and then the text for humans and the encoded record, both concealed |
| VaultWorks.ForeignKeepsOrder | backend/onepassword/onepassword.go:855-864 | what is kept of two runs of fields is what is kept of each, in order |
| VaultWorks.ForeignIsNotOwned | backend/onepassword/onepassword.go:1055-1067 | a field is kept unless its title or ID is one of the two that ts1p owns |
| VaultWorks.FirstMetaDecides | backend/onepassword/onepassword.go:1069-1079 | the first field titled or identified as the meta field is the record; without one there is none |
| VaultWorks.ListingSavesCalls | backend/onepassword/onepassword.go:894-912 | after a listing a Load of a title that one item bears makes a single call |
| VaultLaws.StaleMemoIsHarmless | backend/onepassword/onepassword.go:653-702 | a Load whose listings and whose Gets of live items work answers as if there were no memo, whatever a Get of an item already gone reports |
| VaultLaws.NotFoundIsHonest | backend/onepassword/onepassword.go:754-791 | for any vault and memo, not-found is reported only for an empty name, when the listing made in this very call worked and lacked the title, or when an item without a meta field was fetched, under the ID remembered or the one listed |
| VaultLaws.MemoIsExact | backend/onepassword/onepassword.go:675-726 | the memo made from a listing holds a title exactly when one listed item has it, and then that item's ID, however many duplicates there are |
| Traffic.OperationsAreAtomic | backend/onepassword/onepassword.go:653-934 | over every interleaving of Loads, listings and one write at a time on the memo, with any calls failing, from a memo that may be stale but is not wrong, whatever else the vault holds: a Load of a title not duplicated answers what some vault between its beginning and its end answers without a memo, or reports a failed call; a listing likewise; a write makes at most one mutating call, which changes no other name's answer and does all that was asked for or nothing, and a successful one has done it; the vault changes by these calls only, and titles not duplicated stay so |
| Traffic.NeverDuplicatesShared | backend/onepassword/onepassword.go:826-892 | over every such interleaving, on any vault with any memo, no second item with an existing title is made |
| Traffic.SharedRunsStayGood | backend/onepassword/onepassword.go:653-745 | over every such interleaving unique titles, and a memo whose live IDs carry the right title, are kept, though a memo may be rebuilt from an old listing |
| Traffic.StepKeepsTrue | backend/onepassword/onepassword.go:653-934 | every such step keeps what is known of the memo, of listings and IDs in use, and of the answers given so far |
| Traffic.AloneIsSequential | backend/onepassword/onepassword.go:754-934 | left alone, an operation can go step by step exactly as the sequential one: same answer, vault and memo |
| VaultLaws.ShrinkingIsNeverTooLarge | backend/onepassword/onepassword.go:793-824 | a record within the 1 MiB cap can be shrunk by delete-version without being refused for size, whenever a version is already deleted or the removed value has at least four bytes |
| VaultLaws.ShrinkingIsTooLargeIff | backend/onepassword/onepassword.go:793-824 | a record without one of its versions is refused for size if and only if its length before, less what the removed value and its entry give back, plus what the first deleted version costs, is over the cap |
| OnePassword.Backend.Load | backend/onepassword/onepassword.go:754-791 | in place: result, memo, vault and calls made are those of the specification function |
| OnePassword.Backend.Save | backend/onepassword/onepassword.go:805-872 | in place: lookup, merge of foreign fields, create or update |
| OnePassword.Backend.Delete | backend/onepassword/onepassword.go:916-934 | in place: lookup, deletion, and forgetting the ID only on success |
| OnePassword.Backend.List | backend/onepassword/onepassword.go:896-912 | the titles of a fresh listing, which also rebuilds the memo |
| OnePassword.Backend.Create | backend/onepassword/onepassword.go:876-892 | one unretried create; the new ID is remembered only on success |
| OnePassword.Backend.RememberIDs | backend/onepassword/onepassword.go:707-726 | the two loops over a listing build exactly the memo of titles held by one item |
| OnePassword.Backend.ResolveID | backend/onepassword/onepassword.go:675-702 | the counting loop finds the one item with a title, none, or refuses several |
| OnePassword.Backend.FindID | backend/onepassword/onepassword.go:653-667 | the memo's ID if there is one, else a fresh listing's |
| OnePassword.Backend.RecordFromItem | backend/onepassword/onepassword.go:1069-1079 | the first meta field decides; an item without one is absent |
| Meta.RoundTrip | backend/onepassword/onepassword.go:951-1001 | decoding the encoded meta of any valid record under its name gives an Equal record, for nil and empty values, maps and deleted sets alike |
| Meta.TextIs | backend/onepassword/onepassword.go:944-968 | the text of any record, member by member, the deleted list only if there is one |
| Meta.OneVersionIs | backend/onepassword/onepassword.go:944-968 | a version is written as its decimal number and its bytes in base64, both in quotes |
| Meta.OnlySoundRecords | backend/onepassword/onepassword.go:970-1021 | a record is written, and one read back accepted, only if its active version is live and no live version exceeds the latest, or none is live |
| Meta.DeleteVersionSize | backend/onepassword/onepassword.go:944-968 | by exactly how much deleting a version changes the length of the encoded meta |
| Meta.DeleteVersionShrinksIff | backend/onepassword/onepassword.go:944-968 | it gets strictly shorter if and only if a version was already deleted or the removed value has at least four bytes |
| Decimal.RoundTrip | backend/onepassword/onepassword.go:944-949 | a version's decimal text reads back as that version and has no leading zero |
| Base64.RoundTrip | backend/onepassword/onepassword.go:940-949 | decoding the base64 text of any bytes (section 4 of RFC 4648) gives those bytes |
| Base64.EncodedLength | backend/onepassword/onepassword.go:940-949 | its length is four characters for each three bytes begun |
| Base64.StandardVectors | backend/onepassword/onepassword.go:940-949 | the test vectors of section 10 of RFC 4648 and the last two characters of its table |
| Json.TextRoundTrip | backend/onepassword/onepassword.go:962-973 | parsing the printed text of any value the encoder makes gives that value |
| Order.ArrangeIsSorted | backend/onepassword/onepassword.go:957-960 | the arrangement used for the deleted list and for object keys is sorted and holds exactly the given versions |
| SdkCall.ExecutionBounds | backend/onepassword/onepassword.go:345-492 | over every outcome sequence a mutation runs at most once and a read at most eight times; the call has a value exactly when its last execution worked and the caller is still there; a rate limit that is not a fault is not retried |
| SdkCall.RoundIff | backend/onepassword/onepassword.go:463-492 | exactly how long a round of tries goes on: until an execution works, is a fault, a rate limit or cut by the deadline, or the tries are used up; and that it answers with its last execution |
| SdkCall.RetriesUntilSuccess | backend/onepassword/onepassword.go:470-492 | a read whose first success comes within four executions, all before it failing in passing, has a value after exactly that many |
| SdkCall.RetriesAfterFault | backend/onepassword/onepassword.go:374-397 | so has one that meets one fault first, within four executions after it |
| SdkCall.UnavailableReadIs | backend/onepassword/onepassword.go:374-434 | a read that ends without a value used all four tries of its last round, or its last execution was a rate limit, was cut by the deadline, or was a second fault |
| SdkCall.RateFlagIff | backend/onepassword/onepassword.go:426-434 | the failure is a rate limit exactly when the last execution was |
| SdkCall.CanceledIff | backend/onepassword/onepassword.go:352-404 | a call is abandoned exactly when its caller has left by the end of its last execution, or before the first |
| SdkCall.TimedOutIff | backend/onepassword/onepassword.go:411-424 | a call counts as timed out exactly when its caller stayed and its last execution failed by a deadline and was no fault |
| SdkCall.StaleExitsIff | backend/onepassword/onepassword.go:345-350 | a process past its age is told to exit 0 at the next call, and nothing else does that |
| SdkCall.FaultExitIff | backend/onepassword/onepassword.go:374-397 | the process is told to exit for a fault if and only if the faults outlast the allowed retry and the caller is still there |
| SdkCall.NoExitForTheDeparted | backend/onepassword/onepassword.go:382-404 | a call abandoned by its caller never exits 1 and leaves the timeout counter alone |
| SdkCall.ConsecutiveTimeouts | backend/onepassword/onepassword.go:406-440 | in any sequence of calls the counter is the number of timeouts, callers present, since the last success, and a timeout exits exactly when that reaches three |
| SdkCall.Core.Round | backend/onepassword/onepassword.go:470-492 | the retry loop of one round, in place |
| SdkCall.Core.Invoke | backend/onepassword/onepassword.go:345-434 | one whole call in place: result, executions, counters and exits |
| WarmerLaws.KeepsWarmIff | backend/cache/warmer.go:16-25 | with instant calls, for every number of keys, of failing relists and of failing refreshes in a row, and any wait after a failing relist: on all runs every key is live at every moment from its first warm until it is delisted, found missing, deleted or purged, if and only if no refresh of a warmed key is parked, no fill of one is discarded, no entry is pushed out, and a twentieth of the lifetime exceeds five seconds for each failing refresh and, for each refresh, failing or not, the waits after failing relists |
| WarmerLaws.KeepsWarmPerFailure | backend/cache/warmer.go:23-25 | when failing relists cost no time, the last of these is a lifetime of over 100 seconds for each failing refresh in a row |
| WarmerLaws.KeysStayWarm | backend/cache/warmer.go:108-179 | the same promise with latencies, when they fit between the cadence and the shortest lifetime, whatever order keys come up in, whatever Saves, deletes, flushes, client reads, failing relists and failing refreshes come in between, and whether a refresh fetches or joins a client's fetch, applied to the cache or not |
| WarmerLaws.CareLasts | backend/cache/warmer.go:141-201 | nothing else takes a warmed key out of the warmer's care |
| WarmerLaws.StepKeeps | backend/cache/warmer.go:108-179 | every step of the loop, and of others using the cache, keeps each warmed key's next refresh startable in time |
| WarmerLaws.NeverLate | backend/cache/warmer.go:107-179 | on every run within the limits, whatever fails, a key with a deadline that is not being refreshed has it ahead, or no further behind than the loop's lag |
| WarmerLaws.FlushRefreshesAll | backend/cache/warmer.go:169-175 | after a flush every key with a deadline is taken up, or delisted, within a relist and one pass over all keys |
| WarmerLaws.NewNamesAreWarmed | backend/cache/warmer.go:184-193 | a name a relist shows for the first time is taken up, or delisted, within one pass over all keys |
| WarmerLaws.RelistLeaves | backend/cache/warmer.go:130-133 | a relist keeps the deadlines it knows, makes new names due at once, drops the rest, and is next due after three quarters of a lifetime |
| WarmerLaws.FinishLeavesDeadline | backend/cache/warmer.go:146-163 | the next deadline after each outcome of a refresh, in nanoseconds |
| WarmerLaws.FoundMissingIsEvictedIff | backend/cache/warmer.go:148-151 | on every run a secret whose refresh finds it missing leaves the cache, until listed, saved or found by a client's fetch, if and only if no change to the cache landed between the beginning of that refresh and its answer; otherwise its entry stays with the expiry it had, and no later relist removes it |
| WarmerLaws.JoinedDenialIsEvicted | backend/cache/warmer.go:148-151 | on every run a secret whose refresh joins a client's fetch that found it missing is out of the cache, and the warmer forgets it, until it is listed, saved or found by a client's fetch |
| WarmerLaws.DelistedIsEvicted | backend/cache/warmer.go:184-201 | on every run a name with a deadline that a relist lacks is neither refreshed nor served from the cache until it is listed, saved or found by a client's fetch |
| WarmerLaws.DiscardedFillStrands | backend/cache/warmer.go:145-147 | a run from an empty cache in which a refresh counts as a success though its fill was discarded: whatever its jitter, the key's entry expires before it is due again |
| WarmerLaws.ParkingStrands | backend/cache/warmer.go:153-163 | a run from an empty cache in which a refresh is rate limited or fails for good: whatever its jitter, the key's entry expires before it is due again |
| WarmerLaws.PushedOutGoesCold | backend/cache/cache.go:83-98 | eviction for capacity makes a warmed key miss |
| WarmerLaws.FailuresGoCold | backend/cache/warmer.go:155-158 | a run in which refreshes fail, each after all the relists that may fail before it, and outlast an entry |
| WarmerLaws.SlackIsATwentieth | backend/cache/warmer.go:16-21 | the shortest lifetime exceeds the cadence by at least a twentieth of the lifetime |
| WarmerLaws.FitsWithoutFailures | backend/cache/warmer.go:16-21 | latencies summing to less than a twentieth of the lifetime fit |
| WarmerLaws.FitsWithOneFailure | backend/cache/warmer.go:23-25 | for lifetimes over 100 seconds they fit with one failed refresh and its five-second retry as well |
| Warmer.Warmer.Reconcile | backend/cache/warmer.go:184-201 | new names fall due at once, gone names lose their deadline and their cache entry, the sequence number moving on once for each |
| Warmer.Warmer.Earliest | backend/cache/warmer.go:204-213 | the running minimum is the least of the deadlines and the relist time |
| Warmer.Warmer.Settle | backend/cache/warmer.go:145-163 | the next deadline after each class of outcome |
| Warmer.Warmer.PrimeAll | backend/cache/warmer.go:169-175 | a flush makes every key and the relist due now |
| Server.AuditComesFirst | server/server.go:274-463 | in every request a backend write, and every answer carrying data, comes after an authorised audit entry for that caller, action and name, written in the same request; so does every backend read but that of a conditional get |
| Server.EveryChangeIsAudited | server/server.go:274-463 | in every run of requests from any callers, each one that changes a secret was made by someone allowed to change it, and its own audit entry was written before its own backend write |
| Server.NoChangeUnaccounted | server/server.go:274-463 | a secret that ends up different was changed by some request, which is accounted for |
| Server.DeniedIsBlind | server/server.go:297-463 | everything observable of a request is the same on two stores that differ only in secrets the caller may do nothing with, their presence among the names the backend lists, in any order, and whether they can be read included |
| Server.ChangesAreWritten | server/server.go:387-463 | a request changes the store only at its own name and only by a backend write |
| Server.ForbiddenIff | server/server.go:467-528 | a request is answered 403 exactly when it came from a browser or is valid and denied |
| Server.GetSendsTheValue | server/server.go:330-374 | a get that sends a value sends the bytes stored under the version asked for, the active one by default, and a conditional get only one the caller lacks |
| Server.NotModifiedIff | server/server.go:333-359 | a get is answered 304, unaudited, exactly when it is conditional and allowed and the caller already has the active version |
| Server.ConflictIff | server/server.go:407-426 | creating a version is answered 412 exactly when it is valid, allowed and audited and the version was ever assigned |
| Server.ListShowsOnlyAllowed | server/server.go:312-328 | a listing shows exactly the readable secrets the caller may see, as stored, by name |
| Replies.OneResponse | server/server.go:467-578 | every request is answered exactly once, after everything else it does |
| Replies.TurnedAwayIs | server/server.go:467-511 | what each request that is not accepted is told, and that it changes nothing |
| Replies.MutationEntryIs | server/server.go:276-310 | each mutation that is not turned down for its form attempts one audit entry: who, which right, which name and version, and whether it is granted |
| Replies.ReadEntryIs | server/server.go:312-385 | the same for reads and listings; a conditional get that is allowed records only a fresh value |
| Replies.GetIsAnswered | server/server.go:330-374 | a get sends the wanted version's bytes exactly when it may, the record loads and holds them and the caller lacks them; 304 and 404 exactly in their cases |
| Replies.GetFailsIff | server/server.go:330-374 | when a get is answered 403, 503, 500 or nothing |
| Replies.InfoIsAnswered | server/server.go:376-385 | an info is the name, the active version and the live versions in increasing order; and when it is answered otherwise |
| Replies.ListIsAnswered | server/server.go:312-328 | a listing describes the visible secrets line by line in order of names; and exactly when it is answered otherwise |
| Replies.MutationIsAnswered | server/server.go:392-463 | a mutation is acknowledged exactly when it may go ahead, its record loads, the rules allow it and the write it needs works; a Put is told the version under which its value now reads back |
| Replies.MutationLeaves | server/server.go:392-463 | exactly then the store is as the version rules say, otherwise as before |
| Replies.MutationIsTurnedDown | server/server.go:392-463 | when a mutation is answered 400 or 403 |
| Replies.MutationFailsIff | server/server.go:513-557 | when a mutation is answered 404, 412 or nothing |
| Replies.MutationTroubleIff | server/server.go:540-566 | when a mutation is answered 503 or 500 |
| Server.Server.CheckAndLog | server/server.go:297-310 | one audit entry; denial beats a failed audit write, which beats proceeding |
| Server.Server.Get | server/server.go:330-374 | in place: the three forms of get, with the conditional form's late audit |
| Server.Server.Mutation | server/server.go:387-463 | in place: validation before authorisation, audit, then the store |
| Server.Server.List | server/server.go:312-328 | in place: one audit entry, then the filtered listing |
| Server.Server.ServeRequest | server/server.go:467-578 | in place: one whole request, store and journal as specified |
| Store.AllOrNothing | store/store.go:224-400 | an answered operation is the bare machine's; a failed one changed nothing |
| Store.ListingIsExact | store/store.go:116-153 | a listing fails exactly when an admitted name is unavailable, and otherwise describes exactly the admitted secrets that can be read, in name order |
| Store.ListingIsStored | store/store.go:116-153 | line by line a listing describes each admitted name that can be read, in name order and as often as it is listed; it fails exactly if an admitted name is unavailable |
| Store.InfoDescribes | store/store.go:106-114 | an info gives the name, the active version and the live versions in increasing order |
| Store.ReadsAreStored | store/store.go:166-218 | exactly what the three reads answer, told from the record |
| Store.VersionsReadTheSame | store/store.go:166-218 | while a secret exists it has an active value, and what a version reads as never changes until it is deleted for good |
| Store.Store.Put | store/store.go:224-271 | in place on a backend that may fail: contents, reply and backend accesses are the specified ones |
| Store.Store.CreateVersion | store/store.go:275-310 | the same |
| Store.Store.Activate | store/store.go:313-345 | the same |
| Store.Store.DeleteVersion | store/store.go:349-387 | the same |
| Store.Store.Delete | store/store.go:391-400 | the same |
| Store.Store.List | store/store.go:120-153 | the loop over the sorted names makes the specified listing and loads only admitted names |
| Isolation.ScribblingIsPrivate | backend/backend.go:71-95 | however a caller writes to a record it was given and does not save, every stored, cached, shared and lent record is what it would have been without |
| Isolation.SaveKeepsACopy | backend/mem/mem.go:41-48 | a record its caller goes on writing to is stored and cached as it was when saved |
| Isolation.Rec.Clone | backend/backend.go:73-95 | a clone has the same value, nil for nil, and shares no object with the original |
| Isolation.Service.Hit | backend/cache/cache.go:181-188 | on the heap: a hit hands out a copy and disturbs nothing |
| Isolation.Service.Fetch | backend/mem/mem.go:28-38 | a flight's record shares nothing with the stored one |
| Isolation.Service.Fill | backend/cache/cache.go:145-152 | the cached record shares nothing with the flight's |
| Isolation.Service.Deliver | backend/cache/cache.go:207-228 | each waiter of a flight gets a record of its own |
| Isolation.Service.Save | backend/cache/cache.go:232-248 | the stored and the cached copy share nothing with each other or with the caller's record |
| Isolation.Service.Write | backend/backend.go:71-95 | a caller's write through its own reference changes that record only |

## Left out

- The 1Password SDK, the WASM core, tsnet, WhoIs, TLS, HTTP framing, JSON request decoding, command-line flags, and the debug and admin endpoints: foreign calls and plumbing. SDK calls are successes or failures on a list of items; a request arrives already decoded or is turned away.
- setec's access rules and audit file are not part of this model: the rules are a parameter, an audit write may fail.
- Metrics, logging, the text of errors and the string matching of SDK errors: fault, rate-limit, timeout and credential classes are tags on a failure. `humanValue` is a parameter.
- A cancellation that is not the caller's own is answered like an unavailable backend (server/server.go:548-557); the two are one error class here.
- Linearizability of cached reads: while a write is pending, one reader may see the new value and a later one the old. Read-after-completed-write is what is proved.
- Freshness of a forced read against edits from outside: a forced read may share a fetch that began before the edit.
- Several instances sharing a vault (documented as last writer wins), and two cache writes to one name without the store's mutex.
- Renaming items in the 1Password app, and edits there while operations of the backend interleave on its memo: `Traffic` has the vault change by the backend's own writes.
- The LRU's order: eviction for capacity is a step that may remove any entries at any time. Recency updates by hits are not visible.
- A name list is a set in the cache model; its order only matters in `Store.Store.List`, which sorts any order.
- JSON the encoder never writes: white space, string escapes, keys in another case, repeated keys inside `versions` merged by number, and bytes as an array of numbers. Such text is rejected by the parser here; the round trip is about text the encoder writes.
- The backoff library's delays: only its try limit, its stop on permanent errors and the call's own deadline are modelled, and the caller's departure is looked at once after each round.
- The process's exit is a recorded code; what the process does after it is not modelled.
- Isolation.Service.Deliver: does not model that a flight's record is dropped when its last waiter has gone, because no later action can reach it except through a new delivery.
- Store.Store.Put: does not model the caller's byte slice being stored by reference before the backend clones it, because `Isolation` covers sharing and the store works on values.
