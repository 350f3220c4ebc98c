# automerge-persistent, modelled in Dafny

This project models the persistence layer of automerge-persistent. A `PersistentBackend`
wraps an automerge engine and makes the changes applied to it durable. It goes through a
`Persister`, which here is the sled persister: one sled tree holds the changes and another
holds document snapshots.

- Remote changes (`apply_changes`) are written to the persister before the engine applies them.
- Local changes (`apply_local_change`) go to the engine first and are written afterwards.
- `compact` takes the engine's changes, saves the engine, writes the snapshot and only then
  removes those changes from the changes tree.
- `load` rebuilds the engine from the snapshot plus every stored change.

Modules, one file each:

- `wrappers.dfy`, module `Wrappers`: `Option`, `Result`, and `Outcome` for functions that
  return `()` or an error.
- `bytes.dfy`, module `Bytes`: bytes and `u64`, the 8-byte big-endian encoding of
  `u64::to_be_bytes`, and the lexicographic byte order that sled sorts keys by.
- `automerge.dfy`, module `Automerge`: the engine. It is abstract: its state is the set of
  changes it holds, and each engine operation is a function carried by an `Engine` value.
  `WellFormed(e)` gathers the few things the layer relies on:
  - decoding keeps the decoded bytes;
  - local changes decode to themselves;
  - a saved snapshot loads back to the same state;
  - applying nothing new succeeds;
  - `get_changes(&[])` lists the whole state.
- `sled_keys.dfy`, module `SledKeys`: `DOCUMENT_KEY`, `make_key`, `make_document_key`, and
  their injectivity and ordering.
- `sled.dfy`, module `Sled`: a `Tree` class and the `SledPersister` class with the five
  `Persister` operations.
  - A tree is a map plus a failure schedule, `Faults`. A schedule either never fails or fails
    after a given number of further successful writes.
  - Once failed, a tree answers every call with an error and changes nothing.
  - Because failures can come after a number of writes, the model can state what a batch
    that stops part-way leaves behind.
- `durability.dfy`, module `Durability`: the invariant that every stored blob decodes to a
  change whose key is the one it is stored under, and what inserts and removals do to the set
  of changes the store decodes to.
- `persistent.dfy`, module `Persistent`: `PersistentBackendError` and the `PersistentBackend`
  class. Two invariants are stated on it: `Consistent` (every stored blob sits under its own
  key) and `Covered` (the engine holds every change the store decodes to). `load` establishes
  `Covered`. `apply_local_change` (with a well-formed engine) and `compact` keep both. `apply_changes`
  keeps both when every input change decodes to itself, `Covered` only when it succeeds.
  A failed `apply_changes` can leave written changes that the engine never applied.
- `recovery.dfy`, module `Recovery`: what a fresh `load` rebuilds after the process stops
  between any two writes. Two results come from this:
  - compaction is crash-safe;
  - a written batch is replayed.

Where the crate's documentation and its code differ, the model follows the code:

- `get_changes` returns every value in the changes tree and does not filter by prefix.
  The crate docs (`automerge-persistent-sled/src/lib.rs:23-41`) describe persisters that share
  trees under different prefixes. Even so, every `load` replays the changes of every prefix
  (`Recovery.SharedTreeReplaysOtherPrefixes`).
- Change keys do not carry the prefix's length. Prefixes of different lengths can therefore
  produce the same key when the actor ids differ in length too, because a key is
  |prefix| + |actor| + 8 bytes long (`SledKeys.MakeKeyPrefixesOfDifferentLengthCollide`). With
  actor ids of one fixed width, prefixes of different lengths never collide
  (`SledKeys.MakeKeyFixedWidthActorsDisjoint`). Under a single prefix, and across prefixes of
  equal length, keys are always distinct.

## Model

| member | source | states |
|---|---|---|
| Bytes.U64ToBeBytes | automerge-persistent-sled/src/lib.rs:84 | `seq.to_be_bytes()` is 8 bytes whose big-endian value is `seq` |
| Bytes.U64FromBeBytes | automerge-persistent-sled/src/lib.rs:84 | every 8-byte string is the big-endian encoding of exactly one `u64` (decoding inverts the encoder) |
| Bytes.FromToBigEndian | automerge-persistent-sled/src/lib.rs:84 | decoding a big-endian encoding gives back the number, for any width that fits it |
| Bytes.ToFromBigEndian | automerge-persistent-sled/src/lib.rs:84 | encoding the value of a byte string at its own width gives back the string |
| Bytes.FromBigEndianInjective | automerge-persistent-sled/src/lib.rs:84 | equal-length byte strings with the same big-endian value are equal |
| Bytes.U64ToBeBytesInjective | automerge-persistent-sled/src/lib.rs:84 | distinct sequence numbers encode to distinct suffixes |
| Bytes.LexLessCommonPrefix | automerge-persistent-sled/src/lib.rs:82-84 | a shared leading part does not affect the byte order of two keys |
| Bytes.LexLessAppend | automerge-persistent-sled/src/lib.rs:84 | byte order of equal-length strings extended by one byte: the earlier bytes decide, then the last |
| Bytes.LexLessBigEndian | automerge-persistent-sled/src/lib.rs:84 | for equal-length strings, byte order is the numeric order of their big-endian values |
| Bytes.U64ToBeBytesOrdered | automerge-persistent-sled/src/lib.rs:84 | the order of encoded suffixes is exactly the numeric order of sequence numbers (both directions) |
| SledKeys.MakeKey | automerge-persistent-sled/src/lib.rs:81-86 | the key is prefix, then actor bytes, then the 8-byte big-endian sequence number; its length is their sum; each part reads back from its position |
| SledKeys.MakeDocumentKey | automerge-persistent-sled/src/lib.rs:88-92 | the document key is the prefix followed by `DOCUMENT_KEY` ("document", line 46) and depends on the prefix alone |
| SledKeys.MakeKeyInjective | automerge-persistent-sled/src/lib.rs:81-86 | under one prefix, equal keys mean equal actor and equal sequence number, for actors of any lengths |
| SledKeys.MakeKeyPrefixesDisjoint | automerge-persistent-sled/src/lib.rs:81-86 | different prefixes of the same length never produce the same change key |
| SledKeys.MakeKeyPrefixesOfDifferentLengthCollide | automerge-persistent-sled/src/lib.rs:81-86 | prefix "1" with actor bytes [0x32, 0xAA] and prefix "12" with actor [0xAA] produce the same key |
| SledKeys.MakeKeyFixedWidthActorsDisjoint | automerge-persistent-sled/src/lib.rs:81-86 | with actor ids of one width, different prefixes never produce the same change key |
| SledKeys.MakeKeyOrdered | automerge-persistent-sled/src/lib.rs:84 | for a fixed prefix and actor, key byte order is exactly sequence-number order |
| SledKeys.MakeDocumentKeyInjective | automerge-persistent-sled/src/lib.rs:88-92 | different prefixes have different document keys |
| Sled.Tree.Get | automerge-persistent-sled/src/lib.rs:129 | a read fails exactly when the tree has failed; otherwise it returns the stored value, or none when the key is absent |
| Sled.Tree.Insert | automerge-persistent-sled/src/lib.rs:111 | a failed write changes nothing; a successful one sets the key and spends one write |
| Sled.Tree.Remove | automerge-persistent-sled/src/lib.rs:120 | a failed write changes nothing; a successful one deletes the key, present or not, and reports whether it was present |
| Sled.InsertAll | automerge-persistent-sled/src/lib.rs:109-112 | the changes tree after the loop's inserts, applied in order; no key it held before is lost |
| Sled.RemoveAll | automerge-persistent-sled/src/lib.rs:118-121 | the changes tree after the loop's removals, applied in order: a sub-map of the input holding none of the batch's keys |
| Sled.InsertAllLastWins | automerge-persistent-sled/src/lib.rs:108-114 | after a batch of inserts, an entry whose key no later entry repeats is stored under its key |
| Sled.InsertAllStoresSomeLaterEntry | automerge-persistent-sled/src/lib.rs:108-114 | every entry's key is present afterwards and holds the bytes of the last entry of the batch with that key (later duplicates win) |
| Sled.InsertAllFrame | automerge-persistent-sled/src/lib.rs:108-114 | keys that no entry of the batch maps to keep their presence and their value |
| Sled.RemoveAllDeletesExactly | automerge-persistent-sled/src/lib.rs:117-123 | removing a batch deletes exactly the keys of its identities, whether or not they were present |
| Sled.RemoveAllIdempotent | automerge-persistent-sled/src/lib.rs:117-123 | removing the same identities twice leaves the same tree as removing them once |
| Sled.RemoveAllShrinks | automerge-persistent-sled/src/lib.rs:117-123 | the result is a sub-map of the input; keys not in the batch stay |
| Sled.DocumentOfOtherPrefix | automerge-persistent-sled/src/lib.rs:134-137 | writing one prefix's snapshot leaves the snapshot of every other prefix unchanged |
| Sled.SledPersister.constructor | automerge-persistent-sled/src/lib.rs:70-76 | the persister holds the given trees and prefix |
| Sled.SledPersister.GetChanges | automerge-persistent-sled/src/lib.rs:99-105 | fails exactly when the tree has failed, with `SledError`; otherwise returns every stored value, each as often as it is stored (multiset), with no prefix filter |
| Sled.SledPersister.StoredChanges | automerge-persistent-sled/src/lib.rs:99-105 | the set of values `get_changes` returns, or its failure |
| Sled.SledPersister.InsertChanges | automerge-persistent-sled/src/lib.rs:108-114 | writes entries in order and stops at the first failed write. The tree is the old one with the written prefix of the batch inserted. The call succeeds iff every write does; an already-failed tree is left untouched |
| Sled.SledPersister.RemoveChanges | automerge-persistent-sled/src/lib.rs:117-123 | removes keys in order and stops at the first failed write. An absent key is no error (the trait contract, automerge-persistent/src/lib.rs:52-55): the call succeeds iff every write does |
| Sled.SledPersister.GetDocument | automerge-persistent-sled/src/lib.rs:126-131 | fails exactly when the document tree has; returns the value under this prefix's document key, or none when nothing is stored there |
| Sled.SledPersister.SetDocument | automerge-persistent-sled/src/lib.rs:134-137 | one write: on failure nothing changes; on success the document key holds the data and a later `get_document` returns it; the changes tree is not in its frame |
| Durability.InsertAllKeepsStoredUnderOwnKeys | automerge-persistent-sled/src/lib.rs:108-114 | inserting entries that encode their own changes keeps every blob under its own key |
| Durability.RemoveAllKeepsStoredUnderOwnKeys | automerge-persistent-sled/src/lib.rs:117-123 | removals keep every remaining blob under its own key |
| Durability.StoredUnderOwnKeysDecodes | automerge-persistent/src/lib.rs:105-107 | a tree with every blob under its own key holds only blobs that decode |
| Durability.DecodedOfSubmap | automerge-persistent/src/lib.rs:101-107 | a sub-map of the changes tree decodes to a subset of its changes |
| Durability.DecodedOfInsertAll | automerge-persistent-sled/src/lib.rs:108-114 | writing entries that encode their changes adds at most those changes to what the tree decodes to |
| Durability.WrittenButUnappliedIsUncovered | automerge-persistent/src/lib.rs:120-130 | a change written but not applied (the write succeeded, the engine step failed) is stored, and the tree then decodes to more than the engine holds |
| Automerge.FromBytes | automerge-persistent/src/lib.rs:106 | succeeds exactly when the bytes decode, with that change, which keeps the bytes it was decoded from; failure is `InvalidChange` |
| Automerge.Open | automerge-persistent/src/lib.rs:95-99 | with no snapshot the engine starts empty; with one it succeeds exactly when the snapshot loads |
| Automerge.ApplyChanges | automerge-persistent/src/lib.rs:109-111 | on success the state is the old state plus the batch; success iff the engine accepts the new changes; re-applying held changes always succeeds |
| Automerge.ApplyLocalChange | automerge-persistent/src/lib.rs:138 | on success the state gains exactly the returned change, which decodes to itself |
| Automerge.Save | automerge-persistent/src/lib.rs:155 | a saved snapshot opens back to the saved state |
| Persistent.Entries | automerge-persistent/src/lib.rs:122-125 | one entry per change, in order, carrying its actor, sequence number and raw bytes |
| Persistent.EntryChangesOfEntries | automerge-persistent/src/lib.rs:122-125 | the changes the entries name are exactly the input changes |
| Persistent.Ids | automerge-persistent/src/lib.rs:160 | one `(actor_id, seq)` identity per captured change, in order |
| Persistent.EntriesEncode | automerge-persistent/src/lib.rs:120-127 | the `(actor_id, seq, raw_bytes)` entries of self-decoding changes encode those changes |
| Persistent.LoadSpec | automerge-persistent/src/lib.rs:91-113 | each error in order: a failed document read is a `PersisterError`, then a snapshot that does not load is that `AutomergeError`, then a failed `get_changes` is a `PersisterError`, then an undecodable blob is `InvalidChange` (before anything is applied). Otherwise it succeeds exactly when the engine accepts the batch, and the state is the snapshot's plus every decoded stored change |
| Persistent.PersistentBackend.constructor | automerge-persistent/src/lib.rs:112 | the backend holds the given engine state and persister |
| Persistent.PersistentBackend.Load | automerge-persistent/src/lib.rs:91-113 | the result is `LoadSpec` of what `get_document` and `get_changes` return: a fresh backend holding that state, or that error; a loaded backend holds every change its store decodes to (`Covered`) |
| Persistent.PersistentBackend.ApplyChanges | automerge-persistent/src/lib.rs:116-131 | the batch is written first. If a write fails: `PersisterError`, engine unchanged, the written part stays stored. Otherwise the engine's outcome is returned. The snapshot tree is untouched. When every input change decodes to itself, the stored-under-own-keys invariant is kept, and on success so is `Covered` (a failure can break it, see `Durability.WrittenButUnappliedIsUncovered`) |
| Persistent.PersistentBackend.ApplyLocalChange | automerge-persistent/src/lib.rs:134-147 | the engine goes first. On an engine error nothing is written. On success exactly one entry is written; if that write fails the change stays applied but unstored, and `PersisterError` is returned. Both invariants are kept on every path |
| Persistent.PersistentBackend.Compact | automerge-persistent/src/lib.rs:153-163 | the engine state is not in the frame. A failed save or snapshot write removes nothing. Otherwise the snapshot is written, then the identities from `get_changes(&[])` are removed in order up to the first failed write. Both invariants are kept |
| Persistent.PersistentBackend.GetPatch | automerge-persistent/src/lib.rs:166-170 | delegated to the engine, reading only the backend's fields; an engine failure is an `AutomergeError` |
| Persistent.PersistentBackend.GetChangesForActorId | automerge-persistent/src/lib.rs:173-180 | delegated to the engine, reading only the backend's fields; an engine failure is an `AutomergeError` |
| Persistent.PersistentBackend.GetChanges | automerge-persistent/src/lib.rs:183-185 | delegated to the engine; with no dependencies it lists the whole state |
| Persistent.PersistentBackend.GetMissingDeps | automerge-persistent/src/lib.rs:191-193 | the engine's answer for the current state, with no persister access |
| Persistent.PersistentBackend.GetHeads | automerge-persistent/src/lib.rs:197-199 | the engine's answer for the current state, with no persister access |
| Recovery.BlobUnderAppliedKeyIsApplied | automerge-persistent/src/lib.rs:160 | when every blob is stored under its own key and no two changes of the engine and the store share an `(actor_id, seq)` identity, a blob stored under the key of an applied change decodes to exactly that change |
| Recovery.RemovedChangesAreApplied | automerge-persistent/src/lib.rs:154-161 | when every blob is stored under its own key and no two changes of the engine and the store share an `(actor_id, seq)` identity, removing the identities of applied changes deletes only applied changes |
| Recovery.RecoverIgnoresAppliedChanges | automerge-persistent/src/lib.rs:91-113 | two changes trees whose blobs all decode, and which differ only by changes the snapshot holds, load identically |
| Recovery.RemovingAppliedKeepsRecover | automerge-persistent/src/lib.rs:159-161 | when every blob is stored under its own key and no two changes of the snapshot and the store share an `(actor_id, seq)` identity, removing changes the snapshot holds does not change what a load rebuilds |
| Recovery.CompactionCrashSafe | automerge-persistent/src/lib.rs:153-163 | with a well-formed engine whose save succeeds, every blob stored under its own key and no two changes of the engine and the store sharing an `(actor_id, seq)` identity: once the snapshot is written, stopping after any number of removals reloads exactly as before any removal |
| Recovery.CompactionRoundTrip | automerge-persistent/src/lib.rs:153-163 | when every blob is stored under its own key, the engine holds every stored change (the backend's `Consistent` and `Covered`, see `Recovery.CompactedBackendReloads`), and the engine is well formed with a save that succeeds, a compaction stopped after the snapshot write at any point reloads to exactly the engine's state |
| Recovery.CompletedCompactionEmptiesStore | automerge-persistent/src/lib.rs:153-163 | when every blob is stored under its own key and the well-formed engine holds every stored change, removing all the identities `get_changes(&[])` captured leaves the changes tree empty: the snapshot alone holds the state |
| Recovery.CompactedBackendReloads | automerge-persistent/src/lib.rs:153-163 | for a backend whose store is consistent and covered by the engine (`load` establishes `Covered`; `apply_local_change`, `compact` and a successful `apply_changes` of self-decoding changes keep both), with a well-formed engine whose save succeeds, a compaction stopped anywhere after the snapshot write reloads to exactly the engine's state |
| Recovery.PersistedBatchIsReplayed | automerge-persistent/src/lib.rs:120-127 | after a batch of self-decoding changes with distinct identities is written, each is stored and a successful load contains all of them |
| Recovery.SharedTreeReplaysOtherPrefixes | automerge-persistent-sled/src/lib.rs:99-105 | a change that another prefix stored in a shared changes tree is in every successful load |

## Left out

- Sled's internals: write-ahead log, fsync, tree iteration order, and the causes inside
  `sled::Error`. A tree is a map with a failure schedule, and `TreeError` has a single value.
- `get_changes` returns values in an unspecified order; the model fixes no order. Its contract
  states the multiset of stored values.
- The prefix is a Rust `String`; the model takes its UTF-8 bytes (`as_bytes`) as given and does
  not model the encoding.
- The automerge engine's semantics: CRDT merging, patch contents, the hash graph behind
  `get_missing_deps` and `get_heads`, the change and snapshot byte formats, and queueing of
  changes whose dependencies are missing. The engine is abstract, its operations are
  functions of its state, and the model proves only what `WellFormed` implies.
- Automerge.ApplyChanges: a rejected batch is modelled as leaving the engine unchanged (all or
  nothing); partial application inside the engine on error is not modelled.
- Automerge.ApplyChanges: the engine is modelled as order-insensitive and as ignoring changes
  it already holds, so a batch is taken as a set.
- Recovery.CompactionCrashSafe, Recovery.RemovingAppliedKeepsRecover,
  Recovery.RemovedChangesAreApplied and Recovery.BlobUnderAppliedKeyIsApplied: each requires
  that no two distinct changes of the engine and the store share an `(actor_id, seq)` identity.
  The `Persister` trait documents this uniqueness (`automerge-persistent/src/lib.rs:37-38`); it
  is a property of automerge that the engine model assumes and does not establish.
- `MemoryPersister` (`mod mem`): its source is not part of this model.
- The generic `Persister` trait: `PersistentBackend` is instantiated with the sled persister
  only, and the trait's contract is stated on the sled persister's methods.
- Sled.SledPersister.constructor: requires the two trees to be distinct objects. Aliasing
  the changes tree and the document tree is not modelled.
- Several persisters or processes sharing trees concurrently, and `Tree` clones. Calls are
  modelled one at a time.
- A crash is modelled as the process stopping between two tree writes. Torn writes and
  writes that sled reports as failed but that persist are not modelled.
- The `thiserror` `Display` and `From` derivations, `Debug`, the lint attributes and the doc
  examples.
