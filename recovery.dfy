/**
 * What a fresh `load` rebuilds after a crash at any point of the protocol. A crash is modelled
 * as the process stopping between two writes: the trees keep whatever was written so far.
 */
module Recovery {
  import opened Wrappers
  import opened Bytes
  import opened Automerge
  import opened SledKeys
  import opened Sled
  import opened Durability
  import opened Persistent

  /** The outcome of `load` on healthy trees holding `documents` and `changes`. */
  ghost function Recover(e: Engine, prefix: seq<byte>, documents: map<seq<byte>, seq<byte>>, changes: map<seq<byte>, seq<byte>>): Result<History, BackendError>
  {
    LoadSpec(e, Success(DocumentOf(documents, prefix)), Success(changes.Values))
  }

  /** A blob stored under the key of a change of `h` decodes to a change of `h`. */
  lemma BlobUnderAppliedKeyIsApplied(e: Engine, prefix: seq<byte>, changes: map<seq<byte>, seq<byte>>, h: History, d: Change, k: seq<byte>)
    requires StoredUnderOwnKeys(e, prefix, changes)
    requires UniqueIds(h + Decoded(e, changes.Values))
    requires d in h && k in changes && k == MakeKey(prefix, d.actorId, d.seqNum)
    ensures e.fromBytes(changes[k]) == Some(d)
  {
    var c := e.fromBytes(changes[k]).value;
    MakeKeyInjective(prefix, c.actorId, c.seqNum, d.actorId, d.seqNum);
    assert changes[k] in changes.Values;
    assert c in Decoded(e, changes.Values);
  }

  /**
   * Every stored change that removing the identities of changes of `h` deletes is itself in
   * `h`: what survives the removal still holds every other stored change.
   */
  lemma RemovedChangesAreApplied(e: Engine, prefix: seq<byte>, changes: map<seq<byte>, seq<byte>>, h: History, captured: seq<Change>)
    requires StoredUnderOwnKeys(e, prefix, changes)
    requires UniqueIds(h + Decoded(e, changes.Values))
    requires forall d | d in captured :: d in h
    ensures Decoded(e, changes.Values) - h <= Decoded(e, RemoveAll(changes, prefix, Ids(captured)).Values)
  {
    var ids := Ids(captured);
    var rest := RemoveAll(changes, prefix, ids);
    RemoveAllShrinks(changes, prefix, ids);
    forall c | c in Decoded(e, changes.Values) - h ensures c in Decoded(e, rest.Values) {
      var b :| b in changes.Values && e.fromBytes(b).Some? && e.fromBytes(b).value == c;
      var k :| k in changes && changes[k] == b;
      if k !in rest {
        var i :| 0 <= i < |ids| && k == IdKey(prefix, ids[i]);
        assert captured[i] in captured;
        BlobUnderAppliedKeyIsApplied(e, prefix, changes, h, captured[i], k);
        assert false;
      }
      assert b in rest.Values;
    }
  }

  /** Two changes trees whose changes differ only by changes the snapshot holds load alike. */
  lemma RecoverIgnoresAppliedChanges(e: Engine, prefix: seq<byte>, documents: map<seq<byte>, seq<byte>>,
                                     c1: map<seq<byte>, seq<byte>>, c2: map<seq<byte>, seq<byte>>, h: History)
    requires Open(e, DocumentOf(documents, prefix)) == Success(h)
    requires AllDecode(e, c1.Values) && AllDecode(e, c2.Values)
    requires Decoded(e, c1.Values) - h == Decoded(e, c2.Values) - h
    ensures Recover(e, prefix, documents, c1) == Recover(e, prefix, documents, c2)
  {
    assert h + Decoded(e, c1.Values) == h + Decoded(e, c2.Values) by {
      assert h + Decoded(e, c1.Values) == h + (Decoded(e, c1.Values) - h);
      assert h + Decoded(e, c2.Values) == h + (Decoded(e, c2.Values) - h);
    }
  }

  /** Removing identities of changes the snapshot already holds leaves a load's outcome alone. */
  lemma RemovingAppliedKeepsRecover(e: Engine, prefix: seq<byte>, documents: map<seq<byte>, seq<byte>>,
                                    changes: map<seq<byte>, seq<byte>>, h: History, captured: seq<Change>)
    requires Open(e, DocumentOf(documents, prefix)) == Success(h)
    requires StoredUnderOwnKeys(e, prefix, changes)
    requires UniqueIds(h + Decoded(e, changes.Values))
    requires forall d | d in captured :: d in h
    ensures Recover(e, prefix, documents, RemoveAll(changes, prefix, Ids(captured))) == Recover(e, prefix, documents, changes)
  {
    var rest := RemoveAll(changes, prefix, Ids(captured));
    RemoveAllShrinks(changes, prefix, Ids(captured));
    DecodedOfSubmap(e, changes, rest);
    RemovedChangesAreApplied(e, prefix, changes, h, captured);
    StoredUnderOwnKeysDecodes(e, prefix, changes);
    RemoveAllKeepsStoredUnderOwnKeys(e, prefix, changes, Ids(captured));
    StoredUnderOwnKeysDecodes(e, prefix, rest);
    RecoverIgnoresAppliedChanges(e, prefix, documents, rest, changes, h);
  }

  /**
   * Removing the changes of `h` after the snapshot of `h` is written changes nothing a later
   * load sees: a crash after the snapshot write, after any number of removals, or none, all
   * reload to the same outcome.
   */
  lemma CompactionCrashSafe(e: Engine, prefix: seq<byte>, documents: map<seq<byte>, seq<byte>>,
                            changes: map<seq<byte>, seq<byte>>, h: History, n: nat)
    requires WellFormed(e)
    requires StoredUnderOwnKeys(e, prefix, changes)
    requires UniqueIds(h + Decoded(e, changes.Values))
    requires e.save(h).Some?
    requires n <= |e.changesSince(h, [])|
    ensures var snapshotted := documents[MakeDocumentKey(prefix) := e.save(h).value];
      Recover(e, prefix, snapshotted, RemoveAll(changes, prefix, Ids(e.changesSince(h, []))[..n])) ==
      Recover(e, prefix, snapshotted, changes)
  {
    var snapshotted := documents[MakeDocumentKey(prefix) := e.save(h).value];
    var captured := e.changesSince(h, [])[..n];
    assert Ids(e.changesSince(h, []))[..n] == Ids(captured);
    assert forall d | d in captured :: d in (set x | x in e.changesSince(h, []));
    assert Open(e, DocumentOf(snapshotted, prefix)) == Success(h);
    RemovingAppliedKeepsRecover(e, prefix, snapshotted, changes, h, captured);
  }

  /**
   * Once every stored change is in the engine, a compaction reloads to exactly the engine's
   * state, whether it completed or stopped after the snapshot write and any number of removals.
   */
  lemma CompactionRoundTrip(e: Engine, prefix: seq<byte>, documents: map<seq<byte>, seq<byte>>,
                            changes: map<seq<byte>, seq<byte>>, h: History, n: nat)
    requires WellFormed(e)
    requires StoredUnderOwnKeys(e, prefix, changes)
    requires Decoded(e, changes.Values) <= h
    requires e.save(h).Some?
    requires n <= |e.changesSince(h, [])|
    ensures var snapshotted := documents[MakeDocumentKey(prefix) := e.save(h).value];
      Recover(e, prefix, snapshotted, RemoveAll(changes, prefix, Ids(e.changesSince(h, []))[..n])) == Success(h)
  {
    var snapshotted := documents[MakeDocumentKey(prefix) := e.save(h).value];
    var ids := Ids(e.changesSince(h, []))[..n];
    var rest := RemoveAll(changes, prefix, ids);
    RemoveAllShrinks(changes, prefix, ids);
    RemoveAllKeepsStoredUnderOwnKeys(e, prefix, changes, ids);
    StoredUnderOwnKeysDecodes(e, prefix, rest);
    DecodedOfSubmap(e, changes, rest);
    assert Open(e, DocumentOf(snapshotted, prefix)) == Success(h);
    assert h + Decoded(e, rest.Values) == h;
  }

  /**
   * A compaction whose removals all succeed leaves no change in the changes tree when the
   * engine held every stored change: the snapshot alone carries the state.
   */
  lemma CompletedCompactionEmptiesStore(e: Engine, prefix: seq<byte>, changes: map<seq<byte>, seq<byte>>, h: History)
    requires WellFormed(e)
    requires StoredUnderOwnKeys(e, prefix, changes)
    requires Decoded(e, changes.Values) <= h
    ensures RemoveAll(changes, prefix, Ids(e.changesSince(h, []))) == map[]
  {
    var captured := e.changesSince(h, []);
    var ids := Ids(captured);
    RemoveAllDeletesExactly(changes, prefix, ids);
    forall k | k in changes ensures k in IdKeys(prefix, ids) {
      var c := e.fromBytes(changes[k]).value;
      assert changes[k] in changes.Values;
      assert c in Decoded(e, changes.Values);
      assert c in (set x | x in captured);
      var i :| 0 <= i < |captured| && captured[i] == c;
      assert IdKey(prefix, ids[i]) == k;
    }
    assert RemoveAll(changes, prefix, ids).Keys == {};
  }

  /**
   * A backend that keeps its store covered and consistent, as `load`, a successful
   * `apply_changes`, `apply_local_change` and `compact` do, reloads to exactly its engine state
   * after a compaction that stops after the snapshot write and any number of removals.
   */
  lemma CompactedBackendReloads(b: PersistentBackend, n: nat)
    requires WellFormed(b.engine)
    requires b.Consistent() && b.Covered()
    requires b.engine.save(b.backend).Some?
    requires n <= |b.engine.changesSince(b.backend, [])|
    ensures var prefix := b.persister.prefix;
      var snapshotted := b.persister.documentTree.entries[MakeDocumentKey(prefix) := b.engine.save(b.backend).value];
      var remaining := RemoveAll(b.persister.changesTree.entries, prefix, Ids(b.engine.changesSince(b.backend, []))[..n]);
      Recover(b.engine, prefix, snapshotted, remaining) == Success(b.backend)
  {
    CompactionRoundTrip(b.engine, b.persister.prefix, b.persister.documentTree.entries,
                        b.persister.changesTree.entries, b.backend, n);
  }

  /**
   * A batch written by `apply_changes` is in the store before the engine sees it: after a crash
   * right after the write, every change of the batch is stored, and a load that succeeds
   * replays all of them.
   */
  lemma PersistedBatchIsReplayed(e: Engine, prefix: seq<byte>, documents: map<seq<byte>, seq<byte>>,
                                 changes: map<seq<byte>, seq<byte>>, batch: seq<Change>)
    requires forall c | c in batch :: Encoded(e, c)
    requires UniqueIds(set c | c in batch)
    ensures var written := InsertAll(changes, prefix, Entries(batch));
      && (forall c | c in batch :: c in Decoded(e, written.Values))
      && (Recover(e, prefix, documents, written).Success? ==>
            (set c | c in batch) <= Recover(e, prefix, documents, written).value)
  {
    var entries := Entries(batch);
    var written := InsertAll(changes, prefix, entries);
    forall c | c in batch ensures c in Decoded(e, written.Values) {
      var i :| 0 <= i < |batch| && batch[i] == c;
      var j := InsertAllStoresSomeLaterEntry(changes, prefix, entries, i);
      MakeKeyInjective(prefix, batch[j].actorId, batch[j].seqNum, c.actorId, c.seqNum);
      assert batch[j] in (set x | x in batch);
      assert batch[j] == c;
      assert c.rawBytes in written.Values;
    }
  }

  /**
   * `get_changes` does not filter by prefix: a change another persister stored in a shared
   * changes tree, under its own prefix, is replayed by every load of this persister too.
   */
  lemma SharedTreeReplaysOtherPrefixes(e: Engine, prefix: seq<byte>, other: seq<byte>, documents: map<seq<byte>, seq<byte>>,
                                       changes: map<seq<byte>, seq<byte>>, c: Change)
    requires Encoded(e, c)
    requires MakeKey(other, c.actorId, c.seqNum) in changes
    requires changes[MakeKey(other, c.actorId, c.seqNum)] == c.rawBytes
    ensures Recover(e, prefix, documents, changes).Success? ==> c in Recover(e, prefix, documents, changes).value
  {
    assert c.rawBytes in changes.Values;
    assert c in Decoded(e, changes.Values);
  }
}
