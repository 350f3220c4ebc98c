/**
 * `PersistentBackend`: an automerge engine paired with a persister. Every remote change is
 * written to the persister before the engine applies it; local changes are applied first and
 * written afterwards; `compact` writes a snapshot before it removes the changes the snapshot
 * covers. The persister is the sled persister of module `Sled`.
 */
module Persistent {
  import opened Wrappers
  import opened Bytes
  import opened Automerge
  import opened SledKeys
  import opened Sled
  import opened Durability

  /** `PersistentBackendError<E>`. */
  datatype PersistentBackendError<E> = AutomergeError(error: Automerge.AutomergeError) | PersisterError(cause: E)

  type BackendError = PersistentBackendError<SledPersisterError>

  /** The `(actor_id, seq, raw_bytes)` entries `apply_changes` hands to the persister. */
  function Entries(changes: seq<Change>): (es: seq<ChangeEntry>)
    ensures |es| == |changes|
    ensures forall i | 0 <= i < |changes| :: es[i] == (changes[i].actorId, changes[i].seqNum, changes[i].rawBytes)
  {
    seq(|changes|, i requires 0 <= i < |changes| => (changes[i].actorId, changes[i].seqNum, changes[i].rawBytes))
  }

  /** The entries of changes that decode to themselves encode the changes they name. */
  lemma EntriesEncode(e: Engine, changes: seq<Change>, n: nat)
    requires n <= |changes|
    requires forall c | c in changes :: Encoded(e, c)
    ensures forall j | 0 <= j < n :: EntryEncodes(e, Entries(changes)[..n][j])
  {
    forall j | 0 <= j < n ensures EntryEncodes(e, Entries(changes)[..n][j]) {
      assert changes[j] in changes;
    }
  }

  /** The `(actor_id, seq)` identities `compact` hands to the persister. */
  function Ids(changes: seq<Change>): (ids: seq<ChangeId>)
    ensures |ids| == |changes|
    ensures forall i | 0 <= i < |changes| :: ids[i] == (changes[i].actorId, changes[i].seqNum)
  {
    seq(|changes|, i requires 0 <= i < |changes| => (changes[i].actorId, changes[i].seqNum))
  }

  /** The changes named by the entries of a batch of changes are the changes themselves. */
  lemma EntryChangesOfEntries(changes: seq<Change>)
    ensures EntryChanges(Entries(changes)) == set c | c in changes
  {
    var es := Entries(changes);
    forall c | c in EntryChanges(es) ensures c in changes {
      var j :| 0 <= j < |es| && c == Change(es[j].0, es[j].1, es[j].2);
      assert c == changes[j];
    }
    forall c | c in changes ensures c in EntryChanges(es) {
      var j :| 0 <= j < |changes| && changes[j] == c;
      assert c == Change(es[j].0, es[j].1, es[j].2);
    }
  }

  /**
   * The outcome of `load` for what `get_document` and `get_changes` return: the engine starts
   * from the snapshot, or empty without one, and then applies every decoded change in one batch.
   * A failed read is a persister error; a snapshot that does not load, a blob that does not
   * decode or a batch the engine rejects is an engine error, in that order.
   */
  ghost function LoadSpec<E>(e: Engine, document: Result<Option<seq<byte>>, E>, stored: Result<set<seq<byte>>, E>): (r: Result<History, PersistentBackendError<E>>)
    ensures document.Failure? ==> r == Failure(PersisterError(document.error))
    ensures r.Success? ==> document.Success? && Open(e, document.value).Success? && stored.Success?
    ensures r.Success? ==> AllDecode(e, stored.value) && Decoded(e, stored.value) <= r.value
    ensures r.Success? ==> Open(e, document.value).value <= r.value
    ensures r.Success? ==> r.value == Open(e, document.value).value + Decoded(e, stored.value)
    ensures document.Success? && Open(e, document.value).Failure? ==>
      r == Failure(AutomergeError(Open(e, document.value).error))
    ensures document.Success? && Open(e, document.value).Success? && stored.Failure? ==>
      r == Failure(PersisterError(stored.error))
    ensures document.Success? && Open(e, document.value).Success? && stored.Success? && !AllDecode(e, stored.value) ==>
      r == Failure(AutomergeError(InvalidChange))
    ensures document.Success? && Open(e, document.value).Success? && stored.Success? && AllDecode(e, stored.value) ==>
      (r.Success? <==> ApplyChanges(e, Open(e, document.value).value, Decoded(e, stored.value)).Success?)
  {
    match document
    case Failure(err) => Failure(PersisterError(err))
    case Success(doc) =>
      match Open(e, doc)
      case Failure(err) => Failure(AutomergeError(err))
      case Success(base) =>
        match stored
        case Failure(err) => Failure(PersisterError(err))
        case Success(blobs) =>
          if !AllDecode(e, blobs) then Failure(AutomergeError(InvalidChange))
          else
            match ApplyChanges(e, base, Decoded(e, blobs))
            case Failure(err) => Failure(AutomergeError(err))
            case Success((h, _)) => Success(h)
  }

  /** `PersistentBackend`: the engine's state and the persister that makes it durable. */
  class PersistentBackend {
    const engine: Engine
    var backend: History
    const persister: SledPersister

    ghost predicate Valid()
    {
      persister.Valid()
    }

    /** The changes tree holds only blobs that decode to changes stored under their own keys. */
    ghost predicate Consistent()
      reads persister.changesTree
    {
      StoredUnderOwnKeys(engine, persister.prefix, persister.changesTree.entries)
    }

    /** The engine holds every change the changes tree decodes to. */
    ghost predicate Covered()
      reads this, persister.changesTree
    {
      Decoded(engine, persister.changesTree.entries.Values) <= backend
    }

    constructor (engine: Engine, backend: History, persister: SledPersister)
      requires persister.Valid()
      ensures Valid()
      ensures this.engine == engine && this.backend == backend && this.persister == persister
    {
      this.engine := engine;
      this.backend := backend;
      this.persister := persister;
    }

    /** `PersistentBackend::load`: rebuilds the engine from the snapshot and the stored changes. */
    static method Load(engine: Engine, persister: SledPersister) returns (r: Result<PersistentBackend, BackendError>)
      requires persister.Valid()
      ensures var spec := LoadSpec(engine, persister.GetDocument(), persister.StoredChanges());
        && (spec.Failure? ==> r == Failure(spec.error))
        && (spec.Success? ==> r.Success? && fresh(r.value) && r.value.Valid() && r.value.backend == spec.value)
      ensures r.Success? ==> r.value.engine == engine && r.value.persister == persister
      ensures r.Success? ==> r.value.Covered()
    {
      var document := persister.GetDocument();
      if document.Failure? {
        return Failure(PersisterError(document.error));
      }
      var base: History;
      match Open(engine, document.value) {
        case Failure(err) => return Failure(AutomergeError(err));
        case Success(h) => base := h;
      }
      var changeBytes := persister.GetChanges();
      if changeBytes.Failure? {
        return Failure(PersisterError(changeBytes.error));
      }
      var blobs := changeBytes.value;
      var changes: seq<Change> := [];
      for i := 0 to |blobs|
        invariant |changes| == i
        invariant forall j | 0 <= j < i :: engine.fromBytes(blobs[j]) == Some(changes[j])
      {
        match FromBytes(engine, blobs[i]) {
          case Failure(err) =>
            assert blobs[i] in persister.changesTree.entries.Values;
            return Failure(AutomergeError(err));
          case Success(c) => changes := changes + [c];
        }
      }
      assert (set c | c in changes) == Decoded(engine, set v | v in blobs) by {
        forall c | c in changes ensures c in Decoded(engine, set v | v in blobs) {
          var j :| 0 <= j < |changes| && changes[j] == c;
          assert blobs[j] in (set v | v in blobs);
        }
        forall c | c in Decoded(engine, set v | v in blobs) ensures c in changes {
          var b :| b in (set v | v in blobs) && engine.fromBytes(b).Some? && engine.fromBytes(b).value == c;
          var j :| 0 <= j < |blobs| && blobs[j] == b;
          assert changes[j] == c;
        }
      }
      match Automerge.ApplyChanges(engine, base, set c | c in changes) {
        case Failure(err) => return Failure(AutomergeError(err));
        case Success((h, _)) =>
          var loaded := new PersistentBackend(engine, h, persister);
          return Success(loaded);
      }
    }

    /**
     * `apply_changes`: writes the batch to the persister first; only if every write succeeded
     * does the engine apply the batch.
     */
    method ApplyChanges(changes: seq<Change>) returns (r: Result<Patch, BackendError>)
      requires Valid()
      modifies this, persister.changesTree
      ensures Valid() && unchanged(persister.documentTree)
      ensures var n := old(persister.changesTree.faults).Allowed(|changes|);
        && persister.changesTree.entries == InsertAll(old(persister.changesTree.entries), persister.prefix, Entries(changes)[..n])
        && persister.changesTree.faults == old(persister.changesTree.faults).Spend(n)
        && (n < |changes| ==> r == Failure(PersisterError(SledError(TreeError))) && backend == old(backend))
        && (n == |changes| ==>
              match Automerge.ApplyChanges(engine, old(backend), set c | c in changes)
              case Failure(err) => r == Failure(AutomergeError(err)) && backend == old(backend)
              case Success((h, patch)) => r == Success(patch) && backend == h)
      ensures old(Consistent()) && (forall c | c in changes :: Encoded(engine, c)) ==> Consistent()
      ensures old(Covered()) && r.Success? && (forall c | c in changes :: Encoded(engine, c)) ==> Covered()
    {
      var stored := persister.InsertChanges(Entries(changes));
      if (forall c | c in changes :: Encoded(engine, c)) {
        ghost var n := old(persister.changesTree.faults).Allowed(|changes|);
        EntriesEncode(engine, changes, n);
        if old(Consistent()) {
          InsertAllKeepsStoredUnderOwnKeys(engine, persister.prefix, old(persister.changesTree.entries), Entries(changes)[..n]);
        }
        if stored.Pass? {
          assert Entries(changes)[..n] == Entries(changes);
          DecodedOfInsertAll(engine, old(persister.changesTree.entries), persister.prefix, Entries(changes));
          EntryChangesOfEntries(changes);
        }
      }
      if stored.Fail? {
        return Failure(PersisterError(stored.error));
      }
      match Automerge.ApplyChanges(engine, backend, set c | c in changes) {
        case Failure(err) => return Failure(AutomergeError(err));
        case Success((h, patch)) =>
          backend := h;
          return Success(patch);
      }
    }

    /**
     * `apply_local_change`: the engine applies and encodes the change first; then the change is
     * written to the persister. A failed write leaves the change applied but not stored.
     */
    method ApplyLocalChange(change: UncompressedChange) returns (r: Result<(Patch, Change), BackendError>)
      requires Valid()
      modifies this, persister.changesTree
      ensures Valid() && unchanged(persister.documentTree)
      ensures match Automerge.ApplyLocalChange(engine, old(backend), change)
        case Failure(err) =>
          && r == Failure(AutomergeError(err))
          && backend == old(backend)
          && unchanged(persister.changesTree)
        case Success((h, patch, c)) =>
          && backend == h
          && (old(persister.changesTree.faults).Failed() ==>
                r == Failure(PersisterError(SledError(TreeError))) && unchanged(persister.changesTree))
          && (!old(persister.changesTree.faults).Failed() ==>
                && r == Success((patch, c))
                && persister.changesTree.entries ==
                     old(persister.changesTree.entries)[MakeKey(persister.prefix, c.actorId, c.seqNum) := c.rawBytes]
                && persister.changesTree.faults == old(persister.changesTree.faults).Spend(1))
      ensures WellFormed(engine) && old(Consistent()) ==> Consistent()
      ensures WellFormed(engine) && old(Covered()) ==> Covered()
    {
      match Automerge.ApplyLocalChange(engine, backend, change) {
        case Failure(err) => return Failure(AutomergeError(err));
        case Success((h, patch, c)) =>
          backend := h;
          var entry := [(c.actorId, c.seqNum, c.rawBytes)];
          var stored := persister.InsertChanges(entry);
          assert entry[..1] == entry && entry[..0] == [];
          if WellFormed(engine) && old(Consistent()) {
            assert EntryEncodes(engine, entry[0]);
            InsertAllKeepsStoredUnderOwnKeys(engine, persister.prefix, old(persister.changesTree.entries), entry);
            InsertAllKeepsStoredUnderOwnKeys(engine, persister.prefix, old(persister.changesTree.entries), []);
          }
          if WellFormed(engine) && old(Covered()) && stored.Pass? {
            assert EntryEncodes(engine, entry[0]);
            DecodedOfInsertAll(engine, old(persister.changesTree.entries), persister.prefix, entry);
            assert EntryChanges(entry) == {c} by {
              assert Change(entry[0].0, entry[0].1, entry[0].2) == c;
            }
          }
          if stored.Fail? {
            return Failure(PersisterError(stored.error));
          }
          return Success((patch, c));
      }
    }

    /**
     * `compact`: captures the engine's changes, saves the engine, writes the snapshot, and only
     * then removes the captured changes. The engine's state is not modified.
     */
    method Compact() returns (r: Outcome<BackendError>)
      requires Valid()
      modifies persister.changesTree, persister.documentTree
      ensures Valid()
      ensures match Save(engine, backend)
        case Failure(err) =>
          r == Fail(AutomergeError(err)) && unchanged(persister.changesTree, persister.documentTree)
        case Success(snapshot) =>
          && (old(persister.documentTree.faults).Failed() ==>
                r == Fail(PersisterError(SledError(TreeError))) && unchanged(persister.changesTree, persister.documentTree))
          && (!old(persister.documentTree.faults).Failed() ==>
                && persister.documentTree.entries == old(persister.documentTree.entries)[MakeDocumentKey(persister.prefix) := snapshot]
                && persister.documentTree.faults == old(persister.documentTree.faults).Spend(1)
                && var ids := Ids(engine.changesSince(backend, []));
                   var n := old(persister.changesTree.faults).Allowed(|ids|);
                   && persister.changesTree.entries == RemoveAll(old(persister.changesTree.entries), persister.prefix, ids[..n])
                   && persister.changesTree.faults == old(persister.changesTree.faults).Spend(n)
                   && (r.Pass? <==> n == |ids|)
                   && (r.Fail? ==> r == Fail(PersisterError(SledError(TreeError)))))
      ensures old(Consistent()) ==> Consistent()
      ensures old(Covered()) ==> Covered()
    {
      var changes := engine.changesSince(backend, []);
      var saved: seq<byte>;
      match Save(engine, backend) {
        case Failure(err) => return Fail(AutomergeError(err));
        case Success(snapshot) => saved := snapshot;
      }
      var written := persister.SetDocument(saved);
      if written.Fail? {
        return Fail(PersisterError(written.error));
      }
      var removed := persister.RemoveChanges(Ids(changes));
      if old(Consistent()) {
        ghost var n := old(persister.changesTree.faults).Allowed(|changes|);
        RemoveAllKeepsStoredUnderOwnKeys(engine, persister.prefix, old(persister.changesTree.entries), Ids(changes)[..n]);
      }
      if old(Covered()) {
        ghost var n := old(persister.changesTree.faults).Allowed(|changes|);
        RemoveAllShrinks(old(persister.changesTree.entries), persister.prefix, Ids(changes)[..n]);
        DecodedOfSubmap(engine, old(persister.changesTree.entries), persister.changesTree.entries);
      }
      if removed.Fail? {
        return Fail(PersisterError(removed.error));
      }
      return Pass;
    }

    /** `get_patch`: delegated to the engine; reads no persister state. */
    function GetPatch(): (r: Result<Patch, BackendError>)
      reads this
      ensures r.Success? <==> engine.patch(backend).Some?
      ensures r.Success? ==> r.value == engine.patch(backend).value
      ensures r.Failure? ==> r.error == AutomergeError(QueryFailed)
    {
      match engine.patch(backend)
      case Some(p) => Success(p)
      case None => Failure(AutomergeError(QueryFailed))
    }

    /** `get_changes_for_actor_id`: delegated to the engine; reads no persister state. */
    function GetChangesForActorId(actorId: ActorId): (r: Result<seq<Change>, BackendError>)
      reads this
      ensures r.Success? <==> engine.changesForActor(backend, actorId).Some?
      ensures r.Success? ==> r.value == engine.changesForActor(backend, actorId).value
      ensures r.Failure? ==> r.error == AutomergeError(QueryFailed)
    {
      match engine.changesForActor(backend, actorId)
      case Some(cs) => Success(cs)
      case None => Failure(AutomergeError(QueryFailed))
    }

    /** `get_changes`: delegated to the engine; with no dependencies it lists the whole state. */
    function GetChanges(haveDeps: seq<ChangeHash>): (r: seq<Change>)
      reads this
      ensures WellFormed(engine) && haveDeps == [] ==> (set c | c in r) == backend
    {
      engine.changesSince(backend, haveDeps)
    }

    /** `get_missing_deps`: delegated to the engine; reads no persister state. */
    function GetMissingDeps(): (r: seq<ChangeHash>)
      reads this
      ensures r == engine.missingDeps(backend)
    {
      engine.missingDeps(backend)
    }

    /** `get_heads`: delegated to the engine; reads no persister state. */
    function GetHeads(): (r: seq<ChangeHash>)
      reads this
      ensures r == engine.heads(backend)
    {
      engine.heads(backend)
    }
  }
}
