/**
 * The sled persister: changes and document snapshots kept in two sled trees. A tree is its
 * map from keys to values plus a failure schedule standing in for the storage device.
 */
module Sled {
  import opened Wrappers
  import opened Bytes
  import opened Automerge
  import opened SledKeys

  /** `sled::Error`; its causes are not modelled. */
  datatype TreeError = TreeError

  /** `SledPersisterError`. */
  datatype SledPersisterError = SledError(cause: TreeError)

  /** One `(actor_id, seq, bytes)` entry of an `insert_changes` batch. */
  type ChangeEntry = (ActorId, u64, seq<byte>)

  /** One `(actor_id, seq)` identity of a `remove_changes` batch. */
  type ChangeId = (ActorId, u64)

  /**
   * When a tree fails: `Never`, or once `writes` more writes have succeeded. A failed tree
   * answers every operation, reads included, with an error and changes nothing.
   */
  datatype Faults = Never | AfterWrites(writes: nat) {

    predicate Failed()
    {
      this == AfterWrites(0)
    }

    /** How many of the next `n` writes succeed. */
    function Allowed(n: nat): (k: nat)
      ensures k <= n
      ensures k == n <==> Never? || n <= writes
      ensures k < n ==> AfterWrites? && k == writes
    {
      match this
      case Never => n
      case AfterWrites(w) => if w < n then w else n
    }

    /** The schedule after `k` successful writes. */
    function Spend(k: nat): (f: Faults)
      requires AfterWrites? ==> k <= writes
      ensures f.Never? <==> Never?
      ensures AfterWrites? ==> f.writes + k == writes
    {
      match this
      case Never => Never
      case AfterWrites(w) => AfterWrites(w - k)
    }
  }

  /** A `sled::Tree`. */
  class Tree {
    var entries: map<seq<byte>, seq<byte>>
    var faults: Faults

    constructor (entries: map<seq<byte>, seq<byte>>, faults: Faults)
      ensures this.entries == entries && this.faults == faults
    {
      this.entries := entries;
      this.faults := faults;
    }

    /** `Tree::get`. */
    function Get(key: seq<byte>): (r: Result<Option<seq<byte>>, TreeError>)
      reads this
      ensures r.Failure? <==> faults.Failed()
      ensures r.Success? ==> (r.value.Some? <==> key in entries)
      ensures r.Success? && r.value.Some? ==> r.value.value == entries[key]
    {
      if faults.Failed() then Failure(TreeError)
      else if key in entries then Success(Some(entries[key]))
      else Success(None)
    }

    /** `Tree::insert`: one write. */
    method Insert(key: seq<byte>, value: seq<byte>) returns (r: Outcome<TreeError>)
      modifies this
      ensures r.Fail? <==> old(faults).Failed()
      ensures r.Fail? ==> unchanged(this)
      ensures r.Pass? ==> entries == old(entries)[key := value] && faults == old(faults).Spend(1)
    {
      if faults.Failed() {
        return Fail(TreeError);
      }
      entries := entries[key := value];
      faults := faults.Spend(1);
      return Pass;
    }

    /** `Tree::remove`: one write, which succeeds whether or not the key is present. */
    method Remove(key: seq<byte>) returns (r: Result<Option<seq<byte>>, TreeError>)
      modifies this
      ensures r.Failure? <==> old(faults).Failed()
      ensures r.Failure? ==> unchanged(this)
      ensures r.Success? ==> entries == old(entries) - {key} && faults == old(faults).Spend(1)
      ensures r.Success? ==> (r.value.Some? <==> key in old(entries))
    {
      if faults.Failed() {
        return Failure(TreeError);
      }
      var previous := if key in entries then Some(entries[key]) else None;
      entries := entries - {key};
      faults := faults.Spend(1);
      return Success(previous);
    }
  }

  function EntryKey(prefix: seq<byte>, e: ChangeEntry): seq<byte>
  {
    MakeKey(prefix, e.0, e.1)
  }

  function IdKey(prefix: seq<byte>, id: ChangeId): seq<byte>
  {
    MakeKey(prefix, id.0, id.1)
  }

  /** The changes tree after writing a batch of entries in order. */
  function InsertAll(m: map<seq<byte>, seq<byte>>, prefix: seq<byte>, batch: seq<ChangeEntry>): (r: map<seq<byte>, seq<byte>>)
    ensures m.Keys <= r.Keys
  {
    if batch == [] then m
    else
      var last := batch[|batch| - 1];
      InsertAll(m, prefix, batch[..|batch| - 1])[EntryKey(prefix, last) := last.2]
  }

  /** The changes tree after removing a batch of identities in order. */
  function RemoveAll(m: map<seq<byte>, seq<byte>>, prefix: seq<byte>, ids: seq<ChangeId>): (r: map<seq<byte>, seq<byte>>)
    ensures forall k | k in r :: k in m && r[k] == m[k]
    ensures forall j | 0 <= j < |ids| :: IdKey(prefix, ids[j]) !in r
  {
    if ids == [] then m
    else RemoveAll(m, prefix, ids[..|ids| - 1]) - {IdKey(prefix, ids[|ids| - 1])}
  }

  /** The keys a batch of identities denotes under a prefix. */
  function IdKeys(prefix: seq<byte>, ids: seq<ChangeId>): set<seq<byte>>
  {
    set i | 0 <= i < |ids| :: IdKey(prefix, ids[i])
  }

  /** An entry is stored under its key unless a later entry of the batch has the same key. */
  lemma {:induction false} InsertAllLastWins(m: map<seq<byte>, seq<byte>>, prefix: seq<byte>, batch: seq<ChangeEntry>, i: nat)
    requires i < |batch|
    requires forall j | i < j < |batch| :: EntryKey(prefix, batch[j]) != EntryKey(prefix, batch[i])
    ensures EntryKey(prefix, batch[i]) in InsertAll(m, prefix, batch)
    ensures InsertAll(m, prefix, batch)[EntryKey(prefix, batch[i])] == batch[i].2
  {
    if i < |batch| - 1 {
      var init := batch[..|batch| - 1];
      assert forall j | i < j < |init| :: init[j] == batch[j];
      InsertAllLastWins(m, prefix, init, i);
    }
  }

  /**
   * Every entry's key ends up holding the bytes of the last entry of the batch with that key;
   * the index of that last entry is returned.
   */
  lemma {:induction false} InsertAllStoresSomeLaterEntry(m: map<seq<byte>, seq<byte>>, prefix: seq<byte>, batch: seq<ChangeEntry>, i: nat)
    returns (j: nat)
    requires i < |batch|
    ensures i <= j < |batch|
    ensures EntryKey(prefix, batch[j]) == EntryKey(prefix, batch[i])
    ensures EntryKey(prefix, batch[i]) in InsertAll(m, prefix, batch)
    ensures InsertAll(m, prefix, batch)[EntryKey(prefix, batch[i])] == batch[j].2
    ensures forall l | j < l < |batch| :: EntryKey(prefix, batch[l]) != EntryKey(prefix, batch[i])
  {
    var last := |batch| - 1;
    var init := batch[..last];
    if EntryKey(prefix, batch[i]) == EntryKey(prefix, batch[last]) {
      j := last;
    } else {
      assert init[i] == batch[i];
      j := InsertAllStoresSomeLaterEntry(m, prefix, init, i);
      assert batch[j] == init[j];
      assert forall l | j < l < |init| :: batch[l] == init[l];
    }
  }

  /** Keys that no entry of the batch maps to keep their presence and value. */
  lemma {:induction false} InsertAllFrame(m: map<seq<byte>, seq<byte>>, prefix: seq<byte>, batch: seq<ChangeEntry>, k: seq<byte>)
    requires forall j | 0 <= j < |batch| :: EntryKey(prefix, batch[j]) != k
    ensures k in InsertAll(m, prefix, batch) <==> k in m
    ensures k in m ==> InsertAll(m, prefix, batch)[k] == m[k]
  {
    if batch != [] {
      var init := batch[..|batch| - 1];
      assert forall j | 0 <= j < |init| :: init[j] == batch[j];
      InsertAllFrame(m, prefix, init, k);
    }
  }

  /** The keys of a batch are those of all but its last identity, plus the last one's. */
  lemma IdKeysStep(prefix: seq<byte>, ids: seq<ChangeId>)
    requires ids != []
    ensures IdKeys(prefix, ids) == IdKeys(prefix, ids[..|ids| - 1]) + {IdKey(prefix, ids[|ids| - 1])}
  {
    var init := ids[..|ids| - 1];
    forall k | k in IdKeys(prefix, ids) ensures k in IdKeys(prefix, init) + {IdKey(prefix, ids[|ids| - 1])} {
      var i :| 0 <= i < |ids| && k == IdKey(prefix, ids[i]);
      if i < |ids| - 1 {
        assert ids[i] == init[i];
      }
    }
    forall k | k in IdKeys(prefix, init) ensures k in IdKeys(prefix, ids) {
      var i :| 0 <= i < |init| && k == IdKey(prefix, init[i]);
      assert ids[i] == init[i];
    }
  }

  /** Removing a batch deletes exactly the keys of its identities, present or not. */
  lemma {:induction false} RemoveAllDeletesExactly(m: map<seq<byte>, seq<byte>>, prefix: seq<byte>, ids: seq<ChangeId>)
    ensures RemoveAll(m, prefix, ids) == m - IdKeys(prefix, ids)
  {
    if ids != [] {
      RemoveAllDeletesExactly(m, prefix, ids[..|ids| - 1]);
      IdKeysStep(prefix, ids);
    }
  }

  /** Removing the same batch a second time changes nothing. */
  lemma RemoveAllIdempotent(m: map<seq<byte>, seq<byte>>, prefix: seq<byte>, ids: seq<ChangeId>)
    ensures RemoveAll(RemoveAll(m, prefix, ids), prefix, ids) == RemoveAll(m, prefix, ids)
  {
    RemoveAllDeletesExactly(m, prefix, ids);
    RemoveAllDeletesExactly(RemoveAll(m, prefix, ids), prefix, ids);
  }

  /** Removing a batch leaves a sub-map that keeps every key outside the batch. */
  lemma RemoveAllShrinks(m: map<seq<byte>, seq<byte>>, prefix: seq<byte>, ids: seq<ChangeId>)
    ensures forall k | k in RemoveAll(m, prefix, ids) :: k in m && RemoveAll(m, prefix, ids)[k] == m[k]
    ensures forall k | k in m && k !in IdKeys(prefix, ids) :: k in RemoveAll(m, prefix, ids)
  {
    RemoveAllDeletesExactly(m, prefix, ids);
  }

  /** How many keys of `ks` hold the value `v` in `m`. */
  ghost function Count(m: map<seq<byte>, seq<byte>>, ks: set<seq<byte>>, v: seq<byte>): nat
  {
    |set k | k in ks && k in m && m[k] == v|
  }

  /** How many entries of `m` hold the value `v`. */
  ghost function Occurrences(m: map<seq<byte>, seq<byte>>, v: seq<byte>): nat
  {
    Count(m, m.Keys, v)
  }

  lemma CountStep(m: map<seq<byte>, seq<byte>>, ks: set<seq<byte>>, k: seq<byte>)
    requires k in m && k !in ks
    ensures forall v :: Count(m, ks + {k}, v) == Count(m, ks, v) + (if m[k] == v then 1 else 0)
  {
    forall v ensures Count(m, ks + {k}, v) == Count(m, ks, v) + (if m[k] == v then 1 else 0) {
      var before := set k' | k' in ks && k' in m && m[k'] == v;
      var after := set k' | k' in ks + {k} && k' in m && m[k'] == v;
      if m[k] == v {
        assert after == before + {k};
      } else {
        assert after == before;
      }
    }
  }

  /** A value occurs in a map exactly when some entry holds it. */
  lemma OccurrencesPositive(m: map<seq<byte>, seq<byte>>, v: seq<byte>)
    ensures Occurrences(m, v) > 0 <==> v in m.Values
  {
    var holders := set k | k in m.Keys && k in m && m[k] == v;
    if v in m.Values {
      var k :| k in m && m[k] == v;
      assert k in holders;
    } else {
      assert holders == {};
    }
  }

  /** The document stored for a prefix in a document tree. */
  function DocumentOf(documents: map<seq<byte>, seq<byte>>, prefix: seq<byte>): Option<seq<byte>>
  {
    var key := MakeDocumentKey(prefix);
    if key in documents then Some(documents[key]) else None
  }

  /** Writing one prefix's snapshot leaves the snapshot of every other prefix as it was. */
  lemma DocumentOfOtherPrefix(documents: map<seq<byte>, seq<byte>>, mine: seq<byte>, other: seq<byte>, data: seq<byte>)
    requires mine != other
    ensures DocumentOf(documents[MakeDocumentKey(other) := data], mine) == DocumentOf(documents, mine)
  {
    if MakeDocumentKey(other) == MakeDocumentKey(mine) {
      MakeDocumentKeyInjective(other, mine);
    }
  }

  /** `SledPersister`: a changes tree, a document tree and the key prefix of this persister. */
  class SledPersister {
    const changesTree: Tree
    const documentTree: Tree
    const prefix: seq<byte>

    ghost predicate Valid()
    {
      changesTree != documentTree
    }

    /** `SledPersister::new`. */
    constructor (changesTree: Tree, documentTree: Tree, prefix: seq<byte>)
      requires changesTree != documentTree
      ensures Valid()
      ensures this.changesTree == changesTree && this.documentTree == documentTree && this.prefix == prefix
    {
      this.changesTree := changesTree;
      this.documentTree := documentTree;
      this.prefix := prefix;
    }

    /**
     * `get_changes`: the value of every entry of the changes tree, each as often as it is stored,
     * whatever its key and prefix; the order is not specified.
     */
    method GetChanges() returns (r: Result<seq<seq<byte>>, SledPersisterError>)
      ensures r.Failure? <==> changesTree.faults.Failed()
      ensures r.Failure? ==> r.error == SledError(TreeError)
      ensures r.Success? ==> |r.value| == |changesTree.entries|
      ensures r.Success? ==> forall v :: multiset(r.value)[v] == Occurrences(changesTree.entries, v)
      ensures r.Success? ==> (set v | v in r.value) == changesTree.entries.Values
    {
      if changesTree.faults.Failed() {
        return Failure(SledError(TreeError));
      }
      var entries := changesTree.entries;
      var pending := entries.Keys;
      var values: seq<seq<byte>> := [];
      while pending != {}
        invariant pending <= entries.Keys
        invariant |values| + |pending| == |entries.Keys|
        invariant forall v :: multiset(values)[v] == Count(entries, entries.Keys - pending, v)
        decreases |pending|
      {
        var k :| k in pending;
        CountStep(entries, entries.Keys - pending, k);
        assert entries.Keys - (pending - {k}) == (entries.Keys - pending) + {k};
        values := values + [entries[k]];
        pending := pending - {k};
      }
      assert entries.Keys - pending == entries.Keys;
      forall v ensures v in values <==> v in entries.Values {
        OccurrencesPositive(entries, v);
      }
      return Success(values);
    }

    /** The values `get_changes` returns, as a set, and whether it fails. */
    function StoredChanges(): (r: Result<set<seq<byte>>, SledPersisterError>)
      reads changesTree
      ensures r.Failure? <==> changesTree.faults.Failed()
    {
      if changesTree.faults.Failed() then Failure(SledError(TreeError))
      else Success(changesTree.entries.Values)
    }

    /**
     * `insert_changes`: writes each entry under its key, in order, stopping at the first failed
     * write; the batch succeeds exactly when every write does.
     */
    method InsertChanges(changes: seq<ChangeEntry>) returns (r: Outcome<SledPersisterError>)
      modifies changesTree
      ensures var n := old(changesTree.faults).Allowed(|changes|);
        && changesTree.entries == InsertAll(old(changesTree.entries), prefix, changes[..n])
        && changesTree.faults == old(changesTree.faults).Spend(n)
        && (r.Pass? <==> n == |changes|)
        && (r.Fail? ==> r.error == SledError(TreeError))
      ensures old(changesTree.faults).Failed() && changes != [] ==> r.Fail? && unchanged(changesTree)
    {
      var i := 0;
      while i < |changes|
        invariant 0 <= i <= old(changesTree.faults).Allowed(|changes|)
        invariant changesTree.entries == InsertAll(old(changesTree.entries), prefix, changes[..i])
        invariant changesTree.faults == old(changesTree.faults).Spend(i)
        invariant i == 0 ==> unchanged(changesTree)
      {
        var (a, s, c) := changes[i];
        var key := MakeKey(prefix, a, s);
        var written := changesTree.Insert(key, c);
        if written.Fail? {
          return Fail(SledError(written.error));
        }
        assert changes[..i + 1][..i] == changes[..i];
        i := i + 1;
      }
      assert changes[..i] == changes;
      return Pass;
    }

    /**
     * `remove_changes`: removes the key of each identity, in order, stopping at the first failed
     * write. An absent key is not an error: the batch succeeds exactly when every write does.
     */
    method RemoveChanges(changes: seq<ChangeId>) returns (r: Outcome<SledPersisterError>)
      modifies changesTree
      ensures var n := old(changesTree.faults).Allowed(|changes|);
        && changesTree.entries == RemoveAll(old(changesTree.entries), prefix, changes[..n])
        && changesTree.faults == old(changesTree.faults).Spend(n)
        && (r.Pass? <==> n == |changes|)
        && (r.Fail? ==> r.error == SledError(TreeError))
    {
      var i := 0;
      while i < |changes|
        invariant 0 <= i <= old(changesTree.faults).Allowed(|changes|)
        invariant changesTree.entries == RemoveAll(old(changesTree.entries), prefix, changes[..i])
        invariant changesTree.faults == old(changesTree.faults).Spend(i)
      {
        var (a, s) := changes[i];
        var key := MakeKey(prefix, a, s);
        var removed := changesTree.Remove(key);
        if removed.Failure? {
          return Fail(SledError(removed.error));
        }
        assert changes[..i + 1][..i] == changes[..i];
        i := i + 1;
      }
      assert changes[..i] == changes;
      return Pass;
    }

    /** `get_document`: the snapshot stored under this persister's document key, if any. */
    function GetDocument(): (r: Result<Option<seq<byte>>, SledPersisterError>)
      reads documentTree
      ensures r.Failure? <==> documentTree.faults.Failed()
      ensures r.Success? ==> (r.value.Some? <==> MakeDocumentKey(prefix) in documentTree.entries)
      ensures r.Success? && r.value.Some? ==> r.value.value == documentTree.entries[MakeDocumentKey(prefix)]
    {
      match documentTree.Get(MakeDocumentKey(prefix))
      case Failure(err) => Failure(SledError(err))
      case Success(doc) => Success(doc)
    }

    /** `set_document`: one write of the snapshot under this persister's document key. */
    method SetDocument(data: seq<byte>) returns (r: Outcome<SledPersisterError>)
      modifies documentTree
      ensures r.Fail? <==> old(documentTree.faults).Failed()
      ensures r.Fail? ==> r.error == SledError(TreeError) && unchanged(documentTree)
      ensures r.Pass? ==> documentTree.entries == old(documentTree.entries)[MakeDocumentKey(prefix) := data]
      ensures r.Pass? ==> documentTree.faults == old(documentTree.faults).Spend(1)
      ensures r.Pass? ==> DocumentOf(documentTree.entries, prefix) == Some(data)
      ensures r.Pass? && !documentTree.faults.Failed() ==> GetDocument() == Success(Some(data))
    {
      var written := documentTree.Insert(MakeDocumentKey(prefix), data);
      if written.Fail? {
        return Fail(SledError(written.error));
      }
      return Pass;
    }
  }
}
