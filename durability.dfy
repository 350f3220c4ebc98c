/** What the changes tree holds when it is used only through the persistence protocol. */
module Durability {
  import opened Wrappers
  import opened Bytes
  import opened Automerge
  import opened SledKeys
  import opened Sled

  /** Every stored blob decodes. */
  ghost predicate AllDecode(e: Engine, blobs: set<seq<byte>>)
  {
    forall b | b in blobs :: e.fromBytes(b).Some?
  }

  /** The changes a set of blobs decodes to. */
  ghost function Decoded(e: Engine, blobs: set<seq<byte>>): set<Change>
  {
    set b | b in blobs && e.fromBytes(b).Some? :: e.fromBytes(b).value
  }

  /** An `insert_changes` entry whose bytes decode to the change it names. */
  ghost predicate EntryEncodes(e: Engine, entry: ChangeEntry)
  {
    e.fromBytes(entry.2) == Some(Change(entry.0, entry.1, entry.2))
  }

  /** Every stored blob decodes to a change whose key is the key the blob is stored under. */
  ghost predicate StoredUnderOwnKeys(e: Engine, prefix: seq<byte>, changes: map<seq<byte>, seq<byte>>)
  {
    forall k | k in changes ::
      e.fromBytes(changes[k]).Some? &&
      k == MakeKey(prefix, e.fromBytes(changes[k]).value.actorId, e.fromBytes(changes[k]).value.seqNum)
  }

  /** Writing entries that encode their changes keeps every blob under its own key. */
  lemma {:induction false} InsertAllKeepsStoredUnderOwnKeys(e: Engine, prefix: seq<byte>, changes: map<seq<byte>, seq<byte>>, batch: seq<ChangeEntry>)
    requires StoredUnderOwnKeys(e, prefix, changes)
    requires forall j | 0 <= j < |batch| :: EntryEncodes(e, batch[j])
    ensures StoredUnderOwnKeys(e, prefix, InsertAll(changes, prefix, batch))
  {
    if batch != [] {
      var init := batch[..|batch| - 1];
      assert forall j | 0 <= j < |init| :: init[j] == batch[j];
      InsertAllKeepsStoredUnderOwnKeys(e, prefix, changes, init);
      var last := batch[|batch| - 1];
      assert EntryEncodes(e, last);
    }
  }

  /** Removing keys keeps every remaining blob under its own key. */
  lemma RemoveAllKeepsStoredUnderOwnKeys(e: Engine, prefix: seq<byte>, changes: map<seq<byte>, seq<byte>>, ids: seq<ChangeId>)
    requires StoredUnderOwnKeys(e, prefix, changes)
    ensures StoredUnderOwnKeys(e, prefix, RemoveAll(changes, prefix, ids))
  {
    RemoveAllShrinks(changes, prefix, ids);
  }

  /** A tree whose blobs are stored under their own keys holds only blobs that decode. */
  lemma StoredUnderOwnKeysDecodes(e: Engine, prefix: seq<byte>, changes: map<seq<byte>, seq<byte>>)
    requires StoredUnderOwnKeys(e, prefix, changes)
    ensures AllDecode(e, changes.Values)
  {
  }
  /** A sub-map of a changes tree decodes to a subset of its changes. */
  lemma DecodedOfSubmap(e: Engine, m: map<seq<byte>, seq<byte>>, sub: map<seq<byte>, seq<byte>>)
    requires forall k | k in sub :: k in m && sub[k] == m[k]
    ensures Decoded(e, sub.Values) <= Decoded(e, m.Values)
  {
    forall c | c in Decoded(e, sub.Values) ensures c in Decoded(e, m.Values) {
      var b :| b in sub.Values && e.fromBytes(b).Some? && e.fromBytes(b).value == c;
      var k :| k in sub && sub[k] == b;
      assert m[k] == b;
    }
  }

  /** The changes the entries of a batch name. */
  ghost function EntryChanges(batch: seq<ChangeEntry>): set<Change>
  {
    set j | 0 <= j < |batch| :: Change(batch[j].0, batch[j].1, batch[j].2)
  }

  /** Writing entries that encode their changes adds to what the tree decodes those changes at most. */
  lemma {:induction false} DecodedOfInsertAll(e: Engine, m: map<seq<byte>, seq<byte>>, prefix: seq<byte>, batch: seq<ChangeEntry>)
    requires forall j | 0 <= j < |batch| :: EntryEncodes(e, batch[j])
    ensures Decoded(e, InsertAll(m, prefix, batch).Values) <= Decoded(e, m.Values) + EntryChanges(batch)
  {
    if batch != [] {
      var init := batch[..|batch| - 1];
      var last := batch[|batch| - 1];
      assert forall j | 0 <= j < |init| :: init[j] == batch[j];
      DecodedOfInsertAll(e, m, prefix, init);
      var before := InsertAll(m, prefix, init);
      var after := InsertAll(m, prefix, batch);
      forall c | c in Decoded(e, after.Values) ensures c in Decoded(e, m.Values) + EntryChanges(batch) {
        var b :| b in after.Values && e.fromBytes(b).Some? && e.fromBytes(b).value == c;
        var k :| k in after && after[k] == b;
        if k == EntryKey(prefix, last) {
          assert EntryEncodes(e, batch[|batch| - 1]);
          assert c == Change(last.0, last.1, last.2);
        } else {
          assert b in before.Values;
          assert c in Decoded(e, before.Values);
          if c !in Decoded(e, m.Values) {
            var j :| 0 <= j < |init| && c == Change(init[j].0, init[j].1, init[j].2);
            assert batch[j] == init[j];
          }
        }
      }
    }
  }

  /**
   * A change that is written but not applied leaves the tree decoding to more than the engine
   * holds: an `apply_changes` whose write succeeds and whose engine step fails breaks the
   * engine's coverage of the store.
   */
  lemma WrittenButUnappliedIsUncovered(e: Engine, m: map<seq<byte>, seq<byte>>, prefix: seq<byte>, c: Change, h: History)
    requires Encoded(e, c) && c !in h
    ensures c in Decoded(e, InsertAll(m, prefix, [(c.actorId, c.seqNum, c.rawBytes)]).Values)
    ensures !(Decoded(e, InsertAll(m, prefix, [(c.actorId, c.seqNum, c.rawBytes)]).Values) <= h)
  {
    var batch := [(c.actorId, c.seqNum, c.rawBytes)];
    assert batch[..0] == [];
    var written := InsertAll(m, prefix, batch);
    assert written[EntryKey(prefix, batch[0])] == c.rawBytes;
    assert c.rawBytes in written.Values;
  }
}
