/**
 * An abstract model of the automerge engine (`automerge::Backend`, `automerge::Change`) that the
 * persistence layer drives. The engine is a foreign library: its state is abstracted to the set
 * of changes it holds, and each of its operations that this layer calls is a function supplied
 * by the `Engine` value, so that every proof holds for any engine with the properties
 * listed in `WellFormed`.
 */
module Automerge {
  import opened Wrappers
  import opened Bytes

  /** `automerge_protocol::ActorId`; `to_bytes` yields `bytes`. */
  datatype ActorId = ActorId(bytes: seq<byte>)

  datatype ChangeHash = ChangeHash(bytes: seq<byte>)

  /** An encoded change with the identity the engine reports for it. */
  datatype Change = Change(actorId: ActorId, seqNum: u64, rawBytes: seq<byte>)

  /** A change as a local frontend produces it, before the engine encodes it. */
  datatype UncompressedChange = UncompressedChange(body: seq<byte>)

  datatype Patch = Patch(body: seq<byte>)

  /** Where inside the engine a call failed (`automerge_backend::AutomergeError`). */
  datatype AutomergeError =
    | InvalidChange        // `Change::from_bytes` rejected the bytes
    | InvalidDocument      // `Backend::load` rejected a snapshot
    | ChangesRejected      // `Backend::apply_changes` failed
    | LocalChangeRejected  // `Backend::apply_local_change` failed
    | SaveFailed           // `Backend::save` failed
    | QueryFailed          // `get_patch` or `get_changes_for_actor_id` failed

  /** The engine's state: the changes it has applied. */
  type History = set<Change>

  /** The behaviour of the engine's operations, as functions of its state. */
  datatype Engine = Engine(
    fromBytes: seq<byte> -> Option<Change>,
    load: seq<byte> -> Option<History>,
    save: History -> Option<seq<byte>>,
    accept: (History, set<Change>) -> Option<Patch>,
    applyLocal: (History, UncompressedChange) -> Option<(Patch, Change)>,
    patch: History -> Option<Patch>,
    changesSince: (History, seq<ChangeHash>) -> seq<Change>,
    changesForActor: (History, ActorId) -> Option<seq<Change>>,
    missingDeps: History -> seq<ChangeHash>,
    heads: History -> seq<ChangeHash>)

  /** The bytes of `c` decode to `c` itself. */
  ghost predicate Encoded(e: Engine, c: Change)
  {
    e.fromBytes(c.rawBytes) == Some(c)
  }

  /**
   * What this layer relies on from the engine: decoding keeps the bytes it decoded, the changes
   * a local edit produces decode to themselves, a saved snapshot loads back to the same state,
   * applying no new changes succeeds, and `get_changes(&[])` lists the whole state.
   */
  ghost predicate WellFormed(e: Engine)
  {
    && (forall b :: e.fromBytes(b).Some? ==> e.fromBytes(b).value.rawBytes == b)
    && (forall h, u :: e.applyLocal(h, u).Some? ==> Encoded(e, e.applyLocal(h, u).value.1))
    && (forall h :: e.save(h).Some? ==> e.load(e.save(h).value) == Some(h))
    && (forall h :: e.accept(h, {}).Some?)
    && (forall h :: (set c | c in e.changesSince(h, [])) == h)
  }

  /** `Change::from_bytes`. */
  function FromBytes(e: Engine, b: seq<byte>): (r: Result<Change, AutomergeError>)
    ensures r.Success? <==> e.fromBytes(b).Some?
    ensures r.Success? ==> Some(r.value) == e.fromBytes(b)
    ensures r.Failure? ==> r.error == InvalidChange
    ensures WellFormed(e) && r.Success? ==> r.value.rawBytes == b
  {
    match e.fromBytes(b)
    case Some(c) => Success(c)
    case None => Failure(InvalidChange)
  }

  /** `Backend::load(document)` for a stored snapshot, `Backend::init()` without one. */
  function Open(e: Engine, document: Option<seq<byte>>): (r: Result<History, AutomergeError>)
    ensures document.None? ==> r == Success({})
    ensures document.Some? ==> (r.Success? <==> e.load(document.value).Some?)
  {
    match document
    case None => Success({})
    case Some(d) =>
      match e.load(d)
      case Some(h) => Success(h)
      case None => Failure(InvalidDocument)
  }

  /**
   * `Backend::apply_changes`. The engine ignores the changes it already holds, so only the new
   * ones reach its acceptance check; a failed application leaves the state as it was.
   */
  function ApplyChanges(e: Engine, h: History, batch: set<Change>): (r: Result<(History, Patch), AutomergeError>)
    ensures r.Success? ==> r.value.0 == h + batch
    ensures r.Success? <==> e.accept(h, batch - h).Some?
    ensures WellFormed(e) && batch <= h ==> r.Success?
  {
    assert batch <= h ==> batch - h == {};
    match e.accept(h, batch - h)
    case Some(p) => Success((h + batch, p))
    case None => Failure(ChangesRejected)
  }

  /** `Backend::apply_local_change`: the engine encodes the change and applies it. */
  function ApplyLocalChange(e: Engine, h: History, u: UncompressedChange): (r: Result<(History, Patch, Change), AutomergeError>)
    ensures r.Success? ==> r.value.0 == h + {r.value.2}
    ensures WellFormed(e) && r.Success? ==> Encoded(e, r.value.2)
  {
    match e.applyLocal(h, u)
    case Some((p, c)) => Success((h + {c}, p, c))
    case None => Failure(LocalChangeRejected)
  }

  /** `Backend::save`. */
  function Save(e: Engine, h: History): (r: Result<seq<byte>, AutomergeError>)
    ensures WellFormed(e) && r.Success? ==> Open(e, Some(r.value)) == Success(h)
  {
    match e.save(h)
    case Some(b) => Success(b)
    case None => Failure(SaveFailed)
  }

  /** No two distinct changes share an `(actor_id, seq)` identity. */
  ghost predicate UniqueIds(s: set<Change>)
  {
    forall c, d :: c in s && d in s && c.actorId == d.actorId && c.seqNum == d.seqNum ==> c == d
  }
}
