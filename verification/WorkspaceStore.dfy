/** The content-addressed object store of workspaces: one reference per path, one blob per digest. */
module WorkspaceStore {
  import opened Prelude
  import opened Manifests

  type Bytes = seq<bv8>

  datatype StoreError = InvalidWorkspaceId | InvalidDigest | NotFound

  datatype Store = Store(refs: map<(string, Path), Object>, blobs: map<Digest, Bytes>) {
    function Get(workspaceId: string, path: Path): Result<Bytes, StoreError> {
      if !SafeWorkspaceId(workspaceId) then Err(StoreError.InvalidWorkspaceId)
      else if (workspaceId, path) !in refs then Err(NotFound)
      else
        var digest := refs[(workspaceId, path)].digest;
        if !IsDigest(digest) then Err(InvalidDigest)
        else if digest !in blobs then Err(NotFound)
        else Ok(blobs[digest])
    }
  }

  const EMPTY_STORE := Store(map[], map[])

  ghost predicate IsContentHash(hash: Bytes -> Digest) {
    forall data :: IsDigest(hash(data))
  }

  function NewObject(hash: Bytes -> Digest, path: Path, data: Bytes, contentType: Option<string>): Object {
    Object(path, hash(data), |data|, if contentType == Some("") then None else contentType)
  }

  /** A blob is written once; the reference always. */
  function Stored(hash: Bytes -> Digest, s: Store, workspaceId: string, path: Path, data: Bytes,
                  contentType: Option<string>): Store
  {
    Store(if SafeWorkspaceId(workspaceId)
          then s.refs[(workspaceId, path) := NewObject(hash, path, data, contentType)] else s.refs,
          if hash(data) in s.blobs then s.blobs else s.blobs[hash(data) := data])
  }

  function Deleted(s: Store, workspaceId: string, path: Path): Store {
    if SafeWorkspaceId(workspaceId) then s.(refs := s.refs - {(workspaceId, path)}) else s
  }

  class LocalWorkspaceStore {
    const hash: Bytes -> Digest
    var refs: map<(string, Path), Object>
    var blobs: map<Digest, Bytes>

    ghost function State(): Store
      reads this
    {
      Store(refs, blobs)
    }

    constructor (hash: Bytes -> Digest)
      ensures this.hash == hash && State() == EMPTY_STORE
    {
      this.hash, refs, blobs := hash, map[], map[];
    }

    method Put(workspaceId: string, path: Path, data: Bytes, contentType: Option<string>)
      returns (r: Result<Object, StoreError>)
      requires IsContentHash(hash)
      modifies this
      ensures State() == Stored(hash, old(State()), workspaceId, path, data, contentType)
      ensures r == if SafeWorkspaceId(workspaceId) then Ok(NewObject(hash, path, data, contentType))
                   else Err(StoreError.InvalidWorkspaceId)
      ensures r.Ok? <==>
        && workspaceId != "" && workspaceId != "." && workspaceId != ".." && '/' !in workspaceId && '\\' !in workspaceId
        && '\0' !in workspaceId
      ensures r.Ok? ==>
        r.value == Object(path, hash(data), |data|, if contentType == Some("") then None else contentType)
      ensures refs == if r.Ok? then old(refs)[(workspaceId, path) := r.value] else old(refs)
      ensures blobs == if hash(data) in old(blobs) then old(blobs) else old(blobs)[hash(data) := data]
    {
      var digest := hash(data);
      var object_ := Object(path, digest, |data|, if contentType == Some("") then None else contentType);
      if digest !in blobs { blobs := blobs[digest := data]; }
      if !SafeWorkspaceId(workspaceId) { return Err(StoreError.InvalidWorkspaceId); }
      refs := refs[(workspaceId, path) := object_];
      r := Ok(object_);
    }

    method Get(workspaceId: string, path: Path) returns (r: Result<Bytes, StoreError>)
      ensures r == State().Get(workspaceId, path)
      ensures r.Ok? ==>
        && (workspaceId, path) in refs && refs[(workspaceId, path)].digest in blobs
        && r.value == blobs[refs[(workspaceId, path)].digest]
        && (var d := refs[(workspaceId, path)].digest;
            |d| == 64 && forall i :: 0 <= i < |d| ==> '0' <= d[i] <= '9' || 'a' <= d[i] <= 'f')
      ensures r != Err(StoreError.InvalidWorkspaceId) <==>
        && workspaceId != "" && workspaceId != "." && workspaceId != ".." && '/' !in workspaceId && '\\' !in workspaceId
        && '\0' !in workspaceId
      ensures r == Err(InvalidDigest) ==>
        && (workspaceId, path) in refs
        && (var d := refs[(workspaceId, path)].digest;
            |d| != 64 || exists i :: 0 <= i < |d| && !('0' <= d[i] <= '9') && !('a' <= d[i] <= 'f'))
      ensures r == Err(NotFound) ==>
        || (workspaceId, path) !in refs
        || (var d := refs[(workspaceId, path)].digest;
            && d !in blobs && |d| == 64 && forall i :: 0 <= i < |d| ==> '0' <= d[i] <= '9' || 'a' <= d[i] <= 'f')
    {
      if !SafeWorkspaceId(workspaceId) { return Err(StoreError.InvalidWorkspaceId); }
      if (workspaceId, path) !in refs { return Err(NotFound); }
      var ref := refs[(workspaceId, path)];
      if !IsDigest(ref.digest) { return Err(InvalidDigest); }
      if ref.digest !in blobs { return Err(NotFound); }
      r := Ok(blobs[ref.digest]);
    }

    method Delete(workspaceId: string, path: Path) returns (r: Result<(), StoreError>)
      modifies this
      ensures State() == Deleted(old(State()), workspaceId, path)
      ensures r == if SafeWorkspaceId(workspaceId) then Ok(()) else Err(StoreError.InvalidWorkspaceId)
      ensures blobs == old(blobs) && refs == if r.Ok? then old(refs) - {(workspaceId, path)} else old(refs)
    {
      if !SafeWorkspaceId(workspaceId) { return Err(StoreError.InvalidWorkspaceId); }
      refs := refs - {(workspaceId, path)};
      r := Ok(());
    }
  }

  // ---- runs of puts and deletes ----

  datatype StoreOp =
    | Put(workspaceId: string, path: Path, data: Bytes, contentType: Option<string>)
    | Delete(workspaceId: string, path: Path)

  function Applied(hash: Bytes -> Digest, s: Store, op: StoreOp): Store {
    match op
    case Put(workspaceId, path, data, contentType) => Stored(hash, s, workspaceId, path, data, contentType)
    case Delete(workspaceId, path) => Deleted(s, workspaceId, path)
  }

  function Performed(hash: Bytes -> Digest, s: Store, ops: seq<StoreOp>): Store {
    if ops == [] then s else
    Applied(hash, Performed(hash, s, ops[..|ops| - 1]), ops[|ops| - 1])
  }

  /** Every blob is filed under its digest and every reference leads to a blob. */
  ghost predicate Sound(hash: Bytes -> Digest, s: Store) {
    && (forall d :: d in s.blobs ==> hash(s.blobs[d]) == d)
    && (forall k :: k in s.refs ==> SafeWorkspaceId(k.0) && s.refs[k].digest in s.blobs)
  }

  lemma {:induction false} RunKeepsSound(hash: Bytes -> Digest, s: Store, ops: seq<StoreOp>)
    requires Sound(hash, s)
    ensures Sound(hash, Performed(hash, s, ops))
  {
    if ops != [] {
      RunKeepsSound(hash, s, ops[..|ops| - 1]);
    }
  }

  /** Blobs are immutable: no later operation changes or removes one. */
  lemma {:induction false} BlobsStay(hash: Bytes -> Digest, s: Store, ops: seq<StoreOp>, d: Digest)
    requires d in s.blobs
    ensures d in Performed(hash, s, ops).blobs && Performed(hash, s, ops).blobs[d] == s.blobs[d]
  {
    if ops != [] {
      BlobsStay(hash, s, ops[..|ops| - 1], d);
    }
  }

  /** The operation that last addressed a path of a workspace. */
  function LastFor(ops: seq<StoreOp>, workspaceId: string, path: Path): Option<StoreOp> {
    if ops == [] then None else
    var op := ops[|ops| - 1];
    if op.workspaceId == workspaceId && op.path == path then Some(op)
    else LastFor(ops[..|ops| - 1], workspaceId, path)
  }

  /** No two of the contents have the same digest. */
  ghost predicate NoContentCollision(hash: Bytes -> Digest, contents: iset<Bytes>) {
    forall x, y :: x in contents && y in contents && hash(x) == hash(y) ==> x == y
  }

  /** Everything a run puts. */
  ghost function Contents(ops: seq<StoreOp>): iset<Bytes> {
    iset op | op in ops && op.Put? :: op.data
  }

  /** `get` returns the bytes the path was last put with, and nothing once it is deleted: the store
      behaves like a map from path to bytes. */
  lemma GetReturnsLastPut(hash: Bytes -> Digest, ops: seq<StoreOp>, workspaceId: string, path: Path)
    requires IsContentHash(hash) && NoContentCollision(hash, Contents(ops)) && SafeWorkspaceId(workspaceId)
    ensures Performed(hash, EMPTY_STORE, ops).Get(workspaceId, path) ==
      match LastFor(ops, workspaceId, path)
      case Some(Put(_, _, data, _)) => Ok(data)
      case _ => Err(NotFound)
  {
    var s := Performed(hash, EMPTY_STORE, ops);
    RefIsLastPut(hash, EMPTY_STORE, ops, workspaceId, path);
    BlobsArePut(hash, ops);
    RunKeepsSound(hash, EMPTY_STORE, ops);
    hide Performed;
    match LastFor(ops, workspaceId, path) {
      case Some(Put(_, _, data, _)) =>
        LastIsThere(ops, workspaceId, path);
        assert IsDigest(hash(data));
        var found := s.blobs[hash(data)];
        assert hash(found) == hash(data);
      case _ =>
    }
  }

  lemma {:induction false} LastIsThere(ops: seq<StoreOp>, workspaceId: string, path: Path)
    requires LastFor(ops, workspaceId, path).Some?
    ensures LastFor(ops, workspaceId, path).value in ops
  {
    var op := ops[|ops| - 1];
    if op.workspaceId != workspaceId || op.path != path {
      LastIsThere(ops[..|ops| - 1], workspaceId, path);
    }
  }

  /** A reference is what the last operation on its path left, or what it was before the run. */
  lemma {:induction false} RefIsLastPut(hash: Bytes -> Digest, s: Store, ops: seq<StoreOp>,
                                        workspaceId: string, path: Path)
    requires SafeWorkspaceId(workspaceId)
    ensures var refs, key := Performed(hash, s, ops).refs, (workspaceId, path);
      match LastFor(ops, workspaceId, path)
      case Some(Put(_, _, data, contentType)) =>
        key in refs && refs[key] == NewObject(hash, path, data, contentType)
      case Some(Delete(_, _)) => key !in refs
      case None => (key in refs <==> key in s.refs) && (key in refs ==> refs[key] == s.refs[key])
  {
    if ops != [] {
      RefIsLastPut(hash, s, ops[..|ops| - 1], workspaceId, path);
    }
  }

  lemma {:induction false} BlobsArePut(hash: Bytes -> Digest, ops: seq<StoreOp>)
    ensures forall d :: d in Performed(hash, EMPTY_STORE, ops).blobs ==> Performed(hash, EMPTY_STORE, ops).blobs[d] in Contents(ops)
  {
    if ops != [] {
      var front, op := ops[..|ops| - 1], ops[|ops| - 1];
      BlobsArePut(hash, front);
      assert forall o :: o in front ==> o in ops;
      assert op in ops;
    }
  }
}
