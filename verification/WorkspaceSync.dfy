/** Moving directory trees in and out of the workspace store. */
module WorkspaceSync {
  import opened Prelude
  import opened Sequences
  import opened Manifests
  import opened WorkspaceStore

  /** A file of a directory tree, in the order the walk visits it. */
  datatype File = File(path: Path, data: Bytes)

  /** A directory seen as a map from path to bytes. */
  type Tree = map<Path, Bytes>

  predicate HiddenName(name: string) { name != "" && name[0] == '.' }

  /** The walk skips an entry whose name begins with a dot, and everything below it. */
  function Visible(f: File): bool {
    !exists i :: 0 <= i < |f.path| && HiddenName(f.path[i])
  }

  datatype SyncError = ManifestNotFound | OfStore(error: StoreError) | OfCommit(reason: CommitError)

  // ---- committing a directory ----

  datatype Puts = Puts(store: Store, refs: seq<Object>, error: Option<StoreError>)

  /** The files are put one by one; the first failure stops the loop. */
  function PutAll(hash: Bytes -> Digest, s: Store, workspaceId: string, files: seq<File>): Puts {
    if files == [] then Puts(s, [], None) else
    var before := PutAll(hash, s, workspaceId, files[..|files| - 1]);
    var f := files[|files| - 1];
    if before.error.Some? then before
    else if SafeWorkspaceId(workspaceId) then
      Puts(Stored(hash, before.store, workspaceId, f.path, f.data, None),
           before.refs + [NewObject(hash, f.path, f.data, None)], None)
    else
      Puts(Stored(hash, before.store, workspaceId, f.path, f.data, None), before.refs,
           Some(StoreError.InvalidWorkspaceId))
  }

  datatype Synced = Synced(store: Store, repo: Repo, result: Result<Manifest, SyncError>)

  /** The objects are put first; whether the commit is accepted is decided afterwards. */
  function CommitTree(cfg: Config, hash: Bytes -> Digest, s: Store, repo: Repo, workspaceId: string,
                      parent: Option<Digest>, listing: seq<File>, now: int): Synced
  {
    var puts := PutAll(hash, s, workspaceId, Filter(listing, Visible));
    if puts.error.Some? then Synced(puts.store, repo, Err(OfStore(puts.error.value)))
    else
      match Committed(cfg, repo, workspaceId, parent, puts.refs, now)
      case Err(e) => Synced(puts.store, repo, Err(OfCommit(e)))
      case Ok((repo', m)) => Synced(puts.store, repo', Ok(m))
  }

  // ---- hydrating a directory ----

  datatype Hydration = Hydration(tree: Tree, error: Option<StoreError>)

  /** Each object is read by its path and written over the target. */
  function Hydrated(s: Store, workspaceId: string, objects: seq<Object>, target: Tree): Hydration {
    if objects == [] then Hydration(target, None) else
    var before := Hydrated(s, workspaceId, objects[..|objects| - 1], target);
    var path := objects[|objects| - 1].path;
    if before.error.Some? then before else
    match s.Get(workspaceId, path)
    case Err(e) => Hydration(before.tree, Some(e))
    case Ok(data) => Hydration(before.tree[path := data], None)
  }

  lemma HydratedSnoc(s: Store, workspaceId: string, objects: seq<Object>, o: Object, target: Tree)
    ensures var before := Hydrated(s, workspaceId, objects, target);
      Hydrated(s, workspaceId, objects + [o], target) ==
      if before.error.Some? then before else
      match s.Get(workspaceId, o.path)
      case Err(e) => Hydration(before.tree, Some(e))
      case Ok(data) => Hydration(before.tree[o.path := data], None)
  {
    assert (objects + [o])[..|objects + [o]| - 1] == objects;
  }

  lemma PutAllSnoc(hash: Bytes -> Digest, s: Store, workspaceId: string, files: seq<File>, f: File)
    requires SafeWorkspaceId(workspaceId)
    requires PutAll(hash, s, workspaceId, files).error.None?
    ensures var before := PutAll(hash, s, workspaceId, files);
      PutAll(hash, s, workspaceId, files + [f])
      == Puts(Stored(hash, before.store, workspaceId, f.path, f.data, None),
              before.refs + [NewObject(hash, f.path, f.data, None)], None)
  {
    assert (files + [f])[..|files + [f]| - 1] == files;
  }

  // ---- the class ----

  class Directory {
    var tree: Tree

    constructor ()
      ensures tree == map[]
    {
      tree := map[];
    }
  }

  class WorkspaceSync {
    const store: LocalWorkspaceStore
    const manifests: LocalWorkspaceManifestStore

    constructor (store: LocalWorkspaceStore, manifests: LocalWorkspaceManifestStore)
      ensures this.store == store && this.manifests == manifests
    {
      this.store, this.manifests := store, manifests;
    }

    method Hydrate(workspaceId: string, version: Digest, target: Directory)
      returns (r: Result<Manifest, SyncError>)
      modifies target
      ensures match manifests.State().Read(workspaceId, version)
        case None => r == Err(ManifestNotFound) && target.tree == old(target.tree)
        case Some(m) =>
          var h := Hydrated(store.State(), workspaceId, m.objects, old(target.tree));
          && target.tree == h.tree
          && r == (if h.error.None? then Ok(m) else Err(OfStore(h.error.value)))
    {
      var manifest := manifests.Read(workspaceId, version);
      if manifest.None? { return Err(ManifestNotFound); }
      var error := WriteObjects(workspaceId, manifest.value.objects, target);
      r := if error.None? then Ok(manifest.value) else Err(OfStore(error.value));
    }

    method WriteObjects(workspaceId: string, objects: seq<Object>, target: Directory)
      returns (error: Option<StoreError>)
      modifies target
      ensures Hydration(target.tree, error) == Hydrated(store.State(), workspaceId, objects, old(target.tree))
    {
      ghost var s := store.State();
      assert objects[..|objects|] == objects;
      assert Hydrated(s, workspaceId, objects[..0], target.tree) == Hydration(target.tree, None);
      hide Hydrated, Store.Get;
      for i := 0 to |objects|
        invariant Hydration(target.tree, None) == Hydrated(s, workspaceId, objects[..i], old(target.tree))
      {
        HydratedSnoc(s, workspaceId, objects[..i], objects[i], old(target.tree));
        assert objects[..i] + [objects[i]] == objects[..i + 1];
        var data := store.Get(workspaceId, objects[i].path);
        if data.Err? {
          HydratedStops(s, workspaceId, objects, i + 1, old(target.tree));
          return Some(data.error);
        }
        target.tree := target.tree[objects[i].path := data.value];
      }
      error := None;
    }

    /** `listing` is what the walk of the source directory visits. */
    method Commit(workspaceId: string, parent: Option<Digest>, listing: seq<File>, now: int)
      returns (r: Result<Manifest, SyncError>)
      requires IsContentHash(store.hash)
      modifies store, manifests
      ensures Synced(store.State(), manifests.State(), r)
           == CommitTree(manifests.cfg, store.hash, old(store.State()), old(manifests.State()),
                         workspaceId, parent, listing, now)
      ensures r.Ok? && ShownPathsDiffer(listing) ==> forall o :: o in r.value.objects <==>
        exists f :: f in listing && (forall i :: 0 <= i < |f.path| ==> !("." <= f.path[i]))
                    && Records(store.hash, f, o)
    {
      ghost var before, repo := store.State(), manifests.State();
      var refs, error := PutFiles(workspaceId, Filter(listing, Visible));
      if error.Some? {
        return Err(OfStore(error.value));
      }
      var committed := manifests.Commit(workspaceId, parent, refs, now);
      match committed {
        case Err(e) => r := Err(OfCommit(e));
        case Ok(m) =>
          r := Ok(m);
          hide PutAll, Filter, Visible, ShownPathsDiffer, Records;
          if ShownPathsDiffer(listing) {
            forall o {
              CommitTakesShownFiles(manifests.cfg, store.hash, before, repo, workspaceId, parent, listing, now, o);
            }
          }
      }
    }

    method PutFiles(workspaceId: string, files: seq<File>) returns (refs: seq<Object>, error: Option<StoreError>)
      requires IsContentHash(store.hash)
      modifies store
      ensures Puts(store.State(), refs, error) == PutAll(store.hash, old(store.State()), workspaceId, files)
    {
      refs := [];
      hide Stored;
      for i := 0 to |files|
        invariant Puts(store.State(), refs, None) == PutAll(store.hash, old(store.State()), workspaceId, files[..i])
      {
        assert files[..i + 1][..i] == files[..i];
        var put := store.Put(workspaceId, files[i].path, files[i].data, None);
        if put.Err? {
          PutAllStops(store.hash, old(store.State()), workspaceId, files, i + 1);
          return refs, Some(put.error);
        }
        refs := refs + [put.value];
      }
      assert files[..|files|] == files;
      error := None;
    }
  }

  lemma {:induction false} HydratedStops(s: Store, workspaceId: string, objects: seq<Object>, n: nat, target: Tree)
    requires n <= |objects| && Hydrated(s, workspaceId, objects[..n], target).error.Some?
    ensures Hydrated(s, workspaceId, objects, target) == Hydrated(s, workspaceId, objects[..n], target)
    decreases |objects|
  {
    if n == |objects| {
      assert objects[..n] == objects;
    } else {
      assert objects[..|objects| - 1][..n] == objects[..n];
      HydratedStops(s, workspaceId, objects[..|objects| - 1], n, target);
    }
  }

  lemma {:induction false} PutAllStops(hash: Bytes -> Digest, s: Store, workspaceId: string, files: seq<File>, n: nat)
    requires n <= |files| && PutAll(hash, s, workspaceId, files[..n]).error.Some?
    ensures PutAll(hash, s, workspaceId, files) == PutAll(hash, s, workspaceId, files[..n])
    decreases |files|
  {
    if n == |files| {
      assert files[..n] == files;
    } else {
      assert files[..|files| - 1][..n] == files[..n];
      PutAllStops(hash, s, workspaceId, files[..|files| - 1], n);
    }
  }

  // ---- what hydrating yields ----

  predicate Named(objects: seq<Object>, path: Path) {
    exists i :: 0 <= i < |objects| && objects[i].path == path
  }

  lemma NamedSnoc(objects: seq<Object>, o: Object, path: Path)
    ensures Named(objects + [o], path) <==> Named(objects, path) || o.path == path
  {
    var longer := objects + [o];
    assert longer[|objects|] == o;
    if i :| 0 <= i < |objects| && objects[i].path == path {
      assert longer[i].path == path;
    }
    if i :| 0 <= i < |longer| && longer[i].path == path {
      if i < |objects| { assert objects[i].path == path; }
    }
  }

  /** Every path the manifest names reads its present content, whatever digest the manifest records;
      every other path of the target is left alone. */
  ghost predicate ReadsByPath(s: Store, workspaceId: string, objects: seq<Object>, target: Tree, result: Tree) {
    forall p :: (if Named(objects, p)
                 then s.Get(workspaceId, p).Ok? && p in result && result[p] == s.Get(workspaceId, p).value
                 else (p in result <==> p in target) && (p in target ==> result[p] == target[p]))
  }

  lemma {:induction false} HydratedMeaning(s: Store, workspaceId: string, objects: seq<Object>, target: Tree)
    ensures var h := Hydrated(s, workspaceId, objects, target);
      && (h.error.None? <==> forall i :: 0 <= i < |objects| ==> s.Get(workspaceId, objects[i].path).Ok?)
      && (h.error.None? ==> ReadsByPath(s, workspaceId, objects, target, h.tree))
  {
    if objects != [] {
      var front, o := objects[..|objects| - 1], objects[|objects| - 1];
      HydratedMeaning(s, workspaceId, front, target);
      HydratedSnoc(s, workspaceId, front, o, target);
      assert objects == front + [o];
      assert objects[|front|] == o && forall i :: 0 <= i < |front| ==> objects[i] == front[i];
      hide Hydrated, Named, Store.Get, ReadsByPath;
      var before := Hydrated(s, workspaceId, front, target);
      if before.error.None? && s.Get(workspaceId, o.path).Ok? {
        ReadsByPathSnoc(s, workspaceId, front, o, target, before.tree);
      }
    }
  }

  lemma ReadsByPathSnoc(s: Store, workspaceId: string, objects: seq<Object>, o: Object, target: Tree, tree: Tree)
    requires ReadsByPath(s, workspaceId, objects, target, tree) && s.Get(workspaceId, o.path).Ok?
    ensures ReadsByPath(s, workspaceId, objects + [o], target, tree[o.path := s.Get(workspaceId, o.path).value])
  {
    hide Named, Store.Get;
    forall p ensures Named(objects + [o], p) <==> Named(objects, p) || o.path == p {
      NamedSnoc(objects, o, p);
    }
  }

  // ---- what putting a tree stores ----

  function ObjectOf(hash: Bytes -> Digest): File -> Object {
    (f: File) => NewObject(hash, f.path, f.data, None)
  }

  ghost predicate DistinctPaths(files: seq<File>) {
    forall i, j :: 0 <= i < j < |files| ==> files[i].path != files[j].path
  }

  /** The files as a tree. */
  ghost predicate IsTreeOf(tree: Tree, files: seq<File>) {
    && (forall i :: 0 <= i < |files| ==> files[i].path in tree && tree[files[i].path] == files[i].data)
    && (forall p :: p in tree ==> Listed(files, p))
  }

  ghost predicate RefsStored(hash: Bytes -> Digest, s: Store, s': Store, workspaceId: string, files: seq<File>) {
    && (forall i :: 0 <= i < |files| ==>
          (workspaceId, files[i].path) in s'.refs
          && s'.refs[(workspaceId, files[i].path)] == NewObject(hash, files[i].path, files[i].data, None))
    && (forall k: (string, Path) :: !(k.0 == workspaceId && Listed(files, k.1)) ==> SameRef(s, s', k))
  }

  predicate Listed(files: seq<File>, path: Path) {
    exists i :: 0 <= i < |files| && files[i].path == path
  }

  lemma ListedSnoc(files: seq<File>, f: File, path: Path)
    ensures Listed(files + [f], path) <==> Listed(files, path) || f.path == path
  {
    var longer := files + [f];
    assert longer[|files|] == f;
    if i :| 0 <= i < |files| && files[i].path == path {
      assert longer[i].path == path;
    }
    if i :| 0 <= i < |longer| && longer[i].path == path {
      if i < |files| { assert files[i].path == path; }
    }
  }

  predicate SameRef(s: Store, s': Store, k: (string, Path)) {
    (k in s'.refs <==> k in s.refs) && (k in s.refs ==> s'.refs[k] == s.refs[k])
  }

  lemma PutNothing(hash: Bytes -> Digest, s: Store, workspaceId: string)
    ensures PutAll(hash, s, workspaceId, []) == Puts(s, [], None)
    ensures RefsStored(hash, s, s, workspaceId, [])
  {}

  lemma DistinctFront(files: seq<File>)
    requires DistinctPaths(files) && files != []
    ensures DistinctPaths(files[..|files| - 1])
  {}

  lemma {:induction false} PutAllRefs(hash: Bytes -> Digest, s: Store, workspaceId: string, files: seq<File>)
    requires SafeWorkspaceId(workspaceId) && DistinctPaths(files)
    ensures var puts := PutAll(hash, s, workspaceId, files);
      && puts.error.None? && puts.refs == Map(ObjectOf(hash), files)
      && RefsStored(hash, s, puts.store, workspaceId, files)
  {
    hide PutAll, RefsStored, Stored, DistinctPaths, SafeWorkspaceId, NewObject;
    if files == [] {
      PutNothing(hash, s, workspaceId);
    } else {
      var front, f := files[..|files| - 1], files[|files| - 1];
      DistinctFront(files);
      PutAllRefs(hash, s, workspaceId, front);
      assert files == front + [f];
      PutAllSnoc(hash, s, workspaceId, front, f);
      MapSnoc(ObjectOf(hash), front, f);
      RefsStoredSnoc(hash, s, PutAll(hash, s, workspaceId, front).store, workspaceId, front, f);
    }
  }

  lemma RefsStoredSnoc(hash: Bytes -> Digest, s: Store, s': Store, workspaceId: string, files: seq<File>, f: File)
    requires SafeWorkspaceId(workspaceId) && DistinctPaths(files + [f])
    requires RefsStored(hash, s, s', workspaceId, files)
    ensures RefsStored(hash, s, Stored(hash, s', workspaceId, f.path, f.data, None), workspaceId, files + [f])
  {
    var longer, after := files + [f], Stored(hash, s', workspaceId, f.path, f.data, None);
    assert longer[|files|] == f;
    forall i | 0 <= i < |longer|
      ensures (workspaceId, longer[i].path) in after.refs
        && after.refs[(workspaceId, longer[i].path)] == NewObject(hash, longer[i].path, longer[i].data, None)
    {
      if i < |files| {
        assert longer[i] == files[i] && longer[i].path != longer[|files|].path;
      }
    }
    forall k: (string, Path) | !(k.0 == workspaceId && Listed(longer, k.1)) ensures SameRef(s, after, k) {
      ListedSnoc(files, f, k.1);
    }
  }

  /** The put operations a tree amounts to. */
  function OpsOf(workspaceId: string, files: seq<File>): seq<StoreOp> {
    seq(|files|, i requires 0 <= i < |files| => Put(workspaceId, files[i].path, files[i].data, None))
  }

  lemma {:induction false} PutAllIsARun(hash: Bytes -> Digest, s: Store, workspaceId: string, files: seq<File>)
    requires SafeWorkspaceId(workspaceId)
    ensures var puts := PutAll(hash, s, workspaceId, files);
      puts.error.None? && puts.store == Performed(hash, s, OpsOf(workspaceId, files))
  {
    if files != [] {
      var front, f := files[..|files| - 1], files[|files| - 1];
      PutAllIsARun(hash, s, workspaceId, front);
      PutAllSnoc(hash, s, workspaceId, front, f);
      assert files == front + [f];
      assert OpsOf(workspaceId, files)[..|files| - 1] == OpsOf(workspaceId, front);
    }
  }

  // ---- commit, then hydrate ----

  /** The blob filed under the digest of a tree's content is that content. */
  ghost predicate Faithful(hash: Bytes -> Digest, s: Store, tree: Tree) {
    forall p :: p in tree && hash(tree[p]) in s.blobs ==> s.blobs[hash(tree[p])] == tree[p]
  }

  ghost predicate Describes(hash: Bytes -> Digest, objects: seq<Object>, files: seq<File>) {
    forall o :: o in objects <==> o in Map(ObjectOf(hash), files)
  }

  predicate Current(s: Store, workspaceId: string, o: Object) {
    (workspaceId, o.path) in s.refs && s.refs[(workspaceId, o.path)].digest == o.digest
  }

  lemma DescribedFile(hash: Bytes -> Digest, objects: seq<Object>, files: seq<File>, o: Object)
    returns (i: nat)
    requires Describes(hash, objects, files) && o in objects
    ensures i < |files| && o == ObjectOf(hash)(files[i])
  {
    i :| 0 <= i < |files| && Map(ObjectOf(hash), files)[i] == o;
  }

  lemma FileIsDescribed(hash: Bytes -> Digest, objects: seq<Object>, files: seq<File>, i: nat)
    requires Describes(hash, objects, files) && i < |files|
    ensures ObjectOf(hash)(files[i]) in objects
  {
    assert Map(ObjectOf(hash), files)[i] == ObjectOf(hash)(files[i]);
  }

  lemma NamedIsListed(hash: Bytes -> Digest, objects: seq<Object>, files: seq<File>, p: Path)
    requires Describes(hash, objects, files)
    ensures Named(objects, p) <==> Listed(files, p)
  {
    if i :| 0 <= i < |objects| && objects[i].path == p {
      var j := DescribedFile(hash, objects, files, objects[i]);
      assert files[j].path == p;
    }
    if j :| 0 <= j < |files| && files[j].path == p {
      FileIsDescribed(hash, objects, files, j);
      var i :| 0 <= i < |objects| && objects[i] == ObjectOf(hash)(files[j]);
      assert objects[i].path == p;
    }
  }

  /** The bytes read for a file are the file's exactly when its reference has the digest recorded. */
  lemma ReadsFileIff(hash: Bytes -> Digest, s: Store, workspaceId: string, tree: Tree, f: File)
    requires IsContentHash(hash) && SafeWorkspaceId(workspaceId) && Sound(hash, s)
    requires Faithful(hash, s, tree) && f.path in tree && tree[f.path] == f.data
    ensures s.Get(workspaceId, f.path) == Ok(f.data) <==> Current(s, workspaceId, ObjectOf(hash)(f))
    ensures s.Get(workspaceId, f.path).Ok? <==> (workspaceId, f.path) in s.refs
  {
    assert IsDigest(hash(f.data));
    if (workspaceId, f.path) in s.refs {
      var d := s.refs[(workspaceId, f.path)].digest;
      assert hash(s.blobs[d]) == d;
      assert IsDigest(hash(s.blobs[d]));
    }
    hide IsDigest;
  }

  /** Hydrating a manifest of a tree into an empty directory gives the tree back exactly when every
      reference still has the digest the manifest records. */
  lemma HydrateRestoresIff(hash: Bytes -> Digest, s: Store, workspaceId: string, objects: seq<Object>,
                           files: seq<File>, tree: Tree)
    requires IsContentHash(hash) && SafeWorkspaceId(workspaceId) && Sound(hash, s)
    requires IsTreeOf(tree, files) && Describes(hash, objects, files) && Faithful(hash, s, tree)
    ensures Hydrated(s, workspaceId, objects, map[]) == Hydration(tree, None)
      <==> forall i :: 0 <= i < |files| ==> Current(s, workspaceId, ObjectOf(hash)(files[i]))
  {
    var h := Hydrated(s, workspaceId, objects, map[]);
    HydratedMeaning(s, workspaceId, objects, map[]);
    forall i | 0 <= i < |files|
      ensures files[i].path in tree && tree[files[i].path] == files[i].data
      ensures s.Get(workspaceId, files[i].path) == Ok(files[i].data) <==> Current(s, workspaceId, ObjectOf(hash)(files[i]))
    {
      ReadsFileIff(hash, s, workspaceId, tree, files[i]);
    }
    forall p ensures Named(objects, p) <==> Listed(files, p) {
      NamedIsListed(hash, objects, files, p);
    }
    hide Hydrated, Current, Store.Get, Faithful, Sound;
    if forall i :: 0 <= i < |files| ==> Current(s, workspaceId, ObjectOf(hash)(files[i])) {
      AllReadsGood(hash, s, workspaceId, objects, files, tree);
    }
  }

  lemma AllReadsGood(hash: Bytes -> Digest, s: Store, workspaceId: string, objects: seq<Object>,
                     files: seq<File>, tree: Tree)
    requires IsTreeOf(tree, files) && Describes(hash, objects, files)
    requires forall i :: 0 <= i < |files| ==> s.Get(workspaceId, files[i].path) == Ok(files[i].data)
    ensures Hydrated(s, workspaceId, objects, map[]) == Hydration(tree, None)
  {
    var h := Hydrated(s, workspaceId, objects, map[]);
    HydratedMeaning(s, workspaceId, objects, map[]);
    forall i | 0 <= i < |objects| ensures s.Get(workspaceId, objects[i].path).Ok? {
      var j := DescribedFile(hash, objects, files, objects[i]);
    }
    forall p ensures Named(objects, p) <==> Listed(files, p) {
      NamedIsListed(hash, objects, files, p);
    }
    hide Hydrated, Store.Get, Describes, Named;
    assert h.tree == tree;
  }

  // ---- after a commit ----

  /** What is in the store's blobs and in a tree. */
  ghost function ContentsOf(s: Store, tree: Tree): iset<Bytes> {
    iset data | data in s.blobs.Values || data in tree.Values
  }

  lemma {:induction false} PutAllBlobs(hash: Bytes -> Digest, s: Store, workspaceId: string,
                                       files: seq<File>, tree: Tree)
    requires SafeWorkspaceId(workspaceId)
    requires forall i :: 0 <= i < |files| ==> files[i].path in tree && tree[files[i].path] == files[i].data
    ensures var blobs := PutAll(hash, s, workspaceId, files).store.blobs;
      && (forall d :: d in blobs ==> blobs[d] in ContentsOf(s, tree))
      && (forall i :: 0 <= i < |files| ==> hash(files[i].data) in blobs)
      && PutAll(hash, s, workspaceId, files).error.None?
  {
    if files != [] {
      var front, f := files[..|files| - 1], files[|files| - 1];
      PutAllBlobs(hash, s, workspaceId, front, tree);
      PutAllSnoc(hash, s, workspaceId, front, f);
      assert files == front + [f];
      assert f.data in tree.Values;
    }
  }

  /** Once a tree is put, its blobs are there to stay, whatever is put or deleted afterwards. */
  lemma PutTreeStaysFaithful(hash: Bytes -> Digest, s: Store, workspaceId: string, files: seq<File>,
                             tree: Tree, later: seq<StoreOp>)
    requires SafeWorkspaceId(workspaceId) && Sound(hash, s) && IsTreeOf(tree, files)
    requires NoContentCollision(hash, ContentsOf(s, tree))
    ensures var after := Performed(hash, PutAll(hash, s, workspaceId, files).store, later);
      Faithful(hash, after, tree) && Sound(hash, after)
  {
    var mid := PutAll(hash, s, workspaceId, files).store;
    var after := Performed(hash, mid, later);
    PutAllIsARun(hash, s, workspaceId, files);
    RunKeepsSound(hash, s, OpsOf(workspaceId, files));
    RunKeepsSound(hash, mid, later);
    PutAllBlobs(hash, s, workspaceId, files, tree);
    hide PutAll, Performed;
    forall p | p in tree ensures hash(tree[p]) in after.blobs && after.blobs[hash(tree[p])] == tree[p] {
      var d := hash(tree[p]);
      assert Listed(files, p);
      assert d in mid.blobs;
      assert tree[p] in tree.Values;
      assert hash(mid.blobs[d]) == d;
      BlobsStay(hash, mid, later, d);
    }
  }

  /** The last later operation on the path, if any, puts content of the same digest. */
  predicate Kept(hash: Bytes -> Digest, later: seq<StoreOp>, workspaceId: string, path: Path, data: Bytes) {
    match LastFor(later, workspaceId, path)
    case None => true
    case Some(Put(_, _, latest, _)) => hash(latest) == hash(data)
    case Some(Delete(_, _)) => false
  }

  lemma CommittedObjects(cfg: Config, hash: Bytes -> Digest, s: Store, repo: Repo, workspaceId: string,
                         parent: Option<Digest>, listing: seq<File>, now: int)
    requires DistinctPaths(Filter(listing, Visible))
    requires CommitTree(cfg, hash, s, repo, workspaceId, parent, listing, now).result.Ok?
    ensures SafeWorkspaceId(workspaceId)
    ensures var done := CommitTree(cfg, hash, s, repo, workspaceId, parent, listing, now);
      var files := Filter(listing, Visible);
      && done.store == PutAll(hash, s, workspaceId, files).store
      && Describes(hash, done.result.value.objects, files)
      && done.repo.Read(workspaceId, done.result.value.version) == Some(done.result.value)
  {
    var files := Filter(listing, Visible);
    var m := CommitTree(cfg, hash, s, repo, workspaceId, parent, listing, now).result.value;
    PutAllRefs(hash, s, workspaceId, files);
    hide PutAll, Filter;
    var objects := Map(ObjectOf(hash), files);
    forall o ensures o in m.objects <==> o in objects {
      SortMember(objects, PathKey(cfg), o);
    }
    hide StableSort, Map;
  }

  lemma VisibleMeaning(f: File)
    ensures Visible(f) <==> forall i :: 0 <= i < |f.path| ==> !("." <= f.path[i])
  {
    forall i | 0 <= i < |f.path| ensures HiddenName(f.path[i]) <==> "." <= f.path[i] {
      if f.path[i] != "" {
        assert f.path[i][..1] == [f.path[i][0]];
      }
    }
  }

  /** The file records this object: its path, the digest and the length of its bytes. */
  predicate Records(hash: Bytes -> Digest, f: File, o: Object) {
    o == Object(f.path, hash(f.data), |f.data|, None)
  }

  /** A committed manifest records exactly the listed files of whose path no component begins with a dot. */
  lemma CommitTakesShownFiles(cfg: Config, hash: Bytes -> Digest, s: Store, repo: Repo, workspaceId: string,
                              parent: Option<Digest>, listing: seq<File>, now: int, o: Object)
    requires ShownPathsDiffer(listing)
    requires CommitTree(cfg, hash, s, repo, workspaceId, parent, listing, now).result.Ok?
    ensures o in CommitTree(cfg, hash, s, repo, workspaceId, parent, listing, now).result.value.objects <==>
      exists f :: f in listing && (forall i :: 0 <= i < |f.path| ==> !("." <= f.path[i])) && Records(hash, f, o)
  {
    var files := Filter(listing, Visible);
    ShownAreDistinct(listing);
    CommittedObjects(cfg, hash, s, repo, workspaceId, parent, listing, now);
    hide CommitTree, Filter, Visible, DistinctPaths, ShownPathsDiffer, Records, Map;
    RecordedIff(hash, files, o);
    forall f: File ensures f in files <==> f in listing && forall i :: 0 <= i < |f.path| ==> !("." <= f.path[i]) {
      KeptIsShown(listing, f);
    }
  }

  /** The walk keeps a listed file if and only if no component of its path begins with a dot. */
  lemma KeptIsShown(listing: seq<File>, f: File)
    ensures f in Filter(listing, Visible) <==> f in listing && forall i :: 0 <= i < |f.path| ==> !("." <= f.path[i])
  {
    FilterMember(listing, Visible, f);
    VisibleMeaning(f);
    hide Filter;
  }

  lemma RecordedIff(hash: Bytes -> Digest, files: seq<File>, o: Object)
    ensures o in Map(ObjectOf(hash), files) <==> exists f :: f in files && Records(hash, f, o)
  {
    MapMember(ObjectOf(hash), files, o);
    hide Map;
    if i :| 0 <= i < |files| && ObjectOf(hash)(files[i]) == o {
      assert files[i] in files && Records(hash, files[i], o);
    }
    if f: File :| f in files && Records(hash, f, o) {
      var i :| 0 <= i < |files| && files[i] == f;
      assert ObjectOf(hash)(files[i]) == o;
    }
  }

  /** Two listed files with one path have a component that begins with a dot. */
  ghost predicate ShownPathsDiffer(listing: seq<File>) {
    forall i, j :: 0 <= i < j < |listing| && listing[i].path == listing[j].path ==>
      exists k :: 0 <= k < |listing[i].path| && "." <= listing[i].path[k]
  }

  lemma {:induction false} ShownAreDistinct(listing: seq<File>)
    requires ShownPathsDiffer(listing)
    ensures DistinctPaths(Filter(listing, Visible))
  {
    hide Visible;
    if listing != [] {
      var front, last := listing[..|listing| - 1], listing[|listing| - 1];
      assert listing == front + [last];
      ShownAreDistinct(front);
      forall f | f in Filter(front, Visible) && Visible(last) ensures f.path != last.path {
        FilterMember(front, Visible, f);
        VisibleMeaning(last);
        var i :| 0 <= i < |front| && front[i] == f;
        assert listing[i] == f;
      }
      FilterSnoc(front, last, Visible);
    }
  }

  /** The tree holds exactly the listed files of whose path no component begins with a dot. */
  ghost predicate ShowsTree(tree: Tree, listing: seq<File>) {
    && (forall f :: f in listing && (forall i :: 0 <= i < |f.path| ==> !("." <= f.path[i])) ==>
          f.path in tree && tree[f.path] == f.data)
    && (forall p :: p in tree ==>
          (forall i :: 0 <= i < |p| ==> !("." <= p[i])) && exists f :: f in listing && f.path == p)
  }

  lemma ShownTreeIsOfVisible(tree: Tree, listing: seq<File>)
    requires ShowsTree(tree, listing)
    ensures IsTreeOf(tree, Filter(listing, Visible))
  {
    var files := Filter(listing, Visible);
    forall f: File ensures f in files <==> f in listing && forall i :: 0 <= i < |f.path| ==> !("." <= f.path[i]) {
      KeptIsShown(listing, f);
    }
    hide Filter, Visible;
    forall i | 0 <= i < |files| ensures files[i].path in tree && tree[files[i].path] == files[i].data {
      assert files[i] in files;
    }
    forall p | p in tree ensures Listed(files, p) {
      var f :| f in listing && f.path == p;
      assert f in files;
    }
  }

  /** The same in terms of the files that the walk keeps. */
  lemma CommitThenHydrateKept(cfg: Config, hash: Bytes -> Digest, s: Store, repo: Repo, workspaceId: string,
                          parent: Option<Digest>, listing: seq<File>, now: int, tree: Tree, later: seq<StoreOp>)
    requires IsContentHash(hash) && Sound(hash, s) && NoContentCollision(hash, ContentsOf(s, tree))
    requires DistinctPaths(Filter(listing, Visible)) && IsTreeOf(tree, Filter(listing, Visible))
    requires CommitTree(cfg, hash, s, repo, workspaceId, parent, listing, now).result.Ok?
    ensures var done := CommitTree(cfg, hash, s, repo, workspaceId, parent, listing, now);
      var m := done.result.value;
      && done.repo.Read(workspaceId, m.version) == Some(m)
      && (Hydrated(Performed(hash, done.store, later), workspaceId, m.objects, map[]) == Hydration(tree, None)
          <==> forall p :: p in tree ==> Kept(hash, later, workspaceId, p, tree[p]))
  {
    var files := Filter(listing, Visible);
    var done := CommitTree(cfg, hash, s, repo, workspaceId, parent, listing, now);
    CommittedObjects(cfg, hash, s, repo, workspaceId, parent, listing, now);
    var after := Performed(hash, done.store, later);
    PutTreeStaysFaithful(hash, s, workspaceId, files, tree, later);
    HydrateRestoresIff(hash, after, workspaceId, done.result.value.objects, files, tree);
    forall i | 0 <= i < |files|
      ensures Current(after, workspaceId, ObjectOf(hash)(files[i]))
         <==> Kept(hash, later, workspaceId, files[i].path, files[i].data)
    {
      PutAllRefs(hash, s, workspaceId, files);
      KeptIsCurrent(hash, done.store, workspaceId, files[i], later);
    }
    hide CommitTree, Filter, Performed, Hydrated, Current, Kept, Sound, Faithful;
    TreePathsAreFiles(tree, files, p requires p in tree => Kept(hash, later, workspaceId, p, tree[p]));
  }

  /** A committed version is on record, and hydrating it into an empty directory after any later puts and deletes
      gives exactly the listed files of whose path no component begins with a dot, with their bytes, if and only if
      each of those paths was last left with the committed content. */
  lemma CommitThenHydrate(cfg: Config, hash: Bytes -> Digest, s: Store, repo: Repo, workspaceId: string,
                          parent: Option<Digest>, listing: seq<File>, now: int, tree: Tree, later: seq<StoreOp>)
    requires IsContentHash(hash) && Sound(hash, s) && NoContentCollision(hash, ContentsOf(s, tree))
    requires ShownPathsDiffer(listing) && ShowsTree(tree, listing)
    requires CommitTree(cfg, hash, s, repo, workspaceId, parent, listing, now).result.Ok?
    ensures var done := CommitTree(cfg, hash, s, repo, workspaceId, parent, listing, now);
      var m := done.result.value;
      && done.repo.Read(workspaceId, m.version) == Some(m)
      && (Hydrated(Performed(hash, done.store, later), workspaceId, m.objects, map[]) == Hydration(tree, None)
          <==> forall p :: p in tree ==> Kept(hash, later, workspaceId, p, tree[p]))
  {
    ShownAreDistinct(listing);
    ShownTreeIsOfVisible(tree, listing);
    CommitThenHydrateKept(cfg, hash, s, repo, workspaceId, parent, listing, now, tree, later);
  }

  /** With no later puts and deletes it always does. */
  lemma CommitThenHydrateAtOnce(cfg: Config, hash: Bytes -> Digest, s: Store, repo: Repo, workspaceId: string,
                                parent: Option<Digest>, listing: seq<File>, now: int, tree: Tree)
    requires IsContentHash(hash) && Sound(hash, s) && NoContentCollision(hash, ContentsOf(s, tree))
    requires ShownPathsDiffer(listing) && ShowsTree(tree, listing)
    requires CommitTree(cfg, hash, s, repo, workspaceId, parent, listing, now).result.Ok?
    ensures var done := CommitTree(cfg, hash, s, repo, workspaceId, parent, listing, now);
      Hydrated(done.store, workspaceId, done.result.value.objects, map[]) == Hydration(tree, None)
  {
    CommitThenHydrate(cfg, hash, s, repo, workspaceId, parent, listing, now, tree, []);
    hide Hydrated, CommitTree, ShownPathsDiffer, ShowsTree;
    var store := CommitTree(cfg, hash, s, repo, workspaceId, parent, listing, now).store;
    assert Performed(hash, store, []) == store;
    assert forall p :: p in tree ==> Kept(hash, [], workspaceId, p, tree[p]);
  }

  lemma KeptIsCurrent(hash: Bytes -> Digest, s: Store, workspaceId: string, f: File, later: seq<StoreOp>)
    requires SafeWorkspaceId(workspaceId) && Current(s, workspaceId, ObjectOf(hash)(f))
    ensures Current(Performed(hash, s, later), workspaceId, ObjectOf(hash)(f))
       <==> Kept(hash, later, workspaceId, f.path, f.data)
  {
    RefIsLastPut(hash, s, later, workspaceId, f.path);
    hide Performed, LastFor;
  }

  lemma TreePathsAreFiles(tree: Tree, files: seq<File>, good: Path --> bool)
    requires IsTreeOf(tree, files)
    requires forall p :: p in tree ==> good.requires(p)
    ensures (forall p :: p in tree ==> good(p)) <==> (forall i :: 0 <= i < |files| ==> good(files[i].path))
  {
    if forall i :: 0 <= i < |files| ==> good(files[i].path) {
      forall p | p in tree ensures good(p) {
        assert Listed(files, p);
      }
    }
  }

  lemma {:induction false} LastOfOps(workspaceId: string, files: seq<File>, p: Path)
    requires DistinctPaths(files)
    ensures LastFor(OpsOf(workspaceId, files), workspaceId, p) == None <==> !Listed(files, p)
    ensures forall i :: 0 <= i < |files| && files[i].path == p ==>
      LastFor(OpsOf(workspaceId, files), workspaceId, p) == Some(Put(workspaceId, p, files[i].data, None))
  {
    if files != [] {
      var front, f := files[..|files| - 1], files[|files| - 1];
      LastOfOps(workspaceId, front, p);
      ListedSnoc(front, f, p);
      assert files == front + [f];
      assert OpsOf(workspaceId, files)[..|files| - 1] == OpsOf(workspaceId, front);
    }
  }

  lemma KeptByOps(hash: Bytes -> Digest, workspaceId: string, files: seq<File>, tree: Tree, p: Path, data: Bytes)
    requires DistinctPaths(files) && IsTreeOf(tree, files)
    ensures Kept(hash, OpsOf(workspaceId, files), workspaceId, p, data)
       <==> p in tree ==> hash(data) == hash(tree[p])
  {
    LastOfOps(workspaceId, files, p);
    hide LastFor, OpsOf;
    if p in tree {
      assert Listed(files, p);
    }
  }

  /** A commit that is rejected has already put its objects. After it, hydrating the version that is
      still the head gives back that version's files if and only if the rejected tree agrees with them
      on every path they share. */
  lemma RejectedCommitOverwrites(cfg: Config, hash: Bytes -> Digest, s: Store, repo: Repo, workspaceId: string,
                                 parent: Option<Digest>, listing: seq<File>, now: int, tree: Tree,
                                 stale: Option<Digest>, listing': seq<File>, now': int, tree': Tree)
    requires IsContentHash(hash) && Sound(hash, s) && NoContentCollision(hash, ContentsOf(s, tree))
    requires ShownPathsDiffer(listing) && ShowsTree(tree, listing)
    requires ShownPathsDiffer(listing') && ShowsTree(tree', listing')
    requires var done := CommitTree(cfg, hash, s, repo, workspaceId, parent, listing, now);
      && done.result.Ok?
      && CommitTree(cfg, hash, done.store, done.repo, workspaceId, stale, listing', now').result
         == Err(OfCommit(VersionConflict))
    ensures var done := CommitTree(cfg, hash, s, repo, workspaceId, parent, listing, now);
      var rejected := CommitTree(cfg, hash, done.store, done.repo, workspaceId, stale, listing', now');
      && rejected.repo == done.repo
      && (Hydrated(rejected.store, workspaceId, done.result.value.objects, map[]) == Hydration(tree, None)
          <==> forall p :: p in tree && p in tree' ==> hash(tree[p]) == hash(tree'[p]))
  {
    ShownAreDistinct(listing);
    ShownTreeIsOfVisible(tree, listing);
    ShownAreDistinct(listing');
    ShownTreeIsOfVisible(tree', listing');
    hide ShownPathsDiffer, ShowsTree;
    var files' := Filter(listing', Visible);
    var done := CommitTree(cfg, hash, s, repo, workspaceId, parent, listing, now);
    CommittedObjects(cfg, hash, s, repo, workspaceId, parent, listing, now);
    PutAllIsARun(hash, done.store, workspaceId, files');
    hide Filter, PutAll, Performed, Sound, Hydrated, IsContentHash, NoContentCollision, IsTreeOf, DistinctPaths;
    CommitThenHydrateKept(cfg, hash, s, repo, workspaceId, parent, listing, now, tree, OpsOf(workspaceId, files'));
    forall p | p in tree
      ensures Kept(hash, OpsOf(workspaceId, files'), workspaceId, p, tree[p])
         <==> p in tree' ==> hash(tree[p]) == hash(tree'[p])
    {
      KeptByOps(hash, workspaceId, files', tree', p, tree[p]);
    }
  }
}
