/** Workspace manifests: commits guarded by the parent version, named by the digest of what they hold. */
module Manifests {
  import opened Prelude
  import opened Sequences
  import opened Text

  type Digest = string
  /** A normalised relative path, component by component. */
  type Path = seq<string>

  datatype Object = Object(path: Path, digest: Digest, size: nat, contentType: Option<string>)

  datatype Manifest = Manifest(workspaceId: string, version: Digest, parent: Option<Digest>,
                               objects: seq<Object>, createdAt: int)

  /** What is hashed into the version. */
  datatype Descriptor = Descriptor(workspaceId: string, parent: Option<Digest>, objects: seq<Object>)

  datatype CommitError = VersionConflict | InvalidWorkspaceId

  predicate IsHexDigit(c: char) { '0' <= c <= '9' || 'a' <= c <= 'f' }

  predicate IsDigest(s: string) {
    |s| == 64 && forall i :: 0 <= i < |s| ==> IsHexDigit(s[i])
  }

  predicate SafeWorkspaceId(id: string) {
    id != "" && id != "." && id != ".." && '/' !in id && '\\' !in id && '\0' !in id
  }

  /** The files below the manifest roots. */
  datatype Repo = Repo(manifests: map<(string, Digest), Manifest>, heads: map<string, string>) {
    function Read(workspaceId: string, version: Digest): Option<Manifest> {
      if SafeWorkspaceId(workspaceId) && (workspaceId, version) in manifests
      then Some(manifests[(workspaceId, version)]) else None
    }

    function Head(workspaceId: string): Option<Manifest> {
      if !SafeWorkspaceId(workspaceId) || workspaceId !in heads then None else
      var version := Trim(heads[workspaceId]);
      if version == "" then None else Read(workspaceId, version)
    }

    function HeadVersion(workspaceId: string): Option<Digest> {
      match Head(workspaceId)
      case None => None
      case Some(m) => Some(m.version)
    }
  }

  const EMPTY := Repo(map[], map[])

  /** The digest of a descriptor and the collation order of paths. */
  datatype Config = Config(hash: Descriptor -> Digest, collation: Path -> int)

  ghost predicate IsHash(hash: Descriptor -> Digest) {
    forall d :: IsDigest(hash(d))
  }

  function PathKey(cfg: Config): Object -> int {
    (o: Object) => cfg.collation(o.path)
  }

  function NewManifest(cfg: Config, workspaceId: string, parent: Option<Digest>, objects: seq<Object>, now: int)
    : Manifest
  {
    var ordered := StableSort(objects, PathKey(cfg));
    Manifest(workspaceId, cfg.hash(Descriptor(workspaceId, parent, ordered)),
             if parent == Some("") then None else parent, ordered, now)
  }

  /** Writing the manifest and then the head. */
  function Written(repo: Repo, m: Manifest): Repo {
    Repo(repo.manifests[(m.workspaceId, m.version) := m], repo.heads[m.workspaceId := m.version])
  }

  function Committed(cfg: Config, repo: Repo, workspaceId: string, parent: Option<Digest>,
                     objects: seq<Object>, now: int): Result<(Repo, Manifest), CommitError>
  {
    if repo.HeadVersion(workspaceId) != parent then Err(VersionConflict)
    else if !SafeWorkspaceId(workspaceId) then Err(InvalidWorkspaceId)
    else
      var m := NewManifest(cfg, workspaceId, parent, objects, now);
      Ok((Written(repo, m), m))
  }

  // ---- the class ----

  class LocalWorkspaceManifestStore {
    const cfg: Config
    var manifests: map<(string, Digest), Manifest>
    var heads: map<string, string>

    ghost function State(): Repo
      reads this
    {
      Repo(manifests, heads)
    }

    constructor (cfg: Config)
      ensures this.cfg == cfg && State() == EMPTY
    {
      this.cfg, manifests, heads := cfg, map[], map[];
    }

    method Read(workspaceId: string, version: Digest) returns (m: Option<Manifest>)
      ensures m == State().Read(workspaceId, version)
    {
      if !SafeWorkspaceId(workspaceId) || (workspaceId, version) !in manifests { return None; }
      m := Some(manifests[(workspaceId, version)]);
    }

    method Head(workspaceId: string) returns (m: Option<Manifest>)
      ensures m == State().Head(workspaceId)
      ensures m.Some? ==>
        && workspaceId in heads && (workspaceId, Trim(heads[workspaceId])) in manifests
        && m.value == manifests[(workspaceId, Trim(heads[workspaceId]))]
      ensures m.None? && SafeWorkspaceId(workspaceId) ==>
        || workspaceId !in heads || Trim(heads[workspaceId]) == ""
        || (workspaceId, Trim(heads[workspaceId])) !in manifests
    {
      if !SafeWorkspaceId(workspaceId) || workspaceId !in heads { return None; }
      var version := Trim(heads[workspaceId]);
      if version == "" { return None; }
      m := Read(workspaceId, version);
    }

    method Commit(workspaceId: string, parent: Option<Digest>, objects: seq<Object>, now: int)
      returns (r: Result<Manifest, CommitError>)
      modifies this
      ensures match Committed(cfg, old(State()), workspaceId, parent, objects, now)
        case Err(e) => r == Err(e) && State() == old(State())
        case Ok((repo, m)) => r == Ok(m) && State() == repo
      ensures r.Ok? ==>
        && workspaceId != "" && workspaceId != "." && workspaceId != ".." && '/' !in workspaceId && '\\' !in workspaceId
        && '\0' !in workspaceId
        && r.value.workspaceId == workspaceId && r.value.createdAt == now
        && r.value.parent == (if parent == Some("") then None else parent)
        && r.value.objects == StableSort(objects, PathKey(cfg))
        && r.value.version == cfg.hash(Descriptor(workspaceId, parent, r.value.objects))
        && manifests == old(manifests)[(workspaceId, r.value.version) := r.value]
        && heads == old(heads)[workspaceId := r.value.version]
      ensures r.Err? ==> manifests == old(manifests) && heads == old(heads)
    {
      var current := Head(workspaceId);
      if (if current.Some? then Some(current.value.version) else None) != parent {
        return Err(VersionConflict);
      }
      if !SafeWorkspaceId(workspaceId) { return Err(InvalidWorkspaceId); }
      var ordered := StableSort(objects, PathKey(cfg));
      var version := cfg.hash(Descriptor(workspaceId, parent, ordered));
      var recorded := if parent == Some("") then None else parent;
      var m := Manifest(workspaceId, version, recorded, ordered, now);
      manifests := manifests[(workspaceId, version) := m];
      heads := heads[workspaceId := version];
      r := Ok(m);
    }
  }

  // ---- runs of commits ----

  datatype Attempt = Attempt(workspaceId: string, parent: Option<Digest>, objects: seq<Object>, now: int)

  /** The store, and every manifest a successful commit returned, oldest first. */
  datatype History = History(repo: Repo, log: seq<Manifest>)

  function Attempted(cfg: Config, h: History, a: Attempt): History {
    match Committed(cfg, h.repo, a.workspaceId, a.parent, a.objects, a.now)
    case Err(_) => h
    case Ok((repo, m)) => History(repo, h.log + [m])
  }

  function Exec(cfg: Config, attempts: seq<Attempt>): History {
    if attempts == [] then History(EMPTY, []) else
    Attempted(cfg, Exec(cfg, attempts[..|attempts| - 1]), attempts[|attempts| - 1])
  }

  function InWorkspace(workspaceId: string): Manifest -> bool {
    (m: Manifest) => m.workspaceId == workspaceId
  }

  /** The manifests of one workspace, oldest first. */
  function Chain(h: History, workspaceId: string): seq<Manifest> {
    Filter(h.log, InWorkspace(workspaceId))
  }

  function Described(m: Manifest): Descriptor {
    Descriptor(m.workspaceId, m.parent, m.objects)
  }

  /** No two descriptors hashed in the run collide. */
  ghost predicate NoCollision(cfg: Config, log: seq<Manifest>) {
    forall i, j :: 0 <= i < |log| && 0 <= j < |log| ==>
      cfg.hash(Described(log[i])) == cfg.hash(Described(log[j])) ==> Described(log[i]) == Described(log[j])
  }

  /** The version just before position `i`. */
  function Before(chain: seq<Manifest>, i: nat): Option<Digest>
    requires i <= |chain|
  {
    if i == 0 then None else Some(chain[i - 1].version)
  }

  /** The versions on record, each naming the one before as its parent. */
  ghost predicate Linked(cfg: Config, chain: seq<Manifest>, workspaceId: string) {
    forall i :: 0 <= i < |chain| ==>
      && chain[i].workspaceId == workspaceId
      && chain[i].version == cfg.hash(Described(chain[i]))
      && chain[i].parent == Before(chain, i)
  }

  ghost predicate DistinctVersions(chain: seq<Manifest>) {
    forall i, j :: 0 <= i < j < |chain| ==> chain[i].version != chain[j].version
  }

  /** Every manifest of the chain is stored as it is. */
  ghost predicate Kept(repo: Repo, chain: seq<Manifest>, workspaceId: string) {
    && (chain != [] ==> SafeWorkspaceId(workspaceId))
    && forall i :: 0 <= i < |chain| ==>
         (workspaceId, chain[i].version) in repo.manifests
         && repo.manifests[(workspaceId, chain[i].version)] == chain[i]
  }

  /** The head names the last of the chain. */
  ghost predicate HeadIs(repo: Repo, chain: seq<Manifest>, workspaceId: string) {
    if chain == [] then workspaceId !in repo.heads
    else workspaceId in repo.heads && repo.heads[workspaceId] == chain[|chain| - 1].version
  }

  /** The store holds exactly the manifests of the chain, and the head names the last. */
  ghost predicate Holds(repo: Repo, chain: seq<Manifest>, workspaceId: string) {
    && Kept(repo, chain, workspaceId) && HeadIs(repo, chain, workspaceId)
    && forall v :: (workspaceId, v) in repo.manifests ==> exists i :: 0 <= i < |chain| && chain[i].version == v
  }

  ghost predicate IsChain(cfg: Config, repo: Repo, chain: seq<Manifest>, workspaceId: string) {
    Linked(cfg, chain, workspaceId) && DistinctVersions(chain) && Holds(repo, chain, workspaceId)
  }

  lemma DigestIsTrimmed(s: string)
    requires IsDigest(s)
    ensures Trim(s) == s && s != ""
  {
    assert IsHexDigit(s[0]) && IsHexDigit(s[63]);
    assert TrimStart(s) == s && TrimEnd(s) == s;
  }

  lemma HeadOfChain(cfg: Config, repo: Repo, chain: seq<Manifest>, workspaceId: string)
    requires IsHash(cfg.hash) && Linked(cfg, chain, workspaceId)
    requires Kept(repo, chain, workspaceId) && HeadIs(repo, chain, workspaceId)
    ensures repo.Head(workspaceId) == if chain == [] then None else Some(chain[|chain| - 1])
  {
    if chain != [] {
      var last := chain[|chain| - 1];
      assert IsDigest(cfg.hash(Described(last)));
      DigestIsTrimmed(last.version);
      hide Trim, IsDigest;
    }
  }

  lemma BeforeDiffers(chain: seq<Manifest>, i: nat)
    requires DistinctVersions(chain) && i < |chain|
    ensures Before(chain, i) != Before(chain, |chain|)
  {}

  lemma ParentsTellApart(cfg: Config, log: seq<Manifest>, workspaceId: string, i: nat, j: nat)
    requires Linked(cfg, log, workspaceId) && NoCollision(cfg, log) && i < |log| && j < |log|
    requires Before(log, i) != Before(log, j)
    ensures log[i].version != log[j].version
  {
    assert log[i].parent != log[j].parent;
    assert Described(log[i]) != Described(log[j]);
  }

  /** A version built on the last of the chain is new: were it the version of an earlier manifest,
      their descriptors and so their parents would agree. */
  lemma NextVersionIsNew(cfg: Config, chain: seq<Manifest>, workspaceId: string, m: Manifest)
    requires Linked(cfg, chain, workspaceId) && DistinctVersions(chain)
    requires Linked(cfg, chain + [m], workspaceId) && NoCollision(cfg, chain + [m])
    ensures DistinctVersions(chain + [m])
  {
    var longer, n := chain + [m], |chain|;
    forall i | 0 <= i < n ensures chain[i].version != m.version {
      BeforeDiffers(chain, i);
      assert longer[i] == chain[i] && longer[n] == m;
      assert Before(longer, i) == Before(chain, i) && Before(longer, n) == Before(chain, n);
      ParentsTellApart(cfg, longer, workspaceId, i, n);
    }
    hide *;
    assert forall i :: 0 <= i < n ==> longer[i] == chain[i];
    assert longer[n] == m;
  }

  lemma WrittenExtendsChain(cfg: Config, repo: Repo, chain: seq<Manifest>, workspaceId: string, m: Manifest)
    requires SafeWorkspaceId(workspaceId) && m.workspaceId == workspaceId
    requires Holds(repo, chain, workspaceId) && DistinctVersions(chain + [m])
    ensures Holds(Written(repo, m), chain + [m], workspaceId)
  {
    var after, longer, n := Written(repo, m), chain + [m], |chain|;
    assert longer[n] == m;
    forall i | 0 <= i < |longer|
      ensures (workspaceId, longer[i].version) in after.manifests
      ensures after.manifests[(workspaceId, longer[i].version)] == longer[i]
    {
      if i < n { assert longer[i] == chain[i] && longer[i].version != longer[n].version; }
    }
    forall v | (workspaceId, v) in after.manifests ensures exists i :: 0 <= i < |longer| && longer[i].version == v {
      if v == m.version {
        assert longer[n].version == v;
      } else {
        var i :| 0 <= i < n && chain[i].version == v;
        assert longer[i].version == v;
      }
    }
  }

  lemma OtherWorkspaceUntouched(repo: Repo, chain: seq<Manifest>, workspaceId: string, m: Manifest)
    requires m.workspaceId != workspaceId && Holds(repo, chain, workspaceId)
    ensures Holds(Written(repo, m), chain, workspaceId)
  {
    var after := Written(repo, m);
    assert forall v :: (workspaceId, v) in after.manifests <==> (workspaceId, v) in repo.manifests;
  }

  lemma NoCollisionInPrefix(cfg: Config, log: seq<Manifest>, m: Manifest)
    requires NoCollision(cfg, log + [m])
    ensures NoCollision(cfg, log)
  {
    forall i, j | 0 <= i < |log| && 0 <= j < |log|
      ensures cfg.hash(Described(log[i])) == cfg.hash(Described(log[j])) ==> Described(log[i]) == Described(log[j])
    {
      assert log[i] == (log + [m])[i] && log[j] == (log + [m])[j];
    }
  }

  lemma NoCollisionInChain(cfg: Config, log: seq<Manifest>, p: Manifest -> bool)
    requires NoCollision(cfg, log)
    ensures NoCollision(cfg, Filter(log, p))
  {
    var chain := Filter(log, p);
    forall i | 0 <= i < |chain| ensures chain[i] in log {
      FilterMember(log, p, chain[i]);
    }
  }

  lemma LinkedSnoc(cfg: Config, chain: seq<Manifest>, workspaceId: string, m: Manifest)
    requires Linked(cfg, chain, workspaceId) && m.workspaceId == workspaceId
    requires m.version == cfg.hash(Described(m))
    requires m.parent == Before(chain, |chain|)
    ensures Linked(cfg, chain + [m], workspaceId)
  {
    var longer := chain + [m];
    forall i | 0 <= i < |longer|
      ensures longer[i].workspaceId == workspaceId && longer[i].version == cfg.hash(Described(longer[i]))
      ensures longer[i].parent == Before(longer, i)
    {
      if i < |chain| { assert longer[i] == chain[i] && Before(longer, i) == Before(chain, i); }
    }
  }

  lemma AttemptKeepsChain(cfg: Config, h: History, a: Attempt, workspaceId: string)
    requires IsHash(cfg.hash) && IsChain(cfg, h.repo, Chain(h, workspaceId), workspaceId)
    requires Committed(cfg, h.repo, a.workspaceId, a.parent, a.objects, a.now).Ok?
    requires NoCollision(cfg, Attempted(cfg, h, a).log)
    ensures var h' := Attempted(cfg, h, a);
      IsChain(cfg, h'.repo, Chain(h', workspaceId), workspaceId)
  {
    var m := NewManifest(cfg, a.workspaceId, a.parent, a.objects, a.now);
    var chain := Chain(h, workspaceId);
    var h' := Attempted(cfg, h, a);
    FilterSnoc(h.log, m, InWorkspace(workspaceId));
    NoCollisionInChain(cfg, h'.log, InWorkspace(workspaceId));
    HeadOfChain(cfg, h.repo, chain, workspaceId);
    hide Filter, StableSort, IsHash, NoCollision, Linked, DistinctVersions, Holds;
    if a.workspaceId == workspaceId {
      HeadIsNamed(cfg, h.repo, chain, workspaceId);
      assert m.parent == a.parent;
      LinkedSnoc(cfg, chain, workspaceId, m);
      NextVersionIsNew(cfg, chain, workspaceId, m);
      WrittenExtendsChain(cfg, h.repo, chain, workspaceId, m);
    } else {
      OtherWorkspaceUntouched(h.repo, chain, workspaceId, m);
    }
  }

  lemma HeadIsNamed(cfg: Config, repo: Repo, chain: seq<Manifest>, workspaceId: string)
    requires IsHash(cfg.hash) && Linked(cfg, chain, workspaceId)
    requires Kept(repo, chain, workspaceId) && HeadIs(repo, chain, workspaceId)
    ensures repo.HeadVersion(workspaceId) == Before(chain, |chain|) && Before(chain, |chain|) != Some("")
  {
    HeadOfChain(cfg, repo, chain, workspaceId);
    if chain != [] {
      assert IsDigest(cfg.hash(Described(chain[|chain| - 1])));
      DigestIsTrimmed(chain[|chain| - 1].version);
    }
    hide Trim, IsDigest, IsHash;
  }

  /** After any sequence of successful and rejected commits, the manifests of a workspace form one
      chain: each names its predecessor, the head is the last, versions are pairwise distinct and
      every one is still stored as it was written. */
  lemma {:induction false} ManifestsFormAChain(cfg: Config, attempts: seq<Attempt>, workspaceId: string)
    requires IsHash(cfg.hash) && NoCollision(cfg, Exec(cfg, attempts).log)
    ensures var h := Exec(cfg, attempts);
      IsChain(cfg, h.repo, Chain(h, workspaceId), workspaceId)
  {
    if attempts != [] {
      var before, a := Exec(cfg, attempts[..|attempts| - 1]), attempts[|attempts| - 1];
      var r := Committed(cfg, before.repo, a.workspaceId, a.parent, a.objects, a.now);
      if r.Ok? {
        NoCollisionInPrefix(cfg, before.log, r.value.1);
        ManifestsFormAChain(cfg, attempts[..|attempts| - 1], workspaceId);
        AttemptKeepsChain(cfg, before, a, workspaceId);
      } else {
        ManifestsFormAChain(cfg, attempts[..|attempts| - 1], workspaceId);
      }
    }
  }

  /** What following parent links from a version visits, oldest first. */
  function Ancestors(repo: Repo, workspaceId: string, version: Option<Digest>, limit: nat): seq<Manifest>
    decreases limit
  {
    if limit == 0 || version.None? then [] else
    match repo.Read(workspaceId, version.value)
    case None => []
    case Some(m) => Ancestors(repo, workspaceId, m.parent, limit - 1) + [m]
  }

  lemma AncestorsOfNone(repo: Repo, workspaceId: string, chain: seq<Manifest>, limit: nat)
    ensures Before(chain, 0) == None && Ancestors(repo, workspaceId, None, limit) == []
  {}

  lemma AncestorsStep(repo: Repo, workspaceId: string, m: Manifest, limit: nat)
    requires limit > 0 && repo.Read(workspaceId, m.version) == Some(m)
    ensures Ancestors(repo, workspaceId, Some(m.version), limit)
         == Ancestors(repo, workspaceId, m.parent, limit - 1) + [m]
  {}

  lemma LinkOfChain(cfg: Config, repo: Repo, chain: seq<Manifest>, workspaceId: string, i: nat)
    requires Linked(cfg, chain, workspaceId) && Kept(repo, chain, workspaceId) && i < |chain|
    ensures repo.Read(workspaceId, chain[i].version) == Some(chain[i])
    ensures chain[i].parent == Before(chain, i) && Before(chain, i + 1) == Some(chain[i].version)
  {}

  /** The first position a walk of `limit` links back from position `n` visits. */
  function Oldest(n: nat, limit: nat): nat {
    if limit < n then n - limit else 0
  }

  lemma {:induction false} AncestorsOfChain(cfg: Config, repo: Repo, chain: seq<Manifest>, workspaceId: string,
                                            n: nat, limit: nat)
    requires Linked(cfg, chain, workspaceId) && Kept(repo, chain, workspaceId) && n <= |chain|
    ensures Ancestors(repo, workspaceId, Before(chain, n), limit) == chain[Oldest(n, limit)..n]
  {
    hide Ancestors, Linked, Kept, Before;
    if limit == 0 {
      NoLimitNoAncestors(repo, workspaceId, Before(chain, n));
    } else if n == 0 {
      AncestorsOfNone(repo, workspaceId, chain, limit);
    } else {
      LinkOfChain(cfg, repo, chain, workspaceId, n - 1);
      AncestorsOfChain(cfg, repo, chain, workspaceId, n - 1, limit - 1);
      AncestorsStep(repo, workspaceId, chain[n - 1], limit);
      assert Oldest(n, limit) == Oldest(n - 1, limit - 1);
      SliceSnoc(chain, Oldest(n, limit), n);
    }
  }

  lemma NoLimitNoAncestors(repo: Repo, workspaceId: string, version: Option<Digest>)
    ensures Ancestors(repo, workspaceId, version, 0) == []
  {}

  lemma SliceSnoc<T>(xs: seq<T>, low: nat, n: nat)
    requires low < n <= |xs|
    ensures xs[low..n] == xs[low..n - 1] + [xs[n - 1]]
  {}

  /** Following parent links from the head ends, and visits exactly the successful commits. */
  lemma HeadReachesEveryCommit(cfg: Config, attempts: seq<Attempt>, workspaceId: string, limit: nat)
    requires IsHash(cfg.hash) && NoCollision(cfg, Exec(cfg, attempts).log)
    requires |Chain(Exec(cfg, attempts), workspaceId)| <= limit
    ensures var h := Exec(cfg, attempts);
      Ancestors(h.repo, workspaceId, h.repo.HeadVersion(workspaceId), limit) == Chain(h, workspaceId)
  {
    var h := Exec(cfg, attempts);
    var chain := Chain(h, workspaceId);
    ManifestsFormAChain(cfg, attempts, workspaceId);
    HeadIsNamed(cfg, h.repo, chain, workspaceId);
    AncestorsOfChain(cfg, h.repo, chain, workspaceId, |chain|, limit);
    assert chain[..|chain|] == chain;
  }

  lemma ParentIsUnique(cfg: Config, chain: seq<Manifest>, workspaceId: string, i: nat, j: nat)
    requires Linked(cfg, chain, workspaceId) && DistinctVersions(chain)
    requires i < |chain| && j < |chain| && chain[i].parent == chain[j].parent
    ensures i == j
  {
    assert Before(chain, i) == Before(chain, j);
    if 0 < i && 0 < j {
      assert chain[i - 1].version == chain[j - 1].version;
    }
  }

  /** Writers are fenced: of all commits with the same parent, over a whole run, one succeeds. */
  lemma OneSuccessorPerParent(cfg: Config, attempts: seq<Attempt>, workspaceId: string, i: nat, j: nat)
    requires IsHash(cfg.hash) && NoCollision(cfg, Exec(cfg, attempts).log)
    requires var chain := Chain(Exec(cfg, attempts), workspaceId);
      i < |chain| && j < |chain| && chain[i].parent == chain[j].parent
    ensures i == j
  {
    ManifestsFormAChain(cfg, attempts, workspaceId);
    ParentIsUnique(cfg, Chain(Exec(cfg, attempts), workspaceId), workspaceId, i, j);
    hide *;
  }

  // ---- the order in which objects are listed ----

  ghost predicate DistinctKeys(cfg: Config, objects: seq<Object>) {
    forall i, j :: 0 <= i < j < |objects| ==> cfg.collation(objects[i].path) != cfg.collation(objects[j].path)
  }

  /** The version does not depend on the order of the listing when no two paths collate equally. */
  lemma VersionIgnoresListing(cfg: Config, workspaceId: string, parent: Option<Digest>,
                              objects: seq<Object>, listed: seq<Object>, now: int)
    requires DistinctKeys(cfg, objects) && DistinctKeys(cfg, listed)
    requires forall o :: o in objects <==> o in listed
    ensures NewManifest(cfg, workspaceId, parent, objects, now)
         == NewManifest(cfg, workspaceId, parent, listed, now)
  {
    var key := PathKey(cfg);
    var left, right := StableSort(objects, key), StableSort(listed, key);
    SortOrders(objects, key);
    SortOrders(listed, key);
    forall v ensures Filter(left, KeyIs(key, v)) == Filter(right, KeyIs(key, v)) {
      SortIsStable(objects, key, v);
      SortIsStable(listed, key, v);
      SameKeyAlone(cfg, objects, listed, v);
    }
    StableSortIsUnique(left, right, key);
  }

  lemma SameKeyAlone(cfg: Config, objects: seq<Object>, listed: seq<Object>, v: int)
    requires DistinctKeys(cfg, objects) && DistinctKeys(cfg, listed)
    requires forall o :: o in objects <==> o in listed
    ensures Filter(objects, KeyIs(PathKey(cfg), v)) == Filter(listed, KeyIs(PathKey(cfg), v))
  {
    var p := KeyIs(PathKey(cfg), v);
    if o :| o in objects && p(o) {
      FilterOfOne(cfg, objects, o, v);
      FilterOfOne(cfg, listed, o, v);
    } else {
      FilterNone(objects, p);
      FilterNone(listed, p);
    }
  }

  lemma {:induction false} FilterOfOne(cfg: Config, objects: seq<Object>, o: Object, v: int)
    requires DistinctKeys(cfg, objects) && o in objects && cfg.collation(o.path) == v
    ensures Filter(objects, KeyIs(PathKey(cfg), v)) == [o]
  {
    var front, last := objects[..|objects| - 1], objects[|objects| - 1];
    var p := KeyIs(PathKey(cfg), v);
    if p(last) {
      assert last == o by {
        var i :| 0 <= i < |objects| && objects[i] == o;
      }
      FilterNone(front, p);
    } else {
      assert o in front by {
        var i :| 0 <= i < |objects| && objects[i] == o;
        assert front[i] == o;
      }
      FilterOfOne(cfg, front, o, v);
    }
  }
}
