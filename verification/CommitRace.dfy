/** Commits whose check and whose two writes are separate steps, as the files are written one after
    the other: exactly when no finished commit is lost from the chain. */
module CommitRace {
  import opened Prelude
  import opened Sequences
  import opened Text
  import opened Manifests

  /** A commit under way: it has passed the check, or has also written its manifest. */
  datatype Writer = Checked(m: Manifest) | Saved(m: Manifest)

  /** The files, the commits under way, every manifest computed and every one whose commit returned. */
  datatype State = State(repo: Repo, writers: map<nat, Writer>, begun: seq<Manifest>, finished: seq<Manifest>)

  const START := State(Manifests.EMPTY, map[], [], [])

  datatype Step =
    | Check(writer: nat, workspaceId: string, parent: Option<Digest>, objects: seq<Object>, now: int)
    | Save(writer: nat)
    | MoveHead(writer: nat)

  function AfterCheck(cfg: Config, st: State, writer: nat, workspaceId: string, parent: Option<Digest>,
                      objects: seq<Object>, now: int): State
  {
    if writer in st.writers || st.repo.HeadVersion(workspaceId) != parent || !SafeWorkspaceId(workspaceId) then st
    else
      var m := NewManifest(cfg, workspaceId, parent, objects, now);
      st.(writers := st.writers[writer := Checked(m)], begun := st.begun + [m])
  }

  function AfterSave(st: State, writer: nat): State {
    if writer !in st.writers || !st.writers[writer].Checked? then st else
    var m := st.writers[writer].m;
    st.(repo := st.repo.(manifests := st.repo.manifests[(m.workspaceId, m.version) := m]),
        writers := st.writers[writer := Saved(m)])
  }

  function AfterMove(st: State, writer: nat): State {
    if writer !in st.writers || !st.writers[writer].Saved? then st else
    var m := st.writers[writer].m;
    st.(repo := st.repo.(heads := st.repo.heads[m.workspaceId := m.version]),
        writers := st.writers - {writer}, finished := st.finished + [m])
  }

  function Next(cfg: Config, st: State, step: Step): State {
    match step
    case Check(writer, workspaceId, parent, objects, now) =>
      AfterCheck(cfg, st, writer, workspaceId, parent, objects, now)
    case Save(writer) => AfterSave(st, writer)
    case MoveHead(writer) => AfterMove(st, writer)
  }

  function Exec(cfg: Config, steps: seq<Step>): State {
    if steps == [] then START else Next(cfg, Exec(cfg, steps[..|steps| - 1]), steps[|steps| - 1])
  }

  /** The three steps without interruption are the commit. */
  lemma UninterruptedIsCommit(cfg: Config, st: State, writer: nat, workspaceId: string, parent: Option<Digest>,
                              objects: seq<Object>, now: int)
    requires writer !in st.writers
    ensures var after := AfterMove(AfterSave(AfterCheck(cfg, st, writer, workspaceId, parent, objects, now), writer), writer);
      match Committed(cfg, st.repo, workspaceId, parent, objects, now)
      case Err(_) => after == st
      case Ok((repo, m)) => after.repo == repo && after.finished == st.finished + [m] && after.writers == st.writers
  {
    hide StableSort, Trim;
    var m := NewManifest(cfg, workspaceId, parent, objects, now);
    assert st.writers[writer := Checked(m)][writer := Saved(m)] - {writer} == st.writers;
  }

  // ---- losing a commit ----

  ghost predicate HasVersion(chain: seq<Manifest>, v: Digest) {
    exists i :: 0 <= i < |chain| && chain[i].version == v
  }

  /** Following parent links from the head comes to the version. */
  ghost predicate Reached(repo: Repo, workspaceId: string, v: Digest) {
    exists limit: nat :: HasVersion(Ancestors(repo, workspaceId, repo.HeadVersion(workspaceId), limit), v)
  }

  /** Every commit that returned can still be reached from the head. */
  ghost predicate NothingLost(st: State, workspaceId: string) {
    forall i :: 0 <= i < |st.finished| && st.finished[i].workspaceId == workspaceId ==>
      Reached(st.repo, workspaceId, st.finished[i].version)
  }

  /** A head is moved only to a manifest whose parent is still the head, or that is the head already. */
  predicate OnCourse(st: State, step: Step, workspaceId: string) {
    step.MoveHead? && step.writer in st.writers && st.writers[step.writer].Saved?
      && st.writers[step.writer].m.workspaceId == workspaceId ==>
      var m, head := st.writers[step.writer].m, st.repo.HeadVersion(workspaceId);
      m.parent == head || Some(m.version) == head
  }

  // ---- the invariant while every move is on course ----

  ghost predicate Among(chain: seq<Manifest>, begun: seq<Manifest>) {
    forall i :: 0 <= i < |chain| ==> chain[i] in begun
  }

  ghost predicate IsPath(cfg: Config, st: State, chain: seq<Manifest>, workspaceId: string) {
    && Linked(cfg, chain, workspaceId) && DistinctVersions(chain)
    && Kept(st.repo, chain, workspaceId) && HeadIs(st.repo, chain, workspaceId)
    && Among(chain, st.begun)
  }

  /** The chain has exactly the versions of the commits that returned. */
  ghost predicate FinishedAre(finished: seq<Manifest>, chain: seq<Manifest>, workspaceId: string) {
    && (forall i :: 0 <= i < |finished| && finished[i].workspaceId == workspaceId ==>
          HasVersion(chain, finished[i].version))
    && (forall i :: 0 <= i < |chain| ==>
          exists f :: f in finished && f.workspaceId == workspaceId && f.version == chain[i].version)
  }

  /** A manifest computed for the workspace on some version the head had. */
  ghost predicate BuiltOn(cfg: Config, m: Manifest, chain: seq<Manifest>, begun: seq<Manifest>) {
    && m in begun && m.version == cfg.hash(Described(m)) && SafeWorkspaceId(m.workspaceId)
    && exists k :: 0 <= k <= |chain| && m.parent == Before(chain, k)
  }

  /** What a writer has saved is stored, perhaps by another writer with the same content. */
  ghost predicate IsSaved(repo: Repo, m: Manifest, begun: seq<Manifest>) {
    && (m.workspaceId, m.version) in repo.manifests
    && (var saved := repo.manifests[(m.workspaceId, m.version)];
        saved in begun && Described(saved) == Described(m) && saved.version == m.version)
  }

  ghost predicate WriterFits(cfg: Config, st: State, w: Writer, chain: seq<Manifest>, workspaceId: string) {
    w.m.workspaceId == workspaceId ==>
      BuiltOn(cfg, w.m, chain, st.begun) && (w.Saved? ==> IsSaved(st.repo, w.m, st.begun))
  }

  ghost predicate WritersFit(cfg: Config, st: State, chain: seq<Manifest>, workspaceId: string) {
    forall w :: w in st.writers ==> WriterFits(cfg, st, st.writers[w], chain, workspaceId)
  }

  ghost predicate Steady(cfg: Config, st: State, chain: seq<Manifest>, workspaceId: string) {
    && IsPath(cfg, st, chain, workspaceId) && FinishedAre(st.finished, chain, workspaceId)
    && WritersFit(cfg, st, chain, workspaceId)
  }

  lemma SteadyLosesNothing(cfg: Config, st: State, chain: seq<Manifest>, workspaceId: string)
    requires IsHash(cfg.hash) && Steady(cfg, st, chain, workspaceId)
    ensures NothingLost(st, workspaceId)
  {
    HeadIsNamed(cfg, st.repo, chain, workspaceId);
    AncestorsOfChain(cfg, st.repo, chain, workspaceId, |chain|, |chain|);
    assert chain[0..|chain|] == chain;
    hide IsPath, WritersFit, Ancestors, IsHash;
    assert Ancestors(st.repo, workspaceId, st.repo.HeadVersion(workspaceId), |chain|) == chain;
  }

  // ---- preservation ----

  lemma SameDescriptor(cfg: Config, begun: seq<Manifest>, a: Manifest, b: Manifest)
    requires NoCollision(cfg, begun) && a in begun && b in begun
    requires a.version == cfg.hash(Described(a)) && b.version == cfg.hash(Described(b)) && a.version == b.version
    ensures Described(a) == Described(b)
  {
    var i :| 0 <= i < |begun| && begun[i] == a;
    var j :| 0 <= j < |begun| && begun[j] == b;
    assert cfg.hash(Described(begun[i])) == cfg.hash(Described(begun[j]));
  }

  lemma NoCollisionAmong(cfg: Config, begun: seq<Manifest>, chain: seq<Manifest>)
    requires NoCollision(cfg, begun) && Among(chain, begun)
    ensures NoCollision(cfg, chain)
  {
    forall i, j | 0 <= i < |chain| && 0 <= j < |chain|
      ensures cfg.hash(Described(chain[i])) == cfg.hash(Described(chain[j])) ==> Described(chain[i]) == Described(chain[j])
    {
      var k :| 0 <= k < |begun| && begun[k] == chain[i];
      var l :| 0 <= l < |begun| && begun[l] == chain[j];
      assert cfg.hash(Described(begun[k])) == cfg.hash(Described(begun[l])) ==> Described(begun[k]) == Described(begun[l]);
    }
  }

  lemma CheckKeepsSteady(cfg: Config, st: State, step: Step, chain: seq<Manifest>, workspaceId: string)
    requires IsHash(cfg.hash) && Steady(cfg, st, chain, workspaceId) && step.Check?
    ensures Steady(cfg, Next(cfg, st, step), chain, workspaceId)
  {
    hide Linked, DistinctVersions, Kept, HeadIs, IsHash, AfterCheck, FinishedAre;
    var after := Next(cfg, st, step);
    assert after == AfterCheck(cfg, st, step.writer, step.workspaceId, step.parent, step.objects, step.now);
    CheckChanges(cfg, st, step);
    if after != st {
      var m := after.writers[step.writer].m;
      assert after.begun[|st.begun|] == m;
      assert forall b :: b in st.begun ==> b in after.begun;
      if m.workspaceId == workspaceId {
        HeadIsNamed(cfg, st.repo, chain, workspaceId);
        CheckedIsBuilt(cfg, st, step, chain);
      }
      hide Before;
    }
  }

  lemma CheckChanges(cfg: Config, st: State, step: Step)
    requires step.Check?
    ensures var after := AfterCheck(cfg, st, step.writer, step.workspaceId, step.parent, step.objects, step.now);
      after == st ||
      (var m := NewManifest(cfg, step.workspaceId, step.parent, step.objects, step.now);
       && after == st.(writers := st.writers[step.writer := Checked(m)], begun := st.begun + [m])
       && m.workspaceId == step.workspaceId && SafeWorkspaceId(m.workspaceId)
       && step.parent == st.repo.HeadVersion(m.workspaceId))
  {
    hide StableSort, Repo.HeadVersion;
  }

  lemma CheckedIsBuilt(cfg: Config, st: State, step: Step, chain: seq<Manifest>)
    requires step.Check? && step.parent == Before(chain, |chain|) != Some("")
    ensures var m := NewManifest(cfg, step.workspaceId, step.parent, step.objects, step.now);
      m.parent == Before(chain, |chain|) && m.version == cfg.hash(Described(m))
  {
    hide StableSort;
  }

  /** The chain with a manifest rewritten by one of the same content. */
  function Rewritten(chain: seq<Manifest>, m: Manifest): seq<Manifest> {
    seq(|chain|, i requires 0 <= i < |chain| => if chain[i].version == m.version then m else chain[i])
  }

  lemma RewrittenDescribes(cfg: Config, chain: seq<Manifest>, begun: seq<Manifest>, workspaceId: string, m: Manifest)
    requires Linked(cfg, chain, workspaceId) && Among(chain, begun) && NoCollision(cfg, begun)
    requires m in begun && m.version == cfg.hash(Described(m))
    ensures var new_ := Rewritten(chain, m);
      && |new_| == |chain| && Among(new_, begun)
      && forall i :: 0 <= i < |chain| ==> Described(new_[i]) == Described(chain[i]) && new_[i].version == chain[i].version
  {
    forall i | 0 <= i < |chain| && chain[i].version == m.version ensures Described(chain[i]) == Described(m) {
      SameDescriptor(cfg, begun, chain[i], m);
    }
  }

  lemma SameVersionsSameLinks(cfg: Config, chain: seq<Manifest>, new_: seq<Manifest>, workspaceId: string)
    requires |new_| == |chain|
    requires forall i :: 0 <= i < |chain| ==> Described(new_[i]) == Described(chain[i]) && new_[i].version == chain[i].version
    ensures forall k :: 0 <= k <= |chain| ==> Before(new_, k) == Before(chain, k)
    ensures Linked(cfg, chain, workspaceId) ==> Linked(cfg, new_, workspaceId)
    ensures DistinctVersions(chain) ==> DistinctVersions(new_)
    ensures forall v :: HasVersion(new_, v) <==> HasVersion(chain, v)
  {
    forall v ensures HasVersion(new_, v) <==> HasVersion(chain, v) {
      if i :| 0 <= i < |chain| && chain[i].version == v {
        assert new_[i].version == v;
      }
      if i :| 0 <= i < |new_| && new_[i].version == v {
        assert chain[i].version == v;
      }
    }
    if Linked(cfg, chain, workspaceId) {
      forall i | 0 <= i < |new_|
        ensures new_[i].workspaceId == workspaceId && new_[i].version == cfg.hash(Described(new_[i]))
        ensures new_[i].parent == Before(new_, i)
      {
        assert Described(new_[i]) == Described(chain[i]) && chain[i].parent == Before(chain, i);
      }
    }
  }

  lemma SavedStaysSaved(cfg: Config, repo: Repo, begun: seq<Manifest>, m: Manifest, other: Manifest)
    requires NoCollision(cfg, begun) && m in begun && m.version == cfg.hash(Described(m))
    requires other in begun && other.version == cfg.hash(Described(other)) && IsSaved(repo, other, begun)
    ensures IsSaved(repo.(manifests := repo.manifests[(m.workspaceId, m.version) := m]), other, begun)
  {
    if other.version == m.version {
      SameDescriptor(cfg, begun, m, other);
    }
    hide NoCollision;
  }

  lemma SaveKeepsPath(cfg: Config, st: State, chain: seq<Manifest>, workspaceId: string, m: Manifest)
    requires IsPath(cfg, st, chain, workspaceId) && NoCollision(cfg, st.begun)
    requires m.workspaceId == workspaceId && m in st.begun && m.version == cfg.hash(Described(m))
    ensures var repo := st.repo.(manifests := st.repo.manifests[(m.workspaceId, m.version) := m]);
      IsPath(cfg, st.(repo := repo), Rewritten(chain, m), workspaceId)
  {
    RewrittenDescribes(cfg, chain, st.begun, workspaceId, m);
    SameVersionsSameLinks(cfg, chain, Rewritten(chain, m), workspaceId);
    RewrittenIsKept(st.repo, chain, workspaceId, m);
    hide Linked, DistinctVersions, Among, HasVersion, NoCollision, Kept, HeadIs, Rewritten;
  }

  lemma RewrittenIsKept(repo: Repo, chain: seq<Manifest>, workspaceId: string, m: Manifest)
    requires Kept(repo, chain, workspaceId) && HeadIs(repo, chain, workspaceId) && m.workspaceId == workspaceId
    ensures var after := repo.(manifests := repo.manifests[(m.workspaceId, m.version) := m]);
      Kept(after, Rewritten(chain, m), workspaceId) && HeadIs(after, Rewritten(chain, m), workspaceId)
  {}

  lemma RewrittenKeepsBase(cfg: Config, chain: seq<Manifest>, begun: seq<Manifest>, workspaceId: string, m: Manifest,
                           other: Manifest)
    requires Linked(cfg, chain, workspaceId) && Among(chain, begun) && NoCollision(cfg, begun)
    requires m in begun && m.version == cfg.hash(Described(m)) && BuiltOn(cfg, other, chain, begun)
    ensures BuiltOn(cfg, other, Rewritten(chain, m), begun)
  {
    RewrittenDescribes(cfg, chain, begun, workspaceId, m);
    SameVersionsSameLinks(cfg, chain, Rewritten(chain, m), workspaceId);
    hide Linked, Among, NoCollision, Rewritten, Before, HasVersion;
    var k :| 0 <= k <= |chain| && other.parent == Before(chain, k);
    assert Before(Rewritten(chain, m), k) == Before(chain, k);
  }

  lemma SaveKeepsSteady(cfg: Config, st: State, writer: nat, chain: seq<Manifest>, workspaceId: string)
    requires Steady(cfg, st, chain, workspaceId) && NoCollision(cfg, st.begun)
    requires writer in st.writers && st.writers[writer].Checked? && st.writers[writer].m.workspaceId == workspaceId
    ensures Steady(cfg, AfterSave(st, writer), Rewritten(chain, st.writers[writer].m), workspaceId)
  {
    var m, after := st.writers[writer].m, AfterSave(st, writer);
    var new_ := Rewritten(chain, m);
    assert WriterFits(cfg, st, st.writers[writer], chain, workspaceId);
    assert m in st.begun && m.version == cfg.hash(Described(m));
    hide IsPath, FinishedAre, WritersFit, WriterFits, NoCollision, BuiltOn, Rewritten;
    SaveKeepsPath(cfg, st, chain, workspaceId, m);
    PathIsAboutRepo(cfg, st.(repo := after.repo), after, new_, workspaceId);
    SaveKeepsWriters(cfg, st, writer, chain, workspaceId);
    SaveKeepsFinished(cfg, st, chain, workspaceId, m);
  }

  lemma SaveKeepsFinished(cfg: Config, st: State, chain: seq<Manifest>, workspaceId: string, m: Manifest)
    requires IsPath(cfg, st, chain, workspaceId) && FinishedAre(st.finished, chain, workspaceId)
    requires NoCollision(cfg, st.begun) && m in st.begun && m.version == cfg.hash(Described(m))
    ensures FinishedAre(st.finished, Rewritten(chain, m), workspaceId)
  {
    RewrittenDescribes(cfg, chain, st.begun, workspaceId, m);
    SameVersionsSameLinks(cfg, chain, Rewritten(chain, m), workspaceId);
    hide IsPath, HasVersion, NoCollision, Rewritten;
  }

  lemma SaveKeepsWriters(cfg: Config, st: State, writer: nat, chain: seq<Manifest>, workspaceId: string)
    requires IsPath(cfg, st, chain, workspaceId) && WritersFit(cfg, st, chain, workspaceId)
    requires NoCollision(cfg, st.begun)
    requires writer in st.writers && st.writers[writer].Checked? && st.writers[writer].m.workspaceId == workspaceId
    ensures WritersFit(cfg, AfterSave(st, writer), Rewritten(chain, st.writers[writer].m), workspaceId)
  {
    var m, after := st.writers[writer].m, AfterSave(st, writer);
    var new_ := Rewritten(chain, m);
    assert WriterFits(cfg, st, st.writers[writer], chain, workspaceId);
    assert Linked(cfg, chain, workspaceId) && Among(chain, st.begun);
    hide IsPath, Linked, Among, NoCollision, Rewritten;
    forall w | w in after.writers ensures WriterFits(cfg, after, after.writers[w], new_, workspaceId) {
      var other := after.writers[w].m;
      assert w in st.writers && st.writers[w].m == other && WriterFits(cfg, st, st.writers[w], chain, workspaceId);
      if other.workspaceId == workspaceId {
        RewrittenKeepsBase(cfg, chain, st.begun, workspaceId, m, other);
        if w != writer && st.writers[w].Saved? {
          SavedStaysSaved(cfg, st.repo, st.begun, m, other);
        }
      }
    }
  }

  lemma OtherSaveKeepsSteady(cfg: Config, st: State, writer: nat, chain: seq<Manifest>, workspaceId: string)
    requires Steady(cfg, st, chain, workspaceId)
    requires writer in st.writers && st.writers[writer].m.workspaceId != workspaceId
    ensures Steady(cfg, AfterSave(st, writer), chain, workspaceId)
    ensures Steady(cfg, AfterMove(st, writer), chain, workspaceId)
  {
    hide Linked, DistinctVersions, Among, HasVersion;
  }

  // ---- moving the head ----

  lemma HeadOfSteady(cfg: Config, st: State, chain: seq<Manifest>, workspaceId: string)
    requires IsHash(cfg.hash) && IsPath(cfg, st, chain, workspaceId)
    ensures st.repo.HeadVersion(workspaceId) == Before(chain, |chain|)
  {
    HeadIsNamed(cfg, st.repo, chain, workspaceId);
    hide *;
  }

  lemma MoveKeepsWriters(cfg: Config, st: State, writer: nat, chain: seq<Manifest>, longer: seq<Manifest>,
                         workspaceId: string)
    requires WritersFit(cfg, st, chain, workspaceId) && |chain| <= |longer|
    requires forall k :: 0 <= k <= |chain| ==> Before(longer, k) == Before(chain, k)
    ensures WritersFit(cfg, AfterMove(st, writer), longer, workspaceId)
  {
    var after := AfterMove(st, writer);
    hide Before;
    forall w | w in after.writers ensures WriterFits(cfg, after, after.writers[w], longer, workspaceId) {
      assert w in st.writers && after.writers[w] == st.writers[w];
      assert WriterFits(cfg, st, st.writers[w], chain, workspaceId);
      if after.writers[w].m.workspaceId == workspaceId {
        var k :| 0 <= k <= |chain| && after.writers[w].m.parent == Before(chain, k);
        assert Before(longer, k) == Before(chain, k);
      }
    }
  }

  lemma MoveInPlacePath(cfg: Config, st: State, writer: nat, chain: seq<Manifest>, workspaceId: string)
    requires IsPath(cfg, st, chain, workspaceId) && chain != []
    requires writer in st.writers && st.writers[writer].Saved? && st.writers[writer].m.workspaceId == workspaceId
    requires st.writers[writer].m.version == chain[|chain| - 1].version
    ensures IsPath(cfg, AfterMove(st, writer), chain, workspaceId)
  {
    hide Linked, DistinctVersions, Among;
  }

  lemma MoveInPlace(cfg: Config, st: State, writer: nat, chain: seq<Manifest>, workspaceId: string)
    requires IsHash(cfg.hash) && Steady(cfg, st, chain, workspaceId)
    requires writer in st.writers && st.writers[writer].Saved? && st.writers[writer].m.workspaceId == workspaceId
    requires Some(st.writers[writer].m.version) == st.repo.HeadVersion(workspaceId)
    ensures Steady(cfg, AfterMove(st, writer), chain, workspaceId)
  {
    hide IsPath, FinishedAre, WritersFit, IsHash, Repo.HeadVersion;
    HeadOfSteady(cfg, st, chain, workspaceId);
    MoveInPlacePath(cfg, st, writer, chain, workspaceId);
    FinishedAgain(st.finished, chain, workspaceId, st.writers[writer].m);
    MoveKeepsWriters(cfg, st, writer, chain, chain, workspaceId);
  }

  lemma FinishedAgain(finished: seq<Manifest>, chain: seq<Manifest>, workspaceId: string, m: Manifest)
    requires FinishedAre(finished, chain, workspaceId) && chain != [] && m.version == chain[|chain| - 1].version
    ensures FinishedAre(finished + [m], chain, workspaceId)
  {
    var after := finished + [m];
    forall i | 0 <= i < |after| && after[i].workspaceId == workspaceId ensures HasVersion(chain, after[i].version) {
      if i == |finished| {
        assert chain[|chain| - 1].version == after[i].version;
      } else {
        assert after[i] == finished[i];
      }
    }
    hide HasVersion;
    forall i | 0 <= i < |chain|
      ensures exists f :: f in after && f.workspaceId == workspaceId && f.version == chain[i].version
    {
      var f :| f in finished && f.workspaceId == workspaceId && f.version == chain[i].version;
      assert f in after;
    }
  }

  lemma SnocKeepsBefore(chain: seq<Manifest>, m: Manifest)
    ensures forall k :: 0 <= k <= |chain| ==> Before(chain + [m], k) == Before(chain, k)
    ensures Before(chain + [m], |chain| + 1) == Some(m.version)
  {}

  lemma MoveForwardPath(cfg: Config, st: State, chain: seq<Manifest>, workspaceId: string, m: Manifest, saved: Manifest)
    requires IsPath(cfg, st, chain, workspaceId) && NoCollision(cfg, st.begun) && SafeWorkspaceId(workspaceId)
    requires m.workspaceId == workspaceId && m.parent == Before(chain, |chain|) && m.version == cfg.hash(Described(m))
    requires IsSaved(st.repo, m, st.begun) && saved == st.repo.manifests[(m.workspaceId, m.version)]
    ensures IsPath(cfg, st.(repo := st.repo.(heads := st.repo.heads[m.workspaceId := m.version])), chain + [saved],
                   workspaceId)
  {
    assert saved.workspaceId == Described(saved).workspaceId && saved.parent == Described(saved).parent;
    var longer := chain + [saved];
    LinkedSnoc(cfg, chain, workspaceId, saved);
    assert Among(longer, st.begun);
    NoCollisionAmong(cfg, st.begun, longer);
    NextVersionIsNew(cfg, chain, workspaceId, saved);
    hide Linked, DistinctVersions, NoCollision, Among;
    assert longer[|chain|] == saved && forall i :: 0 <= i < |chain| ==> longer[i] == chain[i];
  }

  lemma MoveForwardFinished(finished: seq<Manifest>, chain: seq<Manifest>, workspaceId: string, m: Manifest,
                            saved: Manifest)
    requires FinishedAre(finished, chain, workspaceId) && m.workspaceId == workspaceId && saved.version == m.version
    ensures FinishedAre(finished + [m], chain + [saved], workspaceId)
  {
    var longer, after := chain + [saved], finished + [m];
    assert longer[|chain|] == saved && after[|finished|] == m;
    forall v | HasVersion(chain, v) || v == m.version ensures HasVersion(longer, v) {
      if i :| 0 <= i < |chain| && chain[i].version == v {
        assert longer[i].version == v;
      }
    }
    forall i | 0 <= i < |longer|
      ensures exists f :: f in after && f.workspaceId == workspaceId && f.version == longer[i].version
    {
      if i < |chain| {
        assert longer[i] == chain[i];
        assert exists f :: f in finished && f.workspaceId == workspaceId && f.version == chain[i].version;
        var f :| f in finished && f.workspaceId == workspaceId && f.version == chain[i].version;
        assert f in after;
      } else {
        assert m in after;
      }
    }
  }

  lemma MoveForward(cfg: Config, st: State, writer: nat, chain: seq<Manifest>, workspaceId: string)
    returns (longer: seq<Manifest>)
    requires IsHash(cfg.hash) && Steady(cfg, st, chain, workspaceId) && NoCollision(cfg, st.begun)
    requires writer in st.writers && st.writers[writer].Saved? && st.writers[writer].m.workspaceId == workspaceId
    requires st.writers[writer].m.parent == st.repo.HeadVersion(workspaceId)
    ensures Steady(cfg, AfterMove(st, writer), longer, workspaceId)
  {
    var m, after := st.writers[writer].m, AfterMove(st, writer);
    assert WriterFits(cfg, st, st.writers[writer], chain, workspaceId);
    hide IsPath, FinishedAre, WritersFit, IsHash, NoCollision, Repo.HeadVersion, Before;
    HeadOfSteady(cfg, st, chain, workspaceId);
    var saved := st.repo.manifests[(m.workspaceId, m.version)];
    longer := chain + [saved];
    MoveForwardPath(cfg, st, chain, workspaceId, m, saved);
    PathIsAboutRepo(cfg, st.(repo := after.repo), after, longer, workspaceId);
    MoveForwardFinished(st.finished, chain, workspaceId, m, saved);
    SnocKeepsBefore(chain, saved);
    MoveKeepsWriters(cfg, st, writer, chain, longer, workspaceId);
  }

  lemma PathIsAboutRepo(cfg: Config, st: State, after: State, chain: seq<Manifest>, workspaceId: string)
    requires IsPath(cfg, st, chain, workspaceId) && after.repo == st.repo && after.begun == st.begun
    ensures IsPath(cfg, after, chain, workspaceId)
  {
    hide Linked, DistinctVersions, Kept, HeadIs, Among;
  }

  /** Walking back from a manifest put on an older version never comes to the last of the chain. */
  lemma BranchMissesLast(cfg: Config, repo: Repo, chain: seq<Manifest>, workspaceId: string, m: Manifest, k: nat,
                         limit: nat)
    requires Linked(cfg, chain, workspaceId) && DistinctVersions(chain) && Kept(repo, chain, workspaceId)
    requires k < |chain| && m.parent == Before(chain, k) && repo.Read(workspaceId, m.version) == Some(m)
    requires m.version != chain[|chain| - 1].version
    ensures !HasVersion(Ancestors(repo, workspaceId, Some(m.version), limit), chain[|chain| - 1].version)
  {
    hide *;
    if limit == 0 {
      NothingVisited(chain[|chain| - 1].version);
      NoLimitNoAncestors(repo, workspaceId, Some(m.version));
    } else {
      AncestorsStep(repo, workspaceId, m, limit);
      AncestorsOfChain(cfg, repo, chain, workspaceId, k, limit - 1);
      OldestIsEarlier(k, limit - 1);
      SliceMissesLast(chain, Oldest(k, limit - 1), k, m);
    }
  }

  lemma OldestIsEarlier(k: nat, limit: nat)
    ensures Oldest(k, limit) <= k
  {}

  lemma NothingVisited(v: Digest)
    ensures !HasVersion([], v)
  {}

  lemma SliceMissesLast(chain: seq<Manifest>, low: nat, k: nat, m: Manifest)
    requires DistinctVersions(chain) && low <= k < |chain| && m.version != chain[|chain| - 1].version
    ensures !HasVersion(chain[low..k] + [m], chain[|chain| - 1].version)
  {
    var walk := chain[low..k] + [m];
    forall i | 0 <= i < |walk| ensures walk[i].version != chain[|chain| - 1].version {
      if i < k - low {
        assert walk[i] == chain[low + i];
      }
    }
  }

  lemma MoveOffCourseLoses(cfg: Config, st: State, writer: nat, chain: seq<Manifest>, workspaceId: string)
    requires IsHash(cfg.hash) && Steady(cfg, st, chain, workspaceId)
    requires !OnCourse(st, MoveHead(writer), workspaceId)
    ensures !NothingLost(AfterMove(st, writer), workspaceId)
  {
    var m, after := st.writers[writer].m, AfterMove(st, writer);
    hide Linked, DistinctVersions, Kept, HeadIs, Among, FinishedAre, IsHash, Repo.HeadVersion, Repo.Read, Ancestors,
         HasVersion, Reached, IsSaved, BuiltOn;
    assert WriterFits(cfg, st, st.writers[writer], chain, workspaceId);
    HeadOfSteady(cfg, st, chain, workspaceId);
    var k := BaseOf(cfg, m, chain, st.begun);
    hide IsPath, WritersFit;
    LastIsFinished(st, chain, workspaceId, m);
    BranchHead(cfg, st.repo, m, st.begun);
    var saved := SavedManifest(st.repo, m, st.begun);
    BranchLosesLast(cfg, st, after, chain, workspaceId, saved, k);
  }

  /** The position of the version a manifest was computed on, when that is not the last. */
  lemma BaseOf(cfg: Config, m: Manifest, chain: seq<Manifest>, begun: seq<Manifest>) returns (k: nat)
    requires BuiltOn(cfg, m, chain, begun)
    requires m.parent != Before(chain, |chain|) && Some(m.version) != Before(chain, |chain|)
    ensures k < |chain| && m.parent == Before(chain, k) && m.version != chain[|chain| - 1].version
    ensures m.version == cfg.hash(Described(m)) && SafeWorkspaceId(m.workspaceId)
  {
    k :| 0 <= k <= |chain| && m.parent == Before(chain, k);
    assert k != |chain|;
  }

  lemma SavedManifest(repo: Repo, m: Manifest, begun: seq<Manifest>) returns (saved: Manifest)
    requires IsSaved(repo, m, begun)
    ensures (m.workspaceId, m.version) in repo.manifests && saved == repo.manifests[(m.workspaceId, m.version)]
  {
    saved := repo.manifests[(m.workspaceId, m.version)];
  }

  lemma BranchLosesLast(cfg: Config, st: State, after: State, chain: seq<Manifest>, workspaceId: string, m: Manifest,
                        k: nat)
    requires IsPath(cfg, st, chain, workspaceId) && after.repo.manifests == st.repo.manifests
    requires k < |chain| && m.parent == Before(chain, k) && m.version != chain[|chain| - 1].version
    requires after.repo.Read(workspaceId, m.version) == Some(m)
    requires after.repo.HeadVersion(workspaceId) == Some(m.version)
    ensures !Reached(after.repo, workspaceId, chain[|chain| - 1].version)
  {
    assert Kept(after.repo, chain, workspaceId);
    hide Linked, DistinctVersions, Kept, HeadIs, Among, Before, Ancestors, HasVersion;
    forall limit: nat
      ensures !HasVersion(Ancestors(after.repo, workspaceId, after.repo.HeadVersion(workspaceId), limit),
                          chain[|chain| - 1].version)
    {
      BranchMissesLast(cfg, after.repo, chain, workspaceId, m, k, limit);
    }
  }

  /** The head once it names a manifest that was saved. */
  lemma BranchHead(cfg: Config, repo: Repo, m: Manifest, begun: seq<Manifest>)
    requires IsHash(cfg.hash) && m.version == cfg.hash(Described(m)) && SafeWorkspaceId(m.workspaceId)
    requires IsSaved(repo, m, begun)
    ensures var after, saved := repo.(heads := repo.heads[m.workspaceId := m.version]),
                                repo.manifests[(m.workspaceId, m.version)];
      && after.HeadVersion(m.workspaceId) == Some(m.version)
      && after.Read(m.workspaceId, m.version) == Some(saved)
      && saved.parent == m.parent && saved.version == m.version
  {
    var saved := repo.manifests[(m.workspaceId, m.version)];
    assert saved.parent == Described(saved).parent == m.parent;
    assert IsDigest(cfg.hash(Described(m)));
    DigestIsTrimmed(m.version);
    hide Trim, IsDigest, IsHash;
  }

  lemma LastIsFinished(st: State, chain: seq<Manifest>, workspaceId: string, m: Manifest)
    requires FinishedAre(st.finished, chain, workspaceId) && chain != []
    ensures exists i :: 0 <= i < |st.finished + [m]| && (st.finished + [m])[i].workspaceId == workspaceId
              && (st.finished + [m])[i].version == chain[|chain| - 1].version
  {
    var n := |chain| - 1;
    assert chain[n] == chain[|chain| - 1];
    var f :| f in st.finished && f.workspaceId == workspaceId && f.version == chain[n].version;
    var i :| 0 <= i < |st.finished| && st.finished[i] == f;
    assert (st.finished + [m])[i] == f;
  }

  // ---- runs ----

  lemma StepKeepsSteady(cfg: Config, st: State, step: Step, chain: seq<Manifest>, workspaceId: string)
    returns (chain': seq<Manifest>)
    requires IsHash(cfg.hash) && Steady(cfg, st, chain, workspaceId) && NoCollision(cfg, st.begun)
    requires OnCourse(st, step, workspaceId)
    ensures Steady(cfg, Next(cfg, st, step), chain', workspaceId)
  {
    hide Steady, IsHash, NoCollision, AfterSave, AfterMove, AfterCheck;
    chain' := chain;
    match step {
      case Check(_, _, _, _, _) => CheckKeepsSteady(cfg, st, step, chain, workspaceId);
      case Save(writer) =>
        if writer in st.writers && st.writers[writer].Checked? {
          if st.writers[writer].m.workspaceId == workspaceId {
            chain' := Rewritten(chain, st.writers[writer].m);
            SaveKeepsSteady(cfg, st, writer, chain, workspaceId);
          } else {
            OtherSaveKeepsSteady(cfg, st, writer, chain, workspaceId);
          }
        } else {
          NoSave(st, writer);
        }
      case MoveHead(writer) =>
        if writer in st.writers && st.writers[writer].Saved? {
          if st.writers[writer].m.workspaceId != workspaceId {
            OtherSaveKeepsSteady(cfg, st, writer, chain, workspaceId);
          } else if Some(st.writers[writer].m.version) == st.repo.HeadVersion(workspaceId) {
            MoveInPlace(cfg, st, writer, chain, workspaceId);
          } else {
            chain' := MoveForward(cfg, st, writer, chain, workspaceId);
          }
        } else {
          NoMove(st, writer);
        }
    }
  }

  lemma NoSave(st: State, writer: nat)
    requires writer !in st.writers || !st.writers[writer].Checked?
    ensures AfterSave(st, writer) == st
  {}

  lemma NoMove(st: State, writer: nat)
    requires writer !in st.writers || !st.writers[writer].Saved?
    ensures AfterMove(st, writer) == st
  {}

  lemma StepBegins(cfg: Config, st: State, step: Step)
    ensures st.begun <= Next(cfg, st, step).begun
  {
    hide StableSort;
  }

  lemma NoCollisionBefore(cfg: Config, begun: seq<Manifest>, later: seq<Manifest>)
    requires NoCollision(cfg, later) && begun <= later
    ensures NoCollision(cfg, begun)
  {
    forall i, j | 0 <= i < |begun| && 0 <= j < |begun|
      ensures cfg.hash(Described(begun[i])) == cfg.hash(Described(begun[j])) ==> Described(begun[i]) == Described(begun[j])
    {
      assert begun[i] == later[i] && begun[j] == later[j];
    }
  }

  ghost predicate AllOnCourse(cfg: Config, steps: seq<Step>, workspaceId: string) {
    forall n :: 0 <= n < |steps| ==> OnCourse(Exec(cfg, steps[..n]), steps[n], workspaceId)
  }

  ghost predicate NeverLost(cfg: Config, steps: seq<Step>, workspaceId: string) {
    forall n :: 0 <= n <= |steps| ==> NothingLost(Exec(cfg, steps[..n]), workspaceId)
  }

  lemma OnCourseSnoc(cfg: Config, steps: seq<Step>, workspaceId: string)
    requires steps != []
    ensures var front := steps[..|steps| - 1];
      && (AllOnCourse(cfg, steps, workspaceId)
          <==> AllOnCourse(cfg, front, workspaceId) && OnCourse(Exec(cfg, front), steps[|steps| - 1], workspaceId))
      && (NeverLost(cfg, steps, workspaceId)
          <==> NeverLost(cfg, front, workspaceId) && NothingLost(Exec(cfg, steps), workspaceId))
  {
    hide Exec, OnCourse, NothingLost;
    var front := steps[..|steps| - 1];
    assert steps[..|steps|] == steps && front[..|front|] == front;
    assert forall n :: 0 <= n < |front| ==> front[n] == steps[n];
    assert forall n :: 0 <= n <= |front| ==> front[..n] == steps[..n];
  }

  lemma StartIsSteady(cfg: Config, workspaceId: string)
    ensures Steady(cfg, START, [], workspaceId)
  {}

  lemma {:induction false} OnCourseIsSteady(cfg: Config, steps: seq<Step>, workspaceId: string)
    returns (chain: seq<Manifest>)
    requires IsHash(cfg.hash) && NoCollision(cfg, Exec(cfg, steps).begun) && AllOnCourse(cfg, steps, workspaceId)
    ensures Steady(cfg, Exec(cfg, steps), chain, workspaceId)
  {
    hide IsHash, NoCollision, AllOnCourse, OnCourse, Steady, Next;
    if steps == [] {
      StartIsSteady(cfg, workspaceId);
      chain := [];
    } else {
      var front := steps[..|steps| - 1];
      var before := Exec(cfg, front);
      StepBegins(cfg, before, steps[|steps| - 1]);
      NoCollisionBefore(cfg, before.begun, Exec(cfg, steps).begun);
      OnCourseSnoc(cfg, steps, workspaceId);
      chain := OnCourseIsSteady(cfg, front, workspaceId);
      chain := StepKeepsSteady(cfg, before, steps[|steps| - 1], chain, workspaceId);
    }
  }

  /** Over every run of overlapping commits: at no moment is a finished commit lost from the chain if
      and only if every move of the head is to a manifest whose parent is still the head, or that is
      the head already. */
  lemma {:induction false} NothingIsLostIff(cfg: Config, steps: seq<Step>, workspaceId: string)
    requires IsHash(cfg.hash) && NoCollision(cfg, Exec(cfg, steps).begun)
    ensures NeverLost(cfg, steps, workspaceId) <==> AllOnCourse(cfg, steps, workspaceId)
  {
    hide IsHash, NoCollision, AllOnCourse, OnCourse, Steady, Next, NothingLost, NeverLost;
    if steps == [] {
      NothingYet(cfg, workspaceId);
    } else {
      var front, step := steps[..|steps| - 1], steps[|steps| - 1];
      var before := Exec(cfg, front);
      StepBegins(cfg, before, step);
      NoCollisionBefore(cfg, before.begun, Exec(cfg, steps).begun);
      NothingIsLostIff(cfg, front, workspaceId);
      OnCourseSnoc(cfg, steps, workspaceId);
      if AllOnCourse(cfg, front, workspaceId) {
        var chain := OnCourseIsSteady(cfg, front, workspaceId);
        if OnCourse(before, step, workspaceId) {
          chain := OnCourseIsSteady(cfg, steps, workspaceId);
          SteadyLosesNothing(cfg, Exec(cfg, steps), chain, workspaceId);
        } else {
          OffCourseLoses(cfg, before, step, chain, workspaceId);
        }
      }
    }
  }

  lemma NothingYet(cfg: Config, workspaceId: string)
    ensures NeverLost(cfg, [], workspaceId) && AllOnCourse(cfg, [], workspaceId)
  {}

  lemma OffCourseLoses(cfg: Config, st: State, step: Step, chain: seq<Manifest>, workspaceId: string)
    requires IsHash(cfg.hash) && Steady(cfg, st, chain, workspaceId) && !OnCourse(st, step, workspaceId)
    ensures !NothingLost(Next(cfg, st, step), workspaceId)
  {
    hide Steady, NothingLost, IsHash, AfterMove;
    MoveOffCourseLoses(cfg, st, step.writer, chain, workspaceId);
  }

  // ---- two commits that overlap ----

  /** Two commits that pass the check on the same head, of any chain, and then write one after the other:
      both succeed, and the first stays in the chain if and only if both have the same content. */
  lemma OverlappingCommitsFork(cfg: Config, repo: Repo, chain: seq<Manifest>, workspaceId: string,
                               one: Manifest, two: Manifest, limit: nat)
    requires IsHash(cfg.hash) && IsChain(cfg, repo, chain, workspaceId) && SafeWorkspaceId(workspaceId)
    requires IsNext(cfg, repo, workspaceId, one) && IsNext(cfg, repo, workspaceId, two)
    requires NoCollision(cfg, chain + [one] + [two]) && limit > 0
    ensures var after := Written(Written(repo, one), two);
      && after.Read(workspaceId, one.version) == Some(if one.version == two.version then two else one)
      && after.HeadVersion(workspaceId) == Some(two.version)
      && (HasVersion(Ancestors(after, workspaceId, after.HeadVersion(workspaceId), limit), one.version)
          <==> one.version == two.version)
  {
    var after := Written(Written(repo, one), two);
    hide IsHash, Linked, DistinctVersions, NoCollision, IsNext, Kept, HeadIs, Written, Ancestors, HasVersion, Before,
         Repo.HeadVersion, Repo.Read;
    BothAreNew(cfg, repo, chain, workspaceId, one, two);
    TwoIsHead(cfg, Written(repo, one), two);
    AncestorsStep(after, workspaceId, two, limit);
    AncestorsOfChain(cfg, after, chain, workspaceId, |chain|, limit - 1);
    LastAndSlice(chain, Oldest(|chain|, limit - 1), one, two);
  }

  lemma TwoIsHead(cfg: Config, repo: Repo, two: Manifest)
    requires IsHash(cfg.hash) && two.version == cfg.hash(Described(two)) && SafeWorkspaceId(two.workspaceId)
    ensures var after := Written(repo, two);
      after.HeadVersion(two.workspaceId) == Some(two.version) && after.Read(two.workspaceId, two.version) == Some(two)
  {
    assert IsDigest(cfg.hash(Described(two)));
    DigestIsTrimmed(two.version);
    hide Trim, IsDigest, IsHash;
  }

  lemma NextExtends(cfg: Config, repo: Repo, chain: seq<Manifest>, workspaceId: string, m: Manifest)
    requires IsHash(cfg.hash) && IsChain(cfg, repo, chain, workspaceId) && IsNext(cfg, repo, workspaceId, m)
    requires NoCollision(cfg, chain + [m])
    ensures m.workspaceId == workspaceId && m.version == cfg.hash(Described(m)) && m.parent == Before(chain, |chain|)
    ensures DistinctVersions(chain + [m])
  {
    HeadIsNamed(cfg, repo, chain, workspaceId);
    hide IsHash, StableSort, Kept, HeadIs;
    LinkedSnoc(cfg, chain, workspaceId, m);
    NextVersionIsNew(cfg, chain, workspaceId, m);
  }

  lemma BothAreNew(cfg: Config, repo: Repo, chain: seq<Manifest>, workspaceId: string, one: Manifest, two: Manifest)
    requires IsHash(cfg.hash) && IsChain(cfg, repo, chain, workspaceId) && SafeWorkspaceId(workspaceId)
    requires IsNext(cfg, repo, workspaceId, one) && IsNext(cfg, repo, workspaceId, two)
    requires NoCollision(cfg, chain + [one] + [two])
    ensures one.workspaceId == workspaceId
    ensures two.workspaceId == workspaceId && two.version == cfg.hash(Described(two)) && two.parent == Before(chain, |chain|)
    ensures DistinctVersions(chain + [one])
    ensures Kept(Written(Written(repo, one), two), chain, workspaceId)
    ensures Written(Written(repo, one), two).Read(workspaceId, one.version)
         == Some(if one.version == two.version then two else one)
  {
    var all := chain + [one] + [two];
    assert all[|chain|] == one && all[|chain| + 1] == two && forall i :: 0 <= i < |chain| ==> all[i] == chain[i];
    assert Among(chain + [one], all) && Among(chain + [two], all);
    hide Linked, DistinctVersions, Kept, HeadIs, IsNext, IsHash, NoCollision, Among;
    NoCollisionAmong(cfg, all, chain + [one]);
    NoCollisionAmong(cfg, all, chain + [two]);
    NextExtends(cfg, repo, chain, workspaceId, one);
    NextExtends(cfg, repo, chain, workspaceId, two);
    NewVersions(chain, one);
    NewVersions(chain, two);
    WrittenTwiceKeeps(repo, chain, workspaceId, one, two);
  }

  lemma WrittenTwiceKeeps(repo: Repo, chain: seq<Manifest>, workspaceId: string, one: Manifest, two: Manifest)
    requires Kept(repo, chain, workspaceId) && SafeWorkspaceId(workspaceId)
    requires one.workspaceId == two.workspaceId == workspaceId
    requires forall i :: 0 <= i < |chain| ==> chain[i].version != one.version && chain[i].version != two.version
    ensures Kept(Written(Written(repo, one), two), chain, workspaceId)
    ensures Written(Written(repo, one), two).Read(workspaceId, one.version)
         == Some(if one.version == two.version then two else one)
  {}

  lemma NewVersions(chain: seq<Manifest>, m: Manifest)
    requires DistinctVersions(chain + [m])
    ensures forall i :: 0 <= i < |chain| ==> chain[i].version != m.version
  {
    var longer := chain + [m];
    forall i | 0 <= i < |chain| ensures chain[i].version != m.version {
      assert longer[i].version != longer[|chain|].version;
    }
  }

  lemma LastAndSlice(chain: seq<Manifest>, low: nat, one: Manifest, two: Manifest)
    requires DistinctVersions(chain + [one]) && low <= |chain|
    ensures HasVersion(chain[low..|chain|] + [two], one.version) <==> one.version == two.version
  {
    var walk := chain[low..|chain|] + [two];
    NewVersions(chain, one);
    assert forall i :: 0 <= i < |walk| - 1 ==> walk[i] == chain[low + i];
    assert walk[|walk| - 1] == two;
  }

  /** A manifest computed on the present head. */
  ghost predicate IsNext(cfg: Config, repo: Repo, workspaceId: string, m: Manifest) {
    exists objects, now :: m == NewManifest(cfg, workspaceId, repo.HeadVersion(workspaceId), objects, now)
  }

  /** Two writers on an empty workspace that both check before either moves the head. */
  function TwoWriters(workspaceId: string, objects: seq<Object>, objects': seq<Object>): seq<Step> {
    [Check(0, workspaceId, None, objects, 0), Check(1, workspaceId, None, objects', 0),
     Save(0), MoveHead(0), Save(1), MoveHead(1)]
  }

  function First(cfg: Config, workspaceId: string, objects: seq<Object>): Manifest {
    NewManifest(cfg, workspaceId, None, objects, 0)
  }

  /** The states of that run. */
  function BothChecked(one: Manifest, two: Manifest): State {
    State(Manifests.EMPTY, map[0 := Checked(one), 1 := Checked(two)], [one, two], [])
  }

  function OneMoved(one: Manifest, two: Manifest): State {
    State(Written(Manifests.EMPTY, one), map[1 := Checked(two)], [one, two], [one])
  }

  lemma BothPassTheCheck(cfg: Config, workspaceId: string, objects: seq<Object>, objects': seq<Object>)
    requires SafeWorkspaceId(workspaceId)
    ensures var one, two := First(cfg, workspaceId, objects), First(cfg, workspaceId, objects');
      Next(cfg, Next(cfg, START, Check(0, workspaceId, None, objects, 0)), Check(1, workspaceId, None, objects', 0))
        == BothChecked(one, two)
  {
    hide StableSort;
  }

  lemma OneWrites(cfg: Config, one: Manifest, two: Manifest)
    ensures Next(cfg, Next(cfg, BothChecked(one, two), Save(0)), MoveHead(0)) == OneMoved(one, two)
  {
    assert map[0 := Saved(one), 1 := Checked(two)] - {0} == map[1 := Checked(two)];
  }

  lemma TwoSaves(cfg: Config, one: Manifest, two: Manifest)
    requires IsHash(cfg.hash) && one.version == cfg.hash(Described(one)) && SafeWorkspaceId(one.workspaceId)
    requires one.workspaceId == two.workspaceId && one.parent == two.parent == None
    ensures var st := Next(cfg, OneMoved(one, two), Save(1));
      && st.writers == map[1 := Saved(two)]
      && (OnCourse(st, MoveHead(1), one.workspaceId) <==> one.version == two.version)
  {
    assert IsDigest(cfg.hash(Described(one)));
    DigestIsTrimmed(one.version);
    hide Trim, IsDigest, IsHash;
    var st := Next(cfg, OneMoved(one, two), Save(1));
    assert st.repo.heads == map[one.workspaceId := one.version];
    assert st.repo.HeadVersion(one.workspaceId) == Some(one.version);
  }

  lemma ExecSnoc(cfg: Config, steps: seq<Step>, step: Step)
    ensures Exec(cfg, steps + [step]) == Next(cfg, Exec(cfg, steps), step)
  {
    assert (steps + [step])[..|steps + [step]| - 1] == steps;
  }

  lemma AppendOnCourse(cfg: Config, steps: seq<Step>, step: Step, workspaceId: string)
    ensures AllOnCourse(cfg, steps + [step], workspaceId)
       <==> AllOnCourse(cfg, steps, workspaceId) && OnCourse(Exec(cfg, steps), step, workspaceId)
  {
    assert (steps + [step])[..|steps + [step]| - 1] == steps;
    OnCourseSnoc(cfg, steps + [step], workspaceId);
    hide AllOnCourse, OnCourse, Exec, NeverLost, NothingLost;
  }

  lemma FirstMoveIsOnCourse(cfg: Config, one: Manifest, two: Manifest, workspaceId: string)
    requires one.parent == None
    ensures OnCourse(Next(cfg, BothChecked(one, two), Save(0)), MoveHead(0), workspaceId)
  {
    var st := Next(cfg, BothChecked(one, two), Save(0));
    assert st.repo.heads == map[];
    assert st.repo.HeadVersion(workspaceId) == None;
  }

  lemma OnlyMovesLeave(st: State, step: Step, workspaceId: string)
    requires !step.MoveHead?
    ensures OnCourse(st, step, workspaceId)
  {}

  lemma NoStepsOnCourse(cfg: Config, workspaceId: string)
    ensures AllOnCourse(cfg, [], workspaceId) && Exec(cfg, []) == START
  {}

  /** That run stays on course, and so loses nothing, if and only if both writers commit the same content. */
  lemma TwoWritersLoseIff(cfg: Config, workspaceId: string, objects: seq<Object>, objects': seq<Object>)
    requires IsHash(cfg.hash) && SafeWorkspaceId(workspaceId)
    requires NoCollision(cfg, [First(cfg, workspaceId, objects), First(cfg, workspaceId, objects')])
    ensures var one, two := First(cfg, workspaceId, objects), First(cfg, workspaceId, objects');
      var run := TwoWriters(workspaceId, objects, objects');
      && (AllOnCourse(cfg, run, workspaceId) <==> one.version == two.version)
      && (NeverLost(cfg, run, workspaceId) <==> one.version == two.version)
  {
    var one, two := First(cfg, workspaceId, objects), First(cfg, workspaceId, objects');
    FirstMeaning(cfg, workspaceId, objects);
    FirstMeaning(cfg, workspaceId, objects');
    hide *;
    var a, b := Check(0, workspaceId, None, objects, 0), Check(1, workspaceId, None, objects', 0);
    NoStepsOnCourse(cfg, workspaceId);
    OnlyMovesLeave(START, a, workspaceId);
    AppendOnCourse(cfg, [], a, workspaceId);
    ExecSnoc(cfg, [], a);
    var r1 := [] + [a];
    OnlyMovesLeave(Exec(cfg, r1), b, workspaceId);
    AppendOnCourse(cfg, r1, b, workspaceId);
    ExecSnoc(cfg, r1, b);
    BothPassTheCheck(cfg, workspaceId, objects, objects');
    var r2 := r1 + [b];
    OnlyMovesLeave(Exec(cfg, r2), Save(0), workspaceId);
    AppendOnCourse(cfg, r2, Save(0), workspaceId);
    ExecSnoc(cfg, r2, Save(0));
    var r3 := r2 + [Save(0)];
    FirstMoveIsOnCourse(cfg, one, two, workspaceId);
    AppendOnCourse(cfg, r3, MoveHead(0), workspaceId);
    ExecSnoc(cfg, r3, MoveHead(0));
    OneWrites(cfg, one, two);
    var r4 := r3 + [MoveHead(0)];
    OnlyMovesLeave(Exec(cfg, r4), Save(1), workspaceId);
    AppendOnCourse(cfg, r4, Save(1), workspaceId);
    ExecSnoc(cfg, r4, Save(1));
    TwoSaves(cfg, one, two);
    var r5 := r4 + [Save(1)];
    AppendOnCourse(cfg, r5, MoveHead(1), workspaceId);
    ExecSnoc(cfg, r5, MoveHead(1));
    var run := r5 + [MoveHead(1)];
    RunIsTwoWriters(workspaceId, objects, objects');
    BegunByTwo(cfg, Exec(cfg, r4), one, two);
    NothingIsLostIff(cfg, run, workspaceId);
  }

  lemma FirstMeaning(cfg: Config, workspaceId: string, objects: seq<Object>)
    ensures var m := First(cfg, workspaceId, objects);
      m.workspaceId == workspaceId && m.parent == None && m.version == cfg.hash(Described(m))
  {
    hide StableSort;
  }

  lemma RunIsTwoWriters(workspaceId: string, objects: seq<Object>, objects': seq<Object>)
    ensures [] + [Check(0, workspaceId, None, objects, 0)] + [Check(1, workspaceId, None, objects', 0)]
              + [Save(0)] + [MoveHead(0)] + [Save(1)] + [MoveHead(1)]
         == TwoWriters(workspaceId, objects, objects')
  {}

  lemma BegunByTwo(cfg: Config, st: State, one: Manifest, two: Manifest)
    requires st == OneMoved(one, two)
    ensures Next(cfg, Next(cfg, st, Save(1)), MoveHead(1)).begun == [one, two]
  {}
}
