/** Workspace paths: normalisation of a relative path and the check that it stays below the root. */
module Paths {
  import opened Prelude

  datatype PathError = InvalidPath

  /** `replaceAll("\\", "/")` */
  function Unified(s: string): string {
    seq(|s|, i requires 0 <= i < |s| => if s[i] == '\\' then '/' else s[i])
  }

  /** `split("/")` */
  function Segments(s: string): (parts: seq<string>)
    ensures parts != []
  {
    if s == "" then [""] else
    var before, c := Segments(s[..|s| - 1]), s[|s| - 1];
    if c == '/' then before + [""] else before[..|before| - 1] + [before[|before| - 1] + [c]]
  }

  function Join(parts: seq<string>): string {
    if parts == [] then "" else if |parts| == 1 then parts[0]
    else Join(parts[..|parts| - 1]) + "/" + parts[|parts| - 1]
  }

  predicate Skipped(part: string) { part == "" || part == "." }

  /** One segment after the ones resolved so far; ".." takes the last name back. */
  function Resolved(done: seq<string>, part: string): seq<string> {
    if Skipped(part) then done
    else if part == ".." && done != [] && done[|done| - 1] != ".." then done[..|done| - 1]
    else done + [part]
  }

  function Resolve(parts: seq<string>): seq<string> {
    if parts == [] then [] else Resolved(Resolve(parts[..|parts| - 1]), parts[|parts| - 1])
  }

  predicate TrailingSlash(s: string) { s != "" && s[|s| - 1] == '/' }

  /** `posix.normalize` of a relative path. */
  function Normal(s: string): string {
    var joined := Join(Resolve(Segments(s)));
    if joined == "" then (if TrailingSlash(s) then "./" else ".")
    else if TrailingSlash(s) then joined + "/" else joined
  }

  predicate Relative(s: string) { s != "" && s[0] != '/' && '\0' !in s }

  function NormalizePath(raw: string): Result<string, PathError> {
    var candidate := Unified(raw);
    if !Relative(candidate) then Err(InvalidPath) else
    var normal := Normal(candidate);
    if Upward(normal) then Err(InvalidPath) else Ok(normal)
  }

  /** The root itself, or a way out of it. */
  predicate Upward(normal: string) {
    normal == "." || normal == ".." || "../" <= normal
  }

  // ---- an independent reading: the depth below the root along the path ----

  function Move(part: string): int { if Skipped(part) then 0 else if part == ".." then -1 else 1 }

  function Depth(parts: seq<string>): int {
    if parts == [] then 0 else Depth(parts[..|parts| - 1]) + Move(parts[|parts| - 1])
  }

  /** The lowest depth reached, at most that of the root. */
  function Lowest(parts: seq<string>): int {
    if parts == [] then 0 else
    var before := Lowest(parts[..|parts| - 1]);
    if Depth(parts) < before then Depth(parts) else before
  }

  predicate IsName(part: string) { !Skipped(part) && part != ".." && '/' !in part }

  /** `ups` times "..", then names. */
  ghost predicate Shape(done: seq<string>, ups: nat) {
    && ups <= |done|
    && (forall i :: 0 <= i < ups ==> done[i] == "..")
    && (forall i :: ups <= i < |done| ==> IsName(done[i]))
  }

  ghost predicate NoSlashes(parts: seq<string>) {
    forall i :: 0 <= i < |parts| ==> '/' !in parts[i]
  }

  lemma {:induction false} SegmentsHaveNoSlash(s: string)
    ensures NoSlashes(Segments(s))
  {
    if s != "" {
      SegmentsHaveNoSlash(s[..|s| - 1]);
    }
  }

  lemma ResolvedShape(done: seq<string>, ups: nat, part: string)
    requires Shape(done, ups) && '/' !in part
    ensures var climbs := part == ".." && |done| == ups;
      && Shape(Resolved(done, part), if climbs then ups + 1 else ups)
      && |Resolved(done, part)| == |done| + (if climbs then 1 else Move(part))
  {
    if done != [] && ups < |done| {
      assert IsName(done[|done| - 1]);
    }
  }

  /** The stack holds one ".." per level the path climbs above the root, and one name per level it
      then descends. */
  lemma {:induction false} ResolveShape(parts: seq<string>)
    requires NoSlashes(parts)
    ensures Lowest(parts) <= 0 && Lowest(parts) <= Depth(parts)
    ensures Shape(Resolve(parts), -Lowest(parts)) && |Resolve(parts)| == Depth(parts) - 2 * Lowest(parts)
  {
    if parts != [] {
      var front, last := parts[..|parts| - 1], parts[|parts| - 1];
      ResolveShape(front);
      ResolvedShape(Resolve(front), -Lowest(front), last);
      hide Shape, Resolved, NoSlashes;
    }
  }

  // ---- joining and splitting ----

  lemma {:induction false} SegmentsOfLast(s: string, part: string)
    requires '/' !in part
    ensures Segments(s + "/" + part) == Segments(s) + [part]
  {
    var whole := s + "/" + part;
    if part == "" {
      assert whole[..|whole| - 1] == s;
    } else {
      var front, c := part[..|part| - 1], part[|part| - 1];
      assert c in part && forall d :: d in front ==> d in part;
      SegmentsOfLast(s, front);
      assert whole[..|whole| - 1] == s + "/" + front;
      assert front + [c] == part;
    }
  }

  lemma {:induction false} SegmentsOfPlain(part: string)
    requires '/' !in part
    ensures Segments(part) == [part]
  {
    if part != "" {
      var front, c := part[..|part| - 1], part[|part| - 1];
      assert c in part && forall d :: d in front ==> d in part;
      SegmentsOfPlain(front);
      assert front + [c] == part;
    }
  }

  lemma {:induction false} SegmentsOfJoin(parts: seq<string>)
    requires parts != [] && NoSlashes(parts)
    ensures Segments(Join(parts)) == parts
  {
    if |parts| == 1 {
      SegmentsOfPlain(parts[0]);
    } else {
      var front := parts[..|parts| - 1];
      SegmentsOfJoin(front);
      SegmentsOfLast(Join(front), parts[|parts| - 1]);
      assert front + [parts[|parts| - 1]] == parts;
    }
  }

  lemma {:induction false} ResolveOfNames(parts: seq<string>)
    requires Shape(parts, 0)
    ensures Resolve(parts) == parts
  {
    if parts != [] {
      var front, last := parts[..|parts| - 1], parts[|parts| - 1];
      ResolveOfNames(front);
      assert IsName(last);
      NameIsAdded(front, last);
      hide Shape, Resolved, IsName;
      assert front + [last] == parts;
    }
  }

  lemma NameIsAdded(done: seq<string>, part: string)
    requires IsName(part)
    ensures Resolved(done, part) == done + [part]
  {}

  lemma {:induction false} FirstSegment(head: string, rest: string)
    requires '/' !in head
    ensures Segments(head + "/" + rest)[0] == head
  {
    var whole := head + "/" + rest;
    if rest == "" {
      SegmentsOfLast(head, "");
      SegmentsOfPlain(head);
    } else {
      FirstSegment(head, rest[..|rest| - 1]);
      assert whole[..|whole| - 1] == head + "/" + rest[..|rest| - 1];
      if whole[|whole| - 1] != '/' {
        assert |Segments(whole[..|whole| - 1])| > 1 by { TwoSegments(head, rest[..|rest| - 1]); }
      }
    }
  }

  lemma {:induction false} TwoSegments(head: string, rest: string)
    ensures |Segments(head + "/" + rest)| > 1
  {
    var whole := head + "/" + rest;
    if rest == "" {
      assert whole[..|whole| - 1] == head;
    } else {
      TwoSegments(head, rest[..|rest| - 1]);
      assert whole[..|whole| - 1] == head + "/" + rest[..|rest| - 1];
    }
  }

  lemma {:induction false} JoinStart(parts: seq<string>)
    requires |parts| > 1
    ensures parts[0] + "/" <= Join(parts)
  {
    var front := parts[..|parts| - 1];
    if |parts| == 2 {
      assert front == [parts[0]];
    } else {
      JoinStart(front);
    }
  }

  lemma UpwardStart(s: string)
    requires "../" <= s
    ensures Segments(s)[0] == ".."
  {
    assert s == ".." + "/" + s[3..];
    FirstSegment("..", s[3..]);
  }

  lemma SlashStart(s: string)
    requires s != "" && s[0] == '/'
    ensures Segments(s)[0] == ""
  {
    assert s == "" + "/" + s[1..];
    FirstSegment("", s[1..]);
  }

  /** A text whose first segment is a name is none of the rejected ones. */
  lemma StartsWithName(s: string)
    requires IsName(Segments(s)[0])
    ensures !Upward(s) && s != "" && s[0] != '/'
  {
    SegmentsOfPlain(".");
    SegmentsOfPlain("..");
    SegmentsOfPlain("");
    hide Segments;
    if "../" <= s {
      UpwardStart(s);
    } else if s != "" && s[0] == '/' {
      SlashStart(s);
    }
  }

  /** The segments of the normal form: the names, and an empty one after a trailing slash. */
  lemma NormalSegments(s: string)
    requires Resolve(Segments(s)) != [] && Shape(Resolve(Segments(s)), 0)
    ensures Segments(Normal(s)) == Resolve(Segments(s)) + (if TrailingSlash(s) then [""] else [])
  {
    var out := Resolve(Segments(s));
    hide Segments, Resolve, Join;
    SegmentsOfJoin(out);
    SegmentsOfLast(Join(out), "");
    SegmentsOfPlain("");
    assert Join(out) + "/" + "" == Join(out) + "/";
    assert IsName(out[0]);
  }

  /** The path climbs above its root somewhere on the way. */
  ghost predicate Climbs(parts: seq<string>) {
    exists k :: 0 <= k <= |parts| && Depth(parts[..k]) < 0
  }

  lemma {:induction false} LowestIsReached(parts: seq<string>)
    ensures Lowest(parts) < 0 <==> Climbs(parts)
  {
    if parts == [] {
      assert parts[..0] == [];
    } else {
      var front := parts[..|parts| - 1];
      LowestIsReached(front);
      assert parts[..|parts|] == parts;
      assert forall k :: 0 <= k < |parts| ==> parts[..k] == front[..k];
    }
  }

  lemma JoinOfClimbing(parts: seq<string>)
    requires parts != [] && parts[0] == ".."
    ensures Upward(Join(parts)) && Upward(Join(parts) + "/") && Join(parts) != ""
  {
    if |parts| > 1 {
      JoinStart(parts);
    }
  }

  lemma ClimbingStack(parts: seq<string>)
    requires NoSlashes(parts) && Climbs(parts)
    ensures Resolve(parts) != [] && Resolve(parts)[0] == ".."
  {
    ResolveShape(parts);
    LowestIsReached(parts);
    hide Resolve, Climbs, NoSlashes;
  }

  lemma NormalOfClimbing(s: string)
    requires Climbs(Segments(s))
    ensures Upward(Normal(s))
  {
    SegmentsHaveNoSlash(s);
    hide Segments, Resolve, Climbs, NoSlashes, Join, Upward;
    ClimbingStack(Segments(s));
    JoinOfClimbing(Resolve(Segments(s)));
  }

  /** A path is accepted exactly when it is relative, never climbs above the root on its way, and
      does not end at the root itself, unless it ends in a slash. */
  lemma AcceptedIff(raw: string)
    ensures var candidate := Unified(raw);
      NormalizePath(raw).Ok? <==>
        && Relative(candidate) && !Climbs(Segments(candidate))
        && (Depth(Segments(candidate)) > 0 || TrailingSlash(candidate))
  {
    var candidate := Unified(raw);
    var parts := Segments(candidate);
    SegmentsHaveNoSlash(candidate);
    ResolveShape(parts);
    LowestIsReached(parts);
    hide Segments, Resolve, Climbs, NoSlashes, Unified, Relative;
    if Lowest(parts) < 0 {
      NormalOfClimbing(candidate);
    } else if Resolve(parts) != [] {
      NormalSegments(candidate);
      assert IsName(Resolve(parts)[0]);
      StartsWithName(Normal(candidate));
    }
  }

  // ---- normalising twice ----

  predicate Plain(s: string) { '\\' !in s && '\0' !in s }

  ghost predicate AllPlain(parts: seq<string>) {
    forall i :: 0 <= i < |parts| ==> Plain(parts[i])
  }

  lemma {:induction false} SegmentsArePlain(s: string)
    requires Plain(s)
    ensures AllPlain(Segments(s))
  {
    if s != "" {
      assert forall c :: c in s[..|s| - 1] ==> c in s;
      assert s[|s| - 1] in s;
      SegmentsArePlain(s[..|s| - 1]);
    }
  }

  lemma {:induction false} ResolveIsPlain(parts: seq<string>)
    requires AllPlain(parts)
    ensures AllPlain(Resolve(parts))
  {
    if parts != [] {
      ResolveIsPlain(parts[..|parts| - 1]);
    }
  }

  lemma {:induction false} JoinIsPlain(parts: seq<string>)
    requires AllPlain(parts)
    ensures Plain(Join(parts))
  {
    if |parts| > 1 {
      JoinIsPlain(parts[..|parts| - 1]);
    }
  }

  lemma NormalIsPlain(s: string)
    requires Plain(s)
    ensures Plain(Normal(s))
  {
    SegmentsArePlain(s);
    ResolveIsPlain(Segments(s));
    JoinIsPlain(Resolve(Segments(s)));
    hide Segments, Resolve, Join, AllPlain;
  }

  lemma UnifiedPlain(s: string)
    ensures '\\' !in Unified(s)
    ensures '\\' !in s ==> Unified(s) == s
  {
    if '\\' !in s {
      forall i | 0 <= i < |s| ensures s[i] != '\\' {
        assert s[i] in s;
      }
    }
  }

  lemma {:induction false} SlashEndsEmpty(s: string)
    requires s != ""
    ensures TrailingSlash(s) <==> Segments(s)[|Segments(s)| - 1] == ""
  {}

  /** What the normal form of a path that stays below the root looks like. */
  lemma NormalParts(s: string)
    requires Resolve(Segments(s)) != [] && Shape(Resolve(Segments(s)), 0)
    ensures var n := Normal(s);
      && Resolve(Segments(n)) == Resolve(Segments(s)) && TrailingSlash(n) == TrailingSlash(s)
      && !Upward(n) && n != "" && n[0] != '/'
      && ".." !in Segments(n)
  {
    var out, n := Resolve(Segments(s)), Normal(s);
    NormalSegments(s);
    ResolveOfNames(out);
    ResolveTrailing(out);
    hide Segments, Resolve, Join, Normal, Upward, TrailingSlash;
    NamesEnd(out);
    hide IsName, Shape;
    EndsOfParts(out);
    StartsWithName(n);
    SlashEndsEmpty(n);
  }

  lemma EndsOfParts(parts: seq<string>)
    requires parts != [] && parts[|parts| - 1] != "" && ".." !in parts
    ensures parts + [] == parts && (parts + [""])[0] == parts[0]
    ensures (parts + [""])[|parts|] == "" && ".." !in parts + [""]
  {}

  lemma NamesEnd(parts: seq<string>)
    requires parts != [] && Shape(parts, 0)
    ensures IsName(parts[0]) && parts[|parts| - 1] != "" && ".." !in parts
  {
    assert IsName(parts[|parts| - 1]);
  }

  lemma ResolveTrailing(parts: seq<string>)
    ensures Resolve(parts + [""]) == Resolve(parts)
  {
    assert (parts + [""])[..|parts|] == parts;
  }

  lemma NormalDepends(s: string, t: string)
    requires Resolve(Segments(s)) == Resolve(Segments(t)) && TrailingSlash(s) == TrailingSlash(t)
    ensures Normal(s) == Normal(t)
  {}

  lemma JoinNothing()
    ensures Join([]) == ""
  {}

  lemma RootParts()
    ensures Segments("./") == [".", ""] && Resolve([".", ""]) == []
  {
    SegmentsOfLast(".", "");
    SegmentsOfPlain(".");
    hide Segments;
    assert "." + "/" + "" == "./";
    assert ["."] + [""] == [".", ""];
    ResolveTrailing(["."]);
    assert Resolve(["."]) == Resolved(Resolve([]), ".");
  }

  lemma NormalOfRoot()
    ensures NormalizePath("./") == Ok("./") && Segments("./") == [".", ""]
  {
    RootParts();
    UnifiedPlain("./");
    hide Segments, Resolve, Unified;
    assert Join([]) == "";
    assert '\\' !in "./" && '\0' !in "./";
    assert !Upward("./") by { assert "./"[1] == '/'; }
  }

  /** What normalising needs of its own result. */
  predicate IsNormal(s: string) {
    Unified(s) == s && Relative(s) && Normal(s) == s && !Upward(s)
  }

  lemma RootIsNormal()
    ensures IsNormal("./") && ".." !in Segments("./")
  {
    NormalOfRoot();
    UnifiedPlain("./");
    hide Segments, Unified, Normal;
    assert '\\' !in "./" && '\0' !in "./";
    assert !(".." in [".", ""]);
  }

  lemma RootNormal(s: string)
    requires Resolve(Segments(s)) == [] && TrailingSlash(s)
    ensures Normal(s) == "./"
  {
    JoinNothing();
    hide Segments, Resolve, Join;
  }

  lemma NamesAreNormal(s: string)
    requires Plain(s) && Resolve(Segments(s)) != [] && Shape(Resolve(Segments(s)), 0)
    ensures IsNormal(Normal(s)) && ".." !in Segments(Normal(s))
  {
    hide Segments, Resolve, Unified, Shape, Normal, Upward, TrailingSlash;
    NormalParts(s);
    NormalDepends(Normal(s), s);
    NormalIsPlain(s);
    UnifiedPlain(Normal(s));
  }

  lemma RelativeIsPlain(raw: string)
    requires Relative(Unified(raw))
    ensures Plain(Unified(raw))
  {
    UnifiedPlain(raw);
    hide Unified;
  }

  /** Normalising a normalised path changes nothing, so every reader finds the reference the writer
      left; and no segment of it leads upwards. */
  lemma NormalizeIsIdempotent(raw: string)
    requires NormalizePath(raw).Ok?
    ensures NormalizePath(NormalizePath(raw).value) == NormalizePath(raw)
    ensures ".." !in Segments(NormalizePath(raw).value)
  {
    var candidate := Unified(raw);
    var parts := Segments(candidate);
    hide Segments, Resolve, Climbs, NoSlashes, Unified, Shape, Depth, Lowest, Normal, Upward, Relative, Plain,
         TrailingSlash;
    AcceptedIff(raw);
    SegmentsHaveNoSlash(candidate);
    ResolveShape(parts);
    LowestIsReached(parts);
    RelativeIsPlain(raw);
    if Resolve(parts) == [] {
      RootNormal(candidate);
      RootIsNormal();
    } else {
      NamesAreNormal(candidate);
    }
  }

  // ---- where the reference of a path is kept ----

  /** The reference file of an accepted path, from the `refs` directory down: the workspace's directory
      joined with the segments, the joined name then getting its suffix. */
  function RefFile(workspaceId: string, normal: string): seq<string> {
    var joined := Resolve([workspaceId] + Segments(normal));
    if joined == [] then [".json"] else joined[..|joined| - 1] + [joined[|joined| - 1] + ".json"]
  }

  /** A file somewhere below the directory of the workspace. */
  predicate Below(workspaceId: string, file: seq<string>) {
    |file| > 1 && file[0] == workspaceId
  }

  lemma ResolvedBehind(name: string, done: seq<string>, part: string)
    requires IsName(name) && Shape(done, 0) && (part == ".." ==> done != [])
    ensures Resolved([name] + done, part) == [name] + Resolved(done, part)
  {
    if part == ".." && done != [] {
      assert ([name] + done)[..|done|] == [name] + done[..|done| - 1];
    }
  }

  lemma {:induction false} ResolveBehind(name: string, parts: seq<string>)
    requires IsName(name) && NoSlashes(parts) && !Climbs(parts)
    ensures Resolve([name] + parts) == [name] + Resolve(parts)
  {
    if parts == [] {
      assert [name] + parts == [name] && [name][..0] == [];
    } else {
      var front, last := parts[..|parts| - 1], parts[|parts| - 1];
      FrontStaysBelow(parts);
      ResolveBehind(name, front);
      ResolveShape(front);
      ResolveShape(parts);
      LowestIsReached(front);
      LowestIsReached(parts);
      hide Climbs, Shape, IsName, NoSlashes, Resolved;
      ResolvedBehind(name, Resolve(front), last);
      assert ([name] + parts)[..|parts|] == [name] + front;
    }
  }

  lemma FrontStaysBelow(parts: seq<string>)
    requires parts != [] && !Climbs(parts)
    ensures !Climbs(parts[..|parts| - 1])
  {
    var front := parts[..|parts| - 1];
    forall k | 0 <= k <= |front| ensures Depth(front[..k]) >= 0 {
      assert front[..k] == parts[..k];
    }
  }

  /** The reference of an accepted path lies below its workspace's directory if and only if the path
      descends: an accepted path that ends at the root, with a slash, is kept beside the directory. */
  lemma RefBelowIff(workspaceId: string, raw: string)
    requires IsName(workspaceId) && NormalizePath(raw).Ok?
    ensures Below(workspaceId, RefFile(workspaceId, NormalizePath(raw).value))
       <==> Depth(Segments(Unified(raw))) > 0
  {
    var candidate := Unified(raw);
    var parts, q := Segments(candidate), Normal(candidate);
    AcceptedIff(raw);
    SegmentsHaveNoSlash(candidate);
    ResolveShape(parts);
    LowestIsReached(parts);
    hide Segments, Resolve, Join, Climbs, NoSlashes, Unified, Depth, Lowest, NormalizePath;
    if Resolve(parts) == [] {
      RootNormal(candidate);
      RootParts();
      RootRef(workspaceId);
    } else {
      NormalParts(candidate);
      hide Normal;
      SegmentsHaveNoSlash(q);
      NamesDoNotClimb(q);
      ResolveBehind(workspaceId, Segments(q));
      BelowOfNames(workspaceId, Resolve(parts));
    }
  }

  lemma RootRef(workspaceId: string)
    requires IsName(workspaceId) && Segments("./") == [".", ""]
    ensures RefFile(workspaceId, "./") == [workspaceId + ".json"]
  {
    hide Segments;
    var parts := [workspaceId] + [".", ""];
    assert parts[..2] == [workspaceId, "."] && [workspaceId, "."][..1] == [workspaceId];
    assert [workspaceId][..0] == [];
    assert Resolve([workspaceId]) == [workspaceId];
    assert Resolve([workspaceId, "."]) == [workspaceId];
    assert Resolve(parts) == [workspaceId];
  }

  lemma NamesDoNotClimb(s: string)
    requires ".." !in Segments(s)
    ensures !Climbs(Segments(s))
  {
    var parts := Segments(s);
    forall k | 0 <= k <= |parts| ensures Depth(parts[..k]) >= 0 {
      DepthOfNames(parts[..k]);
    }
  }

  lemma {:induction false} DepthOfNames(parts: seq<string>)
    requires ".." !in parts
    ensures Depth(parts) >= 0
  {
    if parts != [] {
      assert forall p :: p in parts[..|parts| - 1] ==> p in parts;
      assert parts[|parts| - 1] in parts;
      DepthOfNames(parts[..|parts| - 1]);
    }
  }

  lemma BelowOfNames(workspaceId: string, names: seq<string>)
    requires names != []
    ensures var joined := [workspaceId] + names;
      Below(workspaceId, joined[..|joined| - 1] + [joined[|joined| - 1] + ".json"])
  {}

  /** The path "a/../" is accepted as "./", and its reference is no file of the workspace's directory. */
  lemma ClimbingBackIsAccepted(workspaceId: string)
    requires IsName(workspaceId)
    ensures NormalizePath("a/../") == Ok("./")
    ensures RefFile(workspaceId, "./") == [workspaceId + ".json"] && !Below(workspaceId, RefFile(workspaceId, "./"))
  {
    BackSegments();
    BackResolves();
    BackIsPlain();
    hide Segments, Resolve, Unified, Upward, Relative;
    RootNormal("a/../");
    RootIsNormal();
    NormalOfRoot();
    RootRef(workspaceId);
  }

  lemma BackSegments()
    ensures Segments("a/../") == ["a", "..", ""]
  {
    hide Segments;
    BackText();
    SegmentsOfPlain("a");
    SegmentsOfLast("a", "..");
    SegmentsOfLast("a/..", "");
    assert ["a"] + [".."] + [""] == ["a", "..", ""];
  }

  lemma BackText()
    ensures "a" + "/" + ".." == "a/.." && "a/.." + "/" + "" == "a/../"
    ensures '/' !in "a" && '/' !in ".." && '/' !in ""
  {}

  lemma BackResolves()
    ensures Resolve(["a", "..", ""]) == []
  {
    assert ["a", "..", ""] == ["a", ".."] + [""];
    ResolveTrailing(["a", ".."]);
    assert ["a", ".."][..1] == ["a"] && ["a"][..0] == [];
    assert Resolve(["a"]) == ["a"];
    assert Resolved(["a"], "..") == [];
  }

  lemma BackIsPlain()
    ensures Unified("a/../") == "a/../" && Relative("a/../") && TrailingSlash("a/../")
  {
    UnifiedPlain("a/../");
    hide Unified;
    assert '\\' !in "a/../" && '\0' !in "a/../";
  }
}
