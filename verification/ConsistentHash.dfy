/** The placement ring: virtual nodes sorted by hash, walked clockwise from the hash of a key. */
module ConsistentHash {
  import opened Prelude
  import opened Sequences
  import opened HashString

  datatype RingNode = RingNode(point: nat, slaveId: JsString)
  datatype Entry = Entry(id: JsString, weight: Option<real>)

  const DEFAULT_VNODES: int := 96
  const COLON: bv16 := 0x3a

  function Point(node: RingNode): int { node.point }
  function Owner(node: RingNode): JsString { node.slaveId }

  // ---- building the ring ----

  /** The digits 0 to 9. */
  const DIGITS: JsString := [0x30, 0x31, 0x32, 0x33, 0x34, 0x35, 0x36, 0x37, 0x38, 0x39]

  function Decimal(n: nat): JsString {
    (if n < 10 then [] else Decimal(n / 10)) + [DIGITS[n % 10]]
  }

  function VnodeKey(id: JsString, i: nat): JsString {
    id + [COLON] + Decimal(i)
  }

  /** `Math.max(1, Math.round(vnodes * weight))`, rounding halves up. */
  function VnodeCount(entry: Entry, vnodes: int): (count: nat)
    ensures count >= 1
  {
    var rounded := (vnodes as real * entry.weight.GetOr(1.0) + 0.5).Floor;
    if rounded < 1 then 1 else rounded
  }

  function FirstNodes(id: JsString, count: nat): seq<RingNode> {
    if count == 0 then []
    else FirstNodes(id, count - 1) + [RingNode(Hash(VnodeKey(id, count - 1)), id)]
  }

  /** The nodes in the order they are pushed. */
  function Nodes(entries: seq<Entry>, vnodes: int): seq<RingNode> {
    if entries == [] then [] else
    var last := entries[|entries| - 1];
    Nodes(entries[..|entries| - 1], vnodes) + FirstNodes(last.id, VnodeCount(last, vnodes))
  }

  function Ring(entries: seq<Entry>, vnodes: int): seq<RingNode> {
    StableSort(Nodes(entries, vnodes), Point)
  }

  // ---- the keys of the virtual nodes ----

  predicate IsDigit(unit: bv16) { 0x30 <= unit <= 0x39 }

  function Digit(d: nat): bv16
    requires d < 10
  {
    DIGITS[d]
  }

  lemma DigitInjective(c: nat, d: nat)
    requires c < 10 && d < 10
    ensures IsDigit(Digit(c))
    ensures Digit(c) == Digit(d) ==> c == d
  {}

  lemma DecimalUnfolds(n: nat)
    ensures Decimal(n) == (if n < 10 then [] else Decimal(n / 10)) + [Digit(n % 10)]
  {}

  lemma {:induction false} DecimalDigits(n: nat)
    ensures |Decimal(n)| > 0 && forall i :: 0 <= i < |Decimal(n)| ==> IsDigit(Decimal(n)[i])
  {
    hide IsDigit, Digit;
    DecimalUnfolds(n);
    DigitInjective(n % 10, n % 10);
    if n >= 10 {
      DecimalDigits(n / 10);
    }
  }

  lemma {:induction false} DecimalInjective(m: nat, n: nat)
    requires Decimal(m) == Decimal(n)
    ensures m == n
  {
    DecimalUnfolds(m);
    DecimalUnfolds(n);
    hide Decimal, Digit;
    var a := if m < 10 then [] else Decimal(m / 10);
    var b := if n < 10 then [] else Decimal(n / 10);
    assert |a| == |b| && a == (a + [Digit(m % 10)])[..|a|] == (b + [Digit(n % 10)])[..|b|] == b;
    assert (a + [Digit(m % 10)])[|a|] == (b + [Digit(n % 10)])[|b|];
    DigitInjective(m % 10, n % 10);
    if m >= 10 {
      DecimalDigits(m / 10);
    }
    if n >= 10 {
      DecimalDigits(n / 10);
    }
    if m >= 10 && n >= 10 {
      DecimalInjective(m / 10, n / 10);
    }
  }

  /** The only colon at or after the separator is the separator. */
  lemma NoLaterColon(id: JsString, digits: JsString, k: nat)
    requires forall i :: 0 <= i < |digits| ==> IsDigit(digits[i])
    requires |id| < k < |id + [COLON] + digits|
    ensures (id + [COLON] + digits)[k] != COLON
  {
    assert (id + [COLON] + digits)[k] == digits[k - |id| - 1];
  }

  /** Virtual nodes of different workers, or different nodes of one worker, have different keys. */
  lemma VnodeKeyInjective(id1: JsString, i: nat, id2: JsString, j: nat)
    requires VnodeKey(id1, i) == VnodeKey(id2, j)
    ensures id1 == id2 && i == j
  {
    hide Decimal, IsDigit;
    DecimalDigits(i);
    DecimalDigits(j);
    var a, b := Decimal(i), Decimal(j);
    var s := id1 + [COLON] + a;
    assert s == id2 + [COLON] + b;
    assert s[|id1|] == COLON && s[|id2|] == COLON;
    if |id1| < |id2| {
      NoLaterColon(id1, a, |id2|);
      assert false;
    }
    if |id2| < |id1| {
      NoLaterColon(id2, b, |id1|);
      assert false;
    }
    assert s[..|id1|] == id1 && s[..|id2|] == id2;
    assert s[|id1| + 1..] == a && s[|id2| + 1..] == b;
    DecimalInjective(i, j);
  }

  /** The number a text of decimal digits stands for. */
  function ValueOf(digits: JsString): int {
    if digits == [] then 0 else 10 * ValueOf(digits[..|digits| - 1]) + digits[|digits| - 1] as int - 0x30
  }

  lemma DigitValue(d: nat)
    requires d < 10
    ensures DIGITS[d] as int == 0x30 + d
  {}

  /** The decimal text of a number has that value, and no leading zero. */
  lemma {:induction false} DecimalMeaning(n: nat)
    ensures ValueOf(Decimal(n)) == n && |Decimal(n)| > 0 && (n > 0 ==> Decimal(n)[0] != 0x30)
  {
    DecimalUnfolds(n);
    DigitValue(n % 10);
    hide Decimal;
    var front := if n < 10 then [] else Decimal(n / 10);
    assert Decimal(n)[..|Decimal(n)| - 1] == front;
    if n >= 10 {
      DecimalMeaning(n / 10);
      assert Decimal(n)[0] == front[0];
    }
  }

  /** The count is the product of `vnodes` and the weight, rounded, and at least 1. */
  lemma VnodeCountMeaning(entry: Entry, vnodes: int)
    ensures var wanted := vnodes as real * (if entry.weight.Some? then entry.weight.value else 1.0);
      var count := VnodeCount(entry, vnodes);
      if wanted < 0.5 then count == 1 else count as real - 0.5 <= wanted < count as real + 0.5
  {}

  lemma CountIff(entry: Entry, vnodes: int, i: nat)
    ensures i < VnodeCount(entry, vnodes) <==>
      i == 0 || i as real + 0.5 <= vnodes as real * (if entry.weight.Some? then entry.weight.value else 1.0)
  {
    var x := vnodes as real * entry.weight.GetOr(1.0) + 0.5;
    assert i as real + 1.0 <= x <==> i + 1 <= x.Floor;
  }

  /** The virtual node `i` of a worker. */
  ghost predicate IsNodeOf(id: JsString, i: nat, n: RingNode) {
    n == RingNode(Hash(id + [0x3a] + Decimal(i)), id)
  }

  lemma FirstNodesSnoc(id: JsString, count: nat, n: RingNode)
    ensures n in FirstNodes(id, count + 1) <==> n in FirstNodes(id, count) || IsNodeOf(id, count, n)
  {
    hide Hash, Decimal;
    var last := RingNode(Hash(VnodeKey(id, count)), id);
    assert FirstNodes(id, count + 1) == FirstNodes(id, count) + [last];
    assert FirstNodes(id, count + 1)[|FirstNodes(id, count)|] == last;
  }

  lemma {:induction false} FirstNodesMember(id: JsString, count: nat, n: RingNode)
    ensures n in FirstNodes(id, count) <==> exists i: nat :: i < count && IsNodeOf(id, i, n)
  {
    hide FirstNodes, IsNodeOf;
    if count == 0 {
      NoFirstNodes(id);
    } else {
      FirstNodesMember(id, count - 1, n);
      FirstNodesSnoc(id, count - 1, n);
    }
  }

  lemma NoFirstNodes(id: JsString)
    ensures FirstNodes(id, 0) == []
  {}

  /** Entry `e` has a virtual node `i`, and this is it. */
  ghost predicate IsVnode(entries: seq<Entry>, vnodes: int, n: RingNode, e: nat, i: nat) {
    && e < |entries| && IsNodeOf(entries[e].id, i, n)
    && (i == 0 || i as real + 0.5 <= vnodes as real * (if entries[e].weight.Some? then entries[e].weight.value else 1.0))
  }

  lemma VnodeOfFront(entries: seq<Entry>, last: Entry, vnodes: int, n: RingNode, e: nat, i: nat)
    requires e < |entries|
    ensures IsVnode(entries + [last], vnodes, n, e, i) <==> IsVnode(entries, vnodes, n, e, i)
  {
    hide IsNodeOf;
  }

  lemma VnodeOfLast(entries: seq<Entry>, last: Entry, vnodes: int, n: RingNode, i: nat)
    ensures IsVnode(entries + [last], vnodes, n, |entries|, i)
       <==> i < VnodeCount(last, vnodes) && IsNodeOf(last.id, i, n)
  {
    hide IsNodeOf, VnodeCount;
    assert (entries + [last])[|entries|] == last;
    CountIff(last, vnodes, i);
  }

  /** The nodes of one more entry. */
  lemma VnodesSnoc(entries: seq<Entry>, last: Entry, vnodes: int, n: RingNode)
    ensures (exists e: nat, i: nat :: IsVnode(entries + [last], vnodes, n, e, i))
      <==> (exists e: nat, i: nat :: IsVnode(entries, vnodes, n, e, i)) || n in FirstNodes(last.id, VnodeCount(last, vnodes))
  {
    FirstNodesMember(last.id, VnodeCount(last, vnodes), n);
    var longer := entries + [last];
    if e: nat, i: nat :| IsVnode(entries, vnodes, n, e, i) {
      VnodeOfFront(entries, last, vnodes, n, e, i);
    }
    if i: nat :| i < VnodeCount(last, vnodes) && IsNodeOf(last.id, i, n) {
      VnodeOfLast(entries, last, vnodes, n, i);
    }
    if e: nat, i: nat :| IsVnode(longer, vnodes, n, e, i) {
      if e < |entries| {
        VnodeOfFront(entries, last, vnodes, n, e, i);
      } else {
        assert e == |entries|;
        VnodeOfLast(entries, last, vnodes, n, i);
      }
    }
    hide IsNodeOf, VnodeCount, FirstNodes, IsVnode;
  }

  /** Every entry has a virtual node. */
  lemma FirstVnode(entries: seq<Entry>, vnodes: int, e: nat) returns (n: RingNode)
    requires e < |entries|
    ensures n.slaveId == entries[e].id && exists i: nat :: IsVnode(entries, vnodes, n, e, i)
  {
    var i: nat := 0;
    n := RingNode(Hash(entries[e].id + [0x3a] + Decimal(i)), entries[e].id);
    assert IsVnode(entries, vnodes, n, e, i);
  }

  lemma {:induction false} NodesMember(entries: seq<Entry>, vnodes: int, n: RingNode)
    ensures n in Nodes(entries, vnodes) <==> exists e: nat, i: nat :: IsVnode(entries, vnodes, n, e, i)
  {
    hide IsVnode, VnodeCount, FirstNodes;
    if entries == [] {
      NoEntriesNoVnodes(vnodes, n);
    } else {
      var front, last := entries[..|entries| - 1], entries[|entries| - 1];
      NodesMember(front, vnodes, n);
      VnodesSnoc(front, last, vnodes, n);
      assert entries == front + [last];
    }
  }

  lemma NoEntriesNoVnodes(vnodes: int, n: RingNode)
    ensures !exists e: nat, i: nat :: IsVnode([], vnodes, n, e, i)
  {}

  /** The ring is the sorted list of all virtual nodes: for every entry and every `i` below its count, the hash of its
      id, a colon and the decimal text of `i`; and nothing else. */
  method BuildRing(entries: seq<Entry>, vnodes: int := DEFAULT_VNODES) returns (nodes: seq<RingNode>)
    ensures nodes == Ring(entries, vnodes)
    ensures Sorted(nodes, Point)
    ensures forall n :: n in nodes <==> exists e: nat, i: nat :: IsVnode(entries, vnodes, n, e, i)
  {
    forall n ensures n in Ring(entries, vnodes) <==> exists e: nat, i: nat :: IsVnode(entries, vnodes, n, e, i) {
      NodesMember(entries, vnodes, n);
      SortMember(Nodes(entries, vnodes), Point, n);
    }
    hide Hash, VnodeKey, VnodeCount, IsVnode;
    nodes := [];
    for e := 0 to |entries|
      invariant nodes == Nodes(entries[..e], vnodes)
    {
      ghost var before := nodes;
      var entry := entries[e];
      var count := VnodeCount(entry, vnodes);
      for i := 0 to count
        invariant nodes == before + FirstNodes(entry.id, i)
      {
        var point := ComputeHash(VnodeKey(entry.id, i));
        nodes := nodes + [RingNode(point, entry.id)];
      }
      assert entries[..e + 1][..e] == entries[..e];
    }
    assert entries[..|entries|] == entries;
    SortOrders(nodes, Point);
    nodes := StableSort(nodes, Point);
  }

  // ---- the clockwise specification ----

  function AtOrAbove(target: int): RingNode -> bool { (node: RingNode) => node.point >= target }
  function Below(target: int): RingNode -> bool { (node: RingNode) => node.point < target }
  function Anyone(): JsString -> bool { (id: JsString) => true }
  function Except(w: JsString): JsString -> bool { (id: JsString) => id != w }

  /** The ring read clockwise from the first point at or above `target`. */
  function Clockwise(ring: seq<RingNode>, target: int): seq<RingNode> {
    Filter(ring, AtOrAbove(target)) + Filter(ring, Below(target))
  }

  /** All distinct live workers in clockwise order from the key. */
  function Preference(ring: seq<RingNode>, key: JsString, alive: JsString -> bool): seq<JsString> {
    Distinct(Filter(Map(Owner, Clockwise(ring, Hash(key))), alive))
  }

  function Candidates(ring: seq<RingNode>, key: JsString, count: int, alive: JsString -> bool): seq<JsString> {
    Take(Preference(ring, key, alive), count)
  }

  function Rotated(ring: seq<RingNode>, idx: nat): seq<RingNode>
    requires idx <= |ring|
  {
    ring[idx..] + ring[..idx]
  }

  /** Rotating a sorted ring to its first point at or above the target reads it clockwise. */
  lemma RotationIsClockwise(ring: seq<RingNode>, idx: nat, target: int)
    requires idx <= |ring|
    requires forall i :: 0 <= i < idx ==> ring[i].point < target
    requires forall i :: idx <= i < |ring| ==> ring[i].point >= target
    ensures Clockwise(ring, target) == Rotated(ring, idx)
  {
    hide Filter, Hash;
    var low, high := ring[..idx], ring[idx..];
    assert ring == low + high;
    FilterAppend(low, high, AtOrAbove(target));
    FilterAppend(low, high, Below(target));
    FilterAll(high, AtOrAbove(target));
    FilterNone(low, AtOrAbove(target));
    FilterAll(low, Below(target));
    FilterNone(high, Below(target));
  }

  /** Below the target up to `lo`, at or above it from `hi`. */
  ghost predicate SplitsAt(ring: seq<RingNode>, lo: nat, hi: nat, target: int) {
    && lo <= hi <= |ring|
    && (forall i :: 0 <= i < lo ==> ring[i].point < target)
    && (forall i :: hi <= i < |ring| ==> ring[i].point >= target)
  }

  lemma Narrows(ring: seq<RingNode>, lo: nat, hi: nat, mid: nat, target: int)
    requires Sorted(ring, Point) && SplitsAt(ring, lo, hi, target) && lo <= mid < hi
    ensures if ring[mid].point >= target then SplitsAt(ring, lo, mid, target) else SplitsAt(ring, mid + 1, hi, target)
  {
    assert forall i :: 0 <= i < |ring| ==> Point(ring[i]) == ring[i].point;
  }

  lemma WholeRing(ring: seq<RingNode>, target: int)
    ensures SplitsAt(ring, 0, |ring|, target)
  {}

  lemma StartMeaning(ring: seq<RingNode>, lo: nat, target: int)
    requires ring != [] && SplitsAt(ring, lo, lo, target)
    ensures var idx := if lo < |ring| then lo else 0;
      && ((exists i :: 0 <= i < |ring| && ring[i].point >= target) ==>
            ring[idx].point >= target && forall i :: 0 <= i < idx ==> ring[i].point < target)
      && Rotated(ring, idx) == Clockwise(ring, target)
  {
    RotationIsClockwise(ring, lo, target);
    hide Clockwise;
    assert lo == |ring| ==> Rotated(ring, lo) == Rotated(ring, 0);
  }

  lemma NoneReached(ring: seq<RingNode>, lo: nat, target: int)
    requires SplitsAt(ring, lo, lo, target)
    ensures (forall i :: 0 <= i < |ring| ==> ring[i].point < target) ==> lo == |ring|
  {
    if lo < |ring| {
      assert ring[lo].point >= target;
    }
  }

  /** The binary search: the first index at or above the target, or 0 when there is none. */
  method FindStart(ring: seq<RingNode>, target: int) returns (idx: nat)
    requires ring != []
    ensures idx < |ring|
    ensures Sorted(ring, Point) && (exists i :: 0 <= i < |ring| && ring[i].point >= target) ==>
      ring[idx].point >= target && forall i :: 0 <= i < idx ==> ring[i].point < target
    ensures Sorted(ring, Point) && (forall i :: 0 <= i < |ring| ==> ring[i].point < target) ==> idx == 0
    ensures Sorted(ring, Point) ==> Rotated(ring, idx) == Clockwise(ring, target)
  {
    hide Sorted, SplitsAt, Rotated, Clockwise;
    var lo, hi := 0, |ring| - 1;
    idx := 0;
    WholeRing(ring, target);
    while lo <= hi
      invariant 0 <= lo <= hi + 1 <= |ring|
      invariant idx < |ring|
      invariant Sorted(ring, Point) ==> SplitsAt(ring, lo, hi + 1, target)
      invariant hi + 1 < |ring| ==> idx == hi + 1
      invariant hi + 1 == |ring| ==> idx == 0
      decreases hi - lo + 1
    {
      var mid := (lo + hi) / 2;
      if Sorted(ring, Point) { Narrows(ring, lo, hi + 1, mid, target); }
      if ring[mid].point >= target {
        idx := mid;
        hi := mid - 1;
      } else {
        lo := mid + 1;
      }
    }
    if Sorted(ring, Point) {
      StartMeaning(ring, lo, target);
      NoneReached(ring, lo, target);
    }
  }

  method FindCandidates(ring: seq<RingNode>, key: JsString, count: int, alive: Option<JsString -> bool>)
    returns (out: seq<JsString>)
    ensures Sorted(ring, Point) ==> out == Candidates(ring, key, count, alive.GetOr(Anyone()))
    ensures NoDuplicates(out) && |out| <= if count <= 0 then 0 else count
    ensures forall id :: id in out ==> alive.GetOr(Anyone())(id) && id in Map(Owner, ring)
  {
    if ring == [] {
      return [];
    }
    hide Hash, Clockwise;
    var target := ComputeHash(key);
    var idx := FindStart(ring, target);
    out := Walk(ring, idx, count, alive);
  }

  /** The clockwise walk from index `idx`, skipping seen and dead workers. */
  method Walk(ring: seq<RingNode>, idx: nat, count: int, alive: Option<JsString -> bool>)
    returns (out: seq<JsString>)
    requires idx < |ring|
    ensures out == Take(Distinct(Filter(Map(Owner, Rotated(ring, idx)), alive.GetOr(Anyone()))), count)
    ensures NoDuplicates(out) && |out| <= if count <= 0 then 0 else count
    ensures forall id :: id in out ==> alive.GetOr(Anyone())(id) && id in Map(Owner, ring)
  {
    hide Hash, Distinct, Filter, Take, Rotated, Map, Clockwise;
    WalkStarts(ring, idx, alive.GetOr(Anyone()));
    ghost var walk := Map(Owner, Rotated(ring, idx));
    ghost var test := alive.GetOr(Anyone());
    out := [];
    var seen: set<JsString> := {};
    var i := 0;
    while i < |ring| && |out| < count
      invariant 0 <= i <= |ring| == |walk|
      invariant forall id :: id in seen <==> id in walk[..i]
      invariant out == Distinct(Filter(walk[..i], test))
      invariant out == [] || |out| <= count
    {
      RotationStep(ring, idx, i);
      WalkStep(walk, i, test);
      var node := ring[(idx + i) % |ring|];
      assert walk[..i + 1] == walk[..i] + [node.slaveId];
      i := i + 1;
      if node.slaveId !in seen {
        seen := seen + {node.slaveId};
        if alive.None? || alive.value(node.slaveId) {
          out := out + [node.slaveId];
        }
      }
    }
    WalkStops(walk, i, test, count);
    WalkMembers(ring, idx, i, test);
  }

  lemma RotationStep(ring: seq<RingNode>, idx: nat, i: nat)
    requires idx < |ring| && i < |ring|
    ensures 0 <= (idx + i) % |ring| < |ring|
    ensures |Map(Owner, Rotated(ring, idx))| == |ring|
    ensures Map(Owner, Rotated(ring, idx))[i] == ring[(idx + i) % |ring|].slaveId
  {
    hide Hash;
    var n, k := |ring|, idx + i;
    assert Map(Owner, Rotated(ring, idx))[i] == Owner(Rotated(ring, idx)[i]);
    if k < n {
      Wraps(k, 0, n);
      assert Rotated(ring, idx)[i] == ring[k];
    } else {
      Wraps(k, 1, n);
      assert k % n == k - n;
      assert Rotated(ring, idx)[i] == ring[..idx][k - n] == ring[k - n];
    }
  }

  lemma Wraps(k: nat, laps: nat, n: nat)
    requires laps <= 1 && laps * n <= k < (laps + 1) * n
    ensures k % n == k - laps * n
  {}

  lemma WalkMembers(ring: seq<RingNode>, idx: nat, i: nat, test: JsString -> bool)
    requires idx < |ring| && i <= |ring|
    ensures var out := Distinct(Filter(Map(Owner, Rotated(ring, idx))[..i], test));
      NoDuplicates(out) && forall id :: id in out ==> test(id) && id in Map(Owner, ring)
  {
    var walk := Map(Owner, Rotated(ring, idx));
    DistinctHasNoDuplicates(Filter(walk[..i], test));
    forall id | id in Distinct(Filter(walk[..i], test)) ensures test(id) && id in Map(Owner, ring) {
      DistinctMember(Filter(walk[..i], test), id);
      FilterMember(walk[..i], test, id);
      var k :| 0 <= k < i && walk[k] == id;
      assert Owner(Rotated(ring, idx)[k]) == id;
      assert Rotated(ring, idx)[k] in ring;
      MapMember(Owner, ring, id);
    }
  }

  lemma WalkStarts(ring: seq<RingNode>, idx: nat, test: JsString -> bool)
    requires idx <= |ring|
    ensures var walk := Map(Owner, Rotated(ring, idx));
      |walk| == |ring| && Distinct(Filter(walk[..0], test)) == []
  {}

  lemma WalkStep(walk: seq<JsString>, i: nat, test: JsString -> bool)
    requires i < |walk|
    ensures var out := Distinct(Filter(walk[..i], test));
      Distinct(Filter(walk[..i + 1], test))
        == if test(walk[i]) && walk[i] !in walk[..i] then out + [walk[i]] else out
  {
    assert walk[..i + 1] == walk[..i] + [walk[i]];
    FilterSnoc(walk[..i], walk[i], test);
    FilterMember(walk[..i], test, walk[i]);
    if test(walk[i]) {
      DistinctSnoc(Filter(walk[..i], test), walk[i]);
      DistinctMember(Filter(walk[..i], test), walk[i]);
    }
  }

  lemma WalkStops(walk: seq<JsString>, i: nat, test: JsString -> bool, count: int)
    requires i <= |walk|
    requires var out := Distinct(Filter(walk[..i], test));
      (out == [] || |out| <= count) && (i == |walk| || |out| >= count)
    ensures Distinct(Filter(walk[..i], test)) == Take(Distinct(Filter(walk, test)), count)
  {
    assert walk == walk[..i] + walk[i..];
    FilterAppend(walk[..i], walk[i..], test);
    DistinctPrefix(Filter(walk[..i], test), Filter(walk[i..], test));
    assert i == |walk| ==> walk[..i] == walk;
  }

  // ---- theorems ----

  /** The candidates are the first `count` of the distinct live workers on the ring. */
  lemma CandidatesMeaning(ring: seq<RingNode>, key: JsString, count: int, alive: JsString -> bool)
    ensures var all := Preference(ring, key, alive);
      && NoDuplicates(all)
      && (forall id :: id in all <==> id in Map(Owner, ring) && alive(id))
      && Candidates(ring, key, count, alive) <= all
      && |Candidates(ring, key, count, alive)|
           == if count <= 0 then 0 else if |all| <= count then |all| else count
  {
    var nodes := Clockwise(ring, Hash(key));
    var owners := Map(Owner, nodes);
    DistinctHasNoDuplicates(Filter(owners, alive));
    forall id ensures id in Preference(ring, key, alive) <==> id in Map(Owner, ring) && alive(id) {
      DistinctMember(Filter(owners, alive), id);
      FilterMember(owners, alive, id);
      ClockwiseOwners(ring, Hash(key), id);
    }
  }

  lemma ClockwiseOwners(ring: seq<RingNode>, target: int, id: JsString)
    ensures id in Map(Owner, Clockwise(ring, target)) <==> id in Map(Owner, ring)
  {
    var nodes := Clockwise(ring, target);
    MapMember(Owner, ring, id);
    MapMember(Owner, nodes, id);
    forall node: RingNode ensures node in nodes <==> node in ring {
      FilterMember(ring, AtOrAbove(target), node);
      FilterMember(ring, Below(target), node);
    }
    if i :| 0 <= i < |ring| && Owner(ring[i]) == id {
      assert ring[i] in nodes;
    }
    if i :| 0 <= i < |nodes| && Owner(nodes[i]) == id {
      assert nodes[i] in ring;
    }
  }

  function EntryId(entry: Entry): JsString { entry.id }
  function OwnedBy(keep: JsString -> bool): RingNode -> bool { Precompose(Owner, keep) }
  function EntryOf(keep: JsString -> bool): Entry -> bool { Precompose(EntryId, keep) }

  lemma {:induction false} FirstNodesOwned(id: JsString, count: nat, keep: JsString -> bool)
    ensures Filter(FirstNodes(id, count), OwnedBy(keep)) == if keep(id) then FirstNodes(id, count) else []
  {
    hide Hash, VnodeKey;
    if count != 0 {
      var node := RingNode(Hash(VnodeKey(id, count - 1)), id);
      FirstNodesOwned(id, count - 1, keep);
      FilterSnoc(FirstNodes(id, count - 1), node, OwnedBy(keep));
      assert OwnedBy(keep)(node) == keep(Owner(node));
    }
  }

  lemma {:induction false} NodesOfKeptEntries(entries: seq<Entry>, vnodes: int, keep: JsString -> bool)
    ensures Filter(Nodes(entries, vnodes), OwnedBy(keep)) == Nodes(Filter(entries, EntryOf(keep)), vnodes)
  {
    hide Hash, VnodeKey, VnodeCount;
    if entries != [] {
      var front, last := entries[..|entries| - 1], entries[|entries| - 1];
      NodesOfKeptEntries(front, vnodes, keep);
      FilterAppend(Nodes(front, vnodes), FirstNodes(last.id, VnodeCount(last, vnodes)), OwnedBy(keep));
      FirstNodesOwned(last.id, VnodeCount(last, vnodes), keep);
      var kept := Filter(front, EntryOf(keep));
      assert EntryOf(keep)(last) == keep(EntryId(last));
      if keep(last.id) {
        assert (kept + [last])[..|kept + [last]| - 1] == kept;
      }
    }
  }

  /** A ring built from the kept entries is the full ring with the other points removed. */
  lemma RingOfKeptEntries(entries: seq<Entry>, vnodes: int, keep: JsString -> bool)
    ensures Ring(Filter(entries, EntryOf(keep)), vnodes) == Filter(Ring(entries, vnodes), OwnedBy(keep))
  {
    FilterSort(Nodes(entries, vnodes), Point, OwnedBy(keep));
    NodesOfKeptEntries(entries, vnodes, keep);
  }

  lemma ClockwiseFilter(ring: seq<RingNode>, target: int, p: RingNode -> bool)
    ensures Clockwise(Filter(ring, p), target) == Filter(Clockwise(ring, target), p)
  {
    FilterCommutes(ring, AtOrAbove(target), p);
    FilterCommutes(ring, Below(target), p);
    FilterAppend(Filter(ring, AtOrAbove(target)), Filter(ring, Below(target)), p);
  }

  /** Removing points from the ring filters the preference list. */
  lemma PreferenceFilter(ring: seq<RingNode>, key: JsString, keep: JsString -> bool)
    ensures Preference(Filter(ring, OwnedBy(keep)), key, Anyone()) == Preference(ring, key, keep)
  {
    var nodes := Clockwise(ring, Hash(key));
    ClockwiseFilter(ring, Hash(key), OwnedBy(keep));
    FilterMap(nodes, Owner, keep);
    FilterAll(Map(Owner, Filter(nodes, OwnedBy(keep))), Anyone());
  }

  lemma PreferenceOfAll(ring: seq<RingNode>, key: JsString, keep: JsString -> bool)
    ensures Preference(ring, key, keep) == Filter(Preference(ring, key, Anyone()), keep)
  {
    var owners := Map(Owner, Clockwise(ring, Hash(key)));
    FilterAll(owners, Anyone());
    DistinctFilter(owners, keep);
  }

  /** Filtering dead workers during the walk gives the list of a ring built without them. */
  lemma FilteringEqualsRebuilding(entries: seq<Entry>, vnodes: int, key: JsString, count: int,
                                  alive: JsString -> bool)
    ensures Candidates(Ring(entries, vnodes), key, count, alive)
         == Candidates(Ring(Filter(entries, EntryOf(alive)), vnodes), key, count, Anyone())
  {
    RingOfKeptEntries(entries, vnodes, alive);
    PreferenceFilter(Ring(entries, vnodes), key, alive);
  }

  /** Removing worker w keeps the order of the other candidates, adds at most one worker at
      the end, and changes nothing for keys that did not have w as a candidate. */
  lemma MinimalDisruption(entries: seq<Entry>, vnodes: int, key: JsString, count: int, w: JsString)
    ensures var before := Candidates(Ring(entries, vnodes), key, count, Anyone());
      var after := Candidates(Ring(Filter(entries, EntryOf(Except(w))), vnodes), key, count, Anyone());
      && Filter(before, Except(w)) <= after
      && |after| <= |Filter(before, Except(w))| + 1
      && w !in after
      && (w !in before ==> after == before)
  {
    var all := Preference(Ring(entries, vnodes), key, Anyone());
    FilteringEqualsRebuilding(entries, vnodes, key, count, Except(w));
    PreferenceOfAll(Ring(entries, vnodes), key, Except(w));
    CandidatesMeaning(Ring(entries, vnodes), key, count, Anyone());
    TakeWithout(all, w, count);
  }

  lemma TakeWithout(all: seq<JsString>, w: JsString, count: int)
    requires NoDuplicates(all)
    ensures var before, after := Take(all, count), Take(Filter(all, Except(w)), count);
      && Filter(before, Except(w)) <= after
      && |after| <= |Filter(before, Except(w))| + 1
      && w !in after
      && (w !in before ==> after == before)
  {
    hide Filter, Hash;
    var before := Take(all, count);
    FilterOutOne(all, w, Except(w));
    FilterMember(all, Except(w), w);
    FilterOutOne(before, w, Except(w));
    if 0 < count < |all| {
      FilterPrefix(all, count, Except(w));
    }
  }
}
