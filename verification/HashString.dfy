/** The 32-bit placement hash: FNV-1a over UTF-16 units with the fmix32 finalizer. */
module HashString {

  /** A host string is a sequence of UTF-16 code units. */
  type JsString = seq<bv16>

  const FNV_OFFSET: bv32 := 0x811c9dc5

  function MulFnv(x: bv32): bv32 { x * 0x01000193 }
  function MulFirst(x: bv32): bv32 { x * 0x85ebca6b }
  function MulSecond(x: bv32): bv32 { x * 0xc2b2ae35 }
  function ShiftSixteen(x: bv32): bv32 { x ^ (x >> 16) }
  function ShiftThirteen(x: bv32): bv32 { x ^ (x >> 13) }
  function Mix(h: bv32, unit: bv16): bv32 { h ^ (unit as bv32) }

  function FnvStep(h: bv32, unit: bv16): bv32 {
    MulFnv(Mix(h, unit))
  }

  function FnvFrom(h: bv32, input: JsString): bv32 {
    if input == [] then h else FnvStep(FnvFrom(h, input[..|input| - 1]), input[|input| - 1])
  }

  function Finalize(h: bv32): bv32 {
    ShiftSixteen(MulSecond(ShiftThirteen(MulFirst(ShiftSixteen(h)))))
  }

  // The inverses modulo 2^32 of the steps above.
  function UnmulFnv(x: bv32): bv32 { x * 0x359c449b }
  function UnmulFirst(x: bv32): bv32 { x * 0xa5cb9243 }
  function UnmulSecond(x: bv32): bv32 { x * 0x7ed1b41d }
  function UnshiftSixteen(x: bv32): bv32 { x ^ (x >> 16) }
  function UnshiftThirteen(x: bv32): bv32 { x ^ (x >> 13) ^ (x >> 26) }

  /** Undoes `Finalize`. */
  function Unfinalize(h: bv32): bv32 {
    UnshiftSixteen(UnmulFirst(UnshiftThirteen(UnmulSecond(UnshiftSixteen(h)))))
  }

  function HashBits(input: JsString): bv32 {
    Finalize(FnvFrom(FNV_OFFSET, input))
  }

  /** The result as an unsigned number, which is what the final `>>> 0` makes of it. */
  function Hash(input: JsString): nat {
    HashBits(input) as nat
  }

  method ComputeHash(input: JsString) returns (result: nat)
    ensures result == Hash(input)
  {
    hide Mix, MulFnv, MulFirst, MulSecond, ShiftSixteen, ShiftThirteen;
    var h := FNV_OFFSET;
    var i := 0;
    while i < |input|
      invariant 0 <= i <= |input|
      invariant h == FnvFrom(FNV_OFFSET, input[..i])
    {
      assert input[..i + 1][..i] == input[..i];
      h := Mix(h, input[i]);
      h := MulFnv(h);
      i := i + 1;
    }
    assert input[..|input|] == input;
    h := ShiftSixteen(h);
    h := MulFirst(h);
    h := ShiftThirteen(h);
    h := MulSecond(h);
    h := ShiftSixteen(h);
    result := h as nat;
  }

  // ---- the multipliers are odd, so every step is a permutation of 32-bit values ----

  lemma FnvInverse(x: bv32)
    ensures UnmulFnv(MulFnv(x)) == x
  {
    calc {
      UnmulFnv(MulFnv(x));
      UnmulFnv(x * 0x01000193);
      (x * 0x01000193) * 0x359c449b;
      x;
    }
  }

  lemma FirstInverse(x: bv32)
    ensures UnmulFirst(MulFirst(x)) == x
    ensures MulFirst(UnmulFirst(x)) == x
  {
    calc {
      UnmulFirst(MulFirst(x));
      UnmulFirst(x * 0x85ebca6b);
      (x * 0x85ebca6b) * 0xa5cb9243;
      x;
      (x * 0xa5cb9243) * 0x85ebca6b;
      MulFirst(x * 0xa5cb9243);
      MulFirst(UnmulFirst(x));
    }
  }

  lemma SecondInverse(x: bv32)
    ensures UnmulSecond(MulSecond(x)) == x
    ensures MulSecond(UnmulSecond(x)) == x
  {
    calc {
      UnmulSecond(MulSecond(x));
      UnmulSecond(x * 0xc2b2ae35);
      (x * 0xc2b2ae35) * 0x7ed1b41d;
      x;
      (x * 0x7ed1b41d) * 0xc2b2ae35;
      MulSecond(x * 0x7ed1b41d);
      MulSecond(UnmulSecond(x));
    }
  }

  lemma SixteenInverse(x: bv32)
    ensures UnshiftSixteen(ShiftSixteen(x)) == x
    ensures ShiftSixteen(UnshiftSixteen(x)) == x
  {
    calc {
      UnshiftSixteen(ShiftSixteen(x));
      UnshiftSixteen(x ^ (x >> 16));
      (x ^ (x >> 16)) ^ ((x ^ (x >> 16)) >> 16);
      ShiftSixteen(x ^ (x >> 16));
      ShiftSixteen(UnshiftSixteen(x));
    }
  }

  lemma ThirteenInverse(x: bv32)
    ensures UnshiftThirteen(ShiftThirteen(x)) == x
    ensures ShiftThirteen(UnshiftThirteen(x)) == x
  {
    calc {
      UnshiftThirteen(ShiftThirteen(x));
      UnshiftThirteen(x ^ (x >> 13));
      (x ^ (x >> 13)) ^ ((x ^ (x >> 13)) >> 13) ^ ((x ^ (x >> 13)) >> 26);
      x;
      (x ^ (x >> 13) ^ (x >> 26)) ^ ((x ^ (x >> 13) ^ (x >> 26)) >> 13);
      ShiftThirteen(x ^ (x >> 13) ^ (x >> 26));
      ShiftThirteen(UnshiftThirteen(x));
    }
  }

  lemma MixInjective(h: bv32, u: bv16, v: bv16, g: bv32)
    ensures Mix(h, u) == Mix(h, v) ==> u == v
    ensures Mix(h, u) == Mix(g, u) ==> h == g
  {}

  /** The finalizer is a permutation of the 32-bit values. */
  lemma FinalizeIsPermutation(h: bv32)
    ensures Unfinalize(Finalize(h)) == h
    ensures Finalize(Unfinalize(h)) == h
  {
    hide MulFirst, MulSecond, ShiftSixteen, ShiftThirteen, UnmulFirst, UnmulSecond, UnshiftThirteen, UnshiftSixteen;
    SixteenInverse(h);
    FirstInverse(ShiftSixteen(h));
    ThirteenInverse(MulFirst(ShiftSixteen(h)));
    SecondInverse(ShiftThirteen(MulFirst(ShiftSixteen(h))));
    SixteenInverse(MulSecond(ShiftThirteen(MulFirst(ShiftSixteen(h)))));

    SecondInverse(UnshiftSixteen(h));
    ThirteenInverse(UnmulSecond(UnshiftSixteen(h)));
    FirstInverse(UnshiftThirteen(UnmulSecond(UnshiftSixteen(h))));
    SixteenInverse(UnmulFirst(UnshiftThirteen(UnmulSecond(UnshiftSixteen(h)))));
  }

  /** The published FNV-1a values of the empty text and of "a", and what the finalizer makes of them. */
  lemma KnownValues()
    ensures FnvFrom(FNV_OFFSET, []) == 0x811c9dc5 && HashBits([]) == 0xab3e7c0b
    ensures FnvFrom(FNV_OFFSET, [0x61]) == 0xe40c292c && HashBits([0x61]) == 0x1a80b1b3
  {
    assert [0x61 as bv16][..0] == [];
    assert FnvFrom(FNV_OFFSET, [0x61]) == FnvStep(FNV_OFFSET, 0x61);
  }

  /** One FNV step separates different states and, in one state, different units. */
  lemma FnvStepInjective(h1: bv32, u1: bv16, h2: bv32, u2: bv16)
    requires FnvStep(h1, u1) == FnvStep(h2, u2)
    ensures u1 == u2 ==> h1 == h2
    ensures h1 == h2 ==> u1 == u2
  {
    hide MulFnv, UnmulFnv, Mix;
    FnvInverse(Mix(h1, u1));
    FnvInverse(Mix(h2, u2));
    MixInjective(h1, u1, u2, h2);
  }

  lemma {:induction false} FnvFromAppend(h: bv32, xs: JsString, ys: JsString)
    ensures FnvFrom(h, xs + ys) == FnvFrom(FnvFrom(h, xs), ys)
  {
    if ys == [] {
      assert xs + ys == xs;
    } else {
      FnvFromAppend(h, xs, ys[..|ys| - 1]);
      assert (xs + ys)[..|xs + ys| - 1] == xs + ys[..|ys| - 1];
    }
  }

  lemma {:induction false} FnvFromInjective(h1: bv32, h2: bv32, xs: JsString)
    requires FnvFrom(h1, xs) == FnvFrom(h2, xs)
    ensures h1 == h2
  {
    if xs != [] {
      var zs, u := xs[..|xs| - 1], xs[|xs| - 1];
      FnvStepInjective(FnvFrom(h1, zs), u, FnvFrom(h2, zs), u);
      FnvFromInjective(h1, h2, zs);
    }
  }

  lemma UnsignedIsInjective(x: bv32, y: bv32)
    requires x as nat == y as nat
    ensures x == y
  {
    assert (x as nat) as bv32 == x;
    assert (y as nat) as bv32 == y;
  }

  /** With a common suffix removed, a collision is a collision of the FNV states. */
  lemma CollisionIsPrefixCollision(xs: JsString, ys: JsString, suffix: JsString)
    ensures Hash(xs + suffix) == Hash(ys + suffix)
       <==> FnvFrom(FNV_OFFSET, xs) == FnvFrom(FNV_OFFSET, ys)
  {
    FnvFromAppend(FNV_OFFSET, xs, suffix);
    FnvFromAppend(FNV_OFFSET, ys, suffix);
    if Hash(xs + suffix) == Hash(ys + suffix) {
      UnsignedIsInjective(HashBits(xs + suffix), HashBits(ys + suffix));
      FinalizeIsPermutation(FnvFrom(FNV_OFFSET, xs + suffix));
      FinalizeIsPermutation(FnvFrom(FNV_OFFSET, ys + suffix));
      FnvFromInjective(FnvFrom(FNV_OFFSET, xs), FnvFrom(FNV_OFFSET, ys), suffix);
    }
  }

  /** Strings of one length that differ in exactly one unit never collide. */
  lemma OneUnitNeverCollides(xs: JsString, ys: JsString, k: nat)
    requires |xs| == |ys| && k < |xs| && xs[k] != ys[k]
    requires forall i :: 0 <= i < |xs| && i != k ==> xs[i] == ys[i]
    ensures Hash(xs) != Hash(ys)
  {
    var front, suffix := xs[..k], xs[k + 1..];
    assert xs == xs[..k + 1] + suffix && ys == ys[..k + 1] + suffix;
    CollisionIsPrefixCollision(xs[..k + 1], ys[..k + 1], suffix);
    assert xs[..k + 1][..k] == front && ys[..k + 1][..k] == front;
    var h := FnvFrom(FNV_OFFSET, front);
    if FnvStep(h, xs[k]) == FnvStep(h, ys[k]) {
      FnvStepInjective(h, xs[k], h, ys[k]);
    }
  }
}
