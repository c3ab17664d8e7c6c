// Arbitrary precision integers: a tagged word for values of 63 bits, else a
// sign and limbs in the heap.  The words are 64 bits wide.

module IntInf {
  const WORD: nat := 0x1_0000_0000_0000_0000
  const HIGH_BIT: nat := 0x8000_0000_0000_0000
  const SMALL: nat := 0x4000_0000_0000_0000

  // Bytes of counter, length and header, and of the sign limb.
  const METADATA_BYTES: nat := 24
  const LIMB_BYTES: nat := 8

  datatype Bignum = Bignum(length: nat, isneg: bool, limbs: seq<nat>)

  // The GNU MP view of a number: signed limb count and limbs.
  datatype Mpz = Mpz(size: int, limbs: seq<nat>)

  // ------------------------------------------------------------------- limbs

  predicate Limbs(l: seq<nat>) { forall i :: 0 <= i < |l| ==> l[i] < WORD }

  // Least significant limb first.
  function LimbsValue(l: seq<nat>): nat {
    if l == [] then 0 else l[0] + WORD * LimbsValue(l[1..])
  }

  // No leading zero limb.
  predicate Trimmed(l: seq<nat>) { Limbs(l) && (l == [] || l[|l| - 1] != 0) }

  function ToLimbs(n: nat): seq<nat> {
    if n == 0 then [] else [n % WORD] + ToLimbs(n / WORD)
  }

  lemma {:induction false} ToLimbsTrimmed(n: nat)
    ensures Trimmed(ToLimbs(n)) && LimbsValue(ToLimbs(n)) == n && (ToLimbs(n) == [] <==> n == 0)
  {
    if n > 0 {
      ToLimbsTrimmed(n / WORD);
      assert ToLimbs(n)[1..] == ToLimbs(n / WORD);
    }
  }

  lemma TrimmedRest(l: seq<nat>)
    requires Trimmed(l) && l != []
    ensures Trimmed(l[1..]) && l[0] < WORD && LimbsValue(l) == l[0] + WORD * LimbsValue(l[1..])
  {
  }

  lemma {:induction false} TrimmedPositive(l: seq<nat>)
    requires Trimmed(l) && l != []
    ensures LimbsValue(l) > 0 && (|l| > 1 <==> LimbsValue(l) >= WORD)
  {
    TrimmedRest(l);
    if |l| > 1 {
      TrimmedPositive(l[1..]);
    } else {
      assert l[1..] == [];
    }
  }

  // Trimmed limbs are determined by their value.
  lemma {:induction false} LimbsUnique(a: seq<nat>, b: seq<nat>)
    requires Trimmed(a) && Trimmed(b) && LimbsValue(a) == LimbsValue(b)
    ensures a == b
  {
    if a == [] {
      if b != [] { TrimmedPositive(b); }
    } else if b == [] {
      TrimmedPositive(a);
    } else {
      TrimmedRest(a);
      TrimmedRest(b);
      SameParts(a[0], LimbsValue(a[1..]), b[0], LimbsValue(b[1..]));
      LimbsUnique(a[1..], b[1..]);
      assert a == [a[0]] + a[1..] && b == [b[0]] + b[1..];
    }
  }

  lemma SameParts(r: nat, q: nat, r': nat, q': nat)
    requires r < WORD && r' < WORD && r + WORD * q == r' + WORD * q'
    ensures r == r' && q == q'
  {
  }

  // ------------------------------------------------------------ represented values

  predicate IsSmall(arg: nat) { arg % 2 == 1 }

  // A word read as a signed number.
  function Signed(w: nat): int { if w < HIGH_BIT then w else w - WORD }

  function BignumValue(b: Bignum): int {
    if b.isneg then 0 - LimbsValue(b.limbs) else LimbsValue(b.limbs)
  }

  predicate InSmallRange(v: int) { 0 - SMALL <= v < SMALL }

  // What a tagged word or a pointer stands for.
  function Value(bignums: map<nat, Bignum>, arg: nat): int {
    if IsSmall(arg) then (Signed(arg) - 1) / 2
    else if arg in bignums then BignumValue(bignums[arg])
    else 0
  }

  // Representations that the runtime makes: a bignum never holds a small value.
  predicate Canonical(bignums: map<nat, Bignum>, arg: nat) {
    && arg < WORD
    && (!IsSmall(arg) ==>
          && arg in bignums && Trimmed(bignums[arg].limbs) && bignums[arg].limbs != []
          && bignums[arg].length == |bignums[arg].limbs| + 1
          && !InSmallRange(BignumValue(bignums[arg])))
  }

  function MpzValue(z: Mpz): int { if z.size < 0 then 0 - LimbsValue(z.limbs) else LimbsValue(z.limbs) }

  predicate MpzOk(z: Mpz) { Trimmed(z.limbs) && (z.size == |z.limbs| || z.size == -|z.limbs|) }

  // Equal values have equal representations: the same word if small, and if not,
  // a sign and limbs that agree.
  lemma OneRepresentation(bignums: map<nat, Bignum>, a: nat, b: nat)
    requires Canonical(bignums, a) && Canonical(bignums, b)
    ensures IsSmall(a) <==> InSmallRange(Value(bignums, a))
    ensures IsSmall(a) ==> (a == b <==> Value(bignums, a) == Value(bignums, b))
    ensures !IsSmall(a) ==> (Value(bignums, a) == Value(bignums, b) <==> !IsSmall(b) && bignums[a] == bignums[b])
  {
    SmallIs(bignums, a);
    SmallIs(bignums, b);
    if !IsSmall(a) && !IsSmall(b) && Value(bignums, a) == Value(bignums, b) {
      TrimmedPositive(bignums[a].limbs);
      TrimmedPositive(bignums[b].limbs);
      LimbsUnique(bignums[a].limbs, bignums[b].limbs);
    }
  }

  lemma SmallIs(bignums: map<nat, Bignum>, arg: nat)
    requires Canonical(bignums, arg)
    ensures IsSmall(arg) <==> InSmallRange(Value(bignums, arg))
    ensures IsSmall(arg) ==> arg == (2 * Value(bignums, arg) + 1) % WORD
  {
    if IsSmall(arg) {
      assert Signed(arg) == 2 * ((Signed(arg) - 1) / 2) + 1;
    }
  }

  // Every value has a representation, the tagged word exactly for small values.
  lemma EveryValue(v: int)
    ensures InSmallRange(v) ==> Canonical(map[], (2 * v + 1) % WORD) && Value(map[], (2 * v + 1) % WORD) == v
    ensures !InSmallRange(v) ==>
      var b := Bignum(|ToLimbs(Abs(v))| + 1, v < 0, ToLimbs(Abs(v)));
      Canonical(map[24 := b], 24) && Value(map[24 := b], 24) == v
  {
    ToLimbsTrimmed(Abs(v));
    if InSmallRange(v) {
      var w := (2 * v + 1) % WORD;
      if v >= 0 { assert w == 2 * v + 1; } else { assert w == 2 * v + 1 + WORD; }
    }
  }

  function Abs(v: int): nat { if v < 0 then -v else v }

  class IntInfState {
    var frontier: nat
    var limitPlusSlop: nat
    // The bignums in the heap, by their pointers.
    var bignums: map<nat, Bignum>

    constructor (frontier: nat, limitPlusSlop: nat)
      requires frontier % 8 == 0 && frontier <= limitPlusSlop < HIGH_BIT
      ensures Valid() && bignums == map[]
    {
      this.frontier, this.limitPlusSlop, bignums := frontier, limitPlusSlop, map[];
    }

    // All bignums lie below the frontier.
    predicate Valid()
      reads this
    {
      && frontier % 8 == 0 && frontier <= limitPlusSlop < HIGH_BIT
      && (forall p :: p in bignums ==>
         p % 8 == 0 && p + LIMB_BYTES + LIMB_BYTES * |bignums[p].limbs| <= frontier && Canonical(bignums, p))
    }

    lemma BelowFrontier()
      requires Valid()
      ensures frontier + METADATA_BYTES !in bignums
    {
    }

    // fillIntInfArg: GNU MP gets the value that the argument stands for.
    method FillIntInfArg(arg0: nat) returns (res: Mpz)
      requires Canonical(bignums, arg0)
      ensures MpzOk(res) && MpzValue(res) == Value(bignums, arg0)
    {
      var arg := arg0;
      if IsSmall(arg) {
        if arg == 1 {
          res := Mpz(0, []);
        } else {
          var neg := arg >= HIGH_BIT;
          if neg {
            arg := (WORD - (arg / 2 + HIGH_BIT)) % WORD;
          } else {
            arg := arg / 2;
          }
          OneLimb(arg);
          res := Mpz(if neg then -1 else 1, [arg]);
        }
      } else {
        var bp := bignums[arg];
        var alloc := bp.length - 1;
        res := Mpz(if bp.isneg then -alloc else alloc, bp.limbs);
      }
    }

    // finiIntInfRes: a tagged word exactly for small values, with the frontier
    // rolled back, and else a new bignum at the frontier.
    method FiniIntInfRes(res: Mpz, bytes: nat) returns (ans: nat)
      requires Valid() && MpzOk(res) && bytes <= limitPlusSlop - frontier
      requires METADATA_BYTES + LIMB_BYTES + LIMB_BYTES * |res.limbs| <= bytes
      modifies this
      ensures Valid() && Canonical(bignums, ans) && Value(bignums, ans) == MpzValue(res)
      ensures IsSmall(ans) <==> InSmallRange(MpzValue(res))
      ensures IsSmall(ans) ==> unchanged(this)
      ensures !IsSmall(ans) ==> ans == old(frontier) + METADATA_BYTES && bignums == old(bignums)[ans := bignums[ans]]
      ensures forall p :: p in old(bignums) ==> p in bignums && bignums[p] == old(bignums)[p]
      ensures limitPlusSlop == old(limitPlusSlop) && frontier <= old(frontier) + bytes
      // the words asked for and not needed are given back
      ensures !IsSmall(ans) ==> frontier == ans + LIMB_BYTES + LIMB_BYTES * |bignums[ans].limbs|
    {
      hide LimbsValue, Trimmed, Signed, Canonical;
      MpzIs(res);
      ZeroIs(bignums);
      var size, isneg := res.size, false;
      if size < 0 {
        isneg := true;
        size := -size;
      }
      if size == 0 { return 1; }
      if size <= 1 {
        Tag(bignums, res);
        var val := res.limbs[0];
        if isneg {
          ans := (WORD - val) % WORD;
          val := val - 1;
        } else {
          ans := val;
        }
        if val < SMALL {
          ans := ans * 2 % WORD + 1;
          return;
        }
      }
      NotSmall(res);
      ans := frontier + METADATA_BYTES;
      ghost var before := bignums;
      BelowFrontier();
      StillCanonical(before, ans, Bignum(size + 1, isneg, res.limbs));
      bignums := bignums[ans := Bignum(size + 1, isneg, res.limbs)];
      frontier := ans + LIMB_BYTES + LIMB_BYTES * size;
      assert ans !in before;
    }

    // IntInf_binop, with GNU MP computing exactly.
    method BinOp(lhs: nat, rhs: nat, bytes: nat, op: (int, int) -> int) returns (ans: nat)
      requires Valid() && Canonical(bignums, lhs) && Canonical(bignums, rhs) && bytes <= limitPlusSlop - frontier
      requires METADATA_BYTES + LIMB_BYTES +
        LIMB_BYTES * |ToLimbs(Abs(op(Value(bignums, lhs), Value(bignums, rhs))))| <= bytes
      modifies this
      ensures Valid() && Canonical(bignums, ans)
      ensures Value(bignums, ans) == op(Value(old(bignums), lhs), Value(old(bignums), rhs))
      ensures frontier == if IsSmall(ans) then old(frontier)
        else old(frontier) + METADATA_BYTES + LIMB_BYTES + LIMB_BYTES * |bignums[ans].limbs|
      ensures forall p :: p in old(bignums) ==> p in bignums && bignums[p] == old(bignums)[p]
    {
      var l := FillIntInfArg(lhs);
      var r := FillIntInfArg(rhs);
      var res := Gmp(op(MpzValue(l), MpzValue(r)));
      ans := FiniIntInfRes(res, bytes);
    }

    // IntInf_unop.
    method UnOp(arg: nat, bytes: nat, op: int -> int) returns (ans: nat)
      requires Valid() && Canonical(bignums, arg) && bytes <= limitPlusSlop - frontier
      requires METADATA_BYTES + LIMB_BYTES + LIMB_BYTES * |ToLimbs(Abs(op(Value(bignums, arg))))| <= bytes
      modifies this
      ensures Valid() && Canonical(bignums, ans) && Value(bignums, ans) == op(Value(old(bignums), arg))
      ensures frontier == if IsSmall(ans) then old(frontier)
        else old(frontier) + METADATA_BYTES + LIMB_BYTES + LIMB_BYTES * |bignums[ans].limbs|
      ensures forall p :: p in old(bignums) ==> p in bignums && bignums[p] == old(bignums)[p]
    {
      var a := FillIntInfArg(arg);
      var res := Gmp(op(MpzValue(a)));
      ans := FiniIntInfRes(res, bytes);
    }

    // IntInf_cmpop with an exact comparison.
    method CmpOp(lhs: nat, rhs: nat) returns (res: int)
      requires Canonical(bignums, lhs) && Canonical(bignums, rhs)
      ensures res == -1 || res == 0 || res == 1
      ensures res < 0 <==> Value(bignums, lhs) < Value(bignums, rhs)
      ensures res == 0 <==> Value(bignums, lhs) == Value(bignums, rhs)
    {
      var l := FillIntInfArg(lhs);
      var r := FillIntInfArg(rhs);
      var cmp := MpzValue(l) - MpzValue(r);
      if cmp < 0 { return -1; }
      if cmp > 0 { return 1; }
      return 0;
    }
  }

  lemma MpzIs(z: Mpz)
    requires MpzOk(z)
    ensures (z.size == 0 <==> z.limbs == []) && (z.size == |z.limbs| || z.size == -|z.limbs|)
    ensures MpzValue(z) == if z.size < 0 then 0 - LimbsValue(z.limbs) else LimbsValue(z.limbs)
    ensures z.size == 0 ==> MpzValue(z) == 0
  {
  }

  lemma ZeroIs(bignums: map<nat, Bignum>)
    ensures Canonical(bignums, 1) && Value(bignums, 1) == 0
  {
  }

  // The tagging arithmetic for a value of one limb.
  lemma Tag(bignums: map<nat, Bignum>, z: Mpz)
    requires MpzOk(z) && |z.limbs| == 1
    ensures 0 < z.limbs[0] < WORD && Abs(MpzValue(z)) == z.limbs[0] && (MpzValue(z) < 0 <==> z.size < 0)
    ensures z.size < 0 && z.limbs[0] - 1 < SMALL ==>
      var ans := (WORD - z.limbs[0]) % WORD * 2 % WORD + 1;
      Canonical(bignums, ans) && IsSmall(ans) && Value(bignums, ans) == MpzValue(z)
    ensures z.size >= 0 && z.limbs[0] < SMALL ==>
      var ans := z.limbs[0] * 2 % WORD + 1;
      Canonical(bignums, ans) && IsSmall(ans) && Value(bignums, ans) == MpzValue(z)
  {
    assert z.limbs == [z.limbs[0]];
    OneLimb(z.limbs[0]);
  }

  // A new bignum leaves the others as they are.
  lemma StillCanonical(before: map<nat, Bignum>, at: nat, b: Bignum)
    requires at !in before && at % 2 == 0 && at < WORD
    requires Trimmed(b.limbs) && b.limbs != [] && b.length == |b.limbs| + 1 && !InSmallRange(BignumValue(b))
    ensures Canonical(before[at := b], at) && Value(before[at := b], at) == BignumValue(b)
    ensures forall p :: p in before && Canonical(before, p) ==> Canonical(before[at := b], p)
  {
    hide Trimmed, LimbsValue;
  }

  // A result of GNU MP.
  method Gmp(v: int) returns (z: Mpz)
    ensures MpzOk(z) && MpzValue(z) == v && z.limbs == ToLimbs(Abs(v))
  {
    ToLimbsTrimmed(Abs(v));
    var limbs := ToLimbs(Abs(v));
    z := Mpz(if v < 0 then -|limbs| else |limbs|, limbs);
  }

  lemma OneLimb(w: nat)
    ensures LimbsValue([w]) == w
  {
    assert [w][1..] == [];
  }

  lemma NotSmall(z: Mpz)
    requires MpzOk(z) && z.limbs != []
    requires |z.limbs| <= 1 ==> if z.size < 0 then z.limbs[0] > SMALL else z.limbs[0] >= SMALL
    ensures !InSmallRange(MpzValue(z))
  {
    TrimmedPositive(z.limbs);
    if |z.limbs| == 1 {
      assert z.limbs == [z.limbs[0]];
      OneLimb(z.limbs[0]);
    }
  }
}
