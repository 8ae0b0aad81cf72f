/**
  Subtracting address blocks: the prefix arithmetic that halves a block until
  an excluded block is cut out. Addresses are `w` bits wide, 32 or 128. A block
  may have bits set after its prefix, as the source allows.
*/
module IpRanges {
  import opened Net

  datatype Block = Block(addr: nat, len: nat)

  function Size(w: nat, b: Block): (s: nat)
    requires b.len <= w
    ensures s > 0
  {
    Pow2(w - b.len)
  }

  /** Both addresses have the block's prefix. */
  predicate In(w: nat, b: Block, a: nat)
    requires b.len <= w
  {
    a / Size(w, b) == b.addr / Size(w, b)
  }

  /** The bits after the prefix, as a number. */
  function HostBits(w: nat, b: Block): nat
    requires b.len <= w
  {
    b.addr % Size(w, b)
  }

  predicate Fit(w: nat, bs: seq<Block>) {
    forall b <- bs :: b.len <= w
  }

  ghost predicate Covered(w: nat, bs: seq<Block>, a: nat)
    requires Fit(w, bs)
  {
    exists b <- bs :: In(w, b, a)
  }

  predicate SubnetOf(w: nat, b: Block, c: Block)
    requires c.len <= w
  {
    b.len >= c.len && In(w, c, b.addr)
  }

  predicate Overlaps(w: nat, b: Block, c: Block)
    requires b.len <= w && c.len <= w
  {
    if b.len < c.len then In(w, b, c.addr) else In(w, c, b.addr)
  }

  /** The address with a bit set. */
  function SetBit(addr: nat, bit: nat): nat {
    if addr / Pow2(bit) % 2 == 0 then addr + Pow2(bit) else addr
  }

  /** The two halves of a block, or the block itself if it is a single address. */
  function Subnets(w: nat, b: Block): seq<Block>
    requires b.len <= w
  {
    if b.len == w then [b]
    else [Block(b.addr, b.len + 1), Block(SetBit(b.addr, w - b.len - 1), b.len + 1)]
  }

  /** A block is cut when another one lies in it. */
  predicate IsCut(w: nat, b: Block, ip: Block)
    requires b.len <= w
  {
    SubnetOf(w, ip, b) && ip != b
  }

  /** The walk down the halves from a block to the one to cut out; None when it never ends. */
  function Cut(w: nat, cur: Block, ip: Block): Option<seq<Block>>
    requires cur.len < w && ip.len <= w
    decreases w - cur.len
  {
    var sn := Subnets(w, cur);
    if sn[0] == ip then Some([sn[1]])
    else if sn[1] == ip then Some([sn[0]])
    else if SubnetOf(w, ip, sn[0]) then Prepend([sn[1]], Cut(w, sn[0], ip))
    else if SubnetOf(w, ip, sn[1]) then Prepend([sn[0]], Cut(w, sn[1], ip))
    else None
  }

  function Prepend(parts: seq<Block>, rest: Option<seq<Block>>): Option<seq<Block>> {
    if rest.None? then None else Some(parts + rest.value)
  }

  /** The parts cover the addresses of the block that the excluded one does not have. */
  ghost predicate IsDifference(w: nat, parts: Option<seq<Block>>, b: Block, ip: Block)
    requires b.len <= w && ip.len <= w
  {
    && parts.Some? && Fit(w, parts.value)
    && forall a: nat :: Covered(w, parts.value, a) <==> In(w, b, a) && !In(w, ip, a)
  }

  // ----- Prefixes -----

  lemma Quotient(a: nat, s: nat, q: nat, r: nat)
    requires a == q * s + r && r < s
    ensures a / s == q && a % s == r
  {
    var d := a / s;
    assert a == d * s + a % s;
    if d < q {
      MulMono(d + 1, q, s);
    } else if q < d {
      MulMono(q + 1, d, s);
    }
  }

  lemma MulMono(x: nat, y: nat, s: nat)
    requires x <= y
    ensures x * s <= y * s
  {
  }

  lemma DivDiv(x: nat, k: nat, s: nat)
    requires k > 0 && s > 0 && k * s > 0
    ensures x / (k * s) == x / s / k
  {
    Divided(x, s);
    Divided(x / s, k);
    Compose(x, s, k, x / s / k, x / s % k, x % s);
  }

  lemma Divided(x: nat, s: nat)
    requires s > 0
    ensures x == x / s * s + x % s && 0 <= x % s < s
  {
  }

  lemma Compose(x: nat, s: nat, k: nat, p: nat, t: nat, r: nat)
    requires x == (p * k + t) * s + r && t < k && r < s && k * s > 0
    ensures x / (k * s) == p
  {
    MulMono(t + 1, k, s);
    Regroup(p, k, t, s);
    Regroup(t, 1, 1, s);
    Quotient(x, k * s, p, t * s + r);
  }

  lemma Regroup(p: nat, k: nat, t: nat, s: nat)
    ensures (p * k + t) * s == p * (k * s) + t * s
  {
  }

  /** Division by half a divisor, from a division written out. */
  lemma AtHalf(a: nat, h: nat, m: nat, q: nat, r: nat)
    requires h > 0 && m == h + h && r < m && a == q * m + r
    ensures a / h == (if r < h then 2 * q else 2 * q + 1)
    ensures a % h == (if r < h then r else r - h)
  {
    Regroup(q, 2, 0, h);
    Regroup(q, 2, 1, h);
    assert q * m == q * 2 * h;
    if r < h {
      Quotient(a, h, q * 2, r);
    } else {
      Quotient(a, h, q * 2 + 1, r - h);
    }
  }

  lemma HalfDivision(a: nat, h: nat, m: nat)
    requires h > 0 && m == h + h
    ensures a % m < h ==> a / h == 2 * (a / m) && a % h == a % m
    ensures a % m < h ==> (a + h) / h == 2 * (a / m) + 1 && (a + h) % h == a % m
    ensures a % m >= h ==> a / h == 2 * (a / m) + 1 && a / h % 2 == 1
  {
    Divided(a, m);
    AtHalf(a, h, m, a / m, a % m);
    if a % m < h {
      AtHalf(a + h, h, m, a / m, a % m + h);
    }
  }

  lemma {:induction false} Pow2Divides(m: nat, n: nat) returns (k: nat)
    requires m <= n
    ensures k > 0 && Pow2(n) == k * Pow2(m)
    decreases n - m
  {
    if m == n {
      k := 1;
    } else {
      var j := Pow2Divides(m, n - 1);
      k := 2 * j;
      assert 2 * (j * Pow2(m)) == 2 * j * Pow2(m);
    }
  }

  /** Addresses that share a prefix share every shorter one. */
  lemma ShorterPrefix(w: nat, b: Block, len: nat, a: nat)
    requires len <= b.len <= w && In(w, b, a)
    ensures In(w, Block(b.addr, len), a)
  {
    var s := Size(w, b);
    var k := Pow2Divides(w - b.len, w - len);
    DivDiv(a, k, s);
    DivDiv(b.addr, k, s);
  }

  /** Blocks that do not overlap are disjoint; of two that do, one lies within the other. */
  lemma OverlapMeaning(w: nat, b: Block, c: Block)
    requires b.len <= w && c.len <= w
    ensures !Overlaps(w, b, c) ==> forall a: nat :: !(In(w, b, a) && In(w, c, a))
    ensures Overlaps(w, b, c) && b.len < c.len ==> forall a: nat :: In(w, c, a) ==> In(w, b, a)
    ensures Overlaps(w, b, c) && b.len >= c.len ==> forall a: nat :: In(w, b, a) ==> In(w, c, a)
  {
    forall a: nat | In(w, b, a) || In(w, c, a)
      ensures !Overlaps(w, b, c) ==> !(In(w, b, a) && In(w, c, a))
      ensures Overlaps(w, b, c) && b.len < c.len && In(w, c, a) ==> In(w, b, a)
      ensures Overlaps(w, b, c) && b.len >= c.len && In(w, b, a) ==> In(w, c, a)
    {
      if b.len < c.len {
        if In(w, c, a) {
          ShorterPrefix(w, c, b.len, a);
        }
      } else if In(w, b, a) {
        ShorterPrefix(w, b, c.len, a);
      }
    }
  }

  // ----- Halving -----

  /** With the first bit after the prefix clear the halves partition the block and have its host bits. */
  lemma HalvesPartition(w: nat, b: Block)
    requires b.len < w && HostBits(w, b) < Pow2(w - b.len - 1)
    ensures var sn := Subnets(w, b);
      && HostBits(w, sn[0]) == HostBits(w, sn[1]) == HostBits(w, b)
      && forall a: nat :: (In(w, b, a) <==> In(w, sn[0], a) || In(w, sn[1], a)) &&
                          !(In(w, sn[0], a) && In(w, sn[1], a))
  {
    var h, m := Pow2(w - b.len - 1), Size(w, b);
    HalfDivision(b.addr, h, m);
    var sn := Subnets(w, b);
    assert sn[1].addr == b.addr + h;
    forall a: nat ensures (In(w, b, a) <==> In(w, sn[0], a) || In(w, sn[1], a)) &&
                          !(In(w, sn[0], a) && In(w, sn[1], a)) {
      InHalves(a, b.addr, h, m);
    }
  }

  lemma InHalves(a: nat, b: nat, h: nat, m: nat)
    requires h > 0 && m == h + h && b % m < h
    ensures (a / m == b / m <==> a / h == b / h || a / h == (b + h) / h) && b / h != (b + h) / h
  {
    HalfDivision(b, h, m);
    assert m == 2 * h;
    DivDiv(a, 2, h);
  }

  /** With that bit set both halves are the same one. */
  lemma HalvesCoincide(w: nat, b: Block)
    requires b.len < w && HostBits(w, b) >= Pow2(w - b.len - 1)
    ensures var sn := Subnets(w, b); sn[0] == sn[1]
  {
    HalfDivision(b.addr, Pow2(w - b.len - 1), Size(w, b));
  }

  // ----- Cutting one block out of another -----

  lemma CoveredOne(w: nat, b: Block, a: nat)
    requires b.len <= w
    ensures Covered(w, [b], a) <==> In(w, b, a)
  {
  }

  lemma CoveredAppend(w: nat, x: seq<Block>, y: seq<Block>, a: nat)
    requires Fit(w, x) && Fit(w, y)
    ensures Fit(w, x + y)
    ensures Covered(w, x + y, a) <==> Covered(w, x, a) || Covered(w, y, a)
  {
  }

  /** A block with the prefix and the host bits of another of its length is that block. */
  lemma SameBlock(w: nat, b: Block, c: Block)
    requires b.len == c.len <= w && In(w, c, b.addr) && HostBits(w, b) == HostBits(w, c)
    ensures b == c
  {
    var s := Size(w, b);
    assert b.addr == b.addr / s * s + b.addr % s;
    assert c.addr == c.addr / s * s + c.addr % s;
  }

  /** With equal host bits the walk ends and leaves the difference, in blocks with those host bits. */
  lemma {:induction false} CutWhenAligned(w: nat, b: Block, ip: Block)
    requires b.len < ip.len <= w && SubnetOf(w, ip, b) && HostBits(w, b) == HostBits(w, ip)
    ensures IsDifference(w, Cut(w, b, ip), b, ip) && |Cut(w, b, ip).value| == ip.len - b.len
    ensures forall p <- Cut(w, b, ip).value :: PartOf(w, p, b)
    decreases w - b.len
  {
    var sn := Subnets(w, b);
    var k := Pow2Divides(w - ip.len, w - b.len - 1);
    MulMono(1, k, Size(w, ip));
    HalvesPartition(w, b);
    var i := if In(w, sn[0], ip.addr) then 0 else 1;
    if ip.len == b.len + 1 {
      SameBlock(w, ip, sn[i]);
      var other := sn[1 - i];
      forall a: nat ensures Covered(w, [other], a) <==> In(w, other, a) {
        CoveredOne(w, other, a);
      }
    } else {
      CutWhenAligned(w, sn[i], ip);
      var rest := Cut(w, sn[i], ip).value;
      assert Cut(w, b, ip) == Some([sn[1 - i]] + rest);
      InsideHalf(w, ip, sn[i]);
      forall a: nat ensures Covered(w, [sn[1 - i]] + rest, a) <==> In(w, sn[1 - i], a) || Covered(w, rest, a) {
        CoveredAppend(w, [sn[1 - i]], rest, a);
        CoveredOne(w, sn[1 - i], a);
      }
      forall p <- rest ensures PartOf(w, p, b) {
        PartOfHalf(w, p, sn[i], b);
      }
    }
  }

  /** A longer block within a block, with its host bits. */
  predicate PartOf(w: nat, p: Block, b: Block) {
    b.len < p.len <= w && SubnetOf(w, p, b) && HostBits(w, p) == HostBits(w, b)
  }

  lemma InsideHalf(w: nat, ip: Block, half: Block)
    requires half.len <= ip.len <= w && SubnetOf(w, ip, half)
    ensures forall a: nat :: In(w, ip, a) ==> In(w, half, a)
  {
    forall a: nat | In(w, ip, a) ensures In(w, half, a) {
      ShorterPrefix(w, ip, half.len, a);
    }
  }

  lemma PartOfHalf(w: nat, p: Block, half: Block, b: Block)
    requires PartOf(w, p, half) && PartOf(w, half, b)
    ensures PartOf(w, p, b)
  {
    ShorterPrefix(w, half, b.len, p.addr);
  }

  /** Otherwise the walk never ends, or what it leaves still has the address to be cut out. */
  lemma {:induction false} CutWhenUnaligned(w: nat, b: Block, ip: Block)
    requires b.len < w && b.len <= ip.len <= w && SubnetOf(w, ip, b) && HostBits(w, b) != HostBits(w, ip)
    ensures var r := Cut(w, b, ip); r.Some? ==> Fit(w, r.value) && Covered(w, r.value, ip.addr)
    decreases w - b.len
  {
    var sn := Subnets(w, b);
    if HostBits(w, b) >= Pow2(w - b.len - 1) {
      HalvesCoincide(w, b);
      CutFits(w, b, ip);
      if Cut(w, b, ip).Some? {
        CutOfTwins(w, b, ip);
      }
    } else if b.len < ip.len {
      HalvesPartition(w, b);
      var i := if In(w, sn[0], ip.addr) then 0 else 1;
      CutWhenUnaligned(w, sn[i], ip);
      if Cut(w, sn[i], ip).Some? {
        CoveredAppend(w, [sn[1 - i]], Cut(w, sn[i], ip).value, ip.addr);
      }
    }
  }

  lemma {:induction false} CutFits(w: nat, b: Block, ip: Block)
    requires b.len < w && ip.len <= w
    ensures var r := Cut(w, b, ip); r.Some? ==> Fit(w, r.value)
    decreases w - b.len
  {
    var sn := Subnets(w, b);
    if ip !in sn {
      if SubnetOf(w, ip, sn[0]) {
        CutFits(w, sn[0], ip);
      } else if SubnetOf(w, ip, sn[1]) {
        CutFits(w, sn[1], ip);
      }
    }
  }

  lemma CutOfTwins(w: nat, b: Block, ip: Block)
    requires b.len < w && ip.len <= w && Subnets(w, b)[0] == Subnets(w, b)[1]
    requires Cut(w, b, ip).Some? && Fit(w, Cut(w, b, ip).value)
    ensures Covered(w, Cut(w, b, ip).value, ip.addr)
  {
    var half := Subnets(w, b)[0];
    assert half in Cut(w, b, ip).value;
  }

  /** The walk computes the difference exactly when the host bits of the two blocks agree. */
  lemma CutExactly(w: nat, b: Block, ip: Block)
    requires b.len <= w && ip.len <= w && IsCut(w, b, ip)
    ensures b.len < w
    ensures IsDifference(w, Cut(w, b, ip), b, ip) <==> HostBits(w, b) == HostBits(w, ip)
  {
    if HostBits(w, b) == HostBits(w, ip) {
      if ip.len == b.len {
        SameBlock(w, ip, b);
      }
      CutWhenAligned(w, b, ip);
    } else {
      CutWhenUnaligned(w, b, ip);
    }
  }

  /** For addresses of every width the walk never ends from some block with a bit set after its prefix. */
  lemma StuckSource(w: nat)
    requires w >= 2
    ensures var b, ip := Block(Pow2(w - 2), 1), Block(0, 2); IsCut(w, b, ip) && Cut(w, b, ip) == None
  {
    var h := Pow2(w - 2);
    assert Pow2(w - 1) == 2 * h;
    Quotient(h, h, 1, 0);
    Quotient(h, 2 * h, 0, h);
  }

  /** Nor does it from a whole half, to some block with such a bit. */
  lemma StuckExclude(w: nat)
    requires w >= 3
    ensures var b, ip := Block(0, 1), Block(1, 2); IsCut(w, b, ip) && Cut(w, b, ip) == None
  {
    var h := Pow2(w - 3);
    assert Pow2(w - 2) == 2 * h && Pow2(w - 1) == 4 * h;
    Quotient(1, 2 * h, 0, 1);
    Quotient(1, 4 * h, 0, 1);
    assert Subnets(w, Block(0, 1)) == [Block(0, 2), Block(2 * h, 2)];
    assert Cut(w, Block(0, 2), Block(1, 2)) == None;
  }

  lemma CutDescends(w: nat, parts: seq<Block>, cur: Block, ip: Block, i: nat)
    requires i < 2 && cur.len < w && ip.len <= w && ip !in Subnets(w, cur)
    requires SubnetOf(w, ip, Subnets(w, cur)[i]) && (i == 1 ==> !SubnetOf(w, ip, Subnets(w, cur)[0]))
    ensures var sn := Subnets(w, cur);
      && sn[i].len < w
      && Prepend(parts, Cut(w, cur, ip)) == Prepend(parts + [sn[1 - i]], Cut(w, sn[i], ip))
  {
    var sn := Subnets(w, cur);
    assert sn[i] != ip && sn[i].len < w;
    PrependTwice(parts, [sn[1 - i]], Cut(w, sn[i], ip));
  }

  lemma PrependTwice(x: seq<Block>, y: seq<Block>, rest: Option<seq<Block>>)
    ensures Prepend(x, Prepend(y, rest)) == Prepend(x + y, rest)
  {
    if rest.Some? {
      assert x + (y + rest.value) == x + y + rest.value;
    }
  }

  /**
    The parts of a block outside an excluded block in it, which `CutExactly`
    characterises; None stands for the loop that never ends.
  */
  method ExcludeOne(w: nat, b: Block, ip: Block) returns (result: Option<seq<Block>>)
    requires b.len <= w && ip.len <= w && IsCut(w, b, ip)
    ensures b.len < w && result == Cut(w, b, ip)
  {
    var sn := Subnets(w, b);
    var parts: seq<Block> := [];
    ghost var cur := b;
    assert Cut(w, b, ip).Some? ==> [] + Cut(w, b, ip).value == Cut(w, b, ip).value;
    while sn[0] != ip && sn[1] != ip
      invariant cur.len < w && sn == Subnets(w, cur)
      invariant Cut(w, b, ip) == Prepend(parts, Cut(w, cur, ip))
      decreases w - cur.len
    {
      if SubnetOf(w, ip, sn[0]) {
        CutDescends(w, parts, cur, ip, 0);
        parts := parts + [sn[1]];
        cur := sn[0];
        sn := Subnets(w, sn[0]);
      } else if SubnetOf(w, ip, sn[1]) {
        CutDescends(w, parts, cur, ip, 1);
        parts := parts + [sn[0]];
        cur := sn[1];
        sn := Subnets(w, sn[1]);
      } else {
        return None;
      }
    }
    if sn[0] == ip {
      parts := parts + [sn[1]];
    } else {
      parts := parts + [sn[0]];
    }
    result := Some(parts);
  }

  // ----- Lists of blocks -----

  /** Every block that is cut has the host bits of the one cut out. */
  predicate Aligned(w: nat, blocks: seq<Block>, exclude: Block)
    requires Fit(w, blocks) && exclude.len <= w
  {
    forall b <- blocks :: IsCut(w, b, exclude) ==> HostBits(w, b) == HostBits(w, exclude)
  }

  /** Every block is one of the others or a part of one. */
  predicate Derived(w: nat, parts: seq<Block>, blocks: seq<Block>)
    requires Fit(w, blocks)
  {
    forall p <- parts :: p.len <= w && exists b <- blocks :: p == b || PartOf(w, p, b)
  }

  ghost predicate Less(w: nat, parts: seq<Block>, blocks: seq<Block>, excludes: seq<Block>)
    requires Fit(w, parts) && Fit(w, blocks) && Fit(w, excludes)
  {
    forall a: nat :: Covered(w, parts, a) <==> Covered(w, blocks, a) && !Covered(w, excludes, a)
  }

  /** What one block contributes when another is excluded. */
  method ExcludeFrom(w: nat, b: Block, exclude: Block) returns (parts: Option<seq<Block>>)
    requires b.len <= w && exclude.len <= w
    ensures parts.Some? ==> Fit(w, parts.value)
    ensures Aligned(w, [b], exclude) ==>
      IsDifference(w, parts, b, exclude) && Derived(w, parts.value, [b])
    ensures !Aligned(w, [b], exclude) && parts.Some? ==> Covered(w, parts.value, exclude.addr)
  {
    OverlapMeaning(w, b, exclude);
    if !Overlaps(w, b, exclude) {
      parts := Some([b]);
      forall a: nat ensures Covered(w, [b], a) <==> In(w, b, a) {
        CoveredOne(w, b, a);
      }
    } else if IsCut(w, b, exclude) {
      parts := ExcludeOne(w, b, exclude);
      CutFits(w, b, exclude);
      if Aligned(w, [b], exclude) {
        CutExactly(w, b, exclude);
        CutWhenAligned(w, b, exclude);
      } else {
        CutWhenUnaligned(w, b, exclude);
      }
    } else {
      parts := Some([]);
    }
  }

  lemma AlignedOneMore(w: nat, done: seq<Block>, b: Block, exclude: Block)
    requires Fit(w, done) && b.len <= w && exclude.len <= w
    ensures Fit(w, done + [b])
    ensures Aligned(w, done + [b], exclude) <==> Aligned(w, done, exclude) && Aligned(w, [b], exclude)
  {
    assert forall x <- done :: x in done + [b];
    assert b in done + [b];
  }

  lemma DerivedOneMore(w: nat, results: seq<Block>, parts: seq<Block>, done: seq<Block>, b: Block)
    requires Fit(w, done) && b.len <= w && Derived(w, results, done) && Derived(w, parts, [b])
    ensures Fit(w, done + [b]) && Derived(w, results + parts, done + [b])
  {
    forall p <- results + parts ensures exists c <- done + [b] :: p == c || PartOf(w, p, c) {
      if p in results {
        var c :| c in done && (p == c || PartOf(w, p, c));
        assert c in done + [b];
      } else {
        assert b in done + [b];
      }
    }
  }

  lemma LessOneMore(w: nat, results: seq<Block>, parts: seq<Block>, done: seq<Block>, b: Block, exclude: Block)
    requires Fit(w, results) && Fit(w, parts) && Fit(w, done) && b.len <= w && exclude.len <= w
    requires Less(w, results, done, [exclude]) && IsDifference(w, Some(parts), b, exclude)
    ensures Fit(w, results + parts) && Fit(w, done + [b]) && Less(w, results + parts, done + [b], [exclude])
  {
    forall a: nat
      ensures Covered(w, results + parts, a) <==> Covered(w, results, a) || Covered(w, parts, a)
      ensures Covered(w, done + [b], a) <==> Covered(w, done, a) || In(w, b, a)
      ensures Covered(w, [exclude], a) <==> In(w, exclude, a)
    {
      CoveredAppend(w, results, parts, a);
      CoveredAppend(w, done, [b], a);
      CoveredOne(w, b, a);
      CoveredOne(w, exclude, a);
    }
  }

  /** One excluded block: the list difference is right if and only if every cut is aligned. */
  method ExcludeEach(w: nat, blocks: seq<Block>, exclude: Block) returns (results: Option<seq<Block>>)
    requires Fit(w, blocks) && exclude.len <= w
    ensures results.Some? ==> Fit(w, results.value)
    ensures results.Some? && Less(w, results.value, blocks, [exclude]) <==> Aligned(w, blocks, exclude)
    ensures Aligned(w, blocks, exclude) ==> Derived(w, results.value, blocks)
  {
    var kept := [];
    for i := 0 to |blocks|
      invariant Fit(w, kept)
      invariant Aligned(w, blocks[..i], exclude) ==>
        Less(w, kept, blocks[..i], [exclude]) && Derived(w, kept, blocks[..i])
      invariant !Aligned(w, blocks[..i], exclude) ==> Covered(w, kept, exclude.addr)
    {
      assert blocks[..i + 1] == blocks[..i] + [blocks[i]];
      var parts := ExcludeFrom(w, blocks[i], exclude);
      if parts.None? {
        return None;
      }
      AlignedOneMore(w, blocks[..i], blocks[i], exclude);
      if Aligned(w, blocks[..i + 1], exclude) {
        DerivedOneMore(w, kept, parts.value, blocks[..i], blocks[i]);
        LessOneMore(w, kept, parts.value, blocks[..i], blocks[i], exclude);
      } else {
        CoveredAppend(w, kept, parts.value, exclude.addr);
      }
      kept := kept + parts.value;
    }
    assert blocks[..|blocks|] == blocks;
    CoveredOne(w, exclude, exclude.addr);
    results := Some(kept);
  }

  /** An excluded block that cuts a part cuts the whole. */
  lemma CutOfPart(w: nat, p: Block, b: Block, exclude: Block)
    requires PartOf(w, p, b) && exclude.len <= w && IsCut(w, p, exclude)
    ensures IsCut(w, b, exclude)
  {
    ShorterPrefix(w, p, b.len, exclude.addr);
  }

  lemma DerivedAligned(w: nat, parts: seq<Block>, blocks: seq<Block>, exclude: Block)
    requires Fit(w, blocks) && Fit(w, parts) && exclude.len <= w
    requires Derived(w, parts, blocks) && Aligned(w, blocks, exclude)
    ensures Aligned(w, parts, exclude)
  {
    forall p <- parts | IsCut(w, p, exclude) ensures HostBits(w, p) == HostBits(w, exclude) {
      var b :| b in blocks && (p == b || PartOf(w, p, b));
      if p != b {
        CutOfPart(w, p, b, exclude);
      }
    }
  }

  lemma DerivedTwice(w: nat, x: seq<Block>, y: seq<Block>, z: seq<Block>)
    requires Fit(w, y) && Fit(w, z) && Derived(w, x, y) && Derived(w, y, z)
    ensures Derived(w, x, z)
  {
    forall p <- x ensures exists b <- z :: p == b || PartOf(w, p, b) {
      var c :| c in y && (p == c || PartOf(w, p, c));
      var b :| b in z && (c == b || PartOf(w, c, b));
      if p != c && c != b {
        PartOfHalf(w, p, c, b);
      }
    }
  }

  lemma LessTwice(w: nat, x: seq<Block>, y: seq<Block>, z: seq<Block>, es: seq<Block>, e: Block)
    requires Fit(w, x) && Fit(w, y) && Fit(w, z) && Fit(w, es) && e.len <= w
    requires Less(w, x, y, [e]) && Less(w, y, z, es)
    ensures Fit(w, es + [e]) && Less(w, x, z, es + [e])
  {
    forall a: nat ensures Covered(w, es + [e], a) <==> Covered(w, es, a) || Covered(w, [e], a) {
      CoveredAppend(w, es, [e], a);
    }
  }

  predicate AllAligned(w: nat, blocks: seq<Block>, excludes: seq<Block>)
    requires Fit(w, blocks) && Fit(w, excludes)
  {
    forall e <- excludes :: Aligned(w, blocks, e)
  }

  lemma NextRound(w: nat, next: seq<Block>, kept: seq<Block>, sources: seq<Block>, es: seq<Block>, e: Block)
    requires Fit(w, next) && Fit(w, kept) && Fit(w, sources) && Fit(w, es) && e.len <= w
    requires Derived(w, kept, sources) && Less(w, kept, sources, es)
    requires Less(w, next, kept, [e]) && Derived(w, next, kept)
    ensures Fit(w, es + [e]) && Derived(w, next, sources) && Less(w, next, sources, es + [e])
  {
    DerivedTwice(w, next, kept, sources);
    LessTwice(w, next, kept, sources, es, e);
  }

  /**
    When each excluded block has the host bits of every source it lies in, as
    blocks without host bits do, the list difference covers exactly the addresses
    of the sources that no excluded block has.
  */
  method ExcludeAddresses(w: nat, sources: seq<Block>, excludes: seq<Block>) returns (results: Option<seq<Block>>)
    requires Fit(w, sources) && Fit(w, excludes)
    ensures results.Some? ==> Fit(w, results.value)
    ensures AllAligned(w, sources, excludes) ==> results.Some? && Less(w, results.value, sources, excludes)
  {
    var kept := sources;
    for i := 0 to |excludes|
      invariant Fit(w, kept)
      invariant AllAligned(w, sources, excludes) ==>
        Derived(w, kept, sources) && Less(w, kept, sources, excludes[..i])
    {
      var e := excludes[i];
      assert excludes[..i + 1] == excludes[..i] + [e];
      if AllAligned(w, sources, excludes) {
        DerivedAligned(w, kept, sources, e);
      }
      var next := ExcludeEach(w, kept, e);
      if next.None? {
        return None;
      }
      if AllAligned(w, sources, excludes) {
        NextRound(w, next.value, kept, sources, excludes[..i], e);
      }
      kept := next.value;
    }
    assert excludes[..|excludes|] == excludes;
    results := Some(kept);
  }
}
