/**
  The Internet checksum of an ICMP ping, as a loop over 16-bit words read in
  the byte order of the machine, with the algebra of section 2 of RFC 1071.
*/
module Checksum {

  type Byte = b: int | 0 <= b < 256
  type Word = w: int | 0 <= w < 65536

  datatype Order = LittleEndian | BigEndian

  /** The largest value of the 32-bit accumulator. */
  const INT_MAX := 0x7fff_ffff

  /** Two bytes of memory read as one word. */
  function ReadWord(first: Byte, second: Byte, order: Order): Word {
    match order
    case LittleEndian => first + 256 * second
    case BigEndian => 256 * first + second
  }

  /** The words of a buffer; an odd last byte is followed by a zero byte. */
  function Words(data: seq<Byte>, order: Order): seq<Word> {
    if |data| == 0 then []
    else if |data| == 1 then [ReadWord(data[0], 0, order)]
    else [ReadWord(data[0], data[1], order)] + Words(data[2..], order)
  }

  function Sum(ws: seq<Word>): nat {
    if ws == [] then 0 else ws[0] + Sum(ws[1..])
  }

  /** The ones' complement value of a sum: its residue modulo 65535, with 65535 for a nonzero multiple. */
  function Ones(n: nat): Word {
    if n == 0 then 0 else (n - 1) % 65535 + 1
  }

  lemma {:induction false} SumBound(ws: seq<Word>)
    ensures Sum(ws) <= 65535 * |ws|
  {
    if ws != [] {
      SumBound(ws[1..]);
    }
  }

  lemma {:induction false} WordsLength(data: seq<Byte>, order: Order)
    ensures 2 * |Words(data, order)| <= |data| + 1
  {
    if |data| >= 2 {
      WordsLength(data[2..], order);
    }
  }

  /** One word further into the buffer. */
  lemma SumStep(data: seq<Byte>, order: Order, w: nat)
    requires w < |data|
    ensures w + 1 < |data| ==>
            Sum(Words(data[w..], order)) == ReadWord(data[w], data[w + 1], order) + Sum(Words(data[w + 2..], order))
    ensures w + 1 == |data| ==> Sum(Words(data[w..], order)) == ReadWord(data[w], 0, order)
  {
  }

  lemma {:induction false} SumAppend(a: seq<Word>, b: seq<Word>)
    ensures Sum(a + b) == Sum(a) + Sum(b)
  {
    if a == [] {
      assert a + b == b;
    } else {
      SumAppend(a[1..], b);
      assert (a + b)[1..] == a[1..] + b;
    }
  }

  /** Adding the carries back twice gives the ones' complement value of any accumulator. */
  lemma TwoFoldsSuffice(sum: nat)
    requires sum <= INT_MAX
    ensures var once := sum / 65536 + sum % 65536;
      var twice := once + once / 65536;
      twice % 65536 == Ones(sum) && twice <= INT_MAX
  {
  }

  /** The complement of the ones' complement sum of the words. */
  function Answer(data: seq<Byte>, order: Order): Word {
    65535 - Ones(Sum(Words(data, order)))
  }

  /**
    The checksum loop. Within 65536 bytes the accumulator never exceeds a
    32-bit integer, two folds suffice, and the answer is the complement of the
    ones' complement sum of the words.
  */
  method InetChecksum(data: seq<Byte>, order: Order) returns (answer: Word)
    requires |data| <= 65536
    ensures answer == Answer(data, order)
  {
    var left, sum, w := |data|, 0, 0;
    while left > 1
      invariant w + left == |data| && left >= 0
      invariant 0 <= 2 * sum <= 65535 * w
      invariant sum + Sum(Words(data[w..], order)) == Sum(Words(data, order))
    {
      SumStep(data, order, w);
      sum := sum + ReadWord(data[w], data[w + 1], order);
      assert sum <= INT_MAX;
      w, left := w + 2, left - 2;
    }
    if left == 1 {
      SumStep(data, order, w);
      sum := sum + ReadWord(data[w], 0, order);
      assert sum <= INT_MAX;
    }
    TwoFoldsSuffice(sum);
    sum := sum / 65536 + sum % 65536;
    sum := sum + sum / 65536;
    answer := 65535 - sum % 65536;
  }

  // ----- The length bound is exact -----

  predicate Fits(data: seq<Byte>, order: Order) {
    Sum(Words(data, order)) <= INT_MAX
  }

  lemma {:induction false} AllOnesSum(n: nat)
    ensures Sum(Words(seq(2 * n, _ => 255), BigEndian)) == 65535 * n
  {
    if n > 0 {
      AllOnesSum(n - 1);
      var d: seq<Byte> := seq(2 * n, _ => 255);
      assert d[2..] == seq(2 * (n - 1), _ => 255);
      assert Words(d, BigEndian)[1..] == Words(d[2..], BigEndian);
    }
  }

  /** The accumulator is safe for every buffer of a length exactly up to 65536 bytes. */
  lemma AccumulatorBound(n: nat)
    ensures (forall data: seq<Byte>, order: Order | |data| == n :: Fits(data, order)) <==> n <= 65536
  {
    if n <= 65536 {
      forall data: seq<Byte>, order: Order | |data| == n ensures Fits(data, order) {
        SumBound(Words(data, order));
        WordsLength(data, order);
      }
    } else {
      var head: seq<Byte> := seq(65536, _ => 255);
      var data: seq<Byte> := head + seq(n - 65536, _ => 255);
      AllOnesSum(32768);
      WordsAppend(head, data[65536..], BigEndian);
      assert data == head + data[65536..];
      SumAppend(Words(head, BigEndian), Words(data[65536..], BigEndian));
      var tail := Words(data[65536..], BigEndian);
      assert tail[0] >= 65280;
      assert !Fits(data, BigEndian);
    }
  }

  lemma {:induction false} WordsAppend(a: seq<Byte>, b: seq<Byte>, order: Order)
    requires |a| % 2 == 0
    ensures Words(a + b, order) == Words(a, order) + Words(b, order)
  {
    if a == [] {
      assert a + b == b;
    } else {
      assert |a| >= 2;
      WordsAppend(a[2..], b, order);
      assert (a + b)[2..] == a[2..] + b;
      assert Words(a + b, order) == [ReadWord(a[0], a[1], order)] + Words(a[2..] + b, order);
    }
  }

  // ----- Byte order independence -----

  function Swap(w: Word): Word {
    256 * (w % 256) + w / 256
  }

  lemma {:induction false} WordsSwapped(data: seq<Byte>)
    ensures var le, be := Words(data, LittleEndian), Words(data, BigEndian);
      |le| == |be| && forall i | 0 <= i < |le| :: le[i] == Swap(be[i])
  {
    if |data| >= 2 {
      WordsSwapped(data[2..]);
    }
  }

  /** Swapping the bytes of a word multiplies it by 256 modulo 65535. */
  lemma SwapIsShift(w: Word) returns (q: nat)
    ensures 256 * w == Swap(w) + 65535 * q
  {
    q := w / 256;
    assert w == 256 * (w / 256) + w % 256;
  }

  lemma {:induction false} SwappedSum(a: seq<Word>, b: seq<Word>) returns (q: nat)
    requires |a| == |b| && forall i | 0 <= i < |a| :: a[i] == Swap(b[i])
    ensures 256 * Sum(b) == Sum(a) + 65535 * q
    ensures Sum(a) == 0 <==> Sum(b) == 0
  {
    if a == [] {
      q := 0;
    } else {
      var q0 := SwapIsShift(b[0]);
      var q1 := SwappedSum(a[1..], b[1..]);
      q := q0 + q1;
    }
  }

  lemma OnesUnique(n: nat, w: Word, q: nat)
    requires n == 65535 * q + w && (n > 0 ==> w > 0)
    ensures Ones(n) == w
  {
  }

  lemma OnesQuotient(n: nat) returns (q: nat)
    ensures n == 65535 * q + Ones(n)
  {
    q := if n == 0 then 0 else (n - 1) / 65535;
  }

  /** The ones' complement sum of swapped words is the swapped sum. */
  lemma OnesSwapped(a: nat, b: nat, q: nat)
    requires 256 * b == a + 65535 * q && (a == 0 <==> b == 0)
    ensures Ones(a) == Swap(Ones(b))
  {
    if a > 0 {
      var qb := OnesQuotient(b);
      var qs := SwapIsShift(Ones(b));
      var s := Swap(Ones(b));
      assert a == 65535 * (256 * qb + qs - q) + s;
      assert 0 < s <= 65535;
      OnesUnique(a, s, 256 * qb + qs - q);
    }
  }

  /** The word stored to memory in the machine's own order. */
  function Store(w: Word, order: Order): seq<Byte> {
    match order
    case LittleEndian => [w % 256, w / 256]
    case BigEndian => [w / 256, w % 256]
  }

  lemma SwapComplement(w: Word)
    ensures Swap(65535 - w) == 65535 - Swap(w)
  {
    var hi, lo := w / 256, w % 256;
    assert 65535 - w == 256 * (255 - hi) + (255 - lo);
  }

  lemma StoreSwapped(w: Word)
    ensures Store(Swap(w), LittleEndian) == Store(w, BigEndian)
  {
  }

  /**
    Byte order independence: a little-endian machine computes the byte swap of
    what a big-endian one computes, so both store the same two bytes.
  */
  lemma ByteOrderIndependent(data: seq<Byte>)
    ensures Answer(data, LittleEndian) == Swap(Answer(data, BigEndian))
    ensures Store(Answer(data, LittleEndian), LittleEndian) == Store(Answer(data, BigEndian), BigEndian)
  {
    WordsSwapped(data);
    var le, be := Words(data, LittleEndian), Words(data, BigEndian);
    var q := SwappedSum(le, be);
    OnesSwapped(Sum(le), Sum(be), q);
    SwapComplement(Ones(Sum(be)));
    StoreSwapped(Answer(data, BigEndian));
  }

  // ----- Order independence and self-verification -----

  lemma SumRemove(ws: seq<Word>, i: nat)
    requires i < |ws|
    ensures Sum(ws) == ws[i] + Sum(ws[..i] + ws[i + 1..])
  {
    assert ws == ws[..i] + ([ws[i]] + ws[i + 1..]);
    SumAppend(ws[..i], [ws[i]] + ws[i + 1..]);
    SumAppend(ws[..i], ws[i + 1..]);
  }

  lemma MultisetRemove(ws: seq<Word>, i: nat)
    requires i < |ws|
    ensures multiset(ws[..i] + ws[i + 1..]) == multiset(ws) - multiset{ws[i]}
  {
    assert ws == ws[..i] + [ws[i]] + ws[i + 1..];
  }

  lemma HeadRemoved(ws: seq<Word>)
    requires ws != []
    ensures multiset(ws[1..]) == multiset(ws) - multiset{ws[0]}
  {
    assert ws == [ws[0]] + ws[1..];
  }

  lemma IndexIn(ws: seq<Word>, w: Word, all: multiset<Word>) returns (i: nat)
    requires multiset(ws) == all && w in all
    ensures i < |ws| && ws[i] == w
  {
    assert w in ws;
    i :| 0 <= i < |ws| && ws[i] == w;
  }

  /** Removing one word from either side leaves permutations. */
  lemma SameRest(a: seq<Word>, b: seq<Word>) returns (i: nat)
    requires multiset(a) == multiset(b) && a != []
    ensures i < |b| && b[i] == a[0] && multiset(a[1..]) == multiset(b[..i] + b[i + 1..])
  {
    i := IndexIn(b, a[0], multiset(a));
    HeadRemoved(a);
    MultisetRemove(b, i);
  }

  lemma {:induction false} SumOfPermutation(a: seq<Word>, b: seq<Word>)
    requires multiset(a) == multiset(b)
    ensures Sum(a) == Sum(b)
    decreases |a|
  {
    if a == [] {
      assert |b| == |multiset(b)| == |multiset(a)| == 0;
    } else {
      var i := SameRest(a, b);
      SumOfPermutation(a[1..], b[..i] + b[i + 1..]);
      SumRemove(b, i);
    }
  }

  /** Permuting the words of a buffer leaves the checksum unchanged. */
  lemma WordOrderIndependent(a: seq<Byte>, b: seq<Byte>, order: Order)
    requires multiset(Words(a, order)) == multiset(Words(b, order))
    ensures Answer(a, order) == Answer(b, order)
  {
    SumOfPermutation(Words(a, order), Words(b, order));
  }

  lemma {:induction false} WordsAt(data: seq<Byte>, order: Order, i: nat)
    requires 2 * i + 1 < |data|
    ensures i < |Words(data, order)| && Words(data, order)[i] == ReadWord(data[2 * i], data[2 * i + 1], order)
  {
    if i > 0 {
      var rest := data[2..];
      assert Words(data, order) == [ReadWord(data[0], data[1], order)] + Words(rest, order);
      WordsAt(rest, order, i - 1);
      assert rest[2 * i - 2] == data[2 * i] && rest[2 * i - 1] == data[2 * i + 1];
    }
  }

  lemma {:induction false} WordsUpdate(data: seq<Byte>, order: Order, i: nat, w: Word)
    requires 2 * i + 1 < |data|
    ensures var bs := Store(w, order);
      i < |Words(data, order)| &&
      Words(data[2 * i := bs[0]][2 * i + 1 := bs[1]], order) == Words(data, order)[i := w]
  {
    var bs := Store(w, order);
    var next := data[2 * i := bs[0]][2 * i + 1 := bs[1]];
    if i > 0 {
      WordsUpdate(data[2..], order, i - 1, w);
      assert next[0] == data[0] && next[1] == data[1];
      assert next[2..] == data[2..][2 * (i - 1) := bs[0]][2 * (i - 1) + 1 := bs[1]];
    } else {
      assert next[2..] == data[2..];
    }
  }

  /** Storing the checksum in a zeroed aligned field makes the checksum of the whole buffer zero. */
  lemma SelfVerifying(data: seq<Byte>, order: Order, i: nat)
    requires 2 * i + 1 < |data| && data[2 * i] == 0 && data[2 * i + 1] == 0
    ensures var bs := Store(Answer(data, order), order);
      Answer(data[2 * i := bs[0]][2 * i + 1 := bs[1]], order) == 0
  {
    var a := Answer(data, order);
    var ws := Words(data, order);
    WordsAt(data, order, i);
    WordsUpdate(data, order, i, a);
    SumRemove(ws, i);
    SumRemove(ws[i := a], i);
    assert ws[i := a][..i] + ws[i := a][i + 1..] == ws[..i] + ws[i + 1..];
    assert Sum(ws[i := a]) == Sum(ws) + a;
    var q := OnesQuotient(Sum(ws));
    assert Sum(ws) + a == 65535 * q + 65535;
    OnesUnique(Sum(ws) + a, 65535, q);
  }
}
