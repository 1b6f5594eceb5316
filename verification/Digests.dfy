// Router fingerprints: the additive, byte-wise checksum of
// discoverd/msd/msd_repo.go. The hash itself is any function from strings to
// sixteen bytes.
module Digests {

  predicate IsDigest(d: seq<int>) {
    |d| == 16 && forall i :: 0 <= i < 16 ==> 0 <= d[i] < 256
  }

  type Digest = d: seq<int> | IsDigest(d)
    witness seq(16, i => 0)
  type Hash = string -> Digest

  function Zero(): Digest {
    seq(16, i => 0)
  }

  // A Go byte wraps at 256.
  function AddByte(x: int, y: int): int {
    if x + y < 256 then x + y else x + y - 256
  }

  function SubByte(x: int, y: int): int {
    if x < y then x - y + 256 else x - y
  }

  // `sum[idx] += cs[idx]` for each of the sixteen bytes.
  function Plus(a: Digest, b: Digest): Digest {
    seq(16, i requires 0 <= i < 16 => AddByte(a[i], b[i]))
  }

  function Minus(a: Digest, b: Digest): Digest {
    seq(16, i requires 0 <= i < 16 => SubByte(a[i], b[i]))
  }

  lemma PlusZero(a: Digest)
    ensures Plus(a, Zero()) == a && Plus(Zero(), a) == a
  {}

  lemma PlusCommutes(a: Digest, b: Digest)
    ensures Plus(a, b) == Plus(b, a)
  {}

  lemma PlusAssociates(a: Digest, b: Digest, c: Digest)
    ensures Plus(Plus(a, b), c) == Plus(a, Plus(b, c))
  {}

  // Adding a digest can be undone.
  lemma MinusUndoesPlus(a: Digest, b: Digest)
    ensures Minus(Plus(a, b), b) == a && Plus(Minus(a, b), b) == a
  {}

  // The sum of the hashes of a list of strings, in list order.
  function Sum(h: Hash, xs: seq<string>): Digest {
    if xs == [] then Zero() else Plus(Sum(h, xs[..|xs| - 1]), h(xs[|xs| - 1]))
  }

  // Reference definition: byte i, summed over the integers without wrapping.
  function ByteTotal(h: Hash, xs: seq<string>, i: nat): int
    requires i < 16
  {
    if xs == [] then 0 else ByteTotal(h, xs[1..], i) + h(xs[0])[i]
  }

  lemma {:induction false} ByteTotalAppends(h: Hash, xs: seq<string>, x: string, i: nat)
    requires i < 16
    ensures ByteTotal(h, xs + [x], i) == ByteTotal(h, xs, i) + h(x)[i]
  {
    if xs == [] {
      assert [x][1..] == [];
    } else {
      assert (xs + [x])[1..] == xs[1..] + [x];
      ByteTotalAppends(h, xs[1..], x, i);
    }
  }

  // The wrapping accumulation is the true sum modulo 256, byte by byte.
  lemma {:induction false} SumIsByteTotalMod256(h: Hash, xs: seq<string>, i: nat)
    requires i < 16
    ensures Sum(h, xs)[i] == ByteTotal(h, xs, i) % 256
  {
    if xs != [] {
      var init, last := xs[..|xs| - 1], xs[|xs| - 1];
      assert xs == init + [last];
      SumIsByteTotalMod256(h, init, i);
      ByteTotalAppends(h, init, last, i);
    }
  }

  lemma {:induction false} SumConcat(h: Hash, xs: seq<string>, ys: seq<string>)
    ensures Sum(h, xs + ys) == Plus(Sum(h, xs), Sum(h, ys))
  {
    if ys == [] {
      assert xs + ys == xs;
      PlusZero(Sum(h, xs));
    } else {
      var init, last := ys[..|ys| - 1], ys[|ys| - 1];
      assert (xs + ys)[..|xs + ys| - 1] == xs + init;
      SumConcat(h, xs, init);
      PlusAssociates(Sum(h, xs), Sum(h, init), h(last));
    }
  }

  lemma SumInserted(h: Hash, front: seq<string>, x: string, back: seq<string>)
    ensures Sum(h, front + ([x] + back)) == Plus(Sum(h, front + back), h(x))
  {
    var f, b := Sum(h, front), Sum(h, back);
    SumConcat(h, front, [x] + back);
    SumConcat(h, [x], back);
    SumConcat(h, front, back);
    assert Sum(h, [x]) == h(x) by {
      assert [x][..0] == [];
      PlusZero(h(x));
    }
    PlusCommutes(h(x), b);
    PlusAssociates(f, b, h(x));
  }

  // Taking one string out of the list subtracts exactly its hash.
  lemma SumWithout(h: Hash, front: seq<string>, x: string, back: seq<string>)
    ensures Sum(h, front + back) == Minus(Sum(h, front + ([x] + back)), h(x))
  {
    SumInserted(h, front, x, back);
    MinusUndoesPlus(Sum(h, front + back), h(x));
  }

  lemma SameButOne(init: seq<string>, front: seq<string>, x: string, back: seq<string>)
    requires multiset(init + [x]) == multiset(front + ([x] + back))
    ensures multiset(init) == multiset(front + back)
  {
    assert multiset(front + ([x] + back)) == multiset(front + back) + multiset{x};
    assert multiset(init) == multiset(init + [x]) - multiset{x};
  }

  // The checksum does not depend on the order of the list.
  lemma {:induction false} SumIgnoresOrder(h: Hash, xs: seq<string>, ys: seq<string>)
    requires multiset(xs) == multiset(ys)
    ensures Sum(h, xs) == Sum(h, ys)
    decreases |xs|
  {
    if xs == [] {
      assert |multiset(ys)| == 0;
    } else {
      var init, last := xs[..|xs| - 1], xs[|xs| - 1];
      assert xs == init + [last];
      assert last in multiset(ys);
      var i :| 0 <= i < |ys| && ys[i] == last;
      var front, back := ys[..i], ys[i + 1..];
      assert ys == front + ([last] + back);
      SameButOne(init, front, last, back);
      SumIgnoresOrder(h, init, front + back);
      SumInserted(h, front, last, back);
    }
  }
}
