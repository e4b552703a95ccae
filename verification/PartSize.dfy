/** How a large object is cut into parts. */
module PartSize {

  const MIB: int := 0x10_0000
  const DEFAULT_PART_SIZE: int := 5 * MIB

  /** What the destination says about a multipart upload; a minimum of 0 stands for the default. */
  datatype Upload = Upload(minPartSize: nat, maxCount: nat)

  function Base(up: Upload): (b: int)
    ensures b > 0
  {
    if up.minPartSize == 0 then DEFAULT_PART_SIZE else up.minPartSize
  }

  /** The part size: the base, or, for an object too large for it, a share rounded up to whole MiB. */
  function ChoosePartSize(up: Upload, size: nat): (ps: nat)
    requires up.maxCount > 0
    ensures ps > 0
  {
    if size > Base(up) * up.maxCount then
      ShareIsLarge(up, size);
      ((size / up.maxCount - 1) / MIB + 1) * MIB
    else Base(up)
  }

  lemma ShareIsLarge(up: Upload, size: nat)
    requires up.maxCount > 0 && size > Base(up) * up.maxCount
    ensures size / up.maxCount >= Base(up)
  {
    AtLeast(size, up.maxCount, Base(up));
  }

  function PartCount(size: nat, ps: nat): nat
    requires size > 0 && ps > 0
  {
    (size - 1) / ps + 1
  }

  /** The bytes of part `i`: the last part takes what is left. */
  function PartLength(size: nat, ps: nat, i: nat): int
    requires size > 0 && ps > 0
  {
    if i == PartCount(size, ps) - 1 then size - i * ps else ps
  }

  // ------------------------------------------------------------------ division

  lemma MulMono(a: int, b: int, c: nat)
    ensures a <= b ==> a * c <= b * c
  {
  }

  lemma AtLeast(a: nat, d: nat, q: nat)
    requires d > 0 && a >= q * d
    ensures a / d >= q
  {
    MulMono(a / d + 1, q, d);
  }

  lemma Below(a: nat, d: nat, q: nat)
    requires d > 0 && a < q * d
    ensures a / d < q
  {
    MulMono(q, a / d, d);
  }

  /** Parts of size `ps` suffice for an object they cover. */
  lemma NoMore(size: nat, n: nat, ps: nat)
    requires size > 0 && ps > 0 && size <= n * ps
    ensures PartCount(size, ps) <= n
  {
    Below(size - 1, ps, n);
  }

  lemma OneMore(size: nat, n: nat, ps: nat, r: nat)
    requires ps > 0 && size == n * ps + r && 0 < r <= ps
    ensures PartCount(size, ps) == n + 1
  {
    AtLeast(size - 1, ps, n);
    assert (n + 1) * ps == n * ps + ps;
    Below(size - 1, ps, n + 1);
  }

  lemma Covers(size: nat, n: nat, ps: nat)
    requires n > 0 && ps > size / n
    ensures size < n * ps
  {
    MulMono(size / n + 1, ps, n);
    assert (size / n + 1) * n == size / n * n + n;
  }

  lemma RoundedUp(q: nat)
    requires q > 0
    ensures var c := ((q - 1) / MIB + 1) * MIB;
      && q <= c < q + MIB && c % MIB == 0
      && (c == q <==> q % MIB == 0)
  {
  }

  // ------------------------------------------------------------------ the bounds

  /** The one case with a part too many: the share is a whole number of MiB already, and the division
  leaves a rest. */
  predicate OneTooMany(up: Upload, size: nat)
    requires up.maxCount > 0
  {
    size > Base(up) * up.maxCount && (size / up.maxCount) % MIB == 0 && size % up.maxCount != 0
  }

  /** The number of parts is within the destination's bound, but for one case, which gives exactly one
  part too many. */
  lemma CountBound(up: Upload, size: nat)
    requires 1 <= up.maxCount <= MIB && size > 0
    ensures PartCount(size, ChoosePartSize(up, size)) <= up.maxCount + 1
    ensures PartCount(size, ChoosePartSize(up, size)) == up.maxCount + 1 <==> OneTooMany(up, size)
  {
    var ps, n := ChoosePartSize(up, size), up.maxCount;
    if size <= Base(up) * n {
      NoMore(size, n, ps);
    } else {
      var q, r := size / n, size % n;
      ShareIsLarge(up, size);
      RoundedUp(q);
      assert ps >= q > 0 && (ps == q <==> q % MIB == 0);
      assert size == q * n + r;
      hide ChoosePartSize, PartCount, Base;
      if ps > q {
        Covers(size, n, ps);
        NoMore(size, n, ps);
      } else if r == 0 {
        NoMore(size, n, ps);
      } else {
        assert q >= MIB;
        OneMore(size, n, ps, r);
      }
    }
  }

  /** An upload of at most 2 parts, and an object for which the code makes 3. */
  lemma ThreeParts()
    ensures var up, size := Upload(MIB, 2), 4 * MIB + 1;
      OneTooMany(up, size) && PartCount(size, ChoosePartSize(up, size)) == 3
  {
    CountBound(Upload(MIB, 2), 4 * MIB + 1);
  }

  /** No part of an accepted object, which is one that so many parts of the largest size can hold, is larger
  than allowed, when the bound is a whole number of MiB that is not below the base. */
  lemma PartSizeBound(up: Upload, maxPartSize: nat, size: nat)
    requires up.maxCount > 0 && size <= maxPartSize * up.maxCount
    requires maxPartSize % MIB == 0 && maxPartSize >= Base(up)
    ensures ChoosePartSize(up, size) <= maxPartSize
  {
    if size > Base(up) * up.maxCount {
      var q := size / up.maxCount;
      ShareIsLarge(up, size);
      assert (maxPartSize + 1) * up.maxCount == maxPartSize * up.maxCount + up.maxCount;
      Below(size, up.maxCount, maxPartSize + 1);
      RoundedWithin(q, maxPartSize);
    }
  }

  lemma RoundedWithin(q: nat, bound: nat)
    requires 0 < q <= bound && bound % MIB == 0
    ensures ((q - 1) / MIB + 1) * MIB <= bound
  {
    RoundedUp(q);
  }

  /** Every part has bytes, at most `ps`, and lies where the one before it ends; the last one ends with
  the object. */
  lemma PartsTile(size: nat, ps: nat, i: nat)
    requires size > 0 && ps > 0 && i < PartCount(size, ps)
    ensures 0 < PartLength(size, ps, i) <= ps
    ensures i * ps + PartLength(size, ps, i) == PartStart(size, ps, i + 1) <= size
  {
    var n := PartCount(size, ps);
    assert (n - 1) * ps <= size - 1 < (n - 1) * ps + ps;
    MulMono(i + 1, n - 1, ps);
    assert (i + 1) * ps == i * ps + ps;
  }

  // ------------------------------------------------------------------ pieces of the content

  function Piece<T>(data: seq<T>, ps: nat, i: nat): (p: seq<T>)
    requires data != [] && ps > 0 && i < PartCount(|data|, ps)
    ensures p != []
  {
    PartsTile(|data|, ps, i);
    data[i * ps..i * ps + PartLength(|data|, ps, i)]
  }

  function Concat<T>(parts: seq<seq<T>>): seq<T> {
    if parts == [] then [] else Concat(parts[..|parts| - 1]) + parts[|parts| - 1]
  }

  /** The pieces, put together in order, are the object. */
  lemma PiecesAreWhole<T>(data: seq<T>, ps: nat, parts: seq<seq<T>>)
    requires data != [] && ps > 0 && |parts| == PartCount(|data|, ps)
    requires forall i :: 0 <= i < |parts| ==> parts[i] == Piece(data, ps, i)
    ensures Concat(parts) == data
  {
    PiecesSoFar(data, ps, parts, |parts|);
    assert parts[..|parts|] == parts;
  }

  function PartStart(size: nat, ps: nat, k: nat): nat
    requires size > 0 && ps > 0
  {
    if k == PartCount(size, ps) then size else k * ps
  }

  lemma {:induction false} PiecesSoFar<T>(data: seq<T>, ps: nat, parts: seq<seq<T>>, k: nat)
    requires data != [] && ps > 0 && |parts| == PartCount(|data|, ps) && k <= |parts|
    requires forall i :: 0 <= i < |parts| ==> parts[i] == Piece(data, ps, i)
    ensures PartStart(|data|, ps, k) <= |data| && Concat(parts[..k]) == data[..PartStart(|data|, ps, k)]
  {
    if k > 0 {
      PiecesSoFar(data, ps, parts, k - 1);
      PartsTile(|data|, ps, k - 1);
      assert parts[..k][..k - 1] == parts[..k - 1];
      assert parts[k - 1] == data[PartStart(|data|, ps, k - 1)..PartStart(|data|, ps, k)];
    }
  }
}
