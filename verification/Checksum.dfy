/** Checksums of objects, computed on the way or part by part in any order, and the two ways to verify a
copy. */
module Checksum {
  import opened Objects
  import opened Crc32c
  import opened PartSize

  const BUFFER_SIZE: nat := 0x8000
  const MAX_BLOCK: nat := 2 * DEFAULT_PART_SIZE

  datatype ChksumWithSz = ChksumWithSz(chksum: word, size: nat)

  /** The checksum that the parts' checksums fold to, from left to right. */
  function Fold(chks: seq<ChksumWithSz>): word
    requires chks != []
    decreases |chks|
  {
    var last := chks[|chks| - 1];
    if |chks| == 1 then last.chksum else Combine(Fold(chks[..|chks| - 1]), last.chksum, last.size)
  }

  ghost predicate ChecksumsOf(chks: seq<ChksumWithSz>, parts: seq<seq<byte>>) {
    |chks| == |parts| && forall i :: 0 <= i < |parts| ==> chks[i] == ChksumWithSz(Crc(parts[i]), |parts[i]|)
  }

  /** Folding the checksums of the parts gives the checksum of the whole. */
  lemma {:induction false} FoldIsWhole(chks: seq<ChksumWithSz>, parts: seq<seq<byte>>)
    requires parts != [] && ChecksumsOf(chks, parts)
    ensures Fold(chks) == Crc(Concat(parts))
    decreases |parts|
  {
    hide Crc, Combine;
    var n := |parts| - 1;
    if n == 0 {
      assert Concat(parts[..0]) == [];
      assert Concat(parts) == parts[0];
    } else {
      FoldIsWhole(chks[..n], parts[..n]);
      CombineIsConcat(Concat(parts[..n]), parts[n]);
    }
  }

  method FoldChecksums(chks: array<ChksumWithSz>) returns (chksum: word)
    requires chks.Length > 0
    ensures chksum == Fold(chks[..])
  {
    hide Combine;
    chksum := chks[0].chksum;
    var i := 1;
    while i < chks.Length
      invariant 1 <= i <= chks.Length && chksum == Fold(chks[..i])
    {
      assert chks[..i + 1][..i] == chks[..i];
      chksum := Combine(chksum, chks[i].chksum, chks[i].size);
      i := i + 1;
    }
    assert chks[..i] == chks[..];
  }

  // ------------------------------------------------------------------ reading along

  /** The reader that keeps the checksum of what passed through it; `seen` is what did. */
  class ChksumReader {
    const cal: bool
    var chksum: word
    ghost var seen: seq<byte>

    ghost predicate Valid()
      reads this
    {
      chksum == if cal then Crc(seen) else 0
    }

    constructor (cal: bool)
      ensures Valid() && seen == [] && this.cal == cal
    {
      UpdateInPieces([], []);
      this.cal, chksum, seen := cal, 0, [];
    }

    method Read(p: seq<byte>)
      requires Valid()
      modifies this
      ensures Valid() && seen == old(seen) + p
    {
      UpdateInPieces(seen, p);
      if cal {
        chksum := Update(chksum, p);
      }
      seen := seen + p;
    }
  }

  // ------------------------------------------------------------------ one range of an object

  /** How a ranged read turns out: given up before it starts, refused, or yielding so many bytes. */
  datatype Get = Get(aborted: bool, accepted: bool, readable: nat)

  function Range(content: seq<byte>, from: nat, to: nat): seq<byte>
    requires from <= to <= |content|
  {
    content[from..to]
  }

  predicate Readable(content: seq<byte>, g: Get, offset: nat, length: nat) {
    !g.aborted && g.accepted && length <= g.readable && offset + length <= |content|
  }

  /** The next `n` bytes of a range that starts at `offset`, `pos` of which were read already. */
  function ReadFull(content: seq<byte>, g: Get, offset: nat, pos: nat, n: nat): (r: Option<seq<byte>>)
    ensures r.Some? <==> pos + n <= g.readable && offset + pos + n <= |content|
    ensures r.Some? ==> r.value == Range(content, offset + pos, offset + pos + n)
  {
    if pos + n <= g.readable && offset + pos + n <= |content|
    then Some(content[offset + pos..offset + pos + n]) else None
  }

  lemma UpdateRange(content: seq<byte>, a: nat, b: nat, e: nat)
    requires a <= b <= e <= |content|
    ensures Crc(Range(content, a, e)) == Not(Register(Not(Crc(Range(content, a, b))), Range(content, b, e)))
    ensures Crc(Range(content, a, a)) == 0
  {
    UpdateInPieces(content[a..b], content[b..e]);
    assert content[a..b] + content[b..e] == content[a..e];
    assert content[a..a] == [];
  }

  /** One turn of the loop: the next buffer is read in full and added to the checksum. */
  method AddBuffer(content: seq<byte>, g: Get, offset: nat, pos: nat, bs: nat, chksum: word)
    returns (r: Option<word>)
    requires offset + pos <= |content| && chksum == Crc(Range(content, offset, offset + pos))
    ensures r.Some? <==> pos + bs <= g.readable && offset + pos + bs <= |content|
    ensures r.Some? ==> r.value == Crc(Range(content, offset, offset + pos + bs))
  {
    hide Crc, Register, Not, Range;
    var buf := ReadFull(content, g, offset, pos, bs);
    if buf.None? {
      return None;
    }
    UpdateRange(content, offset, offset + pos, offset + pos + bs);
    var c := Update(chksum, buf.value);
    r := Some(c);
  }

  method CalPartChksum(content: seq<byte>, g: Get, offset: nat, length: nat) returns (r: Option<word>)
    ensures r.Some? <==> Readable(content, g, offset, length)
    ensures r.Some? <==> !g.aborted && g.accepted && length <= g.readable && offset + length <= |content|
    ensures r.Some? ==> r.value == Crc(content[offset..offset + length])
  {
    // a store refuses a range that starts behind the end
    if g.aborted || !g.accepted || offset > |content| {
      return None;
    }
    UpdateRange(content, offset, offset, offset);
    hide Crc, Range;
    var chksum: word := 0;
    var left, pos: nat := length as int, 0;
    while left > 0
      invariant pos <= length && offset + pos <= |content| && pos <= g.readable
      invariant left == length - pos || (left <= 0 && pos == length)
      invariant chksum == Crc(Range(content, offset, offset + pos))
    {
      var bs := if left < BUFFER_SIZE then left else BUFFER_SIZE;
      var next := AddBuffer(content, g, offset, pos, bs, chksum);
      if next.None? {
        return None;
      }
      chksum, pos, left := next.value, pos + bs, left - BUFFER_SIZE;
    }
    r := Some(chksum);
  }

  // ------------------------------------------------------------------ all parts, in any order

  function Parts(size: nat): (n: nat)
    ensures n > 0
  {
    if size < MAX_BLOCK then 1 else PartCount(size, DEFAULT_PART_SIZE)
  }

  function PartOffset(i: nat): nat {
    i * DEFAULT_PART_SIZE
  }

  function PartSz(size: nat, i: nat): (sz: nat)
    requires i < Parts(size)
    ensures PartOffset(i) + sz <= size
    ensures i == Parts(size) - 1 ==> PartOffset(i) + sz == size
  {
    if size < MAX_BLOCK then size
    else
      PartsTile(size, DEFAULT_PART_SIZE, i);
      PartLength(size, DEFAULT_PART_SIZE, i)
  }

  /** The order in which the goroutines of the parts finish. */
  predicate IsOrder(order: seq<nat>, n: nat) {
    |order| == n && (forall k :: 0 <= k < n ==> order[k] < n) && forall i: nat :: i < n ==> i in order
  }

  predicate PartReadable(content: seq<byte>, size: nat, gets: seq<Get>, i: nat)
    requires |gets| == Parts(size) && i < Parts(size)
  {
    Readable(content, gets[i], PartOffset(i), PartSz(size, i))
  }

  predicate AllReadable(content: seq<byte>, size: nat, gets: seq<Get>)
    requires |gets| == Parts(size)
  {
    forall i: nat :: i < Parts(size) ==> PartReadable(content, size, gets, i)
  }

  lemma ReadableIsLong(content: seq<byte>, size: nat, gets: seq<Get>)
    requires |gets| == Parts(size) && AllReadable(content, size, gets)
    ensures size <= |content|
  {
    assert PartReadable(content, size, gets, Parts(size) - 1);
  }

  ghost predicate PartDone(content: seq<byte>, size: nat, gets: seq<Get>, chks: seq<ChksumWithSz>, i: nat)
    requires |gets| == Parts(size) == |chks|
  {
    && i < Parts(size) && PartReadable(content, size, gets, i)
    && chks[i] == ChksumWithSz(Crc(Range(content, PartOffset(i), PartOffset(i) + PartSz(size, i))), PartSz(size, i))
  }

  lemma PieceIsRange(content: seq<byte>, size: nat, i: nat)
    requires MAX_BLOCK <= size <= |content| && i < Parts(size)
    ensures Piece(content[..size], DEFAULT_PART_SIZE, i)
        == Range(content, PartOffset(i), PartOffset(i) + PartSz(size, i))
    ensures |Range(content, PartOffset(i), PartOffset(i) + PartSz(size, i))| == PartSz(size, i)
  {
    PartsTile(size, DEFAULT_PART_SIZE, i);
  }

  lemma PartsMakeWhole(content: seq<byte>, size: nat, gets: seq<Get>, chks: seq<ChksumWithSz>)
    requires MAX_BLOCK <= size <= |content| && |gets| == Parts(size) == |chks|
    requires forall i: nat :: i < Parts(size) ==> PartDone(content, size, gets, chks, i)
    ensures Fold(chks) == Crc(content[..size])
  {
    hide Crc;
    var data, ps := content[..size], DEFAULT_PART_SIZE;
    var parts := seq(|chks|, i requires 0 <= i < |chks| => Piece(data, ps, i));
    forall i: nat | i < |chks| ensures chks[i] == ChksumWithSz(Crc(parts[i]), |parts[i]|) {
      assert PartDone(content, size, gets, chks, i);
      PieceIsRange(content, size, i);
    }
    PiecesAreWhole(data, ps, parts);
    FoldIsWhole(chks, parts);
  }

  /** The checksum of an object: whatever the order, it comes out exactly when every part could be read,
  and it is the checksum of the first `size` bytes. */
  method CalObjChksum(content: seq<byte>, size: nat, gets: seq<Get>, order: seq<nat>) returns (r: Option<word>)
    requires |gets| == Parts(size) && IsOrder(order, Parts(size))
    ensures r.Some? <==> AllReadable(content, size, gets)
    ensures r.Some? ==> size <= |content| && r.value == Crc(content[..size])
  {
    hide Crc, PartCount;
    if size < MAX_BLOCK {
      r := CalPartChksum(content, gets[0], 0, size);
      assert PartReadable(content, size, gets, 0) <==> r.Some?;
      return;
    }
    var n := Parts(size);
    var chksums := new ChksumWithSz[n];
    for k := 0 to n
      invariant forall j :: 0 <= j < k ==> PartDone(content, size, gets, chksums[..], order[j])
    {
      var num := order[k];
      var sz := PartSz(size, num);
      var part := CalPartChksum(content, gets[num], PartOffset(num), sz);
      if part.None? {
        assert !PartReadable(content, size, gets, num);
        return None;
      }
      ghost var was := chksums[..];
      chksums[num] := ChksumWithSz(part.value, sz);
      forall j | 0 <= j < k ensures PartDone(content, size, gets, chksums[..], order[j]) {
        assert PartDone(content, size, gets, was, order[j]);
      }
      assert PartDone(content, size, gets, chksums[..], num);
    }
    forall i: nat | i < n ensures PartDone(content, size, gets, chksums[..], i) {
      assert i in order;
    }
    assert AllReadable(content, size, gets) by {
      forall i: nat | i < n ensures PartReadable(content, size, gets, i) {
        assert PartDone(content, size, gets, chksums[..], i);
      }
    }
    ReadableIsLong(content, size, gets);
    PartsMakeWhole(content, size, gets, chksums[..]);
    var chksum := FoldChecksums(chksums);
    r := Some(chksum);
  }

  // ------------------------------------------------------------------ comparing the bytes

  datatype PartVerdict = Same | Differs | Failed

  ghost predicate DifferAt(a: seq<byte>, b: seq<byte>, from: nat, to: nat) {
    exists p :: from <= p < to && p < |a| && p < |b| && a[p] != b[p]
  }

  lemma RangesDiffer(a: seq<byte>, b: seq<byte>, from: nat, to: nat)
    requires from <= to <= |a| && to <= |b| && Range(a, from, to) != Range(b, from, to)
    ensures DifferAt(a, b, from, to)
  {
    var ra, rb := Range(a, from, to), Range(b, from, to);
    assert (forall k :: 0 <= k < |ra| ==> ra[k] == rb[k]) ==> ra == rb;
    var k :| 0 <= k < |ra| && ra[k] != rb[k];
    assert a[from + k] != b[from + k];
  }

  lemma RangesAgree(a: seq<byte>, b: seq<byte>, from: nat, mid: nat, to: nat)
    requires from <= mid <= to <= |a| && to <= |b|
    requires Range(a, from, mid) == Range(b, from, mid) && Range(a, mid, to) == Range(b, mid, to)
    ensures Range(a, from, to) == Range(b, from, to)
  {
    assert Range(a, from, to) == Range(a, from, mid) + Range(a, mid, to);
    assert Range(b, from, to) == Range(b, from, mid) + Range(b, mid, to);
  }

  /** One turn of the comparison of a part: a buffer from each side. */
  method CompareBuffer(a: seq<byte>, b: seq<byte>, ga: Get, gb: Get, offset: nat, pos: nat, bs: nat)
    returns (v: PartVerdict)
    requires offset + pos <= |a| && offset + pos <= |b|
    requires Range(a, offset, offset + pos) == Range(b, offset, offset + pos)
    ensures v != Failed <==>
      pos + bs <= ga.readable && pos + bs <= gb.readable && offset + pos + bs <= |a| && offset + pos + bs <= |b|
    ensures v == Same ==> Range(a, offset, offset + pos + bs) == Range(b, offset, offset + pos + bs)
    ensures v == Differs ==> DifferAt(a, b, offset + pos, offset + pos + bs)
  {
    hide Range, DifferAt;
    var buf := ReadFull(a, ga, offset, pos, bs);
    if buf.None? {
      return Failed;
    }
    var buf2 := ReadFull(b, gb, offset, pos, bs);
    if buf2.None? {
      return Failed;
    }
    if buf.value != buf2.value {
      RangesDiffer(a, b, offset + pos, offset + pos + bs);
      return Differs;
    }
    RangesAgree(a, b, offset, offset + pos, offset + pos + bs);
    v := Same;
  }

  method CompObjPartBinary(a: seq<byte>, b: seq<byte>, ga: Get, gb: Get, offset: nat, length: nat)
    returns (v: PartVerdict)
    ensures v == Same ==> Readable(a, ga, offset, length) && Readable(b, gb, offset, length)
    ensures v == Same ==> Range(a, offset, offset + length) == Range(b, offset, offset + length)
    ensures v == Differs ==> DifferAt(a, b, offset, offset + length)
    ensures v == Failed ==> !Readable(a, ga, offset, length) || !Readable(b, gb, offset, length)
    ensures v == Same ==> a[offset..offset + length] == b[offset..offset + length]
  {
    if ga.aborted || gb.aborted || !ga.accepted || offset > |a| || !gb.accepted || offset > |b| {
      return Failed;
    }
    assert Range(a, offset, offset) == Range(b, offset, offset);
    hide Range;
    var left, pos: nat := length as int, 0;
    while left > 0
      invariant pos <= length && offset + pos <= |a| && offset + pos <= |b| && pos <= ga.readable && pos <= gb.readable
      invariant left == length - pos || (left <= 0 && pos == length)
      invariant Range(a, offset, offset + pos) == Range(b, offset, offset + pos)
    {
      var bs := if left < BUFFER_SIZE then left else BUFFER_SIZE;
      v := CompareBuffer(a, b, ga, gb, offset, pos, bs);
      if v != Same {
        return;
      }
      pos, left := pos + bs, left - BUFFER_SIZE;
    }
    v := Same;
  }

  /** The comparison of two objects, whatever the order of the parts: equal only if they are, different
  only if they are, and an error only if something could not be read. */
  method CompObjBinary(a: seq<byte>, b: seq<byte>, size: nat, ga: seq<Get>, gb: seq<Get>, order: seq<nat>)
    returns (equal: bool, err: bool)
    requires |ga| == |gb| == Parts(size) && IsOrder(order, Parts(size))
    ensures equal ==> !err && size <= |a| && size <= |b| && a[..size] == b[..size]
    ensures !equal && !err ==> DifferAt(a, b, 0, size)
    ensures err ==> !AllReadable(a, size, ga) || !AllReadable(b, size, gb)
  {
    hide Range;
    var verdict := Same;
    for k := 0 to |order|
      invariant verdict == Same
      invariant forall j :: 0 <= j < k ==> PartSame(a, b, size, ga, gb, order[j])
    {
      var num := order[k];
      verdict := CompObjPartBinary(a, b, ga[num], gb[num], PartOffset(num), PartSz(size, num));
      if verdict != Same {
        assert verdict == Failed ==> !PartReadable(a, size, ga, num) || !PartReadable(b, size, gb, num);
        break;
      }
      assert PartSame(a, b, size, ga, gb, num);
    }
    if verdict == Differs {
      return false, false;
    }
    if verdict == Failed {
      return false, true;
    }
    forall i: nat | i < Parts(size) ensures PartSame(a, b, size, ga, gb, i) {
      assert i in order;
    }
    SamePartsSameWhole(a, b, size, ga, gb);
    return true, false;
  }

  ghost predicate PartSame(a: seq<byte>, b: seq<byte>, size: nat, ga: seq<Get>, gb: seq<Get>, i: nat)
    requires |ga| == |gb| == Parts(size)
  {
    && i < Parts(size) && PartReadable(a, size, ga, i) && PartReadable(b, size, gb, i)
    && Range(a, PartOffset(i), PartOffset(i) + PartSz(size, i))
        == Range(b, PartOffset(i), PartOffset(i) + PartSz(size, i))
  }

  lemma SamePartsSameWhole(a: seq<byte>, b: seq<byte>, size: nat, ga: seq<Get>, gb: seq<Get>)
    requires |ga| == |gb| == Parts(size)
    requires forall i: nat :: i < Parts(size) ==> PartSame(a, b, size, ga, gb, i)
    ensures size <= |a| && size <= |b| && a[..size] == b[..size]
  {
    hide Range, PartReadable;
    SameSoFar(a, b, size, ga, gb, Parts(size) - 1);
    WholeRange(a, size);
    WholeRange(b, size);
  }

  lemma WholeRange(a: seq<byte>, size: nat)
    requires size <= |a|
    ensures Range(a, 0, size) == a[..size] && Range(a, 0, 0) == []
  {
  }

  lemma {:induction false} SameSoFar(a: seq<byte>, b: seq<byte>, size: nat, ga: seq<Get>, gb: seq<Get>, i: nat)
    requires |ga| == |gb| == Parts(size) && i < Parts(size)
    requires forall j: nat :: j < Parts(size) ==> PartSame(a, b, size, ga, gb, j)
    ensures var e := PartOffset(i) + PartSz(size, i);
      e <= |a| && e <= |b| && Range(a, 0, e) == Range(b, 0, e)
  {
    hide Range, PartSz;
    assert PartSame(a, b, size, ga, gb, i);
    if i > 0 {
      SameSoFar(a, b, size, ga, gb, i - 1);
      PartsMeet(size, i);
      RangesAgree(a, b, 0, PartOffset(i), PartOffset(i) + PartSz(size, i));
    }
  }

  lemma PartsMeet(size: nat, i: nat)
    requires 0 < i < Parts(size)
    ensures PartOffset(i - 1) + PartSz(size, i - 1) == PartOffset(i)
  {
  }

  // ------------------------------------------------------------------ the verification of a copy

  /** The reads of one verification: those of the parts of either side, the order in which the parts
  finish, and the targets of both links, if they can be read; without support for links they are empty. */
  datatype Reads = Reads(
    src: seq<Get>, dst: seq<Get>, order: seq<nat>,
    srcLink: Option<string>, dstLink: Option<string>)

  predicate Fits(r: Reads, size: nat) {
    |r.src| == |r.dst| == Parts(size) && IsOrder(r.order, Parts(size))
  }

  /** Both links lead to the same place. */
  predicate SameLink(r: Reads) {
    r.srcLink.Some? && r.srcLink == r.dstLink && r.srcLink.value != ""
  }

  /** Both sides begin with the same bytes, as many as the listed size says. */
  predicate SameUpTo(a: seq<byte>, b: seq<byte>, size: nat) {
    size <= |a| && size <= |b| && a[..size] == b[..size]
  }

  lemma DifferentUpTo(a: seq<byte>, b: seq<byte>, size: nat)
    requires DifferAt(a, b, 0, size)
    ensures !SameUpTo(a, b, size)
  {
    var p :| 0 <= p < size && p < |a| && p < |b| && a[p] != b[p];
    assert size <= |a| && size <= |b| ==> a[..size][p] != b[..size][p];
  }

  /** The verification of an object of a listed size: links by their targets, otherwise the beginning of
  the destination against a checksum, if one is at hand, or against the source's bytes. The answer is right
  about that beginning, and comes whenever everything can be read. */
  method DoCheckSum(src: seq<byte>, dst: seq<byte>, size: nat, srcChksum: Option<word>, asLink: bool, r: Reads)
    returns (equal: bool, err: bool)
    requires Fits(r, size)
    ensures equal ==> !err
    ensures asLink ==> (err <==> r.srcLink.None? || r.dstLink.None?) && (equal <==> SameLink(r))
    ensures asLink && !err ==> (equal <==> r.srcLink == r.dstLink && r.srcLink != Some(""))
    ensures !asLink && srcChksum.Some? ==> (err <==> !AllReadable(dst, size, r.dst))
    ensures !asLink && srcChksum.Some? && !err ==>
              size <= |dst| && (equal <==> Crc(dst[..size]) == srcChksum.value)
    ensures !asLink && srcChksum.None? && err ==> !AllReadable(src, size, r.src) || !AllReadable(dst, size, r.dst)
    ensures !asLink && srcChksum.None? && !err ==>
              (equal <==> size <= |src| && size <= |dst| && src[..size] == dst[..size])
  {
    hide Crc, AllReadable;
    if asLink {
      if r.srcLink.None? || r.dstLink.None? {
        return false, true;
      }
      return r.srcLink == r.dstLink && r.srcLink.value != "" && r.dstLink.value != "", false;
    }
    if srcChksum.Some? {
      var dstChksum := CalObjChksum(dst, size, r.dst, r.order);
      equal, err := dstChksum.Some? && dstChksum.value == srcChksum.value, dstChksum.None?;
    } else {
      equal, err := CompObjBinary(src, dst, size, r.src, r.dst, r.order);
      if !equal && !err {
        DifferentUpTo(src, dst, size);
      }
    }
  }

  /** Objects found equal by their bytes are identical exactly when neither is longer than the other. */
  lemma EqualIsIdentical(src: seq<byte>, dst: seq<byte>, size: nat)
    requires SameUpTo(src, dst, size) && |src| == size
    ensures src == dst <==> |dst| == size
  {
    assert src[..size] == src;
    if |dst| == size {
      assert dst[..size] == dst;
    }
  }
}
