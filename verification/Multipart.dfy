/** The multipart copy: one goroutine a part, large parts assembled under a temporary name of their own
first; the first failure aborts the whole. Every store operation is one step, and one that fails has no
effect. */
module Multipart {
  import opened Keys
  import opened Objects
  import opened PartSize
  import opened Crc32c
  import opened Checksum

  /** The largest part that is uploaded without a temporary object. */
  const DIRECT_MAX: nat := 32 * MIB

  /** What is copied, and how: `partSize` cuts the source, `nested[p]` cuts part `p` when it is
  assembled under its temporary name, `copyable` tells whether the store can copy a part. */
  datatype Copy = Copy(src: seq<byte>, key: Key, partSize: nat, nested: seq<nat>, copyable: bool)

  predicate Valid(c: Copy) {
    && c.src != [] && c.partSize > 0
    && |c.nested| == PartCount(|c.src|, c.partSize)
    && forall p :: 0 <= p < |c.nested| ==> c.nested[p] > 0
  }

  function Count(c: Copy): nat {
    |c.nested|
  }

  /** The bytes of a part. */
  function Part(c: Copy, p: nat): (r: seq<byte>)
    requires Valid(c) && p < Count(c)
    ensures r != []
  {
    Piece(c.src, c.partSize, p)
  }

  function NestedCount(c: Copy, p: nat): nat
    requires Valid(c) && p < Count(c)
  {
    PartCount(|Part(c, p)|, c.nested[p])
  }

  function NestedPiece(c: Copy, p: nat, i: nat): seq<byte>
    requires Valid(c) && p < Count(c) && i < NestedCount(c, p)
  {
    Piece(Part(c, p), c.nested[p], i)
  }

  /** The parts that are assembled under a temporary name. */
  predicate Nests(c: Copy, p: nat)
    requires Valid(c) && p < Count(c)
  {
    |Part(c, p)| > DIRECT_MAX && c.copyable
  }

  // ------------------------------------------------------------------ temporary names

  function Decimal(n: nat): (s: string)
    ensures s != []
  {
    if n < 10 then [Digit(n)] else Decimal(n / 10) + [Digit(n % 10)]
  }

  function Digit(n: nat): char
    requires n < 10
  {
    '0' + n as char
  }

  function TmpKey(key: Key, p: nat): Key {
    key + (".part" + Decimal(p))
  }

  lemma {:induction false} DecimalInjective(a: nat, b: nat)
    ensures Decimal(a) == Decimal(b) ==> a == b
    decreases a
  {
    if Decimal(a) == Decimal(b) {
      var da, db := Decimal(a), Decimal(b);
      assert da[|da| - 1] == Digit(a % 10) && db[|db| - 1] == Digit(b % 10);
      if a >= 10 && b >= 10 {
        assert da[..|da| - 1] == Decimal(a / 10) && db[..|db| - 1] == Decimal(b / 10);
        DecimalInjective(a / 10, b / 10);
      }
    }
  }

  /** The number that digits tell. */
  function Value(s: string): nat {
    if s == [] || !('0' <= s[|s| - 1] <= '9') then 0
    else 10 * Value(s[..|s| - 1]) + (s[|s| - 1] - '0') as int
  }

  lemma {:induction false} DecimalReads(n: nat)
    ensures Value(Decimal(n)) == n && forall i :: 0 <= i < |Decimal(n)| ==> '0' <= Decimal(n)[i] <= '9'
    ensures Decimal(n)[0] == '0' ==> n == 0 && |Decimal(n)| == 1
  {
    var s := Decimal(n);
    assert s[|s| - 1] == Digit(n % 10);
    if n < 10 {
      assert s[..0] == [];
    } else {
      DecimalReads(n / 10);
      assert s[..|s| - 1] == Decimal(n / 10);
    }
  }

  /** A temporary name is the key, `.part`, and the number of the part in digits, without leading zeros. */
  lemma TmpKeyReads(key: Key, p: nat)
    ensures var k := TmpKey(key, p);
      && |k| > |key| + 5 && k[..|key| + 5] == key + ['.', 'p', 'a', 'r', 't']
      && (forall i :: |key| + 5 <= i < |k| ==> '0' <= k[i] <= '9') && Value(k[|key| + 5..]) == p
      && (k[|key| + 5] == '0' ==> |k| == |key| + 6)
  {
    DecimalReads(p);
    hide Decimal, Value;
    var k := TmpKey(key, p);
    assert k[|key| + 5..] == Decimal(p);
    assert forall i :: |key| + 5 <= i < |k| ==> k[i] == Decimal(p)[i - |key| - 5];
  }

  lemma TmpKeysApart(key: Key, p: nat, q: nat)
    ensures TmpKey(key, p) != key
    ensures TmpKey(key, p) == TmpKey(key, q) ==> p == q
  {
    hide Decimal;
    var a, b := TmpKey(key, p), TmpKey(key, q);
    assert |a| > |key|;
    if a == b {
      assert a[|key|..][5..] == Decimal(p) && b[|key|..][5..] == Decimal(q);
      DecimalInjective(p, q);
    }
  }

  // ------------------------------------------------------------------ the machine

  datatype Phase =
    | Waiting
    | Direct
    | Creating
    | Nested(i: nat, sum: word)
    | Copying(sum: word)
    | Cleaning(ok: bool, sum: word)
    | Finished(ok: bool, sum: word)

  datatype Main = Gathering(seen: set<nat>) | Aborting | Aborted | Succeeded(sum: word)

  /** The store's objects, the parts of the outer upload while it is open, the pieces of the open nested
  uploads, and where everybody is. `stuck` are the parts whose temporary object could not be deleted. */
  datatype State = State(
    objects: map<Key, seq<byte>>,
    outer: Option<map<nat, seq<byte>>>,
    tmps: map<nat, seq<seq<byte>>>,
    phases: seq<Phase>,
    abort: bool,
    main: Main,
    stuck: set<nat>)

  datatype Step =
    | Begin(p: nat, giveUp: bool)
    | PutPart(p: nat, ok: bool)
    | CreateTmp(p: nat, ok: bool)
    | PutPiece(p: nat, ok: bool)
    | GiveUp(p: nat)
    | CompleteTmp(p: nat, ok: bool)
    | CopyPart(p: nat, ok: bool)
    | DeleteTmp(p: nat, ok: bool)
    | Collect(p: nat)
    | CompleteOuter(ok: bool)
    | AbortOuter

  ghost predicate Start(c: Copy, s: State) {
    && s.outer == Some(map[]) && s.tmps == map[] && !s.abort && s.main == Gathering({}) && s.stuck == {}
    && |s.phases| == Count(c) && forall p :: 0 <= p < Count(c) ==> s.phases[p] == Waiting
  }

  ghost predicate AllSeen(c: Copy, s: State) {
    s.main.Gathering? && forall p: nat :: p < Count(c) ==> p in s.main.seen
  }

  ghost predicate Enabled(c: Copy, s: State, step: Step)
    requires Valid(c)
  {
    |s.phases| == Count(c) &&
    match step
    case Begin(p, giveUp) => p < Count(c) && s.phases[p].Waiting? && (giveUp ==> s.abort)
    case PutPart(p, ok) => p < Count(c) && s.phases[p].Direct? && (ok ==> s.outer.Some?)
    case CreateTmp(p, ok) => p < Count(c) && s.phases[p].Creating?
    case PutPiece(p, ok) =>
      p < Count(c) && s.phases[p].Nested? && s.phases[p].i < NestedCount(c, p) && p in s.tmps
    case GiveUp(p) => p < Count(c) && s.phases[p].Nested? && s.phases[p].i < NestedCount(c, p) && s.abort
    case CompleteTmp(p, ok) =>
      p < Count(c) && s.phases[p].Nested? && s.phases[p].i == NestedCount(c, p) && p in s.tmps
    case CopyPart(p, ok) =>
      p < Count(c) && s.phases[p].Copying? && (ok ==> s.outer.Some? && TmpKey(c.key, p) in s.objects)
    case DeleteTmp(p, ok) => p < Count(c) && s.phases[p].Cleaning?
    case Collect(p) => p < Count(c) && s.main.Gathering? && p !in s.main.seen && s.phases[p].Finished?
    case CompleteOuter(ok) =>
      AllSeen(c, s) && s.outer.Some?
      && (ok ==> forall p: nat :: p < Count(c) ==> p in s.outer.value && s.phases[p].Finished?)
    case AbortOuter => s.main.Aborting?
  }

  /** The checksum of the pieces so far, with one more. */
  function NextSum(i: nat, sum: word, piece: seq<byte>): word {
    if i == 0 then Crc(piece) else Combine(sum, Crc(piece), |piece|)
  }

  ghost function OuterParts(c: Copy, outer: map<nat, seq<byte>>): seq<seq<byte>>
    requires forall p: nat :: p < Count(c) ==> p in outer
  {
    seq(Count(c), p requires 0 <= p < Count(c) => outer[p])
  }

  ghost function Sums(c: Copy, s: State): seq<ChksumWithSz>
    requires Valid(c) && |s.phases| == Count(c) && forall p: nat :: p < Count(c) ==> s.phases[p].Finished?
  {
    seq(Count(c), p requires 0 <= p < Count(c) => ChksumWithSz(s.phases[p].sum, |Part(c, p)|))
  }

  ghost function Apply(c: Copy, s: State, step: Step): (s': State)
    requires Valid(c) && Enabled(c, s, step)
    ensures |s'.phases| == |s.phases|
  {
    match step
    case Begin(p, giveUp) =>
      s.(phases := s.phases[p :=
        if giveUp then Finished(false, 0)
        else if Nests(c, p) then Creating else Direct])
    case PutPart(p, ok) =>
      if ok then
        s.(outer := Some(s.outer.value[p := Part(c, p)]), phases := s.phases[p := Finished(true, Crc(Part(c, p)))])
      else s.(phases := s.phases[p := Finished(false, 0)])
    case CreateTmp(p, ok) =>
      if ok then s.(tmps := s.tmps[p := []], phases := s.phases[p := Nested(0, 0)])
      else s.(phases := s.phases[p := Finished(false, 0)])
    case PutPiece(p, ok) =>
      var i := s.phases[p].i;
      var piece := NestedPiece(c, p, i);
      if ok then
        s.(tmps := s.tmps[p := s.tmps[p] + [piece]],
           phases := s.phases[p := Nested(i + 1, NextSum(i, s.phases[p].sum, piece))])
      else s.(tmps := s.tmps - {p}, phases := s.phases[p := Finished(false, 0)])
    case GiveUp(p) => s.(tmps := s.tmps - {p}, phases := s.phases[p := Finished(false, 0)])
    case CompleteTmp(p, ok) =>
      if ok then
        s.(objects := s.objects[TmpKey(c.key, p) := Concat(s.tmps[p])], tmps := s.tmps - {p},
           phases := s.phases[p := Copying(s.phases[p].sum)])
      else s.(tmps := s.tmps - {p}, phases := s.phases[p := Finished(false, 0)])
    case CopyPart(p, ok) =>
      var s' := s.(phases := s.phases[p := Cleaning(ok, s.phases[p].sum)]);
      if ok then s'.(outer := Some(s.outer.value[p := s.objects[TmpKey(c.key, p)]])) else s'
    case DeleteTmp(p, ok) =>
      var s' := s.(phases := s.phases[p := Finished(s.phases[p].ok, s.phases[p].sum)]);
      if ok then s'.(objects := s.objects - {TmpKey(c.key, p)}) else s'.(stuck := s.stuck + {p})
    case Collect(p) =>
      if s.phases[p].ok then s.(main := Gathering(s.main.seen + {p})) else s.(main := Aborting, abort := true)
    case CompleteOuter(ok) =>
      if ok then
        s.(objects := s.objects[c.key := Concat(OuterParts(c, s.outer.value))], outer := None,
           main := Succeeded(Fold(Sums(c, s))))
      else s.(main := Aborting)
    case AbortOuter => s.(outer := None, main := Aborted)
  }

  // ------------------------------------------------------------------ the invariant

  ghost predicate Has(objects: map<Key, seq<byte>>, k: Key, data: seq<byte>) {
    k in objects && objects[k] == data
  }

  ghost predicate SameAt(a: map<Key, seq<byte>>, b: map<Key, seq<byte>>, k: Key) {
    (k in a <==> k in b) && (k in a ==> a[k] == b[k])
  }

  ghost predicate Uploaded(c: Copy, s: State, p: nat)
    requires Valid(c) && p < Count(c)
  {
    s.outer.Some? ==> p in s.outer.value && s.outer.value[p] == Part(c, p)
  }

  ghost predicate PiecesRight(c: Copy, pieces: seq<seq<byte>>, p: nat, i: nat, sum: word)
    requires Valid(c) && p < Count(c)
  {
    && |pieces| == i <= NestedCount(c, p)
    && (forall j :: 0 <= j < i ==> pieces[j] == NestedPiece(c, p, j))
    && (i > 0 ==> sum == Crc(Concat(pieces)))
  }

  ghost predicate PartRight(c: Copy, s: State, p: nat)
    requires Valid(c) && |s.phases| == Count(c) && p < Count(c)
  {
    (p in s.stuck ==> s.phases[p].Finished?) &&
    match s.phases[p]
    case Waiting => p !in s.tmps
    case Direct => p !in s.tmps && !Nests(c, p)
    case Creating => p !in s.tmps && Nests(c, p)
    case Nested(i, sum) => Nests(c, p) && p in s.tmps && PiecesRight(c, s.tmps[p], p, i, sum)
    case Copying(sum) =>
      Nests(c, p) && p !in s.tmps && Has(s.objects, TmpKey(c.key, p), Part(c, p)) && sum == Crc(Part(c, p))
    case Cleaning(ok, sum) =>
      && Nests(c, p) && p !in s.tmps && Has(s.objects, TmpKey(c.key, p), Part(c, p)) && sum == Crc(Part(c, p))
      && (ok ==> Uploaded(c, s, p))
    case Finished(ok, sum) =>
      p !in s.tmps && (ok ==> sum == Crc(Part(c, p)) && Uploaded(c, s, p) && (Nests(c, p) ==> NameTaken(c, s, p)))
  }

  /** The temporary object is gone, or, if its deletion has failed, it is what lies under its name. */
  ghost predicate NameTaken(c: Copy, s: State, p: nat)
    requires Valid(c) && p < Count(c)
  {
    if p in s.stuck then Has(s.objects, TmpKey(c.key, p), Part(c, p)) else TmpKey(c.key, p) !in s.objects
  }

  ghost predicate PartsRight(c: Copy, s: State)
    requires Valid(c) && |s.phases| == Count(c)
  {
    forall p: nat :: p < Count(c) ==> PartRight(c, s, p)
  }

  /** The temporary names that are used. */
  ghost predicate IsTmp(c: Copy, k: Key)
    requires Valid(c)
  {
    exists p: nat :: p < Count(c) && Nests(c, p) && k == TmpKey(c.key, p)
  }

  /** No other object is touched, and the object itself only by a success. */
  ghost predicate OthersKept(c: Copy, before: map<Key, seq<byte>>, s: State)
    requires Valid(c)
  {
    && (forall k :: k != c.key && !IsTmp(c, k) ==> SameAt(s.objects, before, k))
    && (if s.main.Succeeded? then Has(s.objects, c.key, c.src) else SameAt(s.objects, before, c.key))
  }

  /** A temporary object is there only between its assembly and its deletion. */
  ghost predicate TmpsRight(c: Copy, before: map<Key, seq<byte>>, s: State)
    requires |s.phases| == Count(c)
  {
    forall p: nat :: p < Count(c) && TmpKey(c.key, p) in s.objects ==>
      TmpKey(c.key, p) in before || s.phases[p].Copying? || s.phases[p].Cleaning? || p in s.stuck
  }

  ghost predicate MainRight(c: Copy, s: State)
    requires |s.phases| == Count(c)
  {
    && (s.outer.None? <==> s.main.Aborted? || s.main.Succeeded?)
    && (s.main.Gathering? ==> forall p :: p in s.main.seen ==>
          p < Count(c) && s.phases[p].Finished? && s.phases[p].ok)
    && (s.main.Succeeded? ==> s.main.sum == Crc(c.src))
    && (s.main.Succeeded? ==> forall p: nat :: p < Count(c) ==> s.phases[p].Finished? && s.phases[p].ok)
    && (forall p :: p in s.tmps ==> p < Count(c))
  }

  ghost predicate Inv(c: Copy, before: map<Key, seq<byte>>, s: State)
    requires Valid(c)
  {
    && |s.phases| == Count(c)
    && PartsRight(c, s) && OthersKept(c, before, s) && TmpsRight(c, before, s) && MainRight(c, s)
  }

  lemma StartInv(c: Copy, s: State)
    requires Valid(c) && Start(c, s)
    ensures Inv(c, s.objects, s)
  {
  }

  // ------------------------------------------------------------------ assembling

  /** All pieces of a part make the part. */
  lemma AssembledPart(c: Copy, pieces: seq<seq<byte>>, p: nat, sum: word)
    requires Valid(c) && p < Count(c) && PiecesRight(c, pieces, p, NestedCount(c, p), sum)
    ensures Concat(pieces) == Part(c, p) && sum == Crc(Part(c, p))
  {
    hide Crc;
    PiecesAreWhole(Part(c, p), c.nested[p], pieces);
  }

  lemma OnePieceMore(c: Copy, pieces: seq<seq<byte>>, p: nat, i: nat, sum: word)
    requires Valid(c) && p < Count(c) && PiecesRight(c, pieces, p, i, sum) && i < NestedCount(c, p)
    ensures var piece := NestedPiece(c, p, i);
      PiecesRight(c, pieces + [piece], p, i + 1, NextSum(i, sum, piece))
  {
    hide Crc, Combine, Piece, NestedCount, PartCount;
    var piece := NestedPiece(c, p, i);
    assert (pieces + [piece])[..i] == pieces;
    if i == 0 {
      assert pieces == [] && Concat(pieces + [piece]) == [] + piece == piece;
    } else {
      CombineIsConcat(Concat(pieces), piece);
    }
  }

  lemma AllUploaded(c: Copy, s: State, p: nat)
    requires Valid(c) && |s.phases| == Count(c) && PartsRight(c, s) && MainRight(c, s)
    requires AllSeen(c, s) && s.outer.Some? && p < Count(c)
    ensures p in s.outer.value && s.outer.value[p] == Part(c, p)
    ensures s.phases[p].Finished? && s.phases[p].ok && s.phases[p].sum == Crc(Part(c, p))
  {
    hide Crc, Part;
    assert p in s.main.seen;
    assert PartRight(c, s, p);
  }

  /** With all parts uploaded, the completed object is the source, and the checksums fold to its own. */
  lemma AssembledObject(c: Copy, s: State)
    requires Valid(c) && |s.phases| == Count(c) && PartsRight(c, s) && MainRight(c, s)
    requires AllSeen(c, s) && s.outer.Some?
    ensures forall p: nat :: p < Count(c) ==> p in s.outer.value && s.phases[p].Finished? && s.phases[p].ok
    ensures Concat(OuterParts(c, s.outer.value)) == c.src
    ensures Fold(Sums(c, s)) == Crc(c.src)
  {
    hide Crc, Combine, Piece, PartsRight, MainRight, AllSeen;
    forall p: nat | p < Count(c)
      ensures p in s.outer.value && s.outer.value[p] == Part(c, p)
      ensures s.phases[p].Finished? && s.phases[p].ok && s.phases[p].sum == Crc(Part(c, p))
    {
      AllUploaded(c, s, p);
    }
    var parts := OuterParts(c, s.outer.value);
    PiecesAreWhole(c.src, c.partSize, parts);
    FoldIsWhole(Sums(c, s), parts);
  }

  // ------------------------------------------------------------------ every step

  /** What `PartRight` of a part depends on. */
  ghost predicate Untouched(c: Copy, s: State, s': State, q: nat)
    requires |s.phases| == |s'.phases| == Count(c) && q < Count(c)
  {
    && s'.phases[q] == s.phases[q]
    && (q in s'.tmps <==> q in s.tmps) && (q in s.tmps ==> s'.tmps[q] == s.tmps[q])
    && SameAt(s'.objects, s.objects, TmpKey(c.key, q)) && (q in s'.stuck <==> q in s.stuck)
    && (s'.outer.Some? ==> s.outer.Some?)
    && (s'.outer.Some? && q in s.outer.value ==> q in s'.outer.value && s'.outer.value[q] == s.outer.value[q])
  }

  lemma Framed(c: Copy, s: State, s': State, q: nat)
    requires Valid(c) && |s.phases| == |s'.phases| == Count(c) && q < Count(c)
    requires PartRight(c, s, q) && Untouched(c, s, s', q)
    ensures PartRight(c, s', q)
  {
    hide Crc, Part, TmpKey, PiecesRight;
  }

  /** The part a step is about. */
  function Mover(step: Step): Option<nat> {
    match step
    case Collect(_) => None
    case CompleteOuter(_) => None
    case AbortOuter => None
    case _ => Some(step.p)
  }

  lemma OtherPart(c: Copy, s: State, step: Step, q: nat)
    requires Valid(c) && |s.phases| == Count(c) && Enabled(c, s, step) && q < Count(c) && Mover(step) != Some(q)
    ensures Untouched(c, s, Apply(c, s, step), q)
  {
    hide Crc, Combine, Concat, Part, NextSum, TmpKey, Fold, OuterParts, Sums, Valid, NestedPiece, NestedCount;
    TmpKeysApart(c.key, q, q);
    if step.CompleteTmp? || step.DeleteTmp? {
      TmpKeysApart(c.key, step.p, q);
    }
  }

  lemma OwnPart(c: Copy, s: State, step: Step, q: nat)
    requires Valid(c) && |s.phases| == Count(c) && PartsRight(c, s) && Enabled(c, s, step) && q < Count(c)
    requires Mover(step) == Some(q)
    ensures PartRight(c, Apply(c, s, step), q)
  {
    hide Crc, Concat, Part, NextSum, TmpKey, Fold, OuterParts, Sums, PiecesRight, NestedPiece, NestedCount,
      PartsRight, Valid;
    PartAt(c, s, q);
    match step
    case CreateTmp(_, _) => NoPieces(c, q);
    case PutPiece(_, _) => OnePieceMoreAt(c, s, q);
    case CompleteTmp(_, _) => AssembledAt(c, s, q);
    case _ =>
  }

  lemma PartAt(c: Copy, s: State, q: nat)
    requires Valid(c) && |s.phases| == Count(c) && PartsRight(c, s) && q < Count(c)
    ensures PartRight(c, s, q)
  {
  }

  lemma PartsKept(c: Copy, s: State, step: Step)
    requires Valid(c) && |s.phases| == Count(c) && PartsRight(c, s) && Enabled(c, s, step)
    ensures PartsRight(c, Apply(c, s, step))
  {
    hide Apply, Enabled, PartRight, Untouched, Valid;
    forall q: nat | q < Count(c) ensures PartRight(c, Apply(c, s, step), q) {
      if Mover(step) == Some(q) {
        OwnPart(c, s, step, q);
      } else {
        OtherPart(c, s, step, q);
        Framed(c, s, Apply(c, s, step), q);
      }
    }
  }

  lemma NoPieces(c: Copy, p: nat)
    requires Valid(c) && p < Count(c)
    ensures PiecesRight(c, [], p, 0, 0)
  {
  }

  lemma OnePieceMoreAt(c: Copy, s: State, p: nat)
    requires Valid(c) && |s.phases| == Count(c) && PartsRight(c, s) && Enabled(c, s, PutPiece(p, true))
    ensures var piece := NestedPiece(c, p, s.phases[p].i);
      PiecesRight(c, s.tmps[p] + [piece], p, s.phases[p].i + 1, NextSum(s.phases[p].i, s.phases[p].sum, piece))
  {
    hide PiecesRight, NextSum, Piece, Part;
    assert PartRight(c, s, p);
    OnePieceMore(c, s.tmps[p], p, s.phases[p].i, s.phases[p].sum);
  }

  lemma AssembledAt(c: Copy, s: State, p: nat)
    requires Valid(c) && |s.phases| == Count(c) && PartsRight(c, s) && Enabled(c, s, CompleteTmp(p, true))
    ensures Concat(s.tmps[p]) == Part(c, p) && s.phases[p].sum == Crc(Part(c, p))
  {
    hide Concat, Crc, Part, PiecesRight;
    assert PartRight(c, s, p);
    AssembledPart(c, s.tmps[p], p, s.phases[p].sum);
  }

  /** What a step of a part leaves alone. */
  lemma PartStep(c: Copy, s: State, step: Step)
    requires Valid(c) && Enabled(c, s, step) && Mover(step).Some?
    ensures var s', p := Apply(c, s, step), Mover(step).value;
      && p < Count(c) && !s.phases[p].Finished?
      && s'.main == s.main && (s'.outer.None? <==> s.outer.None?)
      && (s'.stuck == s.stuck || step == DeleteTmp(p, false))
      && (forall q :: 0 <= q < Count(c) && q != p ==> s'.phases[q] == s.phases[q])
      && (forall q :: q in s'.tmps ==> q in s.tmps || q == p)
  {
    hide Crc, Concat, Part, NextSum, TmpKey, Fold, OuterParts, Sums, NestedPiece, NestedCount, Valid;
  }

  lemma PartObjects(c: Copy, s: State, step: Step, k: Key)
    requires Valid(c) && Enabled(c, s, step) && Mover(step).Some?
    ensures k != TmpKey(c.key, Mover(step).value) ==> SameAt(Apply(c, s, step).objects, s.objects, k)
    ensures !step.CompleteTmp? && !step.DeleteTmp? ==> Apply(c, s, step).objects == s.objects
  {
    hide Crc, Concat, Part, NextSum, TmpKey, Fold, OuterParts, Sums, NestedPiece, NestedCount, Valid;
  }

  /** A temporary object is written and deleted only for a part that nests. */
  lemma TmpUsed(c: Copy, s: State, step: Step)
    requires Valid(c) && |s.phases| == Count(c) && PartsRight(c, s) && Enabled(c, s, step)
    requires step.CompleteTmp? || step.DeleteTmp?
    ensures IsTmp(c, TmpKey(c.key, step.p))
  {
    PartAt(c, s, step.p);
  }

  lemma OthersStay(c: Copy, before: map<Key, seq<byte>>, s: State, step: Step)
    requires Valid(c) && Inv(c, before, s) && Enabled(c, s, step)
    ensures OthersKept(c, before, Apply(c, s, step))
  {
    hide Crc, Combine, Concat, Part, NextSum, TmpKey, Fold, OuterParts, Sums, PartRight, TmpsRight, Valid;
    if Mover(step).Some? {
      hide Apply, Enabled;
      var p, s' := Mover(step).value, Apply(c, s, step);
      PartStep(c, s, step);
      TmpKeysApart(c.key, p, p);
      if step.CompleteTmp? || step.DeleteTmp? { TmpUsed(c, s, step); }
      hide IsTmp;
      forall k | k == c.key || !IsTmp(c, k) ensures SameAt(s'.objects, s.objects, k) {
        PartObjects(c, s, step, k);
      }
    } else if step.CompleteOuter? {
      AssembledObject(c, s);
    }
  }

  lemma TmpsStay(c: Copy, before: map<Key, seq<byte>>, s: State, step: Step)
    requires Valid(c) && |s.phases| == Count(c) && TmpsRight(c, before, s) && Enabled(c, s, step)
    ensures TmpsRight(c, before, Apply(c, s, step))
  {
    hide Crc, Combine, Concat, Part, NextSum, TmpKey, Fold, OuterParts, Sums, NestedPiece, NestedCount, Valid;
    var s' := Apply(c, s, step);
    forall q: nat | q < Count(c) && TmpKey(c.key, q) in s'.objects
      ensures TmpKey(c.key, q) in before || s'.phases[q].Copying? || s'.phases[q].Cleaning? || q in s'.stuck
    {
      TmpKeysApart(c.key, q, q);
      if step.CompleteTmp? || step.DeleteTmp? {
        TmpKeysApart(c.key, step.p, q);
      }
    }
  }

  lemma MainStays(c: Copy, before: map<Key, seq<byte>>, s: State, step: Step)
    requires Valid(c) && Inv(c, before, s) && Enabled(c, s, step)
    ensures MainRight(c, Apply(c, s, step))
  {
    hide Crc, Combine, Concat, Part, NextSum, TmpKey, Fold, OuterParts, Sums, PartRight, TmpsRight, OthersKept, Valid;
    if Mover(step).Some? {
      hide Apply, Enabled;
      PartStep(c, s, step);
    } else if step.CompleteOuter? {
      AssembledObject(c, s);
    }
  }

  /** Every step keeps the invariant. */
  lemma StepInv(c: Copy, before: map<Key, seq<byte>>, s: State, step: Step)
    requires Valid(c) && Inv(c, before, s) && Enabled(c, s, step)
    ensures Inv(c, before, Apply(c, s, step))
  {
    PartsKept(c, s, step);
    OthersStay(c, before, s, step);
    TmpsStay(c, before, s, step);
    MainStays(c, before, s, step);
    hide Apply, Enabled, PartsRight, OthersKept, TmpsRight, MainRight;
  }

  // ------------------------------------------------------------------ whole runs

  ghost predicate Leads(c: Copy, s: State, s': State)
    requires Valid(c)
  {
    exists step :: Enabled(c, s, step) && s' == Apply(c, s, step)
  }

  ghost predicate IsRun(c: Copy, run: seq<State>)
    requires Valid(c)
  {
    && run != [] && Start(c, run[0])
    && forall i, j :: 0 <= i && j == i + 1 < |run| ==> Leads(c, run[i], run[j])
  }

  lemma {:induction false} RunInv(c: Copy, run: seq<State>)
    requires Valid(c) && IsRun(c, run)
    ensures Inv(c, run[0].objects, run[|run| - 1])
    decreases |run|
  {
    if |run| == 1 {
      StartInv(c, run[0]);
    } else {
      var n := |run| - 2;
      RunInv(c, run[..n + 1]);
      assert Leads(c, run[n], run[n + 1]);
      var step :| Enabled(c, run[n], step) && run[n + 1] == Apply(c, run[n], step);
      StepInv(c, run[0].objects, run[n], step);
    }
  }

  ghost predicate AllFinished(c: Copy, s: State)
    requires |s.phases| == Count(c)
  {
    forall p: nat :: p < Count(c) ==> s.phases[p].Finished?
  }

  /** Whatever the order and the failures: a success leaves the source's bytes under the key, with their
  checksum, every part having succeeded; otherwise the key is as it was, and after the abort the outer
  upload is gone; no other object changes but those with the temporary name of a part that nests; and when
  all goroutines are done and every deletion has worked, no temporary object or upload of this copy is left. */
  lemma CopyOutcome(c: Copy, run: seq<State>)
    requires Valid(c) && IsRun(c, run)
    ensures var before, s := run[0].objects, run[|run| - 1];
      && |s.phases| == Count(c)
      && (s.main.Succeeded? ==> Has(s.objects, c.key, c.src) && s.main.sum == Crc(c.src))
      && (s.main.Succeeded? ==> forall p: nat :: p < Count(c) ==> s.phases[p].Finished? && s.phases[p].ok)
      && (!s.main.Succeeded? ==> SameAt(s.objects, before, c.key))
      && (s.main.Succeeded? || s.main.Aborted? <==> s.outer.None?)
      && (forall k :: k != c.key && !IsTmp(c, k) ==> SameAt(s.objects, before, k))
      && (AllFinished(c, s) && s.stuck == {} ==> s.tmps == map[])
      && (AllFinished(c, s) && s.stuck == {} ==> forall p: nat :: p < Count(c) ==>
            TmpKey(c.key, p) in s.objects ==> TmpKey(c.key, p) in before)
  {
    RunInv(c, run);
    var s := run[|run| - 1];
    if AllFinished(c, s) {
      NoUploadLeft(c, s);
    }
    hide Crc, PartsRight, IsTmp, TmpKey, Part, Start;
  }

  lemma NoUploadLeft(c: Copy, s: State)
    requires Valid(c) && |s.phases| == Count(c) && PartsRight(c, s) && MainRight(c, s) && AllFinished(c, s)
    ensures s.tmps == map[]
  {
    if p :| p in s.tmps {
      PartAt(c, s, p);
      assert false;
    }
  }

  /** Until all goroutines have finished and the copy has succeeded or is aborted, something can go on. */
  lemma NeverStuck(c: Copy, before: map<Key, seq<byte>>, s: State) returns (step: Step)
    requires Valid(c) && Inv(c, before, s)
    requires !AllFinished(c, s) || !(s.main.Succeeded? || s.main.Aborted?)
    ensures Enabled(c, s, step)
  {
    hide Crc, Part, NestedPiece, OthersKept, TmpsRight, TmpKey;
    if p: nat :| p < Count(c) && !s.phases[p].Finished? {
      PartAt(c, s, p);
      step := match s.phases[p]
        case Waiting => Begin(p, false)
        case Direct => PutPart(p, false)
        case Creating => CreateTmp(p, false)
        case Nested(i, _) => if i < NestedCount(c, p) then PutPiece(p, false) else CompleteTmp(p, false)
        case Copying(_) => CopyPart(p, false)
        case _ => DeleteTmp(p, false);
    } else if s.main.Aborting? {
      step := AbortOuter;
    } else if p: nat :| p < Count(c) && p !in s.main.seen {
      step := Collect(p);
    } else {
      step := CompleteOuter(false);
    }
  }

  // ------------------------------------------------------------------ names that are taken

  /** After a success the temporary name of a part that nests has lost what it held before: nothing is
  there, or, where the deletion has failed, the part. */
  lemma SuccessTakesNames(c: Copy, run: seq<State>, p: nat)
    requires Valid(c) && IsRun(c, run) && run[|run| - 1].main.Succeeded? && p < Count(c) && Nests(c, p)
    ensures NameTaken(c, run[|run| - 1], p)
  {
    RunInv(c, run);
    PartAt(c, run[|run| - 1], p);
  }

  /** After a success with every deletion, exactly the objects under such a name are not what they were. */
  lemma SurvivesIff(c: Copy, run: seq<State>, k: Key)
    requires Valid(c) && IsRun(c, run) && run[|run| - 1].main.Succeeded? && run[|run| - 1].stuck == {}
    requires k != c.key && k in run[0].objects
    ensures SameAt(run[|run| - 1].objects, run[0].objects, k) <==> !IsTmp(c, k)
  {
    CopyOutcome(c, run);
    hide IsRun, TmpKey;
    if p: nat :| p < Count(c) && Nests(c, p) && k == TmpKey(c.key, p) {
      SuccessTakesNames(c, run, p);
    }
  }

  /** All parts before `p` are done and none after it has begun; nothing has gone wrong. */
  ghost predicate Busy(c: Copy, run: seq<State>, p: nat)
    requires Valid(c)
  {
    && IsRun(c, run)
    && var s := run[|run| - 1];
       && |s.phases| == Count(c) && s.outer.Some? && s.main == Gathering({}) && s.stuck == {}
       && (forall q :: 0 <= q < Count(c) && q < p ==> s.phases[q].Finished? && s.phases[q].ok)
       && (forall q :: 0 <= q < Count(c) && q > p ==> s.phases[q].Waiting?)
  }

  lemma Extend(c: Copy, run: seq<State>, step: Step) returns (run': seq<State>)
    requires Valid(c) && IsRun(c, run) && Enabled(c, run[|run| - 1], step)
    ensures IsRun(c, run') && run' != [] && run'[0] == run[0] && run'[|run'| - 1] == Apply(c, run[|run| - 1], step)
  {
    hide Apply, Start, Enabled;
    run' := run + [Apply(c, run[|run| - 1], step)];
    assert Leads(c, run[|run| - 1], run'[|run|]);
  }

  lemma GoesOn(c: Copy, run: seq<State>, p: nat, step: Step) returns (run': seq<State>)
    requires Valid(c) && p < Count(c) && Busy(c, run, p) && Enabled(c, run[|run| - 1], step)
    requires Mover(step) == Some(p) && step != DeleteTmp(p, false)
    ensures Busy(c, run', p) && run'[0] == run[0] && run'[|run'| - 1] == Apply(c, run[|run| - 1], step)
  {
    PartStep(c, run[|run| - 1], step);
    run' := Extend(c, run, step);
    hide Apply, Enabled, IsRun, Valid;
  }

  lemma {:induction false} PutTheRest(c: Copy, run: seq<State>, p: nat) returns (run': seq<State>)
    requires Valid(c) && p < Count(c) && Busy(c, run, p) && run[|run| - 1].phases[p].Nested?
    ensures Busy(c, run', p) && run'[0] == run[0]
    ensures var s := run'[|run'| - 1];
      s.phases[p].Nested? && s.phases[p].i == NestedCount(c, p) && p in s.tmps
    decreases NestedCount(c, p) - run[|run| - 1].phases[p].i
  {
    BusyRun(c, run, p);
    RunInv(c, run);
    PartAt(c, run[|run| - 1], p);
    hide Crc, NextSum, NestedPiece, Part, NestedCount, IsRun, Inv, PartRight;
    if run[|run| - 1].phases[p].i == NestedCount(c, p) {
      return run;
    }
    run' := GoesOn(c, run, p, PutPiece(p, true));
    run' := PutTheRest(c, run', p);
  }

  lemma BusyRun(c: Copy, run: seq<State>, p: nat)
    requires Valid(c) && Busy(c, run, p)
    ensures IsRun(c, run) && |run[|run| - 1].phases| == Count(c)
  {
  }

  /** A part begins and goes well. */
  lemma PartGoesWell(c: Copy, run: seq<State>, p: nat) returns (run': seq<State>)
    requires Valid(c) && p < Count(c) && Busy(c, run, p) && run[|run| - 1].phases[p].Waiting?
    ensures Busy(c, run', p) && run'[0] == run[0]
    ensures run'[|run'| - 1].phases[p].Finished? && run'[|run'| - 1].phases[p].ok
  {
    hide Crc, NextSum, NestedPiece, Part, NestedCount, Concat, Nests, IsRun, Valid;
    run' := GoesOn(c, run, p, Begin(p, false));
    if !Nests(c, p) {
      run' := GoesOn(c, run', p, PutPart(p, true));
    } else {
      run' := GoesOn(c, run', p, CreateTmp(p, true));
      run' := PutTheRest(c, run', p);
      run' := GoesOn(c, run', p, CompleteTmp(p, true));
      run' := GoesOn(c, run', p, CopyPart(p, true));
      run' := GoesOn(c, run', p, DeleteTmp(p, true));
    }
  }

  lemma {:induction false} PartsGoWell(c: Copy, run: seq<State>, p: nat) returns (run': seq<State>)
    requires Valid(c) && p <= Count(c) && Busy(c, run, p) && (p < Count(c) ==> run[|run| - 1].phases[p].Waiting?)
    ensures Busy(c, run', Count(c)) && run'[0] == run[0]
    decreases Count(c) - p
  {
    run' := run;
    if p < Count(c) {
      run' := PartGoesWell(c, run, p);
      hide IsRun, Valid;
      run' := PartsGoWell(c, run', p + 1);
    }
  }

  /** The first `n` parts have been collected. */
  ghost predicate Collected(c: Copy, run: seq<State>, n: nat)
    requires Valid(c)
  {
    && IsRun(c, run)
    && var s := run[|run| - 1];
       && |s.phases| == Count(c) && s.outer.Some? && s.stuck == {} && s.main.Gathering?
       && (forall q :: q in s.main.seen <==> 0 <= q < n)
       && (forall q :: 0 <= q < Count(c) ==> s.phases[q].Finished? && s.phases[q].ok)
  }

  lemma {:induction false} CollectAll(c: Copy, run: seq<State>, n: nat) returns (run': seq<State>)
    requires Valid(c) && n <= Count(c) && Collected(c, run, n)
    ensures Collected(c, run', Count(c)) && run'[0] == run[0]
    decreases Count(c) - n
  {
    run' := run;
    if n < Count(c) {
      hide IsRun, Valid;
      run' := Extend(c, run, Collect(n));
      run' := CollectAll(c, run', n + 1);
    }
  }

  /** Whatever the copy and what is there before, there is a run in which everything goes well. */
  lemma AllGoesWell(c: Copy, before: map<Key, seq<byte>>) returns (run: seq<State>)
    requires Valid(c)
    ensures IsRun(c, run) && run[0].objects == before
    ensures run[|run| - 1].main.Succeeded? && run[|run| - 1].stuck == {}
  {
    run := [State(before, Some(map[]), map[], seq(Count(c), i => Waiting), false, Gathering({}), {})];
    assert Start(c, run[0]);
    run := PartsGoWell(c, run, 0);
    run := CollectAll(c, run, 0);
    RunInv(c, run);
    var s := run[|run| - 1];
    AssembledObject(c, s);
    hide IsRun, Inv, Valid;
    run := Extend(c, run, CompleteOuter(true));
  }

  /** An object of the destination other than the one copied can be lost to a copy that succeeds if and only
  if it bears the temporary name of a part that nests. */
  lemma TakenNameIsLost(c: Copy, before: map<Key, seq<byte>>, k: Key)
    requires Valid(c) && k != c.key && k in before
    ensures IsTmp(c, k) <==> exists run: seq<State> ::
      IsRun(c, run) && run[0].objects == before && run[|run| - 1].main.Succeeded?
      && !SameAt(run[|run| - 1].objects, before, k)
  {
    if IsTmp(c, k) {
      var run := AllGoesWell(c, before);
      SurvivesIff(c, run, k);
    }
    forall run: seq<State> | IsRun(c, run) && run[0].objects == before && !IsTmp(c, k)
      ensures SameAt(run[|run| - 1].objects, before, k)
    {
      CopyOutcome(c, run);
    }
  }

  // ------------------------------------------------------------------ an end to it

  /** How many steps a part can still take. */
  function PartLeft(c: Copy, p: nat, phase: Phase): int
    requires Valid(c) && p < Count(c)
  {
    match phase
    case Waiting => NestedCount(c, p) + 6
    case Direct => 1
    case Creating => NestedCount(c, p) + 5
    case Nested(i, _) => NestedCount(c, p) - i + 4
    case Copying(_) => 3
    case Cleaning(_, _) => 2
    case Finished(_, _) => 0
  }

  function PartsLeft(c: Copy, phases: seq<Phase>): int
    requires Valid(c) && |phases| <= Count(c)
  {
    if phases == [] then 0
    else PartsLeft(c, phases[..|phases| - 1]) + PartLeft(c, |phases| - 1, phases[|phases| - 1])
  }

  function MainLeft(c: Copy, main: Main): int {
    match main
    case Gathering(seen) => Count(c) - |seen| + 2
    case Aborting => 1
    case _ => 0
  }

  function Left(c: Copy, s: State): int
    requires Valid(c) && |s.phases| == Count(c)
  {
    PartsLeft(c, s.phases) + MainLeft(c, s.main)
  }

  lemma {:induction false} PartsLeftUpdate(c: Copy, phases: seq<Phase>, p: nat, phase: Phase)
    requires Valid(c) && |phases| <= Count(c) && p < |phases|
    ensures PartsLeft(c, phases[p := phase]) == PartsLeft(c, phases) - PartLeft(c, p, phases[p]) + PartLeft(c, p, phase)
    decreases |phases|
  {
    hide PartLeft;
    var n := |phases| - 1;
    if p == n {
      assert phases[p := phase][..n] == phases[..n];
    } else {
      assert phases[p := phase][..n] == phases[..n][p := phase];
      PartsLeftUpdate(c, phases[..n], p, phase);
    }
  }

  lemma {:induction false} PartsLeftNotNegative(c: Copy, s: State, n: nat)
    requires Valid(c) && |s.phases| == Count(c) && PartsRight(c, s) && n <= Count(c)
    ensures PartsLeft(c, s.phases[..n]) >= 0
  {
    if n > 0 {
      PartsLeftNotNegative(c, s, n - 1);
      PartAt(c, s, n - 1);
      assert s.phases[..n][..n - 1] == s.phases[..n - 1];
    }
  }

  lemma {:induction false} SetWithin(seen: set<nat>, n: nat)
    requires forall p :: p in seen ==> p < n
    ensures |seen| <= n
  {
    if n > 0 {
      SetWithin(seen - {n - 1}, n - 1);
      if n - 1 in seen {
        assert |seen - {n - 1}| == |seen| - 1;
      } else {
        assert seen - {n - 1} == seen;
      }
    } else {
      assert seen == {};
    }
  }

  lemma LeftNotNegative(c: Copy, before: map<Key, seq<byte>>, s: State)
    requires Valid(c) && Inv(c, before, s)
    ensures Left(c, s) >= 0
  {
    PartsLeftNotNegative(c, s, Count(c));
    assert s.phases[..Count(c)] == s.phases;
    SeenWithin(c, s);
  }

  lemma SeenWithin(c: Copy, s: State)
    requires |s.phases| == Count(c) && MainRight(c, s)
    ensures s.main.Gathering? ==> |s.main.seen| <= Count(c)
  {
    if s.main.Gathering? { SetWithin(s.main.seen, Count(c)); }
  }

  lemma PartMoves(c: Copy, s: State, step: Step)
    requires Valid(c) && Enabled(c, s, step) && Mover(step).Some?
    ensures var p := Mover(step).value;
      Apply(c, s, step).phases == s.phases[p := Apply(c, s, step).phases[p]] && Apply(c, s, step).main == s.main
  {
    PartStep(c, s, step);
    hide Apply, Enabled, Valid;
  }

  lemma PartShrinks(c: Copy, s: State, step: Step)
    requires Valid(c) && Enabled(c, s, step) && Mover(step).Some?
    ensures var p := Mover(step).value;
      PartLeft(c, p, Apply(c, s, step).phases[p]) < PartLeft(c, p, s.phases[p])
  {
    hide Crc, Concat, Part, NextSum, TmpKey, Fold, OuterParts, Sums, NestedPiece, Nests, NestedCount, Valid;
  }

  /** Every step, failed or not, leaves fewer to come. */
  lemma LeftShrinks(c: Copy, s: State, step: Step)
    requires Valid(c) && Enabled(c, s, step) && MainRight(c, s)
    ensures Left(c, Apply(c, s, step)) < Left(c, s)
  {
    if Mover(step).Some? {
      PartMoves(c, s, step);
      PartShrinks(c, s, step);
      hide Apply, Enabled, PartLeft, PartsLeft;
      PartsLeftUpdate(c, s.phases, Mover(step).value, Apply(c, s, step).phases[Mover(step).value]);
    } else {
      hide PartsLeft, Concat, OuterParts, Sums, Fold;
      SeenWithin(c, s);
      if step.Collect? { assert |s.main.seen + {step.p}| == |s.main.seen| + 1; }
    }
  }

  ghost predicate Follows(c: Copy, s: State, steps: seq<Step>)
    requires Valid(c)
    decreases |steps|
  {
    steps != [] ==> Enabled(c, s, steps[0]) && Follows(c, Apply(c, s, steps[0]), steps[1..])
  }

  ghost function After(c: Copy, s: State, steps: seq<Step>): State
    requires Valid(c) && Follows(c, s, steps)
    decreases |steps|
  {
    if steps == [] then s else After(c, Apply(c, s, steps[0]), steps[1..])
  }

  /** One step more. */
  lemma {:induction false} FollowsOn(c: Copy, s: State, steps: seq<Step>, step: Step)
    requires Valid(c) && Follows(c, s, steps) && Enabled(c, After(c, s, steps), step)
    ensures Follows(c, s, steps + [step]) && After(c, s, steps + [step]) == Apply(c, After(c, s, steps), step)
    decreases |steps|
  {
    hide Apply, Enabled;
    var more := steps + [step];
    if steps == [] {
      assert more[1..] == [];
    } else {
      assert more[1..] == steps[1..] + [step];
      FollowsOn(c, Apply(c, s, steps[0]), steps[1..], step);
    }
  }

  ghost predicate Over(c: Copy, s: State)
    requires Valid(c)
  {
    forall step :: !Enabled(c, s, step)
  }

  /** Every copy comes to an end: whatever the order and the failures, there are only so many steps, and
  when none is left, all goroutines are done and the copy has succeeded or is aborted. */
  lemma {:induction false} CopyEnds(c: Copy, before: map<Key, seq<byte>>, s: State, steps: seq<Step>)
    requires Valid(c) && Inv(c, before, s) && Follows(c, s, steps)
    ensures |steps| <= Left(c, s)
    ensures var s' := After(c, s, steps);
      Inv(c, before, s') && (Over(c, s') ==> AllFinished(c, s') && (s'.main.Succeeded? || s'.main.Aborted?))
    decreases |steps|
  {
    hide Left, PartsRight, OthersKept, TmpsRight, MainRight;
    if steps == [] {
      LeftNotNegative(c, before, s);
      if !AllFinished(c, s) || !(s.main.Succeeded? || s.main.Aborted?) {
        var step := NeverStuck(c, before, s);
      }
    } else {
      StepInv(c, before, s, steps[0]);
      LeftShrinks(c, s, steps[0]);
      hide Apply, Enabled;
      CopyEnds(c, before, Apply(c, s, steps[0]), steps[1..]);
    }
  }
}
