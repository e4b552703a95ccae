/** One part of a multipart copy as its goroutine runs it: retried uploads, and the assembly of a large
part under a temporary name. */
module CopyRange {
  import opened Keys
  import opened Objects
  import opened PartSize
  import opened Crc32c
  import opened Checksum
  import opened Multipart

  /** How an attempt to upload a range turns out, and whether its failure may be retried. */
  datatype Attempt = Attempt(get: Get, uploaded: bool, retried: bool)

  datatype Uploaded = Uploaded(data: seq<byte>, sum: word)

  predicate Works(src: seq<byte>, off: nat, size: nat, a: Attempt) {
    Readable(src, a.get, off, size) && a.uploaded
  }

  /** The attempts come to one that works before any that ends them. */
  predicate Succeeds(src: seq<byte>, off: nat, size: nat, attempts: seq<Attempt>) {
    attempts != [] &&
    (Works(src, off, size, attempts[0]) || (attempts[0].retried && Succeeds(src, off, size, attempts[1..])))
  }

  /** That is: one of them reads the range in full and uploads it, and those before it may be retried. */
  lemma {:induction false} SucceedsIff(src: seq<byte>, off: nat, size: nat, attempts: seq<Attempt>)
    ensures Succeeds(src, off, size, attempts) <==>
      exists i :: (
        && 0 <= i < |attempts| && !attempts[i].get.aborted && attempts[i].get.accepted && attempts[i].uploaded
        && size <= attempts[i].get.readable && off + size <= |src|
        && forall j :: 0 <= j < i ==> attempts[j].retried)
    decreases |attempts|
  {
    if attempts != [] {
      var rest := attempts[1..];
      SucceedsIff(src, off, size, rest);
      assert forall i :: 0 < i < |attempts| ==> attempts[i] == rest[i - 1];
      if i :|
        && 0 <= i < |rest| && Works(src, off, size, rest[i]) && attempts[0].retried
        && forall j :: 0 <= j < i ==> rest[j].retried
      {
        assert Works(src, off, size, attempts[i + 1]) && forall j :: 0 <= j < i + 1 ==> attempts[j].retried;
      }
    }
  }

  /** The upload of a range: whatever was read by attempts that failed, what is uploaded is the range, and
  the checksum that comes with it is the range's. */
  method UploadPart(src: seq<byte>, off: nat, size: nat, attempts: seq<Attempt>) returns (r: Option<Uploaded>)
    ensures r.Some? <==> Succeeds(src, off, size, attempts)
    ensures r.Some? ==> off + size <= |src|
    ensures r.Some? ==> r.value == Uploaded(Range(src, off, off + size), Crc(Range(src, off, off + size)))
  {
    hide Crc, Range;
    var i := 0;
    while i < |attempts|
      invariant i <= |attempts|
      invariant Succeeds(src, off, size, attempts) <==> Succeeds(src, off, size, attempts[i..])
    {
      var a := attempts[i];
      assert attempts[i..][1..] == attempts[i + 1..];
      var reader := new ChksumReader(true);
      if !a.get.aborted && a.get.accepted {
        var data := ReadFull(src, a.get, off, 0, size);
        if data.Some? {
          reader.Read(data.value);
          if a.uploaded {
            assert reader.seen == [] + data.value == data.value;
            return Some(Uploaded(data.value, reader.chksum));
          }
        }
      }
      if !a.retried {
        return None;
      }
      i := i + 1;
    }
    r := None;
  }

  /** What goes on around a part: whether and when the abort is seen, and how each operation turns out. */
  datatype Plan = Plan(
    giveUp: bool, direct: seq<Attempt>,
    created: bool, giveUpAt: nat, pieces: seq<seq<Attempt>>,
    completed: bool, copied: bool, deleted: bool)

  lemma PartRange(c: Copy, p: nat)
    requires Valid(c) && p < Count(c)
    ensures p * c.partSize + |Part(c, p)| <= |c.src|
    ensures Range(c.src, p * c.partSize, p * c.partSize + |Part(c, p)|) == Part(c, p)
  {
    PartsTile(|c.src|, c.partSize, p);
  }

  lemma PieceRange(c: Copy, p: nat, i: nat)
    requires Valid(c) && p < Count(c) && i < NestedCount(c, p)
    ensures var off, sz := p * c.partSize + i * c.nested[p], PartLength(|Part(c, p)|, c.nested[p], i);
      && 0 < sz && off + sz <= |c.src| && |NestedPiece(c, p, i)| == sz
      && Range(c.src, off, off + sz) == NestedPiece(c, p, i)
  {
    PartRange(c, p);
    var part, a, b := Part(c, p), p * c.partSize, i * c.nested[p];
    var sz := PartLength(|part|, c.nested[p], i);
    PartsTile(|part|, c.nested[p], i);
    assert NestedPiece(c, p, i) == part[b..b + sz];
    SliceOfSlice(c.src, a, a + |part|, b, b + sz);
  }

  lemma SliceOfSlice<T>(s: seq<T>, a: nat, e: nat, from: nat, to: nat)
    requires a <= e <= |s| && from <= to <= e - a
    ensures s[a..e][from..to] == s[a + from..a + to]
  {
    var l, r := s[a..e][from..to], s[a + from..a + to];
    assert |l| == |r| && forall k :: 0 <= k < |l| ==> l[k] == s[a + from + k] == r[k];
  }

  predicate PieceWorks(c: Copy, p: nat, plan: Plan, i: nat)
    requires Valid(c) && p < Count(c) && i < NestedCount(c, p) == |plan.pieces|
  {
    && i < plan.giveUpAt
    && Succeeds(c.src, p * c.partSize + i * c.nested[p], PartLength(|Part(c, p)|, c.nested[p], i), plan.pieces[i])
  }

  /** Everything that a part needs works, and the abort is not seen before. */
  predicate GoesWell(c: Copy, p: nat, plan: Plan)
    requires Valid(c) && p < Count(c) && NestedCount(c, p) == |plan.pieces|
  {
    && !plan.giveUp
    && if |Part(c, p)| <= 32 * 1024 * 1024 || !c.copyable
       then Succeeds(c.src, p * c.partSize, |Part(c, p)|, plan.direct)
       else
         && plan.created && plan.completed && plan.copied
         && forall i :: 0 <= i < |plan.pieces| ==> PieceWorks(c, p, plan, i)
  }

  ghost predicate OfPart(steps: seq<Step>, p: nat) {
    forall step :: step in steps ==> Mover(step) == Some(p)
  }

  // What the steps of a part that nests need, and what they change.

  lemma CreateStep(c: Copy, s: State, p: nat, ok: bool)
    requires Valid(c) && |s.phases| == Count(c) && p < Count(c) && s.phases[p] == Creating
    ensures Enabled(c, s, CreateTmp(p, ok))
    ensures Apply(c, s, CreateTmp(p, ok)) ==
      if ok then s.(tmps := s.tmps[p := []], phases := s.phases[p := Nested(0, 0)])
      else s.(phases := s.phases[p := Finished(false, 0)])
  {
  }

  lemma PieceStep(c: Copy, s: State, p: nat, ok: bool)
    requires Valid(c) && |s.phases| == Count(c) && p < Count(c) && p in s.tmps
    requires s.phases[p].Nested? && s.phases[p].i < NestedCount(c, p)
    ensures var i, piece := s.phases[p].i, NestedPiece(c, p, s.phases[p].i);
      && Enabled(c, s, PutPiece(p, ok)) && (s.abort ==> Enabled(c, s, GiveUp(p)))
      && Apply(c, s, PutPiece(p, ok)) == (
           if ok then
             s.(tmps := s.tmps[p := s.tmps[p] + [piece]],
                phases := s.phases[p := Nested(i + 1, NextSum(i, s.phases[p].sum, piece))])
           else s.(tmps := s.tmps - {p}, phases := s.phases[p := Finished(false, 0)]))
      && (s.abort ==> Apply(c, s, GiveUp(p)) == Apply(c, s, PutPiece(p, false)))
  {
    hide NestedCount, NestedPiece, NextSum, Valid;
  }

  lemma CompleteStep(c: Copy, s: State, p: nat, ok: bool)
    requires Valid(c) && |s.phases| == Count(c) && p < Count(c) && p in s.tmps
    requires s.phases[p].Nested? && s.phases[p].i == NestedCount(c, p)
    ensures Enabled(c, s, CompleteTmp(p, ok))
    ensures Apply(c, s, CompleteTmp(p, ok)) ==
      if ok then s.(objects := s.objects[TmpKey(c.key, p) := Concat(s.tmps[p])], tmps := s.tmps - {p},
                    phases := s.phases[p := Copying(s.phases[p].sum)])
      else s.(tmps := s.tmps - {p}, phases := s.phases[p := Finished(false, 0)])
  {
    hide NestedCount, NestedPiece, NextSum, Valid, TmpKey, Concat;
  }

  lemma CopyStep(c: Copy, s: State, p: nat, ok: bool)
    requires Valid(c) && |s.phases| == Count(c) && p < Count(c)
    requires s.phases[p].Copying? && s.outer.Some? && TmpKey(c.key, p) in s.objects
    ensures var s' := s.(phases := s.phases[p := Cleaning(ok, s.phases[p].sum)]);
      && Enabled(c, s, CopyPart(p, ok))
      && Apply(c, s, CopyPart(p, ok)) ==
           if ok then s'.(outer := Some(s.outer.value[p := s.objects[TmpKey(c.key, p)]])) else s'
  {
    hide NestedCount, NestedPiece, NextSum, Valid, TmpKey, Concat;
  }

  lemma DeleteStep(c: Copy, s: State, p: nat, ok: bool)
    requires Valid(c) && |s.phases| == Count(c) && p < Count(c) && s.phases[p].Cleaning?
    ensures var s' := s.(phases := s.phases[p := Finished(s.phases[p].ok, s.phases[p].sum)]);
      && Enabled(c, s, DeleteTmp(p, ok))
      && Apply(c, s, DeleteTmp(p, ok)) ==
           if ok then s'.(objects := s.objects - {TmpKey(c.key, p)}) else s'.(stuck := s.stuck + {p})
  {
    hide NestedCount, NestedPiece, NextSum, Valid, TmpKey, Concat;
  }

  /** The destination as one part sees it. The ghost field is the state of the multipart copy. */
  class Destination {
    var objects: map<Key, seq<byte>>
    var outer: Option<map<nat, seq<byte>>>
    var tmps: map<nat, seq<seq<byte>>>
    ghost var view: State

    ghost predicate Valid(c: Copy)
      reads this
    {
      && Multipart.Valid(c) && |view.phases| == Count(c)
      && view.objects == objects && view.outer == outer && view.tmps == tmps
    }

    /** The view takes a step of a part. */
    ghost method Step(c: Copy, p: nat, start: State, steps: seq<Step>, step: Step) returns (more: seq<Step>)
      requires Multipart.Valid(c) && Follows(c, start, steps) && view == After(c, start, steps)
      requires Enabled(c, view, step) && Mover(step) == Some(p) && OfPart(steps, p)
      modifies `view
      ensures Follows(c, start, more) && view == After(c, start, more)
      ensures view == Apply(c, old(view), step) && OfPart(more, p)
    {
      hide Apply, Enabled, Follows;
      FollowsOn(c, start, steps, step);
      more := steps + [step];
      view := Apply(c, view, step);
    }

    /** The steps so far are those of a part, and have led here. */
    ghost predicate Led(c: Copy, p: nat, start: State, steps: seq<Step>)
      reads this
    {
      Valid(c) && Follows(c, start, steps) && view == After(c, start, steps) && OfPart(steps, p)
    }

    /** A piece is uploaded under the temporary name, unless the abort is seen. */
    method UploadPiece(c: Copy, p: nat, plan: Plan, i: nat, before: word, ghost start: State, ghost soFar: seq<Step>)
      returns (done: bool, sum: word, ghost steps: seq<Step>)
      requires Led(c, p, start, soFar) && p < Count(c) && p in tmps && i < NestedCount(c, p) == |plan.pieces|
      requires PiecesRight(c, tmps[p], p, i, before) && view.phases[p] == Nested(i, before)
      requires plan.giveUpAt <= i ==> view.abort
      modifies this
      ensures Led(c, p, start, steps) && objects == old(objects) && outer == old(outer) && view.abort == old(view.abort)
      ensures done <==> PieceWorks(c, p, plan, i)
      ensures done ==> p in tmps && tmps == old(tmps)[p := tmps[p]] && PiecesRight(c, tmps[p], p, i + 1, sum)
      ensures done ==> view.phases[p] == Nested(i + 1, sum)
      ensures !done ==> tmps == old(tmps) - {p} && view.phases[p] == Finished(false, 0)
    {
      hide Crc, Combine, Concat, Part, TmpKey, NestedPiece, NestedCount, PartLength, NextSum, PiecesRight, Succeeds,
        Range, Follows, After, OfPart, Multipart.Valid, Apply, Enabled;
      PartRange(c, p);
      NestedPositive(c, p);
      var next: Option<Uploaded> := None;
      if i < plan.giveUpAt {
        PieceRange(c, p, i);
        var off := p * c.partSize + i * c.nested[p];
        next := UploadPart(c.src, off, PartLength(|Part(c, p)|, c.nested[p], i), plan.pieces[i]);
      }
      PieceStep(c, view, p, next.Some?);
      steps := Step(c, p, start, soFar, if i < plan.giveUpAt then PutPiece(p, next.Some?) else GiveUp(p));
      if next.None? {
        tmps := tmps - {p};
        return false, 0, steps;
      }
      OnePieceMore(c, tmps[p], p, i, before);
      AddSum(i, before, next.value);
      sum := if i == 0 then next.value.sum else Combine(before, next.value.sum, |next.value.data|);
      tmps := tmps[p := tmps[p] + [next.value.data]];
      done := true;
    }

    /** The pieces of a large part are uploaded one by one. */
    method UploadPieces(c: Copy, p: nat, plan: Plan, ghost start: State, ghost soFar: seq<Step>)
      returns (done: bool, sum: word, ghost steps: seq<Step>)
      requires Led(c, p, start, soFar) && p < Count(c) && p !in tmps && view.phases[p] == Creating
      requires |plan.pieces| == NestedCount(c, p) && (plan.giveUpAt < NestedCount(c, p) ==> view.abort)
      modifies this
      ensures Led(c, p, start, steps) && objects == old(objects) && outer == old(outer)
      ensures done <==> plan.created && forall i :: 0 <= i < |plan.pieces| ==> PieceWorks(c, p, plan, i)
      ensures done ==> p in tmps && tmps - {p} == old(tmps) && PiecesRight(c, tmps[p], p, NestedCount(c, p), sum)
      ensures done ==> view.phases[p] == Nested(NestedCount(c, p), sum)
      ensures !done ==> tmps == old(tmps) && view.phases[p] == Finished(false, 0)
    {
      hide Crc, Combine, Concat, Part, TmpKey, NestedPiece, NestedCount, PartLength, NextSum, PiecesRight, Succeeds,
        Range, Follows, After, OfPart, Multipart.Valid, Apply, Enabled;
      sum := 0;
      CreateStep(c, view, p, plan.created);
      steps := Step(c, p, start, soFar, CreateTmp(p, plan.created));
      done := plan.created;
      if !done {
        return;
      }
      tmps := tmps[p := []];
      NoPieces(c, p);
      var n, i := NestedCount(c, p), 0;
      while i < n && done
        invariant i <= n && Led(c, p, start, steps) && view.abort == old(view.abort)
        invariant outer == old(outer) && objects == old(objects)
        invariant done <==> forall k :: 0 <= k < i ==> PieceWorks(c, p, plan, k)
        invariant done ==> p in tmps && tmps - {p} == old(tmps) && PiecesRight(c, tmps[p], p, i, sum)
        invariant done ==> view.phases[p] == Nested(i, sum)
        invariant !done ==> tmps == old(tmps) && view.phases[p] == Finished(false, 0)
        decreases n - i
      {
        done, sum, steps := UploadPiece(c, p, plan, i, sum, start, steps);
        i := i + 1;
      }
    }

    /** The pieces are made into the temporary object. */
    method Complete(c: Copy, p: nat, plan: Plan, sum: word, ghost start: State, ghost soFar: seq<Step>)
      returns (ghost steps: seq<Step>)
      requires Led(c, p, start, soFar) && p < Count(c) && p in tmps
      requires view.phases[p] == Nested(NestedCount(c, p), sum)
      requires PiecesRight(c, tmps[p], p, NestedCount(c, p), sum)
      modifies this
      ensures Led(c, p, start, steps) && tmps == old(tmps) - {p} && outer == old(outer) && sum == Crc(Part(c, p))
      ensures objects == if plan.completed then old(objects)[TmpKey(c.key, p) := Part(c, p)] else old(objects)
      ensures view.phases[p] == if plan.completed then Copying(sum) else Finished(false, 0)
    {
      hide Crc, Combine, Concat, Part, TmpKey, NestedPiece, NestedCount, PartLength, NextSum, PiecesRight, Succeeds,
        Range, Follows, After, OfPart, Multipart.Valid, Apply, Enabled;
      AssembledPart(c, tmps[p], p, sum);
      CompleteStep(c, view, p, plan.completed);
      steps := Step(c, p, start, soFar, CompleteTmp(p, plan.completed));
      if plan.completed {
        objects := objects[TmpKey(c.key, p) := Concat(tmps[p])];
      }
      tmps := tmps - {p};
    }

    /** The part is assembled, copied into the outer upload, and its temporary object deleted. */
    method CopyAssembled(c: Copy, p: nat, plan: Plan, sum: word, ghost start: State, ghost soFar: seq<Step>)
      returns (ok: bool, ghost steps: seq<Step>)
      requires Led(c, p, start, soFar) && p < Count(c) && outer.Some? && p in tmps
      requires view.phases[p] == Nested(NestedCount(c, p), sum)
      requires PiecesRight(c, tmps[p], p, NestedCount(c, p), sum)
      modifies this
      ensures Led(c, p, start, steps) && tmps == old(tmps) - {p} && sum == Crc(Part(c, p))
      ensures view.phases[p].Finished? && view.phases[p].ok == ok && (ok ==> view.phases[p].sum == sum)
      ensures outer.Some? && outer.value == if ok then old(outer).value[p := Part(c, p)] else old(outer).value
      ensures forall k :: k != TmpKey(c.key, p) ==> SameAt(objects, old(objects), k)
      ensures TmpKey(c.key, p) in objects ==> TmpKey(c.key, p) in old(objects) || (plan.completed && !plan.deleted)
      ensures ok <==> plan.completed && plan.copied
    {
      hide Crc, Combine, Concat, Part, TmpKey, NestedPiece, NestedCount, PartLength, NextSum, PiecesRight, Succeeds,
        Range, Follows, After, OfPart, Multipart.Valid, Apply, Enabled;
      ok := false;
      steps := Complete(c, p, plan, sum, start, soFar);
      if plan.completed {
        CopyStep(c, view, p, plan.copied);
        steps := Step(c, p, start, steps, CopyPart(p, plan.copied));
        if plan.copied {
          outer := Some(outer.value[p := objects[TmpKey(c.key, p)]]);
          ok := true;
        }
        DeleteStep(c, view, p, plan.deleted);
        steps := Step(c, p, start, steps, DeleteTmp(p, plan.deleted));
        if plan.deleted {
          objects := objects - {TmpKey(c.key, p)};
        }
      }
    }

    /** The copy of a range: steps of its part in the multipart copy, from its beginning to its end. It either
    puts exactly the part's bytes into the outer upload and returns their checksum, or leaves that upload
    alone; no nested upload stays open, and only the temporary object is written, and left behind only if its
    deletion fails. It gives up only when it sees the abort. */
    method DoCopyRange(c: Copy, p: nat, plan: Plan) returns (ok: bool, sum: word, ghost steps: seq<Step>)
      requires Valid(c) && p < Count(c) && outer.Some? && p !in tmps && view.phases[p].Waiting?
      requires |plan.pieces| == NestedCount(c, p)
      requires plan.giveUp || plan.giveUpAt < NestedCount(c, p) ==> view.abort
      modifies this
      ensures Led(c, p, old(view), steps)
      ensures view.phases[p].Finished? && view.phases[p].ok == ok && (ok ==> view.phases[p].sum == sum)
      ensures outer.Some? && outer.value == if ok then old(outer).value[p := Part(c, p)] else old(outer).value
      ensures ok ==> sum == Crc(Part(c, p))
      ensures tmps == old(tmps)
      ensures forall k :: k != TmpKey(c.key, p) ==> SameAt(objects, old(objects), k)
      ensures TmpKey(c.key, p) in objects ==> TmpKey(c.key, p) in old(objects) || (plan.completed && !plan.deleted)
      ensures |Part(c, p)| <= 32 * 1024 * 1024 || !c.copyable ==> objects == old(objects)
      ensures ok <==> GoesWell(c, p, plan)
    {
      hide Crc, Combine, Concat, Part, TmpKey, NestedPiece, NestedCount, PartLength, NextSum, PiecesRight, Succeeds,
        Range, Follows, After, OfPart, Multipart.Valid;
      ok, sum, steps := false, 0, [];
      ghost var start := view;
      NoSteps(c, start);
      if plan.giveUp {
        steps := Step(c, p, start, steps, Begin(p, true));
        return;
      }
      PartRange(c, p);
      var off, size := p * c.partSize, |Part(c, p)|;
      steps := Step(c, p, start, steps, Begin(p, false));
      if size <= DIRECT_MAX || !c.copyable {
        var r := UploadPart(c.src, off, size, plan.direct);
        steps := Step(c, p, start, steps, PutPart(p, r.Some?));
        if r.Some? {
          outer := Some(outer.value[p := r.value.data]);
          ok, sum := true, r.value.sum;
        }
        return;
      }
      var done;
      done, sum, steps := UploadPieces(c, p, plan, start, steps);
      if done {
        ok, steps := CopyAssembled(c, p, plan, sum, start, steps);
      }
    }
  }

  lemma NestedPositive(c: Copy, p: nat)
    requires Multipart.Valid(c) && p < Count(c)
    ensures c.nested[p] > 0
  {
  }

  lemma NoSteps(c: Copy, s: State)
    requires Multipart.Valid(c)
    ensures Follows(c, s, []) && After(c, s, []) == s
    ensures forall p :: OfPart([], p)
  {
  }

  lemma AddSum(i: nat, sum: word, u: Uploaded)
    requires u.sum == Crc(u.data)
    ensures NextSum(i, sum, u.data) == if i == 0 then u.sum else Combine(sum, u.sum, |u.data|)
  {
  }
}
