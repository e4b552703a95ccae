/** What a worker does with one task of the plan. The calls into the stores are parameters: how each one
turns out, and what a copy leaves behind. */
module Worker {
  import opened Keys
  import opened Objects
  import opened Crc32c
  import opened Checksum
  import opened Planner
  import opened DecisionTable
  import Multipart
  import PlanSafety

  /** `records` tells whether a recorder is configured, `retries` how often a call is attempted. */
  datatype Options = Options(dry: bool, deleteSrc: bool, perms: bool, links: bool, checkAll: bool, checkNew: bool,
                             checkChange: bool, records: bool, retries: nat)

  /** How a call ends: well, with the error that stands for a key to be passed over, or with another. */
  datatype Answer = Works | Skips | Fails

  /** One attempt of a call that is retried; `Retried` is an error that another attempt may mend. */
  datatype Attempt = Good | Passed | Refused | Retried

  /** How the calls of a copy turn out. `Single` puts the object at once: the attempts, the bytes that went
  out and the checksum of what was read for them. `InParts` is a run of the multipart copy, up to the point
  where the worker goes on, and `NotOpened` an upload that could not be opened or was refused for its size;
  if the first call to open it failed, `again` are the attempts that followed. `Link` reads the link, removes
  what lies under the key, and creates the link. */
  datatype CopyCalls =
    | Single(attempts: seq<Attempt>, bytes: seq<byte>, sum: word)
    | InParts(again: seq<Attempt>, c: Multipart.Copy, run: seq<Multipart.State>)
    | NotOpened(again: seq<Attempt>)
    | Link(read: Answer, removed: Answer, target: seq<byte>, created: Answer)

  /** The attempts that are made of a call that tells its retries: another follows after every error that may
  be mended, up to the limit. Telling a retry without a recorder ends the process. */
  predicate IsTry(o: Options, attempts: seq<Attempt>) {
    && 1 <= |attempts| <= o.retries
    && (forall i :: 0 <= i < |attempts| - 1 ==> attempts[i] == Retried && o.records)
    && (attempts[|attempts| - 1] == Retried && o.records ==> |attempts| == o.retries)
  }

  /** The attempts that come of a call, if `results` is how each would turn out, were it made. */
  method Try(o: Options, results: seq<Attempt>) returns (attempts: seq<Attempt>, panicked: bool)
    requires |results| == o.retries > 0
    ensures IsTry(o, attempts) && attempts <= results && (panicked <==> !o.records && Retried in attempts)
    ensures |attempts| < |results| && !panicked ==> attempts[|attempts| - 1] != Retried
    ensures forall i :: 0 <= i < |attempts| - 1 ==> attempts[i] == Retried
  {
    var i := 0;
    while i < |results|
      invariant i <= |results| && (i > 0 ==> o.records) && forall j :: 0 <= j < i ==> results[j] == Retried
    {
      i := i + 1;
      if results[i - 1] != Retried {
        return results[..i], false;
      }
      if !o.records {
        return results[..i], true;
      }
    }
    assert results[..i] == results;
    attempts, panicked := results, false;
  }

  /** The attempts of a copy that tell their retries. */
  function Tries(copy: CopyCalls): seq<Attempt> {
    match copy
    case Single(attempts, _, _) => attempts
    case InParts(again, _, _) => again
    case NotOpened(again) => again
    case Link(_, _, _, _) => []
  }

  /** A retry is to be told, and there is nobody to tell it: the worker panics. */
  predicate Panics(o: Options, copy: CopyCalls) {
    !o.records && Retried in Tries(copy)
  }

  function Answered(attempts: seq<Attempt>): Answer {
    if attempts == [] then Fails
    else match attempts[|attempts| - 1] case Good => Works case Passed => Skips case _ => Fails
  }

  /** What the check for a change during the copy comes to. */
  datatype Change = Kept | Altered | Unknown

  /** What a comparison comes to. */
  datatype Found = Equal | Unequal | Unreadable

  /** How the calls for one task turn out: the reads of a comparison with the source, and those of the
  verification of a copy. */
  datatype Calls = Calls(
    deleted: bool,
    compare: Reads,
    headFound: bool, permsDiffer: bool,
    copy: CopyCalls, change: Change, verify: Reads)

  type Store = map<Key, seq<byte>>

  /** Objects are listed with a size that is not negative; those below zero are the markers. */
  predicate Proper(obj: Object, calls: Calls) {
    obj.size >= 0 && Fits(calls.compare, obj.size) && Fits(calls.verify, obj.size)
  }

  predicate Verifies(o: Options) {
    o.checkAll || o.checkNew
  }

  predicate AsLink(o: Options, obj: Object) {
    o.links && obj.isSymlink
  }

  ghost predicate SameBut(a: Store, b: Store, key: Key) {
    forall k :: k != key ==> Multipart.SameAt(a, b, k)
  }

  // ------------------------------------------------------------------ what a copy does

  /** The copy in parts is one of the task's object, begins with the destination as it is, and has succeeded
  or been given up; as the parts are read from the source, it succeeds only if the source has them. */
  ghost predicate RunOf(obj: Object, c: Multipart.Copy, run: seq<Multipart.State>, src: Store, dst: Store) {
    && obj.size >= MAX_BLOCK
    && Multipart.Valid(c) && c.key == obj.key && |c.src| == obj.size
    && Multipart.IsRun(c, run) && run[0].objects == dst
    && var main := run[|run| - 1].main;
       && (main.Succeeded? || main.Aborted?)
       && (main.Succeeded? ==> obj.key in src && obj.size <= |src[obj.key]| && c.src == src[obj.key][..obj.size])
  }

  /** The calls are those that a copy of the object makes. */
  ghost predicate Suits(o: Options, obj: Object, copy: CopyCalls, src: Store, dst: Store) {
    && (copy.Link? <==> o.links && obj.isSymlink)
    && (if copy.Single? then IsTry(o, copy.attempts) else Tries(copy) != [] ==> IsTry(o, Tries(copy)))
    && (copy.NotOpened? ==> obj.size >= MAX_BLOCK)
    && (copy.InParts? ==> RunOf(obj, copy.c, copy.run, src, dst))
    && (copy.InParts? && copy.again != [] ==> Answered(copy.again) == Works)
  }

  function Outcome(copy: CopyCalls): Answer
    requires copy.InParts? ==> copy.run != []
  {
    match copy
    case Single(attempts, _, _) => Answered(attempts)
    case NotOpened(again) => if Answered(again) == Skips then Skips else Fails
    case InParts(_, _, run) => if run[|run| - 1].main.Succeeded? then Works else Fails
    case Link(read, removed, _, created) =>
      if read != Works then read else if removed != Works then removed else created
  }

  /** What a copy leaves of the destination, and the checksum of what was read for it. */
  function LeftBy(copy: CopyCalls, key: Key, dst: Store): Store
    requires copy.InParts? ==> copy.run != []
  {
    match copy
    case Single(attempts, bytes, _) => if Answered(attempts) == Works then dst[key := bytes] else dst
    case NotOpened(_) => dst
    case InParts(_, _, run) => run[|run| - 1].objects
    case Link(read, removed, target, created) =>
      if read != Works || removed != Works then dst
      else if created == Works then dst[key := target]
      else dst - {key}
  }

  function Sum(copy: CopyCalls): word
    requires copy.InParts? ==> copy.run != []
  {
    match copy
    case Single(_, _, sum) => sum
    case InParts(_, _, run) => if run[|run| - 1].main.Succeeded? then run[|run| - 1].main.sum else 0
    case _ => 0
  }

  /** The names under which a copy puts parts of the object for a while. */
  ghost predicate Temporary(copy: CopyCalls, k: Key) {
    copy.InParts? && Multipart.Valid(copy.c) && Multipart.IsTmp(copy.c, k)
  }

  /** Nothing else has changed but the key and the temporary names. */
  ghost predicate SameButParts(copy: CopyCalls, a: Store, b: Store, key: Key) {
    forall k :: k != key && !Temporary(copy, k) ==> Multipart.SameAt(a, b, k)
  }

  lemma RemovedSame(copy: CopyCalls, a: Store, key: Key)
    ensures SameBut(a, a, key) && SameBut(a - {key}, a, key)
    ensures SameButParts(copy, a, a, key) && SameButParts(copy, a - {key}, a, key)
  {
  }

  /** The old object is gone and the link is not there. */
  predicate HalfLinked(copy: CopyCalls) {
    copy.Link? && copy.read == Works && copy.removed == Works && copy.created != Works
  }

  /** What a copy does to the destination. It touches the object's key and temporary names. One that ends
  well leaves an object under the key, and if made in parts, as only objects of 10 MiB and more are, what the
  source begins with; one that does not leaves the key alone, but for a link whose predecessor has been
  removed. */
  lemma CopyDoes(o: Options, obj: Object, copy: CopyCalls, src: Store, dst: Store)
    requires Suits(o, obj, copy, src, dst)
    ensures (copy.Link? <==> o.links && obj.isSymlink) && (copy.InParts? || copy.NotOpened? ==> obj.size >= 0xA0_0000)
    ensures copy.InParts? ==> copy.run != []
    ensures var after := LeftBy(copy, obj.key, dst);
      && SameButParts(copy, after, dst, obj.key)
      && (Outcome(copy) == Works ==> obj.key in after)
      && (Outcome(copy) == Works && copy.InParts? ==>
            obj.key in src && obj.size <= |src[obj.key]| && after[obj.key] == src[obj.key][..obj.size]
            && Sum(copy) == Crc(after[obj.key]))
      && (HalfLinked(copy) ==> Outcome(copy) != Works && obj.key !in after)
      && (Outcome(copy) != Works && !HalfLinked(copy) ==> Multipart.SameAt(after, dst, obj.key))
    ensures copy.Single? ==>
      match copy.attempts[|copy.attempts| - 1]
      case Good => Outcome(copy) == Works && LeftBy(copy, obj.key, dst) == dst[obj.key := copy.bytes]
      case Passed => Outcome(copy) == Skips && LeftBy(copy, obj.key, dst) == dst
      case _ => Outcome(copy) == Fails && LeftBy(copy, obj.key, dst) == dst
    ensures copy.InParts? ==>
      && LeftBy(copy, obj.key, dst) == copy.run[|copy.run| - 1].objects
      && Outcome(copy) == if copy.run[|copy.run| - 1].main.Succeeded? then Works else Fails
    ensures copy.NotOpened? ==>
      && LeftBy(copy, obj.key, dst) == dst
      && Outcome(copy) == if copy.again != [] && copy.again[|copy.again| - 1] == Passed then Skips else Fails
    ensures copy.Link? ==>
      && (Outcome(copy) == Works <==> copy.read == copy.removed == copy.created == Works)
      && (Outcome(copy) == Works ==> LeftBy(copy, obj.key, dst) == dst[obj.key := copy.target])
      && (copy.read != Works || copy.removed != Works ==> LeftBy(copy, obj.key, dst) == dst)
  {
    hide Crc;
    if copy.InParts? {
      Multipart.CopyOutcome(copy.c, copy.run);
    }
  }

  /** An object other than the one copied can be lost to a copy in parts that ends well, if and only if it
  bears the temporary name of a part that nests. */
  lemma OthersAreLost(o: Options, obj: Object, c: Multipart.Copy, src: Store, dst: Store, k: Key)
    requires obj.size >= MAX_BLOCK && !AsLink(o, obj) && obj.key in src && obj.size <= |src[obj.key]|
    requires Multipart.Valid(c) && c.key == obj.key && c.src == src[obj.key][..obj.size]
    requires k != obj.key && k in dst
    ensures Multipart.IsTmp(c, k) <==> exists run ::
      Suits(o, obj, InParts([], c, run), src, dst) && Outcome(InParts([], c, run)) == Works
      && !Multipart.SameAt(LeftBy(InParts([], c, run), obj.key, dst), dst, k)
  {
    Multipart.TakenNameIsLost(c, dst, k);
    hide Multipart.Valid, Multipart.IsTmp;
    if run: seq<Multipart.State> :|
      Multipart.IsRun(c, run) && run[0].objects == dst && run[|run| - 1].main.Succeeded?
      && !Multipart.SameAt(run[|run| - 1].objects, dst, k)
    {
      assert Suits(o, obj, InParts([], c, run), src, dst);
      assert LeftBy(InParts([], c, run), obj.key, dst) == run[|run| - 1].objects;
    }
  }

  /** What a comparison takes for equal: links to the same place, or objects that begin with the same
  bytes, as many as the source's listed size says. */
  ghost predicate Alike(o: Options, src: Store, dst: Store, obj: Object, r: Reads) {
    obj.size >= 0 &&
    if o.links && obj.isSymlink && (o.checkAll || o.checkNew) then SameLink(r)
    else obj.key in src && obj.key in dst && SameUpTo(src[obj.key], dst[obj.key], obj.size)
  }

  /** Everything that a comparison reads can be read. */
  ghost predicate Comparable(o: Options, src: Store, dst: Store, obj: Object, r: Reads)
    requires obj.size >= 0 && Fits(r, obj.size)
  {
    if o.links && obj.isSymlink && (o.checkAll || o.checkNew) then r.srcLink.Some? && r.dstLink.Some?
    else
      && obj.key in src && obj.key in dst
      && AllReadable(src[obj.key], obj.size, r.src) && AllReadable(dst[obj.key], obj.size, r.dst)
  }

  /** What the verification of a copy takes for right: the checksum of what was read is that of the first
  bytes of the copy, as many as the listed size says. */
  ghost predicate VerifiedCopy(o: Options, obj: Object, copied: seq<byte>, sum: word, r: Reads) {
    obj.size >= 0
    && if o.links && obj.isSymlink then SameLink(r)
       else obj.size <= |copied| && Crc(copied[..obj.size]) == sum
  }

  /** Nothing goes wrong with a copy: it is what the source begins with, and can be read back. */
  ghost predicate Faithful(o: Options, src: Store, dst: Store, obj: Object, calls: Calls)
    requires Proper(obj, calls) && Suits(o, obj, calls.copy, src, dst)
  {
    && Outcome(calls.copy) == Works
    && var copied := Copied(o, obj, calls.copy, src, dst);
       if o.links && obj.isSymlink then o.checkAll || o.checkNew ==> SameLink(calls.verify)
       else
         && obj.key in src && obj.size <= |src[obj.key]| && copied == src[obj.key][..obj.size]
         && Sum(calls.copy) == Crc(copied)
         && (o.checkChange ==> calls.change == Kept)
         && (o.checkAll || o.checkNew ==> AllReadable(copied, obj.size, calls.verify.dst))
  }

  /** What lies under the key after a copy that has ended well. */
  ghost function Copied(o: Options, obj: Object, copy: CopyCalls, src: Store, dst: Store): seq<byte>
    requires Suits(o, obj, copy, src, dst) && Outcome(copy) == Works
  {
    CopyDoes(o, obj, copy, src, dst);
    LeftBy(copy, obj.key, dst)[obj.key]
  }

  lemma FaithfulPasses(o: Options, src: Store, dst: Store, obj: Object, calls: Calls)
    requires Proper(obj, calls) && Suits(o, obj, calls.copy, src, dst) && Faithful(o, src, dst, obj, calls)
    ensures Outcome(calls.copy) == Works && (o.checkChange && !AsLink(o, obj) ==> calls.change == Kept)
    ensures Verifies(o) ==>
      var copied := Copied(o, obj, calls.copy, src, dst);
      && VerifiedCopy(o, obj, copied, Sum(calls.copy), calls.verify)
      && (!AsLink(o, obj) ==> AllReadable(copied, obj.size, calls.verify.dst))
  {
    CopyDoes(o, obj, calls.copy, src, dst);
    hide Suits, LeftBy, Sum, Outcome, Crc, AllReadable;
    var copied := Copied(o, obj, calls.copy, src, dst);
    assert !AsLink(o, obj) ==> copied[..obj.size] == copied;
  }

  // ------------------------------------------------------------------ what a task does

  /** Both stores, the directories put aside and the outcomes. */
  datatype Tally = Tally(src: Store, dst: Store, aside: seq<Key>, copied: int, skipped: int, failed: int, deleted: int)

  /** A comparison fails: one failure is counted, and nothing else happens. */
  ghost predicate FailureCounted(a: Tally, b: Tally) {
    b == a.(failed := a.failed + 1)
  }

  /** Both sides are alike. The source's object is deleted if it is to be, a directory later; if not, its
  permissions are copied if they are to be and differ, or it is skipped. */
  ghost predicate AlikeSettled(o: Options, obj: Object, calls: Calls, a: Tally, b: Tally) {
    if o.deleteSrc then
      if obj.isDir then b == a.(aside := a.aside + [obj.key])
      else if calls.deleted then b == a.(src := a.src - {obj.key}, deleted := a.deleted + 2)
      else b == a.(failed := a.failed + 1, deleted := a.deleted + 1)
    else if !o.perms || (obj.isSymlink && o.links) then b == a.(skipped := a.skipped + 1)
    else if !calls.headFound then b == a.(failed := a.failed + 1)
    else if calls.permsDiffer then b == a.(copied := a.copied + 1)
    else b == a.(skipped := a.skipped + 1)
  }

  /** A copy has been made or tried. The destination is what the calls leave of it. One of three counters
  tells how it ended: passed over if its error says so; copied only if the object is there, made of the
  source's bytes if in parts, not changed meanwhile, and verified, each if that is asked for; and copied
  whenever nothing goes wrong. What is there is lost if and only if a link is made half-way. */
  ghost predicate CopyMade(o: Options, obj: Object, calls: Calls, a: Tally, b: Tally)
    requires Proper(obj, calls) && Suits(o, obj, calls.copy, a.src, a.dst)
  {
    && b.src == a.src && b.aside == a.aside && b.deleted == a.deleted
    && (calls.copy.InParts? ==> calls.copy.run != []) && b.dst == LeftBy(calls.copy, obj.key, a.dst)
    && b.copied >= a.copied && b.skipped >= a.skipped && b.failed >= a.failed
    && b.copied + b.skipped + b.failed == a.copied + a.skipped + a.failed + 1
    && (b.skipped > a.skipped <==> Outcome(calls.copy) == Skips)
    && (b.copied > a.copied ==>
          && Outcome(calls.copy) == Works && obj.key in b.dst
          && (calls.copy.InParts? ==>
                obj.key in a.src && obj.size <= |a.src[obj.key]| && b.dst[obj.key] == a.src[obj.key][..obj.size])
          && (o.checkChange && !(o.links && obj.isSymlink) ==> calls.change == Kept)
          && (o.checkAll || o.checkNew ==> VerifiedCopy(o, obj, b.dst[obj.key], Sum(calls.copy), calls.verify)))
    && (Faithful(o, a.src, a.dst, obj, calls) ==> b.copied > a.copied)
    && (b.copied == a.copied && obj.key in a.dst ==> (obj.key !in b.dst <==> HalfLinked(calls.copy)))
    && (HalfLinked(calls.copy) ==> b.copied == a.copied && obj.key !in b.dst)
  }

  lemma OneCounted(o: Options, obj: Object, calls: Calls, a: Tally, b: Tally)
    requires Proper(obj, calls) && Suits(o, obj, calls.copy, a.src, a.dst) && CopyMade(o, obj, calls, a, b)
    ensures b.aside == a.aside && b.deleted == a.deleted
    ensures b.copied + b.skipped + b.failed == a.copied + a.skipped + a.failed + 1
  {
  }

  lemma IsMade(o: Options, obj: Object, calls: Calls, a: Tally, b: Tally, ok: bool)
    requires Proper(obj, calls) && Suits(o, obj, calls.copy, a.src, a.dst)
    requires calls.copy.InParts? ==> calls.copy.run != []
    requires var left := a.(dst := LeftBy(calls.copy, obj.key, a.dst));
      b == if ok then left.(copied := a.copied + 1)
           else if Outcome(calls.copy) == Skips then left.(skipped := a.skipped + 1)
           else left.(failed := a.failed + 1)
    requires ok ==>
      && Outcome(calls.copy) == Works && obj.key in b.dst && (o.checkChange && !AsLink(o, obj) ==> calls.change == Kept)
      && (Verifies(o) ==> VerifiedCopy(o, obj, b.dst[obj.key], Sum(calls.copy), calls.verify))
    requires Faithful(o, a.src, a.dst, obj, calls) ==> ok
    ensures CopyMade(o, obj, calls, a, b)
  {
    CopyDoes(o, obj, calls.copy, a.src, a.dst);
    hide Crc, RunOf, LeftBy, Sum, SameButParts, VerifiedCopy, Proper, Suits, Faithful;
  }

  /** Whatever a task does, only its own key is touched, at the destination also temporary names if it is copied
  in parts; and a copy costs the destination its object only with a link left half-way. */
  lemma OnlyItsKey(o: Options, obj: Object, calls: Calls, a: Tally, b: Tally)
    requires Proper(obj, calls) && Suits(o, obj, calls.copy, a.src, a.dst)
    requires CopyMade(o, obj, calls, a, b)
          || (b.src in {a.src, a.src - {obj.key}} && b.dst in {a.dst, a.dst - {obj.key}})
    ensures SameBut(b.src, a.src, obj.key) && SameButParts(calls.copy, b.dst, a.dst, obj.key)
    ensures CopyMade(o, obj, calls, a, b) && obj.key in a.dst && obj.key !in b.dst ==>
      HalfLinked(calls.copy) && b.copied == a.copied
  {
    CopyDoes(o, obj, calls.copy, a.src, a.dst);
    RemovedSame(calls.copy, a.src, obj.key);
    RemovedSame(calls.copy, a.dst, obj.key);
    hide SameBut, SameButParts, Suits, LeftBy, Outcome, VerifiedCopy, Faithful, Sum, Panics;
  }

  lemma SettledStores(o: Options, obj: Object, calls: Calls, a: Tally, b: Tally)
    requires AlikeSettled(o, obj, calls, a, b) || FailureCounted(a, b)
    ensures b.src in {a.src, a.src - {obj.key}} && b.dst == a.dst
  {
  }

  class Workplace {
    const o: Options
    var src: Store
    var dst: Store
    var srcDelayDel: seq<Key>
    var copied: int
    var checked: int
    var deleted: int
    var skipped: int
    var failed: int
    var handled: int

    /** The deletions that have been asked of the stores. */
    ghost var asked: int

    /** How far what is counted as an outcome is ahead of what is handled: by one for each deletion asked
    for, back by one for each directory put aside and for each comparison of a dry run. */
    ghost function Books(): int
      reads this
    {
      copied + deleted + skipped + failed - handled - asked + |srcDelayDel| + (if o.dry then checked else 0)
    }

    ghost function Now(): Tally
      reads this
    {
      Tally(src, dst, srcDelayDel, copied, skipped, failed, deleted)
    }

    constructor (o: Options, src: Store, dst: Store)
      ensures this.o == o && this.src == src && this.dst == dst && srcDelayDel == []
      ensures copied == checked == deleted == skipped == failed == handled == asked == 0
    {
      this.o, this.src, this.dst, srcDelayDel := o, src, dst, [];
      copied, checked, deleted, skipped, failed, handled, asked := 0, 0, 0, 0, 0, 0, 0;
    }

    method DeleteObj(key: Key, fromSrc: bool, ok: bool)
      modifies `src, `dst, `deleted, `failed, `asked
      ensures src == if fromSrc && ok && !o.dry then old(src) - {key} else old(src)
      ensures dst == if !fromSrc && ok && !o.dry then old(dst) - {key} else old(dst)
      ensures deleted == old(deleted) + (if ok || o.dry then 1 else 0)
      ensures failed == old(failed) + (if ok || o.dry then 0 else 1)
      ensures asked == old(asked) + (if o.dry then 0 else 1)
    {
      if o.dry {
        deleted := deleted + 1;
        return;
      }
      asked := asked + 1;
      if ok {
        if fromSrc { src := src - {key}; } else { dst := dst - {key}; }
        deleted := deleted + 1;
      } else {
        failed := failed + 1;
      }
    }

    /** A deletion counts once in `DeleteObj` and, outside a dry run, once more here. */
    method Delete(key: Key, fromSrc: bool, ok: bool)
      modifies `src, `dst, `deleted, `failed, `asked
      ensures src == if fromSrc && ok && !o.dry then old(src) - {key} else old(src)
      ensures dst == if !fromSrc && ok && !o.dry then old(dst) - {key} else old(dst)
      ensures deleted == old(deleted) + (if o.dry then 1 else if ok then 2 else 1)
      ensures failed == old(failed) + (if ok || o.dry then 0 else 1)
      ensures asked == old(asked) + (if o.dry then 0 else 1)
    {
      DeleteObj(key, fromSrc, ok);
      if !o.dry {
        deleted := deleted + 1;
      }
    }

    /** The comparison of the two objects. It answers whether they are alike, and answers whenever
    everything can be read. */
    method Compare(obj: Object, r: Reads) returns (equal: bool, err: bool)
      requires obj.size >= 0 && Fits(r, obj.size)
      modifies `checked
      ensures equal ==> !err
      ensures !err ==> (equal <==> Alike(o, src, dst, obj, r))
      ensures err ==> !Comparable(o, src, dst, obj, r)
      ensures checked == old(checked) + (if err then 0 else 1)
    {
      hide AllReadable, Fits;
      var asLink := AsLink(o, obj) && Verifies(o);
      // every read of an object that is not there fails
      if !asLink && (obj.key !in src || obj.key !in dst) {
        return false, true;
      }
      var a := if obj.key in src then src[obj.key] else [];
      var b := if obj.key in dst then dst[obj.key] else [];
      equal, err := DoCheckSum(a, b, obj.size, None, asLink, r);
      if !err {
        checked := checked + 1;
      }
    }

    /** An object found equal is deleted from the source if it is to be, a directory later; otherwise its
    permissions may be copied. */
    method WhenEqual(obj: Object, calls: Calls)
      requires !o.dry
      modifies `src, `dst, `srcDelayDel, `copied, `deleted, `skipped, `failed, `asked
      ensures AlikeSettled(o, obj, calls, old(Now()), Now()) && Books() == old(Books()) + 1
      ensures asked == old(asked) + (if o.deleteSrc && !obj.isDir then 1 else 0)
    {
      if o.deleteSrc {
        if obj.isDir {
          srcDelayDel := srcDelayDel + [obj.key];
        } else {
          DeleteObj(obj.key, true, calls.deleted);
          deleted := deleted + 1;
        }
      } else if o.perms && (!obj.isSymlink || !o.links) {
        if !calls.headFound {
          failed := failed + 1;
        } else if calls.permsDiffer {
          copied := copied + 1;
        } else {
          skipped := skipped + 1;
        }
      } else {
        skipped := skipped + 1;
      }
    }

    /** How many checks follow a copy and are counted, if it ends well: the check for a change, if it gets to see
    the source's object and no verification follows; a verification, if it gets to an answer. */
    ghost function Checks(obj: Object, calls: Calls, after: Store): nat
      requires Proper(obj, calls)
    {
      var link := o.links && obj.isSymlink;
      if (calls.copy.InParts? && calls.copy.run == []) || Outcome(calls.copy) != Works || obj.key !in after then 0
      else if !o.checkAll && !o.checkNew then (if o.checkChange && !link && calls.change != Unknown then 1 else 0)
      else if o.checkChange && !link && calls.change != Kept then 0
      else if link then (if calls.verify.srcLink.Some? && calls.verify.dstLink.Some? then 1 else 0)
      else if AllReadable(after[obj.key], obj.size, calls.verify.dst) then 1 else 0
    }

    /** What lies under the key is checked for a change meanwhile and verified, as the options ask. */
    method Confirm(obj: Object, copied: seq<byte>, sum: word, calls: Calls) returns (ok: bool)
      requires Proper(obj, calls) && (calls.copy.InParts? ==> calls.copy.run != []) && Outcome(calls.copy) == Works
      requires obj.key in dst && copied == dst[obj.key]
      modifies `checked
      ensures checked == old(checked) + Checks(obj, calls, dst)
      ensures ok && o.checkChange && !AsLink(o, obj) ==> calls.change == Kept
      ensures ok && Verifies(o) ==> VerifiedCopy(o, obj, copied, sum, calls.verify)
      ensures !ok ==>
                || (o.checkChange && !AsLink(o, obj) && calls.change != Kept)
                || (Verifies(o) && !VerifiedCopy(o, obj, copied, sum, calls.verify))
                || (Verifies(o) && !AsLink(o, obj) && !AllReadable(copied, obj.size, calls.verify.dst))
    {
      hide Crc, AllReadable, SameLink, Outcome;
      ok := true;
      if o.checkChange && !AsLink(o, obj) {
        if !Verifies(o) && calls.change != Unknown {
          checked := checked + 1;
        }
        ok := calls.change == Kept;
      }
      if ok && Verifies(o) {
        var src := if obj.key in src then src[obj.key] else [];
        var equal, err := DoCheckSum(src, copied, obj.size, Some(sum), AsLink(o, obj), calls.verify);
        if !err {
          checked := checked + 1;
        }
        ok := equal;
      }
    }

    /** The calls of a copy are made, and what they leave is checked and counted. */
    method Transfer(obj: Object, calls: Calls)
      requires Proper(obj, calls) && Suits(o, obj, calls.copy, src, dst)
      modifies `dst, `copied, `checked, `skipped, `failed
      ensures CopyMade(o, obj, calls, old(Now()), Now()) && checked == old(checked) + Checks(obj, calls, dst)
    {
      hide Crc, AllReadable, RunOf, LeftBy, Sum, Outcome, HalfLinked, SameButParts, SameLink, VerifiedCopy, Proper,
        Suits, CopyMade, Faithful;
      ghost var before := Now();
      CopyDoes(o, obj, calls.copy, src, dst);
      if Faithful(o, src, dst, obj, calls) { FaithfulPasses(o, src, dst, obj, calls); }
      dst := LeftBy(calls.copy, obj.key, dst);
      var ok := Outcome(calls.copy) == Works;
      if ok {
        ok := Confirm(obj, dst[obj.key], Sum(calls.copy), calls);
      }
      if ok {
        copied := copied + 1;
      } else if Outcome(calls.copy) == Skips {
        skipped := skipped + 1;
      } else {
        failed := failed + 1;
      }
      IsMade(o, obj, calls, before, Now(), ok);
    }

    /** A copy. Nothing is done, and nothing counted, if and only if a retry is to be told and there is no
    recorder; and a dry run only counts. */
    method Copy(obj: Object, calls: Calls) returns (panicked: bool)
      requires Proper(obj, calls) && Suits(o, obj, calls.copy, src, dst)
      modifies `dst, `copied, `checked, `skipped, `failed
      ensures panicked <==> !o.dry && Panics(o, calls.copy)
      ensures panicked ==> Now() == old(Now()) && checked == old(checked)
      ensures o.dry ==> Now() == old(Now()).(copied := old(copied) + 1) && checked == old(checked)
      ensures !o.dry && !panicked ==>
                CopyMade(o, obj, calls, old(Now()), Now()) && checked == old(checked) + Checks(obj, calls, dst)
      ensures Books() == old(Books()) + (if panicked then 0 else 1)
    {
      hide Panics, Suits, Proper, CopyMade, Outcome;
      panicked := false;
      if o.dry {
        copied := copied + 1;
      } else if Panics(o, calls.copy) {
        panicked := true;
      } else {
        ghost var before := Now();
        Transfer(obj, calls);
        OneCounted(o, obj, calls, before, Now());
      }
    }

    /** A comparison outside a dry run. One of three things is found, and one of them always if everything can be
    read: alike, and the source's object goes if it is to, a directory later, or its permissions may be copied;
    different, and it is copied; or an error, which counts as one failure and does nothing else. */
    method Check(obj: Object, calls: Calls) returns (panicked: bool, ghost found: Found)
      requires Proper(obj, calls) && Suits(o, obj, calls.copy, src, dst) && !o.dry
      modifies `src, `dst, `srcDelayDel, `copied, `checked, `deleted, `skipped, `failed, `asked
      ensures Comparable(o, old(src), old(dst), obj, calls.compare) ==> found != Unreadable
      ensures found == Equal ==> Alike(o, old(src), old(dst), obj, calls.compare)
      ensures found == Unequal ==> !Alike(o, old(src), old(dst), obj, calls.compare)
      ensures found == Unreadable ==> !panicked && FailureCounted(old(Now()), Now())
      ensures found == Equal ==> !panicked && AlikeSettled(o, obj, calls, old(Now()), Now())
      ensures found == Unequal ==> (panicked <==> Panics(o, calls.copy))
      ensures found == Unequal && !panicked ==> CopyMade(o, obj, calls, old(Now()), Now())
      ensures checked == old(checked) + (if found == Unreadable then 0 else 1)
                                      + (if found == Unequal && !panicked then Checks(obj, calls, dst) else 0)
      ensures panicked ==> Now() == old(Now())
      ensures Books() == old(Books()) + (if panicked then 0 else 1)
    {
      hide Alike, Comparable, Proper, Panics, Suits, CopyMade, AlikeSettled, Checks;
      CompareFits(obj, calls);
      panicked := false;
      var equal, err := Compare(obj, calls.compare);
      found := if err then Unreadable else if equal then Equal else Unequal;
      if err {
        failed := failed + 1;
      } else if equal {
        WhenEqual(obj, calls);
      } else {
        panicked := Copy(obj, calls);
      }
    }

    /** One task, whatever the calls come to. It is handled once, unless a retry of its copy is to be told and
    there is no recorder: then the process ends there, with nothing done or counted. A deletion that was planned
    is asked for. A comparison that cannot be answered counts as a failure; an object found alike is settled as
    such; one found to differ is copied, as is one whose copy was planned. A dry run only counts. */
    method Handle(task: Task, calls: Calls) returns (panicked: bool, ghost found: Option<Found>)
      requires Proper(task.obj, calls) && Suits(o, task.obj, calls.copy, src, dst)
      modifies this
      ensures handled == old(handled) + (if panicked then 0 else 1) && Books() == old(Books())
      ensures SameBut(src, old(src), task.obj.key) && SameButParts(calls.copy, dst, old(dst), task.obj.key)
      ensures task.obj.key in old(dst) && task.obj.key !in dst ==>
                task.Size() == MARK_DELETE_DST || (HalfLinked(calls.copy) && copied == old(copied))
      ensures panicked ==> Now() == old(Now()) && !o.dry && Panics(o, calls.copy)
      ensures found.Some? <==> task.Size() == MARK_CHECKSUM && !o.dry
      ensures task.Size() == MARK_DELETE_SRC ==>
                !panicked && Now() ==
                  if o.dry then old(Now()).(deleted := old(deleted) + 1)
                  else if calls.deleted then old(Now()).(src := old(src) - {task.obj.key}, deleted := old(deleted) + 2)
                  else old(Now()).(failed := old(failed) + 1, deleted := old(deleted) + 1)
      ensures task.Size() == MARK_DELETE_DST ==>
                !panicked && Now() ==
                  if o.dry then old(Now()).(deleted := old(deleted) + 1)
                  else if calls.deleted then old(Now()).(dst := old(dst) - {task.obj.key}, deleted := old(deleted) + 2)
                  else old(Now()).(failed := old(failed) + 1, deleted := old(deleted) + 1)
      ensures task.Size() == MARK_COPY_PERMS ==> !panicked && Now() == old(Now()).(copied := old(copied) + 1)
      ensures task.Size() == MARK_CHECKSUM && o.dry ==> !panicked && Now() == old(Now()) && checked == old(checked) + 1
      ensures found.Some? && Comparable(o, old(src), old(dst), task.obj, calls.compare) ==> found != Some(Unreadable)
      ensures found == Some(Unreadable) ==> !panicked && FailureCounted(old(Now()), Now())
      ensures found == Some(Equal) ==>
                Alike(o, old(src), old(dst), task.obj, calls.compare)
                && !panicked && AlikeSettled(o, task.obj, calls, old(Now()), Now())
      ensures found == Some(Unequal) ==>
                !Alike(o, old(src), old(dst), task.obj, calls.compare) && (panicked <==> Panics(o, calls.copy))
      ensures task.Size() >= 0 ==> (panicked <==> !o.dry && Panics(o, calls.copy))
      ensures task.Size() >= 0 && o.dry ==> Now() == old(Now()).(copied := old(copied) + 1)
      ensures !o.dry && (found == Some(Unequal) || task.Size() >= 0) && !panicked ==>
                CopyMade(o, task.obj, calls, old(Now()), Now())
      ensures task.Size() >= -4 ==>
                checked == old(checked)
                + (if task.Size() == MARK_CHECKSUM && found != Some(Unreadable) then 1 else 0)
                + (if !o.dry && (found == Some(Unequal) || task.Size() >= 0) && !panicked
                   then Checks(task.obj, calls, dst) else 0)
    {
      hide Alike, Comparable, Proper, Panics, Suits, CopyMade, AlikeSettled, FailureCounted, SameBut, SameButParts,
        HalfLinked, Checks;
      panicked, found := false, None;
      ghost var before := Now();
      if task.Size() == MARK_DELETE_SRC {
        Delete(task.obj.key, true, calls.deleted);
      } else if task.Size() == MARK_DELETE_DST {
        Delete(task.obj.key, false, calls.deleted);
      } else if task.Size() == MARK_COPY_PERMS {
        copied := copied + 1;
      } else if task.Size() == MARK_CHECKSUM && o.dry {
        checked := checked + 1;
      } else if task.Size() == MARK_CHECKSUM {
        ghost var f;
        panicked, f := Check(task.obj, calls);
        found := Some(f);
        if f != Unequal { SettledStores(o, task.obj, calls, before, Now()); }
      } else {
        panicked := Copy(task.obj, calls);
      }
      OnlyItsKey(o, task.obj, calls, before, Now());
      if !panicked {
        handled := handled + 1;
      }
    }
  }

  lemma PanicDoesNothing(o: Options, obj: Object, copy: CopyCalls, src: Store, dst: Store)
    requires Suits(o, obj, copy, src, dst) && Panics(o, copy)
    ensures Outcome(copy) == Fails && LeftBy(copy, obj.key, dst) == dst
  {
  }

  lemma SuitsRun(o: Options, obj: Object, copy: CopyCalls, src: Store, dst: Store)
    requires Suits(o, obj, copy, src, dst)
    ensures copy.InParts? ==> copy.run != []
  {
  }

  lemma CompareFits(obj: Object, calls: Calls)
    requires Proper(obj, calls)
    ensures obj.size >= 0 && Fits(calls.compare, obj.size)
  {
  }

  // ------------------------------------------------------------------ when alike is identical

  /** The listings tell the lengths of the contents. */
  ghost predicate TellSizes(objs: seq<Object>, s: Store) {
    forall x :: x in objs ==> x.key in s && |s[x.key]| == x.size
  }

  /** For a comparison that was planned from listings that still tell the lengths: objects found alike are
  identical exactly when the listed sizes agree. */
  lemma AlikeIsIdentical(c: Config, limit: int, srcL: Listing, dstL: Listing, e: Event, src: Store, dst: Store)
    requires Ascending(srcL.objs) && Ascending(dstL.objs) && TellSizes(srcL.objs, src) && TellSizes(dstL.objs, dst)
    requires e in Plan(c, limit, srcL, dstL).log && e.action == Checksum
    ensures e.obj.key in src && e.obj.key in dst && e.obj.size >= 0 && Lookup(dstL.objs, e.obj.key).Some?
    ensures SameUpTo(src[e.obj.key], dst[e.obj.key], e.obj.size) ==>
      (src[e.obj.key] == dst[e.obj.key] <==> Lookup(dstL.objs, e.obj.key).value.size == e.obj.size)
    ensures SameUpTo(src[e.obj.key], dst[e.obj.key], e.obj.size) && !c.update ==> src[e.obj.key] == dst[e.obj.key]
  {
    hide Plan, SameUpTo, LikelySame;
    PlanSafety.PlansAreSafe(c, limit, srcL, dstL, e);
    PlanSafety.OnlyOne(dstL.objs, e.obj.key);
    var d := Lookup(dstL.objs, e.obj.key).value;
    assert |src[e.obj.key]| == e.obj.size && |dst[e.obj.key]| == d.size;
    if !c.update { PlanSafety.ComparedSizesAgree(c, limit, srcL, dstL, e); }
    if SameUpTo(src[e.obj.key], dst[e.obj.key], e.obj.size) {
      EqualIsIdentical(src[e.obj.key], dst[e.obj.key], e.obj.size);
    }
  }

  /** Under an update the sizes need not agree, and then the source is lost: of `[1]` and `[1, 2]`, written
  in the same second, the worker finds the first alike and deletes it. */
  method SourceLost(c: Config, s: Object, d: Object) returns (w: Workplace)
    requires c.update && c.checkAll && c.deleteSrc && !c.ignoreExisting && !c.forceUpdate
    requires s.key == d.key && s.size == 1 && d.size == 2 && Unix(s.mtime) == Unix(d.mtime)
    requires !s.isDir && !s.isSymlink
    ensures Event(Checksum, s) in Plan(c, -1, Listing([s], false), Listing([d], false)).log
    ensures s.key !in w.src && s.key in w.dst && w.dst[s.key] == [1, 2]
  {
    PlanSafety.UpdateIgnoresSizes(c, s, d);
    hide Plan;
    w := new Workplace(Options(false, true, false, false, true, false, false, false, 5),
                       map[s.key := [1]], map[s.key := [1, 2]]);
    var g := Get(false, true, 1);
    var r := Reads([g], [g], [0], None, None);
    assert Parts(1) == 1 && AllReadable([1], 1, [g]) && AllReadable([1, 2], 1, [g]);
    assert SameUpTo([1], [1, 2], 1);
    hide AllReadable, SameUpTo;
    assert Alike(w.o, w.src, w.dst, s, r) && Comparable(w.o, w.src, w.dst, s, r);
    hide CopyMade;
    var calls := Calls(true, r, false, false, Single([Refused], [], 0), Kept, r);
    ghost var before := w.Now();
    var panicked, found := w.Handle(Marked(s, MARK_CHECKSUM), calls);
    assert found != Some(Unreadable) && found != Some(Unequal);
    assert found.value == Equal;
    assert AlikeSettled(w.o, s, calls, before, w.Now());
  }

  /** No read gets anything. */
  function NoReads(size: nat): (r: Reads)
    ensures Fits(r, size)
  {
    var gets := seq(Parts(size), i => Get(false, false, 0));
    var r := Reads(gets, gets, seq(Parts(size), i => i), None, None);
    assert IsOrder(r.order, Parts(size)) by {
      forall i: nat | i < Parts(size) ensures i in r.order { assert r.order[i] == i; }
    }
    r
  }

  /** A link that cannot be created costs the destination its object: the old one is deleted first. */
  method LinkGone(c: Config, s: Object, d: Object) returns (w: Workplace)
    requires !c.update && !c.ignoreExisting && s.key == d.key && s.size >= 0 && s.size != d.size
    requires !s.isDir && s.isSymlink
    ensures Event(Copy, s) in Plan(c, -1, Listing([s], false), Listing([d], false)).log
    ensures s.key in w.src && s.key !in w.dst && w.copied == 0
  {
    PlanSafety.DifferentIsCopied(c, s, d);
    hide Plan;
    w := new Workplace(Options(false, false, false, true, false, false, false, false, 5),
                       map[s.key := [1]], map[s.key := [2]]);
    var r := NoReads(s.size);
    var calls := Calls(false, r, false, false, Link(Works, Works, [1], Fails), Kept, r);
    var panicked, found := w.Handle(Plain(s), calls);
  }

  /** A single error that another attempt would mend ends the run, if there is no recorder. */
  method RetryEndsRun(c: Config, s: Object, d: Object) returns (w: Workplace, panicked: bool)
    requires !c.update && !c.ignoreExisting && s.key == d.key && s.size >= 0 && s.size != d.size
    requires !s.isDir && !s.isSymlink
    ensures Event(Copy, s) in Plan(c, -1, Listing([s], false), Listing([d], false)).log
    ensures panicked && w.handled == w.copied == w.skipped == w.failed == 0
  {
    PlanSafety.DifferentIsCopied(c, s, d);
    hide Plan;
    w := new Workplace(Options(false, false, false, false, false, false, false, false, 5),
                       map[s.key := [1]], map[s.key := [2]]);
    var r := NoReads(s.size);
    var calls := Calls(false, r, false, false, Single([Retried], [], 0), Kept, r);
    ghost var found;
    panicked, found := w.Handle(Plain(s), calls);
  }
}
