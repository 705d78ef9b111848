/**
 The disk spool. The directory is the list of its files in name order; a name is a fixed-width
 timestamp, so name order is age. A new record is first written under a temporary name in the
 same directory, and the capacity check counts whatever it finds there.
 */
module Spool {
  import opened Wrappers

  datatype File = File(stamp: nat, size: nat, tmp: bool)

  type Listing = seq<File>

  /** Caps of zero or less are off. The targets are what eviction trims down to. */
  datatype Caps = Caps(maxBytes: int, maxFiles: int, targetBytes: int, targetFiles: int)

  predicate ValidCaps(c: Caps) {
    && (c.maxBytes > 0 ==> 0 <= c.targetBytes <= c.maxBytes)
    && (c.maxFiles > 0 ==> 0 <= c.targetFiles <= c.maxFiles)
  }

  function Total(files: Listing): nat {
    if files == [] then 0 else files[0].size + Total(files[1..])
  }

  predicate OverCaps(c: Caps, files: Listing, newSize: nat, newFiles: nat) {
    || (c.maxBytes > 0 && Total(files) + newSize > c.maxBytes)
    || (c.maxFiles > 0 && |files| + newFiles > c.maxFiles)
  }

  predicate UnderTargets(c: Caps, files: Listing, newSize: nat, newFiles: nat) {
    && (c.maxBytes > 0 ==> Total(files) + newSize <= c.targetBytes)
    && (c.maxFiles > 0 ==> |files| + newFiles <= c.targetFiles)
  }

  predicate TooBigForCaps(c: Caps, newSize: nat, newFiles: nat) {
    (c.maxBytes > 0 && newSize > c.maxBytes) || (c.maxFiles > 0 && newFiles > c.maxFiles)
  }

  /** What is left when files are dropped from the front until both targets are met. */
  function Trimmed(c: Caps, files: Listing, newSize: nat, newFiles: nat): Listing {
    if files == [] || UnderTargets(c, files, newSize, newFiles) then files
    else Trimmed(c, files[1..], newSize, newFiles)
  }

  function AfterEnforcing(c: Caps, files: Listing, newSize: nat, newFiles: nat): Listing {
    if OverCaps(c, files, newSize, newFiles) then Trimmed(c, files, newSize, newFiles) else files
  }

  predicate Ascending(files: Listing) {
    forall i, j :: 0 <= i < j < |files| ==> files[i].stamp < files[j].stamp
  }

  predicate Newest(files: Listing, stamp: nat) {
    forall i :: 0 <= i < |files| ==> files[i].stamp < stamp
  }

  /** Removing a name that is already gone is not an error. */
  function Without(files: Listing, stamp: nat): Listing {
    if files == [] then []
    else (if files[0].stamp == stamp then [] else [files[0]]) + Without(files[1..], stamp)
  }

  /** The directory after an Enqueue, and whether it succeeded. */
  function Enqueued(c: Caps, files: Listing, stamp: nat, size: nat): (Listing, bool) {
    var left := AfterEnforcing(c, files + [File(stamp, size, true)], size, 1);
    if left == [] then ([], false) else (left[..|left| - 1] + [File(stamp, size, false)], true)
  }

  class SpoolDir {
    const caps: Caps
    var files: Listing

    constructor (caps: Caps)
      requires ValidCaps(caps)
      ensures this.caps == caps && files == []
    {
      this.caps := caps;
      files := [];
    }

    method List(limit: int) returns (listed: Listing)
      ensures listed == if 0 < limit < |files| then files[..limit] else files
    {
      listed := files;
      if limit > 0 && |listed| > limit {
        listed := listed[..limit];
      }
    }

    method Remove(stamp: nat)
      modifies this
      ensures files == Without(old(files), stamp)
    {
      files := Without(files, stamp);
    }

    method EnforceCapacity(newSize: nat, newFiles: nat) returns (ok: bool)
      requires ValidCaps(caps)
      modifies this
      ensures files == AfterEnforcing(caps, old(files), newSize, newFiles)
      ensures ok <==> !TooBigForCaps(caps, newSize, newFiles)
    {
      var names := files;
      var used, count := Total(files), |files|;
      if !(caps.maxBytes > 0 && used + newSize > caps.maxBytes) && !(caps.maxFiles > 0 && count + newFiles > caps.maxFiles) {
        return true;
      }
      assert !UnderTargets(caps, names, newSize, newFiles);
      for k := 0 to |names|
        invariant files == names[k..] && used == Total(files) && count == |files|
        invariant !UnderTargets(caps, files, newSize, newFiles)
        invariant Trimmed(caps, files, newSize, newFiles) == Trimmed(caps, names, newSize, newFiles)
      {
        used := used - files[0].size;
        files := files[1..];
        count := count - 1;
        if (caps.maxBytes <= 0 || used + newSize <= caps.targetBytes) && (caps.maxFiles <= 0 || count + newFiles <= caps.targetFiles) {
          return true;
        }
      }
      if caps.maxBytes > 0 && newSize > caps.maxBytes {
        return false;
      }
      if caps.maxFiles > 0 && newFiles > caps.maxFiles {
        return false;
      }
      ok := true;
    }

    /** Write the temporary file, enforce the caps, then rename; the rename fails when eviction took the file. */
    method Enqueue(stamp: nat, size: nat) returns (ok: bool)
      requires ValidCaps(caps) && Newest(files, stamp)
      modifies this
      ensures (files, ok) == Enqueued(caps, old(files), stamp, size)
    {
      ghost var before := files;
      var tmp := File(stamp, size, true);
      files := files + [tmp];
      ghost var written := files;
      ok := EnforceCapacity(size, 1);
      TrimmedIsSuffix(caps, written, size, 1);
      if !ok {
        TooBigLeavesNothing(caps, written, size, 1);
        files := Without(files, stamp);
        return;
      }
      ok := files != [] && files[|files| - 1] == tmp;
      if ok {
        files := files[..|files| - 1] + [tmp.(tmp := false)];
      }
    }
  }

  // ---- eviction takes the shortest prefix

  lemma {:induction false} TrimmedIsSuffix(c: Caps, files: Listing, newSize: nat, newFiles: nat)
    ensures var left := Trimmed(c, files, newSize, newFiles);
            |left| <= |files| && left == files[|files| - |left|..]
  {
    if files != [] && !UnderTargets(c, files, newSize, newFiles) {
      TrimmedIsSuffix(c, files[1..], newSize, newFiles);
    }
  }

  /**
   The files deleted are the shortest oldest-first prefix whose removal meets both targets, and
   all of them when no prefix does; nothing is deleted when the caps are kept anyway.
   */
  lemma {:induction false} EvictsShortestPrefix(c: Caps, files: Listing, newSize: nat, newFiles: nat)
    requires ValidCaps(c)
    ensures var k := |files| - |AfterEnforcing(c, files, newSize, newFiles)|;
            && 0 <= k <= |files| && AfterEnforcing(c, files, newSize, newFiles) == files[k..]
            && (!OverCaps(c, files, newSize, newFiles) ==> k == 0)
            && (OverCaps(c, files, newSize, newFiles) ==>
                  && (k == |files| || UnderTargets(c, files[k..], newSize, newFiles))
                  && forall j :: 0 <= j < k ==> !UnderTargets(c, files[j..], newSize, newFiles))
  {
    if OverCaps(c, files, newSize, newFiles) {
      TrimmedIsShortest(c, files, newSize, newFiles);
    }
  }

  lemma {:induction false} TrimmedIsShortest(c: Caps, files: Listing, newSize: nat, newFiles: nat)
    ensures var k := |files| - |Trimmed(c, files, newSize, newFiles)|;
            && 0 <= k <= |files| && Trimmed(c, files, newSize, newFiles) == files[k..]
            && (k == |files| || UnderTargets(c, files[k..], newSize, newFiles))
            && forall j :: 0 <= j < k ==> !UnderTargets(c, files[j..], newSize, newFiles)
  {
    if files != [] && !UnderTargets(c, files, newSize, newFiles) {
      var rest := files[1..];
      TrimmedIsShortest(c, rest, newSize, newFiles);
      var k := |files| - |Trimmed(c, files, newSize, newFiles)|;
      assert files[k..] == rest[k - 1..];
      forall j | 0 <= j < k ensures !UnderTargets(c, files[j..], newSize, newFiles) {
        if j > 0 {
          assert files[j..] == rest[j - 1..];
        } else {
          assert files[0..] == files;
        }
      }
    }
  }

  /** A nil result means that what is left plus the new record fits both caps. */
  lemma NilMeansItFits(c: Caps, files: Listing, newSize: nat, newFiles: nat)
    requires ValidCaps(c) && !TooBigForCaps(c, newSize, newFiles)
    ensures !OverCaps(c, AfterEnforcing(c, files, newSize, newFiles), newSize, newFiles)
  {
    if OverCaps(c, files, newSize, newFiles) {
      TrimmedIsShortest(c, files, newSize, newFiles);
    }
  }

  lemma TooBigLeavesNothing(c: Caps, files: Listing, newSize: nat, newFiles: nat)
    requires ValidCaps(c) && TooBigForCaps(c, newSize, newFiles)
    ensures AfterEnforcing(c, files, newSize, newFiles) == []
  {
    TrimmedIsShortest(c, files, newSize, newFiles);
  }

  // ---- enqueueing

  lemma TotalOfSuffix(files: Listing, k: nat)
    requires k <= |files|
    ensures Total(files[k..]) <= Total(files)
  {
    if k > 0 {
      assert files[k..] == files[1..][k - 1..];
      TotalOfSuffix(files[1..], k - 1);
    }
  }

  lemma TotalGrows(files: Listing, f: File)
    ensures Total(files + [f]) == Total(files) + f.size
  {
    if files != [] {
      assert (files + [f])[1..] == files[1..] + [f];
      TotalGrows(files[1..], f);
    }
  }

  /** The new record has room when the temporary file and the record itself, counted together, do. */
  predicate RoomFor(c: Caps, files: Listing, size: nat) {
    FitsAsItIs(c, files, size) || MeetsTargets(c, [], size)
  }

  predicate FitsAsItIs(c: Caps, files: Listing, size: nat) {
    (c.maxBytes > 0 ==> Total(files) + 2 * size <= c.maxBytes) && (c.maxFiles > 0 ==> |files| + 2 <= c.maxFiles)
  }

  predicate MeetsTargets(c: Caps, files: Listing, size: nat) {
    (c.maxBytes > 0 ==> Total(files) + 2 * size <= c.targetBytes) && (c.maxFiles > 0 ==> |files| + 2 <= c.targetFiles)
  }

  /**
   When an Enqueue succeeds, exactly. The check counts the new bytes twice, once in the listing
   and once as the new record, so a record must fit twice over; when it does not, the eviction
   takes every file, the record's own temporary file last, and the spool is left empty. When it does,
   no file goes while all fit within the caps, and otherwise no more than the targets ask for.
   */
  lemma EnqueueSucceedsIffRoom(c: Caps, files: Listing, stamp: nat, size: nat)
    requires ValidCaps(c)
    ensures var (after, ok) := Enqueued(c, files, stamp, size);
            && (ok <==> RoomFor(c, files, size))
            && (!ok ==> after == [])
            && (ok ==> exists k :: 0 <= k <= |files| && after == files[k..] + [File(stamp, size, false)]
                                   && (FitsAsItIs(c, files, size) ==> k == 0)
                                   && forall j :: 0 <= j < k ==> !MeetsTargets(c, files[j..], size))
  {
    var tmp := File(stamp, size, true);
    var written := files + [tmp];
    var left := AfterEnforcing(c, written, size, 1);
    TotalGrows(files, tmp);
    EvictsShortestPrefix(c, written, size, 1);
    var k := |written| - |left|;
    assert left == written[k..];
    assert written[|files|..] == [tmp];
    assert Total([tmp]) == size;
    if OverCaps(c, written, size, 1) {
      if k <= |files| {
        TotalOfSuffix(written[k..], |files| - k);
        assert written[k..][|files| - k..] == [tmp];
      } else {
        assert !UnderTargets(c, written[|files|..], size, 1);
      }
    }
    if left != [] {
      assert left[..|left| - 1] == files[k..];
      forall j | 0 <= j < k ensures !MeetsTargets(c, files[j..], size) {
        assert written[j..] == files[j..] + [tmp];
        TotalGrows(files[j..], tmp);
      }
    }
  }

  // ---- runs

  datatype Step = Enqueue(stamp: nat, size: nat) | Remove(stamp: nat)

  /** The clock gives every new record a later stamp than those already there. */
  function Apply(c: Caps, files: Listing, step: Step): Listing {
    match step
    case Enqueue(stamp, size) => if Newest(files, stamp) then Enqueued(c, files, stamp, size).0 else files
    case Remove(stamp) => Without(files, stamp)
  }

  function Exec(c: Caps, steps: seq<Step>): Listing {
    if steps == [] then [] else Apply(c, Exec(c, steps[..|steps| - 1]), steps[|steps| - 1])
  }

  predicate WithinCaps(c: Caps, files: Listing) {
    (c.maxBytes > 0 ==> Total(files) <= c.maxBytes) && (c.maxFiles > 0 ==> |files| <= c.maxFiles)
  }

  /** Remove takes exactly the files of that name. */
  lemma {:induction false} WithoutTakesOne(files: Listing, stamp: nat, f: File)
    ensures f in Without(files, stamp) <==> f in files && f.stamp != stamp
  {
    if files != [] {
      WithoutTakesOne(files[1..], stamp, f);
      assert files == [files[0]] + files[1..];
    }
  }

  lemma {:induction false} WithoutIsSmaller(files: Listing, stamp: nat)
    requires Ascending(files)
    ensures var left := Without(files, stamp);
            Total(left) <= Total(files) && |left| <= |files| && Ascending(left)
  {
    if files != [] {
      var first, rest := files[0], Without(files[1..], stamp);
      WithoutIsSmaller(files[1..], stamp);
      forall i | 0 <= i < |rest| ensures first.stamp < rest[i].stamp {
        WithoutTakesOne(files[1..], stamp, rest[i]);
        var j :| 0 <= j < |files[1..]| && files[1..][j] == rest[i];
        assert files[j + 1] == rest[i];
      }
      if first.stamp != stamp {
        assert Without(files, stamp) == [first] + rest;
        assert ([first] + rest)[1..] == rest;
      } else {
        assert Without(files, stamp) == rest;
      }
    }
  }

  lemma EnqueueKeepsCaps(c: Caps, files: Listing, stamp: nat, size: nat)
    requires ValidCaps(c) && WithinCaps(c, files) && Ascending(files) && Newest(files, stamp)
    ensures WithinCaps(c, Enqueued(c, files, stamp, size).0) && Ascending(Enqueued(c, files, stamp, size).0)
  {
    var (after, ok) := Enqueued(c, files, stamp, size);
    EnqueueSucceedsIffRoom(c, files, stamp, size);
    if ok {
      var left := AfterEnforcing(c, files + [File(stamp, size, true)], size, 1);
      EvictsShortestPrefix(c, files + [File(stamp, size, true)], size, 1);
      assert left == left[..|left| - 1] + [File(stamp, size, true)];
      TotalGrows(left[..|left| - 1], File(stamp, size, true));
      TotalGrows(left[..|left| - 1], File(stamp, size, false));
    }
  }

  /** Every sequence of Enqueue and Remove leaves the directory in age order and within both caps. */
  lemma {:induction false} RunsStayWithinCaps(c: Caps, steps: seq<Step>)
    requires ValidCaps(c)
    ensures WithinCaps(c, Exec(c, steps)) && Ascending(Exec(c, steps))
  {
    if steps != [] {
      var front, last := Exec(c, steps[..|steps| - 1]), steps[|steps| - 1];
      RunsStayWithinCaps(c, steps[..|steps| - 1]);
      match last
      case Enqueue(stamp, size) =>
        if Newest(front, stamp) {
          EnqueueKeepsCaps(c, front, stamp, size);
        }
      case Remove(stamp) => WithoutIsSmaller(front, stamp);
    }
  }
}
