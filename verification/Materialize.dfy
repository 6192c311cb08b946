/** `materialize`: preflight, temporaries, recheck, commit, verification and cleanup.

    Any operation may fail at any point.  What every failure leaves is a prefix of the edits, whole,
    and at most temporaries besides. */
module Materialize {
  import opened Options
  import opened Ordering
  import opened FullFile

  type Temporaries = map<string, string>

  // ---------------------------------------------------------------- what is on the disk meanwhile

  /** The files are `base` and, apart from it, exactly the temporaries: one for each edit that has
      one, holding its content, and `litter` that could not be removed again. */
  ghost predicate Staged(base: Files, files: Files, temps: Temporaries, litter: set<string>) {
    && (forall p :: p in files <==> p in base || p in temps.Values || p in litter)
    && (forall p :: p in base ==> p in files && files[p] == base[p])
    && (forall p :: p in base ==> p !in temps.Values && p !in litter)
    && (forall q :: q in temps ==> temps[q] !in litter)
    && (forall q, q' :: q in temps && q' in temps && q != q' ==> temps[q] != temps[q'])
  }

  /** Each temporary holds the content of its edit. */
  ghost predicate Holds(files: Files, temps: Temporaries, edits: seq<Edit>) {
    forall i :: 0 <= i < |edits| && edits[i].path in temps ==>
      && temps[edits[i].path] in files && files[temps[edits[i].path]].Safe()
      && files[temps[edits[i].path]].content == edits[i].content
  }

  ghost predicate Named(temps: Temporaries, litter: set<string>, pid: nat, edits: seq<Edit>) {
    forall t :: t in temps.Values || t in litter ==> IsTemporary(t, pid, edits)
  }

  /** No edit targets a temporary. */
  ghost predicate Apart(temps: Temporaries, litter: set<string>, edits: seq<Edit>) {
    forall i :: 0 <= i < |edits| ==> edits[i].path !in temps.Values && edits[i].path !in litter
  }

  function Without(files: Files, left: set<string>): Files {
    files - left
  }

  lemma AddedValue(temps: Temporaries, path: string, t: string)
    requires path !in temps
    ensures temps[path := t].Values == temps.Values + {t}
  {
    var more := temps[path := t];
    assert forall q :: q in temps ==> q in more && more[q] == temps[q];
    forall v | v in temps.Values + {t}
      ensures v in more.Values
    {
      if v in temps.Values {
        var q :| q in temps && temps[q] == v;
        assert more[q] == v;
      } else {
        assert more[path] == v;
      }
    }
  }

  lemma AddTemporary(base: Files, files: Files, temps: Temporaries, path: string, t: string, entry: Entry)
    requires Staged(base, files, temps, {}) && path !in temps && t !in files
    ensures Staged(base, files[t := entry], temps[path := t], {})
    ensures Staged(base, files[t := entry], temps, {t})
    ensures temps[path := t].Values == temps.Values + {t}
  {
    AddedValue(temps, path, t);
  }

  lemma DropTemporary(base: Files, files: Files, temps: Temporaries, litter: set<string>, path: string)
    requires Staged(base, files, temps, litter) && path in temps
    ensures Staged(base, files - {temps[path]}, temps - {path}, litter)
    ensures (temps - {path}).Values <= temps.Values
  {
    var less := temps - {path};
    forall v | v in temps.Values && v != temps[path]
      ensures v in less.Values
    {
      var q :| q in temps && temps[q] == v;
      assert q in less && less[q] == v;
    }
    assert temps[path] !in less.Values;
  }

  lemma PutTarget(base: Files, files: Files, temps: Temporaries, litter: set<string>, path: string, entry: Entry)
    requires Staged(base, files, temps, litter) && path !in temps.Values && path !in litter
    ensures Staged(base[path := entry], files[path := entry], temps, litter)
  {
  }

  // ---------------------------------------------------------------- preflight and recheck

  /** What a read said is still so. */
  predicate Agrees(files: Files, path: string, r: Read) {
    match r
    case Unreadable => false
    case Missing => path !in files
    case Found(inode, content) => path in files && files[path] == Entry(inode, content, true, true)
  }

  /** Every edit fits, and every file it would replace can be read safely. */
  predicate Ready(files: Files, edits: seq<Edit>) {
    && AllFit(ContentsOf(files), edits)
    && forall i :: 0 <= i < |edits| && edits[i].path in files ==> files[edits[i].path].Safe()
  }

  predicate Seen(files: Files, edits: seq<Edit>, seen: map<string, Read>) {
    forall i :: 0 <= i < |edits| ==> edits[i].path in seen && Agrees(files, edits[i].path, seen[edits[i].path])
  }

  predicate Matches(e: Edit, r: Read) {
    match e.op
    case Create => r == Missing
    case Modify => r.Found? && e.before == Some(r.content)
  }

  lemma MatchMeansFit(files: Files, e: Edit, r: Read)
    requires Agrees(files, e.path, r)
    ensures Matches(e, r) <==> FitsContents(ContentsOf(files), e)
  {
  }

  /** The first pass: every target is read and compared with the state it is bound to. */
  method Preflight(disk: Disk, edits: seq<Edit>) returns (ok: bool, seen: map<string, Read>)
    modifies disk`faults
    ensures ok ==> Ready(disk.files, edits) && Seen(disk.files, edits, seen) && disk.faults == old(disk.faults)
    ensures !ok ==> disk.faults > old(disk.faults) || !Ready(disk.files, edits)
  {
    seen := map[];
    var i := 0;
    while i < |edits|
      invariant 0 <= i <= |edits|
      invariant Ready(disk.files, edits[..i]) && Seen(disk.files, edits[..i], seen)
      invariant disk.faults == old(disk.faults)
    {
      var e := edits[i];
      var reached := disk.Touch();
      if !reached {
        return false, seen;
      }
      var r := disk.ReadTarget(e.path);
      if r == Unreadable {
        return false, seen;
      }
      MatchMeansFit(disk.files, e, r);
      if !Matches(e, r) {
        assert !FitsContents(ContentsOf(disk.files), edits[i]);
        return false, seen;
      }
      assert edits[..i + 1] == edits[..i] + [e];
      seen := seen[e.path := r];
      i := i + 1;
    }
    assert edits[..i] == edits;
    return true, seen;
  }

  /** The third pass: every target is still what the first pass saw. */
  method Recheck(disk: Disk, edits: seq<Edit>, seen: map<string, Read>) returns (ok: bool)
    requires forall i :: 0 <= i < |edits| ==> edits[i].path in seen
    modifies disk`faults
    ensures ok ==> Seen(disk.files, edits, seen) && disk.faults == old(disk.faults)
    ensures !ok ==> disk.faults > old(disk.faults) || !Seen(disk.files, edits, seen)
  {
    var i := 0;
    while i < |edits|
      invariant 0 <= i <= |edits| && Seen(disk.files, edits[..i], seen)
      invariant disk.faults == old(disk.faults)
    {
      var e := edits[i];
      var anchored := disk.Touch();
      if !anchored {
        return false;
      }
      var r := disk.ReadTarget(e.path);
      if r == Unreadable || r != seen[e.path] {
        assert r != Unreadable ==> !Agrees(disk.files, e.path, seen[e.path]);
        return false;
      }
      assert edits[..i + 1] == edits[..i] + [e];
      i := i + 1;
    }
    assert edits[..i] == edits;
    return true;
  }

  // ---------------------------------------------------------------- temporaries

  datatype Written = Kept(name: string) | NotKept

  /** One file more, under a name that was free. */
  predicate Placed(files: Files, files': Files, t: string) {
    t !in files && t in files' && files' == files[t := files'[t]]
  }

  predicate NamedFor(t: string, pid: nat, e: Edit) {
    exists n :: 0 <= n < 100 && t == TemporaryName(e.path, pid, n)
  }

  predicate NamesTaken(files: Files, pid: nat, e: Edit) {
    forall n :: 0 <= n < 100 ==> TemporaryName(e.path, pid, n) in files
  }

  /** `_write_temp`: the first free of a hundred names, written whole or removed again. */
  method WriteTemp(disk: Disk, pid: nat, e: Edit) returns (r: Written, ghost litter: set<string>)
    modifies disk
    ensures r.Kept? ==>
              && Placed(old(disk.files), disk.files, r.name) && NamedFor(r.name, pid, e)
              && disk.files[r.name].content == e.content && disk.files[r.name].Safe()
              && disk.faults == old(disk.faults) && disk.stuck == old(disk.stuck) && litter == {}
    ensures r == NotKept && litter == {} ==> disk.files == old(disk.files)
    ensures r == NotKept && litter != {} ==>
              exists t :: litter == {t} && Placed(old(disk.files), disk.files, t) && NamedFor(t, pid, e)
    ensures r == NotKept ==> disk.faults > old(disk.faults) || NamesTaken(old(disk.files), pid, e)
    ensures disk.stuck >= old(disk.stuck) && (disk.stuck == old(disk.stuck) ==> litter == {})
  {
    litter := {};
    var counter := 0;
    while counter < 100
      invariant 0 <= counter <= 100
      invariant disk.files == old(disk.files) && disk.faults == old(disk.faults) && disk.stuck == old(disk.stuck)
      invariant forall n :: 0 <= n < counter ==> TemporaryName(e.path, pid, n) in disk.files
    {
      var name := TemporaryName(e.path, pid, counter);
      var reserved := disk.CreateExclusive(name);
      if reserved == ReserveFailed {
        return NotKept, {};
      }
      if reserved == Reserved {
        var ok := disk.WriteOut(name, e.content);
        if ok {
          return Kept(name), {};
        }
        var removed := disk.Unlink(name);
        if removed {
          assert disk.files == old(disk.files);
          return NotKept, {};
        }
        litter := {name};
        return NotKept, litter;
      }
      counter := counter + 1;
    }
    return NotKept, {};
  }

  lemma TemporaryIsNamed(edits: seq<Edit>, i: nat, pid: nat, t: string)
    requires i < |edits| && NamedFor(t, pid, edits[i])
    ensures IsTemporary(t, pid, edits)
  {
  }

  lemma HoldsMore(files: Files, files': Files, temps: Temporaries, edits: seq<Edit>, i: nat, t: string)
    requires NoRepeats(PathsOf(edits)) && i < |edits| && edits[i].path !in temps
    requires Holds(files, temps, edits) && Placed(files, files', t)
    requires files'[t].Safe() && files'[t].content == edits[i].content
    ensures Holds(files', temps[edits[i].path := t], edits)
  {
  }

  predicate Covers(temps: Temporaries, edits: seq<Edit>, from: nat, to: nat)
    requires from <= to <= |edits|
  {
    && (forall i :: from <= i < to ==> edits[i].path in temps)
    && (forall i :: 0 <= i < |edits| && !(from <= i < to) ==> edits[i].path !in temps)
    && (forall q :: q in temps ==> q in PathsOf(edits))
  }

  /** Temporaries for the first `i` edits, and nothing else new. */
  ghost predicate PartWritten(base: Files, files: Files, temps: Temporaries, pid: nat, edits: seq<Edit>, i: nat) {
    && i <= |edits| && Covers(temps, edits, 0, i)
    && Staged(base, files, temps, {}) && Holds(files, temps, edits) && Named(temps, {}, pid, edits)
  }

  lemma TemporaryKept(base: Files, files: Files, files': Files, temps: Temporaries, pid: nat, edits: seq<Edit>,
                      i: nat, t: string)
    requires NoRepeats(PathsOf(edits)) && i < |edits| && PartWritten(base, files, temps, pid, edits, i)
    requires Placed(files, files', t) && NamedFor(t, pid, edits[i])
    requires files'[t].Safe() && files'[t].content == edits[i].content
    ensures PartWritten(base, files', temps[edits[i].path := t], pid, edits, i + 1)
  {
    TemporaryIsNamed(edits, i, pid, t);
    AddTemporary(base, files, temps, edits[i].path, t, files'[t]);
    HoldsMore(files, files', temps, edits, i, t);
    CoversNext(temps, edits, i, t);
  }

  lemma TemporaryStuck(base: Files, files: Files, files': Files, temps: Temporaries, pid: nat, edits: seq<Edit>,
                       i: nat, t: string)
    requires i < |edits| && PartWritten(base, files, temps, pid, edits, i)
    requires Placed(files, files', t) && NamedFor(t, pid, edits[i])
    ensures Staged(base, files', temps, {t}) && Holds(files', temps, edits) && Named(temps, {t}, pid, edits)
  {
  }

  /** The second pass. */
  method WriteTemporaries(disk: Disk, pid: nat, edits: seq<Edit>)
    returns (ok: bool, temps: Temporaries, ghost litter: set<string>)
    requires NoRepeats(PathsOf(edits))
    modifies disk
    ensures Staged(old(disk.files), disk.files, temps, litter) && Holds(disk.files, temps, edits)
    ensures Named(temps, litter, pid, edits) && forall q :: q in temps ==> q in PathsOf(edits)
    ensures ok ==> litter == {} && Covers(temps, edits, 0, |edits|) && disk.faults == old(disk.faults)
    ensures !ok ==> || disk.faults > old(disk.faults)
                    || exists i :: 0 <= i < |edits| && NamesTaken(disk.files, pid, edits[i])
    ensures disk.stuck >= old(disk.stuck) && (disk.stuck == old(disk.stuck) ==> litter == {})
  {
    temps, litter := map[], {};
    ghost var base := disk.files;
    var i := 0;
    while i < |edits|
      invariant 0 <= i <= |edits| && PartWritten(base, disk.files, temps, pid, edits, i)
      invariant disk.faults == old(disk.faults) && disk.stuck == old(disk.stuck)
    {
      ghost var files := disk.files;
      var written;
      written, litter := WriteTemp(disk, pid, edits[i]);
      if written == NotKept {
        if litter != {} {
          ghost var t :| litter == {t} && Placed(files, disk.files, t) && NamedFor(t, pid, edits[i]);
          TemporaryStuck(base, files, disk.files, temps, pid, edits, i, t);
        }
        return false, temps, litter;
      }
      TemporaryKept(base, files, disk.files, temps, pid, edits, i, written.name);
      temps := temps[edits[i].path := written.name];
      i := i + 1;
    }
    return true, temps, {};
  }

  lemma CoversNext(temps: Temporaries, edits: seq<Edit>, i: nat, t: string)
    requires NoRepeats(PathsOf(edits)) && i < |edits| && Covers(temps, edits, 0, i)
    ensures Covers(temps[edits[i].path := t], edits, 0, i + 1)
  {
  }

  // ---------------------------------------------------------------- commit

  /** `base` is what the first `k` edits make of the original files. */
  ghost predicate Prefix(orig: Files, base: Files, edits: seq<Edit>, k: nat) {
    k <= |edits| && ContentsOf(base) == Apply(ContentsOf(orig), edits[..k])
  }

  lemma PrefixNext(orig: Files, base: Files, edits: seq<Edit>, k: nat, entry: Entry)
    requires k < |edits| && Prefix(orig, base, edits, k) && entry.content == edits[k].content
    ensures Prefix(orig, base[edits[k].path := entry], edits, k + 1)
  {
    assert edits[..k + 1][..k] == edits[..k];
    assert ContentsOf(base[edits[k].path := entry]) == ContentsOf(base)[edits[k].path := entry.content];
  }

  /** The edits before `k` are in place and can be read; those from `k` on still have exactly the
      targets they are bound to. */
  ghost predicate Targets(base: Files, edits: seq<Edit>, k: nat) {
    && (forall i :: 0 <= i < k && i < |edits| ==>
          edits[i].path in base && base[edits[i].path].Safe() && base[edits[i].path].content == edits[i].content)
    && (forall i :: k <= i < |edits| ==> (edits[i].path in base <==> edits[i].op == Modify))
  }

  lemma TargetsNext(base: Files, edits: seq<Edit>, k: nat, entry: Entry)
    requires NoRepeats(PathsOf(edits)) && k < |edits| && Targets(base, edits, k)
    requires entry.Safe() && entry.content == edits[k].content
    ensures Targets(base[edits[k].path := entry], edits, k + 1)
  {
  }

  /** At the head of the commit loop. */
  ghost predicate Committing(orig: Files, base: Files, files: Files, temps: Temporaries, edits: seq<Edit>, k: nat) {
    && k <= |edits| && Prefix(orig, base, edits, k) && Targets(base, edits, k)
    && Staged(base, files, temps, {}) && Holds(files, temps, edits)
    && Covers(temps, edits, k, |edits|) && Apart(temps, {}, edits)
  }

  lemma HoldsAfter(files: Files, files': Files, temps: Temporaries, edits: seq<Edit>, k: nat)
    requires NoRepeats(PathsOf(edits)) && k < |edits| && Holds(files, temps, edits) && edits[k].path in temps
    requires forall q :: q in temps && q != edits[k].path ==> temps[q] in files ==>
               temps[q] in files' && files'[temps[q]] == files[temps[q]]
    ensures Holds(files', temps - {edits[k].path}, edits)
  {
  }

  lemma CoversAfter(temps: Temporaries, edits: seq<Edit>, k: nat)
    requires NoRepeats(PathsOf(edits)) && k < |edits| && Covers(temps, edits, k, |edits|)
    ensures Covers(temps - {edits[k].path}, edits, k + 1, |edits|)
  {
  }

  /** The target of edit `k` now holds its temporary. */
  function Put(files: Files, temps: Temporaries, edits: seq<Edit>, k: nat): Files
    requires k < |edits| && edits[k].path in temps && temps[edits[k].path] in files
  {
    files[edits[k].path := files[temps[edits[k].path]]]
  }

  function PutBase(base: Files, files: Files, temps: Temporaries, edits: seq<Edit>, k: nat): Files
    requires k < |edits| && edits[k].path in temps && temps[edits[k].path] in files
  {
    base[edits[k].path := files[temps[edits[k].path]]]
  }

  lemma TemporaryReady(orig: Files, base: Files, files: Files, temps: Temporaries, edits: seq<Edit>, k: nat)
    requires Committing(orig, base, files, temps, edits, k) && k < |edits|
    ensures edits[k].path in temps
    ensures var t := temps[edits[k].path];
      t in files && files[t].Safe() && files[t].content == edits[k].content && t != edits[k].path
    ensures edits[k].path in files <==> edits[k].op == Modify
  {
  }

  lemma TargetPut(orig: Files, base: Files, files: Files, temps: Temporaries, edits: seq<Edit>, k: nat)
    requires NoRepeats(PathsOf(edits)) && k < |edits| && Committing(orig, base, files, temps, edits, k)
    requires edits[k].path in temps && temps[edits[k].path] in files
    ensures var base', files' := PutBase(base, files, temps, edits, k), Put(files, temps, edits, k);
      Prefix(orig, base', edits, k + 1) && Targets(base', edits, k + 1) && Staged(base', files', temps, {})
  {
    TemporaryReady(orig, base, files, temps, edits, k);
    var entry := files[temps[edits[k].path]];
    PrefixNext(orig, base, edits, k, entry);
    TargetsNext(base, edits, k, entry);
    PutTarget(base, files, temps, {}, edits[k].path, entry);
  }

  lemma ApartLess(temps: Temporaries, less: Temporaries, edits: seq<Edit>)
    requires Apart(temps, {}, edits) && less.Values <= temps.Values
    ensures Apart(less, {}, edits)
  {
  }

  lemma EditCommitted(orig: Files, base: Files, files: Files, temps: Temporaries, edits: seq<Edit>, k: nat)
    requires NoRepeats(PathsOf(edits)) && k < |edits| && Committing(orig, base, files, temps, edits, k)
    requires edits[k].path in temps && temps[edits[k].path] in files
    ensures Committing(orig, PutBase(base, files, temps, edits, k),
                       Put(files, temps, edits, k) - {temps[edits[k].path]}, temps - {edits[k].path}, edits, k + 1)
  {
    var path := edits[k].path;
    var base', files' := PutBase(base, files, temps, edits, k), Put(files, temps, edits, k);
    TargetPut(orig, base, files, temps, edits, k);
    DropTemporary(base', files', temps, {}, path);
    assert forall q :: q in temps ==> temps[q] in temps.Values;
    HoldsAfter(files, files' - {temps[path]}, temps, edits, k);
    CoversAfter(temps, edits, k);
    ApartLess(temps, temps - {path}, edits);
  }

  lemma NothingLeft(temps: Temporaries, edits: seq<Edit>)
    requires Covers(temps, edits, |edits|, |edits|)
    ensures temps == map[]
  {
  }

  datatype Step = Untouched | HalfDone | Done

  /** One edit: a link and a removal for a creation, one replacement for a modification. */
  method CommitOne(disk: Disk, edits: seq<Edit>, k: nat, temps: Temporaries, ghost orig: Files, ghost base: Files)
    returns (step: Step)
    requires NoRepeats(PathsOf(edits)) && k < |edits| && Committing(orig, base, disk.files, temps, edits, k)
    modifies disk
    ensures edits[k].path in temps && temps[edits[k].path] in old(disk.files)
    ensures Stepped(old(disk.files), disk.files, temps, edits, k, step)
    ensures step == Done ==> disk.faults == old(disk.faults) && disk.stuck == old(disk.stuck)
    ensures step != Done ==> disk.faults > old(disk.faults)
    ensures disk.stuck >= old(disk.stuck)
  {
    TemporaryReady(orig, base, disk.files, temps, edits, k);
    var path, temporary := edits[k].path, temps[edits[k].path];
    var anchored := disk.Touch();
    if !anchored {
      return Untouched;
    }
    if edits[k].op == Create {
      var linked := disk.Link(temporary, path);
      if !linked {
        return Untouched;
      }
      var removed := disk.Unlink(temporary);
      if !removed {
        return HalfDone;
      }
    } else {
      var replaced := disk.Replace(temporary, path);
      if !replaced {
        return Untouched;
      }
    }
    return Done;
  }

  /** Where a commit pass has got to: the edits applied and the temporaries not yet used up. */
  ghost predicate Reached(orig: Files, base: Files, files: Files, temps: Temporaries, edits: seq<Edit>, k: nat,
                          temps0: Temporaries) {
    && Prefix(orig, base, edits, k) && Staged(base, files, temps, {})
    && temps.Values <= temps0.Values && forall q :: q in temps ==> q in PathsOf(edits)
  }

  lemma CommittingReached(orig: Files, base: Files, files: Files, temps: Temporaries, edits: seq<Edit>, k: nat,
                          temps0: Temporaries)
    requires Committing(orig, base, files, temps, edits, k) && temps.Values <= temps0.Values
    ensures Reached(orig, base, files, temps, edits, k, temps0)
  {
  }

  lemma HalfDoneReached(orig: Files, base: Files, files: Files, temps: Temporaries, edits: seq<Edit>, k: nat,
                        temps0: Temporaries)
    requires NoRepeats(PathsOf(edits)) && k < |edits| && Committing(orig, base, files, temps, edits, k)
    requires temps.Values <= temps0.Values && edits[k].path in temps && temps[edits[k].path] in files
    ensures Reached(orig, PutBase(base, files, temps, edits, k), Put(files, temps, edits, k), temps, edits, k + 1,
                    temps0)
  {
    TargetPut(orig, base, files, temps, edits, k);
  }

  lemma UsedUp(orig: Files, base: Files, files: Files, temps: Temporaries, edits: seq<Edit>, k: nat,
               temps0: Temporaries)
    requires NoRepeats(PathsOf(edits)) && k < |edits| && Committing(orig, base, files, temps, edits, k)
    requires temps.Values <= temps0.Values && edits[k].path in temps && temps[edits[k].path] in files
    ensures Committing(orig, PutBase(base, files, temps, edits, k),
                       Put(files, temps, edits, k) - {temps[edits[k].path]}, temps - {edits[k].path}, edits, k + 1)
    ensures (temps - {edits[k].path}).Values <= temps0.Values
  {
    EditCommitted(orig, base, files, temps, edits, k);
    DropTemporary(base, files, temps, {}, edits[k].path);
  }

  /** The files after a turn that got as far as `step`. */
  predicate Stepped(files: Files, files': Files, temps: Temporaries, edits: seq<Edit>, k: nat, step: Step)
    requires k < |edits| && edits[k].path in temps && temps[edits[k].path] in files
  {
    match step
    case Untouched => files' == files
    case HalfDone => files' == Put(files, temps, edits, k)
    case Done => files' == Put(files, temps, edits, k) - {temps[edits[k].path]}
  }

  function TempsAfter(temps: Temporaries, path: string, step: Step): Temporaries {
    if step == Done then temps - {path} else temps
  }

  function CountAfter(k: nat, step: Step): nat {
    if step == Untouched then k else k + 1
  }

  ghost function BaseAfter(base: Files, files: Files, temps: Temporaries, edits: seq<Edit>, k: nat, step: Step): Files
    requires k < |edits| && edits[k].path in temps && temps[edits[k].path] in files
  {
    if step == Untouched then base else PutBase(base, files, temps, edits, k)
  }

  lemma StepReaches(orig: Files, base: Files, files: Files, files': Files, temps: Temporaries, edits: seq<Edit>, k: nat,
                    step: Step, temps0: Temporaries)
    requires NoRepeats(PathsOf(edits)) && k < |edits| && Committing(orig, base, files, temps, edits, k)
    requires temps.Values <= temps0.Values && edits[k].path in temps && temps[edits[k].path] in files
    requires Stepped(files, files', temps, edits, k, step)
    ensures Reached(orig, BaseAfter(base, files, temps, edits, k, step), files',
                    TempsAfter(temps, edits[k].path, step), edits, CountAfter(k, step), temps0)
    ensures step == Done ==>
              Committing(orig, BaseAfter(base, files, temps, edits, k, step), files',
                         TempsAfter(temps, edits[k].path, step), edits, k + 1)
  {
    match step
    case Untouched =>
      CommittingReached(orig, base, files, temps, edits, k, temps0);
    case HalfDone =>
      HalfDoneReached(orig, base, files, temps, edits, k, temps0);
    case Done =>
      UsedUp(orig, base, files, temps, edits, k, temps0);
      CommittingReached(orig, PutBase(base, files, temps, edits, k), files', temps - {edits[k].path}, edits, k + 1,
                        temps0);
  }

  /** Flushing the directory and checking that it is still in place. */
  method Settle(disk: Disk) returns (ok: bool)
    modifies disk`faults
    ensures ok ==> disk.faults == old(disk.faults)
    ensures !ok ==> disk.faults > old(disk.faults)
  {
    ok := disk.Touch();
    if ok {
      ok := disk.Touch();
    }
  }

  /** One turn of the commit loop. */
  method CommitNext(disk: Disk, edits: seq<Edit>, k: nat, temps1: Temporaries, ghost temps0: Temporaries,
                    ghost orig: Files, ghost base1: Files)
    returns (ok: bool, temps: Temporaries, committed: nat, ghost base: Files)
    requires NoRepeats(PathsOf(edits)) && k < |edits| && Committing(orig, base1, disk.files, temps1, edits, k)
    requires temps1.Values <= temps0.Values
    modifies disk
    ensures Reached(orig, base, disk.files, temps, edits, committed, temps0)
    ensures ok ==> committed == k + 1 && Committing(orig, base, disk.files, temps, edits, k + 1)
                   && disk.faults == old(disk.faults) && disk.stuck == old(disk.stuck)
    ensures !ok ==> disk.faults > old(disk.faults)
    ensures disk.stuck >= old(disk.stuck)
  {
    ghost var files := disk.files;
    var step := CommitOne(disk, edits, k, temps1, orig, base1);
    StepReaches(orig, base1, files, disk.files, temps1, edits, k, step, temps0);
    base := BaseAfter(base1, files, temps1, edits, k, step);
    temps, committed := TempsAfter(temps1, edits[k].path, step), CountAfter(k, step);
    ok := false;
    if step == Done {
      ok := Settle(disk);
    }
  }

  /** The fourth pass. */
  method Commit(disk: Disk, edits: seq<Edit>, temps0: Temporaries, ghost orig: Files)
    returns (ok: bool, temps: Temporaries, committed: nat, ghost base: Files)
    requires NoRepeats(PathsOf(edits)) && Committing(orig, orig, disk.files, temps0, edits, 0)
    modifies disk
    ensures Reached(orig, base, disk.files, temps, edits, committed, temps0)
    ensures ok ==> committed == |edits| && temps == map[] && Targets(base, edits, |edits|)
                    && disk.faults == old(disk.faults)
    ensures !ok ==> disk.faults > old(disk.faults)
    ensures disk.stuck >= old(disk.stuck)
  {
    temps, committed, base := temps0, 0, orig;
    CommittingReached(orig, base, disk.files, temps, edits, 0, temps0);
    while committed < |edits|
      invariant committed <= |edits| && Committing(orig, base, disk.files, temps, edits, committed)
      invariant Reached(orig, base, disk.files, temps, edits, committed, temps0)
      invariant disk.faults == old(disk.faults) && disk.stuck == old(disk.stuck)
    {
      ghost var k := committed;
      ok, temps, committed, base := CommitNext(disk, edits, committed, temps, temps0, orig, base);
      if !ok {
        return;
      }
    }
    NothingLeft(temps, edits);
    ok := true;
  }

  // ---------------------------------------------------------------- verification and cleanup

  /** The fifth pass: every target is read back. */
  method Verify(disk: Disk, edits: seq<Edit>) returns (ok: bool)
    requires Targets(disk.files, edits, |edits|)
    modifies disk`faults
    ensures ok ==> disk.faults == old(disk.faults)
    ensures !ok ==> disk.faults > old(disk.faults)
  {
    var i := 0;
    while i < |edits|
      invariant 0 <= i <= |edits| && disk.faults == old(disk.faults)
    {
      var r := disk.ReadTarget(edits[i].path);
      if r == Unreadable {
        return false;
      }
      if r == Missing || r.content != edits[i].content {
        assert false;
        return false;
      }
      i := i + 1;
    }
    return true;
  }

  /** The removal of what is left in `temporaries`, in the order they were made; a failing removal
      ends it. */
  method Cleanup(disk: Disk, edits: seq<Edit>, temps0: Temporaries, ghost base: Files, ghost litter: set<string>)
    returns (temps: Temporaries)
    requires Staged(base, disk.files, temps0, litter) && forall q :: q in temps0 ==> q in PathsOf(edits)
    modifies disk
    ensures Staged(base, disk.files, temps, litter) && temps.Values <= temps0.Values
    ensures disk.stuck >= old(disk.stuck) && (disk.stuck == old(disk.stuck) ==> temps == map[])
    ensures disk.faults >= old(disk.faults)
  {
    temps := temps0;
    var i := 0;
    while i < |edits|
      invariant 0 <= i <= |edits| && Staged(base, disk.files, temps, litter) && temps.Values <= temps0.Values
      invariant disk.stuck == old(disk.stuck) && disk.faults == old(disk.faults)
      invariant forall q :: q in temps ==> q in PathsOf(edits) && q !in PathsOf(edits)[..i]
    {
      assert PathsOf(edits)[..i + 1] == PathsOf(edits)[..i] + [edits[i].path];
      if edits[i].path in temps {
        DropTemporary(base, disk.files, temps, litter, edits[i].path);
        var removed := disk.Unlink(temps[edits[i].path]);
        if !removed {
          return temps;
        }
        temps := temps - {edits[i].path};
      }
      i := i + 1;
    }
    assert PathsOf(edits)[..i] == PathsOf(edits);
    assert temps.Keys == {};
  }

  // ---------------------------------------------------------------- the whole operation

  datatype Outcome = Materialized | InPreflight | InTemporaries | InRecheck | InCommit | InVerify

  /** What a run leaves: exactly the first `k` edits applied to the original files and, besides,
      only `left`, temporaries under names that were free. */
  ghost predicate Leaves(orig: Files, files: Files, edits: seq<Edit>, k: nat, left: set<string>, pid: nat) {
    && k <= |edits| && ContentsOf(Without(files, left)) == Apply(ContentsOf(orig), edits[..k])
    && forall t :: t in left ==> t !in orig && IsTemporary(t, pid, edits)
  }

  lemma StagedLeaves(orig: Files, base: Files, files: Files, temps0: Temporaries, temps: Temporaries,
                     litter: set<string>, edits: seq<Edit>, k: nat, pid: nat)
    requires Prefix(orig, base, edits, k) && Staged(base, files, temps, litter)
    requires temps.Values <= temps0.Values && Named(temps0, litter, pid, edits)
    requires forall t :: t in orig ==> t !in temps0.Values && t !in litter
    ensures Leaves(orig, files, edits, k, temps.Values + litter, pid)
  {
  }

  lemma ReadyToCommit(orig: Files, files: Files, temps: Temporaries, edits: seq<Edit>, seen: map<string, Read>)
    requires Ready(orig, edits) && Seen(orig, edits, seen) && Seen(files, edits, seen)
    requires Staged(orig, files, temps, {}) && Holds(files, temps, edits) && Covers(temps, edits, 0, |edits|)
    ensures Committing(orig, orig, files, temps, edits, 0)
  {
  }

  predicate TargetsTemporary(edits: seq<Edit>, pid: nat) {
    exists i :: 0 <= i < |edits| && IsTemporary(edits[i].path, pid, edits)
  }

  /** Only an edit of a temporary name can change between the passes. */
  lemma OnlyTemporariesChange(orig: Files, files: Files, temps: Temporaries, edits: seq<Edit>,
                              seen: map<string, Read>, pid: nat)
    requires Seen(orig, edits, seen) && !Seen(files, edits, seen)
    requires Staged(orig, files, temps, {}) && Named(temps, {}, pid, edits)
    ensures TargetsTemporary(edits, pid)
  {
  }

  /** The last two passes. */
  method CommitAndVerify(disk: Disk, edits: seq<Edit>, temps0: Temporaries, ghost orig: Files)
    returns (r: Outcome, temps: Temporaries, committed: nat, ghost base: Files)
    requires NoRepeats(PathsOf(edits)) && Committing(orig, orig, disk.files, temps0, edits, 0)
    modifies disk
    ensures Reached(orig, base, disk.files, temps, edits, committed, temps0)
    ensures r == Materialized ==> committed == |edits| && temps == map[] && disk.faults == old(disk.faults)
    ensures r != Materialized ==> (r == InCommit || r == InVerify) && disk.faults > old(disk.faults)
    ensures disk.stuck >= old(disk.stuck)
  {
    var ok;
    ok, temps, committed, base := Commit(disk, edits, temps0, orig);
    if !ok {
      return InCommit, temps, committed, base;
    }
    assert disk.files == base;
    ok := Verify(disk, edits);
    r := if ok then Materialized else InVerify;
  }

  lemma NothingCommitted(orig: Files, files: Files, temps: Temporaries, edits: seq<Edit>, seen: map<string, Read>,
                         pid: nat)
    requires Seen(orig, edits, seen) && Staged(orig, files, temps, {}) && Named(temps, {}, pid, edits)
    requires Covers(temps, edits, 0, |edits|)
    ensures Reached(orig, orig, files, temps, edits, 0, temps)
    ensures !Seen(files, edits, seen) ==> TargetsTemporary(edits, pid)
  {
    assert edits[..0] == [];
    if !Seen(files, edits, seen) {
      OnlyTemporariesChange(orig, files, temps, edits, seen, pid);
    }
  }

  /** The passes after the temporaries are written. */
  method Finish(disk: Disk, pid: nat, edits: seq<Edit>, seen: map<string, Read>, temps0: Temporaries, ghost orig: Files)
    returns (r: Outcome, temps: Temporaries, committed: nat, ghost base: Files)
    requires NoRepeats(PathsOf(edits)) && Ready(orig, edits) && Seen(orig, edits, seen)
    requires Staged(orig, disk.files, temps0, {}) && Holds(disk.files, temps0, edits)
    requires Covers(temps0, edits, 0, |edits|) && Named(temps0, {}, pid, edits)
    modifies disk
    ensures Reached(orig, base, disk.files, temps, edits, committed, temps0)
    ensures r == Materialized ==> committed == |edits| && temps == map[] && disk.faults == old(disk.faults)
    ensures r == InRecheck ==> committed == 0 && (disk.faults > old(disk.faults) || TargetsTemporary(edits, pid))
    ensures r == InRecheck || r == InCommit || r == InVerify || r == Materialized
    ensures r == InCommit || r == InVerify ==> disk.faults > old(disk.faults)
    ensures disk.stuck >= old(disk.stuck)
  {
    var same := Recheck(disk, edits, seen);
    if !same {
      NothingCommitted(orig, disk.files, temps0, edits, seen, pid);
      return InRecheck, temps0, 0, orig;
    }
    ReadyToCommit(orig, disk.files, temps0, edits, seen);
    r, temps, committed, base := CommitAndVerify(disk, edits, temps0, orig);
  }

  /** `materialize`, for a validated list of edits.  Success applies them all and leaves nothing
      else; a failure before the commit pass applies none; any other failure applies exactly a
      prefix; and unless a removal failed no temporary remains. */
  method Materialize(disk: Disk, pid: nat, edits: seq<Edit>)
    returns (r: Outcome, committed: nat, ghost left: set<string>)
    requires NoRepeats(PathsOf(edits))
    modifies disk
    ensures Leaves(old(disk.files), disk.files, edits, committed, left, pid)
    ensures r == Materialized ==> committed == |edits| && left == {}
    ensures r == InPreflight || r == InTemporaries || r == InRecheck ==> committed == 0
    ensures disk.stuck == old(disk.stuck) ==> left == {}
    ensures r != InPreflight ==> Ready(old(disk.files), edits)
    ensures r == InPreflight ==> disk.faults > old(disk.faults) || !Ready(old(disk.files), edits)
    ensures r == InRecheck ==> disk.faults > old(disk.faults) || TargetsTemporary(edits, pid)
    ensures r == InCommit || r == InVerify ==> disk.faults > old(disk.faults)
  {
    ghost var orig := disk.files;
    var ok, seen := Preflight(disk, edits);
    if !ok {
      assert Without(disk.files, {}) == orig;
      return InPreflight, 0, {};
    }
    var temps0: Temporaries;
    ghost var litter: set<string>;
    ok, temps0, litter := WriteTemporaries(disk, pid, edits);
    var temps := temps0;
    ghost var base := orig;
    r, committed := InTemporaries, 0;
    assert Prefix(orig, base, edits, 0);
    if ok {
      r, temps, committed, base := Finish(disk, pid, edits, seen, temps0, orig);
    }
    temps := Cleanup(disk, edits, temps, base, litter);
    left := temps.Values + litter;
    StagedLeaves(orig, base, disk.files, temps0, temps, litter, edits, committed, pid);
  }
}
