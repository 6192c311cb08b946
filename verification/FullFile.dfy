/** The full-file edit transport: validating an edit list, and materialising it in two phases on
    a filesystem on which any operation may fail.

    Content stands for its own digest.  Nobody else writes while `materialize` runs. */
module FullFile {
  import opened Options
  import opened Ordering

  type Content = string

  /** `regular`: a regular file, mode 0644, one link, within the size limit.  `plain`: its bytes are
      UTF-8 text without byte order mark, carriage returns and other control characters. */
  datatype Entry = Entry(inode: nat, content: Content, regular: bool, plain: bool) {
    predicate Safe() {
      regular && plain
    }
  }

  type Files = map<string, Entry>

  datatype Op = Create | Modify

  datatype Edit = Edit(op: Op, path: string, before: Option<Content>, content: Content)

  // ---------------------------------------------------------------- what a list of edits means

  type Contents = map<string, Content>

  function ContentsOf(files: Files): Contents {
    map p | p in files :: files[p].content
  }

  /** Every edit of a list, in order. */
  function Apply(c: Contents, edits: seq<Edit>): Contents {
    if edits == [] then c
    else
      var last := edits[|edits| - 1];
      Apply(c, edits[..|edits| - 1])[last.path := last.content]
  }

  function PathsOf(edits: seq<Edit>): (ps: seq<string>)
    ensures |ps| == |edits| && forall i :: 0 <= i < |edits| ==> ps[i] == edits[i].path
  {
    seq(|edits|, i requires 0 <= i < |edits| => edits[i].path)
  }

  /** The state an edit is bound to: a creation finds nothing, a modification its own preimage. */
  predicate FitsContents(c: Contents, e: Edit) {
    match e.op
    case Create => e.path !in c
    case Modify => e.path in c && e.before == Some(c[e.path])
  }

  predicate AllFit(c: Contents, edits: seq<Edit>) {
    forall i :: 0 <= i < |edits| ==> FitsContents(c, edits[i])
  }

  /** After the first `k` edits every one of their paths holds its new content and every other
      path is as it was: a prefix, whichever order one reads the paths in. */
  lemma {:induction false} ApplyMeans(c: Contents, edits: seq<Edit>)
    requires NoRepeats(PathsOf(edits))
    ensures forall i :: 0 <= i < |edits| ==>
              edits[i].path in Apply(c, edits) && Apply(c, edits)[edits[i].path] == edits[i].content
    ensures forall p :: p !in PathsOf(edits) ==>
              (p in Apply(c, edits) <==> p in c) && (p in c ==> Apply(c, edits)[p] == c[p])
  {
    if edits != [] {
      var n := |edits| - 1;
      var front := edits[..n];
      assert PathsOf(edits) == PathsOf(front) + [edits[n].path];
      assert forall i :: 0 <= i < n ==> PathsOf(front)[i] == PathsOf(edits)[i];
      ApplyMeans(c, front);
    }
  }

  /** A list that was applied does not fit again, so it cannot be applied twice: a created path is
      taken and a modified one no longer holds the preimage. */
  lemma AppliedNoLongerFits(c: Contents, edits: seq<Edit>, i: nat)
    requires NoRepeats(PathsOf(edits)) && i < |edits|
    requires edits[i].op == Modify ==> edits[i].before != Some(edits[i].content)
    ensures !FitsContents(Apply(c, edits), edits[i])
  {
  }

  // ---------------------------------------------------------------- temporary names

  function Digits(n: nat): string {
    if n < 10 then [('0' as int + n) as char] else Digits(n / 10) + [('0' as int + n % 10) as char]
  }

  /** The directory of a path, with its slash. */
  function Directory(path: string): string {
    if path == "" || path[|path| - 1] == '/' then path else Directory(path[..|path| - 1])
  }

  function TemporaryName(path: string, pid: nat, counter: nat): string {
    Directory(path) + ".autopilot-" + Digits(pid) + "-" + Digits(counter) + ".tmp"
  }

  predicate IsTemporary(p: string, pid: nat, edits: seq<Edit>) {
    exists i, n :: 0 <= i < |edits| && 0 <= n < 100 && p == TemporaryName(edits[i].path, pid, n)
  }

  // ---------------------------------------------------------------- the filesystem

  datatype Read = Unreadable | Missing | Found(inode: nat, content: Content)

  datatype Reserve = Reserved | Taken | ReserveFailed

  /** Any operation may fail, and then changes nothing.  `faults` counts all failures, `stuck`
      those of removals. */
  class Disk {
    var files: Files
    ghost var faults: nat
    ghost var stuck: nat

    constructor (files: Files)
      ensures this.files == files && faults == 0 && stuck == 0
    {
      this.files, faults, stuck := files, 0, 0;
    }

    ghost method Fault()
      modifies this`faults
      ensures faults == old(faults) + 1
    {
      faults := faults + 1;
    }

    /** Opening a parent directory, or finding it still in place, or flushing it. */
    method Touch() returns (ok: bool)
      modifies this`faults
      ensures ok ==> faults == old(faults)
      ensures !ok ==> faults > old(faults)
    {
      if * {
        Fault();
        return false;
      }
      return true;
    }

    /** `_read_target`. */
    method ReadTarget(path: string) returns (r: Read)
      modifies this`faults
      ensures r == Missing ==> path !in files
      ensures r.Found? ==> path in files && files[path] == Entry(r.inode, r.content, true, true)
      ensures r == Unreadable ==> faults > old(faults) || (path in files && !files[path].Safe())
      ensures r != Unreadable ==> faults == old(faults)
    {
      if * {
        Fault();
        return Unreadable;
      }
      if path !in files {
        return Missing;
      }
      if !files[path].Safe() {
        return Unreadable;
      }
      return Found(files[path].inode, files[path].content);
    }

    /** `open` with O_CREAT and O_EXCL. */
    method CreateExclusive(path: string) returns (r: Reserve)
      modifies this`files, this`faults
      ensures r == Reserved ==>
                && path !in old(files) && path in files && !files[path].Safe()
                && files == old(files)[path := files[path]] && faults == old(faults)
      ensures r == Taken ==> path in files && files == old(files) && faults == old(faults)
      ensures r == ReserveFailed ==> files == old(files) && faults > old(faults)
    {
      if * {
        Fault();
        return ReserveFailed;
      }
      if path in files {
        return Taken;
      }
      var inode: nat := *;
      files := files[path := Entry(inode, "", false, true)];
      return Reserved;
    }

    /** Writing, `fchmod` and `fsync`; a failure leaves part of the content. */
    method WriteOut(path: string, content: Content) returns (ok: bool)
      requires path in files
      modifies this`files, this`faults
      ensures path in files && files == old(files)[path := files[path]]
      ensures ok ==> files[path].content == content && files[path].Safe() && faults == old(faults)
      ensures !ok ==> faults > old(faults)
    {
      if * {
        Fault();
        var part: Content := *;
        var plain: bool := *;
        files := files[path := files[path].(content := part, plain := plain)];
        return false;
      }
      files := files[path := files[path].(content := content, regular := true, plain := true)];
      return true;
    }

    /** `unlink`; a missing file counts as removed. */
    method Unlink(path: string) returns (ok: bool)
      modifies this`files, this`faults, this`stuck
      ensures ok ==> files == old(files) - {path} && faults == old(faults) && stuck == old(stuck)
      ensures !ok ==> files == old(files) && faults > old(faults) && stuck > old(stuck)
    {
      if * {
        Fault();
        stuck := stuck + 1;
        return false;
      }
      files := files - {path};
      return true;
    }

    /** `link`, which never replaces an existing file. */
    method Link(source: string, target: string) returns (ok: bool)
      requires source in files
      modifies this`files, this`faults
      ensures ok ==> target !in old(files) && files == old(files)[target := old(files)[source]] && faults == old(faults)
      ensures !ok ==> files == old(files) && (faults > old(faults) || target in files)
    {
      if * {
        Fault();
        return false;
      }
      if target in files {
        return false;
      }
      files := files[target := files[source]];
      return true;
    }

    /** `replace`: the name changes over in one step. */
    method Replace(source: string, target: string) returns (ok: bool)
      requires source in files && source != target
      modifies this`files, this`faults
      ensures ok ==> files == (old(files) - {source})[target := old(files)[source]] && faults == old(faults)
      ensures !ok ==> files == old(files) && faults > old(faults)
    {
      if * {
        Fault();
        return false;
      }
      files := (files - {source})[target := files[source]];
      return true;
    }
  }
}
