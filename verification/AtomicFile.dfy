/** write_atomic (src/thinr/utils/atomic_file.cpp) over a file system that may lose
    what was not synced: a crash can undo a rename whose directory was not synced,
    and can leave anything in a file whose data was not. */
module AtomicFile {
  import opened Options

  type Content = seq<bv8>

  datatype FileData = FileData(content: Content, durable: bool)

  /** The temporary file, the target, and the target's entry as last synced. */
  datatype FsState = FsState(tmp: Option<FileData>, path: Option<FileData>, synced: Option<FileData>)

  predicate MayHold(entry: Option<FileData>, after: Option<Content>) {
    match entry
    case None => after.None?
    case Some(f) => after.Some? && (f.durable ==> after.value == f.content)
  }

  /** What the target can hold after a crash in the state. */
  predicate AfterCrash(s: FsState, after: Option<Content>) {
    MayHold(s.path, after) || MayHold(s.synced, after)
  }

  /** A write(2) that wrote so many bytes, was interrupted, or failed. */
  datatype Syscall = Wrote(n: nat) | Interrupted | Broken

  datatype WriteOutcome = Complete | Failing | Running

  function Least(a: nat, b: nat): nat { if a < b then a else b }

  /** The loop on a script of system calls: how it ends, and how much it wrote. */
  function WriteRun(len: nat, off: nat, script: seq<Syscall>): (WriteOutcome, nat)
    requires off <= len
    decreases |script|
  {
    if off == len then (Complete, off)
    else if script == [] then (Running, off)
    else match script[0]
      case Interrupted => WriteRun(len, off, script[1..])
      case Broken => (Failing, off)
      case Wrote(n) => WriteRun(len, off + Least(n, len - off), script[1..])
  }

  function Bytes(script: seq<Syscall>): nat {
    if script == [] then 0 else (if script[0].Wrote? then script[0].n else 0) + Bytes(script[1..])
  }

  /** write_all succeeds exactly when, before any failing call, the calls could
      take all the bytes; interruptions and short writes do not matter. */
  lemma {:induction false} CompletesIff(len: nat, off: nat, script: seq<Syscall>)
    requires off <= len
    ensures WriteRun(len, off, script).0.Complete? <==>
            exists k :: 0 <= k <= |script| && Broken !in script[..k] && Bytes(script[..k]) >= len - off
    decreases |script|
  {
    if off == len {
      assert Broken !in script[..0] && Bytes(script[..0]) >= 0;
    } else if script == [] {
      assert script[..0] == [];
    } else {
      var next := off + if script[0].Wrote? then Least(script[0].n, len - off) else 0;
      CompletesIff(len, next, script[1..]);
      forall k | 0 < k <= |script|
        ensures script[..k][1..] == script[1..][..k - 1]
        ensures Broken in script[..k] <==> script[0] == Broken || Broken in script[1..][..k - 1]
      {
        assert script[..k] == [script[0]] + script[1..][..k - 1];
      }
      if !script[0].Broken? && WriteRun(len, next, script[1..]).0.Complete? {
        var k :| 0 <= k <= |script[1..]| && Broken !in script[1..][..k] && Bytes(script[1..][..k]) >= len - next;
        assert script[..k + 1][1..] == script[1..][..k];
        assert Broken !in script[..k + 1] && Bytes(script[..k + 1]) >= len - off;
      }
      if k :| 0 <= k <= |script| && Broken !in script[..k] && Bytes(script[..k]) >= len - off {
        assert k > 0;
        assert script[..k][0] == script[0];
        var k1 := k - 1;
        assert Broken !in script[1..][..k1] && Bytes(script[1..][..k1]) >= len - next;
      }
    }
  }

  /** How the calls other than write turn out. */
  datatype Io = Io(creates: bool, fsyncs: bool, closes: bool, renames: bool, opensDir: bool)

  predicate Succeeds(content: Content, script: seq<Syscall>, io: Io) {
    io.creates && WriteRun(|content|, 0, script).0.Complete? && io.fsyncs && io.closes && io.renames
  }

  datatype AtomicOutcome = Returned(ok: bool) | StillWriting

  class FileSystem {
    var tmp: Option<FileData>
    var path: Option<FileData>
    var synced: Option<FileData>
    ghost var trace: seq<FsState>   // every state passed through, the crash points

    function Now(): FsState
      reads this`tmp, this`path, this`synced
    {
      FsState(tmp, path, synced)
    }

    ghost method Log()
      modifies this`trace
      ensures trace == old(trace) + [Now()]
    {
      trace := trace + [Now()];
    }

    /** States logged since the trace was `from` long leave the target alone. */
    ghost predicate TargetSteady(from: nat, entry: Option<FileData>, disk: Option<FileData>)
      reads this`trace
    {
      forall i :: from <= i < |trace| ==> trace[i].path == entry && trace[i].synced == disk
    }

    method WriteAll(data: Content, script: seq<Syscall>) returns (r: WriteOutcome)
      requires tmp == Some(FileData([], false))
      modifies this`tmp, this`trace
      ensures r == WriteRun(|data|, 0, script).0
      ensures WriteRun(|data|, 0, script).1 <= |data|
      ensures tmp == Some(FileData(data[..WriteRun(|data|, 0, script).1], false))
      ensures r.Complete? ==> tmp == Some(FileData(data, false))
      ensures old(trace) <= trace && TargetSteady(|old(trace)|, path, synced)
    {
      var off, i := 0, 0;
      assert script[0..] == script;
      while off < |data|
        invariant 0 <= off <= |data| && 0 <= i <= |script|
        invariant tmp == Some(FileData(data[..off], false))
        invariant WriteRun(|data|, 0, script) == WriteRun(|data|, off, script[i..])
        invariant old(trace) <= trace && TargetSteady(|old(trace)|, path, synced)
        decreases |script| - i
      {
        if i == |script| {
          return Running;
        }
        var call := script[i];
        assert script[i..][1..] == script[i + 1..];
        i := i + 1;
        match call {
          case Interrupted =>
          case Broken => return Failing;
          case Wrote(n) =>
            var k := Least(n, |data| - off);
            assert data[..off] + data[off..off + k] == data[..off + k];
            tmp := Some(FileData(tmp.value.content + data[off..off + k], false));
            off := off + k;
            Log();
        }
      }
      assert data[..off] == data;
      r := Complete;
    }

    /** The target is only ever the old content or the new one, whole, also for a
        crash at any of the states passed; the result is true exactly when every
        call up to the rename succeeded, and nothing else changes the target. */
    method WriteAtomic(content: Content, script: seq<Syscall>, io: Io) returns (r: AtomicOutcome)
      modifies this
      ensures r.StillWriting? <==> io.creates && WriteRun(|content|, 0, script).0.Running?
      ensures r == Returned(true) <==> Succeeds(content, script, io)
      ensures r == Returned(true) ==> path == Some(FileData(content, true)) && tmp.None?
      ensures r != Returned(true) ==> path == old(path) && synced == old(synced)
      ensures r == Returned(true) ==> synced == if io.opensDir then path else old(synced)
      ensures r == Returned(true) && io.opensDir ==> forall after :: AfterCrash(Now(), after) ==> after == Some(content)
      ensures old(trace) <= trace && |trace| > 0 && trace[|trace| - 1] == Now()
      ensures forall i, after :: |old(trace)| <= i < |trace| && AfterCrash(trace[i], after) ==>
                AfterCrash(old(Now()), after) || after == Some(content)
    {
      if !io.creates {
        Log();
        return Returned(false);
      }
      tmp := Some(FileData([], false));
      Log();
      var w := WriteAll(content, script);
      if w.Running? {
        Log();
        return StillWriting;
      }
      var ok := w.Complete?;
      if ok {
        ok := io.fsyncs;
        if ok {
          tmp := Some(FileData(content, true));
          Log();
        }
      }
      if !io.closes {
        ok := false;
      }
      if !ok || !io.renames {
        tmp := None;
        Log();
        return Returned(false);
      }
      path, tmp := tmp, None;
      Log();
      if io.opensDir {
        synced := path;
        Log();
      }
      r := Returned(true);
    }
  }

  /** A true result promises the new content through a crash exactly when the
      directory could be synced, or the old entry already held that content. */
  lemma DurableIff(was: FsState, content: Content, opensDir: bool)
    ensures var now := FsState(None, Some(FileData(content, true)),
                               if opensDir then Some(FileData(content, true)) else was.synced);
            (forall after :: AfterCrash(now, after) ==> after == Some(content))
            <==> opensDir || was.synced == Some(FileData(content, true))
  {
    var now := FsState(None, Some(FileData(content, true)),
                       if opensDir then Some(FileData(content, true)) else was.synced);
    if !opensDir && was.synced != Some(FileData(content, true)) {
      var after := if was.synced.None? then None
                   else if was.synced.value.durable then Some(was.synced.value.content)
                   else Some(content + [0]);
      assert |content + [0]| == |content| + 1;
      assert AfterCrash(now, after) && after != Some(content);
    }
  }

  // ---- the name of the temporary file ---------------------------------------------

  function LastSlash(s: string): int
    ensures -1 <= LastSlash(s) < |s|
  {
    if s == [] then -1 else if s[|s| - 1] == '/' then |s| - 1 else LastSlash(s[..|s| - 1])
  }

  function ParentDir(path: string): string {
    var slash := LastSlash(path);
    if slash == -1 then "." else if slash == 0 then "/" else path[..slash]
  }

  function TmpName(path: string, pid: string): string {
    path + ".tmp." + pid
  }

  lemma {:induction false} LastSlashAppend(a: string, b: string)
    requires '/' !in b
    ensures LastSlash(a + b) == LastSlash(a)
    decreases |b|
  {
    if b == [] {
      assert a + b == a;
    } else {
      assert (a + b)[..|a + b| - 1] == a + b[..|b| - 1];
      LastSlashAppend(a, b[..|b| - 1]);
    }
  }

  /** The temporary file is another file in the target's own directory, so the
      rename stays within one file system. */
  lemma TmpBesideTarget(path: string, pid: string)
    requires '/' !in pid
    ensures TmpName(path, pid) != path && ParentDir(TmpName(path, pid)) == ParentDir(path)
  {
    assert TmpName(path, pid) == path + (".tmp." + pid);
    assert '/' !in ".tmp.";
    LastSlashAppend(path, ".tmp." + pid);
    assert |TmpName(path, pid)| > |path|;
  }
}
