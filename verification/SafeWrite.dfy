/** Touching the disk: atomic replacement, and backups that never overwrite. */
module SafeWrite {
  import opened Text

  newtype Byte = x: int | 0 <= x < 256
  type Bytes = seq<Byte>
  type Files = map<string, Bytes>

  function Lookup(files: Files, name: string): Option<Bytes> {
    if name in files then Some(files[name]) else None
  }

  /** Every file of `was` except `target` is in `now`, with the same bytes. */
  ghost predicate KeepsAllBut(was: Files, now: Files, target: string) {
    forall f | f in was && f != target :: f in now && now[f] == was[f]
  }

  /** `target` holds its old bytes or all the new ones, and every other file is as it was. */
  ghost predicate OldOrNew(was: Files, now: Files, target: string, data: Bytes) {
    KeepsAllBut(was, now, target) && (Lookup(now, target) == Lookup(was, target) || Lookup(now, target) == Some(data))
  }

  const BACKUP_SUFFIX := ".codenest-backup"

  /** The names `_write_backup` tries, in order. */
  function BackupName(target: string, stamp: string, n: nat): (name: string)
    ensures |name| > |target|
  {
    target + BACKUP_SUFFIX + "-" + stamp + if n == 0 then "" else "-" + Decimal(n)
  }

  lemma {:induction false} BackupNamesDiffer(target: string, stamp: string, m: nat, n: nat)
    requires m < n
    ensures BackupName(target, stamp, m) != BackupName(target, stamp, n)
  {
    var stem := target + BACKUP_SUFFIX + "-" + stamp;
    var tail, tail' := if m == 0 then "" else "-" + Decimal(m), "-" + Decimal(n);
    assert BackupName(target, stamp, m)[|stem|..] == tail && BackupName(target, stamp, n)[|stem|..] == tail';
    assert tail'[1..] == Decimal(n) && (m > 0 ==> tail[1..] == Decimal(m));
    if m > 0 && Decimal(m) == Decimal(n) {
      DecimalIsInjective(m, n);
    }
  }

  /** At most one leftover temporary file tells `now` from `was`. */
  ghost predicate SameButTemp(was: Files, now: Files, target: string, temp: string) {
    |temp| > |target| && temp !in was && now - {temp} == was
  }

  ghost predicate LeftAlone(was: Files, now: Files, target: string) {
    now == was || exists temp :: SameButTemp(was, now, target, temp)
  }

  /** One directory, as a crash could find it: `history` holds every state it has been in. */
  class Disk {
    var files: Files
    ghost var history: seq<Files>

    constructor (files: Files)
      ensures Valid() && this.files == files && history == [files]
    {
      this.files := files;
      history := [files];
    }

    ghost predicate Valid()
      reads this
    {
      history != [] && history[|history| - 1] == files
    }

    // The system calls. Each may fail, and each success is one more state a crash could find.

    /** `mkstemp` beside `target`: a new empty file under a name nobody holds. */
    method CreateTemp(target: string) returns (ok: bool, name: string)
      requires Valid()
      modifies this
      ensures Valid() && old(history) <= history
      ensures |name| > |target|
      ensures ok ==> name !in old(files) && files == old(files)[name := []] && history == old(history) + [files]
      ensures !ok ==> files == old(files) && history == old(history)
    {
      var random: string := *;
      name := "." + target + "." + random + ".codenest-tmp";
      ok := *;
      if name in files {
        ok := false;
      }
      if ok {
        files := files[name := []];
        history := history + [files];
      }
    }

    /** One `write` reaching the file: some of the remaining bytes, never none. */
    method Append(name: string, rest: Bytes) returns (ok: bool, n: nat)
      requires Valid() && name in files && rest != []
      modifies this
      ensures Valid() && old(history) <= history
      ensures ok ==> 0 < n <= |rest| && files == old(files)[name := old(files)[name] + rest[..n]] && history == old(history) + [files]
      ensures !ok ==> files == old(files) && history == old(history)
    {
      ok := *;
      n := *;
      if !(0 < n <= |rest|) {
        n := |rest|;
      }
      if ok {
        files := files[name := files[name] + rest[..n]];
        history := history + [files];
      }
    }

    /** `os.replace`: the rename is one step. */
    method Replace(source: string, target: string) returns (ok: bool)
      requires Valid() && source in files && source != target
      modifies this
      ensures Valid() && old(history) <= history
      ensures ok ==> files == old(files)[target := old(files)[source]] - {source} && history == old(history) + [files]
      ensures !ok ==> files == old(files) && history == old(history)
    {
      ok := *;
      if ok {
        files := files[target := files[source]] - {source};
        history := history + [files];
      }
    }

    /** `unlink(missing_ok=True)`, which may fail and leave the file behind. */
    method Unlink(name: string)
      requires Valid()
      modifies this
      ensures Valid() && old(history) <= history
      ensures files == old(files) || files == old(files) - {name}
      ensures history == old(history) || history == old(history) + [files]
    {
      var ok: bool := *;
      if ok {
        files := files - {name};
        history := history + [files];
      }
    }

    /** Every state entered since the first `n` leaves `target` with its old bytes or all the new ones, and no other file changed. */
    ghost predicate AtomicSince(n: nat, was: Files, target: string, data: Bytes)
      reads this
    {
      forall k | n <= k < |history| :: OldOrNew(was, history[k], target, data)
    }

    /** The writes into the temporary file, until it holds all of `data` or one of them fails. */
    method Fill(temp: string, target: string, data: Bytes, ghost was: Files) returns (ok: bool)
      requires Valid() && SameButTemp(was, files, target, temp) && files == was[temp := []]
      modifies this
      ensures Valid() && old(history) <= history
      ensures AtomicSince(|old(history)|, was, target, data)
      ensures SameButTemp(was, files, target, temp) && temp in files
      ensures ok ==> files == was[temp := data]
    {
      var written := 0;
      while written < |data|
        invariant 0 <= written <= |data|
        invariant Valid() && old(history) <= history
        invariant files == was[temp := data[..written]]
        invariant AtomicSince(|old(history)|, was, target, data)
      {
        var n: nat;
        ok, n := Append(temp, data[written..]);
        if !ok {
          return;
        }
        assert data[..written] + data[written..][..n] == data[..written + n];
        written := written + n;
      }
      assert data[..written] == data;
      ok := true;
    }

    /** `_atomic_write`. */
    method AtomicWrite(target: string, data: Bytes) returns (ok: bool)
      requires Valid()
      modifies this
      ensures Valid() && old(history) <= history
      ensures AtomicSince(|old(history)|, old(files), target, data)
      ensures ok ==> files == old(files)[target := data]
      ensures !ok ==> LeftAlone(old(files), files, target)
    {
      ghost var was := files;
      var temp: string;
      ok, temp := CreateTemp(target);
      if !ok {
        return;
      }
      ok := Fill(temp, target, data, was);
      if ok {
        ok := Replace(temp, target);
      }
      if !ok {
        Unlink(temp);
        assert SameButTemp(was, files, target, temp);
      } else {
        assert files == was[target := data];
      }
    }

    /** `_write_backup`: the first free name, filled atomically. */
    method WriteBackup(target: string, previous: Bytes, stamp: string) returns (ok: bool, candidate: string)
      requires Valid()
      modifies this
      ensures Valid() && old(history) <= history
      ensures candidate !in old(files) && |candidate| > |target|
      ensures exists n :: candidate == BackupName(target, stamp, n) && forall k: nat | k < n :: BackupName(target, stamp, k) in old(files)
      ensures AtomicSince(|old(history)|, old(files), candidate, previous)
      ensures ok ==> files == old(files)[candidate := previous]
      ensures !ok ==> LeftAlone(old(files), files, candidate)
    {
      candidate := BackupName(target, stamp, 0);
      var suffix := 1;
      ghost var tried: set<string> := {};
      while candidate in files
        invariant suffix >= 1 && candidate == BackupName(target, stamp, suffix - 1)
        invariant files == old(files) && history == old(history)
        invariant forall k: nat | k < suffix - 1 :: BackupName(target, stamp, k) in files
        invariant forall name | name in tried :: name in files && exists k: nat | k < suffix - 1 :: name == BackupName(target, stamp, k)
        decreases files.Keys - tried
      {
        forall k: nat | k < suffix - 1
          ensures BackupName(target, stamp, k) != candidate
        {
          BackupNamesDiffer(target, stamp, k, suffix - 1);
        }
        tried := tried + {candidate};
        candidate := BackupName(target, stamp, suffix);
        suffix := suffix + 1;
      }
      ok := AtomicWrite(candidate, previous);
    }
  }
}
