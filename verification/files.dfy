/** The file system: named files, open descriptors, and an operating system that may let any
    operation fail. Nothing else writes to the files while a pull runs. */
module Files {
  import opened Basics
  import opened Streams

  /** How the operating system treats one operation. */
  datatype Luck = Fine | Short(count: nat) | Denied

  datatype Descriptor = Descriptor(name: string, pos: nat)

  /** Why a temporary file stays behind. */
  datatype Loss = RemoveDenied | ReopenDenied | PanicUnwound

  /** Between two moments nothing happened to the files of the first, and every other file of
      the second is one that was lost in between or one of `kept`. */
  ghost predicate OnlyLostAdded(files0: map<string, string>, lost0: map<string, Loss>,
                                files1: map<string, string>, lost1: map<string, Loss>,
                                kept: set<string>)
  {
    && lost0.Keys <= lost1.Keys
    && lost0.Keys <= files0.Keys
    && (lost1.Keys - lost0.Keys) !! files0.Keys
    && kept !! (files0.Keys + lost1.Keys)
    && files1.Keys == files0.Keys + (lost1.Keys - lost0.Keys) + kept
    && (forall f :: f in files0 ==> files1[f] == files0[f])
    && (forall f :: f in lost0 ==> lost1[f] == lost0[f])
  }

  lemma OnlyLostAddedTransitive(files0: map<string, string>, lost0: map<string, Loss>,
                                files1: map<string, string>, lost1: map<string, Loss>,
                                files2: map<string, string>, lost2: map<string, Loss>, kept: set<string>)
    requires OnlyLostAdded(files0, lost0, files1, lost1, {})
    requires OnlyLostAdded(files1, lost1, files2, lost2, kept)
    ensures OnlyLostAdded(files0, lost0, files2, lost2, kept)
  {
  }

  lemma NoneLost(files: map<string, string>, lost: map<string, Loss>)
    requires lost.Keys <= files.Keys
    ensures OnlyLostAdded(files, lost, files, lost, {})
  {
  }

  lemma OnlyKept(files0: map<string, string>, lost0: map<string, Loss>,
                 files1: map<string, string>, lost1: map<string, Loss>, name: string)
    requires OnlyLostAdded(files0, lost0, files1, lost1, {name})
    ensures name in files1 && name !in files0 && name !in lost1
  {
  }

  lemma OneKept(files0: map<string, string>, lost0: map<string, Loss>,
                files: map<string, string>, lost: map<string, Loss>, name: string, content: string)
    requires OnlyLostAdded(files0, lost0, files, lost, {}) && lost.Keys <= files.Keys && name !in files
    ensures OnlyLostAdded(files0, lost0, files[name := content], lost, {name})
  {
  }

  lemma OneLost(files: map<string, string>, lost: map<string, Loss>, name: string, put: string, loss: Loss)
    requires lost.Keys <= files.Keys && name !in files
    ensures OnlyLostAdded(files, lost, files[name := put], lost[name := loss], {})
  {
  }

  /** A temporary file is gone again, or stays behind for this reason. */
  ghost predicate TempLeft(files0: map<string, string>, lost0: map<string, Loss>,
                           files1: map<string, string>, lost1: map<string, Loss>, name: string, loss: Option<Loss>)
  {
    match loss
    case None => files1 == files0 - {name} && lost1 == lost0
    case Some(reason) =>
      name in files1 && files1 == files0[name := files1[name]] && lost1 == lost0[name := reason]
  }

  /** Nothing happened to the files that were there, and files stay behind exactly for this reason, if
      there is one. */
  ghost predicate LeftBehind(files0: map<string, string>, lost0: map<string, Loss>,
                             files1: map<string, string>, lost1: map<string, Loss>, loss: Option<Loss>)
  {
    && OnlyLostAdded(files0, lost0, files1, lost1, {})
    && (lost1 == lost0 <==> loss.None?)
    && (forall f :: f in lost1 && f !in lost0 ==> loss == Some(lost1[f]))
  }

  lemma NothingLeftBehind(files: map<string, string>, lost: map<string, Loss>)
    requires lost.Keys <= files.Keys
    ensures LeftBehind(files, lost, files, lost, None)
  {
  }

  lemma TempLeftBehind(files0: map<string, string>, lost0: map<string, Loss>,
                       files1: map<string, string>, lost1: map<string, Loss>, name: string, loss: Option<Loss>)
    requires lost0.Keys <= files0.Keys && name !in files0
    requires TempLeft(files0[name := []], lost0, files1, lost1, name, loss)
    ensures LeftBehind(files0, lost0, files1, lost1, loss)
  {
    hide OnlyLostAdded;
    if loss.None? {
      UpdateRemove(files0, name, []);
      NoneLost(files0, lost0);
    } else {
      UpdateTwice(files0, name, [], files1[name]);
      OneLost(files0, lost0, name, files1[name], loss.value);
      assert name in lost1;
    }
  }

  /** The files are exactly as before just when none was lost. */
  lemma NothingLeftIffNothingLost(files0: map<string, string>, lost0: map<string, Loss>,
                                  files1: map<string, string>, lost1: map<string, Loss>)
    requires OnlyLostAdded(files0, lost0, files1, lost1, {})
    ensures files1 == files0 <==> lost1 == lost0
  {
    if files1 == files0 {
      assert lost1.Keys - lost0.Keys == {};
    }
  }

  /** The files that stay behind because they could not be reopened, and how large they are. */
  ghost function StrandedFiles(files: map<string, string>, lost: map<string, Loss>): map<string, string> {
    map f | f in lost && f in files && lost[f] == ReopenDenied :: files[f]
  }

  ghost function Bytes(files: map<string, string>): nat {
    if files == map[] then 0
    else
      var f :| f in files;
      |files[f]| + Bytes(files - {f})
  }

  ghost function StrandedBytes(files: map<string, string>, lost: map<string, Loss>): nat {
    Bytes(StrandedFiles(files, lost))
  }

  /** Any file may be counted first. */
  lemma {:induction false} BytesWithout(files: map<string, string>, name: string)
    requires name in files
    ensures Bytes(files) == |files[name]| + Bytes(files - {name})
    decreases |files|
  {
    var first :| first in files && Bytes(files) == |files[first]| + Bytes(files - {first});
    if first != name {
      assert files - {first} - {name} == files - {name} - {first};
      BytesWithout(files - {first}, name);
      BytesWithout(files - {name}, first);
    }
  }

  lemma OneStranded(files: map<string, string>, lost: map<string, Loss>, name: string, content: string)
    requires lost.Keys <= files.Keys && name !in files
    ensures StrandedBytes(files[name := content], lost[name := ReopenDenied]) == StrandedBytes(files, lost) + |content|
  {
    var stranded := StrandedFiles(files[name := content], lost[name := ReopenDenied]);
    assert stranded == StrandedFiles(files, lost)[name := content];
    UpdateRemove(StrandedFiles(files, lost), name, content);
    BytesWithout(stranded, name);
  }

  /** Nothing else that happens to other files changes that. */
  lemma NoneStranded(files0: map<string, string>, lost0: map<string, Loss>,
                     files1: map<string, string>, lost1: map<string, Loss>, kept: set<string>)
    requires OnlyLostAdded(files0, lost0, files1, lost1, kept)
    requires forall f :: f in lost1 && f !in lost0 ==> lost1[f] != ReopenDenied
    ensures StrandedBytes(files1, lost1) == StrandedBytes(files0, lost0)
  {
    assert StrandedFiles(files1, lost1) == StrandedFiles(files0, lost0);
  }

  lemma NotStranded(files: map<string, string>, lost: map<string, Loss>, name: string)
    requires name !in lost
    ensures StrandedBytes(files - {name}, lost) == StrandedBytes(files, lost)
    ensures StrandedBytes(files, lost[name := RemoveDenied]) == StrandedBytes(files, lost)
  {
    assert StrandedFiles(files - {name}, lost) == StrandedFiles(files, lost);
    assert StrandedFiles(files, lost[name := RemoveDenied]) == StrandedFiles(files, lost);
  }

  class FileSystem {
    const luck: nat -> Luck
    const suffixes: nat -> string
    var clock: nat
    var files: map<string, string>
    var fds: map<nat, Descriptor>
    var nextFd: nat
    ghost var lost: map<string, Loss>
    /** Operations that failed so far, and those among them that were to open or to remove a file. */
    ghost var mishaps: nat
    ghost var denials: nat
    ghost var refusals: nat

    ghost predicate Valid()
      reads this
    {
      && (forall fd :: fd in fds ==>
            fd < nextFd && fds[fd].name in files && fds[fd].pos <= |files[fds[fd].name]|)
      && lost.Keys <= files.Keys
    }

    lemma LostAreFiles()
      requires Valid()
      ensures lost.Keys <= files.Keys
    {
    }

    constructor (luck: nat -> Luck, suffixes: nat -> string, files: map<string, string>)
      ensures Valid() && this.files == files && fds == map[] && lost == map[] && mishaps == 0
    {
      this.luck, this.suffixes, clock, this.files, fds, nextFd := luck, suffixes, 0, files, map[], 0;
      lost, mishaps, denials, refusals := map[], 0, 0, 0;
    }

    /** os.CreateTemp: refuses a path separator, and else tries random names until one is free,
        ten thousand times at most. */
    method CreateTemp(pattern: string) returns (fd: Option<nat>, name: string)
      requires Valid()
      modifies this`clock, this`files, this`fds, this`nextFd, this`mishaps
      ensures Valid()
      ensures '/' in pattern ==> fd.None? && mishaps == old(mishaps)
      ensures '/' !in pattern ==> (fd.Some? <==> mishaps == old(mishaps))
      ensures mishaps >= old(mishaps)
      ensures fd.Some? ==> name !in old(files) && files == old(files)[name := []] && pattern <= name
      ensures fd.Some? ==> fd.value !in old(fds) && fds == old(fds)[fd.value := Descriptor(name, 0)]
      ensures fd.None? ==> files == old(files) && fds == old(fds)
    {
      if '/' in pattern {
        return None, "";
      }
      var fine := luck(clock).Fine?;
      var try := 1;
      name := pattern + suffixes(clock);
      while name in files && try < 10000
        invariant pattern <= name
        modifies `clock
      {
        try, clock := try + 1, clock + 1;
        name := pattern + suffixes(clock);
      }
      clock := clock + 1;
      if name in files || !fine {
        mishaps := mishaps + 1;
        return None, "";
      }
      files, fds := files[name := []], fds[nextFd := Descriptor(name, 0)];
      fd, nextFd := Some(nextFd), nextFd + 1;
    }

    method Open(name: string) returns (fd: Option<nat>)
      requires Valid()
      modifies this`clock, this`fds, this`nextFd, this`mishaps, this`denials
      ensures Valid() && mishaps >= old(mishaps) && denials >= old(denials)
      ensures name in files ==> (fd.Some? <==> mishaps == old(mishaps)) && (fd.Some? <==> denials == old(denials))
      ensures fd.Some? ==> name in files && fd.value !in old(fds)
      ensures fds == if fd.Some? then old(fds)[fd.value := Descriptor(name, 0)] else old(fds)
    {
      var fine := luck(clock).Fine?;
      clock := clock + 1;
      if !fine || name !in files {
        mishaps, denials := mishaps + 1, denials + 1;
        return None;
      }
      fds := fds[nextFd := Descriptor(name, 0)];
      fd, nextFd := Some(nextFd), nextFd + 1;
    }

    /** Appends the first `n` bytes of `p`, or fewer when it fails. The caller vouches that the
        file does not outgrow `room`. */
    method Write(fd: nat, p: array<char>, n: nat, ghost room: Option<nat>) returns (count: nat, ok: bool)
      requires Valid() && n <= p.Length
      requires fd in fds && fds[fd].pos == |files[fds[fd].name]|
      requires room.Some? ==> |files[fds[fd].name]| + n <= room.value
      modifies this`clock, this`files, this`fds, this`mishaps
      ensures Valid() && mishaps >= old(mishaps)
      ensures count <= n && (ok ==> count == n) && (ok <==> mishaps == old(mishaps))
      ensures var name, written := old(fds[fd].name), old(files[fds[fd].name]) + p[..count];
              && files == old(files)[name := written]
              && fds == old(fds)[fd := Descriptor(name, |written|)]
    {
      var l := luck(clock);
      clock := clock + 1;
      ok := l.Fine?;
      count := match l case Fine => n case Short(k) => Min(k, n) case Denied => 0;
      if !ok {
        mishaps := mishaps + 1;
      }
      var name := fds[fd].name;
      files := files[name := files[name] + p[..count]];
      fds := fds[fd := Descriptor(name, |files[name]|)];
    }

    /** os.File.Read: any part of what is left, EOF only at the end, or an error. */
    method Read(fd: nat, p: array<char>, len: Length) returns (n: nat, err: Option<Ending>)
      requires Valid() && fd in fds && len <= p.Length
      modifies this`clock, this`fds, this`mishaps, p
      ensures Valid() && mishaps >= old(mishaps)
      ensures var name, pos := old(fds[fd].name), old(fds[fd].pos);
              && n <= len && pos + n <= |files[name]|
              && fds == old(fds)[fd := Descriptor(name, pos + n)]
              && p[..n] == files[name][pos..pos + n]
              && (err == Some(Eof) ==> pos == |files[name]|)
              && (err.None? && len > 0 ==> n > 0)
              && (err == Some(Eof) || err.None? <==> mishaps == old(mishaps))
    {
      var l := luck(clock);
      clock := clock + 1;
      var Descriptor(name, pos) := fds[fd];
      var left := |files[name]| - pos;
      n := match l
        case Fine => Min(len, left)
        case Short(k) => Min(Max(1, k), Min(len, left))
        case Denied => 0;
      forall i | 0 <= i < n { p[i] := files[name][pos + i]; }
      assert p[..n] == files[name][pos..pos + n];
      fds := fds[fd := Descriptor(name, pos + n)];
      if l.Denied? {
        mishaps := mishaps + 1;
        err := Some(Interrupted);
      } else {
        err := if n == 0 && len > 0 then Some(Eof) else None;
      }
    }

    /** The descriptor is gone even when closing it reports an error. */
    method Close(fd: nat)
      requires Valid() && fd in fds
      modifies this`fds
      ensures Valid() && fds == old(fds) - {fd}
    {
      fds := fds - {fd};
    }

    /** Nobody will remove this file any more. */
    ghost method Lose(name: string, loss: Loss)
      requires Valid() && name in files
      modifies this`lost
      ensures Valid() && lost == old(lost)[name := loss]
    {
      lost := lost[name := loss];
    }

    /** Some systems refuse to remove an open file; none of the callers asks for that. A file
        that cannot be removed is lost. */
    method Remove(name: string) returns (ok: bool)
      requires Valid() && name in files && name !in lost
      requires forall fd :: fd in fds ==> fds[fd].name != name
      modifies this`clock, this`files, this`mishaps, this`refusals, this`lost
      ensures Valid() && mishaps >= old(mishaps) && refusals >= old(refusals)
      ensures (ok <==> mishaps == old(mishaps)) && (ok <==> refusals == old(refusals))
      ensures files == if ok then old(files) - {name} else old(files)
      ensures lost == if ok then old(lost) else old(lost)[name := RemoveDenied]
    {
      ok := luck(clock).Fine?;
      clock := clock + 1;
      if ok {
        files := files - {name};
      } else {
        lost, mishaps, refusals := lost[name := RemoveDenied], mishaps + 1, refusals + 1;
      }
    }
  }
}
