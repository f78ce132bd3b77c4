/** Go's io.Copy and io.ReadAll over a stack of readers. */
module Copying {
  import opened Basics
  import opened Streams
  import opened Readers
  import opened Files

  /** The file behind `fd` ends at its write position. */
  ghost predicate AtEnd(fs: FileSystem, fd: nat)
    reads fs
  {
    fs.Valid() && fd in fs.fds && fs.fds[fd].pos == |fs.files[fs.fds[fd].name]|
  }

  /** One round of io.Copy: reads once and writes what it got. */
  method CopyChunk(fs: FileSystem, fd: nat, src: ReadCloser, buffer: array<char>, ghost room: Option<nat>)
    returns (count: nat, err: Option<Error>, done: bool)
    requires Valid(src) && fs !in Repr(src)
    requires buffer !in Repr(src) && 0 < buffer.Length <= MAX_INT64
    requires AtEnd(fs, fd)
    requires room.Some? ==> |fs.files[fs.fds[fd].name]| + |Rest(src).data| <= room.value
    modifies Repr(src), buffer, fs`clock, fs`files, fs`fds, fs`mishaps
    ensures Valid(src) && AtEnd(fs, fd) && fs.mishaps >= old(fs.mishaps)
    ensures count <= |old(Rest(src)).data|
    ensures var name, s := old(fs.fds[fd].name), old(Rest(src));
            var put := old(fs.files[name]) + s.data[..count];
            && fs.files == old(fs.files)[name := put]
            && fs.fds == old(fs.fds)[fd := Descriptor(name, |put|)]
            && (!done ==> err.None? && Rest(src) == Stream(s.data[count..], s.end))
            && (done && err != Some(WriteFailed) ==>
                  count == |s.data| && err == Reported(s.end) && Rest(src).data == [])
    ensures fs.mishaps > old(fs.mishaps) <==> err == Some(WriteFailed)
    ensures !done ==> Fuel(src) < old(Fuel(src))
    ensures done && err.None? ==> Drained(src)
  {
    hide Valid, Rest, Fuel, Drained;
    ghost var s := Rest(src);
    var n, er := ReadFrom(src, buffer, buffer.Length);
    assert buffer[..n] == s.data[..n];
    var ok := true;
    count := n;
    if n > 0 {
      count, ok := fs.Write(fd, buffer, n, room);
      assert buffer[..count] == s.data[..count];
    } else {
      assert fs.files[fs.fds[fd].name] + s.data[..0] == fs.files[fs.fds[fd].name];
    }
    if !ok {
      err, done := Some(WriteFailed), true;
    } else if er.Some? {
      err, done := Reported(er.value), true;
    } else {
      err, done := None, false;
    }
  }

  /** io.Copy, appending to the file behind `fd`. If writing works, the file gets exactly the
      bytes of the stream, nothing is left to read, and the result is the stream's ending, whatever
      the chunks and the buffer; if it does not, the file gets a prefix. */
  method Copy(fs: FileSystem, fd: nat, src: ReadCloser, buffer: array<char>, ghost room: Option<nat>)
    returns (written: int64, err: Option<Error>)
    requires Valid(src) && fs !in Repr(src)
    requires buffer !in Repr(src) && 0 < buffer.Length <= MAX_INT64
    requires AtEnd(fs, fd) && fs.files[fs.fds[fd].name] == []
    requires room.Some? ==> |Rest(src).data| <= room.value
    modifies Repr(src), buffer, fs`clock, fs`files, fs`fds, fs`mishaps
    ensures Valid(src) && AtEnd(fs, fd) && fs.mishaps >= old(fs.mishaps)
    ensures var name, s := old(fs.fds[fd].name), old(Rest(src));
            && name in fs.files
            && var put := fs.files[name];
            && fs.files == old(fs.files)[name := put]
            && fs.fds == old(fs.fds)[fd := Descriptor(name, |put|)]
            && put <= s.data
            && written == Wrap64(|put|)
            && (err != Some(WriteFailed) ==> put == s.data && err == Reported(s.end) && Rest(src).data == [])
    ensures fs.mishaps > old(fs.mishaps) <==> err == Some(WriteFailed)
    ensures err.None? ==> Drained(src)
  {
    hide Valid, Rest, Fuel, Drained;
    ghost var name, s := fs.fds[fd].name, Rest(src);
    ghost var k: nat := 0;
    written := 0;
    while true
      invariant Valid(src) && AtEnd(fs, fd) && fs.mishaps == old(fs.mishaps)
      invariant k <= |s.data| && Rest(src) == Stream(s.data[k..], s.end)
      invariant fs.files == old(fs.files)[name := s.data[..k]]
      invariant fs.fds == old(fs.fds)[fd := Descriptor(name, k)]
      invariant written == Wrap64(k)
      decreases Fuel(src)
    {
      var count, done;
      count, err, done := CopyChunk(fs, fd, src, buffer, room);
      TakeMore(s.data, k, count);
      WrapAdd(k, count);
      UpdateTwice(old(fs.files), name, s.data[..k], s.data[..k + count]);
      UpdateTwice(old(fs.fds), fd, Descriptor(name, k), Descriptor(name, k + count));
      k := k + count;
      written := Wrap64(written + count);
      if done {
        return;
      }
    }
  }

  /** io.ReadAll. */
  method ReadAll(src: ReadCloser, buffer: array<char>) returns (data: string, err: Option<Error>)
    requires Valid(src) && buffer !in Repr(src) && 0 < buffer.Length <= MAX_INT64
    modifies Repr(src), buffer
    ensures Valid(src)
    ensures data == old(Rest(src)).data && err == Reported(old(Rest(src)).end)
  {
    hide Valid, Rest, Fuel, Drained;
    ghost var s := Rest(src);
    ghost var k: nat := 0;
    data := [];
    while true
      invariant Valid(src) && k <= |s.data|
      invariant data == s.data[..k] && Rest(src) == Stream(s.data[k..], s.end)
      decreases Fuel(src)
    {
      var n, er := ReadFrom(src, buffer, buffer.Length);
      TakeMore(s.data, k, n);
      data, k := data + buffer[..n], k + n;
      if er.Some? {
        return data, Reported(er.value);
      }
    }
  }
}
