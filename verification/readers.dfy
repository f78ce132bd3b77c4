/** The readers that Blob stacks on a blob stream: tee into a hash, gunzip, quota.

    Go's io.ReadCloser interface is the datatype below, a reference to one of the four
    implementations; `ReadFrom` is its dynamic dispatch. Each reader is specified by the stream it
    still has to deliver (`Rest`), so that a stack of readers is a composition of functions on
    streams, whatever the chunks in which the data travels. */
module Readers {
  import opened Basics
  import opened Streams
  import opened Registry

  datatype ReadCloser =
    | Network(stream: BlobStream)
    | Teed(tee: TeeReader)
    | Unzipped(gzip: GzipReader)
    | Metered(quotaed: QuotaedReader)

  /** The objects a reader may change, all of them its own. */
  ghost function Repr(r: ReadCloser): set<object> {
    match r
    case Network(s) => {s}
    case Teed(t) => t.repr
    case Unzipped(g) => g.repr
    case Metered(q) => q.repr
  }

  ghost function Height(r: ReadCloser): nat {
    match r
    case Network(_) => 0
    case Teed(t) => t.height
    case Unzipped(g) => g.height
    case Metered(q) => q.height
  }

  ghost predicate Stacked(inner: ReadCloser, repr: set<object>, height: nat, own: set<object>) {
    && Repr(inner) <= repr
    && own <= repr
    && Repr(inner) !! own
    && Height(inner) < height
  }

  ghost predicate Valid(r: ReadCloser)
    reads Repr(r)
    decreases Height(r), 0
  {
    match r
    case Network(s) => !s.closed
    case Teed(t) =>
      && Stacked(t.inner, t.repr, t.height, {t.hash})
      && Valid(t.inner)
      && t.whole == Stream(t.hash.written + Rest(t.inner).data, Rest(t.inner).end)
    case Unzipped(g) =>
      && Stacked(g.inner, g.repr, g.height, {g, g.buffer})
      && Valid(g.inner)
      && 0 < g.buffer.Length <= MAX_INT64
      && (g.end.Eof? ==> Rest(g.inner).end.Eof?)
    case Metered(q) =>
      && Stacked(q.delegate, q.repr, q.height, {q})
      && Valid(q.delegate)
      && -1 <= q.quotaLeft
      && q.quotaLeft == q.quota - |q.taken|
      && q.whole == Stream(q.taken + Rest(q.delegate).data, Rest(q.delegate).end)
  }

  /** What the reader still has to deliver. */
  function Rest(r: ReadCloser): Stream
    requires Valid(r)
    reads Repr(r)
    decreases Height(r), 1
  {
    match r
    case Network(s) => s.Rest()
    case Teed(t) => Rest(t.inner)
    case Unzipped(g) => Stream(g.out, g.end)
    case Metered(q) => Cut(Rest(q.delegate), q.quotaLeft)
  }

  /** Goes down with every Read that offers room and reports nothing. */
  ghost function Fuel(r: ReadCloser): nat
    requires Valid(r)
    reads Repr(r)
    decreases Height(r)
  {
    match r
    case Network(s) => s.Fuel()
    case Teed(t) => Fuel(t.inner)
    case Unzipped(g) => |g.ticks| + |g.out|
    case Metered(q) => Fuel(q.delegate)
  }

  /** The blob stream at the bottom has been read to its end. */
  ghost predicate Drained(r: ReadCloser)
    requires Valid(r)
    reads Repr(r)
    decreases Height(r)
  {
    match r
    case Network(s) => s.rest == []
    case Teed(t) => Drained(t.inner)
    case Unzipped(g) => Drained(g.inner)
    case Metered(q) => Drained(q.delegate)
  }

  /** The tee sits somewhere in the stack below `r`. */
  ghost predicate Above(r: ReadCloser, tee: TeeReader)
    decreases Height(r)
  {
    || r == Teed(tee)
    || match r
       case Network(_) => false
       case Teed(t) => Height(t.inner) < t.height && Above(t.inner, tee)
       case Unzipped(g) => Height(g.inner) < g.height && Above(g.inner, tee)
       case Metered(q) => Height(q.delegate) < q.height && Above(q.delegate, tee)
  }

  /** A tee right above the blob stream keeps the stream open; once the top of the stack has
      reported EOF, that tee has put all of the blob into its hash. */
  lemma {:induction false} TeeSawAll(r: ReadCloser, tee: TeeReader)
    requires Valid(r) && Above(r, tee) && tee.inner.Network?
    ensures Valid(Teed(tee)) && !tee.inner.stream.closed
    ensures Drained(r) ==> tee.hash.written == tee.whole.data
    decreases Height(r)
  {
    if r == Teed(tee) {
      assert Drained(r) <==> Drained(tee.inner);
    } else {
      match r
      case Teed(t) => TeeSawAll(t.inner, tee);
      case Unzipped(g) => TeeSawAll(g.inner, tee);
      case Metered(q) => TeeSawAll(q.delegate, tee);
    }
  }

  lemma TeeAtEnd(tee: TeeReader)
    requires Valid(Teed(tee)) && Rest(Teed(tee)).data == []
    ensures tee.hash.written == tee.whole.data
  {
  }

  /** The counter tells what became of a whole stream: the part of the quota that it left, or -1. */
  ghost predicate Settled(q: QuotaedReader)
    reads q
  {
    q.quotaLeft == if |q.whole.data| <= q.quota then q.quota - |q.whole.data| else -1
  }

  /** At the end of a metered stream it does; and -1 means that exactly one byte too many was
      fetched. */
  lemma QuotaAtEnd(q: QuotaedReader)
    requires Valid(Metered(q)) && Rest(Metered(q)).data == []
    ensures Settled(q) && |q.taken| == Min(|q.whole.data|, q.quota + 1)
    ensures Rest(Metered(q)).end == if |q.whole.data| <= q.quota then q.whole.end else OverQuota
  {
  }

  method ReadFrom(r: ReadCloser, p: array<char>, len: Length) returns (n: nat, err: Option<Ending>)
    requires Valid(r) && len <= p.Length && p !in Repr(r)
    modifies Repr(r), p
    ensures Valid(r) && n <= len
    ensures Delivered(old(Rest(r)), Rest(r), p[..n], err)
    ensures err.None? && len > 0 ==> Fuel(r) < old(Fuel(r))
    ensures err == Some(Eof) ==> Drained(r)
    decreases Height(r), 2
  {
    match r
    case Network(s) => n, err := s.Read(p, len);
    case Teed(t) => n, err := t.Read(p, len);
    case Unzipped(g) => n, err := g.Read(p, len);
    case Metered(q) => n, err := q.Read(p, len);
  }

  /** A running SHA-256: it depends on the bytes written, not on how they were grouped. */
  class Hash {
    var written: string

    constructor ()
      ensures written == []
    {
      written := [];
    }

    method Write(p: array<char>, n: nat)
      requires n <= p.Length
      modifies this
      ensures written == old(written) + old(p[..n])
    {
      written := written + p[..n];
    }
  }

  class TeeReader {
    const inner: ReadCloser
    const hash: Hash
    ghost const whole: Stream
    ghost const repr: set<object>
    ghost const height: nat

    constructor (inner: ReadCloser, hash: Hash)
      requires Valid(inner) && hash !in Repr(inner) && hash.written == []
      ensures Valid(Teed(this)) && this.inner == inner && this.hash == hash
      ensures whole == Rest(inner) && Rest(Teed(this)) == Rest(inner)
      ensures repr == Repr(inner) + {hash} && height == Height(inner) + 1
    {
      this.inner, this.hash := inner, hash;
      whole, repr, height := Rest(inner), Repr(inner) + {hash}, Height(inner) + 1;
    }

    method Read(p: array<char>, len: Length) returns (n: nat, err: Option<Ending>)
      requires Valid(Teed(this)) && len <= p.Length && p !in repr
      modifies repr, p
      ensures Valid(Teed(this)) && n <= len
      ensures Delivered(old(Rest(Teed(this))), Rest(Teed(this)), p[..n], err)
      ensures err.None? && len > 0 ==> Fuel(Teed(this)) < old(Fuel(Teed(this)))
      ensures err == Some(Eof) ==> Drained(Teed(this))
      decreases height, 1
    {
      n, err := ReadFrom(inner, p, len);
      if n > 0 {
        hash.Write(p, n);
      }
    }
  }

  class GzipReader {
    const inner: ReadCloser
    const buffer: array<char>
    const end: Ending
    var out: string
    var ticks: seq<Tick>
    var pulls: seq<nat>
    ghost const repr: set<object>
    ghost const height: nat

    constructor (inner: ReadCloser, decoded: Stream, ticks: seq<Tick>, pulls: seq<nat>, bufferSize: Length)
      requires Valid(inner) && 0 < bufferSize
      requires decoded.end.Eof? ==> Rest(inner).end.Eof?
      ensures Valid(Unzipped(this)) && this.inner == inner && Rest(Unzipped(this)) == decoded
      ensures fresh(repr - Repr(inner)) && Repr(inner) <= repr && height == Height(inner) + 1
    {
      var b := new char[bufferSize];
      this.inner, buffer, end, out := inner, b, decoded.end, decoded.data;
      this.ticks, this.pulls := ticks, pulls;
      repr, height := Repr(inner) + {this, b}, Height(inner) + 1;
    }

    /** Fetches some compressed input, as the decoder pleases, and hands over some output. It
        reports EOF only after the input has reported it. */
    method Read(p: array<char>, len: Length) returns (n: nat, err: Option<Ending>)
      requires Valid(Unzipped(this)) && len <= p.Length && p !in repr
      modifies repr, p
      ensures Valid(Unzipped(this)) && n <= len
      ensures Delivered(old(Rest(Unzipped(this))), Rest(Unzipped(this)), p[..n], err)
      ensures err.None? && len > 0 ==> Fuel(Unzipped(this)) < old(Fuel(Unzipped(this)))
      ensures err == Some(Eof) ==> Drained(Unzipped(this))
      decreases height, 1
    {
      if pulls != [] {
        Pull(pulls[0]);
        pulls := pulls[1..];
      }
      var tick := Give(len, false);
      if ticks != [] {
        tick := ticks[0];
        ticks := ticks[1..];
      }
      var rest := Stream(out, end);
      n, err := Emit(rest, tick, len).0, Emit(rest, tick, len).1;
      forall i | 0 <= i < n { p[i] := out[i]; }
      assert p[..n] == out[..n];
      out := out[n..];
      if err == Some(Eof) {
        Drain();
      }
    }

    method Pull(count: nat)
      requires Valid(Unzipped(this))
      modifies Repr(inner), buffer
      ensures Valid(Unzipped(this))
      decreases height, 0
    {
      for i := 0 to count
        invariant Valid(Unzipped(this))
      {
        var _, _ := ReadFrom(inner, buffer, buffer.Length);
      }
    }

    method Drain()
      requires Valid(Unzipped(this)) && end.Eof?
      modifies Repr(inner), buffer
      ensures Valid(Unzipped(this)) && Drained(inner)
      decreases height, 0
    {
      var err: Option<Ending> := None;
      while err.None?
        invariant Valid(Unzipped(this))
        invariant err.Some? ==> Drained(inner)
        decreases if err.None? then Fuel(inner) + 1 else 0
      {
        var n;
        n, err := ReadFrom(inner, buffer, buffer.Length);
      }
    }
  }

  class QuotaedReader {
    const delegate: ReadCloser
    var quotaLeft: int64
    ghost const quota: int64
    ghost var taken: string
    ghost const whole: Stream
    ghost const repr: set<object>
    ghost const height: nat

    constructor (delegate: ReadCloser, quotaLeft: int64)
      requires Valid(delegate) && -1 <= quotaLeft
      ensures Valid(Metered(this)) && this.delegate == delegate && quota == this.quotaLeft == quotaLeft
      ensures whole == Rest(delegate)
      ensures repr == Repr(delegate) + {this} && height == Height(delegate) + 1
      ensures Rest(Metered(this)) == Cut(Rest(delegate), quotaLeft)
    {
      this.delegate, this.quotaLeft := delegate, quotaLeft;
      quota, taken, whole := quotaLeft, [], Rest(delegate);
      repr, height := Repr(delegate) + {this}, Height(delegate) + 1;
    }

    /** Hands the delegate at most one byte of room more than the quota allows. That byte, once
        read, is the error, and no byte follows it. */
    method Read(p: array<char>, len: Length) returns (n: nat, err: Option<Ending>)
      requires Valid(Metered(this)) && len <= p.Length && p !in repr
      modifies repr, p
      ensures Valid(Metered(this)) && n <= len
      ensures quotaLeft == old(quotaLeft) - n
      ensures quotaLeft < 0 ==> err == Some(OverQuota)
      ensures old(quotaLeft) < 0 ==> n == 0
      ensures Delivered(old(Rest(Metered(this))), Rest(Metered(this)), p[..n], err)
      ensures err.None? && len > 0 ==> Fuel(Metered(this)) < old(Fuel(Metered(this)))
      ensures err == Some(Eof) ==> Drained(Metered(this))
      decreases height, 1
    {
      hide Cut;
      var window: Length := len;
      if window > quotaLeft {
        var limit: int64 := quotaLeft + 1;
        window := limit;
      }
      ghost var before := Rest(delegate);
      n, err := ReadFrom(delegate, p, window);
      QuotaStep(before, Rest(delegate), p[..n], err, quotaLeft);
      assert taken + before.data == (taken + p[..n]) + before.data[n..];
      var left: int64 := quotaLeft - n;
      quotaLeft, taken := left, taken + p[..n];
      if quotaLeft < 0 {
        err := Some(OverQuota);
      }
    }
  }
}
