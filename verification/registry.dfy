/** The remote side of a pull: an image source that may refuse a blob, and the streams it
    serves, which choose for themselves how to chunk, stall and end. */
module Registry {
  import opened Basics
  import opened Streams

  /** A blob as an image source serves it, with the length it announces (-1: unknown). */
  datatype Offer = Offer(stream: RemoteStream, pace: Pace, length: int64)

  /** How a stream arrives, and how a gzip decoder on top of it fetches and hands over. */
  datatype Pace = Pace(ticks: seq<Tick>, gzipTicks: seq<Tick>, gzipPulls: seq<nat>)

  /** How much one call hands over and whether it reports the ending. */
  function Emit(rest: Stream, tick: Tick, len: Length): (r: (nat, Option<Ending>))
    ensures r.0 <= len && r.0 <= |rest.data|
    ensures Delivered(rest, Stream(rest.data[r.0..], rest.end), rest.data[..r.0], r.1)
    ensures tick.Give? && len > 0 && r.1.None? ==> r.0 > 0
  {
    match tick
    case Stall => (0, None)
    case Give(most, withEnd) =>
      var n := Min(len, Min(Max(1, most), |rest.data|));
      (n, if n == |rest.data| && (n == 0 || withEnd) then Some(rest.end) else None)
  }

  /** What the attempts to fetch one blob get. Both transports refuse a malformed digest, unless
      the layer names URLs to fetch it from. */
  function Answers(replies: nat -> Option<Offer>, digest: string, urls: seq<string>): nat -> Option<Offer> {
    (i: nat) => if urls == [] && Encoded(digest).None? then None else replies(i)
  }

  lemma AnswersExactly(replies: nat -> Option<Offer>, digest: string, urls: seq<string>, i: nat)
    ensures Answers(replies, digest, urls)(i).Some? <==> replies(i).Some? && (urls != [] || ':' in digest)
    ensures Answers(replies, digest, urls)(i).Some? ==> Answers(replies, digest, urls)(i) == replies(i)
  {
  }

  class BlobStream {
    const origin: ImageSource
    const end: RemoteEnding
    const pace: Pace
    var rest: string
    var ticks: seq<Tick>
    var closed: bool

    constructor (origin: ImageSource, stream: RemoteStream, pace: Pace)
      ensures this.origin == origin && end == stream.end && rest == stream.data && this.pace == pace && !closed
    {
      this.origin, end, rest, this.pace := origin, stream.end, stream.data, pace;
      ticks, closed := pace.ticks, false;
    }

    function Rest(): RemoteStream
      reads this
    {
      Stream(rest, end)
    }

    /** The peer's script runs out, after which it hands over all it can: so reading on ends. */
    function Fuel(): nat
      reads this
    {
      |ticks| + |rest|
    }

    method Read(p: array<char>, len: Length) returns (n: nat, err: Option<Ending>)
      requires !closed && len <= p.Length
      modifies this, p
      ensures !closed && n <= len
      ensures Delivered(old(Rest()), Rest(), p[..n], err)
      ensures err.None? && len > 0 ==> Fuel() < old(Fuel())
    {
      var tick := Give(len, false);
      if ticks != [] {
        tick := ticks[0];
        ticks := ticks[1..];
      }
      n, err := Emit(Rest(), tick, len).0, Emit(Rest(), tick, len).1;
      forall i | 0 <= i < n { p[i] := rest[i]; }
      assert p[..n] == rest[..n];
      rest := rest[n..];
    }

    method Close()
      requires !closed && this in origin.open
      modifies this`closed, origin`open
      ensures closed && origin.open == old(origin.open) - {this}
    {
      closed := true;
      origin.open := origin.open - {this};
    }
  }

  class ImageSource {
    const replies: nat -> Option<Offer>
    var fetches: nat
    var closes: nat
    ghost var open: set<BlobStream>

    constructor (replies: nat -> Option<Offer>)
      ensures this.replies == replies && fetches == 0 && closes == 0 && open == {}
    {
      this.replies, fetches, closes, open := replies, 0, 0, {};
    }

    method GetBlob(digest: string, urls: seq<string>) returns (blob: BlobStream?, length: int64)
      modifies this`fetches, this`open
      ensures fetches == old(fetches) + 1
      ensures blob == null <==> Answers(replies, digest, urls)(old(fetches)).None?
      ensures blob == null ==> open == old(open)
      ensures blob != null ==> fresh(blob) && blob.origin == this && !blob.closed && open == old(open) + {blob}
      ensures blob != null ==>
                Answers(replies, digest, urls)(old(fetches)) == Some(Offer(blob.Rest(), blob.pace, length))
    {
      var reply := Answers(replies, digest, urls)(fetches);
      fetches := fetches + 1;
      if reply.None? {
        return null, 0;
      }
      blob := new BlobStream(this, reply.value.stream, reply.value.pace);
      length := reply.value.length;
      open := open + {blob};
    }

    method Close()
      modifies this`closes
      ensures closes == old(closes) + 1
    {
      closes := closes + 1;
    }
  }
}
