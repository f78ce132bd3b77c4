/** Byte streams as values: what a reader still has to deliver and how it then ends. */
module Streams {
  import opened Basics

  datatype Ending = Eof | Interrupted | OverQuota

  datatype Stream = Stream(data: string, end: Ending)

  /** What comes from outside ends in its own ways: only a quota reader reports the quota. */
  type RemoteEnding = e: Ending | e != OverQuota witness Eof

  type RemoteStream = s: Stream | s.end != OverQuota witness Stream([], Eof)

  /** What a copy that ends like this reports; EOF is no error. */
  function Reported(end: Ending): (err: Option<Error>)
    ensures err.None? <==> end == Eof
    ensures err == Some(StreamFailed) <==> end == Interrupted
    ensures err == Some(BlobExceedsQuota) <==> end == OverQuota
  {
    match end
    case Eof => None
    case Interrupted => Some(StreamFailed)
    case OverQuota => Some(BlobExceedsQuota)
  }

  /** One call to a network or decompressing reader, as its peer decides it: nothing yet, or
      at most `most` bytes, the last of them together with the ending or not. */
  datatype Tick = Stall | Give(most: nat, withEnd: bool)

  /** The contract of one Read: `got` comes off the front of the stream, and an error or EOF
      is reported only once the stream is empty, and is then the stream's own ending. */
  ghost predicate Delivered(before: Stream, after: Stream, got: string, err: Option<Ending>) {
    && got <= before.data
    && after == Stream(before.data[|got|..], before.end)
    && (err.Some? ==> after.data == [] && err.value == before.end)
  }

  /** The stream a QuotaedReader makes of its delegate's stream: all of it if it fits, else
      one byte more than the quota and the quota error. */
  function Cut(s: Stream, quota: int): (r: Stream)
    requires -1 <= quota
    ensures r.data <= s.data && |r.data| == Min(|s.data|, quota + 1)
    ensures r.end == if |r.data| == quota + 1 then OverQuota else s.end
  {
    if |s.data| <= quota then s else Stream(s.data[..quota + 1], OverQuota)
  }

  /** A delegate's Read within the window is a Read of the cut stream, once the error is
      replaced when the quota is gone: cutting commutes with reading, however it is chunked. */
  lemma QuotaStep(before: Stream, after: Stream, got: string, err: Option<Ending>, quota: int)
    requires Delivered(before, after, got, err) && |got| <= quota + 1
    ensures Delivered(Cut(before, quota), Cut(after, quota - |got|), got,
                      if quota - |got| < 0 then Some(OverQuota) else err)
  {
  }

  /** A gzip decoder: None when there is no gzip header, else what it delivers and how that
      ends. It reports EOF only on input that itself ends with EOF. */
  type Gunzip = f: Stream -> Option<RemoteStream>
    | forall s :: f(s).Some? && f(s).value.end.Eof? ==> s.end.Eof?
    witness s => None

  /** SHA-256 as hex, and gzip: both arbitrary functions. */
  datatype Codec = Codec(hash: string -> string, gunzip: Gunzip)
}
