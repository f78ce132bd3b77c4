/** Which blobs a layer source accepts, said about whole streams at once: the specification of
    the streaming code in `LayerSources`. */
module Judgement {
  import opened Basics
  import opened Streams
  import opened Images

  datatype Policy = Policy(skipOCILayerValidation: bool, skipImageQuotaValidation: bool, scheme: string)

  datatype Verdict = Rejected(error: Error) | Accepted(content: string)

  predicate IsV1Layer(layer: LayerInfo) { layer.size == -1 }

  predicate SizeValid(policy: Policy, layer: LayerInfo, length: int64) {
    policy.skipOCILayerValidation || IsV1Layer(layer) || layer.size == length
  }

  /** No temporary file can be named after a blob ID with a path separator. */
  predicate NamesFile(blobID: string) { '/' !in blobID }

  predicate WantsGunzip(mediaType: string) { mediaType == "" || Contains(mediaType, "gzip") }

  predicate DigestsSkipped(policy: Policy) { policy.skipOCILayerValidation && policy.scheme == "oci" }

  predicate ChecksumValid(policy: Policy, actual: string, expected: string) {
    DigestsSkipped(policy) || expected == actual
  }

  /** The uncompressed layer as the blob stream yields it. */
  function Decoded(codec: Codec, layer: LayerInfo, blob: Stream): Option<Stream> {
    if WantsGunzip(layer.mediaType) then codec.gunzip(blob) else Some(blob)
  }

  predicate Affordable(policy: Policy, remaining: int64) {
    policy.skipImageQuotaValidation || -1 <= remaining
  }

  function Limited(policy: Policy, remaining: int64, s: Stream): Stream
    requires Affordable(policy, remaining)
  {
    if policy.skipImageQuotaValidation then s else Cut(s, remaining)
  }

  /** The checks in the order in which the code makes them. */
  function Judge(codec: Codec, policy: Policy, remaining: int64, layer: LayerInfo, blob: Stream, length: int64): Verdict
    requires Affordable(policy, remaining)
  {
    if !SizeValid(policy, layer, length) then Rejected(SizeMismatch)
    else if !NamesFile(layer.blobID) then Rejected(TempFileFailed)
    else JudgeContent(codec, policy, remaining, layer, blob)
  }

  function JudgeContent(codec: Codec, policy: Policy, remaining: int64, layer: LayerInfo, blob: Stream): Verdict
    requires Affordable(policy, remaining)
  {
    match Decoded(codec, layer, blob)
    case None => Rejected(NotGzip)
    case Some(decoded) =>
      var limited := Limited(policy, remaining, decoded);
      match Reported(limited.end)
      case Some(e) => Rejected(e)
      case None => JudgeDigests(codec, policy, layer, blob.data, limited.data)
  }

  function JudgeDigests(codec: Codec, policy: Policy, layer: LayerInfo, blob: string, content: string): Verdict {
    match SecondField(layer.blobID)
    case None => Rejected(Panic)
    case Some(blobHex) =>
      if !ChecksumValid(policy, codec.hash(blob), blobHex) then Rejected(BlobDigestMismatch)
      else if !ChecksumValid(policy, codec.hash(content), layer.diffID) then Rejected(DiffDigestMismatch)
      else Accepted(content)
  }

  function Failure(v: Verdict): Option<Error> {
    match v
    case Rejected(e) => Some(e)
    case Accepted(_) => None
  }

  /** Acceptance without the order: exactly the valid layers, a content equal to the remaining
      quota included. */
  lemma AcceptedExactly(codec: Codec, policy: Policy, remaining: int64, layer: LayerInfo, blob: Stream, length: int64,
                        content: string)
    requires Affordable(policy, remaining)
    ensures Judge(codec, policy, remaining, layer, blob, length) == Accepted(content) <==>
            && (policy.skipOCILayerValidation || layer.size == -1 || layer.size == length)
            && (if layer.mediaType == "" || (exists i :: 0 <= i <= |layer.mediaType| && "gzip" <= layer.mediaType[i..])
                then codec.gunzip(blob) == Some(Stream(content, Eof))
                else blob == Stream(content, Eof))
            && (!policy.skipImageQuotaValidation ==> |content| <= remaining)
            && ':' in layer.blobID && '/' !in layer.blobID
            && (!(policy.skipOCILayerValidation && policy.scheme == "oci") ==>
                  SecondField(layer.blobID) == Some(codec.hash(blob.data)) && layer.diffID == codec.hash(content))
  {
    ContainsExactly(layer.mediaType, "gzip");
    hide Contains, IndexOf;
    assert Decoded(codec, layer, blob) == Some(Stream(content, Eof)) ==>
      Limited(policy, remaining, Stream(content, Eof)).end.Eof? ==>
      Limited(policy, remaining, Stream(content, Eof)).data == content;
  }

  /** The content is the one that the layer's diffID names, unless digests are not checked. */
  ghost predicate Vouched(codec: Codec, policy: Policy, layer: LayerInfo, content: string) {
    !DigestsSkipped(policy) ==> codec.hash(content) == layer.diffID
  }

  /** Whatever is accepted was read to its end, and outside "oci" both digests vouch for it. */
  lemma AcceptedIsVerified(codec: Codec, policy: Policy, remaining: int64, layer: LayerInfo, blob: Stream,
                           length: int64)
    requires Affordable(policy, remaining)
    requires Judge(codec, policy, remaining, layer, blob, length).Accepted?
    ensures blob.end == Eof
    ensures Vouched(codec, policy, layer, Judge(codec, policy, remaining, layer, blob, length).content)
    ensures policy.scheme != "oci" ==> SecondField(layer.blobID) == Some(codec.hash(blob.data))
  {
    AcceptedExactly(codec, policy, remaining, layer, blob, length,
                    Judge(codec, policy, remaining, layer, blob, length).content);
  }

  /** An acceptable stream for a blob ID without ':' makes the code panic: it takes the blob ID
      apart only after everything has been written. */
  lemma PanicsExactly(codec: Codec, policy: Policy, remaining: int64, layer: LayerInfo, blob: Stream, length: int64)
    requires Affordable(policy, remaining)
    ensures Judge(codec, policy, remaining, layer, blob, length) == Rejected(Panic) <==>
            && SizeValid(policy, layer, length)
            && Decoded(codec, layer, blob).Some?
            && Limited(policy, remaining, Decoded(codec, layer, blob).value).end.Eof?
            && ':' !in layer.blobID && '/' !in layer.blobID
  {
    hide Contains, IndexOf;
  }

  /** The quota rejects exactly the layers that decode to more than it has left. */
  lemma ExceedsExactly(codec: Codec, policy: Policy, remaining: int64, layer: LayerInfo, blob: RemoteStream,
                       length: int64)
    requires Affordable(policy, remaining)
    ensures Judge(codec, policy, remaining, layer, blob, length) == Rejected(BlobExceedsQuota) <==>
            && SizeValid(policy, layer, length) && NamesFile(layer.blobID) && !policy.skipImageQuotaValidation
            && Decoded(codec, layer, blob).Some? && |Decoded(codec, layer, blob).value.data| > remaining
  {
    hide Contains, IndexOf;
  }

  /** Rejections before the digests, without the order: exactly the layers that fail a check and none
      before. */
  lemma RejectedExactly(codec: Codec, policy: Policy, remaining: int64, layer: LayerInfo, blob: RemoteStream,
                        length: int64)
    requires Affordable(policy, remaining)
    ensures var verdict := Judge(codec, policy, remaining, layer, blob, length);
            var sized := policy.skipOCILayerValidation || layer.size == -1 || layer.size == length;
            var unzip := layer.mediaType == ""
                         || exists i :: 0 <= i <= |layer.mediaType| && "gzip" <= layer.mediaType[i..];
            var decoded := if unzip then codec.gunzip(blob) else Some(blob);
            var begun := sized && '/' !in layer.blobID && decoded.Some?;
            var fits := begun && (policy.skipImageQuotaValidation || |decoded.value.data| <= remaining);
            && (verdict == Rejected(SizeMismatch) <==> !sized)
            && (verdict == Rejected(TempFileFailed) <==> sized && '/' in layer.blobID)
            && (verdict == Rejected(NotGzip) <==> sized && '/' !in layer.blobID && decoded.None?)
            && (verdict == Rejected(BlobExceedsQuota) <==> begun && !fits)
            && (verdict == Rejected(StreamFailed) <==> fits && decoded.value.end == Interrupted)
  {
    ContainsExactly(layer.mediaType, "gzip");
    hide Contains, IndexOf, SecondField;
  }

  /** And by the digests: exactly the layers that stream without error and have the wrong one. */
  lemma DigestsRejectExactly(codec: Codec, policy: Policy, layer: LayerInfo, blob: string, content: string)
    ensures var verdict := JudgeDigests(codec, policy, layer, blob, content);
            var checked := ':' in layer.blobID && !(policy.skipOCILayerValidation && policy.scheme == "oci");
            var genuine := SecondField(layer.blobID) == Some(codec.hash(blob));
            && (verdict == Rejected(Panic) <==> ':' !in layer.blobID)
            && (verdict == Rejected(BlobDigestMismatch) <==> checked && !genuine)
            && (verdict == Rejected(DiffDigestMismatch) <==> checked && genuine && layer.diffID != codec.hash(content))
  {
    hide IndexOf;
  }

  /** A layer gets to its digests exactly if nothing before rejects it, with all of its content. */
  lemma JudgedByDigestsExactly(codec: Codec, policy: Policy, remaining: int64, layer: LayerInfo, blob: RemoteStream,
                               length: int64)
    requires Affordable(policy, remaining)
    ensures var verdict := Judge(codec, policy, remaining, layer, blob, length);
            var early := {SizeMismatch, TempFileFailed, NotGzip, BlobExceedsQuota, StreamFailed};
            !(verdict.Rejected? && verdict.error in early) ==>
              var unzip := layer.mediaType == ""
                           || exists i :: 0 <= i <= |layer.mediaType| && "gzip" <= layer.mediaType[i..];
              var decoded := if unzip then codec.gunzip(blob) else Some(blob);
              decoded.Some? && verdict == JudgeDigests(codec, policy, layer, blob.data, decoded.value.data)
  {
    ContainsExactly(layer.mediaType, "gzip");
    hide Contains, IndexOf, SecondField;
  }

  /** The diffID that converting a schema 1 image computes for a blob, in one go. */
  function V1DiffID(codec: Codec, blob: Stream): Option<string> {
    match codec.gunzip(blob)
    case Some(Stream(data, Eof)) => Some(NewDigest(codec.hash(data)))
    case _ => None
  }

  /** There is one exactly for a blob that decodes up to an EOF: "sha256:" and the hash of all of it. */
  lemma V1DiffIDExactly(codec: Codec, blob: Stream)
    ensures V1DiffID(codec, blob).Some? <==> codec.gunzip(blob).Some? && codec.gunzip(blob).value.end == Eof
    ensures V1DiffID(codec, blob).Some? ==>
              V1DiffID(codec, blob).value == "sha256:" + codec.hash(codec.gunzip(blob).value.data)
  {
    if V1DiffID(codec, blob).Some? {
      var digest := V1DiffID(codec, blob).value;
      assert digest == digest[..7] + digest[7..];
    }
  }

  /** A registry that serves the same blob again never fails the diffID check that the
      conversion itself set up. */
  lemma ConvertedLayerPassesDiffCheck(codec: Codec, policy: Policy, remaining: int64, layer: LayerInfo, blob: Stream,
                                      length: int64)
    requires Affordable(policy, remaining) && WantsGunzip(layer.mediaType)
    requires V1DiffID(codec, blob).Some? && Encoded(V1DiffID(codec, blob).value) == Some(layer.diffID)
    ensures Judge(codec, policy, remaining, layer, blob, length) != Rejected(DiffDigestMismatch)
    ensures Judge(codec, policy, remaining, layer, blob, length) == Rejected(BlobExceedsQuota) <==>
            (SizeValid(policy, layer, length) && NamesFile(layer.blobID) && !policy.skipImageQuotaValidation
             && |codec.gunzip(blob).value.data| > remaining)
  {
    hide Contains, IndexOf;
    EncodedDigest(codec.hash(codec.gunzip(blob).value.data));
  }
}
