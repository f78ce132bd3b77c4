/** The layer source: one image source made on demand, retried fetches, and `Blob`, which turns
    a blob stream into a verified temporary file and charges it to the image quota. */
module LayerSources {
  import opened Basics
  import opened Streams
  import opened Registry
  import opened Readers
  import opened Files
  import opened Copying
  import opened Images
  import opened Judgement
  import opened Retries

  /** Everything outside: the outcome of each attempt to connect, to get an image and its
      configuration, and the library's schema conversion. */
  datatype World = World(
    codec: Codec,
    dial: nat -> Option<nat -> Option<Offer>>,
    images: nat -> Option<Document>,
    configs: nat -> Option<()>,
    converted: (Document, seq<string>) -> Option<Document>,
    bufferSize: BufferSize)

  type BufferSize = n: Length | 0 < n witness 1

  /** The image source the next blob will come from: its replies, and the attempts already made. */
  datatype Upstream = Upstream(replies: nat -> Option<Offer>, next: nat)

  ghost function V1DiffIDs(world: World, blobs: seq<Stream>): (diffIDs: seq<string>)
    requires forall i :: 0 <= i < |blobs| ==> V1DiffID(world.codec, blobs[i]).Some?
    ensures |diffIDs| == |blobs| && forall i :: 0 <= i < |blobs| ==> V1DiffID(world.codec, blobs[i]) == Some(diffIDs[i])
  {
    seq(|blobs|, i requires 0 <= i < |blobs| => V1DiffID(world.codec, blobs[i]).value)
  }

  /** The result is the original image, or for schema 1 its conversion with one diffID a layer,
      in order: that of `blobs[i]`, the blob fetched for layer i. */
  ghost predicate IsConversion(world: World, original: Document, result: Document, blobs: seq<Stream>) {
    && original.schema1.Some?
    && if !original.schema1.value then result == original
       else
         && |blobs| == |original.layers|
         && (forall i :: 0 <= i < |blobs| ==> V1DiffID(world.codec, blobs[i]).Some?)
         && world.converted(original, V1DiffIDs(world, blobs)) == Some(result)
  }

  /** Getting the image: what comes of it, whether there is an image source then, and the attempts
      made so far to connect and to get an image. */
  datatype ImageRun = ImageRun(img: Option<Document>, connected: bool, dials: nat, tries: nat)

  /** Up to `left` attempts, each of which connects first if there is no image source yet. */
  function GetImage(world: World, connected: bool, dials: nat, tries: nat, left: nat): ImageRun
    decreases left
  {
    if left == 0 then ImageRun(None, connected, dials, tries)
    else if !connected && world.dial(dials).None? then GetImage(world, false, dials + 1, tries, left - 1)
    else
      var dials' := if connected then dials else dials + 1;
      if world.images(tries).Some? then ImageRun(world.images(tries), true, dials', tries + 1)
      else GetImage(world, true, dials', tries + 1, left - 1)
  }

  /** No more than `left` attempts, each a failed connection or a request for the image; never a
      second connection, all before the last one in vain; and giving up takes every attempt. */
  lemma {:induction false} GetImageMeaning(world: World, connected: bool, dials: nat, tries: nat, left: nat)
    ensures var run := GetImage(world, connected, dials, tries, left);
            && dials <= run.dials && tries <= run.tries
            && (connected ==> run.connected && run.dials == dials)
            && (forall i :: dials <= i < run.dials - (if run.connected then 1 else 0) ==> world.dial(i).None?)
            && (run.connected && !connected ==> run.dials > 0 && world.dial(run.dials - 1).Some?)
            && (forall i :: tries <= i < run.tries - (if run.img.Some? then 1 else 0) ==> world.images(i).None?)
            && (run.img.Some? ==> run.connected && tries < run.tries && run.img == world.images(run.tries - 1))
            && var failed := run.dials - dials - (if run.connected && !connected then 1 else 0);
            && failed + (run.tries - tries) <= left
            && (run.img.None? ==> failed + (run.tries - tries) == left)
    decreases left
  {
    if left == 0 {
    } else if !connected && world.dial(dials).None? {
      GetImageMeaning(world, false, dials + 1, tries, left - 1);
    } else if world.images(tries).None? {
      GetImageMeaning(world, true, if connected then dials else dials + 1, tries + 1, left - 1);
    }
  }

  lemma OneAttempt(world: World, connected: bool, dials: nat, tries: nat, left: nat)
    requires 0 < left
    ensures GetImage(world, connected, dials, tries, 0).img.None?
    ensures GetImage(world, connected, dials, tries, left).img ==
            if !connected && world.dial(dials).None? then GetImage(world, false, dials + 1, tries, left - 1).img
            else if world.images(tries).Some? then world.images(tries)
            else GetImage(world, true, if connected then dials else dials + 1, tries + 1, left - 1).img
  {
  }

  /** A blob is got if and only if one of three requests for it is served, none of them without a usable
      digest or a URL. */
  lemma ThreeRequests(replies: nat -> Option<Offer>, digest: string, urls: seq<string>, start: nat)
    ensures var (got, used) := Retry(Answers(replies, digest, urls), start, MAX_DOCKER_RETRIES);
            var (first, second, third) := (replies(start), replies(start + 1), replies(start + 2));
            if urls == [] && ':' !in digest then got.None? && used == 3
            else if first.Some? then got == first && used == 1
            else if second.Some? then got == second && used == 2
            else got == third && used == 3
  {
    RetryMeaning(Answers(replies, digest, urls), start, MAX_DOCKER_RETRIES);
    var used := Retry(Answers(replies, digest, urls), start, MAX_DOCKER_RETRIES).1;
    AnswersExactly(replies, digest, urls, start);
    AnswersExactly(replies, digest, urls, start + 1);
    AnswersExactly(replies, digest, urls, start + 2);
    assert used == 1 || used == 2 || used == 3;
  }

  /** With an image source, one of three requests has to succeed; without one, every connection that fails
      leaves one request less. */
  lemma ThreeAttempts(world: World, dials: nat, tries: nat)
    ensures var (first, second, third) := (world.images(tries), world.images(tries + 1), world.images(tries + 2));
            && (GetImage(world, true, dials, tries, MAX_DOCKER_RETRIES).img ==
                if first.Some? then first else if second.Some? then second else third)
            && (GetImage(world, false, dials, tries, MAX_DOCKER_RETRIES).img ==
                if world.dial(dials).Some? then
                  if first.Some? then first else if second.Some? then second else third
                else if world.dial(dials + 1).Some? then
                  if first.Some? then first else second
                else if world.dial(dials + 2).Some? then first
                else None)
  {
    OneAttempt(world, true, dials, tries, 3);
    OneAttempt(world, true, dials, tries + 1, 2);
    OneAttempt(world, true, dials, tries + 2, 1);
    OneAttempt(world, false, dials, tries, 3);
    OneAttempt(world, true, dials + 1, tries + 1, 2);
    OneAttempt(world, true, dials + 1, tries + 2, 1);
    OneAttempt(world, false, dials + 1, tries, 2);
    OneAttempt(world, true, dials + 2, tries + 1, 1);
    OneAttempt(world, false, dials + 2, tries, 1);
  }

  /** The blobs behind the lowest `n` layers of a schema 1 image, each fetched with retries and
      decompressed, and the attempts made so far; None from the first layer that fails. */
  ghost function FetchV1(codec: Codec, replies: nat -> Option<Offer>, start: nat, layers: seq<BlobInfo>, n: nat):
    (r: Option<(seq<Stream>, nat)>)
    requires n <= |layers|
    ensures r.Some? ==> |r.value.0| == n && forall i :: 0 <= i < n ==> V1DiffID(codec, r.value.0[i]).Some?
  {
    if n == 0 then Some(([], start))
    else
      match FetchV1(codec, replies, start, layers, n - 1)
      case None => None
      case Some((blobs, next)) =>
        var (got, used) := Retry(Answers(replies, layers[n - 1].digest, layers[n - 1].urls), next, MAX_DOCKER_RETRIES);
        if got.Some? && V1DiffID(codec, got.value.stream).Some? then Some((blobs + [got.value.stream], next + used))
        else None
  }

  /** Retrying gets the blob for the layer, with the attempts from one number up to another. */
  ghost predicate FetchedBetween(replies: nat -> Option<Offer>, layer: BlobInfo, blob: Stream, from: nat, to: nat) {
    var (got, used) := Retry(Answers(replies, layer.digest, layer.urls), from, MAX_DOCKER_RETRIES);
    got.Some? && got.value.stream == blob && to == from + used
  }

  /** `blobs[i]` is the one for layer i, with the attempts from `at[i]` up to `at[i + 1]`. */
  ghost predicate FetchedInOrder(replies: nat -> Option<Offer>, layers: seq<BlobInfo>, blobs: seq<Stream>,
                                 at: seq<nat>)
  {
    && |blobs| <= |layers| && |at| == |blobs| + 1
    && forall i :: 0 <= i < |blobs| ==> FetchedBetween(replies, layers[i], blobs[i], at[i], at[i + 1])
  }

  lemma {:induction false} FetchV1IsInOrder(codec: Codec, replies: nat -> Option<Offer>, start: nat,
                                            layers: seq<BlobInfo>, n: nat) returns (at: seq<nat>)
    requires n <= |layers| && FetchV1(codec, replies, start, layers, n).Some?
    ensures var (blobs, next) := FetchV1(codec, replies, start, layers, n).value;
            && FetchedInOrder(replies, layers, blobs, at)
            && |blobs| == n && at[0] == start && at[n] == next
  {
    hide Retry, Answers, V1DiffID;
    if n == 0 {
      at := [start];
    } else {
      var lower := FetchV1IsInOrder(codec, replies, start, layers, n - 1);
      var (blobs, next) := FetchV1(codec, replies, start, layers, n).value;
      at := lower + [next];
      assert FetchV1(codec, replies, start, layers, n - 1).value.0 == blobs[..n - 1];
      assert FetchedBetween(replies, layers[n - 1], blobs[n - 1], at[n - 1], at[n]);
      forall i | 0 <= i < n - 1
        ensures FetchedBetween(replies, layers[i], blobs[i], at[i], at[i + 1])
      {
        assert blobs[i] == blobs[..n - 1][i] && at[i] == lower[i] && at[i + 1] == lower[i + 1];
      }
    }
  }

  /** And the other way round: blobs fetched in order that all decompress are the ones. */
  lemma {:induction false} FetchedInOrderIsFetchV1(codec: Codec, replies: nat -> Option<Offer>, layers: seq<BlobInfo>,
                                                   blobs: seq<Stream>, at: seq<nat>, n: nat)
    requires n <= |blobs| && FetchedInOrder(replies, layers, blobs, at)
    requires forall i :: 0 <= i < |blobs| ==> V1DiffID(codec, blobs[i]).Some?
    ensures FetchV1(codec, replies, at[0], layers, n) == Some((blobs[..n], at[n]))
  {
    hide Retry, Answers, V1DiffID;
    if n > 0 {
      FetchedInOrderIsFetchV1(codec, replies, layers, blobs, at, n - 1);
      assert FetchedBetween(replies, layers[n - 1], blobs[n - 1], at[n - 1], at[n]);
      assert blobs[..n - 1] + [blobs[n - 1]] == blobs[..n];
    }
  }

  lemma NoV1DiffIDs(world: World)
    ensures V1DiffIDs(world, []) == []
  {
  }

  lemma V1DiffIDsSnoc(world: World, blobs: seq<Stream>, blob: Stream)
    requires forall i :: 0 <= i < |blobs| ==> V1DiffID(world.codec, blobs[i]).Some?
    requires V1DiffID(world.codec, blob).Some?
    ensures forall i :: 0 <= i < |blobs + [blob]| ==> V1DiffID(world.codec, (blobs + [blob])[i]).Some?
    ensures V1DiffIDs(world, blobs + [blob]) == V1DiffIDs(world, blobs) + [V1DiffID(world.codec, blob).value]
  {
    hide V1DiffID;
  }

  lemma {:induction false} FetchV1Stops(codec: Codec, replies: nat -> Option<Offer>, start: nat, layers: seq<BlobInfo>,
                                        i: nat, n: nat)
    requires i <= n <= |layers| && FetchV1(codec, replies, start, layers, i).None?
    ensures FetchV1(codec, replies, start, layers, n).None?
  {
    if i < n {
      FetchV1Stops(codec, replies, start, layers, i, n - 1);
    }
  }

  /** The image without schema 1: converted with the diffIDs of the blobs fetched from `up`. */
  ghost function Converted(world: World, original: Document, up: Upstream): Option<Document> {
    match original.schema1
    case None => None
    case Some(false) => Some(original)
    case Some(true) =>
      match FetchV1(world.codec, up.replies, up.next, original.layers, |original.layers|)
      case None => None
      case Some((blobs, _)) => world.converted(original, V1DiffIDs(world, blobs))
  }

  /** The image source there is once the image was got: the one there was, or the last one dialled. */
  ghost function SourceAfter(world: World, up: Option<Upstream>, run: ImageRun): Option<Upstream> {
    if up.Some? then up
    else if run.dials == 0 then None
    else match world.dial(run.dials - 1)
         case None => None
         case Some(replies) => Some(Upstream(replies, 0))
  }

  /** The manifest that comes of the image source there is, if any, and of the attempts from these
      numbers on to connect, to get the image and to get its configuration. */
  ghost function ManifestFrom(world: World, up: Option<Upstream>, dials: nat, imageTries: nat, configTries: nat):
    Option<Document>
  {
    var run := GetImage(world, up.Some?, dials, imageTries, MAX_DOCKER_RETRIES);
    if run.img.None? || Retry(world.configs, configTries, MAX_DOCKER_RETRIES).0.None? then None
    else
      var source := SourceAfter(world, up, run);
      if source.None? then None else Converted(world, run.img.value, source.value)
  }

  /** The same image source after a conversion. */
  ghost function AfterConversion(world: World, original: Document, up: Upstream): Upstream {
    if original.schema1 != Some(true) then up
    else
      match FetchV1(world.codec, up.replies, up.next, original.layers, |original.layers|)
      case None => up
      case Some((_, next)) => Upstream(up.replies, next)
  }

  /** There is a manifest exactly if the image is got, one of three requests for its configuration
      succeeds, and it is of another schema or all its blobs decompress and the library converts it. */
  lemma ManifestExactly(world: World, up: Option<Upstream>, dials: nat, imageTries: nat, configTries: nat)
    ensures var run := GetImage(world, up.Some?, dials, imageTries, MAX_DOCKER_RETRIES);
            var source := SourceAfter(world, up, run);
            ManifestFrom(world, up, dials, imageTries, configTries).Some? <==>
              && run.img.Some? && run.img.value.schema1.Some?
              && (|| world.configs(configTries).Some?
                  || world.configs(configTries + 1).Some?
                  || world.configs(configTries + 2).Some?)
              && (run.img.value.schema1.value ==>
                    && var layers := run.img.value.layers;
                    && var fetched := FetchV1(world.codec, source.value.replies, source.value.next, layers, |layers|);
                    && fetched.Some?
                    && world.converted(run.img.value, V1DiffIDs(world, fetched.value.0)).Some?)
    ensures var run := GetImage(world, up.Some?, dials, imageTries, MAX_DOCKER_RETRIES);
            run.img.Some? ==>
              && SourceAfter(world, up, run).Some?
              && (up.Some? ==> SourceAfter(world, up, run) == up)
              && (up.None? ==> world.dial(run.dials - 1) == Some(SourceAfter(world, up, run).value.replies)
                               && SourceAfter(world, up, run).value.next == 0)
  {
    hide FetchV1, V1DiffID, V1DiffIDs;
    RetryMeaning(world.configs, configTries, MAX_DOCKER_RETRIES);
    GetImageMeaning(world, up.Some?, dials, imageTries, MAX_DOCKER_RETRIES);
  }

  /** Whatever manifest that is: it is the conversion of the document that was got, with the diffIDs of
      blobs that were fetched. */
  lemma ManifestIsConverted(world: World, up: Option<Upstream>, dials: nat, imageTries: nat, configTries: nat)
    returns (original: Document, blobs: seq<Stream>, at: seq<nat>)
    requires ManifestFrom(world, up, dials, imageTries, configTries).Some?
    ensures Some(original) == GetImage(world, up.Some?, dials, imageTries, MAX_DOCKER_RETRIES).img
    ensures IsConversion(world, original, ManifestFrom(world, up, dials, imageTries, configTries).value, blobs)
    ensures original.schema1 == Some(true) ==>
              var source := SourceAfter(world, up, GetImage(world, up.Some?, dials, imageTries, MAX_DOCKER_RETRIES));
              && source.Some? && FetchedInOrder(source.value.replies, original.layers, blobs, at)
              && at[0] == source.value.next
  {
    hide GetImage, Retry, FetchV1, V1DiffID, V1DiffIDs;
    var run := GetImage(world, up.Some?, dials, imageTries, MAX_DOCKER_RETRIES);
    original, blobs, at := run.img.value, [], [];
    if original.schema1 == Some(true) {
      var source := SourceAfter(world, up, run).value;
      at := FetchV1IsInOrder(world.codec, source.replies, source.next, original.layers, |original.layers|);
      blobs := FetchV1(world.codec, source.replies, source.next, original.layers, |original.layers|).value.0;
    }
  }

  /** All that decides, beside the outside world, what a source makes of a layer: its image source if it
      has one, the attempts to connect so far, and the quota left. */
  datatype Supply = Supply(up: Option<Upstream>, dials: nat, remaining: int64)

  function SourceFor(world: World, s: Supply): Option<Upstream> {
    if s.up.Some? then s.up
    else match world.dial(s.dials)
         case None => None
         case Some(replies) => Some(Upstream(replies, 0))
  }

  /** What three attempts to fetch the layer's blob get. */
  function OfferFor(world: World, s: Supply, layer: LayerInfo): Option<Offer> {
    match SourceFor(world, s)
    case None => None
    case Some(up) => Retry(Answers(up.replies, layer.blobID, layer.urls), up.next, MAX_DOCKER_RETRIES).0
  }

  /** What becomes of the layer with working files. */
  function VerdictFor(world: World, policy: Policy, s: Supply, layer: LayerInfo): Verdict
    requires Affordable(policy, s.remaining)
  {
    if SourceFor(world, s).None? then Rejected(DialFailed)
    else
      match OfferFor(world, s, layer)
      case None => Rejected(FetchFailed)
      case Some(offer) => Judge(world.codec, policy, s.remaining, layer, offer.stream, offer.length)
  }

  function QuotaAfter(policy: Policy, s: Supply, verdict: Verdict): int64 {
    match verdict
    case Rejected(_) => s.remaining
    case Accepted(content) => Wrap64(s.remaining - |content|)
  }

  lemma VerdictFits(world: World, policy: Policy, s: Supply, layer: LayerInfo)
    requires Affordable(policy, s.remaining)
    ensures Affordable(policy, QuotaAfter(policy, s, VerdictFor(world, policy, s, layer)))
  {
    var verdict := VerdictFor(world, policy, s, layer);
    if verdict.Accepted? {
      var offer := OfferFor(world, s, layer).value;
      AcceptedExactly(world.codec, policy, s.remaining, layer, offer.stream, offer.length, verdict.content);
    }
  }

  /** And what is left for the next attempt. */
  function After(world: World, policy: Policy, s: Supply, layer: LayerInfo): (s': Supply)
    requires Affordable(policy, s.remaining)
    ensures Affordable(policy, s'.remaining)
  {
    VerdictFits(world, policy, s, layer);
    var dials := if s.up.Some? then s.dials else s.dials + 1;
    match SourceFor(world, s)
    case None => Supply(None, dials, s.remaining)
    case Some(up) =>
      var used := Retry(Answers(up.replies, layer.blobID, layer.urls), up.next, MAX_DOCKER_RETRIES).1;
      Supply(Some(up.(next := up.next + used)), dials, QuotaAfter(policy, s, VerdictFor(world, policy, s, layer)))
  }

  /** Step by step: connecting, fetching, judging. */
  lemma SupplyMeaning(world: World, policy: Policy, s: Supply, layer: LayerInfo)
    requires Affordable(policy, s.remaining)
    ensures SourceFor(world, s).Some? <==> s.up.Some? || world.dial(s.dials).Some?
    ensures s.up.Some? ==> SourceFor(world, s) == s.up
    ensures s.up.None? && SourceFor(world, s).Some? ==>
              world.dial(s.dials) == Some(SourceFor(world, s).value.replies) && SourceFor(world, s).value.next == 0
    ensures var dials := if s.up.Some? then s.dials else s.dials + 1;
            match SourceFor(world, s)
            case None =>
              && VerdictFor(world, policy, s, layer) == Rejected(DialFailed)
              && After(world, policy, s, layer) == Supply(None, dials, s.remaining)
            case Some(up) =>
              var (got, used) := Retry(Answers(up.replies, layer.blobID, layer.urls), up.next, MAX_DOCKER_RETRIES);
              && OfferFor(world, s, layer) == got
              && VerdictFor(world, policy, s, layer) ==
                 (if got.None? then Rejected(FetchFailed)
                  else Judge(world.codec, policy, s.remaining, layer, got.value.stream, got.value.length))
              && After(world, policy, s, layer) ==
                 Supply(Some(Upstream(up.replies, up.next + used)), dials,
                        QuotaAfter(policy, s, VerdictFor(world, policy, s, layer)))
  {
    hide Judge, Retry, Answers;
  }

  /** What is left for the layers once the manifest was got. */
  ghost function AfterManifest(world: World, s: Supply, imageTries: nat): Supply {
    var run := GetImage(world, s.up.Some?, s.dials, imageTries, MAX_DOCKER_RETRIES);
    var source := SourceAfter(world, s.up, run);
    Supply(if run.img.None? || source.None? then source
           else Some(AfterConversion(world, run.img.value, source.value)), run.dials, s.remaining)
  }

  class LayerSource {
    const world: World
    const policy: Policy
    const limit: int64
    const fs: FileSystem
    var imageSource: ImageSource?
    var remainingImageQuota: int64
    var dials: nat
    var imageTries: nat
    var configTries: nat
    /** Image sources ever created. */
    ghost var connected: nat
    /** The uncompressed sizes of the blobs delivered so far. */
    ghost var charged: seq<nat>

    ghost predicate Accounted()
      reads this
    {
      && remainingImageQuota == Wrap64(limit - Sum(charged))
      && (!policy.skipImageQuotaValidation && 0 <= limit ==>
            && remainingImageQuota == limit - Sum(charged)
            && 0 <= remainingImageQuota)
    }

    /** At most one image source was ever created, and it is the one in use. No blob stream is
        left open, and the quota is accounted for. */
    ghost predicate Valid()
      reads this, if imageSource == null then {} else {imageSource}
    {
      && Accounted()
      && connected == (if imageSource == null then 0 else 1)
      && (imageSource != null ==> imageSource.open == {} && imageSource.closes == 0)
    }

    /** The same at the end: the one image source, if there is one, was closed once. */
    ghost predicate Finished()
      reads this, if imageSource == null then {} else {imageSource}
    {
      && Accounted()
      && connected == (if imageSource == null then 0 else 1)
      && (imageSource != null ==> imageSource.open == {} && imageSource.closes == 1)
    }

    /** Under an enforced limit the delivered blobs and the remaining quota come to that limit. */
    lemma WithinLimit()
      requires Accounted() && !policy.skipImageQuotaValidation && 0 <= limit
      ensures remainingImageQuota == limit - Sum(charged)
      ensures 0 <= Sum(charged) <= limit
    {
      SumOfNats(charged);
    }

    /** How long the file being written may get: one byte more than what the blobs delivered so
        far leave of the limit. */
    ghost function Room(): (room: Option<nat>)
      requires Affordable(policy, remainingImageQuota) && Accounted()
      reads this
      ensures room.None? <==> policy.skipImageQuotaValidation
      ensures room.Some? && 0 <= limit ==> Sum(charged) + room.value == limit + 1
    {
      if policy.skipImageQuotaValidation then None else Some(remainingImageQuota + 1)
    }

    constructor (world: World, policy: Policy, diskLimit: int64, fs: FileSystem)
      ensures Valid() && this.world == world && this.policy == policy && limit == diskLimit && this.fs == fs
      ensures imageSource == null && remainingImageQuota == diskLimit && charged == []
      ensures dials == imageTries == configTries == 0
    {
      this.world, this.policy, limit, this.fs := world, policy, diskLimit, fs;
      imageSource, remainingImageQuota, dials, imageTries, configTries := null, diskLimit, 0, 0, 0;
      connected, charged := 0, [];
    }

    ghost function Footprint(): set<object>
      reads this
    {
      {this} + if imageSource == null then {} else {imageSource}
    }

    ghost function Now(): Supply
      reads Footprint(), this
    {
      Supply(if imageSource == null then None else Some(Upstream(imageSource.replies, imageSource.fetches)),
             dials, remainingImageQuota)
    }

    ghost function NextSource(): Option<Upstream>
      reads Footprint(), this
    {
      SourceFor(world, Now())
    }

    ghost function NextOffer(layer: LayerInfo): Option<Offer>
      reads Footprint(), this
    {
      OfferFor(world, Now(), layer)
    }

    /** The length that comes with it. */
    ghost function NextLength(layer: LayerInfo): (length: Option<int64>)
      reads Footprint(), this
      ensures length.None? <==> NextOffer(layer).None?
      ensures length.Some? ==> NextOffer(layer) == Some(NextOffer(layer).value.(length := length.value))
    {
      if NextOffer(layer).None? then None else Some(NextOffer(layer).value.length)
    }

    /** What becomes of a layer, according to what the outside world is about to answer. */
    ghost function Expected(layer: LayerInfo): Verdict
      requires Affordable(policy, remainingImageQuota)
      reads Footprint(), this
    {
      VerdictFor(world, policy, Now(), layer)
    }

    /** What is left for the next attempt, then. */
    ghost function Next(layer: LayerInfo): Supply
      requires Affordable(policy, remainingImageQuota)
      reads Footprint(), this
    {
      After(world, policy, Now(), layer)
    }

    /** What is delivered is what the layer's digests describe. */
    lemma ExpectedIsVouchedFor(layer: LayerInfo)
      requires Affordable(policy, remainingImageQuota)
      ensures Expected(layer).Accepted? ==> Vouched(world.codec, policy, layer, Expected(layer).content)
    {
      if Expected(layer).Accepted? {
        var offer := NextOffer(layer).value;
        AcceptedIsVerified(world.codec, policy, remainingImageQuota, layer, offer.stream, offer.length);
      }
    }

    /** Only a layer that is fetched by URL can panic, as digests are checked on the other way. */
    lemma PanicNeedsURLs(layer: LayerInfo)
      requires Affordable(policy, remainingImageQuota) && Expected(layer) == Rejected(Panic)
      ensures ':' !in layer.blobID && layer.urls != []
    {
      hide Judge;
      var up := NextSource().value;
      var answers := Answers(up.replies, layer.blobID, layer.urls);
      RetryMeaning(answers, up.next, MAX_DOCKER_RETRIES);
      var offer := NextOffer(layer).value;
      PanicsExactly(world.codec, policy, remainingImageQuota, layer, offer.stream, offer.length);
    }

    /** And every such layer does, once it is served and fits. */
    lemma PanicIsReachable(layer: LayerInfo, offer: Offer)
      requires Affordable(policy, remainingImageQuota)
      requires NextSource().Some? && NextSource().value.replies(NextSource().value.next) == Some(offer)
      requires layer.urls != [] && ':' !in layer.blobID && '/' !in layer.blobID
      requires SizeValid(policy, layer, offer.length)
      requires !WantsGunzip(layer.mediaType) && offer.stream.end.Eof?
      requires policy.skipImageQuotaValidation || |offer.stream.data| <= remainingImageQuota
      ensures Expected(layer) == Rejected(Panic)
    {
      hide Judge, Contains;
      PanicsExactly(world.codec, policy, remainingImageQuota, layer, offer.stream, offer.length);
    }

    /** The reasons for which a layer is rejected: none of them is about writing or reading a file. */
    lemma ReasonsToReject(layer: LayerInfo)
      requires Affordable(policy, remainingImageQuota) && Expected(layer).Rejected?
      ensures Expected(layer).error in {DialFailed, FetchFailed, SizeMismatch, TempFileFailed, NotGzip, StreamFailed,
                                        BlobExceedsQuota, Panic, BlobDigestMismatch, DiffDigestMismatch}
    {
      hide Contains, IndexOf, Retry;
    }

    method GetImageSource() returns (source: ImageSource?, err: Option<Error>)
      requires Valid()
      modifies this`imageSource, this`dials, this`connected
      ensures Valid()
      ensures source != null <==> err.None?
      ensures source == imageSource
      ensures err.Some? ==> err == Some(DialFailed)
      ensures old(imageSource) != null ==> imageSource == old(imageSource)
      ensures dials == old(dials) + if old(imageSource) == null then 1 else 0
      ensures old(imageSource) == null && imageSource != null ==> fresh(imageSource)
      ensures source != null <==> old(NextSource()).Some?
      ensures source != null ==> Some(Upstream(source.replies, source.fetches)) == old(NextSource())
    {
      if imageSource == null {
        var reply := world.dial(dials);
        dials := dials + 1;
        if reply.None? {
          return null, Some(DialFailed);
        }
        imageSource := new ImageSource(reply.value);
        connected := connected + 1;
      }
      return imageSource, None;
    }

    /** Up to three attempts; the result is the first success or the last error, never neither. */
    method GetBlobWithRetries(source: ImageSource, digest: string, urls: seq<string>)
      returns (blob: BlobStream?, length: int64, err: Option<Error>)
      modifies source`fetches, source`open
      ensures var (got, used) := Retry(Answers(source.replies, digest, urls), old(source.fetches), MAX_DOCKER_RETRIES);
              && source.fetches == old(source.fetches) + used
              && (blob != null <==> got.Some?)
              && (blob != null ==> got == Some(Offer(blob.Rest(), blob.pace, length)))
      ensures blob != null <==> err.None?
      ensures err.Some? ==> err == Some(FetchFailed)
      ensures blob == null ==> source.open == old(source.open)
      ensures blob != null ==> fresh(blob) && blob.origin == source && !blob.closed
      ensures blob != null ==> source.open == old(source.open) + {blob}
    {
      blob, length, err := null, 0, None;
      ghost var start := source.fetches;
      ghost var answers := Answers(source.replies, digest, urls);
      for i := 0 to MAX_DOCKER_RETRIES
        invariant source.fetches == start + i && source.open == old(source.open)
        invariant Retry(answers, start, MAX_DOCKER_RETRIES) ==
                  var (got, used) := Retry(answers, start + i, MAX_DOCKER_RETRIES - i); (got, used + i)
        invariant blob == null && (i > 0 ==> err == Some(FetchFailed))
      {
        var b, size := source.GetBlob(digest, urls);
        if b != null {
          return b, size, None;
        }
        err := Some(FetchFailed);
      }
    }

    /** Stacks the readers over the blob stream: tee into the blob hash, and gunzip if the media
        type asks for it. */
    method DigestReader(blob: BlobStream, layer: LayerInfo) returns (tee: TeeReader, reader: Option<ReadCloser>)
      requires !blob.closed
      ensures tee.inner == Network(blob) && tee.whole == blob.Rest()
      ensures reader.None? <==> Decoded(world.codec, layer, blob.Rest()).None?
      ensures reader.Some? ==>
                && Readers.Valid(reader.value) && Above(reader.value, tee)
                && fresh(Repr(reader.value) - {blob})
                && Rest(reader.value) == Decoded(world.codec, layer, blob.Rest()).value
    {
      hide Fuel, Drained, Contains;
      var blobIDHash := new Hash();
      tee := new TeeReader(Network(blob), blobIDHash);
      if !WantsGunzip(layer.mediaType) {
        return tee, Some(Teed(tee));
      }
      var decoded := world.codec.gunzip(Rest(Teed(tee)));
      if decoded.None? {
        return tee, None;
      }
      var gzip := new GzipReader(Teed(tee), decoded.value, blob.pace.gzipTicks, blob.pace.gzipPulls, world.bufferSize);
      reader := Some(Unzipped(gzip));
    }

    /** The tee is right above a reader that meters this stream by the remaining quota, if that is
        enforced. */
    ghost predicate Metering(tee: TeeReader, quotaed: QuotaedReader?, decoded: Stream)
      reads this`remainingImageQuota
    {
      !policy.skipImageQuotaValidation ==>
        && quotaed != null && tee.inner == Metered(quotaed)
        && quotaed.quota == remainingImageQuota && quotaed.whole == decoded
    }

    /** Adds the quota if it is enforced, and the tee into the diffID hash. */
    method DiffReader(digestReader: ReadCloser, ghost blobTee: TeeReader)
      returns (tee: TeeReader, ghost quotaed: QuotaedReader?)
      requires Readers.Valid(digestReader) && Above(digestReader, blobTee)
      requires Affordable(policy, remainingImageQuota)
      ensures Readers.Valid(Teed(tee)) && Above(Teed(tee), blobTee)
      ensures fresh(Repr(Teed(tee)) - Repr(digestReader))
      ensures Rest(Teed(tee)) == tee.whole == Limited(policy, remainingImageQuota, Rest(digestReader))
      ensures Metering(tee, quotaed, Rest(digestReader))
    {
      hide Fuel, Drained, Cut;
      var reader := digestReader;
      quotaed := null;
      if !policy.skipImageQuotaValidation {
        var quotaedReader := new QuotaedReader(reader, remainingImageQuota);
        reader, quotaed := Metered(quotaedReader), quotaedReader;
      }
      var diffIDHash := new Hash();
      tee := new TeeReader(reader, diffIDHash);
    }

    twostate predicate Stacks(new top: TeeReader, new blobTee: TeeReader, blob: BlobStream)
      reads Repr(Teed(top))
    {
      && Readers.Valid(Teed(top)) && Above(Teed(top), blobTee)
      && fresh(Repr(Teed(top)) - {blob})
      && Rest(Teed(top)) == top.whole
    }

    /** The whole stack for a blob, unless it is not gzip as it should be. */
    method ReaderFor(blob: BlobStream, layer: LayerInfo)
      returns (blobTee: TeeReader, diffTee: Option<TeeReader>, ghost quotaed: QuotaedReader?)
      requires !blob.closed && Affordable(policy, remainingImageQuota)
      ensures blobTee.inner == Network(blob) && blobTee.whole == blob.Rest()
      ensures match Decoded(world.codec, layer, blob.Rest())
              case None => diffTee.None?
              case Some(decoded) => diffTee.Some? && Stacks(diffTee.value, blobTee, blob)
                                    && diffTee.value.whole == Limited(policy, remainingImageQuota, decoded)
                                    && Metering(diffTee.value, quotaed, decoded)
    {
      var reader;
      blobTee, reader := DigestReader(blob, layer);
      if reader.None? {
        return blobTee, None, null;
      }
      var tee;
      tee, quotaed := DiffReader(reader.value, blobTee);
      diffTee := Some(tee);
    }

    /** What lands in the temporary file, and what the two hashes have seen at the end. */
    method StreamToFile(fd: nat, blob: BlobStream, blobTee: TeeReader, diffTee: TeeReader, ghost room: Option<nat>)
      returns (uncompressedSize: int64, err: Option<Error>)
      requires Readers.Valid(Teed(diffTee)) && Above(Teed(diffTee), blobTee) && blobTee.inner == Network(blob)
      requires room.Some? ==> |diffTee.whole.data| <= room.value
      requires Rest(Teed(diffTee)) == diffTee.whole && fs !in Repr(Teed(diffTee))
      requires AtEnd(fs, fd) && fs.files[fs.fds[fd].name] == []
      modifies Repr(Teed(diffTee)), fs`clock, fs`files, fs`fds, fs`mishaps
      ensures !blob.closed && fs.Valid() && fs.mishaps >= old(fs.mishaps)
      ensures var name, s := old(fs.fds[fd].name), diffTee.whole;
              && name in fs.files
              && var put := fs.files[name];
              && fs.files == old(fs.files)[name := put]
              && fs.fds == old(fs.fds)[fd := Descriptor(name, |put|)]
              && uncompressedSize == Wrap64(|put|)
              && put <= s.data
              && (err != Some(WriteFailed) ==> put == s.data && err == Reported(s.end))
              && (err.None? ==> blobTee.hash.written == blobTee.whole.data && diffTee.hash.written == put)
      ensures fs.mishaps > old(fs.mishaps) <==> err == Some(WriteFailed)
      ensures Readers.Valid(Teed(diffTee)) && (err != Some(WriteFailed) ==> Rest(Teed(diffTee)).data == [])
    {
      var buffer := new char[world.bufferSize];
      uncompressedSize, err := Copy(fs, fd, Teed(diffTee), buffer, room);
      TeeSawAll(Teed(diffTee), blobTee);
      if err.None? {
        TeeAtEnd(diffTee);
      }
    }

    /** Streams the blob into the temporary file behind `fd`, which never outgrows `room`. A quota
        reader, if there is one, ends with what the layer leaves of the quota, or with -1. */
    method StreamLayer(fd: nat, blob: BlobStream, layer: LayerInfo, ghost room: Option<nat>)
      returns (uncompressedSize: int64, blobIDHash: Hash, diffIDHash: Hash, err: Option<Error>,
               ghost quotaed: QuotaedReader?)
      requires Affordable(policy, remainingImageQuota)
      requires room == if policy.skipImageQuotaValidation then None else Some(remainingImageQuota + 1)
      requires !blob.closed && AtEnd(fs, fd) && fs.files[fs.fds[fd].name] == []
      modifies blob, fs`clock, fs`files, fs`fds, fs`mishaps
      ensures !blob.closed && fs.Valid() && fs.mishaps >= old(fs.mishaps)
      ensures var name := old(fs.fds[fd].name);
              && name in fs.files
              && var put := fs.files[name];
              && fs.files == old(fs.files)[name := put]
              && fs.fds == old(fs.fds)[fd := Descriptor(name, |put|)]
              && uncompressedSize == Wrap64(|put|)
              && (err.None? ==> blobIDHash.written == old(blob.rest) && diffIDHash.written == put)
              && match old(Decoded(world.codec, layer, blob.Rest()))
                 case None => err == Some(NotGzip) && put == []
                 case Some(decoded) =>
                   var s := Limited(policy, remainingImageQuota, decoded);
                   && put <= s.data
                   && (err != Some(WriteFailed) ==> put == s.data && err == Reported(s.end))
                   && (!policy.skipImageQuotaValidation ==>
                         && quotaed != null && quotaed.quota == remainingImageQuota && quotaed.whole == decoded
                         && (err != Some(WriteFailed) ==> Settled(quotaed)))
      ensures fs.mishaps > old(fs.mishaps) <==> err == Some(WriteFailed)
    {
      var blobTee, diffTee;
      blobTee, diffTee, quotaed := ReaderFor(blob, layer);
      if diffTee.None? {
        return 0, blobTee.hash, blobTee.hash, Some(NotGzip), null;
      }
      uncompressedSize, err := StreamToFile(fd, blob, blobTee, diffTee.value, room);
      if !policy.skipImageQuotaValidation && err != Some(WriteFailed) {
        QuotaAtEnd(quotaed);
      }
      blobIDHash, diffIDHash := blobTee.hash, diffTee.value.hash;
    }

    method Charge(uncompressedSize: int64, ghost put: string)
      requires Accounted() && uncompressedSize == Wrap64(|put|)
      requires !policy.skipImageQuotaValidation ==> |put| <= remainingImageQuota
      modifies this`remainingImageQuota, this`charged
      ensures Accounted() && Affordable(policy, remainingImageQuota) && charged == old(charged) + [|put|]
      ensures remainingImageQuota == Wrap64(old(remainingImageQuota) - |put|)
    {
      SumSnoc(charged, |put|);
      WrapSub(remainingImageQuota, |put|);
      WrapAdd(limit - Sum(charged), -|put|);
      remainingImageQuota := Wrap64(remainingImageQuota - uncompressedSize);
      charged := charged + [|put|];
    }

    method CheckCheckSum(hash: Hash, digest: string) returns (ok: bool)
      ensures ok <==> ChecksumValid(policy, world.codec.hash(hash.written), digest)
    {
      if policy.skipOCILayerValidation && policy.scheme == "oci" {
        return true;
      }
      var blobContentsSha := world.codec.hash(hash.written);
      return digest == blobContentsSha;
    }

    method CheckDigests(layer: LayerInfo, blobIDHash: Hash, diffIDHash: Hash) returns (err: Option<Error>)
      ensures err == Failure(JudgeDigests(world.codec, policy, layer, blobIDHash.written, diffIDHash.written))
    {
      var blobIDHex := SecondField(layer.blobID);
      if blobIDHex.None? {
        return Some(Panic);
      }
      var ok := CheckCheckSum(blobIDHash, blobIDHex.value);
      if !ok {
        return Some(BlobDigestMismatch);
      }
      ok := CheckCheckSum(diffIDHash, layer.diffID);
      return if ok then None else Some(DiffDigestMismatch);
    }

    /** Fills the temporary file behind `fd` and checks both digests. */
    method FillTempFile(fd: nat, blob: BlobStream, layer: LayerInfo)
      returns (uncompressedSize: int64, err: Option<Error>)
      requires Affordable(policy, remainingImageQuota) && Accounted()
      requires !blob.closed && AtEnd(fs, fd) && fs.files[fs.fds[fd].name] == []
      modifies blob, fs`clock, fs`files, fs`fds, fs`mishaps
      ensures !blob.closed && fs.Valid() && fs.mishaps >= old(fs.mishaps)
      ensures var name, verdict := old(fs.fds[fd].name),
                old(JudgeContent(world.codec, policy, remainingImageQuota, layer, blob.Rest()));
              && name in fs.files
              && var put := fs.files[name];
              && fs.files == old(fs.files)[name := put]
              && fs.fds == old(fs.fds)[fd := Descriptor(name, |put|)]
              && uncompressedSize == Wrap64(|put|)
              && (err == Failure(verdict) || err == Some(WriteFailed))
              && (err.None? ==> verdict == Accepted(put))
              && (!policy.skipImageQuotaValidation ==>
                    |put| <= remainingImageQuota + if err.None? then 0 else 1)
      ensures fs.mishaps > old(fs.mishaps) <==> err == Some(WriteFailed)
    {
      var blobIDHash, diffIDHash;
      ghost var quotaed;
      uncompressedSize, blobIDHash, diffIDHash, err, quotaed := StreamLayer(fd, blob, layer, Room());
      if err.None? {
        err := CheckDigests(layer, blobIDHash, diffIDHash);
      }
    }

    /** The deferred cleanup: closes the temporary file, and removes it after an error. When a
        panic unwinds there is no error to see. */
    method CleanUp(fd: nat, name: string, err: Option<Error>)
      requires fs.Valid() && fd in fs.fds && fs.fds[fd].name == name && name !in fs.lost
      requires forall other :: other in fs.fds && other != fd ==> fs.fds[other].name != name
      modifies fs
      ensures fs.Valid() && fs.mishaps >= old(fs.mishaps) && fs.fds == old(fs.fds) - {fd}
      ensures fs.denials == old(fs.denials)
      ensures fs.mishaps == old(fs.mishaps) <==> fs.refusals == old(fs.refusals)
      ensures err.None? || err == Some(Panic) ==> fs.mishaps == old(fs.mishaps)
      ensures err.None? ==> fs.files == old(fs.files) && fs.lost == old(fs.lost)
      ensures err == Some(Panic) ==> fs.files == old(fs.files) && fs.lost == old(fs.lost)[name := PanicUnwound]
      ensures err.Some? && err != Some(Panic) ==>
                if fs.refusals == old(fs.refusals) then fs.files == old(fs.files) - {name} && fs.lost == old(fs.lost)
                else fs.files == old(fs.files) && fs.lost == old(fs.lost)[name := RemoveDenied]
    {
      fs.Close(fd);
      if err == Some(Panic) {
        fs.Lose(name, PanicUnwound);
      } else if err.Some? {
        var _ := fs.Remove(name);
      }
    }

    twostate predicate Charged(content: string)
      reads this
    {
      && charged == old(charged) + [|content|]
      && remainingImageQuota == Wrap64(old(remainingImageQuota) - |content|)
    }

    /** A new file holds the content, nothing else happened to the files, and the content is
        charged to the quota. */
    twostate predicate Kept(name: string, content: string)
      reads this, fs
    {
      && name !in old(fs.files)
      && fs.files == old(fs.files)[name := content]
      && fs.lost == old(fs.lost)
      && Charged(content)
    }

    /** Why the temporary file stays behind after an error, if it does. */
    twostate function Leak(error: Error): Option<Loss>
      reads fs
    {
      if error == Panic then Some(PanicUnwound)
      else if fs.refusals != old(fs.refusals) then Some(RemoveDenied)
      else None
    }

    /** Nothing is charged, and something is left of the attempt exactly if removing its file failed
        or a panic skipped that. */
    twostate predicate Undone(error: Error)
      reads this, fs
    {
      && charged == old(charged) && remainingImageQuota == old(remainingImageQuota)
      && LeftBehind(old(fs.files), old(fs.lost), fs.files, fs.lost, Leak(error))
      && (fs.mishaps == old(fs.mishaps) ==> fs.refusals == old(fs.refusals))
    }

    twostate lemma UndoneLeaves(error: Error)
      requires Undone(error)
      ensures OnlyLostAdded(old(fs.files), old(fs.lost), fs.files, fs.lost, {})
      ensures fs.mishaps == old(fs.mishaps) && error != Panic ==> fs.lost == old(fs.lost)
    {
    }

    /** An error is the verdict's, or that of a failing operation on the temporary file; success means
        that none failed. */
    static ghost predicate Explained(err: Option<Error>, verdict: Verdict, mishap: bool) {
      || (err == Failure(verdict) && (err.None? ==> !mishap))
      || (mishap && (err == Some(TempFileFailed) || err == Some(WriteFailed)))
    }

    /** From the fresh temporary file behind `fd` to its cleanup. */
    method UseTempFile(fd: nat, blob: BlobStream, layer: LayerInfo) returns (err: Option<Error>)
      requires Accounted() && Affordable(policy, remainingImageQuota)
      requires !blob.closed && AtEnd(fs, fd)
      requires fs.files[fs.fds[fd].name] == [] && fs.fds[fd].name !in fs.lost
      requires forall other :: other in fs.fds && other != fd ==> fs.fds[other].name != fs.fds[fd].name
      modifies this`remainingImageQuota, this`charged, blob, fs
      ensures Accounted() && Affordable(policy, remainingImageQuota)
      ensures !blob.closed && fs.Valid() && fs.mishaps >= old(fs.mishaps)
      ensures fs.fds == old(fs.fds) - {fd} && fs.denials == old(fs.denials)
      ensures var name, verdict := old(fs.fds[fd].name),
                old(JudgeContent(world.codec, policy, remainingImageQuota, layer, blob.Rest()));
              && Explained(err, verdict, fs.mishaps > old(fs.mishaps))
              && match err
                 case None =>
                   && fs.files == old(fs.files)[name := verdict.content] && fs.lost == old(fs.lost)
                   && Charged(verdict.content)
                 case Some(error) => TempLeft(old(fs.files), old(fs.lost), fs.files, fs.lost, name, Leak(error))
      ensures fs.mishaps == old(fs.mishaps) ==> fs.refusals == old(fs.refusals)
      ensures err.Some? ==> charged == old(charged) && remainingImageQuota == old(remainingImageQuota)
    {
      hide JudgeContent, Judge, Wrap64, LayerSource.Accounted;
      var name := fs.fds[fd].name;
      var uncompressedSize;
      uncompressedSize, err := FillTempFile(fd, blob, layer);
      if err.None? {
        Charge(uncompressedSize, fs.files[name]);
      }
      CleanUp(fd, name, err);
    }

    /** The temporary file of a blob from creation to cleanup. */
    method KeepBlob(blob: BlobStream, layer: LayerInfo, length: int64) returns (name: string, err: Option<Error>)
      requires Accounted() && Affordable(policy, remainingImageQuota)
      requires !blob.closed && fs.Valid()
      modifies this`remainingImageQuota, this`charged, blob, fs
      ensures Accounted() && Affordable(policy, remainingImageQuota)
      ensures !blob.closed && fs.Valid() && fs.mishaps >= old(fs.mishaps)
      ensures fs.fds == old(fs.fds) && fs.denials == old(fs.denials)
      ensures var verdict := old(Judge(world.codec, policy, remainingImageQuota, layer, blob.Rest(), length));
              && Explained(err, verdict, fs.mishaps > old(fs.mishaps))
              && (err.None? ==> Kept(name, verdict.content) && "blob-" + Dashed(layer.blobID) <= name)
      ensures err.Some? ==> Undone(err.value)
    {
      hide JudgeContent, Wrap64, Contains, TempLeft, LeftBehind, LayerSource.Accounted;
      NothingLeftBehind(fs.files, fs.lost);
      if !SizeValid(policy, layer, length) {
        return "", Some(SizeMismatch);
      }
      var fd;
      fd, name := fs.CreateTemp("blob-" + Dashed(layer.blobID));
      if fd.None? {
        return "", Some(TempFileFailed);
      }
      ghost var files, fds, lost := old(fs.files), old(fs.fds), old(fs.lost);
      err := UseTempFile(fd.value, blob, layer);
      UpdateRemove(fds, fd.value, Descriptor(name, 0));
      if err.Some? {
        TempLeftBehind(files, lost, fs.files, fs.lost, name, Leak(err.value));
        name := "";
      } else {
        UpdateTwice(files, name, [], fs.files[name]);
      }
    }

    /** Delivers a layer's verified content as a new file, or fails and leaves things as they
        were. It succeeds exactly when the outside world's answers make the layer acceptable,
        operations on files permitting. */
    method Blob(layer: LayerInfo) returns (name: string, size: int64, err: Option<Error>)
      requires Valid() && fs.Valid() && Affordable(policy, remainingImageQuota)
      modifies Footprint(), fs
      ensures Valid() && Affordable(policy, remainingImageQuota)
      ensures fs.Valid() && fs.mishaps >= old(fs.mishaps)
      ensures fresh(Footprint() - old(Footprint())) && old(Footprint()) <= Footprint()
      ensures fs.fds == old(fs.fds) && fs.denials == old(fs.denials)
      ensures var verdict := old(Expected(layer));
              && Explained(err, verdict, fs.mishaps > old(fs.mishaps))
              && (err.None? ==> Kept(name, verdict.content) && old(NextLength(layer)) == Some(size))
              && (err.None? ==> "blob-" + Dashed(layer.blobID) <= name)
      ensures err.Some? ==> Undone(err.value) && size == 0
      ensures fs.mishaps == old(fs.mishaps) ==> Now() == old(Next(layer))
    {
      hide Judge, Sum, Wrap64, Retry, Answers, SourceFor, OfferFor, VerdictFor, After;
      hide LeftBehind, LayerSource.Accounted;
      SupplyMeaning(world, policy, Now(), layer);
      NothingLeftBehind(fs.files, fs.lost);
      name, size := "", 0;
      var source;
      source, err := GetImageSource();
      if err.Some? {
        return;
      }
      var blob, length;
      blob, length, err := GetBlobWithRetries(source, layer.blobID, layer.urls);
      if err.Some? {
        return;
      }
      name, err := KeepBlob(blob, layer, length);
      blob.Close();
      if err.None? {
        size := length;
      }
    }

    method Close()
      requires Valid()
      modifies Footprint() - {this}
      ensures Finished()
    {
      if imageSource != null {
        imageSource.Close();
      }
    }

    /** At most three attempts to get the image, each connecting first if there is no image
        source yet; an image or the error of the last attempt, never neither. */
    method GetImageWithRetries() returns (img: Option<Document>, err: Option<Error>)
      requires Valid()
      modifies this`imageSource, this`dials, this`connected, this`imageTries
      ensures Valid()
      ensures old(imageSource) != null ==> imageSource == old(imageSource)
      ensures old(imageSource) == null && imageSource != null ==> fresh(imageSource)
      ensures old(imageSource) == null && imageSource != null ==>
                dials > 0 && world.dial(dials - 1) == Some(imageSource.replies) && imageSource.fetches == 0
      ensures err == if img.Some? then None else Some(if imageSource == null then DialFailed else ImageFailed)
      ensures ImageRun(img, imageSource != null, dials, imageTries) ==
              old(GetImage(world, imageSource != null, dials, imageTries, MAX_DOCKER_RETRIES))
    {
      hide Sum, Wrap64;
      img, err := None, None;
      ghost var run := GetImage(world, imageSource != null, dials, imageTries, MAX_DOCKER_RETRIES);
      for i := 0 to MAX_DOCKER_RETRIES
        invariant Valid() && img.None?
        invariant i > 0 ==> err == Some(if imageSource == null then DialFailed else ImageFailed)
        invariant old(imageSource) != null ==> imageSource == old(imageSource)
        invariant old(imageSource) == null && imageSource != null ==>
                    && fresh(imageSource) && dials > 0
                    && world.dial(dials - 1) == Some(imageSource.replies) && imageSource.fetches == 0
        invariant run == GetImage(world, imageSource != null, dials, imageTries, MAX_DOCKER_RETRIES - i)
      {
        var source;
        source, err := GetImageSource();
        if err.None? {
          img := world.images(imageTries);
          imageTries := imageTries + 1;
          if img.Some? {
            return;
          }
          err := Some(ImageFailed);
        }
      }
    }

    /** The diffID of a schema 1 layer: its blob fetched, decompressed and hashed in one go. */
    method V1LayerDiffID(layer: BlobInfo, source: ImageSource)
      returns (diffID: string, err: Option<Error>, ghost raw: Stream)
      requires source.open == {}
      modifies source`fetches, source`open
      ensures source.open == {} && err != Some(Panic)
      ensures var (got, used) :=
                old(Retry(Answers(source.replies, layer.digest, layer.urls), source.fetches, MAX_DOCKER_RETRIES));
              && source.fetches == old(source.fetches) + used
              && (err.None? <==> got.Some? && V1DiffID(world.codec, got.value.stream).Some?)
              && (err.None? ==> raw == got.value.stream && V1DiffID(world.codec, raw) == Some(diffID))
              && (err.None? ==> diffID == "sha256:" + world.codec.hash(world.codec.gunzip(raw).value.data))
    {
      diffID, raw := "", Stream([], Eof);
      var blob, length;
      blob, length, err := GetBlobWithRetries(source, layer.digest, layer.urls);
      if err.Some? {
        return;
      }
      raw := blob.Rest();
      var decoded := world.codec.gunzip(blob.Rest());
      if decoded.None? {
        err := Some(NotGzip);
      } else {
        var gzip := new GzipReader(Network(blob), decoded.value, blob.pace.gzipTicks, blob.pace.gzipPulls,
                                   world.bufferSize);
        var buffer := new char[world.bufferSize];
        var data;
        data, err := ReadAll(Unzipped(gzip), buffer);
        diffID := NewDigest(world.codec.hash(data));
        assert Readers.Valid(Unzipped(gzip)) && gzip.inner == Network(blob);
      }
      blob.Close();
    }

    /** The diffIDs of all layers in order, or the first error. */
    method CollectDiffIDs(layers: seq<BlobInfo>, source: ImageSource)
      returns (diffIDs: seq<string>, err: Option<Error>, ghost blobs: seq<Stream>)
      requires source.open == {}
      modifies source`fetches, source`open
      ensures source.open == {} && err != Some(Panic)
      ensures match old(FetchV1(world.codec, source.replies, source.fetches, layers, |layers|))
              case None => err.Some?
              case Some((raw, next)) =>
                err.None? && blobs == raw && diffIDs == V1DiffIDs(world, raw) && source.fetches == next
    {
      hide Retry, V1DiffID, V1DiffIDs, Answers;
      ghost var start := source.fetches;
      diffIDs, err, blobs := [], None, [];
      NoV1DiffIDs(world);
      for i := 0 to |layers|
        invariant source.open == {} && err.None?
        invariant FetchV1(world.codec, source.replies, start, layers, i) == Some((blobs, source.fetches))
        invariant diffIDs == V1DiffIDs(world, blobs)
      {
        var diffID;
        ghost var raw;
        diffID, err, raw := V1LayerDiffID(layers[i], source);
        if err.Some? {
          FetchV1Stops(world.codec, source.replies, start, layers, i + 1, |layers|);
          return;
        }
        V1DiffIDsSnoc(world, blobs, raw);
        diffIDs, blobs := diffIDs + [diffID], blobs + [raw];
      }
    }

    /** Schema 1 is converted exactly if every layer's blob can be fetched and decompressed and the
        library accepts the diffIDs; other schemas pass unchanged. */
    method ConvertImage(original: Document)
      returns (img: Option<Document>, err: Option<Error>, ghost blobs: seq<Stream>, ghost at: seq<nat>)
      requires Valid()
      modifies Footprint()
      ensures Valid() && fresh(Footprint() - old(Footprint())) && old(Footprint()) <= Footprint()
      ensures charged == old(charged) && remainingImageQuota == old(remainingImageQuota)
      ensures configTries == old(configTries)
      ensures (img.Some? <==> err.None?) && err != Some(Panic)
      ensures img.Some? ==> IsConversion(world, original, img.value, blobs)
      ensures img.Some? && original.schema1 == Some(true) ==>
                var source := old(NextSource());
                && source.Some? && FetchedInOrder(source.value.replies, original.layers, blobs, at)
                && at[0] == source.value.next
      ensures old(NextSource()).Some? ==> img == Converted(world, original, old(NextSource()).value)
      ensures img.Some? && old(imageSource) != null ==>
                Now() == Supply(Some(AfterConversion(world, original, old(NextSource()).value)), old(dials),
                                old(remainingImageQuota))
      ensures original.schema1 == Some(true) && old(NextSource()).None? ==> err == Some(DialFailed)
    {
      hide Sum, Wrap64, Retry, V1DiffID;
      img, blobs, at := None, [], [];
      if original.schema1.None? {
        return None, Some(ManifestFailed), [], [];
      }
      if !original.schema1.value {
        return Some(original), None, [], [];
      }
      var source;
      source, err := GetImageSource();
      if err.Some? {
        return;
      }
      ghost var start := source.fetches;
      var diffIDs;
      diffIDs, err, blobs := CollectDiffIDs(original.layers, source);
      if err.Some? {
        return;
      }
      at := FetchV1IsInOrder(world.codec, source.replies, start, original.layers, |original.layers|);
      img := world.converted(original, diffIDs);
      err := if img.None? then Some(ConvertFailed) else None;
    }

    method GetConfigWithRetries() returns (err: Option<Error>)
      modifies this`configTries
      ensures var (got, used) := Retry(world.configs, old(configTries), MAX_DOCKER_RETRIES);
              (err.None? <==> got.Some?) && err != Some(Panic) && configTries == old(configTries) + used
      ensures err.None? <==> world.configs(old(configTries)).Some? || world.configs(old(configTries) + 1).Some?
                             || world.configs(old(configTries) + 2).Some?
    {
      RetryMeaning(world.configs, configTries, MAX_DOCKER_RETRIES);
      ghost var start := configTries;
      err := None;
      for i := 0 to MAX_DOCKER_RETRIES
        invariant configTries == start + i && (i > 0 ==> err.Some?) && err != Some(Panic)
        invariant Retry(world.configs, start, MAX_DOCKER_RETRIES) ==
                  var (got, used) := Retry(world.configs, start + i, MAX_DOCKER_RETRIES - i); (got, used + i)
      {
        var config := world.configs(configTries);
        configTries := configTries + 1;
        if config.Some? {
          return None;
        }
        err := Some(ConfigFailed);
      }
    }

    /** The manifest that the outside world's answers are about to amount to. */
    ghost function NextManifest(): Option<Document>
      reads Footprint(), this
    {
      ManifestFrom(world, Now().up, dials, imageTries, configTries)
    }

    /** The supply that there will be for the layers, then. */
    ghost function ForLayers(): Supply
      reads Footprint(), this
    {
      AfterManifest(world, Now(), imageTries)
    }

    /** The image's manifest, schema 1 converted, once its configuration can be fetched. */
    method Manifest()
      returns (img: Option<Document>, err: Option<Error>, ghost original: Option<Document>, ghost blobs: seq<Stream>)
      requires Valid()
      modifies Footprint()
      ensures Valid() && fresh(Footprint() - old(Footprint())) && old(Footprint()) <= Footprint()
      ensures charged == old(charged) && remainingImageQuota == old(remainingImageQuota)
      ensures img.Some? <==> err.None?
      ensures err != Some(Panic)
      ensures img.Some? ==> original.Some? && IsConversion(world, original.value, img.value, blobs)
      ensures img == old(NextManifest())
      ensures img.Some? ==> Now() == old(ForLayers())
    {
      hide Sum, Wrap64, Retry, IsConversion, Converted;
      GetImageMeaning(world, imageSource != null, dials, imageTries, MAX_DOCKER_RETRIES);
      hide GetImage;
      blobs := [];
      img, err := GetImageWithRetries();
      original := img;
      if err.Some? {
        return;
      }
      ghost var at;
      img, err, blobs, at := ConvertImage(img.value);
      if err.Some? {
        return;
      }
      err := GetConfigWithRetries();
      if err.Some? {
        img := None;
      }
    }
  }
}
