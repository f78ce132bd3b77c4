/** The create command: from its arguments to the calls on the driver. */
module Groots {
  import opened Basics
  import opened Streams
  import opened Files
  import opened Images
  import opened Judgement
  import opened LayerChains
  import opened LayerSources
  import opened LayerFetchers
  import opened ImagePullers

  /** The part of a runtime spec that Create touches: the environment of the process, if any. */
  datatype RuntimeSpec = RuntimeSpec(process: Option<seq<string>>)

  datatype DriverCall =
    | Bundled(bundleID: string, layerIDs: seq<string>, diskLimit: int64)
    | WroteMetadata(bundleID: string, imageSize: int64)

  class ImageDriver {
    const bundles: nat -> Option<RuntimeSpec>
    const writes: nat -> bool
    var next: nat
    ghost var log: seq<DriverCall>

    constructor (bundles: nat -> Option<RuntimeSpec>, writes: nat -> bool)
      ensures this.bundles == bundles && this.writes == writes && log == []
    {
      this.bundles, this.writes, next, log := bundles, writes, 0, [];
    }

    method Bundle(bundleID: string, layerIDs: seq<string>, diskLimit: int64) returns (bundle: Option<RuntimeSpec>)
      modifies this
      ensures log == old(log) + [Bundled(bundleID, layerIDs, diskLimit)]
      ensures bundle == bundles(old(next)) && next == old(next) + 1
    {
      bundle := bundles(next);
      next, log := next + 1, log + [Bundled(bundleID, layerIDs, diskLimit)];
    }

    method WriteMetadata(bundleID: string, imageSize: int64) returns (ok: bool)
      modifies this
      ensures log == old(log) + [WroteMetadata(bundleID, imageSize)]
      ensures ok == writes(old(next)) && next == old(next) + 1
    {
      ok := writes(next);
      next, log := next + 1, log + [WroteMetadata(bundleID, imageSize)];
    }
  }

  /** The image counts against the disk limit. */
  predicate Inclusive(diskLimit: int64, excludeImageFromQuota: bool) {
    0 < diskLimit && !excludeImageFromQuota
  }

  /** The disk limit handed to the driver for an image that unpacked to these sizes. */
  ghost function BundleLimit(diskLimit: int64, exclude: bool, sizes: seq<int>): int64 {
    if Inclusive(diskLimit, exclude) then Wrap64(diskLimit - Sum(sizes)) else diskLimit
  }

  /** The limit is split into what the image takes and what is left, exactly as long as int64 can
      hold the difference; in particular for non-negative sizes that add up within int64. */
  lemma LimitIsConserved(diskLimit: int64, exclude: bool, sizes: seq<int>)
    requires Inclusive(diskLimit, exclude)
    ensures BundleLimit(diskLimit, exclude, sizes) + Sum(sizes) == diskLimit
            <==> diskLimit - MAX_INT64 <= Sum(sizes) <= diskLimit + MAX_INT64 + 1
    ensures 0 <= Sum(sizes) <= MAX_INT64 ==> BundleLimit(diskLimit, exclude, sizes) + Sum(sizes) == diskLimit
  {
    hide Sum;
  }

  /** The limit is handed on as it is unless the image counts against it; and then nothing is left exactly
      of a limit that is no larger than the image. */
  lemma BundleLimitExactly(diskLimit: int64, exclude: bool, sizes: seq<int>)
    requires 0 <= diskLimit && 0 <= Sum(sizes) <= 0x7FFF_FFFF_FFFF_FFFF
    ensures diskLimit == 0 || exclude ==> BundleLimit(diskLimit, exclude, sizes) == diskLimit
    ensures diskLimit != 0 && !exclude ==>
              && BundleLimit(diskLimit, exclude, sizes) == diskLimit - Sum(sizes)
              && (BundleLimit(diskLimit, exclude, sizes) <= 0 <==> diskLimit <= Sum(sizes))
  {
    hide Sum;
  }

  /** A driver whose results add up to 2^64 makes an image of size 0 out of three layers. */
  lemma ResultsCanWrapAround(diskLimit: int64)
    requires 0 < diskLimit
    ensures var sizes := [] + [MAX_INT64] + [MAX_INT64] + [2];
            && Sum(sizes) > diskLimit && BundleLimit(diskLimit, false, sizes) == diskLimit
  {
    SumNil();
    SumSnoc([], MAX_INT64);
    SumSnoc([] + [MAX_INT64], MAX_INT64);
    SumSnoc([] + [MAX_INT64] + [MAX_INT64], 2);
    hide Sum;
  }

  predicate ShouldSkipImageQuotaValidation(excludeImageFromQuota: bool, diskLimit: int64) {
    excludeImageFromQuota || diskLimit == 0
  }

  /** For every limit that Create lets pass, the quota of the streamed bytes, the manifest check
      and the subtraction from the limit are in force together or not at all. */
  lemma GatesAgree(diskLimit: int64, exclude: bool, layers: seq<LayerInfo>, sizes: seq<int>)
    requires 0 <= diskLimit
    ensures !ShouldSkipImageQuotaValidation(exclude, diskLimit) <==> Inclusive(diskLimit, exclude)
    ensures ExceedsLimit(layers, ImageSpec(diskLimit, exclude)) <==>
            Inclusive(diskLimit, exclude) && Wrap64(Sum(Sizes(layers))) > diskLimit
    ensures BundleLimit(diskLimit, exclude, sizes) ==
            if !ShouldSkipImageQuotaValidation(exclude, diskLimit) then Wrap64(diskLimit - Sum(sizes)) else diskLimit
  {
    hide Sum, Wrap64, Sizes;
  }

  /** Volume and parents are named by the chain IDs over the image's diffIDs, and whatever was
      read for the volume is the front of a content with the layer's own diffID. */
  ghost predicate ContentAddressed(sha: string -> string, diffIDs: seq<string>, i: nat, call: UnpackCall) {
    && Usable(diffIDs, i + 1)
    && call.layerID == Chain(sha, diffIDs, i + 1)
    && |call.parentIDs| == i
    && (forall j :: 0 <= j < i ==> call.parentIDs[j] == Chain(sha, diffIDs, j + 1))
    && match call.stream
       case None => call.got == []
       case Some(content) => call.got <= content && Encoded(diffIDs[i]) == Some(sha(content))
  }

  lemma TraceIsContentAddressed(codec: Codec, policy: Policy, manifest: Option<Document>, calls: seq<UnpackCall>,
                                i: nat)
    requires Describable(manifest) && !policy.skipOCILayerValidation && i < |calls|
    requires InOrder(codec, policy, LayersOf(codec.hash, manifest), calls)
    ensures ContentAddressed(codec.hash, manifest.value.config.value.diffIDs, i, calls[i])
    ensures i > 0 ==> calls[i].parentIDs[i - 1] == LayersOf(codec.hash, manifest)[i].parentChainID
  {
    hide Chain, Encoded;
    var diffIDs := manifest.value.config.value.diffIDs;
    var layers := LayersOf(codec.hash, manifest);
    forall j | 0 <= j <= i
      ensures layers[j] == InfoAt(codec.hash, manifest.value.layers, diffIDs, j)
    {
    }
    assert Usable(diffIDs, i + 1);
  }

  ghost predicate AllContentAddressed(sha: string -> string, manifest: Option<Document>, calls: seq<UnpackCall>) {
    calls != [] ==>
      Describable(manifest) && forall i :: 0 <= i < |calls| ==>
                                 ContentAddressed(sha, manifest.value.config.value.diffIDs, i, calls[i])
  }

  lemma CallsNeedLayers(codec: Codec, policy: Policy, manifest: Option<Document>, calls: seq<UnpackCall>)
    requires InOrder(codec, policy, LayersOf(codec.hash, manifest), calls)
    ensures calls != [] ==> Describable(manifest)
    ensures |calls| <= |LayersOf(codec.hash, manifest)|
  {
  }

  lemma WholeTraceIsContentAddressed(codec: Codec, policy: Policy, manifest: Option<Document>, calls: seq<UnpackCall>)
    requires InOrder(codec, policy, LayersOf(codec.hash, manifest), calls)
    requires !policy.skipOCILayerValidation
    ensures AllContentAddressed(codec.hash, manifest, calls)
    ensures Sum(BytesRead(calls)) <= Sum(Streamed(calls))
  {
    hide InOrder, ContentAddressed;
    CallsNeedLayers(codec, policy, manifest, calls);
    ReadsAreStreamed(codec, policy, LayersOf(codec.hash, manifest), calls);
    forall i | 0 <= i < |calls|
      ensures ContentAddressed(codec.hash, manifest.value.config.value.diffIDs, i, calls[i])
    {
      TraceIsContentAddressed(codec, policy, manifest, calls, i);
    }
  }

  /** Images that share their lowest `n` diffIDs make the same calls for those layers. */
  lemma SharedLayersShareVolumes(sha: string -> string, a: seq<string>, b: seq<string>, n: nat, i: nat,
                                 callA: UnpackCall, callB: UnpackCall)
    requires n <= |a| && n <= |b| && a[..n] == b[..n] && i < n
    requires ContentAddressed(sha, a, i, callA) && ContentAddressed(sha, b, i, callB)
    ensures callA.layerID == callB.layerID && callA.parentIDs == callB.parentIDs
  {
    forall k | 0 < k <= i + 1
      ensures Chain(sha, a, k) == Chain(sha, b, k)
    {
      assert a[..k] == a[..n][..k] == b[..n][..k] == b[..k];
      SharedPrefixSharesChain(sha, a, b, k);
    }
  }

  lemma OneFieldOnly(diffID: string)
    requires ':' in diffID && ':' !in Encoded(diffID).value
    ensures SecondField(diffID) == Encoded(diffID)
  {
  }

  /** Two calls for the same volume at the same depth stand for the same stack of layers, and
      any bytes read for it come from contents with the same hash. */
  lemma SameVolumeSameLayers(sha: string -> string, a: seq<string>, b: seq<string>, i: nat,
                             callA: UnpackCall, callB: UnpackCall)
    requires Collisionless(sha)
    requires ContentAddressed(sha, a, i, callA) && ContentAddressed(sha, b, i, callB)
    requires Unambiguous(Hex(a, 0), Hex(b, 0))
    requires callA.layerID == callB.layerID
    ensures forall j :: 0 <= j <= i ==> Hex(a, j) == Hex(b, j)
    ensures callA.stream.Some? && callB.stream.Some? ==> callA.stream == callB.stream
  {
    hide IndexOf, SecondField, Encoded;
    ChainDeterminesLayers(sha, a, b, i + 1);
    assert Hex(a, i) == Hex(b, i);
    if callA.stream.Some? && callB.stream.Some? {
      OneFieldOnly(a[i]);
      OneFieldOnly(b[i]);
    }
  }

  /** The environment of the process in a runtime spec; none if there is no process. */
  function Env(spec: RuntimeSpec): seq<string> { if spec.process.Some? then spec.process.value else [] }

  /** From one state of the driver to another, for a completely unpacked image: bundling is asked for
      only with a positive rest of the limit if the image counts against it, and then recording that
      same image size. */
  ghost predicate Finishes(driver: ImageDriver, next: nat, log: seq<DriverCall>, log': seq<DriverCall>,
                           handle: string, diskLimit: int64, exclude: bool,
                           layers: seq<LayerInfo>, env: seq<string>, sizes: seq<int>,
                           bundle: RuntimeSpec, err: Option<Error>)
  {
    var limit := BundleLimit(diskLimit, exclude, sizes);
    var bundled := Bundled(handle, ChainIDs(layers), limit);
    var made := driver.bundles(next);
    if Inclusive(diskLimit, exclude) && limit <= 0 then
      err == Some(LimitTooSmall) && log' == log
    else if made.None? then
      err == Some(BundleFailed) && log' == log + [bundled]
    else
      && (env == [] ==> bundle == made.value)
      && (env != [] ==>
            && bundle.process.Some?
            && |bundle.process.value| == |Env(made.value)| + |env|
            && Env(made.value) <= bundle.process.value && bundle.process.value[|Env(made.value)|..] == env)
      && log' == log + [bundled, WroteMetadata(handle, Wrap64(Sum(sizes)))]
      && err == if driver.writes(next + 1) then None else Some(MetadataFailed)
  }

  /** So a limit is too small exactly if the image counts against it and leaves nothing of it; and every
      other error is the driver's. */
  lemma FinishesExactly(driver: ImageDriver, next: nat, log: seq<DriverCall>, log': seq<DriverCall>,
                        handle: string, diskLimit: int64, exclude: bool,
                        layers: seq<LayerInfo>, env: seq<string>, sizes: seq<int>,
                        bundle: RuntimeSpec, err: Option<Error>)
    requires Finishes(driver, next, log, log', handle, diskLimit, exclude, layers, env, sizes, bundle, err)
    requires 0 <= diskLimit && 0 <= Sum(sizes) <= 0x7FFF_FFFF_FFFF_FFFF
    ensures var exhausted := diskLimit != 0 && !exclude && diskLimit <= Sum(sizes);
            && (err == Some(LimitTooSmall) <==> exhausted)
            && (err == Some(BundleFailed) <==> !exhausted && driver.bundles(next).None?)
            && (err == Some(MetadataFailed) <==> !exhausted && driver.bundles(next).Some? && !driver.writes(next + 1))
            && (exhausted ==> log' == log)
  {
    BundleLimitExactly(diskLimit, exclude, sizes);
    hide Sum, BundleLimit, ChainIDs;
  }

  /** That, or an error and nothing asked of the driver unless every layer was unpacked. */
  ghost predicate Concludes(driver: ImageDriver, next: nat, log: seq<DriverCall>, log': seq<DriverCall>,
                            sha: string -> string, handle: string, diskLimit: int64, exclude: bool,
                            bundle: RuntimeSpec, err: Option<Error>,
                            manifest: Option<Document>, unpacked: seq<UnpackCall>)
  {
    if 0 <= diskLimit && Describable(manifest)
       && Complete(LayersOf(sha, manifest), ImageSpec(diskLimit, exclude), unpacked)
    then
      Finishes(driver, next, log, log', handle, diskLimit, exclude, LayersOf(sha, manifest),
               manifest.value.config.value.env, UnpackedSizes(unpacked), bundle, err)
    else
      err.Some? && log' == log
  }

  /** What success means: the driver was asked to bundle exactly the volumes unpacked, in order, with the
      limit less the image's size if that counts against it, and to record that size; the bundle is the
      driver's, with the image's environment after its own. */
  lemma SuccessMeans(driver: ImageDriver, next: nat, log: seq<DriverCall>, log': seq<DriverCall>,
                     codec: Codec, policy: Policy, handle: string, diskLimit: int64, exclude: bool,
                     bundle: RuntimeSpec, manifest: Option<Document>, unpacked: seq<UnpackCall>)
    returns (made: RuntimeSpec, volumes: seq<string>, rest: int64, size: int64)
    requires Concludes(driver, next, log, log', codec.hash, handle, diskLimit, exclude,
                       bundle, None, manifest, unpacked)
    requires InOrder(codec, policy, LayersOf(codec.hash, manifest), unpacked)
    ensures driver.bundles(next) == Some(made)
    ensures log' == log + [Bundled(handle, volumes, rest), WroteMetadata(handle, size)]
    ensures |volumes| == |unpacked| && forall i :: 0 <= i < |unpacked| ==> volumes[i] == unpacked[i].layerID
    ensures forall i :: 0 <= i < |unpacked| ==> unpacked[i].result.Some?
    ensures var results := seq(|unpacked|, i requires 0 <= i < |unpacked| =>
                                 if unpacked[i].result.None? then 0 else unpacked[i].result.value as int);
            (size - Sum(results)) % 0x1_0000_0000_0000_0000 == 0
    ensures diskLimit == 0 || exclude ==> rest == diskLimit
    ensures diskLimit != 0 && !exclude ==> 0 < rest && (rest + size - diskLimit) % 0x1_0000_0000_0000_0000 == 0
    ensures manifest.Some? && manifest.value.config.Some?
    ensures var env := manifest.value.config.value.env;
            if env == [] then bundle == made
            else bundle.process == Some((if made.process.Some? then made.process.value else []) + env)
  {
    hide Sum, Wrap64, ReadsOnly, LayersOf;
    var sizes := UnpackedSizes(unpacked);
    assert sizes == seq(|unpacked|, i requires 0 <= i < |unpacked| =>
                          if unpacked[i].result.None? then 0 else unpacked[i].result.value as int);
    made, volumes := driver.bundles(next).value, ChainIDs(LayersOf(codec.hash, manifest));
    rest, size := BundleLimit(diskLimit, exclude, sizes), Wrap64(Sum(sizes));
    WrapExactly(Sum(sizes), Wrap64(Sum(sizes)));
    WrapExactly(diskLimit - Sum(sizes), Wrap64(diskLimit - Sum(sizes)));
    Congruent(diskLimit, Sum(sizes), Wrap64(diskLimit - Sum(sizes)), Wrap64(Sum(sizes)));
    if manifest.value.config.value.env != [] {
      var process := bundle.process.value;
      assert process[..|Env(made)|] == Env(made);
      assert process == Env(made) + manifest.value.config.value.env;
    }
  }

  lemma Congruent(limit: int, sum: int, rest: int, size: int)
    requires (limit - sum - rest) % 0x1_0000_0000_0000_0000 == 0 && (sum - size) % 0x1_0000_0000_0000_0000 == 0
    ensures (size - sum) % 0x1_0000_0000_0000_0000 == 0 && (rest + size - limit) % 0x1_0000_0000_0000_0000 == 0
  {
  }

  class Groot {
    const imagePuller: ImagePuller
    const driver: ImageDriver

    constructor (imagePuller: ImagePuller, driver: ImageDriver)
      ensures this.imagePuller == imagePuller && this.driver == driver
    {
      this.imagePuller, this.driver := imagePuller, driver;
    }

    /** Pulls the image and bundles it within the limit. Only a limit that is not negative needs
        a fetcher that can fetch. */
    method Create(handle: string, diskLimit: int64, excludeImageFromQuota: bool)
      returns (bundle: RuntimeSpec, err: Option<Error>,
               ghost manifest: Option<Document>, ghost unpacked: seq<UnpackCall>)
      requires 0 <= diskLimit ==> imagePuller.fetcher.Ready()
      modifies imagePuller.Footprint(), driver
      ensures 0 <= diskLimit ==> imagePuller.fetcher.Ready()
      ensures 0 <= diskLimit ==> manifest == old(imagePuller.fetcher.source.NextManifest())
      ensures fresh(imagePuller.Footprint() - old(imagePuller.Footprint()))
      ensures diskLimit < 0 ==> err == Some(InvalidLimit) && unpacked == []
      ensures diskLimit < 0 ==> unchanged(old(imagePuller.Footprint())) && unchanged(driver)
      ensures imagePuller.volumeDriver.calls == old(imagePuller.volumeDriver.calls) + unpacked
      ensures 0 <= diskLimit ==>
                Traced(imagePuller.fetcher.source.world.codec.hash, ImageSpec(diskLimit, excludeImageFromQuota),
                       manifest, err, unpacked)
      ensures Planned(imagePuller.volumeDriver.plans, old(imagePuller.volumeDriver.next), unpacked)
      ensures 0 <= diskLimit && imagePuller.fetcher.source.fs.mishaps == old(imagePuller.fetcher.source.fs.mishaps) ==>
                Foreseen(imagePuller.fetcher.source.world, imagePuller.fetcher.source.policy,
                         old(imagePuller.fetcher.source.ForLayers()),
                         LayersOf(imagePuller.fetcher.source.world.codec.hash, manifest),
                         imagePuller.volumeDriver.plans, old(imagePuller.volumeDriver.next), unpacked)
      ensures var codec := imagePuller.fetcher.source.world.codec;
              var layers := LayersOf(codec.hash, manifest);
              && (0 <= diskLimit ==> CleanedUp(imagePuller.fetcher.source.fs, WellNamed(layers)))
              && InOrder(codec, imagePuller.fetcher.source.policy, layers, unpacked)
      ensures Concludes(driver, old(driver.next), old(driver.log), driver.log,
                        imagePuller.fetcher.source.world.codec.hash, handle, diskLimit, excludeImageFromQuota,
                        bundle, err, manifest, unpacked)
      ensures Paid(imagePuller.fetcher.source, unpacked)
    {
      hide Paid, Sum, Wrap64, OnlyLostAdded, StrandedBytes, InOrder, UnpackedSizes, ExceedsLimit, ChainIDs;
      hide Traced, Planned, Foreseen, FileSystem.Valid, StopsAtFailure, AllSucceed, Balanced, Describable;
      hide LayerFetcher.Ready, CleanedUp, WellNamed, LayersOf;
      hide LayerSource.NextManifest, LayerSource.ForLayers, LayerSource.Now;
      bundle, manifest, unpacked := RuntimeSpec(None), None, [];
      if 0 <= diskLimit {
        imagePuller.fetcher.AffordsLayers();
      }
      NothingPaid(imagePuller.fetcher.source);
      NothingPlanned(imagePuller.volumeDriver.plans, imagePuller.volumeDriver.next);
      EmptyTrace(imagePuller.fetcher.source.world.codec, imagePuller.fetcher.source.policy,
                 LayersOf(imagePuller.fetcher.source.world.codec.hash, None));
      ghost var hash, spec := imagePuller.fetcher.source.world.codec.hash, ImageSpec(diskLimit, excludeImageFromQuota);
      if diskLimit < 0 {
        return bundle, Some(InvalidLimit), manifest, unpacked;
      }
      var image;
      image, err, manifest, unpacked := imagePuller.Pull(ImageSpec(diskLimit, excludeImageFromQuota));
      if err.Some? {
        return;
      }
      forall error | error != Some(UnpackFailed)
        ensures Traced(hash, spec, manifest, error, unpacked)
      {
        TracedStays(hash, spec, manifest, unpacked, error);
      }
      var quota: int64 := diskLimit;
      if diskLimit != 0 && !excludeImageFromQuota {
        WrapSub(diskLimit, Sum(UnpackedSizes(unpacked)));
        quota := Wrap64(quota - image.size);
        if quota <= 0 {
          err := Some(LimitTooSmall);
          return;
        }
      }
      var made := driver.Bundle(handle, image.chainIDs, quota);
      if made.None? {
        err := Some(BundleFailed);
        return;
      }
      bundle := made.value;
      if |image.env| > 0 {
        var env := if bundle.process.Some? then bundle.process.value else [];
        bundle := RuntimeSpec(Some(env + image.env));
      }
      var ok := driver.WriteMetadata(handle, image.size);
      err := if ok then None else Some(MetadataFailed);
    }
  }

  predicate Remote(scheme: string) { scheme == "oci" || scheme == "docker" }

  function FetcherPolicy(scheme: string, excludeImageFromQuota: bool, diskLimit: int64): Policy {
    Policy(false, ShouldSkipImageQuotaValidation(excludeImageFromQuota, diskLimit), scheme)
  }

  /** The fetcher for a registry or an OCI layout; the digests of its layers are always checked. */
  method CreateFetcher(world: World, fs: FileSystem, scheme: string, excludeImageFromQuota: bool, diskLimit: int64)
    returns (fetcher: LayerFetcher)
    requires Remote(scheme)
    ensures fresh(fetcher) && fresh(fetcher.source) && fetcher.source.imageSource == null
    ensures fetcher.source.Valid() && fetcher.source.fs == fs && fetcher.source.world == world
    ensures fetcher.source.NextManifest() == ManifestFrom(world, None, 0, 0, 0)
    ensures fetcher.source.ForLayers() == AfterManifest(world, Supply(None, 0, diskLimit), 0)
    ensures fetcher.source.policy == FetcherPolicy(scheme, excludeImageFromQuota, diskLimit)
    ensures fetcher.source.limit == fetcher.source.remainingImageQuota == diskLimit && fetcher.source.charged == []
    ensures !fetcher.source.policy.skipOCILayerValidation
    ensures fetcher.source.policy.skipImageQuotaValidation <==> excludeImageFromQuota || diskLimit == 0
    ensures fetcher.source.policy.scheme == scheme
    ensures 0 <= diskLimit ==>
              (fetcher.source.policy.skipImageQuotaValidation <==> !Inclusive(diskLimit, excludeImageFromQuota))
  {
    var policy := FetcherPolicy(scheme, excludeImageFromQuota, diskLimit);
    var source := new LayerSource(world, policy, diskLimit, fs);
    if 0 <= diskLimit {
      GatesAgree(diskLimit, excludeImageFromQuota, [], []);
    }
    fetcher := new LayerFetcher(source);
  }

  /** What a create command leaves behind and has done, for the layers of the image it pulled: the
      driver is asked for nothing unless every layer was unpacked. */
  twostate predicate Outcome(world: World, fs: FileSystem, driver: ImageDriver, exclude: bool, diskLimit: int64,
                             handle: string, new bundle: RuntimeSpec, new err: Option<Error>,
                             new manifest: Option<Document>, new unpacked: seq<UnpackCall>)
    reads fs, driver
  {
    && CleanedUp(fs, WellNamed(LayersOf(world.codec.hash, manifest)))
    && |unpacked| <= |LayersOf(world.codec.hash, manifest)|
    && AllContentAddressed(world.codec.hash, manifest, unpacked)
    && (if diskLimit < 0 then err == Some(InvalidLimit) && unpacked == []
        else Traced(world.codec.hash, ImageSpec(diskLimit, exclude), manifest, err, unpacked))
    && Concludes(driver, old(driver.next), old(driver.log), driver.log, world.codec.hash, handle, diskLimit, exclude,
                 bundle, err, manifest, unpacked)
  }

  /** Puts the command's parts together and runs them. */
  method RunCreate(fetcher: LayerFetcher, volumeDriver: VolumeDriver, driver: ImageDriver,
                   excludeImageFromQuota: bool, diskLimit: int64, handle: string)
    returns (bundle: RuntimeSpec, err: Option<Error>, ghost manifest: Option<Document>, ghost unpacked: seq<UnpackCall>)
    requires fetcher.source.fs.Valid() && fetcher.source.Valid() && !fetcher.source.policy.skipOCILayerValidation
    requires 0 <= diskLimit ==> fetcher.Ready()
    modifies fetcher.source.fs, fetcher.source.Footprint(), volumeDriver, driver
    ensures fetcher.source.fs.Valid() && fetcher.source.Valid()
    ensures fresh(fetcher.source.Footprint() - old(fetcher.source.Footprint()))
    ensures Outcome(fetcher.source.world, fetcher.source.fs, driver, excludeImageFromQuota, diskLimit, handle,
                    bundle, err, manifest, unpacked)
    ensures 0 <= diskLimit ==> manifest == old(fetcher.source.NextManifest())
    ensures 0 <= diskLimit && fetcher.source.fs.mishaps == old(fetcher.source.fs.mishaps) ==>
              Foreseen(fetcher.source.world, fetcher.source.policy, old(fetcher.source.ForLayers()),
                       LayersOf(fetcher.source.world.codec.hash, manifest), volumeDriver.plans,
                       old(volumeDriver.next), unpacked)
    ensures Planned(volumeDriver.plans, old(volumeDriver.next), unpacked)
    ensures Paid(fetcher.source, unpacked) && Sum(BytesRead(unpacked)) <= Sum(Streamed(unpacked))
    ensures volumeDriver.calls == old(volumeDriver.calls) + unpacked
    ensures diskLimit < 0 ==> unchanged(fetcher.source.fs) && unchanged(driver)
  {
    hide Tidy, WellNamed, StrandedBytes, Balanced, Sum, LayersOf, Streamed, BytesRead, AllContentAddressed, InOrder;
    hide Concludes, Traced, Planned, Foreseen, LayerSource.NextManifest, LayerSource.ForLayers, LayerSource.Valid;
    var fs := fetcher.source.fs;
    if 0 <= diskLimit {
      fetcher.AffordsLayers();
    }
    fs.LostAreFiles();
    var imagePuller := new ImagePuller(fetcher, volumeDriver);
    var g := new Groot(imagePuller, driver);
    bundle, err, manifest, unpacked := g.Create(handle, diskLimit, excludeImageFromQuota);
    CallsNeedLayers(fetcher.source.world.codec, fetcher.source.policy, manifest, unpacked);
    WholeTraceIsContentAddressed(fetcher.source.world.codec, fetcher.source.policy, manifest, unpacked);
    NothingToTidy(old(fs.files), old(fs.lost), WellNamed(LayersOf(fetcher.source.world.codec.hash, manifest)));
  }

  /** The create command from start to end, for any limit: a negative one stops before anything
      is fetched, so that it never becomes the quota of a reader. Under a limit that the image counts
      against, the quota left, the streams and the stranded files come to exactly that limit. */
  method CreateCommand(world: World, fs: FileSystem, volumeDriver: VolumeDriver, driver: ImageDriver,
                       scheme: string, excludeImageFromQuota: bool, diskLimit: int64, handle: string)
    returns (bundle: RuntimeSpec, err: Option<Error>, ghost manifest: Option<Document>, ghost unpacked: seq<UnpackCall>,
             ghost source: LayerSource)
    requires Remote(scheme) && fs.Valid()
    modifies fs, volumeDriver, driver
    ensures fs.Valid() && source.Finished()
    ensures Outcome(world, fs, driver, excludeImageFromQuota, diskLimit, handle, bundle, err, manifest, unpacked)
    ensures 0 <= diskLimit ==> manifest == ManifestFrom(world, None, 0, 0, 0)
    ensures 0 <= diskLimit && fs.mishaps == old(fs.mishaps) ==>
              Foreseen(world, FetcherPolicy(scheme, excludeImageFromQuota, diskLimit),
                       AfterManifest(world, Supply(None, 0, diskLimit), 0), LayersOf(world.codec.hash, manifest),
                       volumeDriver.plans, old(volumeDriver.next), unpacked)
    ensures Planned(volumeDriver.plans, old(volumeDriver.next), unpacked)
    ensures volumeDriver.calls == old(volumeDriver.calls) + unpacked
    ensures diskLimit < 0 ==> unchanged(fs) && unchanged(driver)
    ensures 0 < diskLimit && !excludeImageFromQuota ==>
              && source.remainingImageQuota == diskLimit - Sum(source.charged)
              && Sum(BytesRead(unpacked)) <= Sum(Streamed(unpacked)) <= Sum(source.charged) <= diskLimit
              && var stranded := StrandedBytes(fs.files, fs.lost) - old(StrandedBytes(fs.files, fs.lost));
              && source.remainingImageQuota + Sum(Streamed(unpacked)) + stranded == diskLimit
              && (fs.mishaps == old(fs.mishaps) ==> stranded == 0)
  {
    hide Tidy, WellNamed, StrandedBytes, Balanced, Sum, Wrap64, LayersOf, Streamed, BytesRead, AllContentAddressed;
    hide Concludes, Traced, Planned, Foreseen, ManifestFrom, AfterManifest;
    hide LayerSource.NextManifest, LayerSource.ForLayers, LayerSource.Accounted;
    var fetcher := CreateFetcher(world, fs, scheme, excludeImageFromQuota, diskLimit);
    source := fetcher.source;
    SumNil();
    bundle, err, manifest, unpacked := RunCreate(fetcher, volumeDriver, driver,
                                                 excludeImageFromQuota, diskLimit, handle);
    BalancedMeans(Sum(source.charged) - Sum([]),
                  StrandedBytes(fs.files, fs.lost) - old(StrandedBytes(fs.files, fs.lost)),
                  fs.mishaps - old(fs.mishaps), unpacked);
    fetcher.Close();
    if Inclusive(diskLimit, excludeImageFromQuota) {
      source.WithinLimit();
    }
  }
}
