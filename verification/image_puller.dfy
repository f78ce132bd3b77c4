/** Pulling an image: the volume driver unpacks its layers in order, each from a lazy reader. */
module ImagePullers {
  import opened Basics
  import opened Streams
  import opened Files
  import opened Images
  import opened Judgement
  import opened Conversions
  import opened LayerSources
  import opened LayerChains
  import opened LayerFetchers
  import opened OnDemand

  /** What the driver does with one layer: it reads buffers of these sizes, whatever each Read
      returns, and then succeeds with a size or fails. Any adaptive driver acts, in any one run,
      like some such plan. */
  datatype UnpackPlan = UnpackPlan(requests: seq<Length>, result: Option<int64>)

  /** One call of Unpack: its arguments, the bytes it read, the content of the stream it read
      them from (None if there never was one), and its result. */
  datatype UnpackCall = UnpackCall(
    layerID: string, parentIDs: seq<string>, got: string, stream: Option<string>, result: Option<int64>)

  /** The bytes read are the front of a stream that holds what the layer's diffID names. */
  ghost predicate ReadsOnly(codec: Codec, policy: Policy, layer: LayerInfo, call: UnpackCall) {
    match call.stream
    case None => call.got == []
    case Some(content) => call.got <= content && Vouched(codec, policy, layer, content)
  }

  /** The i-th call unpacks layer i on top of all lower layers, from that layer's content. */
  ghost predicate InOrder(codec: Codec, policy: Policy, layers: seq<LayerInfo>, calls: seq<UnpackCall>) {
    && |calls| <= |layers|
    && forall i :: 0 <= i < |calls| ==>
         && calls[i].layerID == layers[i].chainID
         && calls[i].parentIDs == ChainIDs(layers[..i])
         && ReadsOnly(codec, policy, layers[i], calls[i])
  }

  ghost predicate WellNamed(layers: seq<LayerInfo>) {
    forall layer :: layer in layers ==> ':' in layer.blobID
  }

  lemma WellNamedAt(layers: seq<LayerInfo>, i: nat)
    requires i < |layers|
    ensures WellNamed(layers) ==> ':' in layers[i].blobID
  {
  }

  ghost predicate AllSucceed(calls: seq<UnpackCall>) {
    forall i :: 0 <= i < |calls| ==> calls[i].result.Some?
  }

  /** Every call but the last one succeeded. */
  ghost predicate StopsAtFailure(calls: seq<UnpackCall>) {
    calls != [] && AllSucceed(calls[..|calls| - 1]) && calls[|calls| - 1].result.None?
  }

  ghost function UnpackedSizes(calls: seq<UnpackCall>): seq<int>
    requires AllSucceed(calls)
  {
    seq(|calls|, i requires 0 <= i < |calls| => calls[i].result.value)
  }

  ghost function StreamSize(call: UnpackCall): nat {
    if call.stream.None? then 0 else |call.stream.value|
  }

  /** How many bytes the streams behind these calls hold, and how many of them the driver read. */
  ghost function Streamed(calls: seq<UnpackCall>): seq<int> {
    seq(|calls|, i requires 0 <= i < |calls| => StreamSize(calls[i]))
  }

  ghost function BytesRead(calls: seq<UnpackCall>): seq<int> {
    seq(|calls|, i requires 0 <= i < |calls| => |calls[i].got|)
  }

  lemma NothingStreamed()
    ensures Sum(Streamed([])) == 0
  {
    assert Streamed([]) == [];
  }

  lemma StreamedSnoc(calls: seq<UnpackCall>, call: UnpackCall)
    ensures Sum(Streamed(calls + [call])) == Sum(Streamed(calls)) + StreamSize(call)
    ensures StreamSize(call) == match call.stream case None => 0 case Some(content) => |content|
  {
    assert Streamed(calls + [call]) == Streamed(calls) + [StreamSize(call)];
    SumSnoc(Streamed(calls), StreamSize(call));
  }

  lemma StreamedOne(call: UnpackCall)
    ensures Sum(Streamed([call])) == StreamSize(call)
  {
    NothingStreamed();
    StreamedSnoc([], call);
    assert [] + [call] == [call];
  }

  lemma BytesReadSnoc(calls: seq<UnpackCall>, call: UnpackCall)
    ensures Sum(BytesRead([])) == 0 && Sum(BytesRead(calls + [call])) == Sum(BytesRead(calls)) + |call.got|
  {
    assert BytesRead([]) == [] && BytesRead(calls + [call]) == BytesRead(calls) + [|call.got|];
    SumSnoc(BytesRead(calls), |call.got|);
  }

  /** Whatever a driver reads in order comes from the streams. */
  lemma {:induction false} ReadsAreStreamed(codec: Codec, policy: Policy, layers: seq<LayerInfo>,
                                            calls: seq<UnpackCall>)
    requires calls == [] || InOrder(codec, policy, layers, calls)
    ensures Sum(BytesRead(calls)) <= Sum(Streamed(calls))
  {
    hide Sum, BytesRead, Streamed;
    NothingStreamed();
    if calls == [] {
      BytesReadSnoc([], UnpackCall("", [], "", None, None));
    } else {
      var n := |calls| - 1;
      ReadsAreStreamed(codec, policy, layers, calls[..n]);
      assert calls[..n] + [calls[n]] == calls;
      BytesReadSnoc(calls[..n], calls[n]);
      StreamedSnoc(calls[..n], calls[n]);
      assert ReadsOnly(codec, policy, layers[n], calls[n]);
    }
  }

  /** Charged to the quota are the contents of the streams, all of each, and what was stranded:
      nothing, unless an operation failed. */
  ghost predicate Balanced(paid: int, stranded: int, mishaps: int, calls: seq<UnpackCall>) {
    && 0 <= stranded && (mishaps == 0 ==> stranded == 0)
    && paid == Sum(Streamed(calls)) + stranded
  }

  lemma BalancedMeans(paid: int, stranded: int, mishaps: int, calls: seq<UnpackCall>)
    requires Balanced(paid, stranded, mishaps, calls)
    ensures 0 <= stranded && (mishaps == 0 ==> stranded == 0) && paid == Sum(Streamed(calls)) + stranded
  {
  }

  lemma BalancedSnoc(paid: int, stranded: int, mishaps: nat, calls: seq<UnpackCall>,
                     paid': int, stranded': int, mishaps': nat, call: UnpackCall)
    requires Balanced(paid, stranded, mishaps, calls) && Balanced(paid', stranded', mishaps', [call])
    ensures Balanced(paid + paid', stranded + stranded', mishaps + mishaps', calls + [call])
  {
    hide Sum, Streamed;
    StreamedOne(call);
    StreamedSnoc(calls, call);
  }

  /** This holds of the quota and the files since an earlier moment. */
  twostate predicate Paid(source: LayerSource, new calls: seq<UnpackCall>)
    reads source, source.fs
  {
    Balanced(Sum(source.charged) - Sum(old(source.charged)),
             StrandedBytes(source.fs.files, source.fs.lost) - old(StrandedBytes(source.fs.files, source.fs.lost)),
             source.fs.mishaps - old(source.fs.mishaps), calls)
  }

  twostate lemma NothingPaid(source: LayerSource)
    requires unchanged(source) && unchanged(source.fs)
    ensures Paid(source, [])
  {
    NothingStreamed();
  }

  ghost function Sizes(layers: seq<LayerInfo>): seq<int> {
    seq(|layers|, i requires 0 <= i < |layers| => layers[i].size)
  }

  /** The manifest already tells that the image is too large, as far as int64 can tell. */
  ghost predicate ExceedsLimit(layers: seq<LayerInfo>, spec: ImageSpec) {
    && !spec.excludeImageFromQuota && spec.diskLimit != 0
    && Wrap64(Sum(Sizes(layers))) > spec.diskLimit
  }

  method LayersSize(layers: seq<LayerInfo>) returns (totalSize: int64)
    ensures totalSize == Wrap64(Sum(Sizes(layers)))
  {
    totalSize := 0;
    for i := 0 to |layers|
      invariant totalSize == Wrap64(Sum(Sizes(layers)[..i]))
    {
      assert Sizes(layers)[..i + 1] == Sizes(layers)[..i] + [layers[i].size];
      SumSnoc(Sizes(layers)[..i], layers[i].size);
      WrapAdd(Sum(Sizes(layers)[..i]), layers[i].size);
      totalSize := Wrap64(totalSize + layers[i].size);
    }
    assert Sizes(layers)[..|layers|] == Sizes(layers);
  }

  method QuotaExceeded(layers: seq<LayerInfo>, spec: ImageSpec) returns (err: Option<Error>)
    ensures err == if ExceedsLimit(layers, spec) then Some(LayersExceedQuota) else None
    ensures err == if !spec.excludeImageFromQuota && spec.diskLimit != 0
                      && Wrap64(Sum(seq(|layers|, i requires 0 <= i < |layers| => layers[i].size as int)))
                         > spec.diskLimit
                   then Some(LayersExceedQuota) else None
  {
    assert Sizes(layers) == seq(|layers|, i requires 0 <= i < |layers| => layers[i].size as int);
    if spec.excludeImageFromQuota || spec.diskLimit == 0 {
      return None;
    }
    var totalSize := LayersSize(layers);
    return if totalSize > spec.diskLimit then Some(LayersExceedQuota) else None;
  }

  /** The manifest has a configuration with a diffID for every layer. */
  ghost predicate Describable(manifest: Option<Document>) {
    && manifest.Some? && manifest.value.config.Some?
    && Usable(manifest.value.config.value.diffIDs, |manifest.value.layers|)
  }

  /** Its layers; none if it is not. */
  ghost function LayersOf(sha: string -> string, manifest: Option<Document>): seq<LayerInfo> {
    if Describable(manifest) then LayerInfos(sha, manifest.value.layers, manifest.value.config.value.diffIDs) else []
  }

  /** The layers of a converted image are fetched by the digests of layers of the original, and none of
      them fails the diffID check on the blob that was fetched for that layer: provided the library
      keeps the layers that it does not throw away. */
  lemma ConvertedImagePassesDiffChecks(world: World, original: Document, result: Document, blobs: seq<Stream>,
                                       kept: seq<nat>, policy: Policy, remaining: int64, length: int64)
    requires original.schema1 == Some(true) && IsConversion(world, original, result, blobs)
    requires KeepsLayers(original, V1DiffIDs(world, blobs), result, kept) && Affordable(policy, remaining)
    ensures Describable(Some(result))
    ensures var layers := LayersOf(world.codec.hash, Some(result));
            && |layers| == |kept|
            && forall k :: 0 <= k < |kept| ==>
                 && kept[k] < |blobs| && layers[k].blobID == original.layers[kept[k]].digest
                 && Judge(world.codec, policy, remaining, layers[k], blobs[kept[k]], length)
                    != Rejected(DiffDigestMismatch)
  {
    hide Judge, Encoded, Chain, WantsGunzip, IndexOf;
    var layers := LayersOf(world.codec.hash, Some(result));
    forall k | 0 <= k < |kept|
      ensures kept[k] < |blobs| && layers[k].blobID == original.layers[kept[k]].digest
      ensures Judge(world.codec, policy, remaining, layers[k], blobs[kept[k]], length) != Rejected(DiffDigestMismatch)
    {
      assert layers[k] == InfoAt(world.codec.hash, result.layers, result.config.value.diffIDs, k);
      ConvertedLayerPassesDiffCheck(world.codec, policy, remaining, layers[k], blobs[kept[k]], length);
    }
  }

  /** Sizes as they really are, for layers whose manifest entry is their size or -1. */
  ghost predicate TrueSizes(layers: seq<LayerInfo>, actual: seq<int>) {
    |actual| == |layers| && forall i :: 0 <= i < |layers| ==>
                              0 <= actual[i] && (layers[i].size == -1 || layers[i].size == actual[i])
  }

  /** The true sizes of the layers whose manifest entry tells them, 0 for the others. */
  ghost function KnownSizes(layers: seq<LayerInfo>, actual: seq<int>): seq<int>
    requires |actual| == |layers|
  {
    seq(|layers|, i requires 0 <= i < |layers| => if layers[i].size == -1 then 0 else actual[i])
  }

  ghost function Unknown(layers: seq<LayerInfo>): nat {
    if layers == [] then 0
    else Unknown(layers[..|layers| - 1]) + if layers[|layers| - 1].size == -1 then 1 else 0
  }

  lemma {:induction false} AllKnown(layers: seq<LayerInfo>)
    requires forall i :: 0 <= i < |layers| ==> layers[i].size != -1
    ensures Unknown(layers) == 0
  {
    if layers != [] {
      AllKnown(layers[..|layers| - 1]);
    }
  }

  lemma {:induction false} ManifestUnderestimates(layers: seq<LayerInfo>, actual: seq<int>)
    requires TrueSizes(layers, actual)
    ensures -|layers| <= Sum(Sizes(layers)) <= Sum(actual)
  {
    if layers != [] {
      var n := |layers| - 1;
      assert Sizes(layers)[..n] == Sizes(layers[..n]);
      ManifestUnderestimates(layers[..n], actual[..n]);
    }
  }

  /** Exactly: the sum of the sizes that are known, less one for each that is not. */
  lemma {:induction false} AnnouncedExactly(layers: seq<LayerInfo>, actual: seq<int>)
    requires TrueSizes(layers, actual)
    ensures Sum(Sizes(layers)) == Sum(KnownSizes(layers, actual)) - Unknown(layers)
    ensures Unknown(layers) == 0 ==> Sum(Sizes(layers)) == Sum(actual)
  {
    if layers != [] {
      var n := |layers| - 1;
      assert Sizes(layers)[..n] == Sizes(layers[..n]);
      assert KnownSizes(layers, actual)[..n] == KnownSizes(layers[..n], actual[..n]);
      AnnouncedExactly(layers[..n], actual[..n]);
    }
  }

  /** So an image with all sizes known is rejected exactly if it is too large, within int64. */
  lemma KnownImagesAreRejectedExactly(layers: seq<LayerInfo>, actual: seq<int>, spec: ImageSpec)
    requires TrueSizes(layers, actual) && (forall i :: 0 <= i < |layers| ==> layers[i].size != -1)
    requires !spec.excludeImageFromQuota && 0 < spec.diskLimit && Sum(actual) <= 0x7FFF_FFFF_FFFF_FFFF
    ensures ExceedsLimit(layers, spec) <==> Sum(actual) > spec.diskLimit
  {
    AllKnown(layers);
    AnnouncedExactly(layers, actual);
    ManifestUnderestimates(layers, actual);
    SumOfNats(actual);
    hide Sum;
  }

  /** The manifest check never rejects an image that fits. It tells exactly whether the announced
      sizes exceed the limit as long as they add up within int64, or wrap around to a sum that
      still exceeds it. */
  lemma ManifestCheckIsSound(layers: seq<LayerInfo>, actual: seq<int>, spec: ImageSpec)
    requires TrueSizes(layers, actual) && |layers| <= MAX_INT64 && 0 <= spec.diskLimit
    ensures ExceedsLimit(layers, spec) ==> Sum(actual) > spec.diskLimit
    ensures !spec.excludeImageFromQuota && spec.diskLimit != 0 ==>
              var announced := Sum(Sizes(layers));
              ((ExceedsLimit(layers, spec) <==> announced > spec.diskLimit) <==>
               announced <= MAX_INT64 || spec.diskLimit < announced % TWO_TO_THE_64 <= MAX_INT64)
  {
    ManifestUnderestimates(layers, actual);
    hide Sum;
  }

  /** Beyond int64 it sees nothing: under every limit, some announced sizes wrap around to it. */
  lemma ManifestCheckWrapsAround(layer: LayerInfo, limit: int64)
    requires 0 < limit
    ensures var layers := [layer.(size := MAX_INT64), layer.(size := MAX_INT64), layer.(size := 2)];
            Sum(Sizes(layers)) > limit && !ExceedsLimit(layers, ImageSpec(limit, false))
  {
    hide Sum;
    var layers := [layer.(size := MAX_INT64), layer.(size := MAX_INT64), layer.(size := 2)];
    assert Sizes(layers) == [] + [MAX_INT64] + [MAX_INT64] + [2];
    SumNil();
    SumSnoc([], MAX_INT64);
    SumSnoc([] + [MAX_INT64], MAX_INT64);
    SumSnoc([] + [MAX_INT64] + [MAX_INT64], 2);
  }

  /** In a trace that is in order and stops at its first failure, every parent named in a call
      was unpacked before, successfully. */
  lemma ParentsUnpackedBefore(codec: Codec, policy: Policy, layers: seq<LayerInfo>, calls: seq<UnpackCall>, i: nat)
    requires InOrder(codec, policy, layers, calls) && i < |calls|
    requires AllSucceed(calls) || StopsAtFailure(calls)
    ensures |calls[i].parentIDs| == i
    ensures forall j :: 0 <= j < i ==> calls[i].parentIDs[j] == calls[j].layerID && calls[j].result.Some?
  {
    if !AllSucceed(calls) {
      var done := calls[..|calls| - 1];
      assert forall j :: 0 <= j < |done| ==> calls[j] == done[j];
    }
  }

  lemma EmptyTrace(codec: Codec, policy: Policy, layers: seq<LayerInfo>)
    ensures InOrder(codec, policy, layers, []) && AllSucceed([]) && Wrap64(Sum(UnpackedSizes([]))) == 0
  {
    assert UnpackedSizes([]) == [];
  }

  /** One more call in order; the running total stays the sum of the results, modulo 2^64. */
  lemma ExtendTrace(codec: Codec, policy: Policy, layers: seq<LayerInfo>, calls: seq<UnpackCall>, call: UnpackCall)
    requires |calls| < |layers| && InOrder(codec, policy, layers, calls) && AllSucceed(calls)
    requires call.layerID == layers[|calls|].chainID && call.parentIDs == ChainIDs(layers[..|calls|])
    requires ReadsOnly(codec, policy, layers[|calls|], call)
    ensures InOrder(codec, policy, layers, calls + [call])
    ensures call.result.None? ==> StopsAtFailure(calls + [call])
    ensures call.result.Some? ==>
              && AllSucceed(calls + [call])
              && Wrap64(Sum(UnpackedSizes(calls + [call])))
                 == Wrap64(Wrap64(Sum(UnpackedSizes(calls))) + call.result.value)
  {
    hide Wrap64, Sum, ReadsOnly;
    assert (calls + [call])[..|calls|] == calls;
    if call.result.Some? {
      assert UnpackedSizes(calls + [call]) == UnpackedSizes(calls) + [call.result.value];
      SumSnoc(UnpackedSizes(calls), call.result.value);
      WrapAdd(Sum(UnpackedSizes(calls)), call.result.value);
    }
  }

  /** Every layer of an image that is not beyond the limit already was unpacked. */
  ghost predicate Complete(layers: seq<LayerInfo>, spec: ImageSpec, calls: seq<UnpackCall>) {
    |calls| == |layers| && AllSucceed(calls) && !ExceedsLimit(layers, spec)
  }

  /** What a pull of this manifest comes to: no call if the manifest is unusable or beyond the limit
      already, and else every layer or all up to the first failure, which is then the error. */
  ghost predicate Traced(sha: string -> string, spec: ImageSpec, manifest: Option<Document>, err: Option<Error>,
                         calls: seq<UnpackCall>)
  {
    if !Describable(manifest) then err.Some? && calls == []
    else
      var layers := LayersOf(sha, manifest);
      if ExceedsLimit(layers, spec) then err == Some(LayersExceedQuota) && calls == []
      else if err == Some(UnpackFailed) then StopsAtFailure(calls)
      else Complete(layers, spec, calls)
  }

  lemma StoppedIsNotComplete(layers: seq<LayerInfo>, spec: ImageSpec, calls: seq<UnpackCall>)
    requires StopsAtFailure(calls)
    ensures !Complete(layers, spec, calls)
  {
  }

  /** An error after the pull changes nothing about that. */
  lemma TracedStays(sha: string -> string, spec: ImageSpec, manifest: Option<Document>, calls: seq<UnpackCall>,
                    err: Option<Error>)
    requires Traced(sha, spec, manifest, None, calls) && err != Some(UnpackFailed)
    ensures Traced(sha, spec, manifest, err, calls)
  {
  }

  /** Beyond the limit is a matter of the sizes in the document. */
  lemma ExceedsByDocument(sha: string -> string, manifest: Option<Document>, spec: ImageSpec)
    requires Describable(manifest)
    ensures var entries := manifest.value.layers;
            ExceedsLimit(LayersOf(sha, manifest), spec) <==>
            && !spec.excludeImageFromQuota && spec.diskLimit != 0
            && Wrap64(Sum(seq(|entries|, i requires 0 <= i < |entries| => entries[i].size as int))) > spec.diskLimit
  {
    hide Sum, Wrap64, Chain, Encoded;
    var entries, layers := manifest.value.layers, LayersOf(sha, manifest);
    assert forall i :: 0 <= i < |layers| ==> layers[i] == InfoAt(sha, entries, manifest.value.config.value.diffIDs, i);
    assert Sizes(layers) == seq(|entries|, i requires 0 <= i < |entries| => entries[i].size as int);
  }

  /** The results are those of the driver's next plans, in order. */
  ghost predicate Planned(plans: nat -> UnpackPlan, next: nat, calls: seq<UnpackCall>) {
    forall i :: 0 <= i < |calls| ==> calls[i].result == plans(next + i).result
  }

  ghost predicate Succeeds(plans: nat -> UnpackPlan, k: nat) { plans(k).result.Some? }

  /** So the plans decide the pull: it is complete exactly if none of the first plans fails, one for
      each layer, and else ends at the first that does. */
  lemma PlansDecide(plans: nat -> UnpackPlan, next: nat, sha: string -> string, spec: ImageSpec,
                    manifest: Option<Document>, err: Option<Error>, calls: seq<UnpackCall>)
    requires Describable(manifest) && !ExceedsLimit(LayersOf(sha, manifest), spec)
    requires Traced(sha, spec, manifest, err, calls) && Planned(plans, next, calls)
    requires |calls| <= |LayersOf(sha, manifest)|
    ensures var n := |LayersOf(sha, manifest)|;
            && (Complete(LayersOf(sha, manifest), spec, calls) <==>
                  forall k :: next <= k < next + n ==> Succeeds(plans, k))
            && (err == Some(UnpackFailed) ==>
                  && calls != [] && !Succeeds(plans, next + |calls| - 1)
                  && forall k :: next <= k < next + |calls| - 1 ==> Succeeds(plans, k))
  {
    hide LayersOf, ExceedsLimit, Describable;
    if err == Some(UnpackFailed) {
      var last := |calls| - 1;
      assert calls[last].result == plans(next + last).result;
      assert !Succeeds(plans, next + last);
      forall k | next <= k < next + last
        ensures Succeeds(plans, k)
      {
        assert calls[k - next] == calls[..last][k - next];
      }
    } else {
      forall k | next <= k < next + |calls|
        ensures Succeeds(plans, k)
      {
        assert calls[k - next].result.Some?;
      }
    }
  }

  lemma NothingPlanned(plans: nat -> UnpackPlan, next: nat)
    ensures Planned(plans, next, [])
  {
  }

  lemma PlannedSnoc(plans: nat -> UnpackPlan, next: nat, calls: seq<UnpackCall>, call: UnpackCall)
    requires Planned(plans, next, calls) && call.result == plans(next + |calls|).result
    ensures Planned(plans, next, calls + [call])
  {
  }

  /** With working files a driver that tries to read this often gets the stream of the first acceptable
      attempt, if there is one. And if it asks for something each time, it gets at least a byte each time
      from then on, until it has the whole content. */
  ghost predicate Served(requests: seq<Length>, attempted: Attempted, stream: Option<string>, got: string) {
    && stream == attempted.stream
    && (stream.Some? && 0 !in requests ==> |got| >= Min(|requests| - attempted.used + 1, |stream.value|))
  }

  lemma ServedNothing(world: World, policy: Policy, s: Supply, layer: LayerInfo)
    requires Affordable(policy, s.remaining)
    ensures Served([], Attempts(world, policy, s, layer, 0), None, [])
    ensures Attempts(world, policy, s, layer, 0).supply == s
  {
  }

  /** One more Read: from the stream there is, or after one more attempt. */
  lemma ServedMore(world: World, policy: Policy, s: Supply, layer: LayerInfo, requests: seq<Length>, i: nat,
                   stream: Option<string>, got: string, stream': Option<string>, more: string, ended: bool)
    requires Affordable(policy, s.remaining) && i < |requests|
    requires Served(requests[..i], Attempts(world, policy, s, layer, i), stream, got)
    requires stream.Some? ==> stream' == stream
    requires var supply := Attempts(world, policy, s, layer, i).supply;
             stream.None? ==>
               match VerdictFor(world, policy, supply, layer)
               case Accepted(content) => stream' == Some(content)
               case Rejected(_) => stream'.None?
    requires stream'.Some? ==> if ended then got + more == stream'.value else requests[i] > 0 ==> |more| > 0
    ensures Served(requests[..i + 1], Attempts(world, policy, s, layer, i + 1), stream', got + more)
    ensures var supply := Attempts(world, policy, s, layer, i).supply;
            Attempts(world, policy, s, layer, i + 1).supply
            == if stream.Some? then supply else After(world, policy, supply, layer)
  {
    hide VerdictFor, After;
    assert requests[..i + 1] == requests[..i] + [requests[i]];
    AttemptsMeaning(world, policy, s, layer, i);
  }

  /** The supply for layer i, once the drivers' plans for the lower layers were followed with working
      files. */
  ghost function SupplyAt(world: World, policy: Policy, s: Supply, layers: seq<LayerInfo>, plans: nat -> UnpackPlan,
                          next: nat, i: nat): (r: Supply)
    requires Affordable(policy, s.remaining) && i <= |layers|
    ensures Affordable(policy, r.remaining)
    decreases i, 0
  {
    if i == 0 then s
    else AttemptsAt(world, policy, s, layers, plans, next, i - 1).supply
  }

  ghost function AttemptsAt(world: World, policy: Policy, s: Supply, layers: seq<LayerInfo>, plans: nat -> UnpackPlan,
                            next: nat, i: nat): (r: Attempted)
    requires Affordable(policy, s.remaining) && i < |layers|
    ensures Affordable(policy, r.supply.remaining)
    decreases i, 1
  {
    Attempts(world, policy, SupplyAt(world, policy, s, layers, plans, next, i), layers[i], |plans(next + i).requests|)
  }

  /** Every call is served as the outside world and the plans have it. */
  ghost predicate Foreseen(world: World, policy: Policy, s: Supply, layers: seq<LayerInfo>, plans: nat -> UnpackPlan,
                           next: nat, calls: seq<UnpackCall>)
    requires Affordable(policy, s.remaining)
  {
    && |calls| <= |layers|
    && forall i :: 0 <= i < |calls| ==>
         Served(plans(next + i).requests, AttemptsAt(world, policy, s, layers, plans, next, i),
                calls[i].stream, calls[i].got)
  }

  lemma NothingForeseen(world: World, policy: Policy, s: Supply, layers: seq<LayerInfo>, plans: nat -> UnpackPlan,
                        next: nat)
    requires Affordable(policy, s.remaining)
    ensures Foreseen(world, policy, s, layers, plans, next, [])
    ensures SupplyAt(world, policy, s, layers, plans, next, 0) == s
  {
  }

  lemma ForeseenSnoc(world: World, policy: Policy, s: Supply, layers: seq<LayerInfo>, plans: nat -> UnpackPlan,
                     next: nat, calls: seq<UnpackCall>, call: UnpackCall)
    requires Affordable(policy, s.remaining) && |calls| < |layers|
    requires Foreseen(world, policy, s, layers, plans, next, calls)
    requires var requests, supply := plans(next + |calls|).requests,
                                     SupplyAt(world, policy, s, layers, plans, next, |calls|);
             Served(requests, Attempts(world, policy, supply, layers[|calls|], |requests|), call.stream, call.got)
    ensures Foreseen(world, policy, s, layers, plans, next, calls + [call])
    ensures var requests, supply := plans(next + |calls|).requests,
                                    SupplyAt(world, policy, s, layers, plans, next, |calls|);
            SupplyAt(world, policy, s, layers, plans, next, |calls| + 1)
            == Attempts(world, policy, supply, layers[|calls|], |requests|).supply
  {
    hide Served, Attempts;
  }

  /** In such a run, a layer that is acceptable when its turn comes is streamed if the driver reads at
      all, and in full if it asks often enough, for something each time. */
  lemma AcceptableIsStreamed(world: World, policy: Policy, s: Supply, layers: seq<LayerInfo>, plans: nat -> UnpackPlan,
                             next: nat, calls: seq<UnpackCall>, i: nat)
    requires Affordable(policy, s.remaining) && i < |calls| <= |layers|
    requires Foreseen(world, policy, s, layers, plans, next, calls) && plans(next + i).requests != []
    requires VerdictFor(world, policy, SupplyAt(world, policy, s, layers, plans, next, i), layers[i]).Accepted?
    ensures var supply := SupplyAt(world, policy, s, layers, plans, next, i);
            var content, requests := VerdictFor(world, policy, supply, layers[i]).content, plans(next + i).requests;
            && calls[i].stream == Some(content)
            && (0 !in requests ==> |calls[i].got| >= Min(|requests|, |content|))
  {
    hide VerdictFor, After, SupplyAt;
    var supply, requests := SupplyAt(world, policy, s, layers, plans, next, i), plans(next + i).requests;
    AttemptsMeaning(world, policy, supply, layers[i], |requests|);
    assert Attempts(world, policy, supply, layers[i], 0).supply == supply;
    assert Served(requests, AttemptsAt(world, policy, s, layers, plans, next, i), calls[i].stream, calls[i].got);
  }

  class VolumeDriver {
    const plans: nat -> UnpackPlan
    var next: nat
    ghost var calls: seq<UnpackCall>

    constructor (plans: nat -> UnpackPlan)
      ensures this.plans == plans && calls == []
    {
      this.plans, next, calls := plans, 0, [];
    }

    method Unpack(layerID: string, parentIDs: seq<string>, layerTar: Reader) returns (size: int64, err: Option<Error>)
      requires layerTar.Valid() && layerTar.reader == null && this !in layerTar.Footprint()
      modifies this, layerTar.Footprint()
      ensures layerTar.Valid()
      ensures fresh(layerTar.Footprint() - old(layerTar.Footprint()))
      ensures old(layerTar.Footprint()) <= layerTar.Footprint()
      ensures layerTar.fetcher.source.fs.mishaps >= old(layerTar.fetcher.source.fs.mishaps)
      ensures err.Some? ==> err == Some(UnpackFailed)
      ensures var stream := layerTar.Stream();
              var result := if err.None? then Some(size) else None;
              var call := UnpackCall(layerID, parentIDs, layerTar.delivered, stream, result);
              && calls == old(calls) + [call]
              && result == plans(old(next)).result && next == old(next) + 1
              && (layerTar.fetcher.source.fs.mishaps == old(layerTar.fetcher.source.fs.mishaps) ==>
                    var attempted := old(layerTar.AttemptsNow(|plans(next).requests|));
                    && Served(plans(old(next)).requests, attempted, stream, layerTar.delivered)
                    && layerTar.fetcher.source.Now() == attempted.supply)
    {
      hide Sum, Wrap64, OnlyLostAdded, StrandedBytes, Vouched, Served, VerdictFor, After, Attempts, Reader.Valid;
      var plan := plans(next);
      assert plan.requests[..0] == [];
      next := next + 1;
      layerTar.NothingDeliveredYet();
      layerTar.ReadyWhileValid();
      ghost var source, layer := layerTar.fetcher.source, layerTar.layer;
      ghost var world, policy, supply := source.world, source.policy, source.Now();
      ServedNothing(world, policy, supply, layer);
      for i := 0 to |plan.requests|
        modifies layerTar.Footprint()
        invariant layerTar.Valid() && source.fs.mishaps >= old(layerTar.fetcher.source.fs.mishaps)
        invariant source.fs.mishaps == old(layerTar.fetcher.source.fs.mishaps) ==>
                    && Served(plan.requests[..i], Attempts(world, policy, supply, layer, i), layerTar.Stream(),
                              layerTar.delivered)
                    && source.Now() == Attempts(world, policy, supply, layer, i).supply
        invariant fresh(layerTar.Footprint() - old(layerTar.Footprint()))
        invariant old(layerTar.Footprint()) <= layerTar.Footprint()
      {
        var p := new char[plan.requests[i]];
        ghost var stream, got := layerTar.Stream(), layerTar.delivered;
        layerTar.ReadyWhileValid();
        var n, e := layerTar.Read(p, plan.requests[i]);
        if source.fs.mishaps == old(layerTar.fetcher.source.fs.mishaps) {
          ServedMore(world, policy, supply, layer, plan.requests, i, stream, got, layerTar.Stream(), p[..n], e.Some?);
        }
      }
      assert plan.requests[..|plan.requests|] == plan.requests;
      size, err := 0, Some(UnpackFailed);
      if plan.result.Some? {
        size, err := plan.result.value, None;
      }
      calls := calls + [UnpackCall(layerID, parentIDs, layerTar.delivered, layerTar.Stream(), plan.result)];
    }
  }

  /** The only files left are lost ones: there are none if no operation failed and no blob ID makes the
      code panic. */
  ghost predicate Tidy(files0: map<string, string>, lost0: map<string, Loss>,
                       files1: map<string, string>, lost1: map<string, Loss>, mishaps: nat, named: bool)
  {
    && OnlyLostAdded(files0, lost0, files1, lost1, {})
    && (mishaps == 0 && named ==> files1 == files0 && lost1 == lost0)
  }

  lemma TidyTransitive(files0: map<string, string>, lost0: map<string, Loss>,
                       files1: map<string, string>, lost1: map<string, Loss>,
                       files2: map<string, string>, lost2: map<string, Loss>,
                       mishaps: nat, mishaps': nat, named: bool, named': bool)
    requires Tidy(files0, lost0, files1, lost1, mishaps, named)
    requires Tidy(files1, lost1, files2, lost2, mishaps', named') && (named ==> named')
    ensures Tidy(files0, lost0, files2, lost2, mishaps + mishaps', named)
  {
    hide OnlyLostAdded;
    OnlyLostAddedTransitive(files0, lost0, files1, lost1, files2, lost2, {});
  }

  lemma NothingToTidy(files: map<string, string>, lost: map<string, Loss>, named: bool)
    requires lost.Keys <= files.Keys
    ensures Tidy(files, lost, files, lost, 0, named)
  {
  }

  /** This holds since an earlier moment, and no descriptor is left open. */
  twostate predicate CleanedUp(fs: FileSystem, new named: bool)
    reads fs
  {
    && fs.fds == old(fs.fds) && old(fs.mishaps) <= fs.mishaps
    && Tidy(old(fs.files), old(fs.lost), fs.files, fs.lost, fs.mishaps - old(fs.mishaps), named)
  }

  class ImagePuller {
    const fetcher: LayerFetcher
    const volumeDriver: VolumeDriver

    constructor (fetcher: LayerFetcher, volumeDriver: VolumeDriver)
      ensures this.fetcher == fetcher && this.volumeDriver == volumeDriver
    {
      this.fetcher, this.volumeDriver := fetcher, volumeDriver;
    }

    ghost function Footprint(): set<object>
      reads fetcher.source
    {
      {volumeDriver, fetcher.source.fs} + fetcher.source.Footprint()
    }

    method BuildLayer(layer: LayerInfo, parentChainIDs: seq<string>) returns (builtBytes: int64, err: Option<Error>)
      requires fetcher.Ready()
      modifies Footprint()
      ensures fetcher.Ready() && CleanedUp(fetcher.source.fs, ':' in layer.blobID)
      ensures fresh(Footprint() - old(Footprint())) && old(Footprint()) <= Footprint()
      ensures var calls := volumeDriver.calls;
              && |calls| == |old(volumeDriver.calls)| + 1
              && var call := calls[|calls| - 1];
              && calls == old(volumeDriver.calls) + [call]
              && call.layerID == layer.chainID && call.parentIDs == parentChainIDs
              && ReadsOnly(fetcher.source.world.codec, fetcher.source.policy, layer, call)
              && Paid(fetcher.source, [call])
              && call.result == volumeDriver.plans(old(volumeDriver.next)).result
              && call.result == if err.None? then Some(builtBytes) else None
      ensures volumeDriver.next == old(volumeDriver.next) + 1
      ensures err.Some? ==> err == Some(UnpackFailed)
      ensures fetcher.source.fs.mishaps == old(fetcher.source.fs.mishaps) ==>
                var requests := volumeDriver.plans(old(volumeDriver.next)).requests;
                var attempted := Attempts(fetcher.source.world, fetcher.source.policy, old(fetcher.source.Now()), layer,
                                          |requests|);
                var call := volumeDriver.calls[|volumeDriver.calls| - 1];
                && Served(requests, attempted, call.stream, call.got)
                && fetcher.source.Now() == attempted.supply
    {
      hide Served, Attempts, LayerSource.Now, LayerSource.Expected, Reader.Expectation;
      hide Sum, Wrap64, OnlyLostAdded, StrandedBytes, Vouched;
      var onDemandReader := new Reader(fetcher, layer);
      builtBytes, err := volumeDriver.Unpack(layer.chainID, parentChainIDs, onDemandReader);
      onDemandReader.Close();
      NothingLeftIffNothingLost(old(fetcher.source.fs.files), old(fetcher.source.fs.lost),
                                fetcher.source.fs.files, fetcher.source.fs.lost);
      StreamedOne(volumeDriver.calls[|volumeDriver.calls| - 1]);
    }

    method BuildLayers(layers: seq<LayerInfo>)
      returns (totalBytes: int64, err: Option<Error>, ghost unpacked: seq<UnpackCall>)
      requires fetcher.Ready()
      modifies Footprint()
      ensures fetcher.Ready() && CleanedUp(fetcher.source.fs, WellNamed(layers))
      ensures fresh(Footprint() - old(Footprint())) && old(Footprint()) <= Footprint()
      ensures volumeDriver.calls == old(volumeDriver.calls) + unpacked
      ensures InOrder(fetcher.source.world.codec, fetcher.source.policy, layers, unpacked)
      ensures err.None? ==> |unpacked| == |layers| && AllSucceed(unpacked)
      ensures err.None? ==> totalBytes == Wrap64(Sum(UnpackedSizes(unpacked)))
      ensures err.Some? ==> StopsAtFailure(unpacked) && err == Some(UnpackFailed)
      ensures volumeDriver.next == old(volumeDriver.next) + |unpacked|
      ensures Planned(volumeDriver.plans, old(volumeDriver.next), unpacked)
      ensures fetcher.source.fs.mishaps == old(fetcher.source.fs.mishaps) ==>
                Foreseen(fetcher.source.world, fetcher.source.policy, old(fetcher.source.Now()), layers,
                         volumeDriver.plans, old(volumeDriver.next), unpacked)
      ensures Paid(fetcher.source, unpacked)
    {
      hide Sum, Wrap64, OnlyLostAdded, StrandedBytes, InOrder, AllSucceed, StopsAtFailure, ReadsOnly, UnpackedSizes;
      hide Affordable, WellNamed, Tidy, Balanced, Planned, Foreseen, SupplyAt, AttemptsAt, Attempts, Served, ChainIDs;
      hide LayerFetcher.Ready, LayerSource.Now, LayerSource.Valid, LayerSource.Accounted;
      var fs := fetcher.source.fs;
      ghost var world, policy, codec := fetcher.source.world, fetcher.source.policy, fetcher.source.world.codec;
      ghost var plans, next, supply := volumeDriver.plans, volumeDriver.next, fetcher.source.Now();
      fetcher.NothingLostYet();
      fetcher.AffordsLayers();
      NothingForeseen(world, policy, supply, layers, plans, next);
      NothingToTidy(fs.files, fs.lost, WellNamed(layers));
      totalBytes, unpacked := 0, [];
      EmptyTrace(codec, policy, layers);
      NothingPaid(fetcher.source);
      NothingPlanned(volumeDriver.plans, volumeDriver.next);
      for i := 0 to |layers|
        invariant fetcher.Ready() && CleanedUp(fs, WellNamed(layers))
        invariant fresh(Footprint() - old(Footprint())) && old(Footprint()) <= Footprint()
        invariant volumeDriver.calls == old(volumeDriver.calls) + unpacked
        invariant |unpacked| == i && InOrder(codec, policy, layers, unpacked) && AllSucceed(unpacked)
        invariant totalBytes == Wrap64(Sum(UnpackedSizes(unpacked)))
        invariant Paid(fetcher.source, unpacked)
        invariant volumeDriver.next == old(volumeDriver.next) + i
        invariant Planned(volumeDriver.plans, old(volumeDriver.next), unpacked)
        invariant fs.mishaps == old(fs.mishaps) ==>
                    && Foreseen(world, policy, supply, layers, plans, next, unpacked)
                    && fetcher.source.Now() == SupplyAt(world, policy, supply, layers, plans, next, i)
      {
        ghost var files, lost, mishaps := fs.files, fs.lost, fs.mishaps;
        ghost var paid, stranded := Sum(fetcher.source.charged), StrandedBytes(files, lost);
        WellNamedAt(layers, i);
        var builtBytes;
        builtBytes, err := BuildLayer(layers[i], ChainIDs(layers[..i]));
        TidyTransitive(old(fs.files), old(fs.lost), files, lost, fs.files, fs.lost,
                       mishaps - old(fs.mishaps), fs.mishaps - mishaps, WellNamed(layers), ':' in layers[i].blobID);
        ghost var call := volumeDriver.calls[|volumeDriver.calls| - 1];
        ExtendTrace(codec, policy, layers, unpacked, call);
        PlannedSnoc(volumeDriver.plans, old(volumeDriver.next), unpacked, call);
        if fs.mishaps == old(fs.mishaps) {
          ForeseenSnoc(world, policy, supply, layers, plans, next, unpacked, call);
        }
        BalancedSnoc(paid - Sum(old(fetcher.source.charged)), stranded - old(StrandedBytes(fs.files, fs.lost)),
                     mishaps - old(fs.mishaps), unpacked,
                     Sum(fetcher.source.charged) - paid, StrandedBytes(fs.files, fs.lost) - stranded,
                     fs.mishaps - mishaps, call);
        unpacked := unpacked + [call];
        if err.Some? {
          return 0, err, unpacked;
        }
        totalBytes := Wrap64(totalBytes + builtBytes);
      }
      err := None;
    }

    /** Unpacks the layers of an image in order, unless there is no usable manifest or it is
        beyond the limit already. */
    method Pull(spec: ImageSpec)
      returns (image: Image, err: Option<Error>, ghost manifest: Option<Document>, ghost unpacked: seq<UnpackCall>)
      requires fetcher.Ready()
      modifies Footprint()
      ensures fetcher.Ready()
      ensures fresh(Footprint() - old(Footprint())) && old(Footprint()) <= Footprint()
      ensures volumeDriver.calls == old(volumeDriver.calls) + unpacked
      ensures manifest == old(fetcher.source.NextManifest())
      ensures Describable(manifest) ==>
                var entries := manifest.value.layers;
                err == Some(LayersExceedQuota) <==>
                  && !spec.excludeImageFromQuota && spec.diskLimit != 0
                  && Wrap64(Sum(seq(|entries|, i requires 0 <= i < |entries| => entries[i].size as int)))
                     > spec.diskLimit
      ensures Traced(fetcher.source.world.codec.hash, spec, manifest, err, unpacked)
      ensures Planned(volumeDriver.plans, old(volumeDriver.next), unpacked)
      ensures fetcher.source.fs.mishaps == old(fetcher.source.fs.mishaps) ==>
                Foreseen(fetcher.source.world, fetcher.source.policy, old(fetcher.source.ForLayers()),
                         LayersOf(fetcher.source.world.codec.hash, manifest), volumeDriver.plans,
                         old(volumeDriver.next), unpacked)
      ensures var layers := LayersOf(fetcher.source.world.codec.hash, manifest);
              && CleanedUp(fetcher.source.fs, WellNamed(layers))
              && InOrder(fetcher.source.world.codec, fetcher.source.policy, layers, unpacked)
              && (err.None? <==> Describable(manifest) && Complete(layers, spec, unpacked))
              && (err.None? ==>
                    && image.chainIDs == ChainIDs(layers)
                    && image.size == Wrap64(Sum(UnpackedSizes(unpacked)))
                    && image.env == manifest.value.config.value.env)
      ensures Paid(fetcher.source, unpacked)
    {
      hide Sum, Wrap64, OnlyLostAdded, StrandedBytes, InOrder, AllSucceed, StopsAtFailure, UnpackedSizes;
      hide ExceedsLimit, Planned, Foreseen, LayerFetcher.Ready, WellNamed, LayerInfos;
      hide LayerSource.NextManifest, LayerSource.ForLayers, LayerSource.Now;
      fetcher.AffordsLayers();
      image, unpacked := Image([], [], 0), [];
      NothingStreamed();
      NothingPlanned(volumeDriver.plans, volumeDriver.next);
      fetcher.NothingLostYet();
      var layerInfos, env;
      layerInfos, env, err, manifest := fetcher.ImageInfo();
      ghost var layers := LayersOf(fetcher.source.world.codec.hash, manifest);
      if Describable(manifest) {
        ExceedsByDocument(fetcher.source.world.codec.hash, manifest, spec);
      }
      EmptyTrace(fetcher.source.world.codec, fetcher.source.policy, layers);
      NothingToTidy(fetcher.source.fs.files, fetcher.source.fs.lost, WellNamed(layers));
      NothingForeseen(fetcher.source.world, fetcher.source.policy, old(fetcher.source.ForLayers()), layers,
                      volumeDriver.plans, volumeDriver.next);
      if err.Some? {
        return;
      }
      err := QuotaExceeded(layerInfos, spec);
      if err.Some? {
        return;
      }
      var imageSize;
      imageSize, err, unpacked := BuildLayers(layerInfos);
      if err.Some? {
        StoppedIsNotComplete(layerInfos, spec, unpacked);
        return;
      }
      image := Image(env, ChainIDs(layerInfos), imageSize);
    }
  }
}
