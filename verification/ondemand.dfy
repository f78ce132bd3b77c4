/** The lazy reader: the layer is streamed only once its content is first asked for. */
module OnDemand {
  import opened Basics
  import opened Streams
  import opened Files
  import opened Images
  import opened Judgement
  import opened LayerSources
  import opened LayerFetchers

  /** Why a Read stops: the stream ended, or there was none to be had. */
  datatype Refusal = Ended(end: Ending) | NotCreated(error: Error)

  /** Trying again until there is a stream, with working files: what is left then, the content of the
      stream, and the attempts it took. */
  datatype Attempted = Attempted(supply: Supply, stream: Option<string>, used: nat)

  function Attempts(world: World, policy: Policy, s: Supply, layer: LayerInfo, most: nat): (a: Attempted)
    requires Affordable(policy, s.remaining)
    ensures Affordable(policy, a.supply.remaining)
  {
    if most == 0 then Attempted(s, None, 0)
    else
      var before := Attempts(world, policy, s, layer, most - 1);
      if before.stream.Some? then before
      else
        var left := After(world, policy, before.supply, layer);
        match VerdictFor(world, policy, before.supply, layer)
        case Rejected(_) => Attempted(left, None, before.used + 1)
        case Accepted(content) => Attempted(left, Some(content), before.used + 1)
  }

  /** The stream is that of the first attempt for which the layer is acceptable; without one, every
      attempt was used. */
  lemma {:induction false} AttemptsMeaning(world: World, policy: Policy, s: Supply, layer: LayerInfo, most: nat)
    requires Affordable(policy, s.remaining)
    ensures var a := Attempts(world, policy, s, layer, most);
            && a.used <= most && (a.stream.None? ==> a.used == most)
            && a == Attempts(world, policy, s, layer, a.used)
            && (forall j: nat :: j < a.used - (if a.stream.Some? then 1 else 0) ==>
                  VerdictFor(world, policy, Attempts(world, policy, s, layer, j).supply, layer).Rejected?)
            && (a.stream.Some? ==>
                  && 0 < a.used
                  && VerdictFor(world, policy, Attempts(world, policy, s, layer, a.used - 1).supply, layer)
                     == Accepted(a.stream.value))
  {
    hide VerdictFor, After;
    if most > 0 {
      AttemptsMeaning(world, policy, s, layer, most - 1);
    }
  }

  class Reader {
    const fetcher: LayerFetcher
    const layer: LayerInfo
    var reader: BlobReader?
    /** Everything handed out so far. */
    ghost var delivered: string
    /** The content of the stream, once there is one. */
    ghost var content: string
    /** The quota's account and the file system when the reader was made. */
    ghost const charged0: seq<nat>
    ghost const files0: map<string, string>
    ghost const fds0: map<nat, Descriptor>
    ghost const lost0: map<string, Loss>
    ghost const mishaps0: nat

    ghost function Footprint(): set<object>
      reads this, fetcher.source
    {
      {this, fetcher.source.fs} + fetcher.source.Footprint()
    }

    /** A file is lost only to a failing operation, or to a blob ID that makes the code panic. */
    ghost predicate Excused()
      reads fetcher.source.fs
    {
      && mishaps0 <= fetcher.source.fs.mishaps
      && (mishaps0 == fetcher.source.fs.mishaps && ':' in layer.blobID ==> fetcher.source.fs.lost == lost0)
    }

    /** Charged to the quota are the content of the stream and what attempts before it stranded:
        nothing, unless an operation failed. */
    ghost predicate Paid()
      reads this, fetcher.source, fetcher.source.fs
    {
      var stranded := StrandedBytes(fetcher.source.fs.files, fetcher.source.fs.lost) - StrandedBytes(files0, lost0);
      var streamed := if reader == null then 0 else |content|;
      && 0 <= stranded && (mishaps0 == fetcher.source.fs.mishaps ==> stranded == 0)
      && Sum(fetcher.source.charged) - Sum(charged0) == streamed + stranded
    }

    /** Until the stream is created nothing is left of any attempt; from then on there is one
        file, which holds what the layer's diffID names, and one open descriptor, which stands
        right behind what was handed out. */
    ghost predicate Valid()
      reads this, fetcher.source, fetcher.source.Footprint(), fetcher.source.fs
    {
      var fs := fetcher.source.fs;
      && fetcher.Ready()
      && (forall fd :: fd in fds0 ==> fds0[fd].name in files0)
      && Excused() && Paid()
      && if reader == null then
           && delivered == []
           && fs.fds == fds0
           && OnlyLostAdded(files0, lost0, fs.files, fs.lost, {})
         else
           && reader.fs == fs && reader.fd !in fds0
           && delivered <= content
           && Vouched(fetcher.source.world.codec, fetcher.source.policy, layer, content)
           && fs.fds == fds0[reader.fd := Descriptor(reader.filePath, |delivered|)]
           && OnlyLostAdded(files0, lost0, fs.files, fs.lost, {reader.filePath})
           && fs.files[reader.filePath] == content
    }

    /** What creating the stream would come to now. */
    ghost function Expectation(): Verdict
      requires Valid()
      reads this, fetcher.source, fetcher.source.Footprint(), fetcher.source.fs
    {
      fetcher.source.Expected(layer)
    }

    /** What trying again so many times would come to. */
    ghost function AttemptsNow(most: nat): Attempted
      requires Valid()
      reads this, fetcher.source, fetcher.source.Footprint(), fetcher.source.fs
    {
      Attempts(fetcher.source.world, fetcher.source.policy, fetcher.source.Now(), layer, most)
    }

    ghost function Stream(): Option<string>
      reads this
    {
      if reader == null then None else Some(content)
    }

    /** The verdict to expect is that on the supply there is. */
    lemma ReadyWhileValid()
      requires Valid()
      ensures Affordable(fetcher.source.policy, fetcher.source.Now().remaining)
      ensures Expectation() == VerdictFor(fetcher.source.world, fetcher.source.policy, fetcher.source.Now(), layer)
    {
    }

    lemma NothingDeliveredYet()
      requires Valid() && reader == null
      ensures delivered == []
    {
    }

    constructor (fetcher: LayerFetcher, layer: LayerInfo)
      requires fetcher.Ready()
      ensures Valid() && reader == null && this.fetcher == fetcher && this.layer == layer
      ensures files0 == fetcher.source.fs.files && fds0 == fetcher.source.fs.fds
      ensures lost0 == fetcher.source.fs.lost && mishaps0 == fetcher.source.fs.mishaps
      ensures charged0 == fetcher.source.charged && Expectation() == fetcher.source.Expected(layer)
    {
      this.fetcher, this.layer, reader := fetcher, layer, null;
      delivered, content := [], [];
      files0, fds0, lost0 := fetcher.source.fs.files, fetcher.source.fs.fds, fetcher.source.fs.lost;
      mishaps0, charged0 := fetcher.source.fs.mishaps, fetcher.source.charged;
      NoneLost(fetcher.source.fs.files, fetcher.source.fs.lost);
    }

    /** Create: asks the fetcher for the stream. After a failure there is no stream, so it can be
        tried again; what the failure may leave is a lost file, charged if it could not be reopened. */
    method Create() returns (err: Option<Error>)
      requires Valid() && reader == null
      modifies this, fetcher.source.Footprint(), fetcher.source.fs
      ensures Valid() && delivered == []
      ensures fresh(Footprint() - old(Footprint())) && old(Footprint()) <= Footprint()
      ensures reader != null <==> err.None?
      ensures reader != null ==> old(Expectation()) == Accepted(content)
      ensures fetcher.source.fs.mishaps == old(fetcher.source.fs.mishaps) ==>
                err == Failure(old(Expectation())) && fetcher.source.Now() == old(fetcher.source.Next(layer))
      ensures fetcher.source.fs.mishaps >= old(fetcher.source.fs.mishaps)
    {
      hide Sum, Wrap64, Vouched, OnlyLostAdded, StrandedBytes, Affordable;
      hide LayerSource.Undone, LayerSource.Charged, LayerFetcher.Stranded;
      hide LayerSource.NextLength, LayerSource.Next, LayerSource.Now, LayerSource.Expected;
      hide LayerSource.Valid, LayerSource.Accounted;
      fetcher.source.ExpectedIsVouchedFor(layer);
      ghost var expected := fetcher.source.Expected(layer);
      var fs := fetcher.source.fs;
      ghost var files, fds, lost := fs.files, fs.fds, fs.lost;
      var stream, blobSize;
      stream, blobSize, err := fetcher.StreamBlob(layer);
      fetcher.ChargedIsStreamedOrStranded(stream, err, expected);
      if err.Some? {
        OnlyLostAddedTransitive(files0, lost0, files, lost, fs.files, fs.lost, {});
        return;
      }
      OneKept(files0, lost0, files, lost, stream.filePath, expected.content);
      content := expected.content;
      reader := stream;
    }

    method ReadStream(p: array<char>, len: Length) returns (n: nat, err: Option<Refusal>)
      requires Valid() && len <= p.Length && p !in Footprint() && reader != null
      modifies this`delivered, fetcher.source.fs`clock, fetcher.source.fs`fds, fetcher.source.fs`mishaps, p
      ensures Valid() && n <= len && delivered == old(delivered) + p[..n]
      ensures err.Some? ==> err.value.Ended?
      ensures fetcher.source.fs.mishaps >= old(fetcher.source.fs.mishaps)
      ensures fetcher.source.fs.mishaps == old(fetcher.source.fs.mishaps) ==> err.None? || err == Some(Ended(Eof))
      ensures err.None? && len > 0 ==> n > 0
      ensures err == Some(Ended(Eof)) ==> delivered == content
    {
      hide OnlyLostAdded, StrandedBytes, Vouched, FileSystem.Valid;
      hide LayerSource.Valid, LayerSource.Accounted, LayerSource.Footprint;
      OnlyKept(files0, lost0, fetcher.source.fs.files, fetcher.source.fs.lost, reader.filePath);
      ghost var pos := |delivered|;
      var end;
      n, end := reader.Read(p, len);
      UpdateTwice(fds0, reader.fd, Descriptor(reader.filePath, pos), Descriptor(reader.filePath, pos + n));
      assert content[..pos + n] == content[..pos] + content[pos..pos + n];
      delivered := delivered + p[..n];
      err := if end.None? then None else Some(Ended(end.value));
    }

    /** The first Read that gets a stream keeps it: no other one is ever asked for. What is
        handed out comes in order from the front of the content. */
    method Read(p: array<char>, len: Length) returns (n: nat, err: Option<Refusal>)
      requires Valid() && len <= p.Length && p !in Footprint()
      modifies Footprint(), p
      ensures Valid()
      ensures fresh(Footprint() - old(Footprint())) && old(Footprint()) <= Footprint()
      ensures n <= len && delivered == old(delivered) + p[..n]
      ensures reader == null <==> err.Some? && err.value.NotCreated?
      ensures old(reader) != null ==> reader == old(reader) && content == old(content)
      ensures old(reader) != null ==> unchanged(fetcher.source) && unchanged(fetcher.source.Footprint())
      ensures old(reader) == null && reader != null ==> old(Expectation()) == Accepted(content)
      ensures fetcher.source.fs.mishaps == old(fetcher.source.fs.mishaps) ==>
                && (old(reader) == null && reader == null ==> old(Expectation()) == Rejected(err.value.error))
                && (reader != null ==> err.None? || err == Some(Ended(Eof)))
                && (old(reader) == null ==> fetcher.source.Now() == old(fetcher.source.Next(layer)))
      ensures err == Some(Ended(Eof)) ==> delivered == content
      ensures err.None? && len > 0 ==> n > 0
      ensures fetcher.source.fs.mishaps >= old(fetcher.source.fs.mishaps)
    {
      hide Sum, Wrap64, OnlyLostAdded, StrandedBytes, Vouched;
      if reader == null {
        var e := Create();
        if e.Some? {
          assert p[..0] == [];
          return 0, Some(NotCreated(e.value));
        }
      }
      n, err := ReadStream(p, len);
    }

    /** Closes and removes the file if there is one. */
    method Close()
      requires Valid()
      modifies fetcher.source.fs
      ensures fetcher.Ready() && Excused() && Paid() && fetcher.source.fs.mishaps >= old(fetcher.source.fs.mishaps)
      ensures fetcher.source.fs.fds == fds0
      ensures OnlyLostAdded(files0, lost0, fetcher.source.fs.files, fetcher.source.fs.lost, {})
    {
      hide Sum, Wrap64, StrandedBytes, Vouched, FileSystem.Valid, LayerSource.Valid, LayerSource.Accounted;
      if reader != null {
        OnlyKept(files0, lost0, fetcher.source.fs.files, fetcher.source.fs.lost, reader.filePath);
        NotStranded(fetcher.source.fs.files, fetcher.source.fs.lost, reader.filePath);
        var ok := reader.Close();
      }
    }
  }
}
