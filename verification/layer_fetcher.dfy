/** The layer fetcher: describes an image's layers, and streams a layer from the temporary file
    that its source made of it. */
module LayerFetchers {
  import opened Basics
  import opened Streams
  import opened Files
  import opened Images
  import opened Judgement
  import opened LayerChains
  import opened LayerSources

  /** Reads a file that closing it removes. */
  class BlobReader {
    const fs: FileSystem
    const fd: nat
    const filePath: string

    constructor (fs: FileSystem, fd: nat, filePath: string)
      ensures this.fs == fs && this.fd == fd && this.filePath == filePath
    {
      this.fs, this.fd, this.filePath := fs, fd, filePath;
    }

    method Read(p: array<char>, len: Length) returns (n: nat, err: Option<Ending>)
      requires fs.Valid() && fd in fs.fds && fs.fds[fd].name == filePath && len <= p.Length
      modifies fs`clock, fs`fds, fs`mishaps, p
      ensures fs.Valid() && fs.mishaps >= old(fs.mishaps)
      ensures var pos := old(fs.fds[fd].pos);
              && n <= len && pos + n <= |fs.files[filePath]|
              && fs.fds == old(fs.fds)[fd := Descriptor(filePath, pos + n)]
              && p[..n] == fs.files[filePath][pos..pos + n]
              && (err == Some(Eof) ==> pos == |fs.files[filePath]|)
              && (err.None? && len > 0 ==> n > 0)
              && (err == Some(Eof) || err.None? <==> fs.mishaps == old(fs.mishaps))
    {
      n, err := fs.Read(fd, p, len);
    }

    method Close() returns (ok: bool)
      requires fs.Valid() && fd in fs.fds && filePath in fs.files && filePath !in fs.lost
      requires forall other :: other in fs.fds && other != fd ==> fs.fds[other].name != filePath
      modifies fs`clock, fs`files, fs`fds, fs`mishaps, fs`refusals, fs`lost
      ensures fs.Valid() && fs.fds == old(fs.fds) - {fd} && fs.mishaps >= old(fs.mishaps)
      ensures ok <==> fs.mishaps == old(fs.mishaps)
      ensures fs.files == if ok then old(fs.files) - {filePath} else old(fs.files)
      ensures fs.lost == if ok then old(fs.lost) else old(fs.lost)[filePath := RemoveDenied]
    {
      fs.Close(fd);
      ok := fs.Remove(filePath);
    }
  }

  class LayerFetcher {
    const source: LayerSource

    constructor (source: LayerSource)
      ensures this.source == source
    {
      this.source := source;
    }

    /** The source can deliver another blob. */
    ghost predicate Ready()
      reads source, source.Footprint(), source.fs
    {
      source.Valid() && source.fs.Valid() && Affordable(source.policy, source.remainingImageQuota)
    }

    lemma NothingLostYet()
      requires Ready()
      ensures source.fs.lost.Keys <= source.fs.files.Keys
      ensures OnlyLostAdded(source.fs.files, source.fs.lost, source.fs.files, source.fs.lost, {})
    {
      NoneLost(source.fs.files, source.fs.lost);
    }

    lemma AffordsLayers()
      requires Ready()
      ensures Affordable(source.policy, source.Now().remaining)
      ensures Affordable(source.policy, source.ForLayers().remaining)
    {
    }

    /** The layers of the manifest, named by the chain IDs over its diffIDs; without a diffID
        for each of them the code panics. */
    method ImageInfo()
      returns (layerInfos: seq<LayerInfo>, env: seq<string>, err: Option<Error>, ghost manifest: Option<Document>)
      requires Ready()
      modifies source.Footprint()
      ensures Ready() && source.charged == old(source.charged)
      ensures fresh(source.Footprint() - old(source.Footprint())) && old(source.Footprint()) <= source.Footprint()
      ensures manifest == old(source.NextManifest())
      ensures manifest.Some? ==> source.Now() == old(source.ForLayers())
      ensures match manifest
              case None => err.Some? && err != Some(Panic)
              case Some(document) =>
                match document.config
                case None => err == Some(ConfigFailed)
                case Some(config) =>
                  if !Usable(config.diffIDs, |document.layers|) then err == Some(Panic)
                  else
                    && err.None? && env == config.env
                    && layerInfos == LayerInfos(source.world.codec.hash, document.layers, config.diffIDs)
                    && Described(source.world.codec.hash, document.layers, config.diffIDs, layerInfos)
    {
      layerInfos, env := [], [];
      var image;
      ghost var original, blobs;
      image, err, original, blobs := source.Manifest();
      manifest := image;
      if err.Some? {
        return;
      }
      if image.value.config.None? {
        return [], [], Some(ConfigFailed), manifest;
      }
      var config := image.value.config.value;
      var infos := CreateLayerInfos(source.world.codec.hash, image.value.layers, config.diffIDs);
      if infos.None? {
        return [], [], Some(Panic), manifest;
      }
      layerInfos, env := infos.value, config.env;
    }

    /** A new file with this content stays behind, and is charged. */
    twostate predicate Stranded(name: string, content: string)
      reads source, source.fs
    {
      && name !in old(source.fs.files)
      && source.fs.files == old(source.fs.files)[name := content]
      && source.fs.lost == old(source.fs.lost)[name := ReopenDenied]
      && source.Charged(content)
    }

    /** The reader is at the start of a new file with this content, which is charged. */
    twostate predicate Opened(new reader: BlobReader, content: string)
      reads source, source.fs
    {
      && source.Charged(content)
      && reader.fs == source.fs
      && reader.filePath !in old(source.fs.files)
      && source.fs.files == old(source.fs.files)[reader.filePath := content]
      && source.fs.lost == old(source.fs.lost)
      && reader.fd !in old(source.fs.fds)
      && source.fs.fds == old(source.fs.fds)[reader.fd := Descriptor(reader.filePath, 0)]
    }

    /** What a verdict comes to: a stream of the accepted content, that content stranded, or nothing;
        nothing only for the verdict's own reason or a failing operation. */
    twostate predicate StreamOutcome(new reader: BlobReader?, new err: Option<Error>, verdict: Verdict)
      reads source, source.fs
    {
      var mishap := source.fs.mishaps > old(source.fs.mishaps);
      && (reader != null <==> err.None?)
      && match err
         case None => !mishap && verdict.Accepted? && Opened(reader, verdict.content)
         case Some(ReopenFailed) => mishap && verdict.Accepted? && exists name :: Stranded(name, verdict.content)
         case Some(error) => LayerSource.Explained(err, verdict, mishap) && source.Undone(error)
    }

    /** What is charged is streamed or stranded. */
    twostate lemma ChargedIsStreamedOrStranded(new reader: BlobReader?, new err: Option<Error>, verdict: Verdict)
      requires old(source.fs.Valid()) && StreamOutcome(reader, err, verdict)
      ensures var stranded := StrandedBytes(source.fs.files, source.fs.lost)
                              - old(StrandedBytes(source.fs.files, source.fs.lost));
              && 0 <= stranded && (err != Some(ReopenFailed) ==> stranded == 0)
              && Sum(source.charged) - Sum(old(source.charged))
                 == stranded + if err.None? then |verdict.content| else 0
    {
      hide OnlyLostAdded, Sum, StrandedBytes, LayerSource.Explained;
      var files, lost := old(source.fs.files), old(source.fs.lost);
      if verdict.Accepted? {
        SumSnoc(old(source.charged), |verdict.content|);
      }
      if err.None? {
        NoneLost(files, lost);
        OneKept(files, lost, files, lost, reader.filePath, verdict.content);
        NoneStranded(files, lost, source.fs.files, source.fs.lost, {reader.filePath});
      } else if err == Some(ReopenFailed) {
        var name :| Stranded(name, verdict.content);
        OneStranded(files, lost, name, verdict.content);
      } else {
        NoneStranded(files, lost, source.fs.files, source.fs.lost, {});
      }
    }

    /** A reader over the verified content of a layer. Exactly when the temporary file is there but
        cannot be reopened, it stays behind, charged; after any other error the quota is as before. */
    method StreamBlob(layer: LayerInfo) returns (reader: BlobReader?, size: int64, err: Option<Error>)
      requires Ready()
      modifies source.Footprint(), source.fs
      ensures Ready()
      ensures fresh(source.Footprint() - old(source.Footprint())) && old(source.Footprint()) <= source.Footprint()
      ensures err.Some? ==> source.fs.fds == old(source.fs.fds)
      ensures err.Some? ==>
                OnlyLostAdded(old(source.fs.files), old(source.fs.lost), source.fs.files, source.fs.lost, {})
      ensures err.Some? && source.fs.mishaps == old(source.fs.mishaps) && ':' in layer.blobID ==>
                source.fs.lost == old(source.fs.lost)
      ensures StreamOutcome(reader, err, old(source.Expected(layer)))
      ensures source.fs.mishaps >= old(source.fs.mishaps)
      ensures source.fs.denials > old(source.fs.denials) <==> err == Some(ReopenFailed)
      ensures source.fs.mishaps == old(source.fs.mishaps) ==> source.Now() == old(source.Next(layer))
      ensures if err.None? then old(source.NextLength(layer)) == Some(size) else size == 0
    {
      hide Sum, Wrap64, OnlyLostAdded, Affordable, FileSystem.Valid;
      hide LayerSource.Undone, LayerSource.Charged, LayerSource.Footprint;
      hide LayerSource.Valid, LayerSource.Expected, LayerSource.Accounted;
      hide LayerSource.NextOffer, LayerSource.NextLength, LayerSource.Next;
      source.fs.LostAreFiles();
      if source.Expected(layer) == Rejected(Panic) {
        source.PanicNeedsURLs(layer);
      }
      if source.Expected(layer).Rejected? {
        source.ReasonsToReject(layer);
      }
      var blobFilePath;
      blobFilePath, size, err := source.Blob(layer);
      if err.Some? {
        source.UndoneLeaves(err.value);
        return null, 0, err;
      }
      var fd := source.fs.Open(blobFilePath);
      if fd.None? {
        ghost var content := source.fs.files[blobFilePath];
        source.fs.Lose(blobFilePath, ReopenDenied);
        OneLost(old(source.fs.files), old(source.fs.lost), blobFilePath, content, ReopenDenied);
        assert Stranded(blobFilePath, content);
        return null, 0, Some(ReopenFailed);
      }
      reader := new BlobReader(source.fs, fd.value, blobFilePath);
    }

    method Close()
      requires source.Valid()
      modifies source.Footprint() - {source}
      ensures source.Finished()
    {
      source.Close();
    }
  }
}
