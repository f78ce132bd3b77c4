# groot: the quota-limited, verified image pull

groot pulls a container image layer by layer: it fetches each compressed blob from a registry or
an OCI layout, unpacks it into a temporary file under a disk quota, checks two digests on the way,
and hands the file to a volume driver under a name derived from the layer's content. This project
models that pipeline, from the bytes of a blob stream to the `create` command, and proves what it
promises for every chunking of every stream, every answer of the registry, every failing file
operation and every volume driver.

Check it with `dafny verify dfyconfig.toml`.

## How it is modelled

* **Streams.** A reader is specified by the stream it still has to deliver: its bytes and how it
  ends (`Streams`). The quota is a function on streams (`Cut`), gunzip is an arbitrary partial
  function on streams (`Gunzip`), SHA-256 an arbitrary function on byte sequences (`Codec`). Only
  this is assumed of gunzip: it reports EOF only on input that itself ends with EOF. Of the hash
  nothing is assumed, except in the lemmas about names, which state what they need (such as
  `Collisionless`).
* **Readers** (`readers.dfy`). `TeeReader`, `GzipReader`, `QuotaedReader` and the network stream
  are classes; Go's `io.ReadCloser` is a datatype of references to them and `ReadFrom` its
  dispatch. A network stream hands over its bytes as a script decides: short reads, stalls, the
  end together with the last bytes or alone, an error instead of EOF. The decompressor fetches and
  hands over in the same way. A read error says no more than that the stream was interrupted.
* **Outside world.** The registry, the schema conversion, the volume driver, the image driver and
  the operating system are oracles: total functions from the number of an attempt to its outcome.
  `FileSystem.mishaps` counts the file operations that failed, `denials` and `refusals` those among
  them that were to open or to remove a file. A volume driver follows a script of
  reads and a result; a driver that adapts to what it reads behaves, in any one run, like one such
  script, so the theorems cover it. It does not use the reader after Unpack returns.
* **Panics.** A Go run-time panic is the error `Panic`; deferred cleanups see no error then. A
  driver that recovers from a panic inside Read may go on reading.
* **int64** is bounded, and all of its arithmetic wraps (`Wrap64`, `WrapExactly`).
* **Bytes.** Go strings and byte slices are both `string`.
* **Lost files.** `FileSystem.lost` records every file that stays behind, with the reason.
* **Quota at every instant.** Every write carries the room it must stay within, and `Room` is the
  room of a blob: what the delivered blobs leave of the limit, plus one byte.
* **The limit is conserved.** `Paid` follows the quota from a blob to a whole pull: what is charged is
  what was streamed to the volume driver plus what was stranded by failed re-opens
  (`StrandedBytes`, the sizes of those files). `CreateCommand` concludes that under a limit which the
  image counts against, quota left, streams and stranded files come to exactly that limit in every
  run, so that no pull makes a driver read more.
* **What a run streams is determined.** `VerdictFor` and `After` are what becomes of a layer and of the
  source's supply (its image source, the attempts made, the quota left) with working files; `Attempts`
  repeats them for a driver that reads again after a failure, `SupplyAt` carries them from layer to
  layer, and `AfterManifest` starts them. `Foreseen` says that every call of Unpack got the stream
  computed in this way from the outside world and the drivers' plans. `CreateCommand` has it for every
  run in which no file operation fails.
* **Schema 1.** The library's conversion is an oracle of the image and the diffIDs. `ToSchema2` models
  what it does to the layers, dropping those that the history throws away, and
  `ConvertedImagePassesDiffChecks` needs no more of it than `ToSchema2KeepsLayers` proves of that.

| module | source file |
|---|---|
| Streams, Readers | fetcher/layerfetcher/quotaed_reader.go, and the readers of fetcher/layerfetcher/source/layer_source.go |
| Registry, Retries, Judgement, Copying, LayerSources | fetcher/layerfetcher/source/layer_source.go |
| LayerChains, LayerFetchers | fetcher/layerfetcher/layer_fetcher.go, fetcher/layerfetcher/blob_reader.go |
| OnDemand | imagepuller/ondemand/reader.go |
| Conversions | vendor/github.com/containers/image/v5/internal/image/docker_schema1.go |
| Images, ImagePullers | imagepuller/image_puller.go |
| Groots | create.go, groot.go |
| FileFetchers | fetcher/filefetcher/file_fetcher.go |

## What turned out not to hold

* **A panic leaves a temporary file.** `Blob` takes the blob ID apart at ":" only after the whole
  layer is written. A blob ID without ":" then panics, and the deferred cleanup, seeing no error,
  keeps the file. `PanicsExactly` gives the exact condition; `PanicNeedsURLs` shows that it takes a
  layer with URLs, since otherwise the transport refuses the digest before
  (vendor/github.com/containers/image/v5/docker/docker_client.go:1037-1049), and `PanicIsReachable`
  that with URLs and a stream that fits it happens.
* **A failed re-open leaves a temporary file**, which is also charged to the quota already.
  `StreamBlob` has the exact condition: opening a file failed (`denials` went up) if and only if the
  error is `ReopenFailed`; and then one new file with the accepted content stays behind, marked as
  lost, and the content's length is gone from the quota. After every other error the quota is as
  before. A failed removal leaves the file, too, and only that and the panic do (`Leak`, `Undone`):
  these are all the files a pull leaves (`Pull`, `CreateCommand`).
* **Equal chain IDs do not always mean equal layers.** At equal depth they do exactly when neither
  image's lowest hex part is empty and neither is the other one continued after a space
  (`ToldApartExactly`); for every other pair `Collision` builds two images that share a chain ID.
* **The chain ID is not the one of the OCI image configuration** (section "Layer ChainID", OCI
  image-spec v1.1), which hashes whole digests: the code hashes the hex parts without "sha256:".
  `ChainIsOciChainIDExactly` has the exact condition for any depth; unless the lowest hex part is
  empty, the two agree for a single layer with a plain "sha256:hex" digest and never else
  (`OnlySingleLayersHaveOciChainIDs`).
* **The manifest check wraps around** beyond int64. It never rejects an image that fits;
  `ManifestCheckIsSound` says exactly when it sees one that does not, and `ManifestCheckWrapsAround`
  has sizes that pass under every limit.
* **The disk limit is conserved only within int64** (`LimitIsConserved`, both directions;
  `ResultsCanWrapAround` is a list of three sizes that breaks it).
* **Names of local images** confuse a negative time on a path with its opposite on the path that has
  a dash more, and nothing else (`PreimagesCollideExactly`).
* `skipOCILayerValidation` skips the size check for every scheme, but the digest checks only for
  "oci" (`AcceptedExactly`).

## Model

| member | source | states |
|---|---|---|
| Basics.ContainsExactly | fetcher/layerfetcher/source/layer_source.go:140 | "contains" means that all of the part occurs from some position on |
| Basics.SecondField | fetcher/layerfetcher/source/layer_source.go:165 | the second field is what lies between the first ":" and the second one, or the end |
| Basics.Encoded | fetcher/layerfetcher/layer_fetcher.go:108 | the encoded part of a digest is everything after the first ":" |
| Basics.WrapExactly | imagepuller/image_puller.go:160-166 | a 64-bit sum is the one number in range that differs from the true one by a multiple of 2^64 |
| Basics.DashedExactly | fetcher/layerfetcher/source/layer_source.go:119 | in the name of a temporary file every ":" of the blob ID is a "-", and nothing else differs |
| Streams.QuotaStep | fetcher/layerfetcher/quotaed_reader.go:24-37 | one Read of the delegate within the window, with the error replaced when the quota is gone, is one Read of the stream cut at the quota: so the chunking does not matter |
| Readers.QuotaedReader.constructor | fetcher/layerfetcher/quotaed_reader.go:14-22 | a new quota reader delivers its delegate's stream cut at the quota, which is at least -1 |
| Readers.QuotaedReader.Read | fetcher/layerfetcher/quotaed_reader.go:24-37 | the window is in bounds and never shrunk to nothing before the quota is gone, the counter goes down by what was read and not below -1, no int64 overflow; once exceeded, no more bytes and the quota error on every call |
| Readers.QuotaAtEnd | fetcher/layerfetcher/quotaed_reader.go:24-37 | once nothing is left to read the counter is the quota left over if the delegate's stream fits (exactly equal fits), else -1, and then the ending is the quota error instead of the delegate's; at most one byte beyond the quota was taken from the delegate |
| Readers.TeeReader.Read | fetcher/layerfetcher/source/layer_source.go:138-156 | passes its inner stream on unchanged while the hash has seen exactly what has been passed on |
| Readers.GzipReader.Read | fetcher/layerfetcher/source/layer_source.go:139-149 | delivers the decompressed stream in any chunks, and reports EOF only after the compressed stream below was read to its end |
| Readers.ReadFrom | fetcher/layerfetcher/source/layer_source.go:138-156 | every stack of readers meets one contract: bytes in order from the front of its stream, the ending only once it is empty, progress on every call that offers room |
| Readers.TeeSawAll | fetcher/layerfetcher/source/layer_source.go:138-166 | once any stack of readers has reported EOF, the hash right above the blob stream has seen the whole blob |
| Registry.BlobStream.Read | fetcher/layerfetcher/source/layer_source.go:139 | a network stream hands over its bytes in order, in chunks and with stalls as its peer decides, and its ending only at the end |
| Registry.BlobStream.Close | fetcher/layerfetcher/source/layer_source.go:110 | a stream is closed at most once, and is then no longer open |
| Registry.ImageSource.GetBlob | fetcher/layerfetcher/source/layer_source.go:206 | an image source refuses a blob or serves it as a new open stream; without URLs it refuses a digest without ":" |
| Files.FileSystem.CreateTemp | fetcher/layerfetcher/source/layer_source.go:119 | a new empty file under a name no other file has, or an error and no change: always for a name with a path separator, and else only if the operation fails |
| Files.FileSystem.Open | fetcher/layerfetcher/blob_reader.go:15-25 | a new descriptor at the start of an existing file, or a counted failure and no change |
| Files.FileSystem.Remove | fetcher/layerfetcher/blob_reader.go:34 | removes a file that nothing has open, or records it as lost |
| Files.FileSystem.Write | fetcher/layerfetcher/source/layer_source.go:159 | a write appends its bytes or, failing, a part of them, and no write takes a file beyond the room the caller vouches for |
| Copying.CopyChunk | fetcher/layerfetcher/source/layer_source.go:159 | a round of the copy appends the next bytes of the stream, and nothing else happens to any file; the last round reaches the end of the stream, or is the one whose write failed |
| Copying.Copy | fetcher/layerfetcher/source/layer_source.go:159-163 | for every buffer size and chunking: unless a write fails the file is exactly the stream, the count its length, the error its ending, and nothing is left to read; otherwise the file is a prefix |
| Copying.ReadAll | fetcher/layerfetcher/source/layer_source.go:358-361 | reads exactly the stream, and fails exactly if it does not end with EOF |
| Retries.RetryMeaning | fetcher/layerfetcher/source/layer_source.go:202-216 | a retry loop makes min(tries, index of first success + 1) attempts and returns the first success, or nothing after every attempt failed |
| LayerSources.ThreeRequests | fetcher/layerfetcher/source/layer_source.go:202-216 | a blob is got from the first of three requests that is served, and not at all if all three fail; without URLs every request for a digest without ":" fails |
| LayerSources.ThreeAttempts | fetcher/layerfetcher/source/layer_source.go:261-291 | the image is got from the first of three requests, fewer by one for every failed connection before the first one that works |
| Judgement.AcceptedExactly | fetcher/layerfetcher/source/layer_source.go:112-177 | the checks accept exactly the layers whose size matches or is skipped, whose blob ID has a ":" and no "/", that decompress if the media type is empty or has "gzip" somewhere in it, fit the remaining quota when enforced, and whose two digests match or are skipped; never skipped outside "oci" |
| Judgement.AcceptedIsVerified | fetcher/layerfetcher/source/layer_source.go:165-172 | what is accepted was read to its end and has the layer's diffID, and outside "oci" the blob has its own digest, whatever the flag |
| Judgement.PanicsExactly | fetcher/layerfetcher/source/layer_source.go:165 | the code panics exactly for a layer that gets a temporary file, streams without error and whose blob ID has no ":" |
| Judgement.ExceedsExactly | fetcher/layerfetcher/source/layer_source.go:151-163 | the quota error is the verdict exactly for a layer that decodes to more bytes than the remaining quota, when that is enforced and the layer gets that far |
| Judgement.RejectedExactly | fetcher/layerfetcher/source/layer_source.go:112-163 | a size mismatch, an unusable file name, a blob that is no gzip, an exceeded quota and an interrupted stream are the verdict exactly for the layers that fail that check and none before it |
| Judgement.DigestsRejectExactly | fetcher/layerfetcher/source/layer_source.go:165-172 | a missing ":" panics, a wrong blob digest comes before a wrong diffID, and both are rejected exactly unless digests are skipped |
| Judgement.JudgedByDigestsExactly | fetcher/layerfetcher/source/layer_source.go:138-172 | whatever passes these is judged by its digests, over the whole blob and all of its content |
| Judgement.V1DiffIDExactly | fetcher/layerfetcher/source/layer_source.go:346-365 | schema 1 conversion has a diffID for a blob exactly if it decodes up to an EOF, and that is "sha256:" with the hash of everything decoded |
| Judgement.ConvertedLayerPassesDiffCheck | fetcher/layerfetcher/source/layer_source.go:346-365 | a layer that carries the diffID which schema 1 conversion computes in one go for a blob never fails the streaming diffID check on that blob, and fails the quota exactly if the content is too long |
| LayerSources.LayerSource.constructor | fetcher/layerfetcher/source/layer_source.go:44-52 | a new source has no image source yet, the whole limit as quota, and nothing charged |
| LayerSources.LayerSource.Room | fetcher/layerfetcher/source/layer_source.go:151-153 | the delivered blobs and the room for the file being written come to the limit plus one byte, at every point of every run |
| LayerSources.LayerSource.ExpectedIsVouchedFor | fetcher/layerfetcher/source/layer_source.go:165-172 | whatever a source is about to deliver has the layer's diffID as its hash, unless digests are skipped |
| LayerSources.LayerSource.PanicNeedsURLs | fetcher/layerfetcher/source/layer_source.go:101-108 | only a layer with URLs and a blob ID without ":" can panic |
| LayerSources.LayerSource.PanicIsReachable | fetcher/layerfetcher/source/layer_source.go:101-165 | every such layer that is not gzip, is served up to EOF and fits does panic: a source can receive it |
| LayerSources.LayerSource.ReasonsToReject | fetcher/layerfetcher/source/layer_source.go:85-172 | the complete list of reasons for which a layer is rejected with working files; a failed re-open is none of them |
| LayerSources.LayerSource.GetImageSource | fetcher/layerfetcher/source/layer_source.go:281-291 | the image source is created on the first success and never again |
| LayerSources.LayerSource.GetBlobWithRetries | fetcher/layerfetcher/source/layer_source.go:202-216 | at most three attempts; the first stream served, or an error and no stream, never neither |
| LayerSources.GetImageMeaning | fetcher/layerfetcher/source/layer_source.go:261-291 | failed connections and requests for the image together are at most three, and exactly three if there is no image; at most one connection succeeds, and everything before the last attempt failed |
| LayerSources.LayerSource.GetImageWithRetries | fetcher/layerfetcher/source/layer_source.go:261-279 | the loop does exactly that: an image, or the error of the last attempt (the connection's if none ever succeeded, else the image's), with as many attempts |
| LayerSources.LayerSource.GetConfigWithRetries | fetcher/layerfetcher/source/layer_source.go:71-82 | succeeds exactly if the next request for the configuration, or the one after, or the third does |
| LayerSources.LayerSource.DigestReader | fetcher/layerfetcher/source/layer_source.go:138-149 | the stack up to here delivers the decompressed blob, over a tee right above the blob; no stack exactly if the decompressor refuses the blob |
| LayerSources.LayerSource.DiffReader | fetcher/layerfetcher/source/layer_source.go:151-156 | the whole stack delivers that stream cut at the remaining quota if the quota is enforced, by a reader that meters it |
| LayerSources.LayerSource.ReaderFor | fetcher/layerfetcher/source/layer_source.go:138-156 | the whole stack delivers the decompressed blob, cut at the remaining quota if that is enforced, with both tees in place |
| LayerSources.LayerSource.StreamToFile | fetcher/layerfetcher/source/layer_source.go:158-163 | copying from the stack leaves its stream in the file and in the diffID hash, and the whole blob in the blob hash |
| LayerSources.LayerSource.StreamLayer | fetcher/layerfetcher/source/layer_source.go:138-163 | on success iff the content fits: file, count and diffID hash are those of the content and the blob hash that of the whole blob; on excess the file is the first quota + 1 bytes and the error the quota's; unless a write failed, the quota reader's counter ends at the quota minus the content, or at -1 if that does not fit |
| LayerSources.LayerSource.FillTempFile | fetcher/layerfetcher/source/layer_source.go:138-172 | streaming and checking reach exactly the verdict on the whole stream, unless a write fails; the file never gets longer than the remaining quota plus one |
| LayerSources.LayerSource.CheckDigests | fetcher/layerfetcher/source/layer_source.go:165-172 | the blob digest first, then the diffID, or a panic for a blob ID without ":" |
| LayerSources.LayerSource.CheckCheckSum | fetcher/layerfetcher/source/layer_source.go:218-233 | passes exactly if the digest is the hash, or digests are skipped |
| LayerSources.LayerSource.Charge | fetcher/layerfetcher/source/layer_source.go:174 | the quota goes down by exactly the content's length, stays non-negative when enforced, and remains limit minus the sum of all charges |
| LayerSources.LayerSource.CleanUp | fetcher/layerfetcher/source/layer_source.go:124-136 | the temporary file is closed once, and removed after an error but not after a panic; it stays behind after an error exactly if removing it fails |
| LayerSources.LayerSource.UseTempFile | fetcher/layerfetcher/source/layer_source.go:124-174 | from the fresh temporary file to its cleanup: the accepted content stays in it and is charged, with no operation failed; or it is gone again; or it is recorded as lost, exactly after a panic or a failed removal |
| LayerSources.LayerSource.KeepBlob | fetcher/layerfetcher/source/layer_source.go:114-177 | either a new file, named after the blob ID, with exactly the accepted content and its length charged, and no operation failed, or everything as before except for a file whose removal failed or that a panic left, exactly in these cases; the error is the verdict's, or that of a failing operation on the temporary file |
| LayerSources.SupplyMeaning | fetcher/layerfetcher/source/layer_source.go:85-112 | with working files a layer is rejected if no image source can be had or none of three fetches succeeds, and is judged else; the supply goes on by the attempts made and by the accepted content's length |
| LayerSources.LayerSource.Blob | fetcher/layerfetcher/source/layer_source.go:85-177 | all or nothing: it succeeds exactly if the source is available, one of three fetches succeeds, the layer is acceptable and no file operation fails, with the length that came with the blob; any other error is the verdict's or that of creating or writing the temporary file; in every case all streams are closed once, no descriptor stays open, the quota is the limit minus the successes, and with working files the supply goes on as foreseen |
| LayerSources.LayerSource.Close | fetcher/layerfetcher/source/layer_source.go:195-200 | in every run at most one image source was created, and that one is closed, once |
| LayerSources.LayerSource.V1LayerDiffID | fetcher/layerfetcher/source/layer_source.go:346-365 | succeeds exactly if a blob is fetched and decompresses, with the digest of its content, and closes the stream |
| LayerSources.FetchV1Stops | fetcher/layerfetcher/source/layer_source.go:326-333 | one layer that fails fails the whole conversion |
| LayerSources.FetchV1IsInOrder | fetcher/layerfetcher/source/layer_source.go:326-333 | the blobs of a conversion are fetched layer by layer in order: blob i is what the attempts for layer i got, beginning where those for the layer below ended |
| LayerSources.FetchedInOrderIsFetchV1 | fetcher/layerfetcher/source/layer_source.go:326-333 | and the other way round, blobs fetched in this order that all decompress are the ones |
| LayerSources.LayerSource.CollectDiffIDs | fetcher/layerfetcher/source/layer_source.go:326-333 | one diffID for every layer, in order, or an error exactly if some layer cannot be fetched or decompressed |
| LayerSources.LayerSource.ConvertImage | fetcher/layerfetcher/source/layer_source.go:307-344 | other schemas pass unchanged; schema 1 is converted with exactly one diffID a layer, diffID i being that of the blob that the attempts for layer i got, and exactly if there is an image source, every blob is fetched within three attempts and decompresses, and the library accepts |
| LayerSources.LayerSource.Manifest | fetcher/layerfetcher/source/layer_source.go:54-83 | an image exactly if it is got, converted and its configuration fetched, each within three attempts; else an error, never neither; the quota is untouched and every stream closed |
| LayerSources.ManifestExactly | fetcher/layerfetcher/source/layer_source.go:54-83 | there is a manifest exactly if the image is got, one of three requests for the configuration succeeds, and the image is not schema 1 or all its blobs decompress and the library converts it |
| LayerSources.ManifestIsConverted | fetcher/layerfetcher/source/layer_source.go:54-83 | the manifest that the outside world's answers amount to is the conversion of the document that was got, with the diffIDs of the blobs that were fetched, blob i by the attempts for layer i |
| LayerChains.CreateLayerInfos | fetcher/layerfetcher/layer_fetcher.go:92-116 | the loop gives every layer the recursive chain ID over its own and all lower diffIDs and panics exactly without a diffID with a ":" for every layer; and, read off the result, each layer has digest, size, URLs and media type of the manifest's layer, the encoded part of its diffID, the chain ID of the layer below as parent (none for the first), and that parent's hash with its own hex part as chain ID |
| LayerChains.ChainIsNeverEmpty | fetcher/layerfetcher/layer_fetcher.go:118-130 | no chain ID is the empty "no parent", and none over two layers or more has a space |
| LayerChains.LinkDeterminesParts | fetcher/layerfetcher/layer_fetcher.go:124-126 | "parent diffID" comes apart in one way only, unless one parent is the other one continued after a space |
| LayerChains.ChainDeterminesLayers | fetcher/layerfetcher/layer_fetcher.go:118-130 | at equal depth the same chain ID means the same hex parts in every layer, given two unambiguous lowest parts |
| LayerChains.ToldApartExactly | fetcher/layerfetcher/layer_fetcher.go:118-130 | for any two lowest hex parts: all images of equal depth with these are told apart by their chain IDs if and only if neither part is empty or the other one continued after a space |
| LayerChains.Collision | fetcher/layerfetcher/layer_fetcher.go:118-130 | for every other pair of lowest parts, two different images of equal depth with one chain ID |
| LayerChains.SharedPrefixSharesChain | fetcher/layerfetcher/layer_fetcher.go:92-116 | images that share their lowest diffIDs share the chain IDs over them |
| LayerChains.ChainRunsOverHexParts | fetcher/layerfetcher/layer_fetcher.go:118-130 | the chain ID is the OCI recursion run over hex parts and plain hashes, given a non-empty lowest part |
| LayerChains.ChainDiffersFromOci | fetcher/layerfetcher/layer_fetcher.go:118-130 | over any non-empty chain ID the result differs from the OCI chain ID, as only OCI hashes a ":" |
| LayerChains.ChainIsOciChainIDExactly | fetcher/layerfetcher/layer_fetcher.go:118-130 | at any depth the result, as a digest, is the OCI chain ID exactly if all lower hex parts are empty and the top one happens to be that chain ID's |
| LayerChains.OnlySingleLayersHaveOciChainIDs | fetcher/layerfetcher/layer_fetcher.go:118-130 | with a non-empty lowest hex part it is the OCI chain ID exactly for a single layer with a plain "sha256:hex" digest |
| LayerFetchers.BlobReader.Read | fetcher/layerfetcher/blob_reader.go:27-29 | reads on from where it is in its file |
| LayerFetchers.BlobReader.Close | fetcher/layerfetcher/blob_reader.go:31-35 | closes the descriptor before it removes the file, and reports whether the removal worked |
| LayerFetchers.LayerFetcher.ImageInfo | fetcher/layerfetcher/layer_fetcher.go:44-66 | the layers of the manifest, each described as above, with the environment of the configuration; a failure exactly without a manifest, a configuration or a usable diffID for every layer |
| LayerFetchers.LayerFetcher.StreamBlob | fetcher/layerfetcher/layer_fetcher.go:68-86 | a reader at the start of a new file with the accepted content, which is charged, and the blob's length; or, if and only if opening that file fails, the file left behind and charged; or any other error, with the quota as before and nothing left but a file lost to a failed removal or a panic; success exactly for an acceptable layer with no failed operation; with working files the supply goes on as foreseen |
| LayerFetchers.LayerFetcher.ChargedIsStreamedOrStranded | fetcher/layerfetcher/layer_fetcher.go:68-86 | in each of these cases what is charged is what can be streamed plus what was stranded |
| LayerFetchers.LayerFetcher.Close | fetcher/layerfetcher/layer_fetcher.go:88-90 | closes the image source of its layer source, if there is one, once |
| OnDemand.AttemptsMeaning | imagepuller/ondemand/reader.go:11-22 | trying again streams the content of the first attempt for which the layer is acceptable, every earlier one being rejected; without one, every attempt is used |
| OnDemand.Reader.Create | imagepuller/image_puller.go:118-126 | with working files it succeeds exactly if the layer is acceptable; after a failure there is no stream and no descriptor, so it can be tried again, and nothing is left but lost files, charged exactly where they could not be reopened |
| OnDemand.Reader.Read | imagepuller/ondemand/reader.go:11-22 | over any sequence of calls a stream is created until the first success and never again, and the bytes delivered are those of its content in order, all of them at EOF |
| OnDemand.Reader.Close | imagepuller/ondemand/reader.go:24-29 | closes and removes exactly what was created |
| Conversions.NonEmpty | vendor/github.com/containers/image/v5/internal/image/docker_schema1.go:190-212 | the positions of exactly the layers that are not thrown away, in ascending order |
| Conversions.ToSchema2KeepsLayers | vendor/github.com/containers/image/v5/internal/image/docker_schema1.go:153-224 | the library's conversion keeps, of the layers that are not thrown away, digest and diffID in order, each as a gzip layer |
| ImagePullers.ConvertedImagePassesDiffChecks | fetcher/layerfetcher/source/layer_source.go:307-365 | given a library that keeps the layers in this sense: every layer of a converted image is fetched by the digest of a layer of the original, and does not fail the diffID check on the blob that was fetched for that layer |
| ImagePullers.LayersSize | imagepuller/image_puller.go:160-166 | the sum of the sizes, modulo 2^64 |
| ImagePullers.QuotaExceeded | imagepuller/image_puller.go:141-158 | an error exactly if the image counts against a non-zero limit and the 64-bit sum of all its layers' sizes exceeds it |
| ImagePullers.AnnouncedExactly | imagepuller/image_puller.go:160-166 | the announced sum is the true sum of the sizes that are known less the number of those that are not; with all known it is the true sum |
| ImagePullers.KnownImagesAreRejectedExactly | imagepuller/image_puller.go:141-158 | an image with all sizes known, within int64, is rejected if and only if it is larger than the limit |
| ImagePullers.ExceedsByDocument | imagepuller/image_puller.go:141-158 | what is compared with the limit is the sum of the sizes in the document |
| ImagePullers.ManifestUnderestimates | imagepuller/image_puller.go:160-166 | with -1 for unknown sizes the sum is at most the true one |
| ImagePullers.ManifestCheckIsSound | imagepuller/image_puller.go:141-158 | a rejected image really is too large; and the check tells whether the announced sizes exceed the limit if and only if their sum is within int64 or wraps around to one that still exceeds it |
| ImagePullers.ManifestCheckWrapsAround | imagepuller/image_puller.go:160-166 | under every limit three announced sizes pass although they exceed it |
| ImagePullers.ParentsUnpackedBefore | imagepuller/image_puller.go:96-108 | every parent named in a call of Unpack was unpacked successfully before, in the same pull and in order |
| ImagePullers.VolumeDriver.Unpack | imagepuller/image_puller.go:130 | whatever the driver reads and however it ends, the reader stays consistent, and the call is recorded with the bytes it got; with working files the stream is that of the first acceptable attempt among its Reads, and the driver gets at least a byte for each non-empty request from then on, until it has all of it |
| ImagePullers.ImagePuller.BuildLayer | imagepuller/image_puller.go:110-131 | one call of Unpack, which reads only the front of a content with the layer's diffID, and with working files is served and leaves the supply as `Attempts` has it; the quota pays for that content and for stranded files; afterwards no descriptor is open and only lost files are left |
| ImagePullers.ReadsAreStreamed | imagepuller/image_puller.go:110-131 | all calls together read no more bytes than their streams hold |
| ImagePullers.AcceptableIsStreamed | imagepuller/image_puller.go:96-131 | in a foreseen trace a layer that is acceptable when its turn comes is streamed if the driver reads at all, and in full if it asks often enough |
| ImagePullers.ImagePuller.BuildLayers | imagepuller/image_puller.go:96-108 | the layers in order, each over all lower ones, up to the first failure, with the driver's results one for one and, with working files, the streams foreseen; the total is the sum of the results modulo 2^64; the quota pays for exactly the contents streamed and stranded |
| ImagePullers.ImagePuller.Pull | imagepuller/image_puller.go:67-94 | no call without a usable manifest within the limit, and the limit is the reason exactly if the sizes in the document exceed it; else all layers in order up to the first failure, and success exactly if that unpacks all of them; with working files every call is served as foreseen from the source's supply after the manifest; the quota pays for exactly the contents streamed and stranded; afterwards everything is closed and no file is left unless an operation failed or a blob ID has no ":" |
| ImagePullers.PlansDecide | imagepuller/image_puller.go:96-108 | for such a trace over no more calls than layers, as the command ensures it: the pull is complete if and only if the driver fails for none of the layers, and otherwise ends at the first one for which it does |
| Groots.LimitIsConserved | create.go:30-37 | what Bundle gets plus what Unpack reported is the limit, exactly if int64 holds the difference |
| Groots.BundleLimitExactly | create.go:30-37 | Bundle gets the limit itself unless the image counts against it, and else the limit less the image; nothing is left exactly of a limit no larger than the image |
| Groots.ResultsCanWrapAround | create.go:30-37 | results that add up to 2^64 leave the whole limit to Bundle |
| Groots.TraceIsContentAddressed | imagepuller/image_puller.go:96-131 | in a pull that checks digests, a volume and its parents are named by the chain IDs over the diffIDs, the last parent is the layer's parent chain ID, and what was read is the front of a content with the layer's diffID |
| Groots.WholeTraceIsContentAddressed | imagepuller/image_puller.go:96-131 | the same for every call of a pull |
| Groots.SharedLayersShareVolumes | fetcher/layerfetcher/layer_fetcher.go:95-113 | images that share their lowest diffIDs make the same calls for those layers |
| Groots.SameVolumeSameLayers | fetcher/layerfetcher/layer_fetcher.go:118-130 | two calls for the same volume at the same depth stand for the same layers and the same content, if neither lowest hex part is empty or the other one continued after a space |
| Groots.Groot.Create | create.go:11-56 | a negative limit stops before anything happens; else the manifest decides with the driver's results how far the trace goes, and with working files every call is served as foreseen; Bundle is called only for a completely unpacked image, with a positive rest of the limit if the image counts against it and the limit itself if not, then WriteMetadata with the same image size, the driver's bundle unchanged for an image without environment, and else with the driver's environment followed by the image's; in every other case an error and no call on the driver |
| Groots.SuccessMeans | create.go:24-55 | success means that Bundle got exactly the volumes unpacked, in order, a limit that with the image's size comes to the disk limit if it counts, and that WriteMetadata got the sum of Unpack's results; the bundle is the driver's with the image's environment appended |
| Groots.FinishesExactly | create.go:32-53 | once everything is unpacked: "too small" exactly if the image counts and the limit is no larger, and every other error exactly the driver's |
| Groots.CreateFetcher | groot.go:221-248 | digests are always checked, the quota is enforced exactly for an included image under a non-zero limit (of the limits that Create lets pass, those that the image counts against), and manifest and supply will be the world's first answers |
| Groots.RunCreate | groot.go:126-131 | Create, run on a fetcher that checks digests, has the outcome stated for the command, failures included, for the manifest that the fetcher's source is about to get, with no more calls than layers and, with working files, every call served as foreseen; the quota pays for exactly the contents streamed and stranded |
| Groots.CreateCommand | groot.go:112-137 | for every limit: a negative one stops at once and never reaches a quota reader; else the manifest is the function `ManifestFrom` of the world's answers, the image is over the limit, or unpacked to the end or up to the driver's first failure, never beyond the last layer, and everything unpacked is content addressed; if no file operation fails, every call of Unpack gets the stream that the world's answers and the drivers' plans determine; the driver gets limit minus image and is asked for nothing unless every layer was unpacked; the one image source is closed, and no file, stream or descriptor is left unless a file operation failed or a blob ID has no ":"; under a limit that the image counts against, quota left, streamed and stranded bytes add up to exactly that limit, and Unpack reads no more |
| FileFetchers.ImageInfo | fetcher/filefetcher/file_fetcher.go:46-79 | one layer with the path as blob ID, the file's size, no parent, and as chain ID the hash of path, dash and time; none exactly if the file cannot be examined |
| FileFetchers.DecimalDenotes | fetcher/filefetcher/file_fetcher.go:76-79 | the time is written in decimal digits that stand for it, with a sign if it is negative |
| FileFetchers.PreimagesCollideExactly | fetcher/filefetcher/file_fetcher.go:76-79 | two "path-time" names are equal only for equal path and time, or a negative time on a path and its opposite on that path with a dash |
| FileFetchers.LocalVolumesAreFaithful | fetcher/filefetcher/file_fetcher.go:60-79 | equal volume names mean equal times for one path, and equal path and time for times from 1970 on |

## Left out

- Pulls through the file fetcher: only its layer and volume name are modelled, so `Pull` and `CreateCommand` run on the layer fetcher, for schemes "oci" and "docker".
- Registry.ImageSource.GetBlob: of the digest validation in the transports only the ":" is modelled; anything else they refuse is one of their refusals.
- LayerSources.LayerSource.ConvertImage: the library's UpdatedImage is an arbitrary function of the original and the diffIDs; what it does to layers and diffIDs is modelled apart from it (`ToSchema2`), and is a hypothesis (`KeepsLayers`) where it matters; the history of the original is not part of a document.
- Retries.RetryMeaning: failed attempts carry no error of their own, so which attempt's error text is returned is not stated.
- Files.FileSystem.CreateTemp: the path separator is "/"; a "*" in a blob ID, which moves the random part of the name, is not modelled.
- Files.FileSystem.Close: closing always releases the descriptor; the error of a close is only logged by the code.
- LayerFetchers.BlobReader.Read: other processes that change a temporary file during a pull are not modelled.
- Reading the gzip header and the rest of the stream are one function of the blob; real gzip and SHA-256 are arbitrary functions.
- A network stream that stalls for ever: the number of empty reads in a row is finite, so that copying ends.
- The `pull`, `delete` and `stats` commands, flags, configuration, logging, error texts, TLS settings and Windows paths: no deep property.
- Operating-system shortcuts inside io.Copy: the copy is the plain read-write loop.
