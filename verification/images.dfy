/** What the parts of groot say to each other about an image. */
module Images {
  import opened Basics

  /** A layer as the manifest lists it; size -1 where the manifest does not tell. */
  datatype BlobInfo = BlobInfo(digest: string, size: int64, urls: seq<string>, mediaType: string)

  datatype Config = Config(diffIDs: seq<string>, env: seq<string>)

  /** An image document: schema 1 or not (None: unreadable), its layers, its configuration. */
  datatype Document = Document(schema1: Option<bool>, layers: seq<BlobInfo>, config: Option<Config>)

  datatype LayerInfo = LayerInfo(
    blobID: string, size: int64, chainID: string, diffID: string, parentChainID: string,
    urls: seq<string>, mediaType: string)

  datatype ImageSpec = ImageSpec(diskLimit: int64, excludeImageFromQuota: bool)

  datatype Image = Image(env: seq<string>, chainIDs: seq<string>, size: int64)

  function ChainIDs(layers: seq<LayerInfo>): seq<string> {
    seq(|layers|, i requires 0 <= i < |layers| => layers[i].chainID)
  }
}
