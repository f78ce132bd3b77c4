/** Chain IDs: how the layer fetcher names the volume of a layer on top of its parents. */
module LayerChains {
  import opened Basics
  import opened Images

  /** An empty parent stands for "no parent". */
  function Link(sha: string -> string, parentChainID: string, hex: string): string {
    if parentChainID == "" then hex else sha(parentChainID + [' '] + hex)
  }

  /** chainID of a diffID string over a parent; None where Split(":")[1] panics. */
  function ChainID(sha: string -> string, diffID: string, parentChainID: string): Option<string> {
    match if diffID == "" then Some("") else SecondField(diffID)
    case None => None
    case Some(hex) => Some(Link(sha, parentChainID, hex))
  }

  /** At least `n` diffIDs, each with an algorithm and a hex part. */
  predicate Usable(diffIDs: seq<string>, n: nat) {
    n <= |diffIDs| && forall i :: 0 <= i < n ==> ':' in diffIDs[i]
  }

  function Hex(diffIDs: seq<string>, i: nat): string
    requires i < |diffIDs| && ':' in diffIDs[i]
  {
    SecondField(diffIDs[i]).value
  }

  /** The chain ID over the lowest `n` layers. */
  function Chain(sha: string -> string, diffIDs: seq<string>, n: nat): string
    requires Usable(diffIDs, n)
  {
    if n == 0 then "" else Link(sha, Chain(sha, diffIDs, n - 1), Hex(diffIDs, n - 1))
  }

  function InfoAt(sha: string -> string, layers: seq<BlobInfo>, diffIDs: seq<string>, i: nat): LayerInfo
    requires i < |layers| && Usable(diffIDs, i + 1)
  {
    LayerInfo(layers[i].digest, layers[i].size, Chain(sha, diffIDs, i + 1), Encoded(diffIDs[i]).value,
              Chain(sha, diffIDs, i), layers[i].urls, layers[i].mediaType)
  }

  function LayerInfos(sha: string -> string, layers: seq<BlobInfo>, diffIDs: seq<string>): seq<LayerInfo>
    requires Usable(diffIDs, |layers|)
  {
    seq(|layers|, i requires 0 <= i < |layers| => InfoAt(sha, layers, diffIDs, i))
  }

  /** A layer as the manifest lists it, with the hash part of its diffID, and the chain ID that continues
      its parent's. */
  ghost predicate DescribedOver(sha: string -> string, parentChainID: string, layer: BlobInfo, diffID: string,
                                info: LayerInfo)
  {
    && info.blobID == layer.digest && info.size == layer.size
    && info.urls == layer.urls && info.mediaType == layer.mediaType
    && Encoded(diffID) == Some(info.diffID)
    && info.parentChainID == parentChainID
    && SecondField(diffID).Some?
    && var hex := SecondField(diffID).value;
    info.chainID == if parentChainID == "" then hex else sha(parentChainID + [' '] + hex)
  }

  ghost function Below(infos: seq<LayerInfo>, i: nat): string
    requires i <= |infos|
  {
    if i == 0 then "" else infos[i - 1].chainID
  }

  /** All layers, each over the one below, and the lowest over none. */
  ghost predicate Described(sha: string -> string, layers: seq<BlobInfo>, diffIDs: seq<string>, infos: seq<LayerInfo>) {
    && |infos| == |layers| <= |diffIDs|
    && forall i :: 0 <= i < |infos| ==>
         DescribedOver(sha, Below(infos, i), layers[i], diffIDs[i], infos[i])
  }

  lemma LayerInfosDescribe(sha: string -> string, layers: seq<BlobInfo>, diffIDs: seq<string>)
    requires Usable(diffIDs, |layers|)
    ensures Described(sha, layers, diffIDs, LayerInfos(sha, layers, diffIDs))
  {
    hide IndexOf, SecondField, Encoded;
    var infos := LayerInfos(sha, layers, diffIDs);
    forall i | 0 <= i < |infos|
      ensures DescribedOver(sha, Below(infos, i), layers[i], diffIDs[i], infos[i])
    {
      assert infos[i] == InfoAt(sha, layers, diffIDs, i);
      assert i > 0 ==> infos[i - 1] == InfoAt(sha, layers, diffIDs, i - 1);
    }
  }

  /** Every layer gets the chain ID over its own and all lower diffIDs, and as parent that of
      the lower ones. Anything but one usable diffID a layer panics. */
  method CreateLayerInfos(sha: string -> string, layers: seq<BlobInfo>, diffIDs: seq<string>)
    returns (r: Option<seq<LayerInfo>>)
    ensures r.Some? <==> Usable(diffIDs, |layers|)
    ensures r.Some? <==> |layers| <= |diffIDs| && forall i :: 0 <= i < |layers| ==> ':' in diffIDs[i]
    ensures r.Some? ==> r.value == LayerInfos(sha, layers, diffIDs)
    ensures r.Some? ==> Described(sha, layers, diffIDs, r.value)
  {
    hide IndexOf, SecondField, Encoded, Link, Described;
    var layerInfos := [];
    var parentChainID := "";
    for i := 0 to |layers|
      invariant Usable(diffIDs, i) && |layerInfos| == i
      invariant parentChainID == Chain(sha, diffIDs, i)
      invariant forall j :: 0 <= j < i ==> layerInfos[j] == InfoAt(sha, layers, diffIDs, j)
    {
      if i >= |diffIDs| {
        return None;
      }
      var diffID := diffIDs[i];
      var chainID := ChainID(sha, diffID, parentChainID);
      if chainID.None? || Encoded(diffID).None? {
        return None;
      }
      assert chainID.value == Chain(sha, diffIDs, i + 1);
      var layer := layers[i];
      layerInfos := layerInfos + [LayerInfo(layer.digest, layer.size, chainID.value, Encoded(diffID).value,
                                            parentChainID, layer.urls, layer.mediaType)];
      parentChainID := chainID.value;
    }
    r := Some(layerInfos);
    LayerInfosDescribe(sha, layers, diffIDs);
  }

  /** SHA-256 in hex as far as chain IDs need it: no collisions, and never an empty string, a
      space or a ':' in the output. */
  ghost predicate Collisionless(sha: string -> string) {
    && (forall s, t :: sha(s) == sha(t) ==> s == t)
    && (forall s :: sha(s) != "" && ' ' !in sha(s) && ':' !in sha(s))
  }

  /** Two images' lowest hex parts keep their chains apart: neither is empty, and neither is the
      other one continued after a space. */
  predicate Unambiguous(hex: string, hex': string) {
    hex != "" && hex' != "" && !(hex + [' '] <= hex') && !(hex' + [' '] <= hex)
  }

  /** A chain ID is never the empty "no parent", and over two layers or more it has no space. */
  lemma {:induction false} ChainIsNeverEmpty(sha: string -> string, diffIDs: seq<string>, n: nat)
    requires Collisionless(sha) && 0 < n && Usable(diffIDs, n) && Hex(diffIDs, 0) != ""
    ensures Chain(sha, diffIDs, n) != ""
    ensures n > 1 ==> ' ' !in Chain(sha, diffIDs, n)
  {
    if n == 1 {
      assert Chain(sha, diffIDs, 0) == "";
    } else {
      ChainIsNeverEmpty(sha, diffIDs, n - 1);
    }
  }

  lemma LinkWithoutParent(sha: string -> string, hex: string)
    ensures Link(sha, "", hex) == hex
  {
  }

  /** "parent hex" comes apart in only one way if neither parent is the other one continued
      after a space. */
  lemma LinkDeterminesParts(sha: string -> string, parent: string, hex: string, parent': string, hex': string)
    requires Collisionless(sha) && Unambiguous(parent, parent')
    requires Link(sha, parent, hex) == Link(sha, parent', hex')
    ensures parent == parent' && hex == hex'
  {
    assert parent + [' '] + hex == parent' + [' '] + hex';
    ShorterIsContinued(parent, hex, parent', hex');
    ShorterIsContinued(parent', hex', parent, hex);
    var s := parent + [' '] + hex;
    assert parent == s[..|parent|] && hex == s[|parent| + 1..];
    assert parent' == s[..|parent'|] && hex' == s[|parent'| + 1..];
  }

  lemma ShorterIsContinued(parent: string, hex: string, parent': string, hex': string)
    requires parent + [' '] + hex == parent' + [' '] + hex'
    ensures |parent| < |parent'| ==> parent + [' '] <= parent'
  {
    var s := parent + [' '] + hex;
    assert s[..|parent| + 1] == parent + [' '] && s[..|parent'|] == parent';
    if |parent| < |parent'| {
      assert s[..|parent| + 1] == s[..|parent'|][..|parent| + 1];
    }
  }

  lemma ContinuedHasSpace(hex: string, hex': string)
    requires hex + [' '] <= hex'
    ensures ' ' in hex'
  {
    assert hex'[|hex|] == (hex + [' '])[|hex|];
  }

  lemma SpaceFreeIsUnambiguous(hex: string, hex': string)
    requires hex != "" && hex' != "" && ' ' !in hex && ' ' !in hex'
    ensures Unambiguous(hex, hex')
  {
    if hex + [' '] <= hex' {
      ContinuedHasSpace(hex, hex');
    }
    if hex' + [' '] <= hex {
      ContinuedHasSpace(hex', hex);
    }
  }

  lemma ChainOfOne(sha: string -> string, diffIDs: seq<string>)
    requires Usable(diffIDs, 1)
    ensures Chain(sha, diffIDs, 1) == Hex(diffIDs, 0)
  {
    assert Chain(sha, diffIDs, 0) == "";
  }

  lemma ChainOfTwo(sha: string -> string, diffIDs: seq<string>)
    requires Usable(diffIDs, 2)
    ensures Chain(sha, diffIDs, 2) == Link(sha, Hex(diffIDs, 0), Hex(diffIDs, 1))
  {
    ChainOfOne(sha, diffIDs);
  }

  lemma ChainOfThree(sha: string -> string, diffIDs: seq<string>)
    requires Usable(diffIDs, 3)
    ensures Chain(sha, diffIDs, 3) == Link(sha, Link(sha, Hex(diffIDs, 0), Hex(diffIDs, 1)), Hex(diffIDs, 2))
  {
    ChainOfTwo(sha, diffIDs);
  }

  lemma SecondFieldOfDigest(hex: string)
    requires ':' !in hex
    ensures SecondField(NewDigest(hex)) == Some(hex) && ':' in NewDigest(hex)
  {
    hide IndexOf;
    EncodedDigest(hex);
  }

  lemma Digests(hexes: seq<string>) returns (diffIDs: seq<string>)
    requires forall hex :: hex in hexes ==> ':' !in hex
    ensures |diffIDs| == |hexes| && Usable(diffIDs, |hexes|)
    ensures forall i :: 0 <= i < |hexes| ==> Hex(diffIDs, i) == hexes[i]
  {
    hide IndexOf, SecondField, NewDigest;
    diffIDs := seq(|hexes|, i requires 0 <= i < |hexes| => NewDigest(hexes[i]));
    forall i | 0 <= i < |hexes|
      ensures ':' in diffIDs[i] && Hex(diffIDs, i) == hexes[i]
    {
      SecondFieldOfDigest(hexes[i]);
    }
  }

  /** At equal depth, the chain ID determines every layer below it. */
  lemma {:induction false} ChainDeterminesLayers(sha: string -> string, a: seq<string>, b: seq<string>, n: nat)
    requires Collisionless(sha) && 0 < n && Usable(a, n) && Usable(b, n)
    requires Unambiguous(Hex(a, 0), Hex(b, 0))
    requires Chain(sha, a, n) == Chain(sha, b, n)
    ensures forall i :: 0 <= i < n ==> Hex(a, i) == Hex(b, i)
  {
    hide Hex, Collisionless, Link;
    if n == 1 {
      assert Chain(sha, a, 0) == Chain(sha, b, 0) == "";
      LinkWithoutParent(sha, Hex(a, 0));
      LinkWithoutParent(sha, Hex(b, 0));
    } else {
      if n == 2 {
        ChainOfOne(sha, a);
        ChainOfOne(sha, b);
      } else {
        ChainIsNeverEmpty(sha, a, n - 1);
        ChainIsNeverEmpty(sha, b, n - 1);
        SpaceFreeIsUnambiguous(Chain(sha, a, n - 1), Chain(sha, b, n - 1));
      }
      LinkDeterminesParts(sha, Chain(sha, a, n - 1), Hex(a, n - 1), Chain(sha, b, n - 1), Hex(b, n - 1));
      ChainDeterminesLayers(sha, a, b, n - 1);
    }
  }

  ghost predicate SameParts(a: seq<string>, b: seq<string>, n: nat)
    requires Usable(a, n) && Usable(b, n)
  {
    forall i :: 0 <= i < n ==> Hex(a, i) == Hex(b, i)
  }

  /** No two different images of equal depth with these lowest hex parts share a chain ID. */
  ghost predicate ToldApart(sha: string -> string, hex: string, hex': string) {
    forall a, b, n: nat ::
      && 0 < n && Usable(a, n) && Usable(b, n) && Hex(a, 0) == hex && Hex(b, 0) == hex'
      && Chain(sha, a, n) == Chain(sha, b, n)
      ==> SameParts(a, b, n)
  }

  /** Otherwise two images collide: an empty lowest layer drops out of the chain, and a space in
      one lets the boundary between layers shift. */
  lemma Collision(sha: string -> string, hex: string, hex': string) returns (a: seq<string>, b: seq<string>, n: nat)
    requires Collisionless(sha) && ':' !in hex && ':' !in hex' && !Unambiguous(hex, hex')
    ensures 0 < n && Usable(a, n) && Usable(b, n) && Hex(a, 0) == hex && Hex(b, 0) == hex'
    ensures Chain(sha, a, n) == Chain(sha, b, n) && !SameParts(a, b, n)
    decreases if hex == "" || hex + [' '] <= hex' then 0 else 1
  {
    hide IndexOf, SecondField, NewDigest, Chain;
    if hex == "" && hex' == "" {
      n := 3;
      a := Digests(["", ['p', ' ', 'q'], ['r']]);
      b := Digests(["", ['p'], ['q', ' ', 'r']]);
      ChainOfThree(sha, a);
      ChainOfThree(sha, b);
      assert ['p', ' ', 'q'] + [' '] + ['r'] == ['p'] + [' '] + ['q', ' ', 'r'];
      assert Hex(a, 1) != Hex(b, 1);
    } else if hex == "" {
      n := 2;
      a := Digests(["", sha(hex' + [' '] + "x")]);
      b := Digests([hex', "x"]);
      ChainOfTwo(sha, a);
      ChainOfTwo(sha, b);
      assert Hex(a, 0) != Hex(b, 0);
    } else if hex' == "" {
      b, a, n := Collision(sha, hex', hex);
    } else if hex + [' '] <= hex' {
      n := 2;
      var rest := hex'[|hex| + 1..];
      a := Digests([hex, rest + [' '] + "x"]);
      b := Digests([hex', "x"]);
      ChainOfTwo(sha, a);
      ChainOfTwo(sha, b);
      assert hex' == hex + [' '] + rest;
      assert hex' + [' '] + "x" == hex + [' '] + (rest + [' '] + "x");
      assert Hex(a, 0) != Hex(b, 0);
    } else {
      b, a, n := Collision(sha, hex', hex);
    }
  }

  /** Exactly when chain IDs tell images apart, decided by their lowest hex parts. */
  lemma ToldApartExactly(sha: string -> string, hex: string, hex': string)
    requires Collisionless(sha) && ':' !in hex && ':' !in hex'
    ensures ToldApart(sha, hex, hex') <==> Unambiguous(hex, hex')
  {
    if Unambiguous(hex, hex') {
      forall a, b, n: nat | 0 < n && Usable(a, n) && Usable(b, n) && Hex(a, 0) == hex && Hex(b, 0) == hex'
                            && Chain(sha, a, n) == Chain(sha, b, n)
        ensures SameParts(a, b, n)
      {
        ChainDeterminesLayers(sha, a, b, n);
      }
    } else {
      var a, b, n := Collision(sha, hex, hex');
    }
  }

  /** Images that agree on their lowest `n` diffIDs agree on the chain IDs over them. */
  lemma {:induction false} SharedPrefixSharesChain(sha: string -> string, a: seq<string>, b: seq<string>, n: nat)
    requires Usable(a, n) && Usable(b, n) && a[..n] == b[..n]
    ensures Chain(sha, a, n) == Chain(sha, b, n)
  {
    if n > 0 {
      assert a[n - 1] == a[..n][n - 1] == b[..n][n - 1] == b[n - 1];
      assert a[..n - 1] == a[..n][..n - 1] == b[..n - 1];
      SharedPrefixSharesChain(sha, a, b, n - 1);
    }
  }

  /** The recursion of "Layer ChainID" in the OCI image configuration, for any digest function and
      any names of the layers. */
  function LayerChainID(digest: string -> string, names: seq<string>, n: nat): string
    requires 0 < n <= |names|
  {
    if n == 1 then names[0] else digest(LayerChainID(digest, names, n - 1) + [' '] + names[n - 1])
  }

  /** SHA-256 as a digest with its algorithm in front. */
  function Digester(sha: string -> string): string -> string { (s: string) => NewDigest(sha(s)) }

  /** The chain ID that the OCI image configuration asks for: that recursion over whole digests. */
  function OciChainID(sha: string -> string, diffIDs: seq<string>, n: nat): string
    requires 0 < n <= |diffIDs|
  {
    LayerChainID(Digester(sha), diffIDs, n)
  }

  /** The code runs the recursion over the hex parts and plain hashes instead, as long as the
      lowest hex part is not empty. */
  lemma {:induction false} ChainRunsOverHexParts(sha: string -> string, diffIDs: seq<string>, hexes: seq<string>,
                                                 n: nat)
    requires 0 < n <= |hexes| && Usable(diffIDs, n) && Hex(diffIDs, 0) != "" && forall s :: sha(s) != ""
    requires forall i :: 0 <= i < n ==> hexes[i] == Hex(diffIDs, i)
    ensures Chain(sha, diffIDs, n) == LayerChainID(sha, hexes, n) != ""
  {
    if n == 1 {
      assert Chain(sha, diffIDs, 0) == "";
    } else {
      ChainRunsOverHexParts(sha, diffIDs, hexes, n - 1);
    }
  }

  lemma HexHasNoColon(diffIDs: seq<string>, i: nat)
    requires i < |diffIDs| && ':' in diffIDs[i]
    ensures ':' !in Hex(diffIDs, i)
  {
    var tail := diffIDs[i][IndexOf(diffIDs[i], ':') + 1..];
    var j := IndexOf(tail, ':');
  }

  lemma {:induction false} ChainHasNoColon(sha: string -> string, diffIDs: seq<string>, n: nat)
    requires Collisionless(sha) && Usable(diffIDs, n)
    ensures ':' !in Chain(sha, diffIDs, n)
  {
    hide Hex;
    if n > 0 {
      HexHasNoColon(diffIDs, n - 1);
    }
  }

  lemma {:induction false} EmptyChain(sha: string -> string, diffIDs: seq<string>, n: nat)
    requires Collisionless(sha) && Usable(diffIDs, n)
    ensures Chain(sha, diffIDs, n) == "" <==> forall i :: 0 <= i < n ==> Hex(diffIDs, i) == ""
  {
    hide Hex;
    if n > 0 {
      EmptyChain(sha, diffIDs, n - 1);
    }
  }

  /** The two hash different bytes: only the OCI ones contain a ':'. */
  lemma ChainDiffersFromOci(sha: string -> string, diffIDs: seq<string>, n: nat)
    requires Collisionless(sha) && 1 < n && Usable(diffIDs, n) && Chain(sha, diffIDs, n - 1) != ""
    ensures NewDigest(Chain(sha, diffIDs, n)) != OciChainID(sha, diffIDs, n)
  {
    hide Hex, NewDigest, Collisionless;
    ChainHasNoColon(sha, diffIDs, n - 1);
    HexHasNoColon(diffIDs, n - 1);
    DigestsDiffer(sha, Chain(sha, diffIDs, n - 1) + [' '] + Hex(diffIDs, n - 1),
                  OciChainID(sha, diffIDs, n - 1) + [' '], diffIDs[n - 1]);
  }

  lemma DigestsDiffer(sha: string -> string, plain: string, prefix: string, digest: string)
    requires Collisionless(sha) && ':' !in plain && ':' in digest
    ensures NewDigest(sha(plain)) != NewDigest(sha(prefix + digest))
  {
    hide IndexOf, Encoded, NewDigest;
    assert (prefix + digest)[|prefix|..] == digest;
    EncodedDigest(sha(plain));
    EncodedDigest(sha(prefix + digest));
  }

  /** "sha256:hex", as every registry writes it. */
  predicate PlainDigest(diffID: string) { "sha256:" <= diffID && ':' !in diffID[7..] }

  lemma PlainDigestExactly(diffIDs: seq<string>)
    requires Usable(diffIDs, 1)
    ensures NewDigest(Hex(diffIDs, 0)) == diffIDs[0] <==> PlainDigest(diffIDs[0])
  {
    hide IndexOf;
    var hex := Hex(diffIDs, 0);
    HexHasNoColon(diffIDs, 0);
    assert NewDigest(hex)[..7] == "sha256:" && NewDigest(hex)[7..] == hex;
    if PlainDigest(diffIDs[0]) {
      assert diffIDs[0] == NewDigest(diffIDs[0][7..]);
      SecondFieldOfDigest(diffIDs[0][7..]);
    }
  }

  /** When the code's chain ID is the OCI one: never over a lower layer with a hex part, as OCI hashes
      a ':' that the code leaves out. */
  lemma ChainIsOciChainIDExactly(sha: string -> string, diffIDs: seq<string>, n: nat)
    requires Collisionless(sha) && 0 < n && Usable(diffIDs, n)
    ensures NewDigest(Chain(sha, diffIDs, n)) == OciChainID(sha, diffIDs, n) <==>
            && (forall i :: 0 <= i < n - 1 ==> Hex(diffIDs, i) == "")
            && NewDigest(Hex(diffIDs, n - 1)) == OciChainID(sha, diffIDs, n)
  {
    hide Hex, NewDigest, Collisionless, OciChainID;
    EmptyChain(sha, diffIDs, n - 1);
    if Chain(sha, diffIDs, n - 1) != "" {
      assert n > 1;
      ChainDiffersFromOci(sha, diffIDs, n);
    }
  }

  /** So, unless the lowest hex part is empty, only for a single layer with a plain digest. */
  lemma OnlySingleLayersHaveOciChainIDs(sha: string -> string, diffIDs: seq<string>, n: nat)
    requires Collisionless(sha) && 0 < n && Usable(diffIDs, n) && Hex(diffIDs, 0) != ""
    ensures NewDigest(Chain(sha, diffIDs, n)) == OciChainID(sha, diffIDs, n) <==> n == 1 && PlainDigest(diffIDs[0])
  {
    hide Hex, Chain, NewDigest, Collisionless, PlainDigest;
    ChainIsOciChainIDExactly(sha, diffIDs, n);
    PlainDigestExactly(diffIDs);
  }
}
