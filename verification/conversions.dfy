/** The library's conversion of a schema 1 image to schema 2, as far as its layers go. */
module Conversions {
  import opened Basics
  import opened Images
  import opened Judgement

  const GZIP_LAYER: string := "application/vnd.docker.image.rootfs.diff.tar." + "gzip"

  /** The layers below `n` that are not thrown away. */
  function NonEmpty(throwAway: seq<bool>, n: nat): (kept: seq<nat>)
    requires n <= |throwAway|
    ensures Increasing(kept, n)
    ensures forall i :: 0 <= i < n ==> (i in kept <==> !throwAway[i])
  {
    if n == 0 then []
    else
      var lower := NonEmpty(throwAway, n - 1);
      if throwAway[n - 1] then lower else lower + [n - 1]
  }

  ghost predicate Increasing(kept: seq<nat>, n: nat) {
    && (forall k :: 0 <= k < |kept| ==> kept[k] < n)
    && (forall j, k :: 0 <= j < k < |kept| ==> kept[j] < kept[k])
  }

  /** What comes of an image with this history: its layers without those that are thrown away, each
      with its own diffID. No image at all without one history entry and one diffID for each layer, or
      without a usable configuration. */
  function ToSchema2(original: Document, throwAway: seq<bool>, diffIDs: seq<string>, env: Option<seq<string>>):
    Option<Document>
  {
    if |throwAway| == 0 || |throwAway| != |original.layers| || |diffIDs| != |original.layers| || env.None? then None
    else
      var kept := NonEmpty(throwAway, |throwAway|);
      var layers := seq(|kept|, k requires 0 <= k < |kept| =>
                                  BlobInfo(original.layers[kept[k]].digest, -1, [], GZIP_LAYER));
      var keptDiffIDs := seq(|kept|, k requires 0 <= k < |kept| => diffIDs[kept[k]]);
      Some(Document(Some(false), layers, Some(Config(keptDiffIDs, env.value))))
  }

  /** Layer k of the result is layer `kept[k]` of the original as a gzip layer, with the diffID that was
      given for that one. */
  ghost predicate KeepsLayers(original: Document, diffIDs: seq<string>, result: Document, kept: seq<nat>) {
    && Increasing(kept, Min(|original.layers|, |diffIDs|))
    && result.config.Some? && |result.layers| == |result.config.value.diffIDs| == |kept|
    && forall k :: 0 <= k < |kept| ==>
         && result.layers[k].digest == original.layers[kept[k]].digest
         && result.config.value.diffIDs[k] == diffIDs[kept[k]]
         && WantsGunzip(result.layers[k].mediaType)
  }

  lemma {:induction false} EndsWithContains(start: string, part: string)
    ensures Contains(start + part, part)
  {
    if start == [] {
      assert start + part == part;
    } else {
      assert (start + part)[1..] == start[1..] + part;
      EndsWithContains(start[1..], part);
    }
  }

  lemma ToSchema2KeepsLayers(original: Document, throwAway: seq<bool>, diffIDs: seq<string>, env: Option<seq<string>>)
    requires ToSchema2(original, throwAway, diffIDs, env).Some?
    ensures KeepsLayers(original, diffIDs, ToSchema2(original, throwAway, diffIDs, env).value,
                        NonEmpty(throwAway, |throwAway|))
  {
    hide Contains, NonEmpty;
    EndsWithContains("application/vnd.docker.image.rootfs.diff.tar.", "gzip");
  }
}
