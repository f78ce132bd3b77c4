/** Vocabulary shared by every module: optional values, 64-bit integers, the error kinds of
    groot, and the few string operations its digests go through.

    Go strings and byte slices are both sequences of bytes, and both are `string` here. */
module Basics {
  datatype Option<+T> = None | Some(value: T)

  /** What an error says, without its text. `Panic` stands for a Go run-time panic. */
  datatype Error =
    | DialFailed | ImageFailed | ManifestFailed | ConfigFailed | ConvertFailed
    | FetchFailed | SizeMismatch | TempFileFailed | NotGzip | StreamFailed | BlobExceedsQuota
    | WriteFailed | BlobDigestMismatch | DiffDigestMismatch | ReopenFailed | FileReadFailed
    | LayersExceedQuota | UnpackFailed | InvalidLimit | LimitTooSmall | BundleFailed
    | MetadataFailed | Panic

  const MAX_INT64: int := 0x7FFF_FFFF_FFFF_FFFF
  const TWO_TO_THE_64: int := 0x1_0000_0000_0000_0000

  type int64 = x: int | -MAX_INT64 - 1 <= x <= MAX_INT64

  /** The length of a Go slice. */
  type Length = x: int | 0 <= x <= MAX_INT64

  /** Go's int64 arithmetic: the value modulo 2^64, in the signed range. */
  function Wrap64(x: int): int64 {
    (x + MAX_INT64 + 1) % TWO_TO_THE_64 - MAX_INT64 - 1
  }

  /** The one number in the range of 64-bit integers that differs by a multiple of 2^64. */
  lemma WrapExactly(x: int, y: int)
    requires -0x8000_0000_0000_0000 <= y <= 0x7FFF_FFFF_FFFF_FFFF
    ensures Wrap64(x) == y <==> (x - y) % 0x1_0000_0000_0000_0000 == 0
    ensures -0x8000_0000_0000_0000 <= Wrap64(x) <= 0x7FFF_FFFF_FFFF_FFFF
  {
    var k := (x + MAX_INT64 + 1) / TWO_TO_THE_64;
    assert Wrap64(x) == x - k * TWO_TO_THE_64;
    ModShift(x - y, k);
  }

  /** Wrapping at every step of a sum and wrapping once at the end are the same. */
  lemma WrapAdd(a: int, b: int)
    ensures Wrap64(Wrap64(a) + b) == Wrap64(a + b)
  {
    var k := (a + MAX_INT64 + 1) / TWO_TO_THE_64;
    assert Wrap64(a) == a - k * TWO_TO_THE_64;
    ModShift(a + b + MAX_INT64 + 1, k);
  }

  lemma WrapSub(a: int, b: int)
    ensures Wrap64(a - Wrap64(b)) == Wrap64(a - b)
  {
    var k := (b + MAX_INT64 + 1) / TWO_TO_THE_64;
    assert Wrap64(b) == b - k * TWO_TO_THE_64;
    ModShift(a - b + MAX_INT64 + 1, -k);
  }

  lemma ModShift(x: int, k: int)
    ensures (x - k * TWO_TO_THE_64) % TWO_TO_THE_64 == x % TWO_TO_THE_64
  {
    var q := x / TWO_TO_THE_64;
    assert x - k * TWO_TO_THE_64 == (q - k) * TWO_TO_THE_64 + x % TWO_TO_THE_64;
  }

  function Min(a: int, b: int): int { if a < b then a else b }

  function Max(a: int, b: int): int { if a < b then b else a }

  function Sum(xs: seq<int>): int {
    if xs == [] then 0 else Sum(xs[..|xs| - 1]) + xs[|xs| - 1]
  }

  lemma SumNil()
    ensures Sum([]) == 0
  {
  }

  lemma SumOfNats(xs: seq<nat>)
    ensures 0 <= Sum(xs)
  {
  }

  lemma SumSnoc(xs: seq<int>, x: int)
    ensures Sum(xs + [x]) == Sum(xs) + x
  {
    assert (xs + [x])[..|xs|] == xs;
  }

  /** The position of the first `c` in `s`, or -1 (Go's strings.Index for one byte). */
  function IndexOf(s: string, c: char): (i: int)
    ensures -1 <= i < |s|
    ensures i == -1 <==> c !in s
    ensures i >= 0 ==> s[i] == c
    ensures forall k :: 0 <= k < i ==> s[k] != c
  {
    if s == [] then -1
    else if s[0] == c then 0
    else
      var j := IndexOf(s[1..], c);
      if j < 0 then
        assert s == [s[0]] + s[1..];
        -1
      else
        j + 1
  }

  /** The first `c` is where a part without `c` ends: so splitting there gives the parts back. */
  lemma SplitAtFirst(a: string, c: char, b: string)
    requires c !in a
    ensures var s := a + [c] + b; IndexOf(s, c) == |a| && s[..|a|] == a && s[|a| + 1..] == b
  {
    var s := a + [c] + b;
    assert s[|a|] == c;
    assert forall k :: 0 <= k < |a| ==> s[k] == a[k];
  }

  /** Go's strings.Split(s, ":")[1]; None where the index is out of range and Go panics. */
  function SecondField(s: string): (r: Option<string>)
    ensures r.Some? <==> ':' in s
    ensures r.Some? ==> exists i, j :: Between(s, ':', i, j) && r.value == s[i + 1..j]
  {
    var i := IndexOf(s, ':');
    if i < 0 then None
    else
      var tail := s[i + 1..];
      var j := IndexOf(tail, ':');
      var end := if j < 0 then |s| else i + 1 + j;
      assert tail == s[i + 1..] && (if j < 0 then tail else tail[..j]) == s[i + 1..end];
      assert ':' !in s[i + 1..end] && (end < |s| ==> s[end] == tail[j]);
      assert Between(s, ':', i, end);
      Some(if j < 0 then tail else tail[..j])
  }

  /** The first `c` is at `i`, and the second one at `j`, or there is none and `j` is the end. */
  predicate Between(s: string, c: char, i: int, j: int) {
    0 <= i < j <= |s| && s[i] == c && c !in s[..i] && c !in s[i + 1..j] && (j < |s| ==> s[j] == c)
  }

  /** go-digest's Digest.Hex(): everything after the first ':'; None where it panics. */
  function Encoded(s: string): (r: Option<string>)
    ensures r.Some? <==> ':' in s
    ensures r.Some? ==> exists a :: ':' !in a && s == a + [':'] + r.value
  {
    var i := IndexOf(s, ':');
    if i < 0 then None
    else
      assert ':' !in s[..i] && s == s[..i] + [':'] + s[i + 1..];
      Some(s[i + 1..])
  }

  /** go-digest's NewDigestFromHex("sha256", hex). */
  function NewDigest(hex: string): (digest: string)
    ensures |digest| == 7 + |hex| && digest[..7] == "sha256:" && digest[7..] == hex
  {
    "sha256" + [':'] + hex
  }

  lemma EncodedDigest(hex: string)
    ensures Encoded(NewDigest(hex)) == Some(hex)
  {
    SplitAtFirst("sha256", ':', hex);
  }

  /** Go's strings.Contains. */
  predicate Contains(s: string, part: string) {
    part <= s || (s != [] && Contains(s[1..], part))
  }

  /** All of `part` occurs, from some position on. */
  lemma {:induction false} ContainsExactly(s: string, part: string)
    ensures Contains(s, part) <==> exists i :: 0 <= i <= |s| && part <= s[i..]
  {
    assert s[0..] == s;
    if !(part <= s) && s != [] {
      ContainsExactly(s[1..], part);
      assert forall i :: 0 <= i < |s| ==> s[1..][i..] == s[i + 1..];
      forall i | 0 <= i <= |s| && part <= s[i..]
        ensures part <= s[1..][i - 1..]
      {
      }
    }
  }

  /** The blob ID with ':' replaced, as temporary file names need it. */
  function Dashed(s: string): (r: string)
    ensures '/' in r <==> '/' in s
  {
    var r := seq(|s|, i requires 0 <= i < |s| => if s[i] == ':' then '-' else s[i]);
    assert forall i :: 0 <= i < |s| ==> (r[i] == '/' <==> s[i] == '/');
    r
  }

  lemma DashedExactly(s: string)
    ensures |Dashed(s)| == |s| && ':' !in Dashed(s)
    ensures forall i :: 0 <= i < |s| ==> if s[i] == ':' then Dashed(s)[i] == '-' else Dashed(s)[i] == s[i]
  {
  }

  lemma TakeMore(s: string, k: nat, n: nat)
    requires k + n <= |s|
    ensures s[..k] + s[k..][..n] == s[..k + n] && s[k..][n..] == s[k + n..]
  {
  }

  lemma UpdateTwice<K, V>(m: map<K, V>, k: K, a: V, b: V)
    ensures m[k := a][k := b] == m[k := b]
  {
  }

  lemma UpdateRemove<K, V>(m: map<K, V>, k: K, a: V)
    requires k !in m
    ensures m[k := a] - {k} == m
  {
  }
}
