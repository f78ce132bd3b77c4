/** The file fetcher: a local tar file is an image of one layer, whose volume is named after the
    file's path and modification time. */
module FileFetchers {
  import opened Basics
  import opened Images

  datatype Stat = Stat(modTime: int64, size: int64)

  function Digit(d: nat): char
    requires d < 10
  {
    (48 + d) as char
  }

  /** The decimal digits of a number (Go's %d). */
  function Digits(n: nat): string {
    if n < 10 then [Digit(n)] else Digits(n / 10) + [Digit(n % 10)]
  }

  function Abs(n: int): nat { if n < 0 then -n else n }

  function Decimal(n: int): string {
    if n < 0 then ['-'] + Digits(-n) else Digits(n)
  }

  function Preimage(path: string, timestamp: int64): string {
    path + ['-'] + Decimal(timestamp)
  }

  function GenerateChainID(sha: string -> string, path: string, timestamp: int64): string {
    sha(Preimage(path, timestamp))
  }

  /** The one layer of a local image; None if the file cannot be examined. */
  function ImageInfo(sha: string -> string, path: string, stat: Option<Stat>): (r: Option<seq<LayerInfo>>)
    ensures r.None? <==> stat.None?
    ensures r.Some? ==>
              && |r.value| == 1 && r.value[0].blobID == path && r.value[0].size == stat.value.size
              && r.value[0].parentChainID == "" && r.value[0].urls == [] && r.value[0].mediaType == ""
              && r.value[0].chainID == sha(path + "-" + Decimal(stat.value.modTime))
  {
    match stat
    case None => None
    case Some(s) => Some([LayerInfo(path, s.size, GenerateChainID(sha, path, s.modTime), "", "", [], "")])
  }

  /** The number that a string of decimal digits stands for. */
  function Denoted(s: string): int {
    if s == [] then 0 else Denoted(s[..|s| - 1]) * 10 + (s[|s| - 1] as int - '0' as int)
  }

  /** Decimal digits stand for their number, without leading zeros. */
  lemma {:induction false} DigitsDenote(n: nat)
    ensures Denoted(Digits(n)) == n && Digits(n) != []
    ensures forall c :: c in Digits(n) ==> '0' <= c <= '9'
    ensures n > 0 ==> Digits(n)[0] != '0'
  {
    if n < 10 {
      assert Denoted([]) == 0;
    } else {
      DigitsDenote(n / 10);
      assert Digits(n)[..|Digits(n)| - 1] == Digits(n / 10);
    }
  }

  lemma DecimalDenotes(n: int)
    ensures 0 <= n ==> Denoted(Decimal(n)) == n
    ensures n < 0 ==> Decimal(n)[0] == '-' && Denoted(Decimal(n)[1..]) == -n
  {
    DigitsDenote(Abs(n));
  }

  lemma {:induction false} DigitsHaveNoDash(n: nat)
    ensures '-' !in Digits(n) && Digits(n) != []
  {
    if n >= 10 {
      DigitsHaveNoDash(n / 10);
    }
  }

  lemma {:induction false} DigitsInjective(m: nat, n: nat)
    requires Digits(m) == Digits(n)
    ensures m == n
  {
    DigitsHaveNoDash(m / 10);
    DigitsHaveNoDash(n / 10);
    var s := Digits(m);
    if m < 10 || n < 10 {
      assert |s| == 1;
    } else {
      assert Digits(m / 10) == s[..|s| - 1] == Digits(n / 10);
      assert Digit(m % 10) == s[|s| - 1] == Digit(n % 10);
      DigitsInjective(m / 10, n / 10);
    }
  }

  /** A string splits in only one way at its last `c`. */
  lemma SplitAtLast(a: string, b: string, c: char, a': string, b': string)
    requires a + [c] + b == a' + [c] + b' && c !in b && c !in b'
    ensures a == a' && b == b'
  {
    var s := a + [c] + b;
    assert s[|a|] == c && s[|a'|] == c;
    forall k | |a| < k < |s| ensures s[k] != c { assert s[k] == b[k - |a| - 1]; }
    forall k | |a'| < k < |s| ensures s[k] != c { assert s[k] == b'[k - |a'| - 1]; }
    assert a == s[..|a|] && b == s[|a| + 1..];
    assert a' == s[..|a'|] && b' == s[|a'| + 1..];
  }

  /** Everything before the digits, with the sign if there is one. */
  function Stem(path: string, timestamp: int64): string {
    if timestamp < 0 then path + ['-'] else path
  }

  lemma PreimageByLastDash(path: string, timestamp: int64)
    ensures Preimage(path, timestamp) == Stem(path, timestamp) + ['-'] + Digits(Abs(timestamp))
  {
  }

  /** A negative time on one path and its opposite on the path with a dash at its end. */
  predicate SignLooksLikePath(path: string, timestamp: int64, path': string, timestamp': int64) {
    timestamp < 0 && timestamp' == Abs(timestamp) && path' == path + ['-']
  }

  /** Two files get the same preimage only if they agree in path and time, or a sign is taken
      for the end of a path. */
  lemma PreimagesCollideExactly(path: string, timestamp: int64, path': string, timestamp': int64)
    ensures Preimage(path, timestamp) == Preimage(path', timestamp') <==>
            || (path == path' && timestamp == timestamp')
            || SignLooksLikePath(path, timestamp, path', timestamp')
            || SignLooksLikePath(path', timestamp', path, timestamp)
  {
    var n, n' := Abs(timestamp), Abs(timestamp');
    PreimageByLastDash(path, timestamp);
    PreimageByLastDash(path', timestamp');
    if Preimage(path, timestamp) == Preimage(path', timestamp') {
      DigitsHaveNoDash(n);
      DigitsHaveNoDash(n');
      SplitAtLast(Stem(path, timestamp), Digits(n), '-', Stem(path', timestamp'), Digits(n'));
      DigitsInjective(n, n');
      if timestamp < 0 && timestamp' < 0 {
        assert path == Stem(path, timestamp)[..|path|] == path';
      }
    }
  }

  /** With a collision-free hash, volumes of local images are told apart by path and time, as
      long as no time lies before 1970; for one path, by any time. */
  lemma LocalVolumesAreFaithful(sha: string -> string, path: string, stat: Stat, path': string, stat': Stat)
    requires forall s, t :: sha(s) == sha(t) ==> s == t
    requires path == path' || (0 <= stat.modTime && 0 <= stat'.modTime)
    requires ImageInfo(sha, path, Some(stat)).value[0].chainID == ImageInfo(sha, path', Some(stat')).value[0].chainID
    ensures path == path' && stat.modTime == stat'.modTime
  {
    PreimagesCollideExactly(path, stat.modTime, path', stat'.modTime);
    assert |path + ['-']| == |path| + 1;
  }
}
