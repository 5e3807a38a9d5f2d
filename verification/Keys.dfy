/** Where a task's result is committed (internal/scheduler/commit.go). The key is
    a function of job, shard and range alone, so every attempt at the same piece of
    work writes the same object; the theorem here is that different pieces never
    share one. */
module Keys {
  import opened Tasks

  datatype Range = Range(start: int, end: int, split: bool)

  function Digits(n: nat): string {
    if n < 10 then [('0' as int + n) as char]
    else Digits(n / 10) + [('0' as int + n % 10) as char]
  }

  function Zeros(n: nat): string {
    if n == 0 then "" else "0" + Zeros(n - 1)
  }

  function Fill(d: string, width: nat): string {
    if |d| >= width then d else Zeros(width - |d|) + d
  }

  /** A number in at least twelve characters, sign included, filled with zeros. */
  function Padded(n: int): string {
    if n >= 0 then Fill(Digits(n), 12) else "-" + Fill(Digits(-n), 11)
  }

  function FinalResultKey(job: string, shard: string, rng: Range): string {
    if !rng.split then "results/" + job + "/" + shard + ".parquet"
    else "results/" + job + "/" + shard + "/" + Padded(rng.start) + "-" + Padded(rng.end) + ".parquet"
  }

  /******* Decimal numbers read back *******/

  predicate AllDigits(s: string) {
    forall i :: 0 <= i < |s| ==> '0' <= s[i] <= '9'
  }

  function Value(s: string): int
    requires AllDigits(s)
  {
    if s == "" then 0 else 10 * Value(s[..|s| - 1]) + (s[|s| - 1] as int - '0' as int)
  }

  lemma {:induction false} DigitsReadBack(n: nat)
    ensures AllDigits(Digits(n)) && Value(Digits(n)) == n
  {
    if n >= 10 {
      DigitsReadBack(n / 10);
      assert Digits(n)[..|Digits(n)| - 1] == Digits(n / 10);
    } else {
      assert Digits(n)[..0] == "";
    }
  }

  lemma {:induction false} LeadingZeros(k: nat, s: string)
    requires AllDigits(s)
    ensures AllDigits(Zeros(k) + s) && Value(Zeros(k) + s) == Value(s)
    decreases k + |s|
  {
    ZerosAreDigits(k);
    if s != "" {
      LeadingZeros(k, s[..|s| - 1]);
      assert (Zeros(k) + s)[..|Zeros(k) + s| - 1] == Zeros(k) + s[..|s| - 1];
    } else if k > 0 {
      LeadingZeros(k - 1, "");
      ZerosEnd(k);
      assert Zeros(k) + "" == Zeros(k) && Zeros(k - 1) + "" == Zeros(k - 1);
    } else {
      assert Zeros(0) + "" == "";
    }
  }

  lemma {:induction false} ZerosAreDigits(k: nat)
    ensures AllDigits(Zeros(k)) && |Zeros(k)| == k && forall i :: 0 <= i < k ==> Zeros(k)[i] == '0'
  {
    if k > 0 { ZerosAreDigits(k - 1); }
  }

  lemma ZerosEnd(k: nat)
    requires k > 0
    ensures |Zeros(k)| == k && Zeros(k)[..k - 1] == Zeros(k - 1) && Zeros(k)[k - 1] == '0'
  {
    ZerosAreDigits(k);
    ZerosAreDigits(k - 1);
  }

  lemma PaddedReadsBack(n: nat)
    ensures AllDigits(Padded(n)) && Value(Padded(n)) == n
  {
    DigitsReadBack(n);
    if |Digits(n)| < 12 { LeadingZeros(12 - |Digits(n)|, Digits(n)); }
  }

  function Power10(k: nat): (p: nat)
    ensures p > 0
  {
    if k == 0 then 1 else 10 * Power10(k - 1)
  }

  lemma Tenth(n: nat, k: nat)
    requires n < 10 * Power10(k)
    ensures n / 10 < Power10(k)
  {
  }

  /** A number below 10^(k + 1) has at most k + 1 digits. */
  lemma {:induction false} DigitCount(n: nat, k: nat)
    requires n < 10 * Power10(k)
    ensures |Digits(n)| <= k + 1
  {
    if n >= 10 {
      Tenth(n, k);
      DigitCount(n / 10, k - 1);
    }
  }

  /** Every offset below a trillion takes exactly twelve digits. */
  lemma PaddedWidth(n: nat)
    requires n < 1_000_000_000_000
    ensures |Padded(n)| == 12 && AllDigits(Padded(n))
  {
    assert Power10(4) == 10_000 && Power10(8) == 100_000_000 && Power10(11) == 100_000_000_000;
    DigitCount(n, 11);
    ZerosAreDigits(12 - |Digits(n)|);
    PaddedReadsBack(n);
  }

  /******* Separators *******/

  /** Two texts cut at the first separator agree on both sides of it. */
  lemma SameCut(a: string, x: string, b: string, y: string, sep: char)
    requires sep !in a && sep !in b
    requires a + [sep] + x == b + [sep] + y
    ensures a == b && x == y
  {
    var s, t := a + [sep] + x, b + [sep] + y;
    assert forall i :: 0 <= i < |a| ==> s[i] == a[i] != sep;
    assert forall i :: 0 <= i < |b| ==> t[i] == b[i] != sep;
    assert s[|a|] == sep && t[|b|] == sep;
    assert |a| == |b|;
    assert s[..|a|] == a && t[..|b|] == b;
    assert s[|a| + 1..] == x && t[|b| + 1..] == y;
  }

  /** Two texts cut at the last separator agree on both sides of it. */
  lemma SameLastCut(a: string, x: string, b: string, y: string, sep: char)
    requires sep !in x && sep !in y
    requires a + [sep] + x == b + [sep] + y
    ensures a == b && x == y
  {
    var s, t := a + [sep] + x, b + [sep] + y;
    assert s[|a|] == sep && t[|b|] == sep;
    assert forall i :: |a| < i < |s| ==> s[i] == x[i - |a| - 1] != sep;
    assert forall i :: |b| < i < |t| ==> t[i] == y[i - |b| - 1] != sep;
    assert |a| == |b|;
    assert s[..|a|] == a && t[..|b|] == b;
    assert s[|a| + 1..] == x && t[|b| + 1..] == y;
  }

  lemma SameStem(a: string, b: string, tail: string)
    requires a + tail == b + tail
    ensures a == b
  {
    assert |a| == |b|;
    assert (a + tail)[..|a|] == a && (b + tail)[..|b|] == b;
  }

  /** The name of a piece of a shard. */
  function PieceName(shard: string, rng: Range): string { shard + (['/'] + Numbers(rng)) }

  function Numbers(rng: Range): string { Padded(rng.start) + (['-'] + Padded(rng.end)) }

  function Name(shard: string, rng: Range): string {
    if rng.split then PieceName(shard, rng) else shard
  }

  lemma Regroup(a: string, b: string, c: string, d: string, e: string, f: string)
    ensures a + b + c + d + e + f == a + ((b + (c + (d + e))) + f)
  {
  }

  lemma KeyParts(job: string, shard: string, rng: Range)
    ensures FinalResultKey(job, shard, rng) == "results/" + (job + ['/'] + (Name(shard, rng) + ".parquet"))
  {
    var stem := "results/" + job + "/";
    if rng.split {
      Regroup(stem + shard, "/", Padded(rng.start), "-", Padded(rng.end), ".parquet");
    }
    assert FinalResultKey(job, shard, rng) == stem + (Name(shard, rng) + ".parquet");
  }

  lemma OnlyDigits(n: nat)
    ensures '-' !in Padded(n) && '/' !in Padded(n)
  {
    PaddedReadsBack(n);
  }

  predicate Whole(rng: Range) { rng.split ==> 0 <= rng.start && 0 <= rng.end }

  lemma NoSlash(rng: Range)
    requires 0 <= rng.start && 0 <= rng.end
    ensures '/' !in Numbers(rng)
  {
    OnlyDigits(rng.start);
    OnlyDigits(rng.end);
  }

  /** The two numbers at the end of a piece's name read back. */
  lemma SameNumbers(r1: Range, r2: Range)
    requires 0 <= r1.start && 0 <= r1.end && 0 <= r2.start && 0 <= r2.end && Numbers(r1) == Numbers(r2)
    ensures r1.start == r2.start && r1.end == r2.end
  {
    OnlyDigits(r1.start);
    OnlyDigits(r2.start);
    assert Numbers(r1) == Padded(r1.start) + ['-'] + Padded(r1.end) && Numbers(r2) == Padded(r2.start) + ['-'] + Padded(r2.end);
    SameCut(Padded(r1.start), Padded(r1.end), Padded(r2.start), Padded(r2.end), '-');
    PaddedReadsBack(r1.start);
    PaddedReadsBack(r2.start);
    PaddedReadsBack(r1.end);
    PaddedReadsBack(r2.end);
  }

  /** Two pieces have one name only if they are the same piece, whatever is in the
      shards' names. */
  lemma SamePiece(s1: string, r1: Range, s2: string, r2: Range)
    requires 0 <= r1.start && 0 <= r1.end && 0 <= r2.start && 0 <= r2.end
    requires PieceName(s1, r1) == PieceName(s2, r2)
    ensures s1 == s2 && r1.start == r2.start && r1.end == r2.end
  {
    NoSlash(r1);
    NoSlash(r2);
    assert PieceName(s1, r1) == s1 + ['/'] + Numbers(r1) && PieceName(s2, r2) == s2 + ['/'] + Numbers(r2);
    SameLastCut(s1, Numbers(r1), s2, Numbers(r2), '/');
    SameNumbers(r1, r2);
  }

  lemma SameKeySameName(j1: string, s1: string, r1: Range, j2: string, s2: string, r2: Range)
    requires '/' !in j1 && '/' !in j2
    ensures FinalResultKey(j1, s1, r1) == FinalResultKey(j2, s2, r2) <==> j1 == j2 && Name(s1, r1) == Name(s2, r2)
  {
    var n1, n2 := Name(s1, r1) + ".parquet", Name(s2, r2) + ".parquet";
    KeyParts(j1, s1, r1);
    KeyParts(j2, s2, r2);
    if FinalResultKey(j1, s1, r1) == FinalResultKey(j2, s2, r2) {
      var t1, t2 := j1 + ['/'] + n1, j2 + ['/'] + n2;
      assert ("results/" + t1)[8..] == t1 && ("results/" + t2)[8..] == t2;
      SameCut(j1, n1, j2, n2, '/');
      SameStem(Name(s1, r1), Name(s2, r2), ".parquet");
    }
  }

  /** Exactly when two final keys are one, for any shard names (job ids are UUIDs): the
      job is the same, and so is the piece, or a whole shard is named like a piece of the
      other. */
  lemma KeysClashExactly(j1: string, s1: string, r1: Range, j2: string, s2: string, r2: Range)
    requires Whole(r1) && Whole(r2) && '/' !in j1 && '/' !in j2
    ensures FinalResultKey(j1, s1, r1) == FinalResultKey(j2, s2, r2) <==>
            && j1 == j2
            && if r1.split == r2.split then s1 == s2 && (r1.split ==> r1.start == r2.start && r1.end == r2.end)
               else if r2.split then s1 == PieceName(s2, r2)
               else s2 == PieceName(s1, r1)
  {
    SameKeySameName(j1, s1, r1, j2, s2, r2);
    if r1.split && r2.split && PieceName(s1, r1) == PieceName(s2, r2) { SamePiece(s1, r1, s2, r2); }
  }

  /** So with no '/' in shard names equal keys name the same job, the same shard, and
      the same piece of it. */
  lemma KeysAreInjective(j1: string, s1: string, r1: Range, j2: string, s2: string, r2: Range)
    requires Whole(r1) && Whole(r2)
    requires '/' !in j1 && '/' !in j2 && '/' !in s1 && '/' !in s2
    ensures FinalResultKey(j1, s1, r1) == FinalResultKey(j2, s2, r2) <==>
            j1 == j2 && s1 == s2 && r1.split == r2.split && (r1.split ==> r1.start == r2.start && r1.end == r2.end)
  {
    KeysClashExactly(j1, s1, r1, j2, s2, r2);
    assert r1.split ==> PieceName(s1, r1)[|s1|] == '/';
    assert r2.split ==> PieceName(s2, r2)[|s2|] == '/';
  }

  lemma PieceNamed(shard: string, start: nat, end: nat)
    ensures shard + "/" + Padded(start) + "-" + Padded(end) == PieceName(shard, Range(start, end, true))
    ensures '/' in PieceName(shard, Range(start, end, true))
  {
    assert PieceName(shard, Range(start, end, true))[|shard|] == '/';
  }

  /** For every piece of every shard there is a shard name with a '/' whose whole-shard
      key is the piece's key. */
  lemma SlashCollides(job: string, shard: string, start: nat, end: nat)
    ensures var slashed := shard + "/" + Padded(start) + "-" + Padded(end);
            && '/' in slashed
            && FinalResultKey(job, slashed, Range(0, -1, false)) == FinalResultKey(job, shard, Range(start, end, true))
  {
    PieceNamed(shard, start, end);
    KeyParts(job, PieceName(shard, Range(start, end, true)), Range(0, -1, false));
    KeyParts(job, shard, Range(start, end, true));
  }
}
