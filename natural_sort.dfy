/** The natural ("human") string order of `NaturalSortHelper`: a name is cut
    into maximal runs of digits and of non-digits, runs that both read as
    unsigned 64-bit numbers are compared by value, any other pair of runs by a
    string comparer, and the run sequences lexicographically. */
module NaturalSortHelper {
  import opened Wrappers
  import opened Text

  // ------------------------------------------------------------ splitting

  /** `NumberCharBorder`: a border lies between a digit and a non-digit. */
  predicate NumberCharBorder(p: char, n: char)
  {
    (IsDigit(p) && !IsDigit(n)) || (!IsDigit(p) && IsDigit(n))
  }

  /** The pieces of `s[start..]` once the scan for borders has reached
      position `i`: the piece under way began at `start`, and a border right
      after a position closes the piece there. */
  function SplitFrom(s: string, start: nat, i: nat): (cs: seq<string>)
    requires start <= i < |s|
    ensures |cs| >= 1
    decreases |s| - i
  {
    if i == |s| - 1 then [s[start..]]
    else if NumberCharBorder(s[i], s[i + 1]) then [s[start..i + 1]] + SplitFrom(s, i + 1, i + 1)
    else SplitFrom(s, start, i + 1)
  }

  /** The pieces `SplitBy(NumberCharBorder)` yields; the empty name gives one
      empty piece. */
  function Chunks(s: string): (cs: seq<string>)
    ensures |cs| >= 1
  {
    if s == [] then [""] else SplitFrom(s, 0, 0)
  }

  function Concat(cs: seq<string>): string
  {
    if cs == [] then [] else cs[0] + Concat(cs[1..])
  }

  /** A run holds only digits or no digit at all. */
  predicate IsRun(s: string) { AllDigits(s) || NoDigits(s) }

  /** A run that reads as a number. */
  predicate IsNumeral(s: string) { s != [] && AllDigits(s) }

  /** `SplitBy` (lines 9-21), called with `NumberCharBorder`: the pieces
      between consecutive borders, the last piece running to the end. */
  method SplitBy(source: string) returns (chunks: seq<string>)
    ensures chunks == Chunks(source)
  {
    var start := 0;
    var i := 0;
    chunks := [];
    while i < |source| - 1
      invariant |source| == 0 ==> start == 0 && chunks == []
      invariant |source| > 0 ==> start <= i < |source| && SplitState(source, start, i, chunks)
    {
      if NumberCharBorder(source[i], source[i + 1]) {
        SplitStepBorder(source, start, i, chunks);
        chunks := chunks + [source[start..i + 1]];
        start := i + 1;
      } else {
        SplitStepInside(source, start, i, chunks);
      }
      i := i + 1;
    }
    if source == [] {
      chunks := chunks + [source[start..]];
    } else {
      SplitStateEnd(source, start, i, chunks);
      chunks := chunks + [source[start..]];
    }
  }

  /** Loop state of `SplitBy`: the pieces closed so far followed by those
      still to come are all the pieces. */
  predicate SplitState(source: string, start: nat, i: nat, chunks: seq<string>)
    requires start <= i < |source|
  {
    chunks + SplitFrom(source, start, i) == Chunks(source)
  }

  lemma SplitStepBorder(source: string, start: nat, i: nat, chunks: seq<string>)
    requires start <= i < |source| - 1 && SplitState(source, start, i, chunks)
    requires NumberCharBorder(source[i], source[i + 1])
    ensures SplitState(source, i + 1, i + 1, chunks + [source[start..i + 1]])
  {
    var piece, rest := source[start..i + 1], SplitFrom(source, i + 1, i + 1);
    assert SplitFrom(source, start, i) == [piece] + rest;
    assert chunks + ([piece] + rest) == (chunks + [piece]) + rest;
  }

  lemma SplitStepInside(source: string, start: nat, i: nat, chunks: seq<string>)
    requires start <= i < |source| - 1 && SplitState(source, start, i, chunks)
    requires !NumberCharBorder(source[i], source[i + 1])
    ensures SplitState(source, start, i + 1, chunks)
  {
  }

  lemma SplitStateEnd(source: string, start: nat, i: nat, chunks: seq<string>)
    requires start <= i == |source| - 1 && SplitState(source, start, i, chunks)
    ensures chunks + [source[start..]] == Chunks(source)
  {
  }

  lemma {:induction false} SplitFromConcat(s: string, start: nat, i: nat)
    requires start <= i < |s|
    ensures Concat(SplitFrom(s, start, i)) == s[start..]
    decreases |s| - i
  {
    var cs := SplitFrom(s, start, i);
    if i == |s| - 1 {
      assert cs[1..] == [];
    } else if NumberCharBorder(s[i], s[i + 1]) {
      SplitFromConcat(s, i + 1, i + 1);
      assert cs[1..] == SplitFrom(s, i + 1, i + 1);
      assert s[start..] == s[start..i + 1] + s[i + 1..];
    } else {
      SplitFromConcat(s, start, i + 1);
    }
  }

  /** Splitting loses and adds nothing: the pieces concatenate to the name. */
  lemma ChunksConcat(s: string)
    ensures Concat(Chunks(s)) == s
  {
    if s != [] {
      SplitFromConcat(s, 0, 0);
    } else {
      assert Chunks(s)[1..] == [];
    }
  }

  /** A non-empty piece whose characters are all of one kind is a run. */
  lemma OneKindIsRun(p: string)
    requires p != []
    requires forall j :: 0 <= j < |p| ==> IsDigit(p[j]) == IsDigit(p[0])
    ensures IsRun(p)
  {
  }

  lemma {:induction false} SplitFromRuns(s: string, start: nat, i: nat)
    requires start <= i < |s|
    requires forall j :: start <= j <= i ==> IsDigit(s[j]) == IsDigit(s[i])
    ensures forall k :: 0 <= k < |SplitFrom(s, start, i)| ==>
      SplitFrom(s, start, i)[k] != [] && IsRun(SplitFrom(s, start, i)[k])
    decreases |s| - i
  {
    if i == |s| - 1 {
      OneKindIsRun(s[start..]);
    } else if NumberCharBorder(s[i], s[i + 1]) {
      OneKindIsRun(s[start..i + 1]);
      SplitFromRuns(s, i + 1, i + 1);
      var cs := SplitFrom(s, start, i);
      assert forall k :: 1 <= k < |cs| ==> cs[k] == SplitFrom(s, i + 1, i + 1)[k - 1];
    } else {
      SplitFromRuns(s, start, i + 1);
    }
  }

  /** Every piece is a run, and the pieces of a non-empty name are non-empty. */
  lemma ChunksAreRuns(s: string)
    ensures forall k :: 0 <= k < |Chunks(s)| ==> IsRun(Chunks(s)[k])
    ensures s != [] ==> forall k :: 0 <= k < |Chunks(s)| ==> Chunks(s)[k] != []
  {
    if s != [] {
      SplitFromRuns(s, 0, 0);
    }
  }

  /** Pieces `k` and `k + 1` meet at a border. */
  predicate BorderAt(cs: seq<string>, k: nat)
    requires k + 1 < |cs|
  {
    cs[k] != [] && cs[k + 1] != [] && NumberCharBorder(cs[k][|cs[k]| - 1], cs[k + 1][0])
  }

  predicate Alternates(cs: seq<string>)
  {
    forall k: nat :: k + 1 < |cs| ==> BorderAt(cs, k)
  }

  lemma {:induction false} SplitFromAlternates(s: string, start: nat, i: nat)
    requires start <= i < |s|
    ensures var cs := SplitFrom(s, start, i); cs[0] != [] && cs[0][0] == s[start] && Alternates(cs)
    decreases |s| - i
  {
    if i < |s| - 1 {
      if NumberCharBorder(s[i], s[i + 1]) {
        SplitFromAlternates(s, i + 1, i + 1);
        var rest := SplitFrom(s, i + 1, i + 1);
        var cs := SplitFrom(s, start, i);
        assert cs == [s[start..i + 1]] + rest;
        forall k: nat | k + 1 < |cs| ensures BorderAt(cs, k) {
          if k > 0 {
            assert BorderAt(rest, k - 1);
          }
        }
      } else {
        SplitFromAlternates(s, start, i + 1);
      }
    }
  }

  /** Neighbouring pieces are of different kinds: `SplitBy` cuts at every
      border and nowhere else. */
  lemma ChunksAlternate(s: string)
    ensures Alternates(Chunks(s))
  {
    if s != [] {
      SplitFromAlternates(s, 0, 0);
    }
  }

  lemma {:induction false} SplitFromNoBorder(s: string, start: nat, i: nat)
    requires start <= i < |s|
    requires forall j :: i <= j < |s| - 1 ==> !NumberCharBorder(s[j], s[j + 1])
    ensures SplitFrom(s, start, i) == [s[start..]]
    decreases |s| - i
  {
    if i < |s| - 1 {
      SplitFromNoBorder(s, start, i + 1);
    }
  }

  /** A name that is one run is one piece. */
  lemma ChunksOfRun(s: string)
    requires IsRun(s)
    ensures Chunks(s) == [s]
  {
    if s != [] {
      SplitFromNoBorder(s, 0, 0);
    }
  }

  lemma {:induction false} SplitFromAppend(s: string, t: string, start: nat, i: nat)
    requires start <= i < |s| && t != [] && IsRun(t)
    requires NumberCharBorder(s[|s| - 1], t[0])
    ensures SplitFrom(s + t, start, i) == SplitFrom(s, start, i) + [t]
    decreases |s| - i
  {
    var u := s + t;
    if i == |s| - 1 {
      assert u[i] == s[|s| - 1] && u[i + 1] == t[0];
      SplitFromNoBorder(u, |s|, |s|);
      assert u[start..i + 1] == s[start..] && u[|s|..] == t;
    } else {
      assert u[i] == s[i] && u[i + 1] == s[i + 1];
      if NumberCharBorder(s[i], s[i + 1]) {
        SplitFromAppend(s, t, i + 1, i + 1);
        assert u[start..i + 1] == s[start..i + 1];
      } else {
        SplitFromAppend(s, t, start, i + 1);
      }
    }
  }

  /** Appending a run of the other kind adds exactly one piece. */
  lemma ChunksAppendRun(s: string, t: string)
    requires s != [] && t != [] && IsRun(t)
    requires NumberCharBorder(s[|s| - 1], t[0])
    ensures Chunks(s + t) == Chunks(s) + [t]
  {
    SplitFromAppend(s, t, 0, 0);
  }

  // ------------------------------------------------------------ comparing

  /** `Comparer<ulong>.Default.Compare`: -1, 0 or 1. */
  function IntCompare(m: int, n: int): (r: int)
    ensures r < 0 <==> m < n
    ensures r == 0 <==> m == n
    ensures -1 <= r <= 1
  {
    if m < n then -1 else if m > n then 1 else 0
  }

  function Sign(i: int): int
  {
    if i < 0 then -1 else if i > 0 then 1 else 0
  }

  /** Ordinal comparison of two strings, character by character. */
  function Ordinal(a: string, b: string): (r: int)
    ensures -1 <= r <= 1
  {
    if a == [] && b == [] then 0
    else if a == [] then -1
    else if b == [] then 1
    else if a[0] < b[0] then -1
    else if a[0] > b[0] then 1
    else Ordinal(a[1..], b[1..])
  }

  /** Swapping the operands negates the ordinal comparison. */
  lemma {:induction false} OrdinalAntisymmetric(a: string, b: string)
    ensures Ordinal(a, b) == -Ordinal(b, a)
  {
    if a != [] && b != [] && a[0] == b[0] {
      OrdinalAntisymmetric(a[1..], b[1..]);
    }
  }

  /** The ordinal comparison is 0 exactly for equal strings. */
  lemma {:induction false} OrdinalZero(a: string, b: string)
    ensures Ordinal(a, b) == 0 <==> a == b
  {
    if a != [] && b != [] && a[0] == b[0] {
      OrdinalZero(a[1..], b[1..]);
      if a[1..] == b[1..] {
        assert a == [a[0]] + a[1..] && b == [b[0]] + b[1..];
      }
    }
  }

  lemma {:induction false} OrdinalTransitive(a: string, b: string, c: string)
    requires Ordinal(a, b) <= 0 && Ordinal(b, c) <= 0
    ensures Ordinal(a, c) <= 0
  {
    if a != [] && b != [] && c != [] && a[0] == b[0] && b[0] == c[0] {
      OrdinalTransitive(a[1..], b[1..], c[1..]);
    }
  }

  /** The comparison of a pair of pieces in `NaturalComparer.Compare`
      (lines 39-41): by 64-bit value when both read as `ulong`, otherwise by
      the string comparer `cmp` (`Comparer<string>.Default`). */
  function ChunkCompare(a: string, b: string, cmp: (string, string) -> int): int
  {
    var xi := TryParseULong(a);
    var yi := TryParseULong(b);
    if xi.Some? && yi.Some? then IntCompare(xi.value, yi.value) else cmp(a, b)
  }

  /** The loop of `NaturalComparer.Compare` over the two piece sequences: the
      first unequal pair decides; otherwise the sequence with pieces left is
      the larger. */
  function CompareChunks(xs: seq<string>, ys: seq<string>, cmp: (string, string) -> int): int
  {
    if xs == [] || ys == [] then (if xs != [] then 1 else 0) - (if ys != [] then 1 else 0)
    else
      var ret := ChunkCompare(xs[0], ys[0], cmp);
      if ret != 0 then ret else CompareChunks(xs[1..], ys[1..], cmp)
  }

  /** `NaturalComparer.Compare(x, y)` with string comparer `cmp`. */
  function NaturalCompare(x: string, y: string, cmp: (string, string) -> int): int
  {
    CompareChunks(Chunks(x), Chunks(y), cmp)
  }

  /** `NaturalComparer.Compare` (lines 27-49): splits both names, then walks
      the two piece sequences together. */
  method Compare(x: string, y: string, cmp: (string, string) -> int) returns (r: int)
    ensures r == NaturalCompare(x, y, cmp)
  {
    var xs := SplitBy(x);
    var ys := SplitBy(y);
    var k := 0;
    while k < |xs| && k < |ys|
      invariant 0 <= k <= |xs| && k <= |ys|
      invariant CompareChunks(xs[k..], ys[k..], cmp) == CompareChunks(xs, ys, cmp)
    {
      var ret := ChunkCompare(xs[k], ys[k], cmp);
      if ret != 0 {
        return ret;
      }
      assert xs[k..][1..] == xs[k + 1..] && ys[k..][1..] == ys[k + 1..];
      k := k + 1;
    }
    r := (if k < |xs| then 1 else 0) - (if k < |ys| then 1 else 0);
  }

  /** The walk returns the comparison of the first unequal pair of pieces. */
  lemma {:induction false} CompareChunksFirstDifference(xs: seq<string>, ys: seq<string>, cmp: (string, string) -> int, k: nat)
    requires k < |xs| && k < |ys|
    requires forall j :: 0 <= j < k ==> ChunkCompare(xs[j], ys[j], cmp) == 0
    requires ChunkCompare(xs[k], ys[k], cmp) != 0
    ensures CompareChunks(xs, ys, cmp) == ChunkCompare(xs[k], ys[k], cmp)
  {
    if k > 0 {
      assert ChunkCompare(xs[0], ys[0], cmp) == 0;
      var xt, yt := xs[1..], ys[1..];
      assert CompareChunks(xs, ys, cmp) == CompareChunks(xt, yt, cmp);
      forall j | 0 <= j < k - 1 ensures ChunkCompare(xt[j], yt[j], cmp) == 0 {
        assert xt[j] == xs[j + 1] && yt[j] == ys[j + 1];
      }
      assert xt[k - 1] == xs[k] && yt[k - 1] == ys[k];
      CompareChunksFirstDifference(xt, yt, cmp, k - 1);
    }
  }

  /** When every common pair of pieces ties, the name with fewer pieces is
      smaller, and equally many pieces give 0. */
  lemma {:induction false} CompareChunksAllTie(xs: seq<string>, ys: seq<string>, cmp: (string, string) -> int)
    requires forall j :: 0 <= j < |xs| && j < |ys| ==> ChunkCompare(xs[j], ys[j], cmp) == 0
    ensures CompareChunks(xs, ys, cmp) == IntCompare(|xs|, |ys|)
  {
    if xs != [] && ys != [] {
      assert ChunkCompare(xs[0], ys[0], cmp) == 0;
      var xt, yt := xs[1..], ys[1..];
      assert CompareChunks(xs, ys, cmp) == CompareChunks(xt, yt, cmp);
      forall j | 0 <= j < |xt| && j < |yt| ensures ChunkCompare(xt[j], yt[j], cmp) == 0 {
        assert xt[j] == xs[j + 1] && yt[j] == ys[j + 1];
      }
      CompareChunksAllTie(xt, yt, cmp);
    }
  }

  /** A digit run too long for `ulong`, or a run without digits, on either
      side sends the pair to the string comparer. */
  lemma ChunkCompareFallsBack(a: string, b: string, cmp: (string, string) -> int)
    requires (IsNumeral(a) && DigitsValue(a) >= 0x1_0000_0000_0000_0000) || NoDigits(a)
          || (IsNumeral(b) && DigitsValue(b) >= 0x1_0000_0000_0000_0000) || NoDigits(b)
    ensures ChunkCompare(a, b, cmp) == cmp(a, b)
  {
    if IsNumeral(a) { TryParseULongOfDigits(a); }
    if NoDigits(a) { TryParseULongOfNonDigits(a); }
    if IsNumeral(b) { TryParseULongOfDigits(b); }
    if NoDigits(b) { TryParseULongOfNonDigits(b); }
  }

  /** Every name is equal to itself, given a string comparer that is. */
  lemma {:induction false} CompareChunksReflexive(xs: seq<string>, cmp: (string, string) -> int)
    requires forall a :: cmp(a, a) == 0
    ensures CompareChunks(xs, xs, cmp) == 0
  {
    if xs != [] {
      CompareChunksReflexive(xs[1..], cmp);
    }
  }

  lemma NaturalCompareReflexive(x: string, cmp: (string, string) -> int)
    requires forall a :: cmp(a, a) == 0
    ensures NaturalCompare(x, x, cmp) == 0
  {
    CompareChunksReflexive(Chunks(x), cmp);
  }

  lemma {:induction false} CompareChunksAntisymmetric(xs: seq<string>, ys: seq<string>, cmp: (string, string) -> int)
    requires forall a, b :: Sign(cmp(a, b)) == -Sign(cmp(b, a))
    ensures Sign(CompareChunks(xs, ys, cmp)) == -Sign(CompareChunks(ys, xs, cmp))
  {
    if xs != [] && ys != [] {
      ChunkCompareAntisymmetric(xs[0], ys[0], cmp);
      CompareChunksAntisymmetric(xs[1..], ys[1..], cmp);
    }
  }

  lemma ChunkCompareAntisymmetric(a: string, b: string, cmp: (string, string) -> int)
    requires Sign(cmp(a, b)) == -Sign(cmp(b, a))
    ensures Sign(ChunkCompare(a, b, cmp)) == -Sign(ChunkCompare(b, a, cmp))
  {
  }

  /** Swapping the names flips the sign of the result, given a string
      comparer that does so. */
  lemma NaturalCompareAntisymmetric(x: string, y: string, cmp: (string, string) -> int)
    requires forall a, b :: Sign(cmp(a, b)) == -Sign(cmp(b, a))
    ensures Sign(NaturalCompare(x, y, cmp)) == -Sign(NaturalCompare(y, x, cmp))
  {
    CompareChunksAntisymmetric(Chunks(x), Chunks(y), cmp);
  }

  /** The point of the comparer: after a common non-numeric prefix, numbers
      that fit in 64 bits compare by value ("img2" before "img10") and
      leading zeros do not matter ("a01" ties with "a1"). */
  lemma NumberedNamesCompareByValue(prefix: string, m: string, n: string, cmp: (string, string) -> int)
    requires prefix != [] && NoDigits(prefix)
    requires IsNumeral(m) && IsNumeral(n)
    requires DigitsValue(m) < 0x1_0000_0000_0000_0000 && DigitsValue(n) < 0x1_0000_0000_0000_0000
    requires forall a :: cmp(a, a) == 0
    ensures NaturalCompare(prefix + m, prefix + n, cmp) == IntCompare(DigitsValue(m), DigitsValue(n))
  {
    ChunksOfRun(prefix);
    ChunksAppendRun(prefix, m);
    ChunksAppendRun(prefix, n);
    TryParseULongOfNonDigits(prefix);
    TryParseULongOfDigits(m);
    TryParseULongOfDigits(n);
    PairCompare(prefix, m, prefix, n, cmp);
  }

  lemma PairCompare(a: string, b: string, c: string, d: string, cmp: (string, string) -> int)
    ensures CompareChunks([a, b], [c, d], cmp) ==
      if ChunkCompare(a, c, cmp) != 0 then ChunkCompare(a, c, cmp) else ChunkCompare(b, d, cmp)
  {
    var xs: seq<string> := [a, b];
    var ys: seq<string> := [c, d];
    assert xs[1..] == [b] && ys[1..] == [d];
    SingleCompare(b, d, cmp);
  }

  // ---------------------------------------------------- the 64-bit limit

  function Pow10(k: nat): nat
  {
    if k == 0 then 1 else 10 * Pow10(k - 1)
  }

  lemma {:induction false} DigitsValueAtLeast(s: string)
    requires IsNumeral(s)
    ensures DigitsValue(s) >= DigitValue(s[0]) * Pow10(|s| - 1)
    decreases |s|
  {
    var d0 := DigitValue(s[0]);
    if |s| == 1 {
      assert s[..|s| - 1] == [];
    } else {
      var p := s[..|s| - 1];
      DigitsValueAtLeast(p);
      assert p[0] == s[0];
      var k := Pow10(|p| - 1);
      assert Pow10(|s| - 1) == 10 * k;
      assert DigitsValue(s) >= DigitsValue(p) * 10;
      assert DigitsValue(p) * 10 >= (d0 * k) * 10;
      assert (d0 * k) * 10 == d0 * (10 * k);
    }
  }

  /** The comparer is not transitive once a digit run is too long for
      `ulong`: "3" < "20" by value and "20" < "20000000000000000000" by the
      ordinal string comparer, yet "3" > "20000000000000000000" by the
      ordinal string comparer, because the 20-digit run (2 * 10^19) exceeds
      2^64 - 1 and so falls back to comparing text. */
  lemma NaturalComparerIntransitive(x: string, y: string, z: string)
    requires x == "3" && y == "20" && z == "20000000000000000000"
    ensures NaturalCompare(x, y, Ordinal) < 0
    ensures NaturalCompare(y, z, Ordinal) < 0
    ensures NaturalCompare(x, z, Ordinal) > 0
  {
    FindingInputSmallRuns();
    BigRunExceedsULong();
    FindingInputText();
    IntransitiveShape(x, y, z);
  }

  /** The digit runs of the finding's input: 3 < 20 < 2^64 <= 2 * 10^19, and
      as text "20" < "20000000000000000000" < "3". */
  lemma FindingInputSmallRuns()
    ensures IsNumeral("3") && IsNumeral("20")
    ensures DigitsValue("3") == 3 && DigitsValue("20") == 20
  {
  }

  lemma FindingInputText()
    ensures Ordinal("20", "20000000000000000000") < 0 < Ordinal("3", "20000000000000000000")
  {
    var big: string := "20000000000000000000";
    var twenty: string := "20";
    assert twenty[0] == big[0] && twenty[1..] == "0";
    assert Ordinal(twenty, big) == Ordinal("0", big[1..]);
    assert big[1..][0] == '0' && big[1..][1..] == big[2..];
    assert Ordinal("0", big[1..]) == Ordinal([], big[2..]);
    assert big[2..] != [];
  }

  /** 2 * 10^19 is beyond 2^64 - 1. */
  lemma BigRunExceedsULong()
    ensures IsNumeral("20000000000000000000")
    ensures DigitsValue("20000000000000000000") >= 0x1_0000_0000_0000_0000
  {
    DigitsValueAtLeast("20000000000000000000");
    assert Pow10(19) == 10_000_000_000_000_000_000 by {
      assert Pow10(4) == 10_000;
      assert Pow10(8) == 100_000_000;
      assert Pow10(12) == 1_000_000_000_000;
      assert Pow10(16) == 10_000_000_000_000_000;
    }
  }

  /** Three numerals whose values increase, the last beyond 64 bits, whose
      text order puts the first last. */
  lemma IntransitiveShape(a: string, b: string, c: string)
    requires IsNumeral(a) && IsNumeral(b) && IsNumeral(c)
    requires DigitsValue(a) < DigitsValue(b) < 0x1_0000_0000_0000_0000 <= DigitsValue(c)
    requires Ordinal(b, c) < 0 < Ordinal(a, c)
    ensures NaturalCompare(a, b, Ordinal) < 0
    ensures NaturalCompare(b, c, Ordinal) < 0
    ensures NaturalCompare(a, c, Ordinal) > 0
  {
    ChunksOfRun(a);
    ChunksOfRun(b);
    ChunksOfRun(c);
    TryParseULongOfDigits(a);
    TryParseULongOfDigits(b);
    TryParseULongOfDigits(c);
    SingleCompare(a, b, Ordinal);
    SingleCompare(b, c, Ordinal);
    SingleCompare(a, c, Ordinal);
  }

  lemma SingleCompare(a: string, b: string, cmp: (string, string) -> int)
    ensures CompareChunks([a], [b], cmp) == ChunkCompare(a, b, cmp)
  {
    var xs: seq<string> := [a];
    var ys: seq<string> := [b];
    assert |xs[1..]| == 0 && |ys[1..]| == 0;
  }

  // ---------------------------------------------- the corrected comparer

  /** Pieces compared as intended: digit runs by unbounded value, every other
      pair by ordinal string order. */
  function NaturalChunkOrder(a: string, b: string): int
  {
    if IsNumeral(a) && IsNumeral(b) then IntCompare(DigitsValue(a), DigitsValue(b)) else Ordinal(a, b)
  }

  function NaturalChunksOrder(xs: seq<string>, ys: seq<string>): (r: int)
    ensures -1 <= r <= 1
  {
    if xs == [] || ys == [] then (if xs != [] then 1 else 0) - (if ys != [] then 1 else 0)
    else
      var ret := NaturalChunkOrder(xs[0], ys[0]);
      if ret != 0 then ret else NaturalChunksOrder(xs[1..], ys[1..])
  }

  /** The corrected natural order: the comparer's walk over the pieces, with
      `NaturalChunkOrder` for each pair. */
  function NaturalOrder(x: string, y: string): int
  {
    NaturalChunksOrder(Chunks(x), Chunks(y))
  }

  /** Where every digit run fits in 64 bits the corrected order is the
      comparer's own order with the ordinal string comparer: the correction
      changes only the overflowing case. */
  predicate RunsFitULong(cs: seq<string>)
  {
    forall k :: 0 <= k < |cs| && IsNumeral(cs[k]) ==> DigitsValue(cs[k]) < 0x1_0000_0000_0000_0000
  }

  lemma {:induction false} NaturalChunksOrderAgrees(xs: seq<string>, ys: seq<string>)
    requires forall k :: 0 <= k < |xs| ==> IsRun(xs[k])
    requires forall k :: 0 <= k < |ys| ==> IsRun(ys[k])
    requires RunsFitULong(xs) && RunsFitULong(ys)
    ensures NaturalChunksOrder(xs, ys) == CompareChunks(xs, ys, Ordinal)
  {
    if xs != [] && ys != [] {
      NaturalChunkOrderAgrees(xs[0], ys[0]);
      NaturalChunksOrderAgrees(xs[1..], ys[1..]);
    }
  }

  lemma NaturalChunkOrderAgrees(a: string, b: string)
    requires IsRun(a) && IsRun(b)
    requires IsNumeral(a) ==> DigitsValue(a) < 0x1_0000_0000_0000_0000
    requires IsNumeral(b) ==> DigitsValue(b) < 0x1_0000_0000_0000_0000
    ensures NaturalChunkOrder(a, b) == ChunkCompare(a, b, Ordinal)
  {
    if IsNumeral(a) { TryParseULongOfDigits(a); } else { TryParseULongOfNonDigits(a); }
    if IsNumeral(b) { TryParseULongOfDigits(b); } else { TryParseULongOfNonDigits(b); }
  }

  lemma NaturalOrderAgreesWithinULong(x: string, y: string)
    requires RunsFitULong(Chunks(x)) && RunsFitULong(Chunks(y))
    ensures NaturalOrder(x, y) == NaturalCompare(x, y, Ordinal)
  {
    ChunksAreRuns(x);
    ChunksAreRuns(y);
    NaturalChunksOrderAgrees(Chunks(x), Chunks(y));
  }

  lemma NaturalChunkOrderAntisymmetric(a: string, b: string)
    ensures NaturalChunkOrder(a, b) == -NaturalChunkOrder(b, a)
  {
    OrdinalAntisymmetric(a, b);
  }

  /** How a numeral compares with a run holding no digit: decided by that
      run alone, since every digit sorts the same way against it. */
  function NonNumeralRank(v: string): int
  {
    if v == [] || v[0] < '0' then 1 else -1
  }

  lemma NumeralAgainstText(u: string, v: string)
    requires IsNumeral(u) && NoDigits(v)
    ensures Ordinal(u, v) == NonNumeralRank(v)
    ensures Ordinal(v, u) == -NonNumeralRank(v)
  {
    OrdinalAntisymmetric(u, v);
    assert IsDigit(u[0]);
    if v != [] {
      assert !IsDigit(v[0]);
    }
  }

  lemma NaturalChunkOrderTransitive(a: string, b: string, c: string)
    requires IsRun(a) && IsRun(b) && IsRun(c)
    requires NaturalChunkOrder(a, b) <= 0 && NaturalChunkOrder(b, c) <= 0
    ensures NaturalChunkOrder(a, c) <= 0
  {
    var na, nb, nc := IsNumeral(a), IsNumeral(b), IsNumeral(c);
    if !na { assert NoDigits(a); }
    if !nb { assert NoDigits(b); }
    if !nc { assert NoDigits(c); }
    if na && !nb { NumeralAgainstText(a, b); }
    if na && !nc { NumeralAgainstText(a, c); }
    if nb && !nc { NumeralAgainstText(b, c); }
    if nb && !na { NumeralAgainstText(b, a); }
    if nc && !na { NumeralAgainstText(c, a); }
    if nc && !nb { NumeralAgainstText(c, b); }
    if !na && !nb && !nc {
      OrdinalTransitive(a, b, c);
    } else if na && !nb && !nc {
      if c != [] { assert b[0] <= c[0]; }
    } else if !na && !nb && nc {
      if a != [] && b != [] { assert a[0] <= b[0]; }
      if b == [] { assert a == []; }
    }
  }

  lemma NaturalChunkOrderStrict(a: string, b: string, c: string)
    requires IsRun(a) && IsRun(b) && IsRun(c)
    requires NaturalChunkOrder(a, b) <= 0 && NaturalChunkOrder(b, c) <= 0
    requires NaturalChunkOrder(a, b) < 0 || NaturalChunkOrder(b, c) < 0
    ensures NaturalChunkOrder(a, c) < 0
  {
    NaturalChunkOrderTransitive(a, b, c);
    if NaturalChunkOrder(a, c) == 0 {
      NaturalChunkOrderAntisymmetric(a, c);
      if NaturalChunkOrder(a, b) < 0 {
        NaturalChunkOrderTransitive(b, c, a);
        NaturalChunkOrderAntisymmetric(b, a);
      } else {
        NaturalChunkOrderTransitive(c, a, b);
        NaturalChunkOrderAntisymmetric(c, b);
      }
    }
  }

  lemma {:induction false} NaturalChunksOrderAntisymmetric(xs: seq<string>, ys: seq<string>)
    ensures NaturalChunksOrder(xs, ys) == -NaturalChunksOrder(ys, xs)
  {
    if xs != [] && ys != [] {
      NaturalChunkOrderAntisymmetric(xs[0], ys[0]);
      NaturalChunksOrderAntisymmetric(xs[1..], ys[1..]);
    }
  }

  lemma {:induction false} NaturalChunksOrderReflexive(xs: seq<string>)
    ensures NaturalChunksOrder(xs, xs) == 0
  {
    if xs != [] {
      OrdinalZero(xs[0], xs[0]);
      NaturalChunksOrderReflexive(xs[1..]);
    }
  }

  lemma {:induction false} NaturalChunksOrderTransitive(xs: seq<string>, ys: seq<string>, zs: seq<string>)
    requires forall k :: 0 <= k < |xs| ==> IsRun(xs[k])
    requires forall k :: 0 <= k < |ys| ==> IsRun(ys[k])
    requires forall k :: 0 <= k < |zs| ==> IsRun(zs[k])
    requires NaturalChunksOrder(xs, ys) <= 0 && NaturalChunksOrder(ys, zs) <= 0
    ensures NaturalChunksOrder(xs, zs) <= 0
  {
    if xs != [] && ys != [] && zs != [] {
      var c1 := NaturalChunkOrder(xs[0], ys[0]);
      var c2 := NaturalChunkOrder(ys[0], zs[0]);
      NaturalChunkOrderTransitive(xs[0], ys[0], zs[0]);
      if c1 < 0 || c2 < 0 {
        NaturalChunkOrderStrict(xs[0], ys[0], zs[0]);
      } else {
        NaturalChunksOrderTransitive(xs[1..], ys[1..], zs[1..]);
      }
    }
  }

  /** The corrected order is a total preorder on all names: reflexive,
      antisymmetric and transitive, so sorting by it is well defined. */
  lemma NaturalOrderIsPreorder(x: string, y: string, z: string)
    ensures NaturalOrder(x, x) == 0
    ensures NaturalOrder(x, y) == -NaturalOrder(y, x)
    ensures NaturalOrder(x, y) <= 0 && NaturalOrder(y, z) <= 0 ==> NaturalOrder(x, z) <= 0
  {
    NaturalChunksOrderReflexive(Chunks(x));
    NaturalChunksOrderAntisymmetric(Chunks(x), Chunks(y));
    ChunksAreRuns(x);
    ChunksAreRuns(y);
    ChunksAreRuns(z);
    if NaturalOrder(x, y) <= 0 && NaturalOrder(y, z) <= 0 {
      NaturalChunksOrderTransitive(Chunks(x), Chunks(y), Chunks(z));
    }
  }

  /** The corrected order keeps the example of the finding in order:
      "3" < "20" < "20000000000000000000" and "3" < "20000000000000000000". */
  lemma NaturalOrderOnFindingInput(x: string, y: string, z: string)
    requires x == "3" && y == "20" && z == "20000000000000000000"
    ensures NaturalOrder(x, y) < 0
    ensures NaturalOrder(y, z) < 0
    ensures NaturalOrder(x, z) < 0
  {
    FindingInputSmallRuns();
    BigRunExceedsULong();
    NumeralsInOrder(x, y);
    NumeralsInOrder(y, z);
    NumeralsInOrder(x, z);
  }

  /** Two numerals are in the corrected order of their values. */
  lemma NumeralsInOrder(a: string, b: string)
    requires IsNumeral(a) && IsNumeral(b) && DigitsValue(a) < DigitsValue(b)
    ensures NaturalOrder(a, b) < 0
  {
    ChunksOfRun(a);
    ChunksOfRun(b);
    var xs: seq<string> := [a];
    var ys: seq<string> := [b];
    assert |xs[1..]| == 0 && |ys[1..]| == 0;
  }

  // -------------------------------------------------------------- sorting

  /** The order a `Naturally…` wrapper sorts by: the natural order of the
      keys, reversed for the `…Descending` wrappers. */
  function Directed(a: string, b: string, descending: bool): int
  {
    if descending then NaturalOrder(b, a) else NaturalOrder(a, b)
  }

  predicate SortedBy<T>(s: seq<T>, key: T -> string, descending: bool)
  {
    forall i, j :: 0 <= i < j < |s| ==> Directed(key(s[i]), key(s[j]), descending) <= 0
  }

  lemma DirectedIsPreorder(a: string, b: string, c: string, descending: bool)
    ensures Directed(a, b, descending) == -Directed(b, a, descending)
    ensures Directed(a, b, descending) <= 0 && Directed(b, c, descending) <= 0 ==> Directed(a, c, descending) <= 0
  {
    NaturalOrderIsPreorder(a, b, c);
    NaturalOrderIsPreorder(c, b, a);
  }

  /** One step of a stable insertion sort: `x` goes after every element that
      does not sort after it. */
  function Insert<T>(x: T, s: seq<T>, key: T -> string, descending: bool): (r: seq<T>)
    ensures multiset(r) == multiset(s) + multiset{x}
  {
    if s == [] then [x]
    else if Directed(key(x), key(s[0]), descending) < 0 then [x] + s
    else
      assert s == [s[0]] + s[1..];
      [s[0]] + Insert(x, s[1..], key, descending)
  }

  lemma {:induction false} InsertSorted<T>(x: T, s: seq<T>, key: T -> string, descending: bool)
    requires SortedBy(s, key, descending)
    ensures SortedBy(Insert(x, s, key, descending), key, descending)
  {
    if s != [] {
      var r := Insert(x, s, key, descending);
      if Directed(key(x), key(s[0]), descending) < 0 {
        forall j | 0 < j < |r| ensures Directed(key(r[0]), key(r[j]), descending) <= 0 {
          DirectedIsPreorder(key(x), key(s[0]), key(s[j - 1]), descending);
        }
      } else {
        InsertSorted(x, s[1..], key, descending);
        var tail := Insert(x, s[1..], key, descending);
        DirectedIsPreorder(key(x), key(s[0]), key(x), descending);
        forall j | 0 <= j < |tail| ensures Directed(key(s[0]), key(tail[j]), descending) <= 0 {
          assert tail[j] in multiset(tail);
          if tail[j] != x {
            assert tail[j] in multiset(s[1..]);
            var m :| 0 <= m < |s[1..]| && s[1..][m] == tail[j];
            assert s[m + 1] == tail[j];
          }
        }
      }
    }
  }

  /** The elements whose key ties with `k` in the natural order, in the order
      they come in `s`. A stable sort keeps this run for every `k`. */
  function Ties<T>(s: seq<T>, key: T -> string, k: string): (r: seq<T>)
    ensures |r| <= |s|
  {
    if s == [] then []
    else (if NaturalOrder(key(s[0]), k) == 0 then [s[0]] else []) + Ties(s[1..], key, k)
  }

  lemma {:induction false} TiesSnoc<T>(s: seq<T>, x: T, key: T -> string, k: string)
    ensures Ties(s + [x], key, k) == Ties(s, key, k) + Ties([x], key, k)
  {
    if s == [] {
      assert s + [x] == [x];
    } else {
      var t := s + [x];
      assert t[0] == s[0] && t[1..] == s[1..] + [x];
      TiesSnoc(s[1..], x, key, k);
      var h: seq<T> := if NaturalOrder(key(s[0]), k) == 0 then [s[0]] else [];
      assert Ties(t, key, k) == h + Ties(t[1..], key, k);
      assert Ties(s, key, k) == h + Ties(s[1..], key, k);
      assert h + (Ties(s[1..], key, k) + Ties([x], key, k)) == (h + Ties(s[1..], key, k)) + Ties([x], key, k);
    }
  }

  /** Nothing in a sorted run that sorts strictly after `x` ties with a key
      `x` ties with. */
  lemma {:induction false} NoTiesAfter<T>(x: T, s: seq<T>, key: T -> string, descending: bool, k: string)
    requires SortedBy(s, key, descending) && s != []
    requires Directed(key(x), key(s[0]), descending) < 0 && NaturalOrder(key(x), k) == 0
    ensures Ties(s, key, k) == []
  {
    DirectedIsPreorder(key(x), k, key(s[0]), false);
    DirectedIsPreorder(key(s[0]), k, key(x), false);
    DirectedIsPreorder(key(x), key(s[0]), key(x), false);
    if |s| > 1 {
      assert Directed(key(s[0]), key(s[1]), descending) <= 0;
      DirectedIsPreorder(key(x), key(s[1]), key(x), descending);
      DirectedIsPreorder(key(s[0]), key(s[1]), key(x), descending);
      DirectedIsPreorder(key(s[0]), key(x), key(x), descending);
      assert s[1..][0] == s[1];
      NoTiesAfter(x, s[1..], key, descending, k);
    }
  }

  /** `Insert` puts `x` after every element it ties with. */
  lemma {:induction false} InsertTies<T>(x: T, s: seq<T>, key: T -> string, descending: bool, k: string)
    requires SortedBy(s, key, descending)
    ensures Ties(Insert(x, s, key, descending), key, k) == Ties(s, key, k) + Ties([x], key, k)
  {
    if s == [] {
      assert Insert(x, s, key, descending) == [x];
      assert [x] == s + [x];
    } else if Directed(key(x), key(s[0]), descending) < 0 {
      InsertTiesFront(x, s, key, descending, k);
    } else {
      assert SortedBy(s[1..], key, descending) by {
        forall i, j | 0 <= i < j < |s[1..]| ensures Directed(key(s[1..][i]), key(s[1..][j]), descending) <= 0 {
          assert s[1..][i] == s[i + 1] && s[1..][j] == s[j + 1];
        }
      }
      InsertTies(x, s[1..], key, descending, k);
      InsertTiesBehind(x, s, key, descending, k);
    }
  }

  /** `x` sorts before the whole run and goes first. */
  lemma InsertTiesFront<T>(x: T, s: seq<T>, key: T -> string, descending: bool, k: string)
    requires SortedBy(s, key, descending) && s != [] && Directed(key(x), key(s[0]), descending) < 0
    ensures Ties(Insert(x, s, key, descending), key, k) == Ties(s, key, k) + Ties([x], key, k)
  {
    var hx: seq<T> := if NaturalOrder(key(x), k) == 0 then [x] else [];
    assert [x][1..] == [];
    assert Ties([x], key, k) == hx;
    var r := Insert(x, s, key, descending);
    assert r == [x] + s;
    assert r[0] == x && r[1..] == s;
    assert Ties(r, key, k) == hx + Ties(s, key, k);
    if NaturalOrder(key(x), k) == 0 {
      NoTiesAfter(x, s, key, descending, k);
    }
  }

  /** `x` goes behind the head of the run, into its tail. */
  lemma InsertTiesBehind<T>(x: T, s: seq<T>, key: T -> string, descending: bool, k: string)
    requires s != [] && Directed(key(x), key(s[0]), descending) >= 0
    requires Ties(Insert(x, s[1..], key, descending), key, k) == Ties(s[1..], key, k) + Ties([x], key, k)
    ensures Ties(Insert(x, s, key, descending), key, k) == Ties(s, key, k) + Ties([x], key, k)
  {
    var r := Insert(x, s, key, descending);
    var tail := Insert(x, s[1..], key, descending);
    assert r == [s[0]] + tail;
    assert r[0] == s[0] && r[1..] == tail;
    var h: seq<T> := if NaturalOrder(key(s[0]), k) == 0 then [s[0]] else [];
    assert Ties(r, key, k) == h + Ties(tail, key, k);
    assert Ties(s, key, k) == h + Ties(s[1..], key, k);
    assert h + (Ties(s[1..], key, k) + Ties([x], key, k)) == (h + Ties(s[1..], key, k)) + Ties([x], key, k);
  }

  /** Inserting into a sorted run with the ties of `done` gives the ties of
      `done` followed by `x`. */
  lemma InsertKeepsTies<T>(x: T, r: seq<T>, done: seq<T>, key: T -> string, descending: bool)
    requires SortedBy(r, key, descending)
    requires forall k :: Ties(r, key, k) == Ties(done, key, k)
    ensures forall k :: Ties(Insert(x, r, key, descending), key, k) == Ties(done + [x], key, k)
  {
    forall k ensures Ties(Insert(x, r, key, descending), key, k) == Ties(done + [x], key, k) {
      InsertTies(x, r, key, descending, k);
      TiesSnoc(done, x, key, k);
    }
  }

  /** The stable sort behind `OrderBy` / `OrderByDescending` with the
      natural comparer: a permutation of the source, sorted by key. */
  method OrderBy<T>(source: seq<T>, key: T -> string, descending: bool) returns (r: seq<T>)
    ensures multiset(r) == multiset(source)
    ensures SortedBy(r, key, descending)
    ensures forall k :: Ties(r, key, k) == Ties(source, key, k)
  {
    r := [];
    var i := 0;
    while i < |source|
      invariant 0 <= i <= |source|
      invariant multiset(r) == multiset(source[..i])
      invariant SortedBy(r, key, descending)
      invariant forall k :: Ties(r, key, k) == Ties(source[..i], key, k)
    {
      InsertSorted(source[i], r, key, descending);
      InsertKeepsTies(source[i], r, source[..i], key, descending);
      r := Insert(source[i], r, key, descending);
      assert source[..i + 1] == source[..i] + [source[i]];
      i := i + 1;
    }
    assert source[..i] == source;
  }

  /** `NaturallyOrderBy`: ascending natural order of the keys (the string
      overload uses the string itself as key). */
  method NaturallyOrderBy<T>(source: seq<T>, key: T -> string) returns (r: seq<T>)
    ensures multiset(r) == multiset(source)
    ensures forall i, j :: 0 <= i < j < |r| ==> NaturalOrder(key(r[i]), key(r[j])) <= 0
    ensures forall k :: Ties(r, key, k) == Ties(source, key, k)
  {
    r := OrderBy(source, key, false);
  }

  /** `NaturallyOrderByDescending`: descending natural order of the keys. */
  method NaturallyOrderByDescending<T>(source: seq<T>, key: T -> string) returns (r: seq<T>)
    ensures multiset(r) == multiset(source)
    ensures forall i, j :: 0 <= i < j < |r| ==> NaturalOrder(key(r[i]), key(r[j])) >= 0
    ensures forall k :: Ties(r, key, k) == Ties(source, key, k)
  {
    r := OrderBy(source, key, true);
    forall i, j | 0 <= i < j < |r| ensures NaturalOrder(key(r[i]), key(r[j])) >= 0 {
      NaturalOrderIsPreorder(key(r[i]), key(r[j]), key(r[j]));
    }
  }
}
