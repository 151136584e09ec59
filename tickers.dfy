/** The list utilities of `main` in bot_saham.py: the exchange-suffix
    normalisation of ticker symbols, duplicate removal, and the split into
    download batches of 50. */
module Tickers {

  /** The Indonesia Stock Exchange suffix the history provider expects. */
  const Suffix: string := ".JK"
  const BatchSize: nat := 50

  predicate EndsWith(s: string, suffix: string)
  {
    |suffix| <= |s| && s[|s| - |suffix|..] == suffix
  }

  /** `x if x.endswith('.JK') else f"{x}.JK"`: the result always carries the
      suffix, a symbol that already has it is left alone, and any other
      symbol gets it appended once. */
  function Normalize(x: string): (y: string)
    ensures EndsWith(y, Suffix)
    ensures EndsWith(x, Suffix) ==> y == x
    ensures !EndsWith(x, Suffix) ==> |y| == |x| + |Suffix| && y[..|x|] == x
  {
    if EndsWith(x, Suffix) then x else x + Suffix
  }

  /** Normalising twice is the same as normalising once. */
  lemma NormalizeIdempotent(x: string)
    ensures Normalize(Normalize(x)) == Normalize(x)
  {
  }

  /** The list comprehension over all symbols read from the universe file. */
  function NormalizeAll(xs: seq<string>): (ys: seq<string>)
    ensures |ys| == |xs|
    ensures forall i :: 0 <= i < |xs| ==> ys[i] == Normalize(xs[i])
    ensures forall i :: 0 <= i < |ys| ==> EndsWith(ys[i], Suffix)
  {
    seq(|xs|, i requires 0 <= i < |xs| => Normalize(xs[i]))
  }

  predicate NoDuplicates<T(==)>(xs: seq<T>)
  {
    forall i, j :: 0 <= i < j < |xs| ==> xs[i] != xs[j]
  }

  /** `list(set(xs))`: the same symbols, each once. Python leaves the order
      to the hash set; this model keeps first occurrences in input order. */
  function Dedupe(xs: seq<string>): (ys: seq<string>)
    ensures NoDuplicates(ys)
    ensures forall x :: x in ys <==> x in xs
    ensures |ys| <= |xs|
  {
    if xs == [] then []
    else
      var rest := Dedupe(xs[..|xs| - 1]);
      var last := xs[|xs| - 1];
      assert forall x :: x in xs <==> x in xs[..|xs| - 1] || x == last;
      if last in rest then rest else rest + [last]
  }

  function Min(a: int, b: int): int
  {
    if a <= b then a else b
  }

  /** The slices `xs[i:i+50]` for i = 0, 50, 100, ... while i < |xs|. */
  function Batches<T>(xs: seq<T>): (bs: seq<seq<T>>)
    decreases |xs|
  {
    if xs == [] then []
    else
      var k := Min(BatchSize, |xs|);
      [xs[..k]] + Batches(xs[k..])
  }

  function Concat<T>(bs: seq<seq<T>>): seq<T>
  {
    if bs == [] then [] else bs[0] + Concat(bs[1..])
  }

  /** Every batch holds between 1 and 50 symbols, all but the last exactly 50,
      and the batches put back together give the whole list. */
  lemma {:induction false} BatchesPartition<T>(xs: seq<T>)
    ensures Concat(Batches(xs)) == xs
    ensures forall j :: 0 <= j < |Batches(xs)| ==> 1 <= |Batches(xs)[j]| <= BatchSize
    ensures forall j :: 0 <= j < |Batches(xs)| - 1 ==> |Batches(xs)[j]| == BatchSize
    decreases |xs|
  {
    if xs != [] {
      var k := Min(BatchSize, |xs|);
      BatchesPartition(xs[k..]);
      var bs := Batches(xs);
      assert bs[1..] == Batches(xs[k..]);
      assert xs[..k] + xs[k..] == xs;
    }
  }

  /** Batch j is exactly the slice the loop takes at offset 50 * j, and there
      are as many batches as offsets 0, 50, 100, ... below |xs|. */
  lemma {:induction false} BatchAt<T>(xs: seq<T>, j: nat)
    ensures |Batches(xs)| == (|xs| + BatchSize - 1) / BatchSize
    ensures j < |Batches(xs)| ==>
      Batches(xs)[j] == xs[BatchSize * j..Min(BatchSize * j + BatchSize, |xs|)]
    decreases |xs|
  {
    if xs != [] {
      var k := Min(BatchSize, |xs|);
      var rest := xs[k..];
      BatchAt(rest, if j > 0 then j - 1 else 0);
      if j > 0 && j < |Batches(xs)| {
        assert Batches(xs)[j] == Batches(rest)[j - 1];
        assert k == BatchSize;
        var lo := BatchSize * (j - 1);
        assert BatchSize * j == lo + BatchSize;
        var hi := Min(lo + BatchSize, |rest|);
        assert Min(BatchSize * j + BatchSize, |xs|) == hi + BatchSize;
        forall m | 0 <= m < hi - lo ensures rest[lo..hi][m] == xs[lo + BatchSize..hi + BatchSize][m] {
          assert rest[lo + m] == xs[k + lo + m];
        }
        assert rest[lo..hi] == xs[lo + BatchSize..hi + BatchSize];
      }
    }
  }
}
