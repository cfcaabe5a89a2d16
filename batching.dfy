/** `batch_dirs` of src/etl/etl_unpack_json.py: the week directories of the data root, sorted
    by name and cut into consecutive batches of `batchsize`, each batch being what one call of
    `transform_dataframe` processes. */
module Batching {
  import opened Wrappers
  import Strings
  import Seqs

  /** The consecutive slices `s[i:i+b]` for i = 0, b, 2b, ... below `|s|`. */
  function Chunks(s: seq<string>, b: nat): seq<seq<string>>
    requires b > 0
    decreases |s|
  {
    if s == [] then []
    else if |s| <= b then [s]
    else [s[..b]] + Chunks(s[b..], b)
  }

  /** Concatenating the batches gives back the list they were cut from. */
  lemma {:induction false} ChunksFlatten(s: seq<string>, b: nat)
    requires b > 0
    ensures Seqs.Flatten(Chunks(s, b)) == s
    decreases |s|
  {
    if |s| > b {
      ChunksFlatten(s[b..], b);
      Seqs.FlattenAppend([s[..b]], Chunks(s[b..], b));
      assert Seqs.Flatten([s[..b]]) == Seqs.Flatten([]) + s[..b];
      assert s == s[..b] + s[b..];
    } else if s != [] {
      assert Seqs.Flatten([s]) == Seqs.Flatten([]) + s;
    }
  }

  /** Every batch but the last holds exactly `b` names; the last is non-empty and holds at
      most `b`. */
  lemma {:induction false} ChunksSizes(s: seq<string>, b: nat)
    requires b > 0
    ensures forall k :: 0 <= k < |Chunks(s, b)| - 1 ==> |Chunks(s, b)[k]| == b
    ensures Chunks(s, b) != [] ==> 0 < |Chunks(s, b)[|Chunks(s, b)| - 1]| <= b
    decreases |s|
  {
    if |s| > b {
      ChunksSizes(s[b..], b);
      var rest := Chunks(s[b..], b);
      assert Chunks(s, b) == [s[..b]] + rest;
      assert rest != [];
      forall k | 0 <= k < |Chunks(s, b)| - 1
        ensures |Chunks(s, b)[k]| == b
      {
        if k > 0 {
          assert Chunks(s, b)[k] == rest[k - 1];
        }
      }
    }
  }

  /** There are ceil(N / b) batches: the fewest that hold N names at b per batch. In
      particular there are none exactly when there are no names. */
  lemma {:induction false} ChunksCount(s: seq<string>, b: nat)
    requires b > 0
    ensures |Chunks(s, b)| * b >= |s|
    ensures |Chunks(s, b)| > 0 ==> (|Chunks(s, b)| - 1) * b < |s|
    ensures |Chunks(s, b)| == 0 <==> s == []
    decreases |s|
  {
    if |s| > b {
      ChunksCount(s[b..], b);
      var n := |Chunks(s[b..], b)|;
      assert |Chunks(s, b)| == n + 1;
      assert (n + 1) * b == n * b + b;
    }
  }

  /** `batch_dirs(root, batchsize)`, `os.listdir(root)` being `listing`: sort the names, then
      `for i in range(0, len(week_dirs), batchsize)` append `week_dirs[i:i+batchsize]`. A zero
      step makes `range` raise ValueError; a negative one gives an empty range. */
  method BatchDirs(listing: seq<string>, batchsize: int) returns (r: Result<seq<seq<string>>>)
    ensures batchsize == 0 ==> r == Err(ValueError)
    ensures batchsize < 0 ==> r == Ok([])
    ensures batchsize > 0 ==> r == Ok(Chunks(Strings.Sort(listing), batchsize))
  {
    if batchsize == 0 {
      return Err(ValueError);
    }
    var weekDirs := Strings.Sort(listing);
    var batchList: seq<seq<string>> := [];
    if batchsize < 0 {
      return Ok(batchList);
    }
    var i := 0;
    while i < |weekDirs|
      invariant 0 <= i <= |weekDirs|
      invariant batchList + Chunks(weekDirs[i..], batchsize) == Chunks(weekDirs, batchsize)
      decreases |weekDirs| - i
    {
      var hi := if i + batchsize < |weekDirs| then i + batchsize else |weekDirs|;
      var batch := weekDirs[i..hi];
      if hi < |weekDirs| {
        assert weekDirs[i..][..batchsize] == batch && weekDirs[i..][batchsize..] == weekDirs[hi..];
      } else {
        assert weekDirs[i..] == batch;
      }
      batchList := batchList + [batch];
      i := hi;
    }
    assert Chunks(weekDirs[i..], batchsize) == [];
    assert batchList == batchList + Chunks(weekDirs[i..], batchsize);
    return Ok(batchList);
  }

  /** The batches hold the directory names in ascending order, each exactly once per
      occurrence in the listing, whatever order `os.listdir` returned them in. */
  lemma BatchesSorted(listing: seq<string>, b: nat)
    requires b > 0
    ensures Strings.Sorted(Seqs.Flatten(Chunks(Strings.Sort(listing), b)))
    ensures multiset(Seqs.Flatten(Chunks(Strings.Sort(listing), b))) == multiset(listing)
  {
    ChunksFlatten(Strings.Sort(listing), b);
  }
}
