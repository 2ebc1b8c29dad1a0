/** Transaction files as a replica lists them, and the values shared by the restore, compaction and follow models. */
module Ltx {

  /** A page is its bytes. */
  type Page = seq<int>

  /** Levels 0..8 hold increments; level 9 holds full snapshots. */
  const SNAPSHOT_LEVEL := 9

  /**
    A transaction file: the range of transaction ids it covers, the time the replica gives for it
    (0 stands for the zero time), the database size in pages after its last transaction, and its pages.
   */
  datatype LtxFile = LtxFile(level: nat, min: nat, max: nat, createdAt: int, commit: nat, pages: map<nat, Page>)

  function Max(a: int, b: int): int {
    if a < b then b else a
  }

  /** Listings come in file-name order: by first, then by last transaction id. */
  predicate NameLess(f: LtxFile, g: LtxFile) {
    f.min < g.min || (f.min == g.min && f.max < g.max)
  }

  predicate Listed(files: seq<LtxFile>) {
    forall i, j :: 0 <= i < j < |files| ==> NameLess(files[i], files[j])
  }

  function Filter(files: seq<LtxFile>, keep: LtxFile -> bool): seq<LtxFile> {
    if files == [] then []
    else
      var n := |files| - 1;
      Filter(files[..n], keep) + if keep(files[n]) then [files[n]] else []
  }

  /** A listing from an id on: the files that start there or later. */
  function Seek(files: seq<LtxFile>, id: nat): seq<LtxFile> {
    Filter(files, (f: LtxFile) => id <= f.min)
  }

  lemma {:induction false} FilterKeeps(files: seq<LtxFile>, keep: LtxFile -> bool)
    requires Listed(files)
    ensures Listed(Filter(files, keep))
    ensures forall f :: f in Filter(files, keep) <==> f in files && keep(f)
  {
    if files != [] {
      var n := |files| - 1;
      FilterKeeps(files[..n], keep);
      assert forall f :: f in files <==> f in files[..n] || f == files[n];
      forall f | f in Filter(files[..n], keep) ensures NameLess(f, files[n]) {
        assert f in files[..n];
      }
    }
  }

  lemma SeekKeepsOrder(files: seq<LtxFile>, id: nat)
    requires Listed(files)
    ensures Listed(Seek(files, id))
    ensures forall f :: f in Seek(files, id) <==> f in files && id <= f.min
  {
    FilterKeeps(files, (f: LtxFile) => id <= f.min);
  }

  /** A filter that keeps exactly the files from the k-th on. */
  lemma {:induction false} FilterSuffix(files: seq<LtxFile>, keep: LtxFile -> bool, k: nat, n: nat)
    requires k <= |files| && n <= |files|
    requires forall i :: 0 <= i < |files| ==> (keep(files[i]) <==> k <= i)
    ensures Filter(files[..n], keep) == if n <= k then [] else files[k..n]
  {
    if n > 0 {
      FilterSuffix(files, keep, k, n - 1);
      var front := files[..n];
      assert front[..n - 1] == files[..n - 1] && front[n - 1] == files[n - 1];
      assert Filter(front, keep) == Filter(files[..n - 1], keep) + if k <= n - 1 then [files[n - 1]] else [];
      assert k <= n - 1 ==> files[k..n] == files[k..n - 1] + [files[n - 1]];
    }
  }
}
