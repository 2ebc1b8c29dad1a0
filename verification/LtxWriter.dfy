/** How a transaction file is written from the write-ahead log and the database file. */
module LtxWriter {
  import opened Wrappers
  import opened Ltx
  import opened Replay
  import opened Sorting

  datatype WriteError = ReadDatabasePage(pgno: nat)

  /** The pages a file written from the log must have: those logged, and all pages the database grew by. */
  ghost function Wanted(prevCommit: nat, commit: nat, wal: map<nat, Page>): set<nat> {
    wal.Keys + set p | prevCommit < p <= commit && Stored(p)
  }

  predicate Stored(p: nat) {
    p != LOCK_PGNO
  }

  /** A page's content comes from the log if it is there, else from the database file. */
  function PageAt(p: nat, wal: map<nat, Page>, dbFile: seq<Page>): Option<Page> {
    if p in wal then Some(wal[p]) else if 1 <= p <= |dbFile| then Some(dbFile[p - 1]) else None
  }

  /** The encoder takes pages in strictly ascending order. */
  ghost predicate Encodable(pgnos: seq<nat>) {
    forall i, j :: 0 <= i < j < |pgnos| ==> pgnos[i] < pgnos[j]
  }

  /** The list has each page of the set once and no other. */
  ghost predicate Lists(pgnos: seq<nat>, pages: set<nat>) {
    forall p :: multiset(pgnos)[p] == if p in pages then 1 else 0
  }

  /** The page numbers of the log in some order. */
  method LoggedPages(wal: map<nat, Page>) returns (pgnos: seq<nat>)
    ensures Lists(pgnos, wal.Keys)
  {
    pgnos := [];
    var todo := wal.Keys;
    while todo != {}
      invariant todo <= wal.Keys && Lists(pgnos, wal.Keys - todo)
      decreases todo
    {
      var p :| p in todo;
      pgnos, todo := pgnos + [p], todo - {p};
    }
  }

  /** The pages to write, before sorting. */
  method CollectPages(prevCommit: nat, commit: nat, wal: map<nat, Page>) returns (pgnos: seq<nat>)
    ensures Lists(pgnos, Wanted(prevCommit, commit, wal))
  {
    pgnos := LoggedPages(wal);
    if commit > prevCommit {
      for pgno := prevCommit to commit
        invariant Lists(pgnos, Wanted(prevCommit, pgno, wal))
      {
        if !Stored(pgno + 1) || pgno + 1 in wal {
          continue;
        }
        pgnos := pgnos + [pgno + 1];
      }
    }
  }

  /** The pages to write, in order. */
  method SelectPages(prevCommit: nat, commit: nat, wal: map<nat, Page>) returns (pgnos: seq<nat>)
    ensures Encodable(pgnos) && (forall p :: p in pgnos <==> p in Wanted(prevCommit, commit, wal))
  {
    pgnos := CollectPages(prevCommit, commit, wal);
    var le := (x: nat, y: nat) => x <= y;
    SortSorts(pgnos, le);
    pgnos := Sort(pgnos, le);
    assert forall p :: p in pgnos <==> p in multiset(pgnos);
    OrderedSetIsEncodable(pgnos, Wanted(prevCommit, commit, wal), le);
  }

  lemma OrderedSetIsEncodable(pgnos: seq<nat>, pages: set<nat>, le: (nat, nat) -> bool)
    requires Lists(pgnos, pages) && Ordered(pgnos, le)
    requires forall x, y :: le(x, y) <==> x <= y
    ensures Encodable(pgnos)
  {
    forall i, j | 0 <= i < j < |pgnos| ensures pgnos[i] < pgnos[j] {
      assert le(pgnos[i], pgnos[j]);
      if pgnos[i] == pgnos[j] {
        TwiceIn(pgnos, i, j);
        assert false;
      }
    }
  }

  lemma TwiceIn(s: seq<nat>, i: nat, j: nat)
    requires i < j < |s| && s[i] == s[j]
    ensures multiset(s)[s[i]] >= 2
  {
    assert s == s[..i] + [s[i]] + s[i + 1..j] + [s[j]] + s[j + 1..];
  }

  /** Writes an incremental file from the log. */
  method WriteLtxFromWal(prevCommit: nat, commit: nat, wal: map<nat, Page>, dbFile: seq<Page>)
    returns (r: Result<map<nat, Page>, WriteError>)
    ensures r.Ok? ==>
      && r.value.Keys == Wanted(prevCommit, commit, wal)
      && (forall p :: p in r.value ==> PageAt(p, wal, dbFile) == Some(r.value[p]))
    ensures r.Ok? ==> forall p :: p in r.value && p in wal ==> r.value[p] == wal[p]
    ensures r.Ok? ==> forall p :: p in r.value && p !in wal ==> 1 <= p <= |dbFile| && r.value[p] == dbFile[p - 1]
    ensures r.Err? ==> prevCommit < r.error.pgno <= commit && r.error.pgno !in wal && |dbFile| < r.error.pgno
    ensures r.Err? ==> r.error.pgno in Wanted(prevCommit, commit, wal) && PageAt(r.error.pgno, wal, dbFile) == None
  {
    var pgnos := SelectPages(prevCommit, commit, wal);
    var pages: map<nat, Page> := map[];
    for i := 0 to |pgnos|
      invariant pages.Keys == set p | p in pgnos[..i]
      invariant forall p :: p in pages ==> PageAt(p, wal, dbFile) == Some(pages[p])
    {
      var data := PageAt(pgnos[i], wal, dbFile);
      if data == None {
        assert pgnos[i] in Wanted(prevCommit, commit, wal);
        return Err(ReadDatabasePage(pgnos[i]));
      }
      pages := pages[pgnos[i] := data.value];
    }
    assert pgnos[..|pgnos|] == pgnos;
    return Ok(pages);
  }

  /** Writes a full file: every page up to the size, but the lock page. */
  method WriteLtxFromDb(commit: nat, wal: map<nat, Page>, dbFile: seq<Page>)
    returns (r: Result<map<nat, Page>, WriteError>)
    ensures r.Ok? ==>
      && (forall p :: p in r.value <==> 1 <= p <= commit && p != LOCK_PGNO)
      && (forall p :: p in r.value ==> PageAt(p, wal, dbFile) == Some(r.value[p]))
    ensures r.Ok? ==> forall p :: p in r.value && p in wal ==> r.value[p] == wal[p]
    ensures r.Ok? ==> forall p :: p in r.value && p !in wal ==> 1 <= p <= |dbFile| && r.value[p] == dbFile[p - 1]
    ensures r.Err? ==> |dbFile| < r.error.pgno <= commit && r.error.pgno !in wal
  {
    var pages: map<nat, Page> := map[];
    for pgno := 1 to commit + 1
      invariant forall p :: p in pages <==> 1 <= p < pgno && p != LOCK_PGNO
      invariant forall p :: p in pages ==> PageAt(p, wal, dbFile) == Some(pages[p])
    {
      if !Stored(pgno) {
        continue;
      }
      var data := PageAt(pgno, wal, dbFile);
      if data == None {
        return Err(ReadDatabasePage(pgno));
      }
      pages := pages[pgno := data.value];
    }
    return Ok(pages);
  }

  /**
    What SQLite guarantees at transaction `t`: the log and the database file together hold the state, and
    the log has every page that changed among those that were there before.
   */
  ghost predicate Logged(h: seq<Db>, t: nat, wal: map<nat, Page>, dbFile: seq<Page>) {
    && 1 <= t < |h|
    && wal.Keys <= h[t].pages.Keys
    && (forall p :: p in wal ==> wal[p] == h[t].pages[p])
    && (forall p :: p in h[t].pages && p !in wal ==> 1 <= p <= |dbFile| && dbFile[p - 1] == h[t].pages[p])
    && (forall p :: p in h[t].pages && p in h[t - 1].pages && p !in wal ==> h[t - 1].pages[p] == h[t].pages[p])
  }

  /** What is written from the log is a faithful file, and the write cannot fail. */
  lemma WalFileIsFaithful(
    h: seq<Db>, t: nat, wal: map<nat, Page>, dbFile: seq<Page>, pages: map<nat, Page>, createdAt: int)
    requires History(h) && Logged(h, t, wal, dbFile)
    requires pages.Keys == Wanted(h[t - 1].size, h[t].size, wal)
    requires forall p :: p in pages ==> PageAt(p, wal, dbFile) == Some(pages[p])
    ensures Faithful(h, LtxFile(0, t, t, createdAt, h[t].size, pages))
    ensures forall p :: p in Wanted(h[t - 1].size, h[t].size, wal) ==> PageAt(p, wal, dbFile).Some?
  {
    assert WellFormed(h[t]) && WellFormed(h[t - 1]);
    forall p | p in h[t].pages && p !in pages ensures Stable(h, p, t - 1, t) {
      assert p in h[t - 1].pages;
    }
  }

  /** A full file is faithful for any range that ends at its state: a snapshot from 1, or a single transaction. */
  lemma FullFileIsFaithful(h: seq<Db>, level: nat, first: nat, t: nat, createdAt: int)
    requires History(h) && 1 <= first <= t < |h|
    ensures Faithful(h, LtxFile(level, first, t, createdAt, h[t].size, h[t].pages))
  {
  }

  /** No file that leaves out a page the database grew by is faithful, so filling growth pages is necessary. */
  lemma GrowthPagesAreNecessary(h: seq<Db>, f: LtxFile, p: nat)
    requires History(h) && Faithful(h, f)
    requires p in h[f.max].pages && exists t :: f.min - 1 <= t <= f.max && h[t].size < p
    ensures p in f.pages
  {
    var t :| f.min - 1 <= t <= f.max && h[t].size < p;
    assert WellFormed(h[t]);
  }
}
