/**
 * The crawler's database: the songs, logs and failed_pages tables, held in
 * memory. Rows get auto-increment ids; songs and logs are only ever added,
 * failed pages are added and deleted.
 */
module Persistence {
  import opened Wrappers
  import opened Models

  /** A snapshot of the three tables and of the failed_pages id counter. */
  datatype Store = Store(songs: seq<Song>, logs: seq<LogEntry>, failed: seq<FailedPage>, nextFailedId: nat)

  /** A freshly migrated database. */
  const EmptyStore: Store := Store([], [], [], 1)

  /** Every failed page's id was handed out by the counter. */
  predicate FailedIdsIssued(st: Store) {
    && 1 <= st.nextFailedId
    && forall f | f in st.failed :: 1 <= f.id < st.nextFailedId
  }

  /** Rows listed in increasing id order. */
  predicate IdsIncreasing(rows: seq<FailedPage>) {
    forall i, j | 0 <= i < j < |rows| :: rows[i].id < rows[j].id
  }

  /**
   * The ids as auto-increment hands them out: songs and logs are never
   * deleted, so row i has id i + 1; failed pages are kept in id order, each
   * id below the counter.
   */
  predicate Valid(st: Store) {
    && (forall i | 0 <= i < |st.songs| :: st.songs[i].id == i + 1)
    && (forall i | 0 <= i < |st.logs| :: st.logs[i].id == i + 1)
    && FailedIdsIssued(st)
    && IdsIncreasing(st.failed)
  }

  lemma EmptyStoreValid()
    ensures Valid(EmptyStore) && FailedIdsIssued(EmptyStore)
  {}

  /** db.Create(&song): the song is appended under the next id. */
  function Insert(st: Store, s: Song): (r: Store)
    ensures |r.songs| == |st.songs| + 1 && r.songs[..|st.songs|] == st.songs
    ensures r.songs[|st.songs|] == s.(id := |r.songs|)
    ensures r.logs == st.logs && r.failed == st.failed && r.nextFailedId == st.nextFailedId
  {
    st.(songs := st.songs + [s.(id := |st.songs| + 1)])
  }

  lemma InsertValid(st: Store, s: Song)
    requires Valid(st)
    ensures Valid(Insert(st, s))
  {}

  /** db.Create(&Log{...}): a log row is appended under the next id. */
  function AddLog(st: Store, page: nat, text: string): (r: Store)
    ensures |r.logs| == |st.logs| + 1 && r.logs[..|st.logs|] == st.logs
    ensures r.logs[|st.logs|] == LogEntry(|r.logs|, page, text)
    ensures r.songs == st.songs && r.failed == st.failed && r.nextFailedId == st.nextFailedId
  {
    st.(logs := st.logs + [LogEntry(|st.logs| + 1, page, text)])
  }

  lemma AddLogValid(st: Store, page: nat, text: string)
    requires Valid(st)
    ensures Valid(AddLog(st, page, text))
  {}

  /** db.Create(&FailedPage{...}): a failed page is appended under the counter, which moves on. */
  function AddFailed(st: Store, page: nat, text: string): (r: Store)
    ensures r.nextFailedId == st.nextFailedId + 1
    ensures |r.failed| == |st.failed| + 1 && r.failed[..|st.failed|] == st.failed
    ensures r.failed[|st.failed|] == FailedPage(st.nextFailedId, page, text)
    ensures r.songs == st.songs && r.logs == st.logs
  {
    st.(failed := st.failed + [FailedPage(st.nextFailedId, page, text)], nextFailedId := st.nextFailedId + 1)
  }

  /** The new failed page's id exceeds every earlier one, so the order holds. */
  lemma AddFailedValid(st: Store, page: nat, text: string)
    requires Valid(st)
    ensures Valid(AddFailed(st, page, text))
  {
    var r := AddFailed(st, page, text);
    assert r.failed == st.failed + [FailedPage(st.nextFailedId, page, text)];
    assert r.songs == st.songs && r.logs == st.logs;
    assert FailedIdsIssued(r);
    assert IdsIncreasing(r.failed) by {
      forall i, j | 0 <= i < j < |r.failed| ensures r.failed[i].id < r.failed[j].id {
        if j == |st.failed| {
          assert r.failed[i] == st.failed[i];
        } else {
          assert r.failed[i] == st.failed[i] && r.failed[j] == st.failed[j];
        }
      }
    }
  }

  /** The rows without the one carrying `id`, in the same order. */
  function Without(rows: seq<FailedPage>, id: nat): (r: seq<FailedPage>)
    ensures |r| <= |rows|
    ensures forall f :: f in r <==> f in rows && f.id != id
  {
    if rows == [] then []
    else if rows[0].id == id then Without(rows[1..], id)
    else [rows[0]] + Without(rows[1..], id)
  }

  /** Removing rows keeps a lower bound on the ids. */
  lemma {:induction false} WithoutAbove(rows: seq<FailedPage>, id: nat, bound: nat)
    requires forall k | 0 <= k < |rows| :: bound < rows[k].id
    ensures forall k | 0 <= k < |Without(rows, id)| :: bound < Without(rows, id)[k].id
  {
    if rows != [] {
      WithoutAbove(rows[1..], id, bound);
    }
  }

  /** A row below every id of an increasing list can go in front of it. */
  lemma ConsIncreasing(row: FailedPage, rows: seq<FailedPage>)
    requires IdsIncreasing(rows)
    requires forall k | 0 <= k < |rows| :: row.id < rows[k].id
    ensures IdsIncreasing([row] + rows)
  {
    var r := [row] + rows;
    forall i, j | 0 <= i < j < |r| ensures r[i].id < r[j].id {
      assert r[j] == rows[j - 1];
      if i > 0 {
        assert r[i] == rows[i - 1];
      }
    }
  }

  /** Removing rows keeps ids increasing. */
  lemma {:induction false} WithoutKeepsOrder(rows: seq<FailedPage>, id: nat)
    requires IdsIncreasing(rows)
    ensures IdsIncreasing(Without(rows, id))
  {
    if rows != [] {
      WithoutKeepsOrder(rows[1..], id);
      if rows[0].id != id {
        WithoutAbove(rows[1..], id, rows[0].id);
        ConsIncreasing(rows[0], Without(rows[1..], id));
      }
    }
  }

  /** db.Delete(&failedPage): the row with that id goes, every other row stays. */
  function DeleteFailed(st: Store, id: nat): (r: Store)
    ensures r.songs == st.songs && r.logs == st.logs && r.nextFailedId == st.nextFailedId
    ensures forall f :: f in r.failed <==> f in st.failed && f.id != id
  {
    st.(failed := Without(st.failed, id))
  }

  lemma DeleteFailedValid(st: Store, id: nat)
    requires Valid(st)
    ensures Valid(DeleteFailed(st, id))
  {
    WithoutKeepsOrder(st.failed, id);
    var r := DeleteFailed(st, id);
  }

  /** db.Where("? <= id and id < ?", lo, hi).Find(&rows), in storage order. */
  function InWindow(rows: seq<FailedPage>, lo: nat, hi: nat): (r: seq<FailedPage>)
    ensures |r| <= |rows|
    ensures forall i | 0 <= i < |r| :: r[i] in rows && lo <= r[i].id < hi
  {
    if rows == [] then []
    else if lo <= rows[0].id < hi then [rows[0]] + InWindow(rows[1..], lo, hi)
    else InWindow(rows[1..], lo, hi)
  }

  /**
   * The query lists every stored row whose id lies in the window, and keeps
   * storage order: listing rows then one more row lists the first rows, then
   * that row when it lies in the window.
   */
  lemma {:induction false} InWindowSpec(rows: seq<FailedPage>, lo: nat, hi: nat)
    ensures forall f | f in rows && lo <= f.id < hi :: f in InWindow(rows, lo, hi)
    ensures InWindow([], lo, hi) == []
    ensures forall f: FailedPage {:trigger InWindow(rows + [f], lo, hi)} ::
      InWindow(rows + [f], lo, hi) == InWindow(rows, lo, hi) + (if lo <= f.id < hi then [f] else [])
  {
    if rows != [] {
      InWindowSpec(rows[1..], lo, hi);
      forall f: FailedPage
        ensures InWindow(rows + [f], lo, hi) == InWindow(rows, lo, hi) + (if lo <= f.id < hi then [f] else [])
      {
        assert (rows + [f])[1..] == rows[1..] + [f];
      }
    }
  }

  /** db.Last(&log): the log row with the greatest id, None when there is none. */
  function LastLog(st: Store): (r: Option<LogEntry>)
    ensures r.Some? <==> st.logs != []
    ensures r.Some? ==> r.value in st.logs
    ensures Valid(st) && r.Some? ==> forall l | l in st.logs :: l.id <= r.value.id
  {
    if st.logs == [] then None else Some(st.logs[|st.logs| - 1])
  }

  /** The numbers of the stored songs. */
  function Numbers(songs: seq<Song>): set<string> {
    set i | 0 <= i < |songs| :: songs[i].number
  }

  /**
   * db.Where(Number = number).First(&song) as intended: the first stored
   * song with that number, None when there is none.
   */
  function FindByNumber(songs: seq<Song>, number: string): (r: Option<Song>)
    ensures r.Some? ==> r.value.number == number
  {
    if songs == [] then None
    else if songs[0].number == number then Some(songs[0])
    else FindByNumber(songs[1..], number)
  }

  /** The lookup finds a song exactly when the number is stored, and then the one with the smallest id. */
  lemma {:induction false} FindByNumberSpec(songs: seq<Song>, number: string)
    ensures FindByNumber(songs, number).Some? <==> number in Numbers(songs)
    ensures FindByNumber(songs, number).Some? ==> exists i | 0 <= i < |songs| ::
      songs[i] == FindByNumber(songs, number).value && forall j | 0 <= j < i :: songs[j].number != number
  {
    if songs != [] {
      var tail := songs[1..];
      FindByNumberSpec(tail, number);
      assert forall j | 1 <= j < |songs| :: songs[j] == tail[j - 1];
      if songs[0].number != number && FindByNumber(tail, number).Some? {
        var i :| 0 <= i < |tail| && tail[i] == FindByNumber(tail, number).value &&
          forall j | 0 <= j < i :: tail[j].number != number;
        assert songs[i + 1] == tail[i];
      }
      if number in Numbers(songs) && songs[0].number != number {
        var i :| 0 <= i < |songs| && songs[i].number == number;
        assert tail[i - 1].number == number;
      }
    }
  }

  /**
   * db.Where(&Song{Number: number}).First(&song) as written: the query is
   * built from a struct, and a struct field at its zero value is left out of
   * the condition, so an empty number matches the first stored song.
   */
  function FirstByNumberAsWritten(songs: seq<Song>, number: string): (r: Option<Song>)
    ensures number != "" ==> r == FindByNumber(songs, number)
  {
    if number == "" then (if songs == [] then None else Some(songs[0]))
    else FindByNumber(songs, number)
  }

  /** The three tables. */
  class Database {
    var songs: seq<Song>
    var logs: seq<LogEntry>
    var failed: seq<FailedPage>
    var nextFailedId: nat

    function Snapshot(): Store
      reads this
    {
      Store(songs, logs, failed, nextFailedId)
    }

    constructor ()
      ensures Snapshot() == EmptyStore
    {
      songs, logs, failed, nextFailedId := [], [], [], 1;
    }

    /** db.Create(&song) */
    method CreateSong(s: Song)
      modifies this
      ensures Snapshot() == Insert(old(Snapshot()), s)
    {
      songs := songs + [s.(id := |songs| + 1)];
    }

    /** db.Create(&Log{PageNumber: page, Text: text}) */
    method CreateLog(page: nat, text: string)
      modifies this
      ensures Snapshot() == AddLog(old(Snapshot()), page, text)
    {
      logs := logs + [LogEntry(|logs| + 1, page, text)];
    }

    /** db.Create(&FailedPage{PageNumber: page, Text: text}) */
    method CreateFailedPage(page: nat, text: string)
      modifies this
      ensures Snapshot() == AddFailed(old(Snapshot()), page, text)
    {
      failed := failed + [FailedPage(nextFailedId, page, text)];
      nextFailedId := nextFailedId + 1;
    }

    /** db.Delete(&row) */
    method DeleteFailedPage(row: FailedPage)
      modifies this
      ensures Snapshot() == DeleteFailed(old(Snapshot()), row.id)
    {
      failed := Without(failed, row.id);
    }
  }
}
