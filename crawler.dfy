/**
 * The crawl and reconciliation engine of cmd/exsongs.go: the per-page
 * pipeline (deduplicate, stamp, validate, insert, classify, record), the
 * forward crawl over catalogue pages, and the sweep that retries
 * quarantined pages.
 *
 * Every state-changing method is specified by a function on Store
 * snapshots; the lemmas state what the crawler promises about those.
 */
module Crawler {
  import opened Wrappers
  import opened Models
  import opened Extraction
  import opened Persistence

  // ---------------------------------------------------------------------
  // Page outcome (cmd/exsongs.go:120-137)

  /** How a visited page ends, written to its log row as Code(). */
  datatype Outcome = Create | NotFoundPage | NoneSongs | GetSongsFailed
  {
    function Code(): string {
      match this
      case Create => "create"
      case NotFoundPage => "not_found_page"
      case NoneSongs => "none_songs"
      case GetSongsFailed => "get_songs_failed"
    }

    /** The source quarantines a page by comparing the log text. */
    predicate Quarantines() {
      IsQuarantineCode(Code())
    }
  }

  predicate IsQuarantineCode(text: string) {
    text == "none_songs" || text == "get_songs_failed"
  }

  /** The log text identifies the outcome; only the two failure outcomes quarantine. */
  lemma CodesIdentifyOutcomes(a: Outcome, b: Outcome)
    ensures a.Code() == b.Code() ==> a == b
    ensures a.Quarantines() <==> a == NoneSongs || a == GetSongsFailed
  {}

  /**
   * The outcome of a page: the not-found sentinel first; otherwise
   * "create", overridden by "none_songs" when there was no candidate, and
   * that by "get_songs_failed" when a candidate failed validation.
   */
  function Classify(notFound: bool, count: nat, enable: bool): Outcome {
    if notFound then NotFoundPage
    else
      var outcome := if count <= 0 then NoneSongs else Create;
      if !enable then GetSongsFailed else outcome
  }

  /** Exactly one outcome, by priority: sentinel, failed validation, no candidate, create. */
  lemma ClassifyPriority(notFound: bool, count: nat, enable: bool)
    ensures Classify(notFound, count, enable) == NotFoundPage <==> notFound
    ensures Classify(notFound, count, enable) == GetSongsFailed <==> !notFound && !enable
    ensures Classify(notFound, count, enable) == NoneSongs <==> !notFound && enable && count == 0
    ensures Classify(notFound, count, enable) == Create <==> !notFound && enable && count > 0
  {}

  // ---------------------------------------------------------------------
  // Ingesting a page's candidates (cmd/exsongs.go:96-118, 192-214)

  /** songs[i].PageNumber = pageNumber */
  function Stamp(c: Song, page: nat): Song {
    c.(pageNumber := page)
  }

  /**
   * The source's dedup test: look the number up and take the found row's id,
   * which stays 0 (Go's zero value) when nothing is found.
   */
  predicate AlreadyStored(songs: seq<Song>, number: string) {
    0 < FindByNumber(songs, number).UnwrapOr(EmptySong).id
  }

  /** With auto-increment ids, the dedup test asks exactly whether the number is stored. */
  lemma AlreadyStoredIff(st: Store, number: string)
    requires Valid(st)
    ensures AlreadyStored(st.songs, number) <==> number in Numbers(st.songs)
  {
    var found := FindByNumber(st.songs, number);
    FindByNumberSpec(st.songs, number);
    if found.Some? {
      var i :| 0 <= i < |st.songs| && st.songs[i] == found.value;
    }
  }

  /** The store after the candidates were processed, and whether none failed validation. */
  datatype Ingested = Ingested(store: Store, enable: bool)

  /**
   * The candidates in page order: one already stored is skipped, otherwise
   * it is stamped with the page; an invalid one clears `enable` and is
   * dropped, a valid one is inserted. Only the songs table changes.
   */
  function Ingest(st: Store, cands: seq<Song>, page: nat): (r: Ingested)
    ensures r.store.logs == st.logs && r.store.failed == st.failed
    ensures r.store.nextFailedId == st.nextFailedId
    decreases |cands|
  {
    if cands == [] then Ingested(st, true)
    else if AlreadyStored(st.songs, cands[0].number) then Ingest(st, cands[1..], page)
    else
      var song := Stamp(cands[0], page);
      if !song.CanCreate() then Ingested(Ingest(st, cands[1..], page).store, false)
      else Ingest(Insert(st, song), cands[1..], page)
  }

  /**
   * The dedup gate as the source writes it: its lookup turns an empty
   * number into "the first stored song", which counts as already stored.
   */
  predicate StoredAsWritten(songs: seq<Song>, number: string) {
    0 < FirstByNumberAsWritten(songs, number).UnwrapOr(EmptySong).id
  }

  /**
   * The per-page loop with the dedup gate as written. It agrees with
   * `Ingest` on every page whose candidates all carry a number.
   */
  function IngestAsWritten(st: Store, cands: seq<Song>, page: nat): (r: Ingested)
    ensures r.store.logs == st.logs && r.store.failed == st.failed
    ensures (forall i | 0 <= i < |cands| :: cands[i].number != "") ==> r == Ingest(st, cands, page)
    decreases |cands|
  {
    if cands == [] then Ingested(st, true)
    else
      assert forall i | 0 <= i < |cands[1..]| :: cands[1..][i] == cands[i + 1];
      if StoredAsWritten(st.songs, cands[0].number) then IngestAsWritten(st, cands[1..], page)
      else
        var song := Stamp(cands[0], page);
        if !song.CanCreate() then Ingested(IngestAsWritten(st, cands[1..], page).store, false)
        else IngestAsWritten(Insert(st, song), cands[1..], page)
  }

  /** Stored numbers are pairwise distinct. */
  predicate DistinctNumbers(songs: seq<Song>) {
    forall i, j | 0 <= i < j < |songs| :: songs[i].number != songs[j].number
  }

  /** What the crawler keeps of the database: auto-increment ids, distinct numbers, only creatable songs. */
  predicate Sound(st: Store) {
    && Valid(st)
    && DistinctNumbers(st.songs)
    && forall i | 0 <= i < |st.songs| :: st.songs[i].CanCreate()
  }

  lemma NumbersAppend(songs: seq<Song>, s: Song)
    ensures Numbers(songs + [s]) == Numbers(songs) + {s.number}
  {
    var t := songs + [s];
    assert forall i | 0 <= i < |songs| :: t[i] == songs[i];
    assert t[|songs|] == s;
  }

  lemma NumbersPrefix(songs: seq<Song>, more: seq<Song>)
    requires songs <= more
    ensures Numbers(songs) <= Numbers(more)
  {
    forall x | x in Numbers(songs) ensures x in Numbers(more) {
      var i :| 0 <= i < |songs| && songs[i].number == x;
      assert more[i] == songs[i];
    }
  }

  /** Ingesting only appends songs and keeps the ids valid. */
  lemma {:induction false} IngestAppends(st: Store, cands: seq<Song>, page: nat)
    requires Valid(st)
    ensures Valid(Ingest(st, cands, page).store)
    ensures st.songs <= Ingest(st, cands, page).store.songs
    decreases |cands|
  {
    if cands != [] && !AlreadyStored(st.songs, cands[0].number) {
      var song := Stamp(cands[0], page);
      if song.CanCreate() {
        InsertValid(st, song);
        IngestAppends(Insert(st, song), cands[1..], page);
      } else {
        IngestAppends(st, cands[1..], page);
      }
    } else if cands != [] {
      IngestAppends(st, cands[1..], page);
    }
  }

  /** The numbers a page's valid candidates contribute, after stamping. */
  function Creatable(cands: seq<Song>, page: nat): set<string> {
    set j | 0 <= j < |cands| && Stamp(cands[j], page).CanCreate() :: cands[j].number
  }

  lemma CreatableCons(cands: seq<Song>, page: nat)
    requires cands != []
    ensures Creatable(cands, page) ==
      Creatable(cands[1..], page) + (if Stamp(cands[0], page).CanCreate() then {cands[0].number} else {})
  {
    var tail := cands[1..];
    forall x | x in Creatable(cands, page)
      ensures x in Creatable(tail, page) || (Stamp(cands[0], page).CanCreate() && x == cands[0].number)
    {
      var j :| 0 <= j < |cands| && Stamp(cands[j], page).CanCreate() && cands[j].number == x;
      if j > 0 {
        assert tail[j - 1] == cands[j];
      }
    }
    forall x | x in Creatable(tail, page) ensures x in Creatable(cands, page) {
      var j :| 0 <= j < |tail| && Stamp(tail[j], page).CanCreate() && tail[j].number == x;
      assert cands[j + 1] == tail[j];
    }
  }

  /**
   * A number is stored after ingesting exactly when it was stored before or
   * some candidate with it is valid once stamped: an invalid candidate does
   * not keep later valid ones out (persistence is partial, not atomic).
   */
  lemma {:induction false} IngestNumbers(st: Store, cands: seq<Song>, page: nat)
    requires Valid(st)
    ensures Numbers(Ingest(st, cands, page).store.songs) == Numbers(st.songs) + Creatable(cands, page)
    decreases |cands|
  {
    if cands != [] {
      CreatableCons(cands, page);
      AlreadyStoredIff(st, cands[0].number);
      var song := Stamp(cands[0], page);
      if AlreadyStored(st.songs, cands[0].number) || !song.CanCreate() {
        IngestNumbers(st, cands[1..], page);
      } else {
        var st' := Insert(st, song);
        InsertValid(st, song);
        NumbersAppend(st.songs, song.(id := |st.songs| + 1));
        IngestNumbers(st', cands[1..], page);
      }
    }
  }

  /** Adding a song whose number is new keeps numbers distinct. */
  lemma DistinctAppend(songs: seq<Song>, s: Song)
    requires DistinctNumbers(songs) && s.number !in Numbers(songs)
    ensures DistinctNumbers(songs + [s])
  {
    var t := songs + [s];
    forall i, j | 0 <= i < j < |t| ensures t[i].number != t[j].number {
      if j == |songs| {
        assert t[i] == songs[i];
      } else {
        assert t[i] == songs[i] && t[j] == songs[j];
      }
    }
  }

  /**
   * Ingesting keeps the store sound: every inserted song was new and
   * creatable, so stored numbers stay distinct even when a page lists the
   * same number twice.
   */
  lemma {:induction false} IngestKeepsSound(st: Store, cands: seq<Song>, page: nat)
    requires Sound(st)
    ensures Sound(Ingest(st, cands, page).store)
    decreases |cands|
  {
    if cands != [] {
      AlreadyStoredIff(st, cands[0].number);
      var song := Stamp(cands[0], page);
      if AlreadyStored(st.songs, cands[0].number) || !song.CanCreate() {
        IngestKeepsSound(st, cands[1..], page);
      } else {
        var st' := Insert(st, song);
        InsertValid(st, song);
        var stored := song.(id := |st.songs| + 1);
        DistinctAppend(st.songs, stored);
        assert st'.songs == st.songs + [stored];
        assert Sound(st');
        IngestKeepsSound(st', cands[1..], page);
      }
    }
  }

  /** Every inserted song is a candidate stamped with the page, under its new id, and creatable. */
  lemma {:induction false} IngestAdds(st: Store, cands: seq<Song>, page: nat)
    requires Valid(st)
    ensures var songs := Ingest(st, cands, page).store.songs;
      forall i | |st.songs| <= i < |songs| ::
        songs[i].CanCreate() && songs[i].pageNumber == page &&
        exists j | 0 <= j < |cands| :: songs[i] == Stamp(cands[j], page).(id := i + 1)
    decreases |cands|
  {
    if cands != [] {
      var songs := Ingest(st, cands, page).store.songs;
      var song := Stamp(cands[0], page);
      var inserted := !AlreadyStored(st.songs, cands[0].number) && song.CanCreate();
      var st' := if inserted then Insert(st, song) else st;
      IngestAdds(st', cands[1..], page);
      IngestAppends(st', cands[1..], page);
      assert songs == Ingest(st', cands[1..], page).store.songs;
      forall i | |st.songs| <= i < |songs|
        ensures songs[i].CanCreate() && songs[i].pageNumber == page
        ensures exists j | 0 <= j < |cands| :: songs[i] == Stamp(cands[j], page).(id := i + 1)
      {
        if i < |st'.songs| {
          assert inserted && i == |st.songs|;
          assert songs[i] == song.(id := i + 1);
        } else {
          var j :| 0 <= j < |cands[1..]| && songs[i] == Stamp(cands[1..][j], page).(id := i + 1);
          assert cands[1..][j] == cands[j + 1];
        }
      }
    }
  }

  /**
   * `enable` is cleared only by a candidate that was not stored and failed
   * validation; and an invalid candidate whose number is still not stored
   * afterwards has certainly cleared it.
   */
  lemma {:induction false} IngestEnable(st: Store, cands: seq<Song>, page: nat)
    requires Valid(st)
    ensures var r := Ingest(st, cands, page);
      !r.enable ==> exists j | 0 <= j < |cands| ::
        !Stamp(cands[j], page).CanCreate() && cands[j].number !in Numbers(st.songs)
    ensures var r := Ingest(st, cands, page);
      forall j | 0 <= j < |cands| ::
        !Stamp(cands[j], page).CanCreate() && cands[j].number !in Numbers(r.store.songs) ==> !r.enable
    decreases |cands|
  {
    if cands != [] {
      var r := Ingest(st, cands, page);
      var song := Stamp(cands[0], page);
      AlreadyStoredIff(st, cands[0].number);
      var st' := if AlreadyStored(st.songs, cands[0].number) || !song.CanCreate() then st else Insert(st, song);
      IngestEnable(st', cands[1..], page);
      IngestAppends(st', cands[1..], page);
      NumbersPrefix(st.songs, st'.songs);
      NumbersPrefix(st'.songs, r.store.songs);
      if !r.enable && (AlreadyStored(st.songs, cands[0].number) || song.CanCreate()) {
        var j :| 0 <= j < |cands[1..]| &&
          !Stamp(cands[1..][j], page).CanCreate() && cands[1..][j].number !in Numbers(st'.songs);
        assert cands[j + 1] == cands[1..][j];
      }
      forall j | 0 <= j < |cands| && !Stamp(cands[j], page).CanCreate() && cands[j].number !in Numbers(r.store.songs)
        ensures !r.enable
      {
        if j > 0 {
          assert cands[1..][j - 1] == cands[j];
        }
      }
    }
  }

  /**
   * A candidate that clears `enable` on its own: it fails validation once
   * stamped, and its number is neither stored before the page nor inserted
   * by an earlier candidate of the page.
   */
  predicate ClearsEnable(known: set<string>, cands: seq<Song>, page: nat, j: nat) {
    j < |cands| && !Stamp(cands[j], page).CanCreate() && cands[j].number !in known + Creatable(cands[..j], page)
  }

  /**
   * `enable` ends cleared exactly when some candidate clears it, which
   * decides it also when one page lists the same number twice: a valid copy
   * before an invalid one makes the second a skipped duplicate, an invalid
   * copy first clears `enable`.
   */
  lemma {:induction false} IngestEnableExact(st: Store, cands: seq<Song>, page: nat)
    requires Valid(st)
    ensures !Ingest(st, cands, page).enable <==>
      exists j: nat :: ClearsEnable(Numbers(st.songs), cands, page, j)
    decreases |cands|
  {
    if cands != [] {
      var c, rest := cands[0], cands[1..];
      var song := Stamp(c, page);
      AlreadyStoredIff(st, c.number);
      var inserted := !AlreadyStored(st.songs, c.number) && song.CanCreate();
      var st' := if inserted then Insert(st, song) else st;
      if inserted {
        InsertValid(st, song);
        NumbersAppend(st.songs, song.(id := |st.songs| + 1));
        assert st'.songs == st.songs + [song.(id := |st.songs| + 1)];
      }
      IngestEnableExact(st', rest, page);
      var known, known' := Numbers(st.songs), Numbers(st'.songs);
      forall j: nat | 1 <= j
        ensures ClearsEnable(known, cands, page, j) <==> ClearsEnable(known', rest, page, j - 1)
      {
        if j < |cands| {
          CreatableCons(cands[..j], page);
          assert cands[..j][1..] == rest[..j - 1];
          assert cands[..j][0] == c && rest[j - 1] == cands[j];
        }
      }
      if AlreadyStored(st.songs, c.number) || inserted {
        assert !ClearsEnable(known, cands, page, 0);
        if j: nat :| ClearsEnable(known, cands, page, j) {
          assert ClearsEnable(known', rest, page, j - 1);
        }
        if j: nat :| ClearsEnable(known', rest, page, j) {
          assert ClearsEnable(known, cands, page, j + 1);
        }
      } else {
        assert cands[..0] == [];
        assert ClearsEnable(known, cands, page, 0);
      }
    }
  }

  /** A page whose candidates are all stored already changes nothing and is logged "create". */
  lemma {:induction false} AllStoredIsCreate(st: Store, cands: seq<Song>, page: nat)
    requires Valid(st)
    requires forall j | 0 <= j < |cands| :: cands[j].number in Numbers(st.songs)
    ensures Ingest(st, cands, page) == Ingested(st, true)
    ensures |cands| > 0 ==> Classify(false, |cands|, Ingest(st, cands, page).enable) == Create
    decreases |cands|
  {
    if cands != [] {
      AlreadyStoredIff(st, cands[0].number);
      AllStoredIsCreate(st, cands[1..], page);
    }
  }

  /**
   * The dedup gate as written matches a candidate without a number to the
   * first stored song, so the source skips it as already stored and keeps
   * `enable`; no stored song has an empty number, and the intended gate
   * rejects it, so the page is quarantined as "get_songs_failed".
   */
  lemma NumberlessCandidateAsWritten(st: Store, c: Song, page: nat)
    requires Sound(st) && st.songs != [] && c.number == ""
    ensures FirstByNumberAsWritten(st.songs, c.number).Some?
    ensures "" !in Numbers(st.songs)
    ensures Classify(false, 1, Ingest(st, [c], page).enable) == GetSongsFailed
  {
    AlreadyStoredIff(st, "");
    assert [c][1..] == [];
  }

  /**
   * With the gate as written, a page listing one candidate without a number
   * over a non-empty store changes nothing and is classified as a success.
   */
  lemma NumberlessPageAsWritten(st: Store, c: Song, page: nat)
    requires Valid(st) && st.songs != [] && c.number == ""
    ensures IngestAsWritten(st, [c], page) == Ingested(st, true)
    ensures Classify(false, 1, IngestAsWritten(st, [c], page).enable) == Create
  {
    assert st.songs[0].id == 1;
    assert [c][1..] == [];
  }

  /** With the intended gate, a candidate without a number always clears `enable`. */
  lemma NumberlessCandidateRejected(st: Store, cands: seq<Song>, page: nat, j: nat)
    requires Sound(st) && j < |cands| && cands[j].number == ""
    ensures !Ingest(st, cands, page).enable
  {
    IngestKeepsSound(st, cands, page);
    IngestEnable(st, cands, page);
  }

  /** The dedup-and-insert loop of one page. */
  method IngestSongs(db: Database, cands: seq<Song>, page: nat) returns (enable: bool)
    modifies db
    ensures Ingested(db.Snapshot(), enable) == Ingest(old(db.Snapshot()), cands, page)
  {
    enable := true;
    for i := 0 to |cands|
      invariant Ingest(db.Snapshot(), cands[i..], page).store == Ingest(old(db.Snapshot()), cands, page).store
      invariant (enable && Ingest(db.Snapshot(), cands[i..], page).enable) == Ingest(old(db.Snapshot()), cands, page).enable
    {
      assert cands[i..][1..] == cands[i + 1..];
      var existing := FindByNumber(db.songs, cands[i].number).UnwrapOr(EmptySong);
      if 0 < existing.id {
        continue;
      }
      var song := Stamp(cands[i], page);
      if !song.CanCreate() {
        enable := false;
        continue;
      }
      db.CreateSong(song);
    }
  }

  // ---------------------------------------------------------------------
  // Recording a visited page (cmd/exsongs.go:120-151)

  /** The outcome of a page whose candidates were ingested into `st`. */
  function PageOutcome(st: Store, page: nat, notFound: bool, cands: seq<Song>): Outcome {
    Classify(notFound, |cands|, Ingest(st, cands, page).enable)
  }

  /** Ingest the candidates, quarantine the page on failure, and log its outcome. */
  function Record(st: Store, page: nat, notFound: bool, cands: seq<Song>): Store {
    var ingested := Ingest(st, cands, page).store;
    var outcome := PageOutcome(st, page, notFound, cands);
    var quarantined := if outcome.Quarantines() then AddFailed(ingested, page, outcome.Code()) else ingested;
    AddLog(quarantined, page, outcome.Code())
  }

  /**
   * A visit adds exactly one log row, carrying the outcome, and exactly one
   * failed page when the outcome is "none_songs" or "get_songs_failed",
   * whether or not the page is already quarantined.
   */
  lemma RecordRows(st: Store, page: nat, notFound: bool, cands: seq<Song>)
    ensures var r := Record(st, page, notFound, cands);
      var code := PageOutcome(st, page, notFound, cands).Code();
      && r.logs == st.logs + [LogEntry(|st.logs| + 1, page, code)]
      && r.failed == st.failed + (if IsQuarantineCode(code) then [FailedPage(st.nextFailedId, page, code)] else [])
      && r.songs == Ingest(st, cands, page).store.songs
  {}

  lemma RecordKeepsSound(st: Store, page: nat, notFound: bool, cands: seq<Song>)
    requires Sound(st)
    ensures Sound(Record(st, page, notFound, cands))
  {
    IngestKeepsSound(st, cands, page);
    var ingested := Ingest(st, cands, page).store;
    var outcome := PageOutcome(st, page, notFound, cands);
    if outcome.Quarantines() {
      AddFailedValid(ingested, page, outcome.Code());
      AddLogValid(AddFailed(ingested, page, outcome.Code()), page, outcome.Code());
    } else {
      AddLogValid(ingested, page, outcome.Code());
    }
  }

  /** A run of the crawler: the state it leaves, and whether it stopped on a fetch error. */
  datatype Run = Run(store: Store, halted: bool)

  /** What the crawler reads off a fetched page: the not-found sentinel, and the candidates. */
  datatype Scraped = Scraped(notFound: bool, songs: seq<Song>)

  /** A catalogue page number to what is read off it; None when the fetch fails. */
  type Reader = nat -> Option<Scraped>

  /** getDoc then getSongs: fetch the page's render URL, read the sentinel and the candidates. */
  function ReadPage(fetch: Fetcher, analyze: Analyzer, page: nat): Option<Scraped> {
    match fetch(PageUrl(page))
    case None => None
    case Some(doc) => Some(Scraped(NotFound(doc), SongsOf(doc, analyze)))
  }

  /** The reader that fetches and scrapes. */
  function ReaderOf(fetch: Fetcher, analyze: Analyzer): Reader {
    (page: nat) => ReadPage(fetch, analyze, page)
  }

  /** `read` answers as fetching and scraping would, page by page. */
  ghost predicate Serves(read: Reader, fetch: Fetcher, analyze: Analyzer) {
    forall page {:trigger ReadPage(fetch, analyze, page)} :: read(page) == ReadPage(fetch, analyze, page)
  }

  /** One page: read it (a fetch error halts the program), then record it. */
  function Visit(st: Store, read: Reader, page: nat): Run {
    match read(page)
    case None => Run(st, true)
    case Some(p) => Run(Record(st, page, p.notFound, p.songs), false)
  }

  method VisitPage(db: Database, fetch: Fetcher, analyze: Analyzer, page: nat) returns (halted: bool)
    modifies db
    ensures Run(db.Snapshot(), halted) == Visit(old(db.Snapshot()), ReaderOf(fetch, analyze), page)
  {
    var doc := fetch(PageUrl(page));
    if doc.None? {
      return true;
    }
    var songs := GetSongs(doc.value, analyze);
    var enable := IngestSongs(db, songs, page);
    var outcome := Classify(NotFound(doc.value), |songs|, enable);
    if outcome.Quarantines() {
      db.CreateFailedPage(page, outcome.Code());
    }
    db.CreateLog(page, outcome.Code());
    halted := false;
  }

  // ---------------------------------------------------------------------
  // The forward crawl (cmd/exsongs.go:75-164)

  /** The bound test runs after a page is logged, so this page is the last one visited. */
  const LastPage: nat := 600000

  /** Resume at the last logged page, visiting it again, or at page 1. */
  function StartPage(last: Option<LogEntry>): (page: nat)
    ensures page >= 1
  {
    if last.Some? && 0 < last.value.pageNumber then last.value.pageNumber else 1
  }

  /**
   * The crawl re-visits the last logged page, and starts at 1 on an empty log
   * or when the last log names page 0.
   */
  lemma StartPageResumes(st: Store)
    ensures st.logs == [] ==> StartPage(LastLog(st)) == 1
    ensures st.logs != [] && st.logs[|st.logs| - 1].pageNumber == 0 ==> StartPage(LastLog(st)) == 1
    ensures st.logs != [] && st.logs[|st.logs| - 1].pageNumber > 0 ==>
      StartPage(LastLog(st)) == st.logs[|st.logs| - 1].pageNumber
  {}

  /** What the crawl does with one page number. */
  type PageStep = (Store, nat) -> Run

  /** The crawl's step: visit the page through `read`. */
  function VisitStep(read: Reader): PageStep {
    (st: Store, page: nat) => Visit(st, read, page)
  }

  /** Visit pages page, page + 1, ... until one at or past LastPage has been recorded, or a fetch fails. */
  function CrawlFrom(st: Store, visit: PageStep, page: nat): Run
    decreases if page < LastPage then LastPage - page else 0
  {
    var v := visit(st, page);
    if v.halted || LastPage <= page then v
    else CrawlFrom(v.store, visit, page + 1)
  }

  /** crawl()'s run, from the page it resumes at. */
  function Crawled(st: Store, read: Reader): Run {
    CrawlFrom(st, VisitStep(read), StartPage(LastLog(st)))
  }

  /** `visit` does what visiting through `read` does, store by store and page by page. */
  ghost predicate Visits(visit: PageStep, read: Reader) {
    forall st: Store, page: nat {:trigger Visit(st, read, page)} :: visit(st, page) == Visit(st, read, page)
  }

  /** crawl() */
  method Crawl(db: Database, fetch: Fetcher, analyze: Analyzer) returns (halted: bool)
    modifies db
    ensures Run(db.Snapshot(), halted) == Crawled(old(db.Snapshot()), ReaderOf(fetch, analyze))
  {
    var page := StartPage(LastLog(db.Snapshot()));
    halted := CrawlPages(db, fetch, analyze, page, VisitStep(ReaderOf(fetch, analyze)));
  }

  /** The loop over the pages, for crawl. */
  method CrawlPages(db: Database, fetch: Fetcher, analyze: Analyzer, start: nat, ghost visit: PageStep)
    returns (halted: bool)
    requires Visits(visit, ReaderOf(fetch, analyze))
    modifies db
    ensures Run(db.Snapshot(), halted) == CrawlFrom(old(db.Snapshot()), visit, start)
  {
    var page := start;
    while true
      invariant CrawlFrom(db.Snapshot(), visit, page) == CrawlFrom(old(db.Snapshot()), visit, start)
      decreases if page < LastPage then LastPage - page else 0
    {
      ghost var before := db.Snapshot();
      halted := VisitPage(db, fetch, analyze, page);
      assert Run(db.Snapshot(), halted) == visit(before, page);
      if halted || LastPage <= page {
        return;
      }
      page := page + 1;
    }
  }

  /**
   * A step that halts exactly when the page cannot be read, changing
   * nothing then, and otherwise appends one log row, for that page.
   */
  ghost predicate LogsPage(visit: PageStep, read: Reader) {
    forall st: Store, page: nat ::
      && (visit(st, page).halted <==> read(page).None?)
      && (visit(st, page).halted ==> visit(st, page).store == st)
      && (!visit(st, page).halted ==>
            && st.logs <= visit(st, page).store.logs
            && |visit(st, page).store.logs| == |st.logs| + 1
            && visit(st, page).store.logs[|st.logs|].pageNumber == page)
  }

  /** Visiting a page logs it once, unless its fetch fails. */
  lemma VisitLogsPage(read: Reader)
    ensures LogsPage(VisitStep(read), read)
  {
    forall st: Store, page: nat
      ensures var v := VisitStep(read)(st, page);
        && (v.halted <==> read(page).None?)
        && (v.halted ==> v.store == st)
        && (!v.halted ==> st.logs <= v.store.logs && |v.store.logs| == |st.logs| + 1 && v.store.logs[|st.logs|].pageNumber == page)
    {
      assert VisitStep(read)(st, page) == Visit(st, read, page);
      if read(page).Some? {
        var p := read(page).value;
        RecordRows(st, page, p.notFound, p.songs);
      }
    }
  }

  /**
   * The crawl logs consecutive pages from its start, each once. Unless a
   * fetch fails it stops right after logging the first page at or past
   * LastPage, so at least one page is logged; when it halts, the fetch of
   * the page after the last logged one failed.
   */
  lemma {:induction false} CrawlLogs(st: Store, visit: PageStep, read: Reader, page: nat)
    requires LogsPage(visit, read)
    ensures var r := CrawlFrom(st, visit, page);
      && st.logs <= r.store.logs
      && (forall i | |st.logs| <= i < |r.store.logs| :: r.store.logs[i].pageNumber == page + (i - |st.logs|))
      && (!r.halted ==> |r.store.logs| - |st.logs| == if page < LastPage then LastPage - page + 1 else 1)
      && (r.halted ==> read(page + |r.store.logs| - |st.logs|).None?)
    decreases if page < LastPage then LastPage - page else 0
  {
    var v := visit(st, page);
    if !v.halted && page < LastPage {
      CrawlLogs(v.store, visit, read, page + 1);
    }
  }

  /** crawl() logs consecutive pages, each once, from the one it resumes at. */
  lemma CrawledLogsPages(st: Store, read: Reader)
    ensures var r := Crawled(st, read).store;
      && st.logs <= r.logs
      && forall i | |st.logs| <= i < |r.logs| :: r.logs[i].pageNumber == StartPage(LastLog(st)) + (i - |st.logs|)
  {
    VisitLogsPage(read);
    CrawlLogs(st, VisitStep(read), read, StartPage(LastLog(st)));
  }

  /**
   * Unless a fetch fails, crawl() stops right after logging LastPage, or
   * after the resume page when that was already past it.
   */
  lemma CrawledLogsEnd(st: Store, read: Reader)
    ensures var r := Crawled(st, read);
      var start := StartPage(LastLog(st));
      !r.halted ==> |r.store.logs| == |st.logs| + if start < LastPage then LastPage - start + 1 else 1
  {
    VisitLogsPage(read);
    CrawlLogs(st, VisitStep(read), read, StartPage(LastLog(st)));
  }

  /** The failed page a quarantining log row stands for: its page and text. */
  function Quarantined(logs: seq<LogEntry>): seq<(nat, string)> {
    if logs == [] then []
    else
      var last := logs[|logs| - 1];
      Quarantined(logs[..|logs| - 1]) + (if IsQuarantineCode(last.text) then [(last.pageNumber, last.text)] else [])
  }

  /** The page and text of each failed page. */
  function Marks(rows: seq<FailedPage>): (r: seq<(nat, string)>)
    ensures |r| == |rows|
    ensures forall i | 0 <= i < |rows| :: r[i] == (rows[i].pageNumber, rows[i].text)
  {
    if rows == [] then [] else Marks(rows[..|rows| - 1]) + [(rows[|rows| - 1].pageNumber, rows[|rows| - 1].text)]
  }

  lemma {:induction false} QuarantinedAppend(a: seq<LogEntry>, b: seq<LogEntry>)
    ensures Quarantined(a + b) == Quarantined(a) + Quarantined(b)
    decreases |b|
  {
    if b != [] {
      var n := |b| - 1;
      var last := b[n];
      var bit := if IsQuarantineCode(last.text) then [(last.pageNumber, last.text)] else [];
      assert (a + b)[..|a + b| - 1] == a + b[..n];
      assert (a + b)[|a + b| - 1] == last;
      QuarantinedAppend(a, b[..n]);
      calc {
        Quarantined(a + b);
        Quarantined(a + b[..n]) + bit;
        (Quarantined(a) + Quarantined(b[..n])) + bit;
        Quarantined(a) + (Quarantined(b[..n]) + bit);
        Quarantined(a) + Quarantined(b);
      }
    } else {
      assert a + b == a;
    }
  }

  /** One recorded page: its failed page, if any, is the one its log row stands for. */
  lemma RecordQuarantines(st: Store, page: nat, notFound: bool, cands: seq<Song>)
    ensures var r := Record(st, page, notFound, cands);
      st.logs <= r.logs && Marks(r.failed) == Marks(st.failed) + Quarantined(r.logs[|st.logs|..])
  {
    RecordRows(st, page, notFound, cands);
    var r := Record(st, page, notFound, cands);
    var code := PageOutcome(st, page, notFound, cands).Code();
    var log := LogEntry(|st.logs| + 1, page, code);
    assert r.logs[|st.logs|..] == [log];
    assert Quarantined([log]) == if IsQuarantineCode(code) then [(page, code)] else [] by {
      assert [log][..0] == [];
    }
  }

  lemma ConcatAssoc<T>(before: seq<T>, middle: seq<T>, after: seq<T>, x: seq<T>, y: seq<T>)
    requires middle == before + x && after == middle + y
    ensures after == before + (x + y)
  {}

  lemma SliceSplit<T>(a: seq<T>, b: seq<T>, c: seq<T>)
    requires a <= b && b <= c
    ensures a <= c && c[|a|..] == b[|a|..] + c[|b|..]
  {
    assert c[..|a|] == b[..|a|];
  }

  /** Two stretches of the crawl, one after the other, quarantine what their logs say, in order. */
  lemma QuarantineChain(st: Store, v: Store, r: Store)
    requires st.logs <= v.logs && v.logs <= r.logs
    requires Marks(v.failed) == Marks(st.failed) + Quarantined(v.logs[|st.logs|..])
    requires Marks(r.failed) == Marks(v.failed) + Quarantined(r.logs[|v.logs|..])
    ensures Marks(r.failed) == Marks(st.failed) + Quarantined(r.logs[|st.logs|..])
  {
    var a, b := v.logs[|st.logs|..], r.logs[|v.logs|..];
    SliceSplit(st.logs, v.logs, r.logs);
    QuarantinedAppend(a, b);
    ConcatAssoc(Marks(st.failed), Marks(v.failed), Marks(r.failed), Quarantined(a), Quarantined(b));
  }

  /** A step that halts without change, or quarantines exactly the pages its new log rows say. */
  ghost predicate QuarantinesLogged(visit: PageStep) {
    forall st: Store, page: nat ::
      && (visit(st, page).halted ==> visit(st, page).store == st)
      && (!visit(st, page).halted ==>
            && st.logs <= visit(st, page).store.logs
            && Marks(visit(st, page).store.failed) == Marks(st.failed) + Quarantined(visit(st, page).store.logs[|st.logs|..]))
  }

  /** Visiting a page quarantines it exactly when its log row says so. */
  lemma VisitQuarantinesLogged(read: Reader)
    ensures QuarantinesLogged(VisitStep(read))
  {
    forall st: Store, page: nat
      ensures var v := VisitStep(read)(st, page);
        && (v.halted ==> v.store == st)
        && (!v.halted ==> st.logs <= v.store.logs && Marks(v.store.failed) == Marks(st.failed) + Quarantined(v.store.logs[|st.logs|..]))
    {
      assert VisitStep(read)(st, page) == Visit(st, read, page);
      if read(page).Some? {
        var p := read(page).value;
        RecordQuarantines(st, page, p.notFound, p.songs);
      }
    }
  }

  /** The failed pages a run of such steps adds are the ones its log rows say, in order. */
  lemma {:induction false} CrawlQuarantines(st: Store, visit: PageStep, page: nat)
    requires QuarantinesLogged(visit)
    ensures var r := CrawlFrom(st, visit, page).store;
      st.logs <= r.logs && Marks(r.failed) == Marks(st.failed) + Quarantined(r.logs[|st.logs|..])
    decreases if page < LastPage then LastPage - page else 0
  {
    var v := visit(st, page);
    var r := CrawlFrom(st, visit, page).store;
    if v.halted {
      assert r == st;
      assert r.logs[|st.logs|..] == [];
      assert Marks(st.failed) + [] == Marks(st.failed);
    } else if page < LastPage {
      CrawlQuarantines(v.store, visit, page + 1);
      assert r == CrawlFrom(v.store, visit, page + 1).store;
      QuarantineChain(st, v.store, r);
    }
  }

  /**
   * The failed pages crawl() adds are exactly the pages it logged as
   * "none_songs" or "get_songs_failed", in the same order.
   */
  lemma CrawledQuarantines(st: Store, read: Reader)
    ensures var r := Crawled(st, read).store;
      st.logs <= r.logs && Marks(r.failed) == Marks(st.failed) + Quarantined(r.logs[|st.logs|..])
  {
    VisitQuarantinesLogged(read);
    CrawlQuarantines(st, VisitStep(read), StartPage(LastLog(st)));
  }

  /** A step that keeps the store sound. */
  ghost predicate KeepsSoundPages(visit: PageStep) {
    forall st: Store, page: nat | Sound(st) :: Sound(visit(st, page).store)
  }

  lemma VisitKeepsSound(read: Reader)
    ensures KeepsSoundPages(VisitStep(read))
  {
    forall st: Store, page: nat | Sound(st)
      ensures Sound(VisitStep(read)(st, page).store)
    {
      assert VisitStep(read)(st, page) == Visit(st, read, page);
      if read(page).Some? {
        var p := read(page).value;
        RecordKeepsSound(st, page, p.notFound, p.songs);
      }
    }
  }

  lemma {:induction false} CrawlKeepsSound(st: Store, visit: PageStep, page: nat)
    requires Sound(st) && KeepsSoundPages(visit)
    ensures Sound(CrawlFrom(st, visit, page).store)
    decreases if page < LastPage then LastPage - page else 0
  {
    var v := visit(st, page);
    if !v.halted && page < LastPage {
      CrawlKeepsSound(v.store, visit, page + 1);
    }
  }

  /** crawl() keeps the store sound. */
  lemma CrawledKeepsSound(st: Store, read: Reader)
    requires Sound(st)
    ensures Sound(Crawled(st, read).store)
  {
    VisitKeepsSound(read);
    CrawlKeepsSound(st, VisitStep(read), StartPage(LastLog(st)));
  }

  // ---------------------------------------------------------------------
  // The sweep over failed pages (cmd/exsongs.go:166-239)

  const FirstStartId: nat := 1
  const FirstEndId: nat := 10000
  const RangeId: nat := 10000

  /** The k-th id window [start, end): [1, 10000) first, then each starts where the last ended. */
  function Window(k: nat): (w: (nat, nat))
    ensures 1 <= w.0 < w.1
  {
    if k == 0 then (FirstStartId, FirstEndId)
    else
      var prev := Window(k - 1);
      (prev.1, prev.1 + RangeId)
  }

  /** The windows in closed form: the first is one id narrower than the rest. */
  lemma {:induction false} WindowBounds(k: nat)
    ensures Window(k).0 == if k == 0 then 1 else RangeId * k
    ensures Window(k).1 == RangeId * (k + 1)
  {
    if k > 0 {
      WindowBounds(k - 1);
    }
  }

  /** The windows tile the positive ids: each id lies in exactly one, the one numbered id / 10000. */
  lemma WindowOf(id: nat, k: nat)
    requires 1 <= id
    ensures Window(k).0 <= id < Window(k).1 <==> k == id / RangeId
  {
    WindowBounds(k);
  }

  /**
   * Retry a quarantined page: ingest its candidates as the crawl does, and
   * delete the row only when there was at least one candidate and none of
   * the new ones failed validation. The sentinel is not consulted, and no
   * log or failed page is written.
   */
  function Retry(st: Store, row: FailedPage, cands: seq<Song>): Store {
    var ingested := Ingest(st, cands, row.pageNumber);
    if |cands| <= 0 then ingested.store
    else if !ingested.enable then ingested.store
    else DeleteFailed(ingested.store, row.id)
  }

  /** The row goes exactly when the page produced candidates and none failed; every other row stays. */
  lemma RetryDeletes(st: Store, row: FailedPage, cands: seq<Song>)
    requires Valid(st) && row in st.failed
    ensures var r := Retry(st, row, cands);
      (row !in r.failed <==> |cands| > 0 && Ingest(st, cands, row.pageNumber).enable)
    ensures var r := Retry(st, row, cands);
      forall f | f in st.failed && f.id != row.id :: f in r.failed
    ensures var r := Retry(st, row, cands);
      r.logs == st.logs && r.nextFailedId == st.nextFailedId && forall f | f in r.failed :: f in st.failed
  {}

  lemma RetryKeepsSound(st: Store, row: FailedPage, cands: seq<Song>)
    requires Sound(st)
    ensures Sound(Retry(st, row, cands))
  {
    IngestKeepsSound(st, cands, row.pageNumber);
    DeleteFailedValid(Ingest(st, cands, row.pageNumber).store, row.id);
  }

  /** One listed row: fetch its page (a fetch error halts the program), scrape, retry. */
  function Recheck(st: Store, row: FailedPage, read: Reader): (r: Run)
    ensures r.store.nextFailedId == st.nextFailedId
  {
    match read(row.pageNumber)
    case None => Run(st, true)
    case Some(p) => Run(Retry(st, row, p.songs), false)
  }

  /** What the sweep does with one listed row. */
  type RowStep = (Store, FailedPage) -> Run

  /** The sweep's step: recheck the row through `read`. */
  function RecheckStep(read: Reader): RowStep {
    (st: Store, row: FailedPage) => Recheck(st, row, read)
  }

  /** `step` does what rechecking through `read` does, store by store and row by row. */
  ghost predicate Rechecks(step: RowStep, read: Reader) {
    forall st: Store, row: FailedPage {:trigger Recheck(st, row, read)} :: step(st, row) == Recheck(st, row, read)
  }

  /** A step that leaves the counter alone and only ever deletes failed pages. */
  ghost predicate Frames(step: RowStep) {
    forall st: Store, row: FailedPage ::
      && step(st, row).store.nextFailedId == st.nextFailedId
      && forall f | f in step(st, row).store.failed :: f in st.failed
  }

  /** A step that keeps the store sound, writes no log and only appends songs. */
  ghost predicate KeepsSound(step: RowStep) {
    forall st: Store, row: FailedPage | Sound(st) ::
      && Sound(step(st, row).store)
      && step(st, row).store.logs == st.logs
      && st.songs <= step(st, row).store.songs
  }

  /** Rechecking deletes at most the row, and never moves the counter. */
  lemma RecheckFrames(read: Reader)
    ensures Frames(RecheckStep(read))
  {
    forall st: Store, row: FailedPage
      ensures RecheckStep(read)(st, row).store.nextFailedId == st.nextFailedId
      ensures forall f | f in RecheckStep(read)(st, row).store.failed :: f in st.failed
    {
      var r := Recheck(st, row, read);
      assert RecheckStep(read)(st, row) == r;
      if read(row.pageNumber).Some? {
        var ingested := Ingest(st, read(row.pageNumber).value.songs, row.pageNumber);
        assert r.store.failed == ingested.store.failed || r.store.failed == Without(ingested.store.failed, row.id);
      }
    }
  }

  /** Rechecking keeps the store sound, writes no log and only appends songs. */
  lemma RecheckKeepsSound(read: Reader)
    ensures KeepsSound(RecheckStep(read))
  {
    forall st: Store, row: FailedPage | Sound(st)
      ensures Sound(RecheckStep(read)(st, row).store)
      ensures RecheckStep(read)(st, row).store.logs == st.logs
      ensures st.songs <= RecheckStep(read)(st, row).store.songs
    {
      assert RecheckStep(read)(st, row) == Recheck(st, row, read);
      if read(row.pageNumber).Some? {
        var cands := read(row.pageNumber).value.songs;
        RetryKeepsSound(st, row, cands);
        IngestAppends(st, cands, row.pageNumber);
      }
    }
  }

  /** The listed rows in order, stopping at a fetch error. */
  function SweepRows(st: Store, rows: seq<FailedPage>, step: RowStep): Run
    decreases |rows|
  {
    if rows == [] then Run(st, false)
    else
      var first := step(st, rows[0]);
      if first.halted then first else SweepRows(first.store, rows[1..], step)
  }

  /** Sweeping rows with a framed step leaves the counter, and only deletes failed pages. */
  lemma {:induction false} SweepRowsFrame(st: Store, rows: seq<FailedPage>, step: RowStep)
    requires Frames(step)
    ensures var r := SweepRows(st, rows, step).store;
      r.nextFailedId == st.nextFailedId && forall f | f in r.failed :: f in st.failed
    decreases |rows|
  {
    if rows != [] {
      var first := step(st, rows[0]);
      if !first.halted {
        SweepRowsFrame(first.store, rows[1..], step);
      }
    }
  }

  /**
   * The window [lo, hi) and the ones after it, each starting where the last
   * ended, stopping at the first that lists no row. The ids below the
   * counter bound how far it goes.
   */
  function SweepFrom(st: Store, lo: nat, hi: nat, step: RowStep): Run
    requires FailedIdsIssued(st) && lo < hi && Frames(step)
    decreases if lo < st.nextFailedId then st.nextFailedId - lo else 0
  {
    var rows := InWindow(st.failed, lo, hi);
    if |rows| <= 0 then Run(st, false)
    else
      assert rows[0] in st.failed;
      var swept := SweepRows(st, rows, step);
      SweepRowsFrame(st, rows, step);
      if swept.halted then swept else SweepFrom(swept.store, hi, hi + RangeId, step)
  }

  /**
   * One window of the sweep: an empty window ends it, a fetch error ends it
   * halted, otherwise the sweep moves on to the next window.
   */
  lemma SweepFromStep(st: Store, lo: nat, hi: nat, step: RowStep)
    requires FailedIdsIssued(st) && lo < hi && Frames(step)
    ensures var rows := InWindow(st.failed, lo, hi);
      var swept := SweepRows(st, rows, step);
      && (rows == [] ==> SweepFrom(st, lo, hi, step) == Run(st, false))
      && (rows != [] && swept.halted ==> SweepFrom(st, lo, hi, step) == swept)
      && (rows != [] && !swept.halted ==>
            FailedIdsIssued(swept.store) && SweepFrom(st, lo, hi, step) == SweepFrom(swept.store, hi, hi + RangeId, step))
  {
    SweepRowsFrame(st, InWindow(st.failed, lo, hi), step);
  }

  /** crawlFailedPage's sweep, from the first window. */
  function Swept(st: Store, read: Reader): Run
    requires FailedIdsIssued(st)
  {
    RecheckFrames(read);
    SweepFrom(st, FirstStartId, FirstEndId, RecheckStep(read))
  }

  /** The loop body over one listed row. */
  method RecheckPage(db: Database, row: FailedPage, fetch: Fetcher, analyze: Analyzer, ghost read: Reader)
    returns (halted: bool)
    requires Serves(read, fetch, analyze)
    modifies db
    ensures Run(db.Snapshot(), halted) == Recheck(old(db.Snapshot()), row, read)
  {
    var doc := fetch(PageUrl(row.pageNumber));
    assert read(row.pageNumber) == ReadPage(fetch, analyze, row.pageNumber);
    if doc.None? {
      return true;
    }
    var songs := GetSongs(doc.value, analyze);
    var enable := IngestSongs(db, songs, row.pageNumber);
    if 0 < |songs| && enable {
      db.DeleteFailedPage(row);
    }
    halted := false;
  }

  /** The loop over one window's rows. */
  method SweepWindow(db: Database, rows: seq<FailedPage>, fetch: Fetcher, analyze: Analyzer, ghost read: Reader, ghost step: RowStep)
    returns (halted: bool)
    requires Serves(read, fetch, analyze) && Rechecks(step, read)
    modifies db
    ensures Run(db.Snapshot(), halted) == SweepRows(old(db.Snapshot()), rows, step)
  {
    halted := false;
    for i := 0 to |rows|
      invariant SweepRows(db.Snapshot(), rows[i..], step) == SweepRows(old(db.Snapshot()), rows, step)
    {
      assert rows[i..][1..] == rows[i + 1..];
      ghost var before := db.Snapshot();
      halted := RecheckPage(db, rows[i], fetch, analyze, read);
      assert step(before, rows[i]) == Run(db.Snapshot(), halted);
      if halted {
        return;
      }
    }
  }

  /** A window that lists a row starts below the counter. */
  lemma WindowListed(st: Store, lo: nat, hi: nat)
    requires FailedIdsIssued(st) && InWindow(st.failed, lo, hi) != []
    ensures lo < st.nextFailedId
  {
    assert InWindow(st.failed, lo, hi)[0] in st.failed;
  }

  /**
   * A window that listed rows and was swept without a fetch error: the
   * sweep goes on at the next window, and the counter bounds it.
   */
  lemma SweepAdvance(st: Store, next: Store, lo: nat, hi: nat, step: RowStep)
    requires FailedIdsIssued(st) && lo < hi && Frames(step)
    requires InWindow(st.failed, lo, hi) != []
    requires Run(next, false) == SweepRows(st, InWindow(st.failed, lo, hi), step)
    ensures lo < st.nextFailedId == next.nextFailedId
    ensures FailedIdsIssued(next) && SweepFrom(st, lo, hi, step) == SweepFrom(next, hi, hi + RangeId, step)
  {
    WindowListed(st, lo, hi);
    SweepRowsFrame(st, InWindow(st.failed, lo, hi), step);
    SweepFromStep(st, lo, hi, step);
  }

  /** A window that lists no row ends the sweep where it is. */
  lemma SweepEmpty(st: Store, lo: nat, hi: nat, step: RowStep)
    requires FailedIdsIssued(st) && lo < hi && Frames(step)
    requires InWindow(st.failed, lo, hi) == []
    ensures SweepFrom(st, lo, hi, step) == Run(st, false)
  {}

  /** A fetch error in a listed window ends the sweep there, halted. */
  lemma SweepHalts(st: Store, next: Store, lo: nat, hi: nat, step: RowStep)
    requires FailedIdsIssued(st) && lo < hi && Frames(step)
    requires InWindow(st.failed, lo, hi) != []
    requires Run(next, true) == SweepRows(st, InWindow(st.failed, lo, hi), step)
    ensures SweepFrom(st, lo, hi, step) == Run(next, true)
  {
    SweepFromStep(st, lo, hi, step);
  }

  /** crawlFailedPage() */
  method CrawlFailedPage(db: Database, fetch: Fetcher, analyze: Analyzer) returns (halted: bool)
    requires FailedIdsIssued(db.Snapshot())
    modifies db
    ensures FailedIdsIssued(old(db.Snapshot()))
    ensures Run(db.Snapshot(), halted) == Swept(old(db.Snapshot()), ReaderOf(fetch, analyze))
  {
    ghost var read := ReaderOf(fetch, analyze);
    RecheckFrames(read);
    halted := SweepWindows(db, fetch, analyze, read, RecheckStep(read));
  }

  /** The loop over the windows, for crawlFailedPage. */
  method SweepWindows(db: Database, fetch: Fetcher, analyze: Analyzer, ghost read: Reader, ghost step: RowStep)
    returns (halted: bool)
    requires Serves(read, fetch, analyze) && Rechecks(step, read) && Frames(step)
    requires FailedIdsIssued(db.Snapshot())
    modifies db
    ensures FailedIdsIssued(old(db.Snapshot()))
    ensures Run(db.Snapshot(), halted) == SweepFrom(old(db.Snapshot()), FirstStartId, FirstEndId, step)
  {
    var startId: nat, endId: nat := FirstStartId, FirstEndId;
    var done := false;
    halted := false;
    while !done
      invariant startId < endId && FailedIdsIssued(db.Snapshot())
      invariant !done ==> SweepFrom(db.Snapshot(), startId, endId, step) == SweepFrom(old(db.Snapshot()), FirstStartId, FirstEndId, step)
      invariant done ==> Run(db.Snapshot(), halted) == SweepFrom(old(db.Snapshot()), FirstStartId, FirstEndId, step)
      decreases !done, if startId < db.nextFailedId then db.nextFailedId - startId else 0
    {
      halted, done := SweepListed(db, startId, endId, fetch, analyze, read, step);
      if !done {
        startId := endId;
        endId := endId + RangeId;
      }
    }
  }

  /**
   * One turn of the sweep: list the window [lo, hi) and re-check its rows.
   * `done` when the window is empty or a fetch error halted the program;
   * otherwise the sweep goes on at [hi, hi + RangeId).
   */
  method SweepListed(db: Database, lo: nat, hi: nat, fetch: Fetcher, analyze: Analyzer, ghost read: Reader, ghost step: RowStep)
    returns (halted: bool, done: bool)
    requires Serves(read, fetch, analyze) && Rechecks(step, read) && Frames(step)
    requires FailedIdsIssued(db.Snapshot()) && lo < hi
    modifies db
    ensures FailedIdsIssued(db.Snapshot())
    ensures done ==> Run(db.Snapshot(), halted) == SweepFrom(old(db.Snapshot()), lo, hi, step)
    ensures !done ==> lo < db.nextFailedId == old(db.nextFailedId)
    ensures !done ==> SweepFrom(db.Snapshot(), hi, hi + RangeId, step) == SweepFrom(old(db.Snapshot()), lo, hi, step)
  {
    ghost var before := db.Snapshot();
    var rows := InWindow(db.failed, lo, hi);
    if |rows| <= 0 {
      SweepEmpty(before, lo, hi, step);
      return false, true;
    }
    halted := SweepWindow(db, rows, fetch, analyze, read, step);
    SweepRowsFrame(before, rows, step);
    if halted {
      SweepHalts(before, db.Snapshot(), lo, hi, step);
      return true, true;
    }
    SweepAdvance(before, db.Snapshot(), lo, hi, step);
    done := false;
  }

  /** Sweeping rows with a step that keeps the store sound keeps it sound, writes no log and only appends songs. */
  lemma {:induction false} SweepRowsKeeps(st: Store, rows: seq<FailedPage>, step: RowStep)
    requires Sound(st) && KeepsSound(step)
    ensures var r := SweepRows(st, rows, step).store;
      Sound(r) && r.logs == st.logs && st.songs <= r.songs
    decreases |rows|
  {
    if rows != [] {
      var first := step(st, rows[0]);
      if !first.halted {
        SweepRowsKeeps(first.store, rows[1..], step);
      }
    }
  }

  /** The same for the windows from [lo, hi) on. */
  lemma {:induction false} SweepKeeps(st: Store, lo: nat, hi: nat, step: RowStep)
    requires Sound(st) && lo < hi && Frames(step) && KeepsSound(step)
    ensures var r := SweepFrom(st, lo, hi, step).store;
      Sound(r) && r.logs == st.logs && st.songs <= r.songs
    decreases if lo < st.nextFailedId then st.nextFailedId - lo else 0
  {
    var rows := InWindow(st.failed, lo, hi);
    if rows == [] {
      SweepEmpty(st, lo, hi, step);
    } else {
      var swept := SweepRows(st, rows, step);
      SweepRowsKeeps(st, rows, step);
      if swept.halted {
        SweepHalts(st, swept.store, lo, hi, step);
      } else {
        SweepAdvance(st, swept.store, lo, hi, step);
        SweepKeeps(swept.store, hi, hi + RangeId, step);
      }
    }
  }

  /** A framed step's sweep leaves the counter, and every failed page left was there before. */
  lemma {:induction false} SweepFrame(st: Store, lo: nat, hi: nat, step: RowStep)
    requires FailedIdsIssued(st) && lo < hi && Frames(step)
    ensures var r := SweepFrom(st, lo, hi, step).store;
      r.nextFailedId == st.nextFailedId && forall f | f in r.failed :: f in st.failed
    decreases if lo < st.nextFailedId then st.nextFailedId - lo else 0
  {
    var rows := InWindow(st.failed, lo, hi);
    SweepFromStep(st, lo, hi, step);
    if rows != [] {
      WindowListed(st, lo, hi);
      var swept := SweepRows(st, rows, step);
      SweepRowsFrame(st, rows, step);
      if !swept.halted {
        SweepFrame(swept.store, hi, hi + RangeId, step);
        var r := SweepFrom(swept.store, hi, hi + RangeId, step).store;
        forall f | f in r.failed ensures f in st.failed {
          assert f in swept.store.failed;
        }
      }
    }
  }

  /**
   * crawlFailedPage writes no log and no failed page: the log and the
   * counter are unchanged, every failed page left was there before, songs
   * are only appended, and the store stays sound.
   */
  lemma SweptKeeps(st: Store, read: Reader)
    requires Sound(st)
    ensures var r := Swept(st, read).store;
      && Sound(r) && r.logs == st.logs && st.songs <= r.songs
      && r.nextFailedId == st.nextFailedId && forall f | f in r.failed :: f in st.failed
  {
    RecheckFrames(read);
    RecheckKeepsSound(read);
    SweepKeeps(st, FirstStartId, FirstEndId, RecheckStep(read));
    SweepFrame(st, FirstStartId, FirstEndId, RecheckStep(read));
  }
}
