# joysound-crawler: the crawl and reconciliation engine in Dafny

This project models the song crawler of joysound-crawler: the two drivers in
`cmd/exsongs.go`, the `Song` record and its validator in `models/song.go`, and
the character normalisation tables of `utils/strings.go`.

The crawler runs in one of two modes.

- **`crawl`** walks catalogue pages from the last logged page on. It re-visits
  that page and stops after logging page 600000. On each page it reads the
  candidate songs and skips every candidate that its lookup by number finds
  in the songs table. That lookup finds the first stored song for a
  candidate without a number (see "## Findings"); the pipeline below uses
  number equality. It stamps the rest with the page number, validates them with
  `Song.CanCreate` and inserts the valid ones. It then classifies the page as
  one of `not_found_page`, `get_songs_failed`, `none_songs` or `create`,
  writes a log row, and quarantines `none_songs` and `get_songs_failed` pages
  as failed-page rows.
- **`crawl-failed-page`** sweeps the failed-page rows in id windows:
  `[1,10000)`, then `[10000,20000)`, and so on. It stops at the first empty
  window. It re-runs the same ingest on each listed row and deletes the row
  when the page gave candidates and none of the new ones failed validation.

Modules:

- `Wrappers`: `Option`.
- `Models`: `Song` and `CanCreate`, plus the log and failed-page rows.
- `Strings`: Go's `strings.Replacer` semantics over `seq<char>`, the tables,
  the conversions and `NormalizeString`. `NormalizeString` is defined as the
  five passes in the source's order.
- `Extraction`: `trim`, the page as an abstract document, the label dispatch
  of `getSongs`, `getSongRelationName`, `getLyric`, the pure part of
  `getReading` and the URL of `getDoc`.
- `Persistence`: the three tables as a `Database` class, with `seq` fields and
  auto-increment ids, and their `Store` snapshots.
- `Crawler`: the outcome classification, the per-page ingest and record
  steps, and the two drivers.

The drivers are methods that change a `Database`. Each method is proved equal
to a function on snapshots (`Visit`, `Crawled`, `Recheck`, `Swept`). The
lemmas then state the properties about those functions. `Sound` is the
invariant the crawler keeps:

- ids are auto-increment;
- stored numbers are pairwise distinct;
- every stored song passes `CanCreate`.

The page fetch (Splash) and the reading analyser (Elasticsearch) are
parameters. `Fetcher` maps a URL to a document or an error. `Analyzer` maps a
URL and a text to tokens or an error. A fetch error halts the program, as
`log.Fatalln` does. A method returns `halted` when this happens, and the
state is what was written before it.

The forward crawl and the sweep are each written once as a function over a
generic step: a page visit, or a failed-row re-check. Each property of a step
is proved once for the real step (`VisitStep`, `RecheckStep`) and then
carried through the whole run.

## Model

| member | source | states |
|---|---|---|
| Models.CanCreateIffComplete | models/song.go:28-62 | CanCreate holds exactly when the page number is non-zero and ArtistName, its K and R readings, Name, its K and R readings and Number are all non-empty |
| Models.CanCreateRefusesMissing | models/song.go:29-59 | each failing check on its own makes CanCreate false: page number 0; any artist field empty; any name field empty; empty number |
| Models.CanCreateIgnoresOptionalFields | models/song.go:28-62 | two songs that agree on the eight checked fields agree on CanCreate: id, lyricist, composer, key, delivery fields, model names and lyric never affect it |
| Persistence.EmptyStoreValid | cmd/exsongs.go:67-73 | a freshly migrated database satisfies the id invariants |
| Persistence.Insert | cmd/exsongs.go:117 | db.Create on a song appends one row after the old ones: the song under id = the new row count; logs, failed pages and the id counter are unchanged |
| Persistence.InsertValid | cmd/exsongs.go:117 | inserting a song keeps the auto-increment id invariants |
| Persistence.AddLog | cmd/exsongs.go:148-151 | a log insert appends one row after the old ones, with the next id, the page and the text; songs, failed pages and the id counter are unchanged |
| Persistence.AddLogValid | cmd/exsongs.go:148-151 | a log insert keeps the id invariants |
| Persistence.AddFailed | cmd/exsongs.go:141-144 | a failed-page insert appends one row after the old ones, with the counter's id, the page and the text, and advances the counter by one; songs and logs are unchanged |
| Persistence.AddFailedValid | cmd/exsongs.go:141-144 | the new failed-page id exceeds all earlier ones, so the rows stay in increasing id order |
| Persistence.Without | cmd/exsongs.go:226 | deleting by id removes exactly the rows with that id and keeps all others |
| Persistence.WithoutKeepsOrder | cmd/exsongs.go:226 | deleting a failed page keeps the remaining ids increasing |
| Persistence.DeleteFailed | cmd/exsongs.go:226 | a delete keeps exactly the failed-page rows with another id, and leaves songs, logs and the id counter unchanged |
| Persistence.DeleteFailedValid | cmd/exsongs.go:226 | a delete keeps the id invariants |
| Persistence.InWindow | cmd/exsongs.go:174 | the window query lists only stored rows whose id lies in [lo, hi) |
| Persistence.InWindowSpec | cmd/exsongs.go:174 | the window query lists every stored row whose id lies in [lo, hi), in storage order: a row stored after the others is listed after them exactly when it lies in the window |
| Persistence.LastLog | cmd/exsongs.go:76-77 | db.Last finds a log row exactly when there is one; on a valid store it is the one with the greatest id |
| Persistence.FindByNumberSpec | cmd/exsongs.go:98-99 | the intended lookup finds a song exactly when the number is stored, and then it finds the first stored song with that number |
| Persistence.FirstByNumberAsWritten | cmd/exsongs.go:99 | the lookup as written agrees with the intended one for every non-empty number (the empty case is the finding below) |
| Persistence.Database.constructor | cmd/exsongs.go:67-73 | a new database is the empty store |
| Persistence.Database.CreateSong | cmd/exsongs.go:117 | the tables become Insert of the old ones |
| Persistence.Database.CreateLog | cmd/exsongs.go:148-151 | the tables become AddLog of the old ones |
| Persistence.Database.CreateFailedPage | cmd/exsongs.go:141-144 | the tables become AddFailed of the old ones |
| Persistence.Database.DeleteFailedPage | cmd/exsongs.go:226 | the tables become DeleteFailed of the old ones |
| Crawler.CodesIdentifyOutcomes | cmd/exsongs.go:120-140 | the four log texts are distinct; an outcome is quarantined exactly when it is none_songs or get_songs_failed |
| Crawler.ClassifyPriority | cmd/exsongs.go:120-137 | each outcome holds if and only if its condition holds: not_found_page iff the sentinel text is present; get_songs_failed iff no sentinel and some candidate was invalid; none_songs iff no sentinel, all valid and no candidates; create iff no sentinel, all valid and at least one candidate |
| Crawler.AlreadyStoredIff | cmd/exsongs.go:98-105 | on a valid store a candidate is skipped as already created exactly when its number is among the stored numbers |
| Crawler.IngestAppends | cmd/exsongs.go:96-118 | ingesting a page only appends songs and keeps the id invariants |
| Crawler.IngestNumbers | cmd/exsongs.go:97-118 | after ingesting, the stored numbers are the old ones plus the numbers of the candidates that pass CanCreate once stamped; an invalid candidate does not keep later valid ones out |
| Crawler.IngestKeepsSound | cmd/exsongs.go:97-118 | ingesting keeps numbers pairwise distinct and every stored song creatable, even when one page lists the same number twice |
| Crawler.IngestAdds | cmd/exsongs.go:107-117 | every song added is a page candidate stamped with the page number, stored under the next id, and passes CanCreate |
| Crawler.IngestEnable | cmd/exsongs.go:110-114 | enable is cleared only if some candidate whose number was not stored fails CanCreate; and any candidate that fails CanCreate and whose number is still not stored at the end has cleared it |
| Crawler.IngestEnableExact | cmd/exsongs.go:97-118 | enable ends cleared exactly when some candidate fails CanCreate once stamped while its number is neither stored before the page nor created by an earlier candidate of the page; this decides enable also when a page lists a number twice |
| Crawler.AllStoredIsCreate | cmd/exsongs.go:101-105 | when every candidate's number is already stored, nothing changes and a non-empty page is classified create |
| Crawler.NumberlessCandidateAsWritten | cmd/exsongs.go:99-105 | on a non-empty store a numberless candidate is found by the lookup as written, though no stored song has an empty number; the intended model classifies the page get_songs_failed |
| Crawler.NumberlessCandidateRejected | cmd/exsongs.go:97-118 | with the intended lookup, any candidate with an empty number clears enable |
| Crawler.IngestAsWritten | cmd/exsongs.go:96-118 | the per-page loop with the lookup as written changes only the songs table, and equals Ingest on every page whose candidates all have a number |
| Crawler.NumberlessPageAsWritten | cmd/exsongs.go:96-137 | as written, a page with one numberless candidate over a non-empty store changes nothing and is classified create |
| Crawler.IngestSongs | cmd/exsongs.go:96-118 | the loop leaves the tables and enable as Ingest of the old tables |
| Crawler.RecordRows | cmd/exsongs.go:139-151 | recording a page appends exactly one log row with the outcome text, appends one failed-page row exactly when the outcome is none_songs or get_songs_failed (with no check against existing rows), and the songs are those of the ingest |
| Crawler.RecordKeepsSound | cmd/exsongs.go:96-151 | recording a page keeps the store sound |
| Crawler.VisitPage | cmd/exsongs.go:86-151 | one loop turn leaves the tables and the halt flag as Visit of the old tables: a fetch error halts with nothing written, otherwise the page is recorded |
| Crawler.StartPageResumes | cmd/exsongs.go:76-83 | the crawl starts at page 1 when there is no log or the last log names page 0, and otherwise at the last log's page number, so that page is visited again |
| Crawler.Crawl | cmd/exsongs.go:75-164 | crawl leaves the tables as Crawled of the old ones, the run from StartPage |
| Crawler.CrawlPages | cmd/exsongs.go:85-163 | the do-while loop leaves the tables as CrawlFrom of the old ones from the start page |
| Crawler.VisitLogsPage | cmd/exsongs.go:87-90 | a visit halts exactly on a fetch error and then writes nothing; otherwise it appends exactly one log row, for that page |
| Crawler.CrawlLogs | cmd/exsongs.go:85-163 | a run only appends log rows, for consecutive pages from the start page; a run that did not halt logged every page up to 600000 (one page when it starts at or beyond it); a halted run stopped at the first page whose fetch failed |
| Crawler.CrawledLogsPages | cmd/exsongs.go:80-83 | the crawl's new log rows are for pages StartPage, StartPage+1, … in order, each once |
| Crawler.CrawledLogsEnd | cmd/exsongs.go:155-158 | a crawl that did not halt logged exactly the pages from the start page to 600000, and at least one page |
| Crawler.RecordQuarantines | cmd/exsongs.go:139-151 | the failed-page rows a recorded page adds are exactly its quarantining log entries (page and text) |
| Crawler.VisitQuarantinesLogged | cmd/exsongs.go:139-151 | the same for one visit, halted or not |
| Crawler.CrawlQuarantines | cmd/exsongs.go:85-163 | over a run, the failed-page rows added are, in order, the page and text of each none_songs or get_songs_failed log row written |
| Crawler.CrawledQuarantines | cmd/exsongs.go:75-164 | the same for the whole crawl |
| Crawler.VisitKeepsSound | cmd/exsongs.go:96-151 | a visit keeps the store sound |
| Crawler.CrawlKeepsSound | cmd/exsongs.go:85-163 | a run keeps the store sound |
| Crawler.CrawledKeepsSound | cmd/exsongs.go:75-164 | the whole crawl keeps the store sound: stored numbers stay pairwise distinct |
| Crawler.WindowBounds | cmd/exsongs.go:168-170 | window k is [1, 10000) for k = 0 and [10000·k, 10000·(k+1)) after it, so each starts where the previous ended |
| Crawler.WindowOf | cmd/exsongs.go:235-237 | every id ≥ 1 lies in exactly one window, window id / 10000: the windows are contiguous and do not overlap |
| Crawler.RetryDeletes | cmd/exsongs.go:216-228 | a re-check deletes the row exactly when the page gave candidates and enable stayed set; it keeps every other row, writes no log and adds no failed page |
| Crawler.RetryKeepsSound | cmd/exsongs.go:192-228 | a re-check keeps the store sound |
| Crawler.RecheckFrames | cmd/exsongs.go:182-228 | a re-check never moves the failed-page id counter and never adds a failed-page row |
| Crawler.RecheckKeepsSound | cmd/exsongs.go:192-228 | a re-check keeps the store sound, writes no log row and only appends songs |
| Crawler.SweepRowsFrame | cmd/exsongs.go:182-231 | re-checking a window's rows keeps the counter and adds no failed page |
| Crawler.SweepFromStep | cmd/exsongs.go:172-238 | a sweep from [lo, hi) stops when the window is empty, halts when a re-check halts, and otherwise goes on at [hi, hi+10000) |
| Crawler.WindowListed | cmd/exsongs.go:172-179 | a window that lists rows starts below the id counter, which bounds the number of windows |
| Crawler.SweepEmpty | cmd/exsongs.go:176-179 | an empty window ends the sweep with the store unchanged |
| Crawler.SweepHalts | cmd/exsongs.go:183-186 | a fetch error ends the sweep, halted, in the state reached |
| Crawler.SweepAdvance | cmd/exsongs.go:235-237 | after a listed window the sweep continues at the next window and never returns to a lower one |
| Crawler.RecheckPage | cmd/exsongs.go:182-228 | one row's re-check leaves the tables as Recheck of the old ones |
| Crawler.SweepWindow | cmd/exsongs.go:182-231 | the inner loop leaves the tables as SweepRows of the old ones |
| Crawler.SweepListed | cmd/exsongs.go:173-237 | one outer turn either ends the sweep as SweepFrom says or moves to the next window with the same remaining sweep |
| Crawler.SweepWindows | cmd/exsongs.go:172-238 | the outer loop leaves the tables as SweepFrom of the old ones from [1, 10000) |
| Crawler.CrawlFailedPage | cmd/exsongs.go:166-239 | crawlFailedPage leaves the tables as Swept of the old ones |
| Crawler.SweepRowsKeeps | cmd/exsongs.go:182-231 | re-checking rows keeps the store sound, writes no log and only appends songs |
| Crawler.SweepKeeps | cmd/exsongs.go:172-238 | the same for the sweep from any window on |
| Crawler.SweepFrame | cmd/exsongs.go:172-238 | the sweep keeps the id counter, and every failed page left was there before |
| Crawler.SweptKeeps | cmd/exsongs.go:166-239 | crawlFailedPage keeps the store sound, writes no log row, adds no failed page and only appends songs |
| Extraction.RemoveNewlinesSpec | cmd/exsongs.go:424-425 | the result has no newline and keeps every other character; a text without newlines is unchanged |
| Extraction.RemoveNewlinesAppend | cmd/exsongs.go:424-425 | newline removal works character by character in order: it distributes over concatenation, deletes a lone newline and keeps any other lone character |
| Extraction.StripRegexpSpec | cmd/exsongs.go:427-428 | the regexp replacement keeps a slice between white-space borders; when the pattern matches, the result starts and ends with a non-space; otherwise the text is unchanged |
| Extraction.TrimNormalized | cmd/exsongs.go:423-431 | trim's result is normalised: no ideographic space, no full-width form and no half-width kana |
| Extraction.TrimIgnoresRegexp | cmd/exsongs.go:423-431 | trim equals NormalizeString after newline removal: the TrimSpace inside NormalizeSpace already does the regexp's work |
| Extraction.LastValueSpec | cmd/exsongs.go:330-342 | label dispatch gives "" when no row has the label, and otherwise the normalised value of the last row with that label; unknown labels are ignored |
| Extraction.GetSongRelationName | cmd/exsongs.go:324-344 | artist, lyricist and composer are the last td-a / td-span texts under the labels 歌手名, 作詞, 作曲 |
| Extraction.LyricKeepsLineBreaksAsSpaces | cmd/exsongs.go:313-322 | the lyric is NormalizeString of the text with newlines as spaces, and is normalised |
| Extraction.ReadDetails | cmd/exsongs.go:281-294 | number, key, delivery status and term are the trimmed next-sibling texts of the last children labelled 曲番号:, キー, 配信予定:, 配信期間: |
| Extraction.Present | cmd/exsongs.go:298-303 | the model names are exactly the alt texts that exist |
| Extraction.PresentAppend | cmd/exsongs.go:297-303 | collecting model names keeps the order of the items: it distributes over concatenation |
| Extraction.CollectModelNames | cmd/exsongs.go:297-303 | the loop collects Present of the alt attributes, in order |
| Extraction.SplitJoin | cmd/exsongs.go:403 | joining tokens without the separator and splitting again gives the tokens back |
| Extraction.GetReading | cmd/exsongs.go:346-404 | the reading is "" when the request or its decoding fails, and otherwise the tokens mapped by KatakanaToHiragana and joined with " " |
| Extraction.ReadingSplitsIntoTokens | cmd/exsongs.go:398-403 | a reading splits at " " back into the hiragana tokens |
| Extraction.ReadShared | cmd/exsongs.go:242-254 | the page-level names, lyric and readings are SharedOf the page |
| Extraction.ScrapeItem | cmd/exsongs.go:256-309 | one item becomes SongOf the page-level data and the item |
| Extraction.GetSongs | cmd/exsongs.go:241-311 | getSongs returns SongsOf the page: one candidate per item, in order |
| Extraction.SharedFacts | cmd/exsongs.go:244-254 | the page-level names come from the relation rows by label, the lyric from the lyric text, and all are normalised |
| Extraction.CandidateFacts | cmd/exsongs.go:256-307 | a candidate has id 0 and page 0 (so it fails CanCreate until stamped), carries the page-level names and lyric, and its scraped fields are normalised |
| Extraction.ScrapedSongs | cmd/exsongs.go:241-311 | the same for every candidate of a page: the page-level names and lyric are copied onto every item |
| Extraction.LastValueNormalized | cmd/exsongs.go:282-294 | a dispatched value is always normalised |
| Extraction.DecimalRoundTrip | cmd/exsongs.go:411 | strconv.Itoa's digits read back as the page number |
| Extraction.PageUrlInjective | cmd/exsongs.go:406-415 | different pages have different render URLs |
| Strings.FirstMatchIsFirst | utils/strings.go:44-50 | no pattern listed before the chosen one matches, so the first pattern in argument order wins |
| Strings.ReplaceStep | utils/strings.go:175-189 | with one-character patterns, Replace maps the first character by its first rule and goes on with the rest |
| Strings.ReplaceShifts | utils/strings.go:175-189 | a table that shifts its characters by a fixed offset keeps the length and shifts exactly the characters it lists |
| Strings.ReplaceOrigins | utils/strings.go:183-185 | every output character is either written by some rule or copied from the input without a rule for it |
| Strings.SpaceTable | utils/strings.go:14-17 | the space table maps exactly U+3000 to an ASCII space |
| Strings.NumberTable | utils/strings.go:19-24 | the number table maps exactly the ten full-width digits, each to its ASCII digit |
| Strings.AlphabetTable | utils/strings.go:26-42 | the alphabet table maps exactly the 52 full-width letters, each to the ASCII letter of the same case |
| Strings.SymbolTable | utils/strings.go:76-109 | the symbol table maps exactly the full-width punctuation, each to its ASCII form |
| Strings.KanaTables | utils/strings.go:111-155 | the hiragana and katakana tables shift by 0x60 in opposite directions and mirror each other pair by pair |
| Strings.VoicedKanaTable | utils/strings.go:44-50 | the first 26 kana rules are two-character voiced pairs, each to one full-width katakana |
| Strings.PlainKanaTable | utils/strings.go:51-73 | the remaining kana rules are single characters that write kana or ＂ |
| Strings.HalfWidthKanaCovered | utils/strings.go:44-74 | every half-width katakana character has a rule in the kana table |
| Strings.TrimSpaceSpec | utils/strings.go:169 | TrimSpace keeps a slice between white-space borders, and the slice starts and ends with a non-space |
| Strings.TrimSpaceOfSlice | utils/strings.go:169 | trimming a slice with white-space borders trims to the same text |
| Strings.NormalizeSpaceSpec | utils/strings.go:168-173 | NormalizeSpace keeps the trimmed text with U+3000 turned into ' '; no U+3000 is left and no white space surrounds it |
| Strings.ZenToHanNumberSpec | utils/strings.go:175-177 | each full-width digit becomes its ASCII digit and every other character is unchanged |
| Strings.ZenToHanNumberIdempotent | utils/strings.go:175-177 | applying ZenToHanNumer twice is applying it once |
| Strings.ZenToHanAlphabetSpec | utils/strings.go:179-181 | each full-width letter becomes its ASCII letter of the same case, and every other character is unchanged |
| Strings.ZenToHanAlphabetIdempotent | utils/strings.go:179-181 | applying ZenToHanAlphabet twice is applying it once |
| Strings.ZenToHanSymbolSpec | utils/strings.go:187-189 | each full-width symbol becomes its ASCII symbol and every other character is unchanged |
| Strings.ZenToHanSymbolIdempotent | utils/strings.go:187-189 | applying ZenToHanSymbol twice is applying it once |
| Strings.HanToZenKanaOrigins | utils/strings.go:183-185 | HanToZenKana leaves no half-width kana; every output character is copied input or full-width kana or ＂ |
| Strings.VoicedPairWins | utils/strings.go:44-50 | a string that starts with the pattern of a voiced pair becomes that pair's full-width katakana followed by the conversion of the rest |
| Strings.HanToZenKanaVoicedExample | utils/strings.go:46 | ｶﾞ becomes the single character ガ, not カ plus a mark |
| Strings.HanToZenKanaSemiVoicedExample | utils/strings.go:50 | ﾊﾟ becomes パ |
| Strings.HanToZenKanaLoneMark | utils/strings.go:67-68 | a lone ﾞ becomes ＂ and a lone ﾟ is deleted by HanToZenKana |
| Strings.LoneVoicedMarkNormalized | utils/strings.go:158-166 | through NormalizeString a lone ﾞ becomes ASCII ": ＂ at the kana pass, then " at the symbol pass |
| Strings.LoneSemiVoicedMarkNormalized | utils/strings.go:158-166 | through NormalizeString a lone ﾟ is deleted |
| Strings.MirrorRoundTrip | utils/strings.go:111-155 | for mirrored shifting tables, replacing with one then the other gives back any string made of the first table's characters |
| Strings.HiraganaRoundTrip | utils/strings.go:217-223 | KatakanaToHiragana(HiraganaToKatakana(s)) == s for any s made of characters of the hiragana table |
| Strings.KatakanaRoundTrip | utils/strings.go:217-223 | HiraganaToKatakana(KatakanaToHiragana(s)) == s for any s made of characters of the katakana table |
| Strings.KatakanaToHiraganaSpec | utils/strings.go:221-223 | each katakana of the table moves down by 0x60 and every other character is unchanged |
| Strings.NormalizeStringNormalizes | utils/strings.go:158-166 | NormalizeString's result has no U+3000, no full-width form and no half-width kana |
| Models.Song.CanCreate | models/song.go:28-62 | the validator as the source writes it, check by check; its meaning is stated by Models.CanCreateIffComplete |
| Crawler.Classify | cmd/exsongs.go:120-137 | the page outcome from the sentinel flag, the candidate count and enable; its meaning is stated by Crawler.ClassifyPriority |
| Crawler.Outcome.Code | cmd/exsongs.go:120-136 | the log text of each outcome: create, not_found_page, none_songs, get_songs_failed; their distinctness is stated by Crawler.CodesIdentifyOutcomes |
| Crawler.Ingest | cmd/exsongs.go:96-118 | the per-page loop with the intended lookup; it changes only the songs table, and Crawler.IngestNumbers, IngestAdds, IngestEnable and IngestEnableExact state what it adds |
| Crawler.Stamp | cmd/exsongs.go:108 | a candidate takes the current page number; stated as part of Crawler.IngestAdds |
| Crawler.AlreadyStored | cmd/exsongs.go:98-102 | the dedup test on the intended lookup: a found song has a positive id; stated by Crawler.AlreadyStoredIff |
| Crawler.StoredAsWritten | cmd/exsongs.go:98-102 | the dedup test on the lookup as written; used by Crawler.IngestAsWritten |
| Crawler.Record | cmd/exsongs.go:120-151 | ingest, classify, quarantine and log one page; stated by Crawler.RecordRows and RecordQuarantines |
| Crawler.Visit | cmd/exsongs.go:86-151 | fetch and record one page, or halt on a fetch error; stated by Crawler.VisitLogsPage |
| Crawler.StartPage | cmd/exsongs.go:76-83 | the first page of a crawl is at least 1; stated in full by Crawler.StartPageResumes |
| Crawler.CrawlFrom | cmd/exsongs.go:85-163 | the do-while loop over pages as a recursion; stated by Crawler.CrawlLogs and CrawlQuarantines |
| Crawler.Crawled | cmd/exsongs.go:75-164 | the whole crawl from StartPage of the last log; stated by Crawler.CrawledLogsPages and CrawledLogsEnd |
| Crawler.Window | cmd/exsongs.go:168-170 | window k starts at 1 or above and is non-empty; its bounds are stated by Crawler.WindowBounds |
| Crawler.Retry | cmd/exsongs.go:192-228 | a re-check of one row whose page was fetched; stated by Crawler.RetryDeletes |
| Crawler.Recheck | cmd/exsongs.go:182-228 | fetch and re-check one failed row, or halt; it never moves the id counter |
| Crawler.SweepRows | cmd/exsongs.go:182-231 | the rows of one window in order as a recursion; stated by Crawler.SweepRowsKeeps and SweepRowsFrame |
| Crawler.SweepFrom | cmd/exsongs.go:172-238 | the window loop as a recursion; stated by Crawler.SweepFromStep, SweepKeeps and SweepFrame |
| Crawler.Swept | cmd/exsongs.go:166-239 | the whole sweep from [1, 10000); stated by Crawler.SweptKeeps |
| Extraction.Trim | cmd/exsongs.go:423-431 | trim as newline removal, regexp, NormalizeString; stated by Extraction.TrimNormalized and TrimIgnoresRegexp |
| Extraction.StripRegexp | cmd/exsongs.go:427-428 | the regexp replacement by its second group; stated by Extraction.StripRegexpSpec |
| Extraction.NotFound | cmd/exsongs.go:123-124 | the page is missing exactly when the trimmed error text is the sentinel このページは存在しません。 |
| Extraction.RemoveNewlines | cmd/exsongs.go:424-425 | newline removal; stated by Extraction.RemoveNewlinesSpec and RemoveNewlinesAppend |
| Extraction.LastValue | cmd/exsongs.go:330-342 | the label dispatch over rows; stated by Extraction.LastValueSpec |
| Extraction.Lyric | cmd/exsongs.go:313-322 | the lyric text with newlines as spaces, trimmed; stated by Extraction.LyricKeepsLineBreaksAsSpaces |
| Extraction.NewlinesToSpaces | cmd/exsongs.go:316-317 | every newline of the lyric becomes a space and every other character is kept, at the same position |
| Extraction.SharedOf | cmd/exsongs.go:242-254 | the page-level names, lyric and readings; stated by Extraction.SharedFacts |
| Extraction.SongOf | cmd/exsongs.go:256-309 | one item as a candidate song; stated by Extraction.CandidateFacts |
| Extraction.Join | cmd/exsongs.go:305 | strings.Join of the model names; stated with its inverse by Extraction.SplitJoin |
| Extraction.SongsOf | cmd/exsongs.go:241-311 | one candidate per item, in order; stated by Extraction.ScrapedSongs |
| Extraction.ReadingOf | cmd/exsongs.go:346-404 | the analyser's tokens in hiragana joined by " ", or "" on failure; stated by Extraction.ReadingSplitsIntoTokens |
| Extraction.PageUrl | cmd/exsongs.go:406-415 | the Splash render URL of a page; stated by Extraction.PageUrlInjective |
| Extraction.DecimalString | cmd/exsongs.go:411 | strconv.Itoa of the page number: non-empty decimal digits without a leading zero; stated with its inverse by Extraction.DecimalRoundTrip |
| Strings.Replace | utils/strings.go:170-189 | strings.Replacer's first-match-in-argument-order replacement; stated by Strings.FirstMatchIsFirst, ReplaceStep and ReplaceShifts |
| Strings.TrimSpace | utils/strings.go:169 | strings.TrimSpace; stated by Strings.TrimSpaceSpec |
| Strings.NormalizeSpace | utils/strings.go:168-173 | trim, then the space table; stated by Strings.NormalizeSpaceSpec |
| Strings.ZenToHanNumber | utils/strings.go:175-177 | the number table; stated by Strings.ZenToHanNumberSpec |
| Strings.ZenToHanAlphabet | utils/strings.go:179-181 | the alphabet table; stated by Strings.ZenToHanAlphabetSpec |
| Strings.HanToZenKana | utils/strings.go:183-185 | the kana table; stated by Strings.HanToZenKanaOrigins and VoicedPairWins |
| Strings.ZenToHanSymbol | utils/strings.go:187-189 | the symbol table; stated by Strings.ZenToHanSymbolSpec |
| Strings.HiraganaToKatakana | utils/strings.go:217-219 | the hiragana table; stated by Strings.HiraganaRoundTrip |
| Strings.KatakanaToHiragana | utils/strings.go:221-223 | the katakana table; stated by Strings.KatakanaToHiraganaSpec |
| Strings.NormalizeString | utils/strings.go:158-166 | the five passes in the source's order; stated by Strings.NormalizeStringNormalizes |

## Left out

- HTTP: the Splash fetch of `getDoc` and the Elasticsearch request of `getReading` are the `Fetcher` and `Analyzer` parameters. goquery's selectors are replaced by a `Document` record holding the texts they pick out. The page URL and the analyser URL are modelled.
- `log.Fatalln` on a fetch error is a `halted` result. Process exit, `log.Println` and `time.Sleep` are left out; none of them changes the tables.
- gorm, MySQL, `init`, `migrate` and `initElasticsearch` are replaced by an in-memory `Database` with auto-increment ids. `Log` and `FailedPage` are modelled with only id, page number and text, since their definitions are not part of this model.
- The window query has no ORDER BY, so the sweep lists rows in storage order. The model keeps rows in insertion order, which is id order.
- Crawler.CrawlFailedPage: requires that every failed-page id was issued by the id counter. This is the auto-increment invariant of the table, which every operation here keeps.
- Crawler.CrawledLogsEnd: gives the log count only for a run that did not halt. For a halted run, the fact that the next page failed to fetch is stated by Crawler.CrawlLogs for any step with the LogsPage property (Crawler.VisitLogsPage), and is not restated for Crawled.
- Crawler.SweepWindows: the windows are specified by the SweepFrom recursion over a generic re-check step. Crawler.CrawlFailedPage ties that step to fetching and scraping through `Rechecks` and `Serves`.
- Page numbers and ids are `uint` in Go and `nat` here. Overflow would need 2^64 rows, and the crawl stops at page 600000.
- `Replace` works on characters, not UTF-8 bytes. Every pattern in the tables is a sequence of whole characters, so on valid UTF-8 both levels find the same first match.
- Go's `Replacer` with an empty old string matches at every position. No table has one, so `Matches` requires a non-empty pattern.
- Strings.ZenToHanNumber: the source's function is named `ZenToHanNumer`.
- `getLyric` calls `utils.NormalizeString` at line 319 and discards the result. The model has no such call, and the lyric goes through `trim` as in the source.
- `getReading` returns an error for mode "" (lines 356-358), but every caller passes "katakana" or "romaji". `ReadingMode` has just those two values.
- Errors from `getReading` are ignored by its callers (`_`). An analyser failure therefore gives the reading "".
- `SjisToUtf8`, `ToHash` and `CheckHash` (`utils/strings.go:191-215`) wrap Shift-JIS and bcrypt libraries.
- `watchsync`, `watchsync_cli`, `migrate_cli` and `settings` are file watching, configuration and bootstrap. Only the three URL constants from `settings` are used.
- `CanCreate` always requires the reading fields.
- The bound test comes after logging, so page 600000 itself is visited.
- Persistence.InWindow: its own contract states only that every listed row lies in the window. That every stored row in the window is listed, in storage order, is Persistence.InWindowSpec. Keeping it out of the function's contract keeps the sweep proofs small.
- Crawler.Ingest: uses the intended lookup by number equality, as do Record, Visit, Retry and both drivers. The lookup as written is Crawler.IngestAsWritten, which agrees with Ingest whenever every candidate has a number; the difference is the finding below.

## Findings

| source | as written | input that shows it | evidently intended | confidence | as-written member | corrected member |
|---|---|---|---|---|---|---|
| cmd/exsongs.go:99 | `db.Where(&models.Song{Number: n}).First(&existSong)` builds its condition from a struct. gorm leaves zero-valued fields out of such a condition, so for `n == ""` the query has no condition and returns the first stored song. The candidate is then skipped as already created (the same query is at line 195). | A store holding any song and a page with one candidate whose number is "". As written, the candidate is skipped and the page is logged `create`. No stored song has the number "", and the candidate fails `CanCreate`. | Look the song up by number equality. A numberless candidate then fails `CanCreate`, clears `enable`, and the page is quarantined as `get_songs_failed`. | not executed | Persistence.FirstByNumberAsWritten, Crawler.IngestAsWritten, Crawler.NumberlessPageAsWritten, Crawler.NumberlessCandidateAsWritten | Persistence.FindByNumber, Crawler.NumberlessCandidateRejected |
