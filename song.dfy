/**
 * The records of models/song.go: a karaoke song as stored, and its
 * creation rule; with the two other rows the crawler writes, the page log
 * and the failed (quarantined) page.
 */
module Models {

  /**
   * One song. `id` is the storage id (0 until stored) and `pageNumber` the
   * catalogue page it was found on (0 until the crawler stamps it); both are
   * unsigned in the source. The `...K` and `...R` fields hold readings
   * (hiragana and romaji) of the name next to them.
   */
  datatype Song = Song(
    id: nat,
    pageNumber: nat,
    artistName: string,
    artistNameR: string,
    artistNameK: string,
    lyricWriterName: string,
    lyricWriterNameK: string,
    lyricWriterNameR: string,
    songWriterName: string,
    songWriterNameK: string,
    songWriterNameR: string,
    name: string,
    nameK: string,
    nameR: string,
    number: string,
    originalKey: string,
    deliveryStatus: string,
    modelNames: string,
    lyric: string,
    deliveryTerm: string)
  {
    /**
     * Whether the song may be stored: it has a page and a non-empty artist
     * name, artist readings, title, title readings and song number, checked
     * in that order.
     */
    predicate CanCreate() {
      if pageNumber <= 0 then false
      else if artistName == "" then false
      else if artistNameK == "" then false
      else if artistNameR == "" then false
      else if name == "" then false
      else if nameK == "" then false
      else if nameR == "" then false
      else if number == "" then false
      else true
    }
  }

  /** A Song with every field at Go's zero value. */
  const EmptySong: Song := Song(0, 0, "", "", "", "", "", "", "", "", "", "", "", "", "", "", "", "", "", "")

  /** The eight fields CanCreate asks for, by the order it checks them. */
  predicate Complete(s: Song) {
    && s.pageNumber > 0
    && s.artistName != "" && s.artistNameK != "" && s.artistNameR != ""
    && s.name != "" && s.nameK != "" && s.nameR != ""
    && s.number != ""
  }

  /** CanCreate holds exactly when all eight required fields are present. */
  lemma CanCreateIffComplete(s: Song)
    ensures s.CanCreate() <==> Complete(s)
  {}

  /** Any one missing required field is enough to refuse the song. */
  lemma CanCreateRefusesMissing(s: Song)
    ensures s.pageNumber == 0 ==> !s.CanCreate()
    ensures s.artistName == "" || s.artistNameK == "" || s.artistNameR == "" ==> !s.CanCreate()
    ensures s.name == "" || s.nameK == "" || s.nameR == "" ==> !s.CanCreate()
    ensures s.number == "" ==> !s.CanCreate()
  {}

  /**
   * CanCreate reads neither the storage id nor the optional fields:
   * lyricist, composer, their readings, key, delivery status and term,
   * model names and lyric.
   */
  lemma CanCreateIgnoresOptionalFields(s: Song, t: Song)
    requires s.pageNumber == t.pageNumber
    requires s.artistName == t.artistName && s.artistNameK == t.artistNameK && s.artistNameR == t.artistNameR
    requires s.name == t.name && s.nameK == t.nameK && s.nameR == t.nameR
    requires s.number == t.number
    ensures s.CanCreate() == t.CanCreate()
  {}


  /** A row of the page log: which page was crawled and its outcome code. */
  datatype LogEntry = LogEntry(id: nat, pageNumber: nat, text: string)

  /** A quarantined page, kept for the reconciliation sweep. */
  datatype FailedPage = FailedPage(id: nat, pageNumber: nat, text: string)
}
