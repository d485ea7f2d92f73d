/**
 * The scraping half of cmd/exsongs.go: how one rendered song-search page
 * becomes a list of candidate songs.
 *
 * The page is given as the texts the crawler's CSS selectors pick out of
 * it (a missing element gives the empty text, as goquery's Text() does);
 * the reading analyser is a function from request URL and text to the
 * tokens of the answer, or None when the request or its JSON fails.
 */
module Extraction {
  import opened Wrappers
  import opened Strings
  import opened Models

  // ---------------------------------------------------------------------
  // trim (cmd/exsongs.go:423-431)

  /** The regexp `\n` replaced by the empty string. */
  function RemoveNewlines(s: string): string {
    if s == [] then []
    else if s[0] == '\n' then RemoveNewlines(s[1..])
    else [s[0]] + RemoveNewlines(s[1..])
  }

  /**
   * The removal works character by character and keeps the order: it
   * distributes over concatenation, drops a lone line feed and keeps any
   * other lone character.
   */
  lemma {:induction false} RemoveNewlinesAppend(a: string, b: string)
    ensures RemoveNewlines(a + b) == RemoveNewlines(a) + RemoveNewlines(b)
    ensures forall c :: RemoveNewlines([c]) == if c == '\n' then [] else [c]
  {
    if a != [] {
      assert (a + b)[1..] == a[1..] + b;
      RemoveNewlinesAppend(a[1..], b);
    } else {
      assert a + b == b;
    }
  }

  /** Every line feed goes, every other character stays, and a text without line feeds is kept. */
  lemma {:induction false} RemoveNewlinesSpec(s: string)
    ensures '\n' !in RemoveNewlines(s)
    ensures forall c | c != '\n' :: c in RemoveNewlines(s) <==> c in s
    ensures '\n' !in s ==> RemoveNewlines(s) == s
  {
    if s != [] {
      RemoveNewlinesSpec(s[1..]);
      assert s == [s[0]] + s[1..];
    }
  }

  /** RE2's `\s`: tab, line feed, form feed, carriage return and space. */
  predicate IsPerlSpace(c: char) {
    c == '\t' || c == '\n' || c == '\U{000C}' || c == '\r' || c == ' '
  }

  function LeadingPerlSpaces(s: string): (i: nat)
    ensures i <= |s|
  {
    if s != [] && IsPerlSpace(s[0]) then 1 + LeadingPerlSpaces(s[1..]) else 0
  }

  lemma {:induction false} LeadingPerlSpacesSpec(s: string)
    ensures forall k | 0 <= k < LeadingPerlSpaces(s) :: IsPerlSpace(s[k])
    ensures LeadingPerlSpaces(s) == |s| || !IsPerlSpace(s[LeadingPerlSpaces(s)])
  {
    if s != [] && IsPerlSpace(s[0]) {
      LeadingPerlSpacesSpec(s[1..]);
      forall k | 1 <= k < LeadingPerlSpaces(s) ensures IsPerlSpace(s[k]) {
        assert s[k] == s[1..][k - 1];
      }
    }
  }

  function TrailingPerlStart(s: string, i: nat, j: nat): (e: nat)
    requires i <= j <= |s|
    ensures i <= e <= j
    decreases j
  {
    if j > i && IsPerlSpace(s[j - 1]) then TrailingPerlStart(s, i, j - 1) else j
  }

  lemma {:induction false} TrailingPerlStartSpec(s: string, i: nat, j: nat)
    requires i <= j <= |s|
    ensures forall k | TrailingPerlStart(s, i, j) <= k < j :: IsPerlSpace(s[k])
    ensures TrailingPerlStart(s, i, j) == i || !IsPerlSpace(s[TrailingPerlStart(s, i, j) - 1])
    decreases j
  {
    if j > i && IsPerlSpace(s[j - 1]) {
      TrailingPerlStartSpec(s, i, j - 1);
    }
  }

  /**
   * Whether `^(\s+?)(\S.*?)(\s+?)$` matches `s` (which holds no line feed,
   * so `.` matches every character): at least one `\s` at each end and a
   * `\S` in between.
   */
  predicate RegexpMatches(s: string) {
    && s != [] && IsPerlSpace(s[0]) && IsPerlSpace(s[|s| - 1])
    && exists k | 0 <= k < |s| :: !IsPerlSpace(s[k])
  }

  /**
   * That regexp replaced by `$2`: when it matches, the text between the
   * leading and trailing runs of `\s`; otherwise `s` itself.
   */
  function StripRegexp(s: string): string {
    var i := LeadingPerlSpaces(s);
    var j := TrailingPerlStart(s, i, |s|);
    if 0 < i < |s| && j < |s| then s[i..j] else s
  }

  /**
   * StripRegexp cuts only `\s`, only at the ends; when the regexp matches
   * the result is non-empty and bare at both ends, otherwise it is the
   * input.
   */
  lemma StripRegexpSpec(s: string)
    ensures exists i, j | 0 <= i <= j <= |s| ::
      && StripRegexp(s) == s[i..j]
      && (forall k | 0 <= k < i :: IsPerlSpace(s[k]))
      && (forall k | j <= k < |s| :: IsPerlSpace(s[k]))
    ensures RegexpMatches(s) ==>
      var r := StripRegexp(s);
      r != [] && !IsPerlSpace(r[0]) && !IsPerlSpace(r[|r| - 1])
    ensures !RegexpMatches(s) ==> StripRegexp(s) == s
  {
    var i := LeadingPerlSpaces(s);
    var j := TrailingPerlStart(s, i, |s|);
    LeadingPerlSpacesSpec(s);
    TrailingPerlStartSpec(s, i, |s|);
    if !(0 < i < |s| && j < |s|) {
      assert !RegexpMatches(s) by {
        if s != [] && IsPerlSpace(s[0]) && IsPerlSpace(s[|s| - 1]) {
          assert forall k | 0 <= k < |s| :: IsPerlSpace(s[k]);
        }
      }
      assert s == s[0..|s|];
    }
  }

  /** The crawler's trim: drop line feeds, apply the regexp, normalise. */
  function Trim(s: string): string {
    NormalizeString(StripRegexp(RemoveNewlines(s)))
  }

  lemma TrimNormalized(s: string)
    ensures Normalized(Trim(s))
  {
    NormalizeStringNormalizes(StripRegexp(RemoveNewlines(s)));
  }

  /**
   * The regexp step never matters: NormalizeString trims the same white
   * space and more, so trim is line-feed removal then normalisation.
   */
  lemma TrimIgnoresRegexp(s: string)
    ensures Trim(s) == NormalizeString(RemoveNewlines(s))
  {
    var u := RemoveNewlines(s);
    var t := StripRegexp(u);
    StripRegexpSpec(u);
    var i, j :| 0 <= i <= j <= |u| && t == u[i..j]
      && (forall k | 0 <= k < i :: IsPerlSpace(u[k]))
      && (forall k | j <= k < |u| :: IsPerlSpace(u[k]));
    TrimSpaceOfSlice(u, i, j);
  }

  // ---------------------------------------------------------------------
  // The page

  datatype RelationRow = RelationRow(header: string, link: string, span: string)

  /** One karaoke entry of the result list. */
  datatype Item = Item(
    title: string,
    details: seq<string>,
    platforms: seq<Option<string>>)

  /**
   * The selections getSongs, getLyric, getSongRelationName and the
   * not-found check read: the error heading, the rows of the song table
   * (header, `td a` text, `td span` text), the lyric paragraphs and the
   * entries of the karaoke list (title, children of the status list,
   * `alt` of the image of each platform, None when there is none).
   */
  datatype Document = Document(
    errorText: string,
    relations: seq<RelationRow>,
    lyricText: string,
    items: seq<Item>)

  /** The heading JOYSOUND shows for a page that does not exist. */
  const NotFoundText: string := "このページは存在しません。"

  predicate NotFound(doc: Document) {
    Trim(doc.errorText) == NotFoundText
  }

  // ---------------------------------------------------------------------
  // Labelled values: the last label wins

  /** A label and the text of the element after it. */
  datatype Field = Field(tag: string, value: string)

  /** The field's label, normalised by `norm` (the crawler's Trim), reads `tag`. */
  predicate Labelled(f: Field, tag: string, norm: string -> string) {
    norm(f.tag) == tag
  }

  /**
   * The normalised value of the last field labelled `tag`, or the empty
   * string when no field is: each match overwrites the variable the source
   * keeps, so the last one stays. The source normalises with Trim; the
   * normaliser is a parameter so that the proofs below do not depend on it.
   */
  function LastValue(fields: seq<Field>, tag: string, norm: string -> string): string
    decreases |fields|
  {
    if fields == [] then ""
    else
      var n := |fields| - 1;
      if Labelled(fields[n], tag, norm) then norm(fields[n].value) else LastValue(fields[..n], tag, norm)
  }

  /**
   * LastValue is the value of the last field with the label, and empty when
   * there is none.
   */
  lemma {:induction false} LastValueSpec(fields: seq<Field>, tag: string, norm: string -> string)
    ensures (forall k | 0 <= k < |fields| :: !Labelled(fields[k], tag, norm)) ==> LastValue(fields, tag, norm) == ""
    ensures (exists k | 0 <= k < |fields| :: Labelled(fields[k], tag, norm)) ==>
      exists k | 0 <= k < |fields| ::
        && Labelled(fields[k], tag, norm) && LastValue(fields, tag, norm) == norm(fields[k].value)
        && forall m | k < m < |fields| :: !Labelled(fields[m], tag, norm)
    decreases |fields|
  {
    if fields == [] {
      return;
    }
    var n := |fields| - 1;
    var init := fields[..n];
    var r := LastValue(fields, tag, norm);
    if Labelled(fields[n], tag, norm) {
      return;
    }
    LastValueSpec(init, tag, norm);
    if exists k | 0 <= k < |fields| :: Labelled(fields[k], tag, norm) {
      var k :| 0 <= k < |fields| && Labelled(fields[k], tag, norm);
      assert init[k] == fields[k];
      var k' :| 0 <= k' < n && Labelled(init[k'], tag, norm) && r == norm(init[k'].value)
        && forall m | k' < m < n :: !Labelled(init[m], tag, norm);
      assert init[k'] == fields[k'];
      forall m | k' < m < |fields| ensures !Labelled(fields[m], tag, norm) {
        if m < n {
          assert init[m] == fields[m];
        }
      }
    } else {
      forall k | 0 <= k < n ensures !Labelled(init[k], tag, norm) {
        assert init[k] == fields[k];
      }
    }
  }

  /** The value of the first `i + 1` fields, from that of the first `i`. */
  lemma LastValueSnoc(fields: seq<Field>, i: nat, tag: string, norm: string -> string)
    requires i < |fields|
    ensures LastValue(fields[..i + 1], tag, norm) ==
      if Labelled(fields[i], tag, norm) then norm(fields[i].value) else LastValue(fields[..i], tag, norm)
  {
    assert fields[..i + 1][..i] == fields[..i];
  }

  // ---------------------------------------------------------------------
  // getSongRelationName (cmd/exsongs.go:324-344)

  const ArtistLabel: string := "歌手名"
  const LyricWriterLabel: string := "作詞"
  const SongWriterLabel: string := "作曲"

  /** Each row's header with the text of its `td a` link: where the artist is read. */
  function LinkFields(rows: seq<RelationRow>): (fs: seq<Field>)
    ensures |fs| == |rows|
    ensures forall i | 0 <= i < |rows| :: fs[i] == Field(rows[i].header, rows[i].link)
  {
    seq(|rows|, i requires 0 <= i < |rows| => Field(rows[i].header, rows[i].link))
  }

  /** Each row's header with the text of its `td span`: where the writers are read. */
  function SpanFields(rows: seq<RelationRow>): (fs: seq<Field>)
    ensures |fs| == |rows|
    ensures forall i | 0 <= i < |rows| :: fs[i] == Field(rows[i].header, rows[i].span)
  {
    seq(|rows|, i requires 0 <= i < |rows| => Field(rows[i].header, rows[i].span))
  }

  /**
   * Scan the table rows once; a row headed 歌手名 sets the artist from its
   * link, 作詞 the lyric writer and 作曲 the composer from its span.
   */
  method GetSongRelationName(rows: seq<RelationRow>) returns (artist: string, lyricWriter: string, songWriter: string)
    ensures artist == LastValue(LinkFields(rows), ArtistLabel, Trim)
    ensures lyricWriter == LastValue(SpanFields(rows), LyricWriterLabel, Trim)
    ensures songWriter == LastValue(SpanFields(rows), SongWriterLabel, Trim)
  {
    artist, lyricWriter, songWriter := "", "", "";
    var links, spans := LinkFields(rows), SpanFields(rows);
    for i := 0 to |rows|
      invariant artist == LastValue(links[..i], ArtistLabel, Trim)
      invariant lyricWriter == LastValue(spans[..i], LyricWriterLabel, Trim)
      invariant songWriter == LastValue(spans[..i], SongWriterLabel, Trim)
    {
      LastValueSnoc(links, i, ArtistLabel, Trim);
      LastValueSnoc(spans, i, LyricWriterLabel, Trim);
      LastValueSnoc(spans, i, SongWriterLabel, Trim);
      var header := Trim(rows[i].header);
      if header == ArtistLabel {
        artist := Trim(rows[i].link);
      }
      if header == LyricWriterLabel {
        lyricWriter := Trim(rows[i].span);
      }
      if header == SongWriterLabel {
        songWriter := Trim(rows[i].span);
      }
    }
    assert links[..|rows|] == links && spans[..|rows|] == spans;
  }

  // ---------------------------------------------------------------------
  // getLyric (cmd/exsongs.go:313-322)

  /** The regexp `\n` replaced by a space. */
  function NewlinesToSpaces(s: string): (r: string)
    ensures |r| == |s|
    ensures forall i | 0 <= i < |s| :: r[i] == if s[i] == '\n' then ' ' else s[i]
  {
    if s == [] then []
    else [if s[0] == '\n' then ' ' else s[0]] + NewlinesToSpaces(s[1..])
  }

  /**
   * The lyric: line feeds become spaces, then the text is trimmed. (The
   * source also calls NormalizeString on it and drops the result; being a
   * function, that call changes nothing.)
   */
  function Lyric(text: string): string {
    Trim(NewlinesToSpaces(text))
  }

  /** Line breaks of the lyric survive as word breaks: no line is glued to the next. */
  lemma LyricKeepsLineBreaksAsSpaces(text: string)
    ensures Lyric(text) == NormalizeString(NewlinesToSpaces(text))
    ensures Normalized(Lyric(text))
  {
    var u := NewlinesToSpaces(text);
    assert '\n' !in u by {
      assert forall k | 0 <= k < |u| :: u[k] != '\n';
    }
    RemoveNewlinesSpec(u);
    TrimIgnoresRegexp(u);
    TrimNormalized(u);
  }

  // ---------------------------------------------------------------------
  // The details of one entry (cmd/exsongs.go:280-295)

  const NumberLabel: string := "曲番号:"
  const KeyLabel: string := "キー"
  const DeliveryStatusLabel: string := "配信予定:"
  const DeliveryTermLabel: string := "配信期間:"

  /** The text of the next sibling, empty after the last child. */
  function NextText(children: seq<string>, i: nat): (r: string)
    requires i < |children|
    ensures i + 1 < |children| ==> r == children[i + 1]
    ensures i + 1 == |children| ==> r == ""
  {
    if i + 1 < |children| then children[i + 1] else ""
  }

  /** Every child paired with the text of its next sibling. */
  function DetailFields(children: seq<string>): (fs: seq<Field>)
    ensures |fs| == |children|
    ensures forall i | 0 <= i < |children| :: fs[i] == Field(children[i], NextText(children, i))
  {
    seq(|children|, i requires 0 <= i < |children| => Field(children[i], NextText(children, i)))
  }

  /**
   * Scan the children of the status list; a child whose trimmed text is
   * one of the four labels sets that field to the trimmed text of the
   * child after it.
   */
  method ReadDetails(children: seq<string>)
    returns (number: string, originalKey: string, deliveryStatus: string, deliveryTerm: string)
    ensures number == LastValue(DetailFields(children), NumberLabel, Trim)
    ensures originalKey == LastValue(DetailFields(children), KeyLabel, Trim)
    ensures deliveryStatus == LastValue(DetailFields(children), DeliveryStatusLabel, Trim)
    ensures deliveryTerm == LastValue(DetailFields(children), DeliveryTermLabel, Trim)
  {
    number, originalKey, deliveryStatus, deliveryTerm := "", "", "", "";
    var fields := DetailFields(children);
    for i := 0 to |children|
      invariant number == LastValue(fields[..i], NumberLabel, Trim)
      invariant originalKey == LastValue(fields[..i], KeyLabel, Trim)
      invariant deliveryStatus == LastValue(fields[..i], DeliveryStatusLabel, Trim)
      invariant deliveryTerm == LastValue(fields[..i], DeliveryTermLabel, Trim)
    {
      LastValueSnoc(fields, i, NumberLabel, Trim);
      LastValueSnoc(fields, i, KeyLabel, Trim);
      LastValueSnoc(fields, i, DeliveryStatusLabel, Trim);
      LastValueSnoc(fields, i, DeliveryTermLabel, Trim);
      var tag := Trim(children[i]);
      if tag == NumberLabel {
        number := Trim(NextText(children, i));
      } else if tag == KeyLabel {
        originalKey := Trim(NextText(children, i));
      } else if tag == DeliveryStatusLabel {
        deliveryStatus := Trim(NextText(children, i));
      } else if tag == DeliveryTermLabel {
        deliveryTerm := Trim(NextText(children, i));
      }
    }
    assert fields[..|children|] == fields;
  }

  // ---------------------------------------------------------------------
  // Model names (cmd/exsongs.go:297-305)

  /** The alt texts that are present, in order. */
  function Present(alts: seq<Option<string>>): (r: seq<string>)
    ensures |r| <= |alts|
    ensures forall x :: x in r <==> Some(x) in alts
    decreases |alts|
  {
    if alts == [] then []
    else
      var n := |alts| - 1;
      var init := Present(alts[..n]);
      assert alts == alts[..n] + [alts[n]];
      if alts[n].Some? then init + [alts[n].value] else init
  }

  /** Collecting keeps the order of the alts: it distributes over concatenation. */
  lemma {:induction false} PresentAppend(a: seq<Option<string>>, b: seq<Option<string>>)
    ensures Present(a + b) == Present(a) + Present(b)
    decreases |b|
  {
    if b != [] {
      var n := |b| - 1;
      assert (a + b)[..|a + b| - 1] == a + b[..n];
      assert (a + b)[|a + b| - 1] == b[n];
      PresentAppend(a, b[..n]);
    } else {
      assert a + b == a;
    }
  }

  method CollectModelNames(alts: seq<Option<string>>) returns (names: seq<string>)
    ensures names == Present(alts)
  {
    names := [];
    for i := 0 to |alts|
      invariant names == Present(alts[..i])
    {
      assert alts[..i + 1][..i] == alts[..i];
      if alts[i].Some? {
        names := names + [alts[i].value];
      }
    }
    assert alts[..|alts|] == alts;
  }

  // ---------------------------------------------------------------------
  // strings.Join and its inverse

  /** strings.Join. */
  function Join(xs: seq<string>, sep: string): string
    decreases |xs|
  {
    if xs == [] then ""
    else if |xs| == 1 then xs[0]
    else xs[0] + sep + Join(xs[1..], sep)
  }

  /** strings.Split on a one-character separator (the empty string splits into one empty part). */
  function Split(s: string, c: char): (r: seq<string>)
    ensures |r| >= 1
  {
    if s == [] then [""]
    else
      var rest := Split(s[1..], c);
      if s[0] == c then [""] + rest else [[s[0]] + rest[0]] + rest[1..]
  }

  lemma {:induction false} SplitWithout(x: string, c: char)
    requires c !in x
    ensures Split(x, c) == [x]
  {
    if x != [] {
      SplitWithout(x[1..], c);
      assert [x[0]] + x[1..] == x;
    }
  }

  lemma {:induction false} SplitAt(x: string, c: char, y: string)
    requires c !in x
    ensures Split(x + [c] + y, c) == [x] + Split(y, c)
  {
    if x == [] {
      assert x + [c] + y == [c] + y;
      assert ([c] + y)[1..] == y;
    } else {
      var s := x + [c] + y;
      assert s[1..] == x[1..] + [c] + y;
      SplitAt(x[1..], c, y);
      assert [x[0]] + x[1..] == x;
    }
  }

  /** Joining parts free of the separator character and splitting again gives the parts back. */
  lemma {:induction false} SplitJoin(xs: seq<string>, c: char)
    requires |xs| >= 1
    requires forall i | 0 <= i < |xs| :: c !in xs[i]
    ensures Split(Join(xs, [c]), c) == xs
  {
    if |xs| == 1 {
      SplitWithout(xs[0], c);
    } else {
      SplitJoin(xs[1..], c);
      SplitAt(xs[0], c, Join(xs[1..], [c]));
      assert xs[0] + [c] + Join(xs[1..], [c]) == Join(xs, [c]);
      assert [xs[0]] + xs[1..] == xs;
    }
  }

  // ---------------------------------------------------------------------
  // getReading (cmd/exsongs.go:346-404)

  datatype ReadingMode = Katakana | Romaji

  /** The analyser each mode asks for. */
  function AnalyzerName(mode: ReadingMode): string {
    match mode
    case Katakana => "katakana_analyzer"
    case Romaji => "romaji_analyzer"
  }

  /** settings.ElasticsearchInfo */
  const ElasticsearchInfo: string := "http://elasticsearch:9200"

  function AnalyzeUrl(mode: ReadingMode): string {
    ElasticsearchInfo + "/kuromoji_sample/_analyze" + "?analyzer=" + AnalyzerName(mode)
  }

  /** The analyser: request URL and text to the tokens of its answer; None when the request or its JSON fails. */
  type Analyzer = (string, string) -> Option<seq<string>>

  /** Every token turned from katakana to hiragana. */
  function ToHiraganaAll(tokens: seq<string>): (r: seq<string>)
    ensures |r| == |tokens|
    ensures forall i | 0 <= i < |tokens| :: r[i] == KatakanaToHiragana(tokens[i])
  {
    seq(|tokens|, i requires 0 <= i < |tokens| => KatakanaToHiragana(tokens[i]))
  }

  /**
   * The reading of `text`: its tokens, each turned from katakana to
   * hiragana (romaji tokens too), joined by spaces; the empty string when
   * the analyser fails (the caller drops the error).
   */
  function ReadingOf(analyze: Analyzer, text: string, mode: ReadingMode): string {
    match analyze(AnalyzeUrl(mode), text)
    case None => ""
    case Some(tokens) => Join(ToHiraganaAll(tokens), " ")
  }

  method GetReading(analyze: Analyzer, text: string, mode: ReadingMode) returns (r: string)
    ensures r == ReadingOf(analyze, text, mode)
  {
    var answer := analyze(AnalyzeUrl(mode), text);
    if answer.None? {
      return "";
    }
    var tokens := answer.value;
    var ret: seq<string> := [];
    for i := 0 to |tokens|
      invariant ret == ToHiraganaAll(tokens[..i])
    {
      ret := ret + [KatakanaToHiragana(tokens[i])];
    }
    assert tokens[..|tokens|] == tokens;
    r := Join(ret, " ");
  }

  /**
   * A reading splits back at its spaces into the converted tokens, when
   * there is at least one and none of them contains a space.
   */
  lemma ReadingSplitsIntoTokens(analyze: Analyzer, text: string, mode: ReadingMode)
    requires analyze(AnalyzeUrl(mode), text).Some?
    requires var tokens := analyze(AnalyzeUrl(mode), text).value;
      |tokens| >= 1 && forall i | 0 <= i < |tokens| :: ' ' !in KatakanaToHiragana(tokens[i])
    ensures Split(ReadingOf(analyze, text, mode), ' ') == ToHiraganaAll(analyze(AnalyzeUrl(mode), text).value)
  {
    SplitJoin(ToHiraganaAll(analyze(AnalyzeUrl(mode), text).value), ' ');
  }

  // ---------------------------------------------------------------------
  // getSongs (cmd/exsongs.go:241-311)

  /** What every song of a page shares: the people, their readings and the lyric. */
  datatype Shared = Shared(
    artist: string, lyricWriter: string, songWriter: string,
    artistK: string, lyricWriterK: string, songWriterK: string,
    artistR: string, lyricWriterR: string, songWriterR: string,
    lyric: string)

  function SharedOf(doc: Document, analyze: Analyzer): Shared {
    var artist := LastValue(LinkFields(doc.relations), ArtistLabel, Trim);
    var lyricWriter := LastValue(SpanFields(doc.relations), LyricWriterLabel, Trim);
    var songWriter := LastValue(SpanFields(doc.relations), SongWriterLabel, Trim);
    Shared(
      artist, lyricWriter, songWriter,
      ReadingOf(analyze, artist, Katakana), ReadingOf(analyze, lyricWriter, Katakana),
      ReadingOf(analyze, songWriter, Katakana),
      ReadingOf(analyze, artist, Romaji), ReadingOf(analyze, lyricWriter, Romaji),
      ReadingOf(analyze, songWriter, Romaji),
      Lyric(doc.lyricText))
  }

  /** The candidate song one entry describes: not yet stored (id 0) and not yet placed on a page (page 0). */
  function SongOf(sh: Shared, item: Item, analyze: Analyzer): Song {
    var name := Trim(item.title);
    var details := DetailFields(item.details);
    Song(
      id := 0, pageNumber := 0,
      artistName := sh.artist, artistNameR := sh.artistR, artistNameK := sh.artistK,
      lyricWriterName := sh.lyricWriter, lyricWriterNameK := sh.lyricWriterK, lyricWriterNameR := sh.lyricWriterR,
      songWriterName := sh.songWriter, songWriterNameK := sh.songWriterK, songWriterNameR := sh.songWriterR,
      name := name, nameK := ReadingOf(analyze, name, Katakana), nameR := ReadingOf(analyze, name, Romaji),
      number := LastValue(details, NumberLabel, Trim),
      originalKey := LastValue(details, KeyLabel, Trim),
      deliveryStatus := LastValue(details, DeliveryStatusLabel, Trim),
      modelNames := Join(Present(item.platforms), ", "),
      lyric := sh.lyric,
      deliveryTerm := LastValue(details, DeliveryTermLabel, Trim))
  }

  /** The candidates of a page, in page order. */
  function SongsOf(doc: Document, analyze: Analyzer): seq<Song> {
    var sh := SharedOf(doc, analyze);
    seq(|doc.items|, i requires 0 <= i < |doc.items| => SongOf(sh, doc.items[i], analyze))
  }

  lemma PrefixSnoc<T>(s: seq<T>, i: nat)
    requires i < |s|
    ensures s[..i + 1] == s[..i] + [s[i]]
  {}

  /** The body of getSongs' loop: one entry to one candidate. */
  method ScrapeItem(sh: Shared, item: Item, analyze: Analyzer) returns (song: Song)
    ensures song == SongOf(sh, item, analyze)
  {
    var name := Trim(item.title);
    var nameK := GetReading(analyze, name, Katakana);
    var nameR := GetReading(analyze, name, Romaji);
    var number, originalKey, deliveryStatus, deliveryTerm := ReadDetails(item.details);
    var modelNames := CollectModelNames(item.platforms);
    song := Song(
      id := 0, pageNumber := 0,
      artistName := sh.artist, artistNameR := sh.artistR, artistNameK := sh.artistK,
      lyricWriterName := sh.lyricWriter, lyricWriterNameK := sh.lyricWriterK, lyricWriterNameR := sh.lyricWriterR,
      songWriterName := sh.songWriter, songWriterNameK := sh.songWriterK, songWriterNameR := sh.songWriterR,
      name := name, nameK := nameK, nameR := nameR,
      number := number, originalKey := originalKey, deliveryStatus := deliveryStatus,
      modelNames := Join(modelNames, ", "), lyric := sh.lyric, deliveryTerm := deliveryTerm);
  }

  /** The first half of getSongs: the people and the lyric, read once, and their readings. */
  method ReadShared(doc: Document, analyze: Analyzer) returns (sh: Shared)
    ensures sh == SharedOf(doc, analyze)
  {
    var artist, lyricWriter, songWriter := GetSongRelationName(doc.relations);
    var lyric := Lyric(doc.lyricText);
    var artistK := GetReading(analyze, artist, Katakana);
    var lyricWriterK := GetReading(analyze, lyricWriter, Katakana);
    var songWriterK := GetReading(analyze, songWriter, Katakana);
    var artistR := GetReading(analyze, artist, Romaji);
    var lyricWriterR := GetReading(analyze, lyricWriter, Romaji);
    var songWriterR := GetReading(analyze, songWriter, Romaji);
    sh := Shared(
      artist, lyricWriter, songWriter, artistK, lyricWriterK, songWriterK,
      artistR, lyricWriterR, songWriterR, lyric);
  }

  /**
   * getSongs: read the people and lyric once, ask for their readings, then
   * turn each entry of the list into a candidate, in page order.
   */
  method GetSongs(doc: Document, analyze: Analyzer) returns (songs: seq<Song>)
    ensures songs == SongsOf(doc, analyze)
  {
    var sh := ReadShared(doc, analyze);
    ghost var all := SongsOf(doc, analyze);
    songs := [];
    for i := 0 to |doc.items|
      invariant songs == all[..i]
    {
      var song := ScrapeItem(sh, doc.items[i], analyze);
      PrefixSnoc(all, i);
      songs := songs + [song];
    }
    assert all[..|doc.items|] == all;
  }

  /** The shared part of a page: its people as labelled, and every text normalised. */
  lemma SharedFacts(doc: Document, analyze: Analyzer)
    ensures var sh := SharedOf(doc, analyze);
      && sh.artist == LastValue(LinkFields(doc.relations), ArtistLabel, Trim)
      && sh.lyricWriter == LastValue(SpanFields(doc.relations), LyricWriterLabel, Trim)
      && sh.songWriter == LastValue(SpanFields(doc.relations), SongWriterLabel, Trim)
      && sh.lyric == Lyric(doc.lyricText)
      && Normalized(sh.artist) && Normalized(sh.lyricWriter) && Normalized(sh.songWriter)
      && Normalized(sh.lyric)
  {
    LastValueNormalized(LinkFields(doc.relations), ArtistLabel);
    LastValueNormalized(SpanFields(doc.relations), LyricWriterLabel);
    LastValueNormalized(SpanFields(doc.relations), SongWriterLabel);
    TrimNormalized(NewlinesToSpaces(doc.lyricText));
  }

  /**
   * A candidate is unstored and unplaced, so CanCreate refuses it until the
   * crawler sets its page; it carries the shared part unchanged, and its own
   * trimmed texts are normalised.
   */
  lemma CandidateFacts(sh: Shared, item: Item, analyze: Analyzer)
    ensures var song := SongOf(sh, item, analyze);
      && song.id == 0 && song.pageNumber == 0 && !song.CanCreate()
      && song.artistName == sh.artist && song.lyricWriterName == sh.lyricWriter
      && song.songWriterName == sh.songWriter && song.lyric == sh.lyric
      && Normalized(song.name) && Normalized(song.number) && Normalized(song.originalKey)
      && Normalized(song.deliveryStatus) && Normalized(song.deliveryTerm)
  {
    var details := DetailFields(item.details);
    TrimNormalized(item.title);
    LastValueNormalized(details, NumberLabel);
    LastValueNormalized(details, KeyLabel);
    LastValueNormalized(details, DeliveryStatusLabel);
    LastValueNormalized(details, DeliveryTermLabel);
  }

  /**
   * Every candidate of a page carries the page's artist, writers and lyric,
   * is unstored and unplaced, and all its trimmed texts are normalised.
   */
  lemma ScrapedSongs(doc: Document, analyze: Analyzer)
    ensures var songs := SongsOf(doc, analyze);
      forall i | 0 <= i < |songs| ::
        && songs[i].id == 0 && songs[i].pageNumber == 0 && !songs[i].CanCreate()
        && songs[i].artistName == LastValue(LinkFields(doc.relations), ArtistLabel, Trim)
        && songs[i].lyricWriterName == LastValue(SpanFields(doc.relations), LyricWriterLabel, Trim)
        && songs[i].songWriterName == LastValue(SpanFields(doc.relations), SongWriterLabel, Trim)
        && songs[i].lyric == Lyric(doc.lyricText)
        && Normalized(songs[i].artistName) && Normalized(songs[i].name) && Normalized(songs[i].number)
        && Normalized(songs[i].originalKey) && Normalized(songs[i].deliveryStatus)
        && Normalized(songs[i].deliveryTerm) && Normalized(songs[i].lyric)
  {
    var sh := SharedOf(doc, analyze);
    var songs := SongsOf(doc, analyze);
    SharedFacts(doc, analyze);
    forall i | 0 <= i < |songs| {
      CandidateFacts(sh, doc.items[i], analyze);
    }
  }

  /** A labelled value is trimmed, hence normalised. */
  lemma LastValueNormalized(fields: seq<Field>, tag: string)
    ensures Normalized(LastValue(fields, tag, Trim))
  {
    LastValueSpec(fields, tag, Trim);
    if exists k | 0 <= k < |fields| :: Labelled(fields[k], tag, Trim) {
      var k :| 0 <= k < |fields| && Labelled(fields[k], tag, Trim) && LastValue(fields, tag, Trim) == Trim(fields[k].value);
      TrimNormalized(fields[k].value);
    }
  }

  // ---------------------------------------------------------------------
  // getDoc (cmd/exsongs.go:406-421)

  /** settings.SplashInfo and settings.SongsInfo */
  const SplashInfo: string := "http://splash:8050/render.html"
  const SongsInfo: string := "https://www.joysound.com/web/search/song/"

  function Digit(d: nat): (c: char)
    requires d < 10
    ensures '0' <= c <= '9' && c as int - '0' as int == d
  {
    ('0' as int + d) as char
  }

  /** strconv.Itoa on a non-negative number. */
  function DecimalString(n: nat): (r: string)
    ensures r != []
    ensures forall i | 0 <= i < |r| :: '0' <= r[i] <= '9'
    ensures r[0] == '0' ==> r == "0"
  {
    if n < 10 then [Digit(n)] else DecimalString(n / 10) + [Digit(n % 10)]
  }

  /** The value of a string of decimal digits. */
  function DecimalValue(s: string): nat
    requires forall i | 0 <= i < |s| :: '0' <= s[i] <= '9'
  {
    if s == [] then 0
    else DecimalValue(s[..|s| - 1]) * 10 + (s[|s| - 1] as int - '0' as int)
  }

  lemma {:induction false} DecimalRoundTrip(n: nat)
    ensures DecimalValue(DecimalString(n)) == n
  {
    if n >= 10 {
      DecimalRoundTrip(n / 10);
      var s := DecimalString(n);
      assert s[..|s| - 1] == DecimalString(n / 10);
    }
  }

  /** The Splash render request for one catalogue page. */
  function PageUrl(page: nat): string {
    SplashInfo + "?url=" + SongsInfo + DecimalString(page) + "&images=0"
  }

  /** Different pages are asked for under different URLs. */
  lemma PageUrlInjective(a: nat, b: nat)
    requires PageUrl(a) == PageUrl(b)
    ensures a == b
  {
    var prefix := SplashInfo + "?url=" + SongsInfo;
    var da, db := DecimalString(a), DecimalString(b);
    assert PageUrl(a) == prefix + da + "&images=0";
    assert |da| == |db|;
    assert da == PageUrl(a)[|prefix|..|prefix| + |da|];
    assert db == PageUrl(b)[|prefix|..|prefix| + |db|];
    DecimalRoundTrip(a);
    DecimalRoundTrip(b);
  }

  /** The page fetch: render-request URL to the parsed page, None on a transport error. */
  type Fetcher = string -> Option<Document>
}
