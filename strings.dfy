/**
 * Character normalisation of utils/strings.go.
 *
 * Every conversion there is a fixed old/new table handed to Go's
 * strings.NewReplacer and applied with Replacer.Replace: the string is
 * scanned left to right, at each position the FIRST pair in argument order
 * whose old text starts there is replaced, and scanning resumes after it
 * (matches never overlap); where nothing matches, one character is copied.
 * `Replace` below is that semantics over `seq<char>`.
 *
 * The tables are written as concatenations of short chunks that follow the
 * source's line groups (a chunk comment gives its lines); the facts about
 * each table are proved chunk by chunk and lifted by the concatenation
 * lemmas.
 */
module Strings {

  /** One old/new pair of a strings.Replacer. */
  datatype Rule = Rule(from: string, to: string)

  /** The non-empty pattern `p` occurs at the start of `s`. */
  predicate Matches(s: string, p: string) {
    p != [] && |p| <= |s| && s[..|p|] == p
  }

  /**
   * The index of the first rule, in argument order, whose pattern starts
   * `s`, or -1 when none does.
   */
  function FirstMatch(rules: seq<Rule>, s: string): (k: int)
    ensures -1 <= k < |rules|
    ensures 0 <= k ==> Matches(s, rules[k].from)
  {
    if rules == [] then -1
    else if Matches(s, rules[0].from) then 0
    else
      var k := FirstMatch(rules[1..], s);
      if k < 0 then -1 else k + 1
  }

  /** No rule before the one FirstMatch picks matches (none at all when it picks none). */
  lemma {:induction false} FirstMatchIsFirst(rules: seq<Rule>, s: string)
    ensures forall j | 0 <= j < |rules| && (FirstMatch(rules, s) < 0 || j < FirstMatch(rules, s)) ::
      !Matches(s, rules[j].from)
  {
    if rules != [] && !Matches(s, rules[0].from) {
      FirstMatchIsFirst(rules[1..], s);
      forall j | 1 <= j < |rules| ensures rules[j] == rules[1..][j - 1] {}
    }
  }

  /** Replacer.Replace: left to right, non-overlapping, first pattern in argument order wins. */
  function Replace(rules: seq<Rule>, s: string): string
    decreases |s|
  {
    if s == [] then []
    else
      var k := FirstMatch(rules, s);
      if k < 0 then [s[0]] + Replace(rules, s[1..])
      else rules[k].to + Replace(rules, s[|rules[k].from|..])
  }

  /** Searching a concatenated table is searching its first part, then its second. */
  lemma FirstMatchAppend(a: seq<Rule>, b: seq<Rule>, s: string)
    ensures FirstMatch(a + b, s) ==
      if FirstMatch(a, s) >= 0 then FirstMatch(a, s)
      else if FirstMatch(b, s) >= 0 then |a| + FirstMatch(b, s)
      else -1
  {
    var k, ka, kb := FirstMatch(a + b, s), FirstMatch(a, s), FirstMatch(b, s);
    FirstMatchIsFirst(a + b, s);
    FirstMatchIsFirst(a, s);
    FirstMatchIsFirst(b, s);
    forall j | 0 <= j < |a| ensures (a + b)[j] == a[j] {}
    forall j | 0 <= j < |b| ensures (a + b)[|a| + j] == b[j] {}
    if ka >= 0 {
      assert Matches(s, (a + b)[ka].from);
    } else if kb >= 0 {
      assert Matches(s, (a + b)[|a| + kb].from);
    }
  }

  // ---------------------------------------------------------------------
  // Tables whose patterns are single characters

  /** Some rule has exactly the one-character pattern `c`. */
  ghost predicate HasPattern(rules: seq<Rule>, c: char) {
    exists k | 0 <= k < |rules| :: rules[k].from == [c]
  }

  /** Every pattern is one character long. */
  ghost predicate SingleChar(rules: seq<Rule>) {
    forall k | 0 <= k < |rules| :: |rules[k].from| == 1
  }

  /** `r` is what the first rule with pattern `c` writes, or `c` itself when there is none. */
  ghost predicate LooksUp(rules: seq<Rule>, c: char, r: string) {
    && (HasPattern(rules, c) ==>
          exists k | 0 <= k < |rules| ::
            && rules[k].from == [c] && r == rules[k].to
            && (forall j | 0 <= j < k :: rules[j].from != [c]))
    && (!HasPattern(rules, c) ==> r == [c])
  }

  /** What a table of one-character patterns turns the character `c` into. */
  function Lookup(rules: seq<Rule>, c: char): (r: string)
    ensures LooksUp(rules, c, r)
  {
    if rules == [] then [c]
    else if rules[0].from == [c] then rules[0].to
    else
      var r := Lookup(rules[1..], c);
      LooksUpTail(rules, c, r);
      r
  }

  lemma LooksUpTail(rules: seq<Rule>, c: char, r: string)
    requires rules != [] && rules[0].from != [c]
    requires LooksUp(rules[1..], c, r)
    ensures LooksUp(rules, c, r)
  {
    if HasPattern(rules, c) {
      var k :| 0 <= k < |rules| && rules[k].from == [c];
      assert rules[1..][k - 1] == rules[k];
      var k' :| 0 <= k' < |rules[1..]| && rules[1..][k'].from == [c] && r == rules[1..][k'].to &&
        forall j | 0 <= j < k' :: rules[1..][j].from != [c];
      assert rules[k' + 1] == rules[1..][k'];
      forall j | 0 <= j < k' + 1 ensures rules[j].from != [c] {
        if j > 0 { assert rules[j] == rules[1..][j - 1]; }
      }
    } else {
      forall k | 0 <= k < |rules[1..]| ensures rules[1..][k].from != [c] {
        assert rules[1..][k] == rules[k + 1];
      }
    }
  }

  /** With one-character patterns, Replace works character by character. */
  lemma ReplaceStep(rules: seq<Rule>, s: string)
    requires SingleChar(rules) && s != []
    ensures Replace(rules, s) == Lookup(rules, s[0]) + Replace(rules, s[1..])
  {
    var k := FirstMatch(rules, s);
    FirstMatchIsFirst(rules, s);
    if k >= 0 {
      assert rules[k].from == [s[0]];
      assert HasPattern(rules, s[0]);
      var j :| 0 <= j < |rules| && rules[j].from == [s[0]] && Lookup(rules, s[0]) == rules[j].to &&
        forall i | 0 <= i < j :: rules[i].from != [s[0]];
      assert Matches(s, rules[j].from);
      assert j == k;
    } else {
      forall j | 0 <= j < |rules| ensures rules[j].from != [s[0]] {
        assert !Matches(s, rules[j].from);
      }
    }
  }

  /**
   * Every rule maps one character to one character whose code point is
   * `off` away.
   */
  ghost predicate Shifts(rules: seq<Rule>, off: int) {
    forall k | 0 <= k < |rules| ::
      |rules[k].from| == 1 && |rules[k].to| == 1 && rules[k].to[0] as int == rules[k].from[0] as int + off
  }

  /** A shifting table moves exactly the characters it has a pattern for, and keeps the length. */
  lemma {:induction false} ReplaceShifts(rules: seq<Rule>, off: int, s: string)
    requires Shifts(rules, off)
    ensures |Replace(rules, s)| == |s|
    ensures forall i | 0 <= i < |s| ::
      Replace(rules, s)[i] as int == if HasPattern(rules, s[i]) then s[i] as int + off else s[i] as int
  {
    assert SingleChar(rules);
    if s != [] {
      ReplaceStep(rules, s);
      ReplaceShifts(rules, off, s[1..]);
      var r := Replace(rules, s);
      forall i | 0 <= i < |s|
        ensures r[i] as int == if HasPattern(rules, s[i]) then s[i] as int + off else s[i] as int
      {
        if i > 0 { assert s[1..][i - 1] == s[i]; }
      }
    }
  }

  /** The patterns of a table are the consecutive code points from `base`. */
  ghost predicate Spans(rules: seq<Rule>, base: int) {
    forall k | 0 <= k < |rules| :: |rules[k].from| == 1 && rules[k].from[0] as int == base + k
  }

  lemma SpansPatterns(rules: seq<Rule>, base: int, c: char)
    requires Spans(rules, base)
    ensures HasPattern(rules, c) <==> base <= c as int < base + |rules|
  {
    if base <= c as int < base + |rules| {
      var k := c as int - base;
      assert rules[k].from == [c];
    }
  }

  lemma HasPatternAppend(a: seq<Rule>, b: seq<Rule>, c: char)
    ensures HasPattern(a + b, c) <==> HasPattern(a, c) || HasPattern(b, c)
  {
    if HasPattern(a, c) {
      var k :| 0 <= k < |a| && a[k].from == [c];
      assert (a + b)[k] == a[k];
    }
    if HasPattern(b, c) {
      var k :| 0 <= k < |b| && b[k].from == [c];
      assert (a + b)[|a| + k] == b[k];
    }
    if HasPattern(a + b, c) {
      var k :| 0 <= k < |a + b| && (a + b)[k].from == [c];
      if k < |a| { assert a[k] == (a + b)[k]; } else { assert b[k - |a|] == (a + b)[k]; }
    }
  }

  // ---------------------------------------------------------------------
  // Where the characters of a replacement come from

  /** `c` occurs in the replacement text of some rule. */
  ghost predicate Emits(rules: seq<Rule>, c: char) {
    exists k, m | 0 <= k < |rules| && 0 <= m < |rules[k].to| :: rules[k].to[m] == c
  }

  /**
   * Each character of the output is either written by some rule or copied
   * from the input, and a copied character has no one-character rule (that
   * rule would have matched).
   */
  lemma {:induction false} ReplaceOrigins(rules: seq<Rule>, s: string)
    ensures forall i | 0 <= i < |Replace(rules, s)| ::
      Emits(rules, Replace(rules, s)[i]) ||
      (Replace(rules, s)[i] in s && !HasPattern(rules, Replace(rules, s)[i]))
    decreases |s|
  {
    if s != [] {
      var r := Replace(rules, s);
      var k := FirstMatch(rules, s);
      FirstMatchIsFirst(rules, s);
      if k < 0 {
        var t := s[1..];
        ReplaceOrigins(rules, t);
        assert r == [s[0]] + Replace(rules, t);
        forall j | 0 <= j < |rules| ensures rules[j].from != [s[0]] {
          assert !Matches(s, rules[j].from);
        }
        forall i | 0 <= i < |r| ensures Emits(rules, r[i]) || (r[i] in s && !HasPattern(rules, r[i])) {
          if i > 0 {
            assert r[i] == Replace(rules, t)[i - 1];
            assert forall c | c in t :: c in s;
          }
        }
      } else {
        var t := s[|rules[k].from|..];
        ReplaceOrigins(rules, t);
        assert r == rules[k].to + Replace(rules, t);
        forall i | 0 <= i < |r| ensures Emits(rules, r[i]) || (r[i] in s && !HasPattern(rules, r[i])) {
          if i < |rules[k].to| {
            assert rules[k].to[i] == r[i];
          } else {
            assert r[i] == Replace(rules, t)[i - |rules[k].to|];
            assert forall c | c in t :: c in s;
          }
        }
      }
    }
  }

  lemma EmitsAppend(a: seq<Rule>, b: seq<Rule>, c: char)
    requires Emits(a + b, c)
    ensures Emits(a, c) || Emits(b, c)
  {
    var k, m :| 0 <= k < |a + b| && 0 <= m < |(a + b)[k].to| && (a + b)[k].to[m] == c;
    if k < |a| { assert a[k] == (a + b)[k]; } else { assert b[k - |a|] == (a + b)[k]; }
  }


  // ---------------------------------------------------------------------
  // Character classes

  /** Go's unicode.IsSpace, which strings.TrimSpace strips. */
  predicate IsSpace(c: char) {
    || c == '\t' || c == '\n' || c == '\U{000B}' || c == '\U{000C}' || c == '\r' || c == ' '
    || c == '\U{0085}' || c == '\U{00A0}' || c == '\U{1680}' || '\U{2000}' <= c <= '\U{200A}'
    || c == '\U{2028}' || c == '\U{2029}' || c == '\U{202F}' || c == '\U{205F}' || c == '\U{3000}'
  }

  predicate IsFullWidthDigit(c: char) { '０' <= c <= '９' }
  predicate IsFullWidthLower(c: char) { 'ａ' <= c <= 'ｚ' }
  predicate IsFullWidthUpper(c: char) { 'Ａ' <= c <= 'Ｚ' }
  predicate IsFullWidthLetter(c: char) { IsFullWidthLower(c) || IsFullWidthUpper(c) }
  /** The full-width forms of ASCII punctuation, U+FF01 to U+FF5E minus digits and letters. */
  predicate IsFullWidthSymbol(c: char) {
    '！' <= c <= '／' || '：' <= c <= '＠' || '［' <= c <= '｀' || '｛' <= c <= '～'
  }
  /** The whole full-width ASCII block, U+FF01 to U+FF5E. */
  predicate IsFullWidthForm(c: char) { '！' <= c <= '～' }
  /** The half-width katakana block, U+FF61 to U+FF9F. */
  predicate IsHalfWidthKana(c: char) { '｡' <= c <= 'ﾟ' }
  /** The CJK punctuation and katakana blocks past the ideographic space, and the full-width quote. */
  predicate IsKanaOutput(c: char) { '、' <= c <= 'ヿ' || c == '＂' }

  /** The ASCII character a full-width form stands for. */
  function Narrow(c: char): (r: char)
    requires IsFullWidthForm(c)
    ensures '!' <= r <= '~'
  {
    (c as int - 0xFEE0) as char
  }

  // ---------------------------------------------------------------------
  // The tables, as written in utils/strings.go

  // utils/strings.go:14-17 (a second pair is commented out there)
  const SpaceRules: seq<Rule> := [Rule("　", " ")]

  // utils/strings.go:19-24
  const NumberRules: seq<Rule> := [
    Rule("０", "0"), Rule("１", "1"), Rule("２", "2"),
    Rule("３", "3"), Rule("４", "4"), Rule("５", "5"),
    Rule("６", "6"), Rule("７", "7"), Rule("８", "8"),
    Rule("９", "9")
  ]

  // utils/strings.go:27-28
  const LowerAToH: seq<Rule> := [
    Rule("ａ", "a"), Rule("ｂ", "b"), Rule("ｃ", "c"), Rule("ｄ", "d"),
    Rule("ｅ", "e"), Rule("ｆ", "f"), Rule("ｇ", "g"), Rule("ｈ", "h")
  ]

  // utils/strings.go:29-30
  const LowerIToP: seq<Rule> := [
    Rule("ｉ", "i"), Rule("ｊ", "j"), Rule("ｋ", "k"), Rule("ｌ", "l"),
    Rule("ｍ", "m"), Rule("ｎ", "n"), Rule("ｏ", "o"), Rule("ｐ", "p")
  ]

  // utils/strings.go:31-32
  const LowerQToX: seq<Rule> := [
    Rule("ｑ", "q"), Rule("ｒ", "r"), Rule("ｓ", "s"), Rule("ｔ", "t"),
    Rule("ｕ", "u"), Rule("ｖ", "v"), Rule("ｗ", "w"), Rule("ｘ", "x")
  ]

  // utils/strings.go:33
  const LowerYToZ: seq<Rule> := [Rule("ｙ", "y"), Rule("ｚ", "z")]

  // utils/strings.go:35-36
  const UpperAToH: seq<Rule> := [
    Rule("Ａ", "A"), Rule("Ｂ", "B"), Rule("Ｃ", "C"), Rule("Ｄ", "D"),
    Rule("Ｅ", "E"), Rule("Ｆ", "F"), Rule("Ｇ", "G"), Rule("Ｈ", "H")
  ]

  // utils/strings.go:37-38
  const UpperIToP: seq<Rule> := [
    Rule("Ｉ", "I"), Rule("Ｊ", "J"), Rule("Ｋ", "K"), Rule("Ｌ", "L"),
    Rule("Ｍ", "M"), Rule("Ｎ", "N"), Rule("Ｏ", "O"), Rule("Ｐ", "P")
  ]

  // utils/strings.go:39-40
  const UpperQToX: seq<Rule> := [
    Rule("Ｑ", "Q"), Rule("Ｒ", "R"), Rule("Ｓ", "S"), Rule("Ｔ", "T"),
    Rule("Ｕ", "U"), Rule("Ｖ", "V"), Rule("Ｗ", "W"), Rule("Ｘ", "X")
  ]

  // utils/strings.go:41
  const UpperYToZ: seq<Rule> := [Rule("Ｙ", "Y"), Rule("Ｚ", "Z")]

  const LowerRules: seq<Rule> := LowerAToH + LowerIToP + LowerQToX + LowerYToZ
  const UpperRules: seq<Rule> := UpperAToH + UpperIToP + UpperQToX + UpperYToZ
  // utils/strings.go:26-42
  const AlphabetRules: seq<Rule> := LowerRules + UpperRules

  // utils/strings.go:45-46
  const HalfWidthVoicedVuKa: seq<Rule> := [
    Rule("ｳﾞ", "ヴ"), Rule("ｶﾞ", "ガ"), Rule("ｷﾞ", "ギ"), Rule("ｸﾞ", "グ"), Rule("ｹﾞ", "ゲ"),
    Rule("ｺﾞ", "ゴ")
  ]

  // utils/strings.go:47-48
  const HalfWidthVoicedSaTa: seq<Rule> := [
    Rule("ｻﾞ", "ザ"), Rule("ｼﾞ", "ジ"), Rule("ｽﾞ", "ズ"), Rule("ｾﾞ", "ゼ"), Rule("ｿﾞ", "ゾ"),
    Rule("ﾀﾞ", "ダ"), Rule("ﾁﾞ", "ヂ"), Rule("ﾂﾞ", "ヅ"), Rule("ﾃﾞ", "デ"), Rule("ﾄﾞ", "ド")
  ]

  // utils/strings.go:49-50
  const HalfWidthVoicedHaPa: seq<Rule> := [
    Rule("ﾊﾞ", "バ"), Rule("ﾋﾞ", "ビ"), Rule("ﾌﾞ", "ブ"), Rule("ﾍﾞ", "ベ"), Rule("ﾎﾞ", "ボ"),
    Rule("ﾊﾟ", "パ"), Rule("ﾋﾟ", "ピ"), Rule("ﾌﾟ", "プ"), Rule("ﾍﾟ", "ペ"), Rule("ﾎﾟ", "ポ")
  ]

  // utils/strings.go:52-53
  const HalfWidthKanaAKa: seq<Rule> := [
    Rule("ｱ", "ア"), Rule("ｲ", "イ"), Rule("ｳ", "ウ"), Rule("ｴ", "エ"), Rule("ｵ", "オ"),
    Rule("ｶ", "カ"), Rule("ｷ", "キ"), Rule("ｸ", "ク"), Rule("ｹ", "ケ"), Rule("ｺ", "コ")
  ]

  // utils/strings.go:54-55
  const HalfWidthKanaSaTa: seq<Rule> := [
    Rule("ｻ", "サ"), Rule("ｼ", "シ"), Rule("ｽ", "ス"), Rule("ｾ", "セ"), Rule("ｿ", "ソ"),
    Rule("ﾀ", "タ"), Rule("ﾁ", "チ"), Rule("ﾂ", "ツ"), Rule("ﾃ", "テ"), Rule("ﾄ", "ト")
  ]

  // utils/strings.go:56-57
  const HalfWidthKanaNaHa: seq<Rule> := [
    Rule("ﾅ", "ナ"), Rule("ﾆ", "ニ"), Rule("ﾇ", "ヌ"), Rule("ﾈ", "ネ"), Rule("ﾉ", "ノ"),
    Rule("ﾊ", "ハ"), Rule("ﾋ", "ヒ"), Rule("ﾌ", "フ"), Rule("ﾍ", "ヘ"), Rule("ﾎ", "ホ")
  ]

  // utils/strings.go:58-59
  const HalfWidthKanaMaYa: seq<Rule> := [
    Rule("ﾏ", "マ"), Rule("ﾐ", "ミ"), Rule("ﾑ", "ム"), Rule("ﾒ", "メ"), Rule("ﾓ", "モ"),
    Rule("ﾔ", "ヤ"), Rule("ﾕ", "ユ"), Rule("ﾖ", "ヨ")
  ]

  // utils/strings.go:60-61
  const HalfWidthKanaRaWa: seq<Rule> := [
    Rule("ﾗ", "ラ"), Rule("ﾘ", "リ"), Rule("ﾙ", "ル"), Rule("ﾚ", "レ"), Rule("ﾛ", "ロ"),
    Rule("ﾜ", "ワ"), Rule("ｦ", "ヲ"), Rule("ﾝ", "ン")
  ]

  // utils/strings.go:62-64
  const HalfWidthKanaSmall: seq<Rule> := [
    Rule("ｧ", "ァ"), Rule("ｨ", "ィ"), Rule("ｩ", "ゥ"), Rule("ｪ", "ェ"), Rule("ｫ", "ォ"),
    Rule("ｬ", "ャ"), Rule("ｭ", "ュ"), Rule("ｮ", "ョ"), Rule("ｯ", "ッ")
  ]

  // utils/strings.go:66-73
  const HalfWidthKanaMarks: seq<Rule> := [
    Rule("ｰ", "ー"),
    Rule("ﾞ", "＂"),
    Rule("ﾟ", ""),
    Rule("｡", "。"),
    Rule("｢", "「"),
    Rule("｣", "」"),
    Rule("､", "、"),
    Rule("･", "・")
  ]

  const VoicedKanaRules: seq<Rule> := HalfWidthVoicedVuKa + HalfWidthVoicedSaTa + HalfWidthVoicedHaPa
  const GojuonKanaRules: seq<Rule> := HalfWidthKanaAKa + HalfWidthKanaSaTa + HalfWidthKanaNaHa + HalfWidthKanaMaYa
  const PlainKanaRules: seq<Rule> := GojuonKanaRules + HalfWidthKanaRaWa + HalfWidthKanaSmall + HalfWidthKanaMarks
  // utils/strings.go:44-74
  const KanaRules: seq<Rule> := VoicedKanaRules + PlainKanaRules

  // utils/strings.go:77-84
  const SymbolsA: seq<Rule> := [
    Rule("！", "!"),
    Rule("＂", "\""),
    Rule("＃", "#"),
    Rule("＄", "$"),
    Rule("％", "%"),
    Rule("＆", "&"),
    Rule("＇", "'"),
    Rule("（", "(")
  ]

  // utils/strings.go:85-91
  const SymbolsB: seq<Rule> := [
    Rule("）", ")"),
    Rule("＊", "*"),
    Rule("＋", "+"),
    Rule("，", ","),
    Rule("－", "-"),
    Rule("．", "."),
    Rule("／", "/")
  ]

  // utils/strings.go:92-98
  const SymbolsC: seq<Rule> := [
    Rule("：", ":"),
    Rule("；", ";"),
    Rule("＜", "<"),
    Rule("＝", "="),
    Rule("＞", ">"),
    Rule("？", "?"),
    Rule("＠", "@")
  ]

  // utils/strings.go:99-104
  const SymbolsD: seq<Rule> := [
    Rule("［", "["),
    Rule("＼", "\\"),
    Rule("］", "]"),
    Rule("＾", "^"),
    Rule("＿", "_"),
    Rule("｀", "`")
  ]

  // utils/strings.go:105-108
  const SymbolsE: seq<Rule> := [
    Rule("｛", "{"),
    Rule("｜", "|"),
    Rule("｝", "}"),
    Rule("～", "~")
  ]

  // utils/strings.go:76-109
  const SymbolRules: seq<Rule> := SymbolsA + SymbolsB + SymbolsC + SymbolsD + SymbolsE

  // utils/strings.go:112-113
  const HiraganaVoicedVuKa: seq<Rule> := [
    Rule("ゔ", "ヴ"), Rule("が", "ガ"), Rule("ぎ", "ギ"), Rule("ぐ", "グ"), Rule("げ", "ゲ"),
    Rule("ご", "ゴ")
  ]

  // utils/strings.go:114-115
  const HiraganaVoicedSaTa: seq<Rule> := [
    Rule("ざ", "ザ"), Rule("じ", "ジ"), Rule("ず", "ズ"), Rule("ぜ", "ゼ"), Rule("ぞ", "ゾ"),
    Rule("だ", "ダ"), Rule("ぢ", "ヂ"), Rule("づ", "ヅ"), Rule("で", "デ"), Rule("ど", "ド")
  ]

  // utils/strings.go:116-117
  const HiraganaVoicedHaPa: seq<Rule> := [
    Rule("ば", "バ"), Rule("び", "ビ"), Rule("ぶ", "ブ"), Rule("べ", "ベ"), Rule("ぼ", "ボ"),
    Rule("ぱ", "パ"), Rule("ぴ", "ピ"), Rule("ぷ", "プ"), Rule("ぺ", "ペ"), Rule("ぽ", "ポ")
  ]

  // utils/strings.go:119-120
  const HiraganaAKa: seq<Rule> := [
    Rule("あ", "ア"), Rule("い", "イ"), Rule("う", "ウ"), Rule("え", "エ"), Rule("お", "オ"),
    Rule("か", "カ"), Rule("き", "キ"), Rule("く", "ク"), Rule("け", "ケ"), Rule("こ", "コ")
  ]

  // utils/strings.go:121-122
  const HiraganaSaTa: seq<Rule> := [
    Rule("さ", "サ"), Rule("し", "シ"), Rule("す", "ス"), Rule("せ", "セ"), Rule("そ", "ソ"),
    Rule("た", "タ"), Rule("ち", "チ"), Rule("つ", "ツ"), Rule("て", "テ"), Rule("と", "ト")
  ]

  // utils/strings.go:123-124
  const HiraganaNaHa: seq<Rule> := [
    Rule("な", "ナ"), Rule("に", "ニ"), Rule("ぬ", "ヌ"), Rule("ね", "ネ"), Rule("の", "ノ"),
    Rule("は", "ハ"), Rule("ひ", "ヒ"), Rule("ふ", "フ"), Rule("へ", "ヘ"), Rule("ほ", "ホ")
  ]

  // utils/strings.go:125-126
  const HiraganaMaYa: seq<Rule> := [
    Rule("ま", "マ"), Rule("み", "ミ"), Rule("む", "ム"), Rule("め", "メ"), Rule("も", "モ"),
    Rule("や", "ヤ"), Rule("ゆ", "ユ"), Rule("よ", "ヨ")
  ]

  // utils/strings.go:127-128
  const HiraganaRaWa: seq<Rule> := [
    Rule("ら", "ラ"), Rule("り", "リ"), Rule("る", "ル"), Rule("れ", "レ"), Rule("ろ", "ロ"),
    Rule("わ", "ワ"), Rule("を", "ヲ"), Rule("ん", "ン")
  ]

  // utils/strings.go:129-131
  const HiraganaSmall: seq<Rule> := [
    Rule("ぁ", "ァ"), Rule("ぃ", "ィ"), Rule("ぅ", "ゥ"), Rule("ぇ", "ェ"), Rule("ぉ", "ォ"),
    Rule("ゃ", "ャ"), Rule("ゅ", "ュ"), Rule("ょ", "ョ"), Rule("っ", "ッ")
  ]

  // utils/strings.go:111-132
  const HiraganaRules: seq<Rule> :=
    HiraganaVoicedVuKa + HiraganaVoicedSaTa + HiraganaVoicedHaPa + HiraganaAKa + HiraganaSaTa +
    HiraganaNaHa + HiraganaMaYa + HiraganaRaWa + HiraganaSmall

  // utils/strings.go:135-136
  const KatakanaVoicedVuKa: seq<Rule> := [
    Rule("ヴ", "ゔ"), Rule("ガ", "が"), Rule("ギ", "ぎ"), Rule("グ", "ぐ"), Rule("ゲ", "げ"),
    Rule("ゴ", "ご")
  ]

  // utils/strings.go:137-138
  const KatakanaVoicedSaTa: seq<Rule> := [
    Rule("ザ", "ざ"), Rule("ジ", "じ"), Rule("ズ", "ず"), Rule("ゼ", "ぜ"), Rule("ゾ", "ぞ"),
    Rule("ダ", "だ"), Rule("ヂ", "ぢ"), Rule("ヅ", "づ"), Rule("デ", "で"), Rule("ド", "ど")
  ]

  // utils/strings.go:139-140
  const KatakanaVoicedHaPa: seq<Rule> := [
    Rule("バ", "ば"), Rule("ビ", "び"), Rule("ブ", "ぶ"), Rule("ベ", "べ"), Rule("ボ", "ぼ"),
    Rule("パ", "ぱ"), Rule("ピ", "ぴ"), Rule("プ", "ぷ"), Rule("ペ", "ぺ"), Rule("ポ", "ぽ")
  ]

  // utils/strings.go:142-143
  const KatakanaAKa: seq<Rule> := [
    Rule("ア", "あ"), Rule("イ", "い"), Rule("ウ", "う"), Rule("エ", "え"), Rule("オ", "お"),
    Rule("カ", "か"), Rule("キ", "き"), Rule("ク", "く"), Rule("ケ", "け"), Rule("コ", "こ")
  ]

  // utils/strings.go:144-145
  const KatakanaSaTa: seq<Rule> := [
    Rule("サ", "さ"), Rule("シ", "し"), Rule("ス", "す"), Rule("セ", "せ"), Rule("ソ", "そ"),
    Rule("タ", "た"), Rule("チ", "ち"), Rule("ツ", "つ"), Rule("テ", "て"), Rule("ト", "と")
  ]

  // utils/strings.go:146-147
  const KatakanaNaHa: seq<Rule> := [
    Rule("ナ", "な"), Rule("ニ", "に"), Rule("ヌ", "ぬ"), Rule("ネ", "ね"), Rule("ノ", "の"),
    Rule("ハ", "は"), Rule("ヒ", "ひ"), Rule("フ", "ふ"), Rule("ヘ", "へ"), Rule("ホ", "ほ")
  ]

  // utils/strings.go:148-149
  const KatakanaMaYa: seq<Rule> := [
    Rule("マ", "ま"), Rule("ミ", "み"), Rule("ム", "む"), Rule("メ", "め"), Rule("モ", "も"),
    Rule("ヤ", "や"), Rule("ユ", "ゆ"), Rule("ヨ", "よ")
  ]

  // utils/strings.go:150-151
  const KatakanaRaWa: seq<Rule> := [
    Rule("ラ", "ら"), Rule("リ", "り"), Rule("ル", "る"), Rule("レ", "れ"), Rule("ロ", "ろ"),
    Rule("ワ", "わ"), Rule("ヲ", "を"), Rule("ン", "ん")
  ]

  // utils/strings.go:152-154
  const KatakanaSmall: seq<Rule> := [
    Rule("ァ", "ぁ"), Rule("ィ", "ぃ"), Rule("ゥ", "ぅ"), Rule("ェ", "ぇ"), Rule("ォ", "ぉ"),
    Rule("ャ", "ゃ"), Rule("ュ", "ゅ"), Rule("ョ", "ょ"), Rule("ッ", "っ")
  ]

  // utils/strings.go:134-155
  const KatakanaRules: seq<Rule> :=
    KatakanaVoicedVuKa + KatakanaVoicedSaTa + KatakanaVoicedHaPa + KatakanaAKa + KatakanaSaTa +
    KatakanaNaHa + KatakanaMaYa + KatakanaRaWa + KatakanaSmall

  // ---------------------------------------------------------------------
  // Facts about the tables, chunk by chunk

  lemma SpaceTable()
    ensures Shifts(SpaceRules, 0x20 - 0x3000)
    ensures forall c :: HasPattern(SpaceRules, c) <==> c == '　'
  {
    assert Spans(SpaceRules, 0x3000);
    forall c ensures HasPattern(SpaceRules, c) <==> c == '　' {
      SpansPatterns(SpaceRules, 0x3000, c);
    }
  }

  lemma NumberTable()
    ensures Shifts(NumberRules, -0xFEE0)
    ensures forall c :: HasPattern(NumberRules, c) <==> IsFullWidthDigit(c)
  {
    assert Spans(NumberRules, 0xFF10);
    forall c ensures HasPattern(NumberRules, c) <==> IsFullWidthDigit(c) {
      SpansPatterns(NumberRules, 0xFF10, c);
    }
  }

  /** Two shifting runs of patterns, the second starting where the first ends, make one. */
  lemma ShiftsSpansAppend(a: seq<Rule>, b: seq<Rule>, off: int, base: int)
    requires Shifts(a, off) && Spans(a, base) && Shifts(b, off) && Spans(b, base + |a|)
    ensures Shifts(a + b, off) && Spans(a + b, base)
  {
    forall k | 0 <= k < |a + b|
      ensures |(a + b)[k].from| == 1 && (a + b)[k].from[0] as int == base + k
    {
      if k >= |a| {
        assert (a + b)[k] == b[k - |a|];
      }
    }
  }

  lemma LowerAToP()
    ensures Shifts(LowerAToH, -0xFEE0) && Spans(LowerAToH, 0xFF41)
    ensures Shifts(LowerIToP, -0xFEE0) && Spans(LowerIToP, 0xFF49)
  {}

  lemma LowerQToZ()
    ensures Shifts(LowerQToX, -0xFEE0) && Spans(LowerQToX, 0xFF51)
    ensures Shifts(LowerYToZ, -0xFEE0) && Spans(LowerYToZ, 0xFF59)
  {}

  lemma LowerChunks()
    ensures Shifts(LowerRules, -0xFEE0) && Spans(LowerRules, 0xFF41)
  {
    LowerAToP();
    LowerQToZ();
    ShiftsSpansAppend(LowerAToH, LowerIToP, -0xFEE0, 0xFF41);
    ShiftsSpansAppend(LowerAToH + LowerIToP, LowerQToX, -0xFEE0, 0xFF41);
    ShiftsSpansAppend(LowerAToH + LowerIToP + LowerQToX, LowerYToZ, -0xFEE0, 0xFF41);
  }

  lemma UpperAToP()
    ensures Shifts(UpperAToH, -0xFEE0) && Spans(UpperAToH, 0xFF21)
    ensures Shifts(UpperIToP, -0xFEE0) && Spans(UpperIToP, 0xFF29)
  {}

  lemma UpperQToZ()
    ensures Shifts(UpperQToX, -0xFEE0) && Spans(UpperQToX, 0xFF31)
    ensures Shifts(UpperYToZ, -0xFEE0) && Spans(UpperYToZ, 0xFF39)
  {}

  lemma UpperChunks()
    ensures Shifts(UpperRules, -0xFEE0) && Spans(UpperRules, 0xFF21)
  {
    UpperAToP();
    UpperQToZ();
    ShiftsSpansAppend(UpperAToH, UpperIToP, -0xFEE0, 0xFF21);
    ShiftsSpansAppend(UpperAToH + UpperIToP, UpperQToX, -0xFEE0, 0xFF21);
    ShiftsSpansAppend(UpperAToH + UpperIToP + UpperQToX, UpperYToZ, -0xFEE0, 0xFF21);
  }

  lemma AlphabetTable()
    ensures Shifts(AlphabetRules, -0xFEE0)
    ensures forall c :: HasPattern(AlphabetRules, c) <==> IsFullWidthLetter(c)
  {
    LowerChunks();
    UpperChunks();
    forall c ensures HasPattern(AlphabetRules, c) <==> IsFullWidthLetter(c) {
      SpansPatterns(LowerRules, 0xFF41, c);
      SpansPatterns(UpperRules, 0xFF21, c);
      HasPatternAppend(LowerRules, UpperRules, c);
    }
  }

  lemma SymbolsAB()
    ensures Shifts(SymbolsA, -0xFEE0) && Spans(SymbolsA, 0xFF01)
    ensures Shifts(SymbolsB, -0xFEE0) && Spans(SymbolsB, 0xFF09)
  {}

  lemma SymbolsCDE()
    ensures Shifts(SymbolsC, -0xFEE0) && Spans(SymbolsC, 0xFF1A)
    ensures Shifts(SymbolsD, -0xFEE0) && Spans(SymbolsD, 0xFF3B)
    ensures Shifts(SymbolsE, -0xFEE0) && Spans(SymbolsE, 0xFF5B)
  {}

  lemma SymbolChunks()
    ensures Shifts(SymbolsA + SymbolsB, -0xFEE0) && Spans(SymbolsA + SymbolsB, 0xFF01)
    ensures Shifts(SymbolsC, -0xFEE0) && Spans(SymbolsC, 0xFF1A)
    ensures Shifts(SymbolsD, -0xFEE0) && Spans(SymbolsD, 0xFF3B)
    ensures Shifts(SymbolsE, -0xFEE0) && Spans(SymbolsE, 0xFF5B)
  {
    SymbolsAB();
    SymbolsCDE();
    ShiftsSpansAppend(SymbolsA, SymbolsB, -0xFEE0, 0xFF01);
  }

  lemma SymbolTable()
    ensures Shifts(SymbolRules, -0xFEE0)
    ensures forall c :: HasPattern(SymbolRules, c) <==> IsFullWidthSymbol(c)
  {
    SymbolChunks();
    forall c ensures HasPattern(SymbolRules, c) <==> IsFullWidthSymbol(c) {
      SpansPatterns(SymbolsA + SymbolsB, 0xFF01, c);
      SpansPatterns(SymbolsC, 0xFF1A, c);
      SpansPatterns(SymbolsD, 0xFF3B, c);
      SpansPatterns(SymbolsE, 0xFF5B, c);
      HasPatternAppend(SymbolsA + SymbolsB, SymbolsC, c);
      HasPatternAppend(SymbolsA + SymbolsB + SymbolsC, SymbolsD, c);
      HasPatternAppend(SymbolsA + SymbolsB + SymbolsC + SymbolsD, SymbolsE, c);
    }
  }

  /** Each rule of `a` has its inverse at the same place in `b`. */
  ghost predicate Mirrors(a: seq<Rule>, b: seq<Rule>) {
    |a| == |b| && forall k | 0 <= k < |a| :: b[k].from == a[k].to && b[k].to == a[k].from
  }

  lemma ShiftsAppend(a: seq<Rule>, b: seq<Rule>, off: int)
    requires Shifts(a, off) && Shifts(b, off)
    ensures Shifts(a + b, off)
  {
    forall k | 0 <= k < |a + b| ensures (a + b)[k] == if k < |a| then a[k] else b[k - |a|] {}
  }

  lemma MirrorsAppend(a: seq<Rule>, b: seq<Rule>, a': seq<Rule>, b': seq<Rule>)
    requires Mirrors(a, a') && Mirrors(b, b')
    ensures Mirrors(a + b, a' + b')
  {
    forall k | 0 <= k < |a + b|
      ensures (a + b)[k] == (if k < |a| then a[k] else b[k - |a|])
      ensures (a' + b')[k] == (if k < |a| then a'[k] else b'[k - |a|])
    {}
  }

  /** One line group of the hiragana table and the matching group of the katakana table. */
  ghost predicate KanaChunk(h: seq<Rule>, k: seq<Rule>) {
    Shifts(h, 0x60) && Shifts(k, -0x60) && Mirrors(h, k)
  }

  lemma KanaChunkAppend(h: seq<Rule>, k: seq<Rule>, h': seq<Rule>, k': seq<Rule>)
    requires KanaChunk(h, k) && KanaChunk(h', k')
    ensures KanaChunk(h + h', k + k')
  {
    ShiftsAppend(h, h', 0x60);
    ShiftsAppend(k, k', -0x60);
    MirrorsAppend(h, h', k, k');
  }

  lemma KanaChunkVoicedVuKa() ensures KanaChunk(HiraganaVoicedVuKa, KatakanaVoicedVuKa) {}
  lemma KanaChunkVoicedSaTa() ensures KanaChunk(HiraganaVoicedSaTa, KatakanaVoicedSaTa) {}
  lemma KanaChunkVoicedHaPa() ensures KanaChunk(HiraganaVoicedHaPa, KatakanaVoicedHaPa) {}
  lemma KanaChunkAKa() ensures KanaChunk(HiraganaAKa, KatakanaAKa) {}
  lemma KanaChunkSaTa() ensures KanaChunk(HiraganaSaTa, KatakanaSaTa) {}
  lemma KanaChunkNaHa() ensures KanaChunk(HiraganaNaHa, KatakanaNaHa) {}
  lemma KanaChunkMaYa() ensures KanaChunk(HiraganaMaYa, KatakanaMaYa) {}
  lemma KanaChunkRaWa() ensures KanaChunk(HiraganaRaWa, KatakanaRaWa) {}
  lemma KanaChunkSmall() ensures KanaChunk(HiraganaSmall, KatakanaSmall) {}

  lemma KanaTables()
    ensures Shifts(HiraganaRules, 0x60) && Shifts(KatakanaRules, -0x60)
    ensures Mirrors(HiraganaRules, KatakanaRules)
  {
    KanaChunkVoicedVuKa();
    KanaChunkVoicedSaTa();
    KanaChunkVoicedHaPa();
    KanaChunkAKa();
    KanaChunkSaTa();
    KanaChunkNaHa();
    KanaChunkMaYa();
    KanaChunkRaWa();
    KanaChunkSmall();
    KanaChunkAppend(HiraganaVoicedVuKa, KatakanaVoicedVuKa, HiraganaVoicedSaTa, KatakanaVoicedSaTa);
    KanaChunkAppend(HiraganaVoicedVuKa + HiraganaVoicedSaTa, KatakanaVoicedVuKa + KatakanaVoicedSaTa, HiraganaVoicedHaPa, KatakanaVoicedHaPa);
    KanaChunkAppend(HiraganaVoicedVuKa + HiraganaVoicedSaTa + HiraganaVoicedHaPa, KatakanaVoicedVuKa + KatakanaVoicedSaTa + KatakanaVoicedHaPa, HiraganaAKa, KatakanaAKa);
    KanaChunkAppend(HiraganaVoicedVuKa + HiraganaVoicedSaTa + HiraganaVoicedHaPa + HiraganaAKa, KatakanaVoicedVuKa + KatakanaVoicedSaTa + KatakanaVoicedHaPa + KatakanaAKa, HiraganaSaTa, KatakanaSaTa);
    KanaChunkAppend(HiraganaVoicedVuKa + HiraganaVoicedSaTa + HiraganaVoicedHaPa + HiraganaAKa + HiraganaSaTa, KatakanaVoicedVuKa + KatakanaVoicedSaTa + KatakanaVoicedHaPa + KatakanaAKa + KatakanaSaTa, HiraganaNaHa, KatakanaNaHa);
    KanaChunkAppend(HiraganaVoicedVuKa + HiraganaVoicedSaTa + HiraganaVoicedHaPa + HiraganaAKa + HiraganaSaTa + HiraganaNaHa, KatakanaVoicedVuKa + KatakanaVoicedSaTa + KatakanaVoicedHaPa + KatakanaAKa + KatakanaSaTa + KatakanaNaHa, HiraganaMaYa, KatakanaMaYa);
    KanaChunkAppend(HiraganaVoicedVuKa + HiraganaVoicedSaTa + HiraganaVoicedHaPa + HiraganaAKa + HiraganaSaTa + HiraganaNaHa + HiraganaMaYa, KatakanaVoicedVuKa + KatakanaVoicedSaTa + KatakanaVoicedHaPa + KatakanaAKa + KatakanaSaTa + KatakanaNaHa + KatakanaMaYa, HiraganaRaWa, KatakanaRaWa);
    KanaChunkAppend(HiraganaVoicedVuKa + HiraganaVoicedSaTa + HiraganaVoicedHaPa + HiraganaAKa + HiraganaSaTa + HiraganaNaHa + HiraganaMaYa + HiraganaRaWa, KatakanaVoicedVuKa + KatakanaVoicedSaTa + KatakanaVoicedHaPa + KatakanaAKa + KatakanaSaTa + KatakanaNaHa + KatakanaMaYa + KatakanaRaWa, HiraganaSmall, KatakanaSmall);
  }

  /** A voiced pair: two half-width characters written as one katakana letter. */
  ghost predicate VoicedPairs(rules: seq<Rule>) {
    forall k | 0 <= k < |rules| ::
      |rules[k].from| == 2 && |rules[k].to| == 1 && 'ァ' <= rules[k].to[0] <= 'ヺ'
  }

  /** Every replacement text is at most one character, from the kana outputs. */
  ghost predicate WritesKana(rules: seq<Rule>) {
    forall k | 0 <= k < |rules| ::
      |rules[k].to| <= 1 && (|rules[k].to| == 1 ==> IsKanaOutput(rules[k].to[0]))
  }

  lemma VoicedKanaTable()
    ensures VoicedPairs(VoicedKanaRules) && WritesKana(VoicedKanaRules)
  {
    assert VoicedPairs(HalfWidthVoicedVuKa) && WritesKana(HalfWidthVoicedVuKa);
    assert VoicedPairs(HalfWidthVoicedSaTa) && WritesKana(HalfWidthVoicedSaTa);
    assert VoicedPairs(HalfWidthVoicedHaPa) && WritesKana(HalfWidthVoicedHaPa);
  }

  /** A run of one-character kana rules over consecutive code points from `base`. */
  ghost predicate KanaRun(rules: seq<Rule>, base: int) {
    SingleChar(rules) && WritesKana(rules) && Spans(rules, base)
  }

  lemma KanaRunAppend(a: seq<Rule>, b: seq<Rule>, base: int)
    requires KanaRun(a, base) && KanaRun(b, base + |a|)
    ensures KanaRun(a + b, base)
  {
    forall k | 0 <= k < |a + b| ensures (a + b)[k] == if k < |a| then a[k] else b[k - |a|] {}
  }

  lemma KanaRunAKa() ensures KanaRun(HalfWidthKanaAKa, 0xFF71) {}
  lemma KanaRunSaTa() ensures KanaRun(HalfWidthKanaSaTa, 0xFF7B) {}
  lemma KanaRunNaHa() ensures KanaRun(HalfWidthKanaNaHa, 0xFF85) {}
  lemma KanaRunMaYa() ensures KanaRun(HalfWidthKanaMaYa, 0xFF8F) {}

  lemma GojuonKanaTable()
    ensures SingleChar(GojuonKanaRules) && WritesKana(GojuonKanaRules) && Spans(GojuonKanaRules, 0xFF71)
  {
    KanaRunAKa();
    KanaRunSaTa();
    KanaRunNaHa();
    KanaRunMaYa();
    KanaRunAppend(HalfWidthKanaAKa, HalfWidthKanaSaTa, 0xFF71);
    KanaRunAppend(HalfWidthKanaAKa + HalfWidthKanaSaTa, HalfWidthKanaNaHa, 0xFF71);
    KanaRunAppend(HalfWidthKanaAKa + HalfWidthKanaSaTa + HalfWidthKanaNaHa, HalfWidthKanaMaYa, 0xFF71);
  }

  lemma OtherKanaTable()
    ensures SingleChar(HalfWidthKanaRaWa) && WritesKana(HalfWidthKanaRaWa)
    ensures SingleChar(HalfWidthKanaSmall) && WritesKana(HalfWidthKanaSmall)
    ensures SingleChar(HalfWidthKanaMarks) && WritesKana(HalfWidthKanaMarks)
  {}

  lemma PlainKanaTable()
    ensures SingleChar(PlainKanaRules) && WritesKana(PlainKanaRules)
    ensures Spans(GojuonKanaRules, 0xFF71)
  {
    GojuonKanaTable();
    OtherKanaTable();
  }

  /** Every half-width katakana character has a one-character rule in the kana table. */
  lemma HalfWidthKanaCovered(c: char)
    requires IsHalfWidthKana(c)
    ensures HasPattern(PlainKanaRules, c) && HasPattern(KanaRules, c)
  {
    PlainKanaTable();
    var rawa, small, marks := HalfWidthKanaRaWa, HalfWidthKanaSmall, HalfWidthKanaMarks;
    assert Spans(rawa[..6], 0xFF97) && rawa[6].from == "ｦ" && rawa[7].from == "ﾝ";
    assert Spans(small, 0xFF67);
    assert marks[0].from == "ｰ" && Spans(marks[1..3], 0xFF9E) && Spans(marks[3..], 0xFF61);
    var inGojuon, inRaWa, inSmall, inMarks := false, false, false, false;
    if 0xFF71 <= c as int <= 0xFF96 {
      SpansPatterns(GojuonKanaRules, 0xFF71, c);
      inGojuon := true;
    } else if 0xFF97 <= c as int <= 0xFF9C {
      SpansPatterns(rawa[..6], 0xFF97, c);
      var k :| 0 <= k < 6 && rawa[..6][k].from == [c];
      assert rawa[k] == rawa[..6][k];
      inRaWa := true;
    } else if c == 'ｦ' || c == 'ﾝ' {
      inRaWa := true;
      assert rawa[if c == 'ｦ' then 6 else 7].from == [c];
    } else if 0xFF67 <= c as int <= 0xFF6F {
      SpansPatterns(small, 0xFF67, c);
      inSmall := true;
    } else if c == 'ｰ' {
      inMarks := true;
      assert marks[0].from == [c];
    } else if 0xFF9E <= c as int {
      SpansPatterns(marks[1..3], 0xFF9E, c);
      var k :| 0 <= k < 2 && marks[1..3][k].from == [c];
      assert marks[k + 1] == marks[1..3][k];
      inMarks := true;
    } else {
      SpansPatterns(marks[3..], 0xFF61, c);
      var k :| 0 <= k < 5 && marks[3..][k].from == [c];
      assert marks[k + 3] == marks[3..][k];
      inMarks := true;
    }
    assert inGojuon ==> HasPattern(GojuonKanaRules, c);
    assert inRaWa ==> HasPattern(rawa, c);
    assert inSmall ==> HasPattern(small, c);
    assert inMarks ==> HasPattern(marks, c);
    HasPatternAppend(GojuonKanaRules, rawa, c);
    HasPatternAppend(GojuonKanaRules + rawa, small, c);
    HasPatternAppend(GojuonKanaRules + rawa + small, marks, c);
    HasPatternAppend(VoicedKanaRules, PlainKanaRules, c);
  }

  lemma WritesKanaEmits(rules: seq<Rule>, c: char)
    requires WritesKana(rules) && Emits(rules, c)
    ensures IsKanaOutput(c)
  {}


  // ---------------------------------------------------------------------
  // strings.TrimSpace

  /** The number of white-space characters `s` starts with. */
  function LeadingSpaces(s: string): (i: nat)
    ensures i <= |s|
  {
    if s != [] && IsSpace(s[0]) then 1 + LeadingSpaces(s[1..]) else 0
  }

  lemma {:induction false} LeadingSpacesSpec(s: string)
    ensures forall k | 0 <= k < LeadingSpaces(s) :: IsSpace(s[k])
    ensures LeadingSpaces(s) == |s| || !IsSpace(s[LeadingSpaces(s)])
  {
    if s != [] && IsSpace(s[0]) {
      LeadingSpacesSpec(s[1..]);
      forall k | 1 <= k < LeadingSpaces(s) ensures IsSpace(s[k]) {
        assert s[k] == s[1..][k - 1];
      }
    }
  }

  /** Where the trailing white space of `s[..j]` begins, at or after `i`. */
  function TrailingStart(s: string, i: nat, j: nat): (e: nat)
    requires i <= j <= |s|
    ensures i <= e <= j
    decreases j
  {
    if j > i && IsSpace(s[j - 1]) then TrailingStart(s, i, j - 1) else j
  }

  lemma {:induction false} TrailingStartSpec(s: string, i: nat, j: nat)
    requires i <= j <= |s|
    ensures forall k | TrailingStart(s, i, j) <= k < j :: IsSpace(s[k])
    ensures TrailingStart(s, i, j) == i || !IsSpace(s[TrailingStart(s, i, j) - 1])
    decreases j
  {
    if j > i && IsSpace(s[j - 1]) {
      TrailingStartSpec(s, i, j - 1);
    }
  }

  /**
   * strings.TrimSpace: `s` without its leading and trailing white space.
   * The result is a slice of `s` with only white space outside it, and it
   * neither starts nor ends with white space.
   */
  function TrimSpace(s: string): string {
    var i := LeadingSpaces(s);
    var j := TrailingStart(s, i, |s|);
    s[i..j]
  }

  /** TrimSpace cuts only white space, and only at the ends. */
  lemma TrimSpaceSpec(s: string)
    ensures exists i, j | 0 <= i <= j <= |s| ::
      && TrimSpace(s) == s[i..j]
      && (forall k | 0 <= k < i :: IsSpace(s[k]))
      && (forall k | j <= k < |s| :: IsSpace(s[k]))
    ensures var r := TrimSpace(s); r == [] || (!IsSpace(r[0]) && !IsSpace(r[|r| - 1]))
  {
    var i := LeadingSpaces(s);
    var j := TrailingStart(s, i, |s|);
    LeadingSpacesSpec(s);
    TrailingStartSpec(s, i, |s|);
    assert TrimSpace(s) == s[i..j];
  }

  /**
   * TrimSpace is determined by its contract: any slice of `s` with only
   * white space outside it and none at its ends is TrimSpace(s).
   */
  lemma TrimSpaceUnique(s: string, a: nat, b: nat)
    requires a <= b <= |s|
    requires forall k | 0 <= k < a :: IsSpace(s[k])
    requires forall k | b <= k < |s| :: IsSpace(s[k])
    requires a == b || (!IsSpace(s[a]) && !IsSpace(s[b - 1]))
    ensures TrimSpace(s) == s[a..b]
  {
    var i := LeadingSpaces(s);
    var j := TrailingStart(s, i, |s|);
    LeadingSpacesSpec(s);
    TrailingStartSpec(s, i, |s|);
    if a < b {
      assert i == a;
      assert j == b;
    } else {
      assert i == |s|;
    }
  }

  /** Cutting white space off the ends first does not change what TrimSpace gives. */
  lemma TrimSpaceOfSlice(s: string, i: nat, j: nat)
    requires i <= j <= |s|
    requires forall k | 0 <= k < i :: IsSpace(s[k])
    requires forall k | j <= k < |s| :: IsSpace(s[k])
    ensures TrimSpace(s[i..j]) == TrimSpace(s)
  {
    var t := s[i..j];
    var a := LeadingSpaces(t);
    var b := TrailingStart(t, a, |t|);
    assert TrimSpace(t) == t[a..b];
    assert t[a..b] == s[i + a..i + b] && TrimSpace(s) == s[i + a..i + b] by {
      LeadingSpacesSpec(t);
      TrailingStartSpec(t, a, |t|);
      SpaceBorders(s, i, j, a, b);
      TrimSpaceUnique(s, i + a, i + b);
    }
  }

  /** White space around a slice, plus white space around a slice of that slice. */
  lemma SpaceBorders(s: string, i: nat, j: nat, a: nat, b: nat)
    requires i <= j <= |s| && a <= b <= j - i
    requires forall k | 0 <= k < i :: IsSpace(s[k])
    requires forall k | j <= k < |s| :: IsSpace(s[k])
    requires forall k | 0 <= k < a :: IsSpace(s[i..j][k])
    requires forall k | b <= k < j - i :: IsSpace(s[i..j][k])
    requires a == b || (!IsSpace(s[i..j][a]) && !IsSpace(s[i..j][b - 1]))
    ensures s[i..j][a..b] == s[i + a..i + b]
    ensures forall k | 0 <= k < i + a :: IsSpace(s[k])
    ensures forall k | i + b <= k < |s| :: IsSpace(s[k])
    ensures a == b || (!IsSpace(s[i + a]) && !IsSpace(s[i + b - 1]))
  {
    var t := s[i..j];
    forall k | i <= k < i + a ensures IsSpace(s[k]) {
      assert s[k] == t[k - i];
    }
    forall k | i + b <= k < j ensures IsSpace(s[k]) {
      assert s[k] == t[k - i];
    }
    forall k | 0 <= k < b - a ensures t[a..b][k] == s[i + a..i + b][k] {
      assert t[a + k] == s[i + a + k];
    }
  }

  // ---------------------------------------------------------------------
  // The conversions of utils/strings.go

  /** NormalizeSpace: trim surrounding white space, then turn full-width spaces into ASCII ones. */
  function NormalizeSpace(s: string): string {
    Replace(SpaceRules, TrimSpace(s))
  }

  /** ZenToHanNumer: full-width digits to ASCII digits. */
  function ZenToHanNumber(s: string): string {
    Replace(NumberRules, s)
  }

  /** ZenToHanAlphabet: full-width Latin letters to ASCII letters. */
  function ZenToHanAlphabet(s: string): string {
    Replace(AlphabetRules, s)
  }

  /** HanToZenKana: half-width katakana (and voiced pairs) to full-width katakana. */
  function HanToZenKana(s: string): string {
    Replace(KanaRules, s)
  }

  /** ZenToHanSymbol: full-width punctuation to ASCII punctuation. */
  function ZenToHanSymbol(s: string): string {
    Replace(SymbolRules, s)
  }

  /** HiraganaToKatakana: each hiragana to its katakana. */
  function HiraganaToKatakana(s: string): string {
    Replace(HiraganaRules, s)
  }

  /** KatakanaToHiragana: each katakana to its hiragana. */
  function KatakanaToHiragana(s: string): string {
    Replace(KatakanaRules, s)
  }

  /** NormalizeString: the five passes above, in this order. */
  function NormalizeString(s: string): string {
    ZenToHanSymbol(HanToZenKana(ZenToHanAlphabet(ZenToHanNumber(NormalizeSpace(s)))))
  }

  // ---------------------------------------------------------------------
  // What each conversion does

  /**
   * NormalizeSpace trims white space at both ends, then turns each
   * ideographic space into an ASCII space and keeps everything else; no
   * ideographic space survives, and the result neither starts nor ends with
   * white space.
   */
  lemma NormalizeSpaceSpec(s: string)
    ensures var t, r := TrimSpace(s), NormalizeSpace(s);
      && |r| == |t|
      && (forall i | 0 <= i < |t| :: r[i] == if t[i] == '　' then ' ' else t[i])
      && (forall i | 0 <= i < |r| :: r[i] != '　')
      && (r == [] || (!IsSpace(r[0]) && !IsSpace(r[|r| - 1])))
  {
    var t, r := TrimSpace(s), NormalizeSpace(s);
    TrimSpaceSpec(s);
    SpaceTable();
    ReplaceShifts(SpaceRules, 0x20 - 0x3000, t);
    forall i | 0 <= i < |t| ensures r[i] == if t[i] == '　' then ' ' else t[i] {
      assert r[i] as int == if t[i] == '　' then 0x20 else t[i] as int;
    }
  }

  /** ZenToHanNumber narrows exactly the full-width digits and keeps the length. */
  lemma ZenToHanNumberSpec(s: string)
    ensures var r := ZenToHanNumber(s);
      && |r| == |s|
      && forall i | 0 <= i < |s| :: r[i] == if IsFullWidthDigit(s[i]) then Narrow(s[i]) else s[i]
  {
    NumberTable();
    ReplaceShifts(NumberRules, -0xFEE0, s);
  }

  /** ZenToHanAlphabet narrows exactly the full-width Latin letters, keeping their case. */
  lemma ZenToHanAlphabetSpec(s: string)
    ensures var r := ZenToHanAlphabet(s);
      && |r| == |s|
      && (forall i | 0 <= i < |s| :: r[i] == if IsFullWidthLetter(s[i]) then Narrow(s[i]) else s[i])
      && (forall i | 0 <= i < |s| && IsFullWidthUpper(s[i]) :: 'A' <= r[i] <= 'Z')
      && (forall i | 0 <= i < |s| && IsFullWidthLower(s[i]) :: 'a' <= r[i] <= 'z')
  {
    AlphabetTable();
    ReplaceShifts(AlphabetRules, -0xFEE0, s);
  }

  /** ZenToHanSymbol narrows exactly the full-width punctuation. */
  lemma ZenToHanSymbolSpec(s: string)
    ensures var r := ZenToHanSymbol(s);
      && |r| == |s|
      && forall i | 0 <= i < |s| :: r[i] == if IsFullWidthSymbol(s[i]) then Narrow(s[i]) else s[i]
  {
    SymbolTable();
    ReplaceShifts(SymbolRules, -0xFEE0, s);
  }

  /** A shifting table leaves alone a string none of whose characters it has a rule for. */
  lemma {:induction false} ShiftsKeep(rules: seq<Rule>, off: int, s: string)
    requires Shifts(rules, off)
    requires forall i | 0 <= i < |s| :: !HasPattern(rules, s[i])
    ensures Replace(rules, s) == s
  {
    ReplaceShifts(rules, off, s);
    var r := Replace(rules, s);
    forall i | 0 <= i < |s| ensures r[i] == s[i] {
      assert r[i] as int == s[i] as int;
    }
  }

  /** Narrowing the digits a second time changes nothing. */
  lemma ZenToHanNumberIdempotent(s: string)
    ensures ZenToHanNumber(ZenToHanNumber(s)) == ZenToHanNumber(s)
  {
    var r := ZenToHanNumber(s);
    ZenToHanNumberSpec(s);
    NumberTable();
    ShiftsKeep(NumberRules, -0xFEE0, r);
  }

  /** Narrowing the letters a second time changes nothing. */
  lemma ZenToHanAlphabetIdempotent(s: string)
    ensures ZenToHanAlphabet(ZenToHanAlphabet(s)) == ZenToHanAlphabet(s)
  {
    var r := ZenToHanAlphabet(s);
    ZenToHanAlphabetSpec(s);
    AlphabetTable();
    ShiftsKeep(AlphabetRules, -0xFEE0, r);
  }

  /** Narrowing the punctuation a second time changes nothing. */
  lemma ZenToHanSymbolIdempotent(s: string)
    ensures ZenToHanSymbol(ZenToHanSymbol(s)) == ZenToHanSymbol(s)
  {
    var r := ZenToHanSymbol(s);
    ZenToHanSymbolSpec(s);
    SymbolTable();
    ShiftsKeep(SymbolRules, -0xFEE0, r);
  }

  /**
   * HanToZenKana leaves no half-width katakana behind: every output
   * character was copied from the input or is a full-width kana, kana
   * punctuation or the full-width quote the voicing mark becomes.
   */
  lemma HanToZenKanaOrigins(s: string)
    ensures var r := HanToZenKana(s);
      forall i | 0 <= i < |r| :: !IsHalfWidthKana(r[i]) && (r[i] in s || IsKanaOutput(r[i]))
  {
    var r := HanToZenKana(s);
    VoicedKanaTable();
    PlainKanaTable();
    ReplaceOrigins(KanaRules, s);
    forall i | 0 <= i < |r| ensures !IsHalfWidthKana(r[i]) && (r[i] in s || IsKanaOutput(r[i])) {
      if Emits(KanaRules, r[i]) {
        EmitsAppend(VoicedKanaRules, PlainKanaRules, r[i]);
        if Emits(VoicedKanaRules, r[i]) {
          WritesKanaEmits(VoicedKanaRules, r[i]);
        } else {
          WritesKanaEmits(PlainKanaRules, r[i]);
        }
      } else if IsHalfWidthKana(r[i]) {
        HalfWidthKanaCovered(r[i]);
        assert false;
      }
    }
  }

  /** Two-character patterns ordered by their mark first, then by their base character. */
  predicate PairBefore(p: string, q: string)
    requires |p| == 2 && |q| == 2
  {
    p[1] < q[1] || (p[1] == q[1] && p[0] < q[0])
  }

  /** Every pattern is two characters long, and the patterns strictly ascend by `PairBefore`. */
  ghost predicate PairsAscend(rules: seq<Rule>) {
    && (forall k | 0 <= k < |rules| :: |rules[k].from| == 2)
    && (forall k | 0 <= k < |rules| - 1 :: PairBefore(rules[k].from, rules[k + 1].from))
  }

  /** In an ascending table no two rules share a pattern. */
  lemma {:induction false} PairsAscendDistinct(rules: seq<Rule>, i: nat, j: nat)
    requires PairsAscend(rules) && i < j < |rules|
    ensures PairBefore(rules[i].from, rules[j].from)
    ensures rules[i].from != rules[j].from
    decreases j - i
  {
    if i + 1 < j {
      PairsAscendDistinct(rules, i + 1, j);
    }
  }

  lemma PairsAscendAppend(a: seq<Rule>, b: seq<Rule>)
    requires PairsAscend(a) && PairsAscend(b) && a != [] && b != []
    requires PairBefore(a[|a| - 1].from, b[0].from)
    ensures PairsAscend(a + b)
  {
    forall k | 0 <= k < |a + b| - 1
      ensures PairBefore((a + b)[k].from, (a + b)[k + 1].from)
    {
      if k == |a| - 1 {
        assert (a + b)[k] == a[|a| - 1] && (a + b)[k + 1] == b[0];
      }
    }
  }

  lemma VuKaOrdered()
    ensures PairsAscend(HalfWidthVoicedVuKa)
  {
    var t := HalfWidthVoicedVuKa;
    assert forall k | 0 <= k < |t| :: |t[k].from| == 2;
    forall k | 0 <= k < |t| - 1
      ensures PairBefore(t[k].from, t[k + 1].from)
    {
      assert t[k].from[1] <= t[k + 1].from[1];
    }
  }

  lemma SaTaOrdered()
    ensures PairsAscend(HalfWidthVoicedSaTa)
  {
    var t := HalfWidthVoicedSaTa;
    assert forall k | 0 <= k < |t| :: |t[k].from| == 2;
    forall k | 0 <= k < |t| - 1
      ensures PairBefore(t[k].from, t[k + 1].from)
    {
      assert t[k].from[1] <= t[k + 1].from[1];
    }
  }

  lemma HaPaOrdered()
    ensures PairsAscend(HalfWidthVoicedHaPa)
  {
    var t := HalfWidthVoicedHaPa;
    assert forall k | 0 <= k < |t| :: |t[k].from| == 2;
    forall k | 0 <= k < |t| - 1
      ensures PairBefore(t[k].from, t[k + 1].from)
    {
      assert t[k].from[1] <= t[k + 1].from[1];
    }
  }

  /** The voiced-kana table lists each two-character pattern once, in ascending order. */
  lemma VoicedKanaOrdered()
    ensures PairsAscend(VoicedKanaRules)
  {
    VuKaOrdered();
    SaTaOrdered();
    HaPaOrdered();
    PairsAscendAppend(HalfWidthVoicedVuKa, HalfWidthVoicedSaTa);
    PairsAscendAppend(HalfWidthVoicedVuKa + HalfWidthVoicedSaTa, HalfWidthVoicedHaPa);
  }

  /**
   * A half-width letter followed by its voicing mark is taken as a pair,
   * before the letter alone could match: it becomes one full-width
   * katakana letter and conversion resumes after the mark.
   */
  lemma VoicedPairWins(s: string, k: nat)
    requires k < |VoicedKanaRules| && Matches(s, VoicedKanaRules[k].from)
    ensures |s| >= 2 && HanToZenKana(s) == VoicedKanaRules[k].to + HanToZenKana(s[2..])
    ensures exists c | 'ァ' <= c <= 'ヺ' :: HanToZenKana(s) == [c] + HanToZenKana(s[2..])
  {
    VoicedKanaTable();
    PlainKanaTable();
    FirstMatchAppend(VoicedKanaRules, PlainKanaRules, s);
    var m := FirstMatch(VoicedKanaRules, s);
    FirstMatchIsFirst(VoicedKanaRules, s);
    assert 0 <= m <= k;
    assert KanaRules[m] == VoicedKanaRules[m];
    if m < k {
      VoicedKanaOrdered();
      PairsAscendDistinct(VoicedKanaRules, m, k);
    }
    var c := VoicedKanaRules[m].to[0];
    assert VoicedKanaRules[m].to == [c];
  }

  /** A rule whose pattern differs from `s` in its first character does not match `s`. */
  lemma FirstCharMismatch(s: string, p: string)
    requires s != [] && p != [] && s[0] != p[0]
    ensures !Matches(s, p)
  {
    if |p| <= |s| {
      assert s[..|p|][0] == s[0];
    }
  }

  /** An instance from the source's table: ｶﾞ is ガ. */
  lemma HanToZenKanaVoicedExample()
    ensures HanToZenKana("ｶﾞ") == "ガ"
  {
    var s := "ｶﾞ";
    var vuKa := HalfWidthVoicedVuKa;
    VoicedKanaTable();
    PlainKanaTable();
    FirstCharMismatch(s, vuKa[0].from);
    assert s[..2] == vuKa[1].from;
    assert FirstMatch(vuKa, s) == 1;
    FirstMatchAppend(vuKa, HalfWidthVoicedSaTa, s);
    FirstMatchAppend(vuKa + HalfWidthVoicedSaTa, HalfWidthVoicedHaPa, s);
    FirstMatchAppend(VoicedKanaRules, PlainKanaRules, s);
    assert KanaRules[1] == vuKa[1];
    assert s[2..] == [];
  }

  /** An instance from the source's table: ﾊﾟ is パ. */
  lemma HanToZenKanaSemiVoicedExample()
    ensures HanToZenKana("ﾊﾟ") == "パ"
  {
    var s := "ﾊﾟ";
    var haPa := HalfWidthVoicedHaPa;
    assert VoicedKanaRules[21] == haPa[5];
    assert s[..2] == haPa[5].from;
    VoicedPairWins(s, 21);
    assert s[2..] == [];
  }

  /**
   * A table and its mirror, shifting by `off` and back: replacing with one
   * and then the other gives back any string whose characters all have a
   * rule in the first.
   */
  lemma {:induction false} MirrorRoundTrip(a: seq<Rule>, b: seq<Rule>, off: int, s: string)
    requires Shifts(a, off) && Shifts(b, -off) && Mirrors(a, b)
    requires forall i | 0 <= i < |s| :: HasPattern(a, s[i])
    ensures Replace(b, Replace(a, s)) == s
  {
    ReplaceShifts(a, off, s);
    var t := Replace(a, s);
    ReplaceShifts(b, -off, t);
    var r := Replace(b, t);
    forall i | 0 <= i < |s| ensures r[i] == s[i] {
      MirrorHit(a, b, off, s[i], t[i]);
    }
  }

  /** A character a shifting table moves lands on a pattern of its mirror. */
  lemma MirrorHit(a: seq<Rule>, b: seq<Rule>, off: int, c: char, d: char)
    requires Shifts(a, off) && Mirrors(a, b) && HasPattern(a, c) && d as int == c as int + off
    ensures HasPattern(b, d)
  {
    var k :| 0 <= k < |a| && a[k].from == [c];
    assert a[k].to == [d];
    assert b[k].from == [d];
  }

  lemma MirrorsFlip(a: seq<Rule>, b: seq<Rule>)
    requires Mirrors(a, b)
    ensures Mirrors(b, a)
  {}

  /** Katakana back to hiragana undoes hiragana to katakana, for any string of tabled hiragana. */
  lemma HiraganaRoundTrip(s: string)
    requires forall i | 0 <= i < |s| :: HasPattern(HiraganaRules, s[i])
    ensures KatakanaToHiragana(HiraganaToKatakana(s)) == s
  {
    KanaTables();
    MirrorRoundTrip(HiraganaRules, KatakanaRules, 0x60, s);
  }

  /** Hiragana to katakana undoes katakana to hiragana, for any string of tabled katakana. */
  lemma KatakanaRoundTrip(s: string)
    requires forall i | 0 <= i < |s| :: HasPattern(KatakanaRules, s[i])
    ensures HiraganaToKatakana(KatakanaToHiragana(s)) == s
  {
    KanaTables();
    MirrorsFlip(HiraganaRules, KatakanaRules);
    MirrorRoundTrip(KatakanaRules, HiraganaRules, -0x60, s);
  }

  /** KatakanaToHiragana moves each tabled katakana down by 0x60 and keeps every other character. */
  lemma KatakanaToHiraganaSpec(s: string)
    ensures var r := KatakanaToHiragana(s);
      && |r| == |s|
      && forall i | 0 <= i < |s| ::
        r[i] as int == if HasPattern(KatakanaRules, s[i]) then s[i] as int - 0x60 else s[i] as int
  {
    KanaTables();
    ReplaceShifts(KatakanaRules, -0x60, s);
  }

  // ---------------------------------------------------------------------
  // NormalizeString

  /**
   * What the normalisation guarantees: no ideographic space, no character
   * of the full-width ASCII block, no half-width katakana.
   */
  predicate Normalized(s: string) {
    forall i | 0 <= i < |s| :: s[i] != '　' && !IsFullWidthForm(s[i]) && !IsHalfWidthKana(s[i])
  }

  /** Every result of NormalizeString is normalised. */
  lemma NormalizeStringNormalizes(s: string)
    ensures Normalized(NormalizeString(s))
  {
    var t1 := NormalizeSpace(s);
    var t2 := ZenToHanNumber(t1);
    var t3 := ZenToHanAlphabet(t2);
    var t4 := HanToZenKana(t3);
    var t5 := ZenToHanSymbol(t4);
    NormalizeSpaceSpec(s);
    ZenToHanNumberSpec(t1);
    ZenToHanAlphabetSpec(t2);
    HanToZenKanaOrigins(t3);
    ZenToHanSymbolSpec(t4);
    assert forall i | 0 <= i < |t2| :: t2[i] != '　' && !IsFullWidthDigit(t2[i]);
    assert forall i | 0 <= i < |t3| :: t3[i] != '　' && !IsFullWidthDigit(t3[i]) && !IsFullWidthLetter(t3[i]);
    forall i | 0 <= i < |t4| ensures t4[i] != '　' && !IsFullWidthDigit(t4[i]) && !IsFullWidthLetter(t4[i]) {
      if t4[i] in t3 {
        var j :| 0 <= j < |t3| && t3[j] == t4[i];
      }
    }
  }

  /** A one-character string matches only the rule whose pattern is that character. */
  lemma NoMatchOneChar(rules: seq<Rule>, s: string)
    requires |s| == 1
    requires forall k | 0 <= k < |rules| :: rules[k].from != s
    ensures FirstMatch(rules, s) == -1
  {}

  /** The marks ﾞ and ﾟ meet no voiced pair. */
  lemma MarkMissesVoiced(m: nat)
    requires 1 <= m <= 2
    ensures FirstMatch(VoicedKanaRules, HalfWidthKanaMarks[m].from) == -1
  {
    VoicedKanaTable();
    NoMatchOneChar(VoicedKanaRules, HalfWidthKanaMarks[m].from);
  }

  /** Nor any kana of the gojūon rows. */
  lemma MarkMissesGojuon(m: nat)
    requires 1 <= m <= 2
    ensures FirstMatch(GojuonKanaRules, HalfWidthKanaMarks[m].from) == -1
  {
    PlainKanaTable();
    NoMatchOneChar(GojuonKanaRules, HalfWidthKanaMarks[m].from);
  }

  /** Nor the ra/wa row. */
  lemma MarkMissesRaWa(m: nat)
    requires 1 <= m <= 2
    ensures FirstMatch(HalfWidthKanaRaWa, HalfWidthKanaMarks[m].from) == -1
  {
    var raWa, s := HalfWidthKanaRaWa, HalfWidthKanaMarks[m].from;
    forall k | 0 <= k < |raWa| ensures raWa[k].from != s {
      assert raWa[k].from[0] != s[0];
    }
    NoMatchOneChar(raWa, s);
  }

  /** Nor the small kana. */
  lemma MarkMissesSmall(m: nat)
    requires 1 <= m <= 2
    ensures FirstMatch(HalfWidthKanaSmall, HalfWidthKanaMarks[m].from) == -1
  {
    var small, s := HalfWidthKanaSmall, HalfWidthKanaMarks[m].from;
    forall k | 0 <= k < |small| ensures small[k].from != s {
      assert small[k].from[0] != s[0];
    }
    NoMatchOneChar(small, s);
  }

  /** In the marks chunk, mark m is found at its own place. */
  lemma MarkInMarks(m: nat)
    requires 1 <= m <= 2
    ensures FirstMatch(HalfWidthKanaMarks, HalfWidthKanaMarks[m].from) == m
  {
    var s, marks := HalfWidthKanaMarks[m].from, HalfWidthKanaMarks;
    FirstCharMismatch(s, marks[0].from);
    if m == 2 {
      FirstCharMismatch(s, marks[1].from);
      assert marks[1..][1..] == marks[2..];
    }
  }

  /** So the kana table's first match for a lone mark is its rule in the marks chunk. */
  lemma MarkFindsMarksChunk(m: nat)
    requires 1 <= m <= 2
    ensures var s := HalfWidthKanaMarks[m].from;
      FirstMatch(KanaRules, s) == |VoicedKanaRules| + |GojuonKanaRules| + |HalfWidthKanaRaWa| + |HalfWidthKanaSmall| + m
  {
    var s := HalfWidthKanaMarks[m].from;
    var gojuon, raWa, small, marks := GojuonKanaRules, HalfWidthKanaRaWa, HalfWidthKanaSmall, HalfWidthKanaMarks;
    MarkMissesVoiced(m);
    MarkMissesGojuon(m);
    MarkMissesRaWa(m);
    MarkMissesSmall(m);
    MarkInMarks(m);
    FirstMatchAppend(gojuon, raWa, s);
    FirstMatchAppend(gojuon + raWa, small, s);
    FirstMatchAppend(gojuon + raWa + small, marks, s);
    FirstMatchAppend(VoicedKanaRules, PlainKanaRules, s);
  }

  /** HanToZenKana on a lone mark: ﾞ becomes ＂ and ﾟ is deleted. */
  lemma HanToZenKanaLoneMark(m: nat)
    requires 1 <= m <= 2
    ensures HanToZenKana(HalfWidthKanaMarks[m].from) == HalfWidthKanaMarks[m].to
  {
    var s := HalfWidthKanaMarks[m].from;
    var k := |VoicedKanaRules| + |GojuonKanaRules| + |HalfWidthKanaRaWa| + |HalfWidthKanaSmall| + m;
    MarkFindsMarksChunk(m);
    assert KanaRules[k] == HalfWidthKanaMarks[m];
    assert s[1..] == [];
  }

  /** The passes before HanToZenKana leave a lone half-width kana alone. */
  lemma EarlyPassesKeepKana(s: string)
    requires |s| == 1 && IsHalfWidthKana(s[0])
    ensures ZenToHanAlphabet(ZenToHanNumber(NormalizeSpace(s))) == s
  {
    TrimSpaceUnique(s, 0, 1);
    assert s[0..1] == s;
    NormalizeSpaceSpec(s);
    var t1 := NormalizeSpace(s);
    assert t1 == s;
    ZenToHanNumberSpec(t1);
    var t2 := ZenToHanNumber(t1);
    assert t2 == s;
    ZenToHanAlphabetSpec(t2);
  }

  /** Through NormalizeString a lone ﾞ becomes ASCII ": first ＂ by the kana pass, then " by the symbol pass. */
  lemma LoneVoicedMarkNormalized()
    ensures NormalizeString("ﾞ") == "\""
  {
    var s := "ﾞ";
    var t := ZenToHanAlphabet(ZenToHanNumber(NormalizeSpace(s)));
    assert t == s by {
      EarlyPassesKeepKana(s);
    }
    var u := HanToZenKana(t);
    assert u == "＂" by {
      HanToZenKanaLoneMark(1);
    }
    QuoteNarrowed();
  }

  /** The symbol pass turns the full-width quotation mark into the ASCII one. */
  lemma QuoteNarrowed()
    ensures ZenToHanSymbol("＂") == "\""
  {
    ZenToHanSymbolSpec("＂");
  }

  /** Through NormalizeString a lone ﾟ is deleted. */
  lemma LoneSemiVoicedMarkNormalized()
    ensures NormalizeString("ﾟ") == ""
  {
    EarlyPassesKeepKana("ﾟ");
    HanToZenKanaLoneMark(2);
  }
}
