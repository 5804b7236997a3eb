/** Text normalisation and n-grams. Lowercasing is a parameter: any map that satisfies `Lowercasing`. */
module Tokenize {
  import opened Wrappers
  import Text

  // ---- Normalisation tables -------------------------------------------------------------

  predicate IsCombiningMark(c: char) {
    var u := c as int;
    || 0x0300 <= u <= 0x036F || 0x0483 <= u <= 0x0489 || 0x0591 <= u <= 0x05BD
    || u == 0x05BF || u == 0x05C1 || u == 0x05C2 || u == 0x05C4 || u == 0x05C5 || u == 0x05C7
    || 0x0610 <= u <= 0x061A || 0x064B <= u <= 0x065F || u == 0x0670
    || 0x06D6 <= u <= 0x06DC || 0x06DF <= u <= 0x06E4 || u == 0x06E7 || u == 0x06E8
    || 0x06EA <= u <= 0x06ED || 0xFE20 <= u <= 0xFE2F
  }

  predicate IsAsciiLower(c: char) {
    'a' <= c <= 'z'
  }

  function FoldNonDecomposing(c: char): (r: Option<string>)
    ensures r.Some? ==> 1 <= |r.value| && forall i | 0 <= i < |r.value| :: IsAsciiLower(r.value[i])
    ensures r.Some? ==> c as int >= 0xDF
  {
    match c
    case 'ł' => Some("l")
    case 'ø' => Some("o")
    case 'ß' => Some("ss")
    case 'æ' => Some("ae")
    case 'œ' => Some("oe")
    case 'þ' => Some("th")
    case 'ð' => Some("d")
    case 'đ' => Some("d")
    case 'ħ' => Some("h")
    case 'ı' => Some("i")
    case 'ŋ' => Some("n")
    case _ => None
  }

  function StripLatinDiacritic(c: char): (r: Option<char>)
    ensures r.Some? ==> IsAsciiLower(r.value) && 0xE0 <= c as int <= 0x17E
  {
    match c
    case 'à' | 'á' | 'â' | 'ã' | 'ä' | 'å' | 'ā' | 'ă' | 'ą' => Some('a')
    case 'ç' | 'ć' | 'ĉ' | 'ċ' | 'č' => Some('c')
    case 'ď' => Some('d')
    case 'è' | 'é' | 'ê' | 'ë' | 'ē' | 'ĕ' | 'ė' | 'ę' | 'ě' => Some('e')
    case 'ĝ' | 'ğ' | 'ġ' | 'ģ' => Some('g')
    case 'ĥ' => Some('h')
    case 'ì' | 'í' | 'î' | 'ï' | 'ĩ' | 'ī' | 'ĭ' | 'į' => Some('i')
    case 'ĵ' => Some('j')
    case 'ķ' => Some('k')
    case 'ĺ' | 'ļ' | 'ľ' | 'ŀ' => Some('l')
    case 'ñ' | 'ń' | 'ņ' | 'ň' => Some('n')
    case 'ò' | 'ó' | 'ô' | 'õ' | 'ö' | 'ō' | 'ŏ' | 'ő' => Some('o')
    case 'ŕ' | 'ŗ' | 'ř' => Some('r')
    case 'ś' | 'ŝ' | 'ş' | 'š' => Some('s')
    case 'ţ' | 'ť' | 'ŧ' => Some('t')
    case 'ù' | 'ú' | 'û' | 'ü' | 'ũ' | 'ū' | 'ŭ' | 'ů' | 'ű' | 'ų' => Some('u')
    case 'ŵ' => Some('w')
    case 'ý' | 'ÿ' | 'ŷ' => Some('y')
    case 'ź' | 'ż' | 'ž' => Some('z')
    case _ => None
  }

  function FullwidthToAscii(c: char): (r: Option<char>)
    ensures r.Some? ==> ' ' <= r.value <= '~' && c as int >= 0x3000
  {
    var u := c as int;
    if 0xFF01 <= u <= 0xFF5E then Some((u - 0xFEE0) as char)
    else if u == 0x3000 then Some(' ')
    else None
  }

  type Katakana = u: int | 0x30A1 <= u <= 0x30FC witness 0x30A1

  /** Full-width katakana for U+FF66..U+FF9D, in order. */
  const HW_KATAKANA: seq<Katakana> := [
    0x30F2, 0x30A1, 0x30A3, 0x30A5, 0x30A7, 0x30A9, 0x30E3, 0x30E5, 0x30E7, 0x30C3, 0x30FC,
    0x30A2, 0x30A4, 0x30A6, 0x30A8, 0x30AA, 0x30AB, 0x30AD, 0x30AF, 0x30B1, 0x30B3, 0x30B5,
    0x30B7, 0x30B9, 0x30BB, 0x30BD, 0x30BF, 0x30C1, 0x30C4, 0x30C6, 0x30C8, 0x30CA, 0x30CB,
    0x30CC, 0x30CD, 0x30CE, 0x30CF, 0x30D2, 0x30D5, 0x30D8, 0x30DB, 0x30DE, 0x30DF, 0x30E0,
    0x30E1, 0x30E2, 0x30E4, 0x30E6, 0x30E8, 0x30E9, 0x30EA, 0x30EB, 0x30EC, 0x30ED, 0x30EF,
    0x30F3]

  function HalfwidthToFullwidth(c: char): (r: Option<char>)
    ensures r.Some? ==> 0x30A1 <= r.value as int <= 0x30FC
  {
    var u := c as int;
    if 0xFF66 <= u <= 0xFF9D then Some(HW_KATAKANA[u - 0xFF66] as char) else None
  }

  /** What one lowercased character becomes. */
  function FoldChar(c: char): string {
    if IsCombiningMark(c) then []
    else if FoldNonDecomposing(c).Some? then FoldNonDecomposing(c).value
    else if StripLatinDiacritic(c).Some? then [StripLatinDiacritic(c).value]
    else if FullwidthToAscii(c).Some? then [FullwidthToAscii(c).value]
    else if HalfwidthToFullwidth(c).Some? then [HalfwidthToFullwidth(c).value]
    else [c]
  }

  /** The small Latin letters with accents and ligatures of Latin-1 become plain small letters; the
      accent marks U+0300 to U+036F vanish; full-width forms become ASCII, half-width katakana
      full-width katakana. */
  lemma FoldsMean(c: char)
    ensures 0xDF <= c as int <= 0xFF && c as int != 0xF7 ==>
              1 <= |FoldChar(c)| <= 2 && forall k | 0 <= k < |FoldChar(c)| :: 'a' <= FoldChar(c)[k] <= 'z'
    ensures 0x300 <= c as int <= 0x36F ==> FoldChar(c) == ""
    ensures 0xFF01 <= c as int <= 0xFF5E ==> FoldChar(c) == [(c as int - 0xFF01 + '!' as int) as char]
    ensures 0xFF66 <= c as int <= 0xFF9D ==> |FoldChar(c)| == 1 && 0x30A1 <= FoldChar(c)[0] as int <= 0x30FC
  {
  }

  // ---- Normalisation --------------------------------------------------------------------

  /** A per-character string map, applied along a string. */
  function FlatMap(f: char -> string, s: string): string {
    if s == [] then [] else FlatMap(f, s[..|s| - 1]) + f(s[|s| - 1])
  }

  /** The string `normalize` promises: lowercase every character, then fold every character. */
  function Normalized(lower: char -> string, s: string): string {
    FlatMap(FoldChar, FlatMap(lower, s))
  }

  predicate Fixes(lower: char -> string, c: char) {
    lower(c) == [c]
  }

  /** The facts of Unicode lowercasing that normalisation rests on. */
  ghost predicate Lowercasing(lower: char -> string) {
    // lowercase output is already lowercase
    && (forall c, k | 0 <= k < |lower(c)| :: Fixes(lower, lower(c)[k]))
    // ASCII outside A-Z and katakana have no case
    && (forall c: char | ' ' <= c <= '~' && !('A' <= c <= 'Z') :: Fixes(lower, c))
    && (forall c: char | 0x30A1 <= c as int <= 0x30FC :: Fixes(lower, c))
    // full-width capitals do
    && (forall c: char | 0xFF21 <= c as int <= 0xFF3A :: !Fixes(lower, c))
  }

  /** A concrete lowercasing (ASCII and full-width Latin), so the facts above are consistent. */
  function AsciiAndFullwidthLower(c: char): string {
    var u := c as int;
    if 'A' <= c <= 'Z' || 0xFF21 <= u <= 0xFF3A then [(u + 32) as char] else [c]
  }

  lemma LowercasingIsInhabited()
    ensures Lowercasing(AsciiAndFullwidthLower)
  {
  }

  /** A character neither table nor lowercasing touches. */
  predicate Settled(lower: char -> string, c: char) {
    Fixes(lower, c) && FoldChar(c) == [c]
  }

  lemma AsciiUnfolded(c: char)
    requires ' ' <= c <= '~'
    ensures FoldChar(c) == [c]
  {
  }

  lemma KatakanaUnfolded(c: char)
    requires 0x30A1 <= c as int <= 0x30FC
    ensures FoldChar(c) == [c]
  {
  }

  /** Every character the folds emit for a lowercased character is settled. */
  lemma FoldOutputSettled(lower: char -> string, c: char, k: nat)
    requires Lowercasing(lower) && Fixes(lower, c) && k < |FoldChar(c)|
    ensures Settled(lower, FoldChar(c)[k])
  {
    var o := FoldChar(c)[k];
    if ' ' <= o <= '~' {
      AsciiUnfolded(o);
    } else if 0x30A1 <= o as int <= 0x30FC {
      KatakanaUnfolded(o);
    }
  }

  lemma {:induction false} FlatMapConcat(f: char -> string, a: string, b: string)
    ensures FlatMap(f, a + b) == FlatMap(f, a) + FlatMap(f, b)
  {
    if b == [] {
      assert a + b == a;
    } else {
      var ab := a + b;
      assert ab[..|ab| - 1] == a + b[..|b| - 1];
      FlatMapConcat(f, a, b[..|b| - 1]);
    }
  }

  /** Every character of a flat-mapped string comes out of one mapped character. */
  lemma {:induction false} FlatMapOrigin(f: char -> string, s: string, k: nat)
    requires k < |FlatMap(f, s)|
    ensures exists i, j | 0 <= i < |s| && 0 <= j < |f(s[i])| :: FlatMap(f, s)[k] == f(s[i])[j]
  {
    var init := s[..|s| - 1];
    if k < |FlatMap(f, init)| {
      FlatMapOrigin(f, init, k);
      var i, j :| 0 <= i < |init| && 0 <= j < |f(init[i])| && FlatMap(f, init)[k] == f(init[i])[j];
      assert s[i] == init[i];
    } else {
      assert FlatMap(f, s)[k] == f(s[|s| - 1])[k - |FlatMap(f, init)|];
    }
  }

  lemma {:induction false} FlatMapFixed(f: char -> string, s: string)
    requires forall i | 0 <= i < |s| :: f(s[i]) == [s[i]]
    ensures FlatMap(f, s) == s
  {
    if s != [] {
      FlatMapFixed(f, s[..|s| - 1]);
    }
  }

  lemma NormalizedSettled(lower: char -> string, s: string, k: nat)
    requires Lowercasing(lower) && k < |Normalized(lower, s)|
    ensures Settled(lower, Normalized(lower, s)[k])
  {
    var low := FlatMap(lower, s);
    FlatMapOrigin(FoldChar, low, k);
    var i, j :| 0 <= i < |low| && 0 <= j < |FoldChar(low[i])|
                && Normalized(lower, s)[k] == FoldChar(low[i])[j];
    FlatMapOrigin(lower, s, i);
    var p, q :| 0 <= p < |s| && 0 <= q < |lower(s[p])| && low[i] == lower(s[p])[q];
    FoldOutputSettled(lower, low[i], j);
  }

  /** Normalising twice is normalising once. */
  lemma NormalizeIdempotent(lower: char -> string, s: string)
    requires Lowercasing(lower)
    ensures Normalized(lower, Normalized(lower, s)) == Normalized(lower, s)
  {
    var n := Normalized(lower, s);
    forall k | 0 <= k < |n| ensures Settled(lower, n[k]) {
      NormalizedSettled(lower, s, k);
    }
    FlatMapFixed(lower, n);
    FlatMapFixed(FoldChar, n);
  }

  lemma NormalizeConcat(lower: char -> string, a: string, b: string)
    ensures Normalized(lower, a + b) == Normalized(lower, a) + Normalized(lower, b)
  {
    FlatMapConcat(lower, a, b);
    FlatMapConcat(FoldChar, FlatMap(lower, a), FlatMap(lower, b));
  }

  /** A raw substring stays a substring after normalising both sides. */
  lemma NormalizeKeepsSubstrings(lower: char -> string, s: string, t: string)
    requires Text.Contains(s, t)
    ensures Text.Contains(Normalized(lower, s), Normalized(lower, t))
  {
    var a :| 0 <= a <= |s| && Text.OccursAt(s, t, a);
    var l, r := s[..a], s[a + |t|..];
    assert s == l + t + r;
    NormalizeConcat(lower, l + t, r);
    NormalizeConcat(lower, l, t);
    var nl, nt, nr := Normalized(lower, l), Normalized(lower, t), Normalized(lower, r);
    var ns := Normalized(lower, s);
    assert ns == nl + nt + nr;
    assert Text.OccursAt(ns, nt, |nl|);
  }

  /** `normalize`: lowercase into one buffer, then push each character's fold into another. */
  method Normalize(lower: char -> string, text: string) returns (out: string)
    ensures out == Normalized(lower, text)
  {
    var lowered := "";
    for i := 0 to |text|
      invariant lowered == FlatMap(lower, text[..i])
    {
      assert text[..i + 1][..i] == text[..i];
      lowered := lowered + lower(text[i]);
    }
    assert text[..|text|] == text;
    out := "";
    for i := 0 to |lowered|
      invariant out == FlatMap(FoldChar, lowered[..i])
    {
      var c := lowered[i];
      assert lowered[..i + 1][..i] == lowered[..i];
      if IsCombiningMark(c) {
        assert out == out + FoldChar(c);
        continue;
      }
      if FoldNonDecomposing(c).Some? {
        out := out + FoldNonDecomposing(c).value;
      } else if StripLatinDiacritic(c).Some? {
        out := out + [StripLatinDiacritic(c).value];
      } else if FullwidthToAscii(c).Some? {
        out := out + [FullwidthToAscii(c).value];
      } else if HalfwidthToFullwidth(c).Some? {
        out := out + [HalfwidthToFullwidth(c).value];
      } else {
        out := out + [c];
      }
    }
    assert lowered[..|lowered|] == lowered;
  }

  // ---- N-grams --------------------------------------------------------------------------

  predicate IsCjk(c: char) {
    var u := c as int;
    || 0x3040 <= u <= 0x309F || 0x30A0 <= u <= 0x30FF || 0x3400 <= u <= 0x4DBF
    || 0x4E00 <= u <= 0x9FFF || 0xF900 <= u <= 0xFAFF || 0x1100 <= u <= 0x11FF
    || 0xAC00 <= u <= 0xD7AF
  }

  /** Window width for the script class of `c`: CJK bigrams, trigrams for the rest. */
  function Width(c: char): (n: nat)
    ensures n == 2 || n == 3
  {
    if IsCjk(c) then 2 else 3
  }

  /** A window opens at `k`: enough characters are left and they share the class of the first. */
  predicate IsWindow(s: string, k: nat)
    requires k < |s|
  {
    && k + Width(s[k]) <= |s|
    && forall i | k <= i < k + Width(s[k]) :: IsCjk(s[i]) == IsCjk(s[k])
  }

  function Window(s: string, k: nat): string
    requires k < |s| && IsWindow(s, k)
  {
    s[k..k + Width(s[k])]
  }

  /** The windows that open before position `k`, in order. No run is ever computed here. */
  function WindowsBefore(s: string, k: nat): seq<string>
    requires k <= |s|
  {
    if k == 0 then []
    else WindowsBefore(s, k - 1) + if IsWindow(s, k - 1) then [Window(s, k - 1)] else []
  }

  function NgramsOf(s: string): seq<string> {
    WindowsBefore(s, |s|)
  }

  /** The n-gram `g` opens at position `i` of `s`. */
  predicate Opens(s: string, g: string, i: nat) {
    i < |s| && IsWindow(s, i) && Window(s, i) == g
  }

  lemma {:induction false} WindowsBeforeMember(s: string, k: nat, g: string)
    requires k <= |s|
    ensures g in WindowsBefore(s, k) <==> exists i: nat | i < k :: Opens(s, g, i)
  {
    if k > 0 {
      WindowsBeforeMember(s, k - 1, g);
      assert g in WindowsBefore(s, k) <==> g in WindowsBefore(s, k - 1) || Opens(s, g, k - 1);
    }
  }

  lemma NgramMember(s: string, g: string)
    ensures g in NgramsOf(s) <==> exists i: nat :: Opens(s, g, i)
  {
    WindowsBeforeMember(s, |s|, g);
  }

  /** `g` is a substring of `s`: two CJK characters or three others. */
  predicate IsNgramOf(s: string, g: string) {
    && Text.Contains(s, g)
    && ((|g| == 2 && IsCjk(g[0]) && IsCjk(g[1])) || (|g| == 3 && !IsCjk(g[0]) && !IsCjk(g[1]) && !IsCjk(g[2])))
  }

  /** The n-grams are exactly the CJK bigrams and the other trigrams. */
  lemma NgramExact(s: string, g: string)
    ensures g in NgramsOf(s) <==> IsNgramOf(s, g)
  {
    NgramMember(s, g);
    if i: nat :| Opens(s, g, i) {
      assert forall j | 0 <= j < |g| :: g[j] == s[i + j];
      assert Text.OccursAt(s, g, i);
    }
    if IsNgramOf(s, g) {
      var a :| 0 <= a <= |s| && Text.OccursAt(s, g, a);
      assert forall j | 0 <= j < |g| :: g[j] == s[a + j];
      assert forall j | a <= j < a + |g| :: s[j] == g[j - a];
      assert Opens(s, g, a);
    }
  }

  lemma WindowShift(s: string, t: string, a: nat, g: string, i: nat)
    requires Text.OccursAt(s, t, a) && Opens(t, g, i)
    ensures Opens(s, g, a + i)
  {
    assert forall j | 0 <= j < |t| :: t[j] == s[a + j];
    forall j | a + i <= j < a + i + Width(s[a + i]) ensures IsCjk(s[j]) == IsCjk(s[a + i]) {
      assert s[j] == t[j - a];
    }
  }

  /** Phase 1 loses nothing: cutting a term out of a text anywhere, even inside a script run,
      yields only n-grams the text has too. */
  lemma SubstringNgrams(s: string, t: string, g: string)
    requires Text.Contains(s, t) && g in NgramsOf(t)
    ensures g in NgramsOf(s)
  {
    var a :| 0 <= a <= |s| && Text.OccursAt(s, t, a);
    NgramMember(t, g);
    var i: nat :| Opens(t, g, i);
    WindowShift(s, t, a, g, i);
    NgramMember(s, g);
  }

  /** Between a run's last full window and the run's end no window opens. */
  lemma {:induction false} NoWindowsNearRunEnd(s: string, from: nat, j: nat)
    requires from <= j <= |s|
    requires forall k | from <= k < j :: !IsWindow(s, k)
    ensures WindowsBefore(s, j) == WindowsBefore(s, from)
  {
    if from < j {
      NoWindowsNearRunEnd(s, from, j - 1);
    }
  }

  /** The end of the same-class run that starts at `i`. */
  method RunEnd(s: string, i: nat) returns (j: nat)
    requires i < |s|
    ensures i < j <= |s|
    ensures forall k | i <= k < j :: IsCjk(s[k]) == IsCjk(s[i])
    ensures j < |s| ==> IsCjk(s[j]) != IsCjk(s[i])
  {
    j := i + 1;
    while j < |s| && IsCjk(s[j]) == IsCjk(s[i])
      invariant i < j <= |s|
      invariant forall k | i <= k < j :: IsCjk(s[k]) == IsCjk(s[i])
    {
      j := j + 1;
    }
  }

  /** `ngrams`: walk maximal same-class runs `i..j` and emit each run's windows `k`. */
  method Ngrams(s: string) returns (out: seq<string>)
    ensures out == NgramsOf(s)
  {
    out := [];
    var i: nat := 0;
    while i < |s|
      invariant i <= |s|
      invariant out == WindowsBefore(s, i)
    {
      var j := RunEnd(s, i);
      var n := if IsCjk(s[i]) then 2 else 3;
      var next := i;
      if j - i >= n {
        for k := i to j - n + 1
          invariant out == WindowsBefore(s, k)
        {
          assert IsWindow(s, k);
          out := out + [s[k..k + n]];
        }
        next := j - n + 1;
      }
      forall k: nat | next <= k < j ensures !IsWindow(s, k) {
        assert Width(s[k]) == n && k + n > j;
      }
      NoWindowsNearRunEnd(s, next, j);
      i := j;
    }
  }
}
