/** What a search answers, in terms of the words of the query and the messages alone. */
module SearchMeaning {
  import opened Wrappers
  import opened Types
  import opened IndexTables
  import opened Ranking
  import opened SearchSpec
  import Text
  import Tokenize

  // ---- Words that count -----------------------------------------------------------------------

  /** Where the words of at least three bytes stand in a normalised query. */
  function LongWords(q: string): set<(nat, nat)> {
    set i: nat, j: nat | 0 <= i <= |q| && 0 <= j <= |q| && Text.IsWordAt(q, i, j) && Text.Utf8Len(q[i..j]) >= 3
      :: (i, j)
  }

  /** Those of them that occur in a text. */
  function MatchingWords(q: string, text: string): set<(nat, nat)> {
    set w | w in LongWords(q) && Text.Contains(text, q[w.0..w.1])
  }

  /** A word that counts; with a text, one that occurs in it. */
  predicate Picks(text: Option<string>, w: string) {
    Text.Utf8Len(w) >= 3 && (text.Some? ==> Text.Contains(text.value, w))
  }

  /** Where the picked words of a list are. */
  function Picked(words: seq<string>, text: Option<string>): set<nat> {
    set k: nat | k < |words| && Picks(text, words[k])
  }

  lemma PickedStep(words: seq<string>, text: Option<string>)
    requires words != []
    ensures var init := words[..|words| - 1];
            |Picked(words, text)| == |Picked(init, text)| + if Picks(text, words[|words| - 1]) then 1 else 0
  {
    var init, n := words[..|words| - 1], |words| - 1;
    assert forall k: nat | k < n :: words[k] == init[k];
    assert n !in Picked(init, text);
    assert Picked(words, text) == if Picks(text, words[n]) then Picked(init, text) + {n} else Picked(init, text);
  }

  lemma {:induction false} TermsArePicked(words: seq<string>)
    ensures |LongTerms(words)| == |Picked(words, None)|
  {
    if words == [] {
      assert Picked(words, None) == {};
    } else {
      TermsArePicked(words[..|words| - 1]);
      PickedStep(words, None);
    }
  }

  lemma MatchCountStep(terms: seq<string>, term: string, text: string)
    ensures MatchCount(terms + [term], text) == MatchCount(terms, text) + if Text.Contains(text, term) then 1 else 0
  {
    assert (terms + [term])[..|terms|] == terms;
  }

  lemma {:induction false} MatchesArePicked(words: seq<string>, text: string)
    ensures MatchCount(LongTerms(words), text) == |Picked(words, Some(text))|
  {
    if words == [] {
      assert Picked(words, Some(text)) == {};
    } else {
      var init, last := words[..|words| - 1], words[|words| - 1];
      MatchesArePicked(init, text);
      PickedStep(words, Some(text));
      MatchCountStep(LongTerms(init), last, text);
      assert LongTerms(init) + [] == LongTerms(init);
    }
  }

  /** The places of words that counting picks. */
  ghost predicate ArePlaces(places: set<(nat, nat)>, q: string, text: Option<string>) {
    forall i: nat, j: nat :: (i, j) in places <==> Text.IsWordAt(q, i, j) && Picks(text, q[i..j])
  }

  function PlaceOf(words: seq<string>, at: seq<nat>, k: nat): (nat, nat)
    requires |at| == |words| && k < |words|
  {
    (at[k], at[k] + |words[k]|)
  }

  lemma PickedHasPlace(q: string, w: string, i: nat, text: Option<string>, places: set<(nat, nat)>)
    requires ArePlaces(places, q, text) && Text.StandsAt(q, w, i)
    ensures (i, i + |w|) in places <==> Picks(text, w)
  {
  }

  lemma PlaceIsPicked(q: string, words: seq<string>, at: seq<nat>, text: Option<string>, places: set<(nat, nat)>,
                      i: nat, j: nat) returns (k: nat)
    requires Text.ListsWords(words, q, at) && ArePlaces(places, q, text) && (i, j) in places
    ensures k in Picked(words, text) && PlaceOf(words, at, k) == (i, j)
  {
    assert Text.IsWordAt(q, i, j);
    k := PlaceListed(q, words, at, i, j);
    PickedHasPlace(q, words[k], at[k], text, places);
  }

  lemma PlaceListed(q: string, words: seq<string>, at: seq<nat>, i: nat, j: nat) returns (k: nat)
    requires Text.ListsWords(words, q, at) && Text.IsWordAt(q, i, j)
    ensures k < |words| && PlaceOf(words, at, k) == (i, j) && Text.StandsAt(q, words[k], at[k])
  {
    assert Text.Listed(words, at, i, j);
    k :| 0 <= k < |words| && at[k] == i && |words[k]| == j - i;
  }

  lemma SameCount(picked: set<nat>, place: map<nat, (nat, nat)>, places: set<(nat, nat)>)
    requires place.Keys == picked && forall k | k in picked :: place[k] in places
    requires forall k, l | k in picked && l in picked && k != l :: place[k] != place[l]
    requires forall w | w in places :: exists k :: k in picked && place[k] == w
    ensures |places| == |picked|
  {
    ImageSize(picked, place);
    assert Image(picked, place) == places;
  }

  lemma PickedInPlaces(q: string, words: seq<string>, at: seq<nat>, text: Option<string>, places: set<(nat, nat)>,
                       k: nat)
    requires Text.ListsWords(words, q, at) && ArePlaces(places, q, text) && k in Picked(words, text)
    ensures PlaceOf(words, at, k) in places
  {
    PickedHasPlace(q, words[k], at[k], text, places);
  }

  function PlacesOf(words: seq<string>, at: seq<nat>, picked: set<nat>): (place: map<nat, (nat, nat)>)
    requires |at| == |words| && forall k | k in picked :: k < |words|
    ensures place.Keys == picked && forall k | k in picked :: place[k] == PlaceOf(words, at, k)
  {
    map k | k in picked :: PlaceOf(words, at, k)
  }

  lemma DistinctPlaces(words: seq<string>, at: seq<nat>, k: nat, l: nat)
    requires |at| == |words| && Text.Ascending(at) && k < |words| && l < |words| && k != l
    ensures PlaceOf(words, at, k) != PlaceOf(words, at, l)
  {
    assert k < l ==> at[k] < at[l];
    assert l < k ==> at[l] < at[k];
  }

  /** Picked words are as many as the places they stand at. */
  lemma PickedPlaces(q: string, words: seq<string>, at: seq<nat>, text: Option<string>, places: set<(nat, nat)>)
    requires Text.ListsWords(words, q, at) && ArePlaces(places, q, text)
    ensures |places| == |Picked(words, text)|
  {
    var picked := Picked(words, text);
    var place := PlacesOf(words, at, picked);
    forall k | k in picked ensures place[k] in places {
      PickedInPlaces(q, words, at, text, places, k);
    }
    forall w | w in places ensures exists k :: k in picked && place[k] == w {
      var k := PlaceIsPicked(q, words, at, text, places, w.0, w.1);
    }
    forall k, l | k in picked && l in picked && k != l ensures place[k] != place[l] {
      DistinctPlaces(words, at, k, l);
    }
    SameCount(picked, place, places);
  }

  /** The terms of a query are its words of at least three bytes, and every occurrence of a word in
      the query counts. */
  lemma TermsAreWords(lower: char -> string, query: string, text: string)
    ensures var q := Tokenize.Normalized(lower, query);
            && |Terms(lower, query)| == |LongWords(q)|
            && MatchCount(Terms(lower, query), text) == |MatchingWords(q, text)|
  {
    var q := Tokenize.Normalized(lower, query);
    var words := Text.SplitWhitespace(q);
    var at := Text.SplitListsWords(q);
    TermsArePicked(words);
    PickedPlaces(q, words, at, None, LongWords(q));
    MatchesArePicked(words, text);
    PickedPlaces(q, words, at, Some(text), MatchingWords(q, text));
  }

  lemma {:induction false} LongTermsMembers(words: seq<string>, t: string)
    ensures t in LongTerms(words) <==> t in words && Text.Utf8Len(t) >= 3
  {
    if words != [] {
      LongTermsMembers(words[..|words| - 1], t);
      assert words == words[..|words| - 1] + [words[|words| - 1]];
    }
  }

  /** The word at `w` in `q`. */
  function WordOf(q: string, w: (nat, nat)): string
    requires w in LongWords(q)
  {
    q[w.0..w.1]
  }

  lemma ListedStands(words: seq<string>, q: string, at: seq<nat>, t: string) returns (i: nat)
    requires Text.ListsWords(words, q, at) && t in words
    ensures Text.StandsAt(q, t, i)
  {
    var k :| 0 <= k < |words| && words[k] == t;
    i := at[k];
  }

  lemma TermsMembers(lower: char -> string, query: string, t: string)
    ensures var q := Tokenize.Normalized(lower, query);
            t in Terms(lower, query) <==> exists w :: w in LongWords(q) && WordOf(q, w) == t
  {
    var q := Tokenize.Normalized(lower, query);
    var words := Text.SplitWhitespace(q);
    var at := Text.SplitListsWords(q);
    LongTermsMembers(words, t);
    if t in Terms(lower, query) {
      var i := ListedStands(words, q, at, t);
      assert (i, i + |t|) in LongWords(q) && WordOf(q, (i, i + |t|)) == t;
    }
    if w :| w in LongWords(q) && WordOf(q, w) == t {
      PlaceHasTerm(lower, query, w, words, at);
    }
  }

  lemma PlaceHasTerm(lower: char -> string, query: string, w: (nat, nat), words: seq<string>, at: seq<nat>)
    requires var q := Tokenize.Normalized(lower, query);
             w in LongWords(q) && words == Text.SplitWhitespace(q) && Text.ListsWords(words, q, at)
    ensures WordOf(Tokenize.Normalized(lower, query), w) in Terms(lower, query)
  {
    var q := Tokenize.Normalized(lower, query);
    var k := PlaceListed(q, words, at, w.0, w.1);
    assert words[k] == WordOf(q, w) && words[k] in words;
    LongTermsMembers(words, words[k]);
  }

  // ---- What the hits are ----------------------------------------------------------------------

  /** Every n-gram of the word is one of the message. */
  ghost predicate HoldsNgrams(e: DocEntry, word: string) {
    forall g | Tokenize.IsNgramOf(word, g) :: Tokenize.IsNgramOf(e.contentNormalized, g)
  }

  /** The word has an n-gram, and more than 10,000 messages hold all of its n-grams. */
  ghost predicate TooBroad(c: Contents, word: string) {
    (exists g :: Tokenize.IsNgramOf(word, g)) && |set k | k in c && HoldsNgrams(c[k], word)| > 10_000
  }

  ghost predicate AnyTooBroad(c: Contents, q: string) {
    exists w :: w in LongWords(q) && TooBroad(c, WordOf(q, w))
  }

  /** How many words of the query the message has; none are counted once a word is too broad. */
  ghost function Score(c: Contents, k: Key, q: string): nat
    requires k in c
  {
    if AnyTooBroad(c, q) then 0 else |MatchingWords(q, c[k].contentNormalized)|
  }

  /** The message may be hit: it is not of the excluded thread, and has some word of the query
      unless one is too broad. */
  ghost predicate Qualifies(c: Contents, k: Key, q: string, exclude: Option<ThreadId>)
    requires k in c
  {
    exclude != Some(k.0) && LongWords(q) != {} && (AnyTooBroad(c, q) || Score(c, k, q) > 0)
  }

  /** The hit shows a message that qualifies, with its count. */
  ghost predicate IsHit(h: Hit, c: Contents, q: string, exclude: Option<ThreadId>) {
    var k := (h.threadId, h.messageId);
    && k in c && Qualifies(c, k, q, exclude)
    && h.role == c[k].role && h.content == c[k].content && h.createdAt == c[k].createdAt
    && h.matched == Score(c, k, q) && h.total == |LongWords(q)|
  }

  /** More words, or as many and no older. */
  predicate NoWorse(h: Hit, matched: int, at: string, millis: string -> int) {
    h.matched > matched || (h.matched == matched && millis(h.createdAt) >= millis(at))
  }

  ghost predicate IsHitAt(hits: seq<Hit>, n: nat, k: Key) {
    n < |hits| && (hits[n].threadId, hits[n].messageId) == k
  }

  /** The best `limit` messages for a normalised query: those with most words of it first, of as
      many the newest first, none twice, and no message left out that is better or that there was
      room for. */
  ghost predicate IsBest(hits: seq<Hit>, c: Contents, q: string, limit: nat, exclude: Option<ThreadId>,
                         millis: string -> int)
  {
    && |hits| <= limit
    && (forall n | 0 <= n < |hits| :: IsHit(hits[n], c, q, exclude))
    && (forall m, n | 0 <= m < n < |hits| :: NoWorse(hits[m], hits[n].matched, hits[n].createdAt, millis)
          && (hits[m].threadId, hits[m].messageId) != (hits[n].threadId, hits[n].messageId))
    && (forall k | k in c && Qualifies(c, k, q, exclude) && !(exists n :: IsHitAt(hits, n, k)) ::
          |hits| == limit
          && forall n | 0 <= n < |hits| :: NoWorse(hits[n], Score(c, k, q), c[k].createdAt, millis))
  }

  /** What an inserted message looks like. */
  ghost predicate WellFormed(c: Contents, lower: char -> string, millis: string -> int) {
    forall k | k in c ::
      && c[k].Key() == k && c[k].createdAtMs == millis(c[k].createdAt)
      && c[k].contentNormalized == Tokenize.Normalized(lower, c[k].content)
  }

  lemma BroadIsOverflow(c: Contents, word: string)
    ensures TooBroad(c, word) <==> Overflows(c, word)
  {
    forall k | k in c ensures HoldsNgrams(c[k], word) <==> HasAllNgrams(c[k], word) {
      HoldsIsHasAll(c[k], word);
    }
    assert CandidateKeys(c, word) == set k | k in c && HoldsNgrams(c[k], word);
    if Tokenize.NgramsOf(word) != [] {
      Tokenize.NgramExact(word, Tokenize.NgramsOf(word)[0]);
    }
    if g :| Tokenize.IsNgramOf(word, g) {
      Tokenize.NgramExact(word, g);
    }
  }

  lemma HoldsIsHasAll(e: DocEntry, word: string)
    ensures HoldsNgrams(e, word) <==> HasAllNgrams(e, word)
  {
    forall g: string
      ensures Tokenize.IsNgramOf(word, g) <==> g in Tokenize.NgramsOf(word)
      ensures Tokenize.IsNgramOf(e.contentNormalized, g) <==> HasNgram(e, g)
    {
      Tokenize.NgramExact(word, g);
      Tokenize.NgramExact(e.contentNormalized, g);
    }
  }

  lemma AnyBroadIsOverflow(lower: char -> string, c: Contents, query: string)
    ensures AnyTooBroad(c, Tokenize.Normalized(lower, query))
       <==> exists t :: t in Terms(lower, query) && Overflows(c, t)
  {
    var q := Tokenize.Normalized(lower, query);
    if w :| w in LongWords(q) && TooBroad(c, WordOf(q, w)) {
      TermsMembers(lower, query, WordOf(q, w));
      BroadIsOverflow(c, WordOf(q, w));
    }
    if t :| t in Terms(lower, query) && Overflows(c, t) {
      TermsMembers(lower, query, t);
      BroadIsOverflow(c, t);
    }
  }

  /** The ranks the search uses, read as scores. */
  ghost predicate AreScores(ranks: map<Key, Rank>, c: Contents, q: string, exclude: Option<ThreadId>,
                            millis: string -> int)
  {
    && (forall k :: k in ranks <==> k in c && Qualifies(c, k, q, exclude))
    && (forall k | k in ranks :: ranks[k] == Rank(Score(c, k, q), millis(c[k].createdAt)))
  }

  lemma RecencyRanksAreScores(lower: char -> string, millis: string -> int, c: Contents, q: string,
                              exclude: Option<ThreadId>)
    requires WellFormed(c, lower, millis) && LongWords(q) != {} && AnyTooBroad(c, q)
    ensures AreScores(RecencyRanks(c, exclude), c, q, exclude, millis)
  {
    assert forall k | k in c :: Visible(c[k], exclude) <==> exclude != Some(k.0);
  }

  /** The scores that counting terms gives. */
  ghost predicate CountsAreScores(terms: seq<string>, c: Contents, q: string) {
    forall k | k in c :: MatchCount(terms, c[k].contentNormalized) == Score(c, k, q)
  }

  lemma MatchRanksAreScores(lower: char -> string, millis: string -> int, c: Contents, terms: seq<string>, q: string,
                            exclude: Option<ThreadId>)
    requires WellFormed(c, lower, millis) && LongWords(q) != {} && !AnyTooBroad(c, q) && CountsAreScores(terms, c, q)
    ensures AreScores(MatchRanks(c, terms, exclude), c, q, exclude, millis)
  {
    assert forall k | k in c :: Visible(c[k], exclude) <==> exclude != Some(k.0);
  }

  lemma TermCountsAreScores(lower: char -> string, c: Contents, query: string)
    requires !AnyTooBroad(c, Tokenize.Normalized(lower, query))
    ensures CountsAreScores(Terms(lower, query), c, Tokenize.Normalized(lower, query))
  {
    var q := Tokenize.Normalized(lower, query);
    forall k | k in c ensures MatchCount(Terms(lower, query), c[k].contentNormalized) == Score(c, k, q) {
      TermsAreWords(lower, query, c[k].contentNormalized);
    }
  }

  lemma OmittedMeansFull<K>(sel: seq<K>, ranks: map<K, Rank>, limit: nat, k: K)
    requires IsTopSelection(sel, ranks, limit) && k in ranks && k !in sel
    ensures |sel| == limit
  {
    DistinctCount(sel);
    assert ToSet(sel) <= ranks.Keys - {k};
    assert ranks.Keys == ToSet(sel) + (ranks.Keys - ToSet(sel));
    assert k in ranks.Keys - ToSet(sel);
    assert |ranks| == |ranks.Keys|;
  }

  lemma ListedIsHit(hits: seq<Hit>, c: Contents, ranks: map<Key, Rank>, q: string, limit: nat,
                    exclude: Option<ThreadId>, millis: string -> int, n: nat)
    requires IsHitList(hits, c, ranks, limit, |LongWords(q)|) && AreScores(ranks, c, q, exclude, millis)
    requires (forall k | k in c :: c[k].Key() == k) && n < |hits|
    ensures IsHit(hits[n], c, q, exclude)
    ensures var k := HitKeys(hits)[n];
            k in ranks && ranks[k] == Rank(hits[n].matched, millis(hits[n].createdAt)) && IsHitAt(hits, n, k)
  {
    var k := HitKeys(hits)[n];
    assert k in ranks && hits[n] == HitFor(c[k], ranks[k].first, |LongWords(q)|);
  }

  lemma ListIsBest(hits: seq<Hit>, c: Contents, ranks: map<Key, Rank>, q: string, limit: nat,
                   exclude: Option<ThreadId>, millis: string -> int)
    requires IsHitList(hits, c, ranks, limit, |LongWords(q)|) && AreScores(ranks, c, q, exclude, millis)
    requires forall k | k in c :: c[k].Key() == k
    ensures IsBest(hits, c, q, limit, exclude, millis)
  {
    var keys := HitKeys(hits);
    forall n | 0 <= n < |hits|
      ensures IsHit(hits[n], c, q, exclude) && keys[n] in ranks && IsHitAt(hits, n, keys[n])
      ensures ranks[keys[n]] == Rank(hits[n].matched, millis(hits[n].createdAt))
    {
      ListedIsHit(hits, c, ranks, q, limit, exclude, millis, n);
    }
    forall m, n | 0 <= m < n < |hits|
      ensures NoWorse(hits[m], hits[n].matched, hits[n].createdAt, millis)
      ensures (hits[m].threadId, hits[m].messageId) != (hits[n].threadId, hits[n].messageId)
    {
      assert !Outranks(ranks[keys[n]], ranks[keys[m]]) && keys[m] != keys[n];
    }
    forall k | k in c && Qualifies(c, k, q, exclude) && !(exists n :: IsHitAt(hits, n, k))
      ensures |hits| == limit
      ensures forall n | 0 <= n < |hits| :: NoWorse(hits[n], Score(c, k, q), c[k].createdAt, millis)
    {
      assert k in ranks && k !in keys;
      OmittedMeansFull(keys, ranks, limit, k);
      assert forall n | 0 <= n < |hits| :: !Outranks(ranks[k], ranks[keys[n]]);
    }
  }

  /** An answer of the search is the best answer, read off the words of the query and the messages. */
  lemma AnswerIsBest(hits: seq<Hit>, lower: char -> string, millis: string -> int, c: Contents, query: string,
                     limit: nat, exclude: Option<ThreadId>)
    requires WellFormed(c, lower, millis) && IsAnswer(hits, c, Terms(lower, query), limit, exclude)
    ensures IsBest(hits, c, Tokenize.Normalized(lower, query), limit, exclude, millis)
  {
    var q := Tokenize.Normalized(lower, query);
    TermsAreWords(lower, query, "");
    if limit > 0 && Terms(lower, query) != [] {
      AnyBroadIsOverflow(lower, c, query);
      if AnyTooBroad(c, q) {
        RecencyRanksAreScores(lower, millis, c, q, exclude);
        ListIsBest(hits, c, RecencyRanks(c, exclude), q, limit, exclude, millis);
      } else {
        TermCountsAreScores(lower, c, query);
        MatchRanksAreScores(lower, millis, c, Terms(lower, query), q, exclude);
        ListIsBest(hits, c, MatchRanks(c, Terms(lower, query), exclude), q, limit, exclude, millis);
      }
    }
  }

  // ---- Raw text -------------------------------------------------------------------------------

  /** What is in front of a word, or behind it, keeps it apart. */
  predicate EndsApart(s: string) {
    s == "" || Text.IsWhitespace(s[|s| - 1])
  }

  predicate StartsApart(s: string) {
    s == "" || Text.IsWhitespace(s[0])
  }

  lemma WordBetween(before: string, word: string, after: string)
    requires Text.NoWhitespace(word) && word != "" && EndsApart(before) && StartsApart(after)
    ensures Text.StandsAt(before + word + after, word, |before|)
  {
    var q := before + word + after;
    assert q[|before|..|before| + |word|] == word;
    assert forall k | |before| <= k < |before| + |word| :: q[k] == word[k - |before|];
  }

  lemma LongWordQualifies(c: Contents, k: Key, q: string, word: string, i: nat, exclude: Option<ThreadId>)
    requires k in c && Text.Contains(c[k].contentNormalized, word) && exclude != Some(k.0)
    requires Text.StandsAt(q, word, i) && Text.Utf8Len(word) >= 3
    ensures Qualifies(c, k, q, exclude)
  {
    var place := (i, i + |word|);
    assert place in LongWords(q);
    assert place in MatchingWords(q, c[k].contentNormalized);
  }

  /** A word anywhere in the query that is a raw substring of a message of another thread makes
      that message a match: case, diacritics, width and script runs included. */
  lemma RawWordMatches(lower: char -> string, threadId: ThreadId, m: Message, before: string, word: string,
                       after: string, exclude: Option<ThreadId>, c: Contents)
    requires Text.Contains(m.content, word)
    requires Text.NoWhitespace(Tokenize.Normalized(lower, word))
    requires Text.Utf8Len(Tokenize.Normalized(lower, word)) >= 3
    requires EndsApart(Tokenize.Normalized(lower, before)) && StartsApart(Tokenize.Normalized(lower, after))
    requires (threadId, m.id) in c
    requires c[(threadId, m.id)].contentNormalized == Tokenize.Normalized(lower, m.content)
    requires exclude != Some(threadId)
    ensures Qualifies(c, (threadId, m.id), Tokenize.Normalized(lower, before + word + after), exclude)
  {
    Tokenize.NormalizeConcat(lower, before + word, after);
    Tokenize.NormalizeConcat(lower, before, word);
    Tokenize.NormalizeKeepsSubstrings(lower, m.content, word);
    var b, w, a := Tokenize.Normalized(lower, before), Tokenize.Normalized(lower, word), Tokenize.Normalized(lower, after);
    WordBetween(b, w, a);
    LongWordQualifies(c, (threadId, m.id), b + w + a, w, |b|, exclude);
  }
}
