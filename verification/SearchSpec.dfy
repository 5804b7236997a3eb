/** What a cross-thread search must answer, stated over the indexed messages alone. */
module SearchSpec {
  import opened Wrappers
  import opened Types
  import opened IndexTables
  import opened Ranking
  import Text
  import Tokenize

  const MIN_TERM_BYTES: nat := 3
  const LARGE_CANDIDATE_LIMIT: nat := 10_000

  function LongTerms(words: seq<string>): seq<string> {
    if words == [] then []
    else
      var last := words[|words| - 1];
      LongTerms(words[..|words| - 1]) + if Text.Utf8Len(last) >= MIN_TERM_BYTES then [last] else []
  }

  /** The query terms that count: normalised words of at least three bytes, repeats kept. */
  function Terms(lower: char -> string, query: string): seq<string> {
    LongTerms(Text.SplitWhitespace(Tokenize.Normalized(lower, query)))
  }

  /** How many term positions occur in `content`; a repeated word counts each time. */
  function MatchCount(terms: seq<string>, content: string): nat {
    if terms == [] then 0
    else MatchCount(terms[..|terms| - 1], content)
         + if Text.Contains(content, terms[|terms| - 1]) then 1 else 0
  }

  lemma {:induction false} MatchCountPositive(terms: seq<string>, content: string)
    ensures MatchCount(terms, content) > 0 <==> exists t :: t in terms && Text.Contains(content, t)
    ensures MatchCount(terms, content) <= |terms|
  {
    if terms != [] {
      MatchCountPositive(terms[..|terms| - 1], content);
      assert terms == terms[..|terms| - 1] + [terms[|terms| - 1]];
    }
  }

  /** The different terms that occur in `content`. */
  function MatchingTerms(terms: seq<string>, content: string): set<string> {
    set t | t in terms && Text.Contains(content, t)
  }

  /** No term that occurs in `content` is repeated in the query. */
  predicate NoMatchRepeated(terms: seq<string>, content: string) {
    forall i, j | 0 <= i < j < |terms| && Text.Contains(content, terms[i]) :: terms[i] != terms[j]
  }

  lemma MatchingTermsStep(terms: seq<string>, content: string)
    requires terms != []
    ensures var init, last := terms[..|terms| - 1], terms[|terms| - 1];
            && |MatchingTerms(terms, content)|
               == |MatchingTerms(init, content)|
                  + (if Text.Contains(content, last) && last !in MatchingTerms(init, content) then 1 else 0)
            && (NoMatchRepeated(terms, content)
                <==> NoMatchRepeated(init, content) && last !in MatchingTerms(init, content))
  {
    var init, last := terms[..|terms| - 1], terms[|terms| - 1];
    assert terms == init + [last];
    if Text.Contains(content, last) {
      assert MatchingTerms(terms, content) == MatchingTerms(init, content) + {last};
    } else {
      assert MatchingTerms(terms, content) == MatchingTerms(init, content);
    }
  }

  /** The score counts different terms exactly if no matching term is repeated in the query. */
  lemma {:induction false} CountsDistinctIff(terms: seq<string>, content: string)
    ensures MatchCount(terms, content) >= |MatchingTerms(terms, content)|
    ensures MatchCount(terms, content) == |MatchingTerms(terms, content)| <==> NoMatchRepeated(terms, content)
  {
    if terms != [] {
      MatchingTermsStep(terms, content);
      CountsDistinctIff(terms[..|terms| - 1], content);
    }
  }

  predicate HasAllNgrams(e: DocEntry, term: string) {
    forall g | g in Tokenize.NgramsOf(term) :: HasNgram(e, g)
  }

  /** Phase 1 is complete: a document containing the term holds all the term's n-grams. */
  lemma CandidatesCoverMatches(e: DocEntry, term: string)
    requires Text.Contains(e.contentNormalized, term)
    ensures HasAllNgrams(e, term)
  {
    forall g | g in Tokenize.NgramsOf(term) ensures HasNgram(e, g) {
      Tokenize.SubstringNgrams(e.contentNormalized, term, g);
    }
  }

  function CandidateKeys(c: Contents, term: string): set<Key> {
    set k | k in c && HasAllNgrams(c[k], term)
  }

  predicate Overflows(c: Contents, term: string) {
    Tokenize.NgramsOf(term) != [] && |CandidateKeys(c, term)| > LARGE_CANDIDATE_LIMIT
  }

  predicate Visible(e: DocEntry, exclude: Option<ThreadId>) {
    exclude != Some(e.threadId)
  }

  /** The messages a linear scan finds, each with its rank. */
  function MatchRanks(c: Contents, terms: seq<string>, exclude: Option<ThreadId>): map<Key, Rank> {
    map k | k in c && Visible(c[k], exclude) && MatchCount(terms, c[k].contentNormalized) > 0
      :: Rank(MatchCount(terms, c[k].contentNormalized), c[k].createdAtMs)
  }

  /** Every visible message, ranked by time only. */
  function RecencyRanks(c: Contents, exclude: Option<ThreadId>): map<Key, Rank> {
    map k | k in c && Visible(c[k], exclude) :: Rank(0, c[k].createdAtMs)
  }

  function HitFor(e: DocEntry, matched: int, total: nat): Hit {
    Hit(e.threadId, e.messageId, e.role, e.content, e.createdAt, matched, total)
  }

  function HitKeys(hits: seq<Hit>): (r: seq<Key>)
    ensures |r| == |hits|
  {
    seq(|hits|, i requires 0 <= i < |hits| => (hits[i].threadId, hits[i].messageId))
  }

  /** `hits` lists a top selection of `ranks`, each entry copied from `c` with its match count. */
  ghost predicate IsHitList(hits: seq<Hit>, c: Contents, ranks: map<Key, Rank>, limit: nat, total: nat) {
    && IsTopSelection(HitKeys(hits), ranks, limit)
    && forall i | 0 <= i < |hits| ::
         var k := HitKeys(hits)[i];
         k in c && k in ranks && hits[i] == HitFor(c[k], ranks[k].first, total)
  }

  /** The search contract: the top `limit` of the linear scan, unless one term has too many
      candidates, in which case the newest visible messages with score 0. */
  ghost predicate IsAnswer(hits: seq<Hit>, c: Contents, terms: seq<string>, limit: nat, exclude: Option<ThreadId>) {
    if limit == 0 || terms == [] then hits == []
    else if exists t :: t in terms && Overflows(c, t) then
      IsHitList(hits, c, RecencyRanks(c, exclude), limit, |terms|)
    else
      IsHitList(hits, c, MatchRanks(c, terms, exclude), limit, |terms|)
  }
}
