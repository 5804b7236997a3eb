/** The parts of the host language's string library that the modelled code relies on. */
module Text {
  import opened Wrappers

  /** White_Space of Unicode, the class `char::is_whitespace` tests. */
  predicate IsWhitespace(c: char) {
    var u := c as int;
    || 0x09 <= u <= 0x0D || u == 0x20 || u == 0x85 || u == 0xA0 || u == 0x1680
    || 0x2000 <= u <= 0x200A || u == 0x2028 || u == 0x2029 || u == 0x202F
    || u == 0x205F || u == 0x3000
  }

  /** Bytes one character takes in UTF-8 (section 3 of RFC 3629). */
  function Utf8Width(c: char): (w: nat)
    ensures 1 <= w <= 4
  {
    var u := c as int;
    if u < 0x80 then 1 else if u < 0x800 then 2 else if u < 0x1_0000 then 3 else 4
  }

  function Utf8Len(s: string): nat {
    if s == [] then 0 else Utf8Width(s[0]) + Utf8Len(s[1..])
  }

  predicate OccursAt(s: string, t: string, a: nat) {
    a + |t| <= |s| && s[a..a + |t|] == t
  }

  /** `t` occurs in `s` as a contiguous slice. */
  predicate Contains(s: string, t: string) {
    exists a | 0 <= a <= |s| :: OccursAt(s, t, a)
  }

  predicate NoWhitespace(s: string) {
    forall i | 0 <= i < |s| :: !IsWhitespace(s[i])
  }

  function WordLength(s: string): (n: nat)
    ensures n <= |s|
    ensures NoWhitespace(s[..n])
    ensures n < |s| ==> IsWhitespace(s[n])
  {
    if s == [] || IsWhitespace(s[0]) then 0 else 1 + WordLength(s[1..])
  }

  /** `str::split_whitespace`: the maximal whitespace-free runs, in order. */
  function SplitWhitespace(s: string): seq<string> {
    if s == [] then []
    else if IsWhitespace(s[0]) then SplitWhitespace(s[1..])
    else [s[..WordLength(s)]] + SplitWhitespace(s[WordLength(s)..])
  }

  // ---- Words, without splitting ---------------------------------------------------------------

  /** `s[i..j]` is a word: not empty, free of whitespace, and ended on both sides by whitespace or
      by the end of the string. */
  predicate IsWordAt(s: string, i: nat, j: nat) {
    && i < j <= |s| && (forall k | i <= k < j :: !IsWhitespace(s[k]))
    && (i == 0 || IsWhitespace(s[i - 1])) && (j == |s| || IsWhitespace(s[j]))
  }

  /** The word `w` stands at `i`. */
  predicate StandsAt(s: string, w: string, i: nat) {
    IsWordAt(s, i, i + |w|) && s[i..i + |w|] == w
  }

  predicate Listed(words: seq<string>, at: seq<nat>, i: nat, j: nat)
    requires |at| == |words|
  {
    exists k :: 0 <= k < |words| && at[k] == i && |words[k]| == j - i
  }

  /** Each of `words` stands where `at` says, from `n` on. */
  predicate AllStand(words: seq<string>, s: string, n: nat, at: seq<nat>)
    requires |at| == |words|
  {
    forall k | 0 <= k < |words| :: n <= at[k] && StandsAt(s, words[k], at[k])
  }

  predicate Ascending(at: seq<nat>) {
    forall k, l | 0 <= k < l < |at| :: at[k] < at[l]
  }

  ghost predicate NoneMissing(words: seq<string>, s: string, n: nat, at: seq<nat>)
    requires |at| == |words|
  {
    forall i: nat, j: nat {:trigger Listed(words, at, i, j)} | n <= i && IsWordAt(s, i, j) :: Listed(words, at, i, j)
  }

  /** `words` lists exactly the words of `s` that start at `n` or later, in order; `at` says where. */
  ghost predicate ListsWordsFrom(words: seq<string>, s: string, n: nat, at: seq<nat>) {
    |at| == |words| && AllStand(words, s, n, at) && Ascending(at) && NoneMissing(words, s, n, at)
  }

  /** `words` lists exactly the words of `s`, in order. */
  ghost predicate ListsWords(words: seq<string>, s: string, at: seq<nat>) {
    ListsWordsFrom(words, s, 0, at)
  }

  lemma ListedOneMore(words: seq<string>, at: seq<nat>, w: string, n: nat, i: nat, j: nat)
    requires |at| == |words| && (Listed(words, at, i, j) || (i == n && j == n + |w|))
    ensures Listed([w] + words, [n] + at, i, j)
  {
    var all, starts := [w] + words, [n] + at;
    if i == n && j == n + |w| {
      assert starts[0] == i && |all[0]| == j - i;
    } else {
      var k :| 0 <= k < |words| && at[k] == i && |words[k]| == j - i;
      assert starts[k + 1] == i && |all[k + 1]| == j - i;
    }
  }

  lemma StandOneMore(words: seq<string>, s: string, n: nat, m: nat, at: seq<nat>)
    requires n < m <= |s| && |at| == |words| && StandsAt(s, s[n..m], n)
    requires AllStand(words, s, m, at) && Ascending(at)
    ensures AllStand([s[n..m]] + words, s, n, [n] + at) && Ascending([n] + at)
  {
    var all, starts := [s[n..m]] + words, [n] + at;
    forall k | 0 <= k < |all| ensures n <= starts[k] && StandsAt(s, all[k], starts[k]) {
      if k > 0 {
        assert all[k] == words[k - 1] && starts[k] == at[k - 1];
      }
    }
  }

  lemma MissOneMore(words: seq<string>, s: string, n: nat, m: nat, at: seq<nat>)
    requires n < m <= |s| && |at| == |words| && NoneMissing(words, s, m, at)
    requires forall i: nat, j: nat | n <= i < m && IsWordAt(s, i, j) :: i == n && j == m
    ensures NoneMissing([s[n..m]] + words, s, n, [n] + at)
  {
    forall i: nat, j: nat | n <= i && IsWordAt(s, i, j) ensures Listed([s[n..m]] + words, [n] + at, i, j) {
      assert i >= m ==> Listed(words, at, i, j);
      ListedOneMore(words, at, s[n..m], n, i, j);
    }
  }

  lemma ListOneMore(words: seq<string>, s: string, n: nat, m: nat, at: seq<nat>)
    requires n < m <= |s| && ListsWordsFrom(words, s, m, at) && StandsAt(s, s[n..m], n)
    requires forall i: nat, j: nat | n <= i < m && IsWordAt(s, i, j) :: i == n && j == m
    ensures ListsWordsFrom([s[n..m]] + words, s, n, [n] + at)
  {
    StandOneMore(words, s, n, m, at);
    MissOneMore(words, s, n, m, at);
  }

  /** The word that starts at `n`. */
  lemma WordAhead(s: string, n: nat, m: nat)
    requires n < |s| && !IsWhitespace(s[n]) && (n == 0 || IsWhitespace(s[n - 1]))
    requires m == n + WordLength(s[n..])
    ensures n < m <= |s| && StandsAt(s, s[n..m], n)
    ensures forall i: nat, j: nat | n <= i < m && IsWordAt(s, i, j) :: i == n && j == m
    ensures m < |s| ==> IsWhitespace(s[m])
  {
    var rest := s[n..];
    assert forall k | n <= k < m :: s[k] == rest[..m - n][k - n];
    assert m < |s| ==> s[m] == rest[m - n];
  }

  /** Splitting what is left from `n` on lists the words that start there or later. */
  lemma {:induction false} SplitListsFrom(s: string, n: nat) returns (at: seq<nat>)
    requires n <= |s| && (n == 0 || n == |s| || IsWhitespace(s[n - 1]) || IsWhitespace(s[n]))
    ensures ListsWordsFrom(SplitWhitespace(s[n..]), s, n, at)
    decreases |s| - n
  {
    if n == |s| {
      at := [];
    } else if IsWhitespace(s[n]) {
      assert s[n..][1..] == s[n + 1..];
      at := SplitListsFrom(s, n + 1);
    } else {
      var m := n + WordLength(s[n..]);
      WordAhead(s, n, m);
      assert s[n..][..m - n] == s[n..m] && s[n..][m - n..] == s[m..];
      var rest := SplitListsFrom(s, m);
      ListOneMore(SplitWhitespace(s[m..]), s, n, m, rest);
      at := [n] + rest;
    }
  }

  /** Splitting lists exactly the words, in order. */
  lemma SplitListsWords(s: string) returns (at: seq<nat>)
    ensures ListsWords(SplitWhitespace(s), s, at)
  {
    assert s[0..] == s;
    at := SplitListsFrom(s, 0);
  }

  function TrimStart(s: string): (r: string)
    ensures r == [] || !IsWhitespace(r[0])
    ensures |r| <= |s|
  {
    if s != [] && IsWhitespace(s[0]) then TrimStart(s[1..]) else s
  }

  function TrimEnd(s: string): (r: string)
    ensures r == [] || !IsWhitespace(r[|r| - 1])
    ensures |r| <= |s| && r == s[..|r|]
  {
    if s != [] && IsWhitespace(s[|s| - 1]) then TrimEnd(s[..|s| - 1]) else s
  }

  function Trim(s: string): string {
    TrimEnd(TrimStart(s))
  }

  /** Neither end is whitespace. */
  predicate Trimmed(s: string) {
    s == [] || (!IsWhitespace(s[0]) && !IsWhitespace(s[|s| - 1]))
  }

  lemma TrimIsTrimmed(s: string)
    ensures Trimmed(Trim(s))
  {
  }

  lemma TrimFixesTrimmed(s: string)
    requires Trimmed(s)
    ensures Trim(s) == s
  {
  }

  lemma {:induction false} TrimStartIsSuffix(s: string)
    ensures TrimStart(s) == s[|s| - |TrimStart(s)|..]
  {
    if s != [] && IsWhitespace(s[0]) {
      TrimStartIsSuffix(s[1..]);
    }
  }

  predicate AllWhitespace(s: string) {
    forall i | 0 <= i < |s| :: IsWhitespace(s[i])
  }

  lemma {:induction false} TrimStartDrops(s: string)
    ensures AllWhitespace(s[..|s| - |TrimStart(s)|])
  {
    if s != [] && IsWhitespace(s[0]) {
      TrimStartDrops(s[1..]);
      assert forall i | 1 <= i < |s| :: s[i] == s[1..][i - 1];
      var n := |s| - |TrimStart(s)|;
      assert forall i | 1 <= i < n :: s[i] == s[1..][..n - 1][i - 1];
    }
  }

  lemma {:induction false} TrimEndDrops(s: string)
    ensures AllWhitespace(s[|TrimEnd(s)|..])
  {
    if s != [] && IsWhitespace(s[|s| - 1]) {
      var init := s[..|s| - 1];
      TrimEndDrops(init);
      var n := |TrimEnd(s)|;
      assert forall i | n <= i < |s| - 1 :: s[i] == init[n..][i - n];
    }
  }

  /** `s` is `t` with white space around it. */
  predicate IsPadded(s: string, left: string, t: string, right: string) {
    AllWhitespace(left) && AllWhitespace(right) && s == left + t + right
  }

  /** Trimming drops the white space at both ends and nothing else. */
  lemma TrimDrops(s: string) returns (left: string, right: string)
    ensures IsPadded(s, left, Trim(s), right) && Trimmed(Trim(s))
  {
    TrimStartIsSuffix(s);
    TrimStartDrops(s);
    TrimEndDrops(TrimStart(s));
    TrimIsTrimmed(s);
    left, right := s[..|s| - |TrimStart(s)|], TrimStart(s)[|Trim(s)|..];
    assert s == left + TrimStart(s) && TrimStart(s) == Trim(s) + right;
  }

  /** What has white space around it is what trimming leaves. */
  lemma TrimUnpads(s: string, left: string, t: string, right: string)
    requires IsPadded(s, left, t, right) && Trimmed(t)
    ensures Trim(s) == t
  {
    if t == "" {
      TrimAllWhitespace(s);
    } else {
      TrimStartSkips(left, t + right);
      assert s == left + (t + right);
      TrimEndSkips(t, right);
    }
  }

  lemma {:induction false} TrimAllWhitespace(s: string)
    requires AllWhitespace(s)
    ensures Trim(s) == ""
  {
    if s != "" {
      TrimAllWhitespace(s[1..]);
    }
  }

  lemma {:induction false} TrimStartSkips(left: string, rest: string)
    requires AllWhitespace(left) && rest != "" && !IsWhitespace(rest[0])
    ensures TrimStart(left + rest) == rest
  {
    if left != "" {
      assert (left + rest)[1..] == left[1..] + rest;
      TrimStartSkips(left[1..], rest);
    } else {
      assert left + rest == rest;
    }
  }

  lemma {:induction false} TrimEndSkips(init: string, right: string)
    requires AllWhitespace(right) && init != "" && !IsWhitespace(init[|init| - 1])
    ensures TrimEnd(init + right) == init
  {
    if right != "" {
      assert (init + right)[..|init + right| - 1] == init + right[..|right| - 1];
      TrimEndSkips(init, right[..|right| - 1]);
    } else {
      assert init + right == init;
    }
  }

  /** Trimming only drops characters, so it brings in none. */
  lemma TrimKeepsAbsence(s: string, c: char)
    requires c !in s
    ensures c !in Trim(s)
  {
    TrimStartIsSuffix(s);
  }

  /** `str::find`: the first position of `c`, or the length. */
  function Find(s: string, c: char): (n: nat)
    ensures n <= |s| && c !in s[..n]
    ensures n < |s| ==> s[n] == c
  {
    if s == [] || s[0] == c then 0 else 1 + Find(s[1..], c)
  }

  lemma {:induction false} FindFirst(a: string, c: char, b: string)
    requires c !in a
    ensures Find(a + [c] + b, c) == |a|
  {
    var s := a + [c] + b;
    if a != [] {
      assert s[0] == a[0] && s[1..] == a[1..] + [c] + b;
      FindFirst(a[1..], c, b);
    }
  }

  /** The part before the first `c` is determined, and so is the part after it. */
  lemma SplitAtFirst(a: string, b: string, x: string, y: string, c: char)
    requires c !in a && c !in x && a + [c] + b == x + [c] + y
    ensures a == x && b == y
  {
    FindFirst(a, c, b);
    FindFirst(x, c, y);
    var s := a + [c] + b;
    assert s[..|a|] == a && s[..|x|] == x;
    assert s[|a| + 1..] == b && s[|x| + 1..] == y;
  }
}
