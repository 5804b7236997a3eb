/** `str::lines`, and what a line is without splitting. */
module TextLines {
  import opened Text

  function WithoutCarriageReturn(line: string): string {
    if line != [] && line[|line| - 1] == '\r' then line[..|line| - 1] else line
  }

  /** `str::lines`: split at line feeds, each with a preceding carriage return dropped; a last
      line that is empty does not count. */
  function Lines(s: string): seq<string> {
    var n := Find(s, '\n');
    if s == [] then []
    else if n == |s| then [s]
    else [WithoutCarriageReturn(s[..n])] + Lines(s[n + 1..])
  }

  lemma LinesOfLine(line: string, rest: string)
    requires '\n' !in line
    ensures Lines(line + "\n" + rest) == [WithoutCarriageReturn(line)] + Lines(rest)
  {
    FindFirst(line, '\n', rest);
    var s := line + "\n" + rest;
    assert s[..|line|] == line && s[|line| + 1..] == rest;
  }

  lemma {:induction false} LinesHaveNoLineFeed(s: string)
    ensures forall l | l in Lines(s) :: '\n' !in l
  {
    var n := Find(s, '\n');
    if s != [] && n < |s| {
      LinesHaveNoLineFeed(s[n + 1..]);
    } else {
      assert s[..|s|] == s;
    }
  }

  // ---- Lines, without splitting ---------------------------------------------------------------

  /** `s[i..j]` is a line: no line feed in it, the start or a line feed before it, and behind it a
      line feed, or the end if it is not empty. */
  predicate IsLineAt(s: string, i: nat, j: nat) {
    && i <= j <= |s| && (i == 0 || s[i - 1] == '\n') && (forall k | i <= k < j :: s[k] != '\n')
    && (if j == |s| then i < j else s[j] == '\n')
  }

  /** A carriage return in front of the line feed is not part of the line. */
  function LineText(s: string, i: nat, j: nat): string
    requires i <= j <= |s|
  {
    if i < j < |s| && s[j - 1] == '\r' then s[i..j - 1] else s[i..j]
  }

  type Places = seq<(nat, nat)>

  predicate InOrder(at: Places) {
    forall k, l | 0 <= k < l < |at| :: at[k].0 < at[l].0
  }

  predicate IsPlace(at: Places, i: nat, j: nat) {
    (i, j) in at
  }

  predicate AreLines(lines: seq<string>, s: string, n: nat, at: Places)
    requires |at| == |lines|
  {
    forall k | 0 <= k < |lines| ::
      n <= at[k].0 && IsLineAt(s, at[k].0, at[k].1) && lines[k] == LineText(s, at[k].0, at[k].1)
  }

  ghost predicate NoLineMissing(s: string, n: nat, at: Places) {
    forall i: nat, j: nat {:trigger IsPlace(at, i, j)} | n <= i && IsLineAt(s, i, j) :: IsPlace(at, i, j)
  }

  /** `lines` lists exactly the lines of `s` that start at `n` or later, in order; `at` says where. */
  ghost predicate ListsLinesFrom(lines: seq<string>, s: string, n: nat, at: Places) {
    |at| == |lines| && AreLines(lines, s, n, at) && InOrder(at) && NoLineMissing(s, n, at)
  }

  lemma LinesOneMore(lines: seq<string>, s: string, n: nat, m: nat, at: Places)
    requires n <= m < |s| && |at| == |lines| && IsLineAt(s, n, m)
    requires AreLines(lines, s, m + 1, at) && InOrder(at)
    ensures AreLines([LineText(s, n, m)] + lines, s, n, [(n, m)] + at) && InOrder([(n, m)] + at)
  {
    var all, places := [LineText(s, n, m)] + lines, [(n, m)] + at;
    forall k | 0 <= k < |all|
      ensures n <= places[k].0 && IsLineAt(s, places[k].0, places[k].1)
      ensures all[k] == LineText(s, places[k].0, places[k].1)
    {
      if k > 0 {
        assert all[k] == lines[k - 1] && places[k] == at[k - 1];
      }
    }
  }

  lemma PlaceOneMore(at: Places, p: (nat, nat), i: nat, j: nat)
    requires IsPlace(at, i, j) || p == (i, j)
    ensures IsPlace([p] + at, i, j)
  {
    assert ([p] + at)[0] == p;
    if IsPlace(at, i, j) {
      var k :| 0 <= k < |at| && at[k] == (i, j);
      assert ([p] + at)[k + 1] == (i, j);
    }
  }

  /** A line that starts at `n` or later is the one at `n`, or starts behind it. */
  lemma NextLine(s: string, n: nat, m: nat, i: nat, j: nat)
    requires n <= i && IsLineAt(s, n, m) && IsLineAt(s, i, j)
    ensures (i, j) == (n, m) || (m < |s| && i > m)
  {
  }

  lemma NoneMissingOneMore(s: string, n: nat, m: nat, at: Places)
    requires n <= m < |s| && IsLineAt(s, n, m) && NoLineMissing(s, m + 1, at)
    ensures NoLineMissing(s, n, [(n, m)] + at)
  {
    forall i: nat, j: nat | n <= i && IsLineAt(s, i, j) ensures IsPlace([(n, m)] + at, i, j) {
      NextLine(s, n, m, i, j);
      assert i > m ==> IsPlace(at, i, j);
      PlaceOneMore(at, (n, m), i, j);
    }
  }

  lemma LastLine(s: string, n: nat)
    requires n < |s| && IsLineAt(s, n, |s|)
    ensures ListsLinesFrom([s[n..]], s, n, [(n, |s|)])
  {
    var at: Places := [(n, |s|)];
    forall i: nat, j: nat | n <= i && IsLineAt(s, i, j) ensures IsPlace(at, i, j) {
      NextLine(s, n, |s|, i, j);
      assert at[0] == (n, |s|);
    }
  }

  lemma LineAhead(s: string, n: nat, m: nat)
    requires n < |s| && (n == 0 || s[n - 1] == '\n') && m == n + Find(s[n..], '\n')
    ensures IsLineAt(s, n, m)
  {
    var rest := s[n..];
    assert forall k | n <= k < m :: s[k] == rest[..m - n][k - n];
    assert m < |s| ==> s[m] == rest[m - n];
  }

  lemma DropsCarriageReturn(s: string, n: nat, m: nat)
    requires n <= m < |s|
    ensures WithoutCarriageReturn(s[n..m]) == LineText(s, n, m)
  {
    if n < m {
      assert s[n..m][m - n - 1] == s[m - 1] && s[n..m][..m - n - 1] == s[n..m - 1];
    }
  }

  lemma NoLinesAtEnd(s: string)
    ensures ListsLinesFrom([], s, |s|, [])
  {
  }

  lemma LinesUnfold(x: string, first: string, rest: string)
    requires '\n' !in first && x == first + "\n" + rest
    ensures Lines(x) == [WithoutCarriageReturn(first)] + Lines(rest)
  {
    LinesOfLine(first, rest);
  }

  lemma MoreLines(s: string, n: nat, m: nat, lines: seq<string>, at: Places)
    requires n <= m < |s| && IsLineAt(s, n, m) && ListsLinesFrom(lines, s, m + 1, at)
    ensures ListsLinesFrom([LineText(s, n, m)] + lines, s, n, [(n, m)] + at)
  {
    LinesOneMore(lines, s, n, m, at);
    NoneMissingOneMore(s, n, m, at);
  }

  lemma SplitAtLine(s: string, n: nat, m: nat)
    requires n <= m < |s| && s[m] == '\n'
    ensures s[n..] == s[n..m] + "\n" + s[m + 1..]
  {
  }

  lemma OneLine(x: string)
    requires x != "" && Find(x, '\n') == |x|
    ensures Lines(x) == [x]
  {
  }

  lemma LinesBehind(s: string, n: nat, m: nat, at: Places)
    requires n < |s| && m == n + Find(s[n..], '\n') < |s| && IsLineAt(s, n, m)
    requires ListsLinesFrom(Lines(s[m + 1..]), s, m + 1, at)
    ensures ListsLinesFrom(Lines(s[n..]), s, n, [(n, m)] + at)
  {
    SplitAtLine(s, n, m);
    LinesUnfold(s[n..], s[n..m], s[m + 1..]);
    DropsCarriageReturn(s, n, m);
    MoreLines(s, n, m, Lines(s[m + 1..]), at);
  }

  lemma OnlyLine(s: string, n: nat)
    requires n < |s| && Find(s[n..], '\n') == |s| - n && IsLineAt(s, n, |s|)
    ensures ListsLinesFrom(Lines(s[n..]), s, n, [(n, |s|)])
  {
    OneLine(s[n..]);
    LastLine(s, n);
  }

  /** The first line of what is left, if any, and the place to go on from. */
  lemma NextLines(s: string, n: nat) returns (m: nat)
    requires n < |s| && (n == 0 || s[n - 1] == '\n')
    ensures n <= m <= |s| && (m < |s| ==> s[m] == '\n')
    ensures m == |s| ==> ListsLinesFrom(Lines(s[n..]), s, n, [(n, m)])
    ensures m < |s| ==> forall at | ListsLinesFrom(Lines(s[m + 1..]), s, m + 1, at) ::
              ListsLinesFrom(Lines(s[n..]), s, n, [(n, m)] + at)
  {
    m := n + Find(s[n..], '\n');
    LineAhead(s, n, m);
    if m == |s| {
      OnlyLine(s, n);
    } else {
      forall at | ListsLinesFrom(Lines(s[m + 1..]), s, m + 1, at)
        ensures ListsLinesFrom(Lines(s[n..]), s, n, [(n, m)] + at)
      {
        LinesBehind(s, n, m, at);
      }
    }
  }

  /** The lines of what is left from the start of a line on. */
  lemma {:induction false} LinesFrom(s: string, n: nat) returns (at: Places)
    requires n <= |s| && (n == 0 || s[n - 1] == '\n')
    ensures ListsLinesFrom(Lines(s[n..]), s, n, at)
    decreases |s| - n
  {
    if n == |s| {
      NoLinesAtEnd(s);
      at := [];
    } else {
      var m := NextLines(s, n);
      at := [(n, m)];
      if m < |s| {
        var rest := LinesFrom(s, m + 1);
        at := [(n, m)] + rest;
      }
    }
  }
}
