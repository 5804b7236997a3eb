/** The goals document: parse, render, and the next free id. */
module Goals {
  import opened Wrappers
  import opened Text
  import opened TextLines
  import opened Ranking

  datatype GoalItem = GoalItem(id: string, text: string)

  /** Oldest first. */
  type GoalsDoc = seq<GoalItem>

  const HEADER: string := "# Long-term Goals"

  // ---- Parse --------------------------------------------------------------------------------

  function StripPrefix(s: string, prefix: string): Option<string> {
    if |prefix| <= |s| && s[..|prefix|] == prefix then Some(s[|prefix|..]) else None
  }

  /** `id] text`, with spaces around either part. */
  function ParseOpened(open: string): Option<GoalItem> {
    var close := Find(open, ']');
    if close == |open| then None
    else
      var id, text := Trim(open[..close]), Trim(open[close + 1..]);
      if id == "" || text == "" then None else Some(GoalItem(id, text))
  }

  /** `- [id] text`, with spaces around any part. */
  function ParseLine(line: string): Option<GoalItem> {
    var item := StripPrefix(Trim(line), "- ");
    if item.None? then None
    else
      var open := StripPrefix(Trim(item.value), "[");
      if open.None? then None else ParseOpened(open.value)
  }

  // ---- What an item line is ----------------------------------------------------------------------

  /** White space, "- ", white space, "[", a part without "]", "]" and a part, neither blank. */
  predicate AreParts(line: string, left: string, mid: string, a: string, b: string) {
    && AllWhitespace(left) && AllWhitespace(mid) && ']' !in a && Trim(a) != "" && Trim(b) != ""
    && line == left + "- " + mid + "[" + a + "]" + b
  }

  /** The line is this item: its two parts, trimmed. */
  ghost predicate IsItemLine(line: string, item: GoalItem) {
    exists left, mid, a, b :: AreParts(line, left, mid, a, b) && item == GoalItem(Trim(a), Trim(b))
  }

  lemma OpenedCloses(open: string)
    requires ParseOpened(open).Some?
    ensures Find(open, ']') < |open|
  {
  }

  lemma OpenedParts(open: string, a: string, b: string)
    requires ParseOpened(open).Some? && a == open[..Find(open, ']')]
    requires Find(open, ']') < |open| && b == open[Find(open, ']') + 1..]
    ensures Trim(a) != "" && Trim(b) != "" && ParseOpened(open).value == GoalItem(Trim(a), Trim(b))
  {
  }

  lemma AroundAt(s: string, n: nat)
    requires n < |s|
    ensures s == s[..n] + [s[n]] + s[n + 1..]
  {
  }

  /** Two trimmed layers around an opened part, put together again. */
  lemma Layers(line: string, left: string, mark: string, item: string, r1: string, mid: string, bracket: string,
               open: string, r2: string)
    requires line == left + (mark + item) + r1 && item == mid + (bracket + open) + r2
    ensures line == left + mark + mid + bracket + (open + (r2 + r1))
  {
    var k := mid + bracket;
    assert item == k + (open + r2);
    var h := left + mark;
    assert line == h + item + r1;
    assert line == h + k + (open + r2) + r1;
    assert open + r2 + r1 == open + (r2 + r1);
    assert h + k + (open + r2) + r1 == h + k + (open + r2 + r1);
    assert h + k == left + mark + mid + bracket;
  }

  /** White space behind a part does not matter. */
  lemma TrimIgnoresTail(b: string, tail: string)
    requires AllWhitespace(tail)
    ensures Trim(b + tail) == Trim(b)
  {
    var l, r := TrimDrops(b);
    assert b + tail == l + Trim(b) + (r + tail);
    TrimUnpads(b + tail, l, Trim(b), r + tail);
  }

  lemma PutBack(head: string, a: string, b: string, open: string, tail: string)
    requires open == a + "]" + b
    ensures head + (open + tail) == head + a + "]" + (b + tail)
  {
    var x := a + "]";
    assert open + tail == x + (b + tail);
    assert head + (x + (b + tail)) == head + x + (b + tail);
    assert head + x == head + a + "]";
  }

  lemma StripPrefixIs(s: string, prefix: string)
    ensures StripPrefix(s, prefix).Some? ==> s == prefix + StripPrefix(s, prefix).value
  {
  }

  lemma PartsAreItem(line: string, left: string, mid: string, a: string, b: string, tail: string)
    requires AllWhitespace(left) && AllWhitespace(mid) && AllWhitespace(tail) && ']' !in a
    requires Trim(a) != "" && Trim(b) != "" && line == left + "- " + mid + "[" + a + "]" + (b + tail)
    ensures IsItemLine(line, GoalItem(Trim(a), Trim(b)))
  {
    TrimIgnoresTail(b, tail);
    assert AreParts(line, left, mid, a, b + tail);
  }

  lemma OpenedIsItem(line: string, left: string, mid: string, open: string, tail: string)
    requires AllWhitespace(left) && AllWhitespace(mid) && AllWhitespace(tail) && ParseOpened(open).Some?
    requires line == left + "- " + mid + "[" + (open + tail)
    ensures IsItemLine(line, ParseOpened(open).value)
  {
    OpenedCloses(open);
    var close := Find(open, ']');
    var a, b := open[..close], open[close + 1..];
    OpenedParts(open, a, b);
    AroundAt(open, close);
    PutBack(left + "- " + mid + "[", a, b, open, tail);
    PartsAreItem(line, left, mid, a, b, tail);
  }

  lemma ParsedIsItemLine(line: string)
    requires ParseLine(line).Some?
    ensures IsItemLine(line, ParseLine(line).value)
  {
    var left, r1 := TrimDrops(line);
    var item := StripPrefix(Trim(line), "- ").value;
    StripPrefixIs(Trim(line), "- ");
    var mid, r2 := TrimDrops(item);
    var open := StripPrefix(Trim(item), "[").value;
    StripPrefixIs(Trim(item), "[");
    Layers(line, left, "- ", item, r1, mid, "[", open, r2);
    OpenedIsItem(line, left, mid, open, r2 + r1);
  }

  /** Taking a line apart again: trim, strip a mark, and so on. */
  lemma MarkedTrims(left: string, mark: string, rest: string, tail: string)
    requires AllWhitespace(left) && AllWhitespace(tail) && mark != "" && !IsWhitespace(mark[0])
    requires rest != "" && !IsWhitespace(rest[|rest| - 1])
    ensures StripPrefix(Trim(left + mark + rest + tail), mark) == Some(rest)
  {
    var t := mark + rest;
    assert t[0] == mark[0] && t[|t| - 1] == rest[|rest| - 1];
    assert left + mark + rest + tail == left + t + tail;
    TrimUnpads(left + t + tail, left, t, tail);
    assert t[..|mark|] == mark && t[|mark|..] == rest;
  }

  lemma PartsOpen(a: string, x: string, text: string)
    requires ']' !in a && AllWhitespace(x) && Trimmed(text) && text != "" && Trim(a) != ""
    ensures ParseOpened(a + "]" + (x + text)) == Some(GoalItem(Trim(a), text))
  {
    var open := a + "]" + (x + text);
    FindFirst(a, ']', x + text);
    assert open[..|a|] == a && open[|a| + 1..] == x + text;
    assert x + text == x + text + "";
    TrimUnpads(x + text, x, text, "");
  }

  lemma PartsParse(line: string, left: string, mid: string, a: string, b: string)
    requires AreParts(line, left, mid, a, b)
    ensures ParseLine(line) == Some(GoalItem(Trim(a), Trim(b)))
  {
    var x, y := TrimDrops(b);
    var text := Trim(b);
    var open := a + "]" + (x + text);
    assert open[|open| - 1] == text[|text| - 1];
    var rest := mid + "[" + open;
    assert rest[|rest| - 1] == open[|open| - 1];
    assert line == left + "- " + rest + y;
    MarkedTrims(left, "- ", rest, y);
    assert rest == mid + "[" + open + "";
    MarkedTrims(mid, "[", open, "");
    PartsOpen(a, x, text);
  }

  /** A line is an item exactly in that form, and then it is that item. */
  lemma ParseLineIff(line: string, item: GoalItem)
    ensures ParseLine(line) == Some(item) <==> IsItemLine(line, item)
  {
    if ParseLine(line) == Some(item) {
      ParsedIsItemLine(line);
    }
    if left, mid, a, b :| AreParts(line, left, mid, a, b) && item == GoalItem(Trim(a), Trim(b)) {
      PartsParse(line, left, mid, a, b);
    }
  }

  function ParseLines(lines: seq<string>): GoalsDoc {
    if lines == [] then []
    else ParseLines(lines[..|lines| - 1]) + match ParseLine(lines[|lines| - 1]) case Some(i) => [i] case None => []
  }

  function ParseDoc(body: string): GoalsDoc {
    ParseLines(Lines(body))
  }

  lemma {:induction false} ParseLinesConcat(a: seq<string>, b: seq<string>)
    ensures ParseLines(a + b) == ParseLines(a) + ParseLines(b)
  {
    if b == [] {
      assert a + b == a;
    } else {
      assert (a + b)[..|a + b| - 1] == a + b[..|b| - 1];
      ParseLinesConcat(a, b[..|b| - 1]);
    }
  }

  lemma ParseLinesStep(lines: seq<string>, i: nat)
    requires i < |lines|
    ensures var before, item := ParseLines(lines[..i]), ParseLine(lines[i]);
            ParseLines(lines[..i + 1]) == if item.None? then before else before + [item.value]
  {
    assert lines[..i + 1][..i] == lines[..i];
  }

  method ParseOne(line: string) returns (item: Option<GoalItem>)
    ensures item == ParseLine(line)
  {
    var marked := StripPrefix(Trim(line), "- ");
    if marked.None? {
      return None;
    }
    var afterOpen := StripPrefix(Trim(marked.value), "[");
    if afterOpen.None? {
      return None;
    }
    var close := Find(afterOpen.value, ']');
    if close == |afterOpen.value| {
      return None;
    }
    var id, text := Trim(afterOpen.value[..close]), Trim(afterOpen.value[close + 1..]);
    if id == "" || text == "" {
      return None;
    }
    return Some(GoalItem(id, text));
  }

  /** The line at `at` is this item. */
  ghost predicate IsItemAt(body: string, at: (nat, nat), item: GoalItem) {
    IsLineAt(body, at.0, at.1) && IsItemLine(LineText(body, at.0, at.1), item)
  }

  /** `items` lists the items of a body, line by line in order, and no line that is one is missing. */
  ghost predicate ListsItems(items: GoalsDoc, body: string, at: Places) {
    && |at| == |items| && InOrder(at)
    && (forall k | 0 <= k < |items| :: IsItemAt(body, at[k], items[k]))
    && (forall i: nat, j: nat, item | IsItemAt(body, (i, j), item) :: IsPlace(at, i, j))
  }

  predicate AreParsed(parsed: seq<Option<GoalItem>>, lines: seq<string>) {
    |parsed| == |lines| && forall n | 0 <= n < |lines| :: parsed[n] == ParseLine(lines[n])
  }

  function ParseEach(lines: seq<string>): (r: seq<Option<GoalItem>>)
    ensures AreParsed(r, lines)
  {
    seq(|lines|, n requires 0 <= n < |lines| => ParseLine(lines[n]))
  }

  lemma OneMoreParsed(init: GoalsDoc, parsed: seq<Option<GoalItem>>)
    requires parsed != [] && init == Somes(parsed[..|parsed| - 1])
    ensures Somes(parsed) == init + match parsed[|parsed| - 1] case Some(i) => [i] case None => []
  {
  }

  lemma {:induction false} ParseLinesAreSomes(lines: seq<string>, parsed: seq<Option<GoalItem>>)
    requires AreParsed(parsed, lines)
    ensures ParseLines(lines) == Somes(parsed)
  {
    if lines != [] {
      var n := |lines| - 1;
      ParseLinesAreSomes(lines[..n], parsed[..n]);
      OneMoreParsed(ParseLines(lines[..n]), parsed);
    }
  }

  function Chosen(at: Places, from: seq<nat>): (r: Places)
    requires forall k | 0 <= k < |from| :: from[k] < |at|
    ensures |r| == |from| && forall k | 0 <= k < |from| :: r[k] == at[from[k]]
  {
    seq(|from|, k requires 0 <= k < |from| => at[from[k]])
  }

  lemma ItemOfLine(lines: seq<string>, parsed: seq<Option<GoalItem>>, body: string, at: Places, n: nat, item: GoalItem)
    requires |at| == |lines| && AreLines(lines, body, 0, at) && n < |lines|
    requires AreParsed(parsed, lines)
    ensures parsed[n] == Some(item) <==> IsItemAt(body, at[n], item)
  {
    ParseLineIff(lines[n], item);
  }

  lemma ItemIsChosen(lines: seq<string>, parsed: seq<Option<GoalItem>>, body: string, at: Places, from: seq<nat>,
                     i: nat, j: nat, item: GoalItem)
    requires ListsLinesFrom(lines, body, 0, at) && AreParsed(parsed, lines) && ComeFrom(Somes(parsed), parsed, from)
    requires IsItemAt(body, (i, j), item)
    ensures IsPlace(Chosen(at, from), i, j)
  {
    assert IsPlace(at, i, j);
    var n :| 0 <= n < |at| && at[n] == (i, j);
    ItemOfLine(lines, parsed, body, at, n, item);
    assert IsFrom(from, n);
    var k :| 0 <= k < |from| && from[k] == n;
    assert Chosen(at, from)[k] == (i, j);
  }

  /** A body's items are those of its lines, in order. */
  lemma ParsedListsItems(body: string) returns (at: Places)
    ensures ListsItems(ParseDoc(body), body, at)
  {
    assert body[0..] == body;
    var lines, items := Lines(body), ParseDoc(body);
    var places := LinesFrom(body, 0);
    var parsed := ParseEach(lines);
    ParseLinesAreSomes(lines, parsed);
    var from := SomesComeFrom(parsed);
    at := Chosen(places, from);
    forall k | 0 <= k < |items| ensures IsItemAt(body, at[k], items[k]) {
      ItemOfLine(lines, parsed, body, places, from[k], items[k]);
    }
    forall i: nat, j: nat, item | IsItemAt(body, (i, j), item) ensures IsPlace(at, i, j) {
      ItemIsChosen(lines, parsed, body, places, from, i, j, item);
    }
  }

  method Parse(body: string) returns (items: GoalsDoc)
    ensures items == ParseDoc(body)
    ensures exists at :: ListsItems(items, body, at)
  {
    var _ := ParsedListsItems(body);
    items := [];
    var lines := Lines(body);
    for i := 0 to |lines|
      invariant items == ParseLines(lines[..i])
    {
      ParseLinesStep(lines, i);
      var item := ParseOne(lines[i]);
      if item.None? {
        continue;
      }
      items := items + [item.value];
    }
    assert lines[..|lines|] == lines;
  }

  // ---- Render -------------------------------------------------------------------------------

  /** `id] text` */
  function AfterOpen(i: GoalItem): string {
    i.id + "]" + (" " + i.text)
  }

  function RenderItem(i: GoalItem): string {
    "- " + ("[" + AfterOpen(i))
  }

  function RenderItems(doc: GoalsDoc): string {
    if doc == [] then "" else RenderItem(doc[0]) + "\n" + RenderItems(doc[1..])
  }

  function RenderDoc(doc: GoalsDoc): string {
    HEADER + "\n" + ("" + "\n" + RenderItems(doc))
  }

  lemma RenderStep(out: string, doc: GoalsDoc, i: nat)
    requires i < |doc|
    ensures out + RenderItems(doc[i..]) == (out + (RenderItem(doc[i]) + "\n")) + RenderItems(doc[i + 1..])
  {
    assert doc[i..][0] == doc[i] && doc[i..][1..] == doc[i + 1..];
  }

  method Render(doc: GoalsDoc) returns (out: string)
    ensures out == RenderDoc(doc)
  {
    out := HEADER;
    out := out + "\n\n";
    for i := 0 to |doc|
      invariant RenderDoc(doc) == out + RenderItems(doc[i..])
    {
      RenderStep(out, doc, i);
      var line := "- [" + doc[i].id + "] " + doc[i].text + "\n";
      assert line == RenderItem(doc[i]) + "\n";
      out := out + line;
    }
  }

  lemma {:induction false} ItemsOneMore(doc: GoalsDoc, i: GoalItem)
    ensures RenderItems(doc + [i]) == RenderItems(doc) + (RenderItem(i) + "\n")
  {
    if doc == [] {
      assert [i][1..] == [];
    } else {
      assert (doc + [i])[1..] == doc[1..] + [i];
      ItemsOneMore(doc[1..], i);
    }
  }

  /** A document renders as its title, an empty line, ... */
  lemma RenderTitled(doc: GoalsDoc)
    ensures RenderDoc(doc) == "# Long-term Goals\n\n" + RenderItems(doc)
    ensures RenderItems([]) == ""
  {
    var items := RenderItems(doc);
    assert "" + "\n" + items == "\n" + items;
    assert HEADER + "\n" + ("\n" + items) == (HEADER + "\n" + "\n") + items;
    assert HEADER + "\n" + "\n" == "# Long-term Goals\n\n";
  }

  lemma ItemLine(i: GoalItem)
    ensures RenderItem(i) + "\n" == "- [" + i.id + "] " + i.text + "\n"
  {
  }

  lemma Associates(a: string, b: string, c: string)
    ensures a + (b + c) == a + b + c
  {
  }

  /** ... and one line for each item, in order. */
  lemma RenderOneMore(doc: GoalsDoc, i: GoalItem)
    ensures RenderDoc(doc + [i]) == RenderDoc(doc) + ("- [" + i.id + "] " + i.text + "\n")
  {
    ItemsOneMore(doc, i);
    ItemLine(i);
    RenderTitled(doc);
    RenderTitled(doc + [i]);
    Associates("# Long-term Goals\n\n", RenderItems(doc), RenderItem(i) + "\n");
  }

  // ---- Round trips --------------------------------------------------------------------------

  /** What survives in one line: trimmed, not empty, no line feed, no `]` in the id. */
  predicate GoodItem(i: GoalItem) {
    && i.id != "" && Trimmed(i.id) && '\n' !in i.id && ']' !in i.id
    && i.text != "" && Trimmed(i.text) && '\n' !in i.text
  }

  predicate GoodDoc(doc: GoalsDoc) {
    forall i | i in doc :: GoodItem(i)
  }

  /** Whatever a line parses to is good. */
  lemma ParsedItemGood(line: string)
    requires '\n' !in line && ParseLine(line).Some?
    ensures GoodItem(ParseLine(line).value)
  {
    TrimKeepsAbsence(line, '\n');
    var item := StripPrefix(Trim(line), "- ").value;
    TrimKeepsAbsence(item, '\n');
    var open := StripPrefix(Trim(item), "[").value;
    var close := Find(open, ']');
    TrimKeepsAbsence(open[..close], '\n');
    TrimKeepsAbsence(open[..close], ']');
    TrimKeepsAbsence(open[close + 1..], '\n');
    TrimIsTrimmed(open[..close]);
    TrimIsTrimmed(open[close + 1..]);
  }

  lemma {:induction false} ParsedLinesGood(lines: seq<string>)
    requires forall l | l in lines :: '\n' !in l
    ensures GoodDoc(ParseLines(lines))
  {
    if lines != [] {
      var last := lines[|lines| - 1];
      ParsedLinesGood(lines[..|lines| - 1]);
      if ParseLine(last).Some? {
        ParsedItemGood(last);
      }
    }
  }

  lemma ParsedDocGood(body: string)
    ensures GoodDoc(ParseDoc(body))
  {
    LinesHaveNoLineFeed(body);
    ParsedLinesGood(Lines(body));
  }

  lemma TrimLeadingSpace(s: string)
    requires Trimmed(s)
    ensures Trim(" " + s) == s
  {
    assert (" " + s)[1..] == s;
    TrimFixesTrimmed(s);
  }

  lemma AfterOpenParses(i: GoalItem)
    requires GoodItem(i)
    ensures ParseOpened(AfterOpen(i)) == Some(i)
  {
    var open := AfterOpen(i);
    FindFirst(i.id, ']', " " + i.text);
    assert open[..|i.id|] == i.id && open[|i.id| + 1..] == " " + i.text;
    TrimFixesTrimmed(i.id);
    TrimLeadingSpace(i.text);
  }

  lemma PrefixTrims(prefix: string, rest: string)
    requires prefix != "" && !IsWhitespace(prefix[0]) && rest != "" && !IsWhitespace(rest[|rest| - 1])
    ensures StripPrefix(Trim(prefix + rest), prefix) == Some(rest)
  {
    var s := prefix + rest;
    assert s[0] == prefix[0] && s[|s| - 1] == rest[|rest| - 1];
    TrimFixesTrimmed(s);
    assert s[..|prefix|] == prefix && s[|prefix|..] == rest;
  }

  lemma MarksStrip(open: string)
    requires open != "" && !IsWhitespace(open[|open| - 1])
    ensures StripPrefix(Trim("- " + ("[" + open)), "- ") == Some("[" + open)
    ensures StripPrefix(Trim("[" + open), "[") == Some(open)
  {
    var item := "[" + open;
    assert item[|item| - 1] == open[|open| - 1];
    PrefixTrims("- ", item);
    PrefixTrims("[", open);
  }

  lemma AfterOpenEnds(i: GoalItem)
    requires GoodItem(i)
    ensures AfterOpen(i) != "" && !IsWhitespace(AfterOpen(i)[|AfterOpen(i)| - 1])
  {
    assert AfterOpen(i)[|AfterOpen(i)| - 1] == i.text[|i.text| - 1];
  }

  lemma ItemRoundTrip(i: GoalItem)
    requires GoodItem(i)
    ensures ParseLine(RenderItem(i)) == Some(i)
  {
    AfterOpenEnds(i);
    MarksStrip(AfterOpen(i));
    AfterOpenParses(i);
  }

  lemma ItemIsOneLine(i: GoalItem)
    requires GoodItem(i)
    ensures WithoutCarriageReturn(RenderItem(i)) == RenderItem(i) && '\n' !in RenderItem(i)
  {
    var line := RenderItem(i);
    AfterOpenEnds(i);
    assert line[|line| - 1] == AfterOpen(i)[|AfterOpen(i)| - 1];
  }

  lemma {:induction false} ItemsRoundTrip(doc: GoalsDoc)
    requires GoodDoc(doc)
    ensures ParseLines(Lines(RenderItems(doc))) == doc
  {
    if doc != [] {
      var line, rest := RenderItem(doc[0]), RenderItems(doc[1..]);
      ItemRoundTrip(doc[0]);
      ItemIsOneLine(doc[0]);
      LinesOfLine(line, rest);
      ParseLinesConcat([line], Lines(rest));
      assert [line][..0] == [];
      assert ParseLines([line]) == [doc[0]];
      ItemsRoundTrip(doc[1..]);
    }
  }

  lemma LinesAfterTitle(title: string, body: string)
    requires '\n' !in title && WithoutCarriageReturn(title) == title
    ensures Lines(title + "\n" + ("" + "\n" + body)) == [title, ""] + Lines(body)
  {
    LinesOfLine(title, "" + "\n" + body);
    LinesOfLine("", body);
  }

  lemma HeaderIsNoItem(rest: seq<string>)
    ensures ParseLines([HEADER, ""] + rest) == ParseLines(rest)
  {
    TrimFixesTrimmed(HEADER);
    assert StripPrefix(HEADER, "- ").None? by {
      assert HEADER[0] == '#';
    }
    ParseLinesConcat([HEADER, ""], rest);
    assert [HEADER, ""][..1] == [HEADER] && [HEADER][..0] == [];
    assert ParseLines([HEADER]) == [];
  }

  lemma GoodDocRoundTrips(doc: GoalsDoc)
    requires GoodDoc(doc)
    ensures ParseDoc(RenderDoc(doc)) == doc
  {
    LinesAfterTitle(HEADER, RenderItems(doc));
    HeaderIsNoItem(Lines(RenderItems(doc)));
    ItemsRoundTrip(doc);
  }

  /** Rendering and parsing again gives the document back exactly when every item is good. */
  lemma RenderParse(doc: GoalsDoc)
    ensures ParseDoc(RenderDoc(doc)) == doc <==> GoodDoc(doc)
  {
    ParsedDocGood(RenderDoc(doc));
    if GoodDoc(doc) {
      GoodDocRoundTrips(doc);
    }
  }

  /** Whatever the body, rendering what was parsed from it loses none of it. */
  lemma ParseRenderParse(body: string)
    ensures ParseDoc(RenderDoc(ParseDoc(body))) == ParseDoc(body)
  {
    ParsedDocGood(body);
    RenderParse(ParseDoc(body));
  }

  // ---- Ids ----------------------------------------------------------------------------------

  const DIGITS: string := "0123456789"

  function Decimal(n: nat): string {
    if n < 10 then [DIGITS[n]] else Decimal(n / 10) + [DIGITS[n % 10]]
  }

  function DigitValue(c: char): nat {
    if '0' <= c <= '9' then c as int - '0' as int else 0
  }

  function Value(s: string): nat {
    if s == [] then 0 else 10 * Value(s[..|s| - 1]) + DigitValue(s[|s| - 1])
  }

  lemma {:induction false} DecimalValue(n: nat)
    ensures Value(Decimal(n)) == n
  {
    assert DigitValue(DIGITS[n % 10]) == n % 10;
    if n < 10 {
      assert Decimal(n)[..0] == [];
    } else {
      DecimalValue(n / 10);
      assert Decimal(n)[..|Decimal(n)| - 1] == Decimal(n / 10);
    }
  }

  /** Digits only, and no leading zero. */
  lemma {:induction false} DecimalDigits(n: nat)
    ensures Decimal(n) != "" && (n > 0 ==> Decimal(n)[0] != '0')
    ensures forall c | c in Decimal(n) :: '0' <= c <= '9'
  {
    if n >= 10 {
      DecimalDigits(n / 10);
    }
  }

  function GoalId(n: nat): string {
    "g" + Decimal(n)
  }

  lemma GoalIdsDiffer(m: nat, n: nat)
    requires GoalId(m) == GoalId(n)
    ensures m == n
  {
    assert GoalId(m)[1..] == Decimal(m) && GoalId(n)[1..] == Decimal(n);
    DecimalValue(m);
    DecimalValue(n);
  }

  function Ids(doc: GoalsDoc): (r: set<string>) {
    set i | i in doc :: i.id
  }

  lemma {:induction false} FewIds(doc: GoalsDoc)
    ensures |Ids(doc)| <= |doc|
  {
    if doc != [] {
      FewIds(doc[1..]);
      assert doc == [doc[0]] + doc[1..];
      assert Ids(doc) == {doc[0].id} + Ids(doc[1..]);
    }
  }

  /** Distinct used ids need as many items. */
  lemma UsedIdsFit(doc: GoalsDoc, used: seq<string>)
    requires Distinct(used) && forall i | 0 <= i < |used| :: used[i] in Ids(doc)
    ensures |used| <= |doc|
  {
    DistinctCount(used);
    FewIds(doc);
    assert Ids(doc) == ToSet(used) + (Ids(doc) - ToSet(used));
  }

  method ContainsId(doc: GoalsDoc, id: string) returns (found: bool)
    ensures found <==> id in Ids(doc)
  {
    for i := 0 to |doc|
      invariant forall j | 0 <= j < i :: doc[j].id != id
    {
      if doc[i].id == id {
        return true;
      }
    }
    return false;
  }

  /** The least unused `g<N>`, found within one try more than there are items. */
  method NextId(doc: GoalsDoc) returns (id: string, n: nat)
    ensures id == GoalId(n) && 1 <= n <= |doc| + 1
    ensures id !in Ids(doc)
    ensures forall m: nat | 1 <= m < n :: GoalId(m) in Ids(doc)
  {
    n := 1;
    ghost var tried: seq<string> := [];
    while true
      invariant |tried| == n - 1 <= |doc| && Distinct(tried)
      invariant forall i | 0 <= i < |tried| :: tried[i] == GoalId(i + 1) && tried[i] in Ids(doc)
      decreases |doc| + 1 - n
    {
      id := GoalId(n);
      var used := ContainsId(doc, id);
      if !used {
        forall m: nat | 1 <= m < n ensures GoalId(m) in Ids(doc) {
          assert tried[m - 1] == GoalId(m);
        }
        return;
      }
      forall i | 0 <= i < |tried| ensures tried[i] != id {
        if GoalId(i + 1) == GoalId(n) {
          GoalIdsDiffer(i + 1, n);
        }
      }
      tried := tried + [id];
      UsedIdsFit(doc, tried);
      n := n + 1;
    }
  }
}
