/** Searching the texts of deleted messages. */
module LikeSearch {
  import opened Basics

  const ESCAPE := '\\'

  // Letters of the basic alphabet are compared without regard to case; everything else as it is.
  function Fold(c: char): char {
    if 'A' <= c <= 'Z' then c + ' ' else c
  }

  /** The LIKE predicate with an escape character, section 8.5 of ISO/IEC 9075:1992. */
  predicate Like(pattern: string, text: string)
    decreases |pattern|, |text|
  {
    if pattern == [] then text == []
    else if pattern[0] == '%' then
      Like(pattern[1..], text) || (text != [] && Like(pattern, text[1..]))
    else if pattern[0] == ESCAPE then
      |pattern| >= 2 && text != [] && Fold(text[0]) == Fold(pattern[1]) && Like(pattern[2..], text[1..])
    else if pattern[0] == '_' then
      text != [] && Like(pattern[1..], text[1..])
    else
      text != [] && Fold(text[0]) == Fold(pattern[0]) && Like(pattern[1..], text[1..])
  }

  predicate IsSpecial(c: char) {
    c == '%' || c == '_' || c == '\\'
  }

  function Escaped(query: string): string {
    if query == [] then [] else (if IsSpecial(query[0]) then [ESCAPE, query[0]] else [query[0]]) + Escaped(query[1..])
  }

  function Pattern(query: string): string {
    "%" + Escaped(query) + "%"
  }

  // The query occurs at this place of the text.
  predicate OccursAt(query: string, text: string, at: nat) {
    at + |query| <= |text| && forall k :: 0 <= k < |query| ==> Fold(text[at + k]) == Fold(query[k])
  }

  ghost predicate Contains(text: string, query: string) {
    exists at: nat :: OccursAt(query, text, at)
  }

  lemma {:induction false} PercentAcceptsAll(text: string)
    ensures Like("%", text)
    decreases |text|
  {
    assert "%"[1..] == [];
    if text != [] {
      PercentAcceptsAll(text[1..]);
    }
  }

  lemma LikeEscape(c: char, more: string, text: string)
    ensures Like([ESCAPE, c] + more, text) <==> text != [] && Fold(text[0]) == Fold(c) && Like(more, text[1..])
  {
    var pattern := [ESCAPE, c] + more;
    assert pattern[0] == ESCAPE && pattern[1] == c && pattern[2..] == more;
  }

  lemma LikeLiteral(c: char, more: string, text: string)
    requires !IsSpecial(c)
    ensures Like([c] + more, text) <==> text != [] && Fold(text[0]) == Fold(c) && Like(more, text[1..])
  {
    var pattern := [c] + more;
    assert pattern[0] == c && pattern[1..] == more;
  }

  lemma EscapedFirst(query: string, rest: string, text: string)
    requires query != []
    ensures Like(Escaped(query) + rest, text)
      <==> text != [] && Fold(text[0]) == Fold(query[0]) && Like(Escaped(query[1..]) + rest, text[1..])
  {
    var c, more := query[0], Escaped(query[1..]) + rest;
    if IsSpecial(c) {
      assert Escaped(query) + rest == [ESCAPE, c] + more;
      LikeEscape(c, more, text);
    } else {
      assert Escaped(query) + rest == [c] + more;
      LikeLiteral(c, more, text);
    }
  }

  // An escaped query matches exactly itself: the text starts with it, and what follows matches what follows.
  lemma {:induction false} EscapedMatchesItself(query: string, rest: string, text: string)
    ensures Like(Escaped(query) + rest, text) <==> OccursAt(query, text, 0) && Like(rest, text[|query|..])
    decreases |query|
  {
    if query == [] {
      assert Escaped(query) + rest == rest && text[0..] == text;
    } else {
      EscapedFirst(query, rest, text);
      if text != [] {
        EscapedMatchesItself(query[1..], rest, text[1..]);
        OccursAtStart(query, text);
        if |query| <= |text| {
          assert text[1..][|query| - 1..] == text[|query|..];
        }
      }
    }
  }

  lemma OccursAtStart(query: string, text: string)
    requires query != [] && text != []
    ensures OccursAt(query, text, 0) <==> Fold(text[0]) == Fold(query[0]) && OccursAt(query[1..], text[1..], 0)
  {
    if Fold(text[0]) == Fold(query[0]) && OccursAt(query[1..], text[1..], 0) {
      forall k | 0 <= k < |query|
        ensures Fold(text[0 + k]) == Fold(query[k])
      {
        assert k > 0 ==> text[k] == text[1..][0 + (k - 1)] && query[k] == query[1..][k - 1];
      }
    }
    if OccursAt(query, text, 0) {
      assert forall k :: 0 <= k < |query| - 1 ==>
        text[1..][0 + k] == text[0 + (k + 1)] && query[1..][k] == query[k + 1];
    }
  }

  // A pattern behind a percent sign matches the text from some place on.
  lemma {:induction false} PercentSkips(pattern: string, text: string)
    ensures Like("%" + pattern, text) <==> exists at: nat :: at <= |text| && Like(pattern, text[at..])
    decreases |text|
  {
    var whole := "%" + pattern;
    assert whole[0] == '%' && whole[1..] == pattern;
    assert text[0..] == text;
    if text != [] {
      PercentSkips(pattern, text[1..]);
      forall at: nat | at <= |text| - 1
        ensures text[1..][at..] == text[at + 1..]
      {
      }
      if at: nat :| at <= |text| && Like(pattern, text[at..]) {
        if at > 0 {
          assert text[1..][at - 1..] == text[at..];
        }
      }
      if at: nat :| at <= |text| - 1 && Like(pattern, text[1..][at..]) {
        assert Like(pattern, text[at + 1..]);
      }
    }
  }

  // The pattern accepts exactly the texts that contain the query, whatever characters the query has.
  lemma PatternFinds(query: string, text: string)
    ensures Like(Pattern(query), text) <==> Contains(text, query)
  {
    var inner := Escaped(query) + "%";
    assert Pattern(query) == "%" + inner;
    PercentSkips(inner, text);
    forall at: nat | at <= |text|
      ensures Like(inner, text[at..]) <==> OccursAt(query, text, at)
    {
      EscapedMatchesItself(query, "%", text[at..]);
      if OccursAt(query, text[at..], 0) {
        PercentAcceptsAll(text[at..][|query|..]);
        forall k | 0 <= k < |query|
          ensures Fold(text[at + k]) == Fold(query[k])
        {
          assert text[at + k] == text[at..][0 + k];
        }
      }
      if OccursAt(query, text, at) {
        forall k | 0 <= k < |query|
          ensures Fold(text[at..][0 + k]) == Fold(query[k])
        {
          assert text[at..][0 + k] == text[at + k];
        }
      }
    }
  }

  // ---- what the escapes are for ----

  // The shortest text for the query read as a pattern, with the percent sign that follows it.
  function Sample(query: string): string {
    if query == [] then []
    else if query[0] == '%' then Sample(query[1..])
    else if query[0] == ESCAPE then if |query| == 1 then "%" else [query[1]] + Sample(query[2..])
    else if query[0] == '_' then ['x'] + Sample(query[1..])
    else [query[0]] + Sample(query[1..])
  }

  lemma {:induction false} SampleMatches(query: string)
    ensures Like(query + "%", Sample(query))
    decreases |query|
  {
    var pattern := query + "%";
    if query == [] {
      assert pattern == "%";
      PercentAcceptsAll("");
    } else if query[0] == ESCAPE {
      if |query| == 1 {
        assert pattern[1] == '%' && pattern[2..] == [];
        assert Like(pattern[2..], Sample(query)[1..]);
      } else {
        assert pattern[1] == query[1] && pattern[2..] == query[2..] + "%";
        SampleMatches(query[2..]);
        assert Sample(query)[1..] == Sample(query[2..]);
      }
    } else {
      assert pattern[0] == query[0] && pattern[1..] == query[1..] + "%";
      SampleMatches(query[1..]);
      assert query[0] != '%' ==> Sample(query)[1..] == Sample(query[1..]);
    }
  }

  // It is no longer than the query and is the query only when nothing in it is special.
  lemma {:induction false} SampleDiffers(query: string)
    ensures |Sample(query)| <= |query|
    ensures OccursAt(query, Sample(query), 0) ==> Escaped(query) == query
    decreases |query|
  {
    if query != [] {
      if query[0] == ESCAPE && |query| > 1 {
        SampleDiffers(query[2..]);
      } else {
        SampleDiffers(query[1..]);
      }
      if OccursAt(query, Sample(query), 0) {
        assert Fold(Sample(query)[0 + 0]) == Fold(query[0]);
        OccursAtStart(query, Sample(query));
        assert !IsSpecial(query[0]);
        assert Sample(query)[1..] == Sample(query[1..]);
      }
    }
  }

  lemma {:induction false} EscapedSame(query: string)
    ensures |Escaped(query)| >= |query|
    ensures Escaped(query) == query <==> forall c <- query :: !IsSpecial(c)
  {
    if query != [] {
      EscapedSame(query[1..]);
      assert query == [query[0]] + query[1..];
      if !IsSpecial(query[0]) {
        assert Escaped(query)[1..] == Escaped(query[1..]);
      }
    }
  }

  // Without the escapes the pattern would find the right texts exactly for the queries without special characters.
  lemma EscapesNeeded(query: string)
    ensures (forall text :: Like("%" + query + "%", text) <==> Contains(text, query))
      <==> (forall c <- query :: !IsSpecial(c))
  {
    EscapedSame(query);
    if Escaped(query) == query {
      forall text
        ensures Like("%" + query + "%", text) <==> Contains(text, query)
      {
        PatternFinds(query, text);
      }
    } else {
      var text := Sample(query);
      SampleDiffers(query);
      SampleMatches(query);
      assert "%" + query + "%" == "%" + (query + "%");
      PercentSkips(query + "%", text);
      assert text[0..] == text;
      assert forall at: nat :: OccursAt(query, text, at) ==> at == 0;
      assert Like("%" + query + "%", text) && !Contains(text, query);
    }
  }

  // ---- the rows ----

  datatype Row = Row(userId: int, dialogId: int, topicId: int, messageId: int, text: string)

  datatype Range = Range(userId: int, dialogId: int, topicId: int, minId: int, maxId: int)

  predicate InRange(row: Row, f: Range) {
    && row.userId == f.userId
    && (row.dialogId == f.dialogId || f.dialogId == 0)
    && (row.topicId == f.topicId || f.topicId == 0)
    && (row.messageId > f.minId || f.minId == 0)
    && (row.messageId < f.maxId || f.maxId == 0)
  }

  lemma {:induction false} SameSelection(rows: seq<Row>, first: Row -> bool, second: Row -> bool)
    requires forall row <- rows :: first(row) == second(row)
    ensures Filter(rows, first) == Filter(rows, second)
  {
    if rows != [] {
      assert rows[0] in rows && forall row <- rows[1..] :: row in rows;
      SameSelection(rows[1..], first, second);
    }
  }

  ghost function Found(rows: seq<Row>, f: Range, query: string): seq<Row> {
    Filter(rows, row => InRange(row, f) && Contains(row.text, query))
  }

  // The same letter, up to the case of the basic alphabet.
  predicate SameLetter(c: char, d: char) {
    c == d || ('A' <= c <= 'Z' && d as int == c as int + 32) || ('A' <= d <= 'Z' && c as int == d as int + 32)
  }

  // What a search is for: the messages of a user, in a dialog, a topic and between two ids unless these are zero, with
  // the query somewhere in the text.
  ghost predicate Wanted(row: Row, f: Range, query: string) {
    && row.userId == f.userId
    && (f.dialogId != 0 ==> row.dialogId == f.dialogId)
    && (f.topicId != 0 ==> row.topicId == f.topicId)
    && (f.minId != 0 ==> row.messageId > f.minId)
    && (f.maxId != 0 ==> row.messageId < f.maxId)
    && exists at: nat :: Reads(query, row.text, at)
  }

  predicate Reads(query: string, text: string, at: nat) {
    at + |query| <= |text| && forall k :: 0 <= k < |query| ==> SameLetter(query[k], text[at..][k])
  }

  lemma LettersFold(c: char, d: char)
    ensures SameLetter(c, d) <==> Fold(c) == Fold(d)
  {
  }

  lemma ContainsReads(text: string, query: string)
    ensures Contains(text, query) <==> exists at: nat :: Reads(query, text, at)
  {
    forall at: nat
      ensures OccursAt(query, text, at) <==> Reads(query, text, at)
    {
      if at + |query| <= |text| {
        forall k | 0 <= k < |query|
          ensures Fold(text[at + k]) == Fold(query[k]) <==> SameLetter(query[k], text[at..][k])
        {
          LettersFold(query[k], text[at + k]);
        }
      }
    }
  }

  // Exactly the rows that are wanted are found, each as often as it is in the table.
  lemma FoundExactly(rows: seq<Row>, f: Range, query: string, row: Row)
    ensures multiset(Found(rows, f, query))[row] == TimesWanted(rows, f, query, row)
  {
    ContainsReads(row.text, query);
    FilterCounts(rows, (r: Row) => InRange(r, f) && Contains(r.text, query), row);
  }

  // With an empty query the pattern accepts every text, so the branch without a pattern selects the same rows.
  lemma EmptyQueryBranch(rows: seq<Row>, f: Range)
    ensures Filter(rows, row => InRange(row, f)) ==
      Filter(rows, row => InRange(row, f) && Like(Pattern(""), row.text))
    ensures Filter(rows, row => InRange(row, f)) == Found(rows, f, "")
  {
    forall row <- rows
      ensures Like(Pattern(""), row.text) && Contains(row.text, "")
    {
      assert OccursAt("", row.text, 0);
      PatternFinds("", row.text);
    }
    SameSelection(rows, row => InRange(row, f), row => InRange(row, f) && Like(Pattern(""), row.text));
    SameSelection(rows, row => InRange(row, f), row => InRange(row, f) && Contains(row.text, ""));
  }

  lemma {:induction false} EscapedAppend(query: string, c: char)
    ensures Escaped(query + [c]) == Escaped(query) + if IsSpecial(c) then [ESCAPE, c] else [c]
  {
    if query == [] {
      assert (query + [c])[1..] == [];
    } else {
      assert (query + [c])[1..] == query[1..] + [c];
      EscapedAppend(query[1..], c);
    }
  }

  method Escape(query: string) returns (escaped: string)
    ensures escaped == Escaped(query)
  {
    escaped := [];
    for i := 0 to |query|
      invariant escaped == Escaped(query[..i])
    {
      var c := query[i];
      EscapedAppend(query[..i], c);
      assert query[..i + 1] == query[..i] + [c];
      if c == '%' || c == '_' || c == '\\' {
        escaped := escaped + [ESCAPE];
      }
      escaped := escaped + [c];
    }
    assert query[..|query|] == query;
  }

  // ---- the order and the limit ----

  predicate Descending(rows: seq<Row>) {
    forall i, j :: 0 <= i < j < |rows| ==> rows[i].messageId >= rows[j].messageId
  }

  // A negative limit is none.
  function Limited<T>(rows: seq<T>, limit: int): seq<T> {
    if 0 <= limit < |rows| then rows[..limit] else rows
  }

  // What ORDER BY and LIMIT allow; rows with the same message id may come in any order.
  ghost predicate Answers(found: seq<Row>, selected: seq<Row>, limit: int) {
    exists order: seq<Row> :: Arranged(order, selected) && found == Limited(order, limit)
  }

  ghost predicate Arranged(order: seq<Row>, selected: seq<Row>) {
    multiset(order) == multiset(selected) && Descending(order)
  }

  function Insert(row: Row, rows: seq<Row>): seq<Row> {
    if rows == [] || row.messageId >= rows[0].messageId then [row] + rows else [rows[0]] + Insert(row, rows[1..])
  }

  function Sorted(rows: seq<Row>): seq<Row> {
    if rows == [] then [] else Insert(rows[0], Sorted(rows[1..]))
  }

  lemma {:induction false} InsertAdds(row: Row, rows: seq<Row>)
    ensures multiset(Insert(row, rows)) == multiset(rows) + multiset{row}
  {
    if rows != [] && row.messageId < rows[0].messageId {
      InsertAdds(row, rows[1..]);
      assert rows == [rows[0]] + rows[1..];
    }
  }

  // No row comes before a row of a greater message id.
  predicate From(rows: seq<Row>, top: int) {
    forall i :: 0 <= i < |rows| ==> rows[i].messageId <= top
  }

  lemma DescendingMore(row: Row, rows: seq<Row>)
    requires Descending(rows) && From(rows, row.messageId)
    ensures Descending([row] + rows)
  {
    var all := [row] + rows;
    forall i, j | 0 <= i < j < |all|
      ensures all[i].messageId >= all[j].messageId
    {
      assert all[j] == rows[j - 1] && (i > 0 ==> all[i] == rows[i - 1]);
    }
  }

  lemma {:induction false} InsertDescends(row: Row, rows: seq<Row>)
    requires Descending(rows)
    ensures Descending(Insert(row, rows))
    ensures forall top: int :: From(rows, top) && row.messageId <= top ==> From(Insert(row, rows), top)
  {
    if rows == [] || row.messageId >= rows[0].messageId {
      DescendingMore(row, rows);
    } else {
      assert forall i :: 0 <= i < |rows| - 1 ==> rows[1..][i] == rows[i + 1];
      InsertDescends(row, rows[1..]);
      DescendingMore(rows[0], Insert(row, rows[1..]));
    }
  }

  lemma {:induction false} SortedArranges(rows: seq<Row>)
    ensures Arranged(Sorted(rows), rows)
  {
    if rows != [] {
      SortedArranges(rows[1..]);
      InsertAdds(rows[0], Sorted(rows[1..]));
      InsertDescends(rows[0], Sorted(rows[1..]));
      assert rows == [rows[0]] + rows[1..];
    }
  }

  // An answer is in order and as long as it may be, and no row left out comes before one that is in it.
  lemma AnswerIsTop(found: seq<Row>, selected: seq<Row>, limit: int)
    requires Answers(found, selected, limit)
    ensures Descending(found) && multiset(found) <= multiset(selected)
    ensures |found| == if 0 <= limit < |selected| then limit else |selected|
    ensures forall row <- found, other <- multiset(selected) - multiset(found) :: row.messageId >= other.messageId
  {
    var order :| Arranged(order, selected) && found == Limited(order, limit);
    SameLength(order, selected);
    var left := order[|found|..];
    assert order == found + left;
    assert multiset(selected) == multiset(found + left);
    SplitAnswer(found, left);
  }

  lemma SplitAnswer(found: seq<Row>, left: seq<Row>)
    requires Descending(found + left)
    ensures Descending(found) && multiset(found) <= multiset(found + left)
    ensures forall row <- found, other <- multiset(found + left) - multiset(found) :: row.messageId >= other.messageId
  {
    assert forall i :: 0 <= i < |found| ==> (found + left)[i] == found[i];
    WhatIsLeft(found, left);
    forall row <- found, other <- multiset(left)
      ensures row.messageId >= other.messageId
    {
      FrontIsAbove(found, left, row, other);
    }
  }

  lemma WhatIsLeft<T>(x: seq<T>, y: seq<T>)
    ensures multiset(x + y) - multiset(x) == multiset(y) && multiset(x) <= multiset(x + y)
  {
    Cancel(multiset(x + y) - multiset(x), multiset(y), multiset(x));
  }

  lemma FrontIsAbove(front: seq<Row>, back: seq<Row>, row: Row, other: Row)
    requires Descending(front + back) && row in front && other in back
    ensures row.messageId >= other.messageId
  {
    var i :| 0 <= i < |front| && front[i] == row;
    var j :| 0 <= j < |back| && back[j] == other;
    assert (front + back)[i] == row && (front + back)[|front| + j] == other;
  }

  lemma SameLength<T>(x: seq<T>, y: seq<T>)
    requires multiset(x) == multiset(y)
    ensures |x| == |y|
  {
    assert |multiset(x)| == |x| && |multiset(y)| == |y|;
  }

  function Ids(rows: seq<Row>): (r: seq<int>)
    ensures |r| == |rows| && forall i :: 0 <= i < |rows| ==> r[i] == rows[i].messageId
  {
    seq(|rows|, i requires 0 <= i < |rows| => rows[i].messageId)
  }

  // A sequence with one element taken out.
  lemma TakeOut<T>(x: T, more: seq<T>, y: seq<T>) returns (front: seq<T>, back: seq<T>)
    requires multiset([x] + more) == multiset(y)
    ensures y == front + [x] + back && multiset(more) == multiset(front + back)
  {
    assert multiset([x] + more)[x] > 0;
    var k :| 0 <= k < |y| && y[k] == x;
    front, back := y[..k], y[k + 1..];
    assert y == front + [x] + back;
    SwapOut(x, front, back);
    Cancel(multiset(more), multiset(front + back), multiset{x});
  }

  lemma SwapOut<T>(x: T, front: seq<T>, back: seq<T>)
    ensures multiset(front + [x] + back) == multiset(front + back) + multiset{x}
  {
  }

  lemma Cancel<T>(m: multiset<T>, n: multiset<T>, one: multiset<T>)
    requires m + one == n + one
    ensures m == n
  {
    forall e: T
      ensures m[e] == n[e]
    {
      assert (m + one)[e] == m[e] + one[e] && (n + one)[e] == n[e] + one[e];
    }
  }

  lemma IdsAppend(x: seq<Row>, y: seq<Row>)
    ensures Ids(x + y) == Ids(x) + Ids(y)
  {
  }

  lemma {:induction false} SameIdsOf(x: seq<Row>, y: seq<Row>)
    requires multiset(x) == multiset(y)
    ensures multiset(Ids(x)) == multiset(Ids(y))
    decreases |x|
  {
    SameLength(x, y);
    if x != [] {
      assert x == [x[0]] + x[1..];
      var front, back := TakeOut(x[0], x[1..], y);
      SameIdsOf(x[1..], front + back);
      IdsAppend([x[0]], x[1..]);
      IdsAppend(front, back);
      IdsAppend(front, [x[0]]);
      IdsAppend(front + [x[0]], back);
    }
  }

  predicate Falling(x: seq<int>) {
    forall i, j :: 0 <= i < j < |x| ==> x[i] >= x[j]
  }

  lemma FirstIsGreatest(x: seq<int>, n: int)
    requires Falling(x) && multiset(x)[n] > 0
    ensures x != [] && n <= x[0]
  {
    assert n in x;
  }

  lemma SameFirst(x: seq<int>, y: seq<int>)
    requires multiset(x) == multiset(y) && Falling(x) && Falling(y) && x != [] && y != []
    ensures x[0] == y[0]
  {
    assert multiset(x)[x[0]] > 0 && multiset(y)[y[0]] > 0;
    FirstIsGreatest(x, y[0]);
    FirstIsGreatest(y, x[0]);
  }

  lemma {:induction false} OneDescent(x: seq<int>, y: seq<int>)
    requires multiset(x) == multiset(y) && Falling(x) && Falling(y)
    ensures x == y
    decreases |x|
  {
    SameLength(x, y);
    if x != [] {
      SameFirst(x, y);
      assert x == [x[0]] + x[1..] && y == [x[0]] + y[1..];
      SameTail(x[0], x[1..], y[1..]);
      OneDescent(x[1..], y[1..]);
    }
  }

  lemma SameTail(n: int, x: seq<int>, y: seq<int>)
    requires multiset([n] + x) == multiset([n] + y)
    ensures multiset(x) == multiset(y)
  {
    assert multiset([n] + x) == multiset(x) + multiset([n]) && multiset([n] + y) == multiset(y) + multiset([n]);
    Cancel(multiset(x), multiset(y), multiset([n]));
  }

  // The selected rows determine the message ids of the answer and their order.
  lemma AnswersAgree(found: seq<Row>, other: seq<Row>, selected: seq<Row>, limit: int)
    requires Answers(found, selected, limit) && Answers(other, selected, limit)
    ensures Ids(found) == Ids(other)
  {
    var x :| Arranged(x, selected) && found == Limited(x, limit);
    var y :| Arranged(y, selected) && other == Limited(y, limit);
    SameIdsOf(x, y);
    OneDescent(Ids(x), Ids(y));
    assert Ids(found) == Limited(Ids(x), limit) && Ids(other) == Limited(Ids(y), limit);
  }

  ghost function TimesWanted(rows: seq<Row>, f: Range, query: string, row: Row): nat {
    if Wanted(row, f, query) then multiset(rows)[row] else 0
  }

  lemma AnswerIsWanted(found: seq<Row>, rows: seq<Row>, f: Range, query: string, limit: int)
    requires Answers(found, Found(rows, f, query), limit)
    ensures Descending(found) && (limit >= 0 ==> |found| <= limit)
    ensures forall row :: multiset(found)[row] <= TimesWanted(rows, f, query, row)
    ensures limit < 0 || |found| < limit ==>
      forall row :: multiset(found)[row] == TimesWanted(rows, f, query, row)
  {
    var selected := Found(rows, f, query);
    AnswerIsTop(found, selected, limit);
    forall row
      ensures multiset(selected)[row] == TimesWanted(rows, f, query, row)
      ensures multiset(found)[row] <= multiset(selected)[row]
    {
      FoundExactly(rows, f, query, row);
    }
    if limit < 0 || |found| < limit {
      var order :| Arranged(order, selected) && found == Limited(order, limit);
      SameLength(order, selected);
      assert found == order;
    }
  }

  // The rows a statement answers with.
  method GetAll(selected: seq<Row>, limit: int) returns (found: seq<Row>)
    ensures Answers(found, selected, limit)
  {
    SortedArranges(selected);
    found := Limited(Sorted(selected), limit);
  }

  // Answers with the rows in range whose text contains the query.
  method GetDeletedMessages(rows: seq<Row>, f: Range, totalLimit: int, query: string) returns (found: seq<Row>)
    ensures Answers(found, Found(rows, f, query), totalLimit)
    ensures Descending(found) && (totalLimit >= 0 ==> |found| <= totalLimit)
    ensures forall row :: multiset(found)[row] <= TimesWanted(rows, f, query, row)
    ensures totalLimit < 0 || |found| < totalLimit ==>
      forall row :: multiset(found)[row] == TimesWanted(rows, f, query, row)
  {
    if query == "" {
      EmptyQueryBranch(rows, f);
      found := GetAll(Filter(rows, row => InRange(row, f)), totalLimit);
      AnswerIsWanted(found, rows, f, query, totalLimit);
      return;
    }
    var escaped := Escape(query);
    var pattern := "%" + escaped + "%";
    forall row <- rows
      ensures Like(pattern, row.text) == Contains(row.text, query)
    {
      PatternFinds(query, row.text);
    }
    SameSelection(rows, row => InRange(row, f) && Like(pattern, row.text),
      row => InRange(row, f) && Contains(row.text, query));
    found := GetAll(Filter(rows, row => InRange(row, f) && Like(pattern, row.text)), totalLimit);
    AnswerIsWanted(found, rows, f, query, totalLimit);
  }
}
