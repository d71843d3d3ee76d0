/** The text helpers of the mesh tools: decimal integers, splitting at whitespace, slashes and line ends. */
module MeshText {
  import opened Basics

  // ---- decimal integers ----

  predicate IsDigit(c: char) {
    '0' <= c <= '9'
  }

  function Digits(n: nat): (r: string)
    ensures r != "" && forall c <- r :: IsDigit(c)
  {
    if n < 10 then [n as char + '0'] else Digits(n / 10) + [(n % 10) as char + '0']
  }

  function Decimal(i: int): string {
    if i < 0 then "-" + Digits(-i) else Digits(i)
  }

  function ParseDigits(text: string): nat
    requires forall c <- text :: IsDigit(c)
  {
    if text == "" then 0
    else
      var last := text[|text| - 1];
      assert last in text && IsDigit(last);
      10 * ParseDigits(text[..|text| - 1]) + (last - '0') as nat
  }

  // A sign is allowed, and at least one digit is wanted.
  function ParseInt(text: string): Option<int> {
    var signed := text != "" && (text[0] == '-' || text[0] == '+');
    var digits := if signed then text[1..] else text;
    if digits == "" || exists c <- digits :: !IsDigit(c) then None
    else
      var n: int := ParseDigits(digits);
      Some(if signed && text[0] == '-' then -n else n)
  }

  lemma {:induction false} DigitsParsed(n: nat)
    ensures ParseDigits(Digits(n)) == n
  {
    var text := Digits(n);
    if n < 10 {
      assert text[..0] == "";
    } else {
      assert text[..|text| - 1] == Digits(n / 10);
      DigitsParsed(n / 10);
    }
  }

  // An integer is read back from its decimal text, whatever its sign.
  lemma DecimalParsed(i: int)
    ensures ParseInt(Decimal(i)) == Some(i)
  {
    var n := if i < 0 then -i else i;
    DigitsParsed(n);
    var text := Digits(n);
    assert IsDigit(text[0]);
    if i < 0 {
      assert Decimal(i)[1..] == text;
    }
  }

  // ---- splitting ----

  predicate IsSpace(c: char) {
    9 <= c as int <= 13 || 28 <= c as int <= 32
  }

  // The words of a text; the given word has been begun.
  function Words(text: string, begun: string): seq<string>
    decreases |text|
  {
    if text == "" then if begun == "" then [] else [begun]
    else if IsSpace(text[0]) then (if begun == "" then [] else [begun]) + Words(text[1..], "")
    else Words(text[1..], begun + [text[0]])
  }

  function Split(text: string): seq<string> {
    Words(text, "")
  }

  predicate IsWord(word: string) {
    word != "" && forall c <- word :: !IsSpace(c)
  }

  function Joined(words: seq<string>): string {
    if words == [] then "" else if |words| == 1 then words[0] else words[0] + " " + Joined(words[1..])
  }

  lemma {:induction false} WordRead(word: string, rest: string, begun: string)
    requires forall c <- word :: !IsSpace(c)
    ensures Words(word + rest, begun) == Words(rest, begun + word)
    decreases |word|
  {
    if word == "" {
      assert word + rest == rest && begun + word == begun;
    } else {
      assert (word + rest)[0] == word[0] && (word + rest)[1..] == word[1..] + rest;
      assert begun + [word[0]] + word[1..] == begun + word;
      WordRead(word[1..], rest, begun + [word[0]]);
    }
  }

  // Words joined by single spaces are split into themselves.
  lemma {:induction false} JoinedSplit(words: seq<string>)
    requires forall word <- words :: IsWord(word)
    ensures Split(Joined(words)) == words
    decreases |words|
  {
    if words != [] {
      var first := words[0];
      assert first in words;
      if |words| == 1 {
        WordRead(first, "", "");
        assert first + "" == first && "" + first == first;
        assert Words("", first) == [first];
      } else {
        var rest := " " + Joined(words[1..]);
        assert Joined(words) == first + rest;
        WordRead(first, rest, "");
        assert "" + first == first;
        assert rest[0] == ' ' && rest[1..] == Joined(words[1..]);
        JoinedSplit(words[1..]);
        assert Words(rest, first) == [first] + Words(rest[1..], "");
      }
    }
  }

  // The fields between slashes; the given field has been begun.
  function Fields(text: string, begun: string): (r: seq<string>)
    ensures r != []
    decreases |text|
  {
    if text == "" then [begun]
    else if text[0] == '/' then [begun] + Fields(text[1..], "")
    else Fields(text[1..], begun + [text[0]])
  }

  lemma {:induction false} FieldRead(field: string, rest: string, begun: string)
    requires '/' !in field
    ensures Fields(field + rest, begun) == Fields(rest, begun + field)
    decreases |field|
  {
    if field == "" {
      assert field + rest == rest && begun + field == begun;
    } else {
      assert (field + rest)[0] == field[0] && (field + rest)[1..] == field[1..] + rest;
      assert begun + [field[0]] + field[1..] == begun + field;
      FieldRead(field[1..], rest, begun + [field[0]]);
    }
  }

  lemma ThreeFields(a: string, b: string, c: string)
    requires '/' !in a && '/' !in b && '/' !in c
    ensures Fields(a + "/" + b + "/" + c, "") == [a, b, c]
  {
    assert a + "/" + b + "/" + c == a + ("/" + (b + ("/" + c)));
    FirstField(a, b + ("/" + c));
    FirstField(b, c);
    FieldRead(c, "", "");
    assert c + "" == c && "" + c == c;
  }

  lemma FirstField(field: string, rest: string)
    requires '/' !in field
    ensures Fields(field + ("/" + rest), "") == [field] + Fields(rest, "")
  {
    FieldRead(field, "/" + rest, "");
    assert "" + field == field && ("/" + rest)[0] == '/' && ("/" + rest)[1..] == rest;
  }

  // ---- lines ----

  // A carriage return ends a line too; an empty line more or less changes nothing.
  predicate IsLineEnd(c: char) {
    c == '\n' || c == '\r'
  }

  function LinesFrom(text: string, begun: string): seq<string>
    decreases |text|
  {
    if text == "" then if begun == "" then [] else [begun]
    else if IsLineEnd(text[0]) then [begun] + LinesFrom(text[1..], "")
    else LinesFrom(text[1..], begun + [text[0]])
  }

  function Lines(text: string): seq<string> {
    LinesFrom(text, "")
  }

  predicate IsLine(line: string) {
    forall c <- line :: !IsLineEnd(c)
  }

  function Unlines(lines: seq<string>): string {
    if lines == [] then "" else lines[0] + "\n" + Unlines(lines[1..])
  }

  lemma {:induction false} LineRead(line: string, rest: string, begun: string)
    requires IsLine(line)
    ensures LinesFrom(line + rest, begun) == LinesFrom(rest, begun + line)
    decreases |line|
  {
    if line == "" {
      assert line + rest == rest && begun + line == begun;
    } else {
      assert (line + rest)[0] == line[0] && (line + rest)[1..] == line[1..] + rest;
      assert begun + [line[0]] + line[1..] == begun + line;
      LineRead(line[1..], rest, begun + [line[0]]);
    }
  }

  lemma {:induction false} UnlinesSplit(lines: seq<string>)
    requires forall line <- lines :: IsLine(line)
    ensures Lines(Unlines(lines)) == lines
    decreases |lines|
  {
    if lines != [] {
      var line, rest := lines[0], "\n" + Unlines(lines[1..]);
      assert line in lines;
      assert Unlines(lines) == line + rest;
      LineRead(line, rest, "");
      assert "" + line == line && rest[1..] == Unlines(lines[1..]);
      UnlinesSplit(lines[1..]);
    }
  }

  lemma {:induction false} UnlinesAppend(x: seq<string>, y: seq<string>)
    ensures Unlines(x + y) == Unlines(x) + Unlines(y)
    decreases |x|
  {
    if x == [] {
      assert x + y == y;
    } else {
      assert (x + y)[0] == x[0] && (x + y)[1..] == x[1..] + y;
      UnlinesAppend(x[1..], y);
    }
  }
}
