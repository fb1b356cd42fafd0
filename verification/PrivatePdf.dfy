/**
 The one-page PDF that carries a lab's private flag, and a reader for what it must mean
 (sections 7.3.4.2 and 7.5.4 of ISO 32000-1).  A byte is the character with its number, as in Latin-1.
*/
module PrivatePdf {
  import opened Options
  import opened Sequences

  // ----- Numbers -----

  predicate IsDigit(c: char) { '0' <= c <= '9' }

  predicate Digits(s: string) { forall c <- s :: IsDigit(c) }

  function DigitOf(n: nat): (c: char)
    requires n < 10
    ensures IsDigit(c)
  {
    ('0' as int + n) as char
  }

  /** `%d` */
  function Dec(n: nat): (s: string)
    ensures s != "" && Digits(s)
  {
    if n < 10 then [DigitOf(n)] else Dec(n / 10) + [DigitOf(n % 10)]
  }

  function Zeros(n: nat): (s: string)
    ensures |s| == n && Digits(s)
  {
    seq(n, _ => '0')
  }

  /** `%010d` */
  function Ten(n: nat): string {
    Zeros(if |Dec(n)| < 10 then 10 - |Dec(n)| else 0) + Dec(n)
  }

  function Number(s: string): nat
    requires Digits(s)
  {
    if s == "" then 0
    else
      assert IsDigit(s[|s| - 1]);
      10 * Number(s[..|s| - 1]) + (s[|s| - 1] as int - '0' as int)
  }

  lemma {:induction false} DecReadsBack(n: nat)
    ensures Number(Dec(n)) == n
  {
    if n >= 10 {
      DecReadsBack(n / 10);
      assert Dec(n)[..|Dec(n)| - 1] == Dec(n / 10);
    }
  }

  lemma {:induction false} ZerosAreIgnored(k: nat, s: string)
    requires Digits(s)
    ensures Digits(Zeros(k) + s) && Number(Zeros(k) + s) == Number(s)
    decreases k + |s|
  {
    var t := Zeros(k) + s;
    if s != "" {
      ZerosAreIgnored(k, s[..|s| - 1]);
      assert t[..|t| - 1] == Zeros(k) + s[..|s| - 1];
    } else if k > 0 {
      ZerosAreIgnored(k - 1, "");
      assert t[..|t| - 1] == Zeros(k - 1) + "";
    }
  }

  lemma TenReadsBack(n: nat)
    ensures Digits(Ten(n)) && Number(Ten(n)) == n
  {
    DecReadsBack(n);
    ZerosAreIgnored(if |Dec(n)| < 10 then 10 - |Dec(n)| else 0, Dec(n));
  }

  function Power10(k: nat): nat { if k == 0 then 1 else 10 * Power10(k - 1) }

  lemma {:induction false} DecLength(n: nat, k: nat)
    requires k > 0
    ensures |Dec(n)| <= k <==> n < Power10(k)
  {
    if k == 1 {
      assert Power10(1) == 10 * Power10(0);
    } else if n >= 10 {
      DecLength(n / 10, k - 1);
      assert n < 10 * Power10(k - 1) <==> n / 10 < Power10(k - 1);
    } else {
      PowerIsPositive(k - 1);
    }
  }

  lemma {:induction false} PowerIsPositive(k: nat)
    ensures Power10(k) >= 1
  {
    if k > 0 {
      PowerIsPositive(k - 1);
    }
  }

  const OFFSET_LIMIT := 10_000_000_000

  /** A cross-reference entry has the 20 bytes that the format asks for exactly while ten digits are enough. */
  lemma EntryIsTwentyBytes(offset: nat)
    ensures |Entry(offset)| == 20 <==> offset < OFFSET_LIMIT
    ensures offset < OFFSET_LIMIT ==> |Ten(offset)| == 10
  {
    DecLength(offset, 10);
    var five := Power10(5);
    assert five == 100_000;
    assert Power10(10) == 100_000 * five by {
      assert Power10(10) == 10 * Power10(9) && Power10(9) == 10 * Power10(8) && Power10(8) == 10 * Power10(7)
          && Power10(7) == 10 * Power10(6) && Power10(6) == 10 * Power10(5);
    }
  }

  // ----- Literal strings -----

  /** `text.replace(c, put)` for a one-character pattern. */
  function Replace(text: string, c: char, put: string): string {
    if text == "" then "" else (if text[0] == c then put else [text[0]]) + Replace(text[1..], c, put)
  }

  /** The nested function `escape`: three replacements, one after the other. */
  function Escape(text: string): string {
    Replace(Replace(Replace(text, '\\', "\\\\"), '(', "\\("), ')', "\\)")
  }

  function EscapeChar(c: char): string { if c in "\\()" then ['\\', c] else [c] }

  /** What the three replacements amount to. */
  function EscapeMap(text: string): string {
    if text == "" then "" else EscapeChar(text[0]) + EscapeMap(text[1..])
  }

  lemma {:induction false} ReplaceConcat(a: string, b: string, c: char, put: string)
    ensures Replace(a + b, c, put) == Replace(a, c, put) + Replace(b, c, put)
  {
    if a == "" {
      assert a + b == b;
    } else {
      ReplaceConcat(a[1..], b, c, put);
      assert (a + b)[1..] == a[1..] + b;
      assert (a + b)[0] == a[0];
      Assoc(if a[0] == c then put else [a[0]], Replace(a[1..], c, put), Replace(b, c, put));
    }
  }

  lemma ReplaceShort(a: char, b: char, c: char, put: string)
    ensures Replace([a], c, put) == if a == c then put else [a]
    ensures Replace([a, b], c, put) == (if a == c then put else [a]) + (if b == c then put else [b])
  {
    assert [a, b][1..] == [b];
    assert Replace([a], c, put) == (if a == c then put else [a]) + Replace("", c, put);
    assert Replace([b], c, put) == (if b == c then put else [b]) + Replace("", c, put);
  }

  lemma EscapeOne(c: char)
    ensures Escape([c]) == EscapeChar(c)
  {
    ReplaceShort(c, c, '\\', "\\\\");
    ReplaceShort(c, c, '(', "\\(");
    ReplaceShort('\\', '\\', '(', "\\(");
    ReplaceShort(c, c, ')', "\\)");
    ReplaceShort('\\', '\\', ')', "\\)");
    ReplaceShort('\\', '(', ')', "\\)");
  }

  /** No replacement touches what an earlier one wrote. */
  lemma {:induction false} EscapeIsPerCharacter(text: string)
    ensures Escape(text) == EscapeMap(text)
  {
    if text != "" {
      var c, rest := [text[0]], text[1..];
      EscapeIsPerCharacter(rest);
      EscapeOne(text[0]);
      assert text == c + rest;
      ReplaceConcat(c, rest, '\\', "\\\\");
      var c1, rest1 := Replace(c, '\\', "\\\\"), Replace(rest, '\\', "\\\\");
      ReplaceConcat(c1, rest1, '(', "\\(");
      ReplaceConcat(Replace(c1, '(', "\\("), Replace(rest1, '(', "\\("), ')', "\\)");
    }
  }

  datatype Read = Read(value: string, rest: string)

  predicate IsOctal(c: char) { '0' <= c <= '7' }

  function OctalDigits(s: string): (k: nat)
    ensures k <= 3 && k <= |s| && forall i :: 0 <= i < k ==> IsOctal(s[i])
  {
    if s == "" || !IsOctal(s[0]) then 0
    else if |s| == 1 || !IsOctal(s[1]) then 1
    else if |s| == 2 || !IsOctal(s[2]) then 2 else 3
  }

  function Octal(s: string): nat
    requires forall c <- s :: IsOctal(c)
  {
    if s == "" then 0
    else
      assert IsOctal(s[|s| - 1]);
      8 * Octal(s[..|s| - 1]) + (s[|s| - 1] as int - '0' as int)
  }

  /** What follows a reverse solidus: the characters it stands for and how many it takes. */
  function EscapeSequence(s: string): (r: (string, nat))
    ensures r.1 <= |s|
  {
    if s == "" then ("", 0)
    else if s[0] == 'n' then ("\n", 1)
    else if s[0] == 'r' then ("\r", 1)
    else if s[0] == 't' then ("\t", 1)
    else if s[0] == 'b' then ("\U{0008}", 1)
    else if s[0] == 'f' then ("\U{000C}", 1)
    else if s[0] in "\\()" then ([s[0]], 1)
    else if s[0] == '\n' then ("", 1)
    else if s[0] == '\r' then ("", if |s| > 1 && s[1] == '\n' then 2 else 1)
    else if IsOctal(s[0]) then
      var k := OctalDigits(s);
      ([(Octal(s[..k]) % 256) as char], k)
    else ("", 0)
  }

  function Push(c: string, r: Option<Read>): Option<Read> {
    match r
    case None => None
    case Some(read) => Some(Read(c + read.value, read.rest))
  }

  /** A literal string after its opening parenthesis: balanced parentheses, escapes, one kind of line end. */
  function ReadLiteral(s: string, depth: nat): (r: Option<Read>)
    ensures r.Some? ==> |r.value.rest| < |s|
    decreases |s|
  {
    if s == "" then None
    else if s[0] == ')' && depth == 0 then Some(Read("", s[1..]))
    else if s[0] == '\\' then
      var (out, k) := EscapeSequence(s[1..]);
      Push(out, ReadLiteral(s[1 + k..], depth))
    else if s[0] == '\r' then
      Push("\n", ReadLiteral(if |s| > 1 && s[1] == '\n' then s[2..] else s[1..], depth))
    else
      Push([s[0]], ReadLiteral(s[1..], if s[0] == '(' then depth + 1 else if s[0] == ')' then depth - 1 else depth))
  }

  /** A line with every end-of-line marker written as a line feed. */
  function OneLineEnd(line: string): string {
    if line == "" then ""
    else if line[0] != '\r' then [line[0]] + OneLineEnd(line[1..])
    else "\n" + OneLineEnd(if |line| > 1 && line[1] == '\n' then line[2..] else line[1..])
  }

  lemma ReadPlain(c: char, tail: string)
    requires c !in "\\()\r"
    ensures ReadLiteral([c] + tail, 0) == Push([c], ReadLiteral(tail, 0))
  {
    assert ([c] + tail)[1..] == tail;
  }

  lemma ReadEscaped(c: char, tail: string)
    requires c in "\\()"
    ensures ReadLiteral(['\\', c] + tail, 0) == Push([c], ReadLiteral(tail, 0))
  {
    var s := ['\\', c] + tail;
    assert s[1..][0] == c && s[2..] == tail;
    assert EscapeSequence(s[1..]) == ([c], 1);
  }

  lemma ReadReturn(tail: string)
    requires tail != "" && tail[0] != '\n'
    ensures ReadLiteral("\r" + tail, 0) == Push("\n", ReadLiteral(tail, 0))
  {
    var s := "\r" + tail;
    assert s[1] == tail[0] && s[1..] == tail;
  }

  lemma ReadReturnFeed(tail: string)
    ensures ReadLiteral("\r" + ("\n" + tail), 0) == Push("\n", ReadLiteral(tail, 0))
  {
    var s := "\r" + ("\n" + tail);
    assert s[1] == '\n' && s[2..] == tail;
  }

  /** The rest of an escaped line, its closing parenthesis and what follows it. */
  function Escaped(line: string, rest: string): (s: string)
    ensures s != ""
  {
    EscapeMap(line) + ")" + rest
  }

  lemma EscapedFirst(line: string, rest: string)
    requires line != ""
    ensures Escaped(line, rest) == EscapeChar(line[0]) + Escaped(line[1..], rest)
  {
    var e := EscapeMap(line[1..]);
    Assoc(EscapeChar(line[0]), e, ")");
    Assoc(EscapeChar(line[0]), e + ")", rest);
  }

  /** The reader undoes the escaping, whatever follows, up to the line ends. */
  lemma {:induction false} LiteralReadsBack(line: string, rest: string)
    ensures ReadLiteral(Escaped(line, rest), 0) == Some(Read(OneLineEnd(line), rest))
    decreases |line|
  {
    if line == "" {
      var s := Escaped("", rest);
      assert s[0] == ')' && s[1..] == rest;
    } else {
      var c, tail := line[0], Escaped(line[1..], rest);
      EscapedFirst(line, rest);
      LiteralReadsBack(line[1..], rest);
      if c in "\\()" {
        ReadEscaped(c, tail);
      } else if c != '\r' {
        ReadPlain(c, tail);
      } else if |line| == 1 {
        assert tail[0] == ')';
        ReadReturn(tail);
      } else {
        EscapedFirst(line[1..], rest);
        assert line[1..][0] == line[1] && line[1..][1..] == line[2..];
        if line[1] == '\n' {
          LiteralReadsBack(line[2..], rest);
          ReadReturnFeed(Escaped(line[2..], rest));
        } else {
          ReadReturn(tail);
        }
      }
    }
  }

  lemma {:induction false} LineEndsAreKept(line: string)
    ensures OneLineEnd(line) == line <==> '\r' !in line
  {
    NoCarriageReturn(line);
    if '\r' !in line {
      WithoutCarriageReturn(line);
    }
  }

  lemma {:induction false} NoCarriageReturn(line: string)
    ensures '\r' !in OneLineEnd(line)
    decreases |line|
  {
    if line != "" {
      NoCarriageReturn(line[1..]);
      if |line| > 1 {
        NoCarriageReturn(line[2..]);
      }
    }
  }

  lemma {:induction false} WithoutCarriageReturn(line: string)
    requires '\r' !in line
    ensures OneLineEnd(line) == line
  {
    if line != "" {
      WithoutCarriageReturn(line[1..]);
    }
  }

  // ----- The page's text -----

  function ShowLine(line: string): string { "(" + Escape(line) + ") Tj T*" }

  /** `" ".join(...)` of the shown lines */
  function ShowAll(lines: seq<string>): string {
    if lines == [] then ""
    else if |lines| == 1 then ShowLine(lines[0])
    else ShowLine(lines[0]) + " " + ShowAll(lines[1..])
  }

  function Content(lines: seq<string>): string {
    "BT /F1 12 Tf 72 720 Td 16 TL " + ShowAll(lines) + " ET"
  }

  /** The strings of a content stream, in order. */
  function StringsOf(s: string): Option<seq<string>>
    decreases |s|
  {
    if s == "" then Some([])
    else if s[0] == '(' then
      match ReadLiteral(s[1..], 0)
      case None => None
      case Some(read) =>
        (match StringsOf(read.rest)
         case None => None
         case Some(more) => Some([read.value] + more))
    else StringsOf(s[1..])
  }

  lemma {:induction false} OperatorsAreSkipped(p: string, s: string)
    requires '(' !in p
    ensures StringsOf(p + s) == StringsOf(s)
  {
    if p == "" {
      assert p + s == s;
    } else {
      OperatorsAreSkipped(p[1..], s);
      assert (p + s)[1..] == p[1..] + s;
    }
  }

  function OneLineEnds(lines: seq<string>): seq<string> {
    seq(|lines|, i requires 0 <= i < |lines| => OneLineEnd(lines[i]))
  }

  lemma LiteralIsShown(line: string, rest: string)
    requires StringsOf(rest).Some?
    ensures StringsOf("(" + Escaped(line, rest)) == Some([OneLineEnd(line)] + StringsOf(rest).value)
  {
    var s := Escaped(line, rest);
    LiteralReadsBack(line, rest);
    assert ("(" + s)[0] == '(' && ("(" + s)[1..] == s;
  }

  lemma ShownLine(line: string, rest: string)
    ensures ShowLine(line) + rest == "(" + Escaped(line, " Tj T*" + rest)
  {
    EscapeIsPerCharacter(line);
    assert ") Tj T*" == ")" + " Tj T*";
    LineParts("(", EscapeMap(line), ")", " Tj T*", rest);
  }

  lemma LineIsShown(line: string, rest: string)
    requires StringsOf(rest).Some?
    ensures StringsOf(ShowLine(line) + rest) == Some([OneLineEnd(line)] + StringsOf(rest).value)
  {
    ShownLine(line, rest);
    OperatorsAreSkipped(" Tj T*", rest);
    LiteralIsShown(line, " Tj T*" + rest);
  }

  lemma LineParts(a: string, e: string, b: string, c: string, rest: string)
    ensures a + e + (b + c) + rest == a + (e + b + (c + rest))
  {
    Assoc(a + e, b + c, rest);
    Assoc(b, c, rest);
    Assoc(a, e, b + (c + rest));
    Assoc(e, b, c + rest);
  }

  lemma {:induction false} LinesAreShown(lines: seq<string>, rest: string)
    requires StringsOf(rest) == Some([])
    ensures StringsOf(ShowAll(lines) + rest) == Some(OneLineEnds(lines))
  {
    if lines == [] {
      assert "" + rest == rest;
    } else if |lines| == 1 {
      LineIsShown(lines[0], rest);
      assert OneLineEnds(lines) == [OneLineEnd(lines[0])] + [];
    } else {
      LinesAreShown(lines[1..], rest);
      var more := ShowAll(lines[1..]) + rest;
      OperatorsAreSkipped(" ", more);
      LineIsShown(lines[0], " " + more);
      Assoc(ShowLine(lines[0]) + " ", ShowAll(lines[1..]), rest);
      Assoc(ShowLine(lines[0]), " ", more);
      assert OneLineEnds(lines) == [OneLineEnd(lines[0])] + OneLineEnds(lines[1..]);
    }
  }

  /** The page shows the given lines, in order, and nothing else. */
  lemma ContentShowsTheLines(lines: seq<string>)
    ensures StringsOf(Content(lines)) == Some(OneLineEnds(lines))
  {
    var head := "BT /F1 12 Tf 72 720 Td 16 TL ";
    OperatorsAreSkipped(" ET", "");
    assert " ET" + "" == " ET";
    LinesAreShown(lines, " ET");
    OperatorsAreSkipped(head, ShowAll(lines) + " ET");
    assert Content(lines) == head + (ShowAll(lines) + " ET");
  }

  // ----- The file -----

  predicate Latin1(s: string) { forall c <- s :: c as int < 256 }

  predicate Latin1Lines(lines: seq<string>) { forall line <- lines :: Latin1(line) }

  function StreamObject(stream: string): string {
    "<< /Length " + Dec(|stream|) + " >>\nstream\n" + stream + "\nendstream"
  }

  /** A dictionary that refers to object `n` behind `key`. */
  function Linking(front: string, key: string, n: nat, rest: string): string {
    front + (key + (Dec(n) + (" 0 R" + rest)))
  }

  const PAGE := "<< /Type /Page /Parent 2 0 R " + "/MediaBox [0 0 612 792] "

  function PdfObjects(stream: string): seq<string> {
    [Linking("<< /Type /Catalog ", "/Pages ", 2, " >>"),
     Linking("<< /Type /Pages ", "/Kids [", 3, "] /Count 1 >>"),
     Linking(PAGE, "/Contents ", 4, " /Resources << /Font << /F1 5 0 R >> >> >>"),
     StreamObject(stream),
     "<< /Type /Font /Subtype /Type1 /BaseFont /Helvetica >>"]
  }

  function Numbered(n: nat, body: string): string { Dec(n) + " 0 obj\n" + body + "\nendobj\n" }

  /** The file up to and with object `n`. */
  function Body(objects: seq<string>, n: nat): string
    requires n <= |objects|
  {
    if n == 0 then "%PDF-1.4\n" else Body(objects, n - 1) + Numbered(n, objects[n - 1])
  }

  function Entry(offset: nat): string { Ten(offset) + " 00000 n \n" }

  function Entries(objects: seq<string>, n: nat): string
    requires n <= |objects|
  {
    if n == 0 then "" else Entries(objects, n - 1) + Entry(|Body(objects, n - 1)|)
  }

  const FREE := "0000000000 65535 f \n"
  const END := "\n%%EOF\n"

  function TrailerHead(count: nat): string { "trailer\n<< /Size " + Dec(count) + " /Root 1 0 R >>\n" }

  function Trailer(count: nat, xref: nat): string { TrailerHead(count) + "startxref\n" + Dec(xref) + END }

  /** The table from its free entry on, and all that follows. */
  function Table(objects: seq<string>): string {
    FREE + (Entries(objects, |objects|) + Trailer(|objects| + 1, |Body(objects, |objects|)|))
  }

  function File(objects: seq<string>): string {
    Body(objects, |objects|) + ("xref\n0 " + (Dec(|objects| + 1) + ("\n" + Table(objects))))
  }

  // ----- A random-access reader -----

  predicate Starts(s: string, p: string) { |p| <= |s| && s[..|p|] == p }

  predicate Ends(s: string, p: string) { |p| <= |s| && s[|s| - |p|..] == p }

  function LeadingDigits(s: string): (k: nat)
    ensures k <= |s| && Digits(s[..k])
  {
    if s == "" || !IsDigit(s[0]) then 0
    else
      var k := LeadingDigits(s[1..]);
      assert s[..k + 1] == [s[0]] + s[1..][..k];
      k + 1
  }

  function TrailingDigits(s: string): (k: nat)
    ensures k <= |s| && Digits(s[|s| - k..])
  {
    if s == "" || !IsDigit(s[|s| - 1]) then 0
    else
      var k := TrailingDigits(s[..|s| - 1]);
      assert s[|s| - (k + 1)..] == s[..|s| - 1][|s| - 1 - k..] + [s[|s| - 1]];
      k + 1
  }

  /** The number after `startxref`, read from the end of the file. */
  function StartXref(pdf: string): Option<nat> {
    if !Ends(pdf, "\n%%EOF\n") then None
    else
      var s := pdf[..|pdf| - 7];
      var k := TrailingDigits(s);
      if k == 0 || !Ends(s[..|s| - k], "startxref\n") then None else Some(Number(s[|s| - k..]))
  }

  /** Entry `n` of a table of 20-byte entries. */
  function TableEntry(table: string, n: nat): Option<nat> {
    if |table| < 20 * n + 20 then None
    else
      var e := table[20 * n..20 * n + 20];
      if Digits(e[..10]) && e[10..] == " 00000 n \n" then Some(Number(e[..10])) else None
  }

  function ObjectOffset(pdf: string, n: nat): Option<nat> {
    match StartXref(pdf)
    case None => None
    case Some(xref) =>
      if xref > |pdf| || !Starts(pdf[xref..], "xref\n0 ") then None
      else
        var s := pdf[xref..][7..];
        var k := LeadingDigits(s);
        if k == 0 || !Starts(s[k..], "\n") || n >= Number(s[..k]) then None else TableEntry(s[k..][1..], n)
  }

  /** The file from just after `n 0 obj`, at the offset that the table gives. */
  function ObjectText(pdf: string, n: nat): Option<string> {
    match ObjectOffset(pdf, n)
    case None => None
    case Some(offset) =>
      var head := Dec(n) + " 0 obj\n";
      if offset > |pdf| || !Starts(pdf[offset..], head) then None else Some(pdf[offset..][|head|..])
  }

  /** The bytes of a stream object: `/Length` of them, and the keyword right after. */
  function StreamOf(s: string): Option<string> {
    if !Starts(s, "<< /Length ") then None
    else
      var t := s[11..];
      var k := LeadingDigits(t);
      if k == 0 || !Starts(t[k..], " >>\nstream\n") then None
      else
        var data := t[k..][11..];
        var n := Number(t[..k]);
        if n > |data| || !Starts(data[n..], "\nendstream") then None else Some(data[..n])
  }

  /** The object number behind the first `key`, as in `/Pages 2 0 R`. */
  function Reference(s: string, key: string): Option<nat>
    decreases |s|
  {
    if Starts(s, key) then
      var t := s[|key|..];
      var k := LeadingDigits(t);
      if k == 0 || !Starts(t[k..], " 0 R") then None else Some(Number(t[..k]))
    else if s == "" then None
    else Reference(s[1..], key)
  }

  /** The root object that the trailer behind the table names. */
  function Root(pdf: string): Option<nat> {
    match StartXref(pdf)
    case None => None
    case Some(xref) => if xref > |pdf| then None else Reference(pdf[xref..], "/Root ")
  }

  /** The object that `key` of another object leads to. */
  function Follow(pdf: string, n: Option<nat>, key: string): Option<nat> {
    if n.None? || ObjectText(pdf, n.value).None? then None else Reference(ObjectText(pdf, n.value).value, key)
  }

  /** The lines of the first page: from the trailer to the catalog, its pages, the first page and its contents. */
  function ReadLines(pdf: string): Option<seq<string>> {
    var page := Follow(pdf, Follow(pdf, Root(pdf), "/Pages "), "/Kids [");
    var contents := Follow(pdf, page, "/Contents ");
    if contents.None? || ObjectText(pdf, contents.value).None? then None
    else
      match StreamOf(ObjectText(pdf, contents.value).value)
      case None => None
      case Some(stream) => StringsOf(stream)
  }

  // ----- The reader finds every object -----

  lemma {:induction false} DigitsThenText(d: string, s: string)
    requires Digits(d) && s != "" && !IsDigit(s[0])
    ensures LeadingDigits(d + s) == |d| && (d + s)[..|d|] == d && (d + s)[|d|..] == s
  {
    if d == "" {
      assert d + s == s;
    } else {
      DigitsThenText(d[1..], s);
      assert (d + s)[1..] == d[1..] + s;
    }
  }

  lemma {:induction false} TextThenDigits(s: string, d: string)
    requires Digits(d) && s != "" && !IsDigit(s[|s| - 1])
    ensures TrailingDigits(s + d) == |d| && (s + d)[..|s|] == s && (s + d)[|s|..] == d
    decreases |d|
  {
    if d == "" {
      assert s + d == s;
    } else {
      TextThenDigits(s, d[..|d| - 1]);
      assert (s + d)[..|s| + |d| - 1] == s + d[..|d| - 1];
    }
  }

  lemma AfterPrefix(p: string, s: string)
    ensures Starts(p + s, p) && (p + s)[|p|..] == s
  {
  }

  lemma BeforeSuffix(s: string, p: string)
    ensures Ends(s + p, p) && (s + p)[..|s|] == s
  {
  }

  lemma Reassociate(x: string, a: string, b: string, c: string, d: string)
    ensures x + (a + b + c + d) == (x + a) + b + c + d
  {
    assert x + (a + b + c + d) == x + (a + b + c) + d;
    assert x + (a + b + c) == x + (a + b) + c;
    assert x + (a + b) == x + a + b;
  }

  lemma StartXrefAtEnd(front: string, n: nat)
    ensures StartXref(front + "startxref\n" + Dec(n) + END) == Some(n)
  {
    var text, d := front + "startxref\n", Dec(n);
    BeforeSuffix(text + d, END);
    TextThenDigits(text, d);
    BeforeSuffix(front, "startxref\n");
    DecReadsBack(n);
  }

  /** The end of the file, cut before `startxref`. */
  lemma FileEnds(objects: seq<string>) returns (front: string)
    ensures File(objects) == front + "startxref\n" + Dec(|Body(objects, |objects|)|) + END
  {
    var body, entries, d := Body(objects, |objects|), Entries(objects, |objects|), Dec(|objects| + 1);
    var at := Dec(|body|);
    front := TrailerHead(|objects| + 1);
    Reassociate(entries, front, "startxref\n", at, END);
    front := entries + front;
    Reassociate(FREE, front, "startxref\n", at, END);
    front := FREE + front;
    Reassociate("\n", front, "startxref\n", at, END);
    front := "\n" + front;
    Reassociate(d, front, "startxref\n", at, END);
    front := d + front;
    Reassociate("xref\n0 ", front, "startxref\n", at, END);
    front := "xref\n0 " + front;
    Reassociate(body, front, "startxref\n", at, END);
    front := body + front;
  }

  /** `startxref` names the byte where the table begins. */
  lemma StartXrefIsXref(objects: seq<string>)
    ensures StartXref(File(objects)) == Some(|Body(objects, |objects|)|)
  {
    var front := FileEnds(objects);
    StartXrefAtEnd(front, |Body(objects, |objects|)|);
  }

  lemma TableIsReached(body: string, k: nat, table: string, n: nat)
    requires n < k
    ensures var pdf := body + ("xref\n0 " + (Dec(k) + ("\n" + table)));
            StartXref(pdf) == Some(|body|) ==> ObjectOffset(pdf, n) == TableEntry(table, n)
  {
    var s := Dec(k) + ("\n" + table);
    AfterPrefix(body, "xref\n0 " + s);
    AfterPrefix("xref\n0 ", s);
    DigitsThenText(Dec(k), "\n" + table);
    DecReadsBack(k);
    AfterPrefix("\n", table);
  }

  lemma TableIsFound(objects: seq<string>, n: nat)
    requires n <= |objects|
    ensures ObjectOffset(File(objects), n) == TableEntry(Table(objects), n)
  {
    StartXrefIsXref(objects);
    TableIsReached(Body(objects, |objects|), |objects| + 1, Table(objects), n);
  }

  lemma {:induction false} BodyGrows(objects: seq<string>, m: nat, n: nat)
    requires m <= n <= |objects|
    ensures Starts(Body(objects, n), Body(objects, m))
  {
    if m < n {
      BodyGrows(objects, m, n - 1);
      var a, b := Body(objects, n - 1), Body(objects, m);
      assert Body(objects, n)[..|b|] == a[..|b|];
    }
  }

  /** While the offsets fit into ten digits, entry `n` stands at its 20-byte place. */
  lemma {:induction false} EntriesAreAligned(objects: seq<string>, n: nat)
    requires n <= |objects| && (n > 0 ==> |Body(objects, n - 1)| < OFFSET_LIMIT)
    ensures |Entries(objects, n)| == 20 * n
  {
    if n > 0 {
      if n > 1 {
        BodyGrows(objects, n - 2, n - 1);
      }
      EntriesAreAligned(objects, n - 1);
      EntryIsTwentyBytes(|Body(objects, n - 1)|);
    }
  }

  lemma {:induction false} EntriesGrow(objects: seq<string>, m: nat, n: nat)
    requires m <= n <= |objects|
    ensures Starts(Entries(objects, n), Entries(objects, m))
  {
    if m < n {
      EntriesGrow(objects, m, n - 1);
      var a, b := Entries(objects, n - 1), Entries(objects, m);
      assert Entries(objects, n)[..|b|] == a[..|b|];
    }
  }

  lemma TableSlice(head: string, before: string, entry: string, after: string, n: nat)
    requires |head| == 20 && |before| == 20 * n && |entry| == 20
    ensures var table := head + (before + (entry + after));
            |table| >= 20 * n + 40 && table[20 * n + 20..20 * n + 40] == entry
  {
  }

  lemma EntryReadsBack(offset: nat)
    requires offset < OFFSET_LIMIT
    ensures |Entry(offset)| == 20 && Entry(offset)[..10] == Ten(offset) && Entry(offset)[10..] == " 00000 n \n"
    ensures Digits(Ten(offset)) && Number(Ten(offset)) == offset
  {
    EntryIsTwentyBytes(offset);
    TenReadsBack(offset);
  }

  lemma EntryIsRead(before: string, offset: nat, after: string, n: nat)
    requires offset < OFFSET_LIMIT && |before| == 20 * n
    ensures TableEntry(FREE + (before + (Entry(offset) + after)), n + 1) == Some(offset)
  {
    EntryReadsBack(offset);
    TableSlice(FREE, before, Entry(offset), after, n);
  }

  /** What stands after a prefix. */
  lemma Cut(s: string, p: string) returns (after: string)
    requires Starts(s, p)
    ensures s == p + after
  {
    after := s[|p|..];
  }

  lemma OffsetIsRead(objects: seq<string>, n: nat)
    requires 0 < n <= |objects| && |Body(objects, n - 1)| < OFFSET_LIMIT
    ensures ObjectOffset(File(objects), n) == Some(|Body(objects, n - 1)|)
  {
    var offset, before := |Body(objects, n - 1)|, Entries(objects, n - 1);
    TableIsFound(objects, n);
    EntriesGrow(objects, n, |objects|);
    EntriesAreAligned(objects, n);
    EntryIsTwentyBytes(offset);
    var after := Cut(Entries(objects, |objects|), Entries(objects, n));
    var trailer := Trailer(|objects| + 1, |Body(objects, |objects|)|);
    Assoc(before, Entry(offset), after);
    Assoc(before, Entry(offset) + after, trailer);
    Assoc(Entry(offset), after, trailer);
    EntryIsRead(before, offset, after + trailer, n - 1);
  }

  lemma ObjectIsCut(before: string, n: nat, body: string, after: string)
    ensures var pdf := before + (Numbered(n, body) + after);
            ObjectOffset(pdf, n) == Some(|before|) ==> ObjectText(pdf, n) == Some(body + ("\nendobj\n" + after))
  {
    var head := Dec(n) + " 0 obj\n";
    var rest := body + ("\nendobj\n" + after);
    Assoc(head, body, "\nendobj\n");
    Assoc(head, body + "\nendobj\n", after);
    Assoc(body, "\nendobj\n", after);
    AfterPrefix(before, head + rest);
    AfterPrefix(head, rest);
  }

  /** Looking object `n` up in the table leads to `n 0 obj`, its body and `endobj`. */
  lemma ObjectIsFound(objects: seq<string>, n: nat) returns (after: string)
    requires 0 < n <= |objects| && |Body(objects, n - 1)| < OFFSET_LIMIT
    ensures ObjectOffset(File(objects), n) == Some(|Body(objects, n - 1)|)
    ensures ObjectText(File(objects), n) == Some(objects[n - 1] + ("\nendobj\n" + after))
  {
    OffsetIsRead(objects, n);
    BodyGrows(objects, n, |objects|);
    var pdf, body, before := File(objects), Body(objects, |objects|), Body(objects, n - 1);
    var text := Numbered(n, objects[n - 1]);
    var middle := Cut(body, before + text);
    AfterPrefix(body, "");
    after := Cut(pdf, body);
    Assoc(before + text, middle, after);
    Assoc(before, text, middle + after);
    after := middle + after;
    ObjectIsCut(before, n, objects[n - 1], after);
  }

  /** `/Length` is the number of bytes between the keywords. */
  lemma StreamIsRead(stream: string, after: string)
    ensures StreamOf(StreamObject(stream) + after) == Some(stream)
  {
    var t := stream + ("\nendstream" + after);
    var d := Dec(|stream|);
    var s := d + (" >>\nstream\n" + t);
    StreamParts("<< /Length ", d, " >>\nstream\n", stream, "\nendstream", after);
    AfterPrefix("<< /Length ", s);
    DigitsThenText(d, " >>\nstream\n" + t);
    AfterPrefix(" >>\nstream\n", t);
    DecReadsBack(|stream|);
    AfterPrefix(stream, "\nendstream" + after);
    AfterPrefix("\nendstream", after);
  }

  lemma StreamParts(a: string, d: string, b: string, stream: string, c: string, after: string)
    ensures a + d + b + stream + c + after == a + (d + (b + (stream + (c + after))))
  {
    Assoc(a + d + b + stream, c, after);
    Assoc(a + d + b, stream, c + after);
    Assoc(a + d, b, stream + (c + after));
    Assoc(a, d, b + (stream + (c + after)));
  }

  /** The three objects before the stream have fixed texts, so the stream always starts within the limit. */
  lemma StreamStartsEarly(stream: string)
    ensures |Body(PdfObjects(stream), 3)| < 400
  {
    var objects := PdfObjects(stream);
    assert Dec(1) == "1" && Dec(2) == "2" && Dec(3) == "3";
    assert |Body(objects, 1)| == 9 + |Numbered(1, objects[0])|;
    assert |Body(objects, 2)| == |Body(objects, 1)| + |Numbered(2, objects[1])|;
    assert |Body(objects, 3)| == |Body(objects, 2)| + |Numbered(3, objects[2])|;
  }

  // ----- The page tree -----

  /** No key of `p` begins with the character `c`. */
  predicate NoKey(p: string, c: char) {
    forall i :: 0 <= i < |p| && p[i] == '/' ==> i + 1 < |p| && p[i + 1] != c
  }

  lemma StartsAlike(s: string, key: string)
    requires Starts(s, key) && |key| >= 2
    ensures |s| >= 2 && s[0] == key[0] && s[1] == key[1]
  {
    assert s[..|key|][0] == s[0] && s[..|key|][1] == s[1];
  }

  lemma NoSlashNoKey(s: string, c: char)
    requires '/' !in s
    ensures NoKey(s, c)
  {
    assert forall i :: 0 <= i < |s| ==> s[i] in s;
  }

  lemma {:induction false} ReferenceAfter(p: string, key: string, rest: string)
    requires |key| >= 2 && key[0] == '/' && NoKey(p, key[1])
    ensures Reference(p + rest, key) == Reference(rest, key)
  {
    if p == "" {
      assert p + rest == rest;
    } else {
      var s := p + rest;
      assert s[1..] == p[1..] + rest && s[0] == p[0];
      assert p[0] == '/' ==> s[1] == p[1];
      if Starts(s, key) {
        StartsAlike(s, key);
        assert false;
      }
      assert forall i :: 0 <= i < |p| - 1 ==> p[1..][i] == p[i + 1];
      ReferenceAfter(p[1..], key, rest);
    }
  }

  lemma ReferenceIsRead(p: string, key: string, n: nat, rest: string)
    requires |key| >= 2 && key[0] == '/' && NoKey(p, key[1])
    ensures Reference(p + (key + (Dec(n) + (" 0 R" + rest))), key) == Some(n)
  {
    var t := Dec(n) + (" 0 R" + rest);
    ReferenceAfter(p, key, key + t);
    AfterPrefix(key, t);
    DigitsThenText(Dec(n), " 0 R" + rest);
    AfterPrefix(" 0 R", rest);
    DecReadsBack(n);
  }

  lemma NoKeyConcat(a: string, b: string, c: char)
    requires NoKey(a, c) && NoKey(b, c)
    ensures NoKey(a + b, c)
  {
    var s := a + b;
    forall i | 0 <= i < |s| && s[i] == '/'
      ensures i + 1 < |s| && s[i + 1] != c
    {
      if i < |a| {
        assert a[i] == '/' && s[i + 1] == a[i + 1];
      } else {
        assert b[i - |a|] == '/' && s[i + 1] == b[i - |a| + 1];
      }
    }
  }

  lemma DigitsHoldNoKey(s: string, c: char)
    requires Digits(s)
    ensures NoKey(s, c)
  {
    assert forall i :: 0 <= i < |s| ==> s[i] in s;
  }

  lemma {:induction false} EntriesHoldNoKey(objects: seq<string>, n: nat, c: char)
    requires n <= |objects|
    ensures NoKey(Entries(objects, n), c)
  {
    if n > 0 {
      var offset := |Body(objects, n - 1)|;
      EntriesHoldNoKey(objects, n - 1, c);
      TenReadsBack(offset);
      DigitsHoldNoKey(Ten(offset), c);
      assert NoKey(" 00000 n \n", c);
      NoKeyConcat(Ten(offset), " 00000 n \n", c);
      NoKeyConcat(Entries(objects, n - 1), Entry(offset), c);
    }
  }

  lemma ReferenceBehindFour(a: string, b: string, c: string, d: string, key: string, rest: string)
    requires |key| >= 2 && key[0] == '/' && NoKey(a, key[1]) && NoKey(b, key[1]) && NoKey(c, key[1]) && NoKey(d, key[1])
    ensures Reference(a + (b + (c + (d + rest))), key) == Reference(rest, key)
  {
    ReferenceAfter(a, key, b + (c + (d + rest)));
    ReferenceAfter(b, key, c + (d + rest));
    ReferenceAfter(c, key, d + rest);
    ReferenceAfter(d, key, rest);
  }

  /** The parts between `startxref`'s target and the trailer's `/Root`, without a key that begins with R. */
  lemma RootIsBehind(d: string, entries: string, rest: string)
    requires Digits(d) && NoKey(entries, 'R')
    ensures Reference("xref\n0 " + (d + ("\n" + (FREE + (entries + ("trailer\n<< /Size " + (d + (" " + rest))))))), "/Root ")
         == Reference(rest, "/Root ")
  {
    var trailer := "trailer\n<< /Size " + (d + (" " + rest));
    DigitsHoldNoKey(d, 'R');
    FixedPartsHoldNoRoot();
    ReferenceBehindFour("xref\n0 ", d, "\n", FREE, "/Root ", entries + trailer);
    ReferenceBehindFour(entries, "trailer\n<< /Size ", d, " ", "/Root ", rest);
  }

  lemma FixedPartsHoldNoRoot()
    ensures NoKey("xref\n0 ", 'R') && NoKey("\n", 'R') && NoKey(FREE, 'R') && NoKey(" ", 'R')
    ensures NoKey("trailer\n<< /Size ", 'R')
  {
    NoSlashNoKey(FREE, 'R');
  }

  lemma TrailerParts(d: string, at: string)
    ensures "trailer\n<< /Size " + d + " /Root 1 0 R >>\n" + "startxref\n" + at + END
         == "trailer\n<< /Size " + (d + (" " + ("/Root " + ("1" + (" 0 R" + (" >>\n" + ("startxref\n" + (at + END))))))))
  {
    var last := "startxref\n" + (at + END);
    var root := " /Root 1 0 R >>\n";
    assert root == " " + ("/Root " + ("1" + (" 0 R" + " >>\n")));
    Assoc("trailer\n<< /Size " + d + root + "startxref\n", at, END);
    Assoc("trailer\n<< /Size " + d + root, "startxref\n", at + END);
    Assoc("trailer\n<< /Size " + d, root, last);
    Assoc("trailer\n<< /Size ", d, root + last);
    RootParts(last);
  }

  lemma RootParts(last: string)
    ensures " " + ("/Root " + ("1" + (" 0 R" + " >>\n"))) + last == " " + ("/Root " + ("1" + (" 0 R" + (" >>\n" + last))))
  {
    Assoc(" ", "/Root " + ("1" + (" 0 R" + " >>\n")), last);
    Assoc("/Root ", "1" + (" 0 R" + " >>\n"), last);
    Assoc("1", " 0 R" + " >>\n", last);
    Assoc(" 0 R", " >>\n", last);
  }

  /** The trailer names object 1. */
  lemma RootIsFound(objects: seq<string>)
    ensures Root(File(objects)) == Some(1)
  {
    var body, entries := Body(objects, |objects|), Entries(objects, |objects|);
    var d, at := Dec(|objects| + 1), Dec(|body|);
    StartXrefIsXref(objects);
    AfterPrefix(body, "xref\n0 " + (d + ("\n" + Table(objects))));
    TrailerParts(d, at);
    EntriesHoldNoKey(objects, |objects|, 'R');
    var rest := "/Root " + ("1" + (" 0 R" + (" >>\n" + ("startxref\n" + (at + END)))));
    RootIsBehind(d, entries, rest);
    assert Dec(1) == "1";
    ReferenceIsRead("", "/Root ", 1, " >>\n" + ("startxref\n" + (at + END)));
    assert "" + rest == rest;
  }

  lemma ReferenceParts(p: string, key: string, n: string, rest: string, after: string)
    ensures p + (key + (n + (" 0 R" + rest))) + after == p + (key + (n + (" 0 R" + (rest + after))))
  {
    Assoc(p, key + (n + (" 0 R" + rest)), after);
    Assoc(key, n + (" 0 R" + rest), after);
    Assoc(n, " 0 R" + rest, after);
    Assoc(" 0 R", rest, after);
  }

  /** An object whose text holds a reference leads to it, wherever its text stands in the file. */
  lemma ObjectLeadsTo(objects: seq<string>, n: nat, p: string, key: string, m: nat, rest: string)
    requires 0 < n <= |objects| && |Body(objects, n - 1)| < OFFSET_LIMIT
    requires objects[n - 1] == p + (key + (Dec(m) + (" 0 R" + rest)))
    requires |key| >= 2 && key[0] == '/' && NoKey(p, key[1])
    ensures Follow(File(objects), Some(n), key) == Some(m)
  {
    var after := ObjectIsFound(objects, n);
    ReferenceParts(p, key, Dec(m), rest, "\nendobj\n" + after);
    ReferenceIsRead(p, key, m, rest + ("\nendobj\n" + after));
  }

  lemma PageKeys()
    ensures NoKey(PAGE, 'C')
  {
    NoKeyConcat("<< /Type /Page ", "/Parent 2 0 R ", 'C');
    assert "<< /Type /Page /Parent 2 0 R " == "<< /Type /Page " + "/Parent 2 0 R ";
    NoKeyConcat("<< /Type /Page /Parent 2 0 R ", "/MediaBox [0 0 612 792] ", 'C');
  }

  ghost predicate EarlyBodies(objects: seq<string>) {
    |objects| >= 3 && forall n :: 0 <= n < 3 ==> |Body(objects, n)| < OFFSET_LIMIT
  }

  lemma BodiesAreEarly(objects: seq<string>)
    requires |objects| >= 3 && |Body(objects, 3)| < OFFSET_LIMIT
    ensures EarlyBodies(objects)
  {
    forall n | 0 <= n < 3
      ensures |Body(objects, n)| < OFFSET_LIMIT
    {
      BodyGrows(objects, n, 3);
    }
  }

  lemma CatalogLeads(objects: seq<string>)
    requires EarlyBodies(objects) && objects[0] == Linking("<< /Type /Catalog ", "/Pages ", 2, " >>")
    ensures Follow(File(objects), Some(1), "/Pages ") == Some(2)
  {
    assert |Body(objects, 0)| < OFFSET_LIMIT;
    ObjectLeadsTo(objects, 1, "<< /Type /Catalog ", "/Pages ", 2, " >>");
  }

  lemma PagesLead(objects: seq<string>)
    requires EarlyBodies(objects) && objects[1] == Linking("<< /Type /Pages ", "/Kids [", 3, "] /Count 1 >>")
    ensures Follow(File(objects), Some(2), "/Kids [") == Some(3)
  {
    assert |Body(objects, 1)| < OFFSET_LIMIT;
    ObjectLeadsTo(objects, 2, "<< /Type /Pages ", "/Kids [", 3, "] /Count 1 >>");
  }

  lemma PageLeads(objects: seq<string>, rest: string)
    requires EarlyBodies(objects) && objects[2] == Linking(PAGE, "/Contents ", 4, rest)
    ensures Follow(File(objects), Some(3), "/Contents ") == Some(4)
  {
    assert |Body(objects, 2)| < OFFSET_LIMIT;
    PageKeys();
    ObjectLeadsTo(objects, 3, PAGE, "/Contents ", 4, rest);
  }

  /** From the trailer over the catalog, the pages and the page to the content stream. */
  lemma PageTreeLeadsToContents(stream: string)
    ensures var pdf := File(PdfObjects(stream));
            && Root(pdf) == Some(1) && Follow(pdf, Some(1), "/Pages ") == Some(2)
            && Follow(pdf, Some(2), "/Kids [") == Some(3) && Follow(pdf, Some(3), "/Contents ") == Some(4)
  {
    StreamStartsEarly(stream);
    BodiesAreEarly(PdfObjects(stream));
    RootIsFound(PdfObjects(stream));
    CatalogLeads(PdfObjects(stream));
    PagesLead(PdfObjects(stream));
    PageLeads(PdfObjects(stream), " /Resources << /Font << /F1 5 0 R >> >> >>");
  }

  lemma StreamIsFound(stream: string)
    ensures ReadLines(File(PdfObjects(stream))) == StringsOf(stream)
  {
    StreamObjectIsRead(PdfObjects(stream), stream);
    PageTreeLeadsToContents(stream);
  }

  lemma StreamObjectIsRead(objects: seq<string>, stream: string)
    requires objects == PdfObjects(stream)
    ensures ObjectText(File(objects), 4).Some? && StreamOf(ObjectText(File(objects), 4).value) == Some(stream)
  {
    StreamStartsEarly(stream);
    var after := ObjectIsFound(objects, 4);
    StreamIsRead(stream, "\nendobj\n" + after);
  }

  /** For every list of lines the file's own table leads a reader back to those lines. */
  lemma FileShowsTheLines(lines: seq<string>)
    ensures ReadLines(File(PdfObjects(Content(lines)))) == Some(OneLineEnds(lines))
  {
    StreamIsFound(Content(lines));
    ContentShowsTheLines(lines);
  }

  lemma LongEntryIsRefused(before: string, offset: nat, after: string, n: nat)
    requires offset >= OFFSET_LIMIT && |before| == 20 * n
    ensures TableEntry(FREE + (before + (Entry(offset) + after)), n + 1) == None
  {
    EntryIsTwentyBytes(offset);
    var digits, table := Ten(offset), FREE + (before + (Entry(offset) + after));
    assert |digits| > 10 by {
      EntryLength(offset);
    }
    if |table| >= 20 * n + 40 {
      var e := table[20 * n + 20..20 * n + 40];
      assert e[10] == Entry(offset)[10] == digits[10];
      assert IsDigit(digits[10]) by {
        TenReadsBack(offset);
      }
      assert e[10..][0] != ' ';
    }
  }

  lemma EntryLength(offset: nat)
    ensures |Entry(offset)| == |Ten(offset)| + 10 && |Ten(offset)| >= 10
  {
  }

  ghost predicate IsFound(objects: seq<string>, n: nat)
    requires 0 < n <= |objects|
  {
    ObjectOffset(File(objects), n) == Some(|Body(objects, n - 1)|)
  }

  lemma EarlyObjectIsFound(objects: seq<string>, n: nat)
    requires 0 < n <= 4 < |objects| && |Body(objects, 3)| < OFFSET_LIMIT
    ensures IsFound(objects, n)
  {
    BodyGrows(objects, n - 1, 3);
    OffsetIsRead(objects, n);
  }

  lemma LastObjectIsFound(objects: seq<string>)
    requires |objects| == 5 && |Body(objects, 3)| < OFFSET_LIMIT
    ensures IsFound(objects, 5) <==> |Body(objects, 4)| < OFFSET_LIMIT
  {
    if |Body(objects, 4)| < OFFSET_LIMIT {
      OffsetIsRead(objects, 5);
    } else {
      LastObjectIsLost(objects);
    }
  }

  lemma FiveObjects(objects: seq<string>)
    requires |objects| == 5 && |Body(objects, 3)| < OFFSET_LIMIT
    ensures forall n :: 1 <= n <= 4 ==> IsFound(objects, n)
    ensures IsFound(objects, 5) <==> |Body(objects, 4)| < OFFSET_LIMIT
  {
    LastObjectIsFound(objects);
    forall n | 1 <= n <= 4
      ensures IsFound(objects, n)
    {
      EarlyObjectIsFound(objects, n);
    }
  }

  /** A reader always finds the first four objects, and the last one exactly if its offset has ten digits. */
  lemma AllObjectsAreFound(stream: string)
    ensures forall n :: 1 <= n <= 4 ==> IsFound(PdfObjects(stream), n)
    ensures IsFound(PdfObjects(stream), 5) <==> |Body(PdfObjects(stream), 4)| < OFFSET_LIMIT
  {
    StreamStartsEarly(stream);
    FiveObjects(PdfObjects(stream));
  }

  lemma LastObjectIsLost(objects: seq<string>)
    requires |objects| == 5 && |Body(objects, 3)| < OFFSET_LIMIT <= |Body(objects, 4)|
    ensures ObjectOffset(File(objects), 5) == None
  {
    var before, offset := Entries(objects, 4), |Body(objects, 4)|;
    var trailer := Trailer(6, |Body(objects, 5)|);
    TableIsFound(objects, 5);
    EntriesAreAligned(objects, 4);
    Assoc(before, Entry(offset), trailer);
    LongEntryIsRefused(before, offset, trailer, 4);
  }

  lemma AllLineEndsAreKept(lines: seq<string>)
    ensures OneLineEnds(lines) == lines <==> forall i :: 0 <= i < |lines| ==> '\r' !in lines[i]
  {
    forall i | 0 <= i < |lines|
      ensures OneLineEnds(lines)[i] == lines[i] <==> '\r' !in lines[i]
    {
      LineEndsAreKept(lines[i]);
    }
  }

  /** The text survives unchanged exactly when no line holds a carriage return. */
  lemma LinesSurviveExactly(lines: seq<string>)
    ensures ReadLines(File(PdfObjects(Content(lines)))) == Some(lines) <==>
            forall i :: 0 <= i < |lines| ==> '\r' !in lines[i]
  {
    FileShowsTheLines(lines);
    AllLineEndsAreKept(lines);
  }

  // ----- The writer -----

  lemma {:induction false} ReplaceLatin1(s: string, c: char, put: string)
    requires Latin1(put) && c as int < 256
    ensures Latin1(Replace(s, c, put)) <==> Latin1(s)
  {
    if s != "" {
      ReplaceLatin1(s[1..], c, put);
      assert s == [s[0]] + s[1..];
      var first := if s[0] == c then put else [s[0]];
      Latin1Concat(first, Replace(s[1..], c, put));
      Latin1Concat([s[0]], s[1..]);
      assert [s[0]][0] == s[0];
    }
  }

  lemma Latin1Concat(a: string, b: string)
    ensures Latin1(a + b) <==> Latin1(a) && Latin1(b)
  {
    if Latin1(a + b) {
      assert forall c <- a :: c in a + b;
      assert forall c <- b :: c in a + b;
    }
  }

  lemma ShowLineLatin1(line: string)
    ensures Latin1(ShowLine(line)) <==> Latin1(line)
  {
    ReplaceLatin1(line, '\\', "\\\\");
    ReplaceLatin1(Replace(line, '\\', "\\\\"), '(', "\\(");
    ReplaceLatin1(Replace(Replace(line, '\\', "\\\\"), '(', "\\("), ')', "\\)");
    Latin1Concat("(", Escape(line));
    Latin1Concat("(" + Escape(line), ") Tj T*");
  }

  lemma FirstLineLatin1(lines: seq<string>)
    requires lines != []
    ensures Latin1Lines(lines) <==> Latin1(lines[0]) && Latin1Lines(lines[1..])
  {
    assert lines == [lines[0]] + lines[1..];
  }

  lemma {:induction false} ShowAllLatin1(lines: seq<string>)
    ensures Latin1(ShowAll(lines)) <==> Latin1Lines(lines)
  {
    if lines != [] {
      FirstLineLatin1(lines);
      ShowLineLatin1(lines[0]);
      ShowAllLatin1(lines[1..]);
      Latin1Concat(ShowLine(lines[0]), " ");
      Latin1Concat(ShowLine(lines[0]) + " ", ShowAll(lines[1..]));
      assert lines[1..] == [] ==> Latin1(ShowAll(lines[1..]));
    }
  }

  lemma ContentLatin1(lines: seq<string>)
    ensures Latin1(Content(lines)) <==> Latin1Lines(lines)
  {
    ShowAllLatin1(lines);
    Latin1Concat("BT /F1 12 Tf 72 720 Td 16 TL ", ShowAll(lines));
    Latin1Concat("BT /F1 12 Tf 72 720 Td 16 TL " + ShowAll(lines), " ET");
  }

  lemma FileParts(body: string, d: string, entries: string, trailer: string)
    ensures body + ("xref\n0 " + d + "\n" + FREE) + entries + trailer
         == body + ("xref\n0 " + (d + ("\n" + (FREE + (entries + trailer)))))
  {
    Assoc(body + ("xref\n0 " + d + "\n" + FREE), entries, trailer);
    Assoc(body, "xref\n0 " + d + "\n" + FREE, entries + trailer);
    Assoc("xref\n0 " + d + "\n", FREE, entries + trailer);
    Assoc("xref\n0 " + d, "\n", FREE + (entries + trailer));
    Assoc("xref\n0 ", d, "\n" + (FREE + (entries + trailer)));
  }

  function XrefHead(count: nat): string { "xref\n0 " + Dec(count) + "\n" + FREE }

  /** The parts in the order of writing. */
  lemma FileInOrder(objects: seq<string>)
    ensures var k := |objects|;
            Body(objects, k) + XrefHead(k + 1) + Entries(objects, k) + Trailer(k + 1, |Body(objects, k)|) == File(objects)
  {
    var k := |objects|;
    FileParts(Body(objects, k), Dec(k + 1), Entries(objects, k), Trailer(k + 1, |Body(objects, k)|));
  }

  ghost predicate Offsets(objects: seq<string>, offsets: seq<nat>) {
    |offsets| <= |objects| && forall j :: 0 <= j < |offsets| ==> offsets[j] == |Body(objects, j)|
  }

  /** The cross-reference entries of a list of offsets. */
  method WriteEntries(objects: seq<string>, offsets: seq<nat>) returns (entries: string)
    requires |offsets| == |objects| && Offsets(objects, offsets)
    ensures entries == Entries(objects, |objects|)
  {
    entries := "";
    for i := 0 to |offsets|
      invariant entries == Entries(objects, i)
    {
      entries := entries + Entry(offsets[i]);
    }
  }

  /** The header and the numbered objects, and where each of them begins. */
  method WriteBody(objects: seq<string>) returns (pdf: string, offsets: seq<nat>)
    ensures pdf == Body(objects, |objects|)
    ensures |offsets| == |objects| && Offsets(objects, offsets)
  {
    pdf, offsets := "%PDF-1.4\n", [];
    for i := 0 to |objects|
      invariant pdf == Body(objects, i) && |offsets| == i && Offsets(objects, offsets)
    {
      offsets := offsets + [|pdf|];
      pdf := pdf + Numbered(i + 1, objects[i]);
    }
  }

  /** The writer, for any objects. */
  method WriteFile(objects: seq<string>) returns (pdf: string)
    ensures pdf == File(objects)
  {
    var offsets;
    pdf, offsets := WriteBody(objects);
    var entries := WriteEntries(objects, offsets);
    var xref := |pdf|;
    FileInOrder(objects);
    pdf := pdf + XrefHead(|objects| + 1) + entries + Trailer(|objects| + 1, xref);
  }

  /** `build_private_pdf`; None stands for UnicodeEncodeError. */
  method BuildPrivatePdf(lines: seq<string>) returns (result: Option<string>)
    ensures result.Some? <==> Latin1Lines(lines)
    ensures result.Some? ==> result.value == File(PdfObjects(Content(lines)))
    ensures result.Some? ==> ReadLines(result.value) == Some(OneLineEnds(lines))
  {
    var stream := Content(lines);
    ContentLatin1(lines);
    if !Latin1(stream) {
      return None;
    }
    FileShowsTheLines(lines);
    var pdf := WriteFile(PdfObjects(stream));
    result := Some(pdf);
  }
}
