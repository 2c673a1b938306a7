/** What the lines of a listing are, told by the rows it is made of. */
module ListingRows {
  import opened LineSplitter

  /** Blanks, a line, and what ends it. */
  datatype Row = Row(lead: seq<Byte>, line: seq<Byte>, end: Byte) {
    ghost predicate Valid() {
      AreBlank(lead) && IsLine(line) && (end == 0 || end == 10 || end == 13)
    }
  }

  predicate AreBlank(s: seq<Byte>) {
    forall i | 0 <= i < |s| :: s[i] == 0 || s[i] == 9 || s[i] == 10 || s[i] == 13 || s[i] == 32
  }

  predicate IsLine(s: seq<Byte>) {
    s != [] && s[0] != 9 && s[0] != 32 && Whole(s)
  }

  predicate Whole(s: seq<Byte>) {
    forall i | 0 <= i < |s| :: s[i] != 0 && s[i] != 10 && s[i] != 13
  }

  ghost predicate AllValid(rows: seq<Row>) {
    forall row | row in rows :: row.Valid() && |row.line| <= 10000
  }

  function Bytes(rows: seq<Row>): seq<Byte> {
    if rows == [] then [] else rows[0].lead + rows[0].line + [rows[0].end] + Bytes(rows[1..])
  }

  /** The text of a line without a byte order mark, if there is any. */
  function Shown(decode: Decoder, line: seq<Byte>): seq<string> {
    var s := decode(line);
    if s == "" || s == "\U{FEFF}" then []
    else if s[0] == '\U{FEFF}' then [s[1..]]
    else [s]
  }

  function AllShown(decode: Decoder, rows: seq<Row>): seq<string> {
    if rows == [] then [] else Shown(decode, rows[0].line) + AllShown(decode, rows[1..])
  }

  lemma {:induction false} TrimAll(lead: seq<Byte>)
    requires AreBlank(lead)
    ensures TrimBlanks(lead) == []
  {
    if lead != [] {
      TrimAll(lead[1..]);
    }
  }

  lemma {:induction false} Unbroken(line: seq<Byte>)
    requires Whole(line)
    ensures FirstBreak(line) == |line|
  {
    if line != [] {
      Unbroken(line[1..]);
    }
  }

  lemma SameText(decode: Decoder, line: seq<Byte>)
    requires line != []
    ensures LineOf(decode, line) == Shown(decode, line)
  {
    var s := decode(line);
    if |s| == 1 { assert s == [s[0]]; }
  }

  lemma SkipLead(decode: Decoder, lead: seq<Byte>, t: seq<Byte>)
    requires AreBlank(lead)
    ensures Batch(decode, lead + t) == Batch(decode, t)
  {
    hide *;
    TrimAll(lead);
    BatchTrimAppend(decode, lead, t);
    assert [] + t == t;
  }

  /** A line ends where what follows it begins, or beyond. */
  lemma LineEnds(line: seq<Byte>, more: seq<Byte>)
    requires IsLine(line)
    ensures line + more != [] && !IsBlank((line + more)[0]) && FirstBreak(line + more) == |line| + FirstBreak(more)
  {
    Unbroken(line);
    BreakAppend(line, more);
    hide FirstBreak;
    assert (line + more)[0] == line[0];
  }

  lemma Ended(more: seq<Byte>)
    requires more != [] ==> more[0] == 0 || more[0] == 10 || more[0] == 13
    ensures FirstBreak(more) == 0
  {
  }

  /** Blanks, a line, and whatever begins with the end of it or is nothing. */
  lemma LineFirst(decode: Decoder, lead: seq<Byte>, line: seq<Byte>, more: seq<Byte>)
    requires AreBlank(lead) && IsLine(line) && (more != [] ==> more[0] == 0 || more[0] == 10 || more[0] == 13)
    ensures Batch(decode, lead + line + more)
         == if |line| > 10000 then Parsed([], true) else Prefixed(Shown(decode, line), Batch(decode, more))
  {
    hide Batch, FirstBreak, LineOf, Shown, IsLine, IsBlank, AreBlank, Prefixed;
    var t := line + more;
    assert lead + line + more == lead + t;
    SkipLead(decode, lead, t);
    LineEnds(line, more);
    Ended(more);
    BatchFirst(decode, t);
    assert t[..|line|] == line && t[|line|..] == more;
    NotEmpty(line);
    SameText(decode, line);
  }

  lemma NotEmpty(line: seq<Byte>)
    requires IsLine(line)
    ensures line != []
  {
  }

  /** An overlong line, whatever follows. */
  lemma Overlong(decode: Decoder, lead: seq<Byte>, line: seq<Byte>, more: seq<Byte>)
    requires AreBlank(lead) && IsLine(line) && |line| > 10000
    ensures Batch(decode, lead + line + more) == Parsed([], true)
  {
    hide Batch, FirstBreak, LineOf, Shown, IsLine, IsBlank, AreBlank, Prefixed;
    var t := line + more;
    assert lead + line + more == lead + t;
    SkipLead(decode, lead, t);
    LineEnds(line, more);
    BatchFirst(decode, t);
  }

  lemma Blanks(decode: Decoder, lead: seq<Byte>)
    requires AreBlank(lead)
    ensures Batch(decode, lead) == Parsed([], false)
  {
    BatchTrim(decode, lead);
    TrimAll(lead);
    BatchOfNothing(decode);
  }

  lemma RowFirst(decode: Decoder, row: Row, more: seq<Byte>)
    requires row.Valid() && |row.line| <= 10000
    ensures Batch(decode, row.lead + row.line + [row.end] + more) == Prefixed(Shown(decode, row.line), Batch(decode, more))
  {
    hide Batch;
    var rest := [row.end] + more;
    assert row.lead + row.line + [row.end] + more == row.lead + row.line + rest;
    LineFirst(decode, row.lead, row.line, rest);
    LeadingBlank(decode, rest);
    assert rest[1..] == more;
  }

  /** The rows come first, whatever follows them. */
  lemma {:induction false} RowsFirst(decode: Decoder, rows: seq<Row>, more: seq<Byte>)
    requires AllValid(rows)
    ensures Batch(decode, Bytes(rows) + more) == Prefixed(AllShown(decode, rows), Batch(decode, more))
  {
    hide Batch, Shown;
    if rows == [] {
      assert Bytes(rows) + more == more;
      PrefixNothing(Batch(decode, more));
    } else {
      var row, rest := rows[0], rows[1..];
      assert row in rows;
      forall r | r in rest ensures r in rows {}
      RowsFirst(decode, rest, more);
      RowFirst(decode, row, Bytes(rest) + more);
      assert Bytes(rows) + more == row.lead + row.line + [row.end] + (Bytes(rest) + more);
      PrefixTwice(Shown(decode, row.line), AllShown(decode, rest), Batch(decode, more));
    }
  }

  /**
   * The lines of a listing are the texts of its rows in order, and of a last
   * line that has not ended; an overlong line is an error after those before it.
   */
  lemma LinesBack(decode: Decoder, rows: seq<Row>, lead: seq<Byte>, line: seq<Byte>, more: seq<Byte>)
    requires AllValid(rows) && AreBlank(lead) && (line == [] || IsLine(line))
    ensures Batch(decode, Bytes(rows) + lead) == Parsed(AllShown(decode, rows), false)
    ensures 0 < |line| <= 10000 ==>
              Batch(decode, Bytes(rows) + (lead + line)) == Parsed(AllShown(decode, rows) + Shown(decode, line), false)
    ensures |line| > 10000 ==> Batch(decode, Bytes(rows) + (lead + line + more)) == Parsed(AllShown(decode, rows), true)
  {
    hide Batch, Bytes, Shown, AllShown;
    RowsFirst(decode, rows, lead);
    Blanks(decode, lead);
    if 0 < |line| <= 10000 {
      RowsFirst(decode, rows, lead + line);
      LineFirst(decode, lead, line, []);
      assert lead + line + [] == lead + line;
      BatchOfNothing(decode);
    } else if line != [] {
      RowsFirst(decode, rows, lead + line + more);
      Overlong(decode, lead, line, more);
    }
  }

  /** Every listing is such rows, a last line and what follows it if that is overlong. */
  lemma {:induction false} MadeOfRows(s: seq<Byte>) returns (rows: seq<Row>, lead: seq<Byte>, line: seq<Byte>, more: seq<Byte>)
    ensures AllValid(rows) && AreBlank(lead) && (line == [] || IsLine(line)) && (|line| <= 10000 ==> more == [])
    ensures s == Bytes(rows) + (lead + line + more)
    decreases |s|
  {
    hide AreBlank, IsLine, TrimBlanks, FirstBreak;
    var t := TrimBlanks(s);
    var n := FirstBreak(t);
    lead := s[..|s| - |t|];
    line := t[..n];
    CutRow(s);
    if n == |t| || n > 10000 {
      rows, more := [], t[n..];
      assert Bytes(rows) + (lead + line + more) == lead + line + more;
    } else {
      var row := Row(lead, line, t[n]);
      var rows';
      rows', lead, line, more := MadeOfRows(t[n + 1..]);
      rows := [row] + rows';
      OneMoreRow(row, rows', lead + line + more);
    }
  }

  lemma CutRow(s: seq<Byte>)
    ensures var t := TrimBlanks(s);
            var n := FirstBreak(t);
            && AreBlank(s[..|s| - |t|])
            && (t == [] || IsLine(t[..n]))
            && (n < |t| ==> t[n] == 0 || t[n] == 10 || t[n] == 13)
            && s == s[..|s| - |t|] + t[..n] + t[n..]
            && (n < |t| ==> s == s[..|s| - |t|] + t[..n] + [t[n]] + t[n + 1..])
  {
    var t := TrimBlanks(s);
    var n := FirstBreak(t);
    hide TrimBlanks, FirstBreak;
    assert t == t[..n] + t[n..];
    assert n < |t| ==> t[n..] == [t[n]] + t[n + 1..];
  }

  lemma OneMoreRow(row: Row, rows: seq<Row>, more: seq<Byte>)
    ensures Bytes([row] + rows) + more == row.lead + row.line + [row.end] + (Bytes(rows) + more)
  {
    assert ([row] + rows)[1..] == rows;
  }
}
