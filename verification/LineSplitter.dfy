/**
 * Lines of a directory listing that arrives in pieces. `Batch` splits a whole
 * listing at once; `Drain` takes what can be had of a listing so far.
 */
module LineSplitter {

  type Byte = b: int | 0 <= b < 256

  const MAX_LINE := 10000

  predicate IsBreak(b: Byte) {
    b == 13 || b == 10 || b == 0
  }

  predicate IsBlank(b: Byte) {
    IsBreak(b) || b == 32 || b == 9
  }

  /** How a line's bytes become text: an encoding, then a byte order mark is stripped. */
  type Decoder = seq<Byte> -> string

  function Text(decode: Decoder, line: seq<Byte>): string {
    var s := decode(line);
    if s != "" && s[0] == '\U{FEFF}' then s[1..] else s
  }

  function FirstBreak(s: seq<Byte>): (n: nat)
    ensures n <= |s|
    ensures forall i | 0 <= i < n :: !IsBreak(s[i])
    ensures n < |s| ==> IsBreak(s[n])
  {
    if s == [] || IsBreak(s[0]) then 0 else 1 + FirstBreak(s[1..])
  }

  function TrimBlanks(s: seq<Byte>): (r: seq<Byte>)
    ensures |r| <= |s| && r == s[|s| - |r|..]
    ensures forall i | 0 <= i < |s| - |r| :: IsBlank(s[i])
    ensures r != [] ==> !IsBlank(r[0])
  {
    if s == [] || !IsBlank(s[0]) then s else TrimBlanks(s[1..])
  }

  // ----- A whole listing

  /** The pieces between line breaks. */
  function Segments(s: seq<Byte>): (r: seq<seq<Byte>>)
    ensures r != []
    decreases |s|
  {
    var n := FirstBreak(s);
    if n == |s| then [s] else [s[..n]] + Segments(s[n + 1..])
  }

  /** The lines found, and whether a line was too long. */
  datatype Parsed = Parsed(lines: seq<string>, failed: bool)

  function Prefixed(lines: seq<string>, p: Parsed): Parsed {
    p.(lines := lines + p.lines)
  }

  /** The text of a trimmed piece, unless there is none. */
  function LineOf(decode: Decoder, piece: seq<Byte>): seq<string> {
    if piece == [] || Text(decode, piece) == "" then [] else [Text(decode, piece)]
  }

  /** Pieces become lines: leading blanks go, what is empty is dropped, and the first overlong line ends it all. */
  function Lines(decode: Decoder, pieces: seq<seq<Byte>>): Parsed {
    if pieces == [] then Parsed([], false)
    else
      var piece := TrimBlanks(pieces[0]);
      if |piece| > MAX_LINE then Parsed([], true)
      else Prefixed(LineOf(decode, piece), Lines(decode, pieces[1..]))
  }

  function Batch(decode: Decoder, s: seq<Byte>): Parsed {
    Lines(decode, Segments(s))
  }

  // ----- What arrived so far

  /** The next line of what arrived so far, and what remains. */
  datatype Got =
    | Line(line: seq<Byte>, rest: seq<Byte>)
    | NoLine(rest: seq<Byte>)
    | TooLong(rest: seq<Byte>)

  /** One pass of `GetLine`; a partial listing may still get more of its last line. */
  function NextLine(s: seq<Byte>, partial: bool): (r: Got)
    ensures r.Line? ==> |r.rest| < |s| && r.line != []
  {
    var t := TrimBlanks(s);
    var n := FirstBreak(t);
    if t == [] then NoLine([])
    else if n > MAX_LINE then TooLong(t)
    else if n == |t| && partial then NoLine(t)
    else Line(t[..n], t[n..])
  }

  /** The lines had, what remains, and whether a line was too long. */
  datatype Drained = Drained(lines: seq<string>, rest: seq<Byte>, failed: bool)

  /** `ParseData`: lines are taken as long as there are any. */
  function Drain(decode: Decoder, s: seq<Byte>, partial: bool): Drained
    decreases |s|
  {
    match NextLine(s, partial)
    case NoLine(rest) => Drained([], rest, false)
    case TooLong(rest) => Drained([], rest, true)
    case Line(line, rest) =>
      var d := Drain(decode, rest, partial);
      d.(lines := LineOf(decode, line) + d.lines)
  }

  // ----- Both agree

  lemma BlankFree(s: seq<Byte>)
    requires s != [] && !IsBlank(s[0])
    ensures TrimBlanks(s) == s
  {
  }

  lemma SegmentsAfterBreak(s: seq<Byte>)
    requires s != [] && IsBreak(s[0])
    ensures Segments(s) == [[]] + Segments(s[1..])
  {
    assert FirstBreak(s) == 0;
    assert s[..0] == [];
  }

  lemma SegmentsAfterByte(s: seq<Byte>)
    requires s != [] && !IsBreak(s[0])
    ensures var r := Segments(s[1..]);
            Segments(s) == [[s[0]] + r[0]] + r[1..]
  {
    var t := s[1..];
    var n := FirstBreak(t);
    assert FirstBreak(s) == n + 1;
    if n == |t| {
      assert s == [s[0]] + t;
    } else {
      assert s[..n + 1] == [s[0]] + t[..n];
      assert s[n + 2..] == t[n + 1..];
    }
  }

  /** A leading blank makes no difference to a whole listing. */
  lemma LeadingBlank(decode: Decoder, s: seq<Byte>)
    requires s != [] && IsBlank(s[0])
    ensures Batch(decode, s) == Batch(decode, s[1..])
  {
    hide Lines, Segments, TrimBlanks;
    if IsBreak(s[0]) {
      SegmentsAfterBreak(s);
      EmptyFirst(decode, Segments(s[1..]));
    } else {
      SegmentsAfterByte(s);
      var r := Segments(s[1..]);
      TrimFirst(s[0], r[0]);
      SameFirst(decode, [s[0]] + r[0], r[0], r[1..]);
      assert r == [r[0]] + r[1..];
    }
  }

  lemma TrimFirst(b: Byte, s: seq<Byte>)
    requires IsBlank(b)
    ensures TrimBlanks([b] + s) == TrimBlanks(s)
  {
    assert ([b] + s)[1..] == s;
  }

  lemma EmptyFirst(decode: Decoder, pieces: seq<seq<Byte>>)
    ensures Lines(decode, [[]] + pieces) == Lines(decode, pieces)
  {
    var none: seq<Byte> := [];
    OneLine(decode, none, pieces);
    hide Lines;
    PrefixNothing(Lines(decode, pieces));
  }

  lemma SameFirst(decode: Decoder, a: seq<Byte>, b: seq<Byte>, more: seq<seq<Byte>>)
    requires TrimBlanks(a) == TrimBlanks(b)
    ensures Lines(decode, [a] + more) == Lines(decode, [b] + more)
  {
    hide TrimBlanks, LineOf;
    assert ([a] + more)[1..] == more && ([b] + more)[1..] == more;
  }

  lemma {:induction false} BatchTrim(decode: Decoder, s: seq<Byte>)
    ensures Batch(decode, s) == Batch(decode, TrimBlanks(s))
    decreases |s|
  {
    if s != [] && IsBlank(s[0]) {
      LeadingBlank(decode, s);
      BatchTrim(decode, s[1..]);
    }
  }

  lemma {:induction false} TrimAppend(s: seq<Byte>, more: seq<Byte>)
    requires TrimBlanks(s) != []
    ensures TrimBlanks(s + more) == TrimBlanks(s) + more
    decreases |s|
  {
    if IsBlank(s[0]) {
      assert (s + more)[1..] == s[1..] + more;
      TrimAppend(s[1..], more);
    }
  }

  lemma {:induction false} BatchTrimAppend(decode: Decoder, s: seq<Byte>, more: seq<Byte>)
    ensures Batch(decode, s + more) == Batch(decode, TrimBlanks(s) + more)
    decreases |s|
  {
    if s != [] && IsBlank(s[0]) {
      assert (s + more)[1..] == s[1..] + more;
      LeadingBlank(decode, s + more);
      BatchTrimAppend(decode, s[1..], more);
    }
  }

  lemma {:induction false} BreakAppend(t: seq<Byte>, more: seq<Byte>)
    ensures FirstBreak(t) < |t| ==> FirstBreak(t + more) == FirstBreak(t)
    ensures FirstBreak(t) == |t| ==> FirstBreak(t + more) == |t| + FirstBreak(more)
    decreases |t|
  {
    if t == [] {
      assert t + more == more;
    } else if !IsBreak(t[0]) {
      assert (t + more)[1..] == t[1..] + more;
      BreakAppend(t[1..], more);
    }
  }

  /** A whole listing whose first line has ended: that line, and then the rest of the listing. */
  lemma BatchFirst(decode: Decoder, t: seq<Byte>)
    requires t != [] && !IsBlank(t[0])
    ensures var n := FirstBreak(t);
            Batch(decode, t) == if n > MAX_LINE then Parsed([], true)
                                else Prefixed(LineOf(decode, t[..n]), Batch(decode, t[n..]))
  {
    var n := FirstBreak(t);
    var line := t[..n];
    assert line[0] == t[0];
    BlankFree(line);
    SegmentsFirst(t);
    hide Lines, FirstBreak, TrimBlanks, Segments;
    if n == |t| {
      assert t[n..] == [];
      BatchOfNothing(decode);
      OneLine(decode, line, []);
      NoPieces(decode);
    } else {
      LeadingBlank(decode, t[n..]);
      assert t[n..][1..] == t[n + 1..];
      OneLine(decode, line, Segments(t[n + 1..]));
    }
  }

  lemma SegmentsFirst(t: seq<Byte>)
    ensures var n := FirstBreak(t);
            Segments(t) == [t[..n]] + if n == |t| then [] else Segments(t[n + 1..])
  {
    hide FirstBreak;
    if FirstBreak(t) == |t| { assert t[..|t|] == t; }
  }

  lemma NoPieces(decode: Decoder)
    ensures Lines(decode, []) == Parsed([], false)
  {
  }

  lemma OnlyEmpty(decode: Decoder)
    ensures Lines(decode, [[]]) == Parsed([], false)
  {
    var none: seq<Byte> := [];
    assert [none][1..] == [];
    assert LineOf(decode, none) + [] == [];
  }

  lemma OneLine(decode: Decoder, line: seq<Byte>, more: seq<seq<Byte>>)
    requires TrimBlanks(line) == line
    ensures Lines(decode, [line] + more)
         == if |line| > MAX_LINE then Parsed([], true) else Prefixed(LineOf(decode, line), Lines(decode, more))
  {
    hide TrimBlanks, LineOf;
    assert ([line] + more)[1..] == more;
  }

  /** An overlong line stays overlong, whatever follows. */
  lemma OverlongStays(decode: Decoder, t: seq<Byte>, more: seq<Byte>)
    requires t != [] && !IsBlank(t[0]) && FirstBreak(t) > MAX_LINE
    ensures Batch(decode, t + more) == Parsed([], true)
  {
    BreakAppend(t, more);
    BatchFirst(decode, t + more);
  }

  /**
   * Taking lines early changes nothing: the lines had so far, and then the lines
   * of what remains with all that is still to come, are the lines of it all.
   */
  lemma {:induction false} DrainPartial(decode: Decoder, s: seq<Byte>, more: seq<Byte>)
    ensures var d := Drain(decode, s, true);
            Batch(decode, s + more)
            == if d.failed then Parsed(d.lines, true) else Prefixed(d.lines, Batch(decode, d.rest + more))
    decreases |s|
  {
    hide Batch, LineOf, FirstBreak, TrimBlanks;
    BatchTrimAppend(decode, s, more);
    var t := TrimBlanks(s);
    var n := FirstBreak(t);
    if t == [] {
      PrefixNothing(Batch(decode, [] + more));
    } else if n > MAX_LINE {
      OverlongStays(decode, t, more);
    } else if n == |t| {
      PrefixNothing(Batch(decode, t + more));
    } else {
      FirstEnds(decode, t, more);
      DrainPartial(decode, t[n..], more);
      var d := Drain(decode, t[n..], true);
      PrefixTwice(LineOf(decode, t[..n]), d.lines, Batch(decode, d.rest + more));
    }
  }

  lemma FirstEnds(decode: Decoder, t: seq<Byte>, more: seq<Byte>)
    requires t != [] && !IsBlank(t[0]) && FirstBreak(t) < |t| && FirstBreak(t) <= MAX_LINE
    ensures var n := FirstBreak(t);
            Batch(decode, t + more) == Prefixed(LineOf(decode, t[..n]), Batch(decode, t[n..] + more))
  {
    hide Batch, LineOf, FirstBreak;
    var n := FirstBreak(t);
    BreakAppend(t, more);
    BatchFirst(decode, t + more);
    assert (t + more)[..n] == t[..n] && (t + more)[n..] == t[n..] + more;
  }

  lemma PrefixNothing(p: Parsed)
    ensures Prefixed([], p) == p
  {
  }

  lemma PrefixTwice(a: seq<string>, b: seq<string>, p: Parsed)
    ensures Prefixed(a, Prefixed(b, p)) == Prefixed(a + b, p)
  {
    assert a + (b + p.lines) == (a + b) + p.lines;
  }

  /** At the end of a listing, taking all lines is splitting it at once. */
  lemma {:induction false} DrainFinal(decode: Decoder, s: seq<Byte>)
    ensures var d := Drain(decode, s, false);
            Batch(decode, s) == Parsed(d.lines, d.failed)
    decreases |s|
  {
    hide Batch, LineOf;
    BatchTrim(decode, s);
    var t := TrimBlanks(s);
    if t == [] {
      BatchOfNothing(decode);
    } else {
      BatchFirst(decode, t);
      if FirstBreak(t) <= MAX_LINE {
        DrainFinal(decode, t[FirstBreak(t)..]);
      }
    }
  }

  lemma BatchOfNothing(decode: Decoder)
    ensures Batch(decode, []) == Parsed([], false)
  {
    OnlyEmpty(decode);
    assert Segments([]) == [[]];
  }

  // ----- Arrival in chunks

  /** Nothing is parsed before this many bytes have arrived. */
  const THRESHOLD := 512

  function Joined(chunks: seq<seq<Byte>>): seq<Byte> {
    if chunks == [] then [] else chunks[0] + Joined(chunks[1..])
  }

  /** A listing arriving chunk by chunk after `s` bytes are held and `total` arrived, and then ending. */
  function Stream(decode: Decoder, s: seq<Byte>, total: nat, chunks: seq<seq<Byte>>): Parsed
    decreases |chunks|
  {
    if chunks == [] then
      var d := Drain(decode, s, false);
      Parsed(d.lines, d.failed)
    else
      var held, arrived := s + chunks[0], total + |chunks[0]|;
      if arrived < THRESHOLD then Stream(decode, held, arrived, chunks[1..])
      else
        var d := Drain(decode, held, true);
        if d.failed then Parsed(d.lines, true)
        else Prefixed(d.lines, Stream(decode, d.rest, arrived, chunks[1..]))
  }

  /** However a listing is cut into chunks, its lines are those of the whole. */
  lemma {:induction false} ChunkIndependence(decode: Decoder, s: seq<Byte>, total: nat, chunks: seq<seq<Byte>>)
    ensures Stream(decode, s, total, chunks) == Batch(decode, s + Joined(chunks))
    decreases |chunks|
  {
    hide Batch, Drain;
    if chunks == [] {
      assert s + [] == s;
      DrainFinal(decode, s);
    } else {
      var held, arrived := s + chunks[0], total + |chunks[0]|;
      var more := Joined(chunks[1..]);
      assert s + Joined(chunks) == held + more;
      if arrived < THRESHOLD {
        ChunkIndependence(decode, held, arrived, chunks[1..]);
      } else {
        DrainPartial(decode, held, more);
        var d := Drain(decode, held, true);
        if !d.failed { ChunkIndependence(decode, d.rest, arrived, chunks[1..]); }
      }
    }
  }

  /** Two cuttings of the same listing give the same lines. */
  lemma AnyTwoCuttings(decode: Decoder, a: seq<seq<Byte>>, b: seq<seq<Byte>>)
    requires Joined(a) == Joined(b)
    ensures Stream(decode, [], 0, a) == Stream(decode, [], 0, b)
  {
    ChunkIndependence(decode, [], 0, a);
    ChunkIndependence(decode, [], 0, b);
  }
}
