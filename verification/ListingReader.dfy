/** The listing parser's buffer: a queue of chunks, an offset into the first, and the loops that take lines from it. */
module ListingReader {
  import opened Options
  import opened LineSplitter

  // ----- Positions in a queue of chunks

  /** What follows a position: the rest of its chunk and the chunks behind. */
  function At(chunks: seq<seq<Byte>>, i: nat, off: nat): seq<Byte>
    requires i <= |chunks| && (i < |chunks| ==> off <= |chunks[i]|)
  {
    if i == |chunks| then [] else chunks[i][off..] + Joined(chunks[i + 1..])
  }

  lemma NextChunk(chunks: seq<seq<Byte>>, i: nat)
    requires i < |chunks|
    ensures At(chunks, i, |chunks[i]|) == At(chunks, i + 1, 0)
  {
    var c := chunks[i];
    assert c[|c|..] == [];
    if i + 1 < |chunks| {
      var d := chunks[i + 1];
      assert d[0..] == d;
      assert chunks[i + 1..][1..] == chunks[i + 2..];
    }
  }

  lemma Slice(chunks: seq<seq<Byte>>, i: nat, off: nat, k: nat)
    requires i < |chunks| && off + k <= |chunks[i]|
    ensures k <= |At(chunks, i, off)|
    ensures At(chunks, i, off)[..k] == chunks[i][off..off + k]
    ensures At(chunks, i, off)[k..] == At(chunks, i, off + k)
  {
  }

  predicate NonEmpty(chunks: seq<seq<Byte>>) {
    forall i | 0 <= i < |chunks| :: chunks[i] != []
  }

  /** The position one byte on. */
  function Onward(chunks: seq<seq<Byte>>, i: nat, off: nat): (r: (nat, nat))
    requires NonEmpty(chunks) && i < |chunks| && off < |chunks[i]|
    ensures r.0 <= |chunks| && (r.0 < |chunks| ==> r.1 < |chunks[r.0]|)
  {
    if off + 1 < |chunks[i]| then (i, off + 1) else (i + 1, 0)
  }

  lemma OnwardAt(chunks: seq<seq<Byte>>, i: nat, off: nat)
    requires NonEmpty(chunks) && i < |chunks| && off < |chunks[i]|
    ensures var (i', off') := Onward(chunks, i, off);
            var s := At(chunks, i, off);
            s != [] && s[0] == chunks[i][off] && s[1..] == At(chunks, i', off')
  {
    Slice(chunks, i, off, 1);
    NextChunk(chunks, i);
  }

  lemma Suffix(chunks: seq<seq<Byte>>, i: nat, off: nat)
    requires i <= |chunks| && (i < |chunks| ==> off <= |chunks[i]|)
    ensures At(chunks[i..], 0, off) == At(chunks, i, off)
  {
    if i < |chunks| {
      assert chunks[i..][0] == chunks[i] && chunks[i..][1..] == chunks[i + 1..];
    }
  }

  lemma FirstByte(s: seq<Byte>)
    requires s != [] && IsBlank(s[0])
    ensures TrimBlanks(s) == TrimBlanks(s[1..])
  {
  }

  // ----- The three loops of `GetLine`

  /** Leading blanks are skipped, over chunk ends. */
  method SkipBlanks(chunks: seq<seq<Byte>>, off0: nat) returns (i: nat, off: nat)
    requires NonEmpty(chunks) && chunks != [] && off0 < |chunks[0]|
    ensures i <= |chunks| && (i < |chunks| ==> off < |chunks[i]|)
    ensures At(chunks, i, off) == TrimBlanks(At(chunks, 0, off0))
  {
    hide At, TrimBlanks;
    i, off := 0, off0;
    while i < |chunks| && IsBlank(chunks[i][off])
      invariant i <= |chunks| && (i < |chunks| ==> off < |chunks[i]|)
      invariant TrimBlanks(At(chunks, i, off)) == TrimBlanks(At(chunks, 0, off0))
      decreases |chunks| - i, if i < |chunks| then |chunks[i]| - off else 0
    {
      OnwardAt(chunks, i, off);
      FirstByte(At(chunks, i, off));
      off := off + 1;
      if off >= |chunks[i]| {
        i, off := i + 1, 0;
      }
    }
    if i < |chunks| {
      OnwardAt(chunks, i, off);
      BlankFree(At(chunks, i, off));
    } else {
      AtEnd(chunks, off);
    }
  }

  lemma AtEnd(chunks: seq<seq<Byte>>, off: nat)
    ensures At(chunks, |chunks|, off) == [] && TrimBlanks([]) == []
  {
  }

  /** The next line break is looked for; the end of the last chunk counts as `it == |chunks|`. */
  method FindBreak(chunks: seq<seq<Byte>>, off0: nat) returns (it: nat, cur: nat, length: nat)
    requires NonEmpty(chunks) && chunks != [] && off0 < |chunks[0]|
    ensures it <= |chunks| && (it < |chunks| ==> cur < |chunks[it]|)
    ensures length == FirstBreak(At(chunks, 0, off0)) && At(chunks, it, cur) == At(chunks, 0, off0)[length..]
    ensures it == |chunks| <==> length == |At(chunks, 0, off0)|
    ensures it == 0 ==> off0 <= cur
  {
    hide At, FirstBreak;
    ghost var t := At(chunks, 0, off0);
    it, cur, length := 0, off0, 0;
    while it < |chunks| && !IsBreak(chunks[it][cur])
      invariant it <= |chunks| && (it < |chunks| ==> cur < |chunks[it]|)
      invariant length <= |t| && At(chunks, it, cur) == t[length..]
      invariant length + FirstBreak(At(chunks, it, cur)) == FirstBreak(t)
      invariant it == 0 ==> off0 <= cur
      decreases |chunks| - it, if it < |chunks| then |chunks[it]| - cur else 0
    {
      OnwardAt(chunks, it, cur);
      BreakLater(At(chunks, it, cur));
      Into(t, length, At(chunks, it, cur));
      length := length + 1;
      cur := cur + 1;
      if cur >= |chunks[it]| {
        it, cur := it + 1, 0;
      }
    }
    if it < |chunks| {
      OnwardAt(chunks, it, cur);
      BreakHere(At(chunks, it, cur));
    } else {
      AtEnd(chunks, cur);
      NoBreak();
    }
  }

  lemma Into(t: seq<Byte>, n: nat, s: seq<Byte>)
    requires n <= |t| && s == t[n..] && s != []
    ensures n < |t| && s[1..] == t[n + 1..]
  {
  }

  lemma BreakLater(s: seq<Byte>)
    requires s != [] && !IsBreak(s[0])
    ensures FirstBreak(s) == 1 + FirstBreak(s[1..])
  {
  }

  lemma BreakHere(s: seq<Byte>)
    requires s != [] && IsBreak(s[0])
    ensures FirstBreak(s) == 0
  {
  }

  lemma NoBreak()
    ensures FirstBreak([]) == 0
  {
  }

  /**
   * A line's bytes are copied out, chunk by chunk. The last chunk is never used
   * up by this: the line ends at a break inside it.
   */
  method CopyLine(chunks: seq<seq<Byte>>, off0: nat, it: nat, cur: nat, length: nat) returns (line: seq<Byte>)
    requires NonEmpty(chunks) && chunks != [] && off0 < |chunks[0]|
    requires it <= |chunks| && (it < |chunks| ==> cur < |chunks[it]|)
    requires length <= |At(chunks, 0, off0)| && At(chunks, it, cur) == At(chunks, 0, off0)[length..]
    requires it == 0 ==> off0 <= cur
    ensures line == At(chunks, 0, off0)[..length]
  {
    hide At;
    ghost var t := At(chunks, 0, off0);
    line := [];
    var i: nat, start: nat, left: nat := 0, off0, length;
    while i < it && left > 0
      invariant i <= it && (i < |chunks| ==> start < |chunks[i]|) && (i == it && it < |chunks| ==> start <= cur)
      invariant |line| + left == length && line == t[..|line|]
      invariant At(chunks, i, start) == t[|line|..]
      decreases it - i, left
    {
      var room := |chunks[i]| - start;
      var count := if room > left then left else room;
      Slice(chunks, i, start, count);
      Extend(t, |line|, count);
      NextChunk(chunks, i);
      line := line + chunks[i][start..start + count];
      left := left - count;
      if count == room {
        i, start := i + 1, 0;
      } else {
        start := start + count;
      }
    }
    if left > 0 {
      LineLeft(chunks, it, start, cur, t, |line|, length);
      if it < |chunks| {
        Extend(t, |line|, left);
        Slice(chunks, it, start, left);
        line := line + chunks[it][start..start + left];
      }
    }
  }

  /** Where the copying stopped at the chunk that holds the line's end, just that part of the chunk is left. */
  lemma LineLeft(chunks: seq<seq<Byte>>, it: nat, start: nat, cur: nat, t: seq<Byte>, done: nat, length: nat)
    requires it <= |chunks| && (it < |chunks| ==> start <= cur < |chunks[it]|)
    requires done <= length <= |t| && At(chunks, it, start) == t[done..] && At(chunks, it, cur) == t[length..]
    ensures if it < |chunks| then length - done == cur - start && length - done < |chunks[it]| else done == length
  {
    if it < |chunks| { Slice(chunks, it, start, cur - start); }
  }

  lemma Extend(t: seq<Byte>, n: nat, k: nat)
    requires n + k <= |t|
    ensures t[..n] + t[n..][..k] == t[..n + k] && t[n..][k..] == t[n + k..]
  {
  }

  // ----- The reader

  lemma AppendChunk(chunks: seq<seq<Byte>>, off: nat, c: seq<Byte>)
    requires chunks == [] ==> off == 0
    requires chunks != [] ==> off <= |chunks[0]|
    ensures At(chunks + [c], 0, off) == At(chunks, 0, off) + c
  {
    if chunks == [] {
      assert Joined([]) == [];
      assert ([] + [c])[1..] == [];
    } else {
      assert (chunks + [c])[1..] == chunks[1..] + [c];
      JoinedAppend(chunks[1..], c);
    }
  }

  lemma {:induction false} JoinedAppend(chunks: seq<seq<Byte>>, c: seq<Byte>)
    ensures Joined(chunks + [c]) == Joined(chunks) + c
    decreases |chunks|
  {
    if chunks == [] {
      assert ([] + [c])[1..] == [];
    } else {
      assert (chunks + [c])[1..] == chunks[1..] + [c];
      JoinedAppend(chunks[1..], c);
    }
  }

  lemma LineWithin(s: seq<Byte>, partial: bool)
    requires NextLine(s, partial).Line?
    ensures NextLine(s, partial).line != [] && |NextLine(s, partial).rest| < |s|
  {
  }

  lemma NothingLeft(partial: bool)
    ensures NextLine([], partial) == NoLine([])
  {
  }

  /** What is still to be taken, and what was taken, make up all lines. */
  ghost predicate Ahead(decode: Decoder, all: Drained, taken: seq<string>, line: Option<string>, error: bool, held: seq<Byte>, partial: bool) {
    match line
    case None => all == Drained(taken, held, error)
    case Some(text) =>
      var later := Drain(decode, held, partial);
      all == later.(lines := taken + ([text] + later.lines))
  }

  lemma AheadNext(decode: Decoder, all: Drained, taken: seq<string>, d: Drained, line: Option<string>, error: bool, held: seq<Byte>, partial: bool)
    requires all == d.(lines := taken + d.lines)
    requires match line
             case None => d == Drained([], held, error)
             case Some(text) =>
               var later := Drain(decode, held, partial);
               d == later.(lines := [text] + later.lines)
    ensures Ahead(decode, all, taken, line, error, held, partial)
  {
    assert taken + [] == taken;
  }

  lemma AheadMore(decode: Decoder, all: Drained, taken: seq<string>, text: string, error: bool, held: seq<Byte>, partial: bool)
    requires Ahead(decode, all, taken, Some(text), error, held, partial)
    ensures var later := Drain(decode, held, partial);
            all == later.(lines := taken + ([text] + later.lines))
  {
  }

  lemma AheadDone(decode: Decoder, all: Drained, taken: seq<string>, error: bool, held: seq<Byte>, partial: bool)
    requires Ahead(decode, all, taken, None, error, held, partial)
    ensures all == Drained(taken, held, error)
  {
  }

  /** A listing parser's buffer, with the lines it has handed out. */
  class Reader {
    const decode: Decoder
    var chunks: seq<seq<Byte>>
    var offset: nat
    var total: nat
    var lines: seq<string>

    ghost predicate Valid()
      reads this`chunks, this`offset
    {
      NonEmpty(chunks) && (chunks != [] ==> offset < |chunks[0]|)
    }

    /** More data may follow: an empty queue has no offset. */
    ghost predicate Open()
      reads this`chunks, this`offset
    {
      chunks == [] ==> offset == 0
    }

    /** The bytes that have arrived and are in no line yet. */
    ghost function Held(): seq<Byte>
      reads this`chunks, this`offset
      requires Valid()
    {
      At(chunks, 0, offset)
    }

    constructor (decode: Decoder)
      ensures Valid() && Open() && Held() == [] && total == 0 && lines == [] && this.decode == decode
    {
      this.decode := decode;
      chunks, offset, total, lines := [], 0, 0, [];
    }

    /** One pass of `GetLine`: the bytes of the next line, if it is there. */
    method GetBytes(partial: bool) returns (line: Option<seq<Byte>>, error: bool)
      requires Valid() && chunks != []
      modifies this`chunks, this`offset
      ensures Valid() && (partial ==> Open())
      ensures match NextLine(old(Held()), partial)
              case Line(bytes, rest) => line == Some(bytes) && !error && Held() == rest
              case NoLine(rest) => line == None && !error && Held() == rest
              case TooLong(rest) => line == None && error && Held() == rest
    {
      hide At, TrimBlanks, FirstBreak;
      line, error := None, false;
      var i, off := SkipBlanks(chunks, offset);
      Suffix(chunks, i, off);
      if i == |chunks| {
        AtEnd(chunks, off);
        chunks, offset := [], 0;
        AtEnd(chunks, 0);
        return;
      }
      chunks, offset := chunks[i..], off;
      OnwardAt(chunks, 0, offset);
      var it, cur, length := FindBreak(chunks, offset);
      if length > MAX_LINE {
        error := true;
        return;
      }
      if it == |chunks| && partial {
        return;
      }
      var bytes := CopyLine(chunks, offset, it, cur, length);
      Suffix(chunks, it, cur);
      line := Some(bytes);
      chunks, offset := chunks[it..], cur;
    }

    /** `GetLine`: the next line whose text is not empty. */
    method GetLine(partial: bool) returns (line: Option<string>, error: bool)
      requires Valid()
      modifies this`chunks, this`offset
      ensures Valid() && (partial && old(Open()) ==> Open())
      ensures var d := Drain(decode, old(Held()), partial);
              match line
              case None => d == Drained([], Held(), error)
              case Some(text) =>
                && |Held()| < |old(Held())|
                && var later := Drain(decode, Held(), partial);
                   d == later.(lines := [text] + later.lines)
    {
      hide At, NextLine;
      line, error := None, false;
      while chunks != []
        invariant Valid() && |Held()| <= |old(Held())| && line == None && !error
        invariant Drain(decode, Held(), partial) == Drain(decode, old(Held()), partial)
        invariant partial && old(Open()) ==> Open()
        decreases |Held()|
      {
        ghost var before := Held();
        var bytes;
        bytes, error := GetBytes(partial);
        if bytes.None? {
          return;
        }
        var text := Text(decode, bytes.value);
        LineWithin(before, partial);
        if text != "" {
          line := Some(text);
          return;
        }
        assert [] + Drain(decode, Held(), partial).lines == Drain(decode, Held(), partial).lines;
      }
      AtEnd(chunks, offset);
      NothingLeft(partial);
    }

    /** `ParseData`: lines are handed out until none is left or one is too long. */
    method ParseData(partial: bool) returns (ok: bool)
      requires Valid()
      modifies this`chunks, this`offset, this`lines
      ensures Valid() && (partial && old(Open()) ==> Open())
      ensures var d := Drain(decode, old(Held()), partial);
              lines == old(lines) + d.lines && Held() == d.rest && ok == !d.failed
    {
      hide *;
      ghost var taken: seq<string> := [];
      ghost var all := Drain(decode, Held(), partial);
      var line, error := GetLine(partial);
      assert [] + all.lines == all.lines && lines + [] == lines;
      AheadNext(decode, all, taken, all, line, error, Held(), partial);
      while line.Some?
        invariant Valid() && (partial && old(Open()) ==> Open())
        invariant lines == old(lines) + taken
        invariant Ahead(decode, all, taken, line, error, Held(), partial)
        decreases if line.Some? then |Held()| + 1 else 0
      {
        ghost var later := Drain(decode, Held(), partial);
        AheadMore(decode, all, taken, line.value, error, Held(), partial);
        assert taken + ([line.value] + later.lines) == (taken + [line.value]) + later.lines;
        taken := taken + [line.value];
        lines := lines + [line.value];
        line, error := GetLine(partial);
        AheadNext(decode, all, taken, later, line, error, Held(), partial);
      }
      AheadDone(decode, all, taken, error, Held(), partial);
      ok := !error;
    }

    /** `AddData`; the bytes of a chunk are never empty. */
    method AddData(chunk: seq<Byte>) returns (ok: bool)
      requires Valid() && Open() && chunk != []
      modifies this
      ensures Valid() && Open() && total == old(total) + |chunk|
      ensures if total < THRESHOLD then ok && lines == old(lines) && Held() == old(Held()) + chunk
              else var d := Drain(decode, old(Held()) + chunk, true);
                   lines == old(lines) + d.lines && Held() == d.rest && ok == !d.failed
    {
      hide Drain;
      AppendChunk(chunks, offset, chunk);
      chunks := chunks + [chunk];
      total := total + |chunk|;
      if total < THRESHOLD {
        return true;
      }
      ok := ParseData(true);
    }
  }

  /** A listing read to its end, or to its first overlong line: its lines are those of the whole. */
  method ReadListing(decode: Decoder, pieces: seq<seq<Byte>>) returns (lines: seq<string>, ok: bool)
    requires NonEmpty(pieces)
    ensures Parsed(lines, !ok) == Batch(decode, Joined(pieces))
  {
    hide Drain, Batch, At, Joined;
    ChunkIndependence(decode, [], 0, pieces);
    assert [] + Joined(pieces) == Joined(pieces);
    var reader := new Reader(decode);
    var k := 0;
    assert pieces[0..] == pieces;
    PrefixNothing(Stream(decode, [], 0, pieces));
    while k < |pieces|
      invariant 0 <= k <= |pieces| && fresh(reader) && reader.Valid() && reader.Open() && reader.decode == decode
      invariant Prefixed(reader.lines, Stream(decode, reader.Held(), reader.total, pieces[k..]))
             == Stream(decode, [], 0, pieces)
    {
      ghost var before, held, had := pieces[k..], reader.Held(), reader.lines;
      assert before[0] == pieces[k] && before[1..] == pieces[k + 1..];
      ok := reader.AddData(pieces[k]);
      if !ok {
        return reader.lines, false;
      }
      if reader.total >= THRESHOLD {
        var d := Drain(decode, held + pieces[k], true);
        PrefixTwice(had, d.lines, Stream(decode, reader.Held(), reader.total, pieces[k + 1..]));
      }
      k := k + 1;
    }
    ok := reader.ParseData(false);
    lines := reader.lines;
  }
}
