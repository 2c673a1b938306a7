/** Cutting a file into parts for an upload in parts. */
module ChunkSize {

  /** The smallest size, what sizes are to be multiples of, and the greatest number and size of parts; 0 is no limit. */
  datatype Limits = Limits(minChunk: int, multiple: nat, maxParts: nat, maxChunk: nat) {
    ghost predicate Valid() { minChunk >= 1 }
  }

  /** The size and the milliseconds of the last part. */
  datatype Last = Last(size: int, duration: int)

  /** Division that truncates towards zero. */
  function Quotient(a: int, b: int): int
    requires b != 0
  {
    var q := (if a < 0 then -a else a) / (if b < 0 then -b else b);
    if (a < 0) == (b < 0) then q else -q
  }

  /** The size for about half a minute at the last speed, if that is known, but at least the smallest. */
  function Adaptive(lim: Limits, last: Last): (r: int)
    ensures r >= lim.minChunk
  {
    if last.duration == 0 || last.size == 0 then lim.minChunk
    else
      var size := Quotient(last.size * 30000, last.duration);
      if size > lim.minChunk then size else lim.minChunk
  }

  /** A size that lets the parts that are left suffice. */
  function Spread(size: int, remaining: int, left: int): int {
    if size * left >= remaining then size
    else if left <= 1 then remaining
    else remaining / (left - 1)
  }

  function RoundedUp(size: int, multiple: nat): int {
    if multiple == 0 || size % multiple == 0 then size else size + multiple - size % multiple
  }

  function Min(a: int, b: int): int { if a < b then a else b }

  /** The size wanted, before it is cut to the greatest size and to what remains. */
  function Wanted(remaining: int, last: Last, lim: Limits, parts: int): int {
    var adaptive := Adaptive(lim, last);
    RoundedUp(if lim.maxParts == 0 then adaptive else Spread(adaptive, remaining, lim.maxParts - parts), lim.multiple)
  }

  /** `CalculateNextChunkSize`. */
  function NextChunkSize(remaining: int, last: Last, lim: Limits, parts: int): int {
    if remaining <= 0 then 0
    else
      var rounded := Wanted(remaining, last, lim, parts);
      var capped := if lim.maxChunk == 0 then rounded else Min(rounded, lim.maxChunk);
      Min(capped, remaining)
  }

  // ----- Arithmetic

  lemma {:induction false} Distribute(a: int, b: int, k: int)
    ensures (a - b) * k == a * k - b * k
  {
  }

  lemma MulMono(a: int, b: int, k: int)
    requires a <= b && 0 <= k
    ensures a * k <= b * k
  {
  }

  lemma MultipleOf(m: int, q: int)
    requires m > 0
    ensures (q * m) % m == 0
  {
    var d, r := (q * m) / m, (q * m) % m;
    DivMod(q * m, m);
    Distribute(q, d, m);
    if q > d {
      MulMono(1, q - d, m);
    } else if q < d {
      MulMono(q - d, -1, m);
    }
  }

  lemma DivMod(a: int, m: int)
    requires m > 0
    ensures a == a / m * m + a % m && 0 <= a % m < m
  {
  }

  // ----- Single parts

  /** The number of bytes in a number of parts of a size. */
  function Bytes(size: int, parts: int): int { size * parts }

  lemma BytesLess(size: int, most: int, parts: int)
    requires size <= most && 0 <= parts
    ensures Bytes(size, parts) <= Bytes(most, parts)
  {
    MulMono(size, most, parts);
  }

  lemma BytesOneMore(size: int, parts: int)
    ensures Bytes(size, parts) == Bytes(size, parts - 1) + size && Bytes(size, 0) == 0
  {
    assert size * parts == size * (parts - 1) + size;
  }

  /** What a quotient is good for. */
  lemma Shares(remaining: int, parts: int)
    requires 1 <= parts <= remaining
    ensures 1 <= remaining / parts && remaining < Bytes(remaining / parts + 1, parts)
  {
    DivMod(remaining, parts);
    var q := remaining / parts;
    assert (q + 1) * parts == q * parts + parts;
    if q <= 0 {
      MulMono(q, 0, parts);
    }
  }

  lemma SpreadCases(size: int, remaining: int, left: int)
    ensures Bytes(size, left) >= remaining ==> Spread(size, remaining, left) == size
    ensures Bytes(size, left) < remaining && left <= 1 ==> Spread(size, remaining, left) == remaining
    ensures Bytes(size, left) < remaining && left > 1 ==> Spread(size, remaining, left) == remaining / (left - 1)
  {
  }

  lemma SpreadPositive(size: int, remaining: int, left: int)
    requires size >= 1 && remaining >= 1
    ensures Spread(size, remaining, left) >= 1
  {
    SpreadCases(size, remaining, left);
    BytesOneMore(1, left);
    hide Spread;
    if Bytes(size, left) < remaining && left > 1 {
      BytesLess(1, size, left);
      assert Bytes(1, left) == left;
      hide Bytes;
      Shares(remaining, left - 1);
    }
  }

  /** The least multiple that is not smaller. */
  lemma RoundedUpOk(size: int, multiple: nat)
    ensures size <= RoundedUp(size, multiple) < size + if multiple == 0 then 1 else multiple
    ensures multiple != 0 ==> RoundedUp(size, multiple) % multiple == 0
  {
    if multiple != 0 && size % multiple != 0 {
      var q := size / multiple;
      DivMod(size, multiple);
      Distribute(q, -1, multiple);
      assert size + multiple - size % multiple == (q + 1) * multiple;
      MultipleOf(multiple, q + 1);
    }
  }

  function Abs(a: int): int { if a < 0 then -a else a }

  lemma QuotientExactly(a: int, b: int)
    requires b != 0 && (a < 0) == (b < 0)
    ensures Quotient(a, b) * Abs(b) <= Abs(a) < (Quotient(a, b) + 1) * Abs(b)
  {
    DivMod(Abs(a), Abs(b));
    assert (Quotient(a, b) + 1) * Abs(b) == Quotient(a, b) * Abs(b) + Abs(b);
  }

  /**
   * The size aimed at is what half a minute takes at the last speed, to within
   * what one byte takes; it is the smallest size if that is more, or if the
   * speed is not known.
   */
  lemma HalfAMinute(lim: Limits, last: Last)
    requires lim.Valid()
    ensures var r := Adaptive(lim, last);
            if last.size == 0 || last.duration == 0 || (last.size < 0) != (last.duration < 0) then r == lim.minChunk
            else
              && Abs(last.size) * 30000 < (r + 1) * Abs(last.duration)
              && (r > lim.minChunk ==> r * Abs(last.duration) <= Abs(last.size) * 30000)
  {
    if last.size != 0 && last.duration != 0 {
      var q := Quotient(last.size * 30000, last.duration);
      if (last.size < 0) == (last.duration < 0) {
        QuotientExactly(last.size * 30000, last.duration);
        assert Abs(last.size * 30000) == Abs(last.size) * 30000;
        MulMono(q + 1, Adaptive(lim, last) + 1, Abs(last.duration));
      } else {
        NotPositive(Abs(last.size * 30000), Abs(last.duration));
      }
    }
  }

  lemma NotPositive(a: int, b: int)
    requires a >= 0 && b > 0
    ensures -(a / b) <= 0
  {
  }

  /** With no limit but the smallest size, a part takes half a minute at the last speed, unless less is left. */
  lemma UnlimitedPart(remaining: int, last: Last, lim: Limits, parts: int)
    requires lim.Valid() && lim.multiple == lim.maxParts == lim.maxChunk == 0
    requires last.size > 0 && last.duration > 0
    ensures var r := NextChunkSize(remaining, last, lim, parts);
            && (r < remaining ==> last.size * 30000 < (r + 1) * last.duration)
            && (r > lim.minChunk ==> r * last.duration <= last.size * 30000)
            && (0 < remaining && r < lim.minChunk ==> r == remaining)
  {
    HalfAMinute(lim, last);
    var r := NextChunkSize(remaining, last, lim, parts);
    hide Adaptive;
    if remaining > 0 {
      MulMono(r, Adaptive(lim, last), last.duration);
    }
  }

  /** If parts of a size do not suffice, what is left is shared evenly among all parts but one. */
  lemma EvenShares(size: int, remaining: int, left: int)
    ensures size * left >= remaining ==> Spread(size, remaining, left) == size
    ensures size * left < remaining && left <= 1 ==> Spread(size, remaining, left) == remaining
    ensures size * left < remaining && left > 1 ==>
              Spread(size, remaining, left) * (left - 1) <= remaining < (Spread(size, remaining, left) + 1) * (left - 1)
  {
    if size * left < remaining && left > 1 {
      var share := remaining / (left - 1);
      DivMod(remaining, left - 1);
      assert (share + 1) * (left - 1) == share * (left - 1) + (left - 1);
    }
  }

  /** Progress: a part has at least one byte; it is the size wanted or one of its limits, whichever is least. */
  lemma Progress(remaining: int, last: Last, lim: Limits, parts: int)
    requires lim.Valid() && remaining > 0
    ensures var r := NextChunkSize(remaining, last, lim, parts);
            && 1 <= r <= remaining && r <= Wanted(remaining, last, lim, parts) && (lim.maxChunk != 0 ==> r <= lim.maxChunk)
            && (r == remaining || r == Wanted(remaining, last, lim, parts) || r == lim.maxChunk != 0)
  {
    hide Spread, RoundedUp, Adaptive;
    SpreadPositive(Adaptive(lim, last), remaining, lim.maxParts - parts);
    RoundedUpOk(if lim.maxParts == 0 then Adaptive(lim, last) else Spread(Adaptive(lim, last), remaining, lim.maxParts - parts), lim.multiple);
  }

  /** A part that is not the last is aligned exactly if the size wanted is not cut at a greatest size that is not. */
  lemma Alignment(remaining: int, last: Last, lim: Limits, parts: int)
    requires lim.Valid() && lim.multiple > 0 && 0 < NextChunkSize(remaining, last, lim, parts) < remaining
    ensures NextChunkSize(remaining, last, lim, parts) % lim.multiple == 0 <==>
            !(0 < lim.maxChunk < Wanted(remaining, last, lim, parts) && lim.maxChunk % lim.multiple != 0)
  {
    hide Spread, RoundedUp, Adaptive;
    RoundedUpOk(if lim.maxParts == 0 then Adaptive(lim, last) else Spread(Adaptive(lim, last), remaining, lim.maxParts - parts), lim.multiple);
  }

  /** What a spread part leaves fits into one part less of a greater size. */
  lemma SpreadFits(size: int, remaining: int, left: int, most: int)
    requires size >= 1 && remaining >= 1 && left >= 1 && Spread(size, remaining, left) < most
    ensures remaining - Spread(size, remaining, left) <= Bytes(most, left - 1)
  {
    SpreadCases(size, remaining, left);
    SpreadPositive(size, remaining, left);
    hide Spread;
    if Bytes(size, left) >= remaining {
      BytesLess(size, most, left - 1);
      BytesOneMore(size, left);
    } else if left > 1 {
      BytesLess(1, size, left);
      assert Bytes(1, left) == left;
      Shares(remaining, left - 1);
      BytesLess(remaining / (left - 1) + 1, most, left - 1);
    } else {
      BytesOneMore(most, 0);
    }
  }

  /** What one part leaves fits into the parts that are left after it, if what there was fits. */
  lemma PartFits(remaining: int, last: Last, lim: Limits, parts: nat)
    requires lim.Valid() && remaining > 0 && parts < lim.maxParts
    requires lim.maxChunk != 0 ==> remaining <= Bytes(lim.maxChunk, lim.maxParts - parts)
    ensures lim.maxChunk != 0 ==>
              remaining - NextChunkSize(remaining, last, lim, parts) <= Bytes(lim.maxChunk, lim.maxParts - parts - 1)
    ensures lim.maxParts - parts == 1 ==> NextChunkSize(remaining, last, lim, parts) == remaining
  {
    var left := lim.maxParts - parts;
    var size := Adaptive(lim, last);
    var spread := Spread(size, remaining, left);
    RoundedUpOk(spread, lim.multiple);
    SpreadCases(size, remaining, left);
    hide Adaptive, RoundedUp, Spread;
    BytesOneMore(lim.maxChunk, left);
    BytesOneMore(size, 1);
    BytesLess(0, lim.maxChunk, left - 1);
    assert Bytes(0, left - 1) == 0;
    hide Bytes;
    if lim.maxChunk != 0 && spread < lim.maxChunk {
      SpreadFits(size, remaining, left, lim.maxChunk);
    }
  }

  // ----- All parts

  /** What is left after as many parts as there are speeds. */
  function Left(total: int, lim: Limits, lasts: seq<Last>): int {
    if lasts == [] then total
    else
      var n := |lasts| - 1;
      var remaining := Left(total, lim, lasts[..n]);
      remaining - NextChunkSize(remaining, lasts[n], lim, n)
  }

  lemma {:induction false} LeftShrinks(total: int, lim: Limits, lasts: seq<Last>)
    requires lim.Valid() && total >= 0
    ensures 0 <= Left(total, lim, lasts) && (Left(total, lim, lasts) > 0 ==> Left(total, lim, lasts) + |lasts| <= total)
    ensures lim.maxChunk != 0 ==> Left(total, lim, lasts) >= total - Bytes(lim.maxChunk, |lasts|)
  {
    BytesOneMore(lim.maxChunk, |lasts|);
    if lasts != [] {
      var n := |lasts| - 1;
      hide NextChunkSize, Bytes;
      LeftShrinks(total, lim, lasts[..n]);
      var remaining := Left(total, lim, lasts[..n]);
      if remaining > 0 {
        Progress(remaining, lasts[n], lim, n);
      } else {
        Done(lasts[n], lim, n);
      }
    }
  }

  lemma Done(last: Last, lim: Limits, parts: int)
    ensures NextChunkSize(0, last, lim, parts) == 0
  {
  }

  lemma {:induction false} LeftFits(total: int, lim: Limits, lasts: seq<Last>)
    requires lim.Valid() && total >= 0 && |lasts| <= lim.maxParts
    requires lim.maxChunk != 0 ==> total <= Bytes(lim.maxChunk, lim.maxParts)
    ensures lim.maxChunk != 0 ==> Left(total, lim, lasts) <= Bytes(lim.maxChunk, lim.maxParts - |lasts|)
    ensures |lasts| == lim.maxParts > 0 ==> Left(total, lim, lasts) == 0
  {
    if lasts != [] {
      var n := |lasts| - 1;
      BytesLess(0, lim.maxChunk, lim.maxParts - |lasts|);
      assert Bytes(0, lim.maxParts - |lasts|) == 0;
      hide NextChunkSize, Bytes;
      LeftFits(total, lim, lasts[..n]);
      LeftShrinks(total, lim, lasts[..n]);
      var remaining := Left(total, lim, lasts[..n]);
      if remaining > 0 {
        PartFits(remaining, lasts[n], lim, n);
      } else {
        Done(lasts[n], lim, n);
      }
    }
  }

  /** At whatever speed, a file is uploaded in the allowed number of parts exactly if it fits into them. */
  lemma PartsSuffice(total: int, lim: Limits, lasts: seq<Last>)
    requires lim.Valid() && total >= 0 && |lasts| == lim.maxParts > 0
    ensures Left(total, lim, lasts) == 0 <==> lim.maxChunk == 0 || total <= Bytes(lim.maxChunk, lim.maxParts)
  {
    hide Left, Bytes;
    LeftShrinks(total, lim, lasts);
    if lim.maxChunk == 0 || total <= Bytes(lim.maxChunk, lim.maxParts) {
      LeftFits(total, lim, lasts);
    }
  }

  /** Whatever the limits, there are no more parts than bytes. */
  lemma PartsEnd(total: int, lim: Limits, lasts: seq<Last>)
    requires lim.Valid() && total >= 0 && |lasts| >= total
    ensures Left(total, lim, lasts) == 0
  {
    LeftShrinks(total, lim, lasts);
  }
}
