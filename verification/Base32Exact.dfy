/** Base32 as numbers: the same bits, cut into digits of five instead of bytes of eight. */
module Base32Exact {
  import opened Options
  import opened Alphabets
  import opened AlphabetTables
  import opened Base32

  function Five(a: nat, b: nat, c: nat, d: nat, e: nat): nat {
    a * 0x1_0000_0000 + b * 0x100_0000 + c * 0x1_0000 + d * 0x100 + e
  }

  function Eight(a: nat, b: nat, c: nat, d: nat, e: nat, f: nat, g: nat, h: nat): nat {
    a * 0x8_0000_0000 + b * 0x4000_0000 + c * 0x200_0000 + d * 0x10_0000 + e * 0x8000 + f * 0x400 + g * 0x20 + h
  }

  /** Five bytes as one number. */
  function FiveBytes(input: seq<Byte>, i: nat): nat {
    Five(Place(input, i), Place(input, i + 1), Place(input, i + 2), Place(input, i + 3), Place(input, i + 4))
  }

  /** Eight digits as one number. */
  function EightDigits(digits: seq<nat>, i: nat): nat {
    Eight(Place(digits, i), Place(digits, i + 1), Place(digits, i + 2), Place(digits, i + 3),
          Place(digits, i + 4), Place(digits, i + 5), Place(digits, i + 6), Place(digits, i + 7))
  }

  lemma FiveMoved(front: seq<Byte>, s: seq<Byte>, i: nat)
    ensures FiveBytes(front + s, |front| + i) == FiveBytes(s, i)
  {
    hide Place, Five;
    Moved(front, s, i);
    Moved(front, s, i + 1);
    Moved(front, s, i + 2);
    Moved(front, s, i + 3);
    Moved(front, s, i + 4);
  }

  lemma EightMoved(front: seq<nat>, s: seq<nat>, i: nat)
    ensures EightDigits(front + s, |front| + i) == EightDigits(s, i)
  {
    hide Place, Eight;
    Moved(front, s, i);
    Moved(front, s, i + 1);
    Moved(front, s, i + 2);
    Moved(front, s, i + 3);
    Moved(front, s, i + 4);
    Moved(front, s, i + 5);
    Moved(front, s, i + 6);
    Moved(front, s, i + 7);
  }

  lemma FiveFront(front: seq<Byte>, s: seq<Byte>)
    requires |front| == 5
    ensures FiveBytes(front + s, 0) == FiveBytes(front, 0)
  {
    hide Five;
  }

  lemma EightFront(front: seq<nat>, s: seq<nat>)
    requires |front| == 8
    ensures EightDigits(front + s, 0) == EightDigits(front, 0)
  {
    hide Eight;
  }

  // ----- Encoding

  lemma GroupNumber(a: Byte, b: Byte, c: Byte, d: Byte, e: Byte)
    ensures Eight(D1(a), D2(a, b), D3(b), D4(b, c), D5(c, d), D6(d), D7(d, e), D8(e)) == Five(a, b, c, d, e)
  {
    assert b == b / 64 * 64 + b / 2 % 32 * 2 + b % 2;
    assert d == d / 128 * 128 + d / 4 % 32 * 4 + d % 4;
  }

  lemma Zero368(z: Byte)
    requires z == 0
    ensures D3(z) == 0 && D6(z) == 0 && D8(z) == 0
  {
  }

  lemma Zero4(b: Byte, c: Byte)
    requires b == c == 0
    ensures D4(b, c) == 0
  {
  }

  lemma Zero5(c: Byte, d: Byte)
    requires c == d == 0
    ensures D5(c, d) == 0
  {
  }

  lemma Zero7(d: Byte, e: Byte)
    requires d == e == 0
    ensures D7(d, e) == 0
  {
  }

  /** The digits beyond those of the bytes there are are zero. */
  lemma CutDigits(n: nat, a: Byte, b: Byte, c: Byte, d: Byte, e: Byte)
    requires 1 <= n <= 4 && (n < 2 ==> b == 0) && (n < 3 ==> c == 0) && (n < 4 ==> d == 0) && e == 0
    ensures forall i | DigitCount(n) <= i < 8 :: FiveDigits(a, b, c, d, e)[i] == 0
  {
    hide D1, D2, D3, D4, D5, D6, D7, D8;
    Zero368(e);
    if n < 4 { Zero7(d, e); }
    if n < 3 { Zero5(c, d); }
    if n < 2 { Zero4(b, c); }
  }

  lemma EightOf(digits: seq<nat>, five: seq<nat>)
    requires |digits| <= 8 == |five| && (forall i | 0 <= i < |digits| :: digits[i] == five[i]) && forall i | |digits| <= i < 8 :: five[i] == 0
    ensures EightDigits(digits, 0) == Eight(five[0], five[1], five[2], five[3], five[4], five[5], five[6], five[7])
  {
    hide Eight;
    assert forall i: nat | i < 8 :: Place(digits, i) == five[i];
  }

  lemma LastOnes(input: seq<Byte>)
    requires 1 <= |input| <= 4
    ensures |Digits(input)| == DigitCount(|input|)
    ensures Digits(input) == FiveDigits(Place(input, 0), Place(input, 1), Place(input, 2), Place(input, 3), 0)[..DigitCount(|input|)]
  {
    hide FiveDigits;
  }

  lemma ShortNumber(input: seq<Byte>)
    requires |input| <= 4
    ensures EightDigits(Digits(input), 0) == FiveBytes(input, 0)
    ensures |Digits(input)| == if input == [] then 0 else DigitCount(|input|)
  {
    hide D1, D2, D3, D4, D5, D6, D7, D8, Eight, Five, EightDigits, Place;
    if input == [] {
      assert Digits(input) == [];
      BeyondEnd(Digits(input), input, 0);
    } else {
      hide Digits;
      FewBytes(input);
      var a, b, c, d := Place(input, 0), Place(input, 1), Place(input, 2), Place(input, 3);
      LastOnes(input);
      CutDigits(|input|, a, b, c, d, 0);
      GroupNumber(a, b, c, d, 0);
      EightOf(Digits(input), FiveDigits(a, b, c, d, 0));
    }
  }

  lemma FewBytes(input: seq<Byte>)
    requires 1 <= |input| <= 4
    ensures Place(input, 1) < 256 && Place(input, 2) < 256 && Place(input, 3) < 256 && Place(input, 4) == 0 && Place(input, 0) < 256
    ensures (|input| < 2 ==> Place(input, 1) == 0) && (|input| < 3 ==> Place(input, 2) == 0) && (|input| < 4 ==> Place(input, 3) == 0)
  {
  }

  lemma BeyondEnd(digits: seq<nat>, input: seq<Byte>, k: nat)
    requires |digits| <= 8 * k && |input| <= 5 * k
    ensures EightDigits(digits, 8 * k) == FiveBytes(input, 5 * k)
  {
  }

  lemma FirstFive(input: seq<Byte>)
    requires |input| >= 5
    ensures EightDigits(Digits(input), 0) == FiveBytes(input, 0)
    ensures |Digits(input)| >= 8 && Digits(input) == Digits(input)[..8] + Digits(input[5..])
  {
    GroupNumber(input[0], input[1], input[2], input[3], input[4]);
    hide D1, D2, D3, D4, D5, D6, D7, D8, LastDigits, Five, Eight;
  }

  /** Eight digits are the number their five bytes are, and there are just enough digits for the bits. */
  lemma {:induction false} SameNumber(input: seq<Byte>, k: nat)
    ensures EightDigits(Digits(input), 8 * k) == FiveBytes(input, 5 * k)
    ensures 8 * |input| <= 5 * |Digits(input)| < 8 * |input| + 5
    decreases |input|
  {
    hide Digits, EightDigits, FiveBytes;
    if |input| <= 4 {
      ShortNumber(input);
      if k > 0 { BeyondEnd(Digits(input), input, k); }
    } else {
      FirstFive(input);
      SameNumber(input[5..], if k == 0 then 0 else k - 1);
      if k > 0 {
        assert input == input[..5] + input[5..];
        EightMoved(Digits(input)[..8], Digits(input[5..]), 8 * (k - 1));
        FiveMoved(input[..5], input[5..], 5 * (k - 1));
      }
    }
  }

  /** What is written: the character of every digit in order, filled up to groups of eight if so wanted. */
  lemma EncodedExactly(input: seq<Byte>, alphabet: Alphabet, pad: bool)
    requires IsBase32(alphabet)
    ensures var s, digits := Encoded(input, alphabet, pad), Digits(input);
            && |digits| <= |s|
            && (forall i | 0 <= i < |digits| :: s[i] == Letters(alphabet)[digits[i]])
            && (forall i | |digits| <= i < |s| :: s[i] == '=')
            && if pad then |s| % 8 == 0 && |s| < |digits| + 8 else |s| == |digits|
  {
    hide *;
    SameNumber(input, 0);
    PadFills(|input|, |Digits(input)|);
    Spelled(input, alphabet, pad);
    TextExactly(Digits(input), alphabet, if pad then PadCount(|input|) else 0);
  }

  lemma Spelled(input: seq<Byte>, alphabet: Alphabet, pad: bool)
    requires IsBase32(alphabet)
    ensures Proper(Digits(input), alphabet)
    ensures Encoded(input, alphabet, pad) == Text(Digits(input), alphabet) + Padding(if pad then PadCount(|input|) else 0)
  {
    hide Digits, Text;
  }

  lemma PadFills(n: nat, digits: nat)
    requires 8 * n <= 5 * digits < 8 * n + 5
    ensures (digits + PadCount(n)) % 8 == 0 && PadCount(n) < 8
  {
    var q, r := n / 5, n % 5;
    assert n == 5 * q + r;
    assert digits == 8 * q + if r == 0 then 0 else DigitCount(r);
  }

  // ----- Decoding

  /** Digits and then padding. */
  predicate Padded(symbols: seq<Symbol>, n: nat) {
    n <= |symbols| && (forall i | 0 <= i < n :: symbols[i].Digit?) && forall i | n <= i < |symbols| :: symbols[i] == Pad
  }

  /** Digits that end with a byte, and padding that does not begin a group or go beyond it. */
  predicate WellFormed(symbols: seq<Symbol>, n: nat) {
    Padded(symbols, n) && Closes(n % 8) && |symbols| - n <= (8 - n % 8) % 8
  }

  /** With this many digits of a group, each but for its last bits belongs to a byte. */
  predicate Closes(digits: nat) {
    digits != 1 && digits != 3 && digits != 6
  }

  /** How much of a group of eight is lost with its missing digits. */
  function Slack(digits: nat): nat {
    if digits >= 8 then 1
    else if digits == 7 then 0x100
    else if digits == 5 then 0x1_0000
    else if digits == 4 then 0x100_0000
    else 0x1_0000_0000
  }

  lemma TwoOfEight(x1: nat, x2: nat)
    requires x1 < 32 && x2 < 32
    ensures Five(B1(x1, x2), 0, 0, 0, 0) <= Eight(x1, x2, 0, 0, 0, 0, 0, 0) < Five(B1(x1, x2), 0, 0, 0, 0) + 0x1_0000_0000
  {
  }

  lemma FourOfEight(x1: nat, x2: nat, x3: nat, x4: nat)
    requires x1 < 32 && x2 < 32 && x3 < 32 && x4 < 32
    ensures var r := Five(B1(x1, x2), B2(x2, x3, x4), 0, 0, 0);
            r <= Eight(x1, x2, x3, x4, 0, 0, 0, 0) < r + 0x100_0000
  {
  }

  lemma FiveOfEight(x1: nat, x2: nat, x3: nat, x4: nat, x5: nat)
    requires x1 < 32 && x2 < 32 && x3 < 32 && x4 < 32 && x5 < 32
    ensures var r := Five(B1(x1, x2), B2(x2, x3, x4), B3(x4, x5), 0, 0);
            r <= Eight(x1, x2, x3, x4, x5, 0, 0, 0) < r + 0x1_0000
  {
  }

  lemma SevenOfEight(x1: nat, x2: nat, x3: nat, x4: nat, x5: nat, x6: nat, x7: nat)
    requires x1 < 32 && x2 < 32 && x3 < 32 && x4 < 32 && x5 < 32 && x6 < 32 && x7 < 32
    ensures var r := Five(B1(x1, x2), B2(x2, x3, x4), B3(x4, x5), B4(x5, x6, x7), 0);
            r <= Eight(x1, x2, x3, x4, x5, x6, x7, 0) < r + 0x100
  {
  }

  lemma AllEight(x1: nat, x2: nat, x3: nat, x4: nat, x5: nat, x6: nat, x7: nat, x8: nat)
    requires x1 < 32 && x2 < 32 && x3 < 32 && x4 < 32 && x5 < 32 && x6 < 32 && x7 < 32 && x8 < 32
    ensures Five(B1(x1, x2), B2(x2, x3, x4), B3(x4, x5), B4(x5, x6, x7), B5(x7, x8)) == Eight(x1, x2, x3, x4, x5, x6, x7, x8)
  {
  }

  lemma EightValues(symbols: seq<Symbol>, n: nat)
    requires |symbols| <= 8 && AllSmall(symbols) && Padded(symbols, n)
    ensures n <= 8
    ensures forall i: nat | i < 8 :: var x := At(symbols, Pad, i); Small(x) && (x.Digit? <==> i < n) && (i >= n ==> x == Pad)
    ensures forall i: nat | i < 8 :: Place(Values(symbols), i) == Value(At(symbols, Pad, i))
  {
  }

  /** A group is decoded if its digits end with a byte, to their number rounded down. */
  lemma GroupExactly(symbols: seq<Symbol>, n: nat)
    requires |symbols| <= 8 && AllSmall(symbols) && Padded(symbols, n)
    ensures FirstGroup(symbols, Pad).Some? <==> n > 0 && Closes(n)
    ensures FirstGroup(symbols, Pad).Some? ==>
              var bytes := FirstGroup(symbols, Pad).value;
              && |bytes| == 5 * n / 8
              && FiveBytes(bytes, 0) <= EightDigits(Values(symbols), 0) < FiveBytes(bytes, 0) + Slack(n)
  {
    hide B1, B2, B3, B4, B5, Five, Eight, AllSmall, Padded, At, Small;
    EightValues(symbols, n);
    var x1, x2, x3, x4 := At(symbols, Pad, 0), At(symbols, Pad, 1), At(symbols, Pad, 2), At(symbols, Pad, 3);
    var x5, x6, x7, x8 := At(symbols, Pad, 4), At(symbols, Pad, 5), At(symbols, Pad, 6), At(symbols, Pad, 7);
    var v1, v2, v3, v4, v5, v6, v7, v8 := Value(x1), Value(x2), Value(x3), Value(x4), Value(x5), Value(x6), Value(x7), Value(x8);
    match n
    case 2 => TwoOfEight(v1, v2);
    case 4 => FourOfEight(v1, v2, v3, v4);
    case 5 => FiveOfEight(v1, v2, v3, v4, v5);
    case 7 => SevenOfEight(v1, v2, v3, v4, v5, v6, v7);
    case 8 => AllEight(v1, v2, v3, v4, v5, v6, v7, v8);
    case _ =>
  }

  /** What more than one group is: the first group, and then the others. */
  lemma EightFirst(symbols: seq<Symbol>, n: nat)
    requires |symbols| > 8 && AllSmall(symbols) && Padded(symbols, n)
    ensures AllSmall(symbols[..8]) && AllSmall(symbols[8..])
    ensures Padded(symbols[..8], if n < 8 then n else 8) && Padded(symbols[8..], if n < 8 then 0 else n - 8)
    ensures Bytes(symbols, Pad) == Then(FirstGroup(symbols[..8], Pad), Bytes(symbols[8..], Pad))
    ensures Values(symbols) == Values(symbols[..8]) + Values(symbols[8..])
  {
    SmallParts(symbols);
    hide Group, Then, AllSmall, Bytes, FirstGroup;
    Unfolded(symbols);
    assert Values(symbols) == Values(symbols[..8]) + Values(symbols[8..]);
  }

  lemma SmallParts(symbols: seq<Symbol>)
    requires |symbols| > 8 && AllSmall(symbols)
    ensures AllSmall(symbols[..8]) && AllSmall(symbols[8..])
  {
  }

  lemma Unfolded(symbols: seq<Symbol>)
    requires |symbols| > 8 && AllSmall(symbols) && AllSmall(symbols[..8]) && AllSmall(symbols[8..])
    ensures Bytes(symbols, Pad) == Then(FirstGroup(symbols[..8], Pad), Bytes(symbols[8..], Pad))
  {
    hide Group, Then;
    assert forall i: nat | i < 8 :: At(symbols, Pad, i) == At(symbols[..8], Pad, i);
    assert FirstGroup(symbols, Pad) == FirstGroup(symbols[..8], Pad);
  }

  lemma OneGroup(symbols: seq<Symbol>)
    requires 0 < |symbols| <= 8 && AllSmall(symbols)
    ensures Bytes(symbols, Pad) == FirstGroup(symbols, Pad)
  {
    hide FirstGroup;
    Nothing(Pad);
    if FirstGroup(symbols, Pad).Some? { ThenNothing(FirstGroup(symbols, Pad).value); }
  }

  lemma ShortFormed(symbols: seq<Symbol>, n: nat)
    requires 0 < |symbols| <= 8 && Padded(symbols, n)
    ensures WellFormed(symbols, n) <==> n > 0 && Closes(n)
  {
  }

  lemma LongFormed(symbols: seq<Symbol>, n: nat)
    requires |symbols| > 8 && Padded(symbols, n) && Padded(symbols[8..], if n < 8 then 0 else n - 8)
    ensures WellFormed(symbols, n) <==> n >= 8 && WellFormed(symbols[8..], n - 8)
    ensures n < 8 ==> !WellFormed(symbols[8..], 0)
  {
    hide Padded;
  }

  /** Digits and padding are decoded exactly if they are well-formed. */
  lemma {:induction false} PaddedDecodes(symbols: seq<Symbol>, n: nat)
    requires AllSmall(symbols) && Padded(symbols, n)
    ensures Bytes(symbols, Pad).Some? <==> WellFormed(symbols, n)
    decreases |symbols|
  {
    hide AllSmall, FirstGroup, Padded;
    if symbols == [] {
      assert n == 0 by { OnlyNone(n); }
    } else if |symbols| <= 8 {
      OneGroup(symbols);
      ShortFormed(symbols, n);
      GroupExactly(symbols, n);
    } else {
      hide Bytes, WellFormed;
      EightFirst(symbols, n);
      LongFormed(symbols, n);
      GroupExactly(symbols[..8], if n < 8 then n else 8);
      PaddedDecodes(symbols[8..], if n < 8 then 0 else n - 8);
    }
  }

  lemma OnlyNone(n: nat)
    requires Padded([], n)
    ensures n == 0
  {
  }

  /** The bytes of symbols as they are read one after another. */
  function Read(symbols: seq<Symbol>): Option<seq<Byte>>
    requires AllSmall(symbols)
  {
    Bytes(Normal(symbols, None), Filler(Final(symbols, None)))
  }

  /** The digits a text begins with; what is not only padding after them makes it bad. */
  lemma Leading(symbols: seq<Symbol>) returns (n: nat)
    requires AllSmall(symbols)
    ensures Read(symbols).Some? ==> Padded(symbols, n)
  {
    n := 0;
    while n < |symbols| && symbols[n].Digit?
      invariant n <= |symbols| && forall i | 0 <= i < n :: symbols[i].Digit?
    {
      n := n + 1;
    }
    if !Padded(symbols, n) {
      var j: nat :| n <= j < |symbols| && symbols[j] != Pad;
      assert Small(symbols[n]);
      if symbols[n] == Bad {
        TurnsBad(symbols, None, n);
      } else {
        TurnsBad(symbols, None, j);
      }
      BadEnd(Normal(symbols, None));
    }
  }

  /** Only well-formed symbols are decoded. */
  lemma Accepted(symbols: seq<Symbol>) returns (n: nat)
    requires AllSmall(symbols)
    ensures Read(symbols).Some? ==> WellFormed(symbols, n)
  {
    hide AllSmall, Bytes;
    n := Leading(symbols);
    if Read(symbols).Some? {
      AlreadyNormal(symbols, None, n);
      PaddedDecodes(symbols, n);
    }
  }

  lemma {:induction false} PaddedNumbers(symbols: seq<Symbol>, n: nat, k: nat)
    requires AllSmall(symbols) && WellFormed(symbols, n) && 8 * k < n
    ensures Bytes(symbols, Pad).Some?
    ensures var bytes := Bytes(symbols, Pad).value;
            && |bytes| == 5 * n / 8
            && FiveBytes(bytes, 5 * k) <= EightDigits(Values(symbols), 8 * k) < FiveBytes(bytes, 5 * k) + Slack(n - 8 * k)
    decreases |symbols|
  {
    hide AllSmall, WellFormed, Padded, Bytes, FirstGroup, FiveBytes, EightDigits, Then, Slack;
    SomeDigits(symbols, n);
    PaddedDecodes(symbols, n);
    if |symbols| <= 8 {
      OneGroup(symbols);
      GroupExactly(symbols, n);
    } else {
      EightFirst(symbols, n);
      LongFormed(symbols, n);
      GroupExactly(symbols[..8], 8);
      MoreThanOne(n);
      Halves(symbols);
      PaddedNumbers(symbols[8..], n - 8, if k == 0 then 0 else k - 1);
      if k > 0 {
        EightMoved(Values(symbols[..8]), Values(symbols[8..]), 8 * (k - 1));
        FiveMoved(FirstGroup(symbols[..8], Pad).value, Bytes(symbols[8..], Pad).value, 5 * (k - 1));
      }
    }
  }

  lemma SomeDigits(symbols: seq<Symbol>, n: nat)
    requires WellFormed(symbols, n) && 0 < n
    ensures symbols != [] && Padded(symbols, n) && (|symbols| <= 8 ==> n <= 8) && (|symbols| > 8 ==> n > 8)
  {
  }

  lemma MoreThanOne(n: nat)
    requires n > 8
    ensures 5 * n / 8 == 5 + 5 * (n - 8) / 8 && 5 * 8 / 8 == 5 && Slack(n) == Slack(8)
  {
  }

  lemma Halves(symbols: seq<Symbol>)
    requires |symbols| > 8 && AllSmall(symbols) && AllSmall(symbols[..8]) && AllSmall(symbols[8..])
    requires Bytes(symbols, Pad) == Then(FirstGroup(symbols[..8], Pad), Bytes(symbols[8..], Pad)) && Bytes(symbols, Pad).Some?
    requires FirstGroup(symbols[..8], Pad).Some? && |FirstGroup(symbols[..8], Pad).value| == 5
    requires Values(symbols) == Values(symbols[..8]) + Values(symbols[8..])
    ensures Bytes(symbols[8..], Pad).Some?
    ensures Bytes(symbols, Pad).value == FirstGroup(symbols[..8], Pad).value + Bytes(symbols[8..], Pad).value
    ensures EightDigits(Values(symbols), 0) == EightDigits(Values(symbols[..8]), 0)
    ensures FiveBytes(Bytes(symbols, Pad).value, 0) == FiveBytes(FirstGroup(symbols[..8], Pad).value, 0)
  {
    hide Bytes, EightDigits, FiveBytes, AllSmall, FirstGroup;
    EightFront(Values(symbols[..8]), Values(symbols[8..]));
    FiveFront(FirstGroup(symbols[..8], Pad).value, Bytes(symbols[8..], Pad).value);
  }

  lemma SymbolsDecoded(symbols: seq<Symbol>, n: nat, k: nat)
    requires AllSmall(symbols) && WellFormed(symbols, n) && 8 * k < n
    ensures Read(symbols).Some?
    ensures var bytes := Read(symbols).value;
            && |bytes| == 5 * n / 8
            && FiveBytes(bytes, 5 * k) <= EightDigits(Values(symbols), 8 * k) < FiveBytes(bytes, 5 * k) + Slack(n - 8 * k)
  {
    hide AllSmall, Bytes, FiveBytes, EightDigits;
    AlreadyNormal(symbols, None, n);
    PaddedNumbers(symbols, n, k);
  }

  lemma TextRead(s: string, alphabet: Alphabet)
    requires IsBase32(alphabet)
    ensures AllSmall(Symbols(s, alphabet))
    ensures Decoded(s, alphabet) == if Read(Symbols(s, alphabet)).None? then [] else Read(Symbols(s, alphabet)).value
  {
    hide AllSmall, Bytes, Normal, Final;
    FitSmall(Symbols(s, alphabet), alphabet);
  }

  /** A text gives bytes exactly if it is well-formed and has digits. */
  lemma AcceptedExactly(s: string, alphabet: Alphabet) returns (n: nat)
    requires IsBase32(alphabet)
    ensures Decoded(s, alphabet) != [] <==> n > 0 && WellFormed(Symbols(s, alphabet), n)
    ensures Decoded(s, alphabet) == [] ==> forall m | m > 0 :: !WellFormed(Symbols(s, alphabet), m)
  {
    hide *;
    TextRead(s, alphabet);
    var symbols := Symbols(s, alphabet);
    n := Accepted(symbols);
    if Decoded(s, alphabet) == [] {
      forall m | m > 0 ensures !WellFormed(symbols, m) {
        if WellFormed(symbols, m) {
          SymbolsDecoded(symbols, m, 0);
          TwoGiveOne(symbols, m);
        }
      }
    } else if n == 0 {
      NoDigits(symbols);
    }
  }

  lemma TwoGiveOne(symbols: seq<Symbol>, n: nat)
    requires n > 0 && WellFormed(symbols, n)
    ensures 5 * n / 8 > 0
  {
  }

  lemma NoDigits(symbols: seq<Symbol>)
    requires AllSmall(symbols) && WellFormed(symbols, 0)
    ensures Read(symbols) == Some([])
  {
    hide Bytes, AllSmall;
    assert symbols == [];
    AlreadyNormal(symbols, None, 0);
    Nothing(Pad);
  }

  /**
   * Every five bytes a well-formed text gives are the number of their eight
   * digits; bits beyond the last byte are dropped.
   */
  lemma DecodedExactly(s: string, alphabet: Alphabet, n: nat, k: nat)
    requires IsBase32(alphabet) && WellFormed(Symbols(s, alphabet), n) && 8 * k < n
    ensures var bytes, digits := Decoded(s, alphabet), Values(Symbols(s, alphabet));
            && |bytes| == 5 * n / 8
            && FiveBytes(bytes, 5 * k) <= EightDigits(digits, 8 * k) < FiveBytes(bytes, 5 * k) + Slack(n - 8 * k)
  {
    hide *;
    TextRead(s, alphabet);
    SymbolsDecoded(Symbols(s, alphabet), n, k);
  }
}
