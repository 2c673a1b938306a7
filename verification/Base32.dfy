/** Base32 in groups of five bytes and eight digits. */
module Base32 {
  import opened Options
  import opened Alphabets

  predicate IsBase32(alphabet: Alphabet) {
    Radix(alphabet) == 32
  }

  // ----- Groups of five bytes and eight digits; missing bytes are zero

  function D1(a: Byte): (d: nat) ensures d < 32 { a / 8 }
  function D2(a: Byte, b: Byte): (d: nat) ensures d < 32 { a % 8 * 4 + b / 64 }
  function D3(b: Byte): (d: nat) ensures d < 32 { b / 2 % 32 }
  function D4(b: Byte, c: Byte): (d: nat) ensures d < 32 { b % 2 * 16 + c / 16 }
  function D5(c: Byte, d: Byte): (r: nat) ensures r < 32 { c % 16 * 2 + d / 128 }
  function D6(d: Byte): (r: nat) ensures r < 32 { d / 4 % 32 }
  function D7(d: Byte, e: Byte): (r: nat) ensures r < 32 { d % 4 * 8 + e / 32 }
  function D8(e: Byte): (r: nat) ensures r < 32 { e % 32 }

  function B1(x1: nat, x2: nat): Byte requires x1 < 32 && x2 < 32 { x1 * 8 + x2 / 4 }
  function B2(x2: nat, x3: nat, x4: nat): Byte requires x2 < 32 && x3 < 32 && x4 < 32 { x2 % 4 * 64 + x3 * 2 + x4 / 16 }
  function B3(x4: nat, x5: nat): Byte requires x4 < 32 && x5 < 32 { x4 % 16 * 16 + x5 / 2 }
  function B4(x5: nat, x6: nat, x7: nat): Byte requires x5 < 32 && x6 < 32 && x7 < 32 { x5 % 2 * 128 + x6 * 4 + x7 / 8 }
  function B5(x7: nat, x8: nat): Byte requires x7 < 32 && x8 < 32 { x7 % 8 * 32 + x8 }

  lemma Joined12(a: Byte, b: Byte, c: Byte)
    ensures B1(D1(a), D2(a, b)) == a && B2(D2(a, b), D3(b), D4(b, c)) == b
  {
    assert (a % 8 * 4 + b / 64) / 4 == a % 8 && (a % 8 * 4 + b / 64) % 4 == b / 64;
    assert (b % 2 * 16 + c / 16) / 16 == b % 2;
    assert b / 64 * 64 + b / 2 % 32 * 2 + b % 2 == b;
  }

  lemma Joined345(b: Byte, c: Byte, d: Byte, e: Byte)
    ensures B3(D4(b, c), D5(c, d)) == c && B4(D5(c, d), D6(d), D7(d, e)) == d && B5(D7(d, e), D8(e)) == e
  {
    assert (b % 2 * 16 + c / 16) % 16 == c / 16;
    assert (c % 16 * 2 + d / 128) / 2 == c % 16 && (c % 16 * 2 + d / 128) % 2 == d / 128;
    assert (d % 4 * 8 + e / 32) / 8 == d % 4 && (d % 4 * 8 + e / 32) % 8 == e / 32;
    assert d / 128 * 128 + d / 4 % 32 * 4 + d % 4 == d;
  }

  // ----- Encoding

  function Digits(input: seq<Byte>): (r: seq<nat>)
    ensures forall i | 0 <= i < |r| :: r[i] < 32
  {
    if |input| <= 4 then LastDigits(input) else FiveDigits(input[0], input[1], input[2], input[3], input[4]) + Digits(input[5..])
  }

  function FiveDigits(a: Byte, b: Byte, c: Byte, d: Byte, e: Byte): (r: seq<nat>)
    ensures |r| == 8 && forall i | 0 <= i < 8 :: r[i] < 32
  {
    [D1(a), D2(a, b), D3(b), D4(b, c), D5(c, d), D6(d), D7(d, e), D8(e)]
  }

  function LastDigits(input: seq<Byte>): (r: seq<nat>)
    requires |input| <= 4
    ensures forall i | 0 <= i < |r| :: r[i] < 32
  {
    match |input|
    case 0 => []
    case 1 => FiveDigits(input[0], 0, 0, 0, 0)[..2]
    case 2 => FiveDigits(input[0], input[1], 0, 0, 0)[..4]
    case 3 => FiveDigits(input[0], input[1], input[2], 0, 0)[..5]
    case 4 => FiveDigits(input[0], input[1], input[2], input[3], 0)[..7]
  }

  /** The padding after so many bytes. */
  function PadCount(n: nat): nat {
    match n % 5
    case 0 => 0
    case 1 => 6
    case 2 => 4
    case 3 => 3
    case _ => 1
  }

  function Encoded(input: seq<Byte>, alphabet: Alphabet, pad: bool): string
    requires IsBase32(alphabet)
  {
    Text(Digits(input), alphabet) + if pad then Padding(PadCount(|input|)) else ""
  }

  // ----- Decoding

  predicate Small(x: Symbol) {
    x != Blank && (x.Digit? ==> x.value < 32)
  }

  predicate AllSmall(symbols: seq<Symbol>) {
    forall i | 0 <= i < |symbols| :: Small(symbols[i])
  }

  /** What `next` makes of a symbol: after one that is no digit, all others are bad. */
  function Seen(x: Symbol, end: Option<Symbol>): Symbol {
    if end.None? || x == end.value then x else Bad
  }

  function End(x: Symbol, end: Option<Symbol>): Option<Symbol> {
    if end.None? && x.Digit? then None else Some(Seen(x, end))
  }

  /** What `next` gives when there are no more symbols. */
  function Filler(end: Option<Symbol>): Symbol {
    if end.None? then Pad else end.value
  }

  /** The symbols as `next` gives them, and the end state after them. */
  function Normal(symbols: seq<Symbol>, end: Option<Symbol>): (r: seq<Symbol>)
    ensures |r| == |symbols| && (AllSmall(symbols) ==> AllSmall(r))
  {
    if symbols == [] then [] else [Seen(symbols[0], end)] + Normal(symbols[1..], End(symbols[0], end))
  }

  function Final(symbols: seq<Symbol>, end: Option<Symbol>): (r: Option<Symbol>)
    ensures AllSmall(symbols) && Small(Filler(end)) ==> Small(Filler(r))
  {
    if symbols == [] then end else Final(symbols[1..], End(symbols[0], end))
  }

  function At(normal: seq<Symbol>, filler: Symbol, i: nat): Symbol {
    if i < |normal| then normal[i] else filler
  }

  /** The value of a digit. */
  function Value(x: Symbol): (v: nat)
    requires Small(x)
    ensures v < 32
  {
    if x.Digit? then x.value else 0
  }

  /** The bytes of one group of eight symbols. */
  function Group(x1: Symbol, x2: Symbol, x3: Symbol, x4: Symbol, x5: Symbol, x6: Symbol, x7: Symbol, x8: Symbol): Option<seq<Byte>>
    requires Small(x1) && Small(x2) && Small(x3) && Small(x4) && Small(x5) && Small(x6) && Small(x7) && Small(x8)
  {
    if x2 == Pad || x8 == Bad then None
    else
      var one := B1(Value(x1), Value(x2));
      if x3 == Pad then Some([one])
      else if x4 == Pad then None
      else
        var two := B2(Value(x2), Value(x3), Value(x4));
        if x5 == Pad then Some([one, two])
        else
          var three := B3(Value(x4), Value(x5));
          if x6 == Pad then Some([one, two, three])
          else if x7 == Pad then None
          else
            var four := B4(Value(x5), Value(x6), Value(x7));
            if x8 == Pad then Some([one, two, three, four]) else Some([one, two, three, four, B5(Value(x7), Value(x8))])
  }

  function FirstGroup(normal: seq<Symbol>, filler: Symbol): Option<seq<Byte>>
    requires AllSmall(normal) && Small(filler)
  {
    Group(At(normal, filler, 0), At(normal, filler, 1), At(normal, filler, 2), At(normal, filler, 3),
          At(normal, filler, 4), At(normal, filler, 5), At(normal, filler, 6), At(normal, filler, 7))
  }

  function Bytes(normal: seq<Symbol>, filler: Symbol): Option<seq<Byte>>
    requires AllSmall(normal) && Small(filler)
    decreases |normal|
  {
    if normal == [] then Some([])
    else Then(FirstGroup(normal, filler), Bytes(if |normal| <= 8 then [] else normal[8..], filler))
  }

  lemma FitSmall(symbols: seq<Symbol>, alphabet: Alphabet)
    requires AllFit(symbols, alphabet) && IsBase32(alphabet)
    ensures AllSmall(symbols)
  {
    forall i | 0 <= i < |symbols| ensures Small(symbols[i]) {
      assert Fits(symbols[i], alphabet);
    }
  }

  /** What decoding a text gives: nothing if it is bad. */
  function Decoded(s: string, alphabet: Alphabet): seq<Byte>
    requires IsBase32(alphabet)
  {
    var symbols := Symbols(s, alphabet);
    FitSmall(symbols, alphabet);
    var bytes := Bytes(Normal(symbols, None), Filler(Final(symbols, None)));
    if bytes.None? then [] else bytes.value
  }

  // ----- Bad texts

  /** A text that ends badly is rejected. */
  lemma {:induction false} BadEnd(normal: seq<Symbol>)
    requires AllSmall(normal) && normal != [] && normal[|normal| - 1] == Bad
    ensures Bytes(normal, Bad) == None
  {
    hide Group;
    if |normal| <= 8 {
      BadLast(normal);
    } else {
      BadEnd(normal[8..]);
    }
  }

  lemma BadLast(normal: seq<Symbol>)
    requires AllSmall(normal) && 0 < |normal| <= 8 && normal[|normal| - 1] == Bad
    ensures FirstGroup(normal, Bad) == None
  {
    hide B1, B2, B3, B4, B5;
    assert At(normal, Bad, 7) == Bad;
  }

  /** Once bad, always bad. */
  lemma {:induction false} StaysBad(symbols: seq<Symbol>)
    ensures Final(symbols, Some(Bad)) == Some(Bad)
    ensures symbols != [] ==> Normal(symbols, Some(Bad))[|symbols| - 1] == Bad
  {
    if symbols != [] {
      StaysBad(symbols[1..]);
    }
  }

  /** A bad symbol, or one after padding that is none, makes everything after it bad. */
  lemma {:induction false} TurnsBad(symbols: seq<Symbol>, end: Option<Symbol>, j: nat)
    requires AllSmall(symbols) && j < |symbols| && (end == None || end == Some(Pad) || end == Some(Bad))
    requires symbols[j] == Bad || (symbols[j] != Pad && (end.Some? || exists i | 0 <= i < j :: symbols[i] == Pad))
    ensures Final(symbols, end) == Some(Bad) && Normal(symbols, end)[|symbols| - 1] == Bad
  {
    var end' := End(symbols[0], end);
    assert Small(symbols[0]);
    if end' == Some(Bad) {
      StaysBad(symbols[1..]);
    } else {
      assert j > 0 && symbols[1..][j - 1] == symbols[j];
      if i :| 0 <= i < j && symbols[i] == Pad {
        assert i > 0 ==> symbols[1..][i - 1] == Pad;
      }
      TurnsBad(symbols[1..], end', j - 1);
    }
  }

  /** Texts with a symbol that is in no alphabet, or with one other than padding after padding, are rejected. */
  lemma Rejected(s: string, alphabet: Alphabet, j: nat)
    requires IsBase32(alphabet) && j < |Symbols(s, alphabet)|
    requires var symbols := Symbols(s, alphabet);
             symbols[j] == Bad || (symbols[j] != Pad && exists i | 0 <= i < j :: symbols[i] == Pad)
    ensures Decoded(s, alphabet) == []
  {
    var symbols := Symbols(s, alphabet);
    FitSmall(symbols, alphabet);
    TurnsBad(symbols, None, j);
    BadEnd(Normal(symbols, None));
  }

  // ----- The round trip

  /** Digits followed by padding are what they are. */
  lemma {:induction false} AlreadyNormal(symbols: seq<Symbol>, end: Option<Symbol>, k: nat)
    requires k <= |symbols| && (forall i | 0 <= i < k :: symbols[i].Digit?) && forall i | k <= i < |symbols| :: symbols[i] == Pad
    requires end == None || (k == 0 && end == Some(Pad))
    ensures Normal(symbols, end) == symbols && Filler(Final(symbols, end)) == Pad
  {
    if symbols != [] {
      AlreadyNormal(symbols[1..], End(symbols[0], end), if k == 0 then 0 else k - 1);
      assert symbols == [symbols[0]] + symbols[1..];
    }
  }

  /** The number of digits for so many bytes in a group. */
  function DigitCount(n: nat): nat
    requires 1 <= n <= 5
  {
    match n
    case 1 => 2
    case 2 => 4
    case 3 => 5
    case 4 => 7
    case 5 => 8
  }

  /** A group that begins with the digits of some bytes, and goes on with padding, gives back the bytes. */
  lemma GroupBack(symbols: seq<Symbol>, n: nat, a: Byte, b: Byte, c: Byte, d: Byte, e: Byte)
    requires 1 <= n <= 5 && AllSmall(symbols) && |symbols| >= DigitCount(n)
    requires forall i | 0 <= i < DigitCount(n) :: symbols[i] == Digit(FiveDigits(a, b, c, d, e)[i])
    requires forall i | DigitCount(n) <= i < |symbols| && i < 8 :: symbols[i] == Pad
    ensures FirstGroup(symbols, Pad) == Some([a, b, c, d, e][..n])
  {
    Joined12(a, b, c);
    Joined345(b, c, d, e);
    hide D1, D2, D3, D4, D5, D6, D7, D8, B1, B2, B3, B4, B5;
    var five, input := FiveDigits(a, b, c, d, e), [a, b, c, d, e];
    assert symbols[0] == Digit(five[0]) && symbols[1] == Digit(five[1]);
    if n == 1 {
      assert At(symbols, Pad, 2) == Pad && At(symbols, Pad, 7) == Pad && input[..1] == [a];
    } else {
      assert symbols[2] == Digit(five[2]) && symbols[3] == Digit(five[3]);
      if n == 2 {
        assert At(symbols, Pad, 4) == Pad && At(symbols, Pad, 7) == Pad && input[..2] == [a, b];
      } else {
        assert symbols[4] == Digit(five[4]);
        if n == 3 {
          assert At(symbols, Pad, 5) == Pad && At(symbols, Pad, 7) == Pad && input[..3] == [a, b, c];
        } else {
          assert symbols[5] == Digit(five[5]) && symbols[6] == Digit(five[6]);
          if n == 4 {
            assert At(symbols, Pad, 7) == Pad && input[..4] == [a, b, c, d];
          } else {
            assert symbols[7] == Digit(five[7]) && input[..5] == input;
          }
        }
      }
    }
  }

  lemma {:induction false} DigitsBack(input: seq<Byte>, symbols: seq<Symbol>, pad: bool)
    requires symbols == AsSymbols(Digits(input)) + if pad then Pads(PadCount(|input|)) else []
    ensures AllSmall(symbols) && Bytes(symbols, Pad) == Some(input)
  {
    hide Group, FirstGroup, Bytes, D1, D2, D3, D4, D5, D6, D7, D8, FiveDigits, PadCount;
    if |input| == 0 {
      assert PadCount(0) == 0 by {
        PadCounts(0);
      }
      assert symbols == [];
      Nothing(Pad);
    } else if |input| <= 4 {
      LastBack(input, symbols, pad);
    } else {
      PadsAgain(|input|);
      var rest := symbols[8..];
      assert Digits(input)[8..] == Digits(input[5..]);
      assert rest == AsSymbols(Digits(input[5..])) + if pad then Pads(PadCount(|input|)) else [];
      DigitsBack(input[5..], rest, pad);
      FiveBack(symbols, input[0], input[1], input[2], input[3], input[4]);
      assert input == [input[0], input[1], input[2], input[3], input[4]] + input[5..];
    }
  }

  lemma FiveBack(symbols: seq<Symbol>, a: Byte, b: Byte, c: Byte, d: Byte, e: Byte)
    requires |symbols| >= 8 && AllSmall(symbols[8..])
    requires forall i | 0 <= i < 8 :: symbols[i] == Digit(FiveDigits(a, b, c, d, e)[i])
    ensures AllSmall(symbols) && Bytes(symbols, Pad) == Then(Some([a, b, c, d, e]), Bytes(symbols[8..], Pad))
  {
    hide FiveDigits, Group;
    forall i | 0 <= i < |symbols| ensures Small(symbols[i]) {
      if i >= 8 {
        assert symbols[i] == symbols[8..][i - 8];
      }
    }
    GroupBack(symbols, 5, a, b, c, d, e);
    assert [a, b, c, d, e][..5] == [a, b, c, d, e];
    hide FirstGroup;
    assert |symbols| == 8 ==> symbols[8..] == [];
  }

  lemma LastBack(input: seq<Byte>, symbols: seq<Symbol>, pad: bool)
    requires 1 <= |input| <= 4 && symbols == AsSymbols(LastDigits(input)) + if pad then Pads(PadCount(|input|)) else []
    ensures AllSmall(symbols) && Bytes(symbols, Pad) == Some(input)
  {
    PadCounts(|input|);
    hide FiveDigits, PadCount, Group;
    var n := |input|;
    var a, b, c, d := input[0], if n >= 2 then input[1] else 0, if n >= 3 then input[2] else 0, if n >= 4 then input[3] else 0;
    assert LastDigits(input) == FiveDigits(a, b, c, d, 0)[..DigitCount(n)];
    hide LastDigits;
    GroupBack(symbols, n, a, b, c, d, 0);
    assert [a, b, c, d, 0][..n] == input;
    hide FirstGroup;
    assert input + [] == input;
  }

  lemma PadCounts(n: nat)
    requires n <= 4
    ensures PadCount(n) == if n == 0 then 0 else 8 - DigitCount(n)
  {
  }

  lemma Nothing(filler: Symbol)
    requires Small(filler)
    ensures AllSmall([]) && Bytes([], filler) == Some([])
  {
  }

  lemma PadsAgain(n: nat)
    requires n >= 5
    ensures PadCount(n - 5) == PadCount(n)
  {
  }

  /** Every byte string comes back, in all three alphabets, padded or not. */
  lemma RoundTrip(input: seq<Byte>, alphabet: Alphabet, pad: bool)
    requires IsBase32(alphabet)
    ensures Decoded(Encoded(input, alphabet, pad), alphabet) == input
  {
    var padding := if pad then Padding(PadCount(|input|)) else "";
    var s := Encoded(input, alphabet, pad);
    SymbolsConcat(Text(Digits(input), alphabet), padding, alphabet);
    TextSymbols(Digits(input), alphabet);
    PaddingSymbols(PadCount(|input|), alphabet);
    assert Symbols("", alphabet) == [];
    hide Symbols, Text, Digits, PadCount, Normal, Final, Bytes;
    var symbols := Symbols(s, alphabet);
    AlreadyNormal(symbols, None, |Digits(input)|);
    DigitsBack(input, symbols, pad);
  }

  // ----- The loops

  /** `base32_encode_impl`. */
  method Encode(input: seq<Byte>, alphabet: Alphabet, pad: bool) returns (out: string)
    requires IsBase32(alphabet)
    ensures out == Encoded(input, alphabet, pad)
  {
    hide Char, FiveDigits, LastDigits, PadCount, Text, Padding;
    out := "";
    var len, pos := |input|, 0;
    while len >= 5
      invariant 0 <= pos <= |input| && len == |input| - pos && PadCount(len) == PadCount(|input|)
      invariant out + Text(Digits(input[pos..]), alphabet) == Text(Digits(input), alphabet)
    {
      PadsAgain(len);
      var eight := FiveDigits(input[pos], input[pos + 1], input[pos + 2], input[pos + 3], input[pos + 4]);
      assert input[pos..][5..] == input[pos + 5..];
      TextConcat(eight, Digits(input[pos + 5..]), alphabet);
      var more := Text(eight, alphabet);
      assert out + (more + Text(Digits(input[pos + 5..]), alphabet)) == out + more + Text(Digits(input[pos + 5..]), alphabet);
      out, pos, len := out + more, pos + 5, len - 5;
    }
    out := out + Text(LastDigits(input[pos..]), alphabet);
    if pad {
      out := out + Padding(PadCount(len));
    }
  }

  /** What `next` has still to give: symbols, and then the filler for ever. */
  datatype Stream = Stream(normal: seq<Symbol>, filler: Symbol) {
    function Head(): Symbol {
      At(normal, filler, 0)
    }

    function Tail(): Stream {
      if normal == [] then this else Stream(normal[1..], filler)
    }
  }

  ghost function Coming(s: string, pos: nat, len: nat, alphabet: Alphabet, end: Option<Symbol>): Stream
    requires pos <= len <= |s|
  {
    Stream(Normal(Rest(s, pos, len, alphabet), end), Filler(Final(Rest(s, pos, len, alphabet), end)))
  }

  /** `next`. */
  method Next(s: string, pos: nat, len: nat, alphabet: Alphabet, end: Option<Symbol>) returns (c: Symbol, next: nat, end': Option<Symbol>)
    requires pos <= len <= |s|
    ensures pos <= next <= len && c == Coming(s, pos, len, alphabet, end).Head()
    ensures Coming(s, next, len, alphabet, end') == Coming(s, pos, len, alphabet, end).Tail()
  {
    hide Rest;
    var x;
    x, next := NextSymbol(s, pos, len, alphabet);
    end' := end;
    if x.None? {
      return Filler(end), next, end;
    }
    ghost var rest := Rest(s, pos, len, alphabet);
    assert rest[0] == x.value && rest[1..] == Rest(s, next, len, alphabet);
    if end.Some? {
      c := if x.value != end.value then Bad else end.value;
      end' := Some(c);
    } else {
      c := x.value;
      if c == Bad || c == Pad {
        end' := Some(c);
      }
    }
  }

  lemma Heads(t: Stream)
    ensures t.Head() == At(t.normal, t.filler, 0) && t.Tail().Head() == At(t.normal, t.filler, 1)
    ensures t.Tail().Tail().Head() == At(t.normal, t.filler, 2) && t.Tail().Tail().Tail().Head() == At(t.normal, t.filler, 3)
    ensures t.Tail().Tail().Tail().Tail() ==
            Stream(if |t.normal| <= 4 then [] else t.normal[4..], t.filler)
  {
  }

  /** One group of eight symbols. */
  method DecodeGroup(s: string, pos: nat, len: nat, alphabet: Alphabet, end: Option<Symbol>)
    returns (group: Option<seq<Byte>>, next: nat, end': Option<Symbol>)
    requires IsBase32(alphabet) && pos < len <= |s| && AllSmall(Coming(s, pos, len, alphabet, end).normal)
    requires Small(Coming(s, pos, len, alphabet, end).filler)
    ensures pos <= next <= len
    ensures group == FirstGroup(Coming(s, pos, len, alphabet, end).normal, Coming(s, pos, len, alphabet, end).filler)
    ensures var t := Coming(s, pos, len, alphabet, end);
            Coming(s, next, len, alphabet, end') == Stream(if |t.normal| <= 8 then [] else t.normal[8..], t.filler)
  {
    hide Coming, Group;
    ghost var t := Coming(s, pos, len, alphabet, end);
    var c1, c2, c3, c4, c5, c6, c7, c8;
    c1, next, end' := Next(s, pos, len, alphabet, end);
    c2, next, end' := Next(s, next, len, alphabet, end');
    c3, next, end' := Next(s, next, len, alphabet, end');
    c4, next, end' := Next(s, next, len, alphabet, end');
    Heads(t);
    ghost var t' := Coming(s, next, len, alphabet, end');
    c5, next, end' := Next(s, next, len, alphabet, end');
    c6, next, end' := Next(s, next, len, alphabet, end');
    c7, next, end' := Next(s, next, len, alphabet, end');
    c8, next, end' := Next(s, next, len, alphabet, end');
    Heads(t');
    EightHeads(t);
    group := Group(c1, c2, c3, c4, c5, c6, c7, c8);
  }

  lemma EightHeads(t: Stream)
    ensures var t' := Stream(if |t.normal| <= 4 then [] else t.normal[4..], t.filler);
            && (forall i | 0 <= i < 4 :: At(t'.normal, t'.filler, i) == At(t.normal, t.filler, i + 4))
            && (if |t'.normal| <= 4 then [] else t'.normal[4..]) == (if |t.normal| <= 8 then [] else t.normal[8..])
  {
  }

  /** `base32_decode_impl`. */
  method Decode(s: string, alphabet: Alphabet) returns (r: seq<Byte>)
    requires IsBase32(alphabet)
    ensures r == Decoded(s, alphabet)
  {
    var len := Trim(s, alphabet);
    FitSmall(Symbols(s, alphabet), alphabet);
    var pos := 0;
    var end: Option<Symbol> := None;
    r := [];
    ghost var all := Coming(s, 0, len, alphabet, end);
    assert all.normal == Normal(Symbols(s, alphabet), None) && all.filler == Filler(Final(Symbols(s, alphabet), None));
    hide Coming, Trimmed, FirstGroup, Then, Bytes, Normal, Final;
    NothingThen(Bytes(all.normal, all.filler));
    while pos < len
      invariant pos <= len <= |s| && Trimmed(s, len, alphabet)
      invariant AllSmall(Coming(s, pos, len, alphabet, end).normal) && Coming(s, pos, len, alphabet, end).filler == all.filler
      invariant Bytes(all.normal, all.filler) == Then(Some(r), Bytes(Coming(s, pos, len, alphabet, end).normal, all.filler))
      decreases |Coming(s, pos, len, alphabet, end).normal|
    {
      ghost var t := Coming(s, pos, len, alphabet, end);
      ComingNonempty(s, pos, len, alphabet, end);
      var group, next, end' := DecodeGroup(s, pos, len, alphabet, end);
      BytesStep(t.normal, t.filler, r);
      if group.None? {
        return [];
      }
      r := r + group.value;
      pos, end := next, end';
    }
    ComingNonempty(s, pos, len, alphabet, end);
    Nothing(all.filler);
    ThenNothing(r);
  }

  lemma ComingNonempty(s: string, pos: nat, len: nat, alphabet: Alphabet, end: Option<Symbol>)
    requires pos <= len <= |s| && Trimmed(s, len, alphabet)
    ensures Coming(s, pos, len, alphabet, end).normal == [] <==> pos == len
  {
    RestEmpty(s, pos, len, alphabet);
  }

  lemma BytesStep(normal: seq<Symbol>, filler: Symbol, r: seq<Byte>)
    requires AllSmall(normal) && Small(filler) && normal != []
    ensures var rest := if |normal| <= 8 then [] else normal[8..];
            && AllSmall(rest)
            && Then(Some(r), Bytes(normal, filler)) ==
               if FirstGroup(normal, filler).None? then None else Then(Some(r + FirstGroup(normal, filler).value), Bytes(rest, filler))
  {
    hide FirstGroup, Then;
    ThenThen(r, FirstGroup(normal, filler), Bytes(if |normal| <= 8 then [] else normal[8..], filler));
  }
}
