/** Base64 in groups of three bytes and four digits. */
module Base64 {
  import opened Options
  import opened Alphabets

  predicate IsBase64(alphabet: Alphabet) {
    Radix(alphabet) == 64
  }

  // The digits of a group of three bytes, where missing bytes are zero, and the bytes of four digits.

  function D1(a: Byte): (d: nat) ensures d < 64 { a / 4 }
  function D2(a: Byte, b: Byte): (d: nat) ensures d < 64 { a % 4 * 16 + b / 16 }
  function D3(b: Byte, c: Byte): (d: nat) ensures d < 64 { b % 16 * 4 + c / 64 }
  function D4(c: Byte): (d: nat) ensures d < 64 { c % 64 }

  function B1(a: nat, b: nat): Byte requires a < 64 && b < 64 { a * 4 + b / 16 }
  function B2(b: nat, c: nat): Byte requires b < 64 && c < 64 { b % 16 * 16 + c / 4 }
  function B3(c: nat, d: nat): Byte requires c < 64 && d < 64 { c % 4 * 64 + d }

  /** Digits of bytes give back the bytes. */
  lemma Joined(a: Byte, b: Byte, c: Byte)
    ensures B1(D1(a), D2(a, b)) == a && B2(D2(a, b), D3(b, c)) == b && B3(D3(b, c), D4(c)) == c
  {
    assert (a % 4 * 16 + b / 16) / 16 == a % 4;
    assert (a % 4 * 16 + b / 16) % 16 == b / 16;
    assert (b % 16 * 4 + c / 64) / 4 == b % 16;
    assert (b % 16 * 4 + c / 64) % 4 == c / 64;
  }

  // ----- Encoding

  function Digits(input: seq<Byte>): (r: seq<nat>)
    ensures forall i | 0 <= i < |r| :: r[i] < 64
  {
    if |input| <= 2 then LastDigits(input)
    else [D1(input[0]), D2(input[0], input[1]), D3(input[1], input[2]), D4(input[2])] + Digits(input[3..])
  }

  function LastDigits(input: seq<Byte>): (r: seq<nat>)
    requires |input| <= 2
    ensures forall i | 0 <= i < |r| :: r[i] < 64
  {
    if |input| == 0 then []
    else if |input| == 1 then [D1(input[0]), D2(input[0], 0)]
    else [D1(input[0]), D2(input[0], input[1]), D3(input[1], 0)]
  }

  function PadCount(n: nat): nat {
    if n % 3 == 0 then 0 else 3 - n % 3
  }

  function Encoded(input: seq<Byte>, alphabet: Alphabet, pad: bool): string
    requires IsBase64(alphabet)
  {
    Text(Digits(input), alphabet) + if pad then Padding(PadCount(|input|)) else ""
  }

  // ----- Decoding

  function At(symbols: seq<Symbol>, i: nat): Symbol {
    if i < |symbols| then symbols[i] else Pad
  }

  predicate Small(x: Symbol) {
    x != Blank && (x.Digit? ==> x.value < 64)
  }

  predicate AllSmall(symbols: seq<Symbol>) {
    forall i | 0 <= i < |symbols| :: Small(symbols[i])
  }

  /** The bytes of one group of four symbols, the last group if so said. */
  function Group(a: Symbol, b: Symbol, c: Symbol, d: Symbol, last: bool): Option<seq<Byte>>
    requires Small(a) && Small(b) && Small(c) && Small(d)
  {
    if !a.Digit? || !b.Digit? || c == Bad || d == Bad then None
    else if d.Digit? then
      if !c.Digit? then None else Some([B1(a.value, b.value), B2(b.value, c.value), B3(c.value, d.value)])
    else if !last then None
    else if c.Digit? then Some([B1(a.value, b.value), B2(b.value, c.value)])
    else Some([B1(a.value, b.value)])
  }

  function FirstGroup(symbols: seq<Symbol>): Option<seq<Byte>>
    requires AllSmall(symbols)
  {
    Group(At(symbols, 0), At(symbols, 1), At(symbols, 2), At(symbols, 3), |symbols| <= 4)
  }

  function Bytes(symbols: seq<Symbol>): Option<seq<Byte>>
    requires AllSmall(symbols)
    decreases |symbols|
  {
    if symbols == [] then Some([])
    else Then(FirstGroup(symbols), Bytes(if |symbols| <= 4 then [] else symbols[4..]))
  }

  /** What decoding a text gives: nothing if it is bad. */
  function Decoded(s: string): seq<Byte> {
    var symbols := Symbols(s, Base64Standard);
    FitSmall(symbols, Base64Standard);
    var bytes := Bytes(symbols);
    if bytes.None? then [] else bytes.value
  }

  lemma FitSmall(symbols: seq<Symbol>, alphabet: Alphabet)
    requires AllFit(symbols, alphabet)
    ensures AllSmall(symbols)
  {
    forall i | 0 <= i < |symbols| ensures Small(symbols[i]) {
      assert Fits(symbols[i], alphabet);
    }
  }

  /** Decoding takes the characters of both alphabets. */
  lemma {:induction false} BothAlphabets(s: string, alphabet: Alphabet)
    requires IsBase64(alphabet)
    ensures Symbols(s, alphabet) == Symbols(s, Base64Standard)
  {
    if s != "" {
      BothAlphabets(s[1..], alphabet);
      assert Meaning(s[0], alphabet) == Meaning(s[0], Base64Standard);
    }
  }

  // ----- The round trip

  lemma ShortGroup(symbols: seq<Symbol>)
    requires 0 < |symbols| <= 4 && AllSmall(symbols)
    ensures Bytes(symbols) == FirstGroup(symbols)
  {
    hide Group;
    if FirstGroup(symbols).Some? {
      assert FirstGroup(symbols).value + [] == FirstGroup(symbols).value;
    }
  }

  lemma LastOne(symbols: seq<Symbol>, a: Byte, b: Byte, c: Byte)
    requires 2 <= |symbols| <= 4 && symbols[0] == Digit(D1(a)) && symbols[1] == Digit(D2(a, b))
    requires forall i | 2 <= i < |symbols| :: symbols[i] == Pad
    ensures AllSmall(symbols) && Bytes(symbols) == Some([a])
  {
    Joined(a, b, c);
    hide D1, D2, D3, D4, B1, B2, B3, Bytes;
    ShortGroup(symbols);
  }

  lemma LastTwo(symbols: seq<Symbol>, a: Byte, b: Byte, c: Byte)
    requires 3 <= |symbols| <= 4 && symbols[0] == Digit(D1(a)) && symbols[1] == Digit(D2(a, b)) && symbols[2] == Digit(D3(b, c))
    requires |symbols| == 4 ==> symbols[3] == Pad
    ensures AllSmall(symbols) && Bytes(symbols) == Some([a, b])
  {
    Joined(a, b, c);
    hide D1, D2, D3, D4, B1, B2, B3, Bytes;
    ShortGroup(symbols);
  }

  lemma Three(symbols: seq<Symbol>, a: Byte, b: Byte, c: Byte)
    requires |symbols| >= 4 && AllSmall(symbols[4..])
    requires symbols[0] == Digit(D1(a)) && symbols[1] == Digit(D2(a, b)) && symbols[2] == Digit(D3(b, c)) && symbols[3] == Digit(D4(c))
    ensures AllSmall(symbols) && Bytes(symbols) == Then(Some([a, b, c]), Bytes(symbols[4..]))
  {
    Joined(a, b, c);
    hide D1, D2, D3, D4, B1, B2, B3;
    assert |symbols| == 4 ==> symbols[4..] == [];
    forall i | 0 <= i < |symbols| ensures Small(symbols[i]) {
      if i >= 4 {
        assert symbols[i] == symbols[4..][i - 4];
      }
    }
  }

  /** Digits give back the bytes, with the padding or without it. */
  lemma {:induction false} DigitsBack(input: seq<Byte>, symbols: seq<Symbol>, pad: bool)
    requires symbols == AsSymbols(Digits(input)) + if pad then Pads(PadCount(|input|)) else []
    ensures AllSmall(symbols) && Bytes(symbols) == Some(input)
  {
    hide Group, Bytes, D1, D2, D3, D4, AllSmall;
    if |input| == 0 {
      assert symbols == [];
      Nothing();
    } else if |input| == 1 {
      LastOne(symbols, input[0], 0, 0);
      assert input == [input[0]];
    } else if |input| == 2 {
      LastTwo(symbols, input[0], input[1], 0);
      assert input == [input[0], input[1]];
    } else {
      PadsAgain(|input|);
      assert Digits(input)[4..] == Digits(input[3..]);
      assert symbols[4..] == AsSymbols(Digits(input[3..])) + if pad then Pads(PadCount(|input|)) else [];
      DigitsBack(input[3..], symbols[4..], pad);
      Three(symbols, input[0], input[1], input[2]);
      hide Digits;
      assert input == [input[0], input[1], input[2]] + input[3..];
    }
  }

  lemma Nothing()
    ensures AllSmall([]) && Bytes([]) == Some([])
  {
  }

  lemma PadsAgain(n: nat)
    requires n >= 3
    ensures PadCount(n - 3) == PadCount(n)
  {
  }

  /** Every byte string comes back, in either alphabet, padded or not. */
  lemma RoundTrip(input: seq<Byte>, alphabet: Alphabet, pad: bool)
    requires IsBase64(alphabet)
    ensures Decoded(Encoded(input, alphabet, pad)) == input
  {
    var padding := if pad then Padding(PadCount(|input|)) else "";
    var s := Encoded(input, alphabet, pad);
    SymbolsConcat(Text(Digits(input), alphabet), padding, alphabet);
    TextSymbols(Digits(input), alphabet);
    PaddingSymbols(PadCount(|input|), alphabet);
    BothAlphabets(s, alphabet);
    assert Symbols("", alphabet) == [];
    hide Symbols, Text, Digits;
    DigitsBack(input, Symbols(s, Base64Standard), pad);
  }

  // ----- The loops

  /** `base64_encode_impl`. */
  method Encode(input: seq<Byte>, alphabet: Alphabet, pad: bool) returns (out: string)
    requires IsBase64(alphabet)
    ensures out == Encoded(input, alphabet, pad)
  {
    hide Char, D1, D2, D3, D4, PadCount, Text, Padding, LastDigits;
    out := "";
    var len, pos := |input|, 0;
    while len >= 3
      invariant 0 <= pos <= |input| && len == |input| - pos && PadCount(len) == PadCount(|input|)
      invariant out + Text(Digits(input[pos..]), alphabet) == Text(Digits(input), alphabet)
    {
      PadsAgain(len);
      var c1, c2, c3 := input[pos], input[pos + 1], input[pos + 2];
      var four := [D1(c1), D2(c1, c2), D3(c2, c3), D4(c3)];
      assert input[pos..][3..] == input[pos + 3..];
      TextConcat(four, Digits(input[pos + 3..]), alphabet);
      var more := Text(four, alphabet);
      assert out + (more + Text(Digits(input[pos + 3..]), alphabet)) == out + more + Text(Digits(input[pos + 3..]), alphabet);
      out, pos, len := out + more, pos + 3, len - 3;
    }
    out := out + Text(LastDigits(input[pos..]), alphabet);
    if pad {
      out := out + Padding(PadCount(len));
    }
  }

  /** One group of four symbols; the next position is the end exactly if it is the last group. */
  method DecodeGroup(s: string, pos: nat, len: nat) returns (group: Option<seq<Byte>>, next: nat)
    requires pos < len <= |s| && Trimmed(s, len, Base64Standard)
    ensures pos <= next <= len && AllSmall(Rest(s, pos, len, Base64Standard)) && Rest(s, pos, len, Base64Standard) != []
    ensures group == FirstGroup(Rest(s, pos, len, Base64Standard))
    ensures Rest(s, next, len, Base64Standard) ==
            if |Rest(s, pos, len, Base64Standard)| <= 4 then [] else Rest(s, pos, len, Base64Standard)[4..]
  {
    hide Rest, B1, B2, B3, Trimmed;
    ghost var symbols := Rest(s, pos, len, Base64Standard);
    FitSmall(symbols, Base64Standard);
    RestEmpty(s, pos, len, Base64Standard);
    var c1, c2, c3, c4;
    c1, next := Next(s, pos, len);
    c2, next := Next(s, next, len);
    c3, next := Next(s, next, len);
    c4, next := Next(s, next, len);
    RestEmpty(s, next, len, Base64Standard);
    group := None;
    if c1 == Bad || c1 == Pad || c2 == Bad || c2 == Pad || c3 == Bad || c4 == Bad {
      return;
    }
    if c4 == Pad {
      if next < len {
        return;
      }
      group := Some([B1(c1.value, c2.value)]);
      if c3 != Pad {
        group := Some([B1(c1.value, c2.value), B2(c2.value, c3.value)]);
      }
    } else {
      if c3 == Pad {
        return;
      }
      group := Some([B1(c1.value, c2.value), B2(c2.value, c3.value), B3(c3.value, c4.value)]);
    }
  }

  /** The next symbol, or padding if there is none. */
  method Next(s: string, pos: nat, len: nat) returns (c: Symbol, next: nat)
    requires pos <= len <= |s|
    ensures pos <= next <= len && c == At(Rest(s, pos, len, Base64Standard), 0) && Small(c)
    ensures Rest(s, next, len, Base64Standard)
            == if Rest(s, pos, len, Base64Standard) == [] then [] else Rest(s, pos, len, Base64Standard)[1..]
  {
    hide Rest;
    var x;
    x, next := NextSymbol(s, pos, len, Base64Standard);
    c := if x.Some? then x.value else Pad;
  }

  /** `base64_decode_impl`. */
  method Decode(s: string) returns (r: seq<Byte>)
    ensures r == Decoded(s)
  {
    var len := Trim(s, Base64Standard);
    hide Rest, Trimmed, FirstGroup, Then, Meaning;
    FitSmall(Symbols(s, Base64Standard), Base64Standard);
    var pos := 0;
    r := [];
    NothingThen(Bytes(Symbols(s, Base64Standard)));
    while pos < len
      invariant pos <= len <= |s| && Trimmed(s, len, Base64Standard)
      invariant AllSmall(Rest(s, pos, len, Base64Standard))
      invariant Bytes(Symbols(s, Base64Standard)) == Then(Some(r), Bytes(Rest(s, pos, len, Base64Standard)))
    {
      var group, next := DecodeGroup(s, pos, len);
      FitSmall(Rest(s, next, len, Base64Standard), Base64Standard);
      ThenThen(r, group, Bytes(Rest(s, next, len, Base64Standard)));
      if group.None? {
        return [];
      }
      r := r + group.value;
      pos := next;
    }
    RestEmpty(s, pos, len, Base64Standard);
    ThenNothing(r);
  }
}
