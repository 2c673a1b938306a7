/** Base64 as numbers: the same bits, cut into digits of six instead of bytes of eight. */
module Base64Exact {
  import opened Options
  import opened Alphabets
  import opened AlphabetTables
  import opened Base64

  /** Three bytes as one number. */
  function ThreeBytes(input: seq<Byte>, i: nat): nat {
    Place(input, i) * 65536 + Place(input, i + 1) * 256 + Place(input, i + 2)
  }

  /** Four digits as one number. */
  function FourDigits(digits: seq<nat>, i: nat): nat {
    Place(digits, i) * 262144 + Place(digits, i + 1) * 4096 + Place(digits, i + 2) * 64 + Place(digits, i + 3)
  }

  lemma GroupNumber(a: Byte, b: Byte, c: Byte)
    ensures D1(a) * 262144 + D2(a, b) * 4096 + D3(b, c) * 64 + D4(c) == a * 65536 + b * 256 + c
  {
  }

  lemma FourMoved(front: seq<nat>, s: seq<nat>, i: nat)
    ensures FourDigits(front + s, |front| + i) == FourDigits(s, i)
  {
    hide Place;
    Moved(front, s, i);
    Moved(front, s, i + 1);
    Moved(front, s, i + 2);
    Moved(front, s, i + 3);
  }

  lemma ThreeMoved(front: seq<Byte>, s: seq<Byte>, i: nat)
    ensures ThreeBytes(front + s, |front| + i) == ThreeBytes(s, i)
  {
    hide Place;
    Moved(front, s, i);
    Moved(front, s, i + 1);
    Moved(front, s, i + 2);
  }

  lemma ShortNumber(input: seq<Byte>, k: nat)
    requires |input| <= 2
    ensures FourDigits(Digits(input), 4 * k) == ThreeBytes(input, 3 * k)
    ensures 8 * |input| <= 6 * |Digits(input)| < 8 * |input| + 6
  {
    GroupNumber(Place(input, 0), Place(input, 1), 0);
  }

  lemma FirstThree(input: seq<Byte>)
    requires |input| >= 3
    ensures FourDigits(Digits(input), 0) == ThreeBytes(input, 0)
    ensures |Digits(input)| >= 4 && Digits(input) == Digits(input)[..4] + Digits(input[3..])
  {
    GroupNumber(input[0], input[1], input[2]);
    hide D1, D2, D3, D4, LastDigits;
  }

  /** Four digits are the number their three bytes are, and there are just enough digits for the bits. */
  lemma {:induction false} SameNumber(input: seq<Byte>, k: nat)
    ensures FourDigits(Digits(input), 4 * k) == ThreeBytes(input, 3 * k)
    ensures 8 * |input| <= 6 * |Digits(input)| < 8 * |input| + 6
    decreases |input|
  {
    hide *;
    if |input| <= 2 {
      ShortNumber(input, k);
    } else {
      FirstThree(input);
      SameNumber(input[3..], if k == 0 then 0 else k - 1);
      if k > 0 {
        assert input == input[..3] + input[3..];
        FourMoved(Digits(input)[..4], Digits(input[3..]), 4 * (k - 1));
        ThreeMoved(input[..3], input[3..], 3 * (k - 1));
      }
    }
  }

  /** What is written: the character of every digit in order, filled up to groups of four if so wanted. */
  lemma EncodedExactly(input: seq<Byte>, alphabet: Alphabet, pad: bool)
    requires IsBase64(alphabet)
    ensures var s, digits := Encoded(input, alphabet, pad), Digits(input);
            && |digits| <= |s|
            && (forall i | 0 <= i < |digits| :: s[i] == Letters(alphabet)[digits[i]])
            && (forall i | |digits| <= i < |s| :: s[i] == '=')
            && if pad then |s| % 4 == 0 && |s| < |digits| + 4 else |s| == |digits|
  {
    hide *;
    SameNumber(input, 0);
    PadFills(|input|, |Digits(input)|);
    Spelled(input, alphabet, pad);
    TextExactly(Digits(input), alphabet, if pad then PadCount(|input|) else 0);
  }

  lemma Spelled(input: seq<Byte>, alphabet: Alphabet, pad: bool)
    requires IsBase64(alphabet)
    ensures Proper(Digits(input), alphabet)
    ensures Encoded(input, alphabet, pad) == Text(Digits(input), alphabet) + Padding(if pad then PadCount(|input|) else 0)
  {
    hide Digits, Text;
  }

  lemma PadFills(n: nat, digits: nat)
    requires 8 * n <= 6 * digits < 8 * n + 6
    ensures (digits + PadCount(n)) % 4 == 0 && PadCount(n) < 4
  {
    var q, r := n / 3, n % 3;
    assert n == 3 * q + r;
    assert digits == 4 * q + if r == 0 then 0 else r + 1;
  }

  // ----- Decoding

  /** Digits and then padding, which does not begin a group or go beyond it, and no digit alone in a group. */
  predicate WellFormed(symbols: seq<Symbol>, n: nat) {
    && n <= |symbols|
    && (forall i | 0 <= i < n :: symbols[i].Digit?)
    && (forall i | n <= i < |symbols| :: symbols[i] == Pad)
    && n % 4 != 1
    && |symbols| - n <= (4 - n % 4) % 4
  }

  lemma LastGroup(symbols: seq<Symbol>) returns (n: nat)
    requires 0 < |symbols| <= 4 && AllSmall(symbols)
    ensures Bytes(symbols).Some? ==> WellFormed(symbols, n)
  {
    ShortGroup(symbols);
    hide B1, B2, B3;
    n := if At(symbols, 3).Digit? then 4 else if At(symbols, 2).Digit? then 3 else 2;
  }

  lemma FourFirst(symbols: seq<Symbol>)
    requires |symbols| > 4 && AllSmall(symbols)
    ensures AllSmall(symbols[4..]) && AllSmall(symbols[..4]) && Bytes(symbols) == Then(FirstGroup(symbols), Bytes(symbols[4..]))
    ensures FirstGroup(symbols).Some? <==> forall i | 0 <= i < 4 :: symbols[i].Digit?
    ensures FirstGroup(symbols).Some? ==> Bytes(symbols[..4]) == FirstGroup(symbols)
  {
    hide *;
    SmallParts(symbols);
    Unfolded(symbols);
    FullGroup(symbols[0], symbols[1], symbols[2], symbols[3]);
    ShortGroup(symbols[..4]);
    FirstAlone(symbols[..4]);
  }

  lemma SmallParts(symbols: seq<Symbol>)
    requires |symbols| > 4 && AllSmall(symbols)
    ensures AllSmall(symbols[..4]) && AllSmall(symbols[4..]) && forall i | 0 <= i < 4 :: Small(symbols[i])
  {
  }

  lemma Unfolded(symbols: seq<Symbol>)
    requires |symbols| > 4 && AllSmall(symbols) && AllSmall(symbols[4..]) && forall i | 0 <= i < 4 :: Small(symbols[i])
    ensures FirstGroup(symbols) == Group(symbols[0], symbols[1], symbols[2], symbols[3], false)
    ensures Bytes(symbols) == Then(FirstGroup(symbols), Bytes(symbols[4..]))
  {
    hide Group, Then, AllSmall, Small;
  }

  lemma FirstAlone(symbols: seq<Symbol>)
    requires |symbols| == 4 && AllSmall(symbols)
    ensures FirstGroup(symbols) == Group(symbols[0], symbols[1], symbols[2], symbols[3], true)
  {
    hide Group;
  }

  lemma FullGroup(a: Symbol, b: Symbol, c: Symbol, d: Symbol)
    requires Small(a) && Small(b) && Small(c) && Small(d)
    ensures Group(a, b, c, d, false).Some? <==> a.Digit? && b.Digit? && c.Digit? && d.Digit?
    ensures Group(a, b, c, d, false).Some? ==> Group(a, b, c, d, true) == Group(a, b, c, d, false)
  {
    hide B1, B2, B3;
  }

  lemma FourMore(symbols: seq<Symbol>, n: nat)
    requires |symbols| > 4 && n >= 4
    ensures WellFormed(symbols, n) <==> (forall i | 0 <= i < 4 :: symbols[i].Digit?) && WellFormed(symbols[4..], n - 4)
  {
    assert n % 4 == (n - 4) % 4;
    forall i | 4 <= i < |symbols| ensures symbols[i] == symbols[4..][i - 4] {}
    if WellFormed(symbols[4..], n - 4) {
      forall i | 4 <= i < n ensures symbols[i].Digit? { assert symbols[4..][i - 4].Digit?; }
      forall i | n <= i < |symbols| ensures symbols[i] == Pad { assert symbols[4..][i - 4] == Pad; }
    }
  }

  /** Only well-formed symbols are decoded. */
  lemma {:induction false} Accepted(symbols: seq<Symbol>) returns (n: nat)
    requires AllSmall(symbols)
    ensures Bytes(symbols).Some? ==> WellFormed(symbols, n)
    decreases |symbols|
  {
    n := 0;
    if 0 < |symbols| <= 4 {
      n := LastGroup(symbols);
    } else if |symbols| > 4 {
      hide Bytes, FirstGroup, AllSmall, WellFormed;
      FourFirst(symbols);
      n := Accepted(symbols[4..]);
      n := n + 4;
      FourMore(symbols, n);
    }
  }

  /** How much of a group of four is lost with its missing digits. */
  function Slack(digits: nat): nat {
    if digits >= 4 then 1 else if digits == 3 then 256 else 65536
  }

  lemma GroupDecoded(symbols: seq<Symbol>, n: nat)
    requires 0 < n <= 4 && |symbols| <= 4 && AllSmall(symbols) && WellFormed(symbols, n)
    ensures Bytes(symbols).Some?
    ensures var bytes := Bytes(symbols).value;
            && |bytes| == 6 * n / 8
            && ThreeBytes(bytes, 0) <= FourDigits(Values(symbols), 0) < ThreeBytes(bytes, 0) + Slack(n)
  {
    ShortGroup(symbols);
  }

  lemma {:induction false} SymbolsDecoded(symbols: seq<Symbol>, n: nat, k: nat)
    requires AllSmall(symbols) && WellFormed(symbols, n) && 4 * k < n
    ensures Bytes(symbols).Some?
    ensures var bytes := Bytes(symbols).value;
            && |bytes| == 6 * n / 8
            && ThreeBytes(bytes, 3 * k) <= FourDigits(Values(symbols), 4 * k) < ThreeBytes(bytes, 3 * k) + Slack(n - 4 * k)
    decreases |symbols|
  {
    hide *;
    if |symbols| <= 4 {
      AtMostFour(symbols, n, k);
      GroupDecoded(symbols, n);
    } else {
      BeginsFull(symbols, n);
      FourFirst(symbols);
      FourMore(symbols, n);
      GroupDecoded(symbols[..4], 4);
      SymbolsDecoded(symbols[4..], n - 4, if k == 0 then 0 else k - 1);
      Halves(symbols);
      SixEighths(n);
      if k > 0 {
        FourMoved(Values(symbols[..4]), Values(symbols[4..]), 4 * (k - 1));
        ThreeMoved(Bytes(symbols[..4]).value, Bytes(symbols[4..]).value, 3 * (k - 1));
      }
    }
  }

  lemma Halves(symbols: seq<Symbol>)
    requires |symbols| > 4 && AllSmall(symbols) && AllSmall(symbols[..4]) && AllSmall(symbols[4..])
    requires Bytes(symbols[..4]).Some? && Bytes(symbols[4..]).Some? && |Bytes(symbols[..4]).value| == 3
    requires Bytes(symbols) == Then(Bytes(symbols[..4]), Bytes(symbols[4..]))
    ensures Bytes(symbols).Some? && Bytes(symbols).value == Bytes(symbols[..4]).value + Bytes(symbols[4..]).value
    ensures Values(symbols) == Values(symbols[..4]) + Values(symbols[4..])
    ensures FourDigits(Values(symbols), 0) == FourDigits(Values(symbols[..4]), 0)
    ensures ThreeBytes(Bytes(symbols).value, 0) == ThreeBytes(Bytes(symbols[..4]).value, 0)
  {
    hide Bytes, FourDigits, ThreeBytes, AllSmall;
    assert Values(symbols) == Values(symbols[..4]) + Values(symbols[4..]);
    FourFront(Values(symbols[..4]), Values(symbols[4..]));
    ThreeFront(Bytes(symbols[..4]).value, Bytes(symbols[4..]).value);
  }

  lemma AtMostFour(symbols: seq<Symbol>, n: nat, k: nat)
    requires |symbols| <= 4 && WellFormed(symbols, n) && 4 * k < n
    ensures 0 < n <= 4 && k == 0
  {
  }

  lemma SixEighths(n: nat)
    requires n >= 4
    ensures 6 * n / 8 == 3 + 6 * (n - 4) / 8 && Slack(n) == Slack(4)
  {
  }

  lemma BeginsFull(symbols: seq<Symbol>, n: nat)
    requires |symbols| > 4 && WellFormed(symbols, n)
    ensures n > 4 && WellFormed(symbols[..4], 4)
  {
  }

  lemma FourFront(front: seq<nat>, s: seq<nat>)
    requires |front| == 4
    ensures FourDigits(front + s, 0) == FourDigits(front, 0)
  {
  }

  lemma ThreeFront(front: seq<Byte>, s: seq<Byte>)
    requires |front| == 3
    ensures ThreeBytes(front + s, 0) == ThreeBytes(front, 0)
  {
  }

  /** A text gives bytes exactly if it is well-formed and has digits. */
  lemma AcceptedExactly(s: string) returns (n: nat)
    ensures Decoded(s) != [] <==> n > 0 && WellFormed(Symbols(s, Base64Standard), n)
    ensures Decoded(s) == [] ==> forall m | m > 0 :: !WellFormed(Symbols(s, Base64Standard), m)
  {
    hide WellFormed, Bytes;
    var symbols := Symbols(s, Base64Standard);
    FitSmall(symbols, Base64Standard);
    n := Accepted(symbols);
    if Decoded(s) == [] {
      forall m | m > 0 ensures !WellFormed(symbols, m) {
        if WellFormed(symbols, m) {
          SymbolsDecoded(symbols, m, 0);
          TwoGiveOne(symbols, m);
        }
      }
    } else if n == 0 {
      NoDigits(symbols);
    }
  }

  lemma TwoGiveOne(symbols: seq<Symbol>, n: nat)
    requires n > 0 && WellFormed(symbols, n)
    ensures 6 * n / 8 > 0
  {
  }

  lemma NoDigits(symbols: seq<Symbol>)
    requires AllSmall(symbols) && WellFormed(symbols, 0)
    ensures Bytes(symbols) == Some([])
  {
    hide FirstGroup;
    assert symbols == [];
  }

  /**
   * Every three bytes a well-formed text gives are the number of their four
   * digits; bits beyond the last byte are dropped.
   */
  lemma DecodedExactly(s: string, n: nat, k: nat)
    requires WellFormed(Symbols(s, Base64Standard), n) && 4 * k < n
    ensures var bytes, digits := Decoded(s), Values(Symbols(s, Base64Standard));
            && |bytes| == 6 * n / 8
            && ThreeBytes(bytes, 3 * k) <= FourDigits(digits, 4 * k) < ThreeBytes(bytes, 3 * k) + Slack(n - 4 * k)
  {
    hide WellFormed, Bytes, ThreeBytes, FourDigits;
    FitSmall(Symbols(s, Base64Standard), Base64Standard);
    SymbolsDecoded(Symbols(s, Base64Standard), n, k);
  }
}
