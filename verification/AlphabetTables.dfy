/** The alphabets as tables. */
module AlphabetTables {
  import opened Alphabets

  function Capitals(): (r: string)
    ensures |r| == 26 && forall i: nat | i < 26 :: r[i] as int == 'A' as int + i
  {
    "ABCDEFGHIJKLMNOPQRSTUVWXYZ"
  }

  function SmallLetters(): (r: string)
    ensures |r| == 26 && forall i: nat | i < 26 :: r[i] as int == 'a' as int + i
  {
    "abcdefghijklmnopqrstuvwxyz"
  }

  function Numerals(): (r: string)
    ensures |r| == 10 && forall i: nat | i < 10 :: r[i] as int == '0' as int + i
  {
    "0123456789"
  }

  /** The characters for the digits in order, as the tables of RFC 4648 list them. */
  function Letters(alphabet: Alphabet): (r: string)
    ensures |r| == Radix(alphabet)
  {
    match alphabet
    case Base64Standard => Capitals() + SmallLetters() + Numerals() + "+/"
    case Base64Url => Capitals() + SmallLetters() + Numerals() + "-_"
    case Base32Standard => Capitals() + "234567"
    case Base32Hex => Numerals() + Capitals()[..22]
    case Base32LocaleSafe => Numerals()[1..] + Capitals()[..8] + "JK" + "MN" + Capitals()[15..]
  }

  /** Every digit is written as its character. */
  lemma CharExactly(digit: nat, alphabet: Alphabet)
    requires digit < Radix(alphabet)
    ensures Char(digit, alphabet) == Letters(alphabet)[digit]
  {
    if Radix(alphabet) == 64 {
      Char64(digit, alphabet);
    } else {
      Char32(digit, alphabet);
    }
  }

  lemma Char64(digit: nat, alphabet: Alphabet)
    requires digit < Radix(alphabet) == 64
    ensures Char(digit, alphabet) == Letters(alphabet)[digit]
  {
    hide Capitals, SmallLetters, Numerals;
  }

  lemma Char32(digit: nat, alphabet: Alphabet)
    requires digit < Radix(alphabet) == 32
    ensures Char(digit, alphabet) == Letters(alphabet)[digit]
  {
    hide Capitals, SmallLetters, Numerals;
  }

  /** The character of an alphabet that a character is taken for. */
  function TakenFor(c: char, alphabet: Alphabet): char {
    match alphabet
    case Base64Standard => if c == '-' then '+' else if c == '_' then '/' else c
    case Base64Url => if c == '+' then '-' else if c == '/' then '_' else c
    case Base32Standard => if c == '0' || c == '1' then 'A' else Upper(c)
    case Base32Hex => Upper(c)
    case Base32LocaleSafe => if c == ':' then 'A' else Upper(c)
  }

  /** A character is read as a digit exactly if it is taken for that digit's character. */
  lemma MeaningExactly(c: char, alphabet: Alphabet, digit: nat)
    ensures Meaning(c, alphabet) == Digit(digit)
            <==> digit < Radix(alphabet) && Letters(alphabet)[digit] == TakenFor(c, alphabet)
  {
    hide Meaning, Letters, Char, TakenFor;
    if digit < Radix(alphabet) {
      CharExactly(digit, alphabet);
      if Radix(alphabet) == 64 {
        Meaning64(c, alphabet, digit);
      } else if alphabet.Base32LocaleSafe? {
        MeaningLocaleSafe(c, digit);
      } else {
        Meaning32(c, alphabet, digit);
      }
    }
  }

  lemma Meaning64(c: char, alphabet: Alphabet, digit: nat)
    requires digit < Radix(alphabet) == 64
    ensures Meaning(c, alphabet) == Digit(digit) <==> Char(digit, alphabet) == TakenFor(c, alphabet)
  {
  }

  lemma Meaning32(c: char, alphabet: Alphabet, digit: nat)
    requires digit < Radix(alphabet) == 32 && !alphabet.Base32LocaleSafe?
    ensures Meaning(c, alphabet) == Digit(digit) <==> Char(digit, alphabet) == TakenFor(c, alphabet)
  {
  }

  lemma MeaningLocaleSafe(c: char, digit: nat)
    requires digit < 32
    ensures Meaning(c, Base32LocaleSafe) == Digit(digit) <==> Char(digit, Base32LocaleSafe) == TakenFor(c, Base32LocaleSafe)
  {
  }

  // ----- Texts

  lemma {:induction false} TextAt(digits: seq<nat>, alphabet: Alphabet, i: nat)
    requires Proper(digits, alphabet) && i < |digits|
    ensures |Text(digits, alphabet)| == |digits| && Text(digits, alphabet)[i] == Letters(alphabet)[digits[i]]
  {
    hide Char, Letters, Radix;
    if i == 0 {
      CharExactly(digits[0], alphabet);
      if |digits| > 1 { TextAt(digits[1..], alphabet, 0); }
    } else {
      TextAt(digits[1..], alphabet, i - 1);
    }
  }

  lemma {:induction false} PaddingAt(n: nat)
    ensures |Padding(n)| == n && forall i | 0 <= i < n :: Padding(n)[i] == '='
  {
    if n > 0 {
      PaddingAt(n - 1);
    }
  }

  /** A text is the characters of its digits in order, and then nothing but padding. */
  lemma TextExactly(digits: seq<nat>, alphabet: Alphabet, pads: nat)
    requires Proper(digits, alphabet)
    ensures var s := Text(digits, alphabet) + Padding(pads);
            && |s| == |digits| + pads
            && (forall i | 0 <= i < |digits| :: s[i] == Letters(alphabet)[digits[i]])
            && (forall i | |digits| <= i < |s| :: s[i] == '=')
  {
    hide Letters, Text, Padding;
    PaddingAt(pads);
    if digits != [] { TextAt(digits, alphabet, 0); } else { assert Text(digits, alphabet) == "" by { TextOfNothing(alphabet); } }
    forall i: nat | i < |digits|
      ensures |Text(digits, alphabet)| == |digits| && Text(digits, alphabet)[i] == Letters(alphabet)[digits[i]]
    {
      TextAt(digits, alphabet, i);
    }
  }

  lemma TextOfNothing(alphabet: Alphabet)
    ensures Text([], alphabet) == ""
  {
  }

  /** A text without blanks is read character by character. */
  lemma {:induction false} ReadInOrder(s: string, alphabet: Alphabet)
    requires forall c | c in s :: c != ' ' && c != '\t' && c != '\n' && c != '\r' && c != FORM_FEED
    ensures |Symbols(s, alphabet)| == |s| && forall i | 0 <= i < |s| :: Symbols(s, alphabet)[i] == Meaning(s[i], alphabet)
  {
    if s != "" {
      assert s[0] in s;
      NotBlank(s[0], alphabet);
      hide Meaning;
      forall c | c in s[1..] ensures c in s {}
      ReadInOrder(s[1..], alphabet);
    }
  }

  lemma NotBlank(c: char, alphabet: Alphabet)
    requires c != ' ' && c != '\t' && c != '\n' && c != '\r' && c != FORM_FEED
    ensures Meaning(c, alphabet) != Blank && (Meaning(c, alphabet) == Pad <==> c == '=')
  {
  }

  // ----- Numbers

  /** A place of a sequence, zero behind its end. */
  function Place(s: seq<nat>, i: nat): nat {
    if i < |s| then s[i] else 0
  }

  /** Places move with what is put in front. */
  lemma Moved(front: seq<nat>, s: seq<nat>, i: nat)
    ensures Place(front + s, |front| + i) == Place(s, i)
  {
  }

  function Values(symbols: seq<Symbol>): (r: seq<nat>)
    ensures |r| == |symbols| && forall i | 0 <= i < |r| :: r[i] == if symbols[i].Digit? then symbols[i].value else 0
  {
    seq(|symbols|, i requires 0 <= i < |symbols| => if symbols[i].Digit? then symbols[i].value else 0)
  }
}
