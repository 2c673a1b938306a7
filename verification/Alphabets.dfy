/** The alphabets of section 4 to 7 of RFC 4648, and one without characters that look alike. */
module Alphabets {
  import opened Options

  type Byte = x: int | 0 <= x < 256

  datatype Alphabet = Base64Standard | Base64Url | Base32Standard | Base32Hex | Base32LocaleSafe

  function Radix(alphabet: Alphabet): nat {
    if alphabet.Base64Standard? || alphabet.Base64Url? then 64 else 32
  }

  /** What a character stands for when decoding. */
  datatype Symbol = Digit(value: nat) | Pad | Blank | Bad

  predicate Fits(x: Symbol, alphabet: Alphabet) {
    x != Blank && (x.Digit? ==> x.value < Radix(alphabet))
  }

  predicate AllFit(symbols: seq<Symbol>, alphabet: Alphabet) {
    forall x | x in symbols :: Fits(x, alphabet)
  }

  predicate Proper(digits: seq<nat>, alphabet: Alphabet) {
    forall i | 0 <= i < |digits| :: digits[i] < Radix(alphabet)
  }

  // ----- Characters

  function Char(digit: nat, alphabet: Alphabet): (c: char)
    requires digit < Radix(alphabet)
    ensures Meaning(c, alphabet) == Digit(digit)
  {
    match alphabet
    case Base32Standard => if digit < 26 then ('A' as int + digit) as char else ('2' as int + digit - 26) as char
    case Base32Hex => if digit < 10 then ('0' as int + digit) as char else ('A' as int + digit - 10) as char
    case Base32LocaleSafe =>
      if digit < 9 then ('1' as int + digit) as char
      else if digit < 17 then ('A' as int + digit - 9) as char
      else if digit < 19 then ('J' as int + digit - 17) as char
      else if digit < 21 then ('M' as int + digit - 19) as char
      else ('P' as int + digit - 21) as char
    case _ =>
      if digit < 26 then ('A' as int + digit) as char
      else if digit < 52 then ('a' as int + digit - 26) as char
      else if digit < 62 then ('0' as int + digit - 52) as char
      else if digit == 62 then (if alphabet.Base64Url? then '-' else '+')
      else if alphabet.Base64Url? then '_' else '/'
  }

  const FORM_FEED := '\U{000C}'

  function Upper(c: char): char {
    if 'a' <= c <= 'z' then (c as int - 'a' as int + 'A' as int) as char else c
  }

  /**
   * The decoding tables. Decoding Base64 takes both alphabets. Decoding Base32
   * takes small letters too, 0 and 1 for A in the standard alphabet, and a colon
   * in the last one.
   */
  function Meaning(c: char, alphabet: Alphabet): (r: Symbol)
    ensures r == Blank || Fits(r, alphabet)
  {
    var u := Upper(c);
    if c == '=' then Pad
    else if c == ' ' || c == '\t' || c == '\n' || c == '\r' || c == FORM_FEED then Blank
    else
      match alphabet
      case Base32Standard =>
        if 'A' <= u <= 'Z' then Digit(u as int - 'A' as int)
        else if '2' <= c <= '7' then Digit(c as int - '2' as int + 26)
        else if c == '0' || c == '1' then Digit(0)
        else Bad
      case Base32Hex =>
        if '0' <= c <= '9' then Digit(c as int - '0' as int)
        else if 'A' <= u <= 'V' then Digit(u as int - 'A' as int + 10)
        else Bad
      case Base32LocaleSafe =>
        if '1' <= c <= ':' then Digit(c as int - '1' as int)
        else if 'A' <= u <= 'H' then Digit(u as int - 'A' as int + 9)
        else if 'J' <= u <= 'K' then Digit(u as int - 'J' as int + 17)
        else if 'M' <= u <= 'N' then Digit(u as int - 'M' as int + 19)
        else if 'P' <= u <= 'Z' then Digit(u as int - 'P' as int + 21)
        else Bad
      case _ =>
        if 'A' <= c <= 'Z' then Digit(c as int - 'A' as int)
        else if 'a' <= c <= 'z' then Digit(c as int - 'a' as int + 26)
        else if '0' <= c <= '9' then Digit(c as int - '0' as int + 52)
        else if c == '+' || c == '-' then Digit(62)
        else if c == '/' || c == '_' then Digit(63)
        else Bad
  }

  // ----- Texts

  function Text(digits: seq<nat>, alphabet: Alphabet): string
    requires Proper(digits, alphabet)
  {
    if digits == [] then "" else [Char(digits[0], alphabet)] + Text(digits[1..], alphabet)
  }

  function Padding(n: nat): string {
    if n == 0 then "" else "=" + Padding(n - 1)
  }

  /** The symbols of a text, without blanks. */
  function Symbols(s: string, alphabet: Alphabet): (r: seq<Symbol>)
    ensures AllFit(r, alphabet)
  {
    if s == "" then []
    else if Meaning(s[0], alphabet) == Blank then Symbols(s[1..], alphabet)
    else [Meaning(s[0], alphabet)] + Symbols(s[1..], alphabet)
  }

  function AsSymbols(digits: seq<nat>): (r: seq<Symbol>)
    ensures |r| == |digits| && forall i | 0 <= i < |r| :: r[i] == Digit(digits[i])
  {
    seq(|digits|, i requires 0 <= i < |digits| => Digit(digits[i]))
  }

  function Pads(n: nat): (r: seq<Symbol>)
    ensures |r| == n && forall i | 0 <= i < n :: r[i] == Pad
  {
    seq(n, i => Pad)
  }

  lemma {:induction false} SymbolsConcat(a: string, b: string, alphabet: Alphabet)
    ensures Symbols(a + b, alphabet) == Symbols(a, alphabet) + Symbols(b, alphabet)
  {
    if a == "" {
      assert a + b == b && Symbols(a, alphabet) + Symbols(b, alphabet) == Symbols(b, alphabet);
    } else {
      hide Meaning;
      assert (a + b)[1..] == a[1..] + b;
      SymbolsConcat(a[1..], b, alphabet);
    }
  }

  lemma {:induction false} TextSymbols(digits: seq<nat>, alphabet: Alphabet)
    requires Proper(digits, alphabet)
    ensures Symbols(Text(digits, alphabet), alphabet) == AsSymbols(digits)
  {
    if digits != [] {
      hide Meaning, Char, Fits, Radix;
      assert Text(digits, alphabet)[1..] == Text(digits[1..], alphabet);
      TextSymbols(digits[1..], alphabet);
      assert AsSymbols(digits) == [Digit(digits[0])] + AsSymbols(digits[1..]);
    }
  }

  lemma {:induction false} PaddingSymbols(n: nat, alphabet: Alphabet)
    ensures Symbols(Padding(n), alphabet) == Pads(n)
  {
    if n > 0 {
      assert Padding(n)[1..] == Padding(n - 1);
      PaddingSymbols(n - 1, alphabet);
      assert Pads(n) == [Pad] + Pads(n - 1);
    }
  }

  lemma {:induction false} TextConcat(a: seq<nat>, b: seq<nat>, alphabet: Alphabet)
    requires Proper(a, alphabet) && Proper(b, alphabet)
    ensures Proper(a + b, alphabet) && Text(a + b, alphabet) == Text(a, alphabet) + Text(b, alphabet)
  {
    hide Char, Radix;
    if a == [] {
      assert a + b == b;
    } else {
      assert (a + b)[1..] == a[1..] + b;
      TextConcat(a[1..], b, alphabet);
    }
  }

  /** Spaces, tabs, line breaks and form feeds are skipped wherever they are. */
  lemma BlankSkipped(a: string, c: char, b: string, alphabet: Alphabet)
    requires c == ' ' || c == '\t' || c == '\n' || c == '\r' || c == FORM_FEED
    ensures Symbols(a + [c] + b, alphabet) == Symbols(a + b, alphabet)
  {
    assert [c][1..] == "" && Symbols([c], alphabet) == [];
    hide Meaning;
    SymbolsConcat(a + [c], b, alphabet);
    SymbolsConcat(a, [c], alphabet);
    SymbolsConcat(a, b, alphabet);
  }

  // ----- Reading

  lemma SymbolsTrim(s: string, n: nat, alphabet: Alphabet)
    requires n <= |s| && forall i | n <= i < |s| :: Meaning(s[i], alphabet) == Blank
    ensures Symbols(s[..n], alphabet) == Symbols(s, alphabet)
  {
    SymbolsConcat(s[..n], s[n..], alphabet);
    assert s == s[..n] + s[n..];
    AllBlank(s[n..], alphabet);
  }

  lemma {:induction false} AllBlank(s: string, alphabet: Alphabet)
    requires forall i | 0 <= i < |s| :: Meaning(s[i], alphabet) == Blank
    ensures Symbols(s, alphabet) == []
  {
    if s != "" {
      AllBlank(s[1..], alphabet);
    }
  }

  lemma {:induction false} EndsInSymbol(s: string, alphabet: Alphabet)
    requires s != "" && Meaning(s[|s| - 1], alphabet) != Blank
    ensures Symbols(s, alphabet) != []
  {
    hide Meaning;
    if |s| > 1 {
      EndsInSymbol(s[1..], alphabet);
    }
  }

  /** A text up to its last symbol: there are symbols left exactly if there are characters left. */
  predicate Trimmed(s: string, len: nat, alphabet: Alphabet) {
    len <= |s| && (len > 0 ==> Meaning(s[len - 1], alphabet) != Blank)
  }

  /** The symbols from a position on. */
  function Rest(s: string, pos: nat, len: nat, alphabet: Alphabet): (r: seq<Symbol>)
    requires pos <= len <= |s|
    ensures AllFit(r, alphabet)
  {
    Symbols(s[pos..len], alphabet)
  }

  lemma RestEmpty(s: string, pos: nat, len: nat, alphabet: Alphabet)
    requires pos <= len && Trimmed(s, len, alphabet)
    ensures Rest(s, pos, len, alphabet) == [] <==> pos == len
  {
    if pos < len {
      EndsInSymbol(s[pos..len], alphabet);
    }
  }

  /** Blanks at the end are cut off. */
  method Trim(s: string, alphabet: Alphabet) returns (len: nat)
    ensures len <= |s| && Trimmed(s, len, alphabet) && Rest(s, 0, len, alphabet) == Symbols(s, alphabet)
  {
    hide Meaning;
    len := |s|;
    while len > 0 && Meaning(s[len - 1], alphabet) == Blank
      invariant len <= |s| && forall i | len <= i < |s| :: Meaning(s[i], alphabet) == Blank
    {
      len := len - 1;
    }
    SymbolsTrim(s, len, alphabet);
    assert s[0..len] == s[..len];
  }

  /** The next symbol before `len`, if there is one. */
  method NextSymbol(s: string, pos: nat, len: nat, alphabet: Alphabet) returns (x: Option<Symbol>, next: nat)
    requires pos <= len <= |s|
    ensures pos <= next <= len
    ensures x.None? ==> Rest(s, pos, len, alphabet) == [] && Rest(s, next, len, alphabet) == []
    ensures x.Some? ==> Fits(x.value, alphabet) && Rest(s, pos, len, alphabet) == [x.value] + Rest(s, next, len, alphabet)
  {
    hide Meaning;
    next := pos;
    while next < len
      invariant pos <= next <= len && Rest(s, next, len, alphabet) == Rest(s, pos, len, alphabet)
    {
      var c := Meaning(s[next], alphabet);
      assert s[next..len][0] == s[next] && s[next..len][1..] == s[next + 1..len];
      next := next + 1;
      if c != Blank {
        return Some(c), next;
      }
    }
    x := None;
  }

  // ----- Bytes

  /** Bytes, and those that follow them. */
  function Then(r: Option<seq<Byte>>, more: Option<seq<Byte>>): Option<seq<Byte>> {
    if r.None? || more.None? then None else Some(r.value + more.value)
  }

  lemma NothingThen(more: Option<seq<Byte>>)
    ensures Then(Some([]), more) == more
  {
    assert more.Some? ==> [] + more.value == more.value;
  }

  lemma ThenNothing(r: seq<Byte>)
    ensures Then(Some(r), Some([])) == Some(r)
  {
    assert r + [] == r;
  }

  lemma ThenThen(r: seq<Byte>, group: Option<seq<Byte>>, more: Option<seq<Byte>>)
    ensures Then(Some(r), Then(group, more)) == if group.None? then None else Then(Some(r + group.value), more)
  {
    if group.Some? && more.Some? {
      assert r + (group.value + more.value) == r + group.value + more.value;
    }
  }
}
