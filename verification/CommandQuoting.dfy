/** Command lines: quoting a command with its arguments, and taking it apart again. */
module CommandQuoting {
  import opened Options

  predicate IsBlank(c: char) { c == ' ' || c == '\t' || c == '\r' || c == '\n' }

  /** Blanks that do not make an argument quoted. */
  predicate IsBreak(c: char) { c == '\r' || c == '\n' }

  predicate IsSpecial(c: char) { c == ' ' || c == '\t' || c == '"' || c == '\'' }

  predicate NeedsQuotes(arg: string) {
    arg == "" || exists i | 0 <= i < |arg| :: IsSpecial(arg[i])
  }

  predicate HasBreak(arg: string) {
    exists i | 0 <= i < |arg| :: IsBreak(arg[i])
  }

  // ----- Quoting

  function Doubled(arg: string): string {
    if arg == "" then "" else (if arg[0] == '"' then "\"\"" else [arg[0]]) + Doubled(arg[1..])
  }

  function Quoted(arg: string): (r: string)
    ensures r != ""
  {
    if NeedsQuotes(arg) then "\"" + Doubled(arg) + "\"" else arg
  }

  function QuotedAll(args: seq<string>): string {
    if args == [] then "" else Quoted(args[0]) + Tail(args[1..])
  }

  /** The rest of a command line, after an argument. */
  function Tail(args: seq<string>): string
    decreases |args|, 0
  {
    if args == [] then "" else " " + Quoted(args[0]) + Tail(args[1..])
  }

  method ReplaceQuotes(arg: string) returns (r: string)
    ensures r == Doubled(arg)
  {
    r := "";
    for i := 0 to |arg|
      invariant r + Doubled(arg[i..]) == Doubled(arg)
    {
      assert arg[i..][1..] == arg[i + 1..];
      r := r + if arg[i] == '"' then "\"\"" else [arg[i]];
    }
  }

  method QuoteOne(arg: string) returns (r: string)
    ensures r == Quoted(arg)
  {
    if NeedsQuotes(arg) {
      var doubled := ReplaceQuotes(arg);
      return "\"" + doubled + "\"";
    }
    return arg;
  }

  /** `QuoteCommand`. */
  method QuoteCommand(args: seq<string>) returns (r: string)
    ensures r == QuotedAll(args)
  {
    hide Quoted;
    r := "";
    for i := 0 to |args|
      invariant i == 0 <==> r == ""
      invariant i > 0 ==> r + Tail(args[i..]) == QuotedAll(args)
    {
      assert args[i..][1..] == args[i + 1..];
      ghost var before := r;
      if r != "" {
        r := r + " ";
      }
      var quoted := QuoteOne(args[i]);
      r := r + quoted;
      if i > 0 {
        assert before + (" " + quoted + Tail(args[i + 1..])) == before + " " + quoted + Tail(args[i + 1..]);
      }
    }
  }

  // ----- Taking apart

  function Word(acc: Option<string>): string {
    if acc.None? then "" else acc.value
  }

  /** Where the scan of one word ends: the word, the rest of the line, and whether a quote is open. */
  datatype Scan = Scan(word: Option<string>, rest: string, quoted: bool)

  /** The first loop of `UnquoteFirst`. */
  function ScanWord(s: string, quoted: bool, acc: Option<string>): (r: Scan)
    ensures |r.rest| <= |s| && (acc.None? && r.word.Some? ==> |r.rest| < |s|)
  {
    if s == "" then Scan(acc, s, quoted)
    else if IsBlank(s[0]) && !quoted then
      if acc.Some? then Scan(acc, s, quoted) else ScanWord(s[1..], quoted, acc)
    else if s[0] == '"' then
      if !quoted then ScanWord(s[1..], true, Some(Word(acc)))
      else if |s| > 1 && s[1] == '"' then ScanWord(s[2..], true, Some(Word(acc) + "\""))
      else ScanWord(s[1..], false, Some(Word(acc)))
    else ScanWord(s[1..], quoted, Some(Word(acc) + [s[0]]))
  }

  function SkipBlanks(s: string): (r: string)
    ensures |r| <= |s|
  {
    if s != "" && IsBlank(s[0]) then SkipBlanks(s[1..]) else s
  }

  /** `UnquoteFirst`: the first word, if there is one, and the rest of the line. */
  function First(s: string): (r: (Option<string>, string))
    ensures r.0.Some? ==> |r.1| < |s|
  {
    var scan := ScanWord(s, false, None);
    if scan.quoted || scan.word.None? then (None, s) else (scan.word, SkipBlanks(scan.rest))
  }

  /** All words of a line, unless the last is not closed. */
  function Words(s: string): Option<seq<string>>
    decreases |s|
  {
    if s == "" then Some([])
    else
      var (word, rest) := First(s);
      if word.None? then None
      else Prepend(word.value, Words(rest))
  }

  function Prepend(word: string, words: Option<seq<string>>): Option<seq<string>> {
    if words.None? then None else Some([word] + words.value)
  }

  function Appended(words: seq<string>, more: Option<seq<string>>): Option<seq<string>> {
    if more.None? then None else Some(words + more.value)
  }

  /** A command has to have a name. */
  function Command(words: Option<seq<string>>): seq<string> {
    if words.None? || (words.value != [] && words.value[0] == "") then [] else words.value
  }

  method UnquoteFirst(s: string) returns (word: Option<string>, rest: string)
    ensures (word, rest) == First(s)
  {
    var quoted, i := false, 0;
    word := None;
    while i < |s|
      invariant 0 <= i <= |s|
      invariant ScanWord(s[i..], quoted, word) == ScanWord(s, false, None)
    {
      var c := s[i];
      assert s[i..][0] == c && s[i..][1..] == s[i + 1..];
      if IsBlank(c) && !quoted {
        if word.Some? {
          break;
        }
      } else {
        if word.None? {
          word := Some("");
        }
        if c == '"' {
          if !quoted {
            quoted := true;
          } else if i + 1 != |s| && s[i + 1] == '"' {
            assert s[i..][1] == s[i + 1] && s[i..][2..] == s[i + 2..];
            word := Some(word.value + "\"");
            i := i + 1;
          } else {
            quoted := false;
          }
        } else {
          word := Some(word.value + [c]);
        }
      }
      i := i + 1;
    }
    assert ScanWord(s, false, None) == Scan(word, s[i..], quoted);
    rest := s;
    if quoted {
      word := None;
    }
    if word.Some? {
      ghost var stop := i;
      while i < |s|
        invariant stop <= i <= |s| && SkipBlanks(s[i..]) == SkipBlanks(s[stop..])
      {
        assert s[i..][0] == s[i] && s[i..][1..] == s[i + 1..];
        if !IsBlank(s[i]) {
          break;
        }
        i := i + 1;
      }
      rest := s[i..];
    }
  }

  /** `UnquoteCommand`. */
  method UnquoteCommand(s: string) returns (words: seq<string>)
    ensures words == Command(Words(s))
  {
    words := [];
    var rest := s;
    assert Words(s).Some? ==> [] + Words(s).value == Words(s).value;
    while rest != ""
      invariant Words(s) == Appended(words, Words(rest))
      decreases |rest|
    {
      var word, next := UnquoteFirst(rest);
      if word.Some? && Words(next).Some? {
        assert words + ([word.value] + Words(next).value) == (words + [word.value]) + Words(next).value;
      }
      rest := next;
      if word.None? {
        break;
      }
      words := words + [word.value];
    }
    if rest != "" {
      words := [];
    }
    if words != [] && words[0] == "" {
      words := [];
    }
  }

  // ----- Words, character by character

  /** The words of a line, without stopping between them. */
  function Tokens(s: string, quoted: bool, acc: Option<string>): Option<seq<string>> {
    if s == "" then
      if quoted then None else Some(if acc.Some? then [acc.value] else [])
    else if IsBlank(s[0]) && !quoted then
      if acc.Some? then Prepend(acc.value, Tokens(s[1..], false, None)) else Tokens(s[1..], false, None)
    else if s[0] == '"' then
      if !quoted then Tokens(s[1..], true, Some(Word(acc)))
      else if |s| > 1 && s[1] == '"' then Tokens(s[2..], true, Some(Word(acc) + "\""))
      else Tokens(s[1..], false, Some(Word(acc)))
    else Tokens(s[1..], quoted, Some(Word(acc) + [s[0]]))
  }

  lemma {:induction false} ScanTokens(s: string, quoted: bool, acc: Option<string>)
    ensures var scan := ScanWord(s, quoted, acc);
            Tokens(s, quoted, acc) ==
            if scan.quoted then None else if scan.word.None? then Some([]) else Prepend(scan.word.value, Tokens(scan.rest, false, None))
  {
    if s == "" {
      assert acc.Some? ==> [acc.value] + [] == [acc.value];
    } else if IsBlank(s[0]) && !quoted {
      if acc.None? {
        ScanTokens(s[1..], quoted, acc);
      }
    } else if s[0] == '"' {
      if !quoted {
        ScanTokens(s[1..], true, Some(Word(acc)));
      } else if |s| > 1 && s[1] == '"' {
        ScanTokens(s[2..], true, Some(Word(acc) + "\""));
      } else {
        ScanTokens(s[1..], false, Some(Word(acc)));
      }
    } else {
      ScanTokens(s[1..], quoted, Some(Word(acc) + [s[0]]));
    }
  }

  lemma {:induction false} SkipTokens(s: string)
    ensures Tokens(SkipBlanks(s), false, None) == Tokens(s, false, None)
    ensures SkipBlanks(s) != "" ==> !IsBlank(SkipBlanks(s)[0])
  {
    if s != "" && IsBlank(s[0]) {
      SkipTokens(s[1..]);
    }
  }

  lemma {:induction false} NoWord(s: string, quoted: bool, acc: Option<string>)
    requires ScanWord(s, quoted, acc).word.None?
    ensures forall i | 0 <= i < |s| :: IsBlank(s[i])
    ensures acc.None?
  {
    if s == "" {
    } else if IsBlank(s[0]) && !quoted {
      if acc.None? {
        NoWord(s[1..], quoted, acc);
      }
    } else if s[0] == '"' {
      if !quoted {
        NoWord(s[1..], true, Some(Word(acc)));
      } else if |s| > 1 && s[1] == '"' {
        NoWord(s[2..], true, Some(Word(acc) + "\""));
      } else {
        NoWord(s[1..], false, Some(Word(acc)));
      }
    } else {
      NoWord(s[1..], quoted, Some(Word(acc) + [s[0]]));
    }
  }

  /** Taking a line apart word by word or at once is the same, but for lines of blanks alone. */
  lemma {:induction false} WordsTokens(s: string)
    ensures s == "" || !IsBlank(s[0]) ==> Words(s) == Tokens(s, false, None)
    ensures Command(Words(s)) == Command(Tokens(s, false, None))
    decreases |s|
  {
    if s != "" {
      var scan := ScanWord(s, false, None);
      ScanTokens(s, false, None);
      if scan.word.None? {
        NoWord(s, false, None);
      } else if !scan.quoted {
        SkipTokens(scan.rest);
        WordsTokens(SkipBlanks(scan.rest));
      }
    }
  }

  // ----- The round trip

  /** The pieces that breaks cut an argument into, with what was read before it. */
  function Pieces(arg: string, acc: Option<string>): seq<string> {
    if arg == "" then if acc.Some? then [acc.value] else []
    else if IsBlank(arg[0]) then (if acc.Some? then [acc.value] else []) + Pieces(arg[1..], None)
    else Pieces(arg[1..], Some(Word(acc) + [arg[0]]))
  }

  /** What quoting and taking apart makes of arguments: those that are not quoted are cut at breaks. */
  function AllPieces(args: seq<string>): seq<string> {
    if args == [] then []
    else (if NeedsQuotes(args[0]) then [args[0]] else Pieces(args[0], None)) + AllPieces(args[1..])
  }

  /** Arguments inside quotes come back as they were. */
  lemma {:induction false} QuotedTokens(arg: string, tail: string, acc: string)
    requires tail == "" || tail[0] != '"'
    ensures Tokens(Doubled(arg) + "\"" + tail, true, Some(acc)) == Tokens(tail, false, Some(acc + arg))
  {
    var s := Doubled(arg) + "\"" + tail;
    if arg == "" {
      assert s == "\"" + tail && s[1..] == tail && acc + arg == acc;
    } else if arg[0] == '"' {
      assert s == "\"\"" + (Doubled(arg[1..]) + "\"" + tail);
      assert s[2..] == Doubled(arg[1..]) + "\"" + tail;
      QuotedTokens(arg[1..], tail, acc + "\"");
      assert acc + "\"" + arg[1..] == acc + arg;
    } else {
      assert s == [arg[0]] + (Doubled(arg[1..]) + "\"" + tail);
      assert s[1..] == Doubled(arg[1..]) + "\"" + tail;
      QuotedTokens(arg[1..], tail, acc + [arg[0]]);
      assert acc + [arg[0]] + arg[1..] == acc + arg;
    }
  }

  /** Arguments without quotes are cut at breaks. */
  lemma {:induction false} PlainTokens(arg: string, tail: string, acc: Option<string>)
    requires forall i | 0 <= i < |arg| :: !IsSpecial(arg[i])
    requires tail == "" || tail[0] == ' '
    ensures Tokens(arg + tail, false, acc) == Appended(Pieces(arg, acc), Tokens(tail, false, None))
  {
    if arg == "" {
      assert arg + tail == tail;
      TailTokens(tail, acc);
    } else {
      assert (arg + tail)[1..] == arg[1..] + tail;
      if IsBlank(arg[0]) {
        PlainTokens(arg[1..], tail, None);
        if acc.Some? && Tokens(tail, false, None).Some? {
          assert [acc.value] + (Pieces(arg[1..], None) + Tokens(tail, false, None).value)
              == [acc.value] + Pieces(arg[1..], None) + Tokens(tail, false, None).value;
        }
        assert acc.None? ==> [] + Pieces(arg[1..], None) == Pieces(arg[1..], None);
      } else {
        PlainTokens(arg[1..], tail, Some(Word(acc) + [arg[0]]));
      }
    }
  }

  /** A word ends where the tail of the line begins. */
  lemma TailTokens(tail: string, acc: Option<string>)
    requires tail == "" || tail[0] == ' '
    ensures Tokens(tail, false, acc) == Appended(Pieces("", acc), Tokens(tail, false, None))
  {
    var more := Tokens(tail, false, None);
    if more.Some? {
      assert [] + more.value == more.value;
    }
    if tail == "" {
      assert more == Some([]);
      assert acc.Some? ==> [acc.value] + [] == [acc.value];
    }
  }

  lemma BlankFirst(s: string)
    ensures Tokens(" " + s, false, None) == Tokens(s, false, None)
  {
    assert (" " + s)[1..] == s;
  }

  lemma {:induction false} TailPieces(args: seq<string>)
    ensures Tokens(Tail(args), false, None) == Some(AllPieces(args))
    ensures Tail(args) == "" || Tail(args)[0] == ' '
    decreases |args|, 1
  {
    if args != [] {
      ArgPieces(args);
      var s := Quoted(args[0]) + Tail(args[1..]);
      hide Quoted, AllPieces;
      assert Tail(args) == " " + s;
      hide Tail;
      BlankFirst(s);
      hide Tokens;
    }
  }

  lemma QuoteFirst(arg: string, tail: string)
    requires tail == "" || tail[0] == ' '
    ensures Tokens("\"" + Doubled(arg) + "\"" + tail, false, None) == Tokens(tail, false, Some(arg))
  {
    var s := "\"" + Doubled(arg) + "\"" + tail;
    assert s[1..] == Doubled(arg) + "\"" + tail;
    QuotedTokens(arg, tail, "");
    assert "" + arg == arg;
  }

  lemma {:induction false} ArgPieces(args: seq<string>)
    requires args != []
    ensures Tokens(Quoted(args[0]) + Tail(args[1..]), false, None) == Some(AllPieces(args))
    decreases |args|, 0
  {
    var arg, tail := args[0], Tail(args[1..]);
    TailPieces(args[1..]);
    hide Tail;
    if NeedsQuotes(arg) {
      hide NeedsQuotes;
      QuoteFirst(arg, tail);
      hide Tokens;
      TailTokens(tail, Some(arg));
    } else {
      PlainTokens(arg, tail, None);
    }
  }

  /** For all arguments: what comes back. */
  lemma Returned(args: seq<string>)
    ensures Command(Words(QuotedAll(args))) == Command(Some(AllPieces(args)))
  {
    WordsTokens(QuotedAll(args));
    if args != [] {
      ArgPieces(args);
    }
  }

  /** An argument that would have to be quoted but is not. */
  predicate Broken(arg: string) {
    HasBreak(arg) && !NeedsQuotes(arg)
  }

  function Breaks(words: seq<string>): nat {
    if words == [] then 0 else (if HasBreak(words[0]) then 1 else 0) + Breaks(words[1..])
  }

  lemma {:induction false} BreaksConcat(a: seq<string>, b: seq<string>)
    ensures Breaks(a + b) == Breaks(a) + Breaks(b)
  {
    if a == [] {
      assert a + b == b;
    } else {
      assert (a + b)[1..] == a[1..] + b;
      BreaksConcat(a[1..], b);
    }
  }

  lemma {:induction false} PiecesWhole(arg: string, acc: Option<string>)
    requires !HasBreak(arg) && forall i | 0 <= i < |arg| :: !IsSpecial(arg[i])
    ensures arg != "" || acc.Some? ==> Pieces(arg, acc) == [Word(acc) + arg]
  {
    if arg == "" {
      assert Word(acc) + arg == Word(acc);
    } else {
      assert !IsSpecial(arg[0]) && !IsBreak(arg[0]);
      assert !HasBreak(arg[1..]) by {
        forall i | 0 <= i < |arg[1..]| ensures !IsBreak(arg[1..][i]) {
          assert arg[1..][i] == arg[i + 1];
        }
      }
      PiecesWhole(arg[1..], Some(Word(acc) + [arg[0]]));
      assert Word(acc) + [arg[0]] + arg[1..] == Word(acc) + arg;
    }
  }

  lemma {:induction false} PiecesUnbroken(arg: string, acc: Option<string>)
    requires acc.Some? ==> !HasBreak(acc.value)
    ensures Breaks(Pieces(arg, acc)) == 0
  {
    assert acc.Some? ==> Breaks([acc.value]) == 0;
    if arg == "" {
    } else if IsBlank(arg[0]) {
      PiecesUnbroken(arg[1..], None);
      BreaksConcat(if acc.Some? then [acc.value] else [], Pieces(arg[1..], None));
    } else {
      assert !HasBreak(Word(acc) + [arg[0]]);
      PiecesUnbroken(arg[1..], Some(Word(acc) + [arg[0]]));
    }
  }

  /** Arguments come back as pieces as they were exactly if none is broken. */
  lemma {:induction false} PiecesSame(args: seq<string>)
    ensures (forall i | 0 <= i < |args| :: !Broken(args[i])) ==> AllPieces(args) == args
    ensures Breaks(AllPieces(args)) <= Breaks(args)
    ensures (exists i | 0 <= i < |args| :: Broken(args[i])) ==> Breaks(AllPieces(args)) < Breaks(args)
  {
    if args != [] {
      PiecesSame(args[1..]);
      var own := if NeedsQuotes(args[0]) then [args[0]] else Pieces(args[0], None);
      BreaksConcat(own, AllPieces(args[1..]));
      if !NeedsQuotes(args[0]) {
        PiecesUnbroken(args[0], None);
        if !HasBreak(args[0]) {
          PiecesWhole(args[0], None);
          assert "" + args[0] == args[0];
        }
      } else {
        assert Breaks([args[0]]) == if HasBreak(args[0]) then 1 else 0;
      }
      assert args == [args[0]] + args[1..];
      OneBroken(args);
    }
  }

  lemma OneBroken(args: seq<string>)
    requires args != []
    ensures (exists i | 0 <= i < |args| :: Broken(args[i])) <==> Broken(args[0]) || exists i | 0 <= i < |args[1..]| :: Broken(args[1..][i])
  {
    if i :| 0 <= i < |args| && Broken(args[i]) {
      if i > 0 {
        assert args[1..][i - 1] == args[i];
      }
    }
    if i :| 0 <= i < |args[1..]| && Broken(args[1..][i]) {
      assert args[i + 1] == args[1..][i];
    }
  }

  /** A command comes back as it was exactly if it has a name, and no argument with a line break goes without quotes. */
  lemma RoundTrip(args: seq<string>)
    ensures Command(Words(QuotedAll(args))) == args <==>
            args == [] || (args[0] != "" && forall i | 0 <= i < |args| :: !Broken(args[i]))
  {
    hide Words, QuotedAll, Broken;
    Returned(args);
    PiecesSame(args);
  }

  /** A line break in an argument that has no other reason for quotes is lost. */
  lemma LineBreakLost(args: seq<string>)
    requires args == ["a\nb"]
    ensures Command(Words(QuotedAll(args))) != args
  {
    assert IsBreak(args[0][1]);
    assert args[0] != "" && forall i | 0 <= i < |args[0]| :: !IsSpecial(args[0][i]);
    assert Broken(args[0]);
    hide Words, QuotedAll, Broken;
    RoundTrip(args);
  }
}
