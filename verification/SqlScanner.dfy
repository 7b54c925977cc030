/** The SQL text scanners: placeholder rewriting and statement splitting.

    Both skip single-quoted strings. The reference is quote parity: a character is outside a string
    exactly if an even number of quotes precede it, doubled quotes included. */
module SqlScanner {
  import opened Prelude

  const QUOTE: char := '\''

  function Quotes(s: string): nat {
    if s == "" then 0 else Quotes(Front(s)) + (if Last(s) == '\'' then 1 else 0)
  }

  /** The text ends inside a string: every quote crosses the border. */
  predicate Inside(s: string) {
    s != "" && Inside(Front(s)) != (Last(s) == QUOTE)
  }

  /** The scanners' flag is quote parity. */
  lemma {:induction false} InsideIsOdd(s: string)
    ensures Inside(s) <==> Quotes(s) % 2 == 1
  {
    if s != "" { InsideIsOdd(Front(s)); }
  }

  lemma InsideSnoc(s: string, x: char)
    ensures Inside(s + [x]) <==> Inside(s) != (x == QUOTE)
  {
    assert Front(s + [x]) == s;
  }

  lemma {:induction false} InsideConcat(a: string, b: string)
    ensures Inside(a + b) <==> Inside(a) != Inside(b)
  {
    if b == "" {
      assert a + b == a;
    } else {
      InsideConcat(a, Front(b));
      InsideSnoc(a + Front(b), Last(b));
      assert (a + Front(b)) + [Last(b)] == a + b;
    }
  }

  lemma {:induction false} QuotesConcat(a: string, b: string)
    ensures Quotes(a + b) == Quotes(a) + Quotes(b)
  {
    if b == "" {
      assert a + b == a;
    } else {
      assert Front(a + b) == a + Front(b);
      QuotesConcat(a, Front(b));
    }
  }

  lemma QuotesSnoc(s: string, x: char)
    ensures Quotes(s + [x]) == Quotes(s) + (if x == QUOTE then 1 else 0)
  {
    assert Front(s + [x]) == s;
  }

  lemma {:induction false} NoQuotes(s: string)
    requires QUOTE !in s
    ensures Quotes(s) == 0
  {
    if s != "" {
      assert Last(s) in s && forall c :: c in Front(s) ==> c in s;
      NoQuotes(Front(s));
    }
  }

  /** How often `c` occurs outside strings. */
  function Outside(s: string, c: char): nat {
    if s == "" then 0 else Outside(Front(s), c) + (if Last(s) == c && !Inside(Front(s)) then 1 else 0)
  }

  lemma {:induction false} OutsideConcat(a: string, b: string, c: char)
    requires !Inside(a)
    ensures Outside(a + b, c) == Outside(a, c) + Outside(b, c)
  {
    if b == "" {
      assert a + b == a;
    } else {
      OutsideConcat(a, Front(b), c);
      InsideConcat(a, Front(b));
      OutsideSnoc(a + Front(b), Last(b), c);
      assert (a + Front(b)) + [Last(b)] == a + b;
    }
  }

  lemma OutsideSnoc(s: string, x: char, c: char)
    ensures Outside(s + [x], c) == Outside(s, c) + (if x == c && !Inside(s) then 1 else 0)
  {
    assert Front(s + [x]) == s;
  }

  /** One step of either scanner: what the next one or two characters do to the quote state. */
  lemma ParityStep(s: string, i: nat)
    requires i < |s|
    ensures Inside(s[..i + 1]) <==> Inside(s[..i]) != (s[i] == QUOTE)
    ensures i + 1 < |s| && s[i] == QUOTE && s[i + 1] == QUOTE ==> (Inside(s[..i + 2]) <==> Inside(s[..i]))
  {
    InsideSnoc(s[..i], s[i]);
    assert s[..i + 1] == s[..i] + [s[i]];
    if i + 1 < |s| {
      InsideSnoc(s[..i + 1], s[i + 1]);
      assert s[..i + 2] == s[..i + 1] + [s[i + 1]];
    }
  }

  /** The pieces of a text between the occurrences of `c` outside strings. */
  function Pieces(s: string, c: char): (pieces: seq<string>)
    ensures pieces != []
  {
    if s == "" then [""]
    else
      var before := Pieces(Front(s), c);
      if Last(s) == c && !Inside(Front(s)) then before + [""]
      else Front(before) + [Last(before) + [Last(s)]]
  }

  lemma PiecesSnoc(s: string, x: char, c: char)
    ensures Pieces(s + [x], c)
         == if x == c && !Inside(s) then Pieces(s, c) + [""] else Front(Pieces(s, c)) + [Last(Pieces(s, c)) + [x]]
  {
    assert Front(s + [x]) == s;
  }

  /** The pieces, each followed by what comes between it and the next. */
  function Lead(pieces: seq<string>, between: nat -> string): string {
    if pieces == [] then "" else Lead(Front(pieces), between) + Last(pieces) + between(|pieces|)
  }

  /** The pieces with `between(k)` after the `k`-th but the last. */
  function Woven(pieces: seq<string>, between: nat -> string): string
    requires pieces != []
  {
    Lead(Front(pieces), between) + Last(pieces)
  }

  lemma WovenNew(pieces: seq<string>, between: nat -> string)
    requires pieces != []
    ensures Woven(pieces + [""], between) == Woven(pieces, between) + between(|pieces|)
  {
    assert Front(pieces + [""]) == pieces && Last(pieces + [""]) == "";
  }

  lemma WovenLonger(front: seq<string>, last: string, x: char, between: nat -> string)
    ensures Woven(front + [last + [x]], between) == Woven(front + [last], between) + [x]
  {
    assert Front(front + [last + [x]]) == front == Front(front + [last]);
    assert Lead(front, between) + (last + [x]) == (Lead(front, between) + last) + [x];
  }

  /** The pieces are the text: put together again with `c` between them they give it back. */
  lemma {:induction false} PiecesAreAll(s: string, c: char)
    ensures Woven(Pieces(s, c), _ => [c]) == s
  {
    if s != "" {
      PiecesAreAll(Front(s), c);
      var before := Pieces(Front(s), c);
      WovenNew(before, _ => [c]);
      WovenLonger(Front(before), Last(before), Last(s), _ => [c]);
      assert Front(before) + [Last(before)] == before;
      assert Front(s) + [Last(s)] == s;
    }
  }

  lemma {:induction false} PiecesCount(s: string, c: char)
    ensures |Pieces(s, c)| == Outside(s, c) + 1
  {
    if s != "" { PiecesCount(Front(s), c); }
  }

  // ----- placeholders -------------------------------------------------------------------------------

  function Digits(n: nat): string {
    if n < 10 then [('0' as int + n) as char] else Digits(n / 10) + [('0' as int + n % 10) as char]
  }

  lemma {:induction false} DigitsAreDigits(n: nat)
    ensures forall c :: c in Digits(n) ==> '0' <= c <= '9'
  {
    if n >= 10 { DigitsAreDigits(n / 10); }
  }

  /** The reference rewriting: each `?` outside strings becomes `$k`, where `k` is its number from the
      left, and every other character is copied. */
  function Dollar(s: string): string {
    if s == "" then ""
    else if Last(s) == '?' && !Inside(Front(s)) then Dollar(Front(s)) + "$" + Digits(Outside(s, '?'))
    else Dollar(Front(s)) + [Last(s)]
  }

  method QmarkToDollar(sql: string) returns (out: string)
    ensures out == Dollar(sql)
  {
    out := "";
    var n, inQuote, i := 0, false, 0;
    while i < |sql|
      invariant 0 <= i <= |sql|
      invariant out == Dollar(sql[..i]) && n == Outside(sql[..i], '?') && (inQuote <==> Inside(sql[..i]))
    {
      var ch := sql[i];
      ParityStep(sql, i);
      assert Front(sql[..i + 1]) == sql[..i];
      if ch == QUOTE {
        if inQuote && i + 1 < |sql| && sql[i + 1] == QUOTE {
          assert Front(sql[..i + 2]) == sql[..i + 1];
          out := out + [QUOTE, QUOTE];
          i := i + 2;
          continue;
        }
        inQuote := !inQuote;
        out := out + [ch];
      } else if ch == '?' && !inQuote {
        n := n + 1;
        out := out + "$" + Digits(n);
      } else {
        out := out + [ch];
      }
      i := i + 1;
    }
    assert sql[..|sql|] == sql;
  }

  lemma {:induction false} NoneOutside(s: string, c: char)
    requires c !in s
    ensures Outside(s, c) == 0
  {
    if s != "" {
      assert Last(s) in s && forall x :: x in Front(s) ==> x in s;
      NoneOutside(Front(s), c);
    }
  }

  lemma {:induction false} AppendPlain(a: string, b: string, c: char)
    requires c !in b
    ensures Outside(a + b, c) == Outside(a, c)
  {
    if b == "" {
      assert a + b == a;
    } else {
      assert Front(a + b) == a + Front(b);
      assert Last(b) in b && forall x :: x in Front(b) ==> x in b;
      AppendPlain(a, Front(b), c);
    }
  }

  /** Rewriting keeps every string where it was and leaves no placeholder behind. */
  lemma {:induction false} DollarClears(s: string)
    ensures Quotes(Dollar(s)) == Quotes(s)
    ensures Outside(Dollar(s), '?') == 0
  {
    if s != "" {
      DollarClears(Front(s));
      QuotesSnoc(Front(s), Last(s));
      assert Front(s) + [Last(s)] == s;
      if Last(s) == '?' && !Inside(Front(s)) {
        MarkClears(Dollar(Front(s)), Outside(s, '?'));
      } else {
        QuotesSnoc(Dollar(Front(s)), Last(s));
        OutsideSnoc(Dollar(Front(s)), Last(s), '?');
        InsideIsOdd(Front(s));
        InsideIsOdd(Dollar(Front(s)));
      }
    }
  }

  /** A numbered placeholder adds neither a quote nor a question mark. */
  lemma MarkClears(before: string, n: nat)
    ensures Quotes(before + "$" + Digits(n)) == Quotes(before)
    ensures Outside(before + "$" + Digits(n), '?') == Outside(before, '?')
  {
    var mark := "$" + Digits(n);
    DigitsAreDigits(n);
    assert before + "$" + Digits(n) == before + mark;
    QuotesConcat(before, mark);
    NoQuotes(mark);
    AppendPlain(before, mark, '?');
  }

  lemma {:induction false} NothingToRewrite(s: string)
    requires Outside(s, '?') == 0
    ensures Dollar(s) == s
  {
    if s != "" {
      NothingToRewrite(Front(s));
      assert s == Front(s) + [Last(s)];
    }
  }

  /** Rewriting twice is rewriting once. */
  lemma DollarIdempotent(s: string)
    ensures Dollar(Dollar(s)) == Dollar(s)
  {
    DollarClears(s);
    NothingToRewrite(Dollar(s));
  }

  /** The rewriting, read off the text: the pieces between the placeholders outside strings, with `$1`, `$2`
      and so on between them instead. */
  lemma {:induction false} DollarNumbers(s: string)
    ensures Dollar(s) == Woven(Pieces(s, '?'), (k: nat) => "$" + Digits(k))
  {
    if s != "" {
      DollarNumbers(Front(s));
      PiecesCount(Front(s), '?');
      var before, mark := Pieces(Front(s), '?'), (k: nat) => "$" + Digits(k);
      if Last(s) == '?' && !Inside(Front(s)) {
        WovenNew(before, mark);
        Associate(Dollar(Front(s)), "$", Digits(|before|));
      } else {
        WovenLonger(Front(before), Last(before), Last(s), mark);
        assert Front(before) + [Last(before)] == before;
      }
    }
  }

  lemma Associate(a: string, b: string, c: string)
    ensures a + b + c == a + (b + c)
  {
  }

  /** The number a string of digits spells. */
  function ValueOf(digits: string): int {
    if digits == "" then 0 else 10 * ValueOf(Front(digits)) + (Last(digits) as int - '0' as int)
  }

  /** Numbers are spelt in decimal, without leading zeros. */
  lemma {:induction false} DigitsSpell(n: nat)
    ensures ValueOf(Digits(n)) == n && Digits(n) != "" && (n > 0 ==> Digits(n)[0] != '0')
  {
    if n >= 10 {
      DigitsSpell(n / 10);
      assert Front(Digits(n)) == Digits(n / 10);
    } else {
      assert Front(Digits(n)) == "";
    }
  }

  // ----- statements ---------------------------------------------------------------------------------

  /** The reference cut for statements. */
  function Cut(s: string): (pieces: seq<string>)
    ensures pieces != []
  {
    Pieces(s, ';')
  }

  /** The stripped pieces that are not blank. */
  function Trimmed(pieces: seq<string>): seq<string> {
    if pieces == [] then []
    else Trimmed(Front(pieces)) + (if Strip(Last(pieces)) != "" then [Strip(Last(pieces))] else [])
  }

  function Statements(s: string): seq<string> { Trimmed(Cut(s)) }

  /** The statements are the pieces between the semicolons outside strings that are not blank, in order,
      with the whitespace around them taken off. */
  lemma {:induction false} TrimmedAre(pieces: seq<string>)
    ensures var kept := Filter(pieces, (p: string) => Strip(p) != "");
            |Trimmed(pieces)| == |kept| && forall i :: 0 <= i < |kept| ==> Trimmed(pieces)[i] == Strip(kept[i])
  {
    if pieces != [] { TrimmedAre(Front(pieces)); }
  }

  lemma CutSnoc(s: string, c: char)
    ensures Cut(s + [c]) == if c == ';' && !Inside(s) then Cut(s) + [""] else Front(Cut(s)) + [Last(Cut(s)) + [c]]
  {
    PiecesSnoc(s, c, ';');
  }

  /** The state of the splitter after a prefix: the statements so far are those of the closed pieces, the
      buffer is the open one, and the flag says whether the prefix ends inside a string. */
  ghost predicate Scanned(prefix: string, statements: seq<string>, buf: string, inQuote: bool) {
    && Last(Cut(prefix)) == buf && statements == Trimmed(Front(Cut(prefix)))
    && (inQuote <==> Inside(prefix))
  }

  lemma ScannedSnoc(prefix: string, statements: seq<string>, buf: string, inQuote: bool, c: char)
    requires Scanned(prefix, statements, buf, inQuote)
    ensures if c == ';' && !inQuote
            then Scanned(prefix + [c], statements + (if Strip(buf) != "" then [Strip(buf)] else []), "", false)
            else Scanned(prefix + [c], statements, buf + [c], inQuote != (c == QUOTE))
  {
    CutSnoc(prefix, c);
    InsideSnoc(prefix, c);
    LastPiece(Cut(prefix), buf + [c]);
  }

  /** Closing the open piece, and replacing it. */
  lemma LastPiece(pieces: seq<string>, longer: string)
    requires pieces != []
    ensures Front(pieces + [""]) == pieces && Last(pieces + [""]) == ""
    ensures Trimmed(pieces)
         == Trimmed(Front(pieces)) + (if Strip(Last(pieces)) != "" then [Strip(Last(pieces))] else [])
    ensures Front(Front(pieces) + [longer]) == Front(pieces) && Last(Front(pieces) + [longer]) == longer
  {
  }

  /** One character of the text. */
  lemma ScannedStep(s: string, i: nat, statements: seq<string>, buf: string, inQuote: bool)
    requires i < |s| && Scanned(s[..i], statements, buf, inQuote)
    ensures if s[i] == ';' && !inQuote
            then Scanned(s[..i + 1], statements + (if Strip(buf) != "" then [Strip(buf)] else []), "", false)
            else Scanned(s[..i + 1], statements, buf + [s[i]], inQuote != (s[i] == QUOTE))
  {
    ScannedSnoc(s[..i], statements, buf, inQuote, s[i]);
    assert s[..i + 1] == s[..i] + [s[i]];
  }

  /** A doubled quote inside a string. */
  lemma ScannedPair(s: string, i: nat, statements: seq<string>, buf: string)
    requires i + 1 < |s| && s[i] == s[i + 1] == QUOTE && Scanned(s[..i], statements, buf, true)
    ensures Scanned(s[..i + 2], statements, buf + [QUOTE, QUOTE], true)
  {
    ScannedStep(s, i, statements, buf, true);
    ScannedStep(s, i + 1, statements, buf + [QUOTE], false);
    assert buf + [QUOTE, QUOTE] == (buf + [QUOTE]) + [QUOTE];
  }

  lemma ScannedAll(s: string, statements: seq<string>, buf: string, inQuote: bool)
    requires Scanned(s[..|s|], statements, buf, inQuote)
    ensures Statements(s) == statements + (if Strip(buf) != "" then [Strip(buf)] else [])
  {
    assert s[..|s|] == s;
  }

  method SplitScript(cleaned: string) returns (statements: seq<string>)
    ensures statements == Statements(cleaned)
  {
    statements := [];
    var buf, inQuote, i := "", false, 0;
    while i < |cleaned|
      invariant 0 <= i <= |cleaned|
      invariant Scanned(cleaned[..i], statements, buf, inQuote)
    {
      var ch := cleaned[i];
      ScannedStep(cleaned, i, statements, buf, inQuote);
      if ch == QUOTE {
        if inQuote && i + 1 < |cleaned| && cleaned[i + 1] == QUOTE {
          ScannedPair(cleaned, i, statements, buf);
          buf := buf + [QUOTE, QUOTE];
          i := i + 2;
          continue;
        }
        inQuote := !inQuote;
        buf := buf + [ch];
      } else if ch == ';' && !inQuote {
        var stmt := Strip(buf);
        if stmt != "" {
          statements := statements + [stmt];
        }
        buf := "";
      } else {
        buf := buf + [ch];
      }
      i := i + 1;
    }
    ScannedAll(cleaned, statements, buf, inQuote);
    var tail := Strip(buf);
    if tail != "" {
      statements := statements + [tail];
    }
  }

  // ----- what the statements are --------------------------------------------------------------------

  lemma {:induction false} StripLeftKeeps(s: string)
    ensures Quotes(StripLeft(s)) == Quotes(s)
    ensures StripLeft(s) != "" ==> !IsSpace(StripLeft(s)[0])
    ensures Outside(StripLeft(s), ';') == Outside(s, ';')
  {
    if s != "" && IsSpace(s[0]) {
      assert s == [s[0]] + s[1..];
      NoQuotes([s[0]]);
      InsideIsOdd([s[0]]);
      NoneOutside([s[0]], ';');
      QuotesConcat([s[0]], s[1..]);
      OutsideConcat([s[0]], s[1..], ';');
      StripLeftKeeps(s[1..]);
    }
  }

  lemma {:induction false} StripRightKeeps(s: string)
    ensures Quotes(StripRight(s)) == Quotes(s)
    ensures StripRight(s) != "" ==> !IsSpace(Last(StripRight(s))) && StripRight(s)[0] == s[0]
    ensures Outside(StripRight(s), ';') == Outside(s, ';')
  {
    if s != "" && IsSpace(Last(s)) { StripRightKeeps(Front(s)); }
  }

  /** Stripping removes no quote and no semicolon, and is done once. */
  lemma StripKeeps(s: string)
    ensures Inside(Strip(s)) <==> Inside(s)
    ensures Outside(Strip(s), ';') == Outside(s, ';')
    ensures Strip(Strip(s)) == Strip(s)
  {
    StripLeftKeeps(s);
    StripRightKeeps(StripLeft(s));
    InsideIsOdd(s);
    InsideIsOdd(Strip(s));
  }

  /** A list of statements: not blank, stripped, free of semicolons outside strings, and closed: only
      the last may end inside a string. */
  ghost predicate WellFormed(list: seq<string>) {
    forall i :: 0 <= i < |list| ==>
      && list[i] != ""
      && Strip(list[i]) == list[i]
      && Outside(list[i], ';') == 0
      && (i < |list| - 1 ==> !Inside(list[i]))
  }

  /** Every piece of the cut is free of semicolons outside strings and all but the last are closed. */
  ghost predicate CleanPieces(pieces: seq<string>) {
    forall i :: 0 <= i < |pieces| ==> Outside(pieces[i], ';') == 0 && (i < |pieces| - 1 ==> !Inside(pieces[i]))
  }

  lemma {:induction false} CutIsClean(s: string)
    ensures CleanPieces(Cut(s))
    ensures Inside(Last(Cut(s))) <==> Inside(s)
  {
    if s != "" {
      CutIsClean(Front(s));
      CleanSnoc(Front(s), Last(s));
      assert Front(s) + [Last(s)] == s;
    }
  }

  lemma CleanSnoc(s: string, c: char)
    requires CleanPieces(Cut(s)) && (Inside(Last(Cut(s))) <==> Inside(s))
    ensures CleanPieces(Cut(s + [c]))
    ensures Inside(Last(Cut(s + [c]))) <==> Inside(s + [c])
  {
    CleanStep(Cut(s), Inside(s), c);
    InsideSnoc(s, c);
    CutSnoc(s, c);
  }

  lemma CleanStep(pieces: seq<string>, inside: bool, c: char)
    requires pieces != [] && CleanPieces(pieces) && (Inside(Last(pieces)) <==> inside)
    ensures if c == ';' && !inside then CleanPieces(pieces + [""])
            else CleanPieces(Front(pieces) + [Last(pieces) + [c]])
    ensures Inside(Last(pieces) + [c]) <==> inside != (c == QUOTE)
  {
    OutsideSnoc(Last(pieces), c, ';');
    InsideSnoc(Last(pieces), c);
    if c == ';' && !inside {
      CleanGrows(pieces);
    } else {
      CleanExtends(pieces, Last(pieces) + [c]);
    }
  }

  lemma CleanGrows(pieces: seq<string>)
    requires pieces != [] && CleanPieces(pieces) && !Inside(Last(pieces))
    ensures CleanPieces(pieces + [""])
  {
  }

  lemma CleanExtends(pieces: seq<string>, last: string)
    requires pieces != [] && CleanPieces(pieces) && Outside(last, ';') == 0
    ensures CleanPieces(Front(pieces) + [last])
  {
  }

  lemma {:induction false} TrimmedWellFormed(pieces: seq<string>)
    requires CleanPieces(pieces)
    ensures WellFormed(Trimmed(pieces))
    ensures (forall i :: 0 <= i < |pieces| ==> !Inside(pieces[i])) ==>
              forall i :: 0 <= i < |Trimmed(pieces)| ==> !Inside(Trimmed(pieces)[i])
  {
    if pieces != [] {
      var front := Front(pieces);
      assert forall i :: 0 <= i < |front| ==> front[i] == pieces[i] && !Inside(front[i]);
      TrimmedWellFormed(front);
      StripKeeps(Last(pieces));
    }
  }

  function JoinStatements(list: seq<string>): string {
    if list == [] then "" else if |list| == 1 then list[0]
    else JoinStatements(Front(list)) + ";" + Last(list)
  }

  lemma {:induction false} CutConcat(a: string, b: string)
    requires !Inside(a)
    ensures Cut(a + ";" + b) == Cut(a) + Cut(b)
  {
    CutSnoc(a, ';');
    if b == "" {
      assert a + ";" + b == a + [';'];
    } else {
      var front, left, right := a + ";" + Front(b), Cut(a), Cut(Front(b));
      assert a + ";" + b == front + [Last(b)];
      CutConcat(a, Front(b));
      CutSnoc(front, Last(b));
      ParityAfterJoin(a, Front(b));
      ExtendLast(left, right, Last(b));
    }
  }

  lemma ExtendLast(left: seq<string>, right: seq<string>, c: char)
    requires right != []
    ensures Front(left + right) + [Last(left + right) + [c]] == left + (Front(right) + [Last(right) + [c]])
    ensures (left + right) + [""] == left + (right + [""])
  {
  }

  lemma ParityAfterJoin(a: string, b: string)
    requires !Inside(a)
    ensures Inside(a + ";" + b) <==> Inside(b)
  {
    InsideSnoc(a, ';');
    assert a + ";" == a + [';'];
    InsideConcat(a + ";", b);
  }

  lemma {:induction false} CutWhole(s: string)
    requires Outside(s, ';') == 0
    ensures Cut(s) == [s]
  {
    if s != "" {
      CutWhole(Front(s));
      assert s == Front(s) + [Last(s)];
    }
  }

  lemma {:induction false} JoinedParity(list: seq<string>)
    requires forall i :: 0 <= i < |list| ==> !Inside(list[i])
    ensures !Inside(JoinStatements(list))
  {
    if |list| > 1 {
      JoinedParity(Front(list));
      ParityAfterJoin(JoinStatements(Front(list)), Last(list));
    }
  }

  lemma TrimmedConcat(a: seq<string>, x: string)
    ensures Trimmed(a + [x]) == Trimmed(a) + (if Strip(x) != "" then [Strip(x)] else [])
  {
    assert Front(a + [x]) == a;
  }

  lemma {:induction false} SplitJoined(list: seq<string>)
    requires WellFormed(list) && list != []
    ensures Cut(JoinStatements(list)) == list
    ensures Statements(JoinStatements(list)) == list
  {
    var front, last := Front(list), Last(list);
    CutWhole(last);
    assert list == front + [last];
    TrimmedConcat(front, last);
    if front == [] {
      assert JoinStatements(list) == last;
      assert Trimmed(front) == [];
    } else {
      assert forall i :: 0 <= i < |front| ==> front[i] == list[i] && !Inside(front[i]);
      SplitJoined(front);
      JoinedParity(front);
      CutConcat(JoinStatements(front), last);
    }
  }

  /** What the splitter returns: statements that are not blank, carry no surrounding space and contain
      no semicolon outside strings. Joining them with semicolons and splitting again gives them back. */
  lemma SplitRoundTrip(s: string)
    ensures WellFormed(Statements(s))
    ensures Statements(JoinStatements(Statements(s))) == Statements(s)
  {
    CutIsClean(s);
    TrimmedWellFormed(Cut(s));
    if Statements(s) != [] {
      SplitJoined(Statements(s));
    }
  }
}
