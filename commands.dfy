/** The text side of the client: a command line is split the way Java's
    `String.split(" ")` splits it, its first token is lower-cased (ASCII)
    and compared against the known instructions, and the `setport`
    operand is read as a decimal `int`. */
module Commands {

  datatype Option<T> = None | Some(value: T)

  // ---------------------------------------------------------------------
  // Splitting

  /** The pieces of `s` between the occurrences of `c`, empty pieces
      included: n occurrences give n + 1 pieces. */
  function SplitRaw(s: string, c: char): (r: seq<string>)
    ensures |r| >= 1
    decreases |s|
  {
    if |s| == 0 then [""]
    else
      var rest := SplitRaw(s[1..], c);
      if s[0] == c then [""] + rest else [[s[0]] + rest[0]] + rest[1..]
  }

  /** The pieces glued back together with `c` between neighbours. */
  function Join(pieces: seq<string>, c: char): string
  {
    if |pieces| == 0 then ""
    else if |pieces| == 1 then pieces[0]
    else pieces[0] + [c] + Join(pieces[1..], c)
  }

  /** The pieces without any empty pieces at the end. */
  function DropTrailingEmpty(pieces: seq<string>): (r: seq<string>)
    ensures |r| <= |pieces| && r == pieces[..|r|]
    ensures |r| > 0 ==> r[|r| - 1] != ""
    ensures forall i :: |r| <= i < |pieces| ==> pieces[i] == ""
  {
    if |pieces| == 0 || pieces[|pieces| - 1] != "" then pieces
    else DropTrailingEmpty(pieces[..|pieces| - 1])
  }

  /** `s.split(c)` in Java, for a separator that is one ordinary
      character: without an occurrence the whole string is the only piece
      (even when it is empty); otherwise the pieces, less the empty ones
      at the end. */
  function JavaSplit(s: string, c: char): seq<string>
  {
    if c !in s then [s] else DropTrailingEmpty(SplitRaw(s, c))
  }

  /** Splitting and joining again gives back the string, and no piece
      holds the separator. */
  lemma {:induction false} JoinSplitRaw(s: string, c: char)
    ensures Join(SplitRaw(s, c), c) == s
    ensures forall i :: 0 <= i < |SplitRaw(s, c)| ==> c !in SplitRaw(s, c)[i]
    decreases |s|
  {
    if |s| > 0 {
      var rest := SplitRaw(s[1..], c);
      JoinSplitRaw(s[1..], c);
      assert s == [s[0]] + s[1..];
      if s[0] != c {
        var r := SplitRaw(s, c);
        assert r[0] == [s[0]] + rest[0];
        if |rest| > 1 {
          assert rest == [rest[0]] + rest[1..];
          assert Join(rest, c) == rest[0] + [c] + Join(rest[1..], c);
          assert r[1..] == rest[1..];
        }
        forall i | 0 <= i < |r|
          ensures c !in r[i]
        {
          if i > 0 {
            assert r[i] == rest[i];
          }
        }
      } else {
        var r := SplitRaw(s, c);
        assert r[1..] == rest;
      }
    }
  }

  /** Without an occurrence of the separator there is one piece. */
  lemma {:induction false} SplitRawWithout(s: string, c: char)
    requires c !in s
    ensures SplitRaw(s, c) == [s]
    decreases |s|
  {
    if |s| > 0 {
      assert c !in s[1..] by {
        forall i | 0 <= i < |s[1..]|
          ensures s[1..][i] != c
        {
          assert s[1..][i] == s[i + 1];
        }
      }
      SplitRawWithout(s[1..], c);
      assert s == [s[0]] + s[1..];
    }
  }

  /** A string of separators only. */
  predicate OnlySeparators(s: string, c: char)
  {
    forall i :: 0 <= i < |s| ==> s[i] == c
  }

  /** Every raw piece of a string of separators is empty, and there are
      |s| + 1 of them. */
  lemma {:induction false} SplitRawSeparators(s: string, c: char)
    requires OnlySeparators(s, c)
    ensures |SplitRaw(s, c)| == |s| + 1
    ensures forall i :: 0 <= i < |SplitRaw(s, c)| ==> SplitRaw(s, c)[i] == ""
    decreases |s|
  {
    if |s| > 0 {
      assert OnlySeparators(s[1..], c) by {
        forall i | 0 <= i < |s[1..]|
          ensures s[1..][i] == c
        {
          assert s[1..][i] == s[i + 1];
        }
      }
      SplitRawSeparators(s[1..], c);
      var r := SplitRaw(s, c);
      assert r == [""] + SplitRaw(s[1..], c);
      forall i | 0 <= i < |r|
        ensures r[i] == ""
      {
        if i > 0 {
          assert r[i] == SplitRaw(s[1..], c)[i - 1];
        }
      }
    }
  }

  /** A raw piece that is not empty holds a character other than the
      separator, which the string then holds too. */
  lemma {:induction false} SplitRawNonEmptyPiece(s: string, c: char, i: int)
    requires 0 <= i < |SplitRaw(s, c)| && SplitRaw(s, c)[i] != ""
    ensures exists k :: 0 <= k < |s| && s[k] != c
    decreases |s|
  {
    var r := SplitRaw(s, c);
    var rest := SplitRaw(s[1..], c);
    if s[0] == c {
      assert i > 0 && r[i] == rest[i - 1];
      SplitRawNonEmptyPiece(s[1..], c, i - 1);
      var k :| 0 <= k < |s[1..]| && s[1..][k] != c;
      assert s[k + 1] != c;
    }
  }

  /** Java's split yields no piece at all exactly for a non-empty string
      made only of separators. */
  lemma JavaSplitEmpty(s: string, c: char)
    ensures |JavaSplit(s, c)| == 0 <==> |s| > 0 && OnlySeparators(s, c)
  {
    if |s| > 0 && OnlySeparators(s, c) {
      assert s[0] == c;
      SplitRawSeparators(s, c);
      var r := SplitRaw(s, c);
    } else if c in s {
      var k :| 0 <= k < |s| && s[k] != c;
      var r := SplitRaw(s, c);
      JoinSplitRaw(s, c);
      if DropTrailingEmpty(r) == [] {
        assert forall i :: 0 <= i < |r| ==> r[i] == "";
        JoinOfEmptyPieces(r, c);
        assert false;
      }
    }
  }

  /** Empty pieces join to separators only. */
  lemma {:induction false} JoinOfEmptyPieces(pieces: seq<string>, c: char)
    requires forall i :: 0 <= i < |pieces| ==> pieces[i] == ""
    ensures OnlySeparators(Join(pieces, c), c)
  {
    if |pieces| > 1 {
      JoinOfEmptyPieces(pieces[1..], c);
      var j := Join(pieces[1..], c);
      assert Join(pieces, c) == [c] + j;
    }
  }

  /** Java's split loses only the separators at the end: its pieces, padded
      back with the empty pieces it dropped, join to the string; no piece
      holds the separator; and the last piece, if any, is not empty. */
  lemma JavaSplitPieces(s: string, c: char)
    ensures var r := JavaSplit(s, c);
      && (forall i :: 0 <= i < |r| ==> c !in r[i])
      && (c in s ==> |r| > 0 ==> r[|r| - 1] != "")
      && (c in s ==> Join(r + seq(|SplitRaw(s, c)| - |r|, _ => ""), c) == s)
      && (c !in s ==> r == [s])
  {
    JoinSplitRaw(s, c);
    var raw := SplitRaw(s, c);
    if c in s {
      var r := DropTrailingEmpty(raw);
      var padded := r + seq(|raw| - |r|, _ => "");
      assert padded == raw by {
        assert |padded| == |raw|;
        forall i | 0 <= i < |raw|
          ensures padded[i] == raw[i]
        {
          if i < |r| {
            assert r[i] == raw[i];
          }
        }
      }
      forall i | 0 <= i < |r|
        ensures c !in r[i]
      {
        assert r[i] == raw[i];
      }
    }
  }

  // ---------------------------------------------------------------------
  // Instruction and operand

  /** The text before the first space (all of it when there is none). */
  function UpToSpace(s: string): (r: string)
    ensures |r| <= |s| && r == s[..|r|] && ' ' !in r
    ensures |r| < |s| ==> s[|r|] == ' '
  {
    if |s| == 0 || s[0] == ' ' then "" else [s[0]] + UpToSpace(s[1..])
  }

  /** The text after the first space ("" when there is none). */
  function AfterSpace(s: string): (r: string)
    ensures |r| <= |s| && r == s[|s| - |r|..]
  {
    if |s| == 0 then "" else if s[0] == ' ' then s[1..] else AfterSpace(s[1..])
  }

  /** The first raw piece is the text before the first space; the others
      are the pieces of the text after it. */
  lemma {:induction false} SplitRawHead(s: string)
    ensures SplitRaw(s, ' ')[0] == UpToSpace(s)
    ensures ' ' in s ==> SplitRaw(s, ' ')[1..] == SplitRaw(AfterSpace(s), ' ')
    ensures ' ' !in s ==> AfterSpace(s) == ""
    decreases |s|
  {
    if |s| > 0 {
      SplitRawHead(s[1..]);
      if s[0] != ' ' {
        var r := SplitRaw(s, ' ');
        var rest := SplitRaw(s[1..], ' ');
        assert r[1..] == rest[1..];
        if ' ' in s {
          assert ' ' in s[1..] by {
            var k :| 0 <= k < |s| && s[k] == ' ';
            assert s[1..][k - 1] == ' ';
          }
        } else {
          assert ' ' !in s[1..] by {
            forall k | 0 <= k < |s[1..]|
              ensures s[1..][k] != ' '
            {
              assert s[1..][k] == s[k + 1];
            }
          }
        }
      }
    }
  }

  /** A command line the client can take apart: Java's split of it yields
      at least one token.  (A non-empty line of spaces only yields none, and
      the client then fails on an out-of-range index.) */
  predicate Splittable(msg: string)
  {
    msg == "" || exists i :: 0 <= i < |msg| && msg[i] != ' '
  }

  /** The tokens of a command line. */
  function Tokens(msg: string): seq<string>
  {
    JavaSplit(msg, ' ')
  }

  lemma SplittableTokens(msg: string)
    ensures Splittable(msg) <==> |Tokens(msg)| >= 1
  {
    JavaSplitEmpty(msg, ' ');
  }

  /** The first token. */
  function Instruction(msg: string): string
    requires Splittable(msg)
  {
    SplittableTokens(msg);
    Tokens(msg)[0]
  }

  /** The second token when there is more than one, "" otherwise. */
  function Operand(msg: string): string
    requires Splittable(msg)
  {
    SplittableTokens(msg);
    var t := Tokens(msg);
    if |t| != 1 then t[1] else ""
  }

  /** The instruction is the text before the first space, and the operand
      the text between the first and the second space; anything after that
      is ignored. */
  lemma InstructionOperand(msg: string)
    requires Splittable(msg)
    ensures Instruction(msg) == UpToSpace(msg)
    ensures Operand(msg) == UpToSpace(AfterSpace(msg))
  {
    SplittableTokens(msg);
    SplitRawHead(msg);
    if ' ' !in msg {
      SplitRawWithout(msg, ' ');
    } else {
      var raw := SplitRaw(msg, ' ');
      var t := DropTrailingEmpty(raw);
      assert raw[1..] == SplitRaw(AfterSpace(msg), ' ');
      SplitRawHead(AfterSpace(msg));
      assert t[0] == raw[0];
      assert |raw| >= 2 by {
        JoinSplitRaw(msg, ' ');
      }
      assert raw[1] == SplitRaw(AfterSpace(msg), ' ')[0];
      if |t| >= 2 {
        assert t[1] == raw[1];
      }
    }
  }

  // ---------------------------------------------------------------------
  // Lower case

  predicate IsUpper(ch: char)
  {
    'A' <= ch <= 'Z'
  }

  /** ASCII lower-casing of one character. */
  function LowerChar(ch: char): (r: char)
    ensures !IsUpper(r)
    ensures IsUpper(ch) ==> r as int == ch as int + 32
    ensures !IsUpper(ch) ==> r == ch
  {
    if IsUpper(ch) then (ch as int + 32) as char else ch
  }

  /** ASCII lower-casing of a string. */
  function Lower(s: string): (r: string)
    ensures |r| == |s|
  {
    seq(|s|, i requires 0 <= i < |s| => LowerChar(s[i]))
  }

  /** Lower-casing leaves no capital, changes nothing else, and applied
      twice is applied once. */
  lemma LowerProperties(s: string)
    ensures forall i :: 0 <= i < |s| ==> !IsUpper(Lower(s)[i])
    ensures (forall i :: 0 <= i < |s| ==> !IsUpper(s[i])) ==> Lower(s) == s
    ensures Lower(Lower(s)) == Lower(s)
  {
  }

  /** A string with a capital is never the lower case of anything. */
  lemma NotLowerOfAnything(s: string, t: string)
    requires exists i :: 0 <= i < |t| && IsUpper(t[i])
    ensures Lower(s) != t
  {
    var i :| 0 <= i < |t| && IsUpper(t[i]);
    if |s| == |t| {
      assert !IsUpper(Lower(s)[i]);
    }
  }

  // ---------------------------------------------------------------------
  // Integers

  const MinInt: int := -0x8000_0000
  const MaxInt: int := 0x7fff_ffff

  predicate IsDigit(ch: char)
  {
    '0' <= ch <= '9'
  }

  predicate AllDigits(s: string)
  {
    forall i :: 0 <= i < |s| ==> IsDigit(s[i])
  }

  /** The value of a string of decimal digits. */
  function DigitsValue(ds: string): nat
    requires AllDigits(ds)
  {
    if |ds| == 0 then 0
    else DigitsValue(ds[..|ds| - 1]) * 10 + (ds[|ds| - 1] as int - '0' as int)
  }

  /** `Integer.parseInt`: an optional sign and at least one decimal digit,
      within the 32-bit range; anything else is rejected. */
  function ParseInt(s: string): Option<int>
  {
    var signed := |s| > 0 && (s[0] == '-' || s[0] == '+');
    var digits := if signed then s[1..] else s;
    if |digits| == 0 || !AllDigits(digits) then None
    else
      var v: int := if signed && s[0] == '-' then -(DigitsValue(digits) as int) else DigitsValue(digits);
      if MinInt <= v <= MaxInt then Some(v) else None
  }

  /** The decimal digits of n, without leading zeros. */
  function Show(n: nat): (r: string)
    ensures |r| > 0 && AllDigits(r)
  {
    if n < 10 then [('0' as int + n) as char]
    else Show(n / 10) + [('0' as int + n % 10) as char]
  }

  lemma {:induction false} ShowValue(n: nat)
    ensures DigitsValue(Show(n)) == n
  {
    if n >= 10 {
      ShowValue(n / 10);
      var r := Show(n);
      assert r[..|r| - 1] == Show(n / 10);
    }
  }

  /** Parsing reads back every value of the 32-bit range as it is
      printed. */
  lemma ParseShow(n: int)
    requires MinInt <= n <= MaxInt
    ensures n >= 0 ==> ParseInt(Show(n)) == Some(n)
    ensures n < 0 ==> ParseInt("-" + Show(-n)) == Some(n)
  {
    if n >= 0 {
      ShowValue(n);
    } else {
      ShowValue(-n);
      var s := "-" + Show(-n);
      assert s[1..] == Show(-n);
    }
  }

  // ---------------------------------------------------------------------
  // Commands

  /** What a command line asks the client to do. */
  datatype Command =
    | Connect
    | Disconnect
    | StartServer
    | Quit
    | MatchWon
    | SetHost(host: string)
    | SetPort(port: int)
    | GetHost
    | GetPort
    | Forward(text: string)

  /** The instructions the client recognises, lower case. */
  const Keywords: set<string> :=
    {"connect", "disconnect", "start", "exit", "quit", "sethost", "setport", "gethost", "getport"}

  /** A command line the client handles without failing: it has a token,
      and a `setport` operand parses. */
  predicate Runnable(msg: string)
  {
    Splittable(msg) && (Lower(Instruction(msg)) == "setport" ==> ParseInt(Operand(msg)).Some?)
  }

  /** The command a line (its leading `#` or `/` already removed) stands
      for.  Instructions are compared after lower-casing, except the label
      "GameOver", which is written with capitals; an instruction that is
      not recognised forwards the whole line, prefixed with "/". */
  function CommandMessage(msg: string): Command
    requires Runnable(msg)
  {
    var key := Lower(Instruction(msg));
    if key == "connect" then Connect
    else if key == "disconnect" then Disconnect
    else if key == "start" then StartServer
    else if key == "exit" || key == "quit" then Quit
    else if key == "GameOver" then MatchWon
    else if key == "sethost" then SetHost(Operand(msg))
    else if key == "setport" then SetPort(ParseInt(Operand(msg)).value)
    else if key == "gethost" then GetHost
    else if key == "getport" then GetPort
    else Forward("/" + msg)
  }

  /** A line is forwarded exactly when its instruction is not one of the
      keywords in any case, and then the whole line goes, operand and all. */
  lemma ForwardsUnknown(msg: string)
    requires Runnable(msg)
    ensures CommandMessage(msg).Forward? <==> Lower(Instruction(msg)) !in Keywords
    ensures CommandMessage(msg).Forward? ==> CommandMessage(msg).text == "/" + msg
  {
    GameOverUnreachable(msg);
  }

  /** The "GameOver" label never matches: the match-won command cannot be
      produced, and "gameover", in any case, is forwarded like an unknown
      instruction. */
  lemma GameOverUnreachable(msg: string)
    requires Runnable(msg)
    ensures !CommandMessage(msg).MatchWon?
    ensures Lower(Instruction(msg)) == "gameover" ==> CommandMessage(msg) == Forward("/" + msg)
  {
    var t := "GameOver";
    assert IsUpper(t[0]);
    NotLowerOfAnything(Instruction(msg), t);
  }

  /** The instruction is matched regardless of case: two lines whose
      instructions agree up to case and whose operands agree stand for the
      same command, unless both are forwarded. */
  lemma CaseInsensitive(m1: string, m2: string)
    requires Runnable(m1) && Runnable(m2)
    requires Lower(Instruction(m1)) == Lower(Instruction(m2)) && Operand(m1) == Operand(m2)
    ensures CommandMessage(m1).Forward? == CommandMessage(m2).Forward?
    ensures !CommandMessage(m1).Forward? ==> CommandMessage(m1) == CommandMessage(m2)
  {
  }

  /** Which command each keyword stands for, with its operand. */
  lemma KeywordCommands(msg: string)
    requires Runnable(msg)
    ensures var key, op := Lower(Instruction(msg)), UpToSpace(AfterSpace(msg));
      && (key == "connect" <==> CommandMessage(msg) == Connect)
      && (key == "disconnect" <==> CommandMessage(msg) == Disconnect)
      && (key == "start" <==> CommandMessage(msg) == StartServer)
      && (key in {"exit", "quit"} <==> CommandMessage(msg) == Quit)
      && (key == "sethost" <==> CommandMessage(msg) == SetHost(op))
      && (key == "setport" <==> CommandMessage(msg).SetPort?)
      && (key == "setport" ==> ParseInt(op) == Some(CommandMessage(msg).port))
      && (key == "gethost" <==> CommandMessage(msg) == GetHost)
      && (key == "getport" <==> CommandMessage(msg) == GetPort)
  {
    InstructionOperand(msg);
    GameOverUnreachable(msg);
  }
}
