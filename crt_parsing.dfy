/**
  The argument parser of the Microsoft C runtime, for the arguments after the program name,
  as "Parsing C command-line arguments" describes it. It is the reference against which the
  encoder is proved: decoding an encoded list of NUL-free arguments gives back the list.

  Rules: blanks (space, tab) outside quotes separate arguments; a quote toggles quoted mode;
  2n backslashes before a quote give n backslashes and the quote delimits, 2n+1 give n
  backslashes and a literal quote; backslashes not before a quote are literal; inside a
  quoted string a pair of quotes gives one literal quote; a command line that ends inside
  quotes ends the last argument; a NUL ends the command line.
*/
module CrtParsing {
  import opened ArgumentEncoder

  /**
    The parser's state between two characters: the finished arguments, the current one,
    the backslashes read but not yet resolved, whether an argument has begun, whether we are
    inside quotes, and whether the last character closed a quoted string.
  */
  datatype Parser = Parser(
    args: seq<string>,
    cur: string,
    backslashes: nat,
    inArg: bool,
    inQuotes: bool,
    quoteClosed: bool)

  /** The current argument with its unresolved backslashes taken literally. */
  function Pending(p: Parser): string {
    p.cur + Backslashes(p.backslashes)
  }

  /** The state between two arguments, after `args` have been read. */
  function Between(args: seq<string>): Parser {
    Parser(args, [], 0, false, false, false)
  }

  function Step(p: Parser, c: char): Parser {
    if c == '\\' then
      p.(backslashes := p.backslashes + 1, inArg := true, quoteClosed := false)
    else if c == '"' then
      var cur := p.cur + Backslashes(p.backslashes / 2);
      if p.backslashes % 2 == 1 then
        p.(cur := cur + ['"'], backslashes := 0, inArg := true, quoteClosed := false)
      else if p.quoteClosed then
        // the second quote of a pair inside a quoted string: a literal quote, still quoted
        p.(cur := cur + ['"'], backslashes := 0, inQuotes := true, quoteClosed := false)
      else
        p.(cur := cur, backslashes := 0, inArg := true, inQuotes := !p.inQuotes, quoteClosed := p.inQuotes)
    else if IsBlank(c) && !p.inQuotes then
      if p.inArg then Between(p.args + [Pending(p)]) else p
    else
      p.(cur := Pending(p) + [c], backslashes := 0, inArg := true, quoteClosed := false)
  }

  function Run(p: Parser, s: string): Parser
    decreases |s|
  {
    if s == [] then p else Run(Step(p, s[0]), s[1..])
  }

  function Finish(p: Parser): seq<string> {
    if p.inArg then p.args + [Pending(p)] else p.args
  }

  /** A string holding no NUL character. */
  predicate NulFree(s: string) {
    forall i :: 0 <= i < |s| ==> s[i] != '\0'
  }

  /**
    What a reader of a NUL-terminated string sees of `s`: everything before its first NUL.
    CreateProcessW and the child's runtime both read the command line this way.
  */
  function UntilNul(s: string): (t: string)
    ensures |t| <= |s| && t == s[..|t|]
    ensures NulFree(t)
    ensures |t| < |s| ==> s[|t|] == '\0'
    ensures NulFree(s) ==> t == s
    decreases |s|
  {
    if s == [] || s[0] == '\0' then [] else [s[0]] + UntilNul(s[1..])
  }

  /** The argument list a child process reads from the command line `s`. */
  function Decode(s: string): seq<string> {
    Finish(Run(Between([]), UntilNul(s)))
  }

  lemma {:induction false} RunAppend(p: Parser, x: string, y: string)
    ensures Run(p, x + y) == Run(Run(p, x), y)
    decreases |x|
  {
    if x != [] {
      assert (x + y)[1..] == x[1..] + y;
      RunAppend(Step(p, x[0]), x[1..], y);
    } else {
      assert x + y == y;
    }
  }

  /** A parser that has just read the whole of argument `a` after the arguments `args`. */
  ghost predicate AtEndOf(p: Parser, args: seq<string>, a: string) {
    p.args == args && p.inArg && !p.inQuotes && Pending(p) == a
  }

  /** An unquoted stretch without blanks or quotes is copied into the current argument. */
  lemma {:induction false} RunVerbatim(p: Parser, s: string)
    requires !p.inQuotes
    requires forall i :: 0 <= i < |s| ==> !ForcesQuoting(s[i])
    ensures var q := Run(p, s);
      q.args == p.args && !q.inQuotes && Pending(q) == Pending(p) + s &&
      (s != [] ==> q.inArg)
    decreases |s|
  {
    if s != [] {
      var q := Step(p, s[0]);
      if s[0] == '\\' {
        BackslashesAdd(p.backslashes, 1);
      }
      assert Pending(q) == Pending(p) + [s[0]];
      RunVerbatim(q, s[1..]);
      assert [s[0]] + s[1..] == s;
    }
  }

  function Quoting(args: seq<string>, cur: string): Parser {
    Parser(args, cur, 0, true, true, false)
  }

  function Closed(args: seq<string>, cur: string): Parser {
    Parser(args, cur, 0, true, false, true)
  }

  /** Backslashes are only counted while they are read. */
  lemma {:induction false} RunBackslashes(args: seq<string>, cur: string, n: nat)
    ensures Run(Quoting(args, cur), Backslashes(n)) == Quoting(args, cur).(backslashes := n)
  {
    if n > 0 {
      var b := Backslashes(n);
      assert b == Backslashes(n - 1) + ['\\'];
      RunAppend(Quoting(args, cur), Backslashes(n - 1), ['\\']);
      RunBackslashes(args, cur, n - 1);
    }
  }

  /**
    The quoted body, then the closing quote, read from inside quotes with `pending`
    backslashes still owed: the parser ends just after the closing quote with the body
    restored.
  */
  lemma {:induction false} RunEscaped(args: seq<string>, cur: string, s: string, pending: nat)
    ensures Run(Quoting(args, cur), EscapeFrom(s, pending) + ['"'])
         == Closed(args, cur + Backslashes(pending) + s)
    decreases |s|
  {
    var start := Quoting(args, cur);
    if s == [] {
      RunAppend(start, Backslashes(2 * pending), ['"']);
      RunBackslashes(args, cur, 2 * pending);
      assert cur + Backslashes(pending) + s == cur + Backslashes(pending);
    } else if s[0] == '\\' {
      RunEscaped(args, cur, s[1..], pending + 1);
      BackslashesAdd(pending, 1);
      assert Backslashes(pending + 1) + s[1..] == Backslashes(pending) + s by {
        assert s == ['\\'] + s[1..];
      }
    } else {
      var next := cur + Backslashes(pending) + [s[0]];
      var rest := EscapeFrom(s[1..], 0) + ['"'];
      var piece := EscapePiece(s[0], pending);
      assert EscapeFrom(s, pending) + ['"'] == piece + rest;
      RunAppend(start, piece, rest);
      RunPiece(args, cur, s[0], pending);
      RunEscaped(args, next, s[1..], 0);
      assert next + Backslashes(0) + s[1..] == cur + Backslashes(pending) + s by {
        assert s == [s[0]] + s[1..];
      }
    }
  }

  /** What the encoder emits for a character other than a backslash, after `pending` backslashes. */
  function EscapePiece(c: char, pending: nat): string {
    if c == '"' then Backslashes(2 * pending + 1) + ['"'] else Backslashes(pending) + [c]
  }

  /** Inside quotes, an escaped character is read back as the pending backslashes and itself. */
  lemma RunPiece(args: seq<string>, cur: string, c: char, pending: nat)
    requires c != '\\'
    ensures Run(Quoting(args, cur), EscapePiece(c, pending)) == Quoting(args, cur + Backslashes(pending) + [c])
  {
    var start := Quoting(args, cur);
    if c == '"' {
      RunAppend(start, Backslashes(2 * pending + 1), ['"']);
      RunBackslashes(args, cur, 2 * pending + 1);
    } else {
      RunAppend(start, Backslashes(pending), [c]);
      RunBackslashes(args, cur, pending);
    }
  }

  /** Reading one encoded argument from between two arguments ends exactly after it. */
  lemma ReadOneArgument(args: seq<string>, a: string)
    ensures AtEndOf(Run(Between(args), Quoted(a)), args, a)
  {
    if NeedsQuoting(a) {
      var body := EscapeBody(a) + ['"'];
      assert Quoted(a) == ['"'] + body;
      assert Step(Between(args), '"') == Quoting(args, []);
      RunEscaped(args, [], a, 0);
      assert [] + Backslashes(0) + a == a;
    } else {
      RunVerbatim(Between(args), a);
    }
  }

  /** Reading a whole command line ends just after its last argument. */
  lemma {:induction false} ReadCommandLine(args: seq<string>)
    requires args != []
    ensures AtEndOf(Run(Between([]), CommandLineOf(args)), args[..|args| - 1], args[|args| - 1])
  {
    if |args| == 1 {
      ReadOneArgument([], args[0]);
    } else {
      var front := args[..|args| - 1];
      var last := args[|args| - 1];
      ReadCommandLine(front);
      var p := Run(Between([]), CommandLineOf(front));
      assert front[..|front| - 1] + [front[|front| - 1]] == front;
      assert Step(p, ' ') == Between(front);
      RunAppend(Between([]), CommandLineOf(front) + [' '], Quoted(last));
      RunAppend(Between([]), CommandLineOf(front), [' ']);
      ReadOneArgument(front, last);
    }
  }

  lemma NulFreeAppend(a: string, b: string)
    ensures NulFree(a + b) <==> NulFree(a) && NulFree(b)
  {
    if NulFree(a + b) {
      assert forall i :: 0 <= i < |a| ==> (a + b)[i] == a[i];
      assert forall i :: 0 <= i < |b| ==> (a + b)[|a| + i] == b[i];
    }
  }

  /** Escaping adds only backslashes and quotes, so it adds no NUL. */
  lemma {:induction false} EscapeNulFree(s: string, pending: nat)
    requires NulFree(s)
    ensures NulFree(EscapeFrom(s, pending))
    decreases |s|
  {
    if s != [] {
      if s[0] == '\\' {
        EscapeNulFree(s[1..], pending + 1);
      } else {
        EscapeNulFree(s[1..], 0);
        var k := if s[0] == '"' then 2 * pending + 1 else pending;
        NulFreeAppend(Backslashes(k) + [s[0]], EscapeFrom(s[1..], 0));
        NulFreeAppend(Backslashes(k), [s[0]]);
      }
    }
  }

  /** The command line of NUL-free arguments holds no NUL, so no reader cuts it short. */
  lemma {:induction false} CommandLineNulFree(args: seq<string>)
    requires forall i :: 0 <= i < |args| ==> NulFree(args[i])
    ensures NulFree(CommandLineOf(args))
  {
    if |args| > 0 {
      var last := args[|args| - 1];
      if NeedsQuoting(last) {
        EscapeNulFree(last, 0);
        NulFreeAppend(['"'] + EscapeBody(last), ['"']);
        NulFreeAppend(['"'], EscapeBody(last));
      }
      if |args| > 1 {
        CommandLineNulFree(args[..|args| - 1]);
        NulFreeAppend(CommandLineOf(args[..|args| - 1]) + [' '], Quoted(last));
        NulFreeAppend(CommandLineOf(args[..|args| - 1]), [' ']);
      }
    }
  }

  /** Escaping keeps every character other than backslash and quote, a NUL among them. */
  lemma {:induction false} EscapeKeepsNul(s: string, pending: nat)
    requires !NulFree(s)
    ensures !NulFree(EscapeFrom(s, pending))
    decreases |s|
  {
    if s[0] == '\\' {
      assert !NulFree(s[1..]) by { var j :| 0 <= j < |s| && s[j] == '\0'; assert s[1..][j - 1] == '\0'; }
      EscapeKeepsNul(s[1..], pending + 1);
    } else {
      var k := if s[0] == '"' then 2 * pending + 1 else pending;
      assert EscapeFrom(s, pending) == Backslashes(k) + [s[0]] + EscapeFrom(s[1..], 0);
      NulFreeAppend(Backslashes(k) + [s[0]], EscapeFrom(s[1..], 0));
      NulFreeAppend(Backslashes(k), [s[0]]);
      if s[0] != '\0' {
        assert !NulFree(s[1..]) by { var j :| 0 <= j < |s| && s[j] == '\0'; assert s[1..][j - 1] == '\0'; }
        EscapeKeepsNul(s[1..], 0);
      } else {
        assert [s[0]][0] == '\0';
      }
    }
  }

  /** An argument holding a NUL puts that NUL on the command line. */
  lemma {:induction false} CommandLineKeepsNul(args: seq<string>, i: nat)
    requires i < |args| && !NulFree(args[i])
    ensures !NulFree(CommandLineOf(args))
  {
    var last := args[|args| - 1];
    if i == |args| - 1 && NeedsQuoting(last) {
      EscapeKeepsNul(last, 0);
      NulFreeAppend(['"'] + EscapeBody(last), ['"']);
      NulFreeAppend(['"'], EscapeBody(last));
    }
    if |args| > 1 {
      var front := args[..|args| - 1];
      if i < |args| - 1 {
        assert front[i] == args[i];
        CommandLineKeepsNul(front, i);
      }
      NulFreeAppend(CommandLineOf(front) + [' '], Quoted(last));
      NulFreeAppend(CommandLineOf(front), [' ']);
    }
  }

  /** A parser state whose finished arguments and current argument hold no NUL. */
  ghost predicate ParserNulFree(p: Parser) {
    NulFree(p.cur) && forall i :: 0 <= i < |p.args| ==> NulFree(p.args[i])
  }

  lemma StepNulFree(p: Parser, c: char)
    requires ParserNulFree(p) && c != '\0'
    ensures ParserNulFree(Step(p, c))
  {
    NulFreeAppend(p.cur, Backslashes(p.backslashes));
    NulFreeAppend(p.cur, Backslashes(p.backslashes / 2));
    NulFreeAppend(p.cur + Backslashes(p.backslashes / 2), ['"']);
    NulFreeAppend(Pending(p), [c]);
  }

  lemma {:induction false} RunNulFree(p: Parser, s: string)
    requires ParserNulFree(p) && NulFree(s)
    ensures ParserNulFree(Run(p, s))
    decreases |s|
  {
    if s != [] {
      StepNulFree(p, s[0]);
      RunNulFree(Step(p, s[0]), s[1..]);
    }
  }

  /** No argument the child reads holds a NUL: the reader stops at the first one. */
  lemma DecodeNulFree(s: string)
    ensures forall i :: 0 <= i < |Decode(s)| ==> NulFree(Decode(s)[i])
  {
    var q := Run(Between([]), UntilNul(s));
    RunNulFree(Between([]), UntilNul(s));
    NulFreeAppend(q.cur, Backslashes(q.backslashes));
  }

  /** An example: the child of `["a\0b", "c"]` reads only `a`, and loses the second argument. */
  lemma NulCutsCommandLine()
    ensures Decode(CommandLineOf(["a\0b", "c"])) == ["a"]
  {
    var line := CommandLineOf(["a\0b", "c"]);
    assert !NeedsQuoting("a\0b") && !NeedsQuoting("c");
    assert ["a\0b", "c"][..1] == ["a\0b"];
    assert line == "a\0b c";
    assert UntilNul(line) == "a" by {
      assert line[0] == 'a' && line[1..][0] == '\0';
      assert UntilNul(line[1..]) == [];
    }
    var p := Step(Between([]), 'a');
    assert Backslashes(0) == [];
    assert p == Parser([], "a", 0, true, false, false);
    assert Run(Between([]), "a") == Run(p, "a"[1..]);
    assert "a"[1..] == [];
  }

  /** NUL-free arguments are read back exactly, in order. */
  lemma ReadBackNulFree(args: seq<string>)
    requires forall i :: 0 <= i < |args| ==> NulFree(args[i])
    ensures Decode(CommandLineOf(args)) == args
  {
    CommandLineNulFree(args);
    assert UntilNul(CommandLineOf(args)) == CommandLineOf(args);
    if args != [] {
      ReadCommandLine(args);
      FrontAndLast(args);
    }
  }

  lemma FrontAndLast(args: seq<string>)
    requires args != []
    ensures args[..|args| - 1] + [args[|args| - 1]] == args
  {
  }

  /** An argument holding a NUL is never read back as it was. */
  lemma NulBreaksReadBack(args: seq<string>, i: nat)
    requires i < |args| && !NulFree(args[i])
    ensures !NulFree(CommandLineOf(args))
    ensures Decode(CommandLineOf(args)) != args
  {
    CommandLineKeepsNul(args, i);
    var decoded := Decode(CommandLineOf(args));
    DecodeNulFree(CommandLineOf(args));
    assert |decoded| != |args| || decoded[i] != args[i];
  }

  /**
    Round trip: the Microsoft C runtime reads back from the encoded command line exactly
    the arguments that were encoded, in order, exactly when no argument holds a NUL; an
    argument holding one is cut short at it.
  */
  lemma RoundTrip(args: seq<string>)
    ensures Decode(CommandLineOf(args)) == args <==> forall i :: 0 <= i < |args| ==> NulFree(args[i])
  {
    if forall i :: 0 <= i < |args| ==> NulFree(args[i]) {
      ReadBackNulFree(args);
    } else {
      var i :| 0 <= i < |args| && !NulFree(args[i]);
      NulBreaksReadBack(args, i);
    }
  }
}
