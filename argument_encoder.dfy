/**
  The command-line argument encoder of the setup tool: a list of arguments becomes one
  Windows command-line string, quoted by the rules of the Microsoft C runtime so that the
  child's argument parser gives back the same list.

  Wide strings (std::wstring) and narrow strings (std::string) are both `string` here; the
  UTF-8 to UTF-16 conversion is an abstract partial function passed in by the caller.
*/
module ArgumentEncoder {
  import opened Optional

  /** A partial conversion from a narrow (UTF-8) string to a wide string; None is a failure. */
  type Converter = string -> Option<string>

  /** The characters that force an argument into quotes: space, tab and double quote. */
  predicate ForcesQuoting(c: char) {
    c == ' ' || c == '\t' || c == '"'
  }

  predicate IsBlank(c: char) {
    c == ' ' || c == '\t'
  }

  /** An argument is written verbatim only when it is non-empty and holds no space, tab or quote. */
  predicate NeedsQuoting(arg: string) {
    arg == [] || exists i :: 0 <= i < |arg| && ForcesQuoting(arg[i])
  }

  function Backslashes(n: nat): (s: string)
    ensures |s| == n
    ensures forall i :: 0 <= i < n ==> s[i] == '\\'
  {
    seq(n, _ => '\\')
  }

  lemma BackslashesAdd(m: nat, n: nat)
    ensures Backslashes(m) + Backslashes(n) == Backslashes(m + n)
  {
    assert forall i :: 0 <= i < m + n ==> (Backslashes(m) + Backslashes(n))[i] == Backslashes(m + n)[i];
  }

  /**
    The text written between the two quotes of a quoted argument, scanning left to right
    with `pending` backslashes counted but not yet written: a run of n backslashes followed
    by a quote becomes 2n+1 backslashes and the quote, a run that reaches the end becomes 2n
    backslashes, and a run followed by any other character is kept as it is.
  */
  function EscapeFrom(s: string, pending: nat): string
  {
    if s == [] then Backslashes(2 * pending)
    else if s[0] == '\\' then EscapeFrom(s[1..], pending + 1)
    else if s[0] == '"' then Backslashes(2 * pending + 1) + ['"'] + EscapeFrom(s[1..], 0)
    else Backslashes(pending) + [s[0]] + EscapeFrom(s[1..], 0)
  }

  function EscapeBody(s: string): string {
    EscapeFrom(s, 0)
  }

  /** One argument as it appears on the command line. */
  function Quoted(arg: string): string {
    if NeedsQuoting(arg) then ['"'] + EscapeBody(arg) + ['"'] else arg
  }

  /** The quoted arguments joined by single spaces; no arguments give the empty string. */
  function CommandLineOf(args: seq<string>): string
  {
    if |args| == 0 then []
    else if |args| == 1 then Quoted(args[0])
    else CommandLineOf(args[..|args| - 1]) + [' '] + Quoted(args[|args| - 1])
  }

  /** utf8_to_wstring: the empty string converts to itself without calling the converter. */
  function Utf8ToWide(widen: Converter, s: string): (r: Option<string>)
    ensures s == [] ==> r == Some([])
  {
    if s == [] then Some([]) else widen(s)
  }

  /** All arguments converted, or None as soon as one of them fails to convert. */
  function WideArgs(widen: Converter, args: seq<string>): (r: Option<seq<string>>)
    ensures r.Some? <==> forall i :: 0 <= i < |args| ==> Utf8ToWide(widen, args[i]).Some?
    ensures r.Some? ==> |r.value| == |args|
    ensures r.Some? ==> forall i :: 0 <= i < |args| ==> r.value[i] == Utf8ToWide(widen, args[i]).value
  {
    if args == [] then Some([])
    else
      match WideArgs(widen, args[..|args| - 1])
      case None => None
      case Some(front) =>
        match Utf8ToWide(widen, args[|args| - 1])
        case None => None
        case Some(w) => Some(front + [w])
  }

  // ---------------------------------------------------------------------------------------
  // Properties of the quoting rule, clause by clause.

  /** A run of backslashes is only counted: nothing is written until the character after it. */
  lemma {:induction false} EscapeSkipsRun(n: nat, rest: string, pending: nat)
    ensures EscapeFrom(Backslashes(n) + rest, pending) == EscapeFrom(rest, pending + n)
  {
    if n > 0 {
      var s := Backslashes(n) + rest;
      assert s[0] == '\\';
      assert s[1..] == Backslashes(n - 1) + rest by {
        assert Backslashes(n) == ['\\'] + Backslashes(n - 1);
      }
      EscapeSkipsRun(n - 1, rest, pending + 1);
    } else {
      assert Backslashes(n) + rest == rest;
    }
  }

  /** A run of n backslashes right before a quote is written as 2n+1 backslashes and the quote. */
  lemma EscapeRunBeforeQuote(n: nat, rest: string)
    ensures EscapeBody(Backslashes(n) + ['"'] + rest)
         == Backslashes(2 * n + 1) + ['"'] + EscapeBody(rest)
  {
    assert Backslashes(n) + ['"'] + rest == Backslashes(n) + (['"'] + rest);
    EscapeSkipsRun(n, ['"'] + rest, 0);
    assert (['"'] + rest)[1..] == rest;
  }

  /** A run of n backslashes that ends the argument is doubled (it stands before the closing quote). */
  lemma EscapeRunAtEnd(n: nat)
    ensures EscapeBody(Backslashes(n)) == Backslashes(2 * n)
  {
    assert Backslashes(n) + [] == Backslashes(n);
    EscapeSkipsRun(n, [], 0);
  }

  /** A run of n backslashes followed by any other character is copied unchanged. */
  lemma EscapeRunBeforeOther(n: nat, c: char, rest: string)
    requires c != '\\' && c != '"'
    ensures EscapeBody(Backslashes(n) + [c] + rest) == Backslashes(n) + [c] + EscapeBody(rest)
  {
    assert Backslashes(n) + [c] + rest == Backslashes(n) + ([c] + rest);
    EscapeSkipsRun(n, [c] + rest, 0);
    assert ([c] + rest)[1..] == rest;
  }

  /** The characters other than backslash and quote, in order. */
  function Plain(s: string): string {
    if s == [] then []
    else if s[0] == '\\' || s[0] == '"' then Plain(s[1..])
    else [s[0]] + Plain(s[1..])
  }

  lemma {:induction false} PlainAppend(a: string, b: string)
    ensures Plain(a + b) == Plain(a) + Plain(b)
  {
    if a == [] {
      assert a + b == b;
    } else {
      assert (a + b)[1..] == a[1..] + b;
      PlainAppend(a[1..], b);
    }
  }

  lemma {:induction false} PlainBackslashes(n: nat)
    ensures Plain(Backslashes(n)) == []
  {
    if n > 0 {
      assert Backslashes(n)[1..] == Backslashes(n - 1);
      PlainBackslashes(n - 1);
    }
  }

  /** Escaping keeps every character that is neither a backslash nor a quote, in order. */
  lemma {:induction false} EscapeKeepsPlain(s: string, pending: nat)
    ensures Plain(EscapeFrom(s, pending)) == Plain(s)
  {
    if s == [] {
      PlainBackslashes(2 * pending);
    } else {
      var rest := s[1..];
      assert s == [s[0]] + rest;
      PlainAppend([s[0]], rest);
      if s[0] == '\\' {
        EscapeKeepsPlain(rest, pending + 1);
      } else {
        EscapeKeepsPlain(rest, 0);
        var k := if s[0] == '"' then 2 * pending + 1 else pending;
        PlainBackslashes(k);
        PlainAppend(Backslashes(k) + [s[0]], EscapeFrom(rest, 0));
        PlainAppend(Backslashes(k), [s[0]]);
      }
    }
  }

  /** Escaping never shortens the body; pending backslashes are written at least once. */
  lemma {:induction false} EscapeNotShorter(s: string, pending: nat)
    ensures |EscapeFrom(s, pending)| >= |s| + pending
  {
    if s != [] {
      EscapeNotShorter(s[1..], if s[0] == '\\' then pending + 1 else 0);
    }
  }

  /**
    An argument is left as it is exactly when it needs no quoting; otherwise it is wrapped
    in quotes, and the empty argument is written as two quotes.
  */
  lemma QuotingTrigger(arg: string)
    ensures Quoted(arg) == arg <==> !NeedsQuoting(arg)
    ensures NeedsQuoting(arg) ==>
      var q := Quoted(arg); |q| >= 2 && q[0] == '"' && q[|q| - 1] == '"'
    ensures Quoted([]) == ['"', '"']
  {
    if NeedsQuoting(arg) {
      EscapeNotShorter(arg, 0);
    }
    assert EscapeBody([]) == [];
  }

  /** The encoded argument is never empty and never begins or ends with a blank. */
  lemma QuotedHasNoOuterBlank(arg: string)
    ensures var q := Quoted(arg); q != [] && !IsBlank(q[0]) && !IsBlank(q[|q| - 1])
  {
    if !NeedsQuoting(arg) {
      assert !ForcesQuoting(arg[0]) && !ForcesQuoting(arg[|arg| - 1]);
    }
  }

  /**
    build_command_line_string's joining: no arguments give the empty string, otherwise the
    result is non-empty with no leading or trailing separator.
  */
  lemma {:induction false} CommandLineShape(args: seq<string>)
    ensures var line := CommandLineOf(args);
      (args == [] <==> line == []) &&
      (line != [] ==> !IsBlank(line[0]) && !IsBlank(line[|line| - 1]))
  {
    if |args| == 1 {
      QuotedHasNoOuterBlank(args[0]);
    } else if |args| > 1 {
      CommandLineShape(args[..|args| - 1]);
      QuotedHasNoOuterBlank(args[|args| - 1]);
    }
  }

  lemma AppendAssoc(a: string, b: string, c: string, d: string)
    ensures a + b + c + d == a + (b + c + d)
  {
  }

  // ---------------------------------------------------------------------------------------
  // The imperative encoder, as the source writes it: appending to a stream.

  /**
    quote_argument: appends the encoding of `argument` to the stream contents `commandLine`,
    counting each run of backslashes and writing it once the character after it is known.
  */
  method QuoteArgument(argument: string, commandLine: string) returns (out: string)
    ensures out == commandLine + Quoted(argument)
  {
    var needsQuoting := NeedsQuoting(argument);
    if !needsQuoting {
      out := commandLine + argument;
      return;
    }
    ghost var whole := commandLine + ['"'] + EscapeBody(argument);
    out := commandLine + ['"'];
    var it := 0;
    assert argument[it..] == argument;
    while true
      invariant 0 <= it <= |argument|
      invariant out + EscapeFrom(argument[it..], 0) == whole
      decreases |argument| - it
    {
      var backslashCount := 0;
      while it < |argument| && argument[it] == '\\'
        invariant 0 <= it <= |argument|
        invariant out + EscapeFrom(argument[it..], backslashCount) == whole
      {
        assert argument[it..][1..] == argument[it + 1..];
        backslashCount := backslashCount + 1;
        it := it + 1;
      }
      if it == |argument| {
        out := out + Backslashes(backslashCount * 2);
        break;
      }
      assert argument[it..][1..] == argument[it + 1..];
      ghost var before := out;
      if argument[it] == '"' {
        out := out + Backslashes(backslashCount * 2 + 1);
        out := out + ['"'];
        AppendAssoc(before, Backslashes(backslashCount * 2 + 1), ['"'], EscapeFrom(argument[it + 1..], 0));
      } else {
        out := out + Backslashes(backslashCount);
        out := out + [argument[it]];
        AppendAssoc(before, Backslashes(backslashCount), [argument[it]], EscapeFrom(argument[it + 1..], 0));
      }
      it := it + 1;
    }
    out := out + ['"'];
    AppendAssoc(commandLine, ['"'], EscapeBody(argument), ['"']);
  }

  /**
    build_command_line_string: converts each argument and appends its encoding, a single
    space between two arguments. A failed conversion abandons the whole string (the source
    rethrows the conversion error).
  */
  method BuildCommandLineString(widen: Converter, args: seq<string>) returns (line: Option<string>)
    ensures line.Some? <==> WideArgs(widen, args).Some?
    ensures line.Some? ==> line.value == CommandLineOf(WideArgs(widen, args).value)
  {
    if args == [] {
      return Some([]);
    }
    var stream: string := [];
    var firstArg := true;
    for i := 0 to |args|
      invariant firstArg <==> i == 0
      invariant WideArgs(widen, args[..i]).Some?
      invariant stream == CommandLineOf(WideArgs(widen, args[..i]).value)
    {
      if !firstArg {
        stream := stream + [' '];
      }
      firstArg := false;
      var wideArg := Utf8ToWide(widen, args[i]);
      if wideArg.None? {
        assert !WideArgs(widen, args).Some?;
        return None;
      }
      assert args[..i + 1][..i] == args[..i];
      stream := QuoteArgument(wideArg.value, stream);
    }
    assert args[..|args|] == args;
    return Some(stream);
  }
}
