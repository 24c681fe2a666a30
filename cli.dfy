/** The command-line entry point: the dispatch on the first argument and the
    `--issue <number>` parsing of `agent-run`. */
module Cli {
  import opened Wrappers
  import opened Text

  // ---------------------------------------------------------------------
  // parseInt(s, 10)

  predicate IsDigit(c: char)
  {
    '0' <= c <= '9'
  }

  predicate AllDigits(s: string)
  {
    forall k :: 0 <= k < |s| ==> IsDigit(s[k])
  }

  /** `s` without its leading white space. */
  function SkipSpace(s: string): (t: string)
    ensures |t| <= |s|
    ensures t != [] ==> !IsWhitespace(t[0])
  {
    if s != [] && IsWhitespace(s[0]) then SkipSpace(s[1..]) else s
  }

  lemma {:induction false} SkipSpacePrefix(w: string, s: string)
    requires forall k :: 0 <= k < |w| ==> IsWhitespace(w[k])
    ensures SkipSpace(w + s) == SkipSpace(s)
    decreases |w|
  {
    if w != [] {
      assert (w + s)[1..] == w[1..] + s;
      SkipSpacePrefix(w[1..], s);
    } else {
      assert w + s == s;
    }
  }

  /** What follows an optional sign. */
  function Unsigned(t: string): string
  {
    if t != [] && (t[0] == '-' || t[0] == '+') then t[1..] else t
  }

  /** The longest prefix of decimal digits. */
  function DigitPrefix(s: string): (d: string)
    ensures d <= s && AllDigits(d)
    ensures |d| < |s| ==> !IsDigit(s[|d|])
  {
    if s != [] && IsDigit(s[0]) then [s[0]] + DigitPrefix(s[1..]) else []
  }

  /** The number decimal digits stand for. */
  function DigitsValue(d: string): (n: nat)
    requires AllDigits(d)
    decreases |d|
  {
    if d == [] then 0
    else DigitsValue(d[..|d| - 1]) * 10 + (d[|d| - 1] as int - '0' as int)
  }

  /** The number at the start of `t`, which starts with no white space: an
      optional sign and the longest run of digits after it, and no number
      without a digit. */
  function ParseTrimmed(t: string): (r: Option<int>)
    ensures r.None? <==> (Unsigned(t) == [] || !IsDigit(Unsigned(t)[0]))
  {
    var d := DigitPrefix(Unsigned(t));
    var v: int := DigitsValue(d);
    if d == [] then None
    else if t[0] == '-' then Some(-v)
    else Some(v)
  }

  /** `parseInt(s, 10)`, with `NaN` as `None`: leading white space is
      skipped first. */
  function ParseInt(s: string): (r: Option<int>)
    ensures r.None? <==> (Unsigned(SkipSpace(s)) == [] || !IsDigit(Unsigned(SkipSpace(s))[0]))
  {
    ParseTrimmed(SkipSpace(s))
  }

  /** Reading back a printed natural number gives the number. */
  lemma {:induction false} DigitsOfNat(n: nat)
    ensures AllDigits(NatToString(n)) && DigitsValue(NatToString(n)) == n
  {
    if n >= 10 {
      DigitsOfNat(n / 10);
      var s := NatToString(n);
      assert s[..|s| - 1] == NatToString(n / 10);
    }
  }

  lemma {:induction false} DigitPrefixOfDigits(d: string, rest: string)
    requires AllDigits(d)
    requires rest == [] || !IsDigit(rest[0])
    ensures DigitPrefix(d + rest) == d
    decreases |d|
  {
    if d == [] {
      assert d + rest == rest;
    } else {
      assert (d + rest)[1..] == d[1..] + rest;
      DigitPrefixOfDigits(d[1..], rest);
    }
  }

  lemma SkipNoSpace(s: string)
    requires s != [] && !IsWhitespace(s[0])
    ensures SkipSpace(s) == s
  {
  }

  lemma UnsignedSign(s: string)
    ensures Unsigned("-" + s) == s
  {
    assert ("-" + s)[1..] == s;
  }

  /** Digits followed by anything that does not start with a digit parse as
      the digits alone ("42x" is 42). */
  lemma ParsePlain(d: string, rest: string)
    requires d != [] && AllDigits(d)
    requires rest == [] || !IsDigit(rest[0])
    ensures ParseInt(d + rest) == Some(DigitsValue(d))
  {
    var s := d + rest;
    assert s[0] == d[0];
    SkipNoSpace(s);
    DigitPrefixOfDigits(d, rest);
  }

  /** The same after a minus sign ("-3" is -3). */
  lemma ParseMinus(d: string, rest: string)
    requires d != [] && AllDigits(d)
    requires rest == [] || !IsDigit(rest[0])
    ensures ParseInt("-" + (d + rest)) == Some(-(DigitsValue(d) as int))
  {
    var m := "-" + (d + rest);
    SkipNoSpace(m);
    UnsignedSign(d + rest);
    DigitPrefixOfDigits(d, rest);
  }

  /** Leading white space changes nothing. */
  lemma ParseSkipsSpace(w: string, s: string)
    requires forall k :: 0 <= k < |w| ==> IsWhitespace(w[k])
    ensures ParseInt(w + s) == ParseInt(s)
  {
    SkipSpacePrefix(w, s);
  }

  lemma ParseDigitsOnly(d: string)
    requires d != [] && AllDigits(d)
    ensures ParseInt(d) == Some(DigitsValue(d))
    ensures ParseInt("-" + d) == Some(-(DigitsValue(d) as int))
  {
    assert d + [] == d;
    ParsePlain(d, []);
    ParseMinus(d, []);
  }

  /** `parseInt` reads back what `${n}` prints, with or without a minus sign. */
  lemma ParseRoundTrip(n: nat)
    ensures ParseInt(NatToString(n)) == Some(n)
    ensures ParseInt("-" + NatToString(n)) == Some(-(n as int))
  {
    ParseNatDigits(n);
    ParseMinusDigits(n);
  }

  lemma ParseNatDigits(n: nat)
    ensures ParseInt(NatToString(n)) == Some(n)
  {
    var d := NatToString(n);
    assert d + [] == d;
    DigitsOfNat(n);
    ParsePlain(d, []);
  }

  lemma ParseMinusDigits(n: nat)
    ensures ParseInt("-" + NatToString(n)) == Some(-(n as int))
  {
    NumeralOfNat(n);
    ParseMinusValue(NatToString(n), n);
  }

  lemma ParseMinusValue(d: string, n: nat)
    requires Numeral(d) && DigitsValue(d) == n
    ensures ParseInt("-" + d) == Some(-(n as int))
  {
    ParseMinusAll(d);
  }

  /** What printing a natural number gives is a numeral standing for it. */
  lemma NumeralOfNat(n: nat)
    ensures Numeral(NatToString(n)) && DigitsValue(NatToString(n)) == n
  {
    DigitsOfNat(n);
  }

  predicate Numeral(d: string)
  {
    d != [] && AllDigits(d)
  }

  lemma ParseMinusAll(d: string)
    ensures Numeral(d) ==> ParseInt("-" + d) == Some(-(DigitsValue(d) as int))
  {
    if Numeral(d) {
      assert "-" + (d + []) == "-" + d;
      ParseMinus(d, []);
    }
  }

  /** `parseInt` reads back every integer `${n}` prints. */
  lemma ParseIntToString(n: int)
    ensures ParseInt(IntToString(n)) == Some(n)
  {
    if n >= 0 {
      ParseNatString(n);
    } else {
      ParseNegString(n);
    }
  }

  lemma ParseNatString(n: nat)
    ensures ParseInt(IntToString(n)) == Some(n)
  {
    assert IntToString(n) == NatToString(n);
    ParseRoundTrip(n);
  }

  lemma ParseNegString(n: int)
    requires n < 0
    ensures ParseInt(IntToString(n)) == Some(n)
  {
    var m: nat := -n;
    assert IntToString(n) == "-" + NatToString(m);
    ParseRoundTrip(m);
  }

  // ---------------------------------------------------------------------
  // parseIssueNumber

  const IssueFlag: string := "--issue"

  /** `args.indexOf(x)`, with `-1` as `None`. */
  function FirstIndex(args: seq<string>, x: string): (r: Option<nat>)
    ensures r.Some? ==> r.value < |args| && args[r.value] == x && x !in args[..r.value]
    ensures r.None? <==> x !in args
  {
    if args == [] then None
    else if args[0] == x then Some(0)
    else
      match FirstIndex(args[1..], x)
      case None => None
      case Some(i) =>
        assert args[..i + 1] == [args[0]] + args[1..][..i];
        Some(i + 1)
  }

  /** `parseIssueNumber(args)`: the argument after the first `--issue`,
      parsed, when there is one and it is not empty. */
  function ParseIssueNumber(args: seq<string>): (r: Option<int>)
    ensures IssueFlag !in args ==> r == None
  {
    match FirstIndex(args, IssueFlag)
    case None => None
    case Some(i) => if i + 1 < |args| && args[i + 1] != "" then ParseInt(args[i + 1]) else None
  }

  /** The first `--issue` decides: the number is what its argument parses to,
      and there is none when the flag is last or its argument is empty. */
  lemma FirstFlagDecides(args: seq<string>, i: nat)
    requires i < |args| && args[i] == IssueFlag && IssueFlag !in args[..i]
    ensures i + 1 == |args| ==> ParseIssueNumber(args) == None
    ensures i + 1 < |args| && args[i + 1] == "" ==> ParseIssueNumber(args) == None
    ensures i + 1 < |args| && args[i + 1] != "" ==> ParseIssueNumber(args) == ParseInt(args[i + 1])
  {
    var f := FirstIndex(args, IssueFlag);
    assert f.Some? by {
      assert args[i] in args;
    }
  }

  /** `--issue 42` gives 42 wherever it stands, when no `--issue` comes
      before it; a later `--issue` is ignored. */
  lemma FlagThenNumber(pre: seq<string>, n: nat, post: seq<string>)
    requires IssueFlag !in pre
    ensures ParseIssueNumber(pre + [IssueFlag, NatToString(n)] + post) == Some(n)
    ensures ParseIssueNumber(pre + [IssueFlag, "-" + NatToString(n)] + post) == Some(-(n as int))
  {
    var a := pre + [IssueFlag, NatToString(n)] + post;
    var b := pre + [IssueFlag, "-" + NatToString(n)] + post;
    assert a[..|pre|] == pre && a[|pre|] == IssueFlag;
    assert b[..|pre|] == pre && b[|pre|] == IssueFlag;
    FirstFlagDecides(a, |pre|);
    FirstFlagDecides(b, |pre|);
    ParseRoundTrip(n);
  }

  // ---------------------------------------------------------------------
  // Dispatch

  /** What one invocation does. */
  datatype Action =
    | RanInit
    | ShowedStatus
    | RanAgent(issueNumber: int)
    | MissingIssue
    | ShowedHelp
    | ShowedVersion
    | UnknownCommand(command: Option<string>)

  /** `agentRunCommand(args)`: a missing number and a number that is 0 are
      refused alike (`!issueNumber`). */
  function AgentRun(args: seq<string>): (a: Action)
    ensures a.RanAgent? || a == MissingIssue
  {
    match ParseIssueNumber(args)
    case None => MissingIssue
    case Some(n) => if n == 0 then MissingIssue else RanAgent(n)
  }

  /** The `switch (command)` on the first argument; with no argument the
      command is `undefined`, which no case matches. */
  function Dispatch(args: seq<string>): (a: Action)
    ensures a.UnknownCommand? <==> args == [] || args[0] !in Commands
    ensures a.RanAgent? || a == MissingIssue <==> args != [] && args[0] == "agent-run"
    ensures a == ShowedHelp <==> args != [] && args[0] in {"help", "--help", "-h"}
    ensures a == ShowedVersion <==> args != [] && args[0] in {"version", "--version", "-v"}
  {
    if args == [] then UnknownCommand(None)
    else
      var command := args[0];
      if command == "init" then RanInit
      else if command == "status" then ShowedStatus
      else if command == "agent-run" then AgentRun(args[1..])
      else if command == "help" || command == "--help" || command == "-h" then ShowedHelp
      else if command == "version" || command == "--version" || command == "-v" then ShowedVersion
      else UnknownCommand(Some(command))
  }

  /** The process exit status: `process.exit(1)` on the two error paths. */
  function ExitCode(a: Action): (code: nat)
    ensures code == 0 || code == 1
    ensures code == 1 <==> a == MissingIssue || a.UnknownCommand?
  {
    if a == MissingIssue || a.UnknownCommand? then 1 else 0
  }

  const Commands: set<string> :=
    {"init", "status", "agent-run", "help", "--help", "-h", "version", "--version", "-v"}

  /** Each alias selects its command, and any other first argument (or none)
      shows the help and exits with 1. */
  lemma DispatchCases(args: seq<string>)
    ensures args != [] && args[0] in {"help", "--help", "-h"} ==> Dispatch(args) == ShowedHelp
    ensures args != [] && args[0] in {"version", "--version", "-v"} ==> Dispatch(args) == ShowedVersion
    ensures Dispatch(args).UnknownCommand? <==> args == [] || args[0] !in Commands
    ensures Dispatch(args).UnknownCommand? ==> ExitCode(Dispatch(args)) == 1
  {
  }

  /** `agent-run` runs exactly with a number different from 0, negative
      numbers included, and otherwise exits with 1. */
  lemma AgentRunGuard(args: seq<string>)
    ensures Dispatch(["agent-run"] + args).RanAgent? <==>
      ParseIssueNumber(args).Some? && ParseIssueNumber(args).value != 0
    ensures Dispatch(["agent-run"] + args).RanAgent? ==>
      Dispatch(["agent-run"] + args).issueNumber == ParseIssueNumber(args).value
    ensures ExitCode(Dispatch(["agent-run"] + args)) == 1 <==>
      ParseIssueNumber(args) == None || ParseIssueNumber(args) == Some(0)
  {
    assert (["agent-run"] + args)[1..] == args;
  }

  /** `agent-run --issue x` for a non-empty `x` runs with what `x` parses
      to, unless that is nothing or 0. */
  lemma AgentRunFlag(x: string)
    requires x != ""
    ensures Dispatch(["agent-run", IssueFlag, x]) ==
      match ParseInt(x)
      case None => MissingIssue
      case Some(n) => if n == 0 then MissingIssue else RanAgent(n)
  {
    var args := [IssueFlag, x];
    assert args[..0] == [];
    FirstFlagDecides(args, 0);
    assert ["agent-run", IssueFlag, x][1..] == args;
  }

  /** The documented invocation `agent-run --issue 123` runs issue 123. */
  lemma DocumentedInvocation()
    ensures Dispatch(["agent-run", IssueFlag, "123"]) == RanAgent(123)
  {
    assert "123"[..2] == "12" && "12"[..1] == "1" && "1"[..0] == "";
    assert DigitsValue("123") == 123;
    ParseDigitsOnly("123");
    AgentRunFlag("123");
  }

  /** `--issue -3` runs issue -3: negative numbers pass the guard. */
  lemma NegativeIssueRuns()
    ensures Dispatch(["agent-run", IssueFlag, "-3"]) == RanAgent(-3)
  {
    assert "3"[..0] == "";
    assert DigitsValue("3") == 3;
    ParseDigitsOnly("3");
    assert "-" + "3" == "-3";
    AgentRunFlag("-3");
  }

  /** `--issue 0` is refused like a missing number, and so is `--issue x`. */
  lemma ZeroIssueRefused()
    ensures Dispatch(["agent-run", IssueFlag, "0"]) == MissingIssue
    ensures Dispatch(["agent-run", IssueFlag, "x"]) == MissingIssue
  {
    assert "0"[..0] == "";
    assert DigitsValue("0") == 0;
    ParseDigitsOnly("0");
    AgentRunFlag("0");
    AgentRunFlag("x");
  }
}
