/** Command-line pre-parsing of the `esmero` program: before argparse sees
    the arguments, a default input path `.` and the default subcommand
    `build` are inserted where the user left them out. */
module Argv {
  import opened Outcomes

  /** How many argv tokens an option string takes up: the option alone, or
      the option and its value. */
  type Arity = n: int | 1 <= n <= 2 witness 1

  /** An argparse action, as far as pre-parsing cares: the option strings it
      answers to and whether it converts a value (has a `type`). */
  datatype Action = Action(optionStrings: seq<string>, typed: bool)

  function ActionArity(a: Action): Arity {
    if a.typed then 2 else 1
  }

  /** The option table built from the parser's actions, later actions
      overriding earlier ones for a repeated option string. */
  function OptionArity(actions: seq<Action>): map<string, Arity> {
    if actions == [] then map[]
    else
      var last := actions[|actions| - 1];
      AddOptions(OptionArity(actions[..|actions| - 1]), last.optionStrings, ActionArity(last))
  }

  /** m with every string of strs mapped to n. */
  function AddOptions(m: map<string, Arity>, strs: seq<string>, n: Arity): map<string, Arity> {
    if strs == [] then m
    else AddOptions(m, strs[..|strs| - 1], n)[strs[|strs| - 1] := n]
  }

  lemma {:induction false} AddOptionsMeaning(m: map<string, Arity>, strs: seq<string>, n: Arity, k: string)
    ensures k in AddOptions(m, strs, n) <==> k in m || k in strs
    ensures k in strs ==> AddOptions(m, strs, n)[k] == n
    ensures k !in strs && k in m ==> AddOptions(m, strs, n)[k] == m[k]
  {
    if strs != [] {
      var init := strs[..|strs| - 1];
      AddOptionsMeaning(m, init, n, k);
      assert strs == init + [strs[|strs| - 1]];
      assert k in strs <==> k in init || k == strs[|strs| - 1];
    }
  }

  /** Fills the option table, one action and one option string at a time. */
  method GetArgparseOptions(actions: seq<Action>) returns (opt: map<string, Arity>)
    ensures opt == OptionArity(actions)
  {
    opt := map[];
    for i := 0 to |actions|
      invariant opt == OptionArity(actions[..i])
    {
      var action := actions[i];
      ghost var before := opt;
      for j := 0 to |action.optionStrings|
        invariant opt == AddOptions(before, action.optionStrings[..j], ActionArity(action))
      {
        assert action.optionStrings[..j + 1][..j] == action.optionStrings[..j];
        opt := opt[action.optionStrings[j] := if action.typed then 2 else 1];
      }
      assert action.optionStrings[..|action.optionStrings|] == action.optionStrings;
      assert actions[..i + 1][..i] == actions[..i];
    }
    assert actions[..|actions|] == actions;
  }

  /** An option string is in the table exactly when some action answers to
      it. */
  lemma {:induction false} OptionArityKeys(actions: seq<Action>, k: string)
    ensures k in OptionArity(actions) <==>
              exists i :: 0 <= i < |actions| && k in actions[i].optionStrings
  {
    if actions != [] {
      var n := |actions|;
      var init := actions[..n - 1];
      var last := actions[n - 1];
      OptionArityKeys(init, k);
      AddOptionsMeaning(OptionArity(init), last.optionStrings, ActionArity(last), k);
      if k in OptionArity(init) {
        var i :| 0 <= i < n - 1 && k in init[i].optionStrings;
        assert init[i] == actions[i];
      }
      if exists i :: 0 <= i < n && k in actions[i].optionStrings {
        var i :| 0 <= i < n && k in actions[i].optionStrings;
        if i < n - 1 {
          assert init[i] == actions[i];
        }
      }
    }
  }

  /** The arity of an option string is that of the last action answering
      to it: 1 without a type, 2 with one. */
  lemma {:induction false} OptionArityLastWins(actions: seq<Action>, k: string, i: int)
    requires 0 <= i < |actions| && k in actions[i].optionStrings
    requires forall j :: i < j < |actions| ==> k !in actions[j].optionStrings
    ensures k in OptionArity(actions) && OptionArity(actions)[k] == ActionArity(actions[i])
  {
    var n := |actions|;
    var init := actions[..n - 1];
    var last := actions[n - 1];
    AddOptionsMeaning(OptionArity(init), last.optionStrings, ActionArity(last), k);
    if i < n - 1 {
      assert init[i] == actions[i];
      forall j | i < j < n - 1 ensures k !in init[j].optionStrings {
        assert init[j] == actions[j];
      }
      OptionArityLastWins(init, k, i);
    }
  }

  /** The actions of esmero's top-level parser, in the order argparse keeps
      them: help, version, the optional input path, --debug, --debug-path,
      --cfg and the subcommand dispatcher. */
  const EsmeroActions: seq<Action> := [
    Action(["-h", "--help"], false),
    Action(["-v", "--version"], false),
    Action([], true),
    Action(["--debug"], false),
    Action(["--debug-path"], true),
    Action(["--cfg"], true),
    Action([], false)
  ]

  /** The option strings of esmero's top-level parser. */
  const EsmeroOptionStrings: set<string> :=
    {"-h", "--help", "-v", "--version", "--debug", "--debug-path", "--cfg"}

  /** The table esmero's own parser produces: its option strings, with
      `--debug-path` and `--cfg` taking a value and the rest standing alone. */
  lemma EsmeroOptionTable()
    ensures forall k :: k in OptionArity(EsmeroActions) <==> k in EsmeroOptionStrings
    ensures forall k :: k in EsmeroOptionStrings ==>
              OptionArity(EsmeroActions)[k] == if k in {"--debug-path", "--cfg"} then 2 else 1
  {
    var a := EsmeroActions;
    forall k ensures k in OptionArity(a) <==> k in EsmeroOptionStrings {
      OptionArityKeys(a, k);
      if k in OptionArity(a) {
        var i :| 0 <= i < |a| && k in a[i].optionStrings;
        assert i != 2 && i != 6;
      }
      if k in {"-h", "--help"} {
        assert k in a[0].optionStrings;
      } else if k in {"-v", "--version"} {
        assert k in a[1].optionStrings;
      } else if k == "--debug" {
        assert k in a[3].optionStrings;
      } else if k == "--debug-path" {
        assert k in a[4].optionStrings;
      } else if k == "--cfg" {
        assert k in a[5].optionStrings;
      }
    }
    OptionArityLastWins(a, "-h", 0);
    OptionArityLastWins(a, "--help", 0);
    OptionArityLastWins(a, "-v", 1);
    OptionArityLastWins(a, "--version", 1);
    OptionArityLastWins(a, "--debug", 3);
    OptionArityLastWins(a, "--debug-path", 4);
    OptionArityLastWins(a, "--cfg", 5);
  }

  // ---------------------------------------------------------------------
  // Rewriting argv

  const DefaultCommand := "build"

  /** `list.insert(i, x)` for a non-negative index: past the end it appends. */
  function Insert(s: seq<string>, i: nat, x: string): (r: seq<string>)
    ensures |r| == |s| + 1
  {
    if i >= |s| then s + [x] else s[..i] + [x] + s[i..]
  }

  /** Where skipping the leading global options ends: past the end of argv
      (the lookup raises IndexError) or at a token that is not an option. */
  datatype Scan = RanOut(index: nat) | StoppedAt(index: nat)

  function SkipOptions(argv: seq<string>, opt: map<string, Arity>, index: nat): (r: Scan)
    ensures r.StoppedAt? ==> index <= r.index < |argv| && argv[r.index] !in opt
    ensures r.RanOut? ==> r.index >= |argv|
    decreases |argv| - index
  {
    if index >= |argv| then RanOut(index)
    else if argv[index] in opt then SkipOptions(argv, opt, index + opt[argv[index]])
    else StoppedAt(index)
  }

  /** The rewritten argv: `argv` is the program's argument vector, `opt` the
      option table and `parsers` the subcommand names. */
  function Preparsed(argv: seq<string>, opt: map<string, Arity>, parsers: set<string>): seq<string> {
    match SkipOptions(argv, opt, 1)
    case RanOut(index) => NoPositional(argv, index, parsers)
    case StoppedAt(index) =>
      if index == 1 && argv[1] == "" then NoPositional(argv, 1, parsers)
      else if index == 1 && argv[1][0] == '-' then Insert(Insert(argv, 1, DefaultCommand), 1, ".")
      else AtPositional(argv, index, parsers)
  }

  /** The IndexError path before any positional token was seen: append the
      default subcommand, then put `.` at the scan position. */
  function NoPositional(argv: seq<string>, index: nat, parsers: set<string>): seq<string> {
    var a := argv + [DefaultCommand];
    if DefaultCommand in parsers then Insert(a, index, ".") else a
  }

  /** A positional token at `index`; `defaults` gets `.` in front of it
      first. */
  function AtPositional(argv: seq<string>, index: nat, parsers: set<string>): seq<string>
    requires index < |argv|
  {
    var arg := argv[index];
    Finish(if arg == "defaults" then Insert(argv, index, ".") else argv, index, arg, parsers)
  }

  /** What follows once the positional token `arg` is known: nothing when a
      subcommand comes next, else `.` before a subcommand or `build` after a
      path (appended when the lookup of the next token raises IndexError). */
  function Finish(a: seq<string>, index: nat, arg: string, parsers: set<string>): seq<string> {
    if index + 1 < |a| && a[index + 1] in parsers then a
    else if arg in parsers then Insert(a, index, ".")
    else if index + 1 < |a| then Insert(a, index + 1, DefaultCommand)
    else a + [DefaultCommand]
  }

  /** sys.argv, which pre-parsing rewrites in place. */
  class CommandLine {
    var argv: seq<string>

    constructor (argv: seq<string>)
      ensures this.argv == argv
    {
      this.argv := argv;
    }

    method PreparseArgs(actions: seq<Action>, parsers: set<string>)
      modifies this
      ensures argv == Preparsed(old(argv), OptionArity(actions), parsers)
    {
      var opt := GetArgparseOptions(actions);
      ghost var original := argv;
      var index := 1;
      while index < |argv| && argv[index] in opt
        invariant SkipOptions(argv, opt, index) == SkipOptions(argv, opt, 1)
        decreases |argv| - index
      {
        index := index + opt[argv[index]];
      }
      if index >= |argv| || (index == 1 && argv[1] == "") {
        // IndexError before a positional token was taken
        argv := argv + [DefaultCommand];
        if DefaultCommand in parsers {
          argv := Insert(argv, index, ".");
        }
        return;
      }
      if index == 1 && argv[index][0] == '-' {
        argv := Insert(argv, index, DefaultCommand);
        argv := Insert(argv, index, ".");
        return;
      }
      var arg := argv[index];
      if arg == "defaults" {
        argv := Insert(argv, index, ".");
      }
      if index + 1 >= |argv| {
        // IndexError looking at the token after the positional one
        if arg !in parsers {
          argv := argv + [DefaultCommand];
        }
      } else if argv[index + 1] in parsers {
        return;
      } else if arg !in parsers {
        argv := Insert(argv, index + 1, DefaultCommand);
      }
      if arg in parsers {
        argv := Insert(argv, index, ".");
      }
    }
  }

  // ---------------------------------------------------------------------
  // Properties of the rewriting

  /** f embeds a into b: a's tokens appear in b at increasing positions. */
  ghost predicate Embeds(a: seq<string>, b: seq<string>, f: seq<int>) {
    |f| == |a| &&
    (forall i :: 0 <= i < |f| ==> 0 <= f[i] < |b| && b[f[i]] == a[i]) &&
    (forall i, j :: 0 <= i < j < |f| ==> f[i] < f[j])
  }

  ghost predicate IsSubsequence(a: seq<string>, b: seq<string>) {
    exists f :: Embeds(a, b, f)
  }

  lemma SubsequenceOfItself(a: seq<string>)
    ensures IsSubsequence(a, a)
  {
    var f := seq(|a|, k => k);
    assert Embeds(a, a, f);
  }

  lemma InsertKeepsSubsequence(a: seq<string>, b: seq<string>, i: nat, x: string)
    requires IsSubsequence(a, b)
    ensures IsSubsequence(a, Insert(b, i, x))
  {
    var f :| Embeds(a, b, f);
    var g := seq(|f|, k requires 0 <= k < |f| => if f[k] < i then f[k] else f[k] + 1);
    assert Embeds(a, Insert(b, i, x), g);
  }

  lemma AppendKeepsSubsequence(a: seq<string>, b: seq<string>, x: string)
    requires IsSubsequence(a, b)
    ensures IsSubsequence(a, b + [x])
  {
    InsertKeepsSubsequence(a, b, |b|, x);
  }

  /** Pre-parsing only inserts: the original argv is a subsequence of the
      result, which has at most two more tokens. */
  lemma PreparseOnlyInserts(argv: seq<string>, opt: map<string, Arity>, parsers: set<string>)
    ensures IsSubsequence(argv, Preparsed(argv, opt, parsers))
    ensures |argv| <= |Preparsed(argv, opt, parsers)| <= |argv| + 2
  {
    SubsequenceOfItself(argv);
    match SkipOptions(argv, opt, 1)
    case RanOut(index) =>
      NoPositionalOnlyInserts(argv, index, parsers);
    case StoppedAt(index) =>
      if index == 1 && argv[1] == "" {
        NoPositionalOnlyInserts(argv, 1, parsers);
      } else if index == 1 && argv[1][0] == '-' {
        InsertKeepsSubsequence(argv, argv, 1, DefaultCommand);
        InsertKeepsSubsequence(argv, Insert(argv, 1, DefaultCommand), 1, ".");
      } else {
        AtPositionalOnlyInserts(argv, index, parsers);
      }
  }

  lemma NoPositionalOnlyInserts(argv: seq<string>, index: nat, parsers: set<string>)
    ensures IsSubsequence(argv, NoPositional(argv, index, parsers))
    ensures |argv| < |NoPositional(argv, index, parsers)| <= |argv| + 2
  {
    SubsequenceOfItself(argv);
    AppendKeepsSubsequence(argv, argv, DefaultCommand);
    InsertKeepsSubsequence(argv, argv + [DefaultCommand], index, ".");
  }

  lemma AtPositionalOnlyInserts(argv: seq<string>, index: nat, parsers: set<string>)
    requires index < |argv|
    ensures IsSubsequence(argv, AtPositional(argv, index, parsers))
    ensures |argv| <= |AtPositional(argv, index, parsers)| <= |argv| + 2
  {
    SubsequenceOfItself(argv);
    var arg := argv[index];
    if arg == "defaults" {
      InsertKeepsSubsequence(argv, argv, index, ".");
      FinishOnlyInserts(argv, Insert(argv, index, "."), index, arg, parsers);
    } else {
      FinishOnlyInserts(argv, argv, index, arg, parsers);
    }
  }

  lemma FinishOnlyInserts(argv: seq<string>, a: seq<string>, index: nat, arg: string, parsers: set<string>)
    requires IsSubsequence(argv, a)
    ensures IsSubsequence(argv, Finish(a, index, arg, parsers))
    ensures |a| <= |Finish(a, index, arg, parsers)| <= |a| + 1
  {
    if index + 1 < |a| && a[index + 1] in parsers {
    } else if arg in parsers {
      InsertKeepsSubsequence(argv, a, index, ".");
    } else if index + 1 < |a| {
      InsertKeepsSubsequence(argv, a, index + 1, DefaultCommand);
    } else {
      AppendKeepsSubsequence(argv, a, DefaultCommand);
    }
  }

  /** Nothing but global options: the default subcommand and the default
      path are added at the end, `.` first when the scan stopped exactly at
      the end, after `build` when the last option lacked its value. */
  lemma NoPositionalAppendsDefaults(argv: seq<string>, opt: map<string, Arity>, parsers: set<string>)
    requires SkipOptions(argv, opt, 1).RanOut? && DefaultCommand in parsers
    ensures SkipOptions(argv, opt, 1).index == |argv| ==>
              Preparsed(argv, opt, parsers) == argv + [".", DefaultCommand]
    ensures SkipOptions(argv, opt, 1).index > |argv| ==>
              Preparsed(argv, opt, parsers) == argv + [DefaultCommand, "."]
  {
    var index := SkipOptions(argv, opt, 1).index;
    var a := argv + [DefaultCommand];
    if index == |argv| {
      assert a[..index] == argv && a[index..] == [DefaultCommand];
    }
  }

  /** `esmero` alone becomes `esmero . build`. */
  lemma BareProgramName(prog: string, opt: map<string, Arity>, parsers: set<string>)
    requires DefaultCommand in parsers
    ensures Preparsed([prog], opt, parsers) == [prog, ".", DefaultCommand]
  {
    NoPositionalAppendsDefaults([prog], opt, parsers);
  }

  /** An unknown option in first position gets `. build` in front of it. */
  lemma LeadingUnknownOption(argv: seq<string>, opt: map<string, Arity>, parsers: set<string>)
    requires |argv| >= 2 && argv[1] !in opt && argv[1] != "" && argv[1][0] == '-'
    ensures Preparsed(argv, opt, parsers) == argv[..1] + [".", DefaultCommand] + argv[1..]
  {
  }

  /** The first token after the global options is a positional one that
      does not start an unknown first option. */
  predicate PositionalAt(argv: seq<string>, opt: map<string, Arity>, index: nat) {
    SkipOptions(argv, opt, 1) == StoppedAt(index) &&
    !(index == 1 && (argv[1] == "" || argv[1][0] == '-'))
  }

  /** A path that is not a subcommand gets `build` right after it, unless a
      subcommand already follows. */
  lemma PathGetsDefaultCommand(argv: seq<string>, opt: map<string, Arity>, parsers: set<string>, index: nat)
    requires PositionalAt(argv, opt, index)
    requires argv[index] !in parsers && argv[index] != "defaults"
    requires index + 1 < |argv| ==> argv[index + 1] !in parsers
    ensures Preparsed(argv, opt, parsers) == argv[..index + 1] + [DefaultCommand] + argv[index + 1..]
  {
    if index + 1 == |argv| {
      assert argv[..index + 1] == argv;
    }
  }

  /** A subcommand in the positional slot gets the default path `.` in
      front of it, unless another subcommand follows it. */
  lemma CommandGetsDefaultPath(argv: seq<string>, opt: map<string, Arity>, parsers: set<string>, index: nat)
    requires PositionalAt(argv, opt, index)
    requires argv[index] in parsers && argv[index] != "defaults"
    requires index + 1 < |argv| ==> argv[index + 1] !in parsers
    ensures Preparsed(argv, opt, parsers) == argv[..index] + ["."] + argv[index..]
  {
  }

  /** A positional token already followed by a subcommand leaves argv as it
      is. */
  lemma ExplicitCommandUnchanged(argv: seq<string>, opt: map<string, Arity>, parsers: set<string>, index: nat)
    requires PositionalAt(argv, opt, index)
    requires argv[index] != "defaults" && index + 1 < |argv| && argv[index + 1] in parsers
    ensures Preparsed(argv, opt, parsers) == argv
  {
  }

  /** `defaults` in the positional slot gets `.` in front of it; when it is
      not itself a subcommand, `build` lands between the two, because the
      token after the positional slot is now `defaults` itself. */
  lemma DefaultsGetsPath(argv: seq<string>, opt: map<string, Arity>, parsers: set<string>, index: nat)
    requires PositionalAt(argv, opt, index) && argv[index] == "defaults"
    ensures "defaults" in parsers ==> Preparsed(argv, opt, parsers) == argv[..index] + ["."] + argv[index..]
    ensures "defaults" !in parsers ==>
              Preparsed(argv, opt, parsers) == argv[..index] + [".", DefaultCommand] + argv[index..]
  {
    var a := Insert(argv, index, ".");
    assert a == argv[..index] + ["."] + argv[index..];
    assert a[index + 1] == "defaults";
    if "defaults" !in parsers {
      assert a[..index + 1] == argv[..index] + ["."];
      assert a[index + 1..] == argv[index..];
    }
  }
}
