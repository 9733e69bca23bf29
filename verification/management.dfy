/** The command-line entry point (`management.py`): which command class a
    name fetches, how `execute` chooses between PATHS, ALIASES and Django's
    own dispatch, and the sections appended to the help text.

    Django's own `ManagementUtility.execute` is not modelled: each hand-over
    to it is recorded as one `BaseExecute` event carrying the argument
    vector it receives, so a dispatch produces the list of those events. */
module Management {
  import opened Results
  import opened Text
  import opened Dicts
  import opened Conf
  import opened Core

  // ---------------------------------------------------------------------
  // fetch_command

  /** `fetch_command`: a PATHS entry is imported directly; any other name is
      split at its last dot into an app label and a command name and
      searched for. */
  function FetchCommand(importer: string -> Import, settings: Settings, apps: seq<AppConfig>, subcommand: string)
    : (r: Result<ClassId, CommandError>)
    ensures Get(settings.paths, subcommand).Some? && Get(settings.paths, subcommand).value != "" ==>
      var path := Get(settings.paths, subcommand).value;
      && (r.Success? <==> Loadable(importer, path))
      && (r.Success? ==> r.value == importer(path).cls)
      && (importer(path).NotFound? ==> r == Failure(CommandImportError(path)))
    ensures (Get(settings.paths, subcommand).None? || Get(settings.paths, subcommand).value == "") && '.' !in subcommand ==>
      r == LoadCommandClass(importer, subcommand, None, settings, apps)
  {
    var hit := Get(settings.paths, subcommand);
    if hit.Some? && hit.value != "" then ImportCommandClass(importer, hit.value)
    else
      match RSplitOnce(subcommand, '.')
      case Some((appLabel, name)) => LoadCommandClass(importer, name, Some(appLabel), settings, apps)
      case None => LoadCommandClass(importer, subcommand, None, settings, apps)
  }

  /** A name of the form `label.name` (the name without dots) is searched
      for inside that label. */
  lemma FetchLabelled(importer: string -> Import, settings: Settings, apps: seq<AppConfig>, appLabel: string, name: string)
    requires '.' !in name
    requires Get(settings.paths, appLabel + "." + name).None? || Get(settings.paths, appLabel + "." + name).value == ""
    ensures FetchCommand(importer, settings, apps, appLabel + "." + name) ==
      LoadCommandClass(importer, name, Some(appLabel), settings, apps)
  {
    assert appLabel + "." + name == appLabel + ['.'] + name;
    RSplitOnceUnique(appLabel, name, '.');
  }

  /** A label that names no installed app is an error; the unlabelled search
      is not tried instead, whatever it would have found. */
  lemma LabelledLookupDoesNotRetry(importer: string -> Import, settings: Settings, apps: seq<AppConfig>,
                                   appLabel: string, name: string)
    requires '.' !in name && appLabel != ""
    requires Get(settings.paths, appLabel + "." + name).None?
    requires forall i :: 0 <= i < |apps| ==> apps[i].appLabel != appLabel
    ensures FetchCommand(importer, settings, apps, appLabel + "." + name) == Failure(CommandAppLookupError(appLabel))
  {
    FetchLabelled(importer, settings, apps, appLabel, name);
  }

  /** An installed label restricts the search to that app's submodules, in
      SUBMODULES order. */
  lemma FetchInstalledLabel(importer: string -> Import, settings: Settings, apps: seq<AppConfig>,
                            appLabel: string, name: string, app: AppConfig)
    requires '.' !in name && appLabel != ""
    requires Get(settings.paths, appLabel + "." + name).None?
    requires GetAppConfig(apps, appLabel) == Some(app) && app.name != CoreAppName
    ensures var r := FetchCommand(importer, settings, apps, appLabel + "." + name);
      && (r.Success? <==> (exists j :: 0 <= j < |settings.submodules| &&
                             Loadable(importer, Candidate(app.name + "." + settings.submodules[j], name))))
      && (r.Failure? ==> r.error == CommandClassLookupError(name, Some(appLabel)))
  {
    FetchLabelled(importer, settings, apps, appLabel, name);
    var subs := settings.submodules;
    var paths := GetCommandPaths(name, Some(appLabel), settings, apps).value;
    assert paths == seq(|subs|, j requires 0 <= j < |subs| => Candidate(app.name + "." + subs[j], name));
    assert forall j :: 0 <= j < |subs| ==> paths[j] == Candidate(app.name + "." + subs[j], name);
  }

  /** A PATHS entry fetches its class without looking at MODULES, SUBMODULES
      or the installed apps. */
  lemma FetchPathsIgnoresSearch(importer: string -> Import, settings: Settings, other: Settings,
                                apps: seq<AppConfig>, otherApps: seq<AppConfig>, subcommand: string)
    requires Get(settings.paths, subcommand).Some? && Get(settings.paths, subcommand).value != ""
    requires other.paths == settings.paths
    ensures FetchCommand(importer, settings, apps, subcommand) == FetchCommand(importer, other, otherApps, subcommand)
    ensures FetchCommand(importer, settings, apps, subcommand) ==
      ImportCommandClass(importer, Get(settings.paths, subcommand).value)
  {
  }

  // ---------------------------------------------------------------------
  // execute

  /** One hand-over to Django's own `ManagementUtility.execute`, which in
      turn fetches the command named by `argv[1]` through `FetchCommand`
      and runs it. */
  datatype Event = BaseExecute(argv: seq<string>)

  /** How a dispatch ended: every hand-over returned, one raised (which
      ends the dispatch, since nothing catches it), or the alias nesting
      depth it was given ran out. */
  datatype Status = Finished | Raised | OutOfDepth

  /** The hand-overs of a dispatch, in order, and how it ended. */
  datatype Run = Run(trace: seq<Event>, status: Status)

  /** One hand-over to Django. `raises` says for which argument vectors
      Django's execute raises: a failed `fetch_command`, a failing command. */
  function HandOver(argv: seq<string>, raises: seq<string> -> bool): Run {
    Run([BaseExecute(argv)], if raises(argv) then Raised else Finished)
  }

  /** `settings.ALIASES.get(name)` is a non-empty list. */
  predicate IsActiveAlias(settings: Settings, name: string) {
    Get(settings.aliases, name).Some? && |Get(settings.aliases, name).value| > 0
  }

  /** An argument vector that `execute` hands to Django: no command name, a
      PATHS name, or a name that is not an active alias. */
  predicate HandledNatively(settings: Settings, argv: seq<string>) {
    |argv| < 2 || HasKey(settings.paths, argv[1]) || !IsActiveAlias(settings, argv[1])
  }

  /** A run stops at its first raising hand-over: no earlier hand-over
      raised, and it ended with `Raised` exactly when its last one did. */
  predicate StopsAtFirstRaise(r: Run, raises: seq<string> -> bool) {
    && (forall k :: 0 <= k < |r.trace| - 1 ==> !raises(r.trace[k].argv))
    && (r.status == Raised <==> |r.trace| > 0 && raises(r.trace[|r.trace| - 1].argv))
  }

  /** `ManagementUtility(argv).execute()` for a utility whose program name is
      `prog`. Each alias expansion consumes one unit of `fuel`; there is no
      cycle check, so a cyclic alias exhausts any fuel. */
  function Execute(settings: Settings, prog: string, argv: seq<string>, raises: seq<string> -> bool, fuel: nat)
    : (r: Run)
    ensures |argv| < 2 ==> r == HandOver(argv, raises)
    ensures |argv| >= 2 && HasKey(settings.paths, argv[1]) ==>
      r == HandOver([prog, argv[1]] + argv[2..], raises)
    ensures |argv| >= 2 && !HasKey(settings.paths, argv[1]) && !IsActiveAlias(settings, argv[1]) ==>
      r == HandOver(argv, raises)
    ensures forall e :: e in r.trace ==> HandledNatively(settings, e.argv)
    ensures StopsAtFirstRaise(r, raises)
    decreases fuel, 0
  {
    if |argv| < 2 then HandOver(argv, raises)
    else if HasKey(settings.paths, argv[1]) then HandOver([prog, argv[1]] + argv[2..], raises)
    else if IsActiveAlias(settings, argv[1]) then
      if fuel == 0 then Run([], OutOfDepth)
      else ExecuteAliases(settings, prog, Get(settings.aliases, argv[1]).value, raises, fuel - 1)
    else HandOver(argv, raises)
  }

  /** The loop over an alias's expressions: each is split on whitespace and
      dispatched afresh as `[prog, *tokens]`, in order, until one raises. */
  function ExecuteAliases(settings: Settings, prog: string, exprs: seq<string>, raises: seq<string> -> bool, fuel: nat)
    : (r: Run)
    ensures forall e :: e in r.trace ==> HandledNatively(settings, e.argv)
    ensures StopsAtFirstRaise(r, raises)
    decreases fuel, 1, |exprs|
  {
    if |exprs| == 0 then Run([], Finished)
    else
      var first := Execute(settings, prog, [prog] + Tokens(exprs[0]), raises, fuel);
      if first.status != Finished then first
      else
        var rest := ExecuteAliases(settings, prog, exprs[1..], raises, fuel);
        ConcatStopsAtFirstRaise(first, rest, raises);
        Run(first.trace + rest.trace, rest.status)
  }

  /** A finished run followed by another run stops where the second one
      does. */
  lemma ConcatStopsAtFirstRaise(first: Run, rest: Run, raises: seq<string> -> bool)
    requires first.status == Finished && StopsAtFirstRaise(first, raises) && StopsAtFirstRaise(rest, raises)
    ensures StopsAtFirstRaise(Run(first.trace + rest.trace, rest.status), raises)
  {
    var t := first.trace + rest.trace;
    forall k | 0 <= k < |t| - 1
      ensures !raises(t[k].argv)
    {
      if k >= |first.trace| {
        assert t[k] == rest.trace[k - |first.trace|];
      }
    }
    if rest.trace == [] {
      assert t == first.trace;
    } else {
      assert t[|t| - 1] == rest.trace[|rest.trace| - 1];
    }
  }

  /** A PATHS entry wins over an alias of the same name: one hand-over to
      Django, which fetches exactly the PATHS class. */
  lemma PathsTakePrecedence(importer: string -> Import, settings: Settings, apps: seq<AppConfig>,
                            prog: string, argv: seq<string>, raises: seq<string> -> bool, fuel: nat)
    requires |argv| >= 2 && Get(settings.paths, argv[1]).Some? && Get(settings.paths, argv[1]).value != ""
    ensures Execute(settings, prog, argv, raises, fuel).trace == [BaseExecute([prog, argv[1]] + argv[2..])]
    ensures FetchCommand(importer, settings, apps, argv[1]) ==
      ImportCommandClass(importer, Get(settings.paths, argv[1]).value)
  {
  }

  /** Arguments after an alias name are dropped: only the alias's own
      expressions are run. */
  lemma AliasArgumentsNotForwarded(settings: Settings, prog: string, argv: seq<string>, extra: seq<string>,
                                   raises: seq<string> -> bool, fuel: nat)
    requires |argv| >= 2 && !HasKey(settings.paths, argv[1]) && IsActiveAlias(settings, argv[1])
    ensures Execute(settings, prog, argv + extra, raises, fuel) == Execute(settings, prog, [prog, argv[1]], raises, fuel)
  {
  }

  /** A natively handled `[prog, *tokens]` reaches Django unchanged. */
  lemma NativeArgvUnchanged(settings: Settings, prog: string, tokens: seq<string>, raises: seq<string> -> bool, fuel: nat)
    requires HandledNatively(settings, [prog] + tokens)
    ensures Execute(settings, prog, [prog] + tokens, raises, fuel) == HandOver([prog] + tokens, raises)
  {
    var argv := [prog] + tokens;
    if |argv| >= 2 {
      assert [prog, argv[1]] + argv[2..] == argv;
    }
  }

  /** An alias whose expressions all name plain commands, none of which
      raises, runs each of them once, in order, as `[prog, *expr.split()]`. */
  lemma {:induction false} AliasRunsExpressions(settings: Settings, prog: string, exprs: seq<string>,
                                               raises: seq<string> -> bool, fuel: nat)
    requires forall i :: 0 <= i < |exprs| ==> HandledNatively(settings, [prog] + Tokens(exprs[i]))
    requires forall i :: 0 <= i < |exprs| ==> !raises([prog] + Tokens(exprs[i]))
    ensures ExecuteAliases(settings, prog, exprs, raises, fuel) ==
      Run(seq(|exprs|, i requires 0 <= i < |exprs| => BaseExecute([prog] + Tokens(exprs[i]))), Finished)
    decreases |exprs|
  {
    if |exprs| > 0 {
      var head := BaseExecute([prog] + Tokens(exprs[0]));
      var rest := exprs[1..];
      NativeArgvUnchanged(settings, prog, Tokens(exprs[0]), raises, fuel);
      assert Execute(settings, prog, [prog] + Tokens(exprs[0]), raises, fuel) == Run([head], Finished);
      AliasRunsExpressions(settings, prog, rest, raises, fuel);
      assert seq(|exprs|, i requires 0 <= i < |exprs| => BaseExecute([prog] + Tokens(exprs[i]))) ==
        [head] + seq(|rest|, i requires 0 <= i < |rest| => BaseExecute([prog] + Tokens(rest[i])));
    }
  }

  /** The first expression whose hand-over raises ends the alias: the
      expressions after it never run. */
  lemma {:induction false} AliasStopsAtRaise(settings: Settings, prog: string, exprs: seq<string>,
                                            raises: seq<string> -> bool, fuel: nat, i: int)
    requires 0 <= i < |exprs|
    requires forall j :: 0 <= j <= i ==> HandledNatively(settings, [prog] + Tokens(exprs[j]))
    requires forall j :: 0 <= j < i ==> !raises([prog] + Tokens(exprs[j]))
    requires raises([prog] + Tokens(exprs[i]))
    ensures ExecuteAliases(settings, prog, exprs, raises, fuel) ==
      Run(seq(i + 1, j requires 0 <= j <= i => BaseExecute([prog] + Tokens(exprs[j]))), Raised)
    decreases i
  {
    NativeArgvUnchanged(settings, prog, Tokens(exprs[0]), raises, fuel);
    if i > 0 {
      AliasStopsAtRaise(settings, prog, exprs[1..], raises, fuel, i - 1);
    }
  }

  /** The vectors Django's own `execute` answers without fetching a
      command: `help …`, `version …`, and a lone `--help`, `-h` or
      `--version`. */
  predicate AnsweredByDjango(argv: seq<string>) {
    && |argv| >= 2
    && (|| argv[1] == "help" || argv[1] == "version"
        || argv[1..] == ["--help"] || argv[1..] == ["-h"] || argv[1..] == ["--version"])
  }

  /** Django's execute raises when a subcommand it does not answer itself
      cannot be fetched, so an alias expression naming such a command is the
      last one run. */
  lemma FailedFetchEndsAlias(importer: string -> Import, settings: Settings, apps: seq<AppConfig>, prog: string,
                             exprs: seq<string>, raises: seq<string> -> bool, fuel: nat, i: int)
    requires forall argv ::
      (|argv| >= 2 && !AnsweredByDjango(argv) && FetchCommand(importer, settings, apps, argv[1]).Failure?) ==> raises(argv)
    requires 0 <= i < |exprs| && |Tokens(exprs[i])| > 0
    requires !AnsweredByDjango([prog] + Tokens(exprs[i]))
    requires FetchCommand(importer, settings, apps, Tokens(exprs[i])[0]).Failure?
    requires forall j :: 0 <= j <= i ==> HandledNatively(settings, [prog] + Tokens(exprs[j]))
    requires forall j :: 0 <= j < i ==> !raises([prog] + Tokens(exprs[j]))
    ensures ExecuteAliases(settings, prog, exprs, raises, fuel).status == Raised
    ensures |ExecuteAliases(settings, prog, exprs, raises, fuel).trace| == i + 1
  {
    var argv := [prog] + Tokens(exprs[i]);
    assert argv[1] == Tokens(exprs[i])[0];
    assert raises(argv);
    AliasStopsAtRaise(settings, prog, exprs, raises, fuel, i);
  }

  /** The alias `name: [" ".join(ts) for ts in tss]`, with every first
      token a plain command and no hand-over raising, runs `[prog, *ts]`
      for each `ts` in order. */
  lemma AliasRunsTokenLists(settings: Settings, prog: string, argv: seq<string>, tss: seq<seq<string>>,
                            raises: seq<string> -> bool, fuel: nat)
    requires |argv| >= 2 && !HasKey(settings.paths, argv[1])
    requires |tss| > 0 && forall i :: 0 <= i < |tss| ==> |tss[i]| > 0
    requires forall i, t :: 0 <= i < |tss| && 0 <= t < |tss[i]| ==> IsToken(tss[i][t])
    requires Get(settings.aliases, argv[1]) ==
      Some(seq(|tss|, i requires 0 <= i < |tss| => Join(tss[i], ' ')))
    requires forall i :: 0 <= i < |tss| ==> !HasKey(settings.paths, tss[i][0]) && !IsActiveAlias(settings, tss[i][0])
    requires forall i :: 0 <= i < |tss| ==> !raises([prog] + tss[i])
    ensures Execute(settings, prog, argv, raises, fuel + 1) ==
      Run(seq(|tss|, i requires 0 <= i < |tss| => BaseExecute([prog] + tss[i])), Finished)
  {
    var exprs := Get(settings.aliases, argv[1]).value;
    forall i | 0 <= i < |tss|
      ensures Tokens(exprs[i]) == tss[i]
    {
      TokensOfJoin(tss[i]);
    }
    AliasRunsExpressions(settings, prog, exprs, raises, fuel);
  }

  /** More fuel does not change a dispatch that ended within its depth. */
  lemma {:induction false} ExecuteFuelMonotone(settings: Settings, prog: string, argv: seq<string>,
                                              raises: seq<string> -> bool, fuel: nat, more: nat)
    requires Execute(settings, prog, argv, raises, fuel).status != OutOfDepth && fuel <= more
    ensures Execute(settings, prog, argv, raises, more) == Execute(settings, prog, argv, raises, fuel)
    decreases fuel, 0
  {
    if |argv| >= 2 && !HasKey(settings.paths, argv[1]) && IsActiveAlias(settings, argv[1]) {
      var exprs := Get(settings.aliases, argv[1]).value;
      assert fuel > 0;
      assert Execute(settings, prog, argv, raises, fuel) == ExecuteAliases(settings, prog, exprs, raises, fuel - 1);
      assert Execute(settings, prog, argv, raises, more) == ExecuteAliases(settings, prog, exprs, raises, more - 1);
      ExecuteAliasesFuelMonotone(settings, prog, exprs, raises, fuel - 1, more - 1);
    }
  }

  lemma {:induction false} ExecuteAliasesFuelMonotone(settings: Settings, prog: string, exprs: seq<string>,
                                                     raises: seq<string> -> bool, fuel: nat, more: nat)
    requires ExecuteAliases(settings, prog, exprs, raises, fuel).status != OutOfDepth && fuel <= more
    ensures ExecuteAliases(settings, prog, exprs, raises, more) == ExecuteAliases(settings, prog, exprs, raises, fuel)
    decreases fuel, 1, |exprs|
  {
    if |exprs| > 0 {
      ExecuteFuelMonotone(settings, prog, [prog] + Tokens(exprs[0]), raises, fuel, more);
      if Execute(settings, prog, [prog] + Tokens(exprs[0]), raises, fuel).status == Finished {
        ExecuteAliasesFuelMonotone(settings, prog, exprs[1..], raises, fuel, more);
      }
    }
  }

  /** An alias with the single expression `y` (and no arguments) dispatches
      exactly as `y` does, one nesting level down. */
  lemma SingleAliasStep(settings: Settings, prog: string, x: string, y: string, ex: string,
                        raises: seq<string> -> bool, fuel: nat)
    requires !HasKey(settings.paths, x)
    requires Get(settings.aliases, x) == Some([ex]) && Tokens(ex) == [y]
    ensures Execute(settings, prog, [prog, x], raises, fuel + 1) == Execute(settings, prog, [prog, y], raises, fuel)
  {
    assert [prog] + Tokens(ex) == [prog, y];
    var first := Execute(settings, prog, [prog, y], raises, fuel);
    assert ExecuteAliases(settings, prog, [ex][1..], raises, fuel) == Run([], Finished);
    assert first.trace + [] == first.trace;
  }

  /** An alias whose one expression names another alias runs that alias's
      command: one hand-over, with the inner command's arguments. */
  lemma AliasChainRuns(settings: Settings, prog: string, outer: string, inner: string,
                       eo: string, ei: string, raises: seq<string> -> bool, fuel: nat)
    requires !HasKey(settings.paths, outer) && !HasKey(settings.paths, inner)
    requires Get(settings.aliases, outer) == Some([eo]) && Tokens(eo) == [inner]
    requires Get(settings.aliases, inner) == Some([ei]) && |Tokens(ei)| > 0
    requires HandledNatively(settings, [prog] + Tokens(ei)) && !raises([prog] + Tokens(ei))
    ensures Execute(settings, prog, [prog, outer], raises, fuel + 2) ==
      Run([BaseExecute([prog] + Tokens(ei))], Finished)
  {
    SingleAliasStep(settings, prog, outer, inner, eo, raises, fuel + 1);
    AliasRunsExpressions(settings, prog, [ei], raises, fuel);
  }

  /** Two aliases that name each other never finish, however deep the
      dispatch may go: nothing detects the cycle, and nothing is ever
      handed to Django. */
  lemma {:induction false} AliasCycleNeverCompletes(settings: Settings, prog: string, a: string, b: string,
                                                   ea: string, eb: string, raises: seq<string> -> bool, fuel: nat)
    requires !HasKey(settings.paths, a) && !HasKey(settings.paths, b)
    requires Get(settings.aliases, a) == Some([ea]) && Tokens(ea) == [b]
    requires Get(settings.aliases, b) == Some([eb]) && Tokens(eb) == [a]
    ensures Execute(settings, prog, [prog, a], raises, fuel) == Run([], OutOfDepth)
    decreases fuel
  {
    if fuel == 1 {
      SingleAliasStep(settings, prog, a, b, ea, raises, 0);
      assert IsActiveAlias(settings, b);
    } else if fuel > 1 {
      SingleAliasStep(settings, prog, a, b, ea, raises, fuel - 1);
      SingleAliasStep(settings, prog, b, a, eb, raises, fuel - 2);
      AliasCycleNeverCompletes(settings, prog, a, b, ea, eb, raises, fuel - 2);
    } else {
      assert IsActiveAlias(settings, a);
    }
  }

  // ---------------------------------------------------------------------
  // main_help_text

  const Indent: string := "    "

  function Header(title: string): string {
    "[django-management-commands: " + title + "]"
  }

  /** A help section: its header, one indented line per entry, a blank line.
      Removing the indent from a middle line gives back its entry. */
  function Section(title: string, entries: seq<string>): (lines: seq<string>)
    ensures |lines| == |entries| + 2
    ensures lines[0] == Header(title) && lines[|lines| - 1] == ""
    ensures forall i :: 0 <= i < |entries| ==>
      |lines[i + 1]| >= |Indent| && lines[i + 1][..|Indent|] == Indent && lines[i + 1][|Indent|..] == entries[i]
  {
    [Header(title)] + seq(|entries|, i requires 0 <= i < |entries| => Indent + entries[i]) + [""]
  }

  /** The sections appended to Django's usage text: PATHS names if any, alias
      names if any, then each discovered location in order. */
  function HelpSections(settings: Settings, discovered: Dict<seq<string>>): (sections: seq<seq<string>>)
    ensures var p := if |settings.paths| > 0 then 1 else 0;
      var a := if |settings.aliases| > 0 then 1 else 0;
      && |sections| == p + a + |discovered|
      && (|settings.paths| > 0 ==> sections[0] == Section("paths", Keys(settings.paths)))
      && (|settings.aliases| > 0 ==> sections[p] == Section("aliases", Keys(settings.aliases)))
      && forall k :: 0 <= k < |discovered| ==> sections[p + a + k] == Section(discovered[k].0, discovered[k].1)
  {
    (if |settings.paths| > 0 then [Section("paths", Keys(settings.paths))] else [])
    + (if |settings.aliases| > 0 then [Section("aliases", Keys(settings.aliases))] else [])
    + seq(|discovered|, k requires 0 <= k < |discovered| => Section(discovered[k].0, discovered[k].1))
  }

  function Flatten(sections: seq<seq<string>>): (lines: seq<string>)
    ensures |lines| == 0 <==> forall k :: 0 <= k < |sections| ==> |sections[k]| == 0
  {
    if |sections| == 0 then [] else sections[0] + Flatten(sections[1..])
  }

  /** `main_help_text`: Django's usage text, an empty line, then the
      sections; the usage text itself is left as it was. */
  function MainHelpText(usage: string, settings: Settings, discovered: Dict<seq<string>>): (text: string)
    ensures var lines := Flatten(HelpSections(settings, discovered));
      text == usage + "\n" + (if |lines| == 0 then "" else "\n" + Join(lines, '\n'))
    ensures |Flatten(HelpSections(settings, discovered))| == 0 <==>
      |settings.paths| == 0 && |settings.aliases| == 0 && |discovered| == 0
  {
    var lines := Flatten(HelpSections(settings, discovered));
    var usageLines := Split(usage, '\n');
    HelpTextLayout(usage, lines);
    HelpSectionsEmpty(settings, discovered);
    Join(usageLines + [""] + lines, '\n')
  }

  /** Joining the usage lines, an empty line and `lines` appends to the usage
      text without altering it. */
  lemma HelpTextLayout(usage: string, lines: seq<string>)
    ensures Join(Split(usage, '\n') + [""] + lines, '\n') ==
      usage + "\n" + (if |lines| == 0 then "" else "\n" + Join(lines, '\n'))
  {
    var usageLines := Split(usage, '\n');
    var rest := [""] + lines;
    var tail := if |lines| == 0 then "" else "\n" + Join(lines, '\n');
    assert usageLines + [""] + lines == usageLines + rest;
    JoinSplit(usage, '\n');
    JoinAppend(usageLines, rest, '\n');
    JoinBlankFirst(lines);
    assert Join(usageLines + rest, '\n') == usage + "\n" + tail;
  }

  lemma JoinBlankFirst(lines: seq<string>)
    ensures Join([""] + lines, '\n') == if |lines| == 0 then "" else "\n" + Join(lines, '\n')
  {
  }

  /** The help text gains lines exactly when there is something to list. */
  lemma HelpSectionsEmpty(settings: Settings, discovered: Dict<seq<string>>)
    ensures |Flatten(HelpSections(settings, discovered))| == 0 <==>
      |settings.paths| == 0 && |settings.aliases| == 0 && |discovered| == 0
  {
  }
}
