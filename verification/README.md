# django-management-commands, modelled in Dafny

django-management-commands extends Django's `manage.py`. It has three parts:

- Settings (`conf.py`). The package reads four settings and validates them when they are loaded:
  - `PATHS` maps a command name to the dotted path of its class.
  - `MODULES` lists extra packages to search.
  - `SUBMODULES` lists sub-packages to search inside every installed app.
  - `ALIASES` maps a name to a list of command lines.
- Resolution (`core.py`). A command name becomes an ordered list of candidate dotted paths. The first candidate that imports to a `BaseCommand` subclass wins.
- Dispatch (`management.py`). `ManagementUtility` does three things:
  - It decides whether a name is a PATHS entry, an alias or an ordinary Django command.
  - It fetches the command class.
  - It appends the package's sections to Django's help text.

The model is split into modules:

- `Results`: `Option` and `Result`.
- `Dicts`: an ordered Python dictionary as a sequence of items.
- `Text`: `str.split()`, `str.split(sep)`, `sep.join` and `str.rsplit(sep, 1)` on strings.
- `Conf`: the validators.
- `Core`: the candidate paths and the first-match search.
- `Management`: `fetch_command`, `execute` and `main_help_text`.

The environment becomes ordinary values:

- An import becomes a function `string -> Import` passed in by the caller. It yields nothing (an `ImportError`), or an object that is or is not a command class.
- Django's app registry becomes the ordered list of installed apps.
- Each hand-over to Django's own `ManagementUtility.execute` is recorded as one `BaseExecute(argv)` event. Whether such a hand-over raises is a predicate passed in by the caller. A dispatch therefore yields the list of argument vectors Django runs, and how it ended: every hand-over returned, one raised, or the alias nesting depth ran out.

The main results:

- A validator accepts exactly the well-formed settings and reports the first bad entry with the error code the source raises.
- Without an app label, the candidates come in this order:
  1. MODULES;
  2. each installed app, last registered first, in SUBMODULES order;
  3. `django.core.management.commands`.

  So a later-registered app shadows an earlier one.
- A labelled name is searched for only in that app. An unknown label is an error, and a failed labelled lookup is not retried without the label.
- Validated SUBMODULES always contain `management.commands`. It is inserted first when missing. Copies the user gives are kept, so "exactly once" holds only when it was inserted.
- A PATHS entry wins over an alias and needs no search.
- With no command name, or with a name that is neither in PATHS nor a non-empty alias (an alias mapped to `[]` included), the argument vector goes to Django unchanged.
- An alias runs its expressions in order, and arguments after its name are dropped. The first expression whose hand-over raises (a command that cannot be fetched, for instance) ends the alias; the later ones never run.
- Aliases compose, but nothing detects a cycle: two aliases that name each other never finish, whatever the depth allowed.
- The help text is the usage text left intact, followed by one section for PATHS when it is non-empty, one for ALIASES when it is non-empty, and one per discovered location.

## Model

| member | source | states |
|---|---|---|
| `Dicts.Get` | src/management_commands/management.py:71 | `d.get(k)` is None exactly when no item has key `k`; otherwise its value belongs to an item with that key |
| `Text.Tokens` | src/management_commands/management.py:95 | `str.split()` yields only non-empty tokens without whitespace |
| `Text.TokensOfJoin` | src/management_commands/management.py:95 | tokens joined by single spaces split back into the same tokens |
| `Text.TokensEmpty` | src/management_commands/conf.py:112-116 | `item.split()` is empty exactly when the item is all whitespace (the "empty item" case) |
| `Text.Split` | src/management_commands/conf.py:18 | `s.split(".")` has at least one part, and no part contains the separator |
| `Text.JoinSplit` | src/management_commands/management.py:61-67 | joining the parts of `s.split(sep)` with `sep` gives back `s` |
| `Text.SplitJoin` | src/management_commands/conf.py:18 | splitting parts joined with `sep` gives back the parts, when no part contains `sep` |
| `Text.RSplitOnce` | src/management_commands/management.py:74-77 | `rsplit(".", 1)` fails exactly when there is no dot; otherwise prefix + dot + suffix is the input and the suffix has no dot |
| `Text.RSplitOnceUnique` | src/management_commands/management.py:74-77 | `(a + "." + b).rsplit(".", 1)` is `(a, b)` whenever `b` has no dot |
| `Conf.IdentifierHyphenAsUnderscore` | src/management_commands/conf.py:10-11 | a name is accepted exactly when its underscored form is; keywords are rejected |
| `Conf.PatternOfJoin` | src/management_commands/conf.py:15 | the dotted-path pattern matches dot-joined parts exactly when every part is an identifier |
| `Conf.DottedPathParts` | src/management_commands/conf.py:14-20 | a dotted path is accepted exactly when it is non-empty, has at least `min_parts` parts, and every part is a hyphen-free identifier that is not a keyword |
| `Conf.TwoWordDottedPath` | src/management_commands/conf.py:61 | two identifiers joined by a dot pass the two-part check on PATHS values |
| `Conf.FirstError` | src/management_commands/conf.py:76-83 | a validation loop finds no error exactly when every item passes; otherwise it reports the first failing item's code |
| `Conf.ConfigurePaths` | src/management_commands/conf.py:51-69 | PATHS is accepted unchanged exactly when every key is an identifier and every value a dotted path of two or more parts; otherwise the first bad item gives `paths.key` or `paths.value` |
| `Conf.ConfigurePathList` | src/management_commands/conf.py:71-85 | a list is accepted unchanged exactly when every item is a dotted path; otherwise the code is `<setting>.item` and names the first bad item |
| `Conf.ConfigureModules` | src/management_commands/conf.py:87-88 | MODULES is accepted unchanged exactly when every item is a dotted path; the code is `modules.item` |
| `Conf.ConfigureSubmodules` | src/management_commands/conf.py:90-96 | validated SUBMODULES always contain `management.commands`. It is put first when missing, and the list is left alone when present. The error code is `submodules.item` |
| `Conf.DefaultSubmoduleIsDottedPath` | src/management_commands/conf.py:93-94 | the inserted `management.commands` passes the submodule check itself |
| `Conf.ConfigureSubmodulesIdempotent` | src/management_commands/conf.py:90-96 | validating SUBMODULES twice gives the same list; when it was missing, `management.commands` occurs once |
| `Conf.AliasEntryError` | src/management_commands/conf.py:102-130 | an ALIASES item is rejected exactly when it is invalid. The code is `aliases.key`, `aliases.empty` or `aliases.self_reference`, with the condition that triggers it |
| `Conf.ConfigureAliases` | src/management_commands/conf.py:98-132 | ALIASES is accepted unchanged exactly when every entry is valid; otherwise the first bad entry decides the error |
| `Conf.AliasChainAccepted` | src/management_commands/conf.py:111-130 | an alias naming another alias is accepted: only direct self-reference is checked |
| `Conf.FirstInvalidEntryRejected` | src/management_commands/conf.py:102-130 | entries are checked in order: when every entry before `i` is valid and entry `i` is not, ALIASES fails with a code that entry `i` is rejected with |
| `Conf.FirstInvalidItemCode` | src/management_commands/conf.py:111-130 | inside an entry with a valid key, items are checked in order: the code is that of the first bad item |
| `Conf.AliasItemRejectedAt` | src/management_commands/conf.py:102-130 | in any ALIASES setting, the first bad item of the first bad entry decides the error code, when that entry's key is valid |
| `Conf.AliasSelfReferenceRejected` | src/management_commands/conf.py:124-130 | in any ALIASES setting whose first bad item has its own alias name as first token, whatever follows it, the error is `aliases.self_reference` |
| `Conf.AliasEmptyItemRejected` | src/management_commands/conf.py:112-122 | in any ALIASES setting whose first bad item is all whitespace, the error is `aliases.empty` |
| `Conf.AliasBadKeyRejected` | src/management_commands/conf.py:102-109 | in any ALIASES setting whose first bad entry has a non-identifier key, the error is `aliases.key`, whatever its items |
| `Core.GetAppConfig` | src/management_commands/core.py:39-42 | the lookup fails exactly when no installed app has the label; a result has the label |
| `Core.GetCommandPaths` | src/management_commands/core.py:30-56 | Without a label (or with an empty one), the search succeeds and starts with the MODULES candidates. With a label, it fails exactly when the label is unknown, with `CommandAppLookupError(label)`. For an ordinary known app it is one candidate per submodule, in order |
| `Core.AppPathsOrdinary` | src/management_commands/core.py:49-54 | an ordinary app contributes `<app>.<submodule>.<name>.Command` for each submodule, in order |
| `Core.AppPathsCore` | src/management_commands/core.py:50-52 | `django.core` contributes only `management.commands` candidates, once per occurrence in SUBMODULES |
| `Core.SubmodulePathsAppend` | src/management_commands/core.py:48-54 | the outer loop over apps distributes over concatenated app lists |
| `Core.SubmodulePathsLength` | src/management_commands/core.py:48-54 | ordinary apps contribute exactly one candidate per app and submodule |
| `Core.SubmodulePathsAt` | src/management_commands/core.py:48-54 | submodule `j` of app `k` sits at position `k * width + j` |
| `Core.CandidatesEndWithCommand` | src/management_commands/core.py:37-54 | every candidate path ends with `.<name>.Command` |
| `Core.UnlabelledCandidateOrder` | src/management_commands/core.py:31-56 | Unlabelled candidates are the MODULES paths, then one block per app, last registered first. Each block is in SUBMODULES order |
| `Core.CoreCandidatesLast` | src/management_commands/core.py:32-54 | unlabelled candidates end with the framework's own package, once per `management.commands` in SUBMODULES, after every installed app |
| `Core.ImportCommandClass` | src/management_commands/core.py:18-27 | importing succeeds exactly for a command subclass. An `ImportError` becomes `CommandImportError(path)`; any other object becomes `CommandTypeError(obj)` |
| `Core.FirstLoadable` | src/management_commands/core.py:62-64 | the search stops at the first candidate that imports to a command class, and finds none exactly when none does |
| `Core.LoadCommandClass` | src/management_commands/core.py:59-66 | Lookup errors propagate. Otherwise loading succeeds exactly when some candidate is loadable, and returns the first such class. Failing that, the error is `CommandClassLookupError(name, label)` |
| `Core.LastRegisteredWins` | src/management_commands/core.py:32-64 | when a later-registered app provides the command, the class loaded comes before every candidate of an earlier app |
| `Management.FetchCommand` | src/management_commands/management.py:69-81 | A non-empty PATHS entry imports exactly its dotted path, with that path's errors. A name without a dot is searched for unlabelled |
| `Management.FetchLabelled` | src/management_commands/management.py:74-79 | `label.name`, with no dot in `name`, is searched for with that label |
| `Management.LabelledLookupDoesNotRetry` | src/management_commands/management.py:74-79 | an unknown label gives `CommandAppLookupError(label)`; the unlabelled search is not tried |
| `Management.FetchInstalledLabel` | src/management_commands/management.py:74-79 | a known label restricts the search to that app's submodules |
| `Management.FetchPathsIgnoresSearch` | src/management_commands/management.py:71-72 | a PATHS entry fetches its class whatever MODULES, SUBMODULES and the installed apps are |
| `Management.Execute` | src/management_commands/management.py:83-100 | The outcome depends on the command name. With no name, or a name that is neither in PATHS nor a non-empty alias, `argv` goes to Django unchanged. A PATHS name goes as `[prog, name, *rest]`. Every vector handed over has no name, a PATHS name or a name that is not an active alias, and the run stops at its first raising hand-over |
| `Management.ExecuteAliases` | src/management_commands/management.py:93-98 | an alias's expressions hand only natively handled vectors to Django, and stop at the first one that raises |
| `Management.NativeArgvUnchanged` | src/management_commands/management.py:90-100 | a vector with no alias to expand reaches Django unchanged, including a PATHS vector rebuilt from the same parts |
| `Management.AliasStopsAtRaise` | src/management_commands/management.py:94-98 | when expression `i` is the first whose hand-over raises, exactly expressions `0..i` run, in order, and the alias ends raised |
| `Management.FailedFetchEndsAlias` | src/management_commands/management.py:70-98 | when a hand-over raises whenever its subcommand cannot be fetched and Django does not answer it itself, an expression naming such a command is the last one an alias runs; `help`, `version`, `--help`, `-h` and `--version` vectors are excluded, since Django answers them without fetching |
| `Management.SingleAliasStep` | src/management_commands/management.py:93-98 | an alias with one single-word expression dispatches exactly as that word does, one level down |
| `Management.PathsTakePrecedence` | src/management_commands/management.py:90-92 | a name in PATHS, even one also in ALIASES, is handed over once with its arguments, and Django fetches the PATHS class |
| `Management.AliasArgumentsNotForwarded` | src/management_commands/management.py:93-98 | arguments after an alias name have no effect |
| `Management.AliasRunsExpressions` | src/management_commands/management.py:94-98 | expressions naming plain commands, none of which raises, run once each, in order, as `[prog, *expr.split()]` |
| `Management.AliasRunsTokenLists` | src/management_commands/management.py:93-98 | an alias of space-joined command lines runs exactly those command lines, in order |
| `Management.AliasChainRuns` | src/management_commands/management.py:93-98 | an alias whose expression is another alias runs that alias's command once |
| `Management.ExecuteFuelMonotone` | src/management_commands/management.py:83-100 | a dispatch that ends within a nesting depth (finished or raised) gives the same result with any larger depth |
| `Management.ExecuteAliasesFuelMonotone` | src/management_commands/management.py:93-98 | the same for an alias's list of expressions |
| `Management.AliasCycleNeverCompletes` | src/management_commands/management.py:93-98 | two aliases naming each other never finish, whatever nesting depth is allowed, and hand nothing to Django |
| `Management.HelpSections` | src/management_commands/management.py:33-65 | Sections come in this order: PATHS names (only when PATHS is non-empty), alias names (only when ALIASES is non-empty), then each discovered location |
| `Management.Flatten` | src/management_commands/management.py:65 | the flattened sections are empty exactly when every section is |
| `Management.MainHelpText` | src/management_commands/management.py:61-67 | The help text is Django's usage text unchanged, a line break, then (when there are sections) a blank line and the section lines. Sections exist exactly when PATHS, ALIASES or the discovered locations are non-empty |
| `Management.HelpTextLayout` | src/management_commands/management.py:61-67 | splitting the usage text on line breaks and joining it back with the extra lines only appends to it |
| `Management.HelpSectionsEmpty` | src/management_commands/management.py:33-65 | the sections add lines exactly when PATHS, ALIASES or the discovered locations are non-empty |

## Left out

- Message texts of `ImproperlyConfigured`, and the regex rewriting of setting names in `improperly_configured`: only the error `code` is modelled.
- `str.isidentifier` is approximated by ASCII letters, digits and `_`; non-ASCII identifier characters are not modelled. The keyword list is Python's 35 hard keywords.
- The regex `$` in `_is_dotted_path` also matches before a trailing newline; the model rejects a trailing newline.
- `import_string` is an importer function passed in. Exceptions other than `ImportError` raised while importing are not modelled.
- Django's `ManagementUtility.execute`, its argument parsing and its native help are not modelled. Each call is a recorded `BaseExecute` event, and the usage text is a parameter.
- Management.Execute: which hand-overs raise is a predicate passed in, not derived from Django's execute. `FailedFetchEndsAlias` assumes only that a vector raises when `fetch_command` of `argv[1]` fails and Django does not answer the vector itself. Django answers `help …`, `version …` and a lone `--help`, `-h` or `--version` without fetching (`AnsweredByDjango`), and such vectors are not assumed to raise. Nor is it assumed that every other vector returns.
- `get_commands_from_modules_and_submodules` (file discovery on disk) is not part of this model; the discovered locations are an input to the help text.
- `color_style().NOTICE` is taken as the identity: terminal colouring is presentation only.
- `execute_from_command_line`, its default of `sys.argv`, and the program name Django derives from `argv[0]` are not modelled; the program name is a parameter.
- `configure_submodules` inserts into the list in place; the model returns the new list.
- Management.Execute: recursion through aliases is bounded by a `fuel` argument, one unit per alias expansion; a run that exhausts it ends with `OutOfDepth` rather than as Python's `RecursionError`.
- Management.FetchCommand: returns the command class; instantiating it (`command_class()`) is not modelled.
- Core.UnlabelledCandidateOrder, Core.CoreCandidatesLast and Core.LastRegisteredWins require that no installed app is itself named `django.core`. The source filters such an app's non-default submodules too (`core.py:51`), which breaks the equal-width blocks the slot formula counts on. `Core.GetCommandPaths` and `Core.LoadCommandClass` make no such requirement.
- `noxfile.py` (development sessions) is outside the modelled behaviour.
