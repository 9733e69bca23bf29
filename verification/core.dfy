/** Command resolution (`core.py`): the ordered list of dotted paths where a
    command's class may live, and the search that takes the first path that
    imports to a command class. Python's dynamic import becomes an importer
    function passed in by the caller; Django's app registry becomes the
    ordered list of installed apps. */
module Core {
  import opened Results
  import opened Conf

  /** An installed app: the label it is looked up by and its package name. */
  datatype AppConfig = AppConfig(appLabel: string, name: string)

  /** Identity of a Python object obtained by import. */
  type ClassId = string

  /** What importing a dotted path yields: nothing (`ImportError`), or an
      object that is or is not a subclass of Django's `BaseCommand`. */
  datatype Import = NotFound | Found(cls: ClassId, isCommandSubclass: bool)

  /** The package's exceptions, keeping what their messages are built from. */
  datatype CommandError =
    | CommandImportError(path: string)
    | CommandTypeError(cls: ClassId)
    | CommandAppLookupError(unknownLabel: string)
    | CommandClassLookupError(commandName: string, searchedLabel: Option<string>)

  /** The framework's own commands live under this pseudo-app. */
  const CoreAppName: string := "django.core"

  // ---------------------------------------------------------------------
  // Candidate paths

  /** A dotted path ending in `.<name>.Command`. */
  predicate IsCommandPathFor(path: string, name: string) {
    var suffix := "." + name + ".Command";
    |path| >= |suffix| && path[|path| - |suffix|..] == suffix
  }

  /** `f"{prefix}.{name}.Command"`. */
  function Candidate(prefix: string, name: string): (path: string)
  {
    prefix + "." + name + ".Command"
  }

  /** Candidates from MODULES, one per module, in order: each lies inside
      its module and names the command's class. */
  function ModulePaths(modules: seq<string>, name: string): (paths: seq<string>)
    ensures |paths| == |modules|
    ensures forall i :: 0 <= i < |modules| ==>
      |paths[i]| > |modules[i]| && paths[i][..|modules[i]|] == modules[i] && IsCommandPathFor(paths[i], name)
  {
    seq(|modules|, i requires 0 <= i < |modules| => Candidate(modules[i], name))
  }

  /** The inner loop over SUBMODULES for one app; the framework's
      pseudo-app only takes the conventional submodule. */
  function AppPaths(appName: string, submodules: seq<string>, name: string): seq<string>
  {
    if |submodules| == 0 then []
    else
      var rest := AppPaths(appName, submodules[1..], name);
      if appName == CoreAppName && submodules[0] != DefaultSubmodule then rest
      else [Candidate(appName + "." + submodules[0], name)] + rest
  }

  /** The outer loop over app names. */
  function SubmodulePaths(appNames: seq<string>, submodules: seq<string>, name: string): seq<string>
  {
    if |appNames| == 0 then []
    else AppPaths(appNames[0], submodules, name) + SubmodulePaths(appNames[1..], submodules, name)
  }

  /** Names of the installed apps, last registered first: one name per
      app, and no name that is not an app's. */
  function ReversedNames(apps: seq<AppConfig>): (names: seq<string>)
    ensures |names| == |apps|
    ensures |apps| > 0 ==> names[0] == apps[|apps| - 1].name
    ensures forall a :: a in apps ==> a.name in names
    ensures forall n :: n in names ==> exists a :: a in apps && a.name == n
  {
    var names := seq(|apps|, k requires 0 <= k < |apps| => apps[|apps| - 1 - k].name);
    assert forall k :: 0 <= k < |apps| ==> names[|apps| - 1 - k] == apps[k].name;
    names
  }

  /** `apps.get_app_config(label)`: the installed app with the wanted label. */
  function GetAppConfig(apps: seq<AppConfig>, wanted: string): (r: Option<AppConfig>)
    ensures r.None? <==> forall i :: 0 <= i < |apps| ==> apps[i].appLabel != wanted
    ensures r.Some? ==> r.value in apps && r.value.appLabel == wanted
  {
    if |apps| == 0 then None
    else if apps[0].appLabel == wanted then Some(apps[0])
    else GetAppConfig(apps[1..], wanted)
  }

  /** The unlabelled search order: MODULES, then every installed app last
      registered first, then the framework's own app. */
  function UnlabelledPaths(name: string, settings: Settings, apps: seq<AppConfig>): seq<string> {
    ModulePaths(settings.modules, name)
    + SubmodulePaths(ReversedNames(apps) + [CoreAppName], settings.submodules, name)
  }

  /** `get_command_paths`. An empty label counts as no label. */
  function GetCommandPaths(name: string, appLabel: Option<string>, settings: Settings, apps: seq<AppConfig>)
    : (r: Result<seq<string>, CommandError>)
    ensures (appLabel.None? || appLabel.value == "") ==>
      && r.Success?
      && |r.value| >= |settings.modules|
      && forall i :: 0 <= i < |settings.modules| ==> r.value[i] == Candidate(settings.modules[i], name)
    ensures appLabel.Some? && appLabel.value != "" ==>
      (r.Failure? <==> GetAppConfig(apps, appLabel.value).None?)
    ensures r.Failure? ==> appLabel.Some? && r.error == CommandAppLookupError(appLabel.value)
    ensures appLabel.Some? && appLabel.value != "" && GetAppConfig(apps, appLabel.value).Some? ==>
      var app := GetAppConfig(apps, appLabel.value).value;
      app.name != CoreAppName ==>
        r == Success(seq(|settings.submodules|, j requires 0 <= j < |settings.submodules| =>
                           Candidate(app.name + "." + settings.submodules[j], name)))
  {
    if appLabel.None? || appLabel.value == "" then
      Success(UnlabelledPaths(name, settings, apps))
    else
      match GetAppConfig(apps, appLabel.value)
      case None => Failure(CommandAppLookupError(appLabel.value))
      case Some(app) =>
        var paths := SubmodulePaths([app.name], settings.submodules, name);
        assert [app.name][1..] == [];
        assert SubmodulePaths([app.name][1..], settings.submodules, name) == [];
        assert paths == AppPaths(app.name, settings.submodules, name);
        assert app.name != CoreAppName ==>
          paths == seq(|settings.submodules|, j requires 0 <= j < |settings.submodules| =>
                         Candidate(app.name + "." + settings.submodules[j], name)) by {
          if app.name != CoreAppName {
            AppPathsOrdinary(app.name, settings.submodules, name);
          }
        }
        Success(paths)
  }

  // ---------------------------------------------------------------------
  // Import and first-match search

  /** Whether a path imports to a `BaseCommand` subclass. */
  predicate Loadable(importer: string -> Import, path: string) {
    importer(path).Found? && importer(path).isCommandSubclass
  }

  /** `import_command_class`. */
  function ImportCommandClass(importer: string -> Import, path: string): (r: Result<ClassId, CommandError>)
    ensures r.Success? <==> Loadable(importer, path)
    ensures r.Success? ==> r.value == importer(path).cls
    ensures importer(path).NotFound? <==> r == Failure(CommandImportError(path))
    ensures importer(path).Found? && !importer(path).isCommandSubclass ==>
      r == Failure(CommandTypeError(importer(path).cls))
  {
    match importer(path)
    case NotFound => Failure(CommandImportError(path))
    case Found(cls, isCommandSubclass) =>
      if isCommandSubclass then Success(cls) else Failure(CommandTypeError(cls))
  }

  /** `i` is the first position whose path is loadable. */
  predicate FirstLoadableAt(importer: string -> Import, paths: seq<string>, i: int) {
    && 0 <= i < |paths|
    && Loadable(importer, paths[i])
    && forall j :: 0 <= j < i ==> !Loadable(importer, paths[j])
  }

  /** The loop of `load_command_class`: import errors and type errors are
      swallowed and the next path is tried. */
  function FirstLoadable(importer: string -> Import, paths: seq<string>): (r: Option<nat>)
    ensures r.Some? ==> FirstLoadableAt(importer, paths, r.value)
    ensures r.None? <==> forall j :: 0 <= j < |paths| ==> !Loadable(importer, paths[j])
  {
    if |paths| == 0 then None
    else if Loadable(importer, paths[0]) then Some(0)
    else match FirstLoadable(importer, paths[1..])
      case None => None
      case Some(i) => Some(i + 1)
  }

  /** `load_command_class`: the class at the first loadable candidate; an
      unknown app label is not caught. */
  function LoadCommandClass(importer: string -> Import, name: string, appLabel: Option<string>,
                            settings: Settings, apps: seq<AppConfig>): (r: Result<ClassId, CommandError>)
    ensures GetCommandPaths(name, appLabel, settings, apps).Failure? ==>
      r == Failure(GetCommandPaths(name, appLabel, settings, apps).error)
    ensures GetCommandPaths(name, appLabel, settings, apps).Success? ==>
      var paths := GetCommandPaths(name, appLabel, settings, apps).value;
      && (r.Success? <==> exists i :: 0 <= i < |paths| && Loadable(importer, paths[i]))
      && (r.Success? ==> exists i :: FirstLoadableAt(importer, paths, i) && r.value == importer(paths[i]).cls)
      && (r.Failure? ==> r.error == CommandClassLookupError(name, appLabel))
  {
    match GetCommandPaths(name, appLabel, settings, apps)
    case Failure(e) => Failure(e)
    case Success(paths) =>
      match FirstLoadable(importer, paths)
      case None => Failure(CommandClassLookupError(name, appLabel))
      case Some(i) => ImportCommandClass(importer, paths[i])
  }

  // ---------------------------------------------------------------------
  // Candidate order

  /** For an ordinary app, one candidate per submodule, in SUBMODULES order. */
  lemma {:induction false} AppPathsOrdinary(appName: string, submodules: seq<string>, name: string)
    requires appName != CoreAppName
    ensures AppPaths(appName, submodules, name) ==
      seq(|submodules|, j requires 0 <= j < |submodules| => Candidate(appName + "." + submodules[j], name))
    decreases |submodules|
  {
    if |submodules| > 0 {
      AppPathsOrdinary(appName, submodules[1..], name);
    }
  }

  /** The framework's pseudo-app yields its one path once per occurrence of
      the conventional submodule, and nothing when it is absent. */
  lemma {:induction false} AppPathsCore(submodules: seq<string>, name: string)
    ensures |AppPaths(CoreAppName, submodules, name)| == multiset(submodules)[DefaultSubmodule]
    ensures forall i :: 0 <= i < |AppPaths(CoreAppName, submodules, name)| ==>
      AppPaths(CoreAppName, submodules, name)[i] == Candidate(CoreAppName + "." + DefaultSubmodule, name)
    decreases |submodules|
  {
    if |submodules| > 0 {
      AppPathsCore(submodules[1..], name);
      assert submodules == [submodules[0]] + submodules[1..];
    }
  }

  lemma {:induction false} SubmodulePathsAppend(a: seq<string>, b: seq<string>, submodules: seq<string>, name: string)
    ensures SubmodulePaths(a + b, submodules, name) == SubmodulePaths(a, submodules, name) + SubmodulePaths(b, submodules, name)
    decreases |a|
  {
    if |a| == 0 {
      assert a + b == b;
    } else {
      assert (a + b)[1..] == a[1..] + b;
      SubmodulePathsAppend(a[1..], b, submodules, name);
    }
  }

  lemma CandidateEndsWithCommand(prefix: string, name: string)
    ensures IsCommandPathFor(Candidate(prefix, name), name)
  {
  }

  lemma {:induction false} AppPathsEndWithCommand(appName: string, submodules: seq<string>, name: string)
    ensures forall i :: 0 <= i < |AppPaths(appName, submodules, name)| ==>
      IsCommandPathFor(AppPaths(appName, submodules, name)[i], name)
    decreases |submodules|
  {
    if |submodules| > 0 {
      AppPathsEndWithCommand(appName, submodules[1..], name);
      CandidateEndsWithCommand(appName + "." + submodules[0], name);
    }
  }

  lemma {:induction false} SubmodulePathsEndWithCommand(appNames: seq<string>, submodules: seq<string>, name: string)
    ensures forall i :: 0 <= i < |SubmodulePaths(appNames, submodules, name)| ==>
      IsCommandPathFor(SubmodulePaths(appNames, submodules, name)[i], name)
    decreases |appNames|
  {
    if |appNames| > 0 {
      AppPathsEndWithCommand(appNames[0], submodules, name);
      SubmodulePathsEndWithCommand(appNames[1..], submodules, name);
    }
  }

  /** Every candidate, labelled or not, is `<prefix>.<name>.Command`. */
  lemma CandidatesEndWithCommand(name: string, appLabel: Option<string>, settings: Settings, apps: seq<AppConfig>)
    requires GetCommandPaths(name, appLabel, settings, apps).Success?
    ensures var paths := GetCommandPaths(name, appLabel, settings, apps).value;
      forall i :: 0 <= i < |paths| ==> IsCommandPathFor(paths[i], name)
  {
    forall i | 0 <= i < |settings.modules| {
      CandidateEndsWithCommand(settings.modules[i], name);
    }
    if appLabel.None? || appLabel.value == "" {
      SubmodulePathsEndWithCommand(ReversedNames(apps) + [CoreAppName], settings.submodules, name);
    } else {
      SubmodulePathsEndWithCommand([GetAppConfig(apps, appLabel.value).value.name], settings.submodules, name);
    }
  }

  /** Position of submodule `j` of the `k`-th app block after `start` earlier
      candidates, when each block has `width` entries. */
  function Slot(start: int, width: int, k: int, j: int): int {
    start + k * width + j
  }

  lemma {:induction false} SubmodulePathsLength(appNames: seq<string>, submodules: seq<string>, name: string)
    requires forall k :: 0 <= k < |appNames| ==> appNames[k] != CoreAppName
    ensures |SubmodulePaths(appNames, submodules, name)| == |appNames| * |submodules|
    decreases |appNames|
  {
    if |appNames| > 0 {
      AppPathsOrdinary(appNames[0], submodules, name);
      SubmodulePathsLength(appNames[1..], submodules, name);
      assert |appNames| * |submodules| == |submodules| + (|appNames| - 1) * |submodules|;
    }
  }

  /** Ordinary apps contribute equal blocks, one per app, in the order
      given: submodule `j` of app `k` sits at `Slot(0, width, k, j)`. */
  lemma {:induction false} SubmodulePathsAt(appNames: seq<string>, submodules: seq<string>, name: string, k: int, j: int)
    requires forall k :: 0 <= k < |appNames| ==> appNames[k] != CoreAppName
    requires 0 <= k < |appNames| && 0 <= j < |submodules|
    ensures Slot(0, |submodules|, k, j) < |SubmodulePaths(appNames, submodules, name)|
    ensures SubmodulePaths(appNames, submodules, name)[Slot(0, |submodules|, k, j)] ==
      Candidate(appNames[k] + "." + submodules[j], name)
    decreases k
  {
    var n := |submodules|;
    var head := AppPaths(appNames[0], submodules, name);
    var tail := SubmodulePaths(appNames[1..], submodules, name);
    var all := SubmodulePaths(appNames, submodules, name);
    AppPathsOrdinary(appNames[0], submodules, name);
    assert all == head + tail;
    assert |head| == n;
    if k == 0 {
      assert Slot(0, n, k, j) == j;
      assert all[j] == head[j];
    } else {
      var j' := Slot(0, n, k - 1, j);
      SubmodulePathsAt(appNames[1..], submodules, name, k - 1, j);
      SlotStep(n, k, j);
      assert all[n + j'] == tail[j'];
      assert appNames[k] == appNames[1..][k - 1];
    }
  }

  lemma SlotStep(n: int, k: int, j: int)
    requires k > 0
    ensures Slot(0, n, k, j) == n + Slot(0, n, k - 1, j)
  {
  }

  /** Without a label: the MODULES candidates in order, then one block per
      installed app with the last registered app first, each block in
      SUBMODULES order. */
  lemma UnlabelledCandidateOrder(name: string, appLabel: Option<string>, settings: Settings, apps: seq<AppConfig>)
    requires appLabel.None? || appLabel.value == ""
    requires forall k :: 0 <= k < |apps| ==> apps[k].name != CoreAppName
    ensures GetCommandPaths(name, appLabel, settings, apps).Success?
    ensures forall i :: 0 <= i < |settings.modules| ==>
      GetCommandPaths(name, appLabel, settings, apps).value[i] == Candidate(settings.modules[i], name)
    ensures forall k, j :: 0 <= k < |apps| && 0 <= j < |settings.submodules| ==>
      && Slot(|settings.modules|, |settings.submodules|, k, j) < |GetCommandPaths(name, appLabel, settings, apps).value|
      && GetCommandPaths(name, appLabel, settings, apps).value[Slot(|settings.modules|, |settings.submodules|, k, j)] ==
         Candidate(apps[|apps| - 1 - k].name + "." + settings.submodules[j], name)
  {
    var paths := UnlabelledPaths(name, settings, apps);
    assert GetCommandPaths(name, appLabel, settings, apps) == Success(paths);
    forall k, j | 0 <= k < |apps| && 0 <= j < |settings.submodules|
      ensures Slot(|settings.modules|, |settings.submodules|, k, j) < |paths|
      ensures paths[Slot(|settings.modules|, |settings.submodules|, k, j)] ==
              Candidate(apps[|apps| - 1 - k].name + "." + settings.submodules[j], name)
    {
      UnlabelledBlockAt(name, settings, apps, k, j);
    }
  }

  /** Without a label, the framework's own commands package comes after
      every installed app, once per `"management.commands"` in SUBMODULES. */
  lemma CoreCandidatesLast(name: string, appLabel: Option<string>, settings: Settings, apps: seq<AppConfig>)
    requires appLabel.None? || appLabel.value == ""
    requires forall k :: 0 <= k < |apps| ==> apps[k].name != CoreAppName
    ensures GetCommandPaths(name, appLabel, settings, apps).Success?
    ensures var paths := GetCommandPaths(name, appLabel, settings, apps).value;
      var tail := |settings.modules| + |apps| * |settings.submodules|;
      && |paths| == tail + multiset(settings.submodules)[DefaultSubmodule]
      && forall t :: tail <= t < |paths| ==> paths[t] == Candidate(CoreAppName + "." + DefaultSubmodule, name)
  {
    var paths := UnlabelledPaths(name, settings, apps);
    assert GetCommandPaths(name, appLabel, settings, apps) == Success(paths);
    UnlabelledPathsSplit(name, settings, apps);
    SubmodulePathsLength(ReversedNames(apps), settings.submodules, name);
    AppPathsCore(settings.submodules, name);
    forall t | |settings.modules| + |apps| * |settings.submodules| <= t < |paths|
      ensures paths[t] == Candidate(CoreAppName + "." + DefaultSubmodule, name)
    {
      UnlabelledCoreAt(name, settings, apps, t);
    }
  }

  /** One slot of the app blocks. */
  lemma UnlabelledBlockAt(name: string, settings: Settings, apps: seq<AppConfig>, k: int, j: int)
    requires forall k :: 0 <= k < |apps| ==> apps[k].name != CoreAppName
    requires 0 <= k < |apps| && 0 <= j < |settings.submodules|
    ensures Slot(|settings.modules|, |settings.submodules|, k, j) < |UnlabelledPaths(name, settings, apps)|
    ensures UnlabelledPaths(name, settings, apps)[Slot(|settings.modules|, |settings.submodules|, k, j)] ==
      Candidate(apps[|apps| - 1 - k].name + "." + settings.submodules[j], name)
  {
    var names := ReversedNames(apps);
    var subs := settings.submodules;
    var mods := ModulePaths(settings.modules, name);
    var blocks := SubmodulePaths(names, subs, name);
    var core := AppPaths(CoreAppName, subs, name);
    UnlabelledPathsSplit(name, settings, apps);
    SubmodulePathsAt(names, subs, name, k, j);
    var x := Slot(0, |subs|, k, j);
    ConcatMiddle(mods, blocks, core, x);
  }

  /** One slot of the trailing core block. */
  lemma UnlabelledCoreAt(name: string, settings: Settings, apps: seq<AppConfig>, t: int)
    requires forall k :: 0 <= k < |apps| ==> apps[k].name != CoreAppName
    requires |settings.modules| + |apps| * |settings.submodules| <= t < |UnlabelledPaths(name, settings, apps)|
    ensures UnlabelledPaths(name, settings, apps)[t] == Candidate(CoreAppName + "." + DefaultSubmodule, name)
  {
    var subs := settings.submodules;
    var mods := ModulePaths(settings.modules, name);
    var blocks := SubmodulePaths(ReversedNames(apps), subs, name);
    var core := AppPaths(CoreAppName, subs, name);
    UnlabelledPathsSplit(name, settings, apps);
    SubmodulePathsLength(ReversedNames(apps), subs, name);
    AppPathsCore(subs, name);
    ConcatLast(mods, blocks, core, t - |mods| - |blocks|);
  }

  /** The unlabelled candidates are the MODULES block, the app blocks and
      the core block. */
  lemma UnlabelledPathsSplit(name: string, settings: Settings, apps: seq<AppConfig>)
    ensures UnlabelledPaths(name, settings, apps) ==
      ModulePaths(settings.modules, name)
      + SubmodulePaths(ReversedNames(apps), settings.submodules, name)
      + AppPaths(CoreAppName, settings.submodules, name)
  {
    var core := AppPaths(CoreAppName, settings.submodules, name);
    SubmodulePathsAppend(ReversedNames(apps), [CoreAppName], settings.submodules, name);
    assert SubmodulePaths([CoreAppName], settings.submodules, name) == core + [];
  }

  lemma ConcatMiddle<T>(a: seq<T>, b: seq<T>, c: seq<T>, x: int)
    requires 0 <= x < |b|
    ensures |a| + x < |a + b + c| && (a + b + c)[|a| + x] == b[x]
  {
  }

  lemma ConcatLast<T>(a: seq<T>, b: seq<T>, c: seq<T>, x: int)
    requires 0 <= x < |c|
    ensures (a + b + c)[|a| + |b| + x] == c[x]
  {
  }

  lemma MulMonotone(a: int, b: int, n: nat)
    requires a <= b
    ensures a * n <= b * n
  {
  }

  /** Among unlabelled candidates a later-registered app shadows an earlier
      one: once app `j` provides the command, the winning path comes before
      every candidate of any app `i` registered before it. */
  lemma LastRegisteredWins(importer: string -> Import, name: string, appLabel: Option<string>,
                           settings: Settings, apps: seq<AppConfig>, i: int, j: int, sub: int)
    requires appLabel.None? || appLabel.value == ""
    requires forall k :: 0 <= k < |apps| ==> apps[k].name != CoreAppName
    requires 0 <= i < j < |apps| && 0 <= sub < |settings.submodules|
    requires Loadable(importer, Candidate(apps[j].name + "." + settings.submodules[sub], name))
    ensures var paths := GetCommandPaths(name, appLabel, settings, apps).value;
      var w := FirstLoadable(importer, paths);
      && w.Some?
      && w.value < Slot(|settings.modules|, |settings.submodules|, |apps| - 1 - i, 0)
      && LoadCommandClass(importer, name, appLabel, settings, apps) == Success(importer(paths[w.value]).cls)
  {
    var paths := UnlabelledPaths(name, settings, apps);
    assert GetCommandPaths(name, appLabel, settings, apps) == Success(paths);
    var m, n := |settings.modules|, |settings.submodules|;
    var kj := |apps| - 1 - j;
    UnlabelledBlockAt(name, settings, apps, kj, sub);
    assert apps[|apps| - 1 - kj] == apps[j];
    var at := Slot(m, n, kj, sub);
    assert Loadable(importer, paths[at]);
    var w := FirstLoadable(importer, paths);
    assert w.Some? && w.value <= at;
    MulMonotone(kj + 1, |apps| - 1 - i, n);
    assert (kj + 1) * n == kj * n + n;
    assert at < Slot(m, n, |apps| - 1 - i, 0);
  }
}
