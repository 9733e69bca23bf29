/** The package's settings and the validators that check each of them when
    it is first read (`conf.py`). A validator either hands back the value
    it was given (the submodule list possibly with the conventional
    submodule prepended) or fails with a configuration error whose code
    names the setting and the rule that was broken. */
module Conf {
  import opened Results
  import opened Text
  import opened Dicts

  /** The four settings: PATHS (command name to class path), MODULES,
      SUBMODULES, and ALIASES (alias name to command expressions). */
  datatype Settings = Settings(
    paths: Dict<string>,
    modules: seq<string>,
    submodules: seq<string>,
    aliases: Dict<seq<string>>)

  /** `ImproperlyConfigured`; only the machine-readable code is kept. */
  datatype ConfigError = ImproperlyConfigured(code: string)

  /** The framework's conventional commands package inside an app. */
  const DefaultSubmodule: string := "management.commands"

  /** Python's reserved words, as `keyword.iskeyword` knows them. */
  const Keywords: set<string> := {
    "False", "None", "True", "and", "as", "assert", "async", "await",
    "break", "class", "continue", "def", "del", "elif", "else", "except",
    "finally", "for", "from", "global", "if", "import", "in", "is",
    "lambda", "nonlocal", "not", "or", "pass", "raise", "return", "try",
    "while", "with", "yield"
  }

  // ---------------------------------------------------------------------
  // Character-level predicates (ASCII approximation of Python's rules)

  predicate IsLetter(c: char) {
    ('a' <= c <= 'z') || ('A' <= c <= 'Z')
  }

  predicate IsDigit(c: char) {
    '0' <= c <= '9'
  }

  /** `[^\d\W]`: a character that may start an identifier. */
  predicate IsWordStart(c: char) {
    IsLetter(c) || c == '_'
  }

  /** `\w`. */
  predicate IsWordChar(c: char) {
    IsWordStart(c) || IsDigit(c)
  }

  /** `str.isidentifier()`. */
  predicate IsPyIdentifier(s: string) {
    |s| > 0 && IsWordStart(s[0]) && forall i :: 0 <= i < |s| ==> IsWordChar(s[i])
  }

  /** `s.replace("-", "_")`: no hyphen is left, each character either stays
      or was a hyphen that became an underscore, and a string without
      hyphens is returned as it is. */
  function Underscored(s: string): (t: string)
    ensures |t| == |s| && '-' !in t
    ensures forall i :: 0 <= i < |s| ==> t[i] == s[i] || (s[i] == '-' && t[i] == '_')
    ensures '-' !in s ==> t == s
  {
    seq(|s|, i requires 0 <= i < |s| => if s[i] == '-' then '_' else s[i])
  }

  /** `_is_identifier`: an identifier once hyphens read as underscores; the
      keyword test looks at the string as given. */
  predicate IsIdentifier(s: string) {
    IsPyIdentifier(Underscored(s)) && s !in Keywords
  }

  /** The pattern `^[^\d\W]\w*(\.[^\d\W]\w*)*$`: word characters, where a dot
      may only sit between two words. */
  predicate MatchesDottedPattern(s: string) {
    && |s| > 0
    && IsWordStart(s[0])
    && forall i :: 0 <= i < |s| ==> PatternCharAt(s, i)
  }

  /** Position `i` of the pattern: a word character, or a dot followed by
      the start of the next word. */
  predicate PatternCharAt(s: string, i: int)
    requires 0 <= i < |s|
  {
    IsWordChar(s[i]) || (s[i] == '.' && i + 1 < |s| && IsWordStart(s[i + 1]))
  }

  /** `_is_dotted_path(s, min_parts=minParts)`. */
  predicate IsDottedPath(s: string, minParts: int) {
    && MatchesDottedPattern(s)
    && var parts := Split(s, '.');
       |parts| >= minParts && forall i :: 0 <= i < |parts| ==> IsIdentifier(parts[i])
  }

  // ---------------------------------------------------------------------
  // Facts about the predicates

  /** Reading hyphens as underscores changes nothing: checking the keyword
      on the original string instead of the rewritten one is harmless,
      because no keyword contains a hyphen or an underscore. */
  lemma IdentifierHyphenAsUnderscore(s: string)
    ensures IsIdentifier(s) <==> IsIdentifier(Underscored(s))
    ensures s in Keywords ==> !IsIdentifier(s)
  {
    var u := Underscored(s);
    assert Underscored(u) == u;
    forall k | k in Keywords
      ensures '-' !in k && '_' !in k
    {
    }
    if '-' in s {
      var i :| 0 <= i < |s| && s[i] == '-';
      assert u[i] == '_';
      assert s !in Keywords;
      assert u !in Keywords;
    } else {
      assert u == s;
    }
  }

  lemma PyIdentifierHasNoHyphen(p: string)
    requires IsPyIdentifier(p)
    ensures Underscored(p) == p
  {
  }

  /** Without dots, the pattern is a single word. */
  lemma PatternSingle(p: string)
    requires '.' !in p
    ensures MatchesDottedPattern(p) <==> IsPyIdentifier(p)
  {
    if MatchesDottedPattern(p) {
      forall i | 0 <= i < |p|
        ensures IsWordChar(p[i])
      {
        assert p[i] in p;
        assert PatternCharAt(p, i);
      }
    }
  }

  /** The pattern splits at a dot into a word and the rest of the pattern. */
  lemma PatternCons(p: string, t: string)
    requires '.' !in p
    ensures MatchesDottedPattern(p + ['.'] + t) <==> IsPyIdentifier(p) && MatchesDottedPattern(t)
  {
    var s := p + ['.'] + t;
    if MatchesDottedPattern(s) {
      assert |p| > 0;
      forall i | 0 <= i < |p|
        ensures IsWordChar(p[i])
      {
        assert s[i] == p[i];
        assert p[i] in p;
        assert PatternCharAt(s, i);
      }
      assert s[0] == p[0];
      assert s[|p|] == '.';
      assert PatternCharAt(s, |p|);
      assert IsWordStart(s[|p| + 1]);
      assert s[|p| + 1] == t[0];
      forall i | 0 <= i < |t|
        ensures PatternCharAt(t, i)
      {
        var k := |p| + 1 + i;
        assert s[k] == t[i];
        assert PatternCharAt(s, k);
        if k + 1 < |s| {
          assert s[k + 1] == t[i + 1];
        }
      }
    }
    if IsPyIdentifier(p) && MatchesDottedPattern(t) {
      assert s[0] == p[0];
      assert IsWordStart(s[0]);
      forall i | 0 <= i < |s|
        ensures PatternCharAt(s, i)
      {
        if i < |p| {
          assert s[i] == p[i];
        } else if i == |p| {
          assert s[i] == '.';
          assert s[i + 1] == t[0];
        } else {
          var k := i - |p| - 1;
          assert s[i] == t[k];
          assert PatternCharAt(t, k);
          if i + 1 < |s| {
            assert s[i + 1] == t[k + 1];
          }
        }
      }
    }
  }

  /** The pattern holds of a dot-joined list exactly when every part is a
      word. */
  lemma {:induction false} PatternOfJoin(parts: seq<string>)
    requires |parts| >= 1
    requires forall i :: 0 <= i < |parts| ==> '.' !in parts[i]
    ensures MatchesDottedPattern(Join(parts, '.')) <==> forall i :: 0 <= i < |parts| ==> IsPyIdentifier(parts[i])
    decreases |parts|
  {
    if |parts| == 1 {
      PatternSingle(parts[0]);
    } else {
      JoinCons(parts[0], parts[1..], '.');
      PatternCons(parts[0], Join(parts[1..], '.'));
      PatternOfJoin(parts[1..]);
      assert forall i :: 1 <= i < |parts| ==> parts[i] == parts[1..][i - 1];
    }
  }

  /** `_is_dotted_path` in terms of the parts: enough of them, each an
      identifier and not a keyword; such a string is non-empty and never
      contains a hyphen. */
  lemma DottedPathParts(s: string, minParts: int)
    ensures IsDottedPath(s, minParts) <==>
      var parts := Split(s, '.');
      && |parts| >= minParts
      && forall i :: 0 <= i < |parts| ==> IsPyIdentifier(parts[i]) && parts[i] !in Keywords
    ensures IsDottedPath(s, minParts) ==> |s| > 0 && '-' !in s
  {
    var parts := Split(s, '.');
    JoinSplit(s, '.');
    PatternOfJoin(parts);
    forall i | 0 <= i < |parts| && IsPyIdentifier(parts[i])
      ensures Underscored(parts[i]) == parts[i]
    {
      PyIdentifierHasNoHyphen(parts[i]);
    }
    if MatchesDottedPattern(s) {
      forall i | 0 <= i < |s|
        ensures s[i] != '-'
      {
        assert PatternCharAt(s, i);
      }
    }
  }

  // ---------------------------------------------------------------------
  // Validators

  /** The first error a check reports over a list, scanning in order. */
  function FirstError<T>(xs: seq<T>, check: T -> Option<string>): (r: Option<string>)
    ensures r.None? <==> forall i :: 0 <= i < |xs| ==> check(xs[i]).None?
    ensures r.Some? ==> exists i :: 0 <= i < |xs| && check(xs[i]) == r && forall j :: 0 <= j < i ==> check(xs[j]).None?
  {
    if |xs| == 0 then None
    else if check(xs[0]).Some? then check(xs[0])
    else
      var r := FirstError(xs[1..], check);
      assert r.Some? ==> exists i :: 1 <= i < |xs| && check(xs[i]) == r && forall j :: 0 <= j < i ==> check(xs[j]).None? by {
        if r.Some? {
          var i :| 0 <= i < |xs[1..]| && check(xs[1..][i]) == r && forall j :: 0 <= j < i ==> check(xs[1..][j]).None?;
          assert check(xs[i + 1]) == r;
          assert forall j :: 1 <= j < i + 1 ==> check(xs[j]) == check(xs[1..][j - 1]);
        }
      }
      r
  }

  function PathEntryError(entry: (string, string)): Option<string> {
    if !IsIdentifier(entry.0) then Some("paths.key")
    else if !IsDottedPath(entry.1, 2) then Some("paths.value")
    else None
  }

  predicate ValidPathEntry(entry: (string, string)) {
    IsIdentifier(entry.0) && IsDottedPath(entry.1, 2)
  }

  /** `configure_paths`. */
  function ConfigurePaths(paths: Dict<string>): (r: Result<Dict<string>, ConfigError>)
    ensures r.Success? <==> forall i :: 0 <= i < |paths| ==> ValidPathEntry(paths[i])
    ensures r.Success? ==> r.value == paths
    ensures r.Failure? ==>
      exists i :: 0 <= i < |paths| && (forall j :: 0 <= j < i ==> ValidPathEntry(paths[j])) &&
                  (if !IsIdentifier(paths[i].0) then r.error.code == "paths.key"
                   else !IsDottedPath(paths[i].1, 2) && r.error.code == "paths.value")
  {
    match FirstError(paths, PathEntryError)
    case None => Success(paths)
    case Some(code) => Failure(ImproperlyConfigured(code))
  }

  function ItemError(settingName: string): string -> Option<string> {
    item => if IsDottedPath(item, 0) then None else Some(settingName + ".item")
  }

  /** `_configure_path_list`. */
  function ConfigurePathList(settingName: string, items: seq<string>): (r: Result<seq<string>, ConfigError>)
    ensures r.Success? <==> forall i :: 0 <= i < |items| ==> IsDottedPath(items[i], 0)
    ensures r.Success? ==> r.value == items
    ensures r.Failure? ==> r.error.code == settingName + ".item"
    ensures r.Failure? ==>
      exists i :: 0 <= i < |items| && !IsDottedPath(items[i], 0) && forall j :: 0 <= j < i ==> IsDottedPath(items[j], 0)
  {
    match FirstError(items, ItemError(settingName))
    case None => Success(items)
    case Some(code) => Failure(ImproperlyConfigured(code))
  }

  /** `configure_modules`. */
  function ConfigureModules(modules: seq<string>): (r: Result<seq<string>, ConfigError>)
    ensures r.Success? <==> forall i :: 0 <= i < |modules| ==> IsDottedPath(modules[i], 0)
    ensures r.Success? ==> r.value == modules
    ensures r.Failure? ==> r.error.code == "modules.item"
  {
    ConfigurePathList("modules", modules)
  }

  /** `configure_submodules`: the conventional submodule is put first when
      it is missing and left where it is otherwise. */
  function ConfigureSubmodules(submodules: seq<string>): (r: Result<seq<string>, ConfigError>)
    ensures r.Success? <==> forall i :: 0 <= i < |submodules| ==> IsDottedPath(submodules[i], 0)
    ensures r.Success? ==> DefaultSubmodule in r.value
    ensures r.Success? && DefaultSubmodule in submodules ==> r.value == submodules
    ensures r.Success? && DefaultSubmodule !in submodules ==>
      r.value[0] == DefaultSubmodule && r.value[1..] == submodules
    ensures r.Failure? ==> r.error.code == "submodules.item"
  {
    match ConfigurePathList("submodules", submodules)
    case Failure(e) => Failure(e)
    case Success(items) =>
      if DefaultSubmodule !in items then Success([DefaultSubmodule] + items) else Success(items)
  }

  /** An alias item is acceptable when it has a first token and that token
      is not the alias itself. */
  predicate ValidAliasItem(key: string, item: string) {
    |Tokens(item)| > 0 && Tokens(item)[0] != key
  }

  /** The code an unacceptable alias item is reported with. */
  function AliasItemCode(key: string, item: string): string {
    if |Tokens(item)| == 0 then "aliases.empty" else "aliases.self_reference"
  }

  function AliasItemError(key: string): string -> Option<string> {
    item =>
      var argv := Tokens(item);
      if |argv| == 0 then Some("aliases.empty")
      else if argv[0] == key then Some("aliases.self_reference")
      else None
  }

  predicate ValidAliasEntry(entry: (string, seq<string>)) {
    && IsIdentifier(entry.0)
    && forall j :: 0 <= j < |entry.1| ==> ValidAliasItem(entry.0, entry.1[j])
  }

  /** How an alias entry is rejected with `code`: a bad key, or else its
      first unacceptable item. */
  predicate AliasEntryRejected(entry: (string, seq<string>), code: string) {
    var (key, items) := entry;
    if !IsIdentifier(key) then code == "aliases.key"
    else
      exists k :: 0 <= k < |items| && !ValidAliasItem(key, items[k]) &&
                  (forall j :: 0 <= j < k ==> ValidAliasItem(key, items[j])) &&
                  code == AliasItemCode(key, items[k])
  }

  function AliasEntryError(entry: (string, seq<string>)): (r: Option<string>)
    ensures r.None? <==> ValidAliasEntry(entry)
    ensures r.Some? ==> AliasEntryRejected(entry, r.value)
  {
    if !IsIdentifier(entry.0) then Some("aliases.key")
    else
      var r := FirstError(entry.1, AliasItemError(entry.0));
      assert forall j :: 0 <= j < |entry.1| ==> (AliasItemError(entry.0)(entry.1[j]).None? <==> ValidAliasItem(entry.0, entry.1[j]));
      r
  }

  /** `configure_aliases`. */
  function ConfigureAliases(aliases: Dict<seq<string>>): (r: Result<Dict<seq<string>>, ConfigError>)
    ensures r.Success? <==> forall i :: 0 <= i < |aliases| ==> ValidAliasEntry(aliases[i])
    ensures r.Success? ==> r.value == aliases
    ensures r.Failure? ==>
      exists i :: 0 <= i < |aliases| && (forall j :: 0 <= j < i ==> ValidAliasEntry(aliases[j])) &&
        AliasEntryRejected(aliases[i], r.error.code)
  {
    match FirstError(aliases, AliasEntryError)
    case None => Success(aliases)
    case Some(code) => Failure(ImproperlyConfigured(code))
  }

  // ---------------------------------------------------------------------
  // Facts about the validators

  lemma WordIsToken(t: string)
    requires IsToken(t)
    ensures Tokens(t) == [t]
  {
    TokensOfToken(t, "");
    assert t + "" == t;
  }

  lemma DefaultSubmoduleWords()
    ensures DefaultSubmodule == "management" + ['.'] + "commands"
    ensures '.' !in "management" && '.' !in "commands"
    ensures IsPyIdentifier("management") && "management" !in Keywords
    ensures IsPyIdentifier("commands") && "commands" !in Keywords
  {
  }

  lemma TwoWordDottedPath(a: string, b: string)
    requires IsPyIdentifier(a) && a !in Keywords && '.' !in a
    requires IsPyIdentifier(b) && b !in Keywords && '.' !in b
    ensures IsDottedPath(a + ['.'] + b, 2)
  {
    SplitCons(a, b, '.');
    SplitNoSep(b, '.');
    assert Split(a + ['.'] + b, '.') == [a, b];
    DottedPathParts(a + ['.'] + b, 2);
  }

  /** The conventional submodule passes the list validator. */
  lemma DefaultSubmoduleIsDottedPath()
    ensures IsDottedPath(DefaultSubmodule, 0)
  {
    DefaultSubmoduleWords();
    TwoWordDottedPath("management", "commands");
  }

  /** Validating the submodule list a second time changes nothing, and the
      conventional submodule is never added twice. */
  lemma {:induction false} ConfigureSubmodulesIdempotent(submodules: seq<string>)
    requires forall i :: 0 <= i < |submodules| ==> IsDottedPath(submodules[i], 0)
    ensures ConfigureSubmodules(ConfigureSubmodules(submodules).value) == ConfigureSubmodules(submodules)
    ensures DefaultSubmodule !in submodules ==>
      multiset(ConfigureSubmodules(submodules).value)[DefaultSubmodule] == 1
  {
    var w := ConfigureSubmodules(submodules).value;
    if DefaultSubmodule !in submodules {
      DefaultSubmoduleIsDottedPath();
      assert w == [DefaultSubmodule] + submodules;
      assert forall i :: 1 <= i < |w| ==> w[i] == submodules[i - 1];
      assert multiset(submodules)[DefaultSubmodule] == 0;
    }
  }

  /** An alias may name another alias: only direct self-reference is
      refused. */
  lemma AliasChainAccepted(a: string, b: string, c: string)
    requires IsIdentifier(a) && IsIdentifier(b)
    requires IsToken(b) && IsToken(c) && a != b && b != c
    ensures ConfigureAliases([(a, [b]), (b, [c])]) == Success([(a, [b]), (b, [c])])
  {
    WordIsToken(b);
    WordIsToken(c);
    var d := [(a, [b]), (b, [c])];
    assert ValidAliasEntry(d[0]) && ValidAliasEntry(d[1]);
  }

  /** A rejected alias entry is not a valid one. */
  lemma RejectedEntryInvalid(entry: (string, seq<string>), code: string)
    requires AliasEntryRejected(entry, code)
    ensures !ValidAliasEntry(entry)
  {
    if IsIdentifier(entry.0) {
      var k :| 0 <= k < |entry.1| && !ValidAliasItem(entry.0, entry.1[k]);
    }
  }

  /** The first invalid entry is the one rejected: when the entries before
      `i` are valid and entry `i` is not, the setting fails with a code by
      which entry `i` is rejected. */
  lemma FirstInvalidEntryRejected(aliases: Dict<seq<string>>, i: int)
    requires 0 <= i < |aliases| && forall j :: 0 <= j < i ==> ValidAliasEntry(aliases[j])
    requires !ValidAliasEntry(aliases[i])
    ensures ConfigureAliases(aliases).Failure?
    ensures AliasEntryRejected(aliases[i], ConfigureAliases(aliases).error.code)
  {
    var r := ConfigureAliases(aliases);
    var i' :| 0 <= i' < |aliases| && (forall j :: 0 <= j < i' ==> ValidAliasEntry(aliases[j])) &&
              AliasEntryRejected(aliases[i'], r.error.code);
    RejectedEntryInvalid(aliases[i'], r.error.code);
    assert i' == i;
  }

  /** Within a rejected entry with a good key, the code is that of its first
      unacceptable item. */
  lemma FirstInvalidItemCode(entry: (string, seq<string>), k: int, code: string)
    requires AliasEntryRejected(entry, code) && IsIdentifier(entry.0)
    requires 0 <= k < |entry.1| && forall m :: 0 <= m < k ==> ValidAliasItem(entry.0, entry.1[m])
    requires !ValidAliasItem(entry.0, entry.1[k])
    ensures code == AliasItemCode(entry.0, entry.1[k])
  {
    var (key, items) := entry;
    var k' :| 0 <= k' < |items| && !ValidAliasItem(key, items[k']) &&
              (forall m :: 0 <= m < k' ==> ValidAliasItem(key, items[m])) &&
              code == AliasItemCode(key, items[k']);
    assert k' == k;
  }

  /** The first bad entry decides the error: when the entries before `i`
      are valid, entry `i`'s key is an identifier, its items before `k`
      are valid and item `k` is not, the whole setting fails with item
      `k`'s code. */
  lemma AliasItemRejectedAt(aliases: Dict<seq<string>>, i: int, k: int)
    requires 0 <= i < |aliases| && forall j :: 0 <= j < i ==> ValidAliasEntry(aliases[j])
    requires IsIdentifier(aliases[i].0)
    requires 0 <= k < |aliases[i].1| && forall m :: 0 <= m < k ==> ValidAliasItem(aliases[i].0, aliases[i].1[m])
    requires !ValidAliasItem(aliases[i].0, aliases[i].1[k])
    ensures ConfigureAliases(aliases) ==
      Failure(ImproperlyConfigured(AliasItemCode(aliases[i].0, aliases[i].1[k])))
  {
    assert !ValidAliasEntry(aliases[i]);
    FirstInvalidEntryRejected(aliases, i);
    FirstInvalidItemCode(aliases[i], k, ConfigureAliases(aliases).error.code);
  }

  /** An alias item whose first token is the alias's own name is refused
      with `aliases.self_reference`, whatever arguments follow it. */
  lemma AliasSelfReferenceRejected(aliases: Dict<seq<string>>, i: int, k: int)
    requires 0 <= i < |aliases| && forall j :: 0 <= j < i ==> ValidAliasEntry(aliases[j])
    requires IsIdentifier(aliases[i].0)
    requires 0 <= k < |aliases[i].1| && forall m :: 0 <= m < k ==> ValidAliasItem(aliases[i].0, aliases[i].1[m])
    requires |Tokens(aliases[i].1[k])| > 0 && Tokens(aliases[i].1[k])[0] == aliases[i].0
    ensures ConfigureAliases(aliases) == Failure(ImproperlyConfigured("aliases.self_reference"))
  {
    AliasItemRejectedAt(aliases, i, k);
  }

  /** An alias item with no tokens is refused with `aliases.empty`. */
  lemma AliasEmptyItemRejected(aliases: Dict<seq<string>>, i: int, k: int)
    requires 0 <= i < |aliases| && forall j :: 0 <= j < i ==> ValidAliasEntry(aliases[j])
    requires IsIdentifier(aliases[i].0)
    requires 0 <= k < |aliases[i].1| && forall m :: 0 <= m < k ==> ValidAliasItem(aliases[i].0, aliases[i].1[m])
    requires forall c :: 0 <= c < |aliases[i].1[k]| ==> IsSpace(aliases[i].1[k][c])
    ensures ConfigureAliases(aliases) == Failure(ImproperlyConfigured("aliases.empty"))
  {
    TokensEmpty(aliases[i].1[k]);
    AliasItemRejectedAt(aliases, i, k);
  }

  /** An alias whose key is not an identifier is refused with
      `aliases.key` before any of its items is looked at. */
  lemma AliasBadKeyRejected(aliases: Dict<seq<string>>, i: int)
    requires 0 <= i < |aliases| && forall j :: 0 <= j < i ==> ValidAliasEntry(aliases[j])
    requires !IsIdentifier(aliases[i].0)
    ensures ConfigureAliases(aliases) == Failure(ImproperlyConfigured("aliases.key"))
  {
    FirstInvalidEntryRejected(aliases, i);
  }
}
