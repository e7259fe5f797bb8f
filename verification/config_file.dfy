/** Where esmero's configuration file is found, and how the settings a
    command sees are layered: built-in defaults, then the file, then the
    command-line arguments. */
module ConfigFile {
  import opened Outcomes
  import opened Values
  import opened Text
  import ConfigCommand

  const FileName := "esmero.config"
  const UserFileName := ".esmero.config"

  /** What a configuration file on disk holds: a JSON object, something
      that cannot be opened for reading, or text that is not JSON. */
  datatype Stored = Parsed(top: map<string, Value>) | Unreadable | Malformed

  /** The directory and the file name the configuration is read from. */
  datatype Location = Location(dir: string, name: string)

  function FullPath(loc: Location): string {
    loc.dir + "/" + loc.name
  }

  /** The file in the working directory, as opened. */
  const LocalPath := FullPath(Location(".", FileName))

  /** The choice of the configuration file: the user's file when asked for;
      with no directory given, `./esmero.config`, else the directory named by
      ESMERO_CONFIG_PATH, else the user's file; with a directory given, the
      file in it, which must exist. */
  function Locate(cfgUser: bool, cfgPath: Option<string>, env: map<string, string>, files: map<string, Stored>)
    : Result<Location>
  {
    if cfgUser then
      if "HOME" in env then Ok(Location(env["HOME"], UserFileName)) else Err(Uncaught("KeyError: 'HOME'"))
    else if cfgPath.None? then
      if LocalPath in files then Ok(Location(".", FileName))
      else if "ESMERO_CONFIG_PATH" in env then Ok(Location(env["ESMERO_CONFIG_PATH"], FileName))
      else if "HOME" in env then Ok(Location(env["HOME"], UserFileName))
      else Err(Uncaught("KeyError: 'HOME'"))
    else
      var loc := Location(cfgPath.value, FileName);
      if FullPath(loc) in files then Ok(loc)
      else Err(Exit(2, "ERROR: " + FullPath(loc) + " does not exist.\n"))
  }

  /** The contents of the chosen file; a missing or unreadable file reads
      as the empty object. */
  function Load(files: map<string, Stored>, loc: Location): Result<map<string, Value>> {
    var p := FullPath(loc);
    if p !in files then Ok(map[])
    else match files[p]
      case Parsed(top) => Ok(top)
      case Unreadable => Ok(map[])
      case Malformed => Err(Uncaught("ValueError: No JSON object could be decoded"))
  }

  function ReadSpec(cfgUser: bool, cfgPath: Option<string>, env: map<string, string>, files: map<string, Stored>)
    : Result<map<string, Value>>
  {
    var loc :- Locate(cfgUser, cfgPath, env, files);
    Load(files, loc)
  }

  /** The only fatal exit is an explicitly given directory without a
      configuration file, with exit code 2; every other failure is a missing
      HOME variable or a file that is not JSON. */
  lemma LocateOutcomes(cfgUser: bool, cfgPath: Option<string>, env: map<string, string>, files: map<string, Stored>)
    ensures var r := Locate(cfgUser, cfgPath, env, files);
            (r.Err? && r.failure.Exit?) <==>
              (!cfgUser && cfgPath.Some? && cfgPath.value + "/" + FileName !in files)
    ensures var r := Locate(cfgUser, cfgPath, env, files);
            r.Err? && r.failure.Exit? ==> r.failure.code == 2
    ensures var r := Locate(cfgUser, cfgPath, env, files);
            r.Err? && r.failure.Uncaught? ==> "HOME" !in env
    ensures var r := Locate(cfgUser, cfgPath, env, files);
            r.Ok? ==> r.value.name == FileName || (r.value.name == UserFileName && r.value.dir == env["HOME"])
  {
  }

  /** Each row of the decision table. */
  lemma LocateRows(cfgUser: bool, cfgPath: Option<string>, env: map<string, string>, files: map<string, Stored>)
    ensures cfgUser && "HOME" in env ==>
              Locate(cfgUser, cfgPath, env, files) == Ok(Location(env["HOME"], UserFileName))
    ensures !cfgUser && cfgPath.None? && LocalPath in files ==>
              Locate(cfgUser, cfgPath, env, files) == Ok(Location(".", FileName))
    ensures !cfgUser && cfgPath.None? && LocalPath !in files && "ESMERO_CONFIG_PATH" in env ==>
              Locate(cfgUser, cfgPath, env, files) == Ok(Location(env["ESMERO_CONFIG_PATH"], FileName))
    ensures !cfgUser && cfgPath.None? && LocalPath !in files && "ESMERO_CONFIG_PATH" !in env && "HOME" in env ==>
              Locate(cfgUser, cfgPath, env, files) == Ok(Location(env["HOME"], UserFileName))
    ensures !cfgUser && cfgPath.Some? && cfgPath.value + "/" + FileName in files ==>
              Locate(cfgUser, cfgPath, env, files) == Ok(Location(cfgPath.value, FileName))
  {
  }

  /** A file that is missing or cannot be read yields `{}`. */
  lemma MissingFileReadsEmpty(files: map<string, Stored>, loc: Location)
    requires FullPath(loc) !in files || files[FullPath(loc)] == Unreadable
    ensures Load(files, loc) == Ok(map[])
  {
  }

  // ---------------------------------------------------------------------
  // Layering

  /** `os.path.expandvars`, supplied by the caller (the environment is not
      part of this model). */
  type Expander = string -> string

  const ExpandError := Uncaught("TypeError: expandvars needs a string")

  /** A file value after variable expansion: strings are expanded; an
      object without a "$" key passes through unchanged; other scalars, and
      an object with a "$" key, make expansion fail. */
  function Expanded(v: Value, expand: Expander): Result<Value> {
    match v
    case Str(s) => Ok(Str(expand(s)))
    case Literal(_) => Err(ExpandError)
    case Section(m) => if "$" in m then Err(ExpandError) else Ok(v)
  }

  predicate Expandable(m: map<string, Value>, expand: Expander) {
    forall k :: k in m ==> Expanded(m[k], expand).Ok?
  }

  /** The values of one file section, expanded. */
  function ExpandAll(m: map<string, Value>, expand: Expander): Result<map<string, Value>> {
    if Expandable(m, expand) then Ok(map k | k in m :: Expanded(m[k], expand).value)
    else Err(ExpandError)
  }

  /** The file's contribution to section `name`. */
  function FileLayer(name: string, top: map<string, Value>, expand: Expander): Result<map<string, Value>> {
    if name !in top then Ok(map[])
    else match top[name]
      case Section(m) => ExpandAll(m, expand)
      case _ => Err(Uncaught("AttributeError: object has no attribute 'iteritems'"))
  }

  /** A command's defaults as setting values, expanded. */
  function DefaultLayer(d: map<string, string>, expand: Expander): map<string, Value> {
    map k | k in d :: Str(expand(d[k]))
  }

  /** Section `name`: the defaults `d`, overwritten by the file's values. */
  function SectionFor(name: string, d: map<string, string>, top: map<string, Value>, expand: Expander)
    : Result<map<string, Value>>
  {
    var f :- FileLayer(name, top, expand);
    Ok(DefaultLayer(d, expand) + f)
  }

  /** The `esmero` section: `path` is "", then the file's `esmero` entries
      unexpanded, then `root` is the configuration directory. */
  function EsmeroSection(top: map<string, Value>, root: string): Result<map<string, Value>> {
    var base := map["path" := Str("")];
    if "esmero" !in top then Ok(base["root" := Str(root)])
    else match top["esmero"]
      case Section(m) => Ok((base + m)["root" := Str(root)])
      case _ => Err(Uncaught("AttributeError: object has no attribute 'iteritems'"))
  }

  /** The sections a command asks for: a list of command names, each with
      its module's defaults, or one name with defaults given by the caller. */
  datatype Names = Several(list: seq<string>) | One(name: string)

  function ModuleDefaults(name: string, modules: map<string, map<string, string>>): map<string, string> {
    if name in modules then modules[name] else map[]
  }

  /** cfg with the sections of `names` added one after the other. */
  function WithSections(cfg: map<string, Value>, names: seq<string>, top: map<string, Value>,
                        modules: map<string, map<string, string>>, expand: Expander): Result<map<string, Value>>
  {
    if names == [] then Ok(cfg)
    else
      var before :- WithSections(cfg, names[..|names| - 1], top, modules, expand);
      var name := names[|names| - 1];
      var s :- SectionFor(name, ModuleDefaults(name, modules), top, expand);
      Ok(before[name := Section(s)])
  }

  function Layered(names: Names, given: map<string, string>, top: map<string, Value>, root: string,
                   modules: map<string, map<string, string>>, expand: Expander): Result<map<string, Value>>
  {
    var e :- EsmeroSection(top, root);
    var cfg := map["esmero" := Section(e)];
    match names
    case Several(list) => WithSections(cfg, list, top, modules, expand)
    case One(name) =>
      if name == "esmero" then Ok(cfg)
      else
        var d := if given != map[] then given else ModuleDefaults(name, modules);
        var s :- SectionFor(name, d, top, expand);
        Ok(cfg[name := Section(s)])
  }

  /** The parsed command line: the subcommand and every argument's value,
      None for an argument left at a None default. */
  datatype Args = Args(parserName: string, values: map<string, Option<Value>>)

  /** `vars(arg)`, which holds the subcommand under `parser_name`. */
  function ArgDict(a: Args): map<string, Option<Value>> {
    a.values["parser_name" := Some(Str(a.parserName))]
  }

  /** A section with every key that has a non-None argument of the same
      name replaced by that argument. */
  function Override(section: map<string, Value>, ad: map<string, Option<Value>>): map<string, Value> {
    map k | k in section :: if k in ad && ad[k].Some? then ad[k].value else section[k]
  }

  predicate HasSection(cfg: map<string, Value>, key: string) {
    key in cfg && cfg[key].Section?
  }

  /** The argument layer: the subcommand's section, when there is one, then
      the `esmero` section. */
  function WithArgs(cfg: map<string, Value>, arg: Option<Args>): map<string, Value>
    requires HasSection(cfg, "esmero")
  {
    if arg.None? then cfg
    else
      var ad := ArgDict(arg.value);
      var pn := arg.value.parserName;
      var c := if HasSection(cfg, pn) then cfg[pn := Section(Override(cfg[pn].entries, ad))] else cfg;
      c["esmero" := Section(Override(c["esmero"].entries, ad))]
  }

  /** The settings `get_cfg` returns, from the contents of the file read at
      `root`. */
  function Resolved(names: Names, given: map<string, string>, top: map<string, Value>, root: string, arg: Option<Args>,
                    modules: map<string, map<string, string>>, expand: Expander): Result<map<string, Value>>
  {
    var cfg :- Layered(names, given, top, root, modules, expand);
    LayeredHasEsmero(names, given, top, root, modules, expand);
    Ok(WithArgs(cfg, arg))
  }

  lemma LayeredHasEsmero(names: Names, given: map<string, string>, top: map<string, Value>, root: string,
                         modules: map<string, map<string, string>>, expand: Expander)
    ensures var r := Layered(names, given, top, root, modules, expand);
            r.Ok? ==> HasSection(r.value, "esmero")
  {
    if names.Several? && EsmeroSection(top, root).Ok? {
      WithSectionsKeepsSections(map["esmero" := Section(EsmeroSection(top, root).value)], names.list, top, modules, expand);
    }
  }

  lemma {:induction false} WithSectionsKeepsSections(cfg: map<string, Value>, names: seq<string>, top: map<string, Value>,
                                                     modules: map<string, map<string, string>>, expand: Expander)
    requires HasSection(cfg, "esmero")
    ensures var r := WithSections(cfg, names, top, modules, expand);
            r.Ok? ==> HasSection(r.value, "esmero")
  {
    if names != [] {
      WithSectionsKeepsSections(cfg, names[..|names| - 1], top, modules, expand);
    }
  }

  // ---------------------------------------------------------------------
  // Properties of the layering

  /** The `esmero` section starts from `path` = "", holds the file's own
      `esmero` entries without expansion, and always has `root` set to the
      configuration directory, whatever the file says. */
  lemma EsmeroSectionLayers(top: map<string, Value>, root: string)
    requires "esmero" in top ==> top["esmero"].Section?
    ensures EsmeroSection(top, root).Ok?
    ensures var e := EsmeroSection(top, root).value;
            e["root"] == Str(root) && "path" in e &&
            ("esmero" !in top || "path" !in top["esmero"].entries ==> e["path"] == Str("")) &&
            ("esmero" in top ==> forall k :: k in top["esmero"].entries && k != "root" ==>
                                   k in e && e[k] == top["esmero"].entries[k]) &&
            (forall k :: k in e ==> k in {"path", "root"} || ("esmero" in top && k in top["esmero"].entries))
  {
  }

  /** A section's keys are the default keys and the file keys; a key in the
      file takes the file's expanded value, any other its default. */
  lemma SectionPrecedence(name: string, d: map<string, string>, top: map<string, Value>, expand: Expander)
    requires SectionFor(name, d, top, expand).Ok?
    ensures var s := SectionFor(name, d, top, expand).value;
            var file := if name in top then top[name].entries else map[];
            (forall k :: k in s <==> k in d || k in file) &&
            (forall k :: k in file ==> s[k] == Expanded(file[k], expand).value) &&
            (forall k :: k in d && k !in file ==> s[k] == Str(expand(d[k])))
  {
  }

  /** A file section fails exactly when it is not an object, or one of its
      values cannot be expanded. */
  lemma SectionFailure(name: string, d: map<string, string>, top: map<string, Value>, expand: Expander)
    ensures SectionFor(name, d, top, expand).Err? <==>
              name in top && (!top[name].Section? || !Expandable(top[name].entries, expand))
  {
  }

  /** Asking for the `esmero` section alone adds no other section. */
  lemma EsmeroAloneAddsNothing(given: map<string, string>, top: map<string, Value>, root: string,
                               modules: map<string, map<string, string>>, expand: Expander)
    requires EsmeroSection(top, root).Ok?
    ensures Layered(One("esmero"), given, top, root, modules, expand) ==
              Ok(map["esmero" := Section(EsmeroSection(top, root).value)])
  {
  }

  /** With a list of names, the result holds exactly `esmero` and the listed
      sections, each as the last listed occurrence made it: a listed
      `esmero` replaces the `esmero` section. */
  lemma {:induction false} SeveralSections(cfg: map<string, Value>, names: seq<string>, top: map<string, Value>,
                                           modules: map<string, map<string, string>>, expand: Expander)
    requires WithSections(cfg, names, top, modules, expand).Ok?
    ensures var r := WithSections(cfg, names, top, modules, expand).value;
            (forall k :: k in r <==> k in cfg || k in names) &&
            (forall k :: k in names ==> SectionFor(k, ModuleDefaults(k, modules), top, expand).Ok? &&
                                        r[k] == Section(SectionFor(k, ModuleDefaults(k, modules), top, expand).value)) &&
            (forall k :: k in cfg && k !in names ==> r[k] == cfg[k])
  {
    if names != [] {
      var init := names[..|names| - 1];
      WithSectionsErr(cfg, names, top, modules, expand);
      SeveralSections(cfg, init, top, modules, expand);
      assert names == init + [names[|names| - 1]];
      assert forall k :: k in names <==> k in init || k == names[|names| - 1];
    }
  }

  lemma WithSectionsErr(cfg: map<string, Value>, names: seq<string>, top: map<string, Value>,
                        modules: map<string, map<string, string>>, expand: Expander)
    requires names != [] && WithSections(cfg, names, top, modules, expand).Ok?
    ensures WithSections(cfg, names[..|names| - 1], top, modules, expand).Ok?
    ensures SectionFor(names[|names| - 1], ModuleDefaults(names[|names| - 1], modules), top, expand).Ok?
  {
  }

  /** Arguments replace only keys the section already has, and only with
      values that are not None. */
  lemma OverrideOnlyExisting(section: map<string, Value>, ad: map<string, Option<Value>>)
    ensures Override(section, ad).Keys == section.Keys
    ensures forall k :: k in section && k in ad && ad[k].Some? ==> Override(section, ad)[k] == ad[k].value
    ensures forall k :: k in section && (k !in ad || ad[k].None?) ==> Override(section, ad)[k] == section[k]
  {
  }

  /** Arguments touch the subcommand's section and `esmero`, nothing else. */
  lemma ArgsTouchTwoSections(cfg: map<string, Value>, a: Args)
    requires HasSection(cfg, "esmero")
    ensures var r := WithArgs(cfg, Some(a));
            r.Keys == cfg.Keys &&
            (forall k :: k in cfg && k != "esmero" && k != a.parserName ==> r[k] == cfg[k]) &&
            r["esmero"].Section? &&
            (a.parserName != "esmero" && HasSection(cfg, a.parserName) ==>
               r[a.parserName] == Section(Override(cfg[a.parserName].entries, ArgDict(a))))
  {
  }

  // ---------------------------------------------------------------------
  // The module state

  /** The module-level CONFIG record, together with the environment, the
      configuration files on disk, the DEFAULTS of each command module and
      the variable expansion, which the real module reaches through the
      operating system and imports. */
  class Registry {
    var path: Option<string>
    var name: Option<string>
    var cfgPath: Option<string>
    var cfgUser: bool
    var arg: Option<Args>
    var files: map<string, Stored>
    const env: map<string, string>
    const modules: map<string, map<string, string>>
    const expand: Expander

    constructor (env: map<string, string>, files: map<string, Stored>,
                 modules: map<string, map<string, string>>, expand: Expander)
      ensures path == None && name == None && cfgPath == None && !cfgUser && arg == None
      ensures this.env == env && this.files == files && this.modules == modules && this.expand == expand
    {
      path := None;
      name := None;
      cfgPath := None;
      cfgUser := false;
      arg := None;
      this.files := files;
      this.env := env;
      this.modules := modules;
      this.expand := expand;
    }

    /** Reads the chosen file and records where it was. */
    method ReadConfig() returns (r: Result<map<string, Value>>)
      modifies this
      ensures r == ReadSpec(cfgUser, cfgPath, env, files)
      ensures r.Ok? ==> var loc := Locate(cfgUser, cfgPath, env, files).value;
                        path == Some(loc.dir) && name == Some(loc.name)
      ensures r.Err? ==> path == old(path) && name == old(name)
      ensures cfgPath == old(cfgPath) && cfgUser == old(cfgUser) && arg == old(arg) && files == old(files)
    {
      var loc := Locate(cfgUser, cfgPath, env, files);
      if loc.Err? {
        return Err(loc.failure);
      }
      r := Load(files, loc.value);
      if r.Ok? {
        name := Some(loc.value.name);
        path := Some(loc.value.dir);
      }
    }

    /** Builds the settings for the sections `names`; the arguments are used
        once and then forgotten. */
    method GetCfg(names: Names, given: map<string, string>) returns (r: Result<map<string, Value>>)
      modifies this
      ensures var read := ReadSpec(old(cfgUser), old(cfgPath), env, old(files));
              r == (if read.Err? then Err(read.failure)
                    else Resolved(names, given, read.value, Locate(old(cfgUser), old(cfgPath), env, old(files)).value.dir,
                                  old(arg), modules, expand))
      ensures ReadSpec(old(cfgUser), old(cfgPath), env, old(files)).Ok? ==>
                var loc := Locate(old(cfgUser), old(cfgPath), env, old(files)).value;
                path == Some(loc.dir) && name == Some(loc.name)
      ensures ReadSpec(old(cfgUser), old(cfgPath), env, old(files)).Err? ==> path == old(path) && name == old(name)
      ensures r.Ok? ==> arg == None
      ensures r.Err? ==> arg == old(arg)
      ensures cfgPath == old(cfgPath) && cfgUser == old(cfgUser) && files == old(files)
    {
      var top := ReadConfig();
      if top.Err? {
        return Err(top.failure);
      }
      var root := Locate(cfgUser, cfgPath, env, files).value.dir;
      var layered := AddSections(names, given, top.value, root, modules, expand);
      if layered.Err? {
        return Err(layered.failure);
      }
      LayeredHasEsmero(names, given, top.value, root, modules, expand);
      var cfg := ApplyArgs(layered.value, arg);
      arg := None;
      return Ok(cfg);
    }

    /** The `config` command: shows or sets the value at a dotted name, and
        writes the file back after setting. */
    method ConfigRun(dotted: string, value: Option<string>) returns (r: Result<ConfigCommand.Outcome>)
      modifies this
      ensures var read := ReadSpec(old(cfgUser), old(cfgPath), env, old(files));
              r == (if read.Err? then Err(read.failure)
                    else ConfigCommand.Command(read.value, SplitDots(dotted), value))
      ensures r.Ok? && r.value.Written? ==>
                files == old(files)[FullPath(Locate(old(cfgUser), old(cfgPath), env, old(files)).value) := Parsed(r.value.cfg)]
      ensures !(r.Ok? && r.value.Written?) ==> files == old(files)
      ensures ReadSpec(old(cfgUser), old(cfgPath), env, old(files)).Ok? ==>
                var loc := Locate(old(cfgUser), old(cfgPath), env, old(files)).value;
                path == Some(loc.dir) && name == Some(loc.name)
      ensures ReadSpec(old(cfgUser), old(cfgPath), env, old(files)).Err? ==> path == old(path) && name == old(name)
      ensures arg == old(arg) && cfgPath == old(cfgPath) && cfgUser == old(cfgUser)
    {
      var top := ReadConfig();
      if top.Err? {
        return Err(top.failure);
      }
      r := ConfigCommand.Execute(top.value, dotted, value);
      if r.Ok? && r.value.Written? {
        files := files[FullPath(Location(path.value, name.value)) := Parsed(r.value.cfg)];
      }
    }
  }

  /** The sections before the arguments are applied: `esmero`, then each
      requested one. */
  method AddSections(names: Names, given: map<string, string>, top: map<string, Value>, root: string,
                     modules: map<string, map<string, string>>, expand: Expander)
    returns (r: Result<map<string, Value>>)
    ensures r == Layered(names, given, top, root, modules, expand)
  {
    var e := EsmeroSection(top, root);
    if e.Err? {
      return Err(e.failure);
    }
    var cfg := map["esmero" := Section(e.value)];
    match names {
      case Several(list) =>
        r := AddListed(cfg, list, top, modules, expand);
      case One(n) =>
        if n == "esmero" {
          return Ok(cfg);
        }
        var d := if given != map[] then given else ModuleDefaults(n, modules);
        r := AddSection(cfg, n, d, top, expand);
    }
  }

  /** One requested section: emptied, filled with the defaults, then with the
      file's values. */
  method AddSection(cfg: map<string, Value>, n: string, d: map<string, string>, top: map<string, Value>,
                    expand: Expander)
    returns (r: Result<map<string, Value>>)
    ensures var s := SectionFor(n, d, top, expand);
            r == if s.Err? then Err(s.failure) else Ok(cfg[n := Section(s.value)])
  {
    var c := cfg[n := Section(map[])];
    c := UpdateSingle(c, n, d, expand);
    assert map[] + DefaultLayer(d, expand) == DefaultLayer(d, expand);
    r := UpdateFromFile(c, n, top, expand);
    assert r.Ok? ==> r.value == cfg[n := r.value[n]];
  }

  /** The loop over a list of names. */
  method AddListed(cfg0: map<string, Value>, list: seq<string>, top: map<string, Value>,
                   modules: map<string, map<string, string>>, expand: Expander)
    returns (r: Result<map<string, Value>>)
    ensures r == WithSections(cfg0, list, top, modules, expand)
  {
    var cfg := cfg0;
    for i := 0 to |list|
      invariant WithSections(cfg0, list[..i], top, modules, expand) == Ok(cfg)
    {
      assert list[..i + 1][..i] == list[..i];
      var n := list[i];
      var next := AddSection(cfg, n, ModuleDefaults(n, modules), top, expand);
      if next.Err? {
        WithSectionsStops(cfg0, list, i + 1, top, modules, expand);
        return Err(next.failure);
      }
      cfg := next.value;
    }
    assert list[..|list|] == list;
    return Ok(cfg);
  }

  /** The argument layer of `get_cfg`. */
  method ApplyArgs(cfg: map<string, Value>, arg: Option<Args>) returns (r: map<string, Value>)
    requires HasSection(cfg, "esmero")
    ensures r == WithArgs(cfg, arg)
  {
    r := cfg;
    if arg.Some? {
      var ad := ArgDict(arg.value);
      if HasSection(r, arg.value.parserName) {
        r := UpdateFromArg(r, ad, arg.value.parserName);
      }
      r := UpdateFromArg(r, ad, "esmero");
    }
  }

  /** `cfg[name][var] = expandvars(val)` for every default. */
  method UpdateSingle(cfg: map<string, Value>, name: string, d: map<string, string>, expand: Expander)
    returns (r: map<string, Value>)
    requires HasSection(cfg, name)
    ensures r == cfg[name := Section(cfg[name].entries + DefaultLayer(d, expand))]
  {
    var section := AddDefaults(cfg[name].entries, d, expand);
    r := cfg[name := Section(section)];
  }

  /** The defaults copied into a section, in whatever order the dictionary
      yields them. */
  method AddDefaults(base: map<string, Value>, d: map<string, string>, expand: Expander)
    returns (section: map<string, Value>)
    ensures section == base + DefaultLayer(d, expand)
  {
    section := base;
    var todo := d.Keys;
    while todo != {}
      invariant todo <= d.Keys
      invariant forall k :: k in section <==> k in base || (k in d && k !in todo)
      invariant forall k :: k in d && k !in todo ==> section[k] == Str(expand(d[k]))
      invariant forall k :: k in base && (k !in d || k in todo) ==> section[k] == base[k]
      decreases todo
    {
      var k :| k in todo;
      section := section[k := Str(expand(d[k]))];
      todo := todo - {k};
    }
  }

  /** `cfg[name][var] = expandvars(val)` for every value of the file's
      section `name`. */
  method UpdateFromFile(cfg: map<string, Value>, name: string, top: map<string, Value>, expand: Expander)
    returns (r: Result<map<string, Value>>)
    requires HasSection(cfg, name)
    ensures var f := FileLayer(name, top, expand);
            r == if f.Err? then Err(f.failure) else Ok(cfg[name := Section(cfg[name].entries + f.value)])
  {
    if name !in top {
      assert cfg[name].entries + map[] == cfg[name].entries;
      assert cfg[name := Section(cfg[name].entries)] == cfg;
      return Ok(cfg);
    }
    if !top[name].Section? {
      return Err(Uncaught("AttributeError: object has no attribute 'iteritems'"));
    }
    var section := AddFileValues(cfg[name].entries, top[name].entries, expand);
    if section.Err? {
      return Err(section.failure);
    }
    r := Ok(cfg[name := Section(section.value)]);
  }

  /** The file's values copied into a section, expanded; stops at the
      first value that cannot be expanded. */
  method AddFileValues(base: map<string, Value>, m: map<string, Value>, expand: Expander)
    returns (r: Result<map<string, Value>>)
    ensures var f := ExpandAll(m, expand);
            r == if f.Err? then Err(f.failure) else Ok(base + f.value)
  {
    var section := base;
    var todo := m.Keys;
    while todo != {}
      invariant todo <= m.Keys
      invariant forall k :: k in m && k !in todo ==> Expanded(m[k], expand).Ok?
      invariant forall k :: k in section <==> k in base || (k in m && k !in todo)
      invariant forall k :: k in m && k !in todo ==> section[k] == Expanded(m[k], expand).value
      invariant forall k :: k in base && (k !in m || k in todo) ==> section[k] == base[k]
      decreases todo
    {
      var k :| k in todo;
      var v := Expanded(m[k], expand);
      if v.Err? {
        return Err(v.failure);
      }
      section := section[k := v.value];
      todo := todo - {k};
    }
    assert Expandable(m, expand);
    var f := map k | k in m :: Expanded(m[k], expand).value;
    assert forall k :: k in section <==> k in base + f;
    assert forall k :: k in section ==> section[k] == (base + f)[k];
    assert section == base + f;
    assert ExpandAll(m, expand) == Ok(f);
    return Ok(section);
  }

  /** `cfg[key][var] = argdict[var]` for every key of the section that has
      a non-None argument. */
  method UpdateFromArg(cfg: map<string, Value>, ad: map<string, Option<Value>>, key: string)
    returns (r: map<string, Value>)
    requires HasSection(cfg, key)
    ensures r == cfg[key := Section(Override(cfg[key].entries, ad))]
  {
    var section := OverrideSection(cfg[key].entries, ad);
    r := cfg[key := Section(section)];
  }

  method OverrideSection(base: map<string, Value>, ad: map<string, Option<Value>>) returns (section: map<string, Value>)
    ensures section == Override(base, ad)
  {
    section := base;
    var todo := base.Keys;
    while todo != {}
      invariant todo <= base.Keys
      invariant forall k :: k in section <==> k in base
      invariant forall k :: k in base && k !in todo && k in ad && ad[k].Some? ==> section[k] == ad[k].value
      invariant forall k :: k in base && (k in todo || k !in ad || ad[k].None?) ==> section[k] == base[k]
      decreases todo
    {
      var k :| k in todo;
      if k in ad && ad[k].Some? {
        section := section[k := ad[k].value];
      }
      todo := todo - {k};
    }
  }

  /** Once a prefix of the names fails, so does the whole list, the same
      way. */
  lemma {:induction false} WithSectionsStops(cfg: map<string, Value>, names: seq<string>, j: int, top: map<string, Value>,
                                             modules: map<string, map<string, string>>, expand: Expander)
    requires 0 <= j <= |names|
    requires WithSections(cfg, names[..j], top, modules, expand).Err?
    ensures WithSections(cfg, names, top, modules, expand) == WithSections(cfg, names[..j], top, modules, expand)
    decreases |names|
  {
    if j == |names| {
      assert names[..j] == names;
    } else {
      var init := names[..|names| - 1];
      assert init[..j] == names[..j];
      WithSectionsStops(cfg, init, j, top, modules, expand);
    }
  }
}
