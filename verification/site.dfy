/** The `build` command once the zones are known: reading the theme
    templates and marking the stale ones, deciding for each lexor file
    whether its html page is rebuilt, writing the page, and setting
    LEXORINPUTS for each zone. The disk is a map of modification times,
    the glob results and the parsed documents are inputs, and the clock
    is a constant. */
module Site {
  import opened Outcomes
  import opened Text
  import opened Values
  import opened Theme
  import Discovery

  /** A lexor document as the parser returns it: its metadata and nodes. */
  datatype Doc = Doc(meta: map<string, string>, body: seq<Node>)

  /** The contents of an html file: emptied to mark a theme as built, or a
      page written from a document, with the theme document (`__THEME__`)
      and the site root (`__ROOT__`) attached. */
  datatype Output =
    | Blank
    | Page(meta: map<string, string>, theme: seq<Node>, root: Value, body: seq<Node>)

  /** What a build can change: the modification times of the files that
      exist, the html files written, and the LEXORINPUTS variable. */
  datatype World = World(mtime: map<string, int>, outputs: map<string, Output>, inputs: Option<string>)

  /** The world after a step, and the step's outcome; a failed step leaves
      the world as it was when the exception was raised. */
  datatype Step<T> = Step(world: World, out: Result<T>)

  const Missing := Uncaught("OSError: No such file or directory")

  /** The lexor files directly inside `dir`, in the order the directory
      listing gives them. */
  function Glob(listing: map<string, seq<string>>, dir: string): seq<string> {
    if dir in listing then listing[dir] else []
  }

  /** `settings[key]` used as a string. */
  function Setting(settings: map<string, Value>, key: string): (r: Result<string>)
    ensures r.Ok? <==> key in settings && settings[key].Str?
    ensures r.Ok? ==> settings[key] == Str(r.value)
  {
    if key !in settings then Err(Uncaught("KeyError: " + key))
    else match settings[key]
      case Str(s) => Ok(s)
      case _ => Err(Uncaught("TypeError: setting " + key + " is not a string"))
  }

  /** `lex_file[:-4] + '.html'`: the page a lexor file is built into. */
  function OutputPath(f: string): string {
    DropLast(f, 4) + ".html"
  }

  /** The world with `html` created or overwritten at time `now`. */
  function Write(w: World, html: string, out: Output, now: int): (r: World)
    ensures r.mtime.Keys == w.mtime.Keys + {html} && r.outputs.Keys == w.outputs.Keys + {html}
    ensures r.mtime[html] == now && r.outputs[html] == out && r.inputs == w.inputs
    ensures forall k :: k in w.mtime && k != html ==> r.mtime[k] == w.mtime[k]
    ensures forall k :: k in w.outputs && k != html ==> r.outputs[k] == w.outputs[k]
  {
    w.(mtime := w.mtime[html := now], outputs := w.outputs[html := out])
  }

  // ---------------------------------------------------------------------
  // Theme templates

  /** `date_html < date_lex`, where a missing html file counts as older than
      everything. */
  predicate Older(html: Option<int>, t: int) {
    html.None? || html.value < t
  }

  /** The auxiliary documents of a theme, by file name, and whether one of
      them is newer than the theme's html file. */
  datatype AuxScan = AuxScan(docs: map<string, seq<Node>>, newer: bool)

  function ScanAux(files: seq<string>, html: Option<int>, sources: map<string, Doc>, mtime: map<string, int>)
    : Result<AuxScan>
  {
    if files == [] then Ok(AuxScan(map[], false))
    else
      var before :- ScanAux(files[..|files| - 1], html, sources, mtime);
      var f := files[|files| - 1];
      if f !in sources || f !in mtime then Err(Missing)
      else Ok(AuxScan(before.docs[Basename(f) := sources[f].body], before.newer || Older(html, mtime[f])))
  }

  /** The theme documents read so far, by theme name, and the staleness of
      the last theme file read. */
  datatype Themes = Themes(docs: map<string, seq<Node>>, redo: bool)

  /** What reading a theme file gathers: its auxiliary documents, and
      whether it is stale, that is, its html file is missing, older than
      it, or older than one of its auxiliary files. */
  datatype Reading = Reading(aux: map<string, seq<Node>>, redo: bool)

  function ThemeReading(lexFile: string, mtime: map<string, int>, listing: map<string, seq<string>>,
                        sources: map<string, Doc>): (r: Result<Reading>)
    ensures r.Ok? ==> lexFile in sources
  {
    var path := DropLast(lexFile, 4);
    var html := path + ".html";
    if lexFile !in sources then Err(Missing)
    else if html in mtime && lexFile !in mtime then Err(Missing)
    else
      var htmlTime := if html in mtime then Some(mtime[html]) else None;
      var aux :- ScanAux(Glob(listing, path), htmlTime, sources, mtime);
      Ok(Reading(aux.docs, (htmlTime.None? || htmlTime.value < mtime[lexFile]) || aux.newer))
  }

  /** One theme file: a stale theme's html file is emptied, then its include
      nodes are spliced. Its flag replaces the one of the previous theme
      file. */
  function ThemeFile(lexFile: string, w: World, t: Themes, listing: map<string, seq<string>>,
                     sources: map<string, Doc>, now: int): Step<Themes>
  {
    var reading := ThemeReading(lexFile, w.mtime, listing, sources);
    if reading.Err? then Step(w, Err(reading.failure))
    else
      var path := DropLast(lexFile, 4);
      var name := Basename(path);
      var w' := if reading.value.redo then Write(w, path + ".html", Blank, now) else w;
      var spliced := Splice(sources[lexFile].body, IncludeTag(name), reading.value.aux);
      if spliced.Err? then Step(w', Err(spliced.failure))
      else Step(w', Ok(Themes(t.docs[name := spliced.value], reading.value.redo)))
  }

  /** `get_theme_templates` over the theme files in glob order. */
  function ScanThemes(files: seq<string>, w: World, listing: map<string, seq<string>>,
                      sources: map<string, Doc>, now: int): Step<Themes>
  {
    if files == [] then Step(w, Ok(Themes(map[], false)))
    else
      var s := ScanThemes(files[..|files| - 1], w, listing, sources, now);
      if s.out.Err? then s
      else ThemeFile(files[|files| - 1], s.world, s.out.value, listing, sources, now)
  }

  // ---------------------------------------------------------------------
  // Pages

  /** Why a page is built, in the order the reasons are tried. */
  datatype Reason = ThemeChange | Forced | FileChange | UpToDate

  function Decide(themeRedo: bool, force: bool, fname: string, mtime: map<string, int>): Result<Reason> {
    if themeRedo then Ok(ThemeChange)
    else if force then Ok(Forced)
    else
      var html := OutputPath(fname);
      if html !in mtime then Ok(FileChange)
      else if fname !in mtime then Err(Missing)
      else if mtime[html] < mtime[fname] then Ok(FileChange)
      else Ok(UpToDate)
  }

  /** `cfg['esmero']['root']` */
  function Root(cfg: map<string, Value>): Result<Value> {
    if "esmero" !in cfg || !cfg["esmero"].Section? || "root" !in cfg["esmero"].entries
    then Err(Uncaught("KeyError: root"))
    else Ok(cfg["esmero"].entries["root"])
  }

  /** The page `build_file` writes for a lexor file: the template named by
      the `template` setting becomes the version, heads the package list
      and selects the theme document. */
  function Built(fname: string, theme: map<string, seq<Node>>, settings: map<string, Value>,
                 cfg: map<string, Value>, sources: map<string, Doc>): Result<Output>
  {
    if fname !in sources then Err(Missing)
    else
      var ver :- Setting(settings, "template");
      var meta := sources[fname].meta;
      var pkg := if "usepackage" in meta then "," + meta["usepackage"] else "";
      if ver !in theme then Err(Uncaught("KeyError: " + ver))
      else
        var root :- Root(cfg);
        Ok(Page(meta["version" := ver]["usepackage" := ver + pkg], theme[ver], root, sources[fname].body))
  }

  /** One file of `build_site`. */
  function BuildOne(fname: string, themes: Themes, force: bool, settings: map<string, Value>,
                    cfg: map<string, Value>, sources: map<string, Doc>, now: int, w: World): Step<()>
  {
    var reason := Decide(themes.redo, force, fname, w.mtime);
    if reason.Err? then Step(w, Err(reason.failure))
    else if reason.value == UpToDate then Step(w, Ok(()))
    else
      var page := Built(fname, themes.docs, settings, cfg, sources);
      if page.Err? then Step(w, Err(page.failure))
      else Step(Write(w, OutputPath(fname), page.value, now), Ok(()))
  }

  function BuildAll(files: seq<string>, themes: Themes, force: bool, settings: map<string, Value>,
                    cfg: map<string, Value>, sources: map<string, Doc>, now: int, w: World): Step<()>
  {
    if files == [] then Step(w, Ok(()))
    else
      var s := BuildAll(files[..|files| - 1], themes, force, settings, cfg, sources, now, w);
      if s.out.Err? then s
      else BuildOne(files[|files| - 1], themes, force, settings, cfg, sources, now, s.world)
  }

  /** `build_site` for one zone: its theme, then its files. */
  function SiteBuild(force: bool, settings: map<string, Value>, cfg: map<string, Value>, files: seq<string>,
                     listing: map<string, seq<string>>, sources: map<string, Doc>, now: int, w: World): Step<()>
  {
    var root := Setting(settings, "theme-path");
    if root.Err? then Step(w, Err(root.failure))
    else
      var t := ScanThemes(Glob(listing, root.value), w, listing, sources, now);
      if t.out.Err? then Step(t.world, Err(t.out.failure))
      else BuildAll(files, t.out.value, force, settings, cfg, sources, now, t.world)
  }

  // ---------------------------------------------------------------------
  // Zones

  /** `os.environ.get('LEXORINPUTS', '')` */
  function Startup(inputs: Option<string>): string {
    if inputs.Some? then inputs.value else ""
  }

  /** The LEXORINPUTS value for a zone: its `lexor-path`, then the value the
      command started with, when there was one. */
  function SearchPath(lexorPath: string, startup: string): string {
    if startup != "" then lexorPath + ":" + startup else lexorPath
  }

  function RunZone(e: Discovery.QueueEntry, startup: string, force: bool, cfg: map<string, Value>,
                   listing: map<string, seq<string>>, sources: map<string, Doc>, now: int, w: World): Step<()>
  {
    var lp := Setting(e.cfg, "lexor-path");
    if lp.Err? then Step(w, Err(lp.failure))
    else SiteBuild(force, e.cfg, cfg, e.files, listing, sources, now, w.(inputs := Some(SearchPath(lp.value, startup))))
  }

  function RunAll(queue: seq<Discovery.QueueEntry>, startup: string, force: bool, cfg: map<string, Value>,
                  listing: map<string, seq<string>>, sources: map<string, Doc>, now: int, w: World): Step<()>
  {
    if queue == [] then Step(w, Ok(()))
    else
      var s := RunAll(queue[..|queue| - 1], startup, force, cfg, listing, sources, now, w);
      if s.out.Err? then s
      else RunZone(queue[|queue| - 1], startup, force, cfg, listing, sources, now, s.world)
  }

  // ---------------------------------------------------------------------
  // The disk and the environment

  /** The files the build reads and writes, the environment variable it
      sets, and the clock, which reads `now` for every write. */
  class Site {
    var mtime: map<string, int>
    var outputs: map<string, Output>
    var inputs: Option<string>
    const listing: map<string, seq<string>>
    const sources: map<string, Doc>
    const now: int

    constructor (mtime: map<string, int>, outputs: map<string, Output>, inputs: Option<string>,
                 listing: map<string, seq<string>>, sources: map<string, Doc>, now: int)
      ensures this.mtime == mtime && this.outputs == outputs && this.inputs == inputs
      ensures this.listing == listing && this.sources == sources && this.now == now
    {
      this.mtime := mtime;
      this.outputs := outputs;
      this.inputs := inputs;
      this.listing := listing;
      this.sources := sources;
      this.now := now;
    }

    function State(): World
      reads this
    {
      World(mtime, outputs, inputs)
    }

    /** The loop over a theme's auxiliary files. */
    method ReadAux(files: seq<string>, html: Option<int>) returns (r: Result<AuxScan>)
      ensures r == ScanAux(files, html, sources, mtime)
    {
      var docs := map[];
      var newer := false;
      for i := 0 to |files|
        invariant ScanAux(files[..i], html, sources, mtime) == Ok(AuxScan(docs, newer))
      {
        AuxStep(files, i, html, sources, mtime);
        var f := files[i];
        if f !in sources || f !in mtime {
          AuxErrSticks(files, i + 1, html, sources, mtime);
          return Err(Missing);
        }
        docs := docs[Basename(f) := sources[f].body];
        if Older(html, mtime[f]) {
          newer := true;
        }
      }
      assert files[..|files|] == files;
      return Ok(AuxScan(docs, newer));
    }

    /** The reading part of the loop body of `get_theme_templates`. */
    method ReadThemeFile(lexFile: string) returns (r: Result<Reading>)
      ensures r == ThemeReading(lexFile, mtime, listing, sources)
    {
      var path := DropLast(lexFile, 4);
      var html := path + ".html";
      if lexFile !in sources {
        return Err(Missing);
      }
      var htmlTime: Option<int> := None;
      var redo := false;
      if html in mtime {
        if lexFile !in mtime {
          return Err(Missing);
        }
        htmlTime := Some(mtime[html]);
        if mtime[html] < mtime[lexFile] {
          redo := true;
        }
      } else {
        redo := true;
      }
      var aux := ReadAux(Glob(listing, path), htmlTime);
      if aux.Err? {
        return Err(aux.failure);
      }
      if aux.value.newer {
        redo := true;
      }
      return Ok(Reading(aux.value.docs, redo));
    }

    /** The loop body of `get_theme_templates`. */
    method ReadTheme(lexFile: string, t: Themes) returns (r: Result<Themes>)
      modifies this
      ensures Step(State(), r) == ThemeFile(lexFile, old(State()), t, listing, sources, now)
    {
      var reading := ReadThemeFile(lexFile);
      if reading.Err? {
        return Err(reading.failure);
      }
      ThemeFileUnfold(lexFile, State(), t, listing, sources, now);
      var path := DropLast(lexFile, 4);
      var name := Basename(path);
      if reading.value.redo {
        Store(path + ".html", Blank);
      }
      var spliced := Splice(sources[lexFile].body, IncludeTag(name), reading.value.aux);
      r := if spliced.Err? then Err(spliced.failure) else Ok(Themes(t.docs[name := spliced.value], reading.value.redo));
    }

    /** The loop body of `run`: the zone's search path, then its site. */
    method RunOne(e: Discovery.QueueEntry, startup: string, force: bool, cfg: map<string, Value>)
      returns (r: Result<()>)
      modifies this
      ensures Step(State(), r) == RunZone(e, startup, force, cfg, listing, sources, now, old(State()))
    {
      var lp := Setting(e.cfg, "lexor-path");
      if lp.Err? {
        return Err(lp.failure);
      }
      SetInputs(SearchPath(lp.value, startup));
      r := BuildSite(force, e.cfg, cfg, e.files);
    }

    /** `os.environ['LEXORINPUTS'] = value` */
    method SetInputs(value: string)
      modifies this
      ensures State() == old(State()).(inputs := Some(value))
    {
      inputs := Some(value);
    }

    /** `open(html, 'w')`, then writing `out` into it. */
    method Store(html: string, out: Output)
      modifies this
      ensures State() == Write(old(State()), html, out, now)
    {
      mtime := mtime[html := now];
      outputs := outputs[html := out];
    }

    /** `get_theme_templates(root)` */
    method GetThemeTemplates(root: string) returns (r: Result<Themes>)
      modifies this
      ensures Step(State(), r) == ScanThemes(Glob(listing, root), old(State()), listing, sources, now)
    {
      var files := Glob(listing, root);
      var t := Themes(map[], false);
      for i := 0 to |files|
        invariant ScanThemes(files[..i], old(State()), listing, sources, now) == Step(State(), Ok(t))
      {
        assert files[..i + 1][..i] == files[..i];
        var next := ReadTheme(files[i], t);
        if next.Err? {
          ThemesErrSticks(files, i + 1, old(State()), listing, sources, now);
          return next;
        }
        t := next.value;
      }
      assert files[..|files|] == files;
      return Ok(t);
    }

    /** `build_file`: the page, written to the file's html path. */
    method BuildFile(fname: string, theme: map<string, seq<Node>>, settings: map<string, Value>,
                     cfg: map<string, Value>) returns (r: Result<()>)
      modifies this
      ensures var page := Built(fname, theme, settings, cfg, sources);
              if page.Err? then r == Err(page.failure) && State() == old(State())
              else r == Ok(()) && State() == Write(old(State()), OutputPath(fname), page.value, now)
    {
      var page := Built(fname, theme, settings, cfg, sources);
      if page.Err? {
        return Err(page.failure);
      }
      Store(OutputPath(fname), page.value);
      return Ok(());
    }

    /** `build_site` */
    method BuildSite(force: bool, settings: map<string, Value>, cfg: map<string, Value>, files: seq<string>)
      returns (r: Result<()>)
      modifies this
      ensures Step(State(), r) == SiteBuild(force, settings, cfg, files, listing, sources, now, old(State()))
    {
      var root := Setting(settings, "theme-path");
      if root.Err? {
        return Err(root.failure);
      }
      var themes := GetThemeTemplates(root.value);
      if themes.Err? {
        return Err(themes.failure);
      }
      ghost var w := State();
      for i := 0 to |files|
        invariant BuildAll(files[..i], themes.value, force, settings, cfg, sources, now, w) == Step(State(), Ok(()))
      {
        assert files[..i + 1][..i] == files[..i];
        var reason := Decide(themes.value.redo, force, files[i], mtime);
        if reason.Err? {
          BuildErrSticks(files, i + 1, themes.value, force, settings, cfg, sources, now, w);
          return Err(reason.failure);
        }
        if reason.value != UpToDate {
          var built := BuildFile(files[i], themes.value.docs, settings, cfg);
          if built.Err? {
            BuildErrSticks(files, i + 1, themes.value, force, settings, cfg, sources, now, w);
            return built;
          }
        }
      }
      assert files[..|files|] == files;
      return Ok(());
    }

    /** The `build` command's `run`, given the settings `get_cfg(['build'])`
        returned and the configuration file every zone reads. */
    method Run(cfg: map<string, Value>, top: map<string, Value>, path: string, es: seq<Discovery.Entry>,
               bfiles: seq<string>, force: bool, rmatch: Discovery.Matcher) returns (r: Result<()>)
      modifies this
      ensures var queue := Discovery.Queue(path, es, bfiles, top, rmatch);
              if queue.Err? then r == Err(queue.failure) && State() == old(State())
              else Step(State(), r) == RunAll(queue.value, Startup(old(inputs)), force, cfg, listing, sources, now, old(State()))
    {
      var startup := if inputs.Some? then inputs.value else "";
      var queue := Discovery.BuildLexorList(path, es, bfiles, top, rmatch);
      if queue.Err? {
        return Err(queue.failure);
      }
      r := RunZones(queue.value, startup, force, cfg);
    }

    /** The loop of `run` over the zones. */
    method RunZones(zones: seq<Discovery.QueueEntry>, startup: string, force: bool, cfg: map<string, Value>)
      returns (r: Result<()>)
      modifies this
      ensures Step(State(), r) == RunAll(zones, startup, force, cfg, listing, sources, now, old(State()))
    {
      for i := 0 to |zones|
        invariant RunAll(zones[..i], startup, force, cfg, listing, sources, now, old(State())) == Step(State(), Ok(()))
      {
        RunStep(zones, i, startup, force, cfg, listing, sources, now, old(State()));
        var built := RunOne(zones[i], startup, force, cfg);
        if built.Err? {
          RunErrSticks(zones, i + 1, startup, force, cfg, listing, sources, now, old(State()));
          return built;
        }
        assert built.value == ();
      }
      assert zones[..|zones|] == zones;
      return Ok(());
    }
  }

  // ---------------------------------------------------------------------
  // One more element of a fold

  lemma AuxStep(files: seq<string>, i: int, html: Option<int>, sources: map<string, Doc>, mtime: map<string, int>)
    requires 0 <= i < |files|
    requires ScanAux(files[..i], html, sources, mtime).Ok?
    ensures var b := ScanAux(files[..i], html, sources, mtime).value;
            var f := files[i];
            ScanAux(files[..i + 1], html, sources, mtime) ==
              if f !in sources || f !in mtime then Err(Missing)
              else Ok(AuxScan(b.docs[Basename(f) := sources[f].body], b.newer || Older(html, mtime[f])))
  {
    assert files[..i + 1][..i] == files[..i];
  }

  lemma ThemeFileUnfold(lexFile: string, w: World, t: Themes, listing: map<string, seq<string>>,
                        sources: map<string, Doc>, now: int)
    requires ThemeReading(lexFile, w.mtime, listing, sources).Ok?
    ensures var reading := ThemeReading(lexFile, w.mtime, listing, sources).value;
            var path := DropLast(lexFile, 4);
            var name := Basename(path);
            var w' := if reading.redo then Write(w, path + ".html", Blank, now) else w;
            var spliced := Splice(sources[lexFile].body, IncludeTag(name), reading.aux);
            ThemeFile(lexFile, w, t, listing, sources, now) ==
              if spliced.Err? then Step(w', Err(spliced.failure))
              else Step(w', Ok(Themes(t.docs[name := spliced.value], reading.redo)))
  {
  }

  lemma RunStep(queue: seq<Discovery.QueueEntry>, i: int, startup: string, force: bool, cfg: map<string, Value>,
                listing: map<string, seq<string>>, sources: map<string, Doc>, now: int, w: World)
    requires 0 <= i < |queue|
    requires RunAll(queue[..i], startup, force, cfg, listing, sources, now, w).out.Ok?
    ensures RunAll(queue[..i + 1], startup, force, cfg, listing, sources, now, w) ==
            RunZone(queue[i], startup, force, cfg, listing, sources, now,
                    RunAll(queue[..i], startup, force, cfg, listing, sources, now, w).world)
  {
    assert queue[..i + 1][..i] == queue[..i];
  }

  // ---------------------------------------------------------------------
  // Once a prefix fails, the whole sequence fails the same way

  lemma {:induction false} AuxErrSticks(files: seq<string>, j: int, html: Option<int>,
                                        sources: map<string, Doc>, mtime: map<string, int>)
    requires 0 <= j <= |files|
    requires ScanAux(files[..j], html, sources, mtime).Err?
    ensures ScanAux(files, html, sources, mtime) == ScanAux(files[..j], html, sources, mtime)
    decreases |files|
  {
    if j < |files| {
      assert files[..|files| - 1][..j] == files[..j];
      AuxErrSticks(files[..|files| - 1], j, html, sources, mtime);
    } else {
      assert files[..j] == files;
    }
  }

  lemma {:induction false} ThemesErrSticks(files: seq<string>, j: int, w: World, listing: map<string, seq<string>>,
                                           sources: map<string, Doc>, now: int)
    requires 0 <= j <= |files|
    requires ScanThemes(files[..j], w, listing, sources, now).out.Err?
    ensures ScanThemes(files, w, listing, sources, now) == ScanThemes(files[..j], w, listing, sources, now)
    decreases |files|
  {
    if j < |files| {
      assert files[..|files| - 1][..j] == files[..j];
      ThemesErrSticks(files[..|files| - 1], j, w, listing, sources, now);
    } else {
      assert files[..j] == files;
    }
  }

  lemma {:induction false} BuildErrSticks(files: seq<string>, j: int, themes: Themes, force: bool,
                                          settings: map<string, Value>, cfg: map<string, Value>,
                                          sources: map<string, Doc>, now: int, w: World)
    requires 0 <= j <= |files|
    requires BuildAll(files[..j], themes, force, settings, cfg, sources, now, w).out.Err?
    ensures BuildAll(files, themes, force, settings, cfg, sources, now, w) ==
            BuildAll(files[..j], themes, force, settings, cfg, sources, now, w)
    decreases |files|
  {
    if j < |files| {
      assert files[..|files| - 1][..j] == files[..j];
      BuildErrSticks(files[..|files| - 1], j, themes, force, settings, cfg, sources, now, w);
    } else {
      assert files[..j] == files;
    }
  }

  lemma {:induction false} RunErrSticks(queue: seq<Discovery.QueueEntry>, j: int, startup: string, force: bool,
                                        cfg: map<string, Value>, listing: map<string, seq<string>>,
                                        sources: map<string, Doc>, now: int, w: World)
    requires 0 <= j <= |queue|
    requires RunAll(queue[..j], startup, force, cfg, listing, sources, now, w).out.Err?
    ensures RunAll(queue, startup, force, cfg, listing, sources, now, w) ==
            RunAll(queue[..j], startup, force, cfg, listing, sources, now, w)
    decreases |queue|
  {
    if j < |queue| {
      assert queue[..|queue| - 1][..j] == queue[..j];
      RunErrSticks(queue[..|queue| - 1], j, startup, force, cfg, listing, sources, now, w);
    } else {
      assert queue[..j] == queue;
    }
  }
}
