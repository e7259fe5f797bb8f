/** What the build promises: the order in which rebuild reasons are
    tried, where pages go, what a page's metadata holds, when a theme is
    stale, what the returned theme flag reflects, what a build may touch,
    and the search path each zone gets. */
module SiteProperties {
  import opened Outcomes
  import opened Text
  import opened Values
  import opened Theme
  import opened Site
  import Discovery

  // ---------------------------------------------------------------------
  // The rebuild decision

  /** The first reason that applies wins: a theme change, then `--force`,
      then a missing html file or one strictly older than its source; equal
      times leave the page alone. */
  lemma RebuildDecision(themeRedo: bool, force: bool, fname: string, mtime: map<string, int>)
    ensures themeRedo ==> Decide(themeRedo, force, fname, mtime) == Ok(ThemeChange)
    ensures !themeRedo && force ==> Decide(themeRedo, force, fname, mtime) == Ok(Forced)
    ensures !themeRedo && !force ==>
              (Decide(themeRedo, force, fname, mtime).Err? <==> OutputPath(fname) in mtime && fname !in mtime)
    ensures !themeRedo && !force && fname in mtime ==>
              (Decide(themeRedo, force, fname, mtime) == Ok(UpToDate) <==>
                 OutputPath(fname) in mtime && mtime[fname] <= mtime[OutputPath(fname)])
    ensures !themeRedo && !force && fname in mtime && OutputPath(fname) in mtime &&
            mtime[OutputPath(fname)] == mtime[fname] ==>
              Decide(themeRedo, force, fname, mtime) == Ok(UpToDate)
  {
  }

  // ---------------------------------------------------------------------
  // Output paths

  /** A lexor file's page is the file with `.lex` replaced by `.html`; it is
      never the source itself. */
  lemma OutputPathOfLex(f: string)
    requires EndsWith(f, ".lex")
    ensures OutputPath(f) == f[..|f| - 4] + ".html"
    ensures EndsWith(OutputPath(f), ".html") && !EndsWith(OutputPath(f), ".lex")
    ensures OutputPath(f) != f
  {
    var o := OutputPath(f);
    assert o[|o| - 5..] == ".html";
    assert o[|o| - 4..] == "html";
    assert f[|f| - 4..] == ".lex";
  }

  /** Any file's page name ends in `.html`, so it is never a lexor file. */
  lemma OutputPathNotLex(f: string)
    ensures EndsWith(OutputPath(f), ".html") && !EndsWith(OutputPath(f), ".lex")
  {
    var o := OutputPath(f);
    assert o[|o| - 5..] == ".html";
    assert o[|o| - 4..] == "html";
  }

  /** Two lexor files never share a page. */
  lemma OutputPathInjective(f: string, g: string)
    requires EndsWith(f, ".lex") && EndsWith(g, ".lex")
    requires OutputPath(f) == OutputPath(g)
    ensures f == g
  {
    OutputPathOfLex(f);
    OutputPathOfLex(g);
    var a := f[..|f| - 4];
    var b := g[..|g| - 4];
    assert |a| == |b|;
    assert a == (a + ".html")[..|a|] == (b + ".html")[..|b|] == b;
    assert f == a + ".lex";
    assert g == b + ".lex";
  }

  // ---------------------------------------------------------------------
  // Page metadata

  /** The page of a built file: `version` is the template setting,
      `usepackage` is the template followed by "," and the document's own
      `usepackage` when it had one, every other metadata entry is kept, and
      the theme document is the one the template names. */
  lemma PageMetadata(fname: string, theme: map<string, seq<Node>>, settings: map<string, Value>,
                     cfg: map<string, Value>, sources: map<string, Doc>)
    requires Built(fname, theme, settings, cfg, sources).Ok?
    ensures fname in sources && "template" in settings && settings["template"].Str?
    ensures var p := Built(fname, theme, settings, cfg, sources).value;
            var ver := settings["template"].text;
            var meta := sources[fname].meta;
            p.Page? &&
            p.meta["version"] == ver &&
            p.meta["usepackage"] == ver + (if "usepackage" in meta then "," + meta["usepackage"] else "") &&
            p.meta.Keys == meta.Keys + {"version", "usepackage"} &&
            (forall k :: k in meta && k != "version" && k != "usepackage" ==> p.meta[k] == meta[k]) &&
            ver in theme && p.theme == theme[ver] &&
            Root(cfg) == Ok(p.root) && p.body == sources[fname].body
  {
  }

  /** A page cannot be built without a `template` setting naming a theme
      document. */
  lemma PageNeedsTemplate(fname: string, theme: map<string, seq<Node>>, settings: map<string, Value>,
                          cfg: map<string, Value>, sources: map<string, Doc>)
    requires fname in sources
    ensures "template" !in settings ==> Built(fname, theme, settings, cfg, sources).Err?
    ensures "template" in settings && settings["template"].Str? && settings["template"].text !in theme ==>
              Built(fname, theme, settings, cfg, sources) == Err(Uncaught("KeyError: " + settings["template"].text))
  {
  }

  // ---------------------------------------------------------------------
  // Theme staleness

  /** The scan of a theme's auxiliary files succeeds exactly when each one
      can be read. */
  lemma {:induction false} AuxScanSucceeds(files: seq<string>, html: Option<int>, sources: map<string, Doc>,
                                           mtime: map<string, int>)
    ensures ScanAux(files, html, sources, mtime).Ok? <==> forall f :: f in files ==> f in sources && f in mtime
    decreases |files|
  {
    if files != [] {
      var n := |files| - 1;
      var init := files[..n];
      var last := files[n];
      assert files[..n + 1] == files;
      AuxScanSucceeds(init, html, sources, mtime);
      if ScanAux(init, html, sources, mtime).Ok? {
        AuxStep(files, n, html, sources, mtime);
      } else {
        AuxErrSticks(files, n, html, sources, mtime);
        var g :| g in init && !(g in sources && g in mtime);
        var i :| 0 <= i < n && init[i] == g;
        assert files[i] == g;
      }
      if forall f :: f in files ==> f in sources && f in mtime {
        forall f | f in init
          ensures f in sources && f in mtime
        {
          var i :| 0 <= i < n && init[i] == f;
          assert files[i] == f;
        }
      }
    }
  }

  /** A successful scan says whether any auxiliary file is newer than the
      html file. */
  lemma {:induction false} AuxScanNewer(files: seq<string>, html: Option<int>, sources: map<string, Doc>,
                                        mtime: map<string, int>)
    requires ScanAux(files, html, sources, mtime).Ok?
    ensures ScanAux(files, html, sources, mtime).value.newer <==>
              exists f :: f in files && f in mtime && Older(html, mtime[f])
    decreases |files|
  {
    if files != [] {
      var n := |files| - 1;
      var init := files[..n];
      var last := files[n];
      assert files[..n + 1] == files;
      AuxStep(files, n, html, sources, mtime);
      AuxScanNewer(init, html, sources, mtime);
      var b := ScanAux(init, html, sources, mtime).value;
      assert ScanAux(files, html, sources, mtime).value.newer == (b.newer || Older(html, mtime[last]));
      if Older(html, mtime[last]) {
        assert last in files;
      } else if b.newer {
        var g :| g in init && g in mtime && Older(html, mtime[g]);
        assert g in files;
      } else {
        forall f | f in files && f in mtime
          ensures !Older(html, mtime[f])
        {
          var i :| 0 <= i < |files| && files[i] == f;
          if i < n {
            assert init[i] == f;
          }
        }
      }
    }
  }

  /** A successful scan holds one document per auxiliary file name. */
  lemma {:induction false} AuxScanDocs(files: seq<string>, html: Option<int>, sources: map<string, Doc>,
                                       mtime: map<string, int>)
    requires ScanAux(files, html, sources, mtime).Ok?
    ensures forall k :: k in ScanAux(files, html, sources, mtime).value.docs <==>
                          exists f :: f in files && Basename(f) == k
    decreases |files|
  {
    if files != [] {
      var n := |files| - 1;
      var init := files[..n];
      var last := files[n];
      assert files[..n + 1] == files;
      AuxStep(files, n, html, sources, mtime);
      AuxScanDocs(init, html, sources, mtime);
      var b := ScanAux(init, html, sources, mtime).value;
      var d := ScanAux(files, html, sources, mtime).value.docs;
      assert d == b.docs[Basename(last) := sources[last].body];
      forall k
        ensures k in d <==> exists f :: f in files && Basename(f) == k
      {
        if k in d && k != Basename(last) {
          assert k in b.docs;
          var g :| g in init && Basename(g) == k;
          assert g in files;
        }
        if k == Basename(last) {
          assert last in files;
        }
        if k !in d {
          forall f | f in files
            ensures Basename(f) != k
          {
            var i :| 0 <= i < |files| && files[i] == f;
            if i < n {
              assert init[i] == f;
            }
          }
        }
      }
    }
  }

  /** A theme file is stale exactly when its html file is missing, older
      than the theme file, or older than one of the files in the directory
      of the same name. */
  lemma ThemeStaleness(lexFile: string, mtime: map<string, int>, listing: map<string, seq<string>>,
                       sources: map<string, Doc>)
    requires ThemeReading(lexFile, mtime, listing, sources).Ok?
    ensures var html := DropLast(lexFile, 4) + ".html";
            var aux := Glob(listing, DropLast(lexFile, 4));
            ThemeReading(lexFile, mtime, listing, sources).value.redo <==>
              html !in mtime || mtime[html] < mtime[lexFile] ||
              exists f :: f in aux && f in mtime && mtime[html] < mtime[f]
  {
    var path := DropLast(lexFile, 4);
    var html := path + ".html";
    var htmlTime := if html in mtime then Some(mtime[html]) else None;
    AuxScanNewer(Glob(listing, path), htmlTime, sources, mtime);
  }

  /** A stale theme's html file is emptied and stamped with the current
      time before its includes are spliced; a fresh theme changes nothing on
      disk. The flag returned is this file's own. */
  lemma ThemeMarker(lexFile: string, w: World, t: Themes, listing: map<string, seq<string>>,
                    sources: map<string, Doc>, now: int)
    requires ThemeReading(lexFile, w.mtime, listing, sources).Ok?
    ensures var s := ThemeFile(lexFile, w, t, listing, sources, now);
            var html := DropLast(lexFile, 4) + ".html";
            var redo := ThemeReading(lexFile, w.mtime, listing, sources).value.redo;
            (redo ==> s.world.mtime[html] == now && s.world.outputs[html] == Blank &&
                      s.world == Write(w, html, Blank, now)) &&
            (!redo ==> s.world == w) &&
            (s.out.Ok? ==> s.out.value.redo == redo)
  {
    ThemeFileUnfold(lexFile, w, t, listing, sources, now);
  }

  /** The flag `get_theme_templates` returns is the staleness of the last
      theme file alone: the flag of every earlier file is overwritten. */
  lemma LastThemeDecides(files: seq<string>, w: World, listing: map<string, seq<string>>,
                         sources: map<string, Doc>, now: int)
    requires files != []
    requires ScanThemes(files, w, listing, sources, now).out.Ok?
    ensures var before := ScanThemes(files[..|files| - 1], w, listing, sources, now);
            before.out.Ok? &&
            ThemeReading(files[|files| - 1], before.world.mtime, listing, sources).Ok? &&
            ScanThemes(files, w, listing, sources, now).out.value.redo ==
              ThemeReading(files[|files| - 1], before.world.mtime, listing, sources).value.redo
  {
    var before := ScanThemes(files[..|files| - 1], w, listing, sources, now);
    ThemeFileUnfold(files[|files| - 1], before.world, before.out.value, listing, sources, now);
  }

  /** Two theme files in one theme directory: `t/a.lex` is newer than its
      html file, `t/b.lex` is older than its own. */
  function TwoThemes(): map<string, seq<string>> {
    map["t" := ["t/a.lex", "t/b.lex"]]
  }

  function TwoThemeSources(): map<string, Doc> {
    map["t/a.lex" := Doc(map[], []), "t/b.lex" := Doc(map[], [])]
  }

  function TwoThemeWorld(): World {
    World(map["t/a.lex" := 5, "t/a.html" := 2, "t/b.lex" := 1, "t/b.html" := 3], map[], None)
  }

  lemma FirstThemeIsStale()
    ensures ThemeReading("t/a.lex", TwoThemeWorld().mtime, TwoThemes(), TwoThemeSources()) == Ok(Reading(map[], true))
  {
    assert DropLast("t/a.lex", 4) == "t/a";
    assert Glob(TwoThemes(), "t/a") == [];
  }

  lemma FirstThemeStep()
    ensures ScanThemes(["t/a.lex"], TwoThemeWorld(), TwoThemes(), TwoThemeSources(), 10) ==
              Step(Write(TwoThemeWorld(), "t/a.html", Blank, 10), Ok(Themes(map["a" := []], true)))
  {
    FirstThemeIsStale();
    assert DropLast("t/a.lex", 4) == "t/a";
    assert Basename("t/a") == "a";
    assert DropLast("t/a.lex", 4) + ".html" == "t/a.html";
    assert ["t/a.lex"][..0] == [];
    assert Splice([], IncludeTag("a"), map[]) == Ok([]);
    ThemeFileUnfold("t/a.lex", TwoThemeWorld(), Themes(map[], false), TwoThemes(), TwoThemeSources(), 10);
  }

  lemma SecondThemeIsFresh(w: World)
    requires w == Write(TwoThemeWorld(), "t/a.html", Blank, 10)
    ensures ThemeReading("t/b.lex", w.mtime, TwoThemes(), TwoThemeSources()) == Ok(Reading(map[], false))
  {
    assert DropLast("t/b.lex", 4) == "t/b";
    assert Glob(TwoThemes(), "t/b") == [];
    assert DropLast("t/b.lex", 4) + ".html" == "t/b.html";
    assert w.mtime["t/b.html"] == 3 && w.mtime["t/b.lex"] == 1;
    assert ScanAux([], None, TwoThemeSources(), w.mtime) == Ok(AuxScan(map[], false));
  }

  /** Two themes where the first is stale and the second is not: the first
      one's html file is emptied, yet the flag that reaches `build_site` is
      false, so no page is rebuilt for the first theme's change, and the
      next run sees its html file as newer than its source. */
  lemma EarlierStaleThemeIsForgotten()
    ensures var s := ScanThemes(TwoThemes()["t"], TwoThemeWorld(), TwoThemes(), TwoThemeSources(), 10);
            ThemeReading("t/a.lex", TwoThemeWorld().mtime, TwoThemes(), TwoThemeSources()).Ok? &&
            ThemeReading("t/a.lex", TwoThemeWorld().mtime, TwoThemes(), TwoThemeSources()).value.redo &&
            s.out == Ok(Themes(map["a" := [], "b" := []], false)) &&
            "t/a.html" in s.world.mtime && s.world.mtime["t/a.html"] == 10 &&
            "t/a.lex" in s.world.mtime && s.world.mtime["t/a.lex"] == 5
  {
    FirstThemeIsStale();
    FirstThemeStep();
    var files := TwoThemes()["t"];
    assert files[..1] == ["t/a.lex"];
    var s1 := ScanThemes(files[..1], TwoThemeWorld(), TwoThemes(), TwoThemeSources(), 10);
    SecondThemeIsFresh(s1.world);
    assert DropLast("t/b.lex", 4) == "t/b";
    assert Basename("t/b") == "b";
    ThemeFileUnfold("t/b.lex", s1.world, s1.out.value, TwoThemes(), TwoThemeSources(), 10);
  }

  // ---------------------------------------------------------------------
  // What a build touches

  /** The html path of one of the files. */
  ghost predicate PageOf(files: seq<string>, k: string) {
    exists i :: 0 <= i < |files| && k == OutputPath(files[i])
  }

  /** Building one file writes its html file or nothing. */
  lemma BuildOneWrites(fname: string, themes: Themes, force: bool, settings: map<string, Value>,
                       cfg: map<string, Value>, sources: map<string, Doc>, now: int, w: World)
    ensures var s := BuildOne(fname, themes, force, settings, cfg, sources, now, w);
            s.world == w ||
            (Built(fname, themes.docs, settings, cfg, sources).Ok? &&
             s.world == Write(w, OutputPath(fname), Built(fname, themes.docs, settings, cfg, sources).value, now))
  {
  }

  /** Building a zone's files changes only their html files, and leaves
      LEXORINPUTS alone. */
  lemma {:induction false} BuildTouchesOnlyPages(files: seq<string>, themes: Themes, force: bool,
                                                  settings: map<string, Value>, cfg: map<string, Value>,
                                                  sources: map<string, Doc>, now: int, w: World)
    ensures var s := BuildAll(files, themes, force, settings, cfg, sources, now, w).world;
            s.inputs == w.inputs &&
            (forall k :: !PageOf(files, k) ==> (k in s.mtime <==> k in w.mtime) && (k in s.outputs <==> k in w.outputs)) &&
            (forall k :: !PageOf(files, k) && k in w.mtime ==> s.mtime[k] == w.mtime[k]) &&
            (forall k :: !PageOf(files, k) && k in w.outputs ==> s.outputs[k] == w.outputs[k])
    decreases |files|
  {
    if files != [] {
      var init := files[..|files| - 1];
      var last := files[|files| - 1];
      var before := BuildAll(init, themes, force, settings, cfg, sources, now, w);
      BuildTouchesOnlyPages(init, themes, force, settings, cfg, sources, now, w);
      if before.out.Ok? {
        BuildOneWrites(last, themes, force, settings, cfg, sources, now, before.world);
      }
      forall k | PageOf(init, k)
        ensures PageOf(files, k)
      {
        var i :| 0 <= i < |init| && k == OutputPath(init[i]);
        assert files[i] == init[i];
      }
      assert PageOf(files, OutputPath(last)) by {
        assert files[|files| - 1] == last;
      }
    }
  }

  /** No build writes over a lexor file. */
  lemma BuildKeepsSources(files: seq<string>, themes: Themes, force: bool, settings: map<string, Value>,
                          cfg: map<string, Value>, sources: map<string, Doc>, now: int, w: World, k: string)
    requires EndsWith(k, ".lex") && k in w.mtime
    ensures var s := BuildAll(files, themes, force, settings, cfg, sources, now, w).world;
            k in s.mtime && s.mtime[k] == w.mtime[k]
  {
    BuildTouchesOnlyPages(files, themes, force, settings, cfg, sources, now, w);
    forall i | 0 <= i < |files|
      ensures k != OutputPath(files[i])
    {
      OutputPathNotLex(files[i]);
    }
  }

  /** A page just built is up to date: a file listed twice (several filters
      matching it) is written once, unless a theme changed or the build is
      forced. */
  lemma BuiltPageIsFresh(fname: string, themes: Themes, force: bool, settings: map<string, Value>,
                         cfg: map<string, Value>, sources: map<string, Doc>, now: int, w: World)
    requires EndsWith(fname, ".lex") && fname in w.mtime && w.mtime[fname] <= now
    requires BuildOne(fname, themes, force, settings, cfg, sources, now, w).out.Ok?
    ensures Decide(false, false, fname, BuildOne(fname, themes, force, settings, cfg, sources, now, w).world.mtime)
              == Ok(UpToDate)
  {
    OutputPathOfLex(fname);
  }

  // ---------------------------------------------------------------------
  // The search path

  lemma {:induction false} ThemesKeepInputs(files: seq<string>, w: World, listing: map<string, seq<string>>,
                                            sources: map<string, Doc>, now: int)
    ensures ScanThemes(files, w, listing, sources, now).world.inputs == w.inputs
    decreases |files|
  {
    if files != [] {
      var before := ScanThemes(files[..|files| - 1], w, listing, sources, now);
      ThemesKeepInputs(files[..|files| - 1], w, listing, sources, now);
      if before.out.Ok? && ThemeReading(files[|files| - 1], before.world.mtime, listing, sources).Ok? {
        ThemeFileUnfold(files[|files| - 1], before.world, before.out.value, listing, sources, now);
      }
    }
  }

  /** After the zones are built, LEXORINPUTS holds the last zone's
      `lexor-path`, followed by the value the command started with when
      there was one: the paths of earlier zones do not accumulate. */
  lemma RunSetsZonePath(queue: seq<Discovery.QueueEntry>, startup: string, force: bool, cfg: map<string, Value>,
                        listing: map<string, seq<string>>, sources: map<string, Doc>, now: int, w: World)
    requires queue != []
    requires RunAll(queue, startup, force, cfg, listing, sources, now, w).out.Ok?
    ensures var lp := Setting(queue[|queue| - 1].cfg, "lexor-path");
            lp.Ok? &&
            RunAll(queue, startup, force, cfg, listing, sources, now, w).world.inputs ==
              Some(if startup != "" then lp.value + ":" + startup else lp.value)
  {
    var e := queue[|queue| - 1];
    var before := RunAll(queue[..|queue| - 1], startup, force, cfg, listing, sources, now, w);
    var lp := Setting(e.cfg, "lexor-path");
    var w1 := before.world.(inputs := Some(SearchPath(lp.value, startup)));
    var root := Setting(e.cfg, "theme-path");
    var t := ScanThemes(Glob(listing, root.value), w1, listing, sources, now);
    ThemesKeepInputs(Glob(listing, root.value), w1, listing, sources, now);
    BuildTouchesOnlyPages(e.files, t.out.value, force, e.cfg, cfg, sources, now, t.world);
  }
}
