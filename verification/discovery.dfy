/** Finding the lexor sources of a site: a walk over the directory tree that
    collects `.lex` files, splits off every subdirectory holding its own
    `esmero.config` as a child zone, and a depth-first queue of the zones
    with the files each one has to build. */
module Discovery {
  import opened Outcomes
  import opened Text
  import opened Values

  /** A snapshot of the directory tree below the walked path. */
  datatype Entry = File(name: string) | Dir(name: string, entries: seq<Entry>)

  function Size(e: Entry): (r: nat)
    ensures r >= 1
    decreases e
  {
    match e
    case File(_) => 1
    case Dir(_, es) => 1 + SizeAll(es)
  }

  function SizeAll(es: seq<Entry>): nat
    decreases es
  {
    if es == [] then 0 else SizeAll(es[..|es| - 1]) + Size(es[|es| - 1])
  }

  lemma {:induction false} SizeAllBounds(es: seq<Entry>, k: int)
    requires 0 <= k < |es|
    ensures Size(es[k]) <= SizeAll(es)
    decreases |es|
  {
    if k < |es| - 1 {
      SizeAllBounds(es[..|es| - 1], k);
    }
  }

  const ConfigName := "esmero.config"

  /** A directory that holds a configuration file of its own. */
  predicate HoldsConfig(e: Entry) {
    e.Dir? && exists c :: c in e.entries && c.name == ConfigName
  }

  // ---------------------------------------------------------------------
  // Skip and ignore patterns

  /** The pattern a name is matched against from its start: the built-in
      `_.*|[.].*`, or a regular expression from the configuration file. */
  datatype Pattern = Hidden | Configured(regex: string)

  /** `re.match(regex, name) is not None`, supplied by the caller. */
  type Matcher = (string, string) -> bool

  function Matches(p: Pattern, name: string, rmatch: Matcher): bool {
    match p
    case Hidden => name != "" && (name[0] == '_' || name[0] == '.')
    case Configured(regex) => rmatch(regex, name)
  }

  /** The built-in pattern matches exactly the names starting with `_` or
      `.`. */
  lemma HiddenNames(name: string, rmatch: Matcher)
    ensures Matches(Hidden, name, rmatch) <==> StartsWith(name, "_") || StartsWith(name, ".")
  {
    if name != "" {
      assert StartsWith(name, "_") <==> name[0] == '_';
      assert StartsWith(name, ".") <==> name[0] == '.';
    }
  }

  datatype Patterns = Patterns(skip: Pattern, ignore: Pattern, rmatch: Matcher)

  /** The pattern under `key` in the top level of the configuration; a value
      that is not a string cannot be compiled. */
  function PatternFor(cfg: map<string, Value>, key: string): (r: Result<Pattern>)
    ensures key !in cfg ==> r == Ok(Hidden)
    ensures key in cfg && cfg[key].Str? ==> r == Ok(Configured(cfg[key].text))
    ensures r.Err? <==> key in cfg && !cfg[key].Str?
  {
    if key !in cfg then Ok(Hidden)
    else match cfg[key]
      case Str(regex) => Ok(Configured(regex))
      case _ => Err(Uncaught("TypeError: first argument must be string or compiled pattern"))
  }

  function ReadPatterns(cfg: map<string, Value>, rmatch: Matcher): Result<Patterns> {
    var skip :- PatternFor(cfg, "skip-dir");
    var ignore :- PatternFor(cfg, "ignore-file");
    Ok(Patterns(skip, ignore, rmatch))
  }

  // ---------------------------------------------------------------------
  // One directory

  /** A child zone: the path it is reached by, and what is below it. */
  datatype Zone = Zone(path: string, entries: seq<Entry>)

  /** The subdirectories of a directory that hold their own configuration,
      in listing order, whatever their names. */
  function Zones(dirname: string, es: seq<Entry>): (r: seq<Zone>)
    ensures forall z :: z in r ==> SizeAll(z.entries) < SizeAll(es)
  {
    if es == [] then []
    else
      var last := es[|es| - 1];
      Zones(dirname, es[..|es| - 1]) +
        (if HoldsConfig(last) then [Zone(dirname + "/" + last.name, last.entries)] else [])
  }

  /** The subdirectories the walk descends into: no configuration of their
      own and a name the skip pattern does not match. */
  predicate Descends(e: Entry, p: Patterns) {
    e.Dir? && !HoldsConfig(e) && !Matches(p.skip, e.name, p.rmatch)
  }

  function Allowed(es: seq<Entry>, p: Patterns): (r: seq<Entry>)
    ensures SizeAll(r) <= SizeAll(es)
    ensures forall e :: e in r ==> e.Dir?
  {
    if es == [] then []
    else
      var last := es[|es| - 1];
      var before := Allowed(es[..|es| - 1], p);
      if Descends(last, p) then before + [last] else before
  }

  /** The copies of one joined path a file contributes when filters are
      given: one per filter that is a substring of a `.lex` path. */
  function Copies(path: string, bfiles: seq<string>): seq<string> {
    if bfiles == [] then []
    else
      Copies(path, bfiles[..|bfiles| - 1]) +
        (if EndsWith(path, ".lex") && Contains(path, bfiles[|bfiles| - 1]) then [path] else [])
  }

  /** What one file named `name` in `dirname` contributes. */
  function FileCandidates(dirname: string, name: string, bfiles: seq<string>): seq<string> {
    if bfiles == [] then
      (if EndsWith(name, ".lex") then [PathJoin(dirname, name)] else [])
    else Copies(PathJoin(dirname, name), bfiles)
  }

  /** What one entry of a directory adds to its candidates: a file the
      ignore pattern lets through contributes its candidates, anything else
      nothing. */
  function Contribution(dirname: string, e: Entry, bfiles: seq<string>, p: Patterns): seq<string> {
    if e.File? && !Matches(p.ignore, e.name, p.rmatch) then FileCandidates(dirname, e.name, bfiles) else []
  }

  /** The candidate files of one directory, in listing order. */
  function Candidates(dirname: string, es: seq<Entry>, bfiles: seq<string>, p: Patterns): seq<string> {
    if es == [] then []
    else Candidates(dirname, es[..|es| - 1], bfiles, p) + Contribution(dirname, es[|es| - 1], bfiles, p)
  }

  // ---------------------------------------------------------------------
  // The walk

  datatype Listing = Listing(files: seq<string>, zones: seq<Zone>)

  /** A top-down walk from `dirname`: this directory's candidates and zones,
      then those of each directory it descends into, in order. */
  function Walk(dirname: string, es: seq<Entry>, bfiles: seq<string>, p: Patterns): (r: Listing)
    ensures forall z :: z in r.zones ==> SizeAll(z.entries) < SizeAll(es)
    decreases SizeAll(es), 1
  {
    var below := WalkAll(dirname, Allowed(es, p), bfiles, p);
    Listing(Candidates(dirname, es, bfiles, p) + below.files, Zones(dirname, es) + below.zones)
  }

  function WalkAll(dirname: string, ds: seq<Entry>, bfiles: seq<string>, p: Patterns): (r: Listing)
    ensures forall z :: z in r.zones ==> SizeAll(z.entries) < SizeAll(ds)
    decreases SizeAll(ds), 0
  {
    if ds == [] then Listing([], [])
    else
      var before := WalkAll(dirname, ds[..|ds| - 1], bfiles, p);
      match ds[|ds| - 1]
      case File(_) => before
      case Dir(name, entries) =>
        assert Size(ds[|ds| - 1]) == 1 + SizeAll(entries);
        var sub := Walk(PathJoin(dirname, name), entries, bfiles, p);
        Listing(before.files + sub.files, before.zones + sub.zones)
  }

  /** What one call gathering a zone returns: the top-level configuration,
      the candidate files and the child zones. */
  datatype Gathered = Gathered(cfg: map<string, Value>, files: seq<string>, zones: seq<Zone>)

  /** Gathering the zone at `path`; `cfg` is the configuration read at the
      start, which is the same whatever `path` is. */
  function Gather(path: string, es: seq<Entry>, bfiles: seq<string>, cfg: map<string, Value>, rmatch: Matcher): (r: Result<Gathered>)
    ensures r.Ok? ==> forall z :: z in r.value.zones ==> SizeAll(z.entries) < SizeAll(es)
  {
    var p :- ReadPatterns(cfg, rmatch);
    var l := Walk(path, es, bfiles, p);
    Ok(Gathered(cfg, l.files, l.zones))
  }

  /** Visits one directory and everything below it that the walk reaches:
      first its entries, then the subdirectories it descends into. */
  method VisitDir(dirname: string, es: seq<Entry>, bfiles: seq<string>, p: Patterns)
    returns (files: seq<string>, zones: seq<Zone>)
    ensures Listing(files, zones) == Walk(dirname, es, bfiles, p)
    decreases SizeAll(es), 1
  {
    zones := [];
    files := [];
    var allowed: seq<Entry> := [];
    for i := 0 to |es|
      invariant zones == Zones(dirname, es[..i])
      invariant allowed == Allowed(es[..i], p)
      invariant files == Candidates(dirname, es[..i], bfiles, p)
    {
      assert es[..i + 1][..i] == es[..i];
      var e := es[i];
      if e.Dir? {
        if HoldsConfig(e) {
          zones := zones + [Zone(dirname + "/" + e.name, e.entries)];
        } else if !Matches(p.skip, e.name, p.rmatch) {
          allowed := allowed + [e];
        }
      } else if !Matches(p.ignore, e.name, p.rmatch) {
        var added := CollectFile(dirname, e.name, bfiles);
        files := files + added;
      }
    }
    assert es[..|es|] == es;
    var subFiles, subZones := VisitAll(dirname, allowed, bfiles, p);
    files := files + subFiles;
    zones := zones + subZones;
  }

  /** What the walk appends for one file that is not ignored. */
  method CollectFile(dirname: string, name: string, bfiles: seq<string>) returns (added: seq<string>)
    ensures added == FileCandidates(dirname, name, bfiles)
  {
    added := [];
    if |bfiles| == 0 {
      if EndsWith(name, ".lex") {
        added := [PathJoin(dirname, name)];
      }
    } else {
      var path := PathJoin(dirname, name);
      for j := 0 to |bfiles|
        invariant added == Copies(path, bfiles[..j])
      {
        assert bfiles[..j + 1][..j] == bfiles[..j];
        if EndsWith(path, ".lex") && Contains(path, bfiles[j]) {
          added := added + [path];
        }
      }
      assert bfiles[..|bfiles|] == bfiles;
    }
  }

  /** Walks the subdirectories a directory descends into, in order. */
  method VisitAll(dirname: string, ds: seq<Entry>, bfiles: seq<string>, p: Patterns)
    returns (files: seq<string>, zones: seq<Zone>)
    ensures Listing(files, zones) == WalkAll(dirname, ds, bfiles, p)
    decreases SizeAll(ds), 0
  {
    files := [];
    zones := [];
    for k := 0 to |ds|
      invariant Listing(files, zones) == WalkAll(dirname, ds[..k], bfiles, p)
    {
      assert ds[..k + 1][..k] == ds[..k];
      SizeAllBounds(ds, k);
      match ds[k]
      case File(_) =>
      case Dir(name, entries) =>
        var subFiles, subZones := VisitDir(PathJoin(dirname, name), entries, bfiles, p);
        files := files + subFiles;
        zones := zones + subZones;
    }
    assert ds[..|ds|] == ds;
  }

  method GatherLexorFiles(path: string, es: seq<Entry>, bfiles: seq<string>, cfg: map<string, Value>, rmatch: Matcher)
    returns (r: Result<Gathered>)
    ensures r == Gather(path, es, bfiles, cfg, rmatch)
  {
    var skip := PatternFor(cfg, "skip-dir");
    if skip.Err? {
      return Err(skip.failure);
    }
    var ignore := PatternFor(cfg, "ignore-file");
    if ignore.Err? {
      return Err(ignore.failure);
    }
    var files, zones := VisitDir(path, es, bfiles, Patterns(skip.value, ignore.value, rmatch));
    return Ok(Gathered(cfg, files, zones));
  }

  // ---------------------------------------------------------------------
  // The queue of zones

  datatype QueueEntry = QueueEntry(cfg: map<string, Value>, files: seq<string>)

  /** The zone at `path` followed, depth-first, by its child zones; each
      child is filtered by the files gathered for its parent. */
  function Queue(path: string, es: seq<Entry>, bfiles: seq<string>, cfg: map<string, Value>, rmatch: Matcher)
    : Result<seq<QueueEntry>>
    decreases SizeAll(es) + 1, 0
  {
    var g :- Gather(path, es, bfiles, cfg, rmatch);
    var rest :- QueueAll(g.zones, g.files, cfg, rmatch, SizeAll(es));
    Ok([QueueEntry(g.cfg, g.files)] + rest)
  }

  /** The queues of several sibling zones, one after the other. */
  function QueueAll(zones: seq<Zone>, bfiles: seq<string>, cfg: map<string, Value>, rmatch: Matcher, bound: nat)
    : Result<seq<QueueEntry>>
    requires forall z :: z in zones ==> SizeAll(z.entries) < bound
    decreases bound, |zones|
  {
    if zones == [] then Ok([])
    else
      var last := zones[|zones| - 1];
      assert last in zones;
      var before :- QueueAll(zones[..|zones| - 1], bfiles, cfg, rmatch, bound);
      var q :- Queue(last.path, last.entries, bfiles, cfg, rmatch);
      Ok(before + q)
  }

  /** The list `_append_queue` appends to. */
  class QueueBuilder {
    var queue: seq<QueueEntry>

    constructor ()
      ensures queue == []
    {
      queue := [];
    }

    /** Appends the zone at `path` and then, recursively, its child zones;
        a failure stops the whole build. */
    method AppendQueue(path: string, es: seq<Entry>, bfiles: seq<string>, cfg: map<string, Value>, rmatch: Matcher)
      returns (failure: Option<Failure>)
      modifies this
      ensures Queue(path, es, bfiles, cfg, rmatch).Ok? ==>
                failure == None && queue == old(queue) + Queue(path, es, bfiles, cfg, rmatch).value
      ensures Queue(path, es, bfiles, cfg, rmatch).Err? ==>
                failure == Some(Queue(path, es, bfiles, cfg, rmatch).failure)
      decreases SizeAll(es) + 1, 0
    {
      var g := GatherLexorFiles(path, es, bfiles, cfg, rmatch);
      if g.Err? {
        return Some(g.failure);
      }
      QueueUnfold(path, es, bfiles, cfg, rmatch);
      queue := queue + [QueueEntry(g.value.cfg, g.value.files)];
      failure := AppendZones(g.value.zones, g.value.files, cfg, rmatch, SizeAll(es));
    }

    /** The loop over the child zones of one zone. */
    method AppendZones(zones: seq<Zone>, files: seq<string>, cfg: map<string, Value>, rmatch: Matcher, ghost bound: nat)
      returns (failure: Option<Failure>)
      requires forall z :: z in zones ==> SizeAll(z.entries) < bound
      modifies this
      ensures QueueAll(zones, files, cfg, rmatch, bound).Ok? ==>
                failure == None && queue == old(queue) + QueueAll(zones, files, cfg, rmatch, bound).value
      ensures QueueAll(zones, files, cfg, rmatch, bound).Err? ==>
                failure == Some(QueueAll(zones, files, cfg, rmatch, bound).failure)
      decreases bound, |zones|
    {
      ghost var start := queue;
      ghost var done: seq<QueueEntry> := [];
      for i := 0 to |zones|
        invariant QueueAll(zones[..i], files, cfg, rmatch, bound) == Ok(done)
        invariant queue == start + done
      {
        assert zones[i] in zones;
        var f := AppendQueue(zones[i].path, zones[i].entries, files, cfg, rmatch);
        QueueAllStep(zones, i, files, cfg, rmatch, bound);
        if f.Some? {
          QueueAllErrSticks(zones, i + 1, files, cfg, rmatch, bound);
          return f;
        }
        ghost var q := Queue(zones[i].path, zones[i].entries, files, cfg, rmatch).value;
        AppendAssoc(start, done, q);
        done := done + q;
      }
      assert zones[..|zones|] == zones;
      failure := None;
    }
  }

  lemma AppendAssoc<T>(a: seq<T>, b: seq<T>, c: seq<T>)
    ensures (a + b) + c == a + (b + c)
  {
  }

  lemma QueueUnfold(path: string, es: seq<Entry>, bfiles: seq<string>, cfg: map<string, Value>, rmatch: Matcher)
    requires Gather(path, es, bfiles, cfg, rmatch).Ok?
    ensures var g := Gather(path, es, bfiles, cfg, rmatch).value;
            var rest := QueueAll(g.zones, g.files, cfg, rmatch, SizeAll(es));
            Queue(path, es, bfiles, cfg, rmatch) ==
              if rest.Ok? then Ok([QueueEntry(g.cfg, g.files)] + rest.value) else Err(rest.failure)
  {
  }

  /** One more sibling: its queue follows the earlier ones, and its failure
      is the failure of them all. */
  lemma QueueAllStep(zones: seq<Zone>, i: int, bfiles: seq<string>, cfg: map<string, Value>, rmatch: Matcher, bound: nat)
    requires 0 <= i < |zones|
    requires forall z :: z in zones ==> SizeAll(z.entries) < bound
    requires QueueAll(zones[..i], bfiles, cfg, rmatch, bound).Ok?
    ensures var q := Queue(zones[i].path, zones[i].entries, bfiles, cfg, rmatch);
            QueueAll(zones[..i + 1], bfiles, cfg, rmatch, bound) ==
              if q.Ok? then Ok(QueueAll(zones[..i], bfiles, cfg, rmatch, bound).value + q.value)
              else Err(q.failure)
  {
    assert zones[..i + 1][..i] == zones[..i];
  }

  /** Once a prefix of the siblings fails, the whole sequence fails the
      same way. */
  lemma {:induction false} QueueAllErrSticks(zones: seq<Zone>, j: int, bfiles: seq<string>, cfg: map<string, Value>, rmatch: Matcher, bound: nat)
    requires 0 <= j <= |zones|
    requires forall z :: z in zones ==> SizeAll(z.entries) < bound
    requires QueueAll(zones[..j], bfiles, cfg, rmatch, bound).Err?
    ensures QueueAll(zones, bfiles, cfg, rmatch, bound) == QueueAll(zones[..j], bfiles, cfg, rmatch, bound)
    decreases |zones|
  {
    if j == |zones| {
      assert zones[..j] == zones;
    } else {
      var init := zones[..|zones| - 1];
      assert init[..j] == zones[..j];
      QueueAllErrSticks(init, j, bfiles, cfg, rmatch, bound);
    }
  }

  method BuildLexorList(path: string, es: seq<Entry>, bfiles: seq<string>, cfg: map<string, Value>, rmatch: Matcher)
    returns (r: Result<seq<QueueEntry>>)
    ensures r == Queue(path, es, bfiles, cfg, rmatch)
  {
    var builder := new QueueBuilder();
    var failure := builder.AppendQueue(path, es, bfiles, cfg, rmatch);
    if failure.Some? {
      return Err(failure.value);
    }
    assert Queue(path, es, bfiles, cfg, rmatch).Ok?;
    assert builder.queue == [] + Queue(path, es, bfiles, cfg, rmatch).value;
    assert [] + Queue(path, es, bfiles, cfg, rmatch).value == Queue(path, es, bfiles, cfg, rmatch).value;
    return Ok(builder.queue);
  }

  // ---------------------------------------------------------------------
  // Properties

  /** Without filters a directory's candidates are exactly its files whose
      names the ignore pattern does not match and that end in `.lex`. */
  lemma {:induction false} CandidatesWithoutFilters(dirname: string, es: seq<Entry>, p: Patterns, x: string)
    ensures x in Candidates(dirname, es, [], p) <==>
              exists i :: 0 <= i < |es| && es[i].File? && !Matches(p.ignore, es[i].name, p.rmatch) &&
                          EndsWith(es[i].name, ".lex") && x == PathJoin(dirname, es[i].name)
  {
    if es != [] {
      var n := |es|;
      var init := es[..n - 1];
      CandidatesWithoutFilters(dirname, init, p, x);
      assert forall i :: 0 <= i < n - 1 ==> init[i] == es[i];
    }
  }

  /** The positions of the filters that are substrings of `path`. */
  function MatchingFilters(path: string, bfiles: seq<string>): set<int> {
    set i | 0 <= i < |bfiles| && Contains(path, bfiles[i])
  }

  /** With filters, a file contributes its joined path once per filter that
      is a substring of it, provided the path ends in `.lex`, and nothing
      else. */
  lemma {:induction false} CopiesOfMatchingFilters(path: string, bfiles: seq<string>)
    ensures forall x :: x in Copies(path, bfiles) ==> x == path
    ensures |Copies(path, bfiles)| == if EndsWith(path, ".lex") then |MatchingFilters(path, bfiles)| else 0
    ensures Copies(path, bfiles) != [] <==>
              EndsWith(path, ".lex") && exists i :: 0 <= i < |bfiles| && Contains(path, bfiles[i])
    ensures |Copies(path, bfiles)| <= |bfiles|
  {
    if bfiles != [] {
      var n := |bfiles|;
      var init := bfiles[..n - 1];
      CopiesOfMatchingFilters(path, init);
      assert forall i :: 0 <= i < n - 1 ==> init[i] == bfiles[i];
      var a := MatchingFilters(path, init);
      var b := MatchingFilters(path, bfiles);
      assert n - 1 !in a;
      if Contains(path, bfiles[n - 1]) {
        assert b == a + {n - 1};
      } else {
        assert b == a;
      }
    }
  }

  /** A file entry whose joined path is a filtered candidate. */
  predicate FilteredHit(dirname: string, e: Entry, bfiles: seq<string>, p: Patterns, x: string) {
    e.File? && !Matches(p.ignore, e.name, p.rmatch) && x == PathJoin(dirname, e.name) && EndsWith(x, ".lex") &&
    exists b :: 0 <= b < |bfiles| && Contains(x, bfiles[b])
  }

  /** With filters, a directory's candidates are exactly the joined paths
      of its files that the ignore pattern lets through, that end in `.lex`
      and that contain some filter. */
  lemma CandidatesWithFilters(dirname: string, es: seq<Entry>, bfiles: seq<string>, p: Patterns, x: string)
    requires bfiles != []
    ensures x in Candidates(dirname, es, bfiles, p) <==>
              exists i :: 0 <= i < |es| && FilteredHit(dirname, es[i], bfiles, p, x)
  {
    if x in Candidates(dirname, es, bfiles, p) {
      var i := FilteredCandidateSource(dirname, es, bfiles, p, x);
    }
    if exists i :: 0 <= i < |es| && FilteredHit(dirname, es[i], bfiles, p, x) {
      var i :| 0 <= i < |es| && FilteredHit(dirname, es[i], bfiles, p, x);
      FilteredHitIsCandidate(dirname, es, bfiles, p, x, i);
    }
  }

  /** The entry a filtered candidate comes from. */
  lemma {:induction false} FilteredCandidateSource(dirname: string, es: seq<Entry>, bfiles: seq<string>, p: Patterns, x: string)
    returns (i: int)
    requires bfiles != [] && x in Candidates(dirname, es, bfiles, p)
    ensures 0 <= i < |es| && FilteredHit(dirname, es[i], bfiles, p, x)
    decreases |es|
  {
    var n := |es|;
    var init := es[..n - 1];
    ContributionHit(dirname, es[n - 1], bfiles, p, x);
    if x in Candidates(dirname, init, bfiles, p) {
      i := FilteredCandidateSource(dirname, init, bfiles, p, x);
      assert init[i] == es[i];
    } else {
      i := n - 1;
    }
  }

  /** Every filtered hit among the entries is a candidate. */
  lemma FilteredHitIsCandidate(dirname: string, es: seq<Entry>, bfiles: seq<string>, p: Patterns, x: string, i: int)
    requires bfiles != [] && 0 <= i < |es| && FilteredHit(dirname, es[i], bfiles, p, x)
    ensures x in Candidates(dirname, es, bfiles, p)
  {
    ContributionHit(dirname, es[i], bfiles, p, x);
    var f := (ds: seq<Entry>) => Candidates(dirname, ds, bfiles, p);
    var g := (e: Entry) => Contribution(dirname, e, bfiles, p);
    forall k | 0 < k <= |es|
      ensures f(es[..k]) == f(es[..k - 1]) + g(es[k - 1])
    {
      assert es[..k][..k - 1] == es[..k - 1];
      assert es[..k][k - 1] == es[k - 1];
    }
    InSomeBlock(f, g, es, i, x);
  }

  /** A sequence built block by block, one block per element, holds what
      any element's block holds. */
  lemma {:induction false} InSomeBlock<E, T>(f: seq<E> -> seq<T>, g: E -> seq<T>, es: seq<E>, i: int, x: T)
    requires forall k :: 0 < k <= |es| ==> f(es[..k]) == f(es[..k - 1]) + g(es[k - 1])
    requires 0 <= i < |es| && x in g(es[i])
    ensures x in f(es)
    decreases |es|
  {
    var n := |es|;
    assert es[..n] == es;
    if i < n - 1 {
      var init := es[..n - 1];
      forall k | 0 < k <= |init|
        ensures f(init[..k]) == f(init[..k - 1]) + g(init[k - 1])
      {
        assert init[..k] == es[..k] && init[..k - 1] == es[..k - 1] && init[k - 1] == es[k - 1];
      }
      assert init[i] == es[i];
      InSomeBlock(f, g, init, i, x);
    }
  }

  /** With filters, an entry contributes x exactly when x is a filtered
      hit of that entry. */
  lemma ContributionHit(dirname: string, e: Entry, bfiles: seq<string>, p: Patterns, x: string)
    requires bfiles != []
    ensures x in Contribution(dirname, e, bfiles, p) <==> FilteredHit(dirname, e, bfiles, p, x)
  {
    var extra := Contribution(dirname, e, bfiles, p);
    if e.File? {
      CopiesOfMatchingFilters(PathJoin(dirname, e.name), bfiles);
    }
    if FilteredHit(dirname, e, bfiles, p, x) {
      var b :| 0 <= b < |bfiles| && Contains(x, bfiles[b]);
      assert extra != [];
      assert extra[0] in extra;
    }
  }

  /** Every file a walk collects ends in `.lex`, and contains some filter
      when filters are given. */
  predicate Candidate(x: string, bfiles: seq<string>) {
    EndsWith(x, ".lex") && (bfiles != [] ==> exists b :: b in bfiles && Contains(x, b))
  }

  lemma {:induction false} CandidatesAreLex(dirname: string, es: seq<Entry>, bfiles: seq<string>, p: Patterns)
    ensures forall x :: x in Candidates(dirname, es, bfiles, p) ==> Candidate(x, bfiles)
  {
    if es != [] {
      var last := es[|es| - 1];
      CandidatesAreLex(dirname, es[..|es| - 1], bfiles, p);
      if last.File? && EndsWith(last.name, ".lex") {
        PathJoinEndsWith(dirname, last.name, ".lex");
      }
      if bfiles != [] {
        CopiesAreCandidates(PathJoin(dirname, last.name), bfiles);
      }
    }
  }

  lemma {:induction false} CopiesAreCandidates(path: string, bfiles: seq<string>)
    requires bfiles != []
    ensures forall x :: x in Copies(path, bfiles) ==> Candidate(x, bfiles)
  {
    if |bfiles| > 1 {
      var init := bfiles[..|bfiles| - 1];
      CopiesAreCandidates(path, init);
      forall x | x in Copies(path, init) ensures Candidate(x, bfiles) {
        var b :| b in init && Contains(x, b);
        assert b in bfiles;
      }
    }
  }

  lemma {:induction false} WalkFilesAreLex(dirname: string, es: seq<Entry>, bfiles: seq<string>, p: Patterns)
    ensures forall x :: x in Walk(dirname, es, bfiles, p).files ==> Candidate(x, bfiles)
    decreases SizeAll(es), 1
  {
    CandidatesAreLex(dirname, es, bfiles, p);
    WalkAllFilesAreLex(dirname, Allowed(es, p), bfiles, p);
  }

  lemma {:induction false} WalkAllFilesAreLex(dirname: string, ds: seq<Entry>, bfiles: seq<string>, p: Patterns)
    ensures forall x :: x in WalkAll(dirname, ds, bfiles, p).files ==> Candidate(x, bfiles)
    decreases SizeAll(ds), 0
  {
    if ds != [] {
      WalkAllFilesAreLex(dirname, ds[..|ds| - 1], bfiles, p);
      match ds[|ds| - 1]
      case File(_) =>
      case Dir(name, entries) =>
        assert Size(ds[|ds| - 1]) == 1 + SizeAll(entries);
        WalkFilesAreLex(PathJoin(dirname, name), entries, bfiles, p);
    }
  }

  /** A subdirectory is split off as a zone exactly when it holds its own
      configuration, even when the skip pattern matches its name. */
  lemma {:induction false} ZonesExactly(dirname: string, es: seq<Entry>, z: Zone)
    ensures z in Zones(dirname, es) <==>
              exists i :: 0 <= i < |es| && HoldsConfig(es[i]) &&
                          z == Zone(dirname + "/" + es[i].name, es[i].entries)
  {
    if es != [] {
      var n := |es|;
      var init := es[..n - 1];
      ZonesExactly(dirname, init, z);
      assert forall i :: 0 <= i < n - 1 ==> init[i] == es[i];
    }
  }

  /** The walk descends into a subdirectory exactly when it holds no
      configuration and the skip pattern does not match its name; in
      particular it never descends into a zone. */
  lemma {:induction false} AllowedExactly(es: seq<Entry>, p: Patterns, e: Entry)
    ensures e in Allowed(es, p) <==> e in es && Descends(e, p)
  {
    if es != [] {
      AllowedExactly(es[..|es| - 1], p, e);
      assert es == es[..|es| - 1] + [es[|es| - 1]];
    }
  }

  /** Every queue entry carries the configuration read at the start; the
      first one is the walked zone with its own files; and the queue can
      only fail when the patterns of that configuration cannot be read. */
  lemma {:induction false} QueueShape(path: string, es: seq<Entry>, bfiles: seq<string>, cfg: map<string, Value>, rmatch: Matcher)
    ensures Queue(path, es, bfiles, cfg, rmatch).Ok? <==> ReadPatterns(cfg, rmatch).Ok?
    ensures Queue(path, es, bfiles, cfg, rmatch).Ok? ==>
              var q := Queue(path, es, bfiles, cfg, rmatch).value;
              |q| >= 1 && q[0] == QueueEntry(cfg, Walk(path, es, bfiles, ReadPatterns(cfg, rmatch).value).files) &&
              forall j :: 0 <= j < |q| ==> q[j].cfg == cfg
    decreases SizeAll(es) + 1, 0
  {
    var g := Gather(path, es, bfiles, cfg, rmatch);
    if g.Ok? {
      QueueAllShape(g.value.zones, g.value.files, cfg, rmatch, SizeAll(es));
    }
  }

  lemma {:induction false} QueueAllShape(zones: seq<Zone>, bfiles: seq<string>, cfg: map<string, Value>, rmatch: Matcher, bound: nat)
    requires forall z :: z in zones ==> SizeAll(z.entries) < bound
    requires ReadPatterns(cfg, rmatch).Ok?
    ensures QueueAll(zones, bfiles, cfg, rmatch, bound).Ok?
    ensures forall j :: 0 <= j < |QueueAll(zones, bfiles, cfg, rmatch, bound).value| ==>
              QueueAll(zones, bfiles, cfg, rmatch, bound).value[j].cfg == cfg
    decreases bound, |zones|
  {
    if zones != [] {
      var last := zones[|zones| - 1];
      assert last in zones;
      QueueAllShape(zones[..|zones| - 1], bfiles, cfg, rmatch, bound);
      QueueShape(last.path, last.entries, bfiles, cfg, rmatch);
    }
  }

  /** The queues of the first siblings come first in the queue of them
      all. */
  lemma {:induction false} QueueAllPrefix(zones: seq<Zone>, i: int, bfiles: seq<string>, cfg: map<string, Value>,
                                          rmatch: Matcher, bound: nat)
    requires 0 <= i <= |zones|
    requires forall z :: z in zones ==> SizeAll(z.entries) < bound
    requires QueueAll(zones, bfiles, cfg, rmatch, bound).Ok?
    ensures QueueAll(zones[..i], bfiles, cfg, rmatch, bound).Ok?
    ensures QueueAll(zones[..i], bfiles, cfg, rmatch, bound).value <= QueueAll(zones, bfiles, cfg, rmatch, bound).value
    decreases |zones|
  {
    if i == |zones| {
      assert zones[..i] == zones;
    } else {
      var init := zones[..|zones| - 1];
      assert init[..i] == zones[..i];
      assert forall z :: z in init ==> z in zones;
      QueueAllPrefix(init, i, bfiles, cfg, rmatch, bound);
    }
  }

  /** Right after a zone's own entry comes the entry of its first child
      zone, whose files are filtered by the files gathered for the parent
      (not by the filters the parent was given). */
  lemma FirstChildFollows(path: string, es: seq<Entry>, bfiles: seq<string>, cfg: map<string, Value>, rmatch: Matcher)
    requires Queue(path, es, bfiles, cfg, rmatch).Ok?
    requires Gather(path, es, bfiles, cfg, rmatch).Ok? && Gather(path, es, bfiles, cfg, rmatch).value.zones != []
    ensures ReadPatterns(cfg, rmatch).Ok?
    ensures var g := Gather(path, es, bfiles, cfg, rmatch).value;
            var z := g.zones[0];
            var q := Queue(path, es, bfiles, cfg, rmatch).value;
            |q| >= 2 && q[0] == QueueEntry(cfg, g.files) &&
            q[1] == QueueEntry(cfg, Walk(z.path, z.entries, g.files, ReadPatterns(cfg, rmatch).value).files)
  {
    var g := Gather(path, es, bfiles, cfg, rmatch).value;
    var z := g.zones[0];
    SecondEntry(path, es, bfiles, cfg, rmatch);
    QueueShape(path, es, bfiles, cfg, rmatch);
    QueueShape(z.path, z.entries, g.files, cfg, rmatch);
  }

  /** The second entry of a zone's queue is the first entry of its first
      child zone's queue. */
  lemma SecondEntry(path: string, es: seq<Entry>, bfiles: seq<string>, cfg: map<string, Value>, rmatch: Matcher)
    requires Queue(path, es, bfiles, cfg, rmatch).Ok?
    requires Gather(path, es, bfiles, cfg, rmatch).Ok? && Gather(path, es, bfiles, cfg, rmatch).value.zones != []
    ensures var g := Gather(path, es, bfiles, cfg, rmatch).value;
            var z := g.zones[0];
            var first := Queue(z.path, z.entries, g.files, cfg, rmatch);
            var q := Queue(path, es, bfiles, cfg, rmatch).value;
            first.Ok? && |first.value| >= 1 && |q| >= 2 && q[1] == first.value[0]
  {
    var g := Gather(path, es, bfiles, cfg, rmatch).value;
    var z := g.zones[0];
    var bound := SizeAll(es);
    QueueUnfold(path, es, bfiles, cfg, rmatch);
    var rest := QueueAll(g.zones, g.files, cfg, rmatch, bound).value;
    QueueAllPrefix(g.zones, 1, g.files, cfg, rmatch, bound);
    QueueAllOne(g.zones[..1], g.files, cfg, rmatch, bound);
    QueueShape(z.path, z.entries, g.files, cfg, rmatch);
    var first := Queue(z.path, z.entries, g.files, cfg, rmatch).value;
    assert first <= rest;
    assert rest[0] == first[0];
  }

  lemma QueueAllOne(zones: seq<Zone>, bfiles: seq<string>, cfg: map<string, Value>, rmatch: Matcher, bound: nat)
    requires |zones| == 1
    requires forall z :: z in zones ==> SizeAll(z.entries) < bound
    ensures QueueAll(zones, bfiles, cfg, rmatch, bound) == Queue(zones[0].path, zones[0].entries, bfiles, cfg, rmatch)
  {
    assert zones[..0] == [];
    var q := Queue(zones[0].path, zones[0].entries, bfiles, cfg, rmatch);
    if q.Ok? {
      assert [] + q.value == q.value;
    }
  }
}
