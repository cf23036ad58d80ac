/** Loading a chain of configuration files (checkbox_ng/config.py): the worklist
    over a possibly cyclic import graph, and the fold that gives earlier files
    priority over later ones. */
module ConfigLoader {
  import opened Base
  import opened Configuration
  import opened ConfigFiles
  import opened ConfigMeaning

  /** The file system as the loader sees it. `absolute` tells whether a name is
      an absolute path once `~` and variables are expanded, `locate` joins a
      search directory with a name and expands the result, `present` tells
      whether a path exists, and `files` holds the regular files, parsed;
      one that cannot be read or that the parser refuses has no content there. */
  datatype World = World(
    spec: Spec,
    rt: Converters,
    absolute: string -> bool,
    locate: (string, string) -> string,
    present: string -> bool,
    files: map<string, Option<Ini>>)

  /** From the highest to the lowest priority. */
  const SEARCH_DIRS: seq<string> := ["~/.config/", "/etc/xdg/", "$SNAP_DATA"]

  ghost predicate GoodWorld(w: World) {
    GoodSpec(w.spec) && "" !in w.files
  }

  // ----- Searching and reading -----

  function Existing(w: World, dirs: seq<string>, name: string): seq<string> {
    if dirs == [] then []
    else (if w.present(w.locate(dirs[0], name)) then [w.locate(dirs[0], name)] else []) + Existing(w, dirs[1..], name)
  }

  function Search(w: World, name: string): seq<string> {
    if w.absolute(name) then [name] else Existing(w, SEARCH_DIRS, name)
  }

  method SearchConfigsByName(w: World, name: string) returns (paths: seq<string>)
    ensures paths == Search(w, name)
  {
    if w.absolute(name) {
      return [name];
    }
    paths := [];
    for i := 0 to |SEARCH_DIRS|
      invariant paths + Existing(w, SEARCH_DIRS[i..], name) == Existing(w, SEARCH_DIRS, name)
    {
      DropMore(SEARCH_DIRS, i);
      var config := w.locate(SEARCH_DIRS[i], name);
      Regroup(paths, [config], Existing(w, SEARCH_DIRS[i + 1..], name));
      if w.present(config) {
        paths := paths + [config];
      }
    }
  }

  /** What a search directory contributes. */
  function FoundIn(w: World, dir: string, name: string): seq<string> {
    if w.present(w.locate(dir, name)) then [w.locate(dir, name)] else []
  }

  /** The user's own file comes first, then the one of the system, then that of
      the snap; an absolute name is not searched for. */
  lemma SearchMeaning(w: World, name: string)
    ensures w.absolute(name) ==> Search(w, name) == [name]
    ensures !w.absolute(name) ==>
              Search(w, name)
              == FoundIn(w, "~/.config/", name) + FoundIn(w, "/etc/xdg/", name) + FoundIn(w, "$SNAP_DATA", name)
  {
    var dirs := SEARCH_DIRS;
    assert Existing(w, dirs[3..], name) == [];
    assert dirs[2..][0] == "$SNAP_DATA" && dirs[2..][1..] == dirs[3..];
    assert dirs[1..][0] == "/etc/xdg/" && dirs[1..][1..] == dirs[2..];
    assert Existing(w, dirs[2..], name) == FoundIn(w, "$SNAP_DATA", name);
    assert Existing(w, dirs[1..], name) == FoundIn(w, "/etc/xdg/", name) + FoundIn(w, "$SNAP_DATA", name);
    Regroup(FoundIn(w, "~/.config/", name), FoundIn(w, "/etc/xdg/", name), FoundIn(w, "$SNAP_DATA", name));
  }

  /** `Configuration.from_path`. What a file with no content would hold does not
      matter: such a file is unreadable. */
  function Loaded(w: World, path: string): Settings {
    if path in w.files then ReadIni(w.spec, w.rt, Content(w.files[path]), path)
    else Noticed(Fresh(w.spec, ""), FileNotFound(path))
  }

  function Content(parsed: Option<Ini>): Ini {
    if parsed.Some? then parsed.value else []
  }

  /** A file that cannot be loaded: reading it raises. */
  predicate Unreadable(w: World, path: string) {
    path in w.files && RaisesOn(w.spec, w.files[path])
  }

  method FromPath(w: World, path: string) returns (r: Option<Configuration>)
    requires GoodWorld(w)
    ensures r.None? <==> Unreadable(w, path)
    ensures r.Some? ==> fresh(r.value) && Holding(w, r.value, path)
  {
    if path !in w.files {
      var cfg := new Configuration(w.spec, w.rt, "");
      cfg.NoticeProblem(FileNotFound(path));
      return Some(cfg);
    }
    r := FromIni(w.spec, w.rt, w.files[path], path);
  }

  /** The object holds what the file says. */
  ghost predicate Holding(w: World, conf: Configuration, path: string)
    reads conf
  {
    conf.Valid() && conf.spec == w.spec && conf.Contents() == Loaded(w, path)
  }

  lemma LoadedIsGood(w: World, path: string)
    requires GoodWorld(w)
    ensures Good(w.spec, Loaded(w, path))
    ensures path !in w.files ==> forall v :: !Sets(Loaded(w, path), v)
  {
    FreshIsGood(w.spec, "");
    if path in w.files {
      ReadIniIsGood(w.spec, w.rt, Content(w.files[path]), path);
    } else {
      forall v ensures Sets(Loaded(w, path), v) == Sets(Fresh(w.spec, ""), v) { }
    }
  }

  /** The file gives the variable a value. */
  ghost predicate TextGives(w: World, path: string, v: Variable) {
    path in w.files && FileGives(w.spec, w.rt, Content(w.files[path]), v)
  }

  ghost function TextValue(w: World, path: string, v: Variable): Value
    requires TextGives(w, path, v)
  {
    LastGiven(w.spec, w.rt, Content(w.files[path]), v)
  }

  /** A file that is loaded sets what its text gives; a file that is not there
      sets nothing and leaves one problem. */
  lemma LoadedSays(w: World, path: string, v: Variable)
    requires GoodWorld(w)
    ensures Sets(Loaded(w, path), v) <==> TextGives(w, path, v)
    ensures TextGives(w, path, v) ==> Holds(Loaded(w, path), v, TextValue(w, path, v), path)
    ensures !TextGives(w, path, v) ==> SameAt(Loaded(w, path), Fresh(w.spec, ""), v)
    ensures Loaded(w, path).problems
            == if path in w.files then FileProblems(w.spec, w.rt, Content(w.files[path]), path)
               else [FileNotFound(path)]
  {
    if path in w.files {
      WhatAFileSets(w.spec, w.rt, Content(w.files[path]), path, v);
      ReadIniProblems(w.spec, w.rt, Content(w.files[path]), path);
    } else {
      NotSetAtFirst(w.spec, "", v);
    }
  }

  const FILENAME: Variable := ("config", "config_filename")

  /** The name of the next configuration file, `get_value("config",
      "config_filename")`. */
  function NextName(s: Settings): string {
    if FILENAME in s.values && s.values[FILENAME].Str? then s.values[FILENAME].text else ""
  }

  lemma FilenameIsText(spec: Spec, s: Settings)
    requires GoodSpec(spec) && Good(spec, s)
    ensures FILENAME in s.values && s.values[FILENAME].Str?
  {
    assert VarsOf(spec, "config").Some?;
    assert GoodEntry(spec, FILENAME, s.values[FILENAME], s.origins[FILENAME]);
  }

  /** `get_value("config", "config_filename")`, which always finds a text. */
  method ReadNextName(cfg: Configuration) returns (name: string)
    requires cfg.Valid()
    ensures name == NextName(cfg.Contents())
  {
    FilenameIsText(cfg.spec, cfg.Contents());
    name := cfg.GetValue("config", "config_filename").text;
  }

  /** The name a file imports. */
  function Import(w: World, path: string): string {
    NextName(Loaded(w, path))
  }

  // ----- The traversal -----

  /** What a traversal loads and searches for, and the names known afterwards. */
  datatype Visit = Visit(paths: seq<string>, searched: seq<string>, known: set<string>)

  /** The import graph: the name each file imports, the files a name stands for,
      and the finitely many names that can be imported. */
  datatype Links = Links(imported: string -> string, search: string -> seq<string>, names: set<string>)

  ghost predicate Closed(g: Links) {
    forall p :: g.imported(p) in g.names
  }

  predicate ImportsNew(g: Links, path: string, known: set<string>) {
    g.imported(path) != "" && g.imported(path) !in known
  }

  /** The recursive preorder traversal, threading the known names: a file, then
      everything under the name it imports if that is new, then its siblings. */
  function Preorder(g: Links, paths: seq<string>, known: set<string>): (r: Visit)
    requires Closed(g)
    ensures known <= r.known
    decreases |g.names - known|, |paths|
  {
    if paths == [] then Visit([], [], known)
    else if ImportsNew(g, paths[0], known) then
      var name := g.imported(paths[0]);
      FewerNames(g.names, known, known + {name}, name);
      var below := Preorder(g, g.search(name), known + {name});
      FewerNames(g.names, known, below.known, name);
      var beside := Preorder(g, paths[1..], below.known);
      Visit([paths[0]] + below.paths + beside.paths, [name] + below.searched + beside.searched, beside.known)
    else
      var beside := Preorder(g, paths[1..], known);
      Visit([paths[0]] + beside.paths, beside.searched, beside.known)
  }

  lemma FewerNames(all: set<string>, known: set<string>, more: set<string>, name: string)
    requires name in all && name !in known && known <= more && name in more
    ensures |all - more| < |all - known|
  {
    SubsetSize(all - more, all - known - {name});
  }

  /** Traversing one list after another. */
  lemma {:induction false} PreorderAppend(g: Links, a: seq<string>, b: seq<string>, known: set<string>)
    requires Closed(g)
    ensures var x := Preorder(g, a, known);
            var y := Preorder(g, b, x.known);
            Preorder(g, a + b, known) == Visit(x.paths + y.paths, x.searched + y.searched, y.known)
    decreases |g.names - known|, |a|
  {
    if a == [] {
      assert a + b == b;
    } else {
      assert (a + b)[0] == a[0] && (a + b)[1..] == a[1..] + b;
      if ImportsNew(g, a[0], known) {
        var name := g.imported(a[0]);
        FewerNames(g.names, known, known + {name}, name);
        var below := Preorder(g, g.search(name), known + {name});
        FewerNames(g.names, known, below.known, name);
        PreorderAppend(g, a[1..], b, below.known);
        var x := Preorder(g, a[1..], below.known);
        var y := Preorder(g, b, x.known);
        Regroup([a[0]] + below.paths, x.paths, y.paths);
        Regroup([name] + below.searched, x.searched, y.searched);
      } else {
        PreorderAppend(g, a[1..], b, known);
        var x := Preorder(g, a[1..], known);
        Regroup([a[0]], x.paths, Preorder(g, b, x.known).paths);
      }
    }
  }

  /** Each name is searched for at most once, and never one known beforehand. */
  lemma {:induction false} SearchedOnce(g: Links, paths: seq<string>, known: set<string>)
    requires Closed(g)
    ensures var r := Preorder(g, paths, known);
            && Distinct(r.searched)
            && (forall n :: n in r.known <==> n in known || n in r.searched)
            && (forall n | n in r.searched :: n !in known && n in g.names)
    decreases |g.names - known|, |paths|
  {
    if paths == [] {
    } else {
      if ImportsNew(g, paths[0], known) {
        var name := g.imported(paths[0]);
        FewerNames(g.names, known, known + {name}, name);
        SearchedOnce(g, g.search(name), known + {name});
        var below := Preorder(g, g.search(name), known + {name});
        FewerNames(g.names, known, below.known, name);
        SearchedOnce(g, paths[1..], below.known);
        var beside := Preorder(g, paths[1..], below.known);
        DistinctAppend(below.searched, beside.searched);
        DistinctCons(name, below.searched + beside.searched);
        Regroup([name], below.searched, beside.searched);
      } else {
        SearchedOnce(g, paths[1..], known);
      }
    }
  }

  predicate ImportedBy(g: Links, paths: seq<string>, name: string) {
    exists p :: p in paths && g.imported(p) == name
  }

  /** Every name a loaded file gives is known in the end. */
  predicate Settled(g: Links, paths: seq<string>, known: set<string>) {
    forall p | p in paths :: g.imported(p) == "" || g.imported(p) in known
  }

  /** Everything to be found under the names is loaded. */
  predicate FoundAll(g: Links, names: seq<string>, paths: seq<string>) {
    forall n, p | n in names && p in g.search(n) :: p in paths
  }

  /** Nothing is left out and nothing is made up: the starting files and every
      file under a searched name are loaded, every name a loaded file gives is
      known, and every searched name was given by a loaded file. */
  lemma {:induction false} PreorderIsClosure(g: Links, paths: seq<string>, known: set<string>)
    requires Closed(g)
    ensures var r := Preorder(g, paths, known);
            && (forall p | p in paths :: p in r.paths)
            && FoundAll(g, r.searched, r.paths)
            && Settled(g, r.paths, r.known)
            && (forall n | n in r.searched :: n != "" && ImportedBy(g, r.paths, n))
    decreases |g.names - known|, |paths|
  {
    if paths == [] {
    } else {
      if ImportsNew(g, paths[0], known) {
        var name := g.imported(paths[0]);
        FewerNames(g.names, known, known + {name}, name);
        PreorderIsClosure(g, g.search(name), known + {name});
        var below := Preorder(g, g.search(name), known + {name});
        FewerNames(g.names, known, below.known, name);
        PreorderIsClosure(g, paths[1..], below.known);
        ClosureJoins(g, paths[0], below, Preorder(g, paths[1..], below.known));
      } else {
        PreorderIsClosure(g, paths[1..], known);
        var beside := Preorder(g, paths[1..], known);
        forall n | n in beside.searched ensures ImportedBy(g, [paths[0]] + beside.paths, n) {
          var p :| p in beside.paths && g.imported(p) == n;
          assert p in [paths[0]] + beside.paths;
        }
      }
    }
  }

  lemma ClosureJoins(g: Links, path: string, below: Visit, beside: Visit)
    requires FoundAll(g, below.searched, below.paths) && FoundAll(g, beside.searched, beside.paths)
    requires Settled(g, below.paths, below.known) && Settled(g, beside.paths, beside.known)
    requires below.known <= beside.known && g.imported(path) in below.known
    requires forall p | p in g.search(g.imported(path)) :: p in below.paths
    requires forall n | n in below.searched :: ImportedBy(g, below.paths, n)
    requires forall n | n in beside.searched :: ImportedBy(g, beside.paths, n)
    ensures var paths := [path] + below.paths + beside.paths;
            var searched := [g.imported(path)] + below.searched + beside.searched;
            && FoundAll(g, searched, paths) && Settled(g, paths, beside.known)
            && forall n | n in searched :: ImportedBy(g, paths, n)
  {
    var paths, searched := [path] + below.paths + beside.paths, [g.imported(path)] + below.searched + beside.searched;
    assert path in paths;
    forall n | n in searched ensures ImportedBy(g, paths, n) {
      if n in below.searched {
        var p :| p in below.paths && g.imported(p) == n;
        assert p in paths;
      } else if n in beside.searched {
        var p :| p in beside.paths && g.imported(p) == n;
        assert p in paths;
      }
    }
  }

  /** A name is searched for exactly when a loaded file gives it and it was not
      known at the start. */
  lemma SearchedExactly(g: Links, paths: seq<string>, known: set<string>, name: string)
    requires Closed(g)
    ensures var r := Preorder(g, paths, known);
            name in r.searched <==> name != "" && name !in known && ImportedBy(g, r.paths, name)
  {
    SearchedOnce(g, paths, known);
    PreorderIsClosure(g, paths, known);
  }

  /** Everything under a name that a loaded file gives is loaded, unless the name
      was known at the start. */
  lemma ImportIsLoaded(g: Links, paths: seq<string>, known: set<string>, path: string)
    requires Closed(g) && path in Preorder(g, paths, known).paths
    ensures g.imported(path) != "" && g.imported(path) !in known ==>
              forall p | p in g.search(g.imported(path)) :: p in Preorder(g, paths, known).paths
  {
    PreorderIsClosure(g, paths, known);
    SearchedExactly(g, paths, known, g.imported(path));
  }

  lemma DistinctAppend<T>(a: seq<T>, b: seq<T>)
    requires Distinct(a) && Distinct(b) && forall x | x in a :: x !in b
    ensures Distinct(a + b)
  {
    var c := a + b;
    forall i, j | 0 <= i < j < |c| ensures c[i] != c[j] {
      if i < |a| <= j { assert c[i] in a && c[j] in b; }
    }
  }

  /** The import graph of the files in the world. */
  function LinksOf(w: World): (g: Links)
    ensures Closed(g)
  {
    var names := (set p | p in w.files :: Import(w, p)) + {NextName(Fresh(w.spec, ""))};
    Links(p => Import(w, p), name => Search(w, name), names)
  }

  // ----- The layers and who wins -----

  /** One configuration to apply, with the origin its values will carry. */
  datatype Layer = Layer(settings: Settings, source: string)

  /** Layers, highest priority first, applied from the last to the first. */
  ghost function Applied(base: Settings, layers: seq<Layer>): Settings {
    if layers == [] then base else UpdatedFrom(Applied(base, layers[1..]), layers[0].settings, layers[0].source)
  }

  /** The first layer that sets the variable. */
  function Winner(layers: seq<Layer>, v: Variable): Option<Layer> {
    if layers == [] then None else if Sets(layers[0].settings, v) then Some(layers[0]) else Winner(layers[1..], v)
  }

  ghost predicate GoodLayers(spec: Spec, layers: seq<Layer>) {
    forall i | 0 <= i < |layers| :: Good(spec, layers[i].settings) && layers[i].source != ""
  }

  lemma {:induction false} AppliedIsGood(spec: Spec, base: Settings, layers: seq<Layer>)
    requires Good(spec, base) && GoodLayers(spec, layers)
    ensures Good(spec, Applied(base, layers))
  {
    if layers == [] {
    } else {
      AppliedIsGood(spec, base, layers[1..]);
      UpdatedMeaning(spec, Applied(base, layers[1..]), layers[0].settings, layers[0].source);
    }
  }

  /** Every variable ends with the value of the first layer that sets it and
      names that layer as its origin; a variable no layer sets is as in the base. */
  lemma {:induction false} FirstLayerWins(spec: Spec, base: Settings, layers: seq<Layer>, v: Variable)
    requires Good(spec, base) && GoodLayers(spec, layers)
    ensures match Winner(layers, v)
            case Some(l) => Sets(l.settings, v) && Holds(Applied(base, layers), v, l.settings.values[v], l.source)
            case None => SameAt(Applied(base, layers), base, v)
  {
    if layers == [] {
    } else {
      FirstLayerWins(spec, base, layers[1..], v);
      AppliedIsGood(spec, base, layers[1..]);
      UpdatedVariable(Applied(base, layers[1..]), layers[0].settings, layers[0].source, v);
    }
  }

  function FileLayers(w: World, paths: seq<string>): (layers: seq<Layer>)
    ensures |layers| == |paths|
    ensures forall i | 0 <= i < |paths| :: layers[i] == Layer(Loaded(w, paths[i]), "config file: " + paths[i])
  {
    seq(|paths|, i requires 0 <= i < |paths| => Layer(Loaded(w, paths[i]), "config file: " + paths[i]))
  }

  // ----- load_configs -----

  ghost predicate AllHolding(w: World, confs: seq<Configuration>, paths: seq<string>)
    reads confs
  {
    |confs| == |paths| && forall i | 0 <= i < |confs| :: Holding(w, confs[i], paths[i])
  }

  predicate AllReadable(w: World, paths: seq<string>) {
    forall p | p in paths :: !Unreadable(w, p)
  }

  /** The graph is that of the files in the world. */
  ghost predicate Depicts(g: Links, w: World) {
    && Closed(g) && (forall p :: g.imported(p) == Import(w, p)) && (forall n :: g.search(n) == Search(w, n))
  }

  /** The worklist, given the paths and names it starts from. Reading any file
      of the traversal may raise; `ok` says that none did. */
  method LoadChain(w: World, start: seq<string>, names: set<string>, ghost g: Links)
    returns (ok: bool, confs: seq<Configuration>, paths: seq<string>, searched: seq<string>)
    requires GoodWorld(w) && Depicts(g, w)
    ensures ok <==> AllReadable(w, Preorder(g, start, names).paths)
    ensures ok ==> paths == Preorder(g, start, names).paths && searched == Preorder(g, start, names).searched
    ensures ok ==> AllHolding(w, confs, paths) && fresh(set c | c in confs)
  {
    var todo, known := start, names;
    confs, paths, searched := [], [], [];
    while todo != []
      invariant Progressed(g, start, names, paths, searched, todo, known)
      invariant AllReadable(w, paths)
      invariant AllHolding(w, confs, paths) && fresh(set c | c in confs)
      decreases |g.names - known|, |todo|
    {
      var path := todo[0];
      var read, found, asked := LoadNext(w, path, known, g);
      ComesNext(g, start, names, paths, searched, todo, known);
      if read.None? {
        return false, confs, paths, searched;
      }
      WorklistStep(g, start, names, paths, searched, todo, known, found, asked);
      HoldingOneMore(w, confs, paths, read.value, path);
      FewerLeft(g, path, known, found, asked);
      confs, paths, searched := confs + [read.value], paths + [path], searched + asked;
      todo, known := found + todo[1..], WithAsked(known, asked);
    }
    ok := true;
  }

  /** The body of its loop: read one file, and look for what it imports. */
  method LoadNext(w: World, path: string, known: set<string>, ghost g: Links)
    returns (read: Option<Configuration>, found: seq<string>, asked: seq<string>)
    requires GoodWorld(w) && Depicts(g, w)
    ensures read.None? <==> Unreadable(w, path)
    ensures read.Some? ==> fresh(read.value) && Holding(w, read.value, path) && Follows(g, path, known, found, asked)
  {
    read := FromPath(w, path);
    found, asked := [], [];
    if read.Some? {
      var imported := ReadNextName(read.value);
      if imported != "" && imported !in known {
        found := SearchConfigsByName(w, imported);
        asked := [imported];
      }
    }
  }

  lemma HoldingOneMore(w: World, confs: seq<Configuration>, paths: seq<string>, conf: Configuration, path: string)
    requires AllHolding(w, confs, paths) && Holding(w, conf, path)
    ensures AllHolding(w, confs + [conf], paths + [path])
    ensures (set c | c in confs + [conf]) == (set c | c in confs) + {conf}
  {
    forall i | 0 <= i <= |confs| ensures Holding(w, (confs + [conf])[i], (paths + [path])[i]) {
      if i < |confs| { assert Holding(w, confs[i], paths[i]); }
    }
  }

  /** What is searched for after a file, and what that finds. */
  predicate Follows(g: Links, path: string, known: set<string>, found: seq<string>, asked: seq<string>) {
    if ImportsNew(g, path, known)
    then found == g.search(g.imported(path)) && asked == [g.imported(path)]
    else found == [] && asked == []
  }

  function WithAsked(known: set<string>, asked: seq<string>): set<string> {
    known + set n | n in asked
  }

  /** Each step has fewer names left to find, or just as many and one file less. */
  lemma FewerLeft(g: Links, path: string, known: set<string>, found: seq<string>, asked: seq<string>)
    requires Closed(g) && Follows(g, path, known, found, asked)
    ensures asked == [] ==> found == [] && WithAsked(known, asked) == known
    ensures asked != [] ==> |g.names - WithAsked(known, asked)| < |g.names - known|
  {
    if asked != [] {
      FewerNames(g.names, known, WithAsked(known, asked), asked[0]);
    }
  }

  /** What is done and what is left make up the traversal. */
  ghost predicate Progressed(g: Links, start: seq<string>, names: set<string>, paths: seq<string>,
          searched: seq<string>, todo: seq<string>, known: set<string>)
  {
    && Closed(g)
    && paths + Preorder(g, todo, known).paths == Preorder(g, start, names).paths
    && searched + Preorder(g, todo, known).searched == Preorder(g, start, names).searched
  }

  lemma ComesNext(g: Links, start: seq<string>, names: set<string>, paths: seq<string>, searched: seq<string>,
                  todo: seq<string>, known: set<string>)
    requires Progressed(g, start, names, paths, searched, todo, known) && todo != []
    ensures todo[0] in Preorder(g, start, names).paths
  {
    assert Preorder(g, todo, known).paths[0] == todo[0];
    assert todo[0] in Preorder(g, todo, known).paths;
  }

  /** Taking the first file off the list and putting what it imports in front of
      the rest is one step of the traversal. */
  lemma WorklistStep(g: Links, start: seq<string>, names: set<string>, paths: seq<string>, searched: seq<string>,
                     todo: seq<string>, known: set<string>, found: seq<string>, asked: seq<string>)
    requires Progressed(g, start, names, paths, searched, todo, known) && todo != []
    requires Follows(g, todo[0], known, found, asked)
    ensures Progressed(g, start, names, paths + [todo[0]], searched + asked, found + todo[1..], WithAsked(known, asked))
  {
    var more := WithAsked(known, asked);
    var rest := Preorder(g, found + todo[1..], more);
    FirstThenRest(g, todo, known, found, asked);
    Regroup(paths, [todo[0]], rest.paths);
    Regroup(searched, asked, rest.searched);
  }

  lemma FirstThenRest(g: Links, todo: seq<string>, known: set<string>, found: seq<string>, asked: seq<string>)
    requires Closed(g) && todo != [] && Follows(g, todo[0], known, found, asked)
    ensures var all, rest := Preorder(g, todo, known), Preorder(g, found + todo[1..], WithAsked(known, asked));
            all.paths == [todo[0]] + rest.paths && all.searched == asked + rest.searched
  {
    var more := WithAsked(known, asked);
    PreorderAppend(g, found, todo[1..], more);
    var below := Preorder(g, found, more);
    var beside := Preorder(g, todo[1..], below.known);
    if asked == [] {
      assert found == [] && more == known && below == Visit([], [], known);
      assert [] + beside.paths == beside.paths && [] + beside.searched == beside.searched;
    } else {
      assert more == known + {asked[0]};
      Regroup([todo[0]], below.paths, beside.paths);
      Regroup(asked, below.searched, beside.searched);
    }
  }

  /** The loop over the loaded configurations in reverse. */
  method ApplyInReverse(w: World, cfg: Configuration, confs: seq<Configuration>, paths: seq<string>)
    requires GoodWorld(w) && cfg.Valid() && cfg.spec == w.spec
    requires AllHolding(w, confs, paths) && cfg !in confs
    modifies cfg`sections, cfg`values, cfg`origins, cfg`sources, cfg`problems
    ensures cfg.Valid() && cfg.Contents() == Applied(old(cfg.Contents()), FileLayers(w, paths))
  {
    ghost var base, layers := cfg.Contents(), FileLayers(w, paths);
    for i := |confs| downto 0
      invariant cfg.Valid() && cfg.Contents() == Applied(base, layers[i..])
      invariant AllHolding(w, confs, paths)
    {
      DropMore(layers, i);
      assert Holding(w, confs[i], paths[i]);
      cfg.UpdateFromAnother(confs[i], "config file: " + paths[i]);
    }
    assert layers[0..] == layers;
  }

  /** The name a load starts from. */
  function StartName(w: World, launcher: string, base: Settings): string {
    NextName(if launcher != "" then Loaded(w, launcher) else base)
  }

  /** The traversal of a load. */
  function Traversal(w: World, launcher: string, base: Settings): Visit {
    Preorder(LinksOf(w), Search(w, StartName(w, launcher, base)), {NextName(base)})
  }

  /** The layers of a load, highest priority first. */
  function LayersOf(w: World, launcher: string, base: Settings): seq<Layer> {
    Layers(w, launcher, Traversal(w, launcher, base).paths)
  }

  function Layers(w: World, launcher: string, paths: seq<string>): seq<Layer> {
    (if launcher != "" then [Layer(Loaded(w, launcher), "Launcher file: " + launcher)] else []) + FileLayers(w, paths)
  }

  /** Some file of the load cannot be read. */
  ghost predicate Raising(w: World, launcher: string, base: Settings) {
    || (launcher != "" && Unreadable(w, launcher))
    || !AllReadable(w, Traversal(w, launcher, base).paths)
  }

  /** `load_configs`. An empty launcher and a missing `given` stand for None, a
      missing result for an uncaught exception. `log` lists the names searched for. */
  method LoadConfigs(w: World, launcher: string, given: Configuration?)
    returns (r: Option<Configuration>, ghost log: seq<string>)
    requires GoodWorld(w) && (launcher == "" || given == null)
    requires given != null ==> given.Valid() && given.spec == w.spec
    modifies given
    ensures var base := if given != null then old(given.Contents()) else Fresh(w.spec, "");
            && (r.None? <==> Raising(w, launcher, base))
            && (r.None? && given != null ==> given.Contents() == base)
            && (r.Some? ==> r.value.Valid() && r.value.spec == w.spec
                            && r.value.Contents() == Applied(base, LayersOf(w, launcher, base))
                            && log == [StartName(w, launcher, base)] + Traversal(w, launcher, base).searched)
    ensures r.Some? ==> if given == null then fresh(r.value) else r.value == given
  {
    var cfg: Configuration;
    if given == null {
      cfg := new Configuration(w.spec, w.rt, "");
    } else {
      cfg := given;
    }
    ghost var base := cfg.Contents();
    var name := ReadNextName(cfg);
    var first, top: Configuration? := name, null;
    if launcher != "" {
      var conf := FromPath(w, launcher);
      if conf.None? {
        return None, [];
      }
      top := conf.value;
      first := ReadNextName(top);
    }
    var start := SearchConfigsByName(w, first);
    var ok, confs, paths, searched := LoadChain(w, start, {name}, LinksOf(w));
    if !ok {
      return None, [];
    }
    log := [first] + searched;
    ApplyLayers(w, cfg, launcher, top, confs, paths);
    r := Some(cfg);
  }

  /** The end of `load_configs`: the files in reverse, then the launcher. */
  method ApplyLayers(w: World, cfg: Configuration, launcher: string, top: Configuration?, confs: seq<Configuration>,
          paths: seq<string>)
    requires GoodWorld(w) && cfg.Valid() && cfg.spec == w.spec && AllHolding(w, confs, paths) && cfg !in confs
    requires launcher != "" ==> top != null && top != cfg && Holding(w, top, launcher)
    modifies cfg`sections, cfg`values, cfg`origins, cfg`sources, cfg`problems
    ensures cfg.Valid() && cfg.Contents() == Applied(old(cfg.Contents()), Layers(w, launcher, paths))
  {
    ghost var base := cfg.Contents();
    ApplyInReverse(w, cfg, confs, paths);
    if launcher != "" {
      cfg.UpdateFromAnother(top, "Launcher file: " + launcher);
      LauncherOnTop(base, Layer(Loaded(w, launcher), "Launcher file: " + launcher), FileLayers(w, paths));
    } else {
      assert Layers(w, launcher, paths) == FileLayers(w, paths);
    }
  }

  lemma LauncherOnTop(base: Settings, top: Layer, rest: seq<Layer>)
    ensures Applied(base, [top] + rest) == UpdatedFrom(Applied(base, rest), top.settings, top.source)
  {
    assert ([top] + rest)[1..] == rest;
  }

  // ----- Main results -----

  /** After loading with a launcher, a variable holds the launcher's value if
      the launcher sets it, else that of the first file in preorder that sets
      it, else its default; and its origin names exactly that winner. Here the
      first `k` files do not set it, and either file `k` does or there is none. */
  lemma LauncherPriority(w: World, launcher: string, v: Variable, k: nat)
    requires GoodWorld(w) && launcher != ""
    requires k <= |ChainOf(w, launcher)| && NoneSets(w, ChainOf(w, launcher)[..k], v)
    requires k < |ChainOf(w, launcher)| ==> Sets(Loaded(w, ChainOf(w, launcher)[k]), v)
    ensures var paths, top, base := ChainOf(w, launcher), Loaded(w, launcher), Fresh(w.spec, "");
            var r := Applied(base, LayersOf(w, launcher, base));
            && Good(w.spec, r)
            && if Sets(top, v) then Holds(r, v, top.values[v], "Launcher file: " + launcher)
               else if k < |paths| then Holds(r, v, Loaded(w, paths[k]).values[v], "config file: " + paths[k])
               else SameAt(r, base, v) && !Sets(base, v)
  {
    var paths, base := ChainOf(w, launcher), Fresh(w.spec, "");
    var top, rest := Layer(Loaded(w, launcher), "Launcher file: " + launcher), FileLayers(w, paths);
    FreshIsGood(w.spec, "");
    LayersAreGood(w, launcher, paths);
    AppliedIsGood(w.spec, base, [top] + rest);
    FirstLayerWins(w.spec, base, [top] + rest, v);
    assert ([top] + rest)[1..] == rest;
    FirstFileWins(w, paths, v, k);
  }

  /** The same in terms of what the files say, with or without a launcher, and
      into any configuration: the launcher's own text decides, else that of the
      first file in preorder that gives the variable a value. */
  lemma TextPriority(w: World, launcher: string, base: Settings, v: Variable, k: nat)
    requires GoodWorld(w) && Good(w.spec, base)
    requires var paths := Traversal(w, launcher, base).paths;
             && k <= |paths| && (forall p | p in paths[..k] :: !TextGives(w, p, v))
             && (k < |paths| ==> TextGives(w, paths[k], v))
    ensures var paths, r := Traversal(w, launcher, base).paths, Applied(base, LayersOf(w, launcher, base));
            if launcher != "" && TextGives(w, launcher, v)
            then Holds(r, v, TextValue(w, launcher, v), "Launcher file: " + launcher)
            else if k < |paths| then Holds(r, v, TextValue(w, paths[k], v), "config file: " + paths[k])
            else SameAt(r, base, v)
  {
    var paths := Traversal(w, launcher, base).paths;
    var layers := LayersOf(w, launcher, base);
    forall p | p in paths[..k] ensures !Sets(Loaded(w, p), v) { LoadedSays(w, p, v); }
    LoadedSays(w, launcher, v);
    if k < |paths| { LoadedSays(w, paths[k], v); }
    LayersAreGood(w, launcher, paths);
    FirstFileWins(w, paths, v, k);
    if launcher != "" {
      var top, rest := Layer(Loaded(w, launcher), "Launcher file: " + launcher), FileLayers(w, paths);
      assert layers == [top] + rest && layers[1..] == rest;
    } else {
      assert layers == FileLayers(w, paths);
    }
    FirstLayerWins(w.spec, base, layers, v);
  }

  /** A file imports the name that its text gives, or the default name; and in a
      load everything found under that name is loaded too, unless it is empty or
      the name in the configuration that is loaded into. */
  lemma ImportsFollowed(w: World, launcher: string, base: Settings, path: string, name: string)
    requires GoodWorld(w) && path in Traversal(w, launcher, base).paths
    requires if TextGives(w, path, FILENAME) then TextValue(w, path, FILENAME) == Str(name)
             else Holds(Fresh(w.spec, ""), FILENAME, Str(name), "")
    ensures LinksOf(w).imported(path) == name
    ensures name != "" && name != NextName(base) ==>
              forall p | p in Search(w, name) :: p in Traversal(w, launcher, base).paths
  {
    LoadedSays(w, path, FILENAME);
    ImportIsLoaded(LinksOf(w), Search(w, StartName(w, launcher, base)), {NextName(base)}, path);
  }

  /** The search starts from the name that the launcher gives or, if it gives
      none or there is no launcher, from the name in the configuration that is
      loaded into; and whatever is found under it is loaded. */
  lemma SearchStarts(w: World, launcher: string, base: Settings)
    requires GoodWorld(w) && Good(w.spec, base)
    ensures launcher != "" && TextGives(w, launcher, FILENAME) ==>
              TextValue(w, launcher, FILENAME) == Str(StartName(w, launcher, base))
    ensures launcher != "" && !TextGives(w, launcher, FILENAME) ==>
              FILENAME in Fresh(w.spec, "").values
              && Fresh(w.spec, "").values[FILENAME] == Str(StartName(w, launcher, base))
    ensures launcher == "" ==> FILENAME in base.values && base.values[FILENAME] == Str(StartName(w, launcher, base))
    ensures forall p | p in Search(w, StartName(w, launcher, base)) :: p in Traversal(w, launcher, base).paths
  {
    PreorderIsClosure(LinksOf(w), Search(w, StartName(w, launcher, base)), {NextName(base)});
    LoadedSays(w, launcher, FILENAME);
    LoadedIsGood(w, launcher);
    FreshIsGood(w.spec, "");
    FilenameIsText(w.spec, base);
    FilenameIsText(w.spec, Loaded(w, launcher));
    FilenameIsText(w.spec, Fresh(w.spec, ""));
  }

  /** No problem and no source of any layer is lost, and none is made up. */
  lemma {:induction false} NotesOfLayers(base: Settings, layers: seq<Layer>, x: Problem, source: string)
    ensures x in Applied(base, layers).problems
            <==> x in base.problems || exists l :: l in layers && x in l.settings.problems
    ensures source in Applied(base, layers).sources
            <==> source in base.sources || exists l :: l in layers && source in l.settings.sources
  {
    if layers == [] {
    } else {
      NotesOfLayers(base, layers[1..], x, source);
      assert forall l :: l in layers <==> l == layers[0] || l in layers[1..];
    }
  }

  /** The files a launcher draws in, in preorder. */
  function ChainOf(w: World, launcher: string): seq<string> {
    Traversal(w, launcher, Fresh(w.spec, "")).paths
  }

  predicate NoneSets(w: World, paths: seq<string>, v: Variable) {
    forall p | p in paths :: !Sets(Loaded(w, p), v)
  }

  lemma LayersAreGood(w: World, launcher: string, paths: seq<string>)
    requires GoodWorld(w)
    ensures GoodLayers(w.spec, [Layer(Loaded(w, launcher), "Launcher file: " + launcher)] + FileLayers(w, paths))
    ensures GoodLayers(w.spec, FileLayers(w, paths))
  {
    LoadedIsGood(w, launcher);
    forall i | 0 <= i < |paths| { LoadedIsGood(w, paths[i]); }
  }

  lemma {:induction false} FirstFileWins(w: World, paths: seq<string>, v: Variable, k: nat)
    requires k <= |paths| && NoneSets(w, paths[..k], v) && (k < |paths| ==> Sets(Loaded(w, paths[k]), v))
    ensures Winner(FileLayers(w, paths), v)
            == if k < |paths| then Some(Layer(Loaded(w, paths[k]), "config file: " + paths[k])) else None
  {
    if k == 0 {
    } else {
      assert paths[0] == paths[..k][0];
      assert forall p | p in paths[1..][..k - 1] :: p in paths[..k];
      assert FileLayers(w, paths)[1..] == FileLayers(w, paths[1..]);
      FirstFileWins(w, paths[1..], v, k - 1);
    }
  }

  /** `load_configs` searches for every name at most once, but for the name it
      starts from: for that one a second time exactly when it is not the default
      name and a loaded file names it again. */
  lemma SearchesBounded(w: World, launcher: string, base: Settings, name: string)
    ensures var t, start := Traversal(w, launcher, base), StartName(w, launcher, base);
            var log := [start] + t.searched;
            && (name != start ==> multiset(log)[name] <= 1)
            && multiset(log)[start]
               == if start != "" && start != NextName(base) && ImportedBy(LinksOf(w), t.paths, start) then 2 else 1
  {
    var t, start := Traversal(w, launcher, base), StartName(w, launcher, base);
    SearchedOnce(LinksOf(w), Search(w, start), {NextName(base)});
    SearchedExactly(LinksOf(w), Search(w, start), {NextName(base)}, start);
    DistinctCount(t.searched, name);
    DistinctCount(t.searched, start);
  }

  lemma {:induction false} DistinctCount(s: seq<string>, x: string)
    requires Distinct(s)
    ensures multiset(s)[x] == if x in s then 1 else 0
  {
    if s == [] {
    } else {
      assert s == [s[0]] + s[1..];
      DistinctCons(s[0], s[1..]);
      DistinctCount(s[1..], x);
    }
  }
}
