/** FolderStructureGenerator: the Flutter project skeleton computed from a
    specification, and its creation on disk. */
module FolderStructure {
  import opened Wrappers
  import opened Text
  import opened Json
  import opened Names
  import opened FileSystem

  /** A folder-structure dict: each key maps to a nested dict or to a list of
      file names.  Keys are kept in insertion order. */
  datatype Tree = Dir(entries: seq<Entry>) | Files(names: seq<string>)

  datatype Entry = Entry(key: string, value: Tree)

  /** The key whose list names files of the enclosing directory itself. */
  const FilesKey := "files"

  /** At most this many features (screens) and data models are used. */
  const MaxPerList: nat := 5

  const DefaultAppDir := "my_flutter_app"

  /** spec.get('app_name', 'my_flutter_app').lower().replace(' ', '_'):
      the directory name of the app.  A non-string name raises. */
  function AppDirName(spec: seq<Member>): (r: Result<string>)
    ensures r.Ok? <==> GetOr(spec, "app_name", JStr(DefaultAppDir)).JStr?
    ensures r.Ok? ==> |r.value| == |GetOr(spec, "app_name", JStr(DefaultAppDir)).s|
    ensures r.Ok? ==> forall i :: 0 <= i < |r.value| ==> r.value[i] != ' ' && !IsUpper(r.value[i])
  {
    match GetOr(spec, "app_name", JStr(DefaultAppDir))
    case JStr(s) => Ok(ReplaceChar(Lower(s), ' ', '_'))
    case _ => Err("AttributeError: object has no attribute 'lower'")
  }

  /** Without an app_name the directory is my_flutter_app, and a directory name
      is its own directory name. */
  lemma AppDirNameDefaultAndStable(spec: seq<Member>)
    ensures !Has(spec, "app_name") ==> AppDirName(spec) == Ok(DefaultAppDir)
    ensures AppDirName(spec).Ok? ==>
              AppDirName([Member("app_name", JStr(AppDirName(spec).value))]) == AppDirName(spec)
  {
    LowerUnchanged(DefaultAppDir);
    assert ReplaceChar(DefaultAppDir, ' ', '_') == DefaultAppDir;
    if AppDirName(spec).Ok? {
      var d := AppDirName(spec).value;
      var one := [Member("app_name", JStr(d))];
      assert Get(one, "app_name") == Some(JStr(d));
      LowerUnchanged(d);
      assert ReplaceChar(d, ' ', '_') == d;
    }
  }

  /** The file name made from one listed value: its clean name plus a suffix. */
  function FileNameOf(v: Json, suffix: string): string
    requires v.JStr?
  {
    CleanName(v.s) + suffix
  }

  /** The file names made from the listed values.  A value that is not a
      string raises AttributeError. */
  function ListedNames(items: seq<Json>, suffix: string): (r: Result<seq<string>>)
    ensures r.Ok? <==> AllStrings(items)
    ensures r.Ok? ==> |r.value| == |items| &&
                      forall i :: 0 <= i < |items| ==> r.value[i] == FileNameOf(items[i], suffix)
    ensures r.Ok? ==> forall i :: 0 <= i < |items| ==> SuffixedName(r.value[i], suffix)
  {
    if AllStrings(items) then
      var names := seq(|items|, i requires 0 <= i < |items| => FileNameOf(items[i], suffix));
      assert forall i :: 0 <= i < |items| ==> SuffixedName(names[i], suffix) by {
        forall i | 0 <= i < |items| ensures SuffixedName(names[i], suffix) {
          FileNameShape(items[i], suffix);
        }
      }
      Ok(names)
    else Err("AttributeError: object has no attribute 'lower'")
  }

  /** n is a well-formed name without whitespace followed by suffix. */
  ghost predicate SuffixedName(n: string, suffix: string) {
    && |suffix| <= |n| && EndsWith(n, suffix)
    && WellFormedName(n[..|n| - |suffix|])
    && forall j :: 0 <= j < |n| - |suffix| ==> !IsSpace(n[j])
  }

  lemma FileNameShape(v: Json, suffix: string)
    requires v.JStr?
    ensures SuffixedName(FileNameOf(v, suffix), suffix)
  {
    var n := FileNameOf(v, suffix);
    var stem := CleanName(v.s);
    CleanNameShape(v.s);
    assert n[..|n| - |suffix|] == stem;
    assert n[|n| - |suffix|..] == suffix;
    assert forall j :: 0 <= j < |stem| ==> n[j] == stem[j];
  }

  /** spec.get(key, [])[:5]: the values of a listed key that are used. */
  function ListedItems(spec: seq<Member>, key: string): Result<seq<Json>> {
    FirstItems(GetOr(spec, key, JArr([])), MaxPerList)
  }

  /** The names added for spec[key] when the key is present: its first five
      values, each turned into a file name. */
  function PlannedNames(spec: seq<Member>, key: string, suffix: string): Result<seq<string>> {
    if !Has(spec, key) then Ok([])
    else
      match ListedItems(spec, key)
      case Err(e) => Err(e)
      case Ok(items) => ListedNames(items, suffix)
  }

  /** The fixed skeleton, with the screens and models lists filled in: a
      single top-level key, the app directory name. */
  function Skeleton(app: string, screens: seq<string>, models: seq<string>): Tree {
    Dir([Entry(app, AppTree(screens, models))])
  }

  /** The contents of the app directory. */
  function AppTree(screens: seq<string>, models: seq<string>): Tree {
    Dir([
      Entry("lib", LibTree(screens, models)),
      Entry("assets", Dir([
        Entry("images", Files([])),
        Entry("fonts", Files([])),
        Entry("icons", Files([]))])),
      Entry("test", Dir([
        Entry("widget_test", Files([])),
        Entry("unit_test", Files([])),
        Entry("integration_test", Files([]))])),
      Entry("android", Dir([
        Entry("app", Dir([
          Entry("src", Dir([
            Entry("main", Files(["AndroidManifest.xml"]))]))]))])),
      Entry("ios", Dir([
        Entry("Runner", Files(["Info.plist"]))])),
      Entry(FilesKey, Files(ProjectFiles))])
  }

  const ProjectFiles := ["pubspec.yaml", "README.md", ".gitignore", "analysis_options.yaml"]

  /** The contents of lib. */
  function LibTree(screens: seq<string>, models: seq<string>): Tree {
    Dir([
      Entry("models", Files(models)),
      Entry("screens", Files(screens)),
      Entry("widgets", Files([])),
      Entry("services", Files([])),
      Entry("utils", Files([])),
      Entry("constants", Files(["colors.dart", "strings.dart", "themes.dart"])),
      Entry(FilesKey, Files(["main.dart"]))])
  }

  /** The structure generate(spec) returns, or the error it raises. */
  function Structure(spec: Json): Result<Tree> {
    if !spec.JObj? then Err("AttributeError: object has no attribute 'get'")
    else
      var app := AppDirName(spec.members);
      var screens := PlannedNames(spec.members, "features", "_screen.dart");
      var models := PlannedNames(spec.members, "data_models", ".dart");
      if app.Err? then Err(app.error)
      else if screens.Err? then Err(screens.error)
      else if models.Err? then Err(models.error)
      else Ok(Skeleton(app.value, screens.value, models.value))
  }

  /** The loop shared by the screens and models blocks of generate. */
  method NamesFor(items: seq<Json>, suffix: string) returns (r: Result<seq<string>>)
    ensures r == ListedNames(items, suffix)
  {
    var names: seq<string> := [];
    var i := 0;
    while i < |items|
      invariant 0 <= i <= |items|
      invariant |names| == i
      invariant forall k :: 0 <= k < i ==> items[k].JStr? && names[k] == FileNameOf(items[k], suffix)
    {
      if !items[i].JStr? {
        return Err("AttributeError: object has no attribute 'lower'");
      }
      names := names + [FileNameOf(items[i], suffix)];
      i := i + 1;
    }
    assert names == ListedNames(items, suffix).value;
    return Ok(names);
  }

  method PlanNames(spec: seq<Member>, key: string, suffix: string) returns (r: Result<seq<string>>)
    ensures r == PlannedNames(spec, key, suffix)
  {
    if !Has(spec, key) {
      return Ok([]);
    }
    var items := ListedItems(spec, key);
    if items.Err? {
      return Err(items.error);
    }
    r := NamesFor(items.value, suffix);
  }

  /** generate(spec) */
  method Generate(spec: Json) returns (r: Result<Tree>)
    ensures r == Structure(spec)
  {
    if !spec.JObj? {
      return Err("AttributeError: object has no attribute 'get'");
    }
    var app := AppDirName(spec.members);
    if app.Err? {
      return Err(app.error);
    }
    var screens := PlanNames(spec.members, "features", "_screen.dart");
    if screens.Err? {
      return Err(screens.error);
    }
    var models := PlanNames(spec.members, "data_models", ".dart");
    if models.Err? {
      return Err(models.error);
    }
    r := Ok(Skeleton(app.value, screens.value, models.value));
  }

  /** generate succeeds exactly when the spec is a dict whose app name,
      features and data models are usable, and its result has one top-level
      key, the app directory name, holding the app tree for the planned
      screens and models. */
  lemma StructureShape(spec: Json)
    ensures Structure(spec).Ok? <==>
              spec.JObj? && AppDirName(spec.members).Ok?
              && PlannedNames(spec.members, "features", "_screen.dart").Ok?
              && PlannedNames(spec.members, "data_models", ".dart").Ok?
    ensures Structure(spec).Ok? ==>
              Structure(spec).value == Dir([Entry(AppDirName(spec.members).value,
                AppTree(PlannedNames(spec.members, "features", "_screen.dart").value,
                        PlannedNames(spec.members, "data_models", ".dart").value))])
  {
  }

  /** Apart from the screens and models lists, the app tree is the same
      whatever the spec: lib first, with models and screens as its first two
      entries. */
  lemma AppTreeFixed(s1: seq<string>, m1: seq<string>, s2: seq<string>, m2: seq<string>)
    ensures var a := AppTree(s1, m1);
            var b := AppTree(s2, m2);
            && a.entries[1..] == b.entries[1..]
            && a.entries[0].key == b.entries[0].key == "lib"
            && a.entries[0].value.entries[2..] == b.entries[0].value.entries[2..]
            && a.entries[0].value.entries[..2] == [Entry("models", Files(m1)), Entry("screens", Files(s1))]
  {
  }

  /** What generate puts in the screens and models lists: for a list of
      strings, one entry per value among the first five, the clean name with
      the suffix; nothing when the key is absent. */
  lemma PlannedNamesContents(spec: seq<Member>, key: string, suffix: string)
    ensures !Has(spec, key) ==> PlannedNames(spec, key, suffix) == Ok([])
    ensures PlannedNames(spec, key, suffix).Ok? ==> |PlannedNames(spec, key, suffix).value| <= MaxPerList
    ensures Has(spec, key) && GetOr(spec, key, JNull).JArr? ==>
              var items := GetOr(spec, key, JNull).items;
              (PlannedNames(spec, key, suffix).Ok? <==> AllStrings(items[..Min(MaxPerList, |items|)])) &&
              (PlannedNames(spec, key, suffix).Ok? ==>
                 var names := PlannedNames(spec, key, suffix).value;
                 |names| == Min(MaxPerList, |items|) &&
                 forall i :: 0 <= i < |names| ==> names[i] == CleanName(items[i].s) + suffix)
  {
    if Has(spec, key) {
      assert GetOr(spec, key, JNull) == GetOr(spec, key, JArr([]));
    }
  }

  // ---------------------------------------------------------------------------
  // Creating the structure on disk

  /** The names `for name in value` visits: the keys of a dict, the items of a list. */
  function KeysOrItems(t: Tree): (r: seq<string>)
    ensures t.Files? ==> r == t.names
    ensures t.Dir? ==> |r| == |t.entries| && forall i :: 0 <= i < |r| ==> r[i] == t.entries[i].key
  {
    match t
    case Dir(es) => seq(|es|, i requires 0 <= i < |es| => es[i].key)
    case Files(ns) => ns
  }

  /** The paths of the named files in directory dir. */
  function FilesIn(dir: Path, names: seq<string>): set<Path> {
    set n | n in names :: dir + [n]
  }

  /** The directories _create_recursive makes for the first n entries of the
      dict t placed at current. */
  function DirsOf(t: Tree, n: nat, current: Path): set<Path>
    requires t.Dir? && n <= |t.entries|
    decreases t, n
  {
    if n == 0 then {}
    else
      var e := t.entries[n - 1];
      DirsOf(t, n - 1, current) +
      if e.key == FilesKey then {}
      else if e.value.Dir? then {current + [e.key]} + DirsOf(e.value, |e.value.entries|, current + [e.key])
      else {current + [e.key]}
  }

  /** The files _create_recursive creates for the first n entries of the dict t
      placed at current. */
  function FilesOf(t: Tree, n: nat, current: Path): set<Path>
    requires t.Dir? && n <= |t.entries|
    decreases t, n
  {
    if n == 0 then {}
    else
      var e := t.entries[n - 1];
      FilesOf(t, n - 1, current) +
      if e.key == FilesKey then FilesIn(current, KeysOrItems(e.value))
      else if e.value.Dir? then FilesOf(e.value, |e.value.entries|, current + [e.key])
      else FilesIn(current + [e.key], e.value.names)
  }

  /** Each entry of a dict lands where the dict says: a "files" list in the
      directory itself, any other key as a sub-directory holding its list or
      its nested dict. */
  lemma {:induction false} EntryPlacement(t: Tree, n: nat, current: Path, i: nat)
    requires t.Dir? && i < n <= |t.entries|
    ensures var e := t.entries[i];
            if e.key == FilesKey then FilesIn(current, KeysOrItems(e.value)) <= FilesOf(t, n, current)
            else
              current + [e.key] in DirsOf(t, n, current) &&
              (e.value.Files? ==> FilesIn(current + [e.key], e.value.names) <= FilesOf(t, n, current)) &&
              (e.value.Dir? ==>
                 DirsOf(e.value, |e.value.entries|, current + [e.key]) <= DirsOf(t, n, current) &&
                 FilesOf(e.value, |e.value.entries|, current + [e.key]) <= FilesOf(t, n, current))
    decreases n
  {
    if i < n - 1 {
      EntryPlacement(t, n - 1, current, i);
    }
  }

  /** Every directory made lies strictly below current, and so does every file. */
  lemma {:induction false} CreatedBelow(t: Tree, n: nat, current: Path)
    requires t.Dir? && n <= |t.entries|
    ensures forall p :: p in DirsOf(t, n, current) ==> |p| > |current| && p[..|current|] == current
    ensures forall p :: p in FilesOf(t, n, current) ==> |p| > |current| && p[..|current|] == current
    decreases t, n
  {
    if n > 0 {
      CreatedBelow(t, n - 1, current);
      var e := t.entries[n - 1];
      var sub := current + [e.key];
      if e.key != FilesKey && e.value.Dir? {
        CreatedBelow(e.value, |e.value.entries|, sub);
        forall p | p in DirsOf(e.value, |e.value.entries|, sub) + FilesOf(e.value, |e.value.entries|, sub)
          ensures |p| > |current| && p[..|current|] == current
        {
          assert p[..|sub|] == sub;
          assert p[..|current|] == sub[..|current|];
        }
      }
    }
  }

  /** The content a newly created file receives, chosen by its name and the
      name of its parent directory. */
  function InitialFile(name: string, parent: string): Content {
    if name == "main.dart" then Boilerplate(MainDart)
    else if name == "pubspec.yaml" then Boilerplate(Pubspec(parent))
    else if name == "README.md" then Boilerplate(Readme(parent))
    else if name == ".gitignore" then Boilerplate(GitIgnore)
    else if name == "analysis_options.yaml" then Boilerplate(AnalysisOptions)
    else if EndsWith(name, ".dart") then Plain(DartFileTemplate(name))
    else Plain("// " + name + "\n")
  }

  const SpecialFiles: set<string> :=
    {"main.dart", "pubspec.yaml", "README.md", ".gitignore", "analysis_options.yaml"}

  /** The content _create_initial_file writes at path p. */
  function InitialContent(p: Path): Content {
    InitialFile(if |p| > 0 then p[|p| - 1] else "", if |p| > 1 then p[|p| - 2] else "")
  }

  /** The stub of a Dart file. */
  function DartFileTemplate(filename: string): string {
    DartFileHead(filename) + DartClassLine(FilenameToClassName(filename)) + "\n  // Add your code here\n}\n"
  }

  function DartFileHead(filename: string): string {
    DartFirstLine(filename) + ("\n/// TODO: Implement " + FilenameToClassName(filename) + "\n")
  }

  function DartFirstLine(filename: string): string {
    "// " + filename + "\n"
  }

  function DartClassLine(cls: string): string {
    "class " + cls + " {"
  }

  /** What a new file receives: the five project files their templates (the
      pubspec and README named after the parent directory) and any file that
      is neither one of them nor a Dart file a one-line comment naming it. */
  lemma InitialFileKinds(name: string, parent: string)
    ensures name == "pubspec.yaml" ==> InitialFile(name, parent) == Boilerplate(Pubspec(parent))
    ensures name == "README.md" ==> InitialFile(name, parent) == Boilerplate(Readme(parent))
    ensures name in SpecialFiles ==> InitialFile(name, parent).Boilerplate?
    ensures name !in SpecialFiles && !EndsWith(name, ".dart") ==> InitialFile(name, parent) == Plain("// " + name + "\n")
    ensures name !in SpecialFiles && EndsWith(name, ".dart") ==> InitialFile(name, parent) == Plain(DartFileTemplate(name))
  {
  }

  /** The stub of any other Dart file starts by naming the file and declares
      an empty class named after it. */
  lemma DartStubShape(name: string)
    ensures var r := DartFileTemplate(name);
            && |r| >= |name| + 4 && r[..|name| + 4] == "// " + name + "\n"
            && Contains(r, "class " + FilenameToClassName(name) + " {")
            && '_' !in FilenameToClassName(name)
  {
    var head := DartFileHead(name);
    var decl := DartClassLine(FilenameToClassName(name));
    var rest := decl + "\n  // Add your code here\n}\n";
    assert DartFileTemplate(name) == head + rest;
    DartHeadNamesFile(name);
    IsAtBefore(head, rest, 0, "// " + name + "\n");
    assert IsAt(decl, 0, decl);
    IsAtBefore(decl, "\n  // Add your code here\n}\n", 0, decl);
    IsAtAfter(head, rest, 0, decl);
  }

  /** The stub's first line names the file. */
  lemma DartHeadNamesFile(name: string)
    ensures IsAt(DartFileHead(name), 0, "// " + name + "\n")
  {
    var first := DartFirstLine(name);
    assert IsAt(first, 0, first);
    IsAtBefore(first, "\n/// TODO: Implement " + FilenameToClassName(name) + "\n", 0, first);
  }

  /** The lines of the pubspec.yaml template for a project (the text ends with
      a newline, hence the final empty line). */
  function PubspecLines(project: string): seq<string> {
    ["name: " + project] + PubspecBody
  }

  /** The template lines after the name line. */
  const PubspecBody: seq<string> :=
    [ "description:" + " A Flutter application built with OneDayApp.",
      "publish_to: 'none'",
      "version: 1.0.0+1",
      "",
      "environment:",
      "  sdk: '>=3.0.0 <4.0.0'",
      "",
      "dependencies:",
      "  flutter:",
      "    sdk: flutter",
      "  cupertino_icons: ^1.0.2",
      "",
      "dev_dependencies:",
      "  flutter_test:",
      "    sdk: flutter",
      "  flutter_lints: ^2.0.0",
      "",
      "flutter:",
      "  uses-material-design: true",
      "  ",
      "  # assets:",
      "  #   - assets/images/",
      "  ",
      "  # fonts:",
      "  #   - family: Roboto",
      "  #     fonts:",
      "  #       - asset: " + "assets/fonts/Roboto-Regular.ttf",
      "" ]

  /** The text of the pubspec.yaml template. */
  function PubspecText(project: string): string {
    Join("\n", PubspecLines(project))
  }

  /** path.read_text() for the files whose text this model knows: computed
      text, and the pubspec template. */
  function FileText(c: Content): Option<string> {
    match c
    case Plain(text) => Some(text)
    case Boilerplate(Pubspec(project)) => Some(PubspecText(project))
    case Boilerplate(_) => None
  }

  /** The files after creating each of ps that does not exist yet: existing
      files are never overwritten. */
  function Fill(files: map<Path, Content>, ps: set<Path>): (r: map<Path, Content>)
    ensures r.Keys == files.Keys + ps
    ensures forall p :: p in files ==> r[p] == files[p]
    ensures forall p :: p in ps && p !in files ==> r[p] == InitialContent(p)
  {
    map p | p in files.Keys + ps :: if p in files then files[p] else InitialContent(p)
  }

  lemma FillTwice(files: map<Path, Content>, a: set<Path>, b: set<Path>)
    ensures Fill(Fill(files, a), b) == Fill(files, a + b)
  {
  }

  /** Creating one file that does not exist yet is filling it in. */
  lemma FillOne(files: map<Path, Content>, p: Path)
    requires p !in files
    ensures files[p := InitialContent(p)] == Fill(files, {p})
  {
  }

  lemma FillNothing(files: map<Path, Content>, p: Path)
    requires p in files
    ensures files == Fill(files, {p})
  {
  }

  lemma FilesInStep(dir: Path, names: seq<string>, i: nat)
    requires i < |names|
    ensures FilesIn(dir, names[..i + 1]) == FilesIn(dir, names[..i]) + {dir + [names[i]]}
  {
    assert names[..i + 1] == names[..i] + [names[i]];
  }

  /** `for filename in names: if not (dir / filename).exists(): create it` */
  method CreateFiles(disk: Disk, dir: Path, names: seq<string>)
    requires DirExists(disk.dirs, dir)
    modifies disk
    ensures disk.dirs == old(disk.dirs)
    ensures disk.files == Fill(old(disk.files), FilesIn(dir, names))
  {
    ghost var start := disk.files;
    var i := 0;
    while i < |names|
      invariant 0 <= i <= |names|
      invariant disk.dirs == old(disk.dirs)
      invariant disk.files == Fill(start, FilesIn(dir, names[..i]))
    {
      var p := dir + [names[i]];
      CreateOneFile(disk, dir, p);
      FilesInStep(dir, names, i);
      FillTwice(start, FilesIn(dir, names[..i]), {p});
      i := i + 1;
    }
    assert names[..i] == names;
  }

  /** `if not filepath.exists(): self._create_initial_file(filepath)` */
  method CreateOneFile(disk: Disk, dir: Path, p: Path)
    requires DirExists(disk.dirs, dir) && |p| > 0 && p[..|p| - 1] == dir
    modifies disk
    ensures disk.dirs == old(disk.dirs)
    ensures disk.files == Fill(old(disk.files), {p})
  {
    if !disk.IsFile(p) {
      var ok := disk.WriteText(p, InitialContent(p));
      FillOne(old(disk.files), p);
    } else {
      FillNothing(disk.files, p);
    }
  }

  /** The directories one entry of t adds, once the entries before it are done. */
  function EntryDirs(t: Tree, i: nat, current: Path): set<Path>
    requires t.Dir? && i < |t.entries|
  {
    var e := t.entries[i];
    if e.key == FilesKey then {}
    else if e.value.Dir? then {current + [e.key]} + DirsOf(e.value, |e.value.entries|, current + [e.key])
    else {current + [e.key]}
  }

  /** The files one entry of t adds, once the entries before it are done. */
  function EntryFiles(t: Tree, i: nat, current: Path): set<Path>
    requires t.Dir? && i < |t.entries|
  {
    var e := t.entries[i];
    if e.key == FilesKey then FilesIn(current, KeysOrItems(e.value))
    else if e.value.Dir? then FilesOf(e.value, |e.value.entries|, current + [e.key])
    else FilesIn(current + [e.key], e.value.names)
  }

  lemma DirsOfStep(t: Tree, i: nat, current: Path)
    requires t.Dir? && i < |t.entries|
    ensures DirsOf(t, i + 1, current) == DirsOf(t, i, current) + EntryDirs(t, i, current)
    ensures FilesOf(t, i + 1, current) == FilesOf(t, i, current) + EntryFiles(t, i, current)
  {
  }

  lemma UnionStep<T>(base: set<T>, before: set<T>, added: set<T>, after: set<T>)
    requires after == before + added
    ensures base + before + added == base + after
  {
  }

  /** One pass of the loop in _create_recursive: the entry at index i. */
  method CreateEntry(disk: Disk, t: Tree, i: nat, current: Path)
    requires t.Dir? && i < |t.entries| && DirExists(disk.dirs, current)
    modifies disk
    ensures disk.dirs == old(disk.dirs) + EntryDirs(t, i, current)
    ensures disk.files == Fill(old(disk.files), EntryFiles(t, i, current))
    decreases t, 0
  {
    var e := t.entries[i];
    if e.key == FilesKey {
      CreateFiles(disk, current, KeysOrItems(e.value));
    } else {
      var dir := current + [e.key];
      assert dir[..|dir| - 1] == current;
      var ok := disk.Mkdir(dir);
      if e.value.Dir? {
        CreateRecursive(disk, e.value, dir);
      } else {
        CreateFiles(disk, dir, e.value.names);
      }
    }
  }

  /** _create_recursive(structure, current_path) */
  method CreateRecursive(disk: Disk, t: Tree, current: Path)
    requires t.Dir? && DirExists(disk.dirs, current)
    modifies disk
    ensures disk.dirs == old(disk.dirs) + DirsOf(t, |t.entries|, current)
    ensures disk.files == Fill(old(disk.files), FilesOf(t, |t.entries|, current))
    decreases t, 1
  {
    var i := 0;
    while i < |t.entries|
      invariant 0 <= i <= |t.entries|
      invariant disk.dirs == old(disk.dirs) + DirsOf(t, i, current)
      invariant disk.files == Fill(old(disk.files), FilesOf(t, i, current))
    {
      CreateEntry(disk, t, i, current);
      DirsOfStep(t, i, current);
      UnionStep(old(disk.dirs), DirsOf(t, i, current), EntryDirs(t, i, current), DirsOf(t, i + 1, current));
      FillTwice(old(disk.files), FilesOf(t, i, current), EntryFiles(t, i, current));
      i := i + 1;
    }
  }

  /** create_folders(structure, base_path): make base_path with its parents,
      then the structure inside it. */
  method CreateFolders(disk: Disk, t: Tree, base: Path)
    requires t.Dir?
    modifies disk
    ensures disk.dirs == old(disk.dirs) + Ancestry(base) + DirsOf(t, |t.entries|, base)
    ensures disk.files == Fill(old(disk.files), FilesOf(t, |t.entries|, base))
  {
    disk.MakeDirs(base);
    CreateRecursive(disk, t, base);
  }

  /** Inside lib: the screens, models and constants folders, each file in its
      folder, and main.dart in lib itself. */
  lemma LibPlacement(screens: seq<string>, models: seq<string>, lib: Path)
    ensures var t := LibTree(screens, models);
            && lib + ["screens"] in DirsOf(t, |t.entries|, lib)
            && lib + ["models"] in DirsOf(t, |t.entries|, lib)
            && lib + ["constants"] in DirsOf(t, |t.entries|, lib)
            && lib + ["main.dart"] in FilesOf(t, |t.entries|, lib)
            && lib + ["constants", "colors.dart"] in FilesOf(t, |t.entries|, lib)
            && (forall s :: s in screens ==> lib + ["screens", s] in FilesOf(t, |t.entries|, lib))
            && (forall m :: m in models ==> lib + ["models", m] in FilesOf(t, |t.entries|, lib))
  {
    var t := LibTree(screens, models);
    EntryPlacement(t, |t.entries|, lib, 0);
    EntryPlacement(t, |t.entries|, lib, 1);
    EntryPlacement(t, |t.entries|, lib, 5);
    EntryPlacement(t, |t.entries|, lib, 6);
    assert lib + ["main.dart"] in FilesIn(lib, KeysOrItems(t.entries[6].value));
    assert lib + ["constants", "colors.dart"] == (lib + ["constants"]) + ["colors.dart"];
    forall s | s in screens ensures lib + ["screens", s] in FilesOf(t, |t.entries|, lib) {
      assert lib + ["screens", s] == (lib + ["screens"]) + [s];
    }
    forall m | m in models ensures lib + ["models", m] in FilesOf(t, |t.entries|, lib) {
      assert lib + ["models", m] == (lib + ["models"]) + [m];
    }
  }

  /** Where the generated skeleton lands under base: the app directory, lib
      with its screens, models and constants, main.dart inside lib, the
      project files (pubspec.yaml among them) directly in the app directory,
      and every screen and model file in its folder. */
  lemma SkeletonPlacement(app: string, screens: seq<string>, models: seq<string>, base: Path)
    requires app != FilesKey
    ensures var t := Skeleton(app, screens, models);
            var root := base + [app];
            var lib := root + ["lib"];
            && root in DirsOf(t, 1, base)
            && lib in DirsOf(t, 1, base)
            && lib + ["screens"] in DirsOf(t, 1, base)
            && lib + ["models"] in DirsOf(t, 1, base)
            && lib + ["constants"] in DirsOf(t, 1, base)
            && lib + ["main.dart"] in FilesOf(t, 1, base)
            && root + ["pubspec.yaml"] in FilesOf(t, 1, base)
            && lib + ["constants", "colors.dart"] in FilesOf(t, 1, base)
            && (forall s :: s in screens ==> lib + ["screens", s] in FilesOf(t, 1, base))
            && (forall m :: m in models ==> lib + ["models", m] in FilesOf(t, 1, base))
  {
    var t := Skeleton(app, screens, models);
    EntryPlacement(t, 1, base, 0);
    AppPlacement(screens, models, base + [app]);
    PubspecFilePlacement(screens, models, base + [app]);
  }

  /** Inside the app directory: lib and its folders. */
  lemma AppPlacement(screens: seq<string>, models: seq<string>, root: Path)
    ensures var t := AppTree(screens, models);
            var lib := root + ["lib"];
            && lib in DirsOf(t, |t.entries|, root)
            && lib + ["screens"] in DirsOf(t, |t.entries|, root)
            && lib + ["models"] in DirsOf(t, |t.entries|, root)
            && lib + ["constants"] in DirsOf(t, |t.entries|, root)
            && lib + ["main.dart"] in FilesOf(t, |t.entries|, root)
            && lib + ["constants", "colors.dart"] in FilesOf(t, |t.entries|, root)
            && (forall s :: s in screens ==> lib + ["screens", s] in FilesOf(t, |t.entries|, root))
            && (forall m :: m in models ==> lib + ["models", m] in FilesOf(t, |t.entries|, root))
  {
    var t := AppTree(screens, models);
    EntryPlacement(t, |t.entries|, root, 0);
    LibPlacement(screens, models, root + ["lib"]);
  }

  /** pubspec.yaml lands directly in the app directory. */
  lemma PubspecFilePlacement(screens: seq<string>, models: seq<string>, root: Path)
    ensures var t := AppTree(screens, models);
            root + ["pubspec.yaml"] in FilesOf(t, |t.entries|, root)
  {
    var t := AppTree(screens, models);
    EntryPlacement(t, |t.entries|, root, 5);
    assert root + ["pubspec.yaml"] in FilesIn(root, KeysOrItems(t.entries[5].value));
  }
}
