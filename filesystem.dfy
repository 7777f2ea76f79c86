/** The part of the file system the generator touches: directories and files
    under relative paths, with pathlib's mkdir / exists / write_text. */
module FileSystem {
  import opened Json

  /** A relative path as its components: ["output", "todo", "lib", "main.dart"]. */
  type Path = seq<string>

  /** The static templates whose fixed wording is not part of this model; each
      carries the values interpolated into it. */
  datatype Template =
    | MainDart
    | Pubspec(project: string)
    | Readme(project: string)
    | GitIgnore
    | AnalysisOptions
    | StringsDart(appName: Json, description: Json)
    | ThemesDart

  /** What a file holds: text the model computes, or a static template. */
  datatype Content = Plain(text: string) | Boilerplate(template: Template)

  /** A directory exists: the working directory (the empty path) always does. */
  predicate DirExists(dirs: set<Path>, d: Path) {
    d == [] || d in dirs
  }

  /** The directory that would hold p exists. */
  predicate ParentExists(dirs: set<Path>, p: Path) {
    |p| == 0 || DirExists(dirs, p[..|p| - 1])
  }

  /** p and every directory above it. */
  function Ancestry(p: Path): (r: set<Path>)
    ensures p != [] ==> p in r
    ensures forall q :: q in r ==> q != [] && q <= p
  {
    assert p[..|p|] == p;
    set i | 1 <= i <= |p| :: p[..i]
  }

  /** One file write: the path and what is written there. */
  datatype Write = Write(path: Path, content: Content)

  /** The files after a series of writes, in order: a later write to a path
      replaces an earlier one. */
  function ApplyWrites(files: map<Path, Content>, ws: seq<Write>): (r: map<Path, Content>)
    ensures r.Keys == files.Keys + set w | w in ws :: w.path
  {
    if |ws| == 0 then files
    else
      var last := ws[|ws| - 1];
      var before := ApplyWrites(files, ws[..|ws| - 1]);
      assert forall w :: w in ws <==> w in ws[..|ws| - 1] || w == last;
      before[last.path := last.content]
  }

  /** A path no write touches keeps its old content (or stays absent). */
  lemma {:induction false} ApplyWritesUntouched(files: map<Path, Content>, ws: seq<Write>, p: Path)
    requires forall i :: 0 <= i < |ws| ==> ws[i].path != p
    ensures p in ApplyWrites(files, ws) <==> p in files
    ensures p in files ==> ApplyWrites(files, ws)[p] == files[p]
  {
    if |ws| > 0 {
      ApplyWritesUntouched(files, ws[..|ws| - 1], p);
    }
  }

  /** A path holds what the last write to it put there. */
  lemma {:induction false} ApplyWritesLastWins(files: map<Path, Content>, ws: seq<Write>, i: nat)
    requires i < |ws|
    requires forall j :: i < j < |ws| ==> ws[j].path != ws[i].path
    ensures ws[i].path in ApplyWrites(files, ws)
    ensures ApplyWrites(files, ws)[ws[i].path] == ws[i].content
  {
    if i < |ws| - 1 {
      ApplyWritesLastWins(files, ws[..|ws| - 1], i);
    }
  }

  /** The disk: the set of directories and the contents of the files. */
  class Disk {
    var dirs: set<Path>
    var files: map<Path, Content>

    constructor (dirs0: set<Path>, files0: map<Path, Content>)
      ensures dirs == dirs0 && files == files0
    {
      dirs := dirs0;
      files := files0;
    }

    /** path.exists() for a file. */
    predicate IsFile(p: Path)
      reads this
    {
      p in files
    }

    /** path.mkdir(exist_ok=True): fails (FileNotFoundError) when the parent is missing. */
    method Mkdir(p: Path) returns (ok: bool)
      modifies this
      ensures ok == ParentExists(old(dirs), p)
      ensures dirs == if ok then old(dirs) + {p} else old(dirs)
      ensures files == old(files)
    {
      ok := ParentExists(dirs, p);
      if ok {
        dirs := dirs + {p};
      }
    }

    /** path.mkdir(parents=True, exist_ok=True): creates every missing ancestor. */
    method MakeDirs(p: Path)
      modifies this
      ensures dirs == old(dirs) + Ancestry(p)
      ensures files == old(files)
    {
      dirs := dirs + Ancestry(p);
    }

    /** path.write_text(text): fails (FileNotFoundError) when the parent is
        missing, otherwise creates or replaces the file. */
    method WriteText(p: Path, c: Content) returns (ok: bool)
      modifies this
      ensures ok == ParentExists(old(dirs), p)
      ensures files == if ok then old(files)[p := c] else old(files)
      ensures dirs == old(dirs)
    {
      ok := ParentExists(dirs, p);
      if ok {
        files := files[p := c];
      }
    }
  }
}
