/** The pure helpers of the OneDayApp workflow: the idea prompt, the parsing of
    the LLM's JSON replies with their fixed fallbacks, the text shown for a
    specification and for a folder structure, and where the workflow places
    the generated skeleton. */
module OneDayApp {
  import opened Wrappers
  import opened Text
  import opened Json
  import opened FileSystem
  import opened FolderStructure
  import opened AppGenerator

  // ---------------------------------------------------------------------------
  // _build_idea_prompt

  /** The fixed request for an app idea, with the JSON shape of the answer. */
  const IdeaPromptBase: string :=
    "Generate a creative and practical mobile app idea for a Flutter application.\n\n" +
    "The app should be:\n" +
    "- Feasible to build in one day with proper planning\n" +
    "- Useful and solve a real problem\n" +
    "- Have clear target users\n" +
    "- Include 3-5 key features\n\n" +
    "Provide your response in JSON format with the following structure:\n" +
    "{\n" +
    "    \"name\": \"App Name\",\n" +
    "    \"description\": \"Brief description of the app\",\n" +
    "    \"target_users\": \"Who will use this app\",\n" +
    "    \"features\": [\"Feature 1\", \"Feature 2\", \"Feature 3\"],\n" +
    "    \"problem_solved\": \"What problem does this app solve\"\n" +
    "}\n"

  const ContextLabel := "\nUser context: "

  /** The idea prompt: the base prompt, followed by the user's context when
      there is one. */
  function BuildIdeaPrompt(context: string): (r: string)
    ensures IdeaPromptBase <= r
    ensures context == "" ==> r == IdeaPromptBase
    ensures context != "" ==> |r| == |IdeaPromptBase| + |ContextLabel| + |context|
  {
    if context != "" then IdeaPromptBase + ContextLabel + context else IdeaPromptBase
  }

  /** The context can be read back from the prompt: it is the text after the
      base prompt and the label, so different contexts give different prompts. */
  lemma IdeaPromptCarriesContext(c1: string, c2: string)
    ensures c1 != "" ==> BuildIdeaPrompt(c1)[|IdeaPromptBase| + |ContextLabel|..] == c1
    ensures BuildIdeaPrompt(c1) == BuildIdeaPrompt(c2) ==> c1 == c2
  {
    var n := |IdeaPromptBase| + |ContextLabel|;
    if c1 != "" {
      assert BuildIdeaPrompt(c1)[n..] == c1;
    }
    if c2 != "" {
      assert BuildIdeaPrompt(c2)[n..] == c2;
    }
  }

  // ---------------------------------------------------------------------------
  // _parse_idea_response and _parse_specification_response

  lemma IsAtChar(s: string, k: int, c: char)
    ensures IsAt(s, k, [c]) <==> 0 <= k < |s| && s[k] == c
  {
    if 0 <= k < |s| {
      assert s[k..k + 1] == [s[k]];
    }
  }

  /** response[find('{') : rfind('}') + 1], taken only when there is a '{'
      and the end lies past the start: the span from the first '{' to the
      last '}'. */
  function BraceSlice(response: string): Option<string> {
    var start := Find(response, "{");
    var end := RFind(response, "}") + 1;
    if start != -1 && end > start then Some(response[start..end]) else None
  }

  /** The slice runs from the first '{' to the last '}', so it begins with
      '{' and ends with '}'; there is none exactly when no '}' follows a '{'. */
  lemma BraceSliceSpan(response: string)
    ensures var r := BraceSlice(response);
            r.Some? ==>
              exists i, j :: 0 <= i < j < |response| && r.value == response[i..j + 1]
                && response[i] == '{' && response[j] == '}'
                && (forall k :: 0 <= k < i ==> response[k] != '{')
                && (forall k :: j < k < |response| ==> response[k] != '}')
    ensures var r := BraceSlice(response);
            r.Some? ==> 2 <= |r.value| && r.value[0] == '{' && r.value[|r.value| - 1] == '}'
    ensures BraceSlice(response).None? <==>
              forall i, j :: (0 <= i < |response| && 0 <= j < |response| && response[i] == '{'
                              && response[j] == '}') ==> j < i
  {
    var start := Find(response, "{");
    var last := RFind(response, "}");
    BraceSliceFacts(response, start, last);
    if BraceSlice(response).Some? {
      var v := BraceSlice(response).value;
      assert v == response[start..last + 1];
      assert v[0] == response[start] && v[|v| - 1] == response[last];
    }
  }

  lemma BraceSliceFacts(response: string, start: int, last: int)
    requires start == Find(response, "{") && last == RFind(response, "}")
    ensures start != -1 ==> 0 <= start < |response| && response[start] == '{'
                            && forall k :: 0 <= k < start ==> response[k] != '{'
    ensures start == -1 ==> forall k :: 0 <= k < |response| ==> response[k] != '{'
    ensures last != -1 ==> 0 <= last < |response| && response[last] == '}'
                           && forall k :: last < k < |response| ==> response[k] != '}'
    ensures last == -1 ==> forall k :: 0 <= k < |response| ==> response[k] != '}'
    ensures start != -1 && last + 1 > start ==> start < last
  {
    IsAtChar(response, start, '{');
    IsAtChar(response, last, '}');
    forall k | 0 <= k < |response| && (start == -1 || k < start)
      ensures response[k] != '{'
    {
      IsAtChar(response, k, '{');
    }
    forall k | 0 <= k < |response| && last < k
      ensures response[k] != '}'
    {
      IsAtChar(response, k, '}');
    }
  }

  /** json.loads applied where the parsers apply it: on the brace slice only.
      decode stands for json.loads on a text beginning with '{', which yields
      an object or raises (None). */
  function Decoded(response: string, decode: string -> Option<seq<Member>>): Option<seq<Member>> {
    match BraceSlice(response)
    case Some(t) => decode(t)
    case None => None
  }

  /** Whatever decode does on texts other than the brace slice never matters. */
  lemma DecodeSeesOnlyTheSlice(response: string, d1: string -> Option<seq<Member>>,
                               d2: string -> Option<seq<Member>>)
    requires BraceSlice(response).Some? ==> d1(BraceSlice(response).value) == d2(BraceSlice(response).value)
    ensures Decoded(response, d1) == Decoded(response, d2)
  {
  }

  /** A reply without '{' is never decoded. */
  lemma NoBraceNotDecoded(response: string, decode: string -> Option<seq<Member>>)
    requires '{' !in response
    ensures Decoded(response, decode).None?
  {
    BraceSliceSpan(response);
  }

  const DefaultName := "My Flutter App"
  const DescriptionLength: nat := 200

  /** The default idea: the reply's first 200 characters as description and
      three placeholder features. */
  function FallbackIdea(response: string): seq<Member> {
    [
      Member("name", JStr(DefaultName)),
      Member("description", JStr(response[..Min(DescriptionLength, |response|)])),
      Member("target_users", JStr("Mobile users")),
      Member("features", JArr([JStr("Feature 1"), JStr("Feature 2"), JStr("Feature 3")])),
      Member("problem_solved", JStr("Solves user needs"))
    ]
  }

  /** The default idea has every field the idea panel reads: the fixed name,
      at most the first 200 characters of the reply as description, and three
      placeholder features. */
  lemma FallbackIdeaFields(response: string)
    ensures var idea := FallbackIdea(response);
            && Get(idea, "name") == Some(JStr(DefaultName))
            && Get(idea, "description") == Some(JStr(response[..Min(DescriptionLength, |response|)]))
            && response[..Min(DescriptionLength, |response|)] <= response
            && |response[..Min(DescriptionLength, |response|)]| <= DescriptionLength
            && Get(idea, "target_users").Some? && Get(idea, "problem_solved").Some?
            && Get(idea, "features") == Some(JArr([JStr("Feature 1"), JStr("Feature 2"), JStr("Feature 3")]))
  {
    var idea := FallbackIdea(response);
    assert idea[4].key[0] == 'p' && idea[3].key[0] == 'f' && idea[2].key[0] == 't';
    assert idea[1].key[0] == 'd' && idea[0].key[0] == 'n';
  }

  /** _parse_idea_response: the decoded object, or the default idea when there
      is nothing to decode or decoding raises. */
  function ParseIdeaResponse(response: string, decode: string -> Option<seq<Member>>): seq<Member> {
    match Decoded(response, decode)
    case Some(members) => members
    case None => FallbackIdea(response)
  }

  /** A reply without '{' always gives the default idea. */
  lemma NoBraceIdeaIsDefault(response: string, decode: string -> Option<seq<Member>>)
    requires '{' !in response
    ensures ParseIdeaResponse(response, decode) == FallbackIdea(response)
  {
    NoBraceNotDecoded(response, decode);
  }

  /** A decoded object lacking every expected field is still returned as is:
      for a reply whose brace slice decodes to {}, the idea has no name. */
  lemma ParsedIdeaNotCompleted(response: string, decode: string -> Option<seq<Member>>)
    requires BraceSlice(response).Some? && decode(BraceSlice(response).value) == Some([])
    ensures !Has(ParseIdeaResponse(response, decode), "name")
  {
  }

  /** The default specification: the whole reply kept as its text. */
  function FallbackSpec(response: string, now: string): seq<Member> {
    [
      Member("app_name", JStr(DefaultName)),
      Member("specification", JStr(response)),
      Member("created_at", JStr(now))
    ]
  }

  /** The default specification keeps the whole reply as its text. */
  lemma FallbackSpecFields(response: string, now: string)
    ensures var spec := FallbackSpec(response, now);
            && Get(spec, "specification") == Some(JStr(response))
            && Get(spec, "app_name") == Some(JStr(DefaultName))
            && Get(spec, "created_at") == Some(JStr(now))
  {
    var spec := FallbackSpec(response, now);
    assert spec[0].key[0] == 'a' && spec[1].key[0] == 's' && spec[2].key[0] == 'c';
  }

  /** _parse_specification_response: the decoded object as decoded, the
      default specification otherwise; now is the timestamp it records. */
  function ParseSpecificationResponse(response: string, decode: string -> Option<seq<Member>>,
                                      now: string): seq<Member>
  {
    match Decoded(response, decode)
    case Some(members) => members
    case None => FallbackSpec(response, now)
  }

  // ---------------------------------------------------------------------------
  // _format_specification

  /** The specification as shown and saved to the .md file: its
      "specification" text when that is a string, its JSON dump otherwise.
      dumps stands for json.dumps(..., indent=2). */
  function FormatSpecification(spec: seq<Member>, dumps: Json -> string): string {
    match Get(spec, "specification")
    case Some(JStr(s)) => s
    case _ => dumps(JObj(spec))
  }

  /** A reply that is not decoded comes back unchanged from parsing and then
      formatting; in particular every reply without '{' does. */
  lemma SpecificationTextRoundTrip(response: string, decode: string -> Option<seq<Member>>,
                                   now: string, dumps: Json -> string)
    requires '{' !in response || Decoded(response, decode).None?
    ensures FormatSpecification(ParseSpecificationResponse(response, decode, now), dumps) == response
  {
    if '{' !in response {
      NoBraceNotDecoded(response, decode);
    }
    FallbackSpecFields(response, now);
  }

  /** Whenever "specification" is missing or not a string, the whole
      specification is dumped; the formatted text then does not depend on
      any string stored elsewhere in it. */
  lemma FormatDumpsNonText(spec: seq<Member>, dumps: Json -> string)
    ensures (forall s :: Get(spec, "specification") != Some(JStr(s))) ==>
              FormatSpecification(spec, dumps) == dumps(JObj(spec))
    ensures Get(spec, "specification").Some? && Get(spec, "specification").value.JStr? ==>
              FormatSpecification(spec, dumps) == Get(spec, "specification").value.s
  {
  }

  // ---------------------------------------------------------------------------
  // _format_folder_tree

  const FolderIcon := "\U{1F4C1} "
  const FileIcon := "\U{1F4C4} "

  /** "  " * n */
  function Indent(n: nat): (r: string)
    ensures |r| == 2 * n && forall i :: 0 <= i < |r| ==> r[i] == ' '
  {
    if n == 0 then "" else "  " + Indent(n - 1)
  }

  /** The line for a key whose value is a dict or a list. */
  function FolderLine(indent: nat, key: string): string {
    Indent(indent) + FolderIcon + key + "/"
  }

  /** The line for one item of a list. */
  function FileLine(indent: nat, item: string): string {
    Indent(indent) + "  " + FileIcon + item
  }

  /** The lines for a list: one per item, in order, each made of two spaces
      per level plus two, the file icon, and the item. */
  function FileLines(indent: nat, items: seq<string>): (r: seq<string>)
    ensures |r| == |items| && forall i :: 0 <= i < |items| ==> r[i] == FileLine(indent, items[i])
    ensures forall i :: 0 <= i < |items| ==> FileLineShaped(indent, items[i], r[i])
  {
    var r := seq(|items|, i requires 0 <= i < |items| => FileLine(indent, items[i]));
    assert forall i :: 0 <= i < |items| ==> FileLineShaped(indent, items[i], r[i]) by {
      forall i | 0 <= i < |items| ensures FileLineShaped(indent, items[i], r[i]) {
        FileLineShape(indent, items[i]);
      }
    }
    r
  }

  /** line shows item at the given depth: 2 * indent + 2 spaces, the file
      icon, then the item itself. */
  ghost predicate FileLineShaped(indent: nat, item: string, line: string) {
    var w := 2 * indent + 2;
    && |line| == w + |FileIcon| + |item|
    && (forall j :: 0 <= j < w ==> line[j] == ' ')
    && line[w..w + |FileIcon|] == FileIcon
    && line[w + |FileIcon|..] == item
  }

  lemma FileLineShape(indent: nat, item: string)
    ensures FileLineShaped(indent, item, FileLine(indent, item))
  {
    var line := FileLine(indent, item);
    var w := 2 * indent + 2;
    assert line == (Indent(indent) + "  ") + FileIcon + item;
    forall j | 0 <= j < w ensures line[j] == ' ' {
      if j < 2 * indent {
        assert line[j] == Indent(indent)[j];
      }
    }
  }

  /** The lines for one entry: a folder line for its key, then the nested
      dict's text as one element, or one line per list item. */
  function EntryLines(e: Entry, indent: nat): seq<string>
    decreases e, 0
  {
    [FolderLine(indent, e.key)] +
      if e.value.Dir? then [TreeText(e.value, indent + 1)] else FileLines(indent, e.value.names)
  }

  /** The lines for the first n entries of the dict t. */
  function TreeLines(t: Tree, n: nat, indent: nat): seq<string>
    requires t.Dir? && n <= |t.entries|
    decreases t, n
  {
    if n == 0 then [] else TreeLines(t, n - 1, indent) + EntryLines(t.entries[n - 1], indent)
  }

  /** The text of a structure shown at the given depth; a list alone (not a
      dict) shows nothing. */
  function TreeText(t: Tree, indent: nat): string
    decreases t, if t.Dir? then |t.entries| + 1 else 0
  {
    if t.Dir? then Join("\n", TreeLines(t, |t.entries|, indent)) else ""
  }

  /** _format_folder_tree(structure, indent) */
  method FormatFolderTree(t: Tree, indent: nat) returns (text: string)
    ensures text == TreeText(t, indent)
    decreases t
  {
    var lines: seq<string> := [];
    if t.Dir? {
      var prefix := Indent(indent);
      var i := 0;
      while i < |t.entries|
        invariant i <= |t.entries|
        invariant lines == TreeLines(t, i, indent)
      {
        lines := AppendEntry(lines, t.entries[i], indent, prefix);
        i := i + 1;
      }
    }
    text := Join("\n", lines);
  }

  /** One turn of the loop of _format_folder_tree: the lines for one entry
      appended. */
  method AppendEntry(lines: seq<string>, e: Entry, indent: nat, prefix: string) returns (lines': seq<string>)
    requires prefix == Indent(indent)
    ensures lines' == lines + EntryLines(e, indent)
    decreases e
  {
    lines' := lines + [prefix + FolderIcon + e.key + "/"];
    if e.value.Dir? {
      var sub := FormatFolderTree(e.value, indent + 1);
      lines' := lines' + [sub];
    } else {
      var j := 0;
      while j < |e.value.names|
        invariant j <= |e.value.names|
        invariant lines' == lines + [FolderLine(indent, e.key)] + FileLines(indent, e.value.names[..j])
      {
        lines' := lines' + [prefix + "  " + FileIcon + e.value.names[j]];
        j := j + 1;
      }
      assert e.value.names[..j] == e.value.names;
    }
  }

  /** Lines of earlier entries stay in place as more entries are shown. */
  lemma {:induction false} TreeLinesGrow(t: Tree, n: nat, m: nat, indent: nat)
    requires t.Dir? && n <= m <= |t.entries|
    ensures TreeLines(t, n, indent) <= TreeLines(t, m, indent)
    decreases m
  {
    if n < m {
      TreeLinesGrow(t, n, m - 1, indent);
    }
  }

  /** Every entry of a dict is shown: its key as a folder line, then either
      the nested dict's text or one line per list item. */
  lemma TreeShowsEntry(t: Tree, i: nat, indent: nat)
    requires t.Dir? && i < |t.entries|
    ensures var lines := TreeLines(t, |t.entries|, indent);
            var e := t.entries[i];
            && FolderLine(indent, e.key) in lines
            && (e.value.Dir? ==> TreeText(e.value, indent + 1) in lines)
            && (e.value.Files? ==> forall item :: item in e.value.names ==> FileLine(indent, item) in lines)
  {
    TreeLinesGrow(t, i + 1, |t.entries|, indent);
    var e := t.entries[i];
    var own := EntryLines(e, indent);
    assert TreeLines(t, i + 1, indent) == TreeLines(t, i, indent) + own;
    PartOfPrefix(TreeLines(t, i, indent), own, TreeLines(t, |t.entries|, indent));
    assert own[0] == FolderLine(indent, e.key);
    if e.value.Dir? {
      assert own[1] == TreeText(e.value, indent + 1);
    } else {
      forall item | item in e.value.names
        ensures FileLine(indent, item) in own
      {
        var k :| 0 <= k < |e.value.names| && e.value.names[k] == item;
        assert own[1 + k] == FileLine(indent, item);
      }
    }
  }

  lemma PartOfPrefix<T>(a: seq<T>, b: seq<T>, whole: seq<T>)
    requires a + b <= whole
    ensures forall x :: x in b ==> x in whole
  {
    forall x | x in b
      ensures x in whole
    {
      var k :| 0 <= k < |b| && b[k] == x;
      assert whole[|a| + k] == (a + b)[|a| + k];
    }
  }

  /** Text shown for a nested dict appears in the text of every enclosing dict. */
  lemma NestedTextShown(t: Tree, i: nat, indent: nat, pat: string)
    requires t.Dir? && i < |t.entries| && t.entries[i].value.Dir?
    requires Contains(TreeText(t.entries[i].value, indent + 1), pat)
    ensures Contains(TreeText(t, indent), pat)
  {
    TreeShowsEntry(t, i, indent);
    var lines := TreeLines(t, |t.entries|, indent);
    var k :| 0 <= k < |lines| && lines[k] == TreeText(t.entries[i].value, indent + 1);
    JoinKeepsOccurrence("\n", lines, k, pat);
  }

  /** Every key of a dict and every item of its lists is shown in its text. */
  lemma EntryShown(t: Tree, i: nat, indent: nat)
    requires t.Dir? && i < |t.entries|
    ensures Contains(TreeText(t, indent), FolderLine(indent, t.entries[i].key))
    ensures t.entries[i].value.Files? ==>
              forall item :: item in t.entries[i].value.names ==>
                Contains(TreeText(t, indent), FileLine(indent, item))
  {
    TreeShowsEntry(t, i, indent);
    var lines := TreeLines(t, |t.entries|, indent);
    var e := t.entries[i];
    LineShown(lines, FolderLine(indent, e.key));
    if e.value.Files? {
      forall item | item in e.value.names
        ensures Contains(TreeText(t, indent), FileLine(indent, item))
      {
        LineShown(lines, FileLine(indent, item));
      }
    }
  }

  lemma LineShown(lines: seq<string>, line: string)
    requires line in lines
    ensures Contains(Join("\n", lines), line)
  {
    var k :| 0 <= k < |lines| && lines[k] == line;
    assert IsAt(lines[k], 0, line);
    JoinKeepsOccurrence("\n", lines, k, line);
  }

  // ---------------------------------------------------------------------------
  // Where the workflow puts the skeleton

  /** The directory every artefact is saved in. */
  const OutputDir: Path := ["output"]

  /** output/<app>: the directory build_application generates the app in. */
  function AppDir(app: string): Path {
    OutputDir + [app]
  }

  /** The app names that escape the nesting of create_folder_structure:
      "lib" names the nested directory itself, and pathlib drops "" and "."
      from a path. */
  const EscapingNames: set<string> := {"lib", "", "."}

  /** The base create_folder_structure passes to create_folders, as written:
      output/<app>, although the structure's one top-level key is <app> too. */
  function CreationBaseAsWritten(app: string): Path {
    AppDir(app)
  }

  /** The base that puts the skeleton's app directory at output/<app>. */
  function CreationBase(app: string): Path {
    OutputDir
  }

  /** The directories after create_folders(structure, base). */
  function DirsAfterCreation(dirs: set<Path>, app: string, screens: seq<string>, models: seq<string>,
                             base: Path): set<Path>
  {
    dirs + Ancestry(base) + DirsOf(Skeleton(app, screens, models), 1, base)
  }

  /** As written, the skeleton lands one level too deep (output/<app>/<app>),
      so output/<app>/lib, where build_application writes main.dart, is not
      created unless the app is itself called "lib".  The names "" and ".",
      which pathlib drops from a path, are set aside. */
  lemma AsWrittenMainFileHasNoDirectory(dirs: set<Path>, app: string, screens: seq<string>,
                                        models: seq<string>)
    requires app !in EscapingNames && AppDir(app) + ["lib"] !in dirs
    ensures !ParentExists(DirsAfterCreation(dirs, app, screens, models, CreationBaseAsWritten(app)),
                          MainPath(AppDir(app)))
  {
    var base := CreationBaseAsWritten(app);
    var lib := AppDir(app) + ["lib"];
    assert MainPath(AppDir(app))[..|MainPath(AppDir(app))| - 1] == lib;
    assert lib !in Ancestry(base);
    assert lib != base + [app] by {
      assert lib[2] == "lib" && (base + [app])[2] == app;
    }
    SingleKeyDirs(app, AppTree(screens, models), base, lib);
  }

  /** A dict with one key creates, at depth one below current, only the
      directory named by that key. */
  lemma SingleKeyDirs(key: string, inner: Tree, current: Path, p: Path)
    requires inner.Dir? && |p| == |current| + 1 && p != current + [key]
    ensures p !in DirsOf(Dir([Entry(key, inner)]), 1, current)
  {
    var t := Dir([Entry(key, inner)]);
    var sub := current + [key];
    CreatedBelow(inner, |inner.entries|, sub);
    assert DirsOf(t, 0, current) == {};
  }

  /** With the output directory as base, output/<app>/lib is created, so
      main.dart can be written there. */
  lemma MainFileHasDirectory(dirs: set<Path>, app: string, screens: seq<string>, models: seq<string>)
    requires app != FilesKey
    ensures ParentExists(DirsAfterCreation(dirs, app, screens, models, CreationBase(app)),
                         MainPath(AppDir(app)))
  {
    SkeletonPlacement(app, screens, models, OutputDir);
    assert MainPath(AppDir(app))[..|MainPath(AppDir(app))| - 1] == OutputDir + [app] + ["lib"];
  }
}
