# OneDayApp in Dafny

OneDayApp is a command-line workflow. It asks a language model for a
Flutter app idea, lets the user pick a design theme, and has the model write
a specification. The user may then revise the specification. From it the
workflow derives a folder tree and creates it on disk, and finally asks the
model for the Dart code of `main.dart`, of every screen and of every data
model. It also writes the constants files and adds the common packages to
`pubspec.yaml`. Each stage saves its result as JSON or Markdown in `output/`.

This project models that core. The modules follow the program:

- `Wrappers`, `Text`, `Json`: results, the string operations the Python code
  relies on (`find`, `rfind`, `split`, `join`, `strip`, `in`), and JSON values
  with `dict.get`, truthiness and slicing.
- `Names`: the one name-cleaning routine behind `_clean_name` and
  `_feature_to_screen_name`, and `_filename_to_classname`.
- `FileSystem`: a `Disk` class holding the set of directories and the map from
  paths to file contents. `mkdir` and `write_text` update it in place and fail
  when the parent directory is missing.
- `Llm`: a `Provider` class standing for `LLMProvider`. It answers from a script
  of replies and logs every request it receives.
- `FolderStructure`: `FolderStructureGenerator`. It covers the derived tree,
  its creation on the disk and the initial file contents.
- `AppGenerator`: `AppGenerator`. It covers code extraction, the per-item
  generation loops, the colour palette and the pubspec update.
- `OneDayApp`: the pure helpers of `OneDayAppWorkflow`. These are the idea
  prompt, the brace-slice JSON recovery with its fallbacks, the specification
  text and the folder-tree rendering.
- `Workflow`: the `OneDayAppWorkflow` object. It runs the six stages against
  the disk and the model, with the user's answers given as parameters.

## Model

| member | source | states |
|---|---|---|
| Text.Find | app_generator.py:263-272 | `find` returns an index where the pattern occurs and before which it does not occur, or -1 when it occurs nowhere |
| Text.RFind | app_generator.py:264-271 | `rfind` returns an index where the pattern occurs and after which it does not occur, or -1 when it occurs nowhere |
| Text.Strip | app_generator.py:274 | `strip` yields a text no longer than its input, with no whitespace at either end; it is empty exactly when the input is all whitespace |
| Text.StripIsTrim | app_generator.py:274 | the result of `strip` is the input with only leading and trailing whitespace cut off: a slice `s[i..j]` with nothing but whitespace before `i` and after `j` |
| Text.JoinSplit | app_generator.py:247-257 | joining the pieces of `split('\n')` with the newline gives back the original text |
| Text.SplitJoin | app_generator.py:247-257 | splitting lines joined with a character none of them holds gives the lines back |
| Json.Get | oneday_app.py:221 | `dict.get` is None exactly when no member has the key; otherwise it returns the value of a member with that key |
| Json.FirstItems | folder_structure.py:59-70 | `[:5]` of a list keeps at most the first five items; of a string it keeps at most five characters; on any other value it fails |
| Names.CleanNameShape | app_generator.py:283-288 | a cleaned name is lower-case words of letters and digits joined by single underscores. It contains no whitespace, and without its underscores it is exactly the alphanumeric characters of the lower-cased input |
| Names.CleanNameNotIdempotent | folder_structure.py:132-137 | cleaning is not idempotent: "a b" becomes "a_b", and cleaning that again gives "ab" |
| Names.FilenameToClassName | folder_structure.py:398-402 | the class name is the file name without ".dart" read one character at a time (`CamelCase`): underscores dropped, the first character and each one after an underscore upper-cased, every other character lower-cased |
| Names.CapitalizedJoin | folder_structure.py:401-402 | the joined text has the length of the parts together; the first character of each part is upper-cased and every other character lower-cased, in place; no underscore is added |
| Names.CamelCaseSplit | folder_structure.py:398-402 | splitting on '_' and capitalising the parts is the same as the character-wise casing `CamelCase` |
| FileSystem.Ancestry | folder_structure.py:76 | `mkdir(parents=True)` creates the path itself and only directories above it |
| FileSystem.ApplyWrites | app_generator.py:67-120 | after a series of writes, the files are the old ones plus every written path |
| FileSystem.ApplyWritesUntouched | app_generator.py:67-120 | a path no write touches keeps its old content or stays absent |
| FileSystem.ApplyWritesLastWins | app_generator.py:67-120 | the last write to a path decides its content |
| FileSystem.Disk.constructor | oneday_app.py:36-38 | a disk starts with the given directories and files |
| FileSystem.Disk.Mkdir | folder_structure.py:91 | `mkdir(exist_ok=True)` succeeds exactly when the parent exists, adds only that directory and leaves the files alone |
| FileSystem.Disk.MakeDirs | app_generator.py:65 | `mkdir(parents=True, exist_ok=True)` adds the path and every directory above it and leaves the files alone |
| FileSystem.Disk.WriteText | app_generator.py:59 | `write_text` succeeds exactly when the parent directory exists, and then replaces only that file |
| Llm.Provider.constructor | llm_provider.py:17-20 | a fresh provider has sent no request and holds the whole reply script |
| Llm.Provider.Generate | llm_provider.py:55-62 | every call logs its prompt and token budget and consumes one reply; a missing reply is a failed call |
| FolderStructure.AppDirName | folder_structure.py:16 | the app directory name exists exactly when `app_name` (default "my_flutter_app") is text; it has the same length and contains no space and no upper-case letter |
| FolderStructure.AppDirNameDefaultAndStable | folder_structure.py:16 | a spec without `app_name` gets "my_flutter_app", and the name is unchanged when derived again from itself |
| FolderStructure.ListedNames | folder_structure.py:59-70 | names are produced exactly when every listed item is text, one name per item; each ends with the suffix, and the part before it is a well-formed underscore-joined name with no whitespace |
| FolderStructure.NamesFor | folder_structure.py:60-63 | the loop over the listed items computes `ListedNames` |
| FolderStructure.PlanNames | folder_structure.py:59-70 | the screens and models loops compute `PlannedNames` |
| FolderStructure.Generate | folder_structure.py:14-72 | `generate` builds the tree `Structure` describes, failing where the Python code raises |
| FolderStructure.StructureShape | folder_structure.py:14-72 | the tree exists exactly when the spec is an object whose app name and both lists can be read. It then has one top-level directory, named after the app, holding the app tree for the planned screens and models |
| FolderStructure.AppTreeFixed | folder_structure.py:18-56 | apart from the model and screen lists, the first two entries of `lib`, the app tree does not depend on the specification |
| FolderStructure.PlannedNamesContents | folder_structure.py:59-70 | a missing list gives no files; at most five files are planned; a list plans one file per item of its first five |
| FolderStructure.KeysOrItems | folder_structure.py:84-85 | `for filename in value` visits the entry names of a folder in order, or the names of a file list |
| FolderStructure.EntryPlacement | folder_structure.py:79-101 | each entry of a directory lands directly below the current path, as a directory or as the files it lists |
| FolderStructure.CreatedBelow | folder_structure.py:79-101 | everything the recursion creates lies strictly below the path it started at |
| FolderStructure.InitialFileKinds | folder_structure.py:103-122 | pubspec.yaml and README.md get their templates for the parent directory, and the other special files get boilerplate. Other `.dart` files get the Dart stub; any remaining file gets a one-line comment naming it |
| FolderStructure.DartStubShape | folder_structure.py:387-396 | the Dart stub opens with a comment naming the file and declares a class whose name has no underscore |
| FolderStructure.Fill | folder_structure.py:84-101 | creating files adds exactly the missing paths with their initial content and never overwrites an existing file |
| FolderStructure.FillTwice | folder_structure.py:84-101 | creating two groups of files one after the other equals creating them together |
| FolderStructure.CreateFiles | folder_structure.py:98-101 | the loop over a file list fills exactly those files of the directory and creates no directory |
| FolderStructure.CreateEntry | folder_structure.py:80-101 | one entry adds exactly its directories and fills exactly its files |
| FolderStructure.CreateRecursive | folder_structure.py:79-101 | `_create_recursive` adds exactly the tree's directories and fills exactly its files |
| FolderStructure.CreateFolders | folder_structure.py:74-77 | `create_folders` creates the base with its ancestors and then the whole tree below it |
| FolderStructure.LibPlacement | folder_structure.py:18-56 | `lib` receives the screens, models and constants directories, main.dart and colors.dart, and every screen and model file in its folder |
| FolderStructure.SkeletonPlacement | folder_structure.py:18-56 | created at a base, the skeleton puts the app directory at base/<app>, with pubspec.yaml in it and `lib` holding main.dart, the constants and every screen and model file |
| FolderStructure.AppPlacement | folder_structure.py:18-56 | the app tree places `lib` below its root, with main.dart, the constants and every screen and model file in their folders |
| FolderStructure.PubspecFilePlacement | folder_structure.py:18-56 | pubspec.yaml is one of the files the app tree creates at its root |
| AppGenerator.DartFenceIsFence | app_generator.py:263-272 | every "```dart" is also a "```", which is why the Dart branch is tried first |
| AppGenerator.ExtractCodeUnfenced | app_generator.py:260-274 | a reply without a fence only loses its surrounding whitespace |
| AppGenerator.ExtractCodeOfDartBlock | app_generator.py:263-267 | a reply with one ```dart block yields the stripped code between the fences |
| AppGenerator.ExtractCodeOfPlainBlock | app_generator.py:268-272 | a reply with one plain block yields the stripped code between the fences |
| AppGenerator.ExtractCodeUnopened | app_generator.py:262-274 | when the last fence does not lie after the end of the opening one, the whole reply comes back stripped |
| AppGenerator.ExtractCodeSingleFence | app_generator.py:262-274 | a reply with exactly one "```" comes back stripped, fence included |
| AppGenerator.ExtractCodeEmptyBlock | app_generator.py:263-267 | an empty ```dart``` block is not unwrapped: the reply comes back whole |
| AppGenerator.HexValues | app_generator.py:148-152 | the colour digits exist exactly when every setting is text, one per role, each with its '#' removed |
| AppGenerator.PaletteValues | app_generator.py:140-152 | a readable palette has one hex value per role, none holding '#' |
| AppGenerator.ColorsFileDeclaresPalette | app_generator.py:140-159 | colors.dart declares one constant per palette role, holding the theme's colour for that role |
| AppGenerator.PaletteDefaultApplies | app_generator.py:148-152 | a role missing from the theme gets its default colour |
| AppGenerator.MissingDepsMember | app_generator.py:252-254 | a dependency is added exactly when its package name does not occur anywhere in the pubspec |
| AppGenerator.PubspecUpdateLines | app_generator.py:246-257 | the updated pubspec is the old lines with the missing dependency block inserted at header index plus offset |
| AppGenerator.PubspecUnchangedWhenComplete | app_generator.py:246-258 | when nothing is missing, the text comes back unchanged |
| AppGenerator.PubspecMentionsAll | app_generator.py:246-258 | after the update, the header and every dependency's package name occur in the text |
| AppGenerator.PubspecIdempotent | app_generator.py:230-258 | updating twice gives the same text as updating once |
| AppGenerator.UpdatedPubspecAddsCommonDeps | app_generator.py:230-258 | for the program's update (block two lines below the header) and the corrected one alike: the update happens exactly when a dependencies section exists; it then mentions http and provider, and a second update changes nothing |
| AppGenerator.UpdatedPubspecAsWritten | app_generator.py:246-257 | the text is rewritten exactly when a line mentions "dependencies:"; the block goes two lines below that line |
| AppGenerator.UpdatedPubspec | app_generator.py:246-257 | corrected half of a finding: rewritten exactly when a line mentions "dependencies:", with the block directly below that line |
| AppGenerator.AsWrittenSplitsFlutterEntry | app_generator.py:250-251 | on the generated pubspec (folder_structure.py:222-224) that lacks a common dependency, the program's update puts the first added line between "  flutter:" and "    sdk: flutter" |
| AppGenerator.UpdatedPubspecKeepsFlutterEntry | app_generator.py:250-251 | on the generated pubspec, the corrected update keeps "dependencies:" in place, puts every missing dependency directly below it in order, and keeps "  flutter:" followed by "    sdk: flutter" right after the block |
| AppGenerator.InsertMissing | app_generator.py:251-255 | the insertion loop yields the lines with the missing dependencies inserted, in order, as one block |
| AppGenerator.UpdatePubspec | app_generator.py:230-258 | `_update_pubspec` rewrites only the pubspec, and only when it exists and has a dependencies section; the missing common dependencies go in two lines below the dependencies line |
| AppGenerator.CodeRunSucceeds | app_generator.py:67-120 | a screens or models loop succeeds exactly when every item is text and every one of its calls gets a reply |
| AppGenerator.CodeRunCounts | app_generator.py:67-120 | a loop sends at most one request per item; a success answers every item, a failed call is the one unanswered request, and a non-text item stops it before its request |
| AppGenerator.CodeRunRequests | app_generator.py:67-120 | the k-th request is for the k-th item |
| AppGenerator.CodeRunAnswers | app_generator.py:67-120 | the k-th answer pairs the k-th item with the k-th reply |
| AppGenerator.CodeRunWrites | app_generator.py:67-120 | the k-th write puts the code extracted from the k-th reply into the file named after the k-th item |
| AppGenerator.GenerateCodeFiles | app_generator.py:67-120 | the loop sends the requests, consumes the replies and writes the files `CodeRun` describes, and writes nothing else |
| AppGenerator.GenerateMainFile | app_generator.py:34-59 | one request; main.dart receives the extracted code when the call succeeds and lib exists, and nothing else is written |
| AppGenerator.GenerateScreens | app_generator.py:61-88 | lib/screens is created, and the requests and files are those of the screens run |
| AppGenerator.GenerateModels | app_generator.py:90-120 | a falsy `data_models` creates no directory and sends nothing; otherwise lib/models is created, and the requests and files are those of the models run |
| AppGenerator.GenerateConstants | app_generator.py:122-138 | lib/constants is created, then colors.dart, strings.dart and themes.dart are written in that order; an unreadable palette stops it before any write |
| AppGenerator.GenerateLists | app_generator.py:17-32 | the screen requests go out before the model requests, and main.dart and the pubspec are left as they were |
| AppGenerator.GenerateSources | app_generator.py:17-32 | main.dart holds the code from the first reply, and the screen and model requests follow its request; a missing lib directory fails the step with FileNotFoundError |
| AppGenerator.GenerateApp | app_generator.py:17-32 | on success the requests went out in order, main.dart holds the first reply's code, the constants are written and the pubspec is updated as `_update_pubspec` writes it; a missing lib directory fails with FileNotFoundError |
| OneDayApp.BuildIdeaPrompt | oneday_app.py:255-277 | the idea prompt starts with the fixed instructions; the context follows a label only when the user gave one |
| OneDayApp.IdeaPromptCarriesContext | oneday_app.py:255-277 | the context can be read back from the prompt, so different contexts give different prompts |
| OneDayApp.BraceSliceSpan | oneday_app.py:316-320 | the slice runs from the first '{' to the last '}'; there is none exactly when no '}' follows a '{' |
| OneDayApp.DecodeSeesOnlyTheSlice | oneday_app.py:316-322 | only the brace slice is ever decoded |
| OneDayApp.NoBraceNotDecoded | oneday_app.py:316-320 | a reply without '{' is never decoded |
| OneDayApp.FallbackIdeaFields | oneday_app.py:324-331 | the default idea has every field the idea panel reads; its description is at most the reply's first 200 characters |
| OneDayApp.NoBraceIdeaIsDefault | oneday_app.py:313-331 | a reply without '{' always gives the default idea |
| OneDayApp.ParsedIdeaNotCompleted | oneday_app.py:313-322 | a decoded object is used as it is, even when it lacks `name` |
| OneDayApp.FallbackSpecFields | oneday_app.py:333-347 | the default specification keeps the whole reply as its text, with the default name and the timestamp |
| OneDayApp.SpecificationTextRoundTrip | oneday_app.py:333-354 | a reply that is not decoded comes back unchanged after parsing and formatting |
| OneDayApp.FormatDumpsNonText | oneday_app.py:349-354 | the text is shown when there is one; any other specification is dumped whole as JSON |
| OneDayApp.Indent | oneday_app.py:358 | the indent is two spaces per level |
| OneDayApp.FileLines | oneday_app.py:366-369 | a file list gives one line per file, in order; each is two spaces per level plus two, the file icon, then the file name |
| OneDayApp.FormatFolderTree | oneday_app.py:356-373 | the loop builds the text `TreeText` describes |
| OneDayApp.AppendEntry | oneday_app.py:360-371 | each entry appends exactly its own lines |
| OneDayApp.TreeLinesGrow | oneday_app.py:359-371 | lines already emitted are never changed |
| OneDayApp.TreeShowsEntry | oneday_app.py:359-371 | every entry's folder line is shown, followed by its subtree text or its file lines |
| OneDayApp.NestedTextShown | oneday_app.py:362-365 | whatever a subtree's text contains, the parent's text contains too |
| OneDayApp.EntryShown | oneday_app.py:356-373 | the rendered tree shows every entry's folder line and every listed file |
| OneDayApp.LineShown | oneday_app.py:373 | every line occurs in the joined text |
| OneDayApp.AsWrittenMainFileHasNoDirectory | oneday_app.py:221-246 | as written, the skeleton is created one level too deep, so the directory for main.dart is missing |
| OneDayApp.MainFileHasDirectory | oneday_app.py:221-246 | created below `output`, the skeleton provides the directory main.dart is written to |
| Workflow.ExitStatus | oneday_app.py:69-74 | the exit status is 0 after success or an interrupt and 1 after any other error |
| Workflow.Stop | oneday_app.py:69-74 | a stage that did not finish passes its interrupt or its error on unchanged |
| Workflow.DefaultIdeaShown | oneday_app.py:96-105 | an undecodable reply always yields the default idea, which the panel can show |
| Workflow.DecodedIdeaShown | oneday_app.py:96-105 | a decoded idea is shown exactly when it has the four fields and its features can be iterated; a missing `name` is a KeyError |
| Workflow.IdeaStageRequests | oneday_app.py:76-111 | the k-th idea request carries the k-th context; every round before the last declined the idea and asked for another |
| Workflow.IdeaStageEnd | oneday_app.py:107-114 | the stage ends with the idea of the last reply, which the user accepted, or is interrupted when the user wants no new idea |
| Workflow.ThemeName | oneday_app.py:150-160 | the theme name can be read exactly when the theme is an object with a name |
| Workflow.ThemeNameOfChoice | oneday_app.py:134-160 | the saved theme data yields the chosen theme's name exactly when the chosen theme has one |
| Workflow.Workflow.constructor | oneday_app.py:32-38 | the workflow creates `output` and starts with nothing saved |
| Workflow.Workflow.Save | oneday_app.py:417-429 | saving writes one file in `output` and records its name |
| Workflow.Workflow.Run | oneday_app.py:40-74 | an interrupted run saves nothing more, and a failed run has saved a prefix of the stage files: the first stage that raises ends the run. A finished run saves the stage files in order and asks for ideas before the inspiration; its specification is the one parsed from the reply after the inspiration reply, and after a requested change the final one is parsed from the reply after that; it can finish only when the final app name is "lib", "" or ".", or output/<app>/lib existed beforehand, and then main.dart exists in the app directory |
| Workflow.Workflow.Plan | oneday_app.py:48-56 | the first three stages save a prefix of the idea, theme and specification files (all of them when they finish); the specification returned is parsed from the reply that follows the idea replies and the inspiration reply, and exactly those replies are used up |
| Workflow.Workflow.Design | oneday_app.py:52-56 | the theme and specification stages never interrupt; they save a prefix of theme.json and both specification files, all of them when they finish; they ask for the inspiration first and return the specification parsed from the second reply, using up two replies |
| Workflow.Workflow.Finish | oneday_app.py:58-65 | the review, structure and build stages never interrupt; they save a prefix of the final specification files (only after a change) and the structure file; a requested change makes the final specification the one parsed from the next reply; they finish only when the final app name is "lib", "" or ".", or output/<app>/lib existed beforehand, and then build main.dart |
| Workflow.Workflow.Construct | oneday_app.py:60-65 | as written, an app name other than "lib", "" and "." on a disk without output/<app>/lib fails with FileNotFoundError once the model replies; it saves the structure file or nothing, and a finished run saved it and left main.dart in the app directory |
| Workflow.Workflow.GenerateIdea | oneday_app.py:76-115 | the stage does what `IdeaStage` describes: it asks again on "generate a new idea" and saves idea.json only when the idea is accepted |
| Workflow.Workflow.AskForIdea | oneday_app.py:93-105 | one request with the user's context; the reply is parsed and shown, and a failed call is an error |
| Workflow.Workflow.SelectTheme | oneday_app.py:117-148 | one inspiration request; theme.json holds the chosen theme, the inspiration and the time |
| Workflow.Workflow.GenerateSpecification | oneday_app.py:150-175 | a theme without a name fails before any request; otherwise one request, and both specification files are saved |
| Workflow.Workflow.ReviewSpecification | oneday_app.py:177-199 | without changes the specification is returned unsaved; otherwise the edited or updated specification is saved twice; only "ask for changes" calls the model |
| Workflow.Workflow.CreateFolderStructure | oneday_app.py:201-230 | the tree is `Structure(spec)`, created below output/<app> as the program passes it, and saved; for an app name other than "lib", "" and ".", output/<app>/lib is then still missing |
| Workflow.Workflow.BuildApplication | oneday_app.py:232-252 | an unreadable app name fails, and so does a missing output/<app>/lib; on success, requests are only appended and main.dart is in the app directory |

## Left out

- Console output, panels, spinners and prompts are not modelled. The user's answers are parameters of `Run` (`IdeaAnswers`, `ReviewAnswers`) and the chosen theme is a parameter.
- Interactive input running out is modelled only as an error: when the idea rounds given are used up, the stage fails with an end-of-input error, as `EOFError` would (exit status 1).
- `ThemeSelector` and its catalog are not modelled; theme_selector.py is not part of this model. The chosen theme is passed in.
- The wording of the inspiration, specification, update, main, screen and model prompts is not modelled. Each is a `Prompt` value that records the template and the values put into it. The idea prompt is written out in full.
- `json.loads`, `json.dumps` and `datetime.now().isoformat()` are parameters (`decode`, `dumps`, `now`). Their behaviour is not modelled.
- The LLM backends (OpenAI, Anthropic) and their client setup are left out. A call either returns the next scripted reply or fails.
- The long static templates are modelled as `Content` constructors, not as text. These are main.dart, README.md, .gitignore, analysis_options.yaml, strings.dart and themes.dart. The pubspec.yaml template is written out, because the dependency update reads it.
- `Path.exists()` is modelled as "a file is at this path". A directory standing where a file is expected is not modelled.
- Characters are treated as ASCII for `lower`, `isalnum`, `isspace` and `capitalize`.
- `_manual_edit_specification` is modelled as returning the specification unchanged. Editing the file in an external editor is not modelled.
- The "📄 key" branch of `_format_folder_tree` is not modelled. It renders values that are neither dict nor list, and `generate` never produces such values.
- The theme-agent experiment (ui.py, ui_gemini.py, web_search.py, example_demo.py, test_setup.py) is not part of this model.
- Workflow.Workflow.GenerateIdea: the parse-and-show step is reached through the `judge` field. The constructor fixes it to `IdeaJudge(decode)`.
- AppGenerator.GenerateApp: the contract speaks only about a successful run. Failures are described step by step by `GenerateSources` and `GenerateConstants`.
- Workflow.Workflow.Run: on success it guarantees main.dart exists in the app directory but does not restate the other files. `CreateFolders` and `GenerateApp` state those.
- Workflow.Workflow.Run: for a failed run it states which stage files were saved (a prefix of a full run's) but not which requests were sent; each stage method states its own.
- FileSystem.Disk.Mkdir: `mkdir` over an existing file, which raises FileExistsError, is not modelled. The directory is added as if the path were free.
- FolderStructure.AppDirName: the name is one path component. pathlib would drop the names "" and "." from a path, and a name with "/" in it would add two components, whose `mkdir` without `parents=True` raises FileNotFoundError. The model creates one fresh directory for each of these.
- OneDayApp.AsWrittenMainFileHasNoDirectory: it sets aside the app names "" and ".", besides "lib". For those pathlib drops the name, so as written the tree is created where main.dart needs it.
- FolderStructure.SkeletonPlacement: it requires an app name other than "files". `_create_recursive` treats that key as the current directory's own file list, so such an app gets no directory.

## Findings

The workflow and the pubspec update above are modelled as written. Each corrected member states the intended behaviour beside them.

| source | as written | input that shows it | evidently intended | confidence | as-written member | corrected member |
|---|---|---|---|---|---|---|
| oneday_app.py:221-224 | `create_folders(structure, output/<app>)`, although the tree's one top-level key is `<app>` too. The skeleton lands in output/<app>/<app>, and build_application then writes output/<app>/lib/main.dart into a directory that does not exist | any specification whose app name is not "lib", "" or ".", e.g. one without `app_name`, on an output directory without output/<app>/lib | create the tree below `output`, so that output/<app>/lib exists | not executed | OneDayApp.AsWrittenMainFileHasNoDirectory | OneDayApp.MainFileHasDirectory |
| app_generator.py:251 | the dependency block is inserted at the index of the "dependencies:" line plus 2. In the generated pubspec that is between "  flutter:" and "    sdk: flutter" | the pubspec.yaml template for any project name, which lacks http and provider | the comment at app_generator.py:250, "# Add after flutter dependency": keep the flutter entry whole, as the comment wants; the corrected member inserts the block above that entry, directly below "dependencies:" | not executed | AppGenerator.AsWrittenSplitsFlutterEntry | AppGenerator.UpdatedPubspecKeepsFlutterEntry |
