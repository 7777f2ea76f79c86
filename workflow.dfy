/** The OneDayApp workflow: six stages run in order (idea, theme, specification,
    review, folder structure, application), each saving what it produced in the
    output directory; the user's answers are given in advance. */
module Workflow {
  import opened Wrappers
  import opened Json
  import opened FileSystem
  import opened Llm
  import opened FolderStructure
  import opened AppGenerator
  import opened OneDayApp

  /** The answers to one round of generate_idea: the context typed first,
      whether to proceed with the idea shown, and, when not, whether to
      generate a new one. */
  datatype IdeaAnswers = IdeaAnswers(context: string, proceed: bool, another: bool)

  /** The review menu's options 1, 2 and 3. */
  datatype Choice = EditManually | AskForChanges | KeepCurrent

  /** The answers to the review step: whether to change the specification,
      the option picked, and the feedback typed for option 2. */
  datatype ReviewAnswers = ReviewAnswers(change: bool, choice: Choice, feedback: string)

  /** How a stage, or the whole run, ends: with its value, by KeyboardInterrupt,
      or by an exception. */
  datatype Outcome<T> = Done(value: T) | Interrupted | Failed(error: string)

  /** The process exit status: run lets a completed workflow return, exits with
      0 on KeyboardInterrupt and with 1 on any other exception. */
  function ExitStatus(o: Outcome<()>): (status: nat)
    ensures status == 0 || status == 1
    ensures status == 0 <==> !o.Failed?
  {
    if o.Failed? then 1 else 0
  }

  const EndOfInput := "EOFError: no more input"

  const IdeaFile := "idea.json"
  const ThemeFile := "theme.json"
  const SpecFile := "specification.json"
  const SpecText := "specification.md"
  const FinalSpecFile := "specification_final.json"
  const FinalSpecText := "specification_final.md"
  const StructureFile := "folder_structure.json"

  /** Where a saved artefact is written. */
  function SavedPath(name: string): Path {
    OutputDir + [name]
  }

  // ---------------------------------------------------------------------------
  // generate_idea

  function IdeaRequest(context: string): Request {
    Request(IdeaPrompt(context), DefaultMaxTokens)
  }

  /** The idea panel reads name, description and target_users and iterates
      over features: a missing key raises KeyError, a feature value that
      cannot be iterated raises TypeError. */
  function ShowIdea(idea: seq<Member>): Result<()> {
    if !Has(idea, "name") then Err("KeyError: 'name'")
    else if !Has(idea, "description") then Err("KeyError: 'description'")
    else if !Has(idea, "target_users") then Err("KeyError: 'target_users'")
    else if !Has(idea, "features") then Err("KeyError: 'features'")
    else match GetOr(idea, "features", JNull)
      case JStr(_) => Ok(())
      case JArr(_) => Ok(())
      case JObj(_) => Ok(())
      case _ => Err("TypeError: object is not iterable")
  }

  /** What generate_idea makes of one reply: the parsed idea, or the error
      raised while showing it. */
  function IdeaVerdict(reply: string, decode: string -> Option<seq<Member>>): Result<seq<Member>> {
    var idea := ParseIdeaResponse(reply, decode);
    match ShowIdea(idea)
    case Ok(_) => Ok(idea)
    case Err(e) => Err(e)
  }

  function IdeaJudge(decode: string -> Option<seq<Member>>): string -> Result<seq<Member>> {
    reply => IdeaVerdict(reply, decode)
  }

  /** A reply the parser cannot decode still gives an idea that can be shown:
      the default idea. */
  lemma DefaultIdeaShown(reply: string, decode: string -> Option<seq<Member>>)
    requires Decoded(reply, decode).None?
    ensures IdeaVerdict(reply, decode) == Ok(FallbackIdea(reply))
  {
    FallbackIdeaFields(reply);
  }

  /** A decoded idea is shown, and kept as it is, exactly when it has the
      four fields the panel reads and its features can be iterated over; one
      without a name raises KeyError on the name first. */
  lemma DecodedIdeaShown(reply: string, decode: string -> Option<seq<Member>>)
    requires Decoded(reply, decode).Some?
    ensures var idea := Decoded(reply, decode).value;
            IdeaVerdict(reply, decode).Ok? <==>
              && Has(idea, "name") && Has(idea, "description") && Has(idea, "target_users")
              && Has(idea, "features")
              && (Get(idea, "features").value.JStr? || Get(idea, "features").value.JArr?
                  || Get(idea, "features").value.JObj?)
    ensures IdeaVerdict(reply, decode).Ok? ==> IdeaVerdict(reply, decode).value == Decoded(reply, decode).value
    ensures !Has(Decoded(reply, decode).value, "name") ==> IdeaVerdict(reply, decode) == Err("KeyError: 'name'")
  {
  }

  /** The requests generate_idea makes and how it ends. */
  datatype IdeaRun = IdeaRun(requests: seq<Request>, end: Outcome<seq<Member>>)

  /** generate_idea for the given rounds of answers and the LLM's replies,
      with verdict judging each reply: one request per round, until the user
      accepts an idea, declines without asking for another
      (KeyboardInterrupt), or a call raises; running out of rounds is the end
      of input. */
  function IdeaStage(rounds: seq<IdeaAnswers>, replies: seq<Option<string>>,
                     verdict: string -> Result<seq<Member>>): IdeaRun
    decreases |rounds|
  {
    if rounds == [] then IdeaRun([], Failed(EndOfInput))
    else
      var request := IdeaRequest(rounds[0].context);
      match NextReply(replies)
      case None => IdeaRun([request], Failed(LlmFailure))
      case Some(text) =>
        match verdict(text)
        case Err(e) => IdeaRun([request], Failed(e))
        case Ok(idea) =>
          if rounds[0].proceed then IdeaRun([request], Done(idea))
          else if !rounds[0].another then IdeaRun([request], Interrupted)
          else
            var rest := IdeaStage(rounds[1..], Drop(replies, 1), verdict);
            IdeaRun([request] + rest.requests, rest.end)
  }

  /** Round k sends the k-th context, and every round before the last asked
      for a new idea. */
  lemma {:induction false} IdeaStageRequests(rounds: seq<IdeaAnswers>, replies: seq<Option<string>>,
                                             verdict: string -> Result<seq<Member>>)
    ensures var r := IdeaStage(rounds, replies, verdict);
            && |r.requests| <= |rounds|
            && (forall k :: 0 <= k < |r.requests| ==> r.requests[k] == IdeaRequest(rounds[k].context))
            && (forall k :: 0 <= k < |r.requests| - 1 ==> !rounds[k].proceed && rounds[k].another)
    decreases |rounds|
  {
    if rounds != [] && NextReply(replies).Some? && verdict(NextReply(replies).value).Ok?
       && !rounds[0].proceed && rounds[0].another {
      var rest := IdeaStage(rounds[1..], Drop(replies, 1), verdict);
      IdeaStageRequests(rounds[1..], Drop(replies, 1), verdict);
      var r := IdeaStage(rounds, replies, verdict);
      assert r.requests == [IdeaRequest(rounds[0].context)] + rest.requests;
      forall k | 1 <= k < |r.requests|
        ensures r.requests[k] == IdeaRequest(rounds[k].context)
      {
        assert r.requests[k] == rest.requests[k - 1];
      }
    }
  }

  /** An accepted idea is the verdict on the reply to the last request, whose
      round said to proceed; an interrupt means the last idea shown was
      declined with no new one wanted. */
  lemma {:induction false} IdeaStageEnd(rounds: seq<IdeaAnswers>, replies: seq<Option<string>>,
                                        verdict: string -> Result<seq<Member>>)
    ensures var r := IdeaStage(rounds, replies, verdict);
            && (r.end.Done? ==>
                  var k := |r.requests| - 1;
                  0 <= k < |rounds| && k < |replies| && replies[k].Some? && rounds[k].proceed
                  && verdict(replies[k].value) == Ok(r.end.value))
            && (r.end.Interrupted? ==>
                  var k := |r.requests| - 1;
                  0 <= k < |rounds| && !rounds[k].proceed && !rounds[k].another)
    decreases |rounds|
  {
    if rounds != [] && NextReply(replies).Some? && verdict(NextReply(replies).value).Ok?
       && !rounds[0].proceed && rounds[0].another {
      var rest := IdeaStage(rounds[1..], Drop(replies, 1), verdict);
      IdeaStageEnd(rounds[1..], Drop(replies, 1), verdict);
      var r := IdeaStage(rounds, replies, verdict);
      assert |r.requests| == 1 + |rest.requests|;
      if r.end.Done? {
        var k := |r.requests| - 1;
        assert Drop(replies, 1)[k - 1] == replies[k];
      }
    }
  }

  // ---------------------------------------------------------------------------
  // select_theme_and_inspiration and generate_specification

  function InspirationRequest(): Request {
    Request(InspirationPrompt, DefaultMaxTokens)
  }

  /** theme_data: the chosen catalog theme, the inspiration text and the time
      of selection. */
  function ThemeData(theme: Json, inspiration: string, now: string): seq<Member> {
    [Member("theme", theme), Member("inspiration", JStr(inspiration)), Member("selected_at", JStr(now))]
  }

  /** theme['theme']['name'], as the specification prompt reads it. */
  function ThemeName(themeData: seq<Member>): (r: Result<Json>)
    ensures r.Ok? <==> exists ms :: Get(themeData, "theme") == Some(JObj(ms)) && Has(ms, "name")
  {
    match Get(themeData, "theme")
    case None => Err("KeyError: 'theme'")
    case Some(JObj(ms)) =>
      (match Get(ms, "name")
       case Some(v) => Ok(v)
       case None => Err("KeyError: 'name'"))
    case Some(_) => Err("TypeError: indices must be integers")
  }

  /** The theme data names exactly the chosen theme's name. */
  lemma ThemeNameOfChoice(theme: Json, inspiration: string, now: string)
    ensures ThemeName(ThemeData(theme, inspiration, now)).Ok? <==> theme.JObj? && Has(theme.members, "name")
    ensures ThemeName(ThemeData(theme, inspiration, now)).Ok? ==>
              ThemeName(ThemeData(theme, inspiration, now)).value == Get(theme.members, "name").value
  {
    var d := ThemeData(theme, inspiration, now);
    assert d[2].key[0] == 's' && d[1].key[0] == 'i';
    assert d[..2][..1] == d[..1];
    assert Get(d, "theme") == Get(d[..1], "theme") == Some(theme);
  }

  function SpecificationRequest(idea: seq<Member>, name: Json): Request {
    Request(SpecificationPrompt(JObj(idea), name), DefaultMaxTokens)
  }

  function UpdateRequest(feedback: string, spec: seq<Member>): Request {
    Request(UpdatePrompt(feedback, JObj(spec)), DefaultMaxTokens)
  }

  /** The JSON form of a folder structure, as saved to folder_structure.json. */
  function TreeJson(t: Tree): Json
    decreases t
  {
    match t
    case Dir(es) => JObj(seq(|es|, i requires 0 <= i < |es| => Member(es[i].key, TreeJson(es[i].value))))
    case Files(ns) => JArr(seq(|ns|, i requires 0 <= i < |ns| => JStr(ns[i])))
  }

  /** A stage that did not complete ends the run the same way. */
  function Stop<T, U>(o: Outcome<T>): (r: Outcome<U>)
    requires !o.Done?
    ensures r.Interrupted? == o.Interrupted?
    ensures r.Failed? ==> r.error == o.error
  {
    if o.Interrupted? then Interrupted else Failed(o.error)
  }

  /** The files the run saves when every stage completes, in order. */
  function SavedOnSuccess(review: ReviewAnswers): seq<string> {
    [IdeaFile, ThemeFile, SpecFile, SpecText]
      + (if review.change then [FinalSpecFile, FinalSpecText] else [])
      + [StructureFile]
  }

  /** after is before followed by the first few of the planned names: a run
      that stops early has saved a prefix of what a full run saves. */
  ghost predicate SavedPrefix(before: seq<string>, after: seq<string>, planned: seq<string>) {
    before <= after && after <= before + planned
  }

  /** A stage that saves a prefix of p, followed (only when it saved all of
      p) by one that saves a prefix of q, saves a prefix of p + q. */
  lemma SavedPrefixThen(a: seq<string>, b: seq<string>, c: seq<string>, p: seq<string>, q: seq<string>)
    requires SavedPrefix(a, b, p)
    requires b == a + p ==> SavedPrefix(b, c, q)
    requires b != a + p ==> c == b
    ensures SavedPrefix(a, c, p + q)
  {
    assert a + p + q == a + (p + q);
    if b == a + p {
      assert c[..|a|] == b[..|a|];
    } else {
      assert b == (a + p + q)[..|b|];
    }
  }

  // ---------------------------------------------------------------------------
  // The workflow

  /** OneDayAppWorkflow: the disk, the LLM, json.loads and json.dumps as
      decode and dumps, the clock reading now, and the names of the files
      saved so far in the output directory, in order. */
  class Workflow {
    const disk: Disk
    const llm: Provider
    const decode: string -> Option<seq<Member>>
    const dumps: Json -> string
    const now: string
    /** What generate_idea makes of a reply: _parse_idea_response followed by
        the idea panel, fixed at construction to IdeaJudge(decode). */
    const judge: string -> Result<seq<Member>>
    var saved: seq<string>

    /** The output directory exists. */
    predicate Valid()
      reads disk
    {
      OutputDir in disk.dirs
    }

    /** __init__: the output directory is made if missing. */
    constructor (disk: Disk, llm: Provider, decode: string -> Option<seq<Member>>,
                 dumps: Json -> string, now: string)
      modifies disk
      ensures this.disk == disk && this.llm == llm && this.decode == decode
      ensures this.dumps == dumps && this.now == now && saved == []
      ensures judge == IdeaJudge(decode)
      ensures disk.dirs == old(disk.dirs) + {OutputDir} && disk.files == old(disk.files)
      ensures Valid()
    {
      this.disk := disk;
      this.llm := llm;
      this.decode := decode;
      this.dumps := dumps;
      this.now := now;
      judge := IdeaJudge(decode);
      saved := [];
      new;
      var made := disk.Mkdir(OutputDir);
    }

    /** _save_to_file: the text is written to output/<name>. */
    method Save(name: string, text: string)
      requires Valid()
      modifies this, disk
      ensures saved == old(saved) + [name]
      ensures disk.files == old(disk.files)[SavedPath(name) := Plain(text)]
      ensures disk.dirs == old(disk.dirs)
    {
      var written := disk.WriteText(SavedPath(name), Plain(text));
      saved := saved + [name];
    }

    /** run: the six stages in order; the first that does not complete ends
        the run with its outcome.  A completed run has saved its files in
        stage order, asked for the idea(s) first and the inspiration next, and
        built main.dart in the directory the folder stage created for the same
        app name; an interrupted run has saved nothing. */
    method Run(rounds: seq<IdeaAnswers>, theme: Json, review: ReviewAnswers)
      returns (o: Outcome<()>, ghost spec: seq<Member>, ghost final: seq<Member>)
      requires Valid()
      modifies this, disk, llm
      ensures o.Interrupted? ==> saved == old(saved) && disk.files == old(disk.files)
      ensures SavedPrefix(old(saved), saved, SavedOnSuccess(review))
      ensures o.Done? ==> saved == old(saved) + SavedOnSuccess(review)
      ensures o.Done? ==>
                var ideas := IdeaStage(rounds, old(llm.replies), judge);
                ideas.end.Done? && old(llm.requests) + ideas.requests + [InspirationRequest()] <= llm.requests
      ensures o.Done? ==>
                var n := |IdeaStage(rounds, old(llm.replies), judge).requests|;
                && NextReply(Drop(old(llm.replies), n + 1)).Some?
                && spec == ParseSpecificationResponse(NextReply(Drop(old(llm.replies), n + 1)).value, decode, now)
      ensures o.Done? && !(review.change && review.choice == AskForChanges) ==> final == spec
      ensures o.Done? && review.change && review.choice == AskForChanges ==>
                var n := |IdeaStage(rounds, old(llm.replies), judge).requests|;
                && NextReply(Drop(old(llm.replies), n + 2)).Some?
                && final == ParseSpecificationResponse(NextReply(Drop(old(llm.replies), n + 2)).value, decode, now)
      ensures o.Done? ==> AppDirName(final).Ok? && MainPath(AppDir(AppDirName(final).value)) in disk.files
      ensures o.Done? ==> AppDirName(final).Ok? && (AppDirName(final).value in EscapingNames || AppDir(AppDirName(final).value) + ["lib"] in old(disk.dirs))
    {
      var planned := Plan(rounds, theme);
      if !planned.Done? {
        return Stop(planned), [], [];
      }
      ghost var afterPlan := saved;
      spec := planned.value;
      o, final := Finish(planned.value, review);
      SavedPrefixThen(old(saved), afterPlan, saved, [IdeaFile, ThemeFile, SpecFile, SpecText],
                      (if review.change then [FinalSpecFile, FinalSpecText] else []) + [StructureFile]);
    }

    /** Steps 4 to 6 of run: review, folder structure and application. */
    method Finish(spec: seq<Member>, review: ReviewAnswers) returns (o: Outcome<()>, ghost final: seq<Member>)
      requires Valid()
      modifies this, disk, llm
      ensures !o.Interrupted?
      ensures SavedPrefix(old(saved), saved, (if review.change then [FinalSpecFile, FinalSpecText] else []) + [StructureFile])
      ensures o.Done? ==>
                saved == old(saved) + (if review.change then [FinalSpecFile, FinalSpecText] else []) + [StructureFile]
      ensures o.Done? ==> old(llm.requests) <= llm.requests
      ensures o.Done? && !(review.change && review.choice == AskForChanges) ==> final == spec
      ensures o.Done? && review.change && review.choice == AskForChanges ==>
                && NextReply(old(llm.replies)).Some?
                && final == ParseSpecificationResponse(NextReply(old(llm.replies)).value, decode, now)
      ensures o.Done? ==> AppDirName(final).Ok? && MainPath(AppDir(AppDirName(final).value)) in disk.files
      ensures o.Done? ==> AppDirName(final).Ok? && (AppDirName(final).value in EscapingNames || AppDir(AppDirName(final).value) + ["lib"] in old(disk.dirs))
    {
      var reviewed := ReviewSpecification(spec, review);
      if !reviewed.Done? {
        return Stop(reviewed), [];
      }
      ghost var afterReview := saved;
      final := reviewed.value;
      o := Construct(reviewed.value);
      SavedPrefixThen(old(saved), afterReview, saved,
                      if review.change then [FinalSpecFile, FinalSpecText] else [], [StructureFile]);
    }

    /** Steps 1 to 3 of run: idea, theme and specification. */
    method Plan(rounds: seq<IdeaAnswers>, theme: Json) returns (o: Outcome<seq<Member>>)
      requires Valid()
      modifies this, disk, llm
      ensures Valid() && disk.dirs == old(disk.dirs)
      ensures o.Interrupted? ==> saved == old(saved) && disk.files == old(disk.files)
      ensures SavedPrefix(old(saved), saved, [IdeaFile, ThemeFile, SpecFile, SpecText])
      ensures o.Done? ==> saved == old(saved) + [IdeaFile, ThemeFile, SpecFile, SpecText]
      ensures o.Done? ==>
                var ideas := IdeaStage(rounds, old(llm.replies), judge);
                ideas.end.Done? && old(llm.requests) + ideas.requests + [InspirationRequest()] <= llm.requests
      ensures o.Done? ==>
                var n := |IdeaStage(rounds, old(llm.replies), judge).requests|;
                && NextReply(Drop(old(llm.replies), n + 1)).Some?
                && o.value == ParseSpecificationResponse(NextReply(Drop(old(llm.replies), n + 1)).value, decode, now)
                && llm.replies == Drop(old(llm.replies), n + 2)
    {
      var idea := GenerateIdea(rounds);
      if !idea.Done? {
        return Stop(idea);
      }
      ghost var afterIdea := saved;
      ghost var replies := llm.replies;
      ghost var n := |IdeaStage(rounds, old(llm.replies), judge).requests|;
      o := Design(idea.value, theme);
      SavedPrefixThen(old(saved), afterIdea, saved, [IdeaFile], [ThemeFile, SpecFile, SpecText]);
      DropAfter(old(llm.replies), n, 1, replies);
      DropAfter(old(llm.replies), n, 2, replies);
    }

    /** Steps 2 and 3 of run: theme and specification for the accepted idea. */
    method Design(idea: seq<Member>, theme: Json) returns (o: Outcome<seq<Member>>)
      requires Valid()
      modifies this, disk, llm
      ensures Valid() && disk.dirs == old(disk.dirs)
      ensures !o.Interrupted?
      ensures SavedPrefix(old(saved), saved, [ThemeFile, SpecFile, SpecText])
      ensures o.Done? ==> saved == old(saved) + [ThemeFile, SpecFile, SpecText]
      ensures o.Done? ==> old(llm.requests) + [InspirationRequest()] <= llm.requests
      ensures o.Done? ==>
                && NextReply(Drop(old(llm.replies), 1)).Some?
                && o.value == ParseSpecificationResponse(NextReply(Drop(old(llm.replies), 1)).value, decode, now)
                && llm.replies == Drop(old(llm.replies), 2)
    {
      var themeData := SelectTheme(theme);
      if !themeData.Done? {
        return Stop(themeData);
      }
      ghost var afterTheme := llm.requests;
      ghost var afterSave := saved;
      ghost var replies := llm.replies;
      o := GenerateSpecification(idea, themeData.value);
      assert afterTheme <= llm.requests;
      SavedPrefixThen(old(saved), afterSave, saved, [ThemeFile], [SpecFile, SpecText]);
      DropAfter(old(llm.replies), 1, 1, replies);
    }

    /** Steps 5 and 6 of run: folder structure and application. */
    method Construct(spec: seq<Member>) returns (o: Outcome<()>)
      requires Valid()
      modifies this, disk, llm
      ensures !o.Interrupted?
      ensures SavedPrefix(old(saved), saved, [StructureFile])
      ensures o.Done? ==> saved == old(saved) + [StructureFile]
      ensures o.Done? ==> old(llm.requests) <= llm.requests
      ensures o.Done? ==> AppDirName(spec).Ok? && MainPath(AppDir(AppDirName(spec).value)) in disk.files
      ensures AppDirName(spec).Ok? && Structure(JObj(spec)).Ok? && AppDirName(spec).value !in EscapingNames
              && AppDir(AppDirName(spec).value) + ["lib"] !in old(disk.dirs) ==>
                o.Failed? && (NextReply(old(llm.replies)).Some? ==> o == Failed(NoSuchDirectory))
      ensures o.Done? ==> AppDirName(spec).Ok? && (AppDirName(spec).value in EscapingNames || AppDir(AppDirName(spec).value) + ["lib"] in old(disk.dirs))
    {
      var structure := CreateFolderStructure(spec);
      if !structure.Done? {
        return Stop(structure);
      }
      o := BuildApplication(spec);
    }

    /** Step 1, generate_idea: asks for an idea until the user accepts one and
        saves the accepted idea; declining without asking for another is a
        KeyboardInterrupt. */
    method GenerateIdea(rounds: seq<IdeaAnswers>) returns (o: Outcome<seq<Member>>)
      requires Valid()
      modifies this, disk, llm
      ensures var r := IdeaStage(rounds, old(llm.replies), judge);
              && o == r.end
              && llm.requests == old(llm.requests) + r.requests
              && llm.replies == Drop(old(llm.replies), |r.requests|)
      ensures o.Done? ==> saved == old(saved) + [IdeaFile]
                          && disk.files == old(disk.files)[SavedPath(IdeaFile) := Plain(dumps(JObj(o.value)))]
      ensures !o.Done? ==> saved == old(saved) && disk.files == old(disk.files)
      ensures disk.dirs == old(disk.dirs)
      decreases |rounds|
    {
      if rounds == [] {
        return Failed(EndOfInput);
      }
      var idea := AskForIdea(rounds[0].context);
      if idea.Err? {
        return Failed(idea.error);
      }
      if !rounds[0].proceed {
        if rounds[0].another {
          ghost var replies1 := llm.replies;
          ghost var requests1 := llm.requests;
          o := GenerateIdea(rounds[1..]);
          ghost var rest := IdeaStage(rounds[1..], replies1, judge);
          DropAfter(old(llm.replies), 1, |rest.requests|, replies1);
          return;
        }
        return Interrupted;
      }
      Save(IdeaFile, dumps(JObj(idea.value)));
      o := Done(idea.value);
    }

    /** One idea requested, parsed and shown. */
    method AskForIdea(context: string) returns (idea: Result<seq<Member>>)
      modifies llm
      ensures llm.requests == old(llm.requests) + [IdeaRequest(context)]
      ensures llm.replies == Drop(old(llm.replies), 1)
      ensures NextReply(old(llm.replies)).None? ==> idea == Err(LlmFailure)
      ensures NextReply(old(llm.replies)).Some? ==> idea == judge(NextReply(old(llm.replies)).value)
    {
      var reply := llm.Generate(IdeaPrompt(context), DefaultMaxTokens);
      if reply.None? {
        return Err(LlmFailure);
      }
      idea := judge(reply.value);
    }

    /** Step 2, select_theme_and_inspiration: asks for design inspiration and
        saves it with the chosen catalog theme. */
    method SelectTheme(theme: Json) returns (o: Outcome<seq<Member>>)
      requires Valid()
      modifies this, disk, llm
      ensures llm.requests == old(llm.requests) + [InspirationRequest()]
      ensures llm.replies == Drop(old(llm.replies), 1)
      ensures NextReply(old(llm.replies)).None? ==>
                o == Failed(LlmFailure) && saved == old(saved) && disk.files == old(disk.files)
      ensures NextReply(old(llm.replies)).Some? ==>
                var data := ThemeData(theme, NextReply(old(llm.replies)).value, now);
                && o == Done(data)
                && saved == old(saved) + [ThemeFile]
                && disk.files == old(disk.files)[SavedPath(ThemeFile) := Plain(dumps(JObj(data)))]
      ensures disk.dirs == old(disk.dirs)
    {
      var inspiration := llm.Generate(InspirationPrompt, DefaultMaxTokens);
      if inspiration.None? {
        return Failed(LlmFailure);
      }
      var data := ThemeData(theme, inspiration.value, now);
      Save(ThemeFile, dumps(JObj(data)));
      o := Done(data);
    }

    /** Step 3, generate_specification: asks for a specification of the idea
        in the chosen theme and saves it as JSON and as text. */
    method GenerateSpecification(idea: seq<Member>, themeData: seq<Member>) returns (o: Outcome<seq<Member>>)
      requires Valid()
      modifies this, disk, llm
      ensures ThemeName(themeData).Err? ==>
                o == Failed(ThemeName(themeData).error) && llm.requests == old(llm.requests)
                && llm.replies == old(llm.replies) && saved == old(saved) && disk.files == old(disk.files)
      ensures ThemeName(themeData).Ok? ==>
                && llm.requests == old(llm.requests) + [SpecificationRequest(idea, ThemeName(themeData).value)]
                && llm.replies == Drop(old(llm.replies), 1)
      ensures ThemeName(themeData).Ok? && NextReply(old(llm.replies)).None? ==>
                o == Failed(LlmFailure) && saved == old(saved) && disk.files == old(disk.files)
      ensures ThemeName(themeData).Ok? && NextReply(old(llm.replies)).Some? ==>
                var spec := ParseSpecificationResponse(NextReply(old(llm.replies)).value, decode, now);
                && o == Done(spec)
                && saved == old(saved) + [SpecFile, SpecText]
                && disk.files == old(disk.files)[SavedPath(SpecFile) := Plain(dumps(JObj(spec)))]
                                                [SavedPath(SpecText) := Plain(FormatSpecification(spec, dumps))]
      ensures disk.dirs == old(disk.dirs)
    {
      var name := ThemeName(themeData);
      if name.Err? {
        return Failed(name.error);
      }
      var response := llm.Generate(SpecificationPrompt(JObj(idea), name.value), DefaultMaxTokens);
      if response.None? {
        return Failed(LlmFailure);
      }
      var spec := ParseSpecificationResponse(response.value, decode, now);
      Save(SpecFile, dumps(JObj(spec)));
      Save(SpecText, FormatSpecification(spec, dumps));
      o := Done(spec);
    }

    /** Step 4, review_and_update_specification: declining leaves the
        specification as it is and saves nothing; otherwise option 2 replaces
        it by the LLM's update, options 1 and 3 keep it, and the final
        specification is saved as JSON and as text. */
    method ReviewSpecification(spec: seq<Member>, answers: ReviewAnswers) returns (o: Outcome<seq<Member>>)
      requires Valid()
      modifies this, disk, llm
      ensures !answers.change ==>
                o == Done(spec) && saved == old(saved) && disk.files == old(disk.files)
                && llm.requests == old(llm.requests) && llm.replies == old(llm.replies)
      ensures answers.change && answers.choice != AskForChanges ==>
                && o == Done(spec)
                && llm.requests == old(llm.requests) && llm.replies == old(llm.replies)
                && saved == old(saved) + [FinalSpecFile, FinalSpecText]
                && disk.files == old(disk.files)[SavedPath(FinalSpecFile) := Plain(dumps(JObj(spec)))]
                                                [SavedPath(FinalSpecText) := Plain(FormatSpecification(spec, dumps))]
      ensures answers.change && answers.choice == AskForChanges ==>
                && llm.requests == old(llm.requests) + [UpdateRequest(answers.feedback, spec)]
                && llm.replies == Drop(old(llm.replies), 1)
      ensures answers.change && answers.choice == AskForChanges && NextReply(old(llm.replies)).None? ==>
                o == Failed(LlmFailure) && saved == old(saved) && disk.files == old(disk.files)
      ensures answers.change && answers.choice == AskForChanges && NextReply(old(llm.replies)).Some? ==>
                var updated := ParseSpecificationResponse(NextReply(old(llm.replies)).value, decode, now);
                && o == Done(updated)
                && saved == old(saved) + [FinalSpecFile, FinalSpecText]
                && disk.files == old(disk.files)[SavedPath(FinalSpecFile) := Plain(dumps(JObj(updated)))]
                                                [SavedPath(FinalSpecText) := Plain(FormatSpecification(updated, dumps))]
      ensures disk.dirs == old(disk.dirs)
    {
      if !answers.change {
        return Done(spec);
      }
      var final := spec;
      if answers.choice == AskForChanges {
        var response := llm.Generate(UpdatePrompt(answers.feedback, JObj(spec)), DefaultMaxTokens);
        if response.None? {
          return Failed(LlmFailure);
        }
        final := ParseSpecificationResponse(response.value, decode, now);
      }
      Save(FinalSpecFile, dumps(JObj(final)));
      Save(FinalSpecText, FormatSpecification(final, dumps));
      o := Done(final);
    }

    /** Step 5, create_folder_structure: plans the structure, creates it under
        the output directory and saves it. */
    method CreateFolderStructure(spec: seq<Member>) returns (o: Outcome<Tree>)
      requires Valid()
      modifies this, disk
      ensures Structure(JObj(spec)).Err? ==>
                o == Failed(Structure(JObj(spec)).error) && saved == old(saved)
                && disk.files == old(disk.files) && disk.dirs == old(disk.dirs)
      ensures Structure(JObj(spec)).Ok? ==>
                var t := Structure(JObj(spec)).value;
                var base := CreationBaseAsWritten(AppDirName(spec).value);
                && o == Done(t)
                && saved == old(saved) + [StructureFile]
                && disk.dirs == old(disk.dirs) + Ancestry(base) + DirsOf(t, |t.entries|, base)
                && disk.files == Fill(old(disk.files), FilesOf(t, |t.entries|, base))
                                   [SavedPath(StructureFile) := Plain(dumps(TreeJson(t)))]
      ensures Structure(JObj(spec)).Ok? && AppDirName(spec).value !in EscapingNames
              && AppDir(AppDirName(spec).value) + ["lib"] !in old(disk.dirs) ==>
                !ParentExists(disk.dirs, MainPath(AppDir(AppDirName(spec).value)))
    {
      var structure := Generate(JObj(spec));
      if structure.Err? {
        return Failed(structure.error);
      }
      StructureShape(JObj(spec));
      var app := AppDirName(spec);
      ghost var dirs := disk.dirs;
      CreateFolders(disk, structure.value, CreationBaseAsWritten(app.value));
      if app.value !in EscapingNames && AppDir(app.value) + ["lib"] !in dirs {
        AsWrittenMainFileHasNoDirectory(dirs, app.value, PlannedNames(spec, "features", "_screen.dart").value,
                                        PlannedNames(spec, "data_models", ".dart").value);
      }
      Save(StructureFile, dumps(TreeJson(structure.value)));
      o := Done(structure.value);
    }

    /** Step 6, build_application: generates the app's sources in
        output/<app>. */
    method BuildApplication(spec: seq<Member>) returns (o: Outcome<()>)
      modifies disk, llm
      ensures !o.Interrupted?
      ensures AppDirName(spec).Err? ==> o == Failed(AppDirName(spec).error)
      ensures AppDirName(spec).Ok? && !ParentExists(old(disk.dirs), MainPath(AppDir(AppDirName(spec).value))) ==>
                o.Failed? && (NextReply(old(llm.replies)).Some? ==> o == Failed(NoSuchDirectory))
      ensures o.Done? ==> old(llm.requests) <= llm.requests
      ensures o.Done? ==>
                var app := AppDir(AppDirName(spec).value);
                && AppDirName(spec).Ok?
                && NextReply(old(llm.replies)).Some?
                && MainPath(app) in disk.files
                && disk.files[MainPath(app)] == Plain(ExtractCode(NextReply(old(llm.replies)).value))
                && ConstantsIn(disk.files, spec, app)
    {
      var app := AppDirName(spec);
      if app.Err? {
        return Failed(app.error);
      }
      var built := GenerateApp(disk, llm, spec, AppDir(app.value));
      if built.Err? {
        return Failed(built.error);
      }
      o := Done(());
    }
  }
}
