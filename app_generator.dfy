/** AppGenerator: turns a specification into Flutter source files, asking the
    LLM for main.dart, the screens and the models, and computing the constants
    files and the pubspec update itself. */
module AppGenerator {
  import opened Wrappers
  import opened Text
  import opened Json
  import opened Names
  import opened FileSystem
  import opened Llm
  import opened FolderStructure

  // ---------------------------------------------------------------------------
  // _extract_code

  const Fence := "```"
  const DartFence := "```dart"

  /** The reply without its markdown fence, stripped of surrounding
      whitespace. */
  function ExtractCode(response: string): string {
    Strip(Unfenced(response))
  }

  /** The text between the first "```dart" (or, failing that, the first
      "```") and the last "```" when that last fence lies after the opening
      one; otherwise the reply itself. */
  function Unfenced(response: string): string {
    if Contains(response, DartFence) then Between(response, Find(response, DartFence) + |DartFence|)
    else if Contains(response, Fence) then Between(response, Find(response, Fence) + |Fence|)
    else response
  }

  /** response[start:end] for end the last fence, if end > start; otherwise the
      response unchanged. */
  function Between(response: string, start: nat): string {
    var end := RFind(response, Fence);
    if end > start then response[start..end] else response
  }

  /** An opening ```dart fence starts with a ``` fence. */
  lemma DartFenceIsFence(s: string, k: int)
    ensures IsAt(s, k, DartFence) ==> IsAt(s, k, Fence)
  {
    if IsAt(s, k, DartFence) {
      assert s[k..k + 3] == s[k..k + 7][..3];
    }
  }

  /** A reply without any fence is only stripped. */
  lemma ExtractCodeUnfenced(response: string)
    requires !Contains(response, Fence)
    ensures ExtractCode(response) == Strip(response)
  {
    forall k ensures !IsAt(response, k, DartFence) {
      DartFenceIsFence(response, k);
    }
  }

  /** No fence starts at j when one of the three characters from j is not a backquote. */
  lemma NotFenceAt(s: string, j: nat, d: nat)
    requires d < 3 && j + d < |s| && s[j + d] != '`'
    ensures !IsAt(s, j, Fence)
  {
    if j + 3 <= |s| {
      assert s[j..j + 3][d] == s[j + d];
    }
  }

  /** In pre + open + code + "```" + post, with no backquote in pre, code or
      post and a non-empty code, "```" occurs exactly at the two fences. */
  lemma FencePositions(pre: string, open: string, code: string, post: string)
    requires open == Fence || open == DartFence
    requires '`' !in pre && '`' !in code && '`' !in post && |code| > 0
    ensures var s := pre + open + code + Fence + post;
            forall j :: IsAt(s, j, Fence) <==> j == |pre| || j == |pre| + |open| + |code|
  {
    var s := pre + open + code + Fence + post;
    var a := |pre|;
    var c := |pre| + |open| + |code|;
    assert IsAt(s, a, Fence) by {
      assert s[a..a + 3] == open[..3];
    }
    assert IsAt(s, c, Fence) by {
      assert s[c..c + 3] == Fence;
    }
    forall j: nat | j != a && j != c && j + 3 <= |s| ensures !IsAt(s, j, Fence) {
      if j < a {
        assert s[j] == pre[j];
        NotFenceAt(s, j, 0);
      } else if a < j < a + |open| {
        if j + 2 < a + |open| {
          assert s[j + 2] == open[j + 2 - a];
          NotFenceAt(s, j, 2);
        } else if open == Fence {
          assert s[a + 3] == code[0];
          NotFenceAt(s, j, a + 3 - j);
        } else {
          assert s[j] == open[j - a];
          NotFenceAt(s, j, 0);
        }
      } else if a + |open| <= j < c {
        assert s[j] == code[j - a - |open|];
        NotFenceAt(s, j, 0);
      } else {
        assert s[j + 2] == post[j + 2 - c - 3];
        NotFenceAt(s, j, 2);
      }
    }
  }

  /** A reply holding one ```dart block returns the block's code, stripped. */
  lemma ExtractCodeOfDartBlock(pre: string, code: string, post: string)
    requires '`' !in pre && '`' !in code && '`' !in post && |code| > 0
    ensures ExtractCode(pre + DartFence + code + Fence + post) == Strip(code)
  {
    UnfencedOfDartBlock(pre, code, post);
  }

  lemma UnfencedOfDartBlock(pre: string, code: string, post: string)
    requires '`' !in pre && '`' !in code && '`' !in post && |code| > 0
    ensures Unfenced(pre + DartFence + code + Fence + post) == code
  {
    var s := pre + DartFence + code + Fence + post;
    var a := |pre|;
    var c := a + 7 + |code|;
    FencePositions(pre, DartFence, code, post);
    OpeningAt(pre, DartFence, code + Fence + post);
    assert s == pre + DartFence + (code + Fence + post);
    forall j | 0 <= j < a ensures !IsAt(s, j, DartFence) {
      DartFenceIsFence(s, j);
    }
    UnfencedBlock(s, DartFence, a, c);
    BlockSlice(pre, DartFence, code, post);
  }

  /** The opening text sits right after what precedes it. */
  lemma OpeningAt(pre: string, open: string, rest: string)
    ensures IsAt(pre + open + rest, |pre|, open)
  {
    assert (pre + open + rest)[|pre|..|pre| + |open|] == open;
  }

  /** The code of a block lies between its fences. */
  lemma BlockSlice(pre: string, open: string, code: string, post: string)
    ensures var s := pre + open + code + Fence + post;
            s[|pre| + |open|..|pre| + |open| + |code|] == code
  {
  }

  /** With the opening fence first found at a and the last fence at c, the
      unfenced text is what lies between them. */
  lemma UnfencedBlock(s: string, open: string, a: nat, c: nat)
    requires open == DartFence || open == Fence
    requires IsAt(s, a, open) && forall j :: 0 <= j < a ==> !IsAt(s, j, open)
    requires open == Fence ==> !Contains(s, DartFence)
    requires IsAt(s, c, Fence) && forall j :: c < j ==> !IsAt(s, j, Fence)
    requires a + |open| < c
    ensures Unfenced(s) == s[a + |open|..c]
  {
    FindIs(s, open, a);
    RFindIs(s, Fence, c);
  }

  /** A "```dart" starts with a fence, so there is none where no fence starts. */
  lemma NoDartOutside(s: string, a: nat, c: nat)
    requires forall j :: IsAt(s, j, Fence) <==> j == a || j == c
    requires !IsAt(s, a, DartFence) && !IsAt(s, c, DartFence)
    ensures !Contains(s, DartFence)
  {
    forall j ensures !IsAt(s, j, DartFence) {
      DartFenceIsFence(s, j);
    }
  }

  lemma NotDartAt(s: string, j: nat)
    requires j + 7 <= |s| && s[j + 3..j + 7] != "dart"
    ensures !IsAt(s, j, DartFence)
  {
    assert s[j..j + 7][3..] == s[j + 3..j + 7];
    assert DartFence[3..] == "dart";
  }

  /** No "```dart" starts at a fence followed by text that does not begin
      with "dart". */
  lemma NoDartAfterOpening(pre: string, code: string, post: string)
    requires '`' !in code && (|code| < 4 || code[..4] != "dart")
    requires (|post| > 0 && post[0] == '`') || |code| >= 4
    ensures !IsAt(pre + Fence + code + post, |pre|, DartFence)
  {
    var s := pre + Fence + code + post;
    var a := |pre|;
    if a + 7 <= |s| {
      if |code| >= 4 {
        assert s[a + 3..a + 7] == code[..4];
      } else {
        assert s[a + 3..a + 7][|code|] == post[0];
      }
      NotDartAt(s, a);
    }
  }

  /** A reply holding one plain ``` block returns the block's code, stripped,
      provided no "dart" follows either fence. */
  lemma ExtractCodeOfPlainBlock(pre: string, code: string, post: string)
    requires '`' !in pre && '`' !in code && '`' !in post && |code| > 0
    requires |code| < 4 || code[..4] != "dart"
    requires |post| < 4 || post[..4] != "dart"
    ensures ExtractCode(pre + Fence + code + Fence + post) == Strip(code)
  {
    UnfencedOfPlainBlock(pre, code, post);
  }

  lemma UnfencedOfPlainBlock(pre: string, code: string, post: string)
    requires '`' !in pre && '`' !in code && '`' !in post && |code| > 0
    requires |code| < 4 || code[..4] != "dart"
    requires |post| < 4 || post[..4] != "dart"
    ensures Unfenced(pre + Fence + code + Fence + post) == code
  {
    var s := pre + Fence + code + Fence + post;
    var a := |pre|;
    var c := a + 3 + |code|;
    FencePositions(pre, Fence, code, post);
    NoDartAfterOpening(pre, code, Fence + post);
    assert s == pre + Fence + code + (Fence + post);
    if c + 7 <= |s| {
      NoDartAfterOpening(pre + Fence + code, post, "");
      assert s == pre + Fence + code + Fence + post + "";
    } else {
      NotFitting(s, c, DartFence);
    }
    NoDartOutside(s, a, c);
    UnfencedBlock(s, Fence, a, c);
    BlockSlice(pre, Fence, code, post);
  }

  /** Nothing longer than the rest of s starts at k. */
  lemma NotFitting(s: string, k: nat, pat: string)
    requires k + |pat| > |s|
    ensures !IsAt(s, k, pat)
  {
  }

  /** Whenever the last "```" does not lie after the opening fence's end,
      _extract_code returns the whole reply, stripped: the fence characters
      stay in the result. */
  lemma ExtractCodeUnopened(response: string)
    requires Contains(response, DartFence) ==> RFind(response, Fence) <= Find(response, DartFence) + |DartFence|
    requires !Contains(response, DartFence) ==> RFind(response, Fence) <= Find(response, Fence) + |Fence|
    ensures ExtractCode(response) == Strip(response)
  {
  }

  /** A reply with exactly one "```" in it has nothing to unwrap: it comes
      back stripped, fence and all. */
  lemma ExtractCodeSingleFence(response: string, k: int)
    requires IsAt(response, k, Fence)
    requires forall j :: IsAt(response, j, Fence) ==> j == k
    ensures ExtractCode(response) == Strip(response)
  {
    assert RFind(response, Fence) == k;
    if Contains(response, DartFence) {
      DartFenceIsFence(response, Find(response, DartFence));
    } else {
      assert Find(response, Fence) == k;
    }
    ExtractCodeUnopened(response);
  }

  /** An empty ```dart``` block is not unwrapped: the reply comes back whole. */
  lemma ExtractCodeEmptyBlock()
    ensures ExtractCode("```dart```") == "```dart```"
  {
    var s := "```dart```";
    assert Find(s, DartFence) == 0 by {
      assert s[0..7] == DartFence;
      FindIs(s, DartFence, 0);
    }
    assert RFind(s, Fence) <= 7;
    assert ExtractCode(s) == Strip(s) by {
      ExtractCodeUnopened(s);
    }
    assert Strip(s) == s by {
      StripTrimmed(s);
    }
  }

  // ---------------------------------------------------------------------------
  // colors.dart

  /** The colour roles of colors.dart, in order, and their default values. */
  const PaletteRoles: seq<string> := ["primary", "secondary", "accent", "background", "text"]
  const PaletteDefaults: seq<string> := ["#2C3E50", "#3498DB", "#E74C3C", "#FFFFFF", "#2C3E50"]

  /** The values colors.get(role, default) for the five roles, in order. */
  function ColorSettings(colors: seq<Member>): (r: seq<Json>)
    ensures |r| == |PaletteRoles|
  {
    seq(|PaletteRoles|, i requires 0 <= i < |PaletteRoles| => GetOr(colors, PaletteRoles[i], JStr(PaletteDefaults[i])))
  }

  /** Each setting with '#' removed; a setting that is not a string raises
      AttributeError (on .replace). */
  function HexValues(settings: seq<Json>): (r: Result<seq<string>>)
    ensures r.Ok? <==> AllStrings(settings)
    ensures r.Ok? ==> |r.value| == |settings| &&
                      forall j :: 0 <= j < |settings| ==> r.value[j] == DropChar(settings[j].s, '#')
  {
    if |settings| == 0 then Ok([])
    else
      match settings[0]
      case JStr(s) =>
        var rest := HexValues(settings[1..]);
        if rest.Err? then rest else Ok([DropChar(s, '#')] + rest.value)
      case _ => Err("AttributeError: object has no attribute 'replace'")
  }

  /** The five hex values interpolated into colors.dart, from
      theme_info.get('colors', {}); a theme or colours value that is not a
      dict raises AttributeError. */
  function PaletteValues(theme: Json): (r: Result<seq<string>>)
    ensures r.Ok? ==> |r.value| == |PaletteRoles| && forall i :: 0 <= i < |r.value| ==> '#' !in r.value[i]
  {
    if !theme.JObj? then Err("AttributeError: object has no attribute 'get'")
    else
      var colors := GetOr(theme.members, "colors", JObj([]));
      if !colors.JObj? then Err("AttributeError: object has no attribute 'get'")
      else HexValues(ColorSettings(colors.members))
  }

  function ColorLine(role: string, hex: string): string {
    "  static const Color " + role + " = Color(0xFF" + hex + ");"
  }

  /** The lines of colors.dart for the five palette values. */
  function ColorsLines(hex: seq<string>): seq<string>
    requires |hex| == |PaletteRoles|
  {
    [ "import 'package:flutter/material.dart';",
      "",
      "/// App color constants",
      "class AppColors {" ] +
    seq(|hex|, i requires 0 <= i < |hex| => ColorLine(PaletteRoles[i], hex[i])) +
    [ "  ",
      "  static const Color success = Color(0xFF27AE60);",
      "  static const Color error = Color(0xFFE74C3C);",
      "  static const Color warning = Color(0xFFF39C12);",
      "  static const Color info = Color(0xFF3498DB);",
      "}",
      "" ]
  }

  /** _generate_colors_file(theme_info) */
  function ColorsFile(theme: Json): Result<string> {
    match PaletteValues(theme)
    case Ok(hex) => Ok(Join("\n", ColorsLines(hex)))
    case Err(e) => Err(e)
  }

  /** colors.dart declares each palette role with the configured colour (or
      its default), '#' removed, behind the 0xFF alpha prefix. */
  lemma ColorsFileDeclaresPalette(theme: Json, i: nat)
    requires ColorsFile(theme).Ok? && i < |PaletteRoles|
    ensures var colors := GetOr(theme.members, "colors", JObj([])).members;
            var setting := ColorSettings(colors)[i];
            setting.JStr? &&
            Contains(ColorsFile(theme).value, ColorLine(PaletteRoles[i], DropChar(setting.s, '#')))
  {
    var hex := PaletteValues(theme).value;
    PaletteValueAt(theme, i);
    ColorsLinesDeclare(hex, i);
  }

  /** The i-th palette value is the i-th setting, a string, with '#' removed. */
  lemma PaletteValueAt(theme: Json, i: nat)
    requires PaletteValues(theme).Ok? && i < |PaletteRoles|
    ensures theme.JObj? && GetOr(theme.members, "colors", JObj([])).JObj?
    ensures var setting := ColorSettings(GetOr(theme.members, "colors", JObj([])).members)[i];
            setting.JStr? && PaletteValues(theme).value[i] == DropChar(setting.s, '#')
  {
  }

  /** The text of colors.dart holds the declaration of each role. */
  lemma ColorsLinesDeclare(hex: seq<string>, i: nat)
    requires |hex| == |PaletteRoles| && i < |hex|
    ensures Contains(Join("\n", ColorsLines(hex)), ColorLine(PaletteRoles[i], hex[i]))
  {
    var lines := ColorsLines(hex);
    var line := ColorLine(PaletteRoles[i], hex[i]);
    assert lines[4 + i] == line;
    assert IsAt(line, 0, line);
    JoinKeepsOccurrence("\n", lines, 4 + i, line);
  }

  /** A role the colours dict does not set (or a theme without colours) gets
      its default: the default's hex digits after the '#'. */
  lemma PaletteDefaultApplies(theme: Json, i: nat)
    requires PaletteValues(theme).Ok? && i < |PaletteRoles|
    requires !Has(GetOr(theme.members, "colors", JObj([])).members, PaletteRoles[i])
    ensures PaletteDefaults[i] == "#" + PaletteValues(theme).value[i]
  {
    var colors := GetOr(theme.members, "colors", JObj([])).members;
    assert ColorSettings(colors)[i] == JStr(PaletteDefaults[i]);
    DefaultDigits(i);
  }

  lemma DefaultDigits(i: nat)
    requires i < |PaletteDefaults|
    ensures PaletteDefaults[i] == "#" + DropChar(PaletteDefaults[i], '#')
  {
    var d := PaletteDefaults[i];
    if i == 0 || i == 4 {
      assert d == "#" + "2C3E50";
      DropHash("2C3E50");
    } else if i == 1 {
      assert d == "#" + "3498DB";
      DropHash("3498DB");
    } else if i == 2 {
      assert d == "#" + "E74C3C";
      DropHash("E74C3C");
    } else {
      assert d == "#" + "FFFFFF";
      DropHash("FFFFFF");
    }
  }

  /** Removing '#' from '#' followed by digits leaves the digits. */
  lemma DropHash(digits: string)
    requires '#' !in digits
    ensures DropChar("#" + digits, '#') == digits
  {
    assert ("#" + digits)[1..] == digits;
    DropCharAbsent(digits, '#');
  }

  // ---------------------------------------------------------------------------
  // _update_pubspec

  const DepsHeader := "dependencies:"

  /** A pubspec dependency line: two spaces, the package, a colon, the version. */
  function DepLine(name: string, version: string): string {
    "  " + name + ": " + version
  }

  /** The dependency lines added when their package is not mentioned yet. */
  const CommonDeps: seq<string> := [DepLine("http", "^1.1.0"), DepLine("provider", "^6.1.0")]

  /** dep.strip().split(':')[0]: the package name of a dependency line. */
  function DepName(dep: string): string {
    Split(Strip(dep), ':')[0]
  }

  lemma StripIndented(t: string)
    requires |t| > 0 && !IsSpace(t[0]) && !IsSpace(t[|t| - 1])
    ensures Strip("  " + t) == t
  {
    var s := "  " + t;
    assert s[1..] == " " + t;
    assert (" " + t)[1..] == t;
    assert Strip(t) == t;
  }

  lemma SplitAtColon(name: string, rest: string)
    requires ':' !in name
    ensures Split(name + ":" + rest, ':')[0] == name
  {
    SplitFreePrefix(name, ":" + rest, ':');
    assert name + ":" + rest == name + (":" + rest);
    assert (":" + rest)[0] == ':';
    assert Split(":" + rest, ':')[0] == "";
    assert name + "" == name;
  }

  /** The name taken from a dependency line is the package it declares. */
  lemma DepLineName(name: string, version: string)
    requires |name| > 0 && !IsSpace(name[0]) && ':' !in name
    requires |version| > 0 && !IsSpace(version[|version| - 1])
    ensures DepName(DepLine(name, version)) == name
  {
    var t := name + ":" + (" " + version);
    assert DepLine(name, version) == "  " + t;
    assert t[|t| - 1] == version[|version| - 1];
    StripIndented(t);
    SplitAtColon(name, " " + version);
  }

  /** The common dependency lines declare http and provider. */
  lemma CommonDepNames()
    ensures DepName(CommonDeps[0]) == "http" && DepName(CommonDeps[1]) == "provider"
  {
    DepLineName("http", "^1.1.0");
    DepLineName("provider", "^6.1.0");
  }

  /** Each common dependency line mentions its package and is a single line. */
  lemma CommonDepLines()
    ensures IsAt(CommonDeps[0], 2, "http") && IsAt(CommonDeps[1], 2, "provider")
    ensures forall i :: 0 <= i < |CommonDeps| ==> '\n' !in CommonDeps[i]
  {
    DepLineMentions("http", "^1.1.0");
    DepLineMentions("provider", "^6.1.0");
  }

  lemma DepLineMentions(name: string, version: string)
    requires '\n' !in name && '\n' !in version
    ensures IsAt(DepLine(name, version), 2, name) && '\n' !in DepLine(name, version)
  {
    var s := DepLine(name, version);
    assert s == "  " + name + (": " + version);
    assert s[2..2 + |name|] == name;
  }

  /** The dependency lines whose package name occurs nowhere in content, in order. */
  function MissingDeps(content: string, deps: seq<string>): (r: seq<string>)
    ensures |r| <= |deps|
    decreases |deps|
  {
    if |deps| == 0 then []
    else
      var last := deps[|deps| - 1];
      var init := MissingDeps(content, deps[..|deps| - 1]);
      if Contains(content, DepName(last)) then init else init + [last]
  }

  /** A line is missing exactly when it is one of deps whose package the
      content does not mention. */
  lemma {:induction false} MissingDepsMember(content: string, deps: seq<string>, d: string)
    ensures d in MissingDeps(content, deps) <==> d in deps && !Contains(content, DepName(d))
    decreases |deps|
  {
    if |deps| > 0 {
      var last := deps[|deps| - 1];
      MissingDepsMember(content, deps[..|deps| - 1], d);
      assert deps == deps[..|deps| - 1] + [last];
      assert d in deps <==> d in deps[..|deps| - 1] || d == last;
    }
  }

  /** next(i for i, line in enumerate(lines) if pat in line) */
  function FirstLineWith(lines: seq<string>, pat: string): (i: nat)
    requires exists j :: 0 <= j < |lines| && Contains(lines[j], pat)
    ensures i < |lines| && Contains(lines[i], pat)
    ensures forall j :: 0 <= j < i ==> !Contains(lines[j], pat)
  {
    if Contains(lines[0], pat) then 0
    else
      assert exists j :: 0 <= j < |lines[1..]| && Contains(lines[1..][j], pat) by {
        var j :| 0 <= j < |lines| && Contains(lines[j], pat);
        assert lines[1..][j - 1] == lines[j];
      }
      1 + FirstLineWith(lines[1..], pat)
  }

  /** Successive lines.insert(at + k, block[k]) calls: the block goes in at
      index at, or at the end when at is past it. */
  function InsertBlock(lines: seq<string>, at: nat, block: seq<string>): seq<string> {
    var p := Min(at, |lines|);
    lines[..p] + block + lines[p..]
  }

  /** A text that mentions dependencies: has a line that does. */
  lemma HeaderLine(content: string)
    requires Contains(content, DepsHeader)
    ensures exists j :: 0 <= j < |Split(content, '\n')| && Contains(Split(content, '\n')[j], DepsHeader)
  {
    var k :| IsAt(content, k, DepsHeader);
    SplitKeepsOccurrence(content, '\n', DepsHeader, k);
  }

  /** dep_index: the first line of content that mentions "dependencies:". */
  function HeaderIndex(content: string): (d: nat)
    requires Contains(content, DepsHeader)
    ensures d < |Split(content, '\n')| && Contains(Split(content, '\n')[d], DepsHeader)
    ensures forall j :: 0 <= j < d ==> !Contains(Split(content, '\n')[j], DepsHeader)
  {
    HeaderLine(content);
    FirstLineWith(Split(content, '\n'), DepsHeader)
  }

  /** The text written back by the update: the dependency lines of deps whose
      package is not mentioned yet, inserted offset lines below the first
      line that mentions "dependencies:"; None when no line does (the file
      is then left alone). */
  function PubspecWithDeps(content: string, deps: seq<string>, offset: nat): Option<string> {
    if !Contains(content, DepsHeader) then None
    else
      var lines := Split(content, '\n');
      Some(Join("\n", InsertBlock(lines, HeaderIndex(content) + offset, MissingDeps(content, deps))))
  }

  /** _update_pubspec as written: the block goes two lines below the header. */
  function UpdatedPubspecAsWritten(content: string): (r: Option<string>)
    ensures r.Some? <==> Contains(content, DepsHeader)
  {
    PubspecWithDeps(content, CommonDeps, 2)
  }

  /** The update with the block directly below the header, inside the
      dependencies section and clear of every existing entry. */
  function UpdatedPubspec(content: string): (r: Option<string>)
    ensures r.Some? <==> Contains(content, DepsHeader)
  {
    PubspecWithDeps(content, CommonDeps, 1)
  }

  /** Dependency lines that are single lines mentioning their own package. */
  predicate DepLinesOk(deps: seq<string>) {
    forall i :: 0 <= i < |deps| ==> '\n' !in deps[i] && Contains(deps[i], DepName(deps[i]))
  }

  /** The lines of the updated text are the old lines with the block inserted. */
  lemma PubspecUpdateLines(content: string, deps: seq<string>, offset: nat)
    requires Contains(content, DepsHeader)
    requires forall i :: 0 <= i < |deps| ==> '\n' !in deps[i]
    ensures PubspecWithDeps(content, deps, offset).Some?
    ensures Split(PubspecWithDeps(content, deps, offset).value, '\n') ==
              InsertBlock(Split(content, '\n'), HeaderIndex(content) + offset, MissingDeps(content, deps))
  {
    var lines := Split(content, '\n');
    var d := HeaderIndex(content);
    var m := MissingDeps(content, deps);
    var out := InsertBlock(lines, d + offset, m);
    SplitPiecesFree(content, '\n');
    forall i | 0 <= i < |out| ensures '\n' !in out[i] {
      var p := Min(d + offset, |lines|);
      if i < p {
        assert out[i] == lines[i];
      } else if i < p + |m| {
        assert out[i] == m[i - p];
        MissingDepsMember(content, deps, m[i - p]);
      } else {
        assert out[i] == lines[i - |m|];
      }
    }
    SplitJoin(out, '\n');
    assert "\n" == ['\n'];
  }

  /** With every dependency already mentioned the text is written back unchanged. */
  lemma PubspecUnchangedWhenComplete(content: string, deps: seq<string>, offset: nat)
    requires Contains(content, DepsHeader) && MissingDeps(content, deps) == []
    ensures PubspecWithDeps(content, deps, offset) == Some(content)
  {
    var lines := Split(content, '\n');
    var d := HeaderIndex(content);
    assert InsertBlock(lines, d + offset, []) == lines;
    JoinSplit(content, '\n');
    assert "\n" == ['\n'];
  }

  /** Text found in one of the old lines is found in the joined result. */
  lemma InsertBlockKeeps(lines: seq<string>, at: nat, block: seq<string>, j: nat, pat: string)
    requires j < |lines| && Contains(lines[j], pat)
    ensures Contains(Join("\n", InsertBlock(lines, at, block)), pat)
  {
    var out := InsertBlock(lines, at, block);
    var p := Min(at, |lines|);
    if j < p {
      assert out[j] == lines[j];
      JoinKeepsOccurrence("\n", out, j, pat);
    } else {
      assert out[j + |block|] == lines[j];
      JoinKeepsOccurrence("\n", out, j + |block|, pat);
    }
  }

  /** Text found in one of the inserted lines is found in the joined result. */
  lemma InsertBlockHas(lines: seq<string>, at: nat, block: seq<string>, t: nat, pat: string)
    requires t < |block| && Contains(block[t], pat)
    ensures Contains(Join("\n", InsertBlock(lines, at, block)), pat)
  {
    var out := InsertBlock(lines, at, block);
    var p := Min(at, |lines|);
    assert out[p + t] == block[t];
    JoinKeepsOccurrence("\n", out, p + t, pat);
  }

  /** After the update the header and every package of deps are mentioned. */
  lemma PubspecMentionsAll(content: string, deps: seq<string>, offset: nat)
    requires Contains(content, DepsHeader) && DepLinesOk(deps)
    ensures PubspecWithDeps(content, deps, offset).Some?
    ensures Contains(PubspecWithDeps(content, deps, offset).value, DepsHeader)
    ensures forall i :: 0 <= i < |deps| ==> Contains(PubspecWithDeps(content, deps, offset).value, DepName(deps[i]))
  {
    var lines := Split(content, '\n');
    var d := HeaderIndex(content);
    var m := MissingDeps(content, deps);
    InsertBlockKeeps(lines, d + offset, m, d, DepsHeader);
    forall i | 0 <= i < |deps| ensures Contains(PubspecWithDeps(content, deps, offset).value, DepName(deps[i])) {
      MentionedAfterUpdate(content, deps, offset, i);
    }
  }

  lemma MentionedAfterUpdate(content: string, deps: seq<string>, offset: nat, i: nat)
    requires Contains(content, DepsHeader) && DepLinesOk(deps) && i < |deps|
    ensures PubspecWithDeps(content, deps, offset).Some?
    ensures Contains(PubspecWithDeps(content, deps, offset).value, DepName(deps[i]))
  {
    var name := DepName(deps[i]);
    assert '\n' !in deps[i] && Contains(deps[i], name);
    NoNewlineInMention(deps[i], name);
    if Contains(content, name) {
      MentionKept(content, deps, offset, name);
    } else {
      MissingDepsMember(content, deps, deps[i]);
      MentionAdded(content, deps, offset, deps[i], name);
    }
  }

  lemma MentionKept(content: string, deps: seq<string>, offset: nat, name: string)
    requires Contains(content, DepsHeader) && Contains(content, name) && '\n' !in name
    ensures PubspecWithDeps(content, deps, offset).Some?
    ensures Contains(PubspecWithDeps(content, deps, offset).value, name)
  {
    var lines := Split(content, '\n');
    var k :| IsAt(content, k, name);
    SplitKeepsOccurrence(content, '\n', name, k);
    var j :| 0 <= j < |lines| && Contains(lines[j], name);
    InsertBlockKeeps(lines, HeaderIndex(content) + offset, MissingDeps(content, deps), j, name);
  }

  lemma MentionAdded(content: string, deps: seq<string>, offset: nat, dep: string, name: string)
    requires Contains(content, DepsHeader) && dep in MissingDeps(content, deps) && Contains(dep, name)
    ensures PubspecWithDeps(content, deps, offset).Some?
    ensures Contains(PubspecWithDeps(content, deps, offset).value, name)
  {
    var m := MissingDeps(content, deps);
    var t :| 0 <= t < |m| && m[t] == dep;
    InsertBlockHas(Split(content, '\n'), HeaderIndex(content) + offset, m, t, name);
  }

  /** A text mentioned by a single line is itself free of line breaks. */
  lemma NoNewlineInMention(line: string, pat: string)
    requires '\n' !in line && Contains(line, pat)
    ensures '\n' !in pat
  {
    var k :| IsAt(line, k, pat);
    forall j | 0 <= j < |pat| ensures pat[j] != '\n' {
      assert pat[j] == line[k + j];
    }
  }

  /** Nothing is missing from a text that mentions every package. */
  lemma {:induction false} NothingMissing(content: string, deps: seq<string>)
    requires forall i :: 0 <= i < |deps| ==> Contains(content, DepName(deps[i]))
    ensures MissingDeps(content, deps) == []
    decreases |deps|
  {
    if |deps| > 0 {
      NothingMissing(content, deps[..|deps| - 1]);
      assert Contains(content, DepName(deps[|deps| - 1]));
    }
  }

  /** Running the update on its own output changes nothing more. */
  lemma PubspecIdempotent(content: string, deps: seq<string>, offset: nat)
    requires Contains(content, DepsHeader) && DepLinesOk(deps)
    ensures PubspecWithDeps(content, deps, offset).Some?
    ensures PubspecWithDeps(PubspecWithDeps(content, deps, offset).value, deps, offset)
            == PubspecWithDeps(content, deps, offset)
  {
    PubspecMentionsAll(content, deps, offset);
    var r := PubspecWithDeps(content, deps, offset).value;
    NothingMissing(r, deps);
    PubspecUnchangedWhenComplete(r, deps, offset);
  }

  /** The common dependency lines meet what the update lemmas ask of them. */
  lemma CommonDepsOk()
    ensures DepLinesOk(CommonDeps)
  {
    CommonDepNames();
    CommonDepLines();
    forall i | 0 <= i < |CommonDeps| ensures Contains(CommonDeps[i], DepName(CommonDeps[i])) {
      if i == 0 {
        assert IsAt(CommonDeps[0], 2, DepName(CommonDeps[0]));
      } else {
        assert IsAt(CommonDeps[1], 2, DepName(CommonDeps[1]));
      }
    }
  }

  /** The update, as written and corrected alike, leaves a pubspec without a
      dependencies section alone and otherwise mentions http and provider,
      with a second run changing nothing. */
  lemma UpdatedPubspecAddsCommonDeps(content: string)
    ensures UpdatedPubspecAsWritten(content).None? <==> !Contains(content, DepsHeader)
    ensures UpdatedPubspecAsWritten(content).Some? ==>
              Contains(UpdatedPubspecAsWritten(content).value, "http") &&
              Contains(UpdatedPubspecAsWritten(content).value, "provider") &&
              UpdatedPubspecAsWritten(UpdatedPubspecAsWritten(content).value) == UpdatedPubspecAsWritten(content)
    ensures UpdatedPubspec(content).None? <==> !Contains(content, DepsHeader)
    ensures UpdatedPubspec(content).Some? ==>
              Contains(UpdatedPubspec(content).value, "http") &&
              Contains(UpdatedPubspec(content).value, "provider") &&
              UpdatedPubspec(UpdatedPubspec(content).value) == UpdatedPubspec(content)
  {
    if Contains(content, DepsHeader) {
      CommonDepsOk();
      CommonDepNames();
      PubspecMentionsAll(content, CommonDeps, 2);
      PubspecIdempotent(content, CommonDeps, 2);
      PubspecMentionsAll(content, CommonDeps, 1);
      PubspecIdempotent(content, CommonDeps, 1);
    }
  }

  // The generated pubspec.yaml and where the update puts its lines in it.

  /** A line whose only colon past index 11 is absent cannot hold "dependencies:". */
  lemma NoHeaderIn(pre: string, rest: string)
    requires |pre| <= 12 && ':' !in rest
    ensures !Contains(pre + rest, DepsHeader)
  {
    var s := pre + rest;
    forall k ensures !IsAt(s, k, DepsHeader) {
      if 0 <= k && k + |DepsHeader| <= |s| {
        assert s[k..k + |DepsHeader|][12] == s[k + 12] == rest[k + 12 - |pre|];
        assert rest[k + 12 - |pre|] in rest;
      }
    }
  }

  /** Every line of the template body is a single line. */
  lemma BodyLinesSingle()
    ensures forall i :: 0 <= i < |PubspecBody| ==> '\n' !in PubspecBody[i]
  {
    BodyLinesSingleFrom0();
    BodyLinesSingleFrom2();
    BodyLinesSingleFrom4();
    BodyLinesSingleFrom8();
    BodyLinesSingleFrom12();
    BodyLinesSingleFrom16();
    BodyLinesSingleFrom20();
    BodyLinesSingleFrom24();
  }

  lemma BodyLinesSingleFrom0()
    ensures forall i :: 0 <= i < 2 ==> '\n' !in PubspecBody[i]
  {
    NotInAppend('\n', "description:", " A Flutter application built with OneDayApp.");
  }

  lemma NotInAppend(c: char, a: string, b: string)
    requires c !in a && c !in b
    ensures c !in a + b
  {
  }

  lemma BodyLinesSingleFrom2()
    ensures forall i :: 2 <= i < 4 ==> '\n' !in PubspecBody[i]
  {
  }

  lemma BodyLinesSingleFrom4()
    ensures forall i :: 4 <= i < 8 ==> '\n' !in PubspecBody[i]
  {
  }

  lemma BodyLinesSingleFrom8()
    ensures forall i :: 8 <= i < 12 ==> '\n' !in PubspecBody[i]
  {
  }

  lemma BodyLinesSingleFrom12()
    ensures forall i :: 12 <= i < 16 ==> '\n' !in PubspecBody[i]
  {
  }

  lemma BodyLinesSingleFrom16()
    ensures forall i :: 16 <= i < 20 ==> '\n' !in PubspecBody[i]
  {
  }

  lemma BodyLinesSingleFrom20()
    ensures forall i :: 20 <= i < 24 ==> '\n' !in PubspecBody[i]
  {
  }

  lemma BodyLinesSingleFrom24()
    ensures forall i :: 24 <= i < 28 ==> '\n' !in PubspecBody[i]
  {
  }

  lemma TemplateLinesSingle(project: string)
    requires '\n' !in project
    ensures forall i :: 0 <= i < |PubspecLines(project)| ==> '\n' !in PubspecLines(project)[i]
  {
    BodyLinesSingle();
    var L := PubspecLines(project);
    forall i | 0 <= i < |L| ensures '\n' !in L[i] {
      if i > 0 {
        assert L[i] == PubspecBody[i - 1];
      }
    }
  }

  /** None of the lines before the header line mentions "dependencies:". */
  lemma TemplateNoEarlyHeader(project: string)
    requires ':' !in project
    ensures forall j :: 0 <= j < 8 ==> !Contains(PubspecLines(project)[j], DepsHeader)
  {
    var L := PubspecLines(project);
    assert L[0] == "name:" + (" " + project);
    NoHeaderIn("name:", " " + project);
    BodyNoHeaderFirst();
    BodyNoHeaderNext();
    forall j | 0 <= j < 8 ensures !Contains(L[j], DepsHeader) {
      if j > 0 {
        assert L[j] == PubspecBody[j - 1];
      }
    }
  }

  lemma BodyNoHeaderFirst()
    ensures forall j :: 0 <= j < 3 ==> !Contains(PubspecBody[j], DepsHeader)
  {
    DescriptionNoHeader();
    PublishNoHeader();
    VersionNoHeader();
  }

  lemma DescriptionNoHeader()
    ensures !Contains("description:" + " A Flutter application built with OneDayApp.", DepsHeader)
  {
    NoHeaderIn("description:", " A Flutter application built with OneDayApp.");
  }

  // One lemma per template line: each literal needs its own small proof
  // context, and folding these into one proof costs 1.5M to 3M resource units.
  lemma PublishNoHeader()
    ensures !Contains("publish_to: 'none'", DepsHeader)
  {
    NoHeaderIn("publish_to:", " 'none'");
    assert "publish_to: 'none'" == "publish_to:" + " 'none'";
  }

  // Kept apart from PublishNoHeader for the same cost reason.
  lemma VersionNoHeader()
    ensures !Contains("version: 1.0.0+1", DepsHeader)
  {
    NoHeaderIn("version:", " 1.0.0+1");
    assert "version: 1.0.0+1" == "version:" + " 1.0.0+1";
  }

  lemma BodyNoHeaderNext()
    ensures forall j :: 3 <= j < 7 ==> !Contains(PubspecBody[j], DepsHeader)
  {
    BodyLinesNext();
    EnvironmentNoHeader(PubspecBody);
  }

  /** Lines shaped like the template's environment section do not mention
      "dependencies:". */
  lemma EnvironmentNoHeader(body: seq<string>)
    requires |body| >= 7 && body[3] == "" && body[4] == "environment:"
    requires body[5] == "  sdk: '>=3.0.0 <4.0.0'" && body[6] == ""
    ensures forall j :: 3 <= j < 7 ==> !Contains(body[j], DepsHeader)
  {
    forall j | 3 <= j < 7 ensures !Contains(body[j], DepsHeader) {
      if j == 4 {
        NoHeaderIn("environment:", "");
        assert "environment:" + "" == "environment:";
      } else if j == 5 {
        SdkNoHeader();
      } else {
        NoHeaderIn("", "");
        assert "" + "" == "";
      }
    }
  }

  lemma BodyLinesNext()
    ensures |PubspecBody| >= 7
    ensures PubspecBody[3] == "" && PubspecBody[4] == "environment:"
    ensures PubspecBody[5] == "  sdk: '>=3.0.0 <4.0.0'" && PubspecBody[6] == ""
  {
  }

  // Kept apart from PublishNoHeader for the same cost reason.
  lemma SdkNoHeader()
    ensures !Contains("  sdk: '>=3.0.0 <4.0.0'", DepsHeader)
  {
    NoHeaderIn("  sdk:", " '>=3.0.0 <4.0.0'");
    assert "  sdk: '>=3.0.0 <4.0.0'" == "  sdk:" + " '>=3.0.0 <4.0.0'";
  }

  /** Split the template back into its lines and find its dependencies header. */
  lemma TemplateHeader(project: string)
    requires ':' !in project && '\n' !in project
    ensures Split(PubspecText(project), '\n') == PubspecLines(project)
    ensures Contains(PubspecText(project), DepsHeader)
    ensures HeaderIndex(PubspecText(project)) == 8
  {
    var L := PubspecLines(project);
    TemplateLinesSingle(project);
    SplitJoin(L, '\n');
    assert "\n" == ['\n'];
    assert L[8] == PubspecBody[7] == DepsHeader;
    assert IsAt(L[8], 0, DepsHeader);
    JoinKeepsOccurrence("\n", L, 8, DepsHeader);
    TemplateNoEarlyHeader(project);
  }

  /** The template's lines around its dependencies header. */
  lemma TemplateLinesAt(project: string)
    ensures |PubspecLines(project)| == 29
    ensures PubspecLines(project)[8] == DepsHeader
    ensures PubspecLines(project)[9] == "  flutter:"
    ensures PubspecLines(project)[10] == "    sdk: flutter"
  {
  }

  /** Inserting a block at an index inside the lines, line by line. */
  lemma InsertBlockByIndex(lines: seq<string>, at: nat, block: seq<string>)
    requires at <= |lines|
    ensures var out := InsertBlock(lines, at, block);
            |out| == |lines| + |block| &&
            (forall i :: 0 <= i < at ==> out[i] == lines[i]) &&
            (forall i :: 0 <= i < |block| ==> out[at + i] == block[i]) &&
            (forall i :: at <= i < |lines| ==> out[i + |block|] == lines[i])
  {
    var out := InsertBlock(lines, at, block);
    assert out == lines[..at] + block + lines[at..];
  }

  /** The lines of the generated pubspec.yaml around its dependencies header. */
  lemma TemplateShape(project: string)
    requires ':' !in project && '\n' !in project
    ensures Contains(PubspecText(project), DepsHeader)
    ensures HeaderIndex(PubspecText(project)) == 8
    ensures var lines := Split(PubspecText(project), '\n');
            |lines| == 29 &&
            lines[8] == DepsHeader && lines[9] == "  flutter:" && lines[10] == "    sdk: flutter"
  {
    TemplateHeader(project);
    TemplateLinesAt(project);
  }

  /** A pubspec text shaped like the template: its header on line 8,
      followed by the two lines of the flutter entry. */
  predicate TemplateShaped(content: string) {
    var lines := Split(content, '\n');
    Contains(content, DepsHeader) && HeaderIndex(content) == 8 &&
    |lines| == 29 && lines[8] == DepsHeader && lines[9] == "  flutter:" && lines[10] == "    sdk: flutter"
  }

  lemma AsWrittenSplitsEntry(content: string, deps: seq<string>)
    requires TemplateShaped(content)
    requires forall i :: 0 <= i < |deps| ==> '\n' !in deps[i]
    requires MissingDeps(content, deps) != []
    ensures PubspecWithDeps(content, deps, 2).Some?
    ensures var after := Split(PubspecWithDeps(content, deps, 2).value, '\n');
            |after| == 29 + |MissingDeps(content, deps)| &&
            after[9] == "  flutter:" && after[10] == MissingDeps(content, deps)[0]
  {
    PubspecUpdateLines(content, deps, 2);
    BlockAfterEntryHead(Split(content, '\n'), MissingDeps(content, deps));
  }

  lemma EntryKept(content: string, deps: seq<string>)
    requires TemplateShaped(content)
    requires forall i :: 0 <= i < |deps| ==> '\n' !in deps[i]
    ensures PubspecWithDeps(content, deps, 1).Some?
    ensures var m := MissingDeps(content, deps);
            var after := Split(PubspecWithDeps(content, deps, 1).value, '\n');
            |after| == 29 + |m| &&
            after[8] == DepsHeader &&
            (forall i :: 0 <= i < |m| ==> after[9 + i] == m[i]) &&
            after[9 + |m|] == "  flutter:" &&
            after[10 + |m|] == "    sdk: flutter"
  {
    PubspecUpdateLines(content, deps, 1);
    BlockBelowHeader(Split(content, '\n'), MissingDeps(content, deps));
  }

  /** Template lines with a block inserted two lines below the header. */
  lemma BlockAfterEntryHead(before: seq<string>, m: seq<string>)
    requires |before| == 29 && before[9] == "  flutter:" && m != []
    ensures var after := InsertBlock(before, 8 + 2, m);
            |after| == 29 + |m| && after[9] == "  flutter:" && after[10] == m[0]
  {
    InsertBlockByIndex(before, 10, m);
  }

  /** Template lines with a block inserted directly below the header. */
  lemma BlockBelowHeader(before: seq<string>, m: seq<string>)
    requires |before| == 29 && before[8] == DepsHeader
    requires before[9] == "  flutter:" && before[10] == "    sdk: flutter"
    ensures var after := InsertBlock(before, 8 + 1, m);
            |after| == 29 + |m| &&
            after[8] == DepsHeader &&
            (forall i :: 0 <= i < |m| ==> after[9 + i] == m[i]) &&
            after[9 + |m|] == "  flutter:" &&
            after[10 + |m|] == "    sdk: flutter"
  {
    InsertBlockByIndex(before, 9, m);
    var after := InsertBlock(before, 9, m);
    assert after[9 + |m|] == before[9];
    assert after[10 + |m|] == before[10];
  }

  /** As written, the first added line lands between "  flutter:" and its
      "    sdk: flutter", detaching the sdk entry from the flutter package. */
  lemma AsWrittenSplitsFlutterEntry(project: string)
    requires ':' !in project && '\n' !in project
    requires MissingDeps(PubspecText(project), CommonDeps) != []
    ensures UpdatedPubspecAsWritten(PubspecText(project)).Some?
    ensures var after := Split(UpdatedPubspecAsWritten(PubspecText(project)).value, '\n');
            |after| == 29 + |MissingDeps(PubspecText(project), CommonDeps)| &&
            after[9] == "  flutter:" &&
            after[10] == MissingDeps(PubspecText(project), CommonDeps)[0] &&
            after[10] != "    sdk: flutter"
  {
    TemplateShape(project);
    CommonDepLines();
    AsWrittenSplitsEntry(PubspecText(project), CommonDeps);
    MissingNotSdk(PubspecText(project));
  }

  /** No line the update adds is the sdk line of the flutter entry. */
  lemma MissingNotSdk(content: string)
    ensures forall i :: 0 <= i < |MissingDeps(content, CommonDeps)| ==>
              MissingDeps(content, CommonDeps)[i] != "    sdk: flutter"
  {
    var m := MissingDeps(content, CommonDeps);
    forall i | 0 <= i < |m| ensures m[i] != "    sdk: flutter" {
      MissingDepsMember(content, CommonDeps, m[i]);
      assert m[i] in m;
      assert |CommonDeps[0]| == 14 && |CommonDeps[1]| == 18;
    }
  }

  /** With the block directly below the header, "  flutter:" keeps its
      "    sdk: flutter" line, both moved down past the added lines. */
  lemma UpdatedPubspecKeepsFlutterEntry(project: string)
    requires ':' !in project && '\n' !in project
    ensures UpdatedPubspec(PubspecText(project)).Some?
    ensures var m := MissingDeps(PubspecText(project), CommonDeps);
            var after := Split(UpdatedPubspec(PubspecText(project)).value, '\n');
            |after| == 29 + |m| &&
            after[8] == DepsHeader &&
            (forall i :: 0 <= i < |m| ==> after[9 + i] == m[i]) &&
            after[9 + |m|] == "  flutter:" &&
            after[10 + |m|] == "    sdk: flutter"
  {
    TemplateShape(project);
    CommonDepLines();
    EntryKept(PubspecText(project), CommonDeps);
  }

  // ---------------------------------------------------------------------------
  // The generation steps, over the disk and the LLM

  /** One answered item: the file for the item receives the code extracted
      from the reply. */
  datatype Answer = Answer(item: string, reply: string)

  /** What the loop over the listed screens or models did: the requests it
      sent, the items that got a reply, in order, and how it ended. */
  datatype Run = Run(requests: seq<Request>, answers: seq<Answer>, outcome: Result<()>)

  /** The replies left after n calls: each call uses up one, when there is one. */
  function Drop<T>(s: seq<T>, n: nat): (r: seq<T>)
    ensures |r| == if n <= |s| then |s| - n else 0
  {
    if n <= |s| then s[n..] else []
  }

  const LlmFailure := "LLM error: generate raised"
  const NotAString := "AttributeError: item has no attribute 'lower'"
  const NoSuchDirectory := "FileNotFoundError: parent directory missing"

  /** The two kinds of source file generated one per list item. */
  datatype CodeKind = ScreenCode | ModelCode

  /** The prompt for one screen (a feature) or one model. */
  function CodePrompt(kind: CodeKind, item: string, context: Json): Prompt {
    match kind
    case ScreenCode => ScreenPrompt(item, context)
    case ModelCode => ModelPrompt(item, context)
  }

  /** max_tokens for one screen or one model. */
  function CodeTokens(kind: CodeKind): nat {
    match kind
    case ScreenCode => 2000
    case ModelCode => 1500
  }

  /** <name>_screen.dart for a feature, <name>.dart for a model. */
  function CodeFileName(kind: CodeKind, item: string): string {
    match kind
    case ScreenCode => CleanName(item) + "_screen.dart"
    case ModelCode => CleanName(item) + ".dart"
  }

  /** The request for one item. */
  function CodeRequest(kind: CodeKind, item: string, context: Json): Request {
    Request(CodePrompt(kind, item, context), CodeTokens(kind))
  }

  /** The write for one answered item, into dir. */
  function CodeWrite(kind: CodeKind, dir: Path, a: Answer): Write {
    Write(dir + [CodeFileName(kind, a.item)], Plain(ExtractCode(a.reply)))
  }

  /** The writes for the answered items, in order. */
  function CodeWrites(kind: CodeKind, dir: Path, answers: seq<Answer>): (ws: seq<Write>)
    ensures |ws| == |answers|
  {
    if |answers| == 0 then []
    else CodeWrites(kind, dir, answers[..|answers| - 1]) + [CodeWrite(kind, dir, answers[|answers| - 1])]
  }

  /** The k-th write is that of the k-th answer. */
  lemma {:induction false} CodeWritesAt(kind: CodeKind, dir: Path, answers: seq<Answer>, k: nat)
    requires k < |answers|
    ensures CodeWrites(kind, dir, answers)[k] == CodeWrite(kind, dir, answers[k])
    decreases |answers|
  {
    if k < |answers| - 1 {
      CodeWritesAt(kind, dir, answers[..|answers| - 1], k);
    }
  }

  /** One more answer adds its write at the end. */
  lemma CodeWritesPush(kind: CodeKind, dir: Path, answers: seq<Answer>, a: Answer)
    ensures CodeWrites(kind, dir, answers + [a]) == CodeWrites(kind, dir, answers) + [CodeWrite(kind, dir, a)]
  {
    assert (answers + [a])[..|answers|] == answers;
  }

  /** The loop over the listed items: for each one in order, a request and,
      on a reply, an answer.  A non-string item stops the loop before its
      request; a failed call stops it after. */
  function CodeRun(kind: CodeKind, items: seq<Json>, context: Json, replies: seq<Option<string>>): Run
    decreases |items|
  {
    if |items| == 0 then Run([], [], Ok(()))
    else if !items[0].JStr? then Run([], [], Err(NotAString))
    else
      var req := CodeRequest(kind, items[0].s, context);
      if replies == [] || replies[0].None? then Run([req], [], Err(LlmFailure))
      else
        var rest := CodeRun(kind, items[1..], context, replies[1..]);
        Run([req] + rest.requests, [Answer(items[0].s, replies[0].value)] + rest.answers, rest.outcome)
  }

  /** The run ends well exactly when every item is a string and every call
      is answered. */
  lemma {:induction false} CodeRunSucceeds(kind: CodeKind, items: seq<Json>, context: Json,
                                           replies: seq<Option<string>>)
    ensures CodeRun(kind, items, context, replies).outcome.Ok? <==>
              AllStrings(items) && |items| <= |replies| &&
              forall k :: 0 <= k < |items| ==> replies[k].Some?
    decreases |items|
  {
    if |items| > 0 && items[0].JStr? && replies != [] && replies[0].Some? {
      CodeRunSucceeds(kind, items[1..], context, replies[1..]);
      assert forall k :: 1 <= k < |items| ==> items[k] == items[1..][k - 1];
      assert forall k :: 1 <= k < |items| ==> k < |replies| ==> replies[k] == replies[1..][k - 1];
    }
  }

  /** A request is sent for every answer, plus one when a call fails; on
      success every item is answered. */
  lemma {:induction false} CodeRunCounts(kind: CodeKind, items: seq<Json>, context: Json,
                                         replies: seq<Option<string>>)
    ensures var r := CodeRun(kind, items, context, replies);
            |r.answers| <= |r.requests| <= |items| &&
            (r.outcome.Ok? ==> |r.answers| == |items|) &&
            (r.outcome == Err(LlmFailure) ==> |r.requests| == |r.answers| + 1) &&
            (r.outcome == Err(NotAString) ==> |r.requests| == |r.answers|)
    decreases |items|
  {
    if |items| > 0 && items[0].JStr? && replies != [] && replies[0].Some? {
      CodeRunCounts(kind, items[1..], context, replies[1..]);
    }
  }

  /** The k-th request asks for the k-th item, which is a string. */
  lemma {:induction false} CodeRunRequests(kind: CodeKind, items: seq<Json>, context: Json,
                                           replies: seq<Option<string>>, k: nat)
    requires k < |CodeRun(kind, items, context, replies).requests|
    ensures k < |items| && items[k].JStr?
    ensures CodeRun(kind, items, context, replies).requests[k] == CodeRequest(kind, items[k].s, context)
    decreases |items|
  {
    if |items| > 0 && items[0].JStr? && replies != [] && replies[0].Some? && k > 0 {
      CodeRunRequests(kind, items[1..], context, replies[1..], k - 1);
    }
  }

  /** The k-th answer pairs the k-th item with the k-th reply. */
  lemma {:induction false} CodeRunAnswers(kind: CodeKind, items: seq<Json>, context: Json,
                                          replies: seq<Option<string>>, k: nat)
    requires k < |CodeRun(kind, items, context, replies).answers|
    ensures k < |items| && items[k].JStr? && k < |replies| && replies[k].Some?
    ensures CodeRun(kind, items, context, replies).answers[k] == Answer(items[k].s, replies[k].value)
    decreases |items|
  {
    if |items| > 0 && items[0].JStr? && replies != [] && replies[0].Some? && k > 0 {
      CodeRunAnswers(kind, items[1..], context, replies[1..], k - 1);
    }
  }

  /** The k-th write puts the code extracted from the k-th reply into the
      file named after the k-th item, in dir. */
  lemma CodeRunWrites(kind: CodeKind, dir: Path, items: seq<Json>, context: Json,
                      replies: seq<Option<string>>, k: nat)
    requires k < |CodeRun(kind, items, context, replies).answers|
    ensures k < |items| && items[k].JStr? && k < |replies| && replies[k].Some?
    ensures var w := CodeWrites(kind, dir, CodeRun(kind, items, context, replies).answers)[k];
            w.path == dir + [CodeFileName(kind, items[k].s)] &&
            w.content == Plain(ExtractCode(replies[k].value))
  {
    CodeRunAnswers(kind, items, context, replies, k);
    CodeWritesAt(kind, dir, CodeRun(kind, items, context, replies).answers, k);
  }

  /** One turn of the loop: the run from item i on is that item's request
      and answer followed by the run from item i + 1 on. */
  lemma CodeRunStep(kind: CodeKind, items: seq<Json>, i: nat, context: Json, replies: seq<Option<string>>)
    requires i < |items| && items[i].JStr? && replies != [] && replies[0].Some?
    ensures var rest := CodeRun(kind, items[i + 1..], context, replies[1..]);
            CodeRun(kind, items[i..], context, replies) ==
              Run([CodeRequest(kind, items[i].s, context)] + rest.requests,
                  [Answer(items[i].s, replies[0].value)] + rest.answers,
                  rest.outcome)
  {
    assert items[i..][0] == items[i] && items[i..][1..] == items[i + 1..];
  }

  /** One turn of the loop, on item i: on Ok the item's request was sent and
      its file written; on Err the run from item i on is over, with no
      answer, and this is all it did. */
  method GenerateCodeFile(disk: Disk, llm: Provider, kind: CodeKind, dir: Path,
                          items: seq<Json>, i: nat, context: Json) returns (outcome: Result<()>)
    requires i < |items| && DirExists(disk.dirs, dir)
    modifies disk, llm
    ensures disk.dirs == old(disk.dirs)
    ensures var r := CodeRun(kind, items[i..], context, old(llm.replies));
            outcome.Err? ==>
              outcome == r.outcome && r.answers == [] &&
              llm.requests == old(llm.requests) + r.requests &&
              llm.replies == Drop(old(llm.replies), |r.requests|) &&
              disk.files == old(disk.files)
    ensures outcome.Ok? ==>
              items[i].JStr? && old(llm.replies) != [] && old(llm.replies)[0].Some? &&
              var w := CodeWrite(kind, dir, Answer(items[i].s, old(llm.replies)[0].value));
              llm.requests == old(llm.requests) + [CodeRequest(kind, items[i].s, context)] &&
              llm.replies == old(llm.replies)[1..] &&
              disk.files == old(disk.files)[w.path := w.content]
  {
    var item := items[i];
    assert items[i..][0] == item;
    if !item.JStr? {
      outcome := Err(NotAString);
      return;
    }
    var reply := llm.Generate(CodePrompt(kind, item.s, context), CodeTokens(kind));
    if reply.None? {
      outcome := Err(LlmFailure);
      return;
    }
    var w := CodeWrite(kind, dir, Answer(item.s, reply.value));
    assert w.path[..|w.path| - 1] == dir;
    var ok := disk.WriteText(w.path, w.content);
    outcome := Ok(());
  }

  /** The state of the loop over the items before item i: the requests
      sent and the answers received so far are reqs and answers, and the
      whole run is them followed by the run from item i on. */
  predicate RunSoFar(kind: CodeKind, dir: Path, items: seq<Json>, i: nat, context: Json, whole: Run,
                     requests0: seq<Request>, replies0: seq<Option<string>>, files0: map<Path, Content>,
                     reqs: seq<Request>, answers: seq<Answer>,
                     requests: seq<Request>, replies: seq<Option<string>>, files: map<Path, Content>)
  {
    i <= |items| &&
    requests == requests0 + reqs &&
    replies == Drop(replies0, |reqs|) &&
    files == ApplyWrites(files0, CodeWrites(kind, dir, answers)) &&
    whole == Prefixed(reqs, answers, CodeRun(kind, items[i..], context, replies))
  }

  /** One turn of the loop with its bookkeeping: either the loop moves on to
      item i + 1, or the whole run is over and this is its end state. */
  method CodeStep(disk: Disk, llm: Provider, kind: CodeKind, dir: Path, items: seq<Json>, i: nat,
                  context: Json, ghost whole: Run, ghost requests0: seq<Request>,
                  ghost replies0: seq<Option<string>>, ghost files0: map<Path, Content>,
                  ghost reqs: seq<Request>, ghost answers: seq<Answer>)
    returns (outcome: Result<()>, ghost reqs': seq<Request>, ghost answers': seq<Answer>)
    requires i < |items| && DirExists(disk.dirs, dir)
    requires RunSoFar(kind, dir, items, i, context, whole, requests0, replies0, files0, reqs, answers,
                      llm.requests, llm.replies, disk.files)
    modifies disk, llm
    ensures disk.dirs == old(disk.dirs)
    ensures outcome.Ok? ==>
              RunSoFar(kind, dir, items, i + 1, context, whole, requests0, replies0, files0, reqs', answers',
                       llm.requests, llm.replies, disk.files)
    ensures outcome.Err? ==>
              outcome == whole.outcome &&
              llm.requests == requests0 + whole.requests &&
              llm.replies == Drop(replies0, |whole.requests|) &&
              disk.files == ApplyWrites(files0, CodeWrites(kind, dir, whole.answers))
  {
    ghost var before := llm.replies;
    ghost var r := CodeRun(kind, items[i..], context, before);
    outcome := GenerateCodeFile(disk, llm, kind, dir, items, i, context);
    if outcome.Err? {
      RunStopped(whole, requests0, reqs, answers, r, replies0, before);
      return outcome, reqs, answers;
    }
    ghost var req := CodeRequest(kind, items[i].s, context);
    ghost var a := Answer(items[i].s, before[0].value);
    CodeRunPrefixed(kind, items, i, context, before, reqs, answers);
    RunAdvanced(requests0, reqs, req, kind, dir, answers, a, files0, replies0, before);
    reqs' := reqs + [req];
    answers' := answers + [a];
  }

  /** The step that writes the screens or the models: one request per item
      and one file per answered request, in the directory dir. */
  method GenerateCodeFiles(disk: Disk, llm: Provider, kind: CodeKind, dir: Path,
                           items: seq<Json>, context: Json) returns (outcome: Result<()>)
    requires DirExists(disk.dirs, dir)
    modifies disk, llm
    ensures var r := CodeRun(kind, items, context, old(llm.replies));
            outcome == r.outcome &&
            llm.requests == old(llm.requests) + r.requests &&
            llm.replies == Drop(old(llm.replies), |r.requests|) &&
            disk.files == ApplyWrites(old(disk.files), CodeWrites(kind, dir, r.answers)) &&
            disk.dirs == old(disk.dirs)
  {
    ghost var whole := CodeRun(kind, items, context, llm.replies);
    ghost var replies0 := llm.replies;
    ghost var requests0 := llm.requests;
    ghost var files0 := disk.files;
    ghost var reqs: seq<Request> := [];
    ghost var answers: seq<Answer> := [];
    var i := 0;
    assert items[0..] == items;
    while i < |items|
      invariant RunSoFar(kind, dir, items, i, context, whole, requests0, replies0, files0, reqs, answers,
                         llm.requests, llm.replies, disk.files)
      invariant disk.dirs == old(disk.dirs)
    {
      outcome, reqs, answers := CodeStep(disk, llm, kind, dir, items, i, context,
                                         whole, requests0, replies0, files0, reqs, answers);
      if outcome.Err? {
        return;
      }
      i := i + 1;
    }
    outcome := Ok(());
    CodeRunDone(kind, items, i, context, llm.replies, reqs, answers);
  }

  /** A run with requests and answers already made in front of it. */
  function Prefixed(reqs: seq<Request>, answers: seq<Answer>, r: Run): Run {
    Run(reqs + r.requests, answers + r.answers, r.outcome)
  }

  /** The loop invariant carried over one answered item. */
  lemma CodeRunPrefixed(kind: CodeKind, items: seq<Json>, i: nat, context: Json,
                        replies: seq<Option<string>>, reqs: seq<Request>, answers: seq<Answer>)
    requires i < |items| && items[i].JStr? && replies != [] && replies[0].Some?
    ensures Prefixed(reqs, answers, CodeRun(kind, items[i..], context, replies)) ==
            Prefixed(reqs + [CodeRequest(kind, items[i].s, context)],
                     answers + [Answer(items[i].s, replies[0].value)],
                     CodeRun(kind, items[i + 1..], context, replies[1..]))
  {
    CodeRunStep(kind, items, i, context, replies);
    var rest := CodeRun(kind, items[i + 1..], context, replies[1..]);
    Associative(reqs, [CodeRequest(kind, items[i].s, context)], rest.requests);
    Associative(answers, [Answer(items[i].s, replies[0].value)], rest.answers);
  }

  /** The loop invariant at the end of the items. */
  lemma CodeRunDone(kind: CodeKind, items: seq<Json>, i: nat, context: Json,
                    replies: seq<Option<string>>, reqs: seq<Request>, answers: seq<Answer>)
    requires i == |items|
    ensures Prefixed(reqs, answers, CodeRun(kind, items[i..], context, replies)) == Run(reqs, answers, Ok(()))
  {
    assert items[i..] == [];
    assert reqs + [] == reqs && answers + [] == answers;
  }

  /** The bookkeeping when the loop stops at an item whose run r failed. */
  lemma RunStopped(whole: Run, requests0: seq<Request>, reqs: seq<Request>, answers: seq<Answer>, r: Run,
                   replies0: seq<Option<string>>, before: seq<Option<string>>)
    requires whole == Prefixed(reqs, answers, r) && r.answers == [] && before == Drop(replies0, |reqs|)
    ensures whole.outcome == r.outcome && whole.answers == answers
    ensures (requests0 + reqs) + r.requests == requests0 + whole.requests
    ensures Drop(before, |r.requests|) == Drop(replies0, |whole.requests|)
  {
    DropAfter(replies0, |reqs|, |r.requests|, before);
    Associative(requests0, reqs, r.requests);
    assert answers + [] == answers;
  }

  /** The bookkeeping when the loop moves past an answered item. */
  lemma RunAdvanced(requests0: seq<Request>, reqs: seq<Request>, req: Request,
                    kind: CodeKind, dir: Path, answers: seq<Answer>, a: Answer,
                    files0: map<Path, Content>, replies0: seq<Option<string>>, before: seq<Option<string>>)
    requires before == Drop(replies0, |reqs|) && before != []
    ensures (requests0 + reqs) + [req] == requests0 + (reqs + [req])
    ensures before[1..] == Drop(replies0, |reqs + [req]|)
    ensures var w := CodeWrite(kind, dir, a);
            ApplyWrites(files0, CodeWrites(kind, dir, answers))[w.path := w.content] ==
            ApplyWrites(files0, CodeWrites(kind, dir, answers + [a]))
  {
    DropStep(replies0, |reqs|, before);
    CodeWritesPush(kind, dir, answers, a);
    ApplyWritesAppend(files0, CodeWrites(kind, dir, answers), [CodeWrite(kind, dir, a)]);
    Associative(requests0, reqs, [req]);
  }

  lemma Associative<T>(a: seq<T>, b: seq<T>, c: seq<T>)
    ensures a + (b + c) == (a + b) + c
  {
  }

  /** Writes made in two batches land as the whole series does. */
  lemma {:induction false} ApplyWritesAppend(files: map<Path, Content>, ws: seq<Write>, more: seq<Write>)
    ensures ApplyWrites(ApplyWrites(files, ws), more) == ApplyWrites(files, ws + more)
    decreases |more|
  {
    if |more| > 0 {
      ApplyWritesAppend(files, ws, more[..|more| - 1]);
      assert (ws + more)[..|ws + more| - 1] == ws + more[..|more| - 1];
    } else {
      assert ws + more == ws;
    }
  }

  /** Dropping n then m replies drops n + m. */
  lemma DropAfter<T>(s: seq<T>, n: nat, m: nat, cur: seq<T>)
    requires cur == Drop(s, n)
    ensures Drop(cur, m) == Drop(s, n + m)
  {
  }

  /** Dropping one more reply after n. */
  lemma DropStep<T>(s: seq<T>, n: nat, cur: seq<T>)
    requires cur == Drop(s, n)
    ensures Drop(s, n + 1) == if cur == [] then [] else cur[1..]
  {
  }

  // ---------------------------------------------------------------------------
  // generate_app and its steps

  /** lib/<name> under the app directory. */
  function LibDir(app: Path, name: string): Path {
    app + ["lib", name]
  }

  function MainPath(app: Path): Path {
    app + ["lib", "main.dart"]
  }

  function PubspecPath(app: Path): Path {
    app + ["pubspec.yaml"]
  }

  const DefaultAppName := JStr("My Flutter App")

  /** spec.get('description', ''): the app context sent with every screen and
      model request. */
  function Context(spec: seq<Member>): Json {
    GetOr(spec, "description", JStr(""))
  }

  /** The single request for main.dart. */
  function MainRequest(spec: seq<Member>): Request {
    Request(MainFilePrompt(GetOr(spec, "app_name", DefaultAppName), JObj(spec)), 2000)
  }

  /** _generate_main_file: one request; on a reply, main.dart in lib holds
      the code extracted from it, provided lib exists. */
  method GenerateMainFile(disk: Disk, llm: Provider, spec: seq<Member>, app: Path)
    returns (outcome: Result<()>)
    modifies disk, llm
    ensures llm.requests == old(llm.requests) + [MainRequest(spec)]
    ensures llm.replies == Drop(old(llm.replies), 1)
    ensures disk.dirs == old(disk.dirs)
    ensures NextReply(old(llm.replies)).None? ==> outcome == Err(LlmFailure)
    ensures NextReply(old(llm.replies)).Some? ==>
              (outcome.Ok? <==> ParentExists(old(disk.dirs), MainPath(app))) &&
              (outcome.Err? ==> outcome == Err(NoSuchDirectory))
    ensures disk.files == if outcome.Ok?
                          then old(disk.files)[MainPath(app) := Plain(ExtractCode(NextReply(old(llm.replies)).value))]
                          else old(disk.files)
  {
    var request := MainRequest(spec);
    var reply := llm.Generate(request.prompt, request.maxTokens);
    if reply.None? {
      return Err(LlmFailure);
    }
    var ok := disk.WriteText(MainPath(app), Plain(ExtractCode(reply.value)));
    outcome := if ok then Ok(()) else Err(NoSuchDirectory);
  }

  /** What the screens step asks for and writes: a code run over the first
      five features, or nothing when slicing the features raises. */
  function ScreensRun(spec: seq<Member>, replies: seq<Option<string>>): Run {
    match ListedItems(spec, "features")
    case Err(e) => Run([], [], Err(e))
    case Ok(items) => CodeRun(ScreenCode, items, Context(spec), replies)
  }

  /** What the models step asks for and writes: nothing when data_models is
      falsy, else a code run over its first five values. */
  function ModelsRun(spec: seq<Member>, replies: seq<Option<string>>): Run {
    if !Truthy(GetOr(spec, "data_models", JArr([]))) then Run([], [], Ok(()))
    else
      match ListedItems(spec, "data_models")
      case Err(e) => Run([], [], Err(e))
      case Ok(items) => CodeRun(ModelCode, items, Context(spec), replies)
  }

  /** _generate_screens: lib/screens is created, then one screen file per
      feature among the first five. */
  method GenerateScreens(disk: Disk, llm: Provider, spec: seq<Member>, app: Path)
    returns (outcome: Result<()>)
    modifies disk, llm
    ensures disk.dirs == old(disk.dirs) + Ancestry(LibDir(app, "screens"))
    ensures var r := ScreensRun(spec, old(llm.replies));
            outcome == r.outcome &&
            llm.requests == old(llm.requests) + r.requests &&
            llm.replies == Drop(old(llm.replies), |r.requests|) &&
            disk.files == ApplyWrites(old(disk.files), CodeWrites(ScreenCode, LibDir(app, "screens"), r.answers))
  {
    var dir := LibDir(app, "screens");
    disk.MakeDirs(dir);
    var items := ListedItems(spec, "features");
    if items.Err? {
      assert Drop(old(llm.replies), 0) == old(llm.replies);
      return Err(items.error);
    }
    outcome := GenerateCodeFiles(disk, llm, ScreenCode, dir, items.value, Context(spec));
  }

  /** _generate_models: nothing at all when data_models is falsy; otherwise
      lib/models is created, then one model file per model among the first
      five. */
  method GenerateModels(disk: Disk, llm: Provider, spec: seq<Member>, app: Path)
    returns (outcome: Result<()>)
    modifies disk, llm
    ensures disk.dirs == old(disk.dirs) +
              if Truthy(GetOr(spec, "data_models", JArr([]))) then Ancestry(LibDir(app, "models")) else {}
    ensures var r := ModelsRun(spec, old(llm.replies));
            outcome == r.outcome &&
            llm.requests == old(llm.requests) + r.requests &&
            llm.replies == Drop(old(llm.replies), |r.requests|) &&
            disk.files == ApplyWrites(old(disk.files), CodeWrites(ModelCode, LibDir(app, "models"), r.answers))
  {
    assert Drop(old(llm.replies), 0) == old(llm.replies);
    if !Truthy(GetOr(spec, "data_models", JArr([]))) {
      return Ok(());
    }
    var dir := LibDir(app, "models");
    disk.MakeDirs(dir);
    var items := ListedItems(spec, "data_models");
    if items.Err? {
      return Err(items.error);
    }
    outcome := GenerateCodeFiles(disk, llm, ModelCode, dir, items.value, Context(spec));
  }

  /** spec.get('theme', {}): the theme whose colours go into colors.dart. */
  function Theme(spec: seq<Member>): Json {
    GetOr(spec, "theme", JObj([]))
  }

  /** The strings.dart template, filled with the app name and description. */
  function StringsTemplate(spec: seq<Member>): Template {
    StringsDart(GetOr(spec, "app_name", DefaultAppName), Context(spec))
  }

  /** colors.dart, strings.dart and themes.dart in lib/constants hold the
      palette of the spec's theme, the strings template and the themes
      template. */
  predicate ConstantsIn(files: map<Path, Content>, spec: seq<Member>, app: Path) {
    var dir := LibDir(app, "constants");
    ColorsFile(Theme(spec)).Ok? &&
    dir + ["colors.dart"] in files && files[dir + ["colors.dart"]] == Plain(ColorsFile(Theme(spec)).value) &&
    dir + ["strings.dart"] in files && files[dir + ["strings.dart"]] == Boilerplate(StringsTemplate(spec)) &&
    dir + ["themes.dart"] in files && files[dir + ["themes.dart"]] == Boilerplate(ThemesDart)
  }

  /** The three constants files have three different paths. */
  lemma ConstantsApart(dir: Path)
    ensures dir + ["colors.dart"] != dir + ["strings.dart"]
    ensures dir + ["colors.dart"] != dir + ["themes.dart"]
    ensures dir + ["strings.dart"] != dir + ["themes.dart"]
  {
    assert (dir + ["colors.dart"])[|dir|] == "colors.dart";
    assert (dir + ["strings.dart"])[|dir|] == "strings.dart";
    assert (dir + ["themes.dart"])[|dir|] == "themes.dart";
    assert "colors.dart"[0] == 'c' && "strings.dart"[0] == 's' && "themes.dart"[0] == 't';
  }

  /** A write to a path of another length leaves the constants in place. */
  lemma ConstantsKept(files: map<Path, Content>, spec: seq<Member>, app: Path, p: Path, c: Content)
    requires ConstantsIn(files, spec, app) && |p| != |app| + 3
    ensures ConstantsIn(files[p := c], spec, app)
  {
    var dir := LibDir(app, "constants");
    assert |dir + ["colors.dart"]| == |dir + ["strings.dart"]| == |dir + ["themes.dart"]| == |app| + 3;
  }

  /** _generate_constants: lib/constants is created, then colors.dart (from
      the theme), strings.dart and themes.dart are written, in that order; a
      theme whose colours cannot be read stops it after the directory. */
  method GenerateConstants(disk: Disk, spec: seq<Member>, app: Path) returns (outcome: Result<()>)
    modifies disk
    ensures disk.dirs == old(disk.dirs) + Ancestry(LibDir(app, "constants"))
    ensures ColorsFile(Theme(spec)).Err? ==>
              outcome == Err(ColorsFile(Theme(spec)).error) && disk.files == old(disk.files)
    ensures ColorsFile(Theme(spec)).Ok? ==>
              var dir := LibDir(app, "constants");
              outcome == Ok(()) &&
              disk.files == old(disk.files)[dir + ["colors.dart"] := Plain(ColorsFile(Theme(spec)).value)]
                                           [dir + ["strings.dart"] := Boilerplate(StringsTemplate(spec))]
                                           [dir + ["themes.dart"] := Boilerplate(ThemesDart)]
    ensures outcome.Ok? ==> ConstantsIn(disk.files, spec, app)
  {
    var dir := LibDir(app, "constants");
    disk.MakeDirs(dir);
    var colors := ColorsFile(Theme(spec));
    if colors.Err? {
      return Err(colors.error);
    }
    var ok := disk.WriteText(dir + ["colors.dart"], Plain(colors.value));
    ok := disk.WriteText(dir + ["strings.dart"], Boilerplate(StringsTemplate(spec)));
    ok := disk.WriteText(dir + ["themes.dart"], Boilerplate(ThemesDart));
    ConstantsApart(dir);
    outcome := Ok(());
  }

  /** lines.insert(at, x): an index past the end puts x at the end. */
  function ListInsert(lines: seq<string>, at: nat, x: string): (r: seq<string>) {
    var p := Min(at, |lines|);
    lines[..p] + [x] + lines[p..]
  }

  /** Inserting right after a block already inserted at at extends the block. */
  lemma InsertStep(lines: seq<string>, at: nat, block: seq<string>, x: string)
    ensures ListInsert(InsertBlock(lines, at, block), at + |block|, x) == InsertBlock(lines, at, block + [x])
  {
    var p := Min(at, |lines|);
    var cur := InsertBlock(lines, at, block);
    assert cur == lines[..p] + block + lines[p..];
    assert cur[..p + |block|] == lines[..p] + block;
    assert cur[p + |block|..] == lines[p..];
  }

  /** One more dependency considered: it joins the missing ones unless content
      mentions its package. */
  lemma MissingDepsNext(content: string, deps: seq<string>, i: nat)
    requires i < |deps|
    ensures MissingDeps(content, deps[..i + 1]) ==
              MissingDeps(content, deps[..i]) + if Contains(content, DepName(deps[i])) then [] else [deps[i]]
  {
    assert deps[..i + 1][..i] == deps[..i];
  }

  /** The loop of _update_pubspec: every dependency line whose package the
      content does not mention is inserted at the moving index, which starts
      at at; the result is the lines of content with the missing lines, in
      order, as one block at at. */
  method InsertMissing(content: string, deps: seq<string>, at: nat) returns (lines: seq<string>)
    ensures lines == InsertBlock(Split(content, '\n'), at, MissingDeps(content, deps))
  {
    var original := Split(content, '\n');
    ghost var block: seq<string> := [];
    lines := original;
    var index := at;
    var i := 0;
    assert lines == InsertBlock(original, at, block);
    while i < |deps|
      invariant i <= |deps|
      invariant block == MissingDeps(content, deps[..i])
      invariant lines == InsertBlock(original, at, block)
      invariant index == at + |block|
    {
      MissingDepsNext(content, deps, i);
      if !Contains(content, DepName(deps[i])) {
        InsertStep(original, at, block, deps[i]);
        lines := ListInsert(lines, index, deps[i]);
        index := index + 1;
        block := block + [deps[i]];
      }
      i := i + 1;
    }
    assert deps[..i] == deps;
  }

  /** The text the pubspec update writes to p: none when p is not a file, or
      its text has no dependencies line. */
  function PubspecRewrite(files: map<Path, Content>, p: Path): Option<string> {
    if p !in files then None
    else
      match FileText(files[p])
      case None => None
      case Some(content) => UpdatedPubspecAsWritten(content)
  }

  /** _update_pubspec: the file is rewritten with the missing common
      dependencies two lines below the dependencies line, or left alone. */
  method UpdatePubspec(disk: Disk, app: Path) returns (outcome: Result<()>)
    modifies disk
    ensures disk.dirs == old(disk.dirs)
    ensures var text := PubspecRewrite(old(disk.files), PubspecPath(app));
            (text.None? ==> outcome == Ok(()) && disk.files == old(disk.files)) &&
            (text.Some? ==> (outcome.Ok? <==> ParentExists(old(disk.dirs), PubspecPath(app))) &&
                            (outcome.Err? ==> outcome == Err(NoSuchDirectory) && disk.files == old(disk.files)) &&
                            (outcome.Ok? ==> disk.files == old(disk.files)[PubspecPath(app) := Plain(text.value)]))
  {
    var p := PubspecPath(app);
    if !disk.IsFile(p) {
      return Ok(());
    }
    var content := FileText(disk.files[p]);
    if content.None? || !Contains(content.value, DepsHeader) {
      return Ok(());
    }
    var lines := InsertMissing(content.value, CommonDeps, HeaderIndex(content.value) + 2);
    var ok := disk.WriteText(p, Plain(Join("\n", lines)));
    outcome := if ok then Ok(()) else Err(NoSuchDirectory);
  }

  /** The code files of a run all go directly into dir: a path of another
      length keeps what it held. */
  lemma CodeWritesElsewhere(kind: CodeKind, dir: Path, answers: seq<Answer>,
                            files: map<Path, Content>, p: Path)
    requires |p| != |dir| + 1
    ensures p in ApplyWrites(files, CodeWrites(kind, dir, answers)) <==> p in files
    ensures p in files ==> ApplyWrites(files, CodeWrites(kind, dir, answers))[p] == files[p]
  {
    var ws := CodeWrites(kind, dir, answers);
    forall i | 0 <= i < |ws|
      ensures ws[i].path != p
    {
      CodeWritesAt(kind, dir, answers, i);
    }
    ApplyWritesUntouched(files, ws, p);
  }

  /** p is where it was, with what it held. */
  predicate KeptPath(files0: map<Path, Content>, files: map<Path, Content>, p: Path) {
    (p in files <==> p in files0) && (p in files0 ==> files[p] == files0[p])
  }

  /** The screens and models steps of generate_app.  On success the screen
      requests went out before the model requests, and every file they
      wrote lies two levels below lib, away from main.dart and the pubspec. */
  method GenerateLists(disk: Disk, llm: Provider, spec: seq<Member>, app: Path) returns (outcome: Result<()>)
    modifies disk, llm
    ensures outcome.Ok? ==>
              var screens := ScreensRun(spec, old(llm.replies));
              var models := ModelsRun(spec, Drop(old(llm.replies), |screens.requests|));
              llm.requests == old(llm.requests) + screens.requests + models.requests &&
              llm.replies == Drop(old(llm.replies), |screens.requests| + |models.requests|)
    ensures outcome.Ok? ==>
              KeptPath(old(disk.files), disk.files, MainPath(app)) &&
              KeptPath(old(disk.files), disk.files, PubspecPath(app))
  {
    ghost var replies0 := llm.replies;
    ghost var files0 := disk.files;
    outcome := GenerateScreens(disk, llm, spec, app);
    if outcome.Err? {
      return;
    }
    ghost var screens := ScreensRun(spec, replies0);
    ghost var files1 := disk.files;
    ghost var afterScreens := llm.replies;
    CodeWritesElsewhere(ScreenCode, LibDir(app, "screens"), screens.answers, files0, MainPath(app));
    CodeWritesElsewhere(ScreenCode, LibDir(app, "screens"), screens.answers, files0, PubspecPath(app));
    outcome := GenerateModels(disk, llm, spec, app);
    if outcome.Err? {
      return;
    }
    ghost var models := ModelsRun(spec, afterScreens);
    CodeWritesElsewhere(ModelCode, LibDir(app, "models"), models.answers, files1, MainPath(app));
    CodeWritesElsewhere(ModelCode, LibDir(app, "models"), models.answers, files1, PubspecPath(app));
    DropAfter(replies0, |screens.requests|, |models.requests|, afterScreens);
  }

  /** The first three steps of generate_app: main.dart, the screens and the
      models.  On success the requests went out in that order, main.dart
      holds the code from the first reply and the pubspec is untouched. */
  method GenerateSources(disk: Disk, llm: Provider, spec: seq<Member>, app: Path) returns (outcome: Result<()>)
    modifies disk, llm
    ensures outcome.Ok? ==>
              var screens := ScreensRun(spec, Drop(old(llm.replies), 1));
              var models := ModelsRun(spec, Drop(old(llm.replies), 1 + |screens.requests|));
              llm.requests == old(llm.requests) + [MainRequest(spec)] + screens.requests + models.requests
    ensures outcome.Ok? ==>
              NextReply(old(llm.replies)).Some? && MainPath(app) in disk.files &&
              disk.files[MainPath(app)] == Plain(ExtractCode(NextReply(old(llm.replies)).value))
    ensures outcome.Ok? ==> PubspecRewrite(disk.files, PubspecPath(app)) == PubspecRewrite(old(disk.files), PubspecPath(app))
    ensures !ParentExists(old(disk.dirs), MainPath(app)) ==>
              outcome.Err? && (NextReply(old(llm.replies)).Some? ==> outcome == Err(NoSuchDirectory))
  {
    ghost var replies0 := llm.replies;
    ghost var files0 := disk.files;
    outcome := GenerateMainFile(disk, llm, spec, app);
    if outcome.Err? {
      return;
    }
    ghost var afterMain := llm.replies;
    ghost var files1 := disk.files;
    KeptAt(files0, MainPath(app), disk.files[MainPath(app)], PubspecPath(app));
    outcome := GenerateLists(disk, llm, spec, app);
    if outcome.Err? {
      return;
    }
    ghost var screens := ScreensRun(spec, afterMain);
    DropAfter(replies0, 1, |screens.requests|, afterMain);
  }

  /** The paths generate_app writes differ in length: the pubspec sits in the
      app directory, main.dart in lib, the constants one level below. */
  lemma PathLengths(app: Path)
    ensures |PubspecPath(app)| == |app| + 1 && |MainPath(app)| == |app| + 2
    ensures forall name :: |LibDir(app, "constants") + [name]| == |app| + 3
  {
  }

  /** A write to a path of another length leaves p as it was. */
  lemma KeptAt(files: map<Path, Content>, q: Path, c: Content, p: Path)
    requires |q| != |p|
    ensures p in files[q := c] <==> p in files
    ensures p in files ==> files[q := c][p] == files[p]
  {
  }

  /** A write elsewhere does not change what the pubspec update would write. */
  lemma RewriteKept(files: map<Path, Content>, p: Path, q: Path, c: Content)
    requires |q| != |p|
    ensures PubspecRewrite(files[q := c], p) == PubspecRewrite(files, p)
  {
    assert p in files[q := c] <==> p in files;
    if p in files {
      assert files[q := c][p] == files[p];
    }
  }

  /** generate_app: main.dart, the screens, the models, the constants and the
      pubspec update, in that order; the first step that raises ends it.  On
      success the requests went out in that order, main.dart holds the code
      from the first reply, the constants are written and the pubspec is
      updated from the text it had before. */
  method GenerateApp(disk: Disk, llm: Provider, spec: seq<Member>, app: Path) returns (outcome: Result<()>)
    modifies disk, llm
    ensures outcome.Ok? ==>
              var screens := ScreensRun(spec, Drop(old(llm.replies), 1));
              var models := ModelsRun(spec, Drop(old(llm.replies), 1 + |screens.requests|));
              llm.requests == old(llm.requests) + [MainRequest(spec)] + screens.requests + models.requests
    ensures outcome.Ok? ==>
              NextReply(old(llm.replies)).Some? && MainPath(app) in disk.files &&
              disk.files[MainPath(app)] == Plain(ExtractCode(NextReply(old(llm.replies)).value))
    ensures outcome.Ok? ==> ConstantsIn(disk.files, spec, app)
    ensures !ParentExists(old(disk.dirs), MainPath(app)) ==>
              outcome.Err? && (NextReply(old(llm.replies)).Some? ==> outcome == Err(NoSuchDirectory))
    ensures outcome.Ok? && PubspecRewrite(old(disk.files), PubspecPath(app)).Some? ==>
              PubspecPath(app) in disk.files &&
              disk.files[PubspecPath(app)] == Plain(PubspecRewrite(old(disk.files), PubspecPath(app)).value)
  {
    outcome := GenerateSources(disk, llm, spec, app);
    if outcome.Err? {
      return;
    }
    assert ParentExists(old(disk.dirs), MainPath(app));
    PathLengths(app);
    ghost var files0 := disk.files;
    outcome := GenerateConstants(disk, spec, app);
    if outcome.Err? {
      return;
    }
    ghost var dir := LibDir(app, "constants");
    ghost var files1 := files0[dir + ["colors.dart"] := Plain(ColorsFile(Theme(spec)).value)];
    ghost var files2 := files1[dir + ["strings.dart"] := Boilerplate(StringsTemplate(spec))];
    RewriteKept(files0, PubspecPath(app), dir + ["colors.dart"], Plain(ColorsFile(Theme(spec)).value));
    RewriteKept(files1, PubspecPath(app), dir + ["strings.dart"], Boilerplate(StringsTemplate(spec)));
    RewriteKept(files2, PubspecPath(app), dir + ["themes.dart"], Boilerplate(ThemesDart));
    KeptAt(files0, dir + ["colors.dart"], Plain(ColorsFile(Theme(spec)).value), MainPath(app));
    KeptAt(files1, dir + ["strings.dart"], Boilerplate(StringsTemplate(spec)), MainPath(app));
    KeptAt(files2, dir + ["themes.dart"], Boilerplate(ThemesDart), MainPath(app));
    ghost var files := disk.files;
    ghost var text := PubspecRewrite(files, PubspecPath(app));
    outcome := UpdatePubspec(disk, app);
    if outcome.Ok? && text.Some? {
      ConstantsKept(files, spec, app, PubspecPath(app), Plain(text.value));
      KeptAt(files, PubspecPath(app), Plain(text.value), MainPath(app));
    }
  }
}
