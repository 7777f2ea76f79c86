/** The handful of Python `str` operations the generator relies on, over ASCII
    characters (str.isspace, str.isalnum, lower, find, rfind, strip, split, join,
    replace, capitalize, endswith). */
module Text {

  /** str.isspace on one ASCII character: space, \t \n \v \f \r and the
      information separators \x1c-\x1f. */
  predicate IsSpace(c: char) {
    c == ' ' || ('\t' <= c <= '\r') || ('\U{1C}' <= c <= '\U{1F}')
  }

  predicate IsUpper(c: char) { 'A' <= c <= 'Z' }

  predicate IsLower(c: char) { 'a' <= c <= 'z' }

  predicate IsDigit(c: char) { '0' <= c <= '9' }

  /** str.isalnum on one ASCII character. */
  predicate IsAlnum(c: char) { IsUpper(c) || IsLower(c) || IsDigit(c) }

  function LowerChar(c: char): (r: char)
    ensures IsUpper(c) ==> IsLower(r)
    ensures !IsUpper(c) ==> r == c
  {
    if IsUpper(c) then (c as int - 'A' as int + 'a' as int) as char else c
  }

  function UpperChar(c: char): (r: char)
    ensures IsLower(c) ==> IsUpper(r)
    ensures !IsLower(c) ==> r == c
  {
    if IsLower(c) then (c as int - 'a' as int + 'A' as int) as char else c
  }

  /** str.lower */
  function Lower(s: string): (r: string)
    ensures |r| == |s|
    ensures forall i :: 0 <= i < |s| ==> r[i] == LowerChar(s[i])
  {
    seq(|s|, i requires 0 <= i < |s| => LowerChar(s[i]))
  }

  /** str.capitalize: first character upper-cased, the rest lower-cased. */
  function Capitalize(s: string): (r: string)
    ensures |r| == |s|
    ensures |s| > 0 ==> r[0] == UpperChar(s[0])
    ensures forall i :: 0 < i < |s| ==> r[i] == LowerChar(s[i])
  {
    if |s| == 0 then "" else [UpperChar(s[0])] + Lower(s[1..])
  }

  /** str.replace(a, b) for single characters a and b. */
  function ReplaceChar(s: string, a: char, b: char): (r: string)
    ensures |r| == |s|
    ensures forall i :: 0 <= i < |s| ==> r[i] == if s[i] == a then b else s[i]
  {
    seq(|s|, i requires 0 <= i < |s| => if s[i] == a then b else s[i])
  }

  /** The characters of s that satisfy keep, in order. */
  function Filter(keep: char -> bool, s: string): (r: string)
    ensures |r| <= |s|
    ensures forall i :: 0 <= i < |r| ==> keep(r[i]) && r[i] in s
  {
    if |s| == 0 then "" else (if keep(s[0]) then [s[0]] else "") + Filter(keep, s[1..])
  }

  /** s with every occurrence of the character c removed. */
  function DropChar(s: string, c: char): (r: string)
    ensures c !in r
  {
    if |s| == 0 then "" else (if s[0] == c then "" else [s[0]]) + DropChar(s[1..], c)
  }

  lemma {:induction false} FilterAppend(keep: char -> bool, a: string, b: string)
    ensures Filter(keep, a + b) == Filter(keep, a) + Filter(keep, b)
  {
    if |a| > 0 {
      assert (a + b)[1..] == a[1..] + b;
      FilterAppend(keep, a[1..], b);
    } else {
      assert a + b == b;
    }
  }

  /** s.endswith(suffix) */
  predicate EndsWith(s: string, suffix: string) {
    |suffix| <= |s| && s[|s| - |suffix|..] == suffix
  }

  // ---------------------------------------------------------------------------
  // Searching: `pat in s`, s.find(pat), s.rfind(pat)

  /** pat occurs in s starting at index k. */
  predicate IsAt(s: string, k: int, pat: string) {
    0 <= k && k + |pat| <= |s| && s[k..k + |pat|] == pat
  }

  function FindFrom(s: string, pat: string, k: nat): (r: int)
    ensures r == -1 || (k <= r && IsAt(s, r, pat))
    ensures forall j :: k <= j && (r == -1 || j < r) ==> !IsAt(s, j, pat)
    decreases |s| - k
  {
    if k + |pat| > |s| then -1
    else if s[k..k + |pat|] == pat then k
    else FindFrom(s, pat, k + 1)
  }

  /** s.find(pat): the first index where pat occurs, or -1. */
  function Find(s: string, pat: string): (r: int)
    ensures r == -1 || IsAt(s, r, pat)
    ensures forall j :: 0 <= j && (r == -1 || j < r) ==> !IsAt(s, j, pat)
  {
    FindFrom(s, pat, 0)
  }

  /** The first occurrence is where find reports it. */
  lemma FindIs(s: string, pat: string, k: nat)
    requires IsAt(s, k, pat) && forall j :: 0 <= j < k ==> !IsAt(s, j, pat)
    ensures Find(s, pat) == k
  {
  }

  /** The last occurrence is where rfind reports it. */
  lemma RFindIs(s: string, pat: string, k: nat)
    requires IsAt(s, k, pat) && forall j :: k < j ==> !IsAt(s, j, pat)
    ensures RFind(s, pat) == k
  {
  }

  /** `pat in s` */
  predicate Contains(s: string, pat: string)
    ensures Contains(s, pat) <==> exists k :: IsAt(s, k, pat)
  {
    Find(s, pat) >= 0
  }

  function RFindAtOrBelow(s: string, pat: string, k: int): (r: int)
    ensures r == -1 || (r <= k && IsAt(s, r, pat))
    ensures forall j :: j <= k && r < j ==> !IsAt(s, j, pat)
    decreases k + 1
  {
    if k < 0 then -1
    else if IsAt(s, k, pat) then k
    else RFindAtOrBelow(s, pat, k - 1)
  }

  /** s.rfind(pat): the last index where pat occurs, or -1. */
  function RFind(s: string, pat: string): (r: int)
    ensures r == -1 || IsAt(s, r, pat)
    ensures forall j :: r < j ==> !IsAt(s, j, pat)
  {
    RFindAtOrBelow(s, pat, |s| - |pat|)
  }

  // ---------------------------------------------------------------------------
  // str.strip()

  /** s.strip(): s without its leading and trailing whitespace, removed one
      character at a time from either end. */
  function Strip(s: string): (r: string)
    ensures |r| <= |s|
    ensures r != "" ==> !IsSpace(r[0]) && !IsSpace(r[|r| - 1])
    ensures r == "" <==> forall i :: 0 <= i < |s| ==> IsSpace(s[i])
    decreases |s|
  {
    if |s| > 0 && IsSpace(s[0]) then
      var r := Strip(s[1..]);
      assert forall i :: 1 <= i < |s| ==> s[i] == s[1..][i - 1];
      r
    else if |s| > 0 && IsSpace(s[|s| - 1]) then
      var r := Strip(s[..|s| - 1]);
      assert forall i :: 0 <= i < |s| - 1 ==> s[i] == s[..|s| - 1][i];
      r
    else s
  }

  /** s.strip() is a slice of s with only whitespace cut off before and after
      it; with the ends of the result not being whitespace, this fixes it. */
  lemma {:induction false} StripIsTrim(s: string)
    ensures exists i, j :: SpaceOutside(s, i, j) && Strip(s) == s[i..j]
    decreases |s|
  {
    if |s| > 0 && IsSpace(s[0]) {
      StripIsTrim(s[1..]);
      var i, j :| SpaceOutside(s[1..], i, j) && Strip(s[1..]) == s[1..][i..j];
      SpaceOutsideFront(s, i, j);
    } else if |s| > 0 && IsSpace(s[|s| - 1]) {
      StripIsTrim(s[..|s| - 1]);
      var i, j :| SpaceOutside(s[..|s| - 1], i, j) && Strip(s[..|s| - 1]) == s[..|s| - 1][i..j];
      SpaceOutsideBack(s, i, j);
    } else {
      assert SpaceOutside(s, 0, |s|) && s == s[0..|s|];
    }
  }

  /** s[i..j] is s with only whitespace cut from its two ends. */
  ghost predicate SpaceOutside(s: string, i: int, j: int) {
    && 0 <= i <= j <= |s|
    && (forall k :: 0 <= k < i ==> IsSpace(s[k]))
    && (forall k :: j <= k < |s| ==> IsSpace(s[k]))
  }

  /** Cutting a leading space keeps the cut slice a whitespace trim of s. */
  lemma SpaceOutsideFront(s: string, i: int, j: int)
    requires |s| > 0 && IsSpace(s[0]) && SpaceOutside(s[1..], i, j)
    ensures SpaceOutside(s, i + 1, j + 1) && s[1..][i..j] == s[i + 1..j + 1]
  {
    assert forall k :: 1 <= k < |s| ==> s[k] == s[1..][k - 1];
  }

  /** Cutting a trailing space keeps the cut slice a whitespace trim of s. */
  lemma SpaceOutsideBack(s: string, i: int, j: int)
    requires |s| > 0 && IsSpace(s[|s| - 1]) && SpaceOutside(s[..|s| - 1], i, j)
    ensures SpaceOutside(s, i, j) && s[..|s| - 1][i..j] == s[i..j]
  {
    assert forall k :: 0 <= k < |s| - 1 ==> s[k] == s[..|s| - 1][k];
  }

  /** A text that neither starts nor ends with whitespace is already stripped. */
  lemma StripTrimmed(s: string)
    requires |s| > 0 && !IsSpace(s[0]) && !IsSpace(s[|s| - 1])
    ensures Strip(s) == s
  {
  }


  // ---------------------------------------------------------------------------
  // str.split() (on runs of whitespace) and sep.join(parts)

  /** The length of the run of non-space characters that starts s. */
  function WordLen(s: string): (n: nat)
    ensures n <= |s|
    ensures forall i :: 0 <= i < n ==> !IsSpace(s[i])
    ensures n < |s| ==> IsSpace(s[n])
  {
    if |s| == 0 || IsSpace(s[0]) then 0 else 1 + WordLen(s[1..])
  }

  /** s.split(): the maximal runs of non-space characters, in order. */
  function Words(s: string): seq<string>
    decreases |s|
  {
    if |s| == 0 then []
    else if IsSpace(s[0]) then Words(s[1..])
    else
      var n := WordLen(s);
      [s[..n]] + Words(s[n..])
  }

  /** sep.join(parts) */
  function Join(sep: string, parts: seq<string>): string {
    if |parts| == 0 then ""
    else if |parts| == 1 then parts[0]
    else parts[0] + sep + Join(sep, parts[1..])
  }

  /** ''.join(parts) */
  function Concat(parts: seq<string>): string {
    if |parts| == 0 then "" else parts[0] + Concat(parts[1..])
  }

  lemma {:induction false} JoinAppend(sep: string, xs: seq<string>, ys: seq<string>)
    ensures Join(sep, xs + ys) ==
      if xs == [] then Join(sep, ys)
      else if ys == [] then Join(sep, xs)
      else Join(sep, xs) + sep + Join(sep, ys)
  {
    if xs == [] {
      assert xs + ys == ys;
    } else if ys == [] {
      assert xs + ys == xs;
    } else if |xs| == 1 {
      assert (xs + ys)[1..] == ys;
    } else {
      assert (xs + ys)[1..] == xs[1..] + ys;
      JoinAppend(sep, xs[1..], ys);
    }
  }

  /** Joining a block that is itself joined with the same separator is the
      same as joining its lines in place. */
  lemma JoinNested(sep: string, xs: seq<string>, ys: seq<string>, zs: seq<string>)
    requires ys != []
    ensures Join(sep, xs + [Join(sep, ys)] + zs) == Join(sep, xs + ys + zs)
  {
    JoinAppend(sep, xs, [Join(sep, ys)]);
    JoinAppend(sep, xs + [Join(sep, ys)], zs);
    JoinAppend(sep, xs, ys);
    JoinAppend(sep, xs + ys, zs);
  }

  // ---------------------------------------------------------------------------
  // str.split(c) for one separator character, and its inverse c.join(...)

  /** s.split(c): the pieces of s between occurrences of c (never empty). */
  function Split(s: string, c: char): (r: seq<string>)
    ensures |r| > 0
    decreases |s|
  {
    if |s| == 0 then [""]
    else
      var rest := Split(s[1..], c);
      if s[0] == c then [""] + rest else [[s[0]] + rest[0]] + rest[1..]
  }

  /** Splitting on c and joining with c gives back the original text. */
  lemma {:induction false} JoinSplit(s: string, c: char)
    ensures Join([c], Split(s, c)) == s
  {
    if |s| > 0 {
      var rest := Split(s[1..], c);
      JoinSplit(s[1..], c);
      if s[0] == c {
        JoinAppend([c], [""], rest);
      } else {
        var first := [s[0]] + rest[0];
        assert Split(s, c) == [first] + rest[1..];
        if |rest| == 1 {
          assert Join([c], [first]) == first;
        } else {
          JoinAppend([c], [first], rest[1..]);
          JoinAppend([c], [rest[0]], rest[1..]);
          assert [rest[0]] + rest[1..] == rest;
        }
      }
    }
  }

  /** No piece produced by s.split(c) contains c. */
  lemma {:induction false} SplitPiecesFree(s: string, c: char)
    ensures forall i :: 0 <= i < |Split(s, c)| ==> c !in Split(s, c)[i]
  {
    if |s| > 0 {
      SplitPiecesFree(s[1..], c);
    }
  }

  /** A prefix of s that holds no c is a prefix of the first piece of s.split(c). */
  lemma {:induction false} SplitFirstPiece(s: string, c: char, m: nat)
    requires m <= |s| && c !in s[..m]
    ensures m <= |Split(s, c)[0]| && Split(s, c)[0][..m] == s[..m]
  {
    if m > 0 {
      assert s[0] in s[..m];
      SplitFirstPiece(s[1..], c, m - 1);
      assert s[1..][..m - 1] == s[1..m];
    }
  }

  /** If pat, which holds no c, occurs in s, then it occurs within one piece of s.split(c). */
  lemma {:induction false} SplitKeepsOccurrence(s: string, c: char, pat: string, k: nat)
    requires IsAt(s, k, pat) && c !in pat
    ensures exists i :: 0 <= i < |Split(s, c)| && Contains(Split(s, c)[i], pat)
    decreases |s|
  {
    if k == 0 {
      SplitKeepsLeadingOccurrence(s, c, pat);
    } else {
      assert s[1..][k - 1..k - 1 + |pat|] == s[k..k + |pat|];
      SplitKeepsOccurrence(s[1..], c, pat, k - 1);
      var rest := Split(s[1..], c);
      var j :| 0 <= j < |rest| && Contains(rest[j], pat);
      SplitShiftOccurrence(s, c, pat, j);
    }
  }

  lemma SplitKeepsLeadingOccurrence(s: string, c: char, pat: string)
    requires IsAt(s, 0, pat) && c !in pat
    ensures Contains(Split(s, c)[0], pat)
  {
    var lines := Split(s, c);
    if |pat| == 0 {
      assert IsAt(lines[0], 0, pat);
    } else {
      var rest := Split(s[1..], c);
      assert s[..|pat|] == pat;
      assert s[0] == pat[0];
      var tail := s[1..][..|pat| - 1];
      assert tail == pat[1..];
      SplitFirstPiece(s[1..], c, |pat| - 1);
      assert lines[0] == [s[0]] + rest[0];
      assert lines[0][..|pat|] == [s[0]] + rest[0][..|pat| - 1];
      assert IsAt(lines[0], 0, pat);
    }
  }

  lemma SplitShiftOccurrence(s: string, c: char, pat: string, j: nat)
    requires |s| > 0
    requires j < |Split(s[1..], c)| && Contains(Split(s[1..], c)[j], pat)
    ensures exists i :: 0 <= i < |Split(s, c)| && Contains(Split(s, c)[i], pat)
  {
    var lines := Split(s, c);
    var rest := Split(s[1..], c);
    var q :| IsAt(rest[j], q, pat);
    if s[0] == c {
      assert lines[j + 1] == rest[j];
    } else if j == 0 {
      var first := [s[0]] + rest[0];
      assert lines[0] == first;
      assert first[q + 1..q + 1 + |pat|] == rest[0][q..q + |pat|];
      assert IsAt(lines[0], q + 1, pat);
    } else {
      assert lines[j] == rest[j];
    }
  }

  /** A leading run without c stays at the head of the first piece. */
  lemma {:induction false} SplitFreePrefix(a: string, rest: string, c: char)
    requires c !in a
    ensures Split(a + rest, c) == [a + Split(rest, c)[0]] + Split(rest, c)[1..]
    decreases |a|
  {
    if |a| > 0 {
      assert (a + rest)[1..] == a[1..] + rest;
      assert (a + rest)[0] == a[0];
      SplitFreePrefix(a[1..], rest, c);
      assert [a[0]] + (a[1..] + Split(rest, c)[0]) == a + Split(rest, c)[0];
    } else {
      assert a + rest == rest;
      assert a + Split(rest, c)[0] == Split(rest, c)[0];
      assert [Split(rest, c)[0]] + Split(rest, c)[1..] == Split(rest, c);
    }
  }

  /** Joining lines that hold no c with c and splitting on c gives the lines back. */
  lemma {:induction false} SplitJoin(lines: seq<string>, c: char)
    requires |lines| > 0
    requires forall i :: 0 <= i < |lines| ==> c !in lines[i]
    ensures Split(Join([c], lines), c) == lines
  {
    if |lines| == 1 {
      SplitFreePrefix(lines[0], "", c);
      assert lines[0] + "" == lines[0];
    } else {
      var rest := Join([c], lines[1..]);
      SplitJoin(lines[1..], c);
      assert Join([c], lines) == lines[0] + ([c] + rest);
      SplitFreePrefix(lines[0], [c] + rest, c);
      assert ([c] + rest)[1..] == rest;
      assert Split([c] + rest, c) == [""] + Split(rest, c);
      assert lines[0] + "" == lines[0];
      assert lines == [lines[0]] + lines[1..];
    }
  }

  /** An occurrence in a stays where it is once b is appended. */
  lemma IsAtBefore(a: string, b: string, k: int, pat: string)
    requires IsAt(a, k, pat)
    ensures IsAt(a + b, k, pat)
  {
    assert (a + b)[k..k + |pat|] == a[k..k + |pat|];
  }

  /** An occurrence in b moves right by |a| once a is prepended. */
  lemma IsAtAfter(a: string, b: string, k: int, pat: string)
    requires IsAt(b, k, pat)
    ensures IsAt(a + b, |a| + k, pat)
  {
    assert (a + b)[|a| + k..|a| + k + |pat|] == b[k..k + |pat|];
  }

  /** An occurrence inside one of the parts is an occurrence in their join. */
  lemma {:induction false} JoinKeepsOccurrence(sep: string, parts: seq<string>, i: nat, pat: string)
    requires i < |parts| && Contains(parts[i], pat)
    ensures Contains(Join(sep, parts), pat)
  {
    if |parts| > 1 {
      var rest := Join(sep, parts[1..]);
      assert Join(sep, parts) == parts[0] + (sep + rest);
      if i == 0 {
        var k :| IsAt(parts[0], k, pat);
        IsAtBefore(parts[0], sep + rest, k, pat);
      } else {
        JoinKeepsOccurrence(sep, parts[1..], i - 1, pat);
        var m :| IsAt(rest, m, pat);
        IsAtAfter(sep, rest, m, pat);
        IsAtAfter(parts[0], sep + rest, |sep| + m, pat);
      }
    }
  }

  // ---------------------------------------------------------------------------
  // str.replace(pat, '')

  /** s.replace(pat, ''): occurrences removed left to right, without overlap. */
  function RemoveAll(s: string, pat: string): string
    requires |pat| > 0
    decreases |s|
  {
    if |s| == 0 then ""
    else if IsAt(s, 0, pat) then RemoveAll(s[|pat|..], pat)
    else [s[0]] + RemoveAll(s[1..], pat)
  }

  /** Removing a one-character pattern removes exactly that character. */
  lemma {:induction false} RemoveCharIsDrop(s: string, c: char)
    ensures RemoveAll(s, [c]) == DropChar(s, c)
  {
    if |s| > 0 {
      RemoveCharIsDrop(s[1..], c);
      assert IsAt(s, 0, [c]) <==> s[0] == c by {
        assert s[0..1] == [s[0]];
      }
      if s[0] == c {
        assert RemoveAll(s, [c]) == RemoveAll(s[1..], [c]);
        assert DropChar(s, c) == "" + DropChar(s[1..], c);
      } else {
        assert RemoveAll(s, [c]) == [s[0]] + RemoveAll(s[1..], [c]);
        assert DropChar(s, c) == [s[0]] + DropChar(s[1..], c);
      }
    }
  }
}
