/** File-name sanitising shared by the app generator and the folder-structure
    generator: the clean name of a feature or data model, and the Dart class
    name derived from a file name. */
module Names {
  import opened Text

  predicate AlnumOrSpace(c: char) { IsAlnum(c) || IsSpace(c) }

  predicate NotSpace(c: char) { !IsSpace(c) }

  /** A character a clean name may hold besides '_': a lower-case letter or a digit. */
  predicate NameChar(c: char) { IsAlnum(c) && !IsUpper(c) }

  /** Lower-case alphanumerics separated by single underscores, with no
      underscore at either end. */
  predicate WellFormedName(r: string) {
    && (forall i :: 0 <= i < |r| ==> r[i] == '_' || NameChar(r[i]))
    && (|r| > 0 ==> r[0] != '_' && r[|r| - 1] != '_')
    && (forall i :: 0 <= i < |r| - 1 ==> !(r[i] == '_' && r[i + 1] == '_'))
  }

  /** The clean name of a feature or model: lower-case the text, drop every
      character that is neither alphanumeric nor whitespace, and join the
      remaining whitespace-separated words with '_'. */
  function CleanName(name: string): string {
    Join("_", Words(Filter(AlnumOrSpace, Lower(name))))
  }

  /** Input underscores are dropped; the clean name holds no whitespace;
      removing its underscores gives exactly the alphanumeric characters of
      the lower-cased input, in order. */
  lemma CleanNameShape(name: string)
    ensures WellFormedName(CleanName(name))
    ensures forall i :: 0 <= i < |CleanName(name)| ==> !IsSpace(CleanName(name)[i])
    ensures DropChar(CleanName(name), '_') == Filter(IsAlnum, Lower(name))
  {
    var lowered := Lower(name);
    var kept := Filter(AlnumOrSpace, lowered);
    var words := Words(kept);
    WordsShape(kept);
    WordsConcat(kept);
    forall k, j | 0 <= k < |words| && 0 <= j < |words[k]| ensures NameChar(words[k][j]) {
      var c := words[k][j];
      assert c in kept && !IsSpace(c);
      var m :| 0 <= m < |kept| && kept[m] == c;
      assert c in lowered;
      var n :| 0 <= n < |lowered| && lowered[n] == c;
      assert !IsUpper(c);
    }
    JoinWords(words);
    FilterTwice(lowered);
  }

  lemma {:induction false} WordsShape(s: string)
    ensures forall k :: 0 <= k < |Words(s)| ==> |Words(s)[k]| > 0
    ensures forall k, j :: 0 <= k < |Words(s)| && 0 <= j < |Words(s)[k]| ==>
              !IsSpace(Words(s)[k][j]) && Words(s)[k][j] in s
    decreases |s|
  {
    if |s| > 0 {
      if IsSpace(s[0]) {
        WordsShape(s[1..]);
        forall k, j | 0 <= k < |Words(s)| && 0 <= j < |Words(s)[k]|
          ensures Words(s)[k][j] in s
        {
          assert Words(s)[k][j] in s[1..];
        }
      } else {
        var n := WordLen(s);
        WordsShape(s[n..]);
        forall k, j | 0 <= k < |Words(s)| && 0 <= j < |Words(s)[k]|
          ensures !IsSpace(Words(s)[k][j]) && Words(s)[k][j] in s
        {
          if k == 0 {
            assert Words(s)[0] == s[..n];
            assert s[..n][j] == s[j];
          } else {
            assert Words(s)[k] == Words(s[n..])[k - 1];
            assert Words(s)[k][j] in s[n..];
          }
        }
      }
    }
  }

  lemma FilterAll(keep: char -> bool, s: string)
    requires forall i :: 0 <= i < |s| ==> keep(s[i])
    ensures Filter(keep, s) == s
  {
    if |s| > 0 {
      FilterAll(keep, s[1..]);
    }
  }

  /** The words of s, concatenated, are s without its whitespace. */
  lemma {:induction false} WordsConcat(s: string)
    ensures Concat(Words(s)) == Filter(NotSpace, s)
    decreases |s|
  {
    if |s| > 0 {
      if IsSpace(s[0]) {
        WordsConcat(s[1..]);
      } else {
        var n := WordLen(s);
        WordsConcat(s[n..]);
        assert Words(s) == [s[..n]] + Words(s[n..]);
        assert s == s[..n] + s[n..];
        FilterAppend(NotSpace, s[..n], s[n..]);
        FilterAll(NotSpace, s[..n]);
      }
    }
  }

  lemma {:induction false} FilterTwice(s: string)
    ensures Filter(NotSpace, Filter(AlnumOrSpace, s)) == Filter(IsAlnum, s)
  {
    if |s| > 0 {
      FilterTwice(s[1..]);
      var head := if AlnumOrSpace(s[0]) then [s[0]] else "";
      FilterAppend(NotSpace, head, Filter(AlnumOrSpace, s[1..]));
    }
  }

  lemma {:induction false} DropCharAppend(a: string, b: string, c: char)
    ensures DropChar(a + b, c) == DropChar(a, c) + DropChar(b, c)
  {
    if |a| > 0 {
      assert (a + b)[1..] == a[1..] + b;
      DropCharAppend(a[1..], b, c);
    } else {
      assert a + b == b;
    }
  }

  lemma DropCharAbsent(s: string, c: char)
    requires c !in s
    ensures DropChar(s, c) == s
  {
    if |s| > 0 {
      assert s[0] != c;
      DropCharAbsent(s[1..], c);
    }
  }

  /** Joining non-empty words of name characters with '_' gives a well-formed
      name whose underscores are exactly the separators. */
  lemma {:induction false} JoinWords(ws: seq<string>)
    requires forall k :: 0 <= k < |ws| ==> |ws[k]| > 0
    requires forall k, j :: 0 <= k < |ws| && 0 <= j < |ws[k]| ==> NameChar(ws[k][j])
    ensures WellFormedName(Join("_", ws))
    ensures |ws| > 0 ==> |Join("_", ws)| > 0
    ensures DropChar(Join("_", ws), '_') == Concat(ws)
  {
    if |ws| == 1 {
      assert '_' !in ws[0] by {
        forall j | 0 <= j < |ws[0]| ensures ws[0][j] != '_' {
          assert NameChar(ws[0][j]);
        }
      }
      DropCharAbsent(ws[0], '_');
    } else if |ws| > 1 {
      JoinWords(ws[1..]);
      JoinTwoWords(ws[0], Join("_", ws[1..]));
    }
  }

  /** One more word in front of a well-formed name. */
  lemma JoinTwoWords(a: string, b: string)
    requires |a| > 0 && forall j :: 0 <= j < |a| ==> NameChar(a[j])
    requires |b| > 0 && WellFormedName(b)
    ensures WellFormedName(a + "_" + b)
    ensures DropChar(a + "_" + b, '_') == a + DropChar(b, '_')
  {
    assert '_' !in a by {
      forall j | 0 <= j < |a| ensures a[j] != '_' {
        assert NameChar(a[j]);
      }
    }
    JoinWellFormed(a, b);
    calc {
      DropChar(a + "_" + b, '_');
      { DropCharAppend(a + "_", b, '_'); }
      DropChar(a + "_", '_') + DropChar(b, '_');
      { DropCharAppend(a, "_", '_'); DropCharAbsent(a, '_'); assert DropChar("_", '_') == ""; }
      (a + "") + DropChar(b, '_');
      { assert a + "" == a; }
      a + DropChar(b, '_');
    }
  }

  lemma JoinWellFormed(a: string, b: string)
    requires |a| > 0 && forall j :: 0 <= j < |a| ==> NameChar(a[j])
    requires |b| > 0 && WellFormedName(b)
    ensures WellFormedName(a + "_" + b)
  {
    var r := a + "_" + b;
    forall i | 0 <= i < |r| - 1 ensures !(r[i] == '_' && r[i + 1] == '_') {
      if i < |a| {
        assert r[i] == a[i];
      } else if i > |a| {
        assert r[i] == b[i - |a| - 1] && r[i + 1] == b[i - |a|];
      }
    }
    forall i | 0 <= i < |r| ensures r[i] == '_' || NameChar(r[i]) {
      if i < |a| {
        assert r[i] == a[i];
      } else if i > |a| {
        assert r[i] == b[i - |a| - 1];
      }
    }
  }

  /** Non-idempotence: an input underscore is dropped, so cleaning a clean name
      can change it ("a b" becomes "a_b", which becomes "ab"). */
  lemma CleanNameNotIdempotent()
    ensures CleanName("a b") == "a_b"
    ensures CleanName(CleanName("a b")) == "ab"
  {
    CleanNameOfSpacedWords();
    CleanNameOfUnderscoredWords();
  }

  lemma CleanNameOfSpacedWords()
    ensures CleanName("a b") == "a_b"
  {
    LowerUnchanged("a b");
    KeptOfSpacedWords();
    WordsOfSpacedWords();
    assert Join("_", ["a", "b"]) == "a_b";
  }

  /** Text without upper-case letters is its own lower case. */
  lemma LowerUnchanged(s: string)
    requires forall i :: 0 <= i < |s| ==> !IsUpper(s[i])
    ensures Lower(s) == s
  {
  }

  lemma KeptOfSpacedWords()
    ensures Filter(AlnumOrSpace, "a b") == "a b"
  {
    assert "a b"[1..] == " b" && " b"[1..] == "b" && "b"[1..] == "";
    assert Filter(AlnumOrSpace, "b") == "b";
    assert Filter(AlnumOrSpace, " b") == " b";
  }

  lemma WordsOfSpacedWords()
    ensures Words("a b") == ["a", "b"]
  {
    assert "a b"[1..] == " b" && " b"[1..] == "b" && "b"[1..] == "";
    assert WordLen("b") == 1;
    assert "b"[..1] == "b" && "b"[1..] == "";
    assert Words("b") == ["b"];
    assert Words(" b") == ["b"];
    assert WordLen(" b") == 0;
    assert WordLen("a b") == 1;
    assert "a b"[..1] == "a";
  }

  lemma CleanNameOfUnderscoredWords()
    ensures CleanName("a_b") == "ab"
  {
    LowerUnchanged("a_b");
    KeptOfUnderscoredWords();
    WordsOfOneWord();
  }

  lemma KeptOfUnderscoredWords()
    ensures Filter(AlnumOrSpace, "a_b") == "ab"
  {
    assert "a_b"[1..] == "_b" && "_b"[1..] == "b" && "b"[1..] == "";
    assert Filter(AlnumOrSpace, "b") == "b";
    assert Filter(AlnumOrSpace, "_b") == "b";
  }

  lemma WordsOfOneWord()
    ensures Words("ab") == ["ab"]
  {
    assert "ab"[1..] == "b" && "b"[1..] == "";
    assert WordLen("b") == 1;
    assert WordLen("ab") == 2;
    assert "ab"[..2] == "ab" && "ab"[2..] == "";
  }

  // ---------------------------------------------------------------------------
  // File name to Dart class name

  /** ''.join(p.capitalize() for p in parts): the letters of the parts in
      order, the first of each part upper-cased and all others lower-cased. */
  function CapitalizedJoin(parts: seq<string>): (r: string)
    ensures CapitalizesEach(parts, r)
    ensures (forall k :: 0 <= k < |parts| ==> '_' !in parts[k]) ==> '_' !in r
    ensures Lower(r) == Lower(Concat(parts))
  {
    if |parts| == 0 then ""
    else
      var head := Capitalize(parts[0]);
      var tail := CapitalizedJoin(parts[1..]);
      CapitalizeKeeps(parts[0]);
      LowerAppend(head, tail);
      LowerAppend(parts[0], Concat(parts[1..]));
      CapitalizesFirst(parts, tail);
      head + tail
  }

  /** r is parts joined, each part's first character upper-cased and every
      other character lower-cased. */
  ghost predicate CapitalizesEach(parts: seq<string>, r: string) {
    && |r| == |Concat(parts)|
    && forall k, i :: 0 <= k < |parts| && 0 <= i < |parts[k]| ==>
         r[Start(parts, k) + i] == if i == 0 then UpperChar(parts[k][i]) else LowerChar(parts[k][i])
  }

  /** Capitalising the first part in front of the capitalised rest capitalises
      every part. */
  lemma CapitalizesFirst(parts: seq<string>, tail: string)
    requires |parts| > 0 && CapitalizesEach(parts[1..], tail)
    ensures CapitalizesEach(parts, Capitalize(parts[0]) + tail)
  {
    var head := Capitalize(parts[0]);
    var r := head + tail;
    forall k, i | 0 <= k < |parts| && 0 <= i < |parts[k]|
      ensures r[Start(parts, k) + i] == if i == 0 then UpperChar(parts[k][i]) else LowerChar(parts[k][i])
    {
      if k == 0 {
        assert r[i] == head[i];
      } else {
        var n := Start(parts[1..], k - 1) + i;
        assert parts[1..][k - 1] == parts[k];
        assert Start(parts, k) + i == |head| + n;
        assert r[|head| + n] == tail[n];
      }
    }
  }

  /** Where parts[k] begins in the concatenation of parts: |Concat(parts[..k])|. */
  function Start(parts: seq<string>, k: nat): (n: nat)
    requires k <= |parts|
    ensures k < |parts| ==> n + |parts[k]| <= |Concat(parts)|
    ensures k == |parts| ==> n == |Concat(parts)|
  {
    if k == 0 then 0 else |parts[0]| + Start(parts[1..], k - 1)
  }

  /** Capitalising changes letter case only, so it adds no '_'. */
  lemma CapitalizeKeeps(s: string)
    ensures '_' !in s ==> '_' !in Capitalize(s)
    ensures Lower(Capitalize(s)) == Lower(s)
  {
    var c := Capitalize(s);
    if '_' !in s {
      forall i | 0 <= i < |c| ensures c[i] != '_' {
        assert s[i] != '_';
      }
    }
    forall i | 0 <= i < |c| ensures LowerChar(c[i]) == LowerChar(s[i]) {
      if i > 0 {
        assert c[i] == LowerChar(s[i]);
      }
    }
  }

  lemma LowerAppend(a: string, b: string)
    ensures Lower(a + b) == Lower(a) + Lower(b)
  {
    var l := Lower(a + b);
    forall i | 0 <= i < |l| ensures l[i] == (Lower(a) + Lower(b))[i] {
      if i < |a| {
        assert (a + b)[i] == a[i];
      } else {
        assert (a + b)[i] == b[i - |a|];
      }
    }
  }

  /** The pieces of s between occurrences of c, concatenated, are s without c. */
  lemma {:induction false} ConcatSplit(s: string, c: char)
    ensures Concat(Split(s, c)) == DropChar(s, c)
    decreases |s|
  {
    if |s| > 0 {
      ConcatSplit(s[1..], c);
      var rest := Split(s[1..], c);
      if s[0] != c {
        assert Concat(rest) == rest[0] + Concat(rest[1..]);
      }
    }
  }

  /** _filename_to_classname: remove every ".dart", split on '_' and join the
      capitalised parts.  The result is the stem read one character at a time:
      underscores dropped, the first character and each one after an
      underscore upper-cased, every other character lower-cased. */
  function FilenameToClassName(filename: string): (r: string)
    ensures '_' !in r
    ensures r == CamelCase(RemoveAll(filename, ".dart"), true)
    ensures Lower(r) == Lower(DropChar(RemoveAll(filename, ".dart"), '_'))
  {
    var stem := RemoveAll(filename, ".dart");
    var parts := Split(stem, '_');
    SplitPiecesFree(stem, '_');
    ConcatSplit(stem, '_');
    CamelCaseSplit(stem, true);
    CapitalizedJoin(parts)
  }

  /** The class-name casing of s, one character at a time: an underscore is
      dropped and upper-cases the next character, the first character is
      upper-cased when up holds, and every other character is lower-cased. */
  function CamelCase(s: string, up: bool): string
    decreases |s|
  {
    if |s| == 0 then ""
    else if s[0] == '_' then CamelCase(s[1..], true)
    else [if up then UpperChar(s[0]) else LowerChar(s[0])] + CamelCase(s[1..], false)
  }

  /** Splitting on '_' and capitalising the parts is the character-wise
      casing: the first part is capitalised when up holds, lower-cased
      otherwise, and the later parts are capitalised. */
  lemma {:induction false} CamelCaseSplit(s: string, up: bool)
    ensures var parts := Split(s, '_');
            CamelCase(s, up) == (if up then Capitalize(parts[0]) else Lower(parts[0])) + CapitalizedJoin(parts[1..])
    decreases |s|
  {
    if |s| > 0 {
      if s[0] == '_' {
        CamelCaseSplit(s[1..], true);
        CamelCaseUnderscore(s, up);
      } else {
        CamelCaseSplit(s[1..], false);
        CamelCaseLetter(s, up, CapitalizedJoin(Split(s[1..], '_')[1..]));
      }
    }
  }

  /** The step of CamelCaseSplit for a leading underscore: an empty first part. */
  lemma CamelCaseUnderscore(s: string, up: bool)
    requires |s| > 0 && s[0] == '_'
    requires var rest := Split(s[1..], '_');
             CamelCase(s[1..], true) == Capitalize(rest[0]) + CapitalizedJoin(rest[1..])
    ensures var parts := Split(s, '_');
            CamelCase(s, up) == (if up then Capitalize(parts[0]) else Lower(parts[0])) + CapitalizedJoin(parts[1..])
  {
    var rest := Split(s[1..], '_');
    var parts := Split(s, '_');
    assert parts == [""] + rest;
    assert parts[0] == "" && parts[1..] == rest;
    assert Capitalize("") == "" && Lower("") == "";
    assert CapitalizedJoin(rest) == Capitalize(rest[0]) + CapitalizedJoin(rest[1..]);
  }

  /** The step of CamelCaseSplit for a leading character other than '_': it
      starts the first part, and the later parts are those of s[1..]. */
  lemma CamelCaseLetter(s: string, up: bool, tail: string)
    requires |s| > 0 && s[0] != '_'
    requires CamelCase(s[1..], false) == Lower(Split(s[1..], '_')[0]) + tail
    ensures var parts := Split(s, '_');
            && parts[1..] == Split(s[1..], '_')[1..]
            && CamelCase(s, up) == (if up then Capitalize(parts[0]) else Lower(parts[0])) + tail
  {
    var rest := Split(s[1..], '_');
    var first := [s[0]] + rest[0];
    var parts := Split(s, '_');
    assert parts == [first] + rest[1..];
    assert parts[0] == first && parts[1..] == rest[1..];
    assert first[1..] == rest[0];
    var c := if up then UpperChar(s[0]) else LowerChar(s[0]);
    assert CamelCase(s, up) == [c] + (Lower(rest[0]) + tail);
    assert [c] + (Lower(rest[0]) + tail) == ([c] + Lower(rest[0])) + tail;
    if up {
      assert Capitalize(first) == [c] + Lower(rest[0]);
    } else {
      LowerAppend([s[0]], rest[0]);
      assert Lower([s[0]]) == [c];
    }
  }
}
