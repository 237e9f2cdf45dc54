/** `escapeJSONForScript` (pkg/appworker/server.go): the document inlined in a script element
    denotes the same value and holds none of the characters that could end the element. */
module ScriptEscape {
  import opened Options
  import opened JsonText

  predicate Dangerous(c: char) {
    c == '<' || c == '>' || c == '&' || c == '\U{2028}' || c == '\U{2029}'
  }

  function EscapeChar(c: char): string {
    if c == '<' then "\\u003c"
    else if c == '>' then "\\u003e"
    else if c == '&' then "\\u0026"
    else if c == '\U{2028}' then "\\u2028"
    else if c == '\U{2029}' then "\\u2029"
    else [c]
  }

  function Escape(s: string): string {
    if s == "" then "" else EscapeChar(s[0]) + Escape(s[1..])
  }

  /** The output holds no dangerous character, and denotes the value the document denotes. */
  method EscapeJSONForScript(doc: string) returns (out: string)
    ensures forall c :: c in out ==> c !in {'<', '>', '&', '\U{2028}', '\U{2029}'}
    ensures ReadText(doc).Some? ==> ReadText(out) == ReadText(doc)
  {
    hide ReadText, EscapeChar;
    out := "";
    var i := 0;
    while i < |doc|
      invariant 0 <= i <= |doc|
      invariant out + Escape(doc[i..]) == Escape(doc)
    {
      EscapeStep(doc, i);
      var c := doc[i];
      if c == '<' {
        out := out + "\\u003c";
      } else if c == '>' {
        out := out + "\\u003e";
      } else if c == '&' {
        out := out + "\\u0026";
      } else if c == '\U{2028}' {
        out := out + "\\u2028";
      } else if c == '\U{2029}' {
        out := out + "\\u2029";
      } else {
        out := out + [c];
      }
      i := i + 1;
    }
    assert out == Escape(doc);
    NothingDangerous(doc);
    if ReadText(doc).Some? {
      SameValue(doc);
    }
  }

  lemma EscapeStep(doc: string, i: nat)
    requires i < |doc|
    ensures forall out: string :: out + Escape(doc[i..]) == out + EscapeChar(doc[i]) + Escape(doc[i + 1..])
    ensures EscapeChar(doc[i]) ==
      match doc[i]
      case '<' => "\\u003c"
      case '>' => "\\u003e"
      case '&' => "\\u0026"
      case '\U{2028}' => "\\u2028"
      case '\U{2029}' => "\\u2029"
      case c => [c]
  {
    assert doc[i..][1..] == doc[i + 1..];
  }

  lemma {:induction false} NothingDangerous(s: string)
    ensures forall i :: 0 <= i < |Escape(s)| ==> !Dangerous(Escape(s)[i])
  {
    if s != "" {
      NothingDangerous(s[1..]);
    }
  }

  // ------------------------------------------------------------- text outside strings

  predicate Plain(s: string) {
    forall i :: 0 <= i < |s| ==> !Dangerous(s[i])
  }

  lemma PlainHead(s: string)
    requires s != "" && !Dangerous(s[0])
    ensures Escape(s) == [s[0]] + Escape(s[1..])
    ensures Escape(s) != "" && Escape(s)[0] == s[0] && Escape(s)[1..] == Escape(s[1..])
  {
  }

  lemma {:induction false} PlainPrefix(s: string, n: nat)
    requires n <= |s| && Plain(s[..n])
    ensures Escape(s) == s[..n] + Escape(s[n..])
  {
    hide Escape;
    if n == 0 {
      assert s[0..] == s;
    } else {
      var k := Escape(s[n..]);
      assert s[0] == s[..n][0];
      PlainHead(s);
      assert s[1..][..n - 1] == s[..n][1..];
      PlainPrefix(s[1..], n - 1);
      assert s[1..][n - 1..] == s[n..];
      assert [s[0]] + (s[1..n] + k) == s[..n] + k;
    }
  }

  // The first character is kept, or it becomes a backslash.
  lemma FirstChar(s: string)
    ensures Escape(s) == "" <==> s == ""
    ensures s != "" ==> Escape(s)[0] == if Dangerous(s[0]) then '\\' else s[0]
  {
  }

  lemma {:induction false} SpaceKept(s: string)
    ensures SkipSpace(Escape(s)) == Escape(SkipSpace(s))
  {
    FirstChar(s);
    if s != "" && IsSpace(s[0]) {
      PlainHead(s);
      SpaceKept(s[1..]);
    }
  }

  // A character that is not a backslash starts the escaped text exactly if it starts the text.
  lemma StartKept(s: string, c: char)
    requires !Dangerous(c) && c != '\\'
    ensures Starts(Escape(s), c) <==> Starts(s, c)
    ensures Starts(s, c) ==> Escape(s)[1..] == Escape(s[1..])
  {
    FirstChar(s);
    if Starts(s, c) {
      PlainHead(s);
    }
  }

  // -------------------------------------------------------------------------- strings

  lemma DangerousUnit(c: char, k: string)
    requires Dangerous(c)
    ensures ReadChars(EscapeChar(c) + k) == Prepend(Units(c), ReadChars(k))
  {
    hide ReadChars;
    var e := EscapeChar(c);
    var s := e + k;
    assert |e| == 6 && e[0] == '\\' && e[1] == 'u';
    assert s[2..6] == e[2..6] && s[6..] == k;
    assert s[0] == '\\' && s[1] == 'u';
    UnicodeEscape(s);
    EscapedHex(c);
  }

  lemma EscapedHex(c: char)
    requires Dangerous(c)
    ensures |EscapeChar(c)| == 6 && Hex4(EscapeChar(c)[2..6]) == Some(c as int) && Units(c) == [c as int]
  {
  }

  lemma UnicodeEscape(s: string)
    requires |s| >= 6 && s[0] == '\\' && s[1] == 'u'
    ensures ReadChars(s) == if Hex4(s[2..6]).Some? then Prepend([Hex4(s[2..6]).value], ReadChars(s[6..])) else None
  {
    hide Hex4, Prepend, Units;
  }

  lemma ShortEscaped(s: string)
    requires |s| >= 2 && s[0] == '\\' && ShortEscape(s[1]).Some?
    ensures ReadChars(s) == Prepend([ShortEscape(s[1]).value], ReadChars(s[2..]))
  {
    hide ShortEscape, Hex4, Prepend, Units;
  }

  lemma HexIsPlain(s: string)
    requires |s| == 4 && Hex4(s).Some?
    ensures Plain(s)
  {
  }

  lemma {:induction false} CharsKept(s: string)
    requires ReadChars(s).Some?
    ensures ReadChars(Escape(s)) == Some(Read(ReadChars(s).value.x, Escape(ReadChars(s).value.rest)))
  {
    hide Escape, EscapeChar, Hex4, ShortEscape, Units;
    if s[0] == '"' {
      PlainHead(s);
    } else if s[0] != '\\' {
      CharsKept(s[1..]);
      if Dangerous(s[0]) {
        EscapeHead(s);
        DangerousUnit(s[0], Escape(s[1..]));
      } else {
        PlainHead(s);
      }
    } else if |s| >= 2 && ShortEscape(s[1]).Some? {
      CharsKept(s[2..]);
      ShortEscapeKept(s);
    } else {
      CharsKept(s[6..]);
      UnicodeEscapeKept(s);
    }
  }

  lemma EscapeHead(s: string)
    requires s != ""
    ensures Escape(s) == EscapeChar(s[0]) + Escape(s[1..])
  {
  }

  lemma ShortEscapeKept(s: string)
    requires |s| >= 2 && s[0] == '\\' && ShortEscape(s[1]).Some?
    ensures ReadChars(Escape(s)) == Prepend([ShortEscape(s[1]).value], ReadChars(Escape(s[2..])))
  {
    hide ReadChars, Escape;
    PlainPrefix(s, 2);
    assert Escape(s)[2..] == Escape(s[2..]);
    assert Escape(s)[0] == s[0] && Escape(s)[1] == s[1];
    ShortEscaped(Escape(s));
  }

  lemma UnicodeEscapeKept(s: string)
    requires |s| >= 6 && s[0] == '\\' && s[1] == 'u' && Hex4(s[2..6]).Some?
    ensures ReadChars(Escape(s)) == Prepend([Hex4(s[2..6]).value], ReadChars(Escape(s[6..])))
  {
    hide ReadChars, Escape, Hex4;
    HexIsPlain(s[2..6]);
    assert s[..6] == [s[0], s[1]] + s[2..6];
    PlainPrefix(s, 6);
    assert Escape(s)[6..] == Escape(s[6..]);
    assert Escape(s)[2..6] == s[2..6];
    assert Escape(s)[0] == s[0] && Escape(s)[1] == s[1];
    UnicodeEscape(Escape(s));
  }

  // --------------------------------------------------------------------------- values

  function Escaped<T>(r: Option<Read<T>>): Option<Read<T>> {
    if r.None? then None else Some(Read(r.value.x, Escape(r.value.rest)))
  }

  lemma WordKept(s: string, word: string, v: Value)
    requires word != "" && Plain(word) && Word(s, word, v).Some?
    ensures Word(Escape(s), word, v) == Escaped(Word(s, word, v))
  {
    PlainPrefix(s, |word|);
    assert Escape(s)[..|word|] == word;
    assert Escape(s)[|word|..] == Escape(s[|word|..]);
  }

  lemma {:induction false} NumberRunKept(s: string)
    ensures NumberRun(Escape(s)) == NumberRun(s)
    ensures Escape(s) == s[..NumberRun(s)] + Escape(s[NumberRun(s)..])
  {
    hide Escape;
    FirstChar(s);
    if s != "" && InNumber(s[0]) {
      PlainHead(s);
      NumberRunKept(s[1..]);
      var n := NumberRun(s);
      assert s[1..][..n - 1] == s[1..n] && s[1..][n - 1..] == s[n..];
      assert [s[0]] + s[1..n] == s[..n];
    } else {
      assert s[0..] == s;
    }
  }

  lemma NumberKept(s: string)
    requires ReadNumber(s).Some?
    ensures ReadNumber(Escape(s)) == Escaped(ReadNumber(s))
  {
    NumberRunKept(s);
    var n := NumberRun(s);
    assert Escape(s)[..n] == s[..n] && Escape(s)[n..] == Escape(s[n..]);
  }

  lemma {:induction false} ValueKept(s: string)
    requires ReadValue(s).Some?
    ensures ReadValue(Escape(s)) == Escaped(ReadValue(s))
    decreases |s|, 0
  {
    hide Escape, ReadChars, ReadElements, ReadMembers, SkipSpace, Word, ReadNumber;
    SpaceKept(s);
    var t := SkipSpace(s);
    FirstChar(t);
    if t[0] == '"' {
      PlainHead(t);
      CharsKept(t[1..]);
    } else if t[0] == '[' {
      PlainHead(t);
      SpaceKept(t[1..]);
      StartKept(SkipSpace(t[1..]), ']');
      if !Starts(SkipSpace(t[1..]), ']') {
        ElementsKept(t[1..]);
      }
    } else if t[0] == '{' {
      PlainHead(t);
      SpaceKept(t[1..]);
      StartKept(SkipSpace(t[1..]), '}');
      if !Starts(SkipSpace(t[1..]), '}') {
        MembersKept(t[1..]);
      }
    } else if t[0] == 't' {
      WordKept(t, "true", Boolean(true));
    } else if t[0] == 'f' {
      WordKept(t, "false", Boolean(false));
    } else if t[0] == 'n' {
      WordKept(t, "null", Null);
    } else {
      NumberKept(t);
      NumberStart(t);
    }
  }

  lemma NumberStart(s: string)
    requires ReadNumber(s).Some?
    ensures s != "" && InNumber(s[0])
  {
  }

  lemma {:induction false} ElementsKept(s: string)
    requires ReadElements(s).Some?
    ensures ReadElements(Escape(s)) == Escaped(ReadElements(s))
    decreases |s|, 1
  {
    hide Escape, ReadValue, SkipSpace;
    ValueKept(s);
    var rest := ReadValue(s).value.rest;
    SpaceKept(rest);
    var t := SkipSpace(rest);
    StartKept(t, ']');
    StartKept(t, ',');
    if !Starts(t, ']') {
      ElementsKept(t[1..]);
    }
  }

  lemma {:induction false} MemberKept(s: string)
    requires ReadMember(s).Some?
    ensures ReadMember(Escape(s)) == Escaped(ReadMember(s))
    decreases |s|, 1
  {
    hide Escape, ReadChars, ReadValue, SkipSpace;
    SpaceKept(s);
    var t := SkipSpace(s);
    StartKept(t, '"');
    CharsKept(t[1..]);
    var rest := ReadChars(t[1..]).value.rest;
    SpaceKept(rest);
    StartKept(SkipSpace(rest), ':');
    ValueKept(SkipSpace(rest)[1..]);
  }

  lemma {:induction false} MembersKept(s: string)
    requires ReadMembers(s).Some?
    ensures ReadMembers(Escape(s)) == Escaped(ReadMembers(s))
    decreases |s|, 2
  {
    hide Escape, ReadMember, SkipSpace;
    MemberKept(s);
    var rest := ReadMember(s).value.rest;
    SpaceKept(rest);
    var t := SkipSpace(rest);
    StartKept(t, '}');
    StartKept(t, ',');
    if !Starts(t, '}') {
      MembersKept(t[1..]);
    }
  }

  /** The escaped text of a document denotes the value the document denotes. */
  lemma SameValue(s: string)
    requires ReadText(s).Some?
    ensures ReadText(Escape(s)) == ReadText(s)
  {
    hide Escape, ReadValue, SkipSpace;
    ValueKept(s);
    SpaceKept(ReadValue(s).value.rest);
    FirstChar("");
  }

  // Text that is not JSON can become JSON: a backslash in front of `<` is completed by the
  // backslash of the escape.
  lemma IllFormedMayBecomeWellFormed()
    ensures ReadText("\"\\<\"") == None
    ensures ReadText(Escape("\"\\<\"")).Some?
  {
    BadIsRefused();
    BadEscaped();
    GoodIsRead();
  }

  lemma BadIsRefused()
    ensures ReadText("\"\\<\"") == None
  {
    var bad := "\"\\<\"";
    assert SkipSpace(bad) == bad;
    assert ReadChars(bad[1..]) == None;
  }

  lemma BadEscaped()
    ensures Escape("\"\\<\"") == "\"\\\\u003c\""
  {
    hide Escape;
    var bad := "\"\\<\"";
    PlainPrefix(bad, 2);
    assert bad[2..] == "<\"" && bad[..2] == "\"\\";
    EscapeHead("<\"");
    assert "<\""[1..] == "\"";
    PlainHead("\"");
    assert "\""[1..] == "";
    FirstChar("");
    assert Escape("\"") == "\"";
    assert Escape("<\"") == "\\u003c\"";
  }

  lemma GoodIsRead()
    ensures ReadText("\"\\\\u003c\"").Some?
  {
    hide ReadChars;
    var good := "\"\\\\u003c\"";
    assert SkipSpace(good) == good;
    var chars := good[1..];
    assert chars[2..] == "u003c" + "\"";
    PlainCharsRead("u003c");
    ShortEscaped(chars);
    assert SkipSpace("") == "";
  }

  // Ordinary characters up to a closing quote are a string.
  lemma {:induction false} PlainCharsRead(s: string)
    requires forall i :: 0 <= i < |s| ==> s[i] >= ' ' && s[i] != '"' && s[i] != '\\'
    ensures ReadChars(s + "\"").Some? && ReadChars(s + "\"").value.rest == ""
  {
    if s != "" {
      PlainCharsRead(s[1..]);
      assert (s + "\"")[1..] == s[1..] + "\"";
    }
  }
}
