/** The lexical grammar behind the placeholder scan (components/queryengine/params.go): which
    parts of a SQL text are code, which are quoted or commented out, and where the `$name`
    placeholders are. A character stands for one byte of the source. */
module SqlGrammar {
  import opened Options
  import opened Characters

  predicate IsNameStart(c: char) { 'a' <= c <= 'z' || 'A' <= c <= 'Z' || c == '_' }
  predicate IsNameChar(c: char) { IsNameStart(c) || IsDigit(c) }
  predicate IsQuote(c: char) { c == '\'' || c == '"' }

  predicate StartsWith(s: string, c: char) { s != "" && s[0] == c }

  predicate AllNameChars(s: string) {
    forall i :: 0 <= i < |s| ==> IsNameChar(s[i])
  }

  // -------------------------------------------------------------------- the lexemes

  // Inside a block comment: single characters and nested comments.
  datatype Item = Ch(c: char) | Nested(items: seq<Item>)

  datatype Lexeme =
    | Other(c: char)
    | Quoted(q: char, content: string, closed: bool)
    | LineComment(body: string)
    | BlockComment(items: seq<Item>)
    | OpenBlockComment(body: string)
    | DollarQuoted(tag: string, body: string, closed: bool)
    | Placeholder(name: string)

  // The content with every `q` doubled, followed by `k`.
  function Doubled(content: string, q: char, k: string): string {
    if content == "" then k
    else if content[0] == q then [q, q] + Doubled(content[1..], q, k)
    else [content[0]] + Doubled(content[1..], q, k)
  }

  function Closing(q: char, closed: bool, k: string): string {
    if closed then [q] + k else k
  }

  // The comment's items followed by `k`.
  function RenderItems(items: seq<Item>, k: string): string
    decreases items
  {
    if items == [] then k
    else match items[0]
      case Ch(c) => [c] + RenderItems(items[1..], k)
      case Nested(inner) => "/*" + RenderItems(inner, "*/" + RenderItems(items[1..], k))
  }

  // No single character may be the start of a comment bracket.
  predicate ItemsOk(items: seq<Item>, k: string)
    decreases items
  {
    if items == [] then true
    else
      var tail := RenderItems(items[1..], k);
      ItemsOk(items[1..], k) &&
      match items[0]
      case Ch(c) => !(c == '/' && StartsWith(tail, '*')) && !(c == '*' && StartsWith(tail, '/'))
      case Nested(inner) => ItemsOk(inner, "*/" + tail)
  }

  function Delimiter(tag: string): string { "$" + tag + "$" }

  // A lexeme's text followed by `k`.
  function Render(x: Lexeme, k: string): string {
    match x
    case Other(c) => [c] + k
    case Quoted(q, content, closed) => [q] + Doubled(content, q, Closing(q, closed, k))
    case LineComment(body) => "--" + (body + k)
    case BlockComment(items) => "/*" + RenderItems(items, "*/" + k)
    case OpenBlockComment(body) => "/*" + (body + k)
    case DollarQuoted(tag, body, closed) =>
      Delimiter(tag) + (body + ((if closed then Delimiter(tag) else "") + k))
    case Placeholder(name) => "$" + (name + k)
  }

  predicate ValidTag(tag: string) {
    AllNameChars(tag) && (tag == "" || IsNameStart(tag[0]))
  }

  // `d` occurs in `s` at `m`.
  predicate OccursAt(s: string, d: string, m: nat) {
    m + |d| <= |s| && s[m..m + |d|] == d
  }

  // A comment that is never closed.
  ghost predicate NeverCloses(body: string) {
    forall items: seq<Item>, k: string :: ItemsOk(items, "*/" + k) ==> body != RenderItems(items, "*/" + k)
  }

  // A lexeme may stand in front of `k`.
  ghost predicate Ok(x: Lexeme, k: string) {
    match x
    case Other(c) =>
      && !IsQuote(c)
      && !(c == '-' && StartsWith(k, '-'))
      && !(c == '/' && StartsWith(k, '*'))
      && (c == '$' ==> k == "" || (k[0] != '$' && !IsNameStart(k[0])))
    case Quoted(q, _, closed) => IsQuote(q) && (if closed then !StartsWith(k, q) else k == "")
    case LineComment(body) => '\n' !in body && (k == "" || k[0] == '\n')
    case BlockComment(items) => ItemsOk(items, "*/" + k)
    case OpenBlockComment(body) => k == "" && NeverCloses(body)
    case DollarQuoted(tag, body, closed) =>
      && ValidTag(tag)
      && (if closed then forall m :: 0 <= m < |body| ==> !OccursAt(body + Delimiter(tag), Delimiter(tag), m)
          else k == "" && forall m :: 0 <= m <= |body| ==> !OccursAt(body, Delimiter(tag), m))
    case Placeholder(name) =>
      name != "" && ValidTag(name) && (k == "" || (!IsNameChar(k[0]) && k[0] != '$'))
  }

  function RenderAll(xs: seq<Lexeme>): string {
    if xs == [] then "" else Render(xs[0], RenderAll(xs[1..]))
  }

  ghost predicate AllOk(xs: seq<Lexeme>) {
    xs == [] || (Ok(xs[0], RenderAll(xs[1..])) && AllOk(xs[1..]))
  }

  // The grammar: `xs` is a reading of `sql`.
  ghost predicate Reads(sql: string, xs: seq<Lexeme>) {
    RenderAll(xs) == sql && AllOk(xs)
  }

  // ------------------------------------------------------------- reading one lexeme

  // A quoted body: its content, whether it was closed, and what follows.
  datatype Body = Body(content: string, closed: bool, rest: string)

  function ReadQuoted(s: string, q: char): (b: Body)
    ensures |b.rest| <= |s|
  {
    if s == "" then Body("", false, "")
    else if s[0] != q then var b := ReadQuoted(s[1..], q); b.(content := [s[0]] + b.content)
    else if |s| > 1 && s[1] == q then var b := ReadQuoted(s[2..], q); b.(content := [q] + b.content)
    else Body("", true, s[1..])
  }

  function NameRun(s: string): (n: nat)
    ensures n <= |s| && AllNameChars(s[..n]) && (n < |s| ==> !IsNameChar(s[n]))
  {
    if s == "" || !IsNameChar(s[0]) then 0 else 1 + NameRun(s[1..])
  }

  function LineEnd(s: string): (n: nat)
    ensures n <= |s| && '\n' !in s[..n] && (n < |s| ==> s[n] == '\n')
  {
    if s == "" || s[0] == '\n' then 0 else 1 + LineEnd(s[1..])
  }

  lemma OccursInTail(s: string, d: string, i: nat)
    requires 0 < i <= |s|
    ensures OccursAt(s, d, i) <==> OccursAt(s[1..], d, i - 1)
  {
    if i + |d| <= |s| {
      assert s[i..i + |d|] == s[1..][i - 1..i - 1 + |d|];
    }
  }

  // The first occurrence of `d`.
  function Find(s: string, d: string): (m: Option<nat>)
    ensures m.Some? ==> OccursAt(s, d, m.value) && forall i :: 0 <= i < m.value ==> !OccursAt(s, d, i)
    ensures m.None? ==> forall i :: 0 <= i <= |s| ==> !OccursAt(s, d, i)
  {
    if OccursAt(s, d, 0) then Some(0)
    else if s == "" then None
    else
      var m := Find(s[1..], d);
      assert forall i :: 0 < i <= |s| ==> (OccursAt(s, d, i) <==> OccursAt(s[1..], d, i - 1)) by {
        forall i | 0 < i <= |s| {
          OccursInTail(s, d, i);
        }
      }
      if m.None? then None else Some(m.value + 1)
  }

  datatype Items = Items(items: seq<Item>, rest: string)

  function ReadItems(s: string): (r: Option<Items>)
    ensures r.Some? ==> |r.value.rest| < |s|
    decreases |s|
  {
    if |s| < 2 then None
    else if s[0] == '/' && s[1] == '*' then
      match ReadItems(s[2..])
      case None => None
      case Some(inner) => PrependItem(Nested(inner.items), ReadItems(inner.rest))
    else if s[0] == '*' && s[1] == '/' then Some(Items([], s[2..]))
    else PrependItem(Ch(s[0]), ReadItems(s[1..]))
  }

  function PrependItem(i: Item, r: Option<Items>): Option<Items> {
    match r
    case None => None
    case Some(p) => Some(Items([i] + p.items, p.rest))
  }

  // What follows once `depth` comment brackets have been closed.
  function BlockRest(s: string, depth: nat): Option<string>
    decreases |s|
  {
    if depth == 0 then Some(s)
    else if |s| < 2 then None
    else if s[0] == '/' && s[1] == '*' then BlockRest(s[2..], depth + 1)
    else if s[0] == '*' && s[1] == '/' then BlockRest(s[2..], depth - 1)
    else BlockRest(s[1..], depth)
  }

  datatype Read = Read(x: Lexeme, rest: string)

  // A dollar-quoted literal whose opening delimiter has been read.
  function ReadTagged(tag: string, s: string): (r: Read)
    ensures |r.rest| <= |s|
  {
    var at := Find(s, Delimiter(tag));
    if at.Some? then Read(DollarQuoted(tag, s[..at.value], true), s[at.value + |Delimiter(tag)|..])
    else Read(DollarQuoted(tag, s, false), "")
  }

  // What a `$` followed by `s` begins.
  function ReadDollar(s: string): (r: Read)
    ensures |r.rest| <= |s|
  {
    var n := NameRun(s);
    if (n == 0 || IsNameStart(s[0])) && n < |s| && s[n] == '$' then ReadTagged(s[..n], s[n + 1..])
    else if n > 0 && IsNameStart(s[0]) then Read(Placeholder(s[..n]), s[n..])
    else Read(Other('$'), s)
  }

  function ReadOne(s: string): (r: Read)
    requires s != ""
    ensures |r.rest| < |s|
  {
    if IsQuote(s[0]) then
      var b := ReadQuoted(s[1..], s[0]);
      Read(Quoted(s[0], b.content, b.closed), b.rest)
    else if s[0] == '-' && |s| > 1 && s[1] == '-' then
      var n := LineEnd(s[2..]);
      Read(LineComment(s[2..][..n]), s[2..][n..])
    else if s[0] == '/' && |s| > 1 && s[1] == '*' then
      match ReadItems(s[2..])
      case None => Read(OpenBlockComment(s[2..]), "")
      case Some(p) => Read(BlockComment(p.items), p.rest)
    else if s[0] == '$' then ReadDollar(s[1..])
    else Read(Other(s[0]), s[1..])
  }

  // ------------------------------------------ reading and rendering a lexeme agree

  lemma {:induction false} RenderAfterReadQuoted(s: string, q: char)
    ensures var b := ReadQuoted(s, q);
      && s == Doubled(b.content, q, Closing(q, b.closed, b.rest))
      && (if b.closed then !StartsWith(b.rest, q) else b.rest == "")
  {
    var b := ReadQuoted(s, q);
    if s == "" {
    } else if s[0] != q {
      RenderAfterReadQuoted(s[1..], q);
      assert b.content[1..] == ReadQuoted(s[1..], q).content;
      assert s == [s[0]] + s[1..];
    } else if |s| > 1 && s[1] == q {
      RenderAfterReadQuoted(s[2..], q);
      assert b.content[1..] == ReadQuoted(s[2..], q).content;
      assert s == [q, q] + s[2..];
    } else {
      assert s == [q] + s[1..];
    }
  }

  lemma {:induction false} ReadAfterDoubled(content: string, q: char, closed: bool, k: string)
    requires if closed then !StartsWith(k, q) else k == ""
    ensures ReadQuoted(Doubled(content, q, Closing(q, closed, k)), q) == Body(content, closed, k)
  {
    if content == "" {
      assert closed ==> ([q] + k)[1..] == k;
    } else {
      var more := Doubled(content[1..], q, Closing(q, closed, k));
      ReadAfterDoubled(content[1..], q, closed, k);
      assert content == [content[0]] + content[1..];
      assert ([q, q] + more)[2..] == more;
      assert ([content[0]] + more)[1..] == more;
    }
  }

  // `s` reads as these items in front of `rest`.
  predicate ReadsItems(s: string, items: seq<Item>, rest: string) {
    s == RenderItems(items, "*/" + rest) && ItemsOk(items, "*/" + rest)
  }

  lemma ReadsChar(s: string, items: seq<Item>, rest: string)
    requires |s| >= 2 && !(s[0] == '/' && s[1] == '*') && !(s[0] == '*' && s[1] == '/')
    requires ReadsItems(s[1..], items, rest)
    ensures ReadsItems(s, [Ch(s[0])] + items, rest)
  {
    assert ([Ch(s[0])] + items)[1..] == items;
    assert s == [s[0]] + s[1..];
  }

  lemma ReadsNested(s: string, inner: seq<Item>, mid: string, items: seq<Item>, rest: string)
    requires |s| >= 2 && s[0] == '/' && s[1] == '*'
    requires ReadsItems(s[2..], inner, mid) && ReadsItems(mid, items, rest)
    ensures ReadsItems(s, [Nested(inner)] + items, rest)
  {
    assert ([Nested(inner)] + items)[1..] == items;
    assert s == "/*" + s[2..];
  }

  lemma {:induction false} RenderAfterReadItems(s: string)
    ensures ReadItems(s).Some? ==> ReadsItems(s, ReadItems(s).value.items, ReadItems(s).value.rest)
    decreases |s|
  {
    hide ReadsItems;
    if ReadItems(s).Some? {
      if s[0] == '/' && s[1] == '*' {
        var inner := ReadItems(s[2..]).value;
        var more := ReadItems(inner.rest).value;
        RenderAfterReadItems(s[2..]);
        RenderAfterReadItems(inner.rest);
        ReadsNested(s, inner.items, inner.rest, more.items, more.rest);
      } else if s[0] == '*' && s[1] == '/' {
        ReadsClosing(s);
      } else {
        RenderAfterReadItems(s[1..]);
        var more := ReadItems(s[1..]).value;
        ReadsChar(s, more.items, more.rest);
      }
    }
  }

  lemma ReadsClosing(s: string)
    requires |s| >= 2 && s[0] == '*' && s[1] == '/'
    ensures ReadsItems(s, [], s[2..])
  {
    assert s == "*/" + s[2..];
  }

  lemma {:induction false} ReadAfterRenderItems(items: seq<Item>, k: string)
    requires ItemsOk(items, "*/" + k)
    ensures ReadItems(RenderItems(items, "*/" + k)) == Some(Items(items, k))
    decreases items
  {
    if items == [] {
      assert ("*/" + k)[2..] == k;
    } else {
      var tail := RenderItems(items[1..], "*/" + k);
      ReadAfterRenderItems(items[1..], k);
      assert [items[0]] + items[1..] == items;
      match items[0] {
        case Ch(c) =>
          assert ([c] + tail)[1..] == tail;
        case Nested(inner) =>
          ReadAfterRenderItems(inner, tail);
          var body := RenderItems(inner, "*/" + tail);
          assert ("/*" + body)[2..] == body;
      }
    }
  }

  // Counting brackets finds the end that the nesting structure gives.
  lemma {:induction false} BlockRestIsReadItems(s: string, depth: nat)
    requires depth > 0
    ensures BlockRest(s, depth) ==
      match ReadItems(s)
      case None => None
      case Some(p) => BlockRest(p.rest, depth - 1)
    decreases |s|
  {
    if |s| >= 2 {
      if s[0] == '/' && s[1] == '*' {
        BlockRestIsReadItems(s[2..], depth + 1);
        if ReadItems(s[2..]).Some? {
          BlockRestIsReadItems(ReadItems(s[2..]).value.rest, depth);
        }
      } else if !(s[0] == '*' && s[1] == '/') {
        BlockRestIsReadItems(s[1..], depth);
      }
    }
  }

  lemma {:induction false} NameRunOf(name: string, k: string)
    requires AllNameChars(name) && (k == "" || !IsNameChar(k[0]))
    ensures NameRun(name + k) == |name|
  {
    if name == "" {
      assert name + k == k;
    } else {
      assert (name + k)[1..] == name[1..] + k;
      NameRunOf(name[1..], k);
    }
  }

  lemma {:induction false} LineEndOf(body: string, k: string)
    requires '\n' !in body && (k == "" || k[0] == '\n')
    ensures LineEnd(body + k) == |body|
  {
    if body == "" {
      assert body + k == k;
    } else {
      assert (body + k)[1..] == body[1..] + k;
      LineEndOf(body[1..], k);
    }
  }

  // Whether `d` occurs somewhere does not depend on what comes later.
  lemma OccursInPrefix(a: string, b: string, d: string, m: nat)
    requires m + |d| <= |a|
    ensures OccursAt(a + b, d, m) <==> OccursAt(a, d, m)
  {
    assert (a + b)[m..m + |d|] == a[m..m + |d|];
  }

  lemma FindOf(body: string, d: string, k: string)
    requires forall m :: 0 <= m < |body| ==> !OccursAt(body + d, d, m)
    ensures Find(body + (d + k), d) == Some(|body|)
  {
    var s := (body + d) + k;
    assert s == body + (d + k);
    assert s[|body|..|body| + |d|] == d;
    assert OccursAt(s, d, |body|);
    forall m | 0 <= m < |body|
      ensures !OccursAt(s, d, m)
    {
      OccursInPrefix(body + d, k, d, m);
    }
  }

  lemma RenderAfterReadTagged(tag: string, s: string)
    requires ValidTag(tag)
    ensures var r := ReadTagged(tag, s);
      && r.x.DollarQuoted? && r.x.tag == tag
      && Delimiter(tag) + s == Render(r.x, r.rest)
      && Ok(r.x, r.rest)
  {
    hide Delimiter;
    var d := Delimiter(tag);
    var at := Find(s, d);
    if at.Some? {
      var body, rest := s[..at.value], s[at.value + |d|..];
      assert s == (body + d) + rest;
      assert s == body + (d + rest);
      forall m | 0 <= m < |body|
        ensures !OccursAt(body + d, d, m)
      {
        OccursInPrefix(body + d, rest, d, m);
      }
    } else {
      assert s == s + ("" + "");
    }
  }

  lemma DelimiterSplits(tag: string, text: string)
    ensures Delimiter(tag) + text == "$" + (tag + ("$" + text))
  {
  }

  lemma SplitAtDollar(s: string, n: nat)
    requires n < |s| && s[n] == '$'
    ensures "$" + s == Delimiter(s[..n]) + s[n + 1..]
  {
    DelimiterSplits(s[..n], s[n + 1..]);
    assert s == s[..n] + ("$" + s[n + 1..]);
  }

  lemma RenderAfterReadOpening(s: string, n: nat)
    requires n < |s| && s[n] == '$' && ValidTag(s[..n])
    ensures var r := ReadTagged(s[..n], s[n + 1..]); "$" + s == Render(r.x, r.rest) && Ok(r.x, r.rest)
  {
    hide *;
    SplitAtDollar(s, n);
    RenderAfterReadTagged(s[..n], s[n + 1..]);
  }

  lemma RenderPlaceholder(s: string, n: nat)
    requires 0 < n <= |s| && ValidTag(s[..n])
    requires n < |s| ==> !IsNameChar(s[n]) && s[n] != '$'
    ensures "$" + s == Render(Placeholder(s[..n]), s[n..]) && Ok(Placeholder(s[..n]), s[n..])
  {
    assert s == s[..n] + s[n..];
  }

  lemma RenderStray(s: string)
    requires s == "" || (s[0] != '$' && !IsNameStart(s[0]))
    ensures "$" + s == Render(Other('$'), s) && Ok(Other('$'), s)
  {
  }

  lemma RenderAfterReadDollar(s: string)
    ensures var r := ReadDollar(s); "$" + s == Render(r.x, r.rest) && Ok(r.x, r.rest)
  {
    hide Render, Ok, ReadTagged;
    var n := NameRun(s);
    if (n == 0 || IsNameStart(s[0])) && n < |s| && s[n] == '$' {
      RenderAfterReadOpening(s, n);
    } else if n > 0 && IsNameStart(s[0]) {
      RenderPlaceholder(s, n);
    } else {
      RenderStray(s);
    }
  }

  lemma RenderLine(s: string, n: nat)
    requires n <= |s| && '\n' !in s[..n] && (n < |s| ==> s[n] == '\n')
    ensures "--" + s == Render(LineComment(s[..n]), s[n..]) && Ok(LineComment(s[..n]), s[n..])
  {
    assert s == s[..n] + s[n..];
  }

  lemma RenderBlock(s: string)
    ensures match ReadItems(s)
      case None => "/*" + s == Render(OpenBlockComment(s), "") && Ok(OpenBlockComment(s), "")
      case Some(p) => "/*" + s == Render(BlockComment(p.items), p.rest) && Ok(BlockComment(p.items), p.rest)
  {
    RenderAfterReadItems(s);
    if ReadItems(s).None? {
      forall items: seq<Item>, k: string | ItemsOk(items, "*/" + k)
        ensures s != RenderItems(items, "*/" + k)
      {
        ReadAfterRenderItems(items, k);
      }
      assert s + "" == s;
    }
  }

  lemma RenderQuoted(q: char, s: string)
    requires IsQuote(q)
    ensures var b := ReadQuoted(s, q);
      [q] + s == Render(Quoted(q, b.content, b.closed), b.rest) && Ok(Quoted(q, b.content, b.closed), b.rest)
  {
    RenderAfterReadQuoted(s, q);
  }

  lemma RenderAfterRead(s: string)
    requires s != ""
    ensures var r := ReadOne(s); s == Render(r.x, r.rest) && Ok(r.x, r.rest)
  {
    assert s == [s[0]] + s[1..];
    if IsQuote(s[0]) {
      hide Render, Ok;
      RenderQuoted(s[0], s[1..]);
    } else if s[0] == '-' && |s| > 1 && s[1] == '-' {
      hide Render, Ok;
      assert s == "--" + s[2..];
      RenderLine(s[2..], LineEnd(s[2..]));
    } else if s[0] == '/' && |s| > 1 && s[1] == '*' {
      hide Render, Ok;
      assert s == "/*" + s[2..];
      RenderBlock(s[2..]);
    } else if s[0] == '$' {
      hide Render, Ok, ReadDollar;
      RenderAfterReadDollar(s[1..]);
    }
  }

  lemma ReadAfterRenderTagged(tag: string, body: string, closed: bool, k: string)
    requires Ok(DollarQuoted(tag, body, closed), k)
    ensures ReadTagged(tag, body + ((if closed then Delimiter(tag) else "") + k))
         == Read(DollarQuoted(tag, body, closed), k)
  {
    var d := Delimiter(tag);
    if closed {
      FindOf(body, d, k);
      var text := body + (d + k);
      assert text[..|body|] == body && text[|body| + |d|..] == k;
    } else {
      assert body + ("" + k) == body;
    }
  }

  lemma ReadAfterRenderDollar(x: Lexeme, k: string)
    requires Ok(x, k) && (x.DollarQuoted? || x.Placeholder? || x == Other('$'))
    ensures StartsWith(Render(x, k), '$') && ReadDollar(Render(x, k)[1..]) == Read(x, k)
  {
    var s := Render(x, k)[1..];
    if x.Placeholder? {
      NameRunOf(x.name, k);
      assert s == x.name + k;
      assert s[..|x.name|] == x.name && s[|x.name|..] == k;
    } else if x.DollarQuoted? {
      ReadAfterRenderOpening(x.tag, x.body, x.closed, k);
    } else {
      assert s == k;
    }
  }

  lemma ReadAfterRenderOpening(tag: string, body: string, closed: bool, k: string)
    requires Ok(DollarQuoted(tag, body, closed), k)
    ensures var x := DollarQuoted(tag, body, closed);
      StartsWith(Render(x, k), '$') && ReadDollar(Render(x, k)[1..]) == Read(x, k)
  {
    var text := body + ((if closed then Delimiter(tag) else "") + k);
    var s := tag + ("$" + text);
    ReadAfterRenderTagged(tag, body, closed, k);
    DelimiterSplits(tag, text);
    hide Delimiter, ReadTagged;
    assert ("$" + s)[1..] == s;
    NameRunOf(tag, "$" + text);
    assert s[..|tag|] == tag && s[|tag| + 1..] == text;
  }

  lemma ReadAfterRenderLine(body: string, k: string)
    requires Ok(LineComment(body), k)
    ensures ReadOne(Render(LineComment(body), k)) == Read(LineComment(body), k)
  {
    LineEndOf(body, k);
    var s := body + k;
    assert s[..|body|] == body && s[|body|..] == k;
    assert ("--" + s)[2..] == s;
  }

  lemma ReadAfterRenderBlock(x: Lexeme, k: string)
    requires Ok(x, k) && (x.BlockComment? || x.OpenBlockComment?)
    ensures ReadOne(Render(x, k)) == Read(x, k)
  {
    if x.BlockComment? {
      ReadAfterRenderItems(x.items, k);
      var s := RenderItems(x.items, "*/" + k);
      assert ("/*" + s)[2..] == s;
    } else {
      RenderAfterReadItems(x.body);
      assert x.body + k == x.body;
      assert ("/*" + x.body)[2..] == x.body;
    }
  }

  lemma ReadAfterRender(x: Lexeme, k: string)
    requires Ok(x, k)
    ensures Render(x, k) != "" && ReadOne(Render(x, k)) == Read(x, k)
  {
    match x {
      case Other(c) =>
        assert Render(x, k)[1..] == k;
        if c == '$' {
          ReadAfterRenderDollar(x, k);
        }
      case Quoted(q, content, closed) =>
        ReadAfterDoubled(content, q, closed, k);
        assert Render(x, k)[1..] == Doubled(content, q, Closing(q, closed, k));
      case LineComment(body) => ReadAfterRenderLine(body, k);
      case BlockComment(_) => ReadAfterRenderBlock(x, k);
      case OpenBlockComment(_) => ReadAfterRenderBlock(x, k);
      case DollarQuoted(_, _, _) => ReadAfterRenderDollar(x, k);
      case Placeholder(_) => ReadAfterRenderDollar(x, k);
    }
  }

  // ------------------------------------------------------------------ whole texts

  function ReadAll(sql: string): seq<Lexeme>
    decreases |sql|
  {
    if sql == "" then [] else [ReadOne(sql).x] + ReadAll(ReadOne(sql).rest)
  }

  // Every text has a reading,
  lemma {:induction false} ReadAllReads(sql: string)
    ensures Reads(sql, ReadAll(sql))
    decreases |sql|
  {
    if sql != "" {
      RenderAfterRead(sql);
      ReadAllReads(ReadOne(sql).rest);
      assert ReadAll(sql)[1..] == ReadAll(ReadOne(sql).rest);
    }
  }

  // and only that one.
  lemma {:induction false} ReadingIsUnique(sql: string, xs: seq<Lexeme>)
    requires Reads(sql, xs)
    ensures xs == ReadAll(sql)
    decreases |xs|
  {
    if xs != [] {
      ReadAfterRender(xs[0], RenderAll(xs[1..]));
      ReadingIsUnique(RenderAll(xs[1..]), xs[1..]);
      assert xs == [xs[0]] + xs[1..];
    }
  }
}
