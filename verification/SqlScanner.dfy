/** The index-moving scanner of components/queryengine/params.go, and the literal escaping of
    sqlescape.go, proved against the lexical grammar. */
module SqlScanner {
  import opened Options
  import opened SqlGrammar

  datatype Span = Span(offset: nat, name: string)

  // The placeholders of a reading that starts at `offset`.
  function SpansOf(xs: seq<Lexeme>, offset: nat): seq<Span> {
    if xs == [] then []
    else
      var next := offset + |Render(xs[0], "")|;
      (if xs[0].Placeholder? then [Span(offset + 1, xs[0].name)] else []) + SpansOf(xs[1..], next)
  }

  // --------------------------------------------------------------- the skip functions

  // Each of these returns the offset where the rest of the text begins.
  method SkipQuoted(sql: string, start: nat) returns (i: nat)
    requires start < |sql|
    ensures start < i <= |sql|
    ensures sql[i..] == ReadQuoted(sql[start + 1..], sql[start]).rest
  {
    var q := sql[start];
    i := start + 1;
    while i < |sql|
      invariant start < i <= |sql|
      invariant ReadQuoted(sql[i..], q).rest == ReadQuoted(sql[start + 1..], q).rest
    {
      if sql[i] != q {
        i := i + 1;
      } else if i + 1 < |sql| && sql[i + 1] == q {
        assert sql[i..][2..] == sql[i + 2..];
        i := i + 2;
      } else {
        return i + 1;
      }
    }
    i := |sql|;
  }

  method SkipLineComment(sql: string, start: nat) returns (i: nat)
    requires start + 2 <= |sql|
    ensures start + 2 <= i <= |sql| && i == start + 2 + LineEnd(sql[start + 2..])
  {
    i := start + 2;
    while i < |sql|
      invariant start + 2 <= i <= |sql|
      invariant i + LineEnd(sql[i..]) == start + 2 + LineEnd(sql[start + 2..])
    {
      if sql[i] == '\n' {
        return;
      }
      i := i + 1;
    }
  }

  method SkipBlockComment(sql: string, start: nat) returns (i: nat)
    requires start + 2 <= |sql|
    ensures start + 2 <= i <= |sql|
    ensures
      match ReadItems(sql[start + 2..])
      case None => i == |sql|
      case Some(p) => sql[i..] == p.rest
  {
    hide ReadItems;
    BlockRestIsReadItems(sql[start + 2..], 1);
    var depth := 1;
    i := start + 2;
    while i + 1 < |sql|
      invariant start + 2 <= i <= |sql| && depth > 0
      invariant BlockRest(sql[i..], depth) == BlockRest(sql[start + 2..], 1)
    {
      assert sql[i..][2..] == sql[i + 2..] && sql[i..][1..] == sql[i + 1..];
      if sql[i] == '/' && sql[i + 1] == '*' {
        depth := depth + 1;
        i := i + 2;
      } else if sql[i] == '*' && sql[i + 1] == '/' {
        depth := depth - 1;
        i := i + 2;
        if depth == 0 {
          return;
        }
      } else {
        i := i + 1;
      }
    }
    i := |sql|;
  }

  // `strings.Index`.
  method Index(s: string, d: string) returns (m: Option<nat>)
    ensures m == Find(s, d)
  {
    var i := 0;
    while i + |d| <= |s|
      invariant forall k :: 0 <= k < i ==> !OccursAt(s, d, k)
    {
      if s[i..i + |d|] == d {
        assert OccursAt(s, d, i);
        return Some(i);
      }
      i := i + 1;
    }
    m := None;
  }

  method SkipDollarQuoted(sql: string, start: nat, bodyStart: nat, ghost tag: string) returns (i: nat)
    requires start <= bodyStart <= |sql| && sql[start..bodyStart] == Delimiter(tag)
    ensures bodyStart <= i <= |sql| && sql[i..] == ReadTagged(tag, sql[bodyStart..]).rest
  {
    var delim := sql[start..bodyStart];
    var at := Index(sql[bodyStart..], delim);
    if at.Some? {
      assert sql[bodyStart..][at.value + |delim|..] == sql[bodyStart + at.value + |delim|..];
      return bodyStart + at.value + |delim|;
    }
    i := |sql|;
  }

  method ScanName(sql: string, start: nat) returns (j: nat)
    requires start <= |sql|
    ensures start <= j <= |sql| && j == start + NameRun(sql[start..])
  {
    j := start;
    while j < |sql| && IsNameChar(sql[j])
      invariant start <= j <= |sql|
      invariant j + NameRun(sql[j..]) == start + NameRun(sql[start..])
    {
      j := j + 1;
    }
  }

  method ScanDollar(sql: string, i: nat) returns (next: nat, span: Option<Span>)
    requires i < |sql| && sql[i] == '$'
    ensures i < next <= |sql| && sql[next..] == ReadDollar(sql[i + 1..]).rest
    ensures span ==
      match ReadDollar(sql[i + 1..]).x
      case Placeholder(name) => Some(Span(i + 1, name))
      case _ => None
  {
    hide ReadDollar, ReadTagged, Delimiter;
    ghost var rest := sql[i + 1..];
    var j := ScanName(sql, i + 1);
    var tag := sql[i + 1..j];
    DollarReads(sql, i + 1, j);
    var validTag := tag == "" || IsNameStart(tag[0]);
    if validTag && j < |sql| && sql[j] == '$' {
      OpeningDelimiter(sql, i, j);
      next := SkipDollarQuoted(sql, i, j + 1, tag);
      return next, None;
    }
    if tag != "" && IsNameStart(tag[0]) {
      return j, Some(Span(i + 1, tag));
    }
    return i + 1, None;
  }

  // What a `$` begins, in terms of offsets.
  lemma DollarReads(sql: string, i: nat, j: nat)
    requires i <= |sql| && j == i + NameRun(sql[i..])
    ensures var tag := sql[i..j];
      ReadDollar(sql[i..]) ==
        if (tag == "" || IsNameStart(tag[0])) && j < |sql| && sql[j] == '$' then ReadTagged(tag, sql[j + 1..])
        else if tag != "" && IsNameStart(tag[0]) then Read(Placeholder(tag), sql[j..])
        else Read(Other('$'), sql[i..])
    ensures sql[i..j] != "" || j == i
    ensures forall s :: ReadTagged(sql[i..j], s).x.DollarQuoted?
  {
    hide ReadTagged;
    var s, n := sql[i..], j - i;
    assert s[..n] == sql[i..j] && s[n..] == sql[j..];
    assert j < |sql| ==> s[n] == sql[j] && s[n + 1..] == sql[j + 1..];
    assert n > 0 ==> sql[i..j][0] == s[0];
    forall t: string
      ensures ReadTagged(sql[i..j], t).x.DollarQuoted?
    {
      TaggedIsDollarQuoted(sql[i..j], t);
    }
  }

  lemma TaggedIsDollarQuoted(tag: string, s: string)
    ensures ReadTagged(tag, s).x.DollarQuoted?
  {
  }

  lemma OpeningDelimiter(sql: string, i: nat, j: nat)
    requires i < j < |sql| && sql[i] == '$' && sql[j] == '$'
    ensures sql[i..j + 1] == Delimiter(sql[i + 1..j])
  {
  }

  // One lexeme: where it ends, and its span if it is a placeholder.
  method ScanOne(sql: string, i: nat) returns (next: nat, span: Option<Span>)
    requires i < |sql|
    ensures i < next <= |sql| && sql[next..] == ReadOne(sql[i..]).rest
    ensures span ==
      match ReadOne(sql[i..]).x
      case Placeholder(name) => Some(Span(i + 1, name))
      case _ => None
  {
    var c := sql[i];
    assert |sql| - i > 1 ==> sql[i..][2..] == sql[i + 2..];
    assert sql[i..][1..] == sql[i + 1..];
    span := None;
    if c == '\'' || c == '"' {
      next := SkipQuoted(sql, i);
    } else if c == '-' && i + 1 < |sql| && sql[i + 1] == '-' {
      next := SkipLineComment(sql, i);
      assert sql[i + 2..][next - i - 2..] == sql[next..];
    } else if c == '/' && i + 1 < |sql| && sql[i + 1] == '*' {
      next := SkipBlockComment(sql, i);
    } else if c == '$' {
      next, span := ScanDollar(sql, i);
    } else {
      next := i + 1;
    }
  }

  /** `placeholderSpans`: the spans are exactly the placeholders of the text's one reading. */
  method PlaceholderSpans(sql: string) returns (spans: seq<Span>)
    ensures spans == SpansOf(ReadAll(sql), 0)
    ensures forall xs :: Reads(sql, xs) ==> spans == SpansOf(xs, 0)
  {
    hide ReadOne, ReadAll, SpansOf, Render;
    spans := [];
    var i := 0;
    assert sql[0..] == sql;
    while i < |sql|
      invariant 0 <= i <= |sql|
      invariant spans + SpansOf(ReadAll(sql[i..]), i) == SpansOf(ReadAll(sql), 0)
    {
      var next, span := ScanOne(sql, i);
      StepSpans(sql[i..], i);
      RenderLength(sql[i..]);
      if span.Some? {
        spans := spans + [span.value];
      }
      i := next;
    }
    NoSpans(i);
    assert sql[i..] == "";
    forall xs | Reads(sql, xs)
      ensures spans == SpansOf(xs, 0)
    {
      ReadingIsUnique(sql, xs);
    }
  }

  lemma NoSpans(i: nat)
    ensures SpansOf(ReadAll(""), i) == []
  {
  }

  lemma StepSpans(s: string, offset: nat)
    requires s != ""
    ensures var r := ReadOne(s);
      SpansOf(ReadAll(s), offset) ==
        (if r.x.Placeholder? then [Span(offset + 1, r.x.name)] else [])
        + SpansOf(ReadAll(r.rest), offset + |Render(r.x, "")|)
  {
    assert ReadAll(s)[1..] == ReadAll(ReadOne(s).rest);
  }

  lemma {:induction false} DoubledThen(content: string, q: char, k: string)
    ensures Doubled(content, q, k) == Doubled(content, q, "") + k
  {
    if content != "" {
      DoubledThen(content[1..], q, k);
    }
  }

  lemma {:induction false} RenderItemsThen(items: seq<Item>, h: string, k: string)
    ensures RenderItems(items, h + k) == RenderItems(items, h) + k
    decreases items
  {
    if items != [] {
      RenderItemsThen(items[1..], h, k);
      match items[0] {
        case Ch(c) =>
        case Nested(inner) =>
          var tail := RenderItems(items[1..], h);
          assert "*/" + (tail + k) == ("*/" + tail) + k;
          RenderItemsThen(inner, "*/" + tail, k);
      }
    }
  }

  // A lexeme's text is the same in front of anything.
  lemma RenderThen(x: Lexeme, k: string)
    ensures Render(x, k) == Render(x, "") + k
  {
    match x {
      case Quoted(q, content, closed) => RenderQuotedThen(q, content, closed, k);
      case BlockComment(items) =>
        RenderItemsThen(items, "*/", k);
        assert "*/" + "" == "*/";
      case DollarQuoted(tag, body, closed) => RenderTaggedThen(tag, body, closed, k);
      case Other(c) =>
      case LineComment(body) => Assoc("--", body, k);
      case OpenBlockComment(body) => Assoc("/*", body, k);
      case Placeholder(name) => Assoc("$", name, k);
    }
  }

  lemma Assoc(a: string, b: string, k: string)
    ensures a + (b + k) == (a + (b + "")) + k
  {
    assert b + "" == b;
  }

  lemma RenderTaggedThen(tag: string, body: string, closed: bool, k: string)
    ensures Render(DollarQuoted(tag, body, closed), k) == Render(DollarQuoted(tag, body, closed), "") + k
  {
    hide Delimiter;
    var d := Delimiter(tag);
    var end := if closed then d else "";
    Assoc(body, end, k);
    assert d + ((body + (end + "")) + k) == (d + (body + (end + ""))) + k;
  }

  lemma ClosingThen(q: char, closed: bool, k: string)
    ensures Closing(q, closed, k) == Closing(q, closed, "") + k
  {
  }

  lemma RenderQuotedThen(q: char, content: string, closed: bool, k: string)
    ensures Render(Quoted(q, content, closed), k) == Render(Quoted(q, content, closed), "") + k
  {
    hide Doubled, Closing;
    DoubledThen(content, q, Closing(q, closed, k));
    DoubledThen(content, q, Closing(q, closed, ""));
    ClosingThen(q, closed, k);
    var text, end := Doubled(content, q, ""), Closing(q, closed, "");
    assert [q] + (text + (end + k)) == ([q] + (text + end)) + k;
  }

  lemma RenderLength(s: string)
    requires s != ""
    ensures |s| == |Render(ReadOne(s).x, "")| + |ReadOne(s).rest|
  {
    RenderAfterRead(s);
    RenderThen(ReadOne(s).x, ReadOne(s).rest);
  }

  // ------------------------------------------------------------- where the spans are

  predicate SpanIn(sql: string, sp: Span) {
    && 0 < sp.offset && sp.offset + |sp.name| <= |sql|
    && sql[sp.offset - 1] == '$' && sql[sp.offset..sp.offset + |sp.name|] == sp.name
    && sp.name != "" && ValidTag(sp.name)
  }

  lemma PlaceholderInPlace(sql: string, i: nat)
    requires i < |sql| && ReadOne(sql[i..]).x.Placeholder?
    ensures SpanIn(sql, Span(i + 1, ReadOne(sql[i..]).x.name))
    ensures |Render(ReadOne(sql[i..]).x, "")| == 1 + |ReadOne(sql[i..]).x.name|
  {
    hide ReadOne;
    var s := sql[i..];
    var r := ReadOne(s);
    RenderAfterRead(s);
    assert s == "$" + (r.x.name + r.rest);
    assert s[1..1 + |r.x.name|] == r.x.name;
    assert sql[i + 1..i + 1 + |r.x.name|] == s[1..1 + |r.x.name|];
  }

  // In order, disjoint, and each a `$` followed by the name it reports.
  predicate SpansInPlace(sql: string, i: nat, spans: seq<Span>) {
    && (forall k :: 0 <= k < |spans| ==> SpanIn(sql, spans[k]) && i < spans[k].offset)
    && (forall k :: 0 < k < |spans| ==> spans[k - 1].offset + |spans[k - 1].name| < spans[k].offset)
  }

  lemma SpansPrepend(sql: string, i: nat, name: string, spans: seq<Span>)
    requires SpanIn(sql, Span(i + 1, name)) && SpansInPlace(sql, i + 1 + |name|, spans)
    ensures SpansInPlace(sql, i, [Span(i + 1, name)] + spans)
  {
  }

  /** The spans are in order, disjoint, and each is a `$` followed by the name it reports. */
  lemma {:induction false} SpansAreInPlace(sql: string, i: nat)
    requires i <= |sql|
    ensures SpansInPlace(sql, i, SpansOf(ReadAll(sql[i..]), i))
    decreases |sql| - i
  {
    hide ReadOne, ReadAll, SpansOf, Render, SpanIn;
    var s := sql[i..];
    if s == "" {
      NoSpans(i);
    } else {
      var r := ReadOne(s);
      var n := i + |Render(r.x, "")|;
      RenderLength(s);
      StepSpans(s, i);
      RenderAfterRead(s);
      RenderThen(r.x, r.rest);
      assert sql[n..] == s[n - i..] == r.rest;
      SpansAreInPlace(sql, n);
      if r.x.Placeholder? {
        PlaceholderInPlace(sql, i);
        SpansPrepend(sql, i, r.x.name, SpansOf(ReadAll(r.rest), n));
      }
    }
  }

  // ------------------------------------------------------------- escaping a literal

  method EscapeSQL(s: string) returns (out: string)
    ensures out == Doubled(s, '\'', "")
    ensures Undoubled(out) == s
  {
    out := "";
    var i := 0;
    while i < |s|
      invariant 0 <= i <= |s|
      invariant out + Doubled(s[i..], '\'', "") == Doubled(s, '\'', "")
    {
      if s[i] == '\'' {
        out := out + ['\'', '\''];
      } else {
        out := out + [s[i]];
      }
      i := i + 1;
    }
    UndoubledRecovers(s);
  }

  // Pairs of single quotes read as one.
  function Undoubled(s: string): string {
    if s == "" then ""
    else if |s| > 1 && s[0] == '\'' && s[1] == '\'' then "'" + Undoubled(s[2..])
    else [s[0]] + Undoubled(s[1..])
  }

  lemma {:induction false} UndoubledRecovers(v: string)
    ensures Undoubled(Doubled(v, '\'', "")) == v
  {
    if v != "" {
      UndoubledRecovers(v[1..]);
      var more := Doubled(v[1..], '\'', "");
      assert v == [v[0]] + v[1..];
      assert (['\'', '\''] + more)[2..] == more;
      assert ([v[0]] + more)[1..] == more;
    }
  }

  function Literal(v: string, post: string): string {
    "'" + Doubled(v, '\'', "'" + post)
  }

  // A quote opened right after `pre` starts a literal of its own.
  predicate CodePosition(pre: string) {
    var xs := ReadAll(pre + "'");
    xs != [] && xs[|xs| - 1] == Quoted('\'', "", false)
  }

  function Names(xs: seq<Lexeme>): seq<string> {
    if xs == [] then []
    else (if xs[0].Placeholder? then [xs[0].name] else []) + Names(xs[1..])
  }

  // A lexeme that may stand in front of `k` may stand in front of anything `k` begins.
  lemma OkExtends(x: Lexeme, k: string, more: string)
    requires Ok(x, k) && k != ""
    ensures Ok(x, k + more)
  {
    if x.BlockComment? {
      ItemsOkExtends(x.items, "*/" + k, more);
      assert ("*/" + k) + more == "*/" + (k + more);
    }
  }

  lemma {:induction false} ItemsOkExtends(items: seq<Item>, k: string, more: string)
    requires ItemsOk(items, k) && k != ""
    ensures ItemsOk(items, k + more)
    decreases items
  {
    if items != [] {
      var tail := RenderItems(items[1..], k);
      RenderItemsThen(items[1..], k, more);
      ItemsOkExtends(items[1..], k, more);
      if items[0].Nested? {
        ItemsOkExtends(items[0].items, "*/" + tail, more);
        assert ("*/" + tail) + more == "*/" + (tail + more);
      } else {
        RenderItemsNonEmpty(items[1..], k);
      }
    }
  }

  lemma RenderItemsNonEmpty(items: seq<Item>, k: string)
    requires k != ""
    ensures RenderItems(items, k) != ""
  {
  }

  // Text in front of `k`, kept when `k` is replaced by something longer that starts with it.
  lemma {:induction false} ReadsInFront(xs: seq<Lexeme>, last: Lexeme, ys: seq<Lexeme>, more: string)
    requires AllOk(xs + [last]) && RenderAll([last]) != ""
    requires AllOk(ys) && RenderAll(ys) == RenderAll([last]) + more
    ensures AllOk(xs + ys) && RenderAll(xs + ys) == RenderAll(xs + [last]) + more
  {
    if xs == [] {
      assert xs + [last] == [last] && xs + ys == ys;
    } else {
      hide Ok, Render;
      assert (xs + [last])[1..] == xs[1..] + [last] && (xs + ys)[1..] == xs[1..] + ys;
      ReadsInFront(xs[1..], last, ys, more);
      var k := RenderAll(xs[1..] + [last]);
      RenderAllNonEmpty(xs[1..], last);
      OkExtends(xs[0], k, more);
      RenderThen(xs[0], k);
      RenderThen(xs[0], k + more);
      assert (Render(xs[0], "") + k) + more == Render(xs[0], "") + (k + more);
    }
  }

  lemma {:induction false} RenderAllNonEmpty(xs: seq<Lexeme>, last: Lexeme)
    requires RenderAll([last]) != ""
    ensures RenderAll(xs + [last]) != ""
  {
    if xs == [] {
      assert xs + [last] == [last];
    } else {
      assert (xs + [last])[1..] == xs[1..] + [last];
      RenderAllNonEmpty(xs[1..], last);
      RenderThen(xs[0], RenderAll(xs[1..] + [last]));
    }
  }

  lemma {:induction false} NamesConcat(xs: seq<Lexeme>, ys: seq<Lexeme>)
    ensures Names(xs + ys) == Names(xs) + Names(ys)
  {
    if xs == [] {
      assert xs + ys == ys;
    } else {
      assert (xs + ys)[1..] == xs[1..] + ys && (xs + ys)[0] == xs[0];
      NamesConcat(xs[1..], ys);
      var head, a, b := if xs[0].Placeholder? then [xs[0].name] else [], Names(xs[1..]), Names(ys);
      assert Names(xs + ys) == head + (a + b);
      assert head + (a + b) == (head + a) + b;
    }
  }

  // How a text with a spliced literal reads.
  lemma SplicedReading(pre: string, v: string, post: string)
    requires CodePosition(pre) && !StartsWith(post, '\'')
    ensures var xs := ReadAll(pre + "'");
      ReadAll(pre + Literal(v, post)) == xs[..|xs| - 1] + ([Quoted('\'', v, true)] + ReadAll(post))
  {
    hide Render, Ok, ReadAll, Doubled, StartsWith;
    var all := ReadAll(pre + "'");
    var xs, last := all[..|all| - 1], Quoted('\'', "", false);
    var ys := [Quoted('\'', v, true)] + ReadAll(post);
    ReadAllReads(pre + "'");
    assert all == xs + [last];
    OpenQuoteText();
    LiteralReads(v, post);
    var more := Doubled(v, '\'', "'" + post);
    ReadsInFront(xs, last, ys, more);
    assert (pre + "'") + more == pre + Literal(v, post);
    ReadingIsUnique(pre + Literal(v, post), xs + ys);
  }

  lemma OpenQuoteText()
    ensures RenderAll([Quoted('\'', "", false)]) == "'"
  {
  }

  // The literal as a lexeme in front of the rest.
  lemma LiteralReads(v: string, post: string)
    requires !StartsWith(post, '\'')
    ensures var ys := [Quoted('\'', v, true)] + ReadAll(post);
      AllOk(ys) && RenderAll(ys) == "'" + Doubled(v, '\'', "'" + post)
  {
    hide ReadAll, Doubled;
    ReadAllReads(post);
    var ys := [Quoted('\'', v, true)] + ReadAll(post);
    assert ys[1..] == ReadAll(post);
  }

  /** Splicing a quoted, escaped value into code position, not followed by a quote, makes the
      placeholder names found independent of the value. */
  lemma SplicedNames(pre: string, v: string, post: string)
    requires CodePosition(pre) && !StartsWith(post, '\'')
    ensures Names(ReadAll(pre + Literal(v, post))) == Names(ReadAll(pre + "'")) + Names(ReadAll(post))
  {
    hide ReadAll, Literal;
    var all := ReadAll(pre + "'");
    var xs := all[..|all| - 1];
    SplicedReading(pre, v, post);
    assert all == xs + [all[|all| - 1]];
    NamesConcat(xs, [all[|all| - 1]]);
    NamesConcat(xs, [Quoted('\'', v, true)] + ReadAll(post));
    NamesConcat([Quoted('\'', v, true)], ReadAll(post));
  }

  lemma LiteralTail(v: string, a: string, b: string)
    requires Literal(v, a) == Literal(v, b)
    ensures a == b
  {
    DoubledThen(v, '\'', "'" + a);
    DoubledThen(v, '\'', "'" + b);
    var n := 2 + |Doubled(v, '\'', "")|;
    assert Literal(v, a)[n..] == a;
    assert Literal(v, b)[n..] == b;
  }

  /** The literal ends where it should exactly when no quote follows it. */
  lemma LiteralEndsUnlessQuoteFollows(v: string, post: string)
    ensures ReadOne(Literal(v, post)).x == Quoted('\'', v, true) <==> !StartsWith(post, '\'')
  {
    var x := Quoted('\'', v, true);
    if !StartsWith(post, '\'') {
      ReadAfterRender(x, post);
    }
    if ReadOne(Literal(v, post)).x == x {
      RenderAfterRead(Literal(v, post));
      LiteralTail(v, ReadOne(Literal(v, post)).rest, post);
    }
  }
}
