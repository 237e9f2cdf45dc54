/** JSON documents, their token streams, and the two readings of a token stream the
    extractor relies on: the recursive grammar (`ParseValue`) and the container stack that
    Go's `json.Decoder` keeps while tokens are pulled one at a time (`Step`).

    Commas and colons are consumed by the decoder and do not show up as tokens; any byte
    sequence the decoder rejects is the token `Bad`. */
module JsonTokens {
  import opened Options

  datatype Json =
    | Null
    | Bool(b: bool)
    | Num(text: string)
    | Str(s: string)
    | Arr(elems: seq<Json>)
    | Obj(members: seq<Member>)

  datatype Member = Member(key: string, value: Json)

  datatype Token =
    | LBrack | RBrack | LBrace | RBrace
    | StrTok(s: string)
    | Lit(v: Json)
    | Bad

  // `Lit` only ever carries one of the three literal kinds.
  predicate IsLiteral(v: Json) {
    v.Null? || v.Bool? || v.Num?
  }

  // ------------------------------------------------------------------ printing

  // The tokens of `j` followed by `k`.
  function Print(j: Json, k: seq<Token>): seq<Token>
    decreases j, 1
  {
    match j
    case Str(s) => [StrTok(s)] + k
    case Arr(vs) => [LBrack] + PrintElems(vs, [RBrack] + k)
    case Obj(ms) => [LBrace] + PrintMembers(ms, [RBrace] + k)
    case _ => [Lit(j)] + k
  }

  function PrintElems(vs: seq<Json>, k: seq<Token>): seq<Token>
    decreases vs, 0
  {
    if vs == [] then k else Print(vs[0], PrintElems(vs[1..], k))
  }

  function PrintMembers(ms: seq<Member>, k: seq<Token>): seq<Token>
    decreases ms, 0
  {
    if ms == [] then k
    else [StrTok(ms[0].key)] + Print(ms[0].value, PrintMembers(ms[1..], k))
  }

  // ------------------------------------------------------------------- parsing

  datatype Parsed<+T> = Parsed(item: T, rest: seq<Token>)

  function ParseValue(ts: seq<Token>): (r: Option<Parsed<Json>>)
    ensures r.Some? ==> |r.value.rest| < |ts|
    decreases |ts|, 0
  {
    if ts == [] then None
    else match ts[0]
      case StrTok(s) => Some(Parsed(Str(s), ts[1..]))
      case Lit(v) => if IsLiteral(v) then Some(Parsed(v, ts[1..])) else None
      case LBrack =>
        (match ParseElems(ts[1..])
         case None => None
         case Some(p) => Some(Parsed(Arr(p.item), p.rest)))
      case LBrace =>
        (match ParseMembers(ts[1..])
         case None => None
         case Some(p) => Some(Parsed(Obj(p.item), p.rest)))
      case _ => None
  }

  // Elements up to and including the closing bracket.
  function ParseElems(ts: seq<Token>): (r: Option<Parsed<seq<Json>>>)
    ensures r.Some? ==> |r.value.rest| < |ts|
    decreases |ts|, 1
  {
    if ts == [] then None
    else if ts[0].RBrack? then Some(Parsed([], ts[1..]))
    else match ParseValue(ts)
      case None => None
      case Some(v) => PrependElem(v.item, ParseElems(v.rest))
  }

  function PrependElem(v: Json, r: Option<Parsed<seq<Json>>>): Option<Parsed<seq<Json>>> {
    match r
    case None => None
    case Some(p) => Some(Parsed([v] + p.item, p.rest))
  }

  // Members up to and including the closing brace.
  function ParseMembers(ts: seq<Token>): (r: Option<Parsed<seq<Member>>>)
    ensures r.Some? ==> |r.value.rest| < |ts|
    decreases |ts|, 1
  {
    if ts == [] then None
    else if ts[0].RBrace? then Some(Parsed([], ts[1..]))
    else if !ts[0].StrTok? then None
    else match ParseValue(ts[1..])
      case None => None
      case Some(v) => PrependMember(Member(ts[0].s, v.item), ParseMembers(v.rest))
  }

  function PrependMember(m: Member, r: Option<Parsed<seq<Member>>>): Option<Parsed<seq<Member>>> {
    match r
    case None => None
    case Some(p) => Some(Parsed([m] + p.item, p.rest))
  }

  // ------------------------------------------------ printing and parsing agree

  lemma {:induction false} ParseAfterPrint(j: Json, k: seq<Token>)
    ensures ParseValue(Print(j, k)) == Some(Parsed(j, k))
    decreases j, 1
  {
    match j
    case Arr(vs) =>
      ParseAfterPrintElems(vs, k);
      assert Print(j, k)[1..] == PrintElems(vs, [RBrack] + k);
    case Obj(ms) =>
      ParseAfterPrintMembers(ms, k);
      assert Print(j, k)[1..] == PrintMembers(ms, [RBrace] + k);
    case _ =>
  }

  lemma {:induction false} ParseAfterPrintElems(vs: seq<Json>, k: seq<Token>)
    ensures ParseElems(PrintElems(vs, [RBrack] + k)) == Some(Parsed(vs, k))
    decreases vs, 0
  {
    if vs == [] {
      assert ([RBrack] + k)[1..] == k;
    } else {
      var tail := PrintElems(vs[1..], [RBrack] + k);
      ParseAfterPrint(vs[0], tail);
      ParseAfterPrintElems(vs[1..], k);
      assert !Print(vs[0], tail)[0].RBrack?;
      assert [vs[0]] + vs[1..] == vs;
    }
  }

  lemma {:induction false} ParseAfterPrintMembers(ms: seq<Member>, k: seq<Token>)
    ensures ParseMembers(PrintMembers(ms, [RBrace] + k)) == Some(Parsed(ms, k))
    decreases ms, 0
  {
    if ms == [] {
      assert ([RBrace] + k)[1..] == k;
    } else {
      var tail := PrintMembers(ms[1..], [RBrace] + k);
      var value := Print(ms[0].value, tail);
      ParseAfterPrint(ms[0].value, tail);
      ParseAfterPrintMembers(ms[1..], k);
      assert ([StrTok(ms[0].key)] + value)[1..] == value;
      assert [ms[0]] + ms[1..] == ms;
    }
  }

  lemma {:induction false} PrintAfterParse(ts: seq<Token>)
    ensures ParseValue(ts).Some? ==>
      ts == Print(ParseValue(ts).value.item, ParseValue(ts).value.rest)
    decreases |ts|, 0
  {
    if ParseValue(ts).Some? && (ts[0].LBrack? || ts[0].LBrace?) {
      if ts[0].LBrack? {
        PrintAfterParseElems(ts[1..]);
      } else {
        PrintAfterParseMembers(ts[1..]);
      }
      assert ts == [ts[0]] + ts[1..];
    }
  }

  lemma {:induction false} PrintAfterParseElems(ts: seq<Token>)
    ensures ParseElems(ts).Some? ==>
      ts == PrintElems(ParseElems(ts).value.item, [RBrack] + ParseElems(ts).value.rest)
    decreases |ts|, 1
  {
    if ParseElems(ts).Some? && !ts[0].RBrack? {
      PrintAfterParse(ts);
      PrintAfterParseElems(ParseValue(ts).value.rest);
      var vs := ParseElems(ts).value.item;
      assert vs[1..] == ParseElems(ParseValue(ts).value.rest).value.item;
    }
  }

  lemma {:induction false} PrintAfterParseMembers(ts: seq<Token>)
    ensures ParseMembers(ts).Some? ==>
      ts == PrintMembers(ParseMembers(ts).value.item, [RBrace] + ParseMembers(ts).value.rest)
    decreases |ts|, 1
  {
    if ParseMembers(ts).Some? && !ts[0].RBrace? {
      PrintAfterParse(ts[1..]);
      PrintAfterParseMembers(ParseValue(ts[1..]).value.rest);
      var ms := ParseMembers(ts).value.item;
      assert ms[1..] == ParseMembers(ParseValue(ts[1..]).value.rest).value.item;
      assert ts == [ts[0]] + ts[1..];
    }
  }

  // A document followed by `k` is the document's own tokens, then `k`.
  lemma {:induction false} PrintConcat(j: Json, k: seq<Token>)
    ensures Print(j, k) == Print(j, []) + k
    decreases j, 1
  {
    match j
    case Arr(vs) =>
      PrintElemsConcat(vs, [RBrack], k);
      assert [RBrack] + [] == [RBrack];
    case Obj(ms) =>
      PrintMembersConcat(ms, [RBrace], k);
      assert [RBrace] + [] == [RBrace];
    case _ =>
  }

  lemma {:induction false} PrintElemsConcat(vs: seq<Json>, h: seq<Token>, k: seq<Token>)
    ensures PrintElems(vs, h + k) == PrintElems(vs, h) + k
    decreases vs, 0
  {
    if vs != [] {
      hide Print;
      var value, tail := Print(vs[0], []), PrintElems(vs[1..], h);
      PrintElemsConcat(vs[1..], h, k);
      PrintConcat(vs[0], tail + k);
      PrintConcat(vs[0], tail);
      assert value + (tail + k) == (value + tail) + k;
    }
  }

  lemma {:induction false} PrintMembersConcat(ms: seq<Member>, h: seq<Token>, k: seq<Token>)
    ensures PrintMembers(ms, h + k) == PrintMembers(ms, h) + k
    decreases ms, 0
  {
    if ms != [] {
      hide Print;
      var key, value, tail := [StrTok(ms[0].key)], Print(ms[0].value, []), PrintMembers(ms[1..], h);
      PrintMembersConcat(ms[1..], h, k);
      PrintConcat(ms[0].value, tail + k);
      PrintConcat(ms[0].value, tail);
      assert key + (value + (tail + k)) == (key + (value + tail)) + k;
    }
  }

  // No document's tokens are a prefix of another document's tokens plus anything else.
  lemma PrefixFree(i: Json, j: Json, x: seq<Token>, y: seq<Token>)
    requires Print(i, []) + x == Print(j, []) + y
    ensures i == j && x == y
  {
    PrintConcat(i, x);
    PrintConcat(j, y);
    ParseAfterPrint(i, x);
    ParseAfterPrint(j, y);
  }

  // ---------------------------------------------------------- the token cursor

  // What the decoder expects inside an open container, innermost last.
  datatype Frame = InArr | AwaitKey | AwaitValue

  predicate ValuePosition(stack: seq<Frame>) {
    stack == [] || stack[|stack| - 1] != AwaitKey
  }

  // The stack once a value has been completed in it.
  function AfterValue(stack: seq<Frame>): (s: seq<Frame>)
    ensures |s| == |stack|
  {
    if stack != [] && stack[|stack| - 1] == AwaitValue
    then stack[..|stack| - 1] + [AwaitKey]
    else stack
  }

  // One token; `None` is the decoder's syntax error.
  function Step(stack: seq<Frame>, t: Token): (r: Option<seq<Frame>>)
    ensures r.Some? ==> |stack| - 1 <= |r.value| <= |stack| + 1
  {
    var n := |stack|;
    match t
    case LBrack => if ValuePosition(stack) then Some(stack + [InArr]) else None
    case LBrace => if ValuePosition(stack) then Some(stack + [AwaitKey]) else None
    case RBrack => if n > 0 && stack[n - 1] == InArr then Some(AfterValue(stack[..n - 1])) else None
    case RBrace => if n > 0 && stack[n - 1] == AwaitKey then Some(AfterValue(stack[..n - 1])) else None
    case StrTok(_) =>
      if n > 0 && stack[n - 1] == AwaitKey then Some(stack[..n - 1] + [AwaitValue])
      else Some(AfterValue(stack))
    case Lit(v) => if ValuePosition(stack) && IsLiteral(v) then Some(AfterValue(stack)) else None
    case Bad => None
  }

  // Pull tokens until only `base` containers are left open.
  function RunTo(stack: seq<Frame>, base: nat, ts: seq<Token>): Option<(seq<Frame>, seq<Token>)>
    decreases |ts|
  {
    if |stack| <= base then Some((stack, ts))
    else if ts == [] then None
    else match Step(stack, ts[0])
      case None => None
      case Some(s) => RunTo(s, base, ts[1..])
  }

  // ------------------------------------- the cursor accepts exactly the grammar

  lemma {:induction false} RunPrint(stack: seq<Frame>, base: nat, j: Json, k: seq<Token>)
    requires |stack| > base && ValuePosition(stack)
    ensures RunTo(stack, base, Print(j, k)) == RunTo(AfterValue(stack), base, k)
    decreases j, 1
  {
    var ts := Print(j, k);
    match j
    case Arr(vs) =>
      assert ts[1..] == PrintElems(vs, [RBrack] + k);
      RunPrintElems(stack, base, vs, k);
    case Obj(ms) =>
      assert ts[1..] == PrintMembers(ms, [RBrace] + k);
      RunPrintMembers(stack, base, ms, k);
    case _ =>
      assert ts[1..] == k;
  }

  lemma {:induction false} RunPrintElems(outer: seq<Frame>, base: nat, vs: seq<Json>, k: seq<Token>)
    requires |outer| >= base
    ensures RunTo(outer + [InArr], base, PrintElems(vs, [RBrack] + k))
         == RunTo(AfterValue(outer), base, k)
    decreases vs, 0
  {
    var stack := outer + [InArr];
    if vs == [] {
      assert stack[..|stack| - 1] == outer;
      assert ([RBrack] + k)[1..] == k;
    } else {
      RunPrint(stack, base, vs[0], PrintElems(vs[1..], [RBrack] + k));
      RunPrintElems(outer, base, vs[1..], k);
    }
  }

  lemma {:induction false} RunPrintMembers(outer: seq<Frame>, base: nat, ms: seq<Member>, k: seq<Token>)
    requires |outer| >= base
    ensures RunTo(outer + [AwaitKey], base, PrintMembers(ms, [RBrace] + k))
         == RunTo(AfterValue(outer), base, k)
    decreases ms, 0
  {
    var stack := outer + [AwaitKey];
    if ms == [] {
      assert stack[..|stack| - 1] == outer;
      assert ([RBrace] + k)[1..] == k;
    } else {
      var tail := PrintMembers(ms[1..], [RBrace] + k);
      var value := Print(ms[0].value, tail);
      assert stack[..|stack| - 1] == outer;
      assert ([StrTok(ms[0].key)] + value)[1..] == value;
      assert AfterValue(outer + [AwaitValue]) == stack;
      RunPrint(outer + [AwaitValue], base, ms[0].value, tail);
      RunPrintMembers(outer, base, ms[1..], k);
    }
  }

  lemma {:induction false} RunParses(stack: seq<Frame>, base: nat, ts: seq<Token>)
    requires |stack| > base && ValuePosition(stack)
    requires RunTo(stack, base, ts).Some?
    requires !ts[0].RBrack?
    ensures ParseValue(ts).Some?
    decreases |ts|, 0
  {
    if ts[0].LBrack? {
      RunParsesElems(stack, base, ts[1..]);
    } else if ts[0].LBrace? {
      RunParsesMembers(stack, base, ts[1..]);
    }
  }

  lemma {:induction false} RunParsesElems(outer: seq<Frame>, base: nat, ts: seq<Token>)
    requires |outer| >= base
    requires RunTo(outer + [InArr], base, ts).Some?
    ensures ParseElems(ts).Some?
    decreases |ts|, 1
  {
    var stack := outer + [InArr];
    if !ts[0].RBrack? {
      RunParses(stack, base, ts);
      PrintAfterParse(ts);
      RunPrint(stack, base, ParseValue(ts).value.item, ParseValue(ts).value.rest);
      RunParsesElems(outer, base, ParseValue(ts).value.rest);
    }
  }

  lemma {:induction false} RunParsesMembers(outer: seq<Frame>, base: nat, ts: seq<Token>)
    requires |outer| >= base
    requires RunTo(outer + [AwaitKey], base, ts).Some?
    ensures ParseMembers(ts).Some?
    decreases |ts|, 1
  {
    var stack := outer + [AwaitKey];
    if !ts[0].RBrace? {
      var inner := outer + [AwaitValue];
      assert stack[..|stack| - 1] == outer;
      assert AfterValue(inner) == stack;
      RunParses(inner, base, ts[1..]);
      PrintAfterParse(ts[1..]);
      RunPrint(inner, base, ParseValue(ts[1..]).value.item, ParseValue(ts[1..]).value.rest);
      RunParsesMembers(outer, base, ParseValue(ts[1..]).value.rest);
    }
  }

  // Counting brackets over the checked tokens finds exactly the grammar's end of the array.
  lemma RunClosesArray(outer: seq<Frame>, ts: seq<Token>)
    ensures RunTo(outer + [InArr], |outer|, ts) ==
      match ParseElems(ts)
      case None => None
      case Some(p) => Some((AfterValue(outer), p.rest))
  {
    if RunTo(outer + [InArr], |outer|, ts).Some? {
      RunParsesElems(outer, |outer|, ts);
    }
    if ParseElems(ts).Some? {
      PrintAfterParseElems(ts);
      RunPrintElems(outer, |outer|, ParseElems(ts).value.item, ParseElems(ts).value.rest);
    }
  }

  // The same for an object.
  lemma RunClosesObject(outer: seq<Frame>, ts: seq<Token>)
    ensures RunTo(outer + [AwaitKey], |outer|, ts) ==
      match ParseMembers(ts)
      case None => None
      case Some(p) => Some((AfterValue(outer), p.rest))
  {
    if RunTo(outer + [AwaitKey], |outer|, ts).Some? {
      RunParsesMembers(outer, |outer|, ts);
    }
    if ParseMembers(ts).Some? {
      PrintAfterParseMembers(ts);
      RunPrintMembers(outer, |outer|, ParseMembers(ts).value.item, ParseMembers(ts).value.rest);
    }
  }
}
