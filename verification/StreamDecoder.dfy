/** The extractor's streaming record decoder (components/http-json-extractor/stream.go) beside
    the whole-body form it replaces (`parseJSON` in main.go). */
module StreamDecoder {
  import opened Options
  import opened JsonTokens
  import opened JsonValues

  // Leading top-level objects buffered while looking for a positional record array.
  const POSITIONAL_SCAN_WINDOW: nat := 8192

  // -------------------------------------------------- what the decoder delivers

  // The object elements, in order.
  function Objects(vs: seq<Json>): (r: seq<Record>)
    ensures |r| <= |vs|
  {
    if vs == [] then []
    else if vs[0].Obj? then [Fields(map[], vs[0].members)] + Objects(vs[1..])
    else Objects(vs[1..])
  }

  function FirstArray(vs: seq<Json>): (i: nat)
    ensures i <= |vs|
    ensures i < |vs| ==> vs[i].Arr?
    ensures forall k :: 0 <= k < i ==> !vs[k].Arr?
  {
    if vs == [] || vs[0].Arr? then 0 else 1 + FirstArray(vs[1..])
  }

  // A nested array within the scan window holds the records; otherwise the top-level
  // objects are the records.
  function ArrayRecords(vs: seq<Json>): seq<Record> {
    var i := FirstArray(vs);
    if i < |vs| && |Objects(vs[..i])| < POSITIONAL_SCAN_WINDOW
    then Objects(vs[i].elems)
    else Objects(vs)
  }

  datatype Outcome = Done | Malformed | NotAnArray | NoArrayFound | SinkFailed

  // The member whose value the wrapper decoder looks into.
  predicate Selects(path: string, m: Member) {
    if path == "" then m.value.Arr? else m.key == path
  }

  function FirstSelected(path: string, ms: seq<Member>): (i: nat)
    ensures i <= |ms|
    ensures i < |ms| ==> Selects(path, ms[i])
    ensures forall k :: 0 <= k < i ==> !Selects(path, ms[k])
  {
    if ms == [] || Selects(path, ms[0]) then 0 else 1 + FirstSelected(path, ms[1..])
  }

  function WrapperOutcome(path: string, ms: seq<Member>): Outcome {
    var i := FirstSelected(path, ms);
    if i == |ms| then (if path == "" then NoArrayFound else NotAnArray)
    else if ms[i].value.Arr? then Done
    else NotAnArray
  }

  function WrapperRecords(path: string, ms: seq<Member>): seq<Record> {
    var i := FirstSelected(path, ms);
    if i < |ms| && ms[i].value.Arr? then Objects(ms[i].value.elems) else []
  }

  function DocumentOutcome(path: string, doc: Json): Outcome {
    match doc
    case Arr(_) => Done
    case Obj(ms) => WrapperOutcome(path, ms)
    case _ => Malformed
  }

  function DocumentRecords(path: string, doc: Json): seq<Record> {
    match doc
    case Arr(vs) => ArrayRecords(vs)
    case Obj(ms) => WrapperRecords(path, ms)
    case _ => []
  }

  lemma {:induction false} ObjectsConcat(xs: seq<Json>, ys: seq<Json>)
    ensures Objects(xs + ys) == Objects(xs) + Objects(ys)
  {
    if xs == [] {
      assert xs + ys == ys;
    } else {
      assert (xs + ys)[1..] == xs[1..] + ys;
      ObjectsConcat(xs[1..], ys);
    }
  }

  // ---------------------------------------------------------- what a record holds

  function ObjectElems(vs: seq<Json>): (r: seq<Json>)
    ensures forall i :: 0 <= i < |r| ==> r[i].Obj?
  {
    if vs == [] then [] else (if vs[0].Obj? then [vs[0]] else []) + ObjectElems(vs[1..])
  }

  // The records of an array read back to its object elements, one by one and in order.
  lemma {:induction false} ObjectsReadBack(vs: seq<Json>)
    ensures |Objects(vs)| == |ObjectElems(vs)|
    ensures forall i :: 0 <= i < |Objects(vs)| ==> ReadsBack(Objects(vs)[i], ObjectElems(vs)[i].members)
  {
    hide ReadsBack, Fields;
    if vs != [] {
      ObjectsReadBack(vs[1..]);
      if vs[0].Obj? {
        RecordReadsBack(vs[0].members);
      }
    }
  }

  // An array of the document: itself, an element of it, or the value of a member.
  ghost predicate ArrayIn(doc: Json, vs: seq<Json>) {
    || doc == Arr(vs)
    || (doc.Arr? && Arr(vs) in doc.elems)
    || (doc.Obj? && exists m :: m in doc.members && m.value == Arr(vs))
  }

  /** Every document's records read back to the object elements of one of its arrays, all of them
      and in order: the same keys, and under each the tokens of the last member of that key. */
  lemma RecordsReadBack(path: string, doc: Json)
    ensures DocumentRecords(path, doc) == [] || exists vs ::
      && ArrayIn(doc, vs)
      && |DocumentRecords(path, doc)| == |ObjectElems(vs)|
      && forall i :: 0 <= i < |ObjectElems(vs)| ==> ReadsBack(DocumentRecords(path, doc)[i], ObjectElems(vs)[i].members)
  {
    hide ReadsBack, Objects, ObjectElems;
    match doc {
      case Arr(vs) =>
        var k := FirstArray(vs);
        if k < |vs| && |Objects(vs[..k])| < POSITIONAL_SCAN_WINDOW {
          assert vs[k] in vs && vs[k] == Arr(vs[k].elems);
          assert ArrayIn(doc, vs[k].elems);
          ObjectsReadBack(vs[k].elems);
        } else {
          assert ArrayIn(doc, vs);
          ObjectsReadBack(vs);
        }
      case Obj(ms) =>
        var i := FirstSelected(path, ms);
        if i < |ms| && ms[i].value.Arr? {
          assert ms[i] in ms && ms[i].value == Arr(ms[i].value.elems);
          assert ArrayIn(doc, ms[i].value.elems);
          ObjectsReadBack(ms[i].value.elems);
        }
      case _ =>
    }
  }

  // ---------------------------------------------------------------- the cursor

  datatype Pull = Got(t: Token) | EndOfInput | SyntaxError

  /** `json.Decoder` over a token stream, together with the record consumer `fn`, which
      refuses delivery number `failAt` (never, when negative). */
  class Decoder {
    var rest: seq<Token>
    var stack: seq<Frame>
    var pending: seq<Record>
    var delivered: seq<Record>
    const failAt: int
    ghost var peak: nat        // the most records ever pending at once

    constructor (input: seq<Token>, failAt: int)
      ensures rest == input && stack == [] && pending == [] && delivered == []
      ensures this.failAt == failAt && peak == 0
    {
      rest, stack, pending, delivered := input, [], [], [];
      this.failAt := failAt;
      peak := 0;
    }

    method Token() returns (p: Pull)
      modifies this`rest, this`stack
      ensures p.EndOfInput? <==> old(rest) == []
      ensures p.SyntaxError? <==> old(rest) != [] && Step(old(stack), old(rest)[0]).None?
      ensures !p.Got? ==> rest == old(rest) && stack == old(stack)
      ensures p.Got? ==>
        && p.t == old(rest)[0] && rest == old(rest)[1..]
        && Step(old(stack), p.t) == Some(stack)
    {
      if rest == [] {
        return EndOfInput;
      }
      var s := Step(stack, rest[0]);
      if s.None? {
        return SyntaxError;
      }
      p := Got(rest[0]);
      rest, stack := rest[1..], s.value;
    }

    method More() returns (more: bool)
      ensures more <==> rest != [] && !rest[0].RBrack? && !rest[0].RBrace?
    {
      more := rest != [] && !rest[0].RBrack? && !rest[0].RBrace?;
    }

    // `Decode(&v)`: one whole value.
    method DecodeValue() returns (r: Option<Json>)
      modifies this`rest, this`stack
      ensures r.None? <==> !ValuePosition(old(stack)) || ParseValue(old(rest)).None?
      ensures r.Some? ==>
        && ParseValue(old(rest)) == Some(Parsed(r.value, rest))
        && stack == AfterValue(old(stack))
    {
      var v := ParseValue(rest);
      if !ValuePosition(stack) || v.None? {
        return None;
      }
      rest, stack := v.value.rest, AfterValue(stack);
      return Some(v.value.item);
    }

    method Deliver(rec: Record) returns (ok: bool)
      modifies this`delivered
      ensures ok <==> |old(delivered)| != failAt
      ensures delivered == if ok then old(delivered) + [rec] else old(delivered)
    {
      ok := |delivered| != failAt;
      if ok {
        delivered := delivered + [rec];
      }
    }

    // `skipBalanced`: the container opened by the token just pulled.
    method SkipBalanced() returns (ok: bool)
      requires stack != [] && stack[|stack| - 1] != AwaitValue
      modifies this`rest, this`stack
      ensures old(stack)[|old(stack)| - 1] == InArr ==>
        match ParseElems(old(rest))
        case None => !ok
        case Some(p) => ok && rest == p.rest && stack == AfterValue(old(stack)[..|old(stack)| - 1])
      ensures old(stack)[|old(stack)| - 1] == AwaitKey ==>
        match ParseMembers(old(rest))
        case None => !ok
        case Some(p) => ok && rest == p.rest && stack == AfterValue(old(stack)[..|old(stack)| - 1])
    {
      ghost var outer := stack[..|stack| - 1];
      assert stack == outer + [stack[|stack| - 1]];
      RunClosesArray(outer, rest);
      RunClosesObject(outer, rest);
      var depth := 1;
      while depth > 0
        invariant depth == |stack| - |outer|
        invariant depth >= 0
        invariant RunTo(stack, |outer|, rest) == RunTo(old(stack), |outer|, old(rest))
        decreases |rest|
      {
        ghost var before := stack;
        var p := Token();
        if !p.Got? {
          return false;
        }
        match p.t {
          case LBrack => depth := depth + 1;
          case LBrace => depth := depth + 1;
          case RBrack => depth := depth - 1;
          case RBrace => depth := depth - 1;
          case _ =>
        }
      }
      ok := true;
    }

    // `drainToEOF`: exactly one container is still open.
    method DrainToEOF() returns (ok: bool)
      requires stack == [InArr] || stack == [AwaitKey]
      modifies this`rest, this`stack
      ensures old(stack) == [InArr] ==>
        (ok <==> ParseElems(old(rest)).Some? && ParseElems(old(rest)).value.rest == [])
      ensures old(stack) == [AwaitKey] ==>
        (ok <==> ParseMembers(old(rest)).Some? && ParseMembers(old(rest)).value.rest == [])
    {
      assert [] + [InArr] == [InArr] && [] + [AwaitKey] == [AwaitKey];
      RunClosesArray([], rest);
      RunClosesObject([], rest);
      var depth := 1;
      while true
        invariant depth == |stack|
        invariant RunTo(stack, 0, rest) == RunTo(old(stack), 0, old(rest))
        decreases |rest|
      {
        var p := Token();
        if p.EndOfInput? {
          return depth == 0;
        }
        if p.SyntaxError? || depth == 0 {
          return false;
        }
        match p.t {
          case LBrack => depth := depth + 1;
          case LBrace => depth := depth + 1;
          case RBrack => depth := depth - 1;
          case RBrace => depth := depth - 1;
          case _ =>
        }
      }
    }

    // `decodeObjectBody`: the object opened by the token just pulled.
    method DecodeObjectBody() returns (r: Option<Record>)
      requires stack != [] && stack[|stack| - 1] == AwaitKey
      modifies this`rest, this`stack
      ensures
        match ParseMembers(old(rest))
        case None => r.None?
        case Some(p) =>
          && r == Some(Fields(map[], p.item)) && ReadsBack(r.value, p.item)
          && rest == p.rest && stack == AfterValue(old(stack)[..|old(stack)| - 1])
    {
      hide ReadsBack;
      if ParseMembers(rest).Some? {
        RecordReadsBack(ParseMembers(rest).value.item);
      }
      var rec: Record := map[];
      while true
        invariant stack == old(stack)
        invariant FoldMembers(map[], old(rest)) == FoldMembers(rec, rest)
        decreases |rest|
      {
        var more := More();
        if !more {
          break;
        }
        var k := Token();
        if !k.Got? || !k.t.StrTok? {
          return None;
        }
        var v := DecodeValue();
        if v.None? {
          return None;
        }
        rec := rec[k.t.s := Decoded(v.value)];
        assert stack == old(stack);
      }
      var close := Token();
      if !close.Got? {
        return None;
      }
      r := Some(rec);
    }

    // One element of a record array: objects become records, anything else is consumed.
    method PullElement() returns (e: Element)
      requires stack != [] && stack[|stack| - 1] == InArr
      requires rest != [] && !rest[0].RBrack? && !rest[0].RBrace?
      modifies this`rest, this`stack
      ensures
        match ParseValue(old(rest))
        case None => e.Broken?
        case Some(p) =>
          && rest == p.rest && stack == old(stack)
          && e == if p.item.Obj? then Rec(Fields(map[], p.item.members)) else Other
    {
      ghost var outer := stack;
      var el := Token();
      if !el.Got? {
        return Broken;
      }
      if el.t.LBrace? {
        assert stack[..|stack| - 1] == outer;
        var rec := DecodeObjectBody();
        if rec.None? {
          return Broken;
        }
        return Rec(rec.value);
      } else if el.t.LBrack? {
        assert stack[..|stack| - 1] == outer;
        var ok := SkipBalanced();
        if !ok {
          return Broken;
        }
      }
      e := Other;
    }

    // The element loop of a record array whose bracket has just been pulled; both the
    // positional shape and the wrapper shape run it.
    method StreamElements() returns (o: Outcome)
      requires stack != [] && stack[|stack| - 1] == InArr
      modifies this`rest, this`stack, this`delivered
      ensures o in {Done, Malformed, SinkFailed}
      ensures o.Done? ==>
        && ParseElems(old(rest)).Some? && rest == ParseElems(old(rest)).value.rest
        && stack == AfterValue(old(stack)[..|old(stack)| - 1])
        && delivered == old(delivered) + Objects(ParseElems(old(rest)).value.item)
      ensures o.Malformed? ==> ParseElems(old(rest)).None?
      ensures o.SinkFailed? ==> |delivered| == failAt
      ensures old(delivered) <= delivered
      ensures ParseElems(old(rest)).Some? ==>
        delivered <= old(delivered) + Objects(ParseElems(old(rest)).value.item)
    {
      hide Print, PrintElems, ParseElems, ParseValue, Objects, Fields;
      ghost var pre: seq<Json> := [];
      NothingRead(rest);
      while true
        invariant stack == old(stack)
        invariant old(rest) == PrintElems(pre, rest)
        invariant delivered == old(delivered) + Objects(pre)
        decreases |rest|
      {
        ElemsSplit(pre, rest);
        ElemsHead(rest);
        var more := More();
        if !more {
          break;
        }
        ghost var at := rest;
        var el := PullElement();
        if el.Broken? {
          return Malformed;
        }
        Advance(pre, at);
        if el.Rec? {
          var ok := Deliver(el.rec);
          if !ok {
            return SinkFailed;
          }
        }
        pre := pre + [ParseValue(at).value.item];
      }
      var close := Token();
      if !close.Got? {
        return Malformed;
      }
      assert pre + [] == pre;
      o := Done;
    }

    // `pending = append(pending, rec)`: the only place the buffer grows.
    method Buffer(rec: Record)
      modifies this`pending, this`peak
      ensures pending == old(pending) + [rec]
      ensures peak == if |pending| > old(peak) then |pending| else old(peak)
    {
      pending := pending + [rec];
      peak := if |pending| > peak then |pending| else peak;
    }

    method FlushPending() returns (ok: bool)
      modifies this`pending, this`delivered
      ensures ok ==> delivered == old(delivered) + old(pending) && pending == []
      ensures old(delivered) <= delivered <= old(delivered) + old(pending)
      ensures !ok ==> |delivered| == failAt
    {
      var i := 0;
      while i < |pending|
        invariant 0 <= i <= |pending| && pending == old(pending)
        invariant delivered == old(delivered) + pending[..i]
      {
        ok := Deliver(pending[i]);
        if !ok {
          return;
        }
        i := i + 1;
      }
      assert pending[..|pending|] == pending;
      pending := [];
      ok := true;
    }

    // One top-level record: straight to the consumer in bare mode, otherwise into the buffer,
    // which is flushed when it fills the window.
    method TakeRecord(rec: Record, committedBare: bool) returns (ok: bool, nowBare: bool)
      requires if committedBare then pending == [] else |pending| < POSITIONAL_SCAN_WINDOW
      modifies this`pending, this`delivered, this`peak
      ensures old(peak) <= POSITIONAL_SCAN_WINDOW ==> peak <= POSITIONAL_SCAN_WINDOW
      ensures nowBare <==> committedBare || |old(pending)| + 1 >= POSITIONAL_SCAN_WINDOW
      ensures !nowBare ==> ok && pending == old(pending) + [rec] && delivered == old(delivered)
      ensures nowBare && ok ==> pending == [] && delivered == old(delivered) + (old(pending) + [rec])
      ensures !ok ==> |delivered| == failAt && delivered <= old(delivered) + (old(pending) + [rec])
    {
      nowBare := committedBare;
      if committedBare {
        assert pending + [rec] == [rec];
        ok := Deliver(rec);
        return;
      }
      Buffer(rec);
      ok := true;
      if |pending| >= POSITIONAL_SCAN_WINDOW {
        nowBare := true;
        ok := FlushPending();
      }
    }

    // `decodeTopLevelArray`: the opening bracket has just been pulled.
    method DecodeTopLevelArray() returns (o: Outcome)
      requires stack == [InArr] && delivered == [] && pending == []
      modifies this
      ensures old(peak) <= POSITIONAL_SCAN_WINDOW ==> peak <= POSITIONAL_SCAN_WINDOW
      ensures o in {Done, Malformed, SinkFailed}
      ensures o.Done? ==>
        && WholeArray(old(rest)) && delivered == ArrayRecords(ParseElems(old(rest)).value.item)
      ensures o.Malformed? ==> !WholeArray(old(rest))
      ensures o.SinkFailed? ==> |delivered| == failAt
      ensures WholeArray(old(rest)) ==> delivered <= ArrayRecords(ParseElems(old(rest)).value.item)
      ensures o.Malformed? && delivered != [] ==> CommitsEarly(old(rest))
    {
      hide Print, PrintElems, ParseElems, ParseValue, Objects, Fields, ArrayRecords, Committed;
      ghost var pre: seq<Json> := [];
      NothingRead(rest);
      var committedBare := false;
      while true
        invariant stack == [InArr]
        invariant old(rest) == PrintElems(pre, rest)
        invariant Scanned(pre, committedBare, pending, delivered)
        invariant old(peak) <= POSITIONAL_SCAN_WINDOW ==> peak <= POSITIONAL_SCAN_WINDOW
        decreases |rest|
      {
        ScannedSoFar(pre, committedBare, pending, delivered, rest);
        ElemsHead(rest);
        var more := More();
        if !more {
          break;
        }
        if !committedBare && rest[0].LBrack? {
          o := DecodePositional(pre);
          return;
        }
        ghost var grown;
        o, committedBare, grown := ScanElement(committedBare, pre);
        if !o.Done? {
          return;
        }
        pre := grown;
      }
      assert pre + [] == pre;
      var ok := DrainToEOF();
      if !ok {
        return Malformed;
      }
      ok := FlushPending();
      o := if ok then Done else SinkFailed;
    }

    // One turn of the top-level loop outside the positional case; `Done` means go on.
    method ScanElement(committedBare: bool, ghost pre: seq<Json>)
        returns (o: Outcome, nowBare: bool, ghost grown: seq<Json>)
      requires stack == [InArr] && rest != [] && !rest[0].RBrack? && !rest[0].RBrace?
      requires committedBare || !rest[0].LBrack?
      requires Scanned(pre, committedBare, pending, delivered)
      modifies this
      ensures old(peak) <= POSITIONAL_SCAN_WINDOW ==> peak <= POSITIONAL_SCAN_WINDOW
      ensures o in {Done, Malformed, SinkFailed}
      ensures o.Done? ==>
        && stack == [InArr] && |rest| < |old(rest)|
        && PrintElems(grown, rest) == PrintElems(pre, old(rest))
        && Scanned(grown, nowBare, pending, delivered)
      ensures o.Malformed? ==> ParseElems(old(rest)).None? && delivered == old(delivered)
      ensures o.SinkFailed? ==>
        && |delivered| == failAt
        && (WholeArray(PrintElems(pre, old(rest))) ==>
              delivered <= ArrayRecords(ParseElems(PrintElems(pre, old(rest))).value.item))
    {
      hide Print, PrintElems, ParseElems, ParseValue, Objects, Fields, ArrayRecords, Committed;
      ghost var at := rest;
      ElemsHead(at);
      nowBare := committedBare;
      var el := PullElement();
      if el.Broken? {
        return Malformed, nowBare, pre;
      }
      ghost var v := ParseValue(at).value.item;
      Advance(pre, at);
      ScanOne(pre, committedBare, pending, delivered, v);
      grown := pre + [v];
      o := Done;
      if el.Rec? {
        var ok;
        ok, nowBare := TakeRecord(el.rec, committedBare);
        if !ok {
          TakenPrefix(grown, rest);
          o := SinkFailed;
        }
      }
    }

    // The positional shape: everything buffered so far was metadata, and the records come
    // out of the nested array that starts here.
    method DecodePositional(ghost pre: seq<Json>) returns (o: Outcome)
      requires stack == [InArr] && rest != [] && rest[0].LBrack? && delivered == []
      requires NoArrays(pre) && |Objects(pre)| < POSITIONAL_SCAN_WINDOW
      modifies this`rest, this`stack, this`pending, this`delivered
      ensures o in {Done, Malformed, SinkFailed}
      ensures o.Done? ==>
        && WholeArray(PrintElems(pre, old(rest)))
        && delivered == ArrayRecords(ParseElems(PrintElems(pre, old(rest))).value.item)
      ensures o.Malformed? ==> !WholeArray(PrintElems(pre, old(rest)))
      ensures o.SinkFailed? ==> |delivered| == failAt
      ensures WholeArray(PrintElems(pre, old(rest))) ==>
        delivered <= ArrayRecords(ParseElems(PrintElems(pre, old(rest))).value.item)
    {
      ghost var at := rest;
      ElemsSplit(pre, at);
      if ParseElems(at).Some? {
        PositionalRecords(pre, ParseElems(at).value.item);
      }
      var open := Token();
      if !open.Got? {
        return Malformed;
      }
      assert stack[..1] == [InArr];
      pending := [];
      o := StreamElements();
      if !o.Done? {
        return;
      }
      var ok := DrainToEOF();
      o := if ok then Done else Malformed;
    }

    // `decodeWrappedObject`: the opening brace has just been pulled.
    method DecodeWrappedObject(path: string) returns (o: Outcome)
      requires stack == [AwaitKey] && delivered == []
      modifies this`rest, this`stack, this`pending, this`delivered
      ensures o.Done? ==>
        && WholeObject(old(rest))
        && WrapperOutcome(path, ParseMembers(old(rest)).value.item) == Done
        && delivered == WrapperRecords(path, ParseMembers(old(rest)).value.item)
      ensures WholeObject(old(rest)) && !o.SinkFailed? ==>
        o == WrapperOutcome(path, ParseMembers(old(rest)).value.item)
      ensures o.SinkFailed? ==> |delivered| == failAt
      ensures WholeObject(old(rest)) ==>
        delivered <= WrapperRecords(path, ParseMembers(old(rest)).value.item)
    {
      hide Print, PrintMembers, ParseMembers, ParseValue, Objects, WrapperOutcome, WrapperRecords;
      ghost var pre: seq<Member> := [];
      NoMembersRead(rest);
      while true
        invariant stack == [AwaitKey] && delivered == []
        invariant old(rest) == PrintMembers(pre, rest)
        invariant NoneSelected(path, pre)
        decreases |rest|
      {
        WrapperSplit(path, pre, rest);
        MembersHead(path, rest);
        var more := More();
        if !more {
          break;
        }
        ghost var at := rest;
        var k := Token();
        if !k.Got? {
          return Malformed;
        }
        WrapperHead(path, at);
        var key := k.t.s;
        ghost var value := ParseValue(rest);
        if rest != [] && rest[0].LBrack? && (path == "" || key == path) {
          o := DecodeSelected();
          return;
        }
        o := SkipUnlessTarget(path != "" && key == path);
        if !o.Done? {
          return;
        }
        MembersSnoc(pre, at);
        pre := pre + [Member(key, value.value.item)];
      }
      o := if path != "" then NotAnArray else NoArrayFound;
    }

    // A wrapper value that is not the record array: an error when it stands under the
    // configured key, otherwise skipped (`Done`).
    method SkipUnlessTarget(isTarget: bool) returns (o: Outcome)
      requires stack == [AwaitValue]
      modifies this`rest, this`stack
      ensures
        match ParseValue(old(rest))
        case None => o.Malformed? || (isTarget && o.NotAnArray?)
        case Some(p) =>
          if isTarget then o.NotAnArray? else o.Done? && rest == p.rest && stack == [AwaitKey]
    {
      var v := Token();
      if !v.Got? {
        return Malformed;
      }
      if isTarget {
        return NotAnArray;
      }
      if v.t.LBrace? || v.t.LBrack? {
        assert stack[..1] == [AwaitValue];
        var ok := SkipBalanced();
        if !ok {
          return Malformed;
        }
      }
      o := Done;
    }

    // The record array of a wrapper, whose key has just been pulled, and then the rest of
    // the wrapper.
    method DecodeSelected() returns (o: Outcome)
      requires stack == [AwaitValue] && rest != [] && rest[0].LBrack? && delivered == []
      modifies this`rest, this`stack, this`pending, this`delivered
      ensures o in {Done, Malformed, SinkFailed}
      ensures
        match ParseValue(old(rest))
        case None => !o.Done?
        case Some(p) =>
          && (o.Done? ==> WholeObject(p.rest) && delivered == Objects(p.item.elems))
          && (o.Malformed? ==> !WholeObject(p.rest))
          && delivered <= Objects(p.item.elems)
      ensures o.SinkFailed? ==> |delivered| == failAt
    {
      var open := Token();
      if !open.Got? {
        return Malformed;
      }
      assert stack[..1] == [AwaitValue];
      o := StreamElements();
      if !o.Done? {
        return;
      }
      var ok := DrainToEOF();
      o := if ok then Done else Malformed;
    }

    /** `decodeRecords`: success means the whole input was exactly one complete document, and
        on a complete document the outcome and the records are those the document calls for. */
    method DecodeRecords(path: string) returns (o: Outcome)
      requires stack == [] && delivered == [] && pending == []
      modifies this
      ensures old(peak) <= POSITIONAL_SCAN_WINDOW ==> peak <= POSITIONAL_SCAN_WINDOW
      ensures o.Done? ==>
        && WholeDocument(old(rest))
        && DocumentOutcome(path, ParseValue(old(rest)).value.item) == Done
        && delivered == DocumentRecords(path, ParseValue(old(rest)).value.item)
      ensures WholeDocument(old(rest)) && !o.SinkFailed? ==>
        o == DocumentOutcome(path, ParseValue(old(rest)).value.item)
      ensures WholeDocument(old(rest)) ==>
        delivered <= DocumentRecords(path, ParseValue(old(rest)).value.item)
      ensures o.SinkFailed? ==> |delivered| == failAt
      ensures !o.Done? && !o.SinkFailed? && delivered != [] && old(rest) != [] && old(rest)[0].LBrack? ==>
        CommitsEarly(old(rest)[1..])
    {
      var first := Token();
      if !first.Got? {
        return Malformed;
      }
      if first.t.LBrack? {
        o := DecodeTopLevelArray();
      } else if first.t.LBrace? {
        o := DecodeWrappedObject(path);
      } else {
        o := Malformed;
      }
    }
  }

  datatype Element = Rec(rec: Record) | Other | Broken

  ghost function FoldMembers(acc: Record, ts: seq<Token>): Option<(Record, seq<Token>)> {
    match ParseMembers(ts)
    case None => None
    case Some(p) => Some((Fields(acc, p.item), p.rest))
  }

  // ------------------------------------------------------- facts about prefixes

  function PrependAll(pre: seq<Json>, r: Option<Parsed<seq<Json>>>): Option<Parsed<seq<Json>>> {
    match r
    case None => None
    case Some(p) => Some(Parsed(pre + p.item, p.rest))
  }

  // The tokens are an array's elements, its bracket, and nothing else.
  predicate WholeArray(ts: seq<Token>) {
    ParseElems(ts).Some? && ParseElems(ts).value.rest == []
  }

  predicate WholeObject(ts: seq<Token>) {
    ParseMembers(ts).Some? && ParseMembers(ts).value.rest == []
  }

  predicate WholeDocument(ts: seq<Token>) {
    ParseValue(ts).Some? && ParseValue(ts).value.rest == []
  }

  predicate NoneSelected(path: string, ms: seq<Member>) {
    forall i :: 0 <= i < |ms| ==> !Selects(path, ms[i])
  }

  function PrependMembers(pre: seq<Member>, r: Option<Parsed<seq<Member>>>): Option<Parsed<seq<Member>>> {
    match r
    case None => None
    case Some(p) => Some(Parsed(pre + p.item, p.rest))
  }

  lemma {:induction false} SelectedOfConcat(path: string, xs: seq<Member>, ys: seq<Member>)
    requires NoneSelected(path, xs)
    ensures FirstSelected(path, xs + ys) == |xs| + FirstSelected(path, ys)
  {
    if xs == [] {
      assert xs + ys == ys;
    } else {
      assert (xs + ys)[1..] == xs[1..] + ys;
      SelectedOfConcat(path, xs[1..], ys);
    }
  }

  // Members that are not selected do not change what the wrapper calls for.
  lemma WrapperConcat(path: string, pre: seq<Member>, ms: seq<Member>)
    requires NoneSelected(path, pre)
    ensures WrapperOutcome(path, pre + ms) == WrapperOutcome(path, ms)
    ensures WrapperRecords(path, pre + ms) == WrapperRecords(path, ms)
  {
    SelectedOfConcat(path, pre, ms);
    var i := FirstSelected(path, ms);
    assert i < |ms| ==> (pre + ms)[|pre| + i] == ms[i];
  }

  // A member in front that is not selected, seen from the tokens.
  lemma WrapperSplit(path: string, pre: seq<Member>, rest: seq<Token>)
    requires NoneSelected(path, pre)
    ensures WholeObject(PrintMembers(pre, rest)) <==> WholeObject(rest)
    ensures WholeObject(rest) ==>
      var ms, all := ParseMembers(rest).value.item, ParseMembers(PrintMembers(pre, rest)).value.item;
      && WrapperOutcome(path, all) == WrapperOutcome(path, ms)
      && WrapperRecords(path, all) == WrapperRecords(path, ms)
  {
    MembersSplit(pre, rest);
    if WholeObject(rest) {
      WrapperConcat(path, pre, ParseMembers(rest).value.item);
    }
  }

  lemma NoMembersRead(t: seq<Token>)
    ensures PrintMembers([], t) == t
  {
  }

  // The head of a member list: its brace, or a key.
  lemma MembersHead(path: string, t: seq<Token>)
    ensures t == [] || (!t[0].RBrace? && !t[0].StrTok?) ==> ParseMembers(t).None?
    ensures t != [] && t[0].RBrace? ==>
      && ParseMembers(t) == Some(Parsed([], t[1..]))
      && WrapperOutcome(path, []) == (if path == "" then NoArrayFound else NotAnArray)
    ensures t != [] && ParseValue(t[1..]).Some? ==> |ParseValue(t[1..]).value.rest| < |t|
    ensures |t| > 1 && ParseValue(t[1..]).Some? ==> (ParseValue(t[1..]).value.item.Arr? <==> t[1].LBrack?)
  {
  }

  // What the wrapper calls for, decided at its first member.
  lemma WrapperHead(path: string, ts: seq<Token>)
    requires ts != [] && ts[0].StrTok?
    ensures WholeObject(ts) <==>
      ParseValue(ts[1..]).Some? && WholeObject(ParseValue(ts[1..]).value.rest)
    ensures WholeObject(ts) ==>
      var v, ms := ParseValue(ts[1..]).value.item, ParseMembers(ts).value.item;
      Selects(path, Member(ts[0].s, v)) ==>
        && WrapperOutcome(path, ms) == (if v.Arr? then Done else NotAnArray)
        && WrapperRecords(path, ms) == (if v.Arr? then Objects(v.elems) else [])
  {
  }

  lemma {:induction false} MembersSplit(pre: seq<Member>, t: seq<Token>)
    ensures ParseMembers(PrintMembers(pre, t)) == PrependMembers(pre, ParseMembers(t))
  {
    hide ParseMembers, Print, PrependMembers;
    PrependMembersTwice(pre, ParseMembers(t));
    if pre != [] {
      OneMember(pre[0], PrintMembers(pre[1..], t));
      MembersSplit(pre[1..], t);
    }
  }

  lemma PrependMembersTwice(pre: seq<Member>, r: Option<Parsed<seq<Member>>>)
    ensures pre == [] ==> PrependMembers(pre, r) == r
    ensures pre != [] ==> PrependMembers([pre[0]], PrependMembers(pre[1..], r)) == PrependMembers(pre, r)
  {
    if r.Some? {
      var items := r.value.item;
      assert [] + items == items;
      assert pre != [] ==> [pre[0]] + (pre[1..] + items) == pre + items;
    }
  }

  lemma OneMember(m: Member, tail: seq<Token>)
    ensures ParseMembers([StrTok(m.key)] + Print(m.value, tail)) == PrependMembers([m], ParseMembers(tail))
  {
    hide Print, ParseValue;
    var value := Print(m.value, tail);
    assert ([StrTok(m.key)] + value)[1..] == value;
    ParseAfterPrint(m.value, tail);
  }

  lemma {:induction false} MembersSnoc(pre: seq<Member>, at: seq<Token>)
    requires at != [] && at[0].StrTok? && ParseValue(at[1..]).Some?
    ensures var v := ParseValue(at[1..]).value;
      PrintMembers(pre + [Member(at[0].s, v.item)], v.rest) == PrintMembers(pre, at)
  {
    var v := ParseValue(at[1..]).value;
    var m := Member(at[0].s, v.item);
    if pre == [] {
      PrintAfterParse(at[1..]);
      assert ([] + [m])[1..] == [];
      assert at == [at[0]] + at[1..];
    } else {
      assert (pre + [m])[1..] == pre[1..] + [m];
      MembersSnoc(pre[1..], at);
    }
  }

  predicate NoArrays(vs: seq<Json>) {
    forall i :: 0 <= i < |vs| ==> !vs[i].Arr?
  }

  // A full window of objects came before any nested array.
  predicate Committed(vs: seq<Json>) {
    |Objects(vs[..FirstArray(vs)])| >= POSITIONAL_SCAN_WINDOW
  }

  // A nested array, or a full window of objects, stands at the front of the tokens.
  ghost predicate CommitsEarly(ts: seq<Token>) {
    exists pre: seq<Json>, t: seq<Token> ::
      ts == PrintElems(pre, t) && ((t != [] && t[0].LBrack?) || Committed(pre))
  }

  lemma {:induction false} FirstArrayOfConcat(xs: seq<Json>, ys: seq<Json>)
    ensures FirstArray(xs + ys) == if FirstArray(xs) < |xs| then FirstArray(xs) else |xs| + FirstArray(ys)
  {
    if xs == [] {
      assert xs + ys == ys;
    } else if !xs[0].Arr? {
      assert (xs + ys)[1..] == xs[1..] + ys;
      FirstArrayOfConcat(xs[1..], ys);
    }
  }

  lemma CommittedStays(pre: seq<Json>, more: seq<Json>)
    requires Committed(pre)
    ensures Committed(pre + more)
  {
    FirstArrayOfConcat(pre, more);
    var all := pre + more;
    var i, n := FirstArray(pre), FirstArray(all);
    assert all[..n] == pre[..i] + all[i..n];
    ObjectsConcat(pre[..i], all[i..n]);
  }

  // Once committed, the records are the top-level objects, and those delivered so far are
  // the first of them.
  lemma CommittedRecords(pre: seq<Json>, rest: seq<Token>)
    requires Committed(pre)
    ensures ParseElems(rest).Some? ==>
      var vs := pre + ParseElems(rest).value.item;
      ArrayRecords(vs) == Objects(vs) && Objects(pre) <= Objects(vs)
  {
    if ParseElems(rest).Some? {
      CommittedStays(pre, ParseElems(rest).value.item);
      ObjectsConcat(pre, ParseElems(rest).value.item);
    }
  }

  lemma PositionalRecords(pre: seq<Json>, more: seq<Json>)
    requires NoArrays(pre) && |Objects(pre)| < POSITIONAL_SCAN_WINDOW
    requires more != [] && more[0].Arr?
    ensures ArrayRecords(pre + more) == Objects(more[0].elems)
  {
    FirstArrayOfConcat(pre, more);
    assert (pre + more)[..|pre|] == pre;
  }

  lemma BareRecords(vs: seq<Json>)
    requires NoArrays(vs)
    ensures ArrayRecords(vs) == Objects(vs) && vs[..FirstArray(vs)] == vs
  {
  }

  // The state of the top-level scan after the elements `pre`.
  predicate Scanned(pre: seq<Json>, bare: bool, pending: seq<Record>, delivered: seq<Record>) {
    if bare
    then Committed(pre) && pending == [] && delivered == Objects(pre)
    else NoArrays(pre) && pending == Objects(pre) && |pending| < POSITIONAL_SCAN_WINDOW && delivered == []
  }

  // What that state says about the records of the whole array, if the rest completes it.
  lemma ScannedSoFar(pre: seq<Json>, bare: bool, pending: seq<Record>, delivered: seq<Record>,
                     rest: seq<Token>)
    requires Scanned(pre, bare, pending, delivered)
    ensures ParseElems(PrintElems(pre, rest)) == PrependAll(pre, ParseElems(rest))
    ensures ParseElems(rest).Some? ==>
      var vs := pre + ParseElems(rest).value.item;
      && delivered <= ArrayRecords(vs)
      && (ParseElems(rest).value.item == [] ==> delivered + pending == ArrayRecords(vs))
    ensures bare ==> CommitsEarly(PrintElems(pre, rest))
  {
    ElemsSplit(pre, rest);
    if bare {
      CommittedRecords(pre, rest);
    } else {
      BareRecords(pre);
    }
    assert pre + [] == pre;
  }

  // One more element that is not a positional array.
  lemma ScanOne(pre: seq<Json>, bare: bool, pending: seq<Record>, delivered: seq<Record>, v: Json)
    requires Scanned(pre, bare, pending, delivered)
    requires bare || !v.Arr?
    ensures bare ==> Committed(pre + [v])
    ensures !bare ==> NoArrays(pre + [v]) && (Committed(pre + [v]) <==>
      |Objects(pre + [v])| >= POSITIONAL_SCAN_WINDOW)
  {
    ObjectsConcat(pre, [v]);
    if bare {
      CommittedStays(pre, [v]);
    } else {
      BareRecords(pre + [v]);
    }
  }

  // Records handed over while committed are the first records of the whole array.
  lemma TakenPrefix(pre: seq<Json>, rest: seq<Token>)
    requires Committed(pre)
    ensures WholeArray(PrintElems(pre, rest)) ==>
      Objects(pre) <= ArrayRecords(ParseElems(PrintElems(pre, rest)).value.item)
  {
    ElemsSplit(pre, rest);
    CommittedRecords(pre, rest);
  }

  lemma NothingRead(t: seq<Token>)
    ensures PrintElems([], t) == t && Objects([]) == []
  {
  }

  // The head of an element list: its bracket, or one value and more.
  lemma ElemsHead(t: seq<Token>)
    ensures t == [] || t[0].RBrace? ==> ParseElems(t).None?
    ensures t != [] && t[0].RBrack? ==> ParseElems(t) == Some(Parsed([], t[1..]))
    ensures t != [] && !t[0].RBrack? && ParseValue(t).None? ==> ParseElems(t).None?
    ensures ParseValue(t).Some? ==>
      |ParseValue(t).value.rest| < |t| && (ParseValue(t).value.item.Arr? <==> t[0].LBrack?)
  {
  }

  // Reading one more element.
  lemma Advance(pre: seq<Json>, at: seq<Token>)
    requires ParseValue(at).Some?
    ensures var v := ParseValue(at).value;
      && PrintElems(pre + [v.item], v.rest) == PrintElems(pre, at)
      && Objects(pre + [v.item]) == Objects(pre) +
           (if v.item.Obj? then [Fields(map[], v.item.members)] else [])
      && (ParseElems(at).Some? ==> Objects(pre) <= Objects(pre + ParseElems(at).value.item))
  {
    var v := ParseValue(at).value;
    PrintAfterParse(at);
    PrintElemsSnoc(pre, v.item, v.rest);
    ObjectsConcat(pre, [v.item]);
    if ParseElems(at).Some? {
      ObjectsConcat(pre, ParseElems(at).value.item);
    }
  }

  // Elements already read stay in front of whatever the rest parses to.
  lemma {:induction false} ElemsSplit(pre: seq<Json>, t: seq<Token>)
    ensures ParseElems(PrintElems(pre, t)) == PrependAll(pre, ParseElems(t))
  {
    hide ParseElems, Print, PrependAll;
    PrependTwice(pre, ParseElems(t));
    if pre != [] {
      OneElem(pre[0], PrintElems(pre[1..], t));
      ElemsSplit(pre[1..], t);
    }
  }

  lemma OneElem(v: Json, tail: seq<Token>)
    ensures ParseElems(Print(v, tail)) == PrependAll([v], ParseElems(tail))
  {
    hide ParseValue;
    ParseAfterPrint(v, tail);
  }

  lemma PrependTwice(pre: seq<Json>, r: Option<Parsed<seq<Json>>>)
    ensures pre == [] ==> PrependAll(pre, r) == r
    ensures pre != [] ==> PrependAll([pre[0]], PrependAll(pre[1..], r)) == PrependAll(pre, r)
  {
    if r.Some? {
      var items := r.value.item;
      assert [] + items == items;
      assert pre != [] ==> [pre[0]] + (pre[1..] + items) == pre + items;
    }
  }

  lemma {:induction false} PrintElemsSnoc(pre: seq<Json>, v: Json, t: seq<Token>)
    ensures PrintElems(pre + [v], t) == PrintElems(pre, Print(v, t))
  {
    if pre == [] {
      assert ([] + [v])[1..] == [];
    } else {
      assert (pre + [v])[1..] == pre[1..] + [v];
      PrintElemsSnoc(pre[1..], v, t);
    }
  }
}
