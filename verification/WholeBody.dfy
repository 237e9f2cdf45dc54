/** `parseJSON` (components/http-json-extractor/main.go), and the agreement between it and the
    streaming decoder. */
module WholeBody {
  import opened Options
  import opened JsonTokens
  import opened JsonValues
  import opened StreamDecoder

  // A record list in which a JSON null decoded to a nil map.
  datatype Result = Records(recs: seq<Option<Record>>) | Failed(o: Outcome)

  function ObjectValues(items: seq<Value>): seq<Record> {
    if items == [] then []
    else if items[0].VObj? then [items[0].fields] + ObjectValues(items[1..])
    else ObjectValues(items[1..])
  }

  function Present(rs: seq<Record>): (r: seq<Option<Record>>)
    ensures |r| == |rs| && forall i :: 0 <= i < |rs| ==> r[i] == Some(rs[i])
  {
    seq(|rs|, i requires 0 <= i < |rs| => Some(rs[i]))
  }

  predicate ObjectsOrNulls(vs: seq<Json>) {
    forall i :: 0 <= i < |vs| ==> vs[i].Obj? || vs[i].Null?
  }

  // Unmarshalling an array into a slice of maps.
  function MapSlice(vs: seq<Json>): (r: seq<Option<Record>>)
    ensures |r| == |vs|
  {
    seq(|vs|, i requires 0 <= i < |vs| =>
      if vs[i].Obj? then Some(Fields(map[], vs[i].members)) else None)
  }

  function LookUp(wrapper: Record, key: string): Result {
    if key in wrapper && wrapper[key].VArr?
    then Records(Present(ObjectValues(wrapper[key].elems)))
    else Failed(NotAnArray)
  }

  predicate ArrayField(wrapper: Record, key: string) {
    key in wrapper && wrapper[key].VArr?
  }

  /** The results `parseJSON` may give: without a configured key it takes whichever array
      field Go's map iteration yields first. */
  ghost predicate MayGive(path: string, doc: Json, r: Result) {
    match doc
    case Arr(vs) =>
      if ObjectsOrNulls(vs) then r == Records(MapSlice(vs))
      else if FirstArray(vs) < |vs|
      then r == Records(Present(ObjectValues(DecodedElems(vs[FirstArray(vs)].elems))))
      else r == Records(Present(ObjectValues(DecodedElems(vs))))
    case Obj(ms) =>
      var w := Fields(map[], ms);
      if path != "" then r == LookUp(w, path)
      else
        || ((forall k :: k in w ==> !ArrayField(w, k)) && r == Failed(NoArrayFound))
        || (exists k :: ArrayField(w, k) && r == if k == "" then Failed(NoArrayFound) else LookUp(w, k))
    case Null => r == Records([])
    case _ => r == Failed(Malformed)
  }

  method RecordsFromSlice(items: seq<Value>) returns (recs: seq<Record>)
    ensures recs == ObjectValues(items)
  {
    recs := [];
    var i := 0;
    while i < |items|
      invariant 0 <= i <= |items|
      invariant recs + ObjectValues(items[i..]) == ObjectValues(items)
    {
      if items[i].VObj? {
        recs := recs + [items[i].fields];
      }
      i := i + 1;
    }
  }

  // `json.Unmarshal`: the body is one complete document, or nothing decodes.
  method Unmarshal(body: seq<Token>) returns (doc: Option<Json>)
    ensures doc.Some? <==> WholeDocument(body)
    ensures doc.Some? ==> body == Print(doc.value, [])
  {
    PrintAfterParse(body);
    var p := ParseValue(body);
    doc := if p.Some? && p.value.rest == [] then Some(p.value.item) else None;
  }

  /** The whole-body form on any token stream: on one complete document a result the chain of
      attempts allows, on anything else a failure. */
  method ParseJSON(path: string, body: seq<Token>) returns (r: Result)
    ensures forall doc :: body == Print(doc, []) ==> MayGive(path, doc, r)
    ensures !WholeDocument(body) ==> r == Failed(Malformed)
  {
    var doc := Unmarshal(body);
    if doc.None? {
      forall d: Json
        ensures body != Print(d, [])
      {
        ParseAfterPrint(d, []);
      }
      return Failed(Malformed);
    }
    forall d: Json | body == Print(d, [])
      ensures d == doc.value
    {
      ParseAfterPrint(d, []);
      ParseAfterPrint(doc.value, []);
    }
    r := ParseDocument(path, doc.value);
  }

  // The chain of attempts, on the decoded body.
  method ParseDocument(path: string, doc: Json) returns (r: Result)
    ensures MayGive(path, doc, r)
  {
    match doc {
      case Arr(vs) =>
        if ObjectsOrNulls(vs) {
          return Records(MapSlice(vs));
        }
        var i := FirstArray(vs);
        var recs := RecordsFromSlice(DecodedElems(if i < |vs| then vs[i].elems else vs));
        return Records(Present(recs));
      case Obj(ms) =>
        var w := Fields(map[], ms);
        var key := path;
        if path == "" {
          if exists k :: k in w && w[k].VArr? {
            key :| key in w && w[key].VArr?;
            assert ArrayField(w, key);
          }
        }
        if key == "" {
          return Failed(NoArrayFound);
        }
        if key !in w || !w[key].VArr? {
          return Failed(NotAnArray);
        }
        var recs := RecordsFromSlice(w[key].elems);
        return Records(Present(recs));
      case Null => return Records([]);
      case _ => return Failed(Malformed);
    }
  }

  /** The streaming decoder on the tokens of a document, with a consumer that takes every
      record. */
  method Stream(path: string, doc: Json) returns (o: Outcome, recs: seq<Record>)
    ensures o == DocumentOutcome(path, doc)
    ensures o.Done? ==> recs == DocumentRecords(path, doc)
    ensures !o.Done? ==> recs == []
  {
    ParseAfterPrint(doc, []);
    var d := new Decoder(Print(doc, []), -1);
    o := d.DecodeRecords(path);
    recs := d.delivered;
  }

  // ----------------------------------------------------------------- agreement

  function StreamResult(path: string, doc: Json): Result {
    if DocumentOutcome(path, doc).Done?
    then Records(Present(DocumentRecords(path, doc)))
    else Failed(DocumentOutcome(path, doc))
  }

  lemma {:induction false} ObjectValuesOfDecoded(vs: seq<Json>)
    ensures ObjectValues(DecodedElems(vs)) == Objects(vs)
  {
    if vs != [] {
      assert DecodedElems(vs)[1..] == DecodedElems(vs[1..]);
      ObjectValuesOfDecoded(vs[1..]);
    }
  }

  lemma {:induction false} ObjectsWhenAllObjects(vs: seq<Json>)
    requires ObjectsOrNulls(vs)
    ensures |Objects(vs)| == |vs| <==> forall i :: 0 <= i < |vs| ==> vs[i].Obj?
    ensures |Objects(vs)| == |vs| ==> Present(Objects(vs)) == MapSlice(vs)
  {
    if vs != [] {
      hide Fields, MapSlice, Present;
      ObjectsWhenAllObjects(vs[1..]);
      assert forall i :: 1 <= i < |vs| ==> vs[i] == vs[1..][i - 1];
      if |Objects(vs)| == |vs| {
        MapSliceHead(vs);
        PresentHead(Objects(vs)[0], Objects(vs[1..]));
      }
    }
  }

  lemma MapSliceHead(vs: seq<Json>)
    requires vs != [] && vs[0].Obj?
    ensures MapSlice(vs) == [Some(Fields(map[], vs[0].members))] + MapSlice(vs[1..])
  {
    hide Fields;
  }

  lemma PresentHead(r: Record, rs: seq<Record>)
    ensures Present([r] + rs) == [Some(r)] + Present(rs)
  {
  }

  // No nested array, or fewer than a window of objects in front of the first one.
  predicate WithinWindow(vs: seq<Json>) {
    FirstArray(vs) == |vs| || |Objects(vs[..FirstArray(vs)])| < POSITIONAL_SCAN_WINDOW
  }

  // An array of objects with a null among them.
  predicate NullAmongObjects(vs: seq<Json>) {
    ObjectsOrNulls(vs) && exists i :: 0 <= i < |vs| && vs[i].Null?
  }

  lemma PresentInjective(a: seq<Record>, b: seq<Record>)
    ensures Present(a) == Present(b) <==> a == b
  {
    if Present(a) == Present(b) {
      assert forall i :: 0 <= i < |a| ==> Present(a)[i] == Some(a[i]) && Present(b)[i] == Some(b[i]);
    }
  }

  /** The two forms agree on an array exactly when it is not an array of objects with a null
      among them and, beyond the scan window, the nested array happens to hold the top-level
      objects again. */
  lemma ArraysAgree(path: string, vs: seq<Json>)
    ensures MayGive(path, Arr(vs), StreamResult(path, Arr(vs))) <==>
      && !NullAmongObjects(vs)
      && (WithinWindow(vs) || Objects(vs) == Objects(vs[FirstArray(vs)].elems))
  {
    ObjectValuesOfDecoded(vs);
    if FirstArray(vs) < |vs| {
      ObjectValuesOfDecoded(vs[FirstArray(vs)].elems);
      PresentInjective(Objects(vs), Objects(vs[FirstArray(vs)].elems));
    }
    if ObjectsOrNulls(vs) {
      ObjectsWhenAllObjects(vs);
      assert FirstArray(vs) == |vs|;
    }
  }

  // A null among objects: `parseJSON` reports it as a record without fields.
  lemma NullAmongObjectsDisagrees(path: string)
    ensures !MayGive(path, Arr([Obj([]), Null]), StreamResult(path, Arr([Obj([]), Null])))
  {
    var vs := [Obj([]), Null];
    assert vs[1].Null?;
    ArraysAgree(path, vs);
  }

  // Beyond the window they do not: the stream has already committed to the top-level objects.
  lemma BeyondTheWindow(path: string)
    ensures var vs := seq(POSITIONAL_SCAN_WINDOW, _ => Obj([])) + [Arr([])];
      !MayGive(path, Arr(vs), StreamResult(path, Arr(vs)))
  {
    var objs := seq(POSITIONAL_SCAN_WINDOW, _ => Obj([]));
    var vs := objs + [Arr([])];
    FirstArrayOfConcat(objs, [Arr([])]);
    assert vs[..POSITIONAL_SCAN_WINDOW] == objs;
    ObjectsWhenAllObjects(objs);
    ObjectsConcat(objs, [Arr([])]);
    assert vs[POSITIONAL_SCAN_WINDOW].Arr?;
  }

  predicate DistinctKeys(ms: seq<Member>) {
    forall i, j :: 0 <= i < j < |ms| ==> ms[i].key != ms[j].key
  }

  predicate NonEmptyKeys(ms: seq<Member>) {
    forall i :: 0 <= i < |ms| ==> ms[i].key != ""
  }

  // ------------------------------------------------- wrappers with any keys at all

  predicate SameRecords(a: Json, b: Json) {
    (a.Arr? <==> b.Arr?) && (a.Arr? ==> Objects(a.elems) == Objects(b.elems))
  }

  // The first member the stream takes gives what some last member of its key gives.
  predicate FirstIsLikeALast(path: string, ms: seq<Member>) {
    var i := FirstSelected(path, ms);
    i < |ms| ==>
      exists j: nat :: j < |ms| && LastOfItsKey(ms, j) && ms[j].key != "" && SameRecords(ms[i].value, ms[j].value)
        && (path != "" ==> ms[j].key == path)
  }

  lemma LookUpAt(ms: seq<Member>, j: nat)
    requires j < |ms| && LastOfItsKey(ms, j)
    ensures var w := Fields(map[], ms);
      && LookUp(w, ms[j].key) ==
         (if ms[j].value.Arr? then Records(Present(Objects(ms[j].value.elems))) else Failed(NotAnArray))
      && (ArrayField(w, ms[j].key) <==> ms[j].value.Arr?)
  {
    hide Fields, Objects, ObjectValues, Present, DecodedElems;
    FieldsHoldTheLast(map[], ms);
    DecodedKind(ms[j].value);
    if ms[j].value.Arr? {
      ObjectValuesOfDecoded(ms[j].value.elems);
    }
  }

  lemma LookUpNowhere(ms: seq<Member>, key: string)
    requires !Occurs(ms, key)
    ensures LookUp(Fields(map[], ms), key) == Failed(NotAnArray) && !ArrayField(Fields(map[], ms), key)
  {
    FieldsHoldTheLast(map[], ms);
  }

  /** On any wrapper object the stream's result is one `parseJSON` may give exactly when the
      first member the stream takes holds the same records as a last member of its key, the
      configured one if there is one, under a key that is not empty. */
  lemma WrappersAgreeIff(path: string, ms: seq<Member>)
    ensures MayGive(path, Obj(ms), StreamResult(path, Obj(ms))) <==> FirstIsLikeALast(path, ms)
  {
    if path != "" {
      KeyedAgreeIff(path, ms);
    } else {
      UnkeyedAgreeIff(ms);
    }
  }

  lemma KeyedAgreeIff(path: string, ms: seq<Member>)
    requires path != ""
    ensures MayGive(path, Obj(ms), StreamResult(path, Obj(ms))) <==> FirstIsLikeALast(path, ms)
  {
    hide Fields, LookUp, Objects, Present;
    var i := FirstSelected(path, ms);
    if i < |ms| {
      assert Occurs(ms, path);
      var j := LastExists(ms, path);
      LookUpAt(ms, j);
      if ms[i].value.Arr? && ms[j].value.Arr? {
        PresentInjective(Objects(ms[i].value.elems), Objects(ms[j].value.elems));
      }
      OneLast(ms, j);
    } else {
      LookUpNowhere(ms, path);
    }
  }

  lemma OneLast(ms: seq<Member>, j: nat)
    requires j < |ms| && LastOfItsKey(ms, j)
    ensures forall k: nat :: k < |ms| && LastOfItsKey(ms, k) && ms[k].key == ms[j].key ==> k == j
  {
  }

  lemma UnkeyedAgreeIff(ms: seq<Member>)
    ensures MayGive("", Obj(ms), StreamResult("", Obj(ms))) <==> FirstIsLikeALast("", ms)
  {
    hide Fields, LookUp, Objects, Present, ArrayField;
    var w, i := Fields(map[], ms), FirstSelected("", ms);
    if i == |ms| {
      forall k | k in w
        ensures !ArrayField(w, k)
      {
        NoArrayFields(ms, k);
      }
    } else {
      if FirstIsLikeALast("", ms) {
        var j: nat :| j < |ms| && LastOfItsKey(ms, j) && ms[j].key != "" && SameRecords(ms[i].value, ms[j].value);
        LookUpAt(ms, j);
        assert ArrayField(w, ms[j].key);
      }
      if k :| ArrayField(w, k) && StreamResult("", Obj(ms)) == if k == "" then Failed(NoArrayFound) else LookUp(w, k) {
        UnkeyedWitness(ms, i, k);
      }
    }
  }

  lemma NoArrayFields(ms: seq<Member>, k: string)
    requires FirstSelected("", ms) == |ms|
    ensures !ArrayField(Fields(map[], ms), k)
  {
    hide Fields, ArrayField;
    if Occurs(ms, k) {
      var j := LastExists(ms, k);
      LookUpAt(ms, j);
      assert !Selects("", ms[j]);
    } else {
      LookUpNowhere(ms, k);
    }
  }

  lemma UnkeyedWitness(ms: seq<Member>, i: nat, k: string)
    requires i == FirstSelected("", ms) < |ms| && k != "" && ArrayField(Fields(map[], ms), k)
    requires StreamResult("", Obj(ms)) == LookUp(Fields(map[], ms), k)
    ensures FirstIsLikeALast("", ms)
  {
    hide Fields, LookUp, Objects, Present, ArrayField;
    if Occurs(ms, k) {
      var j := LastExists(ms, k);
      LookUpAt(ms, j);
      PresentInjective(Objects(ms[i].value.elems), Objects(ms[j].value.elems));
      assert SameRecords(ms[i].value, ms[j].value);
    } else {
      LookUpNowhere(ms, k);
    }
  }

  // What agreement takes, document by document.
  predicate Agreeable(path: string, doc: Json) {
    match doc
    case Arr(vs) => !NullAmongObjects(vs) && (WithinWindow(vs) || Objects(vs) == Objects(vs[FirstArray(vs)].elems))
    case Obj(ms) => FirstIsLikeALast(path, ms)
    case Null => false
    case _ => true
  }

  /** For every document: the stream's result is one `parseJSON` may give exactly in these cases.
      On a bare `null` the stream fails, and `parseJSON` gives no records. */
  lemma AgreeIff(path: string, doc: Json)
    ensures MayGive(path, doc, StreamResult(path, doc)) <==> Agreeable(path, doc)
  {
    match doc {
      case Arr(vs) => ArraysAgree(path, vs);
      case Obj(ms) => WrappersAgreeIff(path, ms);
      case _ =>
    }
  }

  predicate AtMostOneArray(ms: seq<Member>) {
    forall i, j :: 0 <= i < j < |ms| ==> !(ms[i].value.Arr? && ms[j].value.Arr?)
  }

  lemma DistinctIsLast(ms: seq<Member>)
    requires DistinctKeys(ms)
    ensures forall j: nat :: j < |ms| ==> LastOfItsKey(ms, j)
  {
  }

  /** On a wrapper object with distinct keys, none empty, the stream's result is one `parseJSON`
      may give, and the only one when a key is configured or there is at most one array field. */
  lemma WrappersAgree(path: string, ms: seq<Member>)
    requires DistinctKeys(ms) && NonEmptyKeys(ms)
    ensures MayGive(path, Obj(ms), StreamResult(path, Obj(ms)))
    ensures path != "" || AtMostOneArray(ms) ==>
      forall r :: MayGive(path, Obj(ms), r) ==> r == StreamResult(path, Obj(ms))
  {
    hide Fields, LookUp, Objects, Present;
    DistinctIsLast(ms);
    WrappersAgreeIff(path, ms);
    var i := FirstSelected(path, ms);
    assert i < |ms| ==> LastOfItsKey(ms, i);
    if path == "" && AtMostOneArray(ms) {
      forall k | ArrayField(Fields(map[], ms), k)
        ensures i < |ms| && k == ms[i].key && LookUp(Fields(map[], ms), k) == StreamResult("", Obj(ms))
      {
        OnlyArrayField(ms, k);
      }
      if i < |ms| {
        LookUpAt(ms, i);
        assert ArrayField(Fields(map[], ms), ms[i].key);
      }
    }
  }

  lemma OnlyArrayField(ms: seq<Member>, k: string)
    requires DistinctKeys(ms) && AtMostOneArray(ms) && ArrayField(Fields(map[], ms), k)
    ensures var i := FirstSelected("", ms);
      i < |ms| && k == ms[i].key && LookUp(Fields(map[], ms), k) == StreamResult("", Obj(ms))
  {
    hide Fields, LookUp, Objects, Present, ArrayField;
    var i := FirstSelected("", ms);
    if Occurs(ms, k) {
      var j := LastExists(ms, k);
      LookUpAt(ms, j);
      assert Selects("", ms[j]);
      assert i == j;
    } else {
      LookUpNowhere(ms, k);
    }
  }

  // With a repeated key the stream sees the first occurrence and `parseJSON` the last.
  lemma RepeatedKeysDisagree()
    ensures var ms := [Member("a", Arr([])), Member("a", Null)];
      !MayGive("a", Obj(ms), StreamResult("a", Obj(ms)))
  {
    var ms := [Member("a", Arr([])), Member("a", Null)];
    assert ms[1..] == [Member("a", Null)] && ms[1..][1..] == [];
    assert Fields(map[], ms) == map["a" := VNull];
  }

  // An array under the empty key is found by the stream only.
  lemma EmptyKeyDisagrees()
    ensures var ms := [Member("", Arr([]))];
      !MayGive("", Obj(ms), StreamResult("", Obj(ms)))
  {
    var ms := [Member("", Arr([]))];
    assert ms[1..] == [];
    assert Fields(map[], ms) == map["" := VArr([])];
  }

  // -------------------------------------------------------- one whole document

  // What a successful decode requires: the input is the token stream of one document.
  lemma WholeDocumentIsOneDocument(ts: seq<Token>)
    ensures WholeDocument(ts) <==> exists doc :: ts == Print(doc, [])
  {
    if WholeDocument(ts) {
      PrintAfterParse(ts);
    }
    forall doc | ts == Print(doc, [])
      ensures WholeDocument(ts)
    {
      ParseAfterPrint(doc, []);
    }
  }

  // A truncated document, or one with anything after it, is not.
  lemma TruncatedOrTrailingIsRejected(doc: Json, n: nat, extra: seq<Token>)
    requires n < |Print(doc, [])| && extra != []
    ensures !WholeDocument(Print(doc, [])[..n])
    ensures !WholeDocument(Print(doc, []) + extra)
  {
    var ts := Print(doc, []);
    if WholeDocument(ts[..n]) {
      PrintAfterParse(ts[..n]);
      var other := ParseValue(ts[..n]).value.item;
      assert ts + [] == Print(other, []) + ts[n..];
      PrefixFree(doc, other, [], ts[n..]);
    }
    if WholeDocument(ts + extra) {
      PrintAfterParse(ts + extra);
      var other := ParseValue(ts + extra).value.item;
      PrefixFree(doc, other, extra, []);
    }
  }
}
