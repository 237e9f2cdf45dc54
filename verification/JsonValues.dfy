/** The values the extractor decodes documents into, and what can be read back from them. */
module JsonValues {
  import opened Options
  import opened JsonTokens
  import opened SortedStrings

  datatype Value =
    | VNull
    | VBool(b: bool)
    | VNum(text: string)
    | VStr(s: string)
    | VArr(elems: seq<Value>)
    | VObj(fields: map<string, Value>)

  type Record = map<string, Value>

  function Decoded(j: Json): Value
    decreases j, 1
  {
    match j
    case Null => VNull
    case Bool(b) => VBool(b)
    case Num(t) => VNum(t)
    case Str(s) => VStr(s)
    case Arr(vs) => VArr(DecodedElems(vs))
    case Obj(ms) => VObj(Fields(map[], ms))
  }

  function DecodedElems(vs: seq<Json>): (r: seq<Value>)
    ensures |r| == |vs|
    ensures forall i :: 0 <= i < |vs| ==> r[i] == Decoded(vs[i])
    decreases vs, 0
  {
    if vs == [] then [] else [Decoded(vs[0])] + DecodedElems(vs[1..])
  }

  // Members assigned left to right: the last value of a repeated key wins.
  function Fields(acc: Record, ms: seq<Member>): Record
    decreases ms, 0
  {
    if ms == [] then acc else Fields(acc[ms[0].key := Decoded(ms[0].value)], ms[1..])
  }

  // ---------------------------------------------------------- fields and members

  predicate Occurs(ms: seq<Member>, key: string) {
    exists i :: 0 <= i < |ms| && ms[i].key == key
  }

  // No later member has the same key.
  predicate LastOfItsKey(ms: seq<Member>, j: nat)
    requires j < |ms|
  {
    forall i :: j < i < |ms| ==> ms[i].key != ms[j].key
  }

  lemma {:induction false} FieldsHoldTheLast(acc: Record, ms: seq<Member>)
    ensures forall j: nat :: j < |ms| && LastOfItsKey(ms, j) ==>
      ms[j].key in Fields(acc, ms) && Fields(acc, ms)[ms[j].key] == Decoded(ms[j].value)
    ensures forall k :: k in acc && !Occurs(ms, k) ==> k in Fields(acc, ms) && Fields(acc, ms)[k] == acc[k]
    ensures forall k :: k in Fields(acc, ms) ==> k in acc || Occurs(ms, k)
    decreases |ms|
  {
    if ms != [] {
      var more, rest := acc[ms[0].key := Decoded(ms[0].value)], ms[1..];
      FieldsHoldTheLast(more, rest);
      assert forall i :: 0 <= i < |rest| ==> rest[i] == ms[i + 1];
      forall j: nat | j < |ms| && LastOfItsKey(ms, j)
        ensures ms[j].key in Fields(acc, ms) && Fields(acc, ms)[ms[j].key] == Decoded(ms[j].value)
      {
        if j > 0 {
          assert LastOfItsKey(rest, j - 1);
        } else {
          assert !Occurs(rest, ms[0].key);
        }
      }
      forall k | k in acc && !Occurs(ms, k)
        ensures k in Fields(acc, ms) && Fields(acc, ms)[k] == acc[k]
      {
        assert ms[0].key != k;
        assert !Occurs(rest, k);
      }
      forall k | k in Fields(acc, ms)
        ensures k in acc || Occurs(ms, k)
      {
        if Occurs(rest, k) {
          var i :| 0 <= i < |rest| && rest[i].key == k;
          assert ms[i + 1].key == k;
        } else {
          assert k in more;
          assert k == ms[0].key || k in acc;
        }
      }
    }
  }

  lemma {:induction false} LastExists(ms: seq<Member>, key: string) returns (j: nat)
    requires Occurs(ms, key)
    ensures j < |ms| && ms[j].key == key && LastOfItsKey(ms, j)
    decreases |ms|
  {
    j := |ms| - 1;
    if ms[j].key != key {
      var front := ms[..j];
      var i :| 0 <= i < |ms| && ms[i].key == key;
      assert front[i].key == key;
      j := LastExists(front, key);
      assert forall k :: 0 <= k < |front| ==> front[k] == ms[k];
    }
  }

  lemma DecodedKind(v: Json)
    ensures Decoded(v).VArr? <==> v.Arr?
    ensures v.Arr? ==> Decoded(v) == VArr(DecodedElems(v.elems))
  {
  }

  function LastIndex(ms: seq<Member>, key: string): (j: nat)
    requires Occurs(ms, key)
    ensures j < |ms| && ms[j].key == key && LastOfItsKey(ms, j)
  {
    if ms[|ms| - 1].key == key then |ms| - 1
    else
      var front := ms[..|ms| - 1];
      assert Occurs(front, key) by {
        var i :| 0 <= i < |ms| && ms[i].key == key;
        assert front[i].key == key;
      }
      assert forall i :: 0 <= i < |front| ==> front[i] == ms[i];
      LastIndex(front, key)
  }

  function KeySet(ms: seq<Member>): set<string> {
    set i | 0 <= i < |ms| :: ms[i].key
  }

  lemma KeySetIs(ms: seq<Member>, key: string)
    ensures key in KeySet(ms) <==> Occurs(ms, key)
  {
  }

  // A decoded object has the keys of its members, each with the value of the last one.
  lemma FieldsAre(ms: seq<Member>)
    ensures Fields(map[], ms).Keys == KeySet(ms)
    ensures forall key :: key in KeySet(ms) ==>
      Occurs(ms, key) && Fields(map[], ms)[key] == Decoded(ms[LastIndex(ms, key)].value)
  {
    hide Fields, LastIndex;
    FieldsHoldTheLast(map[], ms);
    var f := Fields(map[], ms);
    forall key
      ensures key in f <==> key in KeySet(ms)
      ensures key in KeySet(ms) ==> Occurs(ms, key) && f[key] == Decoded(ms[LastIndex(ms, key)].value)
    {
      KeySetIs(ms, key);
      if Occurs(ms, key) {
        var j := LastIndex(ms, key);
        assert LastOfItsKey(ms, j) && ms[j].key == key;
      }
    }
  }

  // ------------------------------------------------------------------ sorted keys

  lemma {:induction false} LeastExists(s: set<string>) returns (x: string)
    requires s != {}
    ensures x in s && forall y :: y in s ==> LexLe(x, y)
    decreases |s|
  {
    hide LexLe;
    x :| x in s;
    LexTotal(x, x);
    var rest := s - {x};
    if rest != {} {
      var z := LeastExists(rest);
      LexTotal(x, z);
      if LexLe(z, x) {
        x := z;
      } else {
        forall y | y in s
          ensures LexLe(x, y)
        {
          if y != x {
            LexTransitive(x, z, y);
          }
        }
      }
    }
  }

  predicate Least(s: set<string>, x: string) {
    x in s && forall y :: y in s ==> LexLe(x, y)
  }

  lemma SomeLeast(s: set<string>)
    requires s != {}
    ensures exists x :: Least(s, x)
  {
    var x := LeastExists(s);
    assert Least(s, x);
  }

  // The keys in ascending order.
  ghost function SortedKeys(s: set<string>): seq<string>
    decreases |s|
  {
    if s == {} then []
    else
      SomeLeast(s);
      var x :| Least(s, x);
      [x] + SortedKeys(s - {x})
  }

  lemma {:induction false} SortedKeysAre(s: set<string>)
    ensures Sorted(SortedKeys(s)) && multiset(SortedKeys(s)) == multiset(s)
    ensures forall x :: x in SortedKeys(s) <==> x in s
    decreases |s|
  {
    hide LexLe, Sorted;
    if s == {} {
      NothingSorted();
    } else {
      SomeLeast(s);
      var x, rest := SortedKeys(s)[0], SortedKeys(s)[1..];
      assert SortedKeys(s) == [x] + rest && Least(s, x) && rest == SortedKeys(s - {x});
      SortedKeysAre(s - {x});
      InFront(s, x, rest);
    }
  }

  lemma NothingSorted()
    ensures Sorted([])
  {
  }

  // The least element in front of the others in order.
  lemma InFront(s: set<string>, x: string, rest: seq<string>)
    requires Least(s, x) && Sorted(rest) && multiset(rest) == multiset(s - {x})
    requires forall y :: y in rest <==> y in s - {x}
    ensures Sorted([x] + rest) && multiset([x] + rest) == multiset(s)
    ensures forall y :: y in [x] + rest <==> y in s
  {
    hide LexLe;
    assert multiset(s) == multiset(s - {x}) + multiset{x};
    var all := [x] + rest;
    forall i, j | 0 <= i < j < |all|
      ensures LexLe(all[i], all[j])
    {
      assert all[j] == rest[j - 1] && rest[j - 1] in rest;
      assert i > 0 ==> all[i] == rest[i - 1];
    }
  }

  // ------------------------------------------------- a printer of values to tokens

  // The tokens of a value followed by `k`, the fields of an object in ascending order of keys.
  ghost function PrintValue(v: Value, k: seq<Token>): seq<Token>
    decreases v, 1, 0
  {
    match v
    case VNull => [Lit(Null)] + k
    case VBool(b) => [Lit(Bool(b))] + k
    case VNum(text) => [Lit(Num(text))] + k
    case VStr(t) => [StrTok(t)] + k
    case VArr(vs) => [LBrack] + PrintValues(v, 0, [RBrack] + k)
    case VObj(fields) =>
      SortedKeysAre(fields.Keys);
      [LBrace] + PrintFields(v, SortedKeys(fields.Keys), [RBrace] + k)
  }

  ghost function PrintValues(v: Value, i: nat, k: seq<Token>): seq<Token>
    requires v.VArr? && i <= |v.elems|
    decreases v, 0, |v.elems| - i
  {
    if i == |v.elems| then k else PrintValue(v.elems[i], PrintValues(v, i + 1, k))
  }

  ghost function PrintFields(v: Value, keys: seq<string>, k: seq<Token>): seq<Token>
    requires v.VObj? && forall x :: x in keys ==> x in v.fields
    decreases v, 0, |keys|
  {
    if keys == [] then k
    else [StrTok(keys[0])] + PrintValue(v.fields[keys[0]], PrintFields(v, keys[1..], k))
  }

  // ------------------------------------------------------------- documents set in order

  // The document with the members of every object in ascending order of keys, the last one of a
  // repeated key.
  ghost function Ordered(j: Json): Json
    decreases j, 1, 0
  {
    match j
    case Arr(vs) => Arr(OrderedElems(j, 0))
    case Obj(ms) =>
      SortedKeysAre(KeySet(ms));
      Obj(OrderedMembers(j, SortedKeys(KeySet(ms))))
    case _ => j
  }

  ghost function OrderedElems(j: Json, i: nat): seq<Json>
    requires j.Arr? && i <= |j.elems|
    decreases j, 0, |j.elems| - i
  {
    if i == |j.elems| then [] else [Ordered(j.elems[i])] + OrderedElems(j, i + 1)
  }

  ghost function OrderedMembers(j: Json, keys: seq<string>): seq<Member>
    requires j.Obj? && forall x :: x in keys ==> x in KeySet(j.members)
    decreases j, 0, |keys|
  {
    if keys == [] then []
    else
      KeySetIs(j.members, keys[0]);
      [Member(keys[0], Ordered(j.members[LastIndex(j.members, keys[0])].value))] + OrderedMembers(j, keys[1..])
  }

  /** Decoding loses nothing but the order of members and the overwritten ones: printing the decoded
      value gives the tokens of the document set in order. */
  lemma {:induction false} ReadBack(j: Json, k: seq<Token>)
    ensures PrintValue(Decoded(j), k) == Print(Ordered(j), k)
    decreases j, 1, 0
  {
    match j {
      case Arr(vs) => ReadBackElems(j, 0, [RBrack] + k);
      case Obj(ms) =>
        FieldsAre(ms);
        SortedKeysAre(KeySet(ms));
        ReadBackMembers(j, SortedKeys(KeySet(ms)), [RBrace] + k);
      case _ =>
    }
  }

  lemma {:induction false} ReadBackElems(j: Json, i: nat, k: seq<Token>)
    requires j.Arr? && i <= |j.elems|
    ensures PrintValues(Decoded(j), i, k) == PrintElems(OrderedElems(j, i), k)
    decreases j, 0, |j.elems| - i
  {
    if i < |j.elems| {
      ReadBackElems(j, i + 1, k);
      ReadBack(j.elems[i], PrintValues(Decoded(j), i + 1, k));
      assert OrderedElems(j, i)[1..] == OrderedElems(j, i + 1);
    }
  }

  lemma {:induction false} ReadBackMembers(j: Json, keys: seq<string>, k: seq<Token>)
    requires j.Obj? && forall x :: x in keys ==> x in KeySet(j.members)
    ensures Decoded(j).VObj? && Decoded(j).fields.Keys == KeySet(j.members)
    ensures PrintFields(Decoded(j), keys, k) == PrintMembers(OrderedMembers(j, keys), k)
    decreases j, 0, |keys|
  {
    FieldsAre(j.members);
    if keys != [] {
      ReadBackMembers(j, keys[1..], k);
      KeySetIs(j.members, keys[0]);
      var last := j.members[LastIndex(j.members, keys[0])].value;
      ReadBack(last, PrintFields(Decoded(j), keys[1..], k));
      assert OrderedMembers(j, keys)[1..] == OrderedMembers(j, keys[1..]);
    }
  }

  // Every object inside has its members in strictly ascending order of keys.
  ghost predicate InOrder(j: Json) {
    match j
    case Arr(vs) => forall i :: 0 <= i < |vs| ==> InOrder(vs[i])
    case Obj(ms) =>
      && (forall a, b :: 0 <= a < b < |ms| ==> ms[a].key != ms[b].key && LexLe(ms[a].key, ms[b].key))
      && (forall i :: 0 <= i < |ms| ==> InOrder(ms[i].value))
    case _ => true
  }

  function KeysOf(ms: seq<Member>): seq<string> {
    seq(|ms|, i requires 0 <= i < |ms| => ms[i].key)
  }

  // Keys that occur once, in whatever order, are the sorted keys up to that order.
  lemma {:induction false} DistinctKeySet(ms: seq<Member>)
    requires forall a, b :: 0 <= a < b < |ms| ==> ms[a].key != ms[b].key
    ensures multiset(KeysOf(ms)) == multiset(KeySet(ms))
    decreases |ms|
  {
    if ms != [] {
      var front, last := ms[..|ms| - 1], ms[|ms| - 1].key;
      DistinctKeySet(front);
      assert KeysOf(ms) == KeysOf(front) + [last];
      assert KeySet(ms) == KeySet(front) + {last};
      assert last !in KeySet(front);
    }
  }

  /** Setting a document in order that is in order changes nothing; */
  lemma {:induction false} OrderedIsSame(j: Json)
    requires InOrder(j)
    ensures Ordered(j) == j
    decreases j, 1, 0
  {
    match j {
      case Arr(vs) => OrderedElemsSame(j, 0);
      case Obj(ms) =>
        var ks := KeysOf(ms);
        DistinctKeySet(ms);
        SortedKeysAre(KeySet(ms));
        SortedIsUnique(ks, SortedKeys(KeySet(ms)));
        assert ks[0..] == ks;
        OrderedMembersSame(j, 0);
      case _ =>
    }
  }

  lemma {:induction false} OrderedElemsSame(j: Json, i: nat)
    requires InOrder(j) && j.Arr? && i <= |j.elems|
    ensures OrderedElems(j, i) == j.elems[i..]
    decreases j, 0, |j.elems| - i
  {
    if i < |j.elems| {
      OrderedIsSame(j.elems[i]);
      OrderedElemsSame(j, i + 1);
      assert j.elems[i..] == [j.elems[i]] + j.elems[i + 1..];
    }
  }

  lemma {:induction false} OrderedMembersSame(j: Json, i: nat)
    requires InOrder(j) && j.Obj? && i <= |j.members|
    ensures forall x :: x in KeysOf(j.members)[i..] ==> x in KeySet(j.members)
    ensures OrderedMembers(j, KeysOf(j.members)[i..]) == j.members[i..]
    decreases j, 0, |j.members| - i
  {
    hide LexLe, LastIndex, KeySet, Ordered;
    var ms := j.members;
    var ks := KeysOf(ms);
    KeysAreKeys(ms, i);
    if i < |ms| {
      OrderedIsSame(ms[i].value);
      OrderedMembersSame(j, i + 1);
      assert ks[i..][0] == ms[i].key && ks[i..][1..] == ks[i + 1..];
      OnlyIndex(ms, i);
      assert ms[i..] == [ms[i]] + ms[i + 1..];
    }
  }

  lemma KeysAreKeys(ms: seq<Member>, i: nat)
    requires i <= |ms|
    ensures forall x :: x in KeysOf(ms)[i..] ==> x in KeySet(ms)
  {
    assert forall k :: 0 <= k < |ms| - i ==> KeysOf(ms)[i..][k] == ms[i + k].key;
  }

  lemma OnlyIndex(ms: seq<Member>, i: nat)
    requires i < |ms| && forall a, b :: 0 <= a < b < |ms| ==> ms[a].key != ms[b].key
    ensures Occurs(ms, ms[i].key) && LastIndex(ms, ms[i].key) == i
  {
    assert Occurs(ms, ms[i].key);
  }

  /** so a field whose value is in order, as every scalar is, prints to the very tokens that stood in
      the input. */
  lemma InOrderReadsBack(j: Json, k: seq<Token>)
    requires InOrder(j)
    ensures PrintValue(Decoded(j), k) == Print(j, k)
  {
    ReadBack(j, k);
    OrderedIsSame(j);
  }

  // When keys occur once, setting the members in order permutes them.
  lemma DistinctMembersArePermuted(ms: seq<Member>)
    requires forall a, b :: 0 <= a < b < |ms| ==> ms[a].key != ms[b].key
    ensures multiset(SortedKeys(KeySet(ms))) == multiset(KeysOf(ms))
    ensures forall i :: 0 <= i < |ms| ==> Occurs(ms, ms[i].key) && LastIndex(ms, ms[i].key) == i
  {
    DistinctKeySet(ms);
    SortedKeysAre(KeySet(ms));
    forall i | 0 <= i < |ms|
      ensures Occurs(ms, ms[i].key) && LastIndex(ms, ms[i].key) == i
    {
      OnlyIndex(ms, i);
    }
  }

  // The record has exactly the keys of the members, and each field prints to the tokens of the last
  // member of its key, set in order.
  ghost predicate ReadsBack(rec: Record, ms: seq<Member>) {
    && rec.Keys == KeySet(ms)
    && (forall key :: key in rec ==>
          && Occurs(ms, key)
          && PrintValue(rec[key], []) == Print(Ordered(ms[LastIndex(ms, key)].value), [])
          && (InOrder(ms[LastIndex(ms, key)].value) ==>
                PrintValue(rec[key], []) == Print(ms[LastIndex(ms, key)].value, [])))
  }

  lemma RecordReadsBack(ms: seq<Member>)
    ensures ReadsBack(Fields(map[], ms), ms)
  {
    hide Fields, PrintValue, Print, Ordered, InOrder, LastIndex;
    FieldsAre(ms);
    var rec := Fields(map[], ms);
    forall key | key in rec
      ensures Occurs(ms, key)
      ensures PrintValue(rec[key], []) == Print(Ordered(ms[LastIndex(ms, key)].value), [])
      ensures InOrder(ms[LastIndex(ms, key)].value) ==> PrintValue(rec[key], []) == Print(ms[LastIndex(ms, key)].value, [])
    {
      var j := ms[LastIndex(ms, key)].value;
      ReadBack(j, []);
      if InOrder(j) {
        InOrderReadsBack(j, []);
      }
    }
  }
}
