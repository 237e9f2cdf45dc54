/** Validation and binding of query parameters (components/queryengine/params.go). `rat` stands
    for `big.Rat.SetString`; a double is represented by the exact number it is rounded from. */
module QueryParams {
  import opened Options
  import opened SqlGrammar
  import opened SqlScanner
  import opened SortedStrings
  import JsonNumber

  datatype Value =
    | Null
    | Str(s: string)
    | Boolean(b: bool)
    | Integer(n: int)
    | Float(x: real)
    | NonFinite
    | Number(text: string)
    | Composite

  datatype Bound = BoundNull | Varchar(s: string) | BoundBool(b: bool) | BigInt(n: int) | Double(x: real)

  datatype Named = Named(name: string, value: Bound)

  datatype Error =
    | NameTooLong(name: string)
    | Missing(name: string)
    | Unreferenced(name: string)
    | InvalidValue(name: string)

  datatype Result<T> = Ok(value: T) | Err(error: Error)

  const MAX_NAME_LEN: nat := 64
  const MAX_SAFE_INTEGER: int := 9007199254740991

  type Rat = string -> Option<real>

  // ------------------------------------------------------------------ one value

  predicate Integral(x: real) {
    x == x.Floor as real
  }

  predicate SafeNumber(x: real) {
    Integral(x) ==> -(MAX_SAFE_INTEGER as real) <= x <= MAX_SAFE_INTEGER as real
  }

  // The exact number a value stands for.
  ghost function NumberOf(rat: Rat, v: Value): Option<real> {
    match v
    case Integer(n) => Some(n as real)
    case Float(x) => Some(x)
    case Number(text) => if JsonNumber.IsNumber(text) then rat(text) else None
    case _ => None
  }

  /** The values section 6.1 of the design allows. */
  ghost predicate Allowed(rat: Rat, v: Value) {
    v.Null? || v.Str? || v.Boolean? || (NumberOf(rat, v).Some? && SafeNumber(NumberOf(rat, v).value))
  }

  // `b` stands for `v`, losing nothing but the rounding of a fraction to a double.
  ghost predicate Represents(rat: Rat, v: Value, b: Bound) {
    match v
    case Null => b == BoundNull
    case Str(s) => b == Varchar(s)
    case Boolean(x) => b == BoundBool(x)
    case Composite => false
    case NonFinite => false
    case _ =>
      NumberOf(rat, v).Some? &&
      match b
      case BigInt(n) => n as real == NumberOf(rat, v).value && -MAX_SAFE_INTEGER <= n <= MAX_SAFE_INTEGER
      case Double(x) => x == NumberOf(rat, v).value && !Integral(x)
      case _ => false
  }

  method ValidateNumber(x: real) returns (ok: bool)
    ensures ok <==> SafeNumber(x)
  {
    if x != x.Floor as real {
      return true;
    }
    var magnitude := if x < 0.0 then -x else x;
    return !(magnitude > MAX_SAFE_INTEGER as real);
  }

  method ValidateJSONNumber(rat: Rat, text: string) returns (ok: bool)
    ensures ok <==> Allowed(rat, Number(text))
  {
    var literal := JsonNumber.IsJSONNumberLiteral(text);
    if !literal {
      return false;
    }
    if rat(text).None? {
      return false;
    }
    ok := ValidateNumber(rat(text).value);
  }

  method ValidateParamValue(rat: Rat, v: Value) returns (ok: bool)
    ensures ok <==> Allowed(rat, v)
  {
    match v {
      case Null => return true;
      case Str(_) => return true;
      case Boolean(_) => return true;
      case Integer(n) => ok := ValidateNumber(n as real);
      case Float(x) => ok := ValidateNumber(x);
      case NonFinite => return false;
      case Number(text) => ok := ValidateJSONNumber(rat, text);
      case Composite => return false;
    }
  }

  method BindRat(x: real) returns (r: Option<Bound>)
    ensures r.None? <==> !SafeNumber(x)
    ensures r.Some? ==>
      if Integral(x) then r.value == BigInt(x.Floor) && -MAX_SAFE_INTEGER <= x.Floor <= MAX_SAFE_INTEGER
      else r.value == Double(x)
  {
    var ok := ValidateNumber(x);
    if !ok {
      return None;
    }
    if x == x.Floor as real {
      return Some(BigInt(x.Floor));
    }
    return Some(Double(x));
  }

  /** Binding one value succeeds exactly on the allowed values, and represents them. */
  method BindValue(rat: Rat, v: Value) returns (r: Option<Bound>)
    ensures r.Some? <==> Allowed(rat, v)
    ensures r.Some? ==> Represents(rat, v, r.value)
  {
    match v {
      case Null => return Some(BoundNull);
      case Str(s) => return Some(Varchar(s));
      case Boolean(b) => return Some(BoundBool(b));
      case Integer(n) => r := BindRat(n as real);
      case Float(x) => r := BindRat(x);
      case NonFinite => return None;
      case Number(text) =>
        var ok := ValidateJSONNumber(rat, text);
        if !ok {
          return None;
        }
        r := BindRat(rat(text).value);
      case Composite => return None;
    }
  }

  /** A value has at most one representation. */
  lemma RepresentationIsUnique(rat: Rat, v: Value, a: Bound, b: Bound)
    requires Represents(rat, v, a) && Represents(rat, v, b)
    ensures a == b
  {
    if a.BigInt? && b.BigInt? {
      assert a.n as real == b.n as real;
      assert (a.n as real).Floor == a.n;
    } else if a.BigInt? && b.Double? {
      IntegersAreIntegral(a.n);
    } else if b.BigInt? && a.Double? {
      IntegersAreIntegral(b.n);
    }
  }

  ghost function Representation(rat: Rat, v: Value): Bound
    requires Allowed(rat, v)
  {
    if v.Null? then BoundNull
    else if v.Str? then Varchar(v.s)
    else if v.Boolean? then BoundBool(v.b)
    else
      var x := NumberOf(rat, v).value;
      if Integral(x) then BigInt(x.Floor) else Double(x)
  }

  /** The allowed values are exactly those that can be represented. */
  lemma AllowedIffRepresentable(rat: Rat, v: Value)
    ensures Allowed(rat, v) <==> exists b :: Represents(rat, v, b)
  {
    if Allowed(rat, v) {
      assert Represents(rat, v, Representation(rat, v));
    }
    if b :| Represents(rat, v, b) && b.BigInt? {
      IntegersAreIntegral(b.n);
    }
  }

  lemma IntegersAreIntegral(n: int)
    ensures Integral(n as real)
  {
  }

  // ------------------------------------------------------------- distinct names

  function SpanNames(spans: seq<Span>): (names: seq<string>)
    ensures |names| == |spans|
    ensures forall i :: 0 <= i < |spans| ==> names[i] == spans[i].name
  {
    if spans == [] then [] else [spans[0].name] + SpanNames(spans[1..])
  }

  lemma {:induction false} SpanNamesAre(xs: seq<Lexeme>, offset: nat)
    ensures SpanNames(SpansOf(xs, offset)) == Names(xs)
  {
    hide Render;
    if xs != [] {
      var next := offset + |Render(xs[0], "")|;
      SpanNamesAre(xs[1..], next);
      var head := if xs[0].Placeholder? then [Span(offset + 1, xs[0].name)] else [];
      assert SpansOf(xs, offset) == head + SpansOf(xs[1..], next);
      if xs[0].Placeholder? {
        assert SpansOf(xs, offset)[1..] == SpansOf(xs[1..], next);
      } else {
        assert head + SpansOf(xs[1..], next) == SpansOf(xs[1..], next);
      }
    }
  }

  // Where a name is first seen.
  function FirstIndex(names: seq<string>, name: string): (k: nat)
    requires name in names
    ensures k < |names| && names[k] == name && name !in names[..k]
  {
    if names[0] == name then 0 else 1 + FirstIndex(names[1..], name)
  }

  // Each name once, in the order of first appearance.
  ghost predicate DistinctInOrder(names: seq<string>, distinct: seq<string>) {
    && (forall name :: name in distinct <==> name in names)
    && (forall i, j :: 0 <= i < j < |distinct| ==> FirstIndex(names, distinct[i]) < FirstIndex(names, distinct[j]))
  }

  lemma FirstIndexUnique(names: seq<string>, k: nat)
    requires k < |names| && names[k] !in names[..k]
    ensures FirstIndex(names, names[k]) == k
  {
    var f := FirstIndex(names, names[k]);
    assert forall j :: 0 <= j < k ==> names[..k][j] == names[j];
    assert forall j :: 0 <= j < f ==> names[..f][j] == names[j];
  }

  lemma FirstIndexExtends(names: seq<string>, more: string, name: string)
    requires name in names
    ensures FirstIndex(names + [more], name) == FirstIndex(names, name)
  {
    var k := FirstIndex(names, name);
    assert (names + [more])[..k] == names[..k];
    FirstIndexUnique(names + [more], k);
  }

  lemma DistinctSnoc(names: seq<string>, distinct: seq<string>, name: string)
    requires DistinctInOrder(names, distinct)
    ensures DistinctInOrder(names + [name], if name in distinct then distinct else distinct + [name])
  {
    hide FirstIndex;
    var all, d := names + [name], if name in distinct then distinct else distinct + [name];
    assert all[|names|] == name;
    forall i, j | 0 <= i < j < |d|
      ensures d[i] in all && d[j] in all && FirstIndex(all, d[i]) < FirstIndex(all, d[j])
    {
      assert d[i] in distinct;
      FirstIndexExtends(names, name, d[i]);
      if j < |distinct| {
        assert d[j] in distinct;
        FirstIndexExtends(names, name, d[j]);
      } else {
        assert all[..|names|] == names;
        FirstIndexUnique(all, |names|);
      }
    }
  }

  // ------------------------------------------------------------------ validation

  // The placeholder names of the text, in order.
  function Placeholders(sql: string): seq<string> {
    Names(ReadAll(sql))
  }

  predicate ShortNames(names: seq<string>) {
    forall name :: name in names ==> |name| <= MAX_NAME_LEN
  }

  ghost predicate Acceptable(rat: Rat, sql: string, params: map<string, Value>) {
    && ShortNames(Placeholders(sql))
    && (forall name :: name in Placeholders(sql) <==> name in params)
    && (forall name :: name in params ==> Allowed(rat, params[name]))
  }

  // Why the parameters are refused: the first rule broken, in this order.
  ghost predicate Refuses(rat: Rat, sql: string, params: map<string, Value>, e: Error) {
    var names := Placeholders(sql);
    match e
    case NameTooLong(name) => name in names && |name| > MAX_NAME_LEN
    case Missing(name) =>
      && ShortNames(names)
      && name in names && name !in params
    case Unreferenced(name) =>
      && ShortNames(names) && (forall n :: n in names ==> n in params)
      && name in params && name !in names
    case InvalidValue(name) =>
      && ShortNames(names)
      && (forall n :: n in names <==> n in params)
      && name in params && !Allowed(rat, params[name])
  }

  lemma ShortSnoc(names: seq<string>, i: nat)
    requires i < |names|
    ensures ShortNames(names[..i + 1]) <==> ShortNames(names[..i]) && |names[i]| <= MAX_NAME_LEN
    ensures |names[i]| > MAX_NAME_LEN ==> !ShortNames(names)
  {
    assert names[..i + 1] == names[..i] + [names[i]];
    assert names[i] in names[..i + 1] && names[i] in names;
    assert forall name :: name in names[..i] ==> name in names[..i + 1];
  }

  method DistinctNames(spans: seq<Span>) returns (r: Result<seq<string>>)
    ensures r.Ok? ==> DistinctInOrder(SpanNames(spans), r.value)
    ensures r.Ok? <==> ShortNames(SpanNames(spans))
    ensures r.Err? ==> exists name :: r.error == NameTooLong(name) && name in SpanNames(spans) && |name| > MAX_NAME_LEN
  {
    hide DistinctInOrder, ShortNames, SpanNames;
    ghost var names := SpanNames(spans);
    var seen: set<string>, ordered: seq<string> := {}, [];
    var i := 0;
    NothingIsDistinct();
    assert names[..0] == [];
    while i < |spans|
      invariant 0 <= i <= |spans|
      invariant ShortNames(names[..i])
      invariant forall name :: name in seen <==> name in ordered
      invariant DistinctInOrder(names[..i], ordered)
    {
      ShortSnoc(names, i);
      var name := spans[i].name;
      if |name| > MAX_NAME_LEN {
        assert names[i] in names;
        return Err(NameTooLong(name));
      }
      DistinctSnoc(names[..i], ordered, name);
      assert names[..i] + [name] == names[..i + 1];
      if name !in seen {
        ordered := ordered + [name];
        seen := seen + {name};
      }
      i := i + 1;
    }
    assert names[..|spans|] == names;
    r := Ok(ordered);
  }

  method FindPlaceholders(sql: string) returns (spans: seq<Span>)
    ensures SpanNames(spans) == Placeholders(sql)
  {
    hide ReadAll, Names, SpansOf;
    spans := PlaceholderSpans(sql);
    SpanNamesAre(ReadAll(sql), 0);
  }

  lemma SameNames(names: seq<string>, distinct: seq<string>)
    requires DistinctInOrder(names, distinct)
    ensures forall name :: name in distinct <==> name in names
  {
  }

  lemma NothingIsDistinct()
    ensures DistinctInOrder([], []) && ShortNames([])
  {
  }

  method FindMissing(names: seq<string>, params: map<string, Value>) returns (e: Option<Error>)
    ensures e.None? ==> forall name :: name in names ==> name in params
    ensures e.Some? ==> exists name :: e == Some(Missing(name)) && name in names && name !in params
  {
    for i := 0 to |names|
      invariant forall k :: 0 <= k < i ==> names[k] in params
    {
      if names[i] !in params {
        return Some(Missing(names[i]));
      }
    }
    e := None;
  }

  // The keys are visited in no particular order.
  method FindUnreferenced(names: seq<string>, params: map<string, Value>) returns (e: Option<Error>)
    ensures e.None? ==> forall name :: name in params ==> name in names
    ensures e.Some? ==> exists name :: e == Some(Unreferenced(name)) && name in params && name !in names
  {
    var todo := params.Keys;
    while todo != {}
      invariant todo <= params.Keys
      invariant forall name :: name in params && name !in todo ==> name in names
    {
      var key :| key in todo;
      if key !in names {
        return Some(Unreferenced(key));
      }
      todo := todo - {key};
    }
    e := None;
  }

  method FindInvalid(rat: Rat, names: seq<string>, params: map<string, Value>) returns (e: Option<Error>)
    requires forall name :: name in names ==> name in params
    ensures e.None? ==> forall name :: name in names ==> Allowed(rat, params[name])
    ensures e.Some? ==> exists name :: e == Some(InvalidValue(name)) && name in names && !Allowed(rat, params[name])
  {
    hide Allowed;
    for i := 0 to |names|
      invariant forall k :: 0 <= k < i ==> Allowed(rat, params[names[k]])
    {
      var ok := ValidateParamValue(rat, params[names[i]]);
      if !ok {
        return Some(InvalidValue(names[i]));
      }
    }
    e := None;
  }

  /** Accepts exactly when placeholders and keys are the same set, every name is short enough
      and every value is allowed; returns each name once, in order of first appearance. */
  method ValidateParams(rat: Rat, sql: string, params: map<string, Value>) returns (r: Result<seq<string>>)
    ensures r.Ok? <==> Acceptable(rat, sql, params)
    ensures r.Ok? ==> DistinctInOrder(Placeholders(sql), r.value)
    ensures r.Err? ==> Refuses(rat, sql, params, r.error)
  {
    hide Placeholders, SpansOf, Allowed, DistinctInOrder, ShortNames;
    var spans := FindPlaceholders(sql);
    r := DistinctNames(spans);
    if r.Err? {
      return;
    }
    var ordered := r.value;
    SameNames(Placeholders(sql), ordered);
    var e := FindMissing(ordered, params);
    if e.Some? {
      return Err(e.value);
    }
    e := FindUnreferenced(ordered, params);
    if e.Some? {
      return Err(e.value);
    }
    e := FindInvalid(rat, ordered, params);
    if e.Some? {
      return Err(e.value);
    }
  }

  // --------------------------------------------------------------------- binding

  method KeysOf(params: map<string, Value>) returns (names: seq<string>)
    ensures forall name :: name in names <==> name in params
    ensures |names| == |params|
    ensures multiset(names) == multiset(params.Keys)
  {
    names := [];
    var todo := params.Keys;
    while todo != {}
      invariant todo <= params.Keys
      invariant multiset(names) + multiset(todo) == multiset(params.Keys)
    {
      var key :| key in todo;
      assert multiset(todo) == multiset(todo - {key}) + multiset{key};
      names := names + [key];
      todo := todo - {key};
    }
    assert multiset(names) == multiset(params.Keys);
    assert |multiset(names)| == |names|;
    forall name
      ensures name in names <==> name in params
    {
      assert name in names <==> name in multiset(names);
    }
  }

  // The arguments for the first `n` names.
  ghost predicate Binds(rat: Rat, params: map<string, Value>, names: seq<string>, args: seq<Named>) {
    && |args| == |names|
    && forall i :: 0 <= i < |names| ==>
      args[i].name == names[i] && names[i] in params && Represents(rat, params[names[i]], args[i].value)
  }

  /** One argument for each key, in sorted order, each representing its parameter; it fails
      exactly when some value is not allowed. */
  method BindArgs(rat: Rat, params: map<string, Value>) returns (r: Result<seq<Named>>)
    ensures r.Ok? <==> forall name :: name in params ==> Allowed(rat, params[name])
    ensures r.Ok? ==> exists names :: Sorted(names) && multiset(names) == multiset(params.Keys) && Binds(rat, params, names, r.value)
    ensures r.Err? ==> exists name :: r.error == InvalidValue(name) && name in params && !Allowed(rat, params[name])
  {
    hide Allowed, Represents, Sort, Sorted, LexLe;
    if |params| == 0 {
      assert params.Keys == {};
      assert Sorted([]) by { NothingIsSorted(); }
      assert Binds(rat, params, [], []);
      return Ok([]);
    }
    var keys := KeysOf(params);
    var names := Sort(keys);
    SortSorts(keys);
    SameElements(names, keys);
    var args: seq<Named> := [];
    var i := 0;
    while i < |names|
      invariant 0 <= i <= |names|
      invariant Binds(rat, params, names[..i], args)
      invariant forall k :: 0 <= k < i ==> names[k] in params && Allowed(rat, params[names[k]])
    {
      assert names[i] in names;
      var v := BindValue(rat, params[names[i]]);
      if v.None? {
        return Err(InvalidValue(names[i]));
      }
      args := args + [Named(names[i], v.value)];
      i := i + 1;
    }
    assert names[..|names|] == names;
    r := Ok(args);
  }

  lemma NothingIsSorted()
    ensures Sorted([])
  {
  }

  lemma SameElements(a: seq<string>, b: seq<string>)
    requires multiset(a) == multiset(b)
    ensures forall x :: x in a <==> x in b
  {
    forall x
      ensures x in a <==> x in b
    {
      assert x in a <==> x in multiset(a);
      assert x in b <==> x in multiset(b);
    }
  }

  /** What validation accepts, binding carries out: one argument for each placeholder, names
      short enough, and integral numbers bound to their exact value. */
  method ValidateThenBind(rat: Rat, sql: string, params: map<string, Value>) returns (r: Result<seq<Named>>)
    ensures r.Ok? <==> Acceptable(rat, sql, params)
    ensures r.Ok? ==> |r.value| == |params|
    ensures r.Ok? ==> forall name ::
      name in Placeholders(sql) <==> exists i :: 0 <= i < |r.value| && r.value[i].name == name
    ensures r.Ok? ==> forall i :: 0 <= i < |r.value| ==>
      && |r.value[i].name| <= MAX_NAME_LEN
      && r.value[i].name in params
      && Represents(rat, params[r.value[i].name], r.value[i].value)
  {
    hide Allowed, Represents, Placeholders, Sorted, Refuses, DistinctInOrder;
    var names := ValidateParams(rat, sql, params);
    if names.Err? {
      return Err(names.error);
    }
    r := BindArgs(rat, params);
    BoundNames(rat, params, r.value);
  }

  lemma BoundNames(rat: Rat, params: map<string, Value>, args: seq<Named>)
    requires exists names :: Sorted(names) && multiset(names) == multiset(params.Keys) && Binds(rat, params, names, args)
    ensures |args| == |params|
    ensures forall name :: name in params <==> exists i :: 0 <= i < |args| && args[i].name == name
    ensures forall i :: 0 <= i < |args| ==>
      args[i].name in params && Represents(rat, params[args[i].name], args[i].value)
  {
    hide Represents, Sorted;
    var names :| Sorted(names) && multiset(names) == multiset(params.Keys) && Binds(rat, params, names, args);
    assert |multiset(names)| == |names|;
    forall name
      ensures name in params <==> exists i :: 0 <= i < |args| && args[i].name == name
    {
      assert name in params <==> name in multiset(names);
      if name in params {
        var i :| 0 <= i < |names| && names[i] == name;
        assert args[i].name == name;
      }
    }
  }
}
