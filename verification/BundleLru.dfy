/** The byte-bounded bundle cache and the bundle fetch in front of it (pkg/appworker/apiclient.go). */
module BundleLru {
  import opened Options

  newtype byte = x: int | 0 <= x < 256

  // -------------------------------------------------------- a recency-ordered map, as a value

  // Most recently used first.
  datatype Stored = Stored(hash: string, data: seq<byte>)

  function Bytes(c: seq<Stored>): nat {
    if c == [] then 0 else Bytes(c[..|c| - 1]) + |c[|c| - 1].data|
  }

  predicate Distinct(c: seq<Stored>) {
    forall i, j :: 0 <= i < j < |c| ==> c[i].hash != c[j].hash
  }

  predicate Has(c: seq<Stored>, hash: string) {
    exists i :: 0 <= i < |c| && c[i].hash == hash
  }

  function IndexOf(c: seq<Stored>, hash: string): (k: nat)
    requires Has(c, hash)
    ensures k < |c| && c[k].hash == hash
  {
    if c[0].hash == hash then 0
    else
      assert Has(c[1..], hash) by {
        var i :| 0 <= i < |c| && c[i].hash == hash;
        assert c[1..][i - 1].hash == hash;
      }
      1 + IndexOf(c[1..], hash)
  }

  function Lookup(c: seq<Stored>, hash: string): Option<seq<byte>> {
    if Has(c, hash) then Some(c[IndexOf(c, hash)].data) else None
  }

  function ToFront<T>(s: seq<T>, k: nat): seq<T>
    requires k < |s|
  {
    [s[k]] + (s[..k] + s[k + 1..])
  }

  // Where an element of the reordered list comes from.
  function Origin(k: nat, i: nat): nat {
    if i == 0 then k else if i <= k then i - 1 else i
  }

  lemma ToFrontAt<T>(s: seq<T>, k: nat)
    requires k < |s|
    ensures |ToFront(s, k)| == |s|
    ensures forall i :: 0 <= i < |s| ==> ToFront(s, k)[i] == s[Origin(k, i)]
  {
  }

  function Touch(c: seq<Stored>, hash: string): seq<Stored> {
    if Has(c, hash) then ToFront(c, IndexOf(c, hash)) else c
  }

  // What is left when the least recently used go until the rest fits.
  function Fit(c: seq<Stored>, budget: int): seq<Stored> {
    if c == [] || Bytes(c) <= budget then c else Fit(c[..|c| - 1], budget)
  }

  function Insert(c: seq<Stored>, hash: string, data: seq<byte>, maxBytes: int): seq<Stored> {
    if Has(c, hash) then Touch(c, hash)
    else if |data| > maxBytes then c
    else [Stored(hash, data)] + Fit(c, maxBytes - |data|)
  }

  lemma {:induction false} BytesConcat(a: seq<Stored>, b: seq<Stored>)
    ensures Bytes(a + b) == Bytes(a) + Bytes(b)
  {
    if b == [] {
      assert a + b == a;
    } else {
      assert (a + b)[..|a + b| - 1] == a + b[..|b| - 1];
      BytesConcat(a, b[..|b| - 1]);
    }
  }

  lemma ToFrontBytes(c: seq<Stored>, k: nat)
    requires k < |c|
    ensures Bytes(ToFront(c, k)) == Bytes(c)
  {
    hide Bytes;
    var x, a, b := [c[k]], c[..k], c[k + 1..];
    assert x + b == c[k..];
    assert c == a + c[k..];
    BytesConcat(a, x + b);
    BytesConcat(x, b);
    BytesConcat(x, a + b);
    BytesConcat(a, b);
  }

  lemma ToFrontDistinct(c: seq<Stored>, k: nat)
    requires k < |c| && Distinct(c)
    ensures Distinct(ToFront(c, k))
  {
    hide ToFront;
    ToFrontAt(c, k);
  }

  /** What survives is the longest most-recent part that fits. */
  lemma {:induction false} FitIsLongest(c: seq<Stored>, budget: int)
    ensures var f := Fit(c, budget);
      && |f| <= |c| && f == c[..|f|]
      && (budget >= 0 ==> Bytes(f) <= budget)
      && forall k :: 0 <= k <= |c| && Bytes(c[..k]) <= budget ==> k <= |f|
  {
    if c != [] && Bytes(c) > budget {
      var front := c[..|c| - 1];
      FitIsLongest(front, budget);
      assert Fit(c, budget) == Fit(front, budget);
      assert c[..|c|] == c;
      assert forall k :: 0 <= k < |c| ==> front[..k] == c[..k];
    } else {
      assert c[..|c|] == c;
    }
  }

  // The budget is kept, and no hash is stored twice.
  predicate Sound(c: seq<Stored>, maxBytes: int) {
    Distinct(c) && (c != [] ==> Bytes(c) <= maxBytes)
  }

  lemma TouchSound(c: seq<Stored>, hash: string, maxBytes: int)
    requires Sound(c, maxBytes)
    ensures Sound(Touch(c, hash), maxBytes)
  {
    hide ToFront, Bytes;
    if Has(c, hash) {
      ToFrontBytes(c, IndexOf(c, hash));
      ToFrontDistinct(c, IndexOf(c, hash));
    }
  }

  lemma InsertSound(c: seq<Stored>, hash: string, data: seq<byte>, maxBytes: int)
    requires Sound(c, maxBytes)
    ensures Sound(Insert(c, hash, data, maxBytes), maxBytes)
  {
    hide Touch, ToFront, Fit;
    TouchSound(c, hash, maxBytes);
    if !Has(c, hash) && |data| <= maxBytes {
      var f := Fit(c, maxBytes - |data|);
      FitIsLongest(c, maxBytes - |data|);
      assert forall i :: 0 <= i < |f| ==> f[i] == c[i];
      BytesConcat([Stored(hash, data)], f);
      assert Bytes([Stored(hash, data)]) == |data|;
    }
  }

  // ----------------------------------------------------------------------- the cache

  datatype Entry = Entry(hash: string, data: array<byte>)

  // The list and the map hold the same entries, under their hashes, once each.
  predicate Linked(order: seq<Entry>, items: map<string, Entry>) {
    && (forall i, j :: 0 <= i < j < |order| ==> order[i].hash != order[j].hash)
    && (forall i :: 0 <= i < |order| ==> order[i].hash in items && items[order[i].hash] == order[i])
    && (forall h :: h in items ==> items[h] in order && items[h].hash == h)
  }

  lemma LinkedToFront(order: seq<Entry>, items: map<string, Entry>, k: nat)
    requires Linked(order, items) && k < |order|
    ensures Linked(ToFront(order, k), items)
  {
    hide ToFront;
    ToFrontAt(order, k);
    var t := ToFront(order, k);
    forall h | h in items
      ensures items[h] in t
    {
      var i :| 0 <= i < |order| && order[i] == items[h];
      assert t[if i == k then 0 else if i < k then i + 1 else i] == items[h];
    }
  }

  lemma LinkedWithoutLast(order: seq<Entry>, items: map<string, Entry>)
    requires Linked(order, items) && order != []
    ensures Linked(order[..|order| - 1], items - {order[|order| - 1].hash})
  {
    var last := order[|order| - 1];
    var rest := order[..|order| - 1];
    forall h | h in items && h != last.hash
      ensures items[h] in rest
    {
      var i :| 0 <= i < |order| && order[i] == items[h];
      assert rest[i] == items[h];
    }
  }

  lemma LinkedWithFirst(order: seq<Entry>, items: map<string, Entry>, e: Entry)
    requires Linked(order, items) && e.hash !in items
    ensures Linked([e] + order, items[e.hash := e])
  {
    var more, all := items[e.hash := e], [e] + order;
    assert all[0] == e;
    forall h | h in more
      ensures more[h] in all && more[h].hash == h
    {
      if h != e.hash {
        assert items[h] in order;
      }
    }
  }

  class Lru {
    const maxBytes: int
    var curBytes: int
    var order: seq<Entry>
    var items: map<string, Entry>
    ghost var Contents: seq<Stored>
    ghost var Repr: set<array<byte>>

    // The buffers in the list are the cache's own and hold the contents.
    ghost predicate Mirrored()
      reads this, Repr
    {
      && |order| == |Contents|
      && (forall i :: 0 <= i < |order| ==> order[i].data in Repr && order[i].data[..] == Contents[i].data)
      && (forall i :: 0 <= i < |order| ==> order[i].hash == Contents[i].hash)
    }

    ghost predicate Valid()
      reads this, Repr
    {
      Mirrored() && Linked(order, items) && curBytes == Bytes(Contents) && Sound(Contents, maxBytes)
    }

    constructor (maxBytes: int)
      ensures Valid() && Contents == [] && Repr == {} && this.maxBytes == maxBytes
    {
      this.maxBytes := maxBytes;
      curBytes := 0;
      order := [];
      items := map[];
      Contents := [];
      Repr := {};
    }

    // Where an entry is.
    lemma ItemAt(hash: string)
      requires Valid()
      ensures hash in items <==> Has(Contents, hash)
      ensures hash in items ==>
        var k := IndexOf(Contents, hash);
        && order[k] == items[hash]
        && forall i :: 0 <= i < |order| && order[i] == items[hash] ==> i == k
    {
      hide IndexOf, Bytes, Sound;
      if hash in items {
        var i :| 0 <= i < |order| && order[i] == items[hash];
        assert Contents[i].hash == hash;
        var k := IndexOf(Contents, hash);
        assert order[k].hash == hash;
      }
      if Has(Contents, hash) {
        var i :| 0 <= i < |Contents| && Contents[i].hash == hash;
        assert order[i].hash in items;
      }
    }

    // `MoveToFront` of the element stored under `hash`.
    method MoveToFront(hash: string)
      requires Valid() && hash in items
      modifies this`order, this`Contents
      ensures Valid() && Repr == old(Repr)
      ensures Contents == Touch(old(Contents), hash)
    {
      hide ToFront, IndexOf, Bytes, Sound, Linked;
      ItemAt(hash);
      var el := items[hash];
      var k :| 0 <= k < |order| && order[k] == el;
      assert k == IndexOf(Contents, hash);
      TouchSound(Contents, hash, maxBytes);
      ToFrontBytes(Contents, k);
      LinkedToFront(order, items, k);
      ToFrontAt(order, k);
      ToFrontAt(Contents, k);
      order := ToFront(order, k);
      Contents := ToFront(Contents, k);
    }

    /** A fresh copy of what is stored, which becomes the most recent entry. */
    method Get(hash: string) returns (out: array?<byte>)
      requires Valid()
      modifies this`order, this`Contents
      ensures Valid() && Repr == old(Repr)
      ensures Contents == Touch(old(Contents), hash)
      ensures
        match Lookup(old(Contents), hash)
        case None => out == null
        case Some(data) => out != null && fresh(out) && out[..] == data
    {
      hide ToFront, IndexOf, Bytes, Sound, Linked;
      ItemAt(hash);
      if hash !in items {
        return null;
      }
      var stored := items[hash].data;
      MoveToFront(hash);
      var copied := Copy(stored);
      out := copied;
    }

    method EvictOldest()
      requires Valid() && order != []
      modifies this`order, this`items, this`curBytes, this`Contents
      ensures Valid() && Repr == old(Repr)
      ensures Contents == old(Contents)[..|old(Contents)| - 1]
    {
      hide Linked, Bytes, Distinct;
      var last := |order| - 1;
      var entry := order[last];
      WithoutLast(Contents, maxBytes);
      LinkedWithoutLast(order, items);
      order := order[..last];
      items := items - {entry.hash};
      curBytes := curBytes - entry.data.Length;
      Contents := Contents[..last];
    }

    // In front of everything else; the caller has made room.
    method PushFront(hash: string, owned: array<byte>)
      requires Valid() && hash !in items
      requires Bytes(Contents) + owned.Length <= maxBytes
      modifies this`order, this`items, this`curBytes, this`Contents, this`Repr
      ensures Valid() && Repr == old(Repr) + {owned}
      ensures Contents == [Stored(hash, owned[..])] + old(Contents)
    {
      hide Linked, Bytes, Sound;
      ItemAt(hash);
      WithFirst(Contents, Stored(hash, owned[..]), maxBytes);
      LinkedWithFirst(order, items, Entry(hash, owned));
      order := [Entry(hash, owned)] + order;
      items := items[hash := Entry(hash, owned)];
      curBytes := curBytes + owned.Length;
      Contents := [Stored(hash, owned[..])] + Contents;
      Repr := Repr + {owned};
    }

    /** Stores a fresh copy, making room by dropping the least recently used. */
    method Put(hash: string, data: array<byte>)
      requires Valid()
      modifies this
      ensures Valid() && fresh(Repr - old(Repr))
      ensures Contents == Insert(old(Contents), hash, data[..], maxBytes)
    {
      hide Linked, Bytes, Distinct, Has, Touch, Mirrored;
      ItemAt(hash);
      var size := data.Length;
      if hash in items {
        MoveToFront(hash);
        return;
      }
      if size > maxBytes {
        return;
      }
      while curBytes + size > maxBytes && Size() > 0
        invariant Valid() && Repr == old(Repr) && !Has(Contents, hash)
        invariant Fit(Contents, maxBytes - size) == Fit(old(Contents), maxBytes - size)
        decreases |Contents|
      {
        ghost var before := Contents;
        Occupied();
        EvictOldest();
        StillAbsent(before, hash);
      }
      ItemAt(hash);
      Emptied(Contents);
      var owned := Copy(data);
      PushFront(hash, owned);
    }

    lemma Occupied()
      requires Valid()
      ensures |order| == |Contents|
    {
    }

    function Size(): (n: nat)
      requires Valid()
      reads this, Repr
      ensures n == |Contents|
    {
      |order|
    }
  }

  lemma Emptied(c: seq<Stored>)
    ensures |c| == 0 ==> Bytes(c) == 0
  {
  }

  // Dropping an entry brings no hash back.
  lemma StillAbsent(c: seq<Stored>, hash: string)
    requires !Has(c, hash) && c != []
    ensures !Has(c[..|c| - 1], hash)
  {
  }

  lemma WithoutLast(c: seq<Stored>, maxBytes: int)
    requires c != [] && Sound(c, maxBytes)
    ensures Sound(c[..|c| - 1], maxBytes) && Bytes(c) == Bytes(c[..|c| - 1]) + |c[|c| - 1].data|
  {
  }

  lemma WithFirst(c: seq<Stored>, x: Stored, maxBytes: int)
    requires Sound(c, maxBytes) && !Has(c, x.hash) && Bytes(c) + |x.data| <= maxBytes
    ensures Sound([x] + c, maxBytes) && Bytes([x] + c) == Bytes(c) + |x.data|
  {
    BytesConcat([x], c);
    assert Bytes([x]) == |x.data|;
  }

  method Copy(a: array<byte>) returns (b: array<byte>)
    ensures fresh(b) && b[..] == a[..]
  {
    b := new byte[a.Length];
    for i := 0 to a.Length
      invariant b[..i] == a[..i]
    {
      b[i] := a[i];
    }
    assert a[..a.Length] == a[..] && b[..b.Length] == b[..];
  }

  /** Writing to a buffer handed to the cache, and to one it handed out, changes no later answer. */
  method ScribbleBetween(lru: Lru, hash: string, data: array<byte>, junk: byte) returns (later: array?<byte>)
    requires lru.Valid() && data !in lru.Repr
    modifies lru, data
    ensures lru.Valid()
    ensures
      match Lookup(Insert(old(lru.Contents), hash, old(data[..]), lru.maxBytes), hash)
      case None => later == null
      case Some(bytes) => later != null && later[..] == bytes
  {
    lru.Put(hash, data);
    ghost var stored := lru.Contents;
    Fill(data, junk);
    var first := lru.Get(hash);
    if first != null {
      Fill(first, junk);
    }
    TouchedLookup(stored, hash);
    later := lru.Get(hash);
  }

  method Fill(a: array<byte>, junk: byte)
    modifies a
    ensures forall i :: 0 <= i < a.Length ==> a[i] == junk
  {
    for i := 0 to a.Length
      invariant forall k :: 0 <= k < i ==> a[k] == junk
    {
      a[i] := junk;
    }
  }

  lemma TouchedLookup(c: seq<Stored>, hash: string)
    ensures Lookup(Touch(c, hash), hash) == Lookup(c, hash)
  {
    if Has(c, hash) {
      var t := Touch(c, hash);
      assert t[0].hash == hash;
      assert Has(t, hash);
    } else {
      assert Touch(c, hash) == c;
    }
  }

  // --------------------------------------------------------- what one operation changes

  lemma LookupIs(c: seq<Stored>, i: nat)
    requires Distinct(c) && i < |c|
    ensures Lookup(c, c[i].hash) == Some(c[i].data)
  {
    assert Has(c, c[i].hash);
    var k := IndexOf(c, c[i].hash);
  }

  lemma BytesOfPrefix(c: seq<Stored>, j: nat, k: nat)
    requires j <= k <= |c|
    ensures Bytes(c[..j]) <= Bytes(c[..k])
  {
    assert c[..k] == c[..j] + c[j..k];
    BytesConcat(c[..j], c[j..k]);
  }

  /** A lookup answers as before for every hash, and puts the one it found in front. */
  lemma GetOnlyReorders(c: seq<Stored>, hash: string, other: string)
    requires Distinct(c)
    ensures Lookup(Touch(c, hash), other) == Lookup(c, other)
    ensures Has(c, hash) ==> Touch(c, hash)[0].hash == hash
  {
    if Has(c, hash) {
      hide ToFront, Distinct;
      var k := IndexOf(c, hash);
      var t := ToFront(c, k);
      ToFrontAt(c, k);
      ToFrontDistinct(c, k);
      if Has(c, other) {
        var i :| 0 <= i < |c| && c[i].hash == other;
        var j := if i == k then 0 else if i < k then i + 1 else i;
        assert t[j] == c[i];
        LookupIs(c, i);
        LookupIs(t, j);
      } else {
        assert forall j :: 0 <= j < |t| ==> t[j].hash != other;
      }
    }
  }

  /** A bundle put is found again, in front of the longest most-recent part that fits beside it, and
      of nothing else; a known one only moves to the front; one above the whole budget changes
      nothing. */
  lemma PutKeepsLongest(c: seq<Stored>, hash: string, data: seq<byte>, maxBytes: int, k: nat)
    requires Distinct(c) && k <= |c|
    ensures var r := Insert(c, hash, data, maxBytes);
      if Has(c, hash) then r == Touch(c, hash)
      else if |data| > maxBytes then r == c
      else
        && |r| > 0 && r[0] == Stored(hash, data) && |r| - 1 <= |c| && r[1..] == c[..|r| - 1]
        && (k <= |r| - 1 <==> |data| + Bytes(c[..k]) <= maxBytes)
        && Lookup(r, hash) == Some(data)
  {
    if !Has(c, hash) && |data| <= maxBytes {
      hide Fit, Touch;
      var budget := maxBytes - |data|;
      var f := Fit(c, budget);
      FitIsLongest(c, budget);
      if k <= |f| {
        BytesOfPrefix(c, k, |f|);
      }
      var r := Insert(c, hash, data, maxBytes);
      assert r == [Stored(hash, data)] + f;
      assert r[0].hash == hash;
      assert Has(r, hash);
    }
  }

  // --------------------------------------------------------------- whole histories

  datatype Op = Get(hash: string) | Put(hash: string, data: seq<byte>)

  function Apply(c: seq<Stored>, op: Op, maxBytes: int): seq<Stored> {
    match op
    case Get(hash) => Touch(c, hash)
    case Put(hash, data) => Insert(c, hash, data, maxBytes)
  }

  function After(ops: seq<Op>, maxBytes: int): seq<Stored> {
    if ops == [] then [] else Apply(After(ops[..|ops| - 1], maxBytes), ops[|ops| - 1], maxBytes)
  }

  // When a hash was last asked for or offered; -1 if never.
  function LastUse(ops: seq<Op>, hash: string): (k: int)
    ensures -1 <= k < |ops|
    ensures k >= 0 ==> ops[k].hash == hash
    ensures forall i :: k < i < |ops| ==> ops[i].hash != hash
  {
    if ops == [] then -1
    else if ops[|ops| - 1].hash == hash then |ops| - 1
    else LastUse(ops[..|ops| - 1], hash)
  }

  ghost predicate ByRecency(ops: seq<Op>, c: seq<Stored>) {
    forall i, j :: 0 <= i < j < |c| ==> LastUse(ops, c[i].hash) > LastUse(ops, c[j].hash)
  }

  // Everything stored was offered under its hash.
  ghost predicate Offered(ops: seq<Op>, c: seq<Stored>) {
    forall i :: 0 <= i < |c| ==> Put(c[i].hash, c[i].data) in ops
  }

  // Entries other than the one just used keep their order.
  lemma LastUseSnoc(ops: seq<Op>, op: Op, hash: string)
    ensures LastUse(ops + [op], hash) == if op.hash == hash then |ops| else LastUse(ops, hash)
  {
    assert (ops + [op])[..|ops|] == ops;
  }

  lemma FrontIsMostRecent(ops: seq<Op>, op: Op, x: Stored, rest: seq<Stored>)
    requires op.hash == x.hash && ByRecency(ops, rest)
    requires forall i :: 0 <= i < |rest| ==> rest[i].hash != x.hash
    ensures ByRecency(ops + [op], [x] + rest)
  {
    hide LastUse;
    var c := [x] + rest;
    forall i, j | 0 <= i < j < |c|
      ensures LastUse(ops + [op], c[i].hash) > LastUse(ops + [op], c[j].hash)
    {
      assert c[j] == rest[j - 1] && (i > 0 ==> c[i] == rest[i - 1]);
      LastUseSnoc(ops, op, c[i].hash);
      LastUseSnoc(ops, op, c[j].hash);
    }
  }

  lemma UnusedKeepsOrder(ops: seq<Op>, op: Op, c: seq<Stored>)
    requires ByRecency(ops, c) && !Has(c, op.hash)
    ensures ByRecency(ops + [op], c)
  {
    hide LastUse;
    forall i, j | 0 <= i < j < |c|
      ensures LastUse(ops + [op], c[i].hash) > LastUse(ops + [op], c[j].hash)
    {
      LastUseSnoc(ops, op, c[i].hash);
      LastUseSnoc(ops, op, c[j].hash);
    }
  }

  lemma TouchByRecency(ops: seq<Op>, op: Op, c: seq<Stored>)
    requires Distinct(c) && ByRecency(ops, c) && Offered(ops, c)
    ensures ByRecency(ops + [op], Touch(c, op.hash)) && Offered(ops + [op], Touch(c, op.hash))
  {
    hide LastUse, IndexOf;
    if Has(c, op.hash) {
      WithoutIsByRecency(ops, c, IndexOf(c, op.hash));
      var k := IndexOf(c, op.hash);
      FrontIsMostRecent(ops, op, c[k], c[..k] + c[k + 1..]);
      TouchKeepsEntries(c, op.hash);
    } else {
      UnusedKeepsOrder(ops, op, c);
    }
  }

  lemma WithoutIsByRecency(ops: seq<Op>, c: seq<Stored>, k: nat)
    requires k < |c| && Distinct(c) && ByRecency(ops, c)
    ensures ByRecency(ops, c[..k] + c[k + 1..])
    ensures var rest := c[..k] + c[k + 1..]; forall i :: 0 <= i < |rest| ==> rest[i].hash != c[k].hash
  {
    hide LastUse;
    var rest := c[..k] + c[k + 1..];
    assert forall i :: 0 <= i < |rest| ==> rest[i] == c[if i < k then i else i + 1];
  }

  lemma InsertByRecency(ops: seq<Op>, op: Op, c: seq<Stored>, maxBytes: int)
    requires Distinct(c) && ByRecency(ops, c) && Offered(ops, c) && op.Put?
    ensures var d := Insert(c, op.hash, op.data, maxBytes); ByRecency(ops + [op], d) && Offered(ops + [op], d)
  {
    hide LastUse, ToFront;
    TouchByRecency(ops, op, c);
    if !Has(c, op.hash) && |op.data| <= maxBytes {
      var budget := maxBytes - |op.data|;
      var f := Fit(c, budget);
      FitIsLongest(c, budget);
      assert forall i :: 0 <= i < |f| ==> f[i] == c[i];
      FrontIsMostRecent(ops, op, Stored(op.hash, op.data), f);
    }
  }

  /** After any history the cache is sound, ordered by last use, and holds only what was offered. */
  lemma {:induction false} InEveryHistory(ops: seq<Op>, maxBytes: int)
    ensures Sound(After(ops, maxBytes), maxBytes)
    ensures ByRecency(ops, After(ops, maxBytes)) && Offered(ops, After(ops, maxBytes))
  {
    hide LastUse, Touch, Insert, Sound;
    if ops == [] {
      assert Sound([], maxBytes) by { EmptySound(maxBytes); }
    } else {
      var before, op := ops[..|ops| - 1], ops[|ops| - 1];
      InEveryHistory(before, maxBytes);
      var c := After(before, maxBytes);
      SoundIsDistinct(c, maxBytes);
      assert ops == before + [op];
      match op {
        case Get(hash) =>
          TouchSound(c, hash, maxBytes);
          TouchByRecency(before, op, c);
        case Put(hash, data) =>
          InsertSound(c, hash, data, maxBytes);
          InsertByRecency(before, op, c, maxBytes);
      }
    }
  }

  lemma EmptySound(maxBytes: int)
    ensures Sound([], maxBytes)
  {
  }

  lemma SoundIsDistinct(c: seq<Stored>, maxBytes: int)
    requires Sound(c, maxBytes)
    ensures Distinct(c)
  {
  }

  // ------------------------------------------------------------------ fetching a bundle

  // What the control plane answers: no connection, another status, or a body that may break off.
  datatype Response = Unreachable | Refused(status: int) | Body(bytes: seq<byte>, broken: bool)

  datatype Failure = FetchFailed | ApiError(status: int) | ReadFailed | TooLarge | HashMismatch

  datatype Fetched = Served(bytes: array<byte>) | Failed(why: Failure)

  class BundleClient {
    const maxBundleBytes: int
    const bundles: Lru

    // Everything stored has its key for hash and is within the structural cap.
    ghost predicate Verified(sha: seq<byte> -> string)
      reads this, bundles
    {
      forall i :: 0 <= i < |bundles.Contents| ==>
        sha(bundles.Contents[i].data) == bundles.Contents[i].hash && |bundles.Contents[i].data| <= maxBundleBytes
    }

    constructor (maxBundleBytes: int, cacheBytes: int, ghost sha: seq<byte> -> string)
      ensures bundles.Valid() && fresh(bundles) && bundles.Repr == {} && Verified(sha)
      ensures this.maxBundleBytes == maxBundleBytes && bundles.maxBytes == cacheBytes
    {
      this.maxBundleBytes := maxBundleBytes;
      bundles := new Lru(cacheBytes);
    }

    // The verified body of a response: at most one byte more than the cap is read.
    method Receive(hash: string, sha: seq<byte> -> string, response: Response) returns (r: Fetched)
      ensures r.Served? <==> Acceptable(hash, sha, response)
      ensures r.Served? ==> fresh(r.bytes) && r.bytes[..] == response.bytes
      ensures r.Failed? ==>
        match r.why
        case FetchFailed => response == Unreachable
        case ApiError(status) => response == Refused(status)
        case ReadFailed => response.Body? && response.broken
        case TooLarge => response.Body? && !response.broken && |response.bytes| > maxBundleBytes
        case HashMismatch => response.Body? && !response.broken && |response.bytes| <= maxBundleBytes && sha(response.bytes) != hash
    {
      match response {
        case Unreachable => return Failed(FetchFailed);
        case Refused(status) => return Failed(ApiError(status));
        case Body(bytes, broken) =>
          if broken {
            return Failed(ReadFailed);
          }
          var n := if maxBundleBytes < 0 then 0 else if |bytes| > maxBundleBytes then maxBundleBytes + 1 else |bytes|;
          if n > maxBundleBytes {
            return Failed(TooLarge);
          }
          var data := new byte[n](i requires 0 <= i < n => bytes[i]);
          assert data[..] == bytes;
          if sha(data[..]) != hash {
            return Failed(HashMismatch);
          }
          return Served(data);
      }
    }

    predicate Acceptable(hash: string, sha: seq<byte> -> string, response: Response) {
      response.Body? && !response.broken && |response.bytes| <= maxBundleBytes && sha(response.bytes) == hash
    }

    /** What is served has the requested hash and is within the cap, whatever the control plane
        answers; a miss is stored only after it was verified. */
    method Bundle(hash: string, sha: seq<byte> -> string, response: Response) returns (r: Fetched)
      requires bundles.Valid() && Verified(sha)
      modifies bundles
      ensures bundles.Valid() && Verified(sha) && fresh(bundles.Repr - old(bundles.Repr))
      ensures r.Served? <==> Has(old(bundles.Contents), hash) || Acceptable(hash, sha, response)
      ensures r.Served? ==> fresh(r.bytes) && sha(r.bytes[..]) == hash && r.bytes.Length <= maxBundleBytes
      ensures bundles.Contents ==
        if Has(old(bundles.Contents), hash) then Touch(old(bundles.Contents), hash)
        else if r.Served? then Insert(old(bundles.Contents), hash, r.bytes[..], bundles.maxBytes)
        else old(bundles.Contents)
    {
      hide Sound, Bytes, Insert, Touch, Lru.Mirrored, Linked;
      ghost var c := bundles.Contents;
      Hit(c, hash);
      var cached := bundles.Get(hash);
      if cached != null {
        return Served(cached);
      }
      r := Receive(hash, sha, response);
      if r.Served? {
        InsertKeepsEntries(c, hash, r.bytes[..], bundles.maxBytes);
        bundles.Put(hash, r.bytes);
      }
    }
  }

  lemma Hit(c: seq<Stored>, hash: string)
    ensures forall i :: 0 <= i < |Touch(c, hash)| ==> Touch(c, hash)[i] in c
    ensures !Has(c, hash) ==> Touch(c, hash) == c
    ensures Has(c, hash) ==> Stored(hash, c[IndexOf(c, hash)].data) in c
  {
    TouchKeepsEntries(c, hash);
  }

  lemma TouchKeepsEntries(c: seq<Stored>, hash: string)
    ensures forall i :: 0 <= i < |Touch(c, hash)| ==> Touch(c, hash)[i] in c
  {
  }

  lemma InsertKeepsEntries(c: seq<Stored>, hash: string, data: seq<byte>, maxBytes: int)
    ensures forall i :: 0 <= i < |Insert(c, hash, data, maxBytes)| ==>
      Insert(c, hash, data, maxBytes)[i] in c || Insert(c, hash, data, maxBytes)[i] == Stored(hash, data)
  {
    TouchKeepsEntries(c, hash);
    FitIsLongest(c, maxBytes - |data|);
  }
}
