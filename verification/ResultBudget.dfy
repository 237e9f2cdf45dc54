/** `buildResult` (components/queryengine/result.go): the row cap and the cap on the serialized
    size. A character stands for one byte of the serialized result. */
module ResultBudget {
  datatype Column = Column(name: string, typ: string)

  // What the driver yields for one row: its JSON text, or a failure to scan or to marshal it.
  datatype Row = Row(text: string) | Unscannable | Unmarshalable

  datatype Result = Result(columns: seq<Column>, rows: seq<Row>, truncated: bool, durationMs: nat)

  datatype Error = UnsupportedType(column: Column) | ResultTooLarge | ScanFailed | MeasureFailed | IterationFailed

  datatype Outcome = Ok(result: Result) | Err(error: Error)

  // -------------------------------------------------------------------- serialization

  function Digits(n: nat): string {
    if n < 10 then [Digit(n)] else Digits(n / 10) + [Digit(n % 10)]
  }

  function Digit(n: nat): char
    requires n < 10
  {
    '0' + n as char
  }

  function Joined(parts: seq<string>): string {
    if parts == [] then ""
    else if |parts| == 1 then parts[0]
    else parts[0] + ("," + Joined(parts[1..]))
  }

  // `quote` is the JSON encoding of a string.
  function ColumnText(quote: string -> string, c: Column): string {
    "{\"name\":" + quote(c.name) + ",\"type\":" + quote(c.typ) + "}"
  }

  function SchemaText(quote: string -> string, columns: seq<Column>): string {
    "[" + Joined(seq(|columns|, i requires 0 <= i < |columns| => ColumnText(quote, columns[i]))) + "]"
  }

  predicate Marshalable(rows: seq<Row>) {
    forall i :: 0 <= i < |rows| ==> rows[i].Row?
  }

  function Texts(rows: seq<Row>): seq<string>
    requires Marshalable(rows)
  {
    if rows == [] then [] else [rows[0].text] + Texts(rows[1..])
  }

  function Serialize(quote: string -> string, r: Result): string
    requires Marshalable(r.rows)
  {
    "{\"schema\":" + SchemaText(quote, r.columns)
    + ",\"rows\":[" + Joined(Texts(r.rows))
    + "],\"truncated\":" + (if r.truncated then "true" else "false")
    + ",\"stats\":{\"duration_ms\":" + Digits(r.durationMs) + "}}"
  }

  const DURATION_PLACEHOLDER: nat := 9_999_999_999_999

  // The size of the result with no rows, reserving the widest duration.
  function Envelope(quote: string -> string, columns: seq<Column>): nat {
    |Serialize(quote, Result(columns, [], false, DURATION_PLACEHOLDER))|
  }

  function Cost(rows: seq<Row>): nat
    requires Marshalable(rows)
  {
    if rows == [] then 0 else |rows[0].text| + 1 + Cost(rows[1..])
  }

  // ----------------------------------------------------------------------- collecting

  predicate Unsupported(c: Column) {
    c.typ == "VARIANT" || c.typ == "JSON"
  }

  // Which rows are kept and why collecting stops.
  datatype Stop = Exhausted | Left | Failed(error: Error)
  datatype Kept = Kept(count: nat, stop: Stop)

  // From row `i` on, with `used` bytes spent. Without `shortcut` every row is scanned and
  // measured before the byte budget is consulted.
  function Collect(rows: seq<Row>, i: nat, used: nat, maxRows: int, maxBytes: int, shortcut: bool): (k: Kept)
    requires i <= |rows|
    ensures i <= k.count <= |rows|
    decreases |rows| - i
  {
    if i == |rows| then Kept(i, Exhausted)
    else if 0 < maxRows <= i then Kept(i, Left)
    else if shortcut && 0 < maxBytes <= used then Kept(i, Left)
    else if rows[i].Unscannable? then Kept(i, Failed(ScanFailed))
    else if maxBytes <= 0 then Collect(rows, i + 1, used, maxRows, maxBytes, shortcut)
    else if rows[i].Unmarshalable? then Kept(i, Failed(MeasureFailed))
    else if used + |rows[i].text| + 1 > maxBytes then Kept(i, Left)
    else Collect(rows, i + 1, used + |rows[i].text| + 1, maxRows, maxBytes, shortcut)
  }

  function Built(columns: seq<Column>, rows: seq<Row>, iterErr: bool, kept: Kept): Outcome
    requires kept.count <= |rows|
  {
    if kept.stop.Failed? then Err(kept.stop.error)
    else if iterErr then Err(IterationFailed)
    else Ok(Result(columns, rows[..kept.count], kept.stop.Left?, 0))
  }

  function Build(quote: string -> string, columns: seq<Column>, rows: seq<Row>, iterErr: bool,
                 maxRows: int, maxBytes: int, shortcut: bool): Outcome
    requires forall i :: 0 <= i < |columns| ==> !Unsupported(columns[i])
  {
    var used := if maxBytes > 0 then Envelope(quote, columns) else 0;
    if 0 < maxBytes < used then Err(ResultTooLarge)
    else Built(columns, rows, iterErr, Collect(rows, 0, used, maxRows, maxBytes, shortcut))
  }

  /** `rows` are the rows `Next` yields, `iterErr` what `rows.Err()` says after the loop. */
  method BuildResult(quote: string -> string, columns: seq<Column>, rows: seq<Row>, iterErr: bool,
                     maxRows: int, maxBytes: int) returns (r: Outcome)
    ensures (exists i :: 0 <= i < |columns| && Unsupported(columns[i])) ==>
      exists i :: 0 <= i < |columns| && r == Err(UnsupportedType(columns[i])) && Unsupported(columns[i])
        && forall j :: 0 <= j < i ==> !Unsupported(columns[j])
    ensures (exists i :: 0 <= i < |columns| && columns[i].typ in {"VARIANT", "JSON"}) <==>
      r.Err? && r.error.UnsupportedType?
    ensures (forall i :: 0 <= i < |columns| ==> !Unsupported(columns[i])) ==>
      r == Build(quote, columns, rows, iterErr, maxRows, maxBytes, true)
  {
    hide Serialize, Digits;
    for i := 0 to |columns|
      invariant forall j :: 0 <= j < i ==> !Unsupported(columns[j])
    {
      if Unsupported(columns[i]) {
        return Err(UnsupportedType(columns[i]));
      }
    }
    var res := Result(columns, [], false, 0);
    var used: nat := 0;
    if maxBytes > 0 {
      used := |Serialize(quote, res.(durationMs := DURATION_PLACEHOLDER))|;
      if used > maxBytes {
        return Err(ResultTooLarge);
      }
    }
    ghost var kept := Collect(rows, 0, used, maxRows, maxBytes, true);
    var next := 0;
    while next < |rows|
      invariant 0 <= next <= |rows| && |res.rows| == next
      invariant res == Result(columns, rows[..next], false, 0)
      invariant Collect(rows, next, used, maxRows, maxBytes, true) == kept
    {
      if maxRows > 0 && |res.rows| >= maxRows {
        res := res.(truncated := true);
        break;
      }
      if maxBytes > 0 && used >= maxBytes {
        res := res.(truncated := true);
        break;
      }
      var dest := rows[next];
      if dest.Unscannable? {
        return Err(ScanFailed);
      }
      if maxBytes > 0 {
        if dest.Unmarshalable? {
          return Err(MeasureFailed);
        }
        var cost := |dest.text| + 1;
        if used + cost > maxBytes {
          res := res.(truncated := true);
          break;
        }
        used := used + cost;
      }
      res := res.(rows := res.rows + [dest]);
      next := next + 1;
    }
    if iterErr {
      return Err(IterationFailed);
    }
    r := Ok(res);
  }

  // ------------------------------------------------------------------ the size promise

  lemma {:induction false} JoinedLength(rows: seq<Row>)
    requires Marshalable(rows)
    ensures |Joined(Texts(rows))| == if rows == [] then 0 else Cost(rows) - 1
  {
    if |rows| == 1 {
      assert Texts(rows) == [rows[0].text];
    } else if rows != [] {
      JoinedLength(rows[1..]);
      assert Texts(rows)[1..] == Texts(rows[1..]);
      assert Texts(rows[1..]) != [];
    }
  }

  function Pow10(k: nat): (r: nat)
    ensures r > 0
  {
    if k == 0 then 1 else 10 * Pow10(k - 1)
  }

  // At most `k` digits exactly when below ten to the `k`.
  lemma {:induction false} DigitsLength(n: nat, k: nat)
    requires k > 0
    ensures |Digits(n)| <= k <==> n < Pow10(k)
    decreases n
  {
    if n >= 10 {
      if k == 1 {
        assert |Digits(n / 10)| > 0;
        assert Pow10(1) == 10 * Pow10(0);
      } else {
        DigitsLength(n / 10, k - 1);
      }
    } else {
      assert Pow10(k) == 10 * Pow10(k - 1);
    }
  }

  lemma PlaceholderLength()
    ensures |Digits(DURATION_PLACEHOLDER)| == 13 && Pow10(13) == 10_000_000_000_000
  {
    assert Pow10(4) == 10_000;
    assert Pow10(8) == 10_000 * Pow10(4);
    assert Pow10(12) == 10_000 * Pow10(8);
    assert Pow10(13) == 10 * Pow10(12);
    DigitsLength(DURATION_PLACEHOLDER, 13);
    DigitsLength(DURATION_PLACEHOLDER, 12);
  }

  lemma SerializedLength(quote: string -> string, r: Result)
    requires Marshalable(r.rows)
    ensures |Serialize(quote, r)| == 59 + |SchemaText(quote, r.columns)| + |Joined(Texts(r.rows))|
      + (if r.truncated then 4 else 5) + |Digits(r.durationMs)|
  {
  }

  /** What the final text weighs, against what was budgeted for it. */
  lemma SizeAgainstBudget(quote: string -> string, r: Result)
    requires Marshalable(r.rows)
    ensures |Serialize(quote, r)| ==
      Envelope(quote, r.columns) + Cost(r.rows) + |Digits(r.durationMs)| - 13
        - (if r.rows == [] then 0 else 1) - (if r.truncated then 1 else 0)
  {
    hide Serialize, Digits, SchemaText;
    SerializedLength(quote, r);
    SerializedLength(quote, Result(r.columns, [], false, DURATION_PLACEHOLDER));
    JoinedLength(r.rows);
    PlaceholderLength();
  }

  // ------------------------------------------------------------- what Collect decides

  // Row `i` could be scanned and, under a byte cap, measured.
  predicate Usable(row: Row, maxBytes: int) {
    !row.Unscannable? && (maxBytes > 0 ==> row.Row?)
  }

  predicate AllUsable(rows: seq<Row>, maxBytes: int) {
    forall i :: 0 <= i < |rows| ==> Usable(rows[i], maxBytes)
  }

  // The caps allow these rows, on top of `used` bytes.
  predicate Allowed(rows: seq<Row>, used: nat, maxRows: int, maxBytes: int)
    requires AllUsable(rows, maxBytes)
  {
    && (maxRows > 0 ==> |rows| <= maxRows)
    && (maxBytes > 0 ==> used + Cost(rows) <= maxBytes)
  }

  lemma {:induction false} CostSnoc(rows: seq<Row>, row: Row)
    requires Marshalable(rows) && row.Row?
    ensures Cost(rows + [row]) == Cost(rows) + |row.text| + 1
  {
    if rows == [] {
      assert rows + [row] == [row];
    } else {
      assert (rows + [row])[1..] == rows[1..] + [row];
      CostSnoc(rows[1..], row);
    }
  }

  lemma {:induction false} CostMonotone(rows: seq<Row>, k: nat)
    requires Marshalable(rows) && k <= |rows|
    ensures Cost(rows[..k]) <= Cost(rows)
    ensures k < |rows| ==> Cost(rows[..k]) < Cost(rows)
    decreases |rows|
  {
    if k == |rows| {
      assert rows[..k] == rows;
    } else {
      var front := rows[..|rows| - 1];
      assert rows == front + [rows[|rows| - 1]];
      CostSnoc(front, rows[|rows| - 1]);
      CostMonotone(front, k);
      assert front[..k] == rows[..k];
    }
  }

  // The bytes spent on the first `i` rows.
  function Spent(rows: seq<Row>, i: nat, env: nat, maxBytes: int): nat
    requires i <= |rows| && AllUsable(rows[..i], maxBytes)
  {
    if maxBytes > 0 then env + Cost(rows[..i]) else env
  }

  lemma SpentStep(rows: seq<Row>, i: nat, env: nat, maxBytes: int)
    requires i < |rows| && AllUsable(rows[..i], maxBytes) && Usable(rows[i], maxBytes)
    ensures AllUsable(rows[..i + 1], maxBytes)
    ensures Spent(rows, i + 1, env, maxBytes) ==
      Spent(rows, i, env, maxBytes) + (if maxBytes > 0 then |rows[i].text| + 1 else 0)
  {
    assert rows[..i + 1] == rows[..i] + [rows[i]];
    if maxBytes > 0 {
      CostSnoc(rows[..i], rows[i]);
    }
  }

  // Row `k` is the first one that cannot be kept.
  predicate Blocked(rows: seq<Row>, k: nat, env: nat, maxRows: int, maxBytes: int)
    requires k < |rows| && AllUsable(rows[..k], maxBytes)
  {
    || !Usable(rows[k], maxBytes)
    || 0 < maxRows <= k
    || (maxBytes > 0 && Spent(rows, k, env, maxBytes) + |rows[k].text| + 1 > maxBytes)
  }

  // Row `k` is refused without being looked at.
  predicate Full(rows: seq<Row>, k: nat, env: nat, maxRows: int, maxBytes: int)
    requires k <= |rows| && AllUsable(rows[..k], maxBytes)
  {
    0 < maxRows <= k || 0 < maxBytes <= Spent(rows, k, env, maxBytes)
  }

  // Collecting, read off the whole stream: how many rows are kept, and why it stops there.
  ghost predicate Explains(rows: seq<Row>, env: nat, maxRows: int, maxBytes: int, kept: Kept) {
    && kept.count <= |rows|
    && AllUsable(rows[..kept.count], maxBytes)
    && Allowed(rows[..kept.count], env, maxRows, maxBytes)
    && (kept.count == |rows| <==> kept.stop.Exhausted?)
    && (kept.count < |rows| ==> Blocked(rows, kept.count, env, maxRows, maxBytes))
    && (kept.stop.Failed? ==>
          && !Usable(rows[kept.count], maxBytes) && !Full(rows, kept.count, env, maxRows, maxBytes)
          && kept.stop.error == (if rows[kept.count].Unscannable? then ScanFailed else MeasureFailed))
    && (kept.stop.Left? ==> Usable(rows[kept.count], maxBytes) || Full(rows, kept.count, env, maxRows, maxBytes))
  }

  lemma {:induction false} CollectExplained(rows: seq<Row>, i: nat, env: nat, maxRows: int, maxBytes: int)
    requires i <= |rows| && AllUsable(rows[..i], maxBytes) && Allowed(rows[..i], env, maxRows, maxBytes)
    ensures Explains(rows, env, maxRows, maxBytes,
                     Collect(rows, i, Spent(rows, i, env, maxBytes), maxRows, maxBytes, true))
    decreases |rows| - i
  {
    hide Cost;
    var used := Spent(rows, i, env, maxBytes);
    if i < |rows| && !Blocked(rows, i, env, maxRows, maxBytes) {
      SpentStep(rows, i, env, maxBytes);
      CollectExplained(rows, i + 1, env, maxRows, maxBytes);
    }
  }

  // ------------------------------------------------------------------- main results

  /** A result fits within the cap, whatever duration of at most thirteen digits is written
      into it afterwards. */
  lemma ResultFits(quote: string -> string, columns: seq<Column>, rows: seq<Row>, iterErr: bool,
                   maxRows: int, maxBytes: int, duration: nat)
    requires forall i :: 0 <= i < |columns| ==> !Unsupported(columns[i])
    requires maxBytes > 0 && |Digits(duration)| <= 13
    requires Build(quote, columns, rows, iterErr, maxRows, maxBytes, true).Ok?
    ensures var res := Build(quote, columns, rows, iterErr, maxRows, maxBytes, true).result;
      Marshalable(res.rows) && |Serialize(quote, res.(durationMs := duration))| <= maxBytes
  {
    hide Serialize, Cost, Digits;
    var res := Build(quote, columns, rows, iterErr, maxRows, maxBytes, true).result;
    StartSpent(rows, Envelope(quote, columns), maxRows, maxBytes);
    CollectExplained(rows, 0, Envelope(quote, columns), maxRows, maxBytes);
    SizeAgainstBudget(quote, res.(durationMs := duration));
  }

  lemma StartSpent(rows: seq<Row>, env: nat, maxRows: int, maxBytes: int)
    requires maxBytes > 0 ==> env <= maxBytes
    ensures AllUsable(rows[..0], maxBytes) && Allowed(rows[..0], env, maxRows, maxBytes)
      && Spent(rows, 0, env, maxBytes) == env
  {
  }

  /** The rows returned are the longest prefix the caps allow, and `truncated` says exactly
      whether rows were left out. */
  lemma LongestAllowedPrefix(quote: string -> string, columns: seq<Column>, rows: seq<Row>, iterErr: bool,
                             maxRows: int, maxBytes: int, k: nat)
    requires forall i :: 0 <= i < |columns| ==> !Unsupported(columns[i])
    requires Build(quote, columns, rows, iterErr, maxRows, maxBytes, true).Ok?
    requires k <= |rows| && AllUsable(rows[..k], maxBytes)
    ensures var res := Build(quote, columns, rows, iterErr, maxRows, maxBytes, true).result;
      && res.columns == columns && res.durationMs == 0
      && |res.rows| <= |rows| && res.rows == rows[..|res.rows|]
      && (k <= |res.rows| <==> Allowed(rows[..k], Envelope(quote, columns), maxRows, maxBytes))
      && (res.truncated <==> |res.rows| < |rows|)
  {
    hide Serialize, Cost, Envelope, Collect;
    var env := Envelope(quote, columns);
    var start := if maxBytes > 0 then env else 0;
    StartSpent(rows, start, maxRows, maxBytes);
    CollectExplained(rows, 0, start, maxRows, maxBytes);
    AllowedIffKept(rows, start, maxRows, maxBytes, k);
  }

  lemma AllowedIffKept(rows: seq<Row>, start: nat, maxRows: int, maxBytes: int, k: nat)
    requires maxBytes > 0 ==> start <= maxBytes
    requires k <= |rows| && AllUsable(rows[..k], maxBytes)
    ensures k <= Collect(rows, 0, start, maxRows, maxBytes, true).count <==>
      Allowed(rows[..k], start, maxRows, maxBytes)
  {
    hide Cost, Collect;
    StartSpent(rows, start, maxRows, maxBytes);
    CollectExplained(rows, 0, start, maxRows, maxBytes);
    var kept := Collect(rows, 0, start, maxRows, maxBytes, true);
    if k <= kept.count {
      assert rows[..kept.count][..k] == rows[..k];
      if maxBytes > 0 {
        CostMonotone(rows[..kept.count], k);
      }
    } else {
      assert rows[..k][kept.count] == rows[kept.count];
      if maxBytes > 0 && !(0 < maxRows <= kept.count) {
        SpentStep(rows, kept.count, start, maxBytes);
        assert rows[..k][..kept.count + 1] == rows[..kept.count + 1];
        CostMonotone(rows[..k], kept.count + 1);
      }
    }
  }

  // Row `k` is reached and cannot be used.
  ghost predicate FailsAt(rows: seq<Row>, k: nat, env: nat, maxRows: int, maxBytes: int) {
    && k < |rows| && AllUsable(rows[..k], maxBytes) && !Usable(rows[k], maxBytes)
    && Allowed(rows[..k], env, maxRows, maxBytes) && !Full(rows, k, env, maxRows, maxBytes)
  }

  /** A row fails the whole result exactly when everything in front of it fits with room to
      spare under both caps. */
  lemma FailsIffReached(quote: string -> string, columns: seq<Column>, rows: seq<Row>, iterErr: bool,
                        maxRows: int, maxBytes: int)
    requires forall i :: 0 <= i < |columns| ==> !Unsupported(columns[i])
    ensures var r := Build(quote, columns, rows, iterErr, maxRows, maxBytes, true);
      && (r == Err(ScanFailed) <==>
            exists k: nat :: FailsAt(rows, k, Envelope(quote, columns), maxRows, maxBytes) && rows[k] == Unscannable)
      && (r == Err(MeasureFailed) <==>
            exists k: nat :: FailsAt(rows, k, Envelope(quote, columns), maxRows, maxBytes) && rows[k] == Unmarshalable)
  {
    hide Serialize, Envelope, Collect, FailsAt;
    var env := Envelope(quote, columns);
    if 0 < maxBytes < env {
      NothingReached(rows, env, maxRows, maxBytes);
    } else {
      FailsWhereItStops(rows, env, maxRows, maxBytes);
    }
  }

  lemma NothingReached(rows: seq<Row>, env: nat, maxRows: int, maxBytes: int)
    requires 0 < maxBytes < env
    ensures forall k: nat :: !FailsAt(rows, k, env, maxRows, maxBytes)
  {
  }

  // The only row that fails is the one collecting fails at.
  lemma FailsWhereItStops(rows: seq<Row>, env: nat, maxRows: int, maxBytes: int)
    requires maxBytes > 0 ==> env <= maxBytes
    ensures var kept := Collect(rows, 0, if maxBytes > 0 then env else 0, maxRows, maxBytes, true);
      && (forall k: nat :: FailsAt(rows, k, env, maxRows, maxBytes) <==> kept.stop.Failed? && k == kept.count)
      && (kept.stop.Failed? ==>
            && kept.count < |rows|
            && (if rows[kept.count] == Unscannable then kept.stop.error == ScanFailed
                else rows[kept.count] == Unmarshalable && kept.stop.error == MeasureFailed))
  {
    hide Cost, Collect;
    var start := if maxBytes > 0 then env else 0;
    StartSpent(rows, start, maxRows, maxBytes);
    CollectExplained(rows, 0, start, maxRows, maxBytes);
    var kept := Collect(rows, 0, start, maxRows, maxBytes, true);
    assert kept.stop.Failed? ==> FailsAt(rows, kept.count, env, maxRows, maxBytes);
    forall k: nat | FailsAt(rows, k, env, maxRows, maxBytes)
      ensures kept.stop.Failed? && kept.count == k
    {
      AllowedIffKept(rows, start, maxRows, maxBytes, k);
    }
  }

  // The empty result fits, and no row fails.
  ghost predicate NothingFails(quote: string -> string, columns: seq<Column>, rows: seq<Row>, maxRows: int, maxBytes: int) {
    && (maxBytes > 0 ==> Envelope(quote, columns) <= maxBytes)
    && (forall k: nat :: !FailsAt(rows, k, Envelope(quote, columns), maxRows, maxBytes))
  }

  /** A result is given exactly when the row stream did not break off, the empty result fits and
      no row that is reached fails; a stream that broke off is an error in the same case. */
  lemma GivenIffNothingFails(quote: string -> string, columns: seq<Column>, rows: seq<Row>, iterErr: bool,
                             maxRows: int, maxBytes: int)
    requires forall i :: 0 <= i < |columns| ==> !Unsupported(columns[i])
    ensures var r := Build(quote, columns, rows, iterErr, maxRows, maxBytes, true);
      && (r.Ok? <==> !iterErr && NothingFails(quote, columns, rows, maxRows, maxBytes))
      && (r == Err(IterationFailed) <==> iterErr && NothingFails(quote, columns, rows, maxRows, maxBytes))
  {
    hide Serialize, Envelope, Collect, FailsAt;
    var env := Envelope(quote, columns);
    if !(0 < maxBytes < env) {
      FailsWhereItStops(rows, env, maxRows, maxBytes);
      var kept := Collect(rows, 0, if maxBytes > 0 then env else 0, maxRows, maxBytes, true);
      assert kept.stop.Failed? <==> FailsAt(rows, kept.count, env, maxRows, maxBytes);
    }
  }

  // The budget is used up exactly in front of a row that would have failed.
  ghost predicate FailureBehindFullBudget(rows: seq<Row>, k: nat, env: nat, maxRows: int, maxBytes: int) {
    && k < |rows| && Marshalable(rows[..k]) && !rows[k].Row?
    && !(0 < maxRows <= k)
    && maxBytes > 0 && env + Cost(rows[..k]) == maxBytes
  }

  lemma {:induction false} ShortcutFrom(rows: seq<Row>, i: nat, env: nat, maxRows: int, maxBytes: int)
    requires maxBytes > 0 && i <= |rows|
    requires Marshalable(rows[..i]) && Allowed(rows[..i], env, maxRows, maxBytes)
    ensures var used := env + Cost(rows[..i]);
      Collect(rows, i, used, maxRows, maxBytes, true) != Collect(rows, i, used, maxRows, maxBytes, false) <==>
      exists k :: i <= k && FailureBehindFullBudget(rows, k, env, maxRows, maxBytes)
    decreases |rows| - i
  {
    hide Cost;
    var used := env + Cost(rows[..i]);
    if i < |rows| && !Blocked(rows, i, env, maxRows, maxBytes) {
      SpentStep(rows, i, env, maxBytes);
      ShortcutFrom(rows, i + 1, env, maxRows, maxBytes);
      assert !FailureBehindFullBudget(rows, i, env, maxRows, maxBytes);
    } else if FailureBehindFullBudget(rows, i, env, maxRows, maxBytes) {
      assert Collect(rows, i, used, maxRows, maxBytes, true).stop == Left;
      assert Collect(rows, i, used, maxRows, maxBytes, false).stop.Failed?;
    } else {
      forall k | i < k
        ensures !FailureBehindFullBudget(rows, k, env, maxRows, maxBytes)
      {
        NoFailureBeyond(rows, i, k, env, maxRows, maxBytes);
      }
    }
  }

  // Nothing behind the row where collecting stops matters.
  lemma NoFailureBeyond(rows: seq<Row>, i: nat, k: nat, env: nat, maxRows: int, maxBytes: int)
    requires maxBytes > 0 && i < k
    requires i < |rows| ==> Marshalable(rows[..i]) && Blocked(rows, i, env, maxRows, maxBytes)
    ensures !FailureBehindFullBudget(rows, k, env, maxRows, maxBytes)
  {
    hide Cost;
    if k < |rows| && Marshalable(rows[..k]) && !(0 < maxRows <= k) {
      assert rows[..k][i] == rows[i];
      SpentStep(rows, i, env, maxBytes);
      assert rows[..k][..i + 1] == rows[..i + 1];
      CostMonotone(rows[..k], i + 1);
    }
  }

  /** The short cut in front of the scan changes the outcome exactly when the budget is used up
      in front of a row whose scan or measurement would have failed. */
  lemma ShortcutChangesOnlyFailures(quote: string -> string, columns: seq<Column>, rows: seq<Row>,
                                    iterErr: bool, maxRows: int, maxBytes: int)
    requires forall i :: 0 <= i < |columns| ==> !Unsupported(columns[i])
    ensures (Build(quote, columns, rows, iterErr, maxRows, maxBytes, true)
             != Build(quote, columns, rows, iterErr, maxRows, maxBytes, false)) <==>
      exists k :: FailureBehindFullBudget(rows, k, Envelope(quote, columns), maxRows, maxBytes)
  {
    hide Serialize, Cost, Envelope;
    var env := Envelope(quote, columns);
    if maxBytes > 0 && env <= maxBytes {
      StartSpent(rows, env, maxRows, maxBytes);
      ShortcutFrom(rows, 0, env, maxRows, maxBytes);
      SameKeptSameOutcome(columns, rows, iterErr, env, maxRows, maxBytes);
    } else if maxBytes <= 0 {
      NoCapNoShortcut(rows, 0, 0, maxRows, maxBytes);
    }
  }

  // With a cap of exactly the empty result's size, a first row that cannot be scanned is left
  // out instead of failing the query.
  lemma ShortcutHidesFailure(quote: string -> string)
    ensures var cap := Envelope(quote, []);
      && Build(quote, [], [Unscannable], false, 0, cap, true) == Ok(Result([], [], true, 0))
      && Build(quote, [], [Unscannable], false, 0, cap, false) == Err(ScanFailed)
  {
    hide Digits;
    SerializedLength(quote, Result([], [], false, DURATION_PLACEHOLDER));
    assert Envelope(quote, []) > 0;
  }

  lemma {:induction false} NoCapNoShortcut(rows: seq<Row>, i: nat, used: nat, maxRows: int, maxBytes: int)
    requires i <= |rows| && maxBytes <= 0
    ensures Collect(rows, i, used, maxRows, maxBytes, true) == Collect(rows, i, used, maxRows, maxBytes, false)
    decreases |rows| - i
  {
    if i < |rows| {
      NoCapNoShortcut(rows, i + 1, used, maxRows, maxBytes);
    }
  }

  // Different ways of stopping give different outcomes.
  lemma SameKeptSameOutcome(columns: seq<Column>, rows: seq<Row>, iterErr: bool, env: nat, maxRows: int, maxBytes: int)
    requires maxBytes > 0
    ensures var a, b := Collect(rows, 0, env, maxRows, maxBytes, true), Collect(rows, 0, env, maxRows, maxBytes, false);
      Built(columns, rows, iterErr, a) == Built(columns, rows, iterErr, b) <==> a == b
  {
    StopsAtTheSameRow(rows, 0, env, maxRows, maxBytes);
    NeverIterationFailed(rows, 0, env, maxRows, maxBytes, true);
    NeverIterationFailed(rows, 0, env, maxRows, maxBytes, false);
  }

  lemma {:induction false} NeverIterationFailed(rows: seq<Row>, i: nat, used: nat, maxRows: int, maxBytes: int, shortcut: bool)
    requires i <= |rows|
    ensures Collect(rows, i, used, maxRows, maxBytes, shortcut).stop != Failed(IterationFailed)
    decreases |rows| - i
  {
    if i < |rows| {
      NeverIterationFailed(rows, i + 1, used, maxRows, maxBytes, shortcut);
      if rows[i].Row? {
        NeverIterationFailed(rows, i + 1, used + |rows[i].text| + 1, maxRows, maxBytes, shortcut);
      }
    }
  }

  lemma {:induction false} StopsAtTheSameRow(rows: seq<Row>, i: nat, used: nat, maxRows: int, maxBytes: int)
    requires i <= |rows| && maxBytes > 0
    ensures var a, b := Collect(rows, i, used, maxRows, maxBytes, true), Collect(rows, i, used, maxRows, maxBytes, false);
      a == b || (a.stop.Left? && b.stop.Failed?)
    decreases |rows| - i
  {
    if i < |rows| && rows[i].Row? {
      StopsAtTheSameRow(rows, i + 1, used + |rows[i].text| + 1, maxRows, maxBytes);
    }
  }

  /** A result that is too large is refused exactly when no row could ever fit. */
  lemma TooLargeIffEnvelopeOverflows(quote: string -> string, columns: seq<Column>, rows: seq<Row>,
                                     iterErr: bool, maxRows: int, maxBytes: int)
    requires forall i :: 0 <= i < |columns| ==> !Unsupported(columns[i])
    ensures Build(quote, columns, rows, iterErr, maxRows, maxBytes, true) == Err(ResultTooLarge) <==>
      maxBytes > 0 && exists d: nat ::
        |Digits(d)| <= 13 && |Serialize(quote, Result(columns, [], false, d))| > maxBytes
  {
    hide Serialize, Digits, Cost, Envelope;
    var env := Envelope(quote, columns);
    PlaceholderLength();
    if maxBytes > 0 && env > maxBytes {
      assert |Serialize(quote, Result(columns, [], false, DURATION_PLACEHOLDER))| == env by {
        EnvelopeIs(quote, columns);
      }
    } else {
      var start := if maxBytes > 0 then env else 0;
      StartSpent(rows, start, maxRows, maxBytes);
      CollectExplained(rows, 0, start, maxRows, maxBytes);
      forall d: nat | |Digits(d)| <= 13
        ensures |Serialize(quote, Result(columns, [], false, d))| <= env
      {
        SizeAgainstBudget(quote, Result(columns, [], false, d));
        NoCost();
      }
    }
  }

  lemma EnvelopeIs(quote: string -> string, columns: seq<Column>)
    ensures Envelope(quote, columns) == |Serialize(quote, Result(columns, [], false, DURATION_PLACEHOLDER))|
  {
  }

  lemma NoCost()
    ensures Cost([]) == 0
  {
  }
}
