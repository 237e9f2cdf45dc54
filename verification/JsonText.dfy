/** JSON texts as RFC 8259 defines them, read by recursive descent. A string is the sequence of
    UTF-16 code units it denotes (section 7), a number its literal, an object its members in
    order. */
module JsonText {
  import opened Options
  import JsonNumber

  datatype Value =
    | Null
    | Boolean(b: bool)
    | Number(text: string)
    | Str(units: seq<int>)
    | Array(items: seq<Value>)
    | Object(members: seq<Member>)
  datatype Member = Member(key: seq<int>, value: Value)

  // What was read, and what follows it.
  datatype Read<T> = Read(x: T, rest: string)

  predicate IsSpace(c: char) {
    c == ' ' || c == '\t' || c == '\n' || c == '\r'
  }

  function SkipSpace(s: string): (t: string)
    ensures |t| <= |s|
  {
    if s != "" && IsSpace(s[0]) then SkipSpace(s[1..]) else s
  }

  predicate Starts(s: string, c: char) {
    s != "" && s[0] == c
  }

  // -------------------------------------------------------------------------- strings

  function HexDigit(c: char): Option<int> {
    if '0' <= c <= '9' then Some(c as int - '0' as int)
    else if 'a' <= c <= 'f' then Some(c as int - 'a' as int + 10)
    else if 'A' <= c <= 'F' then Some(c as int - 'A' as int + 10)
    else None
  }

  // The value of four hexadecimal digits.
  function Hex4(s: string): Option<int>
    requires |s| == 4
  {
    var a, b, c, d := HexDigit(s[0]), HexDigit(s[1]), HexDigit(s[2]), HexDigit(s[3]);
    if a.Some? && b.Some? && c.Some? && d.Some? then
      Some(0x1000 * a.value + 0x100 * b.value + 0x10 * c.value + d.value)
    else None
  }

  // The two-character escapes.
  function ShortEscape(c: char): Option<int> {
    if c == '"' || c == '\\' || c == '/' then Some(c as int)
    else if c == 'b' then Some(8)
    else if c == 'f' then Some(12)
    else if c == 'n' then Some(10)
    else if c == 'r' then Some(13)
    else if c == 't' then Some(9)
    else None
  }

  // A code point in UTF-16: itself, or a surrogate pair.
  function Units(c: char): seq<int> {
    var n := c as int;
    if n < 0x10000 then [n] else [0xD800 + (n - 0x10000) / 0x400, 0xDC00 + (n - 0x10000) % 0x400]
  }

  function Prepend(units: seq<int>, r: Option<Read<seq<int>>>): Option<Read<seq<int>>> {
    if r.None? then None else Some(Read(units + r.value.x, r.value.rest))
  }

  // The rest of a string, up to and including its closing quote.
  function ReadChars(s: string): (r: Option<Read<seq<int>>>)
    ensures r.Some? ==> |r.value.rest| < |s|
  {
    if s == "" then None
    else if s[0] == '"' then Some(Read([], s[1..]))
    else if s[0] != '\\' then
      if s[0] < ' ' then None else Prepend(Units(s[0]), ReadChars(s[1..]))
    else if |s| >= 2 && ShortEscape(s[1]).Some? then Prepend([ShortEscape(s[1]).value], ReadChars(s[2..]))
    else if |s| >= 6 && s[1] == 'u' && Hex4(s[2..6]).Some? then Prepend([Hex4(s[2..6]).value], ReadChars(s[6..]))
    else None
  }

  // --------------------------------------------------------------------------- values

  predicate InNumber(c: char) {
    '0' <= c <= '9' || c == '-' || c == '+' || c == '.' || c == 'e' || c == 'E'
  }

  function NumberRun(s: string): (n: nat)
    ensures n <= |s|
  {
    if s != "" && InNumber(s[0]) then 1 + NumberRun(s[1..]) else 0
  }

  // A literal and what follows it.
  function Word(s: string, word: string, v: Value): (r: Option<Read<Value>>)
    requires word != ""
    ensures r.Some? ==> |r.value.rest| < |s|
  {
    if |word| <= |s| && s[..|word|] == word then Some(Read(v, s[|word|..])) else None
  }

  function ReadNumber(s: string): (r: Option<Read<Value>>)
    ensures r.Some? ==> |r.value.rest| < |s|
  {
    var n := NumberRun(s);
    if n > 0 && JsonNumber.AcceptNumber(s[..n]) then Some(Read(Number(s[..n]), s[n..])) else None
  }

  function ReadValue(s: string): (r: Option<Read<Value>>)
    ensures r.Some? ==> |r.value.rest| < |s|
    decreases |s|, 0
  {
    var t := SkipSpace(s);
    if t == "" then None
    else if t[0] == '"' then
      var r := ReadChars(t[1..]);
      if r.None? then None else Some(Read(Str(r.value.x), r.value.rest))
    else if t[0] == '[' then
      if Starts(SkipSpace(t[1..]), ']') then Some(Read(Array([]), SkipSpace(t[1..])[1..]))
      else
        var r := ReadElements(t[1..]);
        if r.None? then None else Some(Read(Array(r.value.x), r.value.rest))
    else if t[0] == '{' then
      if Starts(SkipSpace(t[1..]), '}') then Some(Read(Object([]), SkipSpace(t[1..])[1..]))
      else
        var r := ReadMembers(t[1..]);
        if r.None? then None else Some(Read(Object(r.value.x), r.value.rest))
    else if t[0] == 't' then Word(t, "true", Boolean(true))
    else if t[0] == 'f' then Word(t, "false", Boolean(false))
    else if t[0] == 'n' then Word(t, "null", Null)
    else ReadNumber(t)
  }

  // The rest of an array, up to and including its bracket.
  function ReadElements(s: string): (r: Option<Read<seq<Value>>>)
    ensures r.Some? ==> |r.value.rest| < |s|
    decreases |s|, 1
  {
    var v := ReadValue(s);
    if v.None? then None
    else
      var t := SkipSpace(v.value.rest);
      if Starts(t, ']') then Some(Read([v.value.x], t[1..]))
      else if Starts(t, ',') then
        var more := ReadElements(t[1..]);
        if more.None? then None else Some(Read([v.value.x] + more.value.x, more.value.rest))
      else None
  }

  function ReadMember(s: string): (r: Option<Read<Member>>)
    ensures r.Some? ==> |r.value.rest| < |s|
    decreases |s|, 1
  {
    var t := SkipSpace(s);
    if !Starts(t, '"') then None
    else
      var key := ReadChars(t[1..]);
      if key.None? then None
      else
        var u := SkipSpace(key.value.rest);
        if !Starts(u, ':') then None
        else
          var v := ReadValue(u[1..]);
          if v.None? then None else Some(Read(Member(key.value.x, v.value.x), v.value.rest))
  }

  // The rest of an object, up to and including its brace.
  function ReadMembers(s: string): (r: Option<Read<seq<Member>>>)
    ensures r.Some? ==> |r.value.rest| < |s|
    decreases |s|, 2
  {
    var m := ReadMember(s);
    if m.None? then None
    else
      var t := SkipSpace(m.value.rest);
      if Starts(t, '}') then Some(Read([m.value.x], t[1..]))
      else if Starts(t, ',') then
        var more := ReadMembers(t[1..]);
        if more.None? then None else Some(Read([m.value.x] + more.value.x, more.value.rest))
      else None
  }

  /** The value a whole text denotes, if it is a JSON text. */
  function ReadText(s: string): Option<Value> {
    var v := ReadValue(s);
    if v.Some? && SkipSpace(v.value.rest) == "" then Some(v.value.x) else None
  }
}
