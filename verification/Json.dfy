/** JSON values as Python holds them, json.dumps in two layouts, and json.loads (RFC 8259). */
module Json {
  import opened Wrappers
  import opened Bytes

  /** An object keeps its insertion order, as a Python dict does. */
  datatype Json =
    | Null
    | Bool(b: bool)
    | Int(n: int)
    | Str(s: string)
    | Arr(items: seq<Json>)
    | Obj(members: seq<Member>)

  datatype Member = Member(name: string, value: Json)

  datatype JsonError =
    | Syntax
    | DuplicateKey
    | Float        // valid for Python, outside this model
    | LoneSurrogate  // valid for Python, outside this model

  type Parsed<T> = Result<(T, string), JsonError>

  // ---------- well-formed values ----------

  /** Keys of one object are distinct: what a Python dict guarantees. */
  predicate DistinctNames(ms: seq<Member>) {
    forall i, j | 0 <= i < j < |ms| :: ms[i].name != ms[j].name
  }

  predicate WellFormed(v: Json) {
    match v
    case Arr(items) => forall i | 0 <= i < |items| :: WellFormed(items[i])
    case Obj(ms) => DistinctNames(ms) && forall i | 0 <= i < |ms| :: WellFormed(ms[i].value)
    case _ => true
  }

  /** dict.get */
  function Get(ms: seq<Member>, name: string): (r: Option<Json>)
    ensures r.Some? ==> exists i :: 0 <= i < |ms| && ms[i] == Member(name, r.value)
    ensures r.None? ==> forall i | 0 <= i < |ms| :: ms[i].name != name
  {
    if ms == [] then None
    else if ms[0].name == name then Some(ms[0].value)
    else Get(ms[1..], name)
  }

  lemma {:induction false} GetAt(ms: seq<Member>, i: nat)
    requires DistinctNames(ms) && i < |ms|
    ensures Get(ms, ms[i].name) == Some(ms[i].value)
  {
    if i > 0 {
      GetAt(ms[1..], i - 1);
    }
  }

  // ---------- printing: Put(v, .., k) is the text of v followed by the text k ----------

  /** Compact is separators=(',', ':'); Indented(w) is indent=w with the default separators. */
  datatype Layout = Compact | Indented(width: nat)

  function Spaces(n: nat): (r: string)
    ensures forall c | c in r :: IsSpace(c)
  {
    if n == 0 then "" else [' '] + Spaces(n - 1)
  }

  function NewLine(l: Layout, depth: nat): (r: string)
    ensures forall c | c in r :: IsSpace(c)
  {
    match l
    case Compact => ""
    case Indented(w) => ['\n'] + Spaces(w * depth)
  }

  function AfterColon(l: Layout): string {
    if l.Compact? then "" else " "
  }

  function PutDigits(n: nat, k: string): string {
    var d := ('0' as int + n % 10) as char;
    if n < 10 then [d] + k else PutDigits(n / 10, [d] + k)
  }

  function PutUnit(u: int, k: string): string
    requires 0 <= u < 0x1_0000
  {
    ['\\', 'u', HexDigit(u / 4096), HexDigit(u / 256 % 16), HexDigit(u / 16 % 16), HexDigit(u % 16)] + k
  }

  /** The two-character escape of a character, if it has one. */
  function ShortEscape(c: char): Option<char> {
    match c
    case '\"' => Some('\"')
    case '\\' => Some('\\')
    case '\n' => Some('n')
    case '\r' => Some('r')
    case '\t' => Some('t')
    case '\U{8}' => Some('b')
    case '\U{C}' => Some('f')
    case _ => None
  }

  /** ensure_ascii=True: everything outside ' '..'~' is escaped, astral characters as two units. */
  function PutChar(c: char, k: string): string {
    var u := c as int;
    if ShortEscape(c).Some? then ['\\', ShortEscape(c).value] + k
    else if ' ' <= c <= '~' then [c] + k
    else if u < 0x1_0000 then PutUnit(u, k)
    else PutUnit(0xD800 + (u - 0x1_0000) / 1024, PutUnit(0xDC00 + (u - 0x1_0000) % 1024, k))
  }

  /** The rest of a string literal, closing quote included. */
  function PutChars(s: string, k: string): string {
    if s == "" then ['\"'] + k else PutChar(s[0], PutChars(s[1..], k))
  }

  function PutString(s: string, k: string): string {
    ['\"'] + PutChars(s, k)
  }

  function Put(v: Json, l: Layout, depth: nat, k: string): string
    decreases v, 0
  {
    match v
    case Null => "null" + k
    case Bool(b) => (if b then "true" else "false") + k
    case Int(n) => if n < 0 then ['-'] + PutDigits(-n, k) else PutDigits(n, k)
    case Str(s) => PutString(s, k)
    case Arr(items) =>
      if items == [] then "[]" + k
      else ['['] + (NewLine(l, depth + 1) + PutItems(items, l, depth + 1, NewLine(l, depth) + ([']'] + k)))
    case Obj(ms) =>
      if ms == [] then "{}" + k
      else ['{'] + (NewLine(l, depth + 1) + PutMembers(ms, l, depth + 1, NewLine(l, depth) + (['}'] + k)))
  }

  function PutItems(items: seq<Json>, l: Layout, depth: nat, k: string): string
    requires items != []
    decreases items, 1
  {
    Put(items[0], l, depth,
        if |items| == 1 then k else [','] + (NewLine(l, depth) + PutItems(items[1..], l, depth, k)))
  }

  function PutMember(m: Member, l: Layout, depth: nat, k: string): string
    decreases m, 1
  {
    PutString(m.name, [':'] + (AfterColon(l) + Put(m.value, l, depth, k)))
  }

  function PutMembers(ms: seq<Member>, l: Layout, depth: nat, k: string): string
    requires ms != []
    decreases ms, 1
  {
    PutMember(ms[0], l, depth,
              if |ms| == 1 then k else [','] + (NewLine(l, depth) + PutMembers(ms[1..], l, depth, k)))
  }

  // ---------- parsing ----------

  predicate IsSpace(c: char) {
    c == ' ' || c == '\t' || c == '\n' || c == '\r'
  }

  predicate IsDigit(c: char) {
    '0' <= c <= '9'
  }

  function SkipSpace(t: string): (r: string)
    ensures |r| <= |t|
    ensures r != "" ==> !IsSpace(r[0])
  {
    if t != "" && IsSpace(t[0]) then SkipSpace(t[1..]) else t
  }

  /** Digits from the front of t, appended to the number read so far. */
  function ReadDigits(acc: nat, t: string): (r: (nat, string))
    ensures |r.1| <= |t|
    decreases |t|
  {
    if t != "" && IsDigit(t[0]) then ReadDigits(10 * acc + (t[0] as int - '0' as int), t[1..])
    else (acc, t)
  }

  predicate MarksFloat(c: char) {
    c == '.' || c == 'e' || c == 'E'
  }

  /** A fraction or an exponent: what makes a number a float. */
  predicate StartsFraction(t: string) {
    |t| > 1 && MarksFloat(t[0])
    && (IsDigit(t[1]) || (t[0] != '.' && (t[1] == '+' || t[1] == '-') && |t| > 2 && IsDigit(t[2])))
  }

  /** NaN, Infinity and -Infinity, which Python reads as floats. */
  predicate StartsConstant(t: string) {
    t != "" &&
    if t[0] == 'N' then "NaN" <= t
    else if t[0] == 'I' then "Infinity" <= t
    else t[0] == '-' && |t| > 1 && t[1] == 'I' && "-Infinity" <= t
  }

  /** A number without sign; a fraction or an exponent is a float. */
  function ReadNat(t: string): (r: Parsed<nat>)
    ensures r.Ok? ==> |r.value.1| < |t|
  {
    if t == "" || !IsDigit(t[0]) then Err(Syntax)
    else
      var (n, rest) := if t[0] == '0' then (0, t[1..]) else ReadDigits(t[0] as int - '0' as int, t[1..]);
      if StartsFraction(rest) then Err(Float) else Ok((n, rest))
  }

  function ReadUnit(t: string): (r: Option<int>)
    ensures r.Some? ==> |t| >= 4 && 0 <= r.value < 0x1_0000
  {
    if |t| < 4 || HexValue(t[0]).None? || HexValue(t[1]).None? || HexValue(t[2]).None? || HexValue(t[3]).None?
    then None
    else Some(HexValue(t[0]).value * 4096 + HexValue(t[1]).value * 256
              + HexValue(t[2]).value * 16 + HexValue(t[3]).value)
  }

  function Unescape(e: char): Option<char> {
    match e
    case '\"' => Some('\"')
    case '\\' => Some('\\')
    case '/' => Some('/')
    case 'b' => Some('\U{8}')
    case 'f' => Some('\U{C}')
    case 'n' => Some('\n')
    case 'r' => Some('\r')
    case 't' => Some('\t')
    case _ => None
  }

  /** One possibly escaped character of a string literal; t is not empty. */
  function ReadChar(t: string): (r: Parsed<char>)
    requires t != ""
    ensures r.Ok? ==> |r.value.1| < |t|
  {
    if t[0] < ' ' then Err(Syntax)
    else if t[0] != '\\' then Ok((t[0], t[1..]))
    else if |t| == 1 then Err(Syntax)
    else if t[1] != 'u' then
      match Unescape(t[1])
      case Some(c) => Ok((c, t[2..]))
      case None => Err(Syntax)
    else
      match ReadUnit(t[2..])
      case None => Err(Syntax)
      case Some(u) =>
        if IsScalar(u) then Ok((u as char, t[6..]))
        else if u < 0xDC00 && |t| > 7 && t[6] == '\\' && t[7] == 'u' then
          match ReadUnit(t[8..])
          case Some(w) =>
            if 0xDC00 <= w < 0xE000
            then Ok(((0x1_0000 + (u - 0xD800) * 1024 + (w - 0xDC00)) as char, t[12..]))
            else Err(LoneSurrogate)
          case None => Err(Syntax)
        else Err(LoneSurrogate)
  }

  /** A string literal after its opening quote. */
  function ReadChars(t: string): (r: Parsed<string>)
    ensures r.Ok? ==> |r.value.1| < |t|
    decreases |t|
  {
    if t == "" then Err(Syntax)
    else if t[0] == '\"' then Ok(("", t[1..]))
    else
      var (c, rest) :- ReadChar(t);
      var (s, rest') :- ReadChars(rest);
      Ok(([c] + s, rest'))
  }

  /** What the parser does with a repeated key: the verifier's hook refuses, plain dict() keeps the last. */
  datatype OnDuplicate = Refuse | KeepLast

  /** dict(pairs): a repeated key keeps its first place and its last value. */
  function DictOf(pairs: seq<Member>): (ms: seq<Member>)
    ensures DistinctNames(ms)
    ensures forall m | m in ms :: m in pairs
    ensures DistinctNames(pairs) ==> ms == pairs
  {
    if pairs == [] then []
    else
      var init, last := DictOf(pairs[..|pairs| - 1]), pairs[|pairs| - 1];
      assert pairs == pairs[..|pairs| - 1] + [last];
      if i :| 0 <= i < |init| && init[i].name == last.name then init[i := last]
      else init + [last]
  }

  function BuildObject(pairs: seq<Member>, d: OnDuplicate): Result<Json, JsonError> {
    if d.Refuse? && !DistinctNames(pairs) then Err(DuplicateKey) else Ok(Obj(DictOf(pairs)))
  }

  function ReadValue(t: string, d: OnDuplicate): (r: Parsed<Json>)
    ensures r.Ok? ==> |r.value.1| < |t|
    decreases |t|, 0
  {
    if t == "" then Err(Syntax)
    else if t[0] == '\"' then
      var (s, rest) :- ReadChars(t[1..]);
      Ok((Str(s), rest))
    else if t[0] == '{' then
      var u := SkipSpace(t[1..]);
      if u != "" && u[0] == '}' then Ok((Obj([]), u[1..]))
      else
        var (pairs, rest) :- ReadMembers(u, d);
        var v :- BuildObject(pairs, d);
        Ok((v, rest))
    else if t[0] == '[' then
      var u := SkipSpace(t[1..]);
      if u != "" && u[0] == ']' then Ok((Arr([]), u[1..]))
      else
        var (items, rest) :- ReadItems(u, d);
        Ok((Arr(items), rest))
    else if "null" <= t then Ok((Null, t[4..]))
    else if "true" <= t then Ok((Bool(true), t[4..]))
    else if "false" <= t then Ok((Bool(false), t[5..]))
    else if StartsConstant(t) then Err(Float)
    else if t[0] == '-' then
      var (n: nat, rest) :- ReadNat(t[1..]);
      Ok((Int(0 - n as int), rest))
    else
      var (n, rest) :- ReadNat(t);
      Ok((Int(n), rest))
  }

  /** Items up to and including the closing bracket; t starts at an item. */
  function ReadItems(t: string, d: OnDuplicate): (r: Parsed<seq<Json>>)
    ensures r.Ok? ==> |r.value.1| < |t|
    decreases |t|, 1
  {
    var (v, rest) :- ReadValue(t, d);
    var u := SkipSpace(rest);
    if u != "" && u[0] == ']' then Ok(([v], u[1..]))
    else if u != "" && u[0] == ',' then
      var (more, rest') :- ReadItems(SkipSpace(u[1..]), d);
      Ok(([v] + more, rest'))
    else Err(Syntax)
  }

  /** Members up to and including the closing brace; t starts at a key. */
  function ReadMembers(t: string, d: OnDuplicate): (r: Parsed<seq<Member>>)
    ensures r.Ok? ==> |r.value.1| < |t|
    decreases |t|, 1
  {
    if t == "" || t[0] != '\"' then Err(Syntax)
    else
      var (name, rest) :- ReadChars(t[1..]);
      var c := SkipSpace(rest);
      if c == "" || c[0] != ':' then Err(Syntax)
      else
        var (v, rest') :- ReadValue(SkipSpace(c[1..]), d);
        var u := SkipSpace(rest');
        if u != "" && u[0] == '}' then Ok(([Member(name, v)], u[1..]))
        else if u != "" && u[0] == ',' then
          var (more, rest'') :- ReadMembers(SkipSpace(u[1..]), d);
          Ok(([Member(name, v)] + more, rest''))
        else Err(Syntax)
  }

  /** json.loads on a text: one value with white space around it. */
  function Loads(t: string, d: OnDuplicate): Result<Json, JsonError> {
    var (v, rest) :- ReadValue(SkipSpace(t), d);
    if SkipSpace(rest) == "" then Ok(v) else Err(Syntax)
  }

  // ---------- parsing undoes printing ----------

  lemma {:induction false} SkipsSpaces(w: string, t: string)
    requires forall c | c in w :: IsSpace(c)
    ensures SkipSpace(w + t) == SkipSpace(t)
  {
    if w == "" {
      assert w + t == t;
    } else {
      assert w[0] in w;
      assert (w + t)[1..] == w[1..] + t;
      SkipsSpaces(w[1..], t);
    }
  }

  /** A text that does not prolong a number. */
  predicate EndsNumber(k: string) {
    k == "" || !(IsDigit(k[0]) || MarksFloat(k[0]))
  }

  lemma {:induction false} DigitsRead(n: nat, k: string)
    ensures var t := PutDigits(n, k);
      t != "" && IsDigit(t[0]) && (t[0] == '0' ==> n == 0) &&
      ReadDigits(t[0] as int - '0' as int, t[1..]) == ReadDigits(n, k)
    decreases n
  {
    var d := ('0' as int + n % 10) as char;
    if n < 10 {
      assert ([d] + k)[1..] == k;
    } else {
      DigitsRead(n / 10, [d] + k);
      assert ([d] + k)[1..] == k;
    }
  }

  lemma NatReadBack(n: nat, k: string)
    requires EndsNumber(k)
    ensures ReadNat(PutDigits(n, k)) == Ok((n, k))
    ensures PutDigits(n, k) != "" && IsDigit(PutDigits(n, k)[0])
  {
    DigitsRead(n, k);
    DigitsEnd(n, k);
    if n == 0 { ZeroPuts(k); }
    hide ReadDigits, PutDigits;
  }

  lemma DigitsEnd(n: nat, k: string)
    requires EndsNumber(k)
    ensures ReadDigits(n, k) == (n, k)
  {
  }

  lemma ZeroPuts(k: string)
    ensures PutDigits(0, k)[1..] == k
  {
    assert PutDigits(0, k) == ['0'] + k;
  }

  lemma Nibbles(u: int)
    requires 0 <= u < 0x1_0000
    ensures u == u / 4096 * 4096 + u / 256 % 16 * 256 + u / 16 % 16 * 16 + u % 16
  {
    assert u / 16 == u / 256 * 16 + u / 16 % 16;
    assert u / 256 == u / 4096 * 16 + u / 256 % 16;
  }

  lemma HexDigitValue(n: int)
    requires 0 <= n < 16
    ensures HexValue(HexDigit(n)) == Some(n)
  {
  }

  lemma UnitRead(u: int, k: string)
    requires 0 <= u < 0x1_0000
    ensures var t := PutUnit(u, k);
      |t| == 6 + |k| && t[0] == '\\' && t[1] == 'u' && ReadUnit(t[2..]) == Some(u) && t[6..] == k
  {
    Nibbles(u);
    HexDigitValue(u / 4096);
    HexDigitValue(u / 256 % 16);
    HexDigitValue(u / 16 % 16);
    HexDigitValue(u % 16);
  }

  lemma ScalarUnitRead(u: int, k: string)
    requires 0 <= u < 0x1_0000 && IsScalar(u)
    ensures ReadChar(PutUnit(u, k)) == Ok((u as char, k))
  {
    hide PutUnit, ReadUnit;
    UnitRead(u, k);
  }

  lemma SurrogatePairRead(v: int, k: string)
    requires 0 <= v < 0x10_0000
    ensures ReadChar(PutUnit(0xD800 + v / 1024, PutUnit(0xDC00 + v % 1024, k))) == Ok(((0x1_0000 + v) as char, k))
  {
    hide PutUnit, ReadUnit;
    var hi, lo := 0xD800 + v / 1024, 0xDC00 + v % 1024;
    var k' := PutUnit(lo, k);
    var t := PutUnit(hi, k');
    UnitRead(hi, k');
    UnitRead(lo, k);
    assert t[6] == t[6..][0] && t[7] == t[6..][1];
    assert t[8..] == t[6..][2..] && t[12..] == t[6..][6..];
  }

  lemma ShortEscapeInverts(c: char)
    ensures var e := ShortEscape(c); e.Some? ==> e.value != 'u' && Unescape(e.value) == Some(c)
  {
  }

  lemma EscapeRead(e: char, c: char, k: string)
    requires e != 'u' && Unescape(e) == Some(c)
    ensures ReadChar(['\\', e] + k) == Ok((c, k))
  {
    assert (['\\', e] + k)[2..] == k;
  }

  lemma PlainRead(c: char, k: string)
    requires ' ' <= c && c != '\\'
    ensures ReadChar([c] + k) == Ok((c, k))
  {
    assert ([c] + k)[1..] == k;
  }

  lemma PutCharStarts(c: char, k: string)
    ensures PutChar(c, k) != "" && PutChar(c, k)[0] != '\"'
  {
  }

  lemma CharRead(c: char, k: string)
    ensures ReadChar(PutChar(c, k)) == Ok((c, k))
  {
    hide ReadChar;
    var u := c as int;
    if ShortEscape(c).Some? {
      ShortEscapeInverts(c);
      EscapeRead(ShortEscape(c).value, c, k);
    } else if ' ' <= c <= '~' {
      PlainRead(c, k);
    } else if u < 0x1_0000 {
      ScalarUnitRead(u, k);
    } else {
      SurrogatePairRead(u - 0x1_0000, k);
    }
  }

  lemma {:induction false} CharsRead(s: string, k: string)
    ensures ReadChars(PutChars(s, k)) == Ok((s, k))
  {
    if s != "" {
      CharRead(s[0], PutChars(s[1..], k));
      PutCharStarts(s[0], PutChars(s[1..], k));
      CharsRead(s[1..], k);
      assert s == [s[0]] + s[1..];
    }
  }

  /** The text starts with a character that is neither space nor a closing bracket. */
  predicate StartsValue(t: string) {
    t != "" && t[0] != ']' && t[0] != '}' && !IsSpace(t[0])
  }

  lemma PutStarts(v: Json, l: Layout, depth: nat, k: string)
    ensures StartsValue(Put(v, l, depth, k))
  {
    if v.Int? {
      DigitsRead(if v.n < 0 then -v.n else v.n, k);
    }
  }

  // One step of the parser each.

  lemma ArrayOpens(body: string, d: OnDuplicate, items: seq<Json>, k: string)
    requires SkipSpace(body) != "" && SkipSpace(body)[0] != ']'
    requires ReadItems(SkipSpace(body), d) == Ok((items, k))
    ensures ReadValue(['['] + body, d) == Ok((Arr(items), k))
  {
    assert (['['] + body)[1..] == body;
  }

  lemma ObjectOpens(body: string, d: OnDuplicate, ms: seq<Member>, k: string)
    requires SkipSpace(body) != "" && SkipSpace(body)[0] != '}'
    requires ReadMembers(SkipSpace(body), d) == Ok((ms, k)) && DistinctNames(ms)
    ensures ReadValue(['{'] + body, d) == Ok((Obj(ms), k))
  {
    assert (['{'] + body)[1..] == body;
  }

  lemma ItemFollowed(t: string, d: OnDuplicate, v: Json, rest: string, tail: string, more: seq<Json>, k: string)
    requires ReadValue(t, d) == Ok((v, rest))
    requires SkipSpace(rest) == [','] + tail && ReadItems(SkipSpace(tail), d) == Ok((more, k))
    ensures ReadItems(t, d) == Ok(([v] + more, k))
  {
    assert ([','] + tail)[1..] == tail;
  }

  lemma ItemLast(t: string, d: OnDuplicate, v: Json, rest: string, k: string)
    requires ReadValue(t, d) == Ok((v, rest)) && SkipSpace(rest) == [']'] + k
    ensures ReadItems(t, d) == Ok(([v], k))
  {
    assert ([']'] + k)[1..] == k;
  }

  /** A member up to its value. */
  lemma MemberHead(name: string, l: Layout, value: string)
    requires StartsValue(value)
    ensures var t := PutString(name, [':'] + (AfterColon(l) + value));
      t != "" && t[0] == '\"' && ReadChars(t[1..]) == Ok((name, [':'] + (AfterColon(l) + value)))
    ensures SkipSpace([':'] + (AfterColon(l) + value)) == [':'] + (AfterColon(l) + value)
    ensures SkipSpace(([':'] + (AfterColon(l) + value))[1..]) == value
  {
    var colon := [':'] + (AfterColon(l) + value);
    CharsRead(name, colon);
    assert PutString(name, colon)[1..] == PutChars(name, colon);
    assert colon[1..] == AfterColon(l) + value;
    SkipsSpaces(AfterColon(l), value);
  }

  lemma MemberFollowed(m: Member, l: Layout, depth: nat, d: OnDuplicate, tail: string, more: seq<Member>, k: string)
    requires ReadValue(Put(m.value, l, depth, [','] + tail), d) == Ok((m.value, [','] + tail))
    requires ReadMembers(SkipSpace(tail), d) == Ok((more, k))
    ensures StartsValue(PutMember(m, l, depth, [','] + tail))
    ensures ReadMembers(PutMember(m, l, depth, [','] + tail), d) == Ok(([m] + more, k))
  {
    PutStarts(m.value, l, depth, [','] + tail);
    MemberHead(m.name, l, Put(m.value, l, depth, [','] + tail));
    assert ([','] + tail)[1..] == tail;
  }

  lemma MemberLast(m: Member, l: Layout, depth: nat, d: OnDuplicate, close: string, k: string)
    requires ReadValue(Put(m.value, l, depth, close), d) == Ok((m.value, close))
    requires SkipSpace(close) == ['}'] + k
    ensures StartsValue(PutMember(m, l, depth, close))
    ensures ReadMembers(PutMember(m, l, depth, close), d) == Ok(([m], k))
  {
    PutStarts(m.value, l, depth, close);
    MemberHead(m.name, l, Put(m.value, l, depth, close));
    assert (['}'] + k)[1..] == k;
  }

  lemma IntRead(n: int, l: Layout, depth: nat, k: string, d: OnDuplicate)
    requires EndsNumber(k)
    ensures ReadValue(Put(Int(n), l, depth, k), d) == Ok((Int(n), k))
  {
    NatReadBack(if n < 0 then -n else n, k);
    var t := Put(Int(n), l, depth, k);
    if n < 0 {
      assert t[1..] == PutDigits(-n, k);
    }
  }

  lemma StringRead(s: string, l: Layout, depth: nat, k: string, d: OnDuplicate)
    ensures ReadValue(Put(Str(s), l, depth, k), d) == Ok((Str(s), k))
  {
    CharsRead(s, k);
    assert Put(Str(s), l, depth, k)[1..] == PutChars(s, k);
  }

  lemma LeafRead(v: Json, l: Layout, depth: nat, k: string, d: OnDuplicate)
    requires EndsNumber(k)
    requires !(v.Arr? && v.items != []) && !(v.Obj? && v.members != [])
    ensures ReadValue(Put(v, l, depth, k), d) == Ok((v, k))
  {
    var t := Put(v, l, depth, k);
    match v
    case Null => assert t[4..] == k;
    case Bool(b) => assert t[if b then 4 else 5..] == k;
    case Int(n) => IntRead(n, l, depth, k, d);
    case Str(s) => StringRead(s, l, depth, k, d);
    case Arr(_) => assert t[1..] == "]" + k;
    case Obj(_) => assert t[1..] == "}" + k;
  }

  /** Reading a printed value gives it back and stops where the value ends. */
  lemma {:induction false} ValueRead(v: Json, l: Layout, depth: nat, k: string, d: OnDuplicate)
    requires WellFormed(v) && EndsNumber(k)
    ensures ReadValue(Put(v, l, depth, k), d) == Ok((v, k))
    decreases v, 0
  {
    var w := NewLine(l, depth + 1);
    if v.Arr? && v.items != [] {
      var body := PutItems(v.items, l, depth + 1, NewLine(l, depth) + ([']'] + k));
      ItemsRead(v.items, l, depth + 1, NewLine(l, depth), k, d);
      SkipsSpaces(w, body);
      ArrayOpens(w + body, d, v.items, k);
    } else if v.Obj? && v.members != [] {
      var body := PutMembers(v.members, l, depth + 1, NewLine(l, depth) + (['}'] + k));
      MembersRead(v.members, l, depth + 1, NewLine(l, depth), k, d);
      SkipsSpaces(w, body);
      ObjectOpens(w + body, d, v.members, k);
    } else {
      LeafRead(v, l, depth, k, d);
    }
  }

  lemma {:induction false} ItemsRead(items: seq<Json>, l: Layout, depth: nat, w: string, k: string, d: OnDuplicate)
    requires items != [] && forall i | 0 <= i < |items| :: WellFormed(items[i])
    requires forall c | c in w :: IsSpace(c)
    ensures var t := PutItems(items, l, depth, w + ([']'] + k));
      StartsValue(t) && ReadItems(t, d) == Ok((items, k))
    decreases items, 1
  {
    hide ReadValue, ReadItems, ReadMembers;
    var close := w + ([']'] + k);
    if |items| == 1 {
      CloseEndsNumber(w, ']', k);
      SkipsSpaces(w, [']'] + k);
      PutStarts(items[0], l, depth, close);
      ValueRead(items[0], l, depth, close, d);
      ItemLast(PutItems(items, l, depth, close), d, items[0], close, k);
      assert items == [items[0]];
    } else {
      var rest := items[1..];
      ItemsRead(rest, l, depth, w, k, d);
      var tail := NewLine(l, depth) + PutItems(rest, l, depth, close);
      SkipsSpaces(NewLine(l, depth), PutItems(rest, l, depth, close));
      PutStarts(items[0], l, depth, [','] + tail);
      ValueRead(items[0], l, depth, [','] + tail, d);
      ItemFollowed(PutItems(items, l, depth, close), d, items[0], [','] + tail, tail, rest, k);
      assert items == [items[0]] + rest;
    }
  }

  lemma CloseEndsNumber(w: string, close: char, k: string)
    requires forall c | c in w :: IsSpace(c)
    requires close == ']' || close == '}'
    ensures EndsNumber(w + ([close] + k))
  {
    assert w != "" ==> w[0] in w;
  }

  lemma {:induction false} MembersRead(ms: seq<Member>, l: Layout, depth: nat, w: string, k: string, d: OnDuplicate)
    requires ms != [] && forall i | 0 <= i < |ms| :: WellFormed(ms[i].value)
    requires forall c | c in w :: IsSpace(c)
    ensures var t := PutMembers(ms, l, depth, w + (['}'] + k));
      StartsValue(t) && ReadMembers(t, d) == Ok((ms, k))
    decreases ms, 1
  {
    hide ReadValue, ReadItems, ReadMembers, PutMember, Put;
    var close := w + (['}'] + k);
    var m := ms[0];
    if |ms| == 1 {
      CloseEndsNumber(w, '}', k);
      SkipsSpaces(w, ['}'] + k);
      ValueRead(m.value, l, depth, close, d);
      MemberLast(m, l, depth, d, close, k);
      assert ms == [m];
    } else {
      var rest := ms[1..];
      MembersRead(rest, l, depth, w, k, d);
      var tail := NewLine(l, depth) + PutMembers(rest, l, depth, close);
      SkipsSpaces(NewLine(l, depth), PutMembers(rest, l, depth, close));
      ValueRead(m.value, l, depth, [','] + tail, d);
      MemberFollowed(m, l, depth, d, tail, rest, k);
      assert ms == [m] + rest;
    }
  }

  /** json.loads(json.dumps(v) + w) == v in either layout, white space w after it, either duplicate policy. */
  lemma {:induction false} LoadsUndoesPut(v: Json, l: Layout, w: string, d: OnDuplicate)
    requires WellFormed(v)
    requires forall c | c in w :: IsSpace(c)
    ensures Loads(Put(v, l, 0, w), d) == Ok(v)
  {
    assert w != "" ==> w[0] in w;
    ValueRead(v, l, 0, w, d);
    PutStarts(v, l, 0, w);
    SkipsSpaces(w, "");
    assert w + "" == w;
  }
}
