/** The validator scans the printed artifact, not the values: when a redacted value prints as a text it accepts. */
module PrintedSecrets {
  import opened Bytes
  import opened Json
  import opened Redaction

  // ---------- where a match can be ----------

  /** A character matches can consist of. */
  predicate IsToken(c: char) {
    IsWord(c) || c == '.'
  }

  predicate Stops(y: string) {
    y == "" || !IsToken(y[0])
  }

  lemma LiteralStops(x: string, y: string, literal: string)
    requires Stops(y) && forall i | 0 <= i < |literal| :: IsToken(literal[i]) && Fold(literal[i]) == literal[i]
    ensures Literal(x + y, literal) <==> Literal(x, literal)
  {
    var s := x + y;
    assert forall i | 0 <= i < |x| :: s[i] == x[i];
    assert y != "" ==> s[|x|] == y[0];
  }

  lemma RunStops(x: string, y: string, from: nat, to: nat)
    requires Stops(y) && from <= |x| && from < to
    ensures AlnumRun(x + y, from, to) <==> AlnumRun(x, from, to)
    ensures WordRun(x + y, from, to) <==> WordRun(x, from, to)
  {
    var s := x + y;
    assert forall i | 0 <= i < |x| :: s[i] == x[i];
    assert |s| > |x| ==> s[|x|] == y[0];
  }

  /** A match never goes past a character no match can hold. */
  lemma NarrowStops(x: string, y: string)
    requires Stops(y)
    ensures NarrowSecret(x + y) <==> NarrowSecret(x)
  {
    LiteralStops(x, y, "sk_live_");
    LiteralStops(x, y, "sk_test_");
    LiteralStops(x, y, "whsec_");
    LiteralStops(x, y, "sg.");
    LiteralStops(x, y, "akia");
    if |x| >= 8 { RunStops(x, y, 8, 18); }
    if |x| >= 6 { RunStops(x, y, 6, 16); }
    if |x| >= 3 { RunStops(x, y, 3, 23); }
    if |x| >= 4 { RunStops(x, y, 4, 20); }
    hide AlnumRun, WordRun, IsToken, Fold;
  }

  lemma NarrowGrows(x: string, y: string)
    ensures NarrowSecret(x) ==> NarrowSecret(x + y)
  {
    assert forall i | 0 <= i < |x| :: (x + y)[i] == x[i];
  }

  predicate MayStartNarrow(c: char, d: char) {
    Fold(c) in {'s', 'w', 'a'} && Fold(d) in {'k', 'h', 'g'}
  }

  lemma NarrowStart(s: string)
    ensures NarrowSecret(s) ==> |s| >= 2 && MayStartNarrow(s[0], s[1])
  {
    LiteralStart(s, "sk_live_");
    LiteralStart(s, "sk_test_");
    LiteralStart(s, "whsec_");
    LiteralStart(s, "sg.");
    LiteralStart(s, "akia");
    hide Literal, WordRun, AlnumRun, Fold;
  }

  /** Text in which no match can start does not matter. */
  lemma {:induction false} SkipText(u: string, t: string)
    requires forall i | 0 <= i < |u| - 1 :: !MayStartNarrow(u[i], u[i + 1])
    requires u != "" && t != "" ==> !MayStartNarrow(u[|u| - 1], t[0])
    ensures PassesValidator(u + t) <==> PassesValidator(t)
  {
    if u == "" {
      assert u + t == t;
    } else {
      var s := u + t;
      assert s[1..] == u[1..] + t && s[0] == u[0];
      assert |s| >= 2 ==> s[1] == if |u| > 1 then u[1] else t[0];
      hide NarrowSecret, MayStartNarrow;
      SkipText(u[1..], t);
      NarrowStart(s);
    }
  }

  /** No match starts with this character. */
  predicate Inert(c: char) {
    Fold(c) !in {'s', 'w', 'a'}
  }

  lemma SkipInert(u: string, t: string)
    requires forall c | c in u :: Inert(c)
    ensures PassesValidator(u + t) <==> PassesValidator(t)
  {
    assert forall i | 0 <= i < |u| :: u[i] in u;
    SkipText(u, t);
  }

  // ---------- string literals ----------

  /** Printed as itself. */
  predicate Plain(c: char) {
    ' ' <= c <= '~' && c != '\"' && c != '\\'
  }

  function PlainPrefix(s: string): string {
    if s == "" || !Plain(s[0]) then "" else [s[0]] + PlainPrefix(s[1..])
  }

  /** Printed as an escape of four hex digits of which the last is the letter a. */
  predicate EndsInA(c: char) {
    ShortEscape(c).None? && !(' ' <= c <= '~') && c as int % 16 == 10
  }

  /** The literal holds no match: not in its plain stretches, and not from the last digit of an escape on. */
  predicate PrintsClean(s: string) {
    !NarrowSecret(PlainPrefix(s)) &&
    (s != "" ==> !(EndsInA(s[0]) && NarrowSecret("a" + PlainPrefix(s[1..]))) && PrintsClean(s[1..]))
  }

  /** A printed string starts with its plain prefix; then comes a backslash or the closing quote. */
  lemma {:induction false} PlainThenStop(s: string, k: string) returns (y: string)
    ensures PutChars(s, k) == PlainPrefix(s) + y && Stops(y)
  {
    if s == "" || !Plain(s[0]) {
      y := PutChars(s, k);
      assert PlainPrefix(s) + y == y;
    } else {
      y := PlainThenStop(s[1..], k);
      assert PutChars(s, k) == [s[0]] + PutChars(s[1..], k);
      assert [s[0]] + (PlainPrefix(s[1..]) + y) == ([s[0]] + PlainPrefix(s[1..])) + y;
    }
  }

  lemma MatchInPrefix(s: string, k: string)
    ensures NarrowSecret(PutChars(s, k)) <==> NarrowSecret(PlainPrefix(s))
    ensures NarrowSecret("a" + PutChars(s, k)) <==> NarrowSecret("a" + PlainPrefix(s))
  {
    var y := PlainThenStop(s, k);
    hide NarrowSecret, Stops, PlainPrefix, PutChars;
    NarrowStops(PlainPrefix(s), y);
    NarrowStops("a" + PlainPrefix(s), y);
    assert "a" + (PlainPrefix(s) + y) == ("a" + PlainPrefix(s)) + y;
  }

  lemma HexInert(n: int, c: char)
    requires 0 <= n < 16
    ensures !MayStartNarrow(c, HexDigit(n)) && (HexDigit(n) == 'a' <==> n == 10) && (n != 10 ==> Inert(HexDigit(n)))
  {
  }

  /** A printed escape lets a match start only at a last digit a. */
  lemma UnitPasses(u: int, k: string)
    requires 0 <= u < 0x1_0000
    ensures PassesValidator(PutUnit(u, k)) <==> !(u % 16 == 10 && NarrowSecret("a" + k)) && PassesValidator(k)
  {
    var h1, h2, h3, h4 := HexDigit(u / 4096), HexDigit(u / 256 % 16), HexDigit(u / 16 % 16), HexDigit(u % 16);
    var lead := ['\\', 'u', h1, h2, h3];
    var t := [h4] + k;
    assert PutUnit(u, k) == lead + t && t[1..] == k;
    HexInert(u / 256 % 16, h1);
    HexInert(u / 16 % 16, h2);
    HexInert(u % 16, h3);
    hide NarrowSecret, HexDigit;
    SkipText(lead, t);
    if u % 16 == 10 {
      assert t == "a" + k;
    } else {
      NarrowStart(t);
    }
  }

  lemma AstralPasses(hi: int, lo: int, k: string)
    requires 0 <= hi < 0x1_0000 && 0 <= lo < 0x1_0000
    ensures PassesValidator(PutUnit(hi, PutUnit(lo, k))) <==>
      !(lo % 16 == 10 && NarrowSecret("a" + k)) && PassesValidator(k)
  {
    hide NarrowSecret, PassesValidator;
    UnitPasses(lo, k);
    UnitPasses(hi, PutUnit(lo, k));
    NarrowStart("a" + PutUnit(lo, k));
  }

  lemma ShortPasses(c: char, k: string)
    requires ShortEscape(c).Some?
    ensures PassesValidator(PutChar(c, k)) <==> PassesValidator(k)
  {
    var e := ['\\', ShortEscape(c).value];
    SkipInert(e, k);
  }

  lemma OnePasses(c: char, k: string)
    ensures PassesValidator([c] + k) <==> !NarrowSecret([c] + k) && PassesValidator(k)
  {
    assert ([c] + k)[1..] == k;
  }

  /** One printed character in front of a text. */
  lemma CharPasses(c: char, k: string)
    ensures PassesValidator(PutChar(c, k)) <==>
      && (Plain(c) ==> !NarrowSecret([c] + k))
      && !(EndsInA(c) && NarrowSecret("a" + k))
      && PassesValidator(k)
  {
    hide NarrowSecret, PassesValidator, PutUnit;
    var u := c as int;
    if ShortEscape(c).Some? {
      ShortPasses(c, k);
    } else if ' ' <= c <= '~' {
      OnePasses(c, k);
    } else if u < 0x1_0000 {
      UnitPasses(u, k);
    } else {
      AstralPasses(0xD800 + (u - 0x1_0000) / 1024, 0xDC00 + (u - 0x1_0000) % 1024, k);
      assert (0xDC00 + (u - 0x1_0000) % 1024) % 16 == u % 16;
    }
  }

  lemma {:induction false} CharsPass(s: string, k: string)
    ensures PassesValidator(PutChars(s, k)) <==> PrintsClean(s) && PassesValidator(k)
  {
    if s == "" {
      SkipInert(['\"'], k);
      NarrowStart("");
    } else {
      var r := PutChars(s[1..], k);
      CharPasses(s[0], r);
      CharsPass(s[1..], k);
      MatchInPrefix(s, k);
      MatchInPrefix(s[1..], k);
      NarrowStart("");
      hide PassesValidator, NarrowSecret, PutChar;
      PlainPuts(s[0], r);
    }
  }

  lemma PlainPuts(c: char, k: string)
    ensures Plain(c) ==> PutChar(c, k) == [c] + k
  {
  }

  lemma StringPasses(s: string, k: string)
    ensures PassesValidator(PutString(s, k)) <==> PrintsClean(s) && PassesValidator(k)
  {
    CharsPass(s, k);
    SkipInert(['\"'], PutChars(s, k));
  }

  // ---------- values ----------

  /** Every key and every string value prints clean. */
  predicate AllPrintClean(v: Json) {
    match v
    case Str(s) => PrintsClean(s)
    case Arr(items) => forall i | 0 <= i < |items| :: AllPrintClean(items[i])
    case Obj(ms) => forall i | 0 <= i < |ms| :: PrintsClean(ms[i].name) && AllPrintClean(ms[i].value)
    case _ => true
  }

  lemma {:induction false} DigitsPass(n: nat, k: string)
    ensures PassesValidator(PutDigits(n, k)) <==> PassesValidator(k)
  {
    var d := [('0' as int + n % 10) as char];
    SkipInert(d, k);
    if n >= 10 { DigitsPass(n / 10, d + k); }
  }

  lemma SpacePasses(l: Layout, depth: nat, k: string)
    ensures PassesValidator(NewLine(l, depth) + k) <==> PassesValidator(k)
  {
    SkipInert(NewLine(l, depth), k);
  }

  lemma LeafPasses(v: Json, l: Layout, depth: nat, k: string)
    requires v.Null? || v.Bool? || v.Int?
    ensures PassesValidator(Put(v, l, depth, k)) <==> PassesValidator(k)
  {
    hide PassesValidator;
    match v
    case Null => SkipInert("null", k);
    case Bool(b) =>
      if b {
        SkipInert("true", k);
      } else {
        SkipText("false", k);
      }
    case Int(n) =>
      if n < 0 {
        DigitsPass(-n, k);
        SkipInert(['-'], PutDigits(-n, k));
      } else {
        DigitsPass(n, k);
      }
  }

  /** The printed value passes exactly when every string in it prints clean. */
  lemma {:induction false} ValuePasses(v: Json, l: Layout, depth: nat, k: string)
    ensures PassesValidator(Put(v, l, depth, k)) <==> AllPrintClean(v) && PassesValidator(k)
    decreases v, 0
  {
    hide PassesValidator, PrintsClean;
    match v
    case Str(s) => StringPasses(s, k);
    case Arr(items) =>
      var close := NewLine(l, depth) + ([']'] + k);
      if items == [] {
        SkipInert("[]", k);
      } else {
        ItemsPass(items, l, depth + 1, close);
        Opens('[', l, depth + 1, PutItems(items, l, depth + 1, close));
        Closes(']', l, depth, k);
      }
    case Obj(ms) =>
      var close := NewLine(l, depth) + (['}'] + k);
      if ms == [] {
        SkipInert("{}", k);
      } else {
        MembersPass(ms, l, depth + 1, close);
        Opens('{', l, depth + 1, PutMembers(ms, l, depth + 1, close));
        Closes('}', l, depth, k);
      }
    case _ => LeafPasses(v, l, depth, k);
  }

  lemma Opens(c: char, l: Layout, depth: nat, k: string)
    requires Inert(c)
    ensures PassesValidator([c] + (NewLine(l, depth) + k)) <==> PassesValidator(k)
  {
    SpacePasses(l, depth, k);
    SkipInert([c], NewLine(l, depth) + k);
  }

  lemma Closes(c: char, l: Layout, depth: nat, k: string)
    requires Inert(c)
    ensures PassesValidator(NewLine(l, depth) + ([c] + k)) <==> PassesValidator(k)
  {
    SkipInert([c], k);
    SpacePasses(l, depth, [c] + k);
  }

  lemma {:induction false} ItemsPass(items: seq<Json>, l: Layout, depth: nat, k: string)
    requires items != []
    ensures PassesValidator(PutItems(items, l, depth, k)) <==> AllPrintClean(Arr(items)) && PassesValidator(k)
    decreases items, 1
  {
    hide PassesValidator, PrintsClean;
    if |items| == 1 {
      ValuePasses(items[0], l, depth, k);
    } else {
      var more := items[1..];
      var rest := PutItems(more, l, depth, k);
      ItemsPass(more, l, depth, k);
      Opens(',', l, depth, rest);
      ValuePasses(items[0], l, depth, [','] + (NewLine(l, depth) + rest));
      assert forall i | 0 < i < |items| :: items[i] == more[i - 1];
      assert AllPrintClean(Arr(items)) <==> AllPrintClean(items[0]) && AllPrintClean(Arr(more));
    }
  }

  lemma MemberPasses(m: Member, l: Layout, depth: nat, k: string)
    ensures PassesValidator(PutMember(m, l, depth, k)) <==>
      PrintsClean(m.name) && PassesValidator(Put(m.value, l, depth, k))
  {
    var t := Put(m.value, l, depth, k);
    hide PassesValidator, PrintsClean, Put;
    SkipInert(AfterColon(l), t);
    SkipInert([':'], AfterColon(l) + t);
    StringPasses(m.name, [':'] + (AfterColon(l) + t));
  }

  lemma {:induction false} MembersPass(ms: seq<Member>, l: Layout, depth: nat, k: string)
    requires ms != []
    ensures PassesValidator(PutMembers(ms, l, depth, k)) <==> AllPrintClean(Obj(ms)) && PassesValidator(k)
    decreases ms, 1
  {
    hide PassesValidator, PrintsClean, PutMember;
    if |ms| == 1 {
      MemberPasses(ms[0], l, depth, k);
      ValuePasses(ms[0].value, l, depth, k);
    } else {
      var more := ms[1..];
      var rest := PutMembers(more, l, depth, k);
      MembersPass(more, l, depth, k);
      Opens(',', l, depth, rest);
      MemberPasses(ms[0], l, depth, [','] + (NewLine(l, depth) + rest));
      ValuePasses(ms[0].value, l, depth, [','] + (NewLine(l, depth) + rest));
      assert forall i | 0 < i < |ms| :: ms[i] == more[i - 1];
      assert AllPrintClean(Obj(ms)) <==>
        PrintsClean(ms[0].name) && AllPrintClean(ms[0].value) && AllPrintClean(Obj(more));
    }
  }

  // ---------- redacted values ----------

  predicate IsAsciiAlnum(c: char) {
    '0' <= c <= '9' || 'A' <= c <= 'Z' || 'a' <= c <= 'z'
  }

  /** KIA in any case and 16 ASCII letters or digits: what turns a final a into a key. */
  predicate KiaTail(t: string) {
    |t| >= 19 && t[0] in {'k', 'K'} && t[1] in {'i', 'I'} && t[2] in {'a', 'A'}
    && forall i | 3 <= i < 19 :: IsAsciiAlnum(t[i])
  }

  /** The escape of the first character and the text behind it print as a key. */
  predicate Completes(s: string) {
    s != "" && EndsInA(s[0]) && KiaTail(s[1..])
  }

  predicate NoneCompletes(s: string) {
    !Completes(s) && (s != "" ==> NoneCompletes(s[1..]))
  }

  lemma {:induction false} PrefixGrows(s: string) returns (y: string)
    ensures s == PlainPrefix(s) + y && (y != "" ==> !Plain(y[0]))
  {
    if s == "" || !Plain(s[0]) {
      y := s;
    } else {
      y := PrefixGrows(s[1..]);
      assert s == [s[0]] + s[1..];
    }
  }

  lemma {:induction false} PrefixPlain(s: string)
    ensures forall i | 0 <= i < |PlainPrefix(s)| :: Plain(PlainPrefix(s)[i])
  {
    if s != "" && Plain(s[0]) { PrefixPlain(s[1..]); }
  }

  /** Only a key of the last alternative starts with a. */
  lemma AkiaOnly(s: string)
    requires s != "" && s[0] == 'a'
    ensures NarrowSecret(s) <==> Literal(s, "akia") && AlnumRun(s, 4, 20)
  {
    FirstLetters(s);
    hide Literal, AlnumRun, WordRun;
  }

  lemma PlainLetters(c: char)
    requires Plain(c)
    ensures Fold(c) == 'k' <==> c in {'k', 'K'}
    ensures Fold(c) == 'i' <==> c in {'i', 'I'}
    ensures Fold(c) == 'a' <==> c in {'a', 'A'}
    ensures IsAlnum(c) <==> IsAsciiAlnum(c)
  {
  }

  lemma KiaPlain(p: string)
    requires forall i | 0 <= i < |p| :: Plain(p[i])
    ensures NarrowSecret("a" + p) <==> KiaTail(p)
  {
    var s := "a" + p;
    assert forall i | 0 <= i < |p| :: s[i + 1] == p[i];
    AkiaOnly(s);
    forall i | 0 <= i < |p|
      ensures Fold(p[i]) == 'k' <==> p[i] in {'k', 'K'}
      ensures Fold(p[i]) == 'i' <==> p[i] in {'i', 'I'}
      ensures Fold(p[i]) == 'a' <==> p[i] in {'a', 'A'}
      ensures IsAlnum(p[i]) <==> IsAsciiAlnum(p[i])
    {
      PlainLetters(p[i]);
    }
    hide NarrowSecret, Fold, IsAlnum, IsAsciiAlnum, Plain;
    AkiaLiteral(s);
    assert AlnumRun(s, 4, 20) <==> |s| >= 20 && forall i | 3 <= i < 19 :: IsAlnum(p[i]) by {
      assert forall i | 4 <= i < 20 && i < |s| :: s[i] == p[i - 1];
    }
  }

  lemma AkiaLiteral(s: string)
    requires s != "" && s[0] == 'a'
    ensures Literal(s, "akia") <==> |s| >= 4 && Fold(s[1]) == 'k' && Fold(s[2]) == 'i' && Fold(s[3]) == 'a'
  {
    var l := "akia";
    assert l[0] == 'a' && l[1] == 'k' && l[2] == 'i' && l[3] == 'a';
  }

  lemma KiaPrefix(t: string)
    ensures KiaTail(PlainPrefix(t)) <==> KiaTail(t)
  {
    var p := PlainPrefix(t);
    var y := PrefixGrows(t);
    assert forall i | 0 <= i < |p| :: t[i] == p[i];
    assert y != "" ==> t[|p|] == y[0];
  }

  lemma ATail(t: string)
    ensures NarrowSecret("a" + PlainPrefix(t)) <==> KiaTail(t)
  {
    PrefixPlain(t);
    KiaPrefix(t);
    hide *;
    KiaPlain(PlainPrefix(t));
  }

  /** A match in a plain stretch would be a match in the string itself. */
  lemma CleanStretch(s: string)
    requires Clean(s)
    ensures !NarrowSecret(PlainPrefix(s))
  {
    var y := PrefixGrows(s);
    NarrowGrows(PlainPrefix(s), y);
    NarrowIsSecret(s);
  }

  /** A clean string prints clean exactly when no escape in it completes a key. */
  lemma {:induction false} CleanPrints(s: string)
    requires Clean(s)
    ensures PrintsClean(s) <==> NoneCompletes(s)
  {
    CleanStretch(s);
    hide Secret, NarrowSecret, KiaTail;
    if s != "" {
      CleanPrints(s[1..]);
      ATail(s[1..]);
    }
  }

  /** No match of the redaction pattern starts at the first n places. */
  predicate NoSecretBefore(s: string, n: nat) {
    n <= |s| && forall j | 0 <= j < n :: !Secret(s[j..])
  }

  /** Redaction leaves no escape in s that completes a key: each that would is broken by a replacement. */
  predicate NoneExposed(s: string)
    decreases |s|
  {
    s == "" ||
    if Secret(s) then NoneExposed(s[SecretLength(s)..])
    else !(Completes(s) && NoSecretBefore(s, 20)) && NoneExposed(s[1..])
  }

  lemma {:induction false} RedactKeepsFront(s: string, n: nat)
    requires NoSecretBefore(s, n)
    ensures Redact(s) == s[..n] + Redact(s[n..])
    decreases n
  {
    assert s[0..] == s;
    if n > 0 {
      assert forall j | 0 <= j < n - 1 :: s[1..][j..] == s[j + 1..];
      RedactKeepsFront(s[1..], n - 1);
      assert s[..n] == [s[0]] + s[1..][..n - 1] && s[1..][n - 1..] == s[n..];
    }
  }

  /** The first match within the first n places leaves a bracket there. */
  lemma {:induction false} RedactBreaks(s: string, n: nat) returns (j: nat)
    requires !NoSecretBefore(s, n) && n <= |s|
    ensures j < n && j < |Redact(s)| && Redact(s)[j] == '[' && (!Secret(s) ==> j > 0)
    decreases n
  {
    hide Secret, SecretLength;
    assert s[0..] == s;
    if Secret(s) {
      j := 0;
    } else {
      var k :| 0 <= k < n && Secret(s[k..]);
      assert s[1..][k - 1..] == s[k..];
      var i := RedactBreaks(s[1..], n - 1);
      j := i + 1;
    }
  }

  /** A key is completed after redaction exactly when it was before and nothing of it is replaced. */
  lemma CompletesStays(s: string)
    requires s != "" && !Secret(s)
    ensures Completes(Redact(s)) <==> Completes(s) && NoSecretBefore(s, 20)
  {
    hide Secret, SecretLength, Completes;
    var n := if |s| < 20 then |s| else 20;
    if NoSecretBefore(s, n) {
      RedactKeepsFront(s, n);
      CompletesFront(s, Redact(s[n..]));
      ShortTail(s);
    } else {
      var j := RedactBreaks(s, n);
      BracketBreaks(Redact(s), j);
    }
  }

  /** Completing looks at the first 20 characters only. */
  lemma CompletesFront(s: string, t: string)
    ensures |s| >= 20 ==> (Completes(s[..20] + t) <==> Completes(s))
  {
    if |s| >= 20 {
      var r := s[..20] + t;
      assert forall i | 0 <= i < 20 :: r[i] == s[i];
      assert forall i | 0 <= i < 19 :: r[1..][i] == s[1..][i];
    }
  }

  lemma ShortTail(s: string)
    ensures |s| < 20 ==> !Completes(s) && s[..|s|] + Redact(s[|s|..]) == s
  {
    assert s[|s|..] == "";
  }

  lemma BracketBreaks(r: string, j: nat)
    requires 0 < j < 20 && j < |r| && r[j] == '['
    ensures !Completes(r)
  {
    assert r[1..][j - 1] == '[';
  }

  lemma MaskCompletes(t: string)
    ensures NoneCompletes(MASK + t) <==> NoneCompletes(t)
  {
    PlainSkips(MASK, t);
  }

  lemma {:induction false} PlainSkips(u: string, t: string)
    requires forall i | 0 <= i < |u| :: ' ' <= u[i] <= '~'
    ensures NoneCompletes(u + t) <==> NoneCompletes(t)
  {
    if u == "" {
      assert u + t == t;
    } else {
      assert (u + t)[1..] == u[1..] + t && (u + t)[0] == u[0];
      PlainSkips(u[1..], t);
    }
  }

  /** What is left to complete a key after redaction, read off the text before it. */
  lemma {:induction false} RedactedCompletes(s: string)
    ensures NoneCompletes(Redact(s)) <==> NoneExposed(s)
    decreases |s|
  {
    hide Secret, Completes, NoSecretBefore;
    if s == "" {
      EmptyCompletes();
    } else if Secret(s) {
      RedactedCompletes(s[SecretLength(s)..]);
      MaskCompletes(Redact(s[SecretLength(s)..]));
    } else {
      RedactedCompletes(s[1..]);
      CompletesStays(s);
      assert Redact(s)[1..] == Redact(s[1..]);
    }
  }

  lemma EmptyCompletes()
    ensures NoneCompletes("")
  {
  }

  // ---------- when the artifact passes ----------

  /** Every key prints clean: keys are not redacted. */
  predicate KeysPrintClean(v: Json) {
    match v
    case Arr(items) => forall i | 0 <= i < |items| :: KeysPrintClean(items[i])
    case Obj(ms) => forall i | 0 <= i < |ms| :: PrintsClean(ms[i].name) && KeysPrintClean(ms[i].value)
    case _ => true
  }

  /** In no string value does an escape ending in a stand before a key tail that redaction leaves alone. */
  predicate NothingExposed(v: Json) {
    match v
    case Str(s) => NoneExposed(s)
    case Arr(items) => forall i | 0 <= i < |items| :: NothingExposed(items[i])
    case Obj(ms) => forall i | 0 <= i < |ms| :: NothingExposed(ms[i].value)
    case _ => true
  }

  lemma {:induction false} RedactedPrintsIff(v: Json)
    ensures AllPrintClean(RedactObj(v)) <==> KeysPrintClean(v) && NothingExposed(v)
  {
    hide PrintsClean, NoneExposed, Redact;
    match v
    case Str(s) =>
      RedactCleans(s);
      CleanPrints(Redact(s));
      RedactedCompletes(s);
    case Arr(items) =>
      var r := RedactItems(items);
      forall i | 0 <= i < |items|
        ensures AllPrintClean(r[i]) <==> KeysPrintClean(items[i]) && NothingExposed(items[i])
      {
        RedactedPrintsIff(items[i]);
      }
    case Obj(ms) =>
      var r := RedactMembers(ms);
      forall i | 0 <= i < |ms|
        ensures AllPrintClean(r[i].value) <==> KeysPrintClean(ms[i].value) && NothingExposed(ms[i].value)
      {
        RedactedPrintsIff(ms[i].value);
      }
    case _ =>
  }

  /** The redacted artifact, printed in any layout, passes the validator's scan exactly when every key prints clean and
      no string value holds an escape ending in a before a key tail that redaction leaves alone. */
  lemma {:induction false} RedactedArtifactPasses(v: Json, l: Layout)
    ensures PassesValidator(Put(RedactObj(v), l, 0, "")) <==> KeysPrintClean(v) && NothingExposed(v)
  {
    hide PassesValidator, Put;
    ValuePasses(RedactObj(v), l, 0, "");
    RedactedPrintsIff(v);
    EmptyPasses();
  }

  lemma EmptyPasses()
    ensures PassesValidator("")
  {
  }

  // ---------- the condition in simple cases ----------

  /** No character prints as an escape with hex digits. */
  predicate NoUnits(s: string) {
    forall i | 0 <= i < |s| :: ShortEscape(s[i]).Some? || ' ' <= s[i] <= '~'
  }

  /** Such a key prints clean exactly when the validator accepts the key itself. */
  lemma {:induction false} KeyPrintsAsItself(s: string)
    requires NoUnits(s)
    ensures PrintsClean(s) <==> PassesValidator(s)
  {
    var y := PrefixGrows(s);
    assert y != "" ==> y[0] == s[|PlainPrefix(s)|];
    NarrowStops(PlainPrefix(s), y);
    hide NarrowSecret, PlainPrefix;
    if s != "" { KeyPrintsAsItself(s[1..]); }
  }

  /** Such a value exposes nothing. */
  lemma {:induction false} NoUnitsHide(s: string)
    requires NoUnits(s)
    ensures NoneExposed(s)
    decreases |s|
  {
    hide Secret;
    if s != "" {
      NoUnitsHide(if Secret(s) then s[SecretLength(s)..] else s[1..]);
    }
  }

  predicate AllNoUnits(v: Json) {
    match v
    case Str(s) => NoUnits(s)
    case Arr(items) => forall i | 0 <= i < |items| :: AllNoUnits(items[i])
    case Obj(ms) => forall i | 0 <= i < |ms| :: NoUnits(ms[i].name) && AllNoUnits(ms[i].value)
    case _ => true
  }

  predicate KeysPass(v: Json) {
    match v
    case Arr(items) => forall i | 0 <= i < |items| :: KeysPass(items[i])
    case Obj(ms) => forall i | 0 <= i < |ms| :: PassesValidator(ms[i].name) && KeysPass(ms[i].value)
    case _ => true
  }

  lemma {:induction false} NoUnitsCondition(v: Json)
    requires AllNoUnits(v)
    ensures NothingExposed(v) && (KeysPrintClean(v) <==> KeysPass(v))
  {
    hide PassesValidator, PrintsClean, NoneExposed, NoUnits;
    match v
    case Str(s) => NoUnitsHide(s);
    case Arr(items) =>
      forall i | 0 <= i < |items|
        ensures NothingExposed(items[i]) && (KeysPrintClean(items[i]) <==> KeysPass(items[i]))
      {
        NoUnitsCondition(items[i]);
      }
    case Obj(ms) =>
      forall i | 0 <= i < |ms|
        ensures PrintsClean(ms[i].name) <==> PassesValidator(ms[i].name)
        ensures NothingExposed(ms[i].value) && (KeysPrintClean(ms[i].value) <==> KeysPass(ms[i].value))
      {
        KeyPrintsAsItself(ms[i].name);
        NoUnitsCondition(ms[i].value);
      }
    case _ =>
  }

  /** When every character prints plainly or as a two-character escape, only the keys matter. */
  lemma {:induction false} PlainArtifactPasses(v: Json, l: Layout)
    requires AllNoUnits(v)
    ensures PassesValidator(Put(RedactObj(v), l, 0, "")) <==> KeysPass(v)
  {
    hide PassesValidator, Put;
    RedactedArtifactPasses(v, l);
    NoUnitsCondition(v);
  }

  /** An escape that completes a key: U+00EA prints with a last digit a. No value holds a match, and the artifact is
      refused. */
  lemma {:induction false} EscapesCanLookSecret(digits: string, l: Layout)
    requires |digits| == 16 && forall i | 0 <= i < 16 :: IsDigit(digits[i])
    ensures var v := Str("\U{EA}" + ("KIA" + digits));
      RedactObj(v) == v && !PassesValidator(Put(RedactObj(v), l, 0, ""))
  {
    var s := "\U{EA}" + ("KIA" + digits);
    assert s[0] == '\U{EA}' && s[1] == 'K' && s[2] == 'I' && s[3] == 'A';
    assert forall i | 4 <= i < |s| :: s[i] == digits[i - 4];
    hide Secret, NarrowSecret, PassesValidator, PrintsClean, NoneExposed, Clean, Put, Redact;
    KeyTailClean(s);
    KeyTailCompletes(s);
    RedactedArtifactPasses(Str(s), l);
    RedactedCompletes(s);
  }

  lemma KeyTailCompletes(s: string)
    requires |s| == 20 && s[0] == '\U{EA}' && s[1] == 'K' && s[2] == 'I' && s[3] == 'A'
    requires forall i | 4 <= i < |s| :: IsDigit(s[i])
    ensures !NoneCompletes(s)
  {
    assert KiaTail(s[1..]);
  }

  lemma KeyTailClean(s: string)
    requires |s| == 20 && s[0] == '\U{EA}' && s[1] == 'K' && s[2] == 'I' && s[3] == 'A'
    requires forall i | 4 <= i < |s| :: IsDigit(s[i])
    ensures Clean(s) && Redact(s) == s
  {
    hide Secret, Clean, Redact;
    EmptyClean();
    assert s + "" == s;
    forall i | 0 <= i < |s| - 1 ensures !MayStart(s[i], s[i + 1]) {
    }
    NoStartClean(s, "");
    CleanUnchanged(s);
  }
}
