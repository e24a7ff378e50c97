/** Secret redaction over nested values, and the validator's narrower pattern. */
module Redaction {
  import opened Json

  // ---------- re.IGNORECASE ----------

  /** The letter a character matches under IGNORECASE, four non-ASCII characters included. */
  function Fold(c: char): char {
    if 'A' <= c <= 'Z' then (c as int + 32) as char
    else if c == '\U{130}' || c == '\U{131}' then 'i'
    else if c == '\U{17F}' then 's'
    else if c == '\U{212A}' then 'k'
    else c
  }

  predicate IsAlnum(c: char) {
    'a' <= Fold(c) <= 'z' || '0' <= c <= '9'
  }

  /** [A-Za-z0-9_-] */
  predicate IsWord(c: char) {
    IsAlnum(c) || c == '_' || c == '-'
  }

  /** A literal in lower case at the front of s. */
  predicate Literal(s: string, literal: string) {
    |literal| <= |s| && forall i | 0 <= i < |literal| :: Fold(s[i]) == literal[i]
  }

  predicate AlnumRun(s: string, from: nat, to: nat) {
    to <= |s| && forall i | from <= i < to :: IsAlnum(s[i])
  }

  predicate WordRun(s: string, from: nat, to: nat) {
    to <= |s| && forall i | from <= i < to :: IsWord(s[i])
  }

  // ---------- the two patterns ----------

  /** The redaction pattern matches at the front of s. */
  predicate Secret(s: string) {
    Literal(s, "sk_live_") || Literal(s, "sk_test_") || Literal(s, "whsec_")
    || (Literal(s, "sg.") && WordRun(s, 3, 23))
    || Literal(s, "rk_live_") || Literal(s, "pk_live_")
    || (Literal(s, "akia") && AlnumRun(s, 4, 20))
  }

  /** The validator's pattern matches at the front of s. */
  predicate NarrowSecret(s: string) {
    (Literal(s, "sk_live_") && AlnumRun(s, 8, 18)) || (Literal(s, "sk_test_") && AlnumRun(s, 8, 18))
    || (Literal(s, "whsec_") && AlnumRun(s, 6, 16))
    || (Literal(s, "sg.") && WordRun(s, 3, 23))
    || (Literal(s, "akia") && AlnumRun(s, 4, 20))
  }

  /** The end of the greedy run [A-Za-z0-9_-]* from place i. */
  function RunEnd(s: string, i: nat): (j: nat)
    requires i <= |s|
    ensures i <= j <= |s|
    decreases |s| - i
  {
    if i < |s| && IsWord(s[i]) then RunEnd(s, i + 1) else i
  }

  /** The length of the match: the first alternative that applies. */
  function SecretLength(s: string): (n: nat)
    requires Secret(s)
    ensures 1 <= n <= |s|
  {
    if Literal(s, "sk_live_") || Literal(s, "sk_test_") then 8
    else if Literal(s, "whsec_") then 6
    else if Literal(s, "sg.") && WordRun(s, 3, 23) then RunEnd(s, 23)
    else if Literal(s, "rk_live_") || Literal(s, "pk_live_") then 8
    else 20
  }

  /** p is one whole match with rest behind it: the alternatives, each to its full extent. */
  predicate Token(p: string, rest: string) {
    (|p| == 8 && (Literal(p, "sk_live_") || Literal(p, "sk_test_") || Literal(p, "rk_live_") || Literal(p, "pk_live_")))
    || (|p| == 6 && Literal(p, "whsec_"))
    || (|p| >= 23 && Literal(p, "sg.") && WordRun(p, 3, |p|) && (rest == "" || !IsWord(rest[0])))
    || (|p| == 20 && Literal(p, "akia") && AlnumRun(p, 4, 20))
  }

  lemma {:induction false} RunEndIs(s: string, i: nat, j: nat)
    requires i <= j <= |s| && WordRun(s, i, j) && (j < |s| ==> !IsWord(s[j]))
    ensures RunEnd(s, i) == j
    decreases j - i
  {
    if i < j { RunEndIs(s, i + 1, j); }
  }

  lemma {:induction false} RunEndRuns(s: string, i: nat)
    requires i <= |s|
    ensures var j := RunEnd(s, i); WordRun(s, i, j) && (j < |s| ==> !IsWord(s[j]))
    decreases |s| - i
  {
    if i < |s| && IsWord(s[i]) { RunEndRuns(s, i + 1); }
  }

  /** What is replaced is one whole match, and a whole match is what is replaced. */
  lemma {:induction false} ReplacedIsToken(s: string, p: string, rest: string)
    requires s == p + rest
    ensures Secret(s) && SecretLength(s) == |p| <==> Token(p, rest)
  {
    LiteralOfPrefix(p, rest, "sk_live_");
    LiteralOfPrefix(p, rest, "sk_test_");
    LiteralOfPrefix(p, rest, "rk_live_");
    LiteralOfPrefix(p, rest, "pk_live_");
    LiteralOfPrefix(p, rest, "whsec_");
    LiteralOfPrefix(p, rest, "sg.");
    LiteralOfPrefix(p, rest, "akia");
    FirstLetters(s);
    hide Literal;
    assert forall i | 0 <= i < |p| :: s[i] == p[i];
    assert rest != "" ==> s[|p|] == rest[0];
    if |s| >= 23 { RunEndRuns(s, 23); }
    if |p| >= 23 && WordRun(p, 3, |p|) && (rest == "" || !IsWord(rest[0])) { RunEndIs(s, 23, |p|); }
    hide IsWord, IsAlnum;
  }

  lemma LiteralOfPrefix(p: string, rest: string, literal: string)
    ensures |literal| <= |p| ==> (Literal(p + rest, literal) <==> Literal(p, literal))
  {
  }

  /** The alternatives exclude each other. */
  lemma FirstLetters(s: string)
    ensures Literal(s, "sk_live_") || Literal(s, "sk_test_") ==> Fold(s[0]) == 's' && Fold(s[1]) == 'k'
    ensures Literal(s, "sg.") ==> Fold(s[0]) == 's' && Fold(s[1]) == 'g'
    ensures Literal(s, "whsec_") ==> Fold(s[0]) == 'w'
    ensures Literal(s, "rk_live_") ==> Fold(s[0]) == 'r'
    ensures Literal(s, "pk_live_") ==> Fold(s[0]) == 'p'
    ensures Literal(s, "akia") ==> Fold(s[0]) == 'a'
  {
  }

  const MASK := "[REDACTED]"

  /** _redact_secrets: leftmost, non-overlapping substitution. */
  function Redact(s: string): string
    decreases |s|
  {
    if s == "" then ""
    else if Secret(s) then MASK + Redact(s[SecretLength(s)..])
    else [s[0]] + Redact(s[1..])
  }

  /** No place of s starts a match of the redaction pattern. */
  predicate Clean(s: string) {
    !Secret(s) && (s != "" ==> Clean(s[1..]))
  }

  /** No place of s starts a match of the validator's pattern. */
  predicate PassesValidator(s: string) {
    !NarrowSecret(s) && (s != "" ==> PassesValidator(s[1..]))
  }

  // ---------- strings ----------

  /** y repeats x up to place n, where y has a bracket. */
  predicate AgreesUpTo(x: string, y: string, n: nat) {
    n <= |x| && n < |y| && y[n] == '[' && forall i | 0 <= i < n :: x[i] == y[i]
  }

  lemma LiteralStopsAtBracket(x: string, y: string, n: nat, literal: string)
    requires AgreesUpTo(x, y, n) && forall i | 0 <= i < |literal| :: literal[i] != '['
    ensures Literal(y, literal) ==> Literal(x, literal) && |literal| <= n
  {
    assert Fold('[') == '[';
  }

  lemma RunsStopAtBracket(x: string, y: string, n: nat, from: nat, to: nat)
    requires AgreesUpTo(x, y, n) && from <= to
    ensures AlnumRun(y, from, to) && from <= n ==> AlnumRun(x, from, to)
    ensures WordRun(y, from, to) && from <= n ==> WordRun(x, from, to)
  {
    assert !IsWord('[');
    assert from <= n < to ==> !IsWord(y[n]);
  }

  /** A match never reaches across a bracket, so it was already there before redaction. */
  lemma MatchStopsAtBracket(x: string, y: string, n: nat)
    requires AgreesUpTo(x, y, n) && Secret(y)
    ensures Secret(x)
  {
    LiteralStopsAtBracket(x, y, n, "sk_live_");
    LiteralStopsAtBracket(x, y, n, "sk_test_");
    LiteralStopsAtBracket(x, y, n, "whsec_");
    LiteralStopsAtBracket(x, y, n, "sg.");
    LiteralStopsAtBracket(x, y, n, "rk_live_");
    LiteralStopsAtBracket(x, y, n, "pk_live_");
    LiteralStopsAtBracket(x, y, n, "akia");
    hide Literal, AgreesUpTo;
    assert AgreesUpTo(x, y, n);
    RunsStopAtBracket(x, y, n, 3, 23);
    RunsStopAtBracket(x, y, n, 4, 20);
    hide WordRun, AlnumRun;
  }

  /** Redaction copies the text up to the first mask. */
  lemma {:induction false} RedactCopies(s: string) returns (n: nat)
    ensures Redact(s) == s || AgreesUpTo(s, Redact(s), n)
    decreases |s|
  {
    n := 0;
    if s != "" {
      if Secret(s) {
        assert Redact(s)[0] == MASK[0] == '[';
      } else {
        var m := RedactCopies(s[1..]);
        n := m + 1;
        assert s == [s[0]] + s[1..];
        assert Redact(s)[1..] == Redact(s[1..]);
      }
    }
  }

  /** Whether a match can start with this character and this next one. */
  predicate MayStart(c: char, d: char) {
    Fold(c) in {'s', 'w', 'r', 'p', 'a'} && Fold(d) in {'k', 'h', 'g'}
  }

  /** Every match begins with one of five letters followed by k, h or g. */
  lemma SecretStart(s: string)
    ensures Secret(s) ==> |s| >= 2 && MayStart(s[0], s[1])
  {
    LiteralStart(s, "sk_live_");
    LiteralStart(s, "sk_test_");
    LiteralStart(s, "whsec_");
    LiteralStart(s, "sg.");
    LiteralStart(s, "rk_live_");
    LiteralStart(s, "pk_live_");
    LiteralStart(s, "akia");
    hide Literal, WordRun, AlnumRun, Fold;
    assert Secret(s) ==> |s| >= 2 && Fold(s[1]) in {'k', 'h', 'g'} && Fold(s[0]) in {'s', 'w', 'r', 'p', 'a'};
  }

  lemma LiteralStart(s: string, literal: string)
    requires |literal| >= 2
    ensures Literal(s, literal) ==> |s| >= 2 && Fold(s[0]) == literal[0] && Fold(s[1]) == literal[1]
  {
  }

  lemma {:induction false} NoStartClean(u: string, t: string)
    requires Clean(t)
    requires forall i | 0 <= i < |u| - 1 :: !MayStart(u[i], u[i + 1])
    requires u != "" && t != "" ==> !MayStart(u[|u| - 1], t[0])
    ensures Clean(u + t)
  {
    if u == "" {
      assert u + t == t;
    } else {
      var s := u + t;
      assert s[1..] == u[1..] + t && s[0] == u[0];
      assert |s| >= 2 ==> s[1] == if |u| > 1 then u[1] else t[0];
      hide Secret, MayStart;
      NoStartClean(u[1..], t);
      SecretStart(s);
    }
  }

  /** No letter of the mask can be the second of a match, and its last cannot be the first. */
  lemma MaskLetters()
    ensures forall i | 0 <= i < |MASK| :: Fold(MASK[i]) !in {'k', 'h', 'g'}
    ensures |MASK| == 10 && MASK[9] == ']' && forall d :: !MayStart(']', d)
  {
  }

  /** A mask in front of clean text is clean. */
  lemma MaskClean(t: string)
    requires Clean(t)
    ensures Clean(MASK + t)
  {
    hide Clean, Fold;
    MaskLetters();
    NoStartClean(MASK, t);
  }

  /** Redaction is complete: no match is left anywhere, not even across the seams. */
  lemma {:induction false} RedactCleans(s: string)
    ensures Clean(Redact(s))
    decreases |s|
  {
    hide Secret;
    if s == "" {
      EmptyClean();
    } else if Secret(s) {
      RedactCleans(s[SecretLength(s)..]);
      MaskClean(Redact(s[SecretLength(s)..]));
    } else {
      RedactCleans(s[1..]);
      var r := Redact(s);
      assert r[1..] == Redact(s[1..]);
      var n := RedactCopies(s);
      if r != s && Secret(r) {
        MatchStopsAtBracket(s, r, n);
        assert false;
      }
    }
  }

  lemma EmptyClean()
    ensures Clean("")
  {
    SecretStart("");
  }

  lemma {:induction false} CleanUnchanged(s: string)
    requires Clean(s)
    ensures Redact(s) == s
    decreases |s|
  {
    if s != "" {
      CleanUnchanged(s[1..]);
      assert s == [s[0]] + s[1..];
    }
  }

  /** A string changes exactly when it holds a match; a second pass changes nothing. */
  lemma {:induction false} RedactExact(s: string)
    ensures Redact(s) == s <==> Clean(s)
    ensures Redact(Redact(s)) == Redact(s)
  {
    hide Secret;
    RedactCleans(s);
    CleanUnchanged(Redact(s));
    if Clean(s) {
      CleanUnchanged(s);
    }
  }

  /** The validator's pattern only matches where the redaction pattern does. */
  lemma {:induction false} CleanPassesValidator(s: string)
    requires Clean(s)
    ensures PassesValidator(s)
  {
    NarrowIsSecret(s);
    hide Secret, NarrowSecret;
    if s != "" {
      CleanPassesValidator(s[1..]);
    }
  }

  lemma NarrowIsSecret(s: string)
    ensures NarrowSecret(s) ==> Secret(s)
  {
  }

  // ---------- values ----------

  /** _redact_obj: keys stay as they are. */
  function RedactObj(v: Json): Json
    decreases v, 1
  {
    match v
    case Str(s) => Str(Redact(s))
    case Arr(items) => Arr(RedactItems(items))
    case Obj(ms) => Obj(RedactMembers(ms))
    case _ => v
  }

  function RedactItems(items: seq<Json>): (r: seq<Json>)
    ensures |r| == |items| && forall i | 0 <= i < |items| :: r[i] == RedactObj(items[i])
    decreases items, 0
  {
    if items == [] then [] else [RedactObj(items[0])] + RedactItems(items[1..])
  }

  function RedactMembers(ms: seq<Member>): (r: seq<Member>)
    ensures |r| == |ms| && forall i | 0 <= i < |ms| :: r[i] == Member(ms[i].name, RedactObj(ms[i].value))
    decreases ms, 0
  {
    if ms == [] then [] else [Member(ms[0].name, RedactObj(ms[0].value))] + RedactMembers(ms[1..])
  }

  /** Every string value, at any depth, is free of matches. */
  predicate AllClean(v: Json) {
    match v
    case Str(s) => Clean(s)
    case Arr(items) => forall i | 0 <= i < |items| :: AllClean(items[i])
    case Obj(ms) => forall i | 0 <= i < |ms| :: AllClean(ms[i].value)
    case _ => true
  }

  /** Same constructor, same keys in the same order, same values that are no strings. */
  predicate SameShape(v: Json, w: Json) {
    match v
    case Str(_) => w.Str?
    case Arr(xs) => w.Arr? && |w.items| == |xs| && forall i | 0 <= i < |xs| :: SameShape(xs[i], w.items[i])
    case Obj(ms) =>
      w.Obj? && |w.members| == |ms|
      && forall i | 0 <= i < |ms| :: ms[i].name == w.members[i].name && SameShape(ms[i].value, w.members[i].value)
    case _ => v == w
  }

  lemma {:induction false} RedactObjCleans(v: Json)
    ensures AllClean(RedactObj(v)) && SameShape(v, RedactObj(v))
  {
    match v
    case Str(s) => RedactCleans(s);
    case Arr(items) =>
      forall i | 0 <= i < |items|
        ensures AllClean(RedactItems(items)[i]) && SameShape(items[i], RedactItems(items)[i])
      {
        RedactObjCleans(items[i]);
      }
    case Obj(ms) =>
      forall i | 0 <= i < |ms|
        ensures AllClean(RedactMembers(ms)[i].value) && SameShape(ms[i].value, RedactMembers(ms)[i].value)
      {
        RedactObjCleans(ms[i].value);
      }
    case _ =>
  }

  /** A value changes exactly when some string in it holds a match. */
  lemma {:induction false} RedactObjExact(v: Json)
    ensures RedactObj(v) == v <==> AllClean(v)
  {
    match v
    case Str(s) => RedactExact(s);
    case Arr(items) =>
      forall i | 0 <= i < |items| ensures RedactItems(items)[i] == items[i] <==> AllClean(items[i]) {
        RedactObjExact(items[i]);
      }
      if AllClean(v) { assert RedactItems(items) == items; }
    case Obj(ms) =>
      forall i | 0 <= i < |ms| ensures RedactMembers(ms)[i] == ms[i] <==> AllClean(ms[i].value) {
        RedactObjExact(ms[i].value);
      }
      if AllClean(v) { assert RedactMembers(ms) == ms; }
    case _ =>
  }

  lemma {:induction false} RedactObjIdempotent(v: Json)
    ensures RedactObj(RedactObj(v)) == RedactObj(v)
  {
    RedactObjCleans(v);
    RedactObjExact(RedactObj(v));
  }
}
