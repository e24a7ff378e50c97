/** The merge-conflict resolvers: replace every conflict block by its second side until none is left. */
module ConflictResolver {
  import opened Wrappers

  /** KeepTail is resolve_all (the line end after a block stays);
      AppendNewline is resolve_remaining (the line end is taken in and a newline put back). */
  datatype Script = KeepTail | AppendNewline

  const OPEN := "<<<<<<<"
  const MIDDLE := "\n=======\n"
  const CLOSE := "\n>>>>>>>"

  // ---------- the pattern, as the regular expression engine finds it ----------

  /** Around the first occurrence of pat: (.*?) before it, and what follows it. */
  function SplitAt(s: string, pat: string): (r: Option<(string, string)>)
    ensures r.Some? ==> s == r.value.0 + (pat + r.value.1)
  {
    if pat <= s then Some(("", s[|pat|..]))
    else if s == "" then None
    else
      match SplitAt(s[1..], pat)
      case None => None
      case Some((before, after)) => Some(([s[0]] + before, after))
  }

  /** What follows [^\n]* : empty, or a text that starts with the newline. */
  function RestOfLine(s: string): (r: string)
    ensures |r| <= |s| && (r != "" ==> r[0] == '\n')
  {
    if s == "" || s[0] == '\n' then s else RestOfLine(s[1..])
  }

  /** The match that starts at the front of s: its second group, and the text after the match. */
  function Match(script: Script, s: string): (r: Option<(string, string)>)
    ensures r.Some? ==> |r.value.0| + |r.value.1| + 25 <= |s|
  {
    if !(OPEN <= s) || RestOfLine(s[7..]) == "" then None
    else
      match SplitAt(RestOfLine(s[7..])[1..], MIDDLE)
      case None => None
      case Some((_, t)) =>
        match SplitAt(t, CLOSE)
        case None => None
        case Some((theirs, u)) =>
          var rest := RestOfLine(u);
          Some((theirs, if script.AppendNewline? && rest != "" then rest[1..] else rest))
  }

  function Replacement(script: Script, theirs: string): string {
    if script.KeepTail? then theirs else theirs + "\n"
  }

  /** pattern.subn: leftmost matches, each replaced, and their number. */
  function SubN(script: Script, s: string): (string, nat)
    decreases |s|
  {
    if s == "" then ("", 0)
    else
      match Match(script, s)
      case Some((theirs, rest)) =>
        (Replacement(script, theirs) + SubN(script, rest).0, SubN(script, rest).1 + 1)
      case None =>
        ([s[0]] + SubN(script, s[1..]).0, SubN(script, s[1..]).1)
  }

  // ---------- the pattern matches exactly the blocks ----------

  /** The pattern, declaratively: header line, first side, separator line, second side, closing marker. */
  ghost predicate IsBlock(s: string, header: string, ours: string, theirs: string, rest: string) {
    OneLine(header) && s == OPEN + (header + ("\n" + (ours + (MIDDLE + (theirs + (CLOSE + rest))))))
  }

  predicate OneLine(s: string) {
    forall i | 0 <= i < |s| :: s[i] != '\n'
  }

  /** A continuation that keeps lines apart. */
  predicate LineBreak(rest: string) {
    rest == "" || rest[0] == '\n'
  }

  lemma {:induction false} RestAfter(l: string, rest: string)
    requires OneLine(l) && LineBreak(rest)
    ensures RestOfLine(l + rest) == rest
  {
    if l == "" {
      assert l + rest == rest;
    } else {
      assert (l + rest)[1..] == l[1..] + rest;
      RestAfter(l[1..], rest);
    }
  }

  lemma {:induction false} LineBefore(s: string) returns (l: string)
    ensures OneLine(l) && s == l + RestOfLine(s)
  {
    if s == "" || s[0] == '\n' {
      l := "";
    } else {
      var l' := LineBefore(s[1..]);
      l := [s[0]] + l';
    }
  }

  /** An occurrence is found, at the latest where it is. */
  lemma {:induction false} SplitFinds(a: string, pat: string, r: string) returns (d: string)
    ensures SplitAt(a + (pat + r), pat).Some? && SplitAt(a + (pat + r), pat).value.1 == d + r
  {
    var s := a + (pat + r);
    if pat <= s {
      d := s[|pat|..|s| - |r|];
      assert s[|s| - |r|..] == r;
    } else {
      assert a == "" ==> s == pat + r;
      assert s[1..] == a[1..] + (pat + r);
      d := SplitFinds(a[1..], pat, r);
    }
  }

  lemma BlockOfMatch(script: Script, s: string) returns (h: string, a: string, b: string, rest: string)
    requires Match(script, s).Some?
    ensures IsBlock(s, h, a, b, rest) && b == Match(script, s).value.0
  {
    h := LineBefore(s[7..]);
    var r := RestOfLine(s[7..]);
    a := SplitAt(r[1..], MIDDLE).value.0;
    var t := SplitAt(r[1..], MIDDLE).value.1;
    b, rest := SplitAt(t, CLOSE).value.0, SplitAt(t, CLOSE).value.1;
    assert s == OPEN + s[7..] && r == "\n" + r[1..];
  }

  lemma MatchOfBlock(script: Script, s: string, h: string, a: string, b: string, rest: string)
    requires IsBlock(s, h, a, b, rest)
    ensures Match(script, s).Some?
  {
    var t := b + (CLOSE + rest);
    var body := a + (MIDDLE + t);
    assert s[7..] == h + ("\n" + body);
    RestAfter(h, "\n" + body);
    assert ("\n" + body)[1..] == body;
    var d := SplitFinds(a, MIDDLE, t);
    assert d + t == (d + b) + (CLOSE + rest);
    var _ := SplitFinds(d + b, CLOSE, rest);
  }

  /** There is a match at the front of s exactly when s is a block followed by anything. */
  lemma {:induction false} MatchIffBlock(script: Script, s: string)
    ensures Match(script, s).Some? <==> exists h, a, b, rest :: IsBlock(s, h, a, b, rest)
  {
    if Match(script, s).Some? {
      var h, a, b, rest := BlockOfMatch(script, s);
    }
    if h, a, b, rest :| IsBlock(s, h, a, b, rest) {
      MatchOfBlock(script, s, h, a, b, rest);
    }
  }

  // ---------- one pass ----------

  predicate NoMatch(script: Script, s: string)
    decreases |s|
  {
    Match(script, s).None? && (s != "" ==> NoMatch(script, s[1..]))
  }

  /** NoMatch in the words of the pattern: no block starts anywhere. */
  lemma {:induction false} NoMatchMeansNoBlock(script: Script, s: string)
    ensures NoMatch(script, s) <==>
      forall i, h, a, b, rest :: 0 <= i <= |s| ==> !IsBlock(s[i..], h, a, b, rest)
    decreases |s|
  {
    hide Match, IsBlock;
    assert s[0..] == s;
    MatchIffBlock(script, s);
    if s == "" {
      assert forall i | 0 <= i <= |s| :: s[i..] == s;
    } else {
      var t := s[1..];
      NoMatchMeansNoBlock(script, t);
      assert forall i | 0 <= i <= |t| :: t[i..] == s[i + 1..];
      assert forall i | 1 <= i <= |s| :: s[i..] == t[i - 1..];
    }
  }

  /** A replacement shortens the text by 25 characters or more, 24 where a newline is put back. */
  function Shrink(script: Script): nat {
    if script.KeepTail? then 25 else 24
  }

  lemma {:induction false} SubNShrinks(script: Script, s: string)
    ensures |SubN(script, s).0| + Shrink(script) * SubN(script, s).1 <= |s|
    decreases |s|
  {
    if s != "" {
      match Match(script, s)
      case Some((theirs, rest)) => SubNShrinks(script, rest);
      case None => SubNShrinks(script, s[1..]);
    }
  }

  /** A pass makes no replacement exactly when there is no match, and then changes nothing. */
  lemma {:induction false} SubNZero(script: Script, s: string)
    ensures SubN(script, s).1 == 0 <==> NoMatch(script, s)
    ensures SubN(script, s).1 == 0 ==> SubN(script, s).0 == s
    decreases |s|
  {
    hide Match;
    if s == "" {
      assert Match(script, s).None?;
    } else {
      SubNZero(script, s[1..]);
      assert s == [s[0]] + s[1..];
    }
  }

  // ---------- the loop ----------

  /** The text when no block is left, and the number of blocks replaced on the way. */
  function Fixpoint(script: Script, s: string): (string, nat)
    decreases |s|
  {
    var (t, n) := SubN(script, s);
    if n == 0 then (t, 0)
    else
      SubNShrinks(script, s);
      (Fixpoint(script, t).0, n + Fixpoint(script, t).1)
  }

  method Resolve(script: Script, text: string) returns (s: string, total: nat)
    ensures NoMatch(script, s)
    ensures (s, total) == Fixpoint(script, text)
    ensures |s| + Shrink(script) * total <= |text|
  {
    hide SubN, NoMatch;
    s, total := text, 0;
    while true
      invariant Fixpoint(script, text).0 == Fixpoint(script, s).0
      invariant Fixpoint(script, text).1 == Fixpoint(script, s).1 + total
      invariant |s| + Shrink(script) * total <= |text|
      decreases |s|
    {
      SubNShrinks(script, s);
      SubNZero(script, s);
      var (t, n) := SubN(script, s);
      s := t;
      total := total + n;
      if n == 0 {
        break;
      }
    }
  }

  // ---------- the file ----------

  /** Text mode reading: "\r\n" and "\r" become "\n". */
  function UniversalNewlines(raw: string): (r: string)
    ensures forall i | 0 <= i < |r| :: r[i] != '\r'
  {
    if raw == "" then ""
    else if "\r\n" <= raw then "\n" + UniversalNewlines(raw[2..])
    else [if raw[0] == '\r' then '\n' else raw[0]] + UniversalNewlines(raw[1..])
  }

  /** read_text(encoding='utf-8-sig') on decoded characters. */
  function ReadText(raw: string): string {
    UniversalNewlines(if raw != "" && raw[0] == '\U{FEFF}' then raw[1..] else raw)
  }

  /** One file of a script: read, resolve, write. The pattern never meets a carriage return. */
  method ResolveFile(script: Script, raw: string) returns (written: string, total: nat)
    ensures (written, total) == Fixpoint(script, ReadText(raw)) && NoMatch(script, written)
  {
    written, total := Resolve(script, ReadText(raw));
  }

  // ---------- rendered documents ----------

  /** A file with conflicts, line by line. */
  datatype Part =
    | Plain(line: string)
    | Conflict(header: string, ours: seq<string>, theirs: seq<string>, branch: string)

  predicate Contains(s: string, pat: string) {
    pat <= s || (s != "" && Contains(s[1..], pat))
  }

  /** A line that keeps the opening marker out, anywhere. */
  predicate MarkerFree(line: string) {
    OneLine(line) && !Contains(line, OPEN)
  }

  /** Lines of one side, none of which starts with the separator pat minus its leading newline. */
  predicate Side(lines: seq<string>, pat: string)
    requires pat != ""
  {
    lines != [] && forall i | 0 <= i < |lines| :: OneLine(lines[i]) && !(pat[1..] <= lines[i] + "\n")
  }

  predicate AllMarkerFree(lines: seq<string>) {
    forall i | 0 <= i < |lines| :: MarkerFree(lines[i])
  }

  predicate Sound(p: Part) {
    match p
    case Plain(line) => MarkerFree(line)
    case Conflict(header, ours, theirs, branch) =>
      OneLine(header) && OneLine(branch) && Side(ours, MIDDLE) && Side(theirs, CLOSE) && AllMarkerFree(theirs)
  }

  predicate AllSound(doc: seq<Part>) {
    forall i | 0 <= i < |doc| :: Sound(doc[i])
  }

  /** "\n".join(lines), followed by k. */
  function PutLines(lines: seq<string>, k: string): string
    requires lines != []
  {
    if |lines| == 1 then lines[0] + k else lines[0] + ("\n" + PutLines(lines[1..], k))
  }

  function PutPart(p: Part, k: string): string
    requires Sound(p)
  {
    match p
    case Plain(line) => line + k
    case Conflict(header, ours, theirs, branch) =>
      OPEN + (header + ("\n" + PutLines(ours, MIDDLE + PutLines(theirs, CLOSE + (branch + k)))))
  }

  /** The file: parts separated by newlines. */
  function Text(doc: seq<Part>): string
    requires doc != [] && AllSound(doc)
  {
    PutPart(doc[0], if |doc| == 1 then "" else "\n" + Text(doc[1..]))
  }

  function KeptLines(p: Part): (r: seq<string>)
    requires Sound(p)
    ensures r != [] && AllMarkerFree(r)
  {
    match p
    case Plain(line) => [line]
    case Conflict(_, _, theirs, _) => theirs
  }

  /** What the resolver is meant to leave: plain lines and second sides;
      resolve_remaining ends a file with a newline when its last part was a conflict. */
  function Expected(script: Script, doc: seq<Part>): (r: seq<string>)
    requires doc != [] && AllSound(doc)
    ensures r != [] && AllMarkerFree(r)
  {
    if |doc| > 1 then KeptLines(doc[0]) + Expected(script, doc[1..])
    else if script.AppendNewline? && doc[0].Conflict? then KeptLines(doc[0]) + [""]
    else KeptLines(doc[0])
  }

  function Conflicts(doc: seq<Part>): nat {
    if doc == [] then 0 else (if doc[0].Conflict? then 1 else 0) + Conflicts(doc[1..])
  }

  // ---------- finding the separators of a rendered block ----------

  lemma {:induction false} SplitSkipsLine(l: string, rest: string, pat: string)
    requires OneLine(l) && pat != "" && pat[0] == '\n'
    ensures SplitAt(l + rest, pat)
         == match SplitAt(rest, pat) case None => None case Some((b, a)) => Some((l + b, a))
  {
    if l == "" {
      assert l + rest == rest;
      assert SplitAt(rest, pat).Some? ==> "" + SplitAt(rest, pat).value.0 == SplitAt(rest, pat).value.0;
    } else {
      assert (l + rest)[0] == l[0];
      assert (l + rest)[1..] == l[1..] + rest;
      SplitSkipsLine(l[1..], rest, pat);
      assert SplitAt(rest, pat).Some? ==>
        [l[0]] + (l[1..] + SplitAt(rest, pat).value.0) == l + SplitAt(rest, pat).value.0;
    }
  }

  lemma PrefixAgrees(core: string, t: string)
    ensures core <= t ==> |core| <= |t| && forall i | 0 <= i < |core| :: t[i] == core[i]
  {
  }

  /** A marker at the start of a line is that line. */
  lemma MarkerIsLine(core: string, l: string, rest: string)
    requires OneLine(l) && forall i | 0 <= i < |core| - 1 :: core[i] != '\n'
    ensures core <= l + ("\n" + rest) ==> core <= l + "\n"
  {
    var t := l + ("\n" + rest);
    PrefixAgrees(core, t);
    assert t[|l|] == '\n';
    if core <= t {
      assert (l + "\n")[..|core|] == t[..|core|];
    }
  }

  predicate IsSeparator(pat: string) {
    |pat| >= 2 && pat[0] == '\n' && forall i | 1 <= i < |pat| - 1 :: pat[i] != '\n'
  }

  /** No line of a side is taken for the separator. */
  lemma SideHidesSeparator(lines: seq<string>, pat: string, k: string)
    requires IsSeparator(pat) && Side(lines, pat)
    ensures !(pat <= "\n" + PutLines(lines, pat + k))
  {
    var t := PutLines(lines, pat + k);
    var after := if |lines| == 1 then pat[1..] + k else PutLines(lines[1..], pat + k);
    assert pat + k == "\n" + (pat[1..] + k);
    assert t == lines[0] + ("\n" + after);
    MarkerIsLine(pat[1..], lines[0], after);
    PrefixShift(pat, t);
  }

  lemma PrefixShift(pat: string, t: string)
    requires pat != ""
    ensures pat <= "\n" + t ==> pat[1..] <= t
  {
    assert ("\n" + t)[1..] == t;
  }

  /** The separator is found right after the lines of a side. */
  lemma {:induction false} SplitAfterSide(lines: seq<string>, pat: string, k: string)
    requires IsSeparator(pat) && Side(lines, pat)
    ensures SplitAt(PutLines(lines, pat + k), pat) == Some((PutLines(lines, ""), k))
  {
    var l := lines[0];
    assert pat <= pat + k && (pat + k)[|pat|..] == k;
    if |lines| == 1 {
      SplitSkipsLine(l, pat + k, pat);
    } else {
      var more := lines[1..];
      var tail := PutLines(more, pat + k);
      SplitSkipsLine(l, "\n" + tail, pat);
      SideHidesSeparator(more, pat, k);
      SplitAfterSide(more, pat, k);
      NextLineSplit(tail, pat);
    }
  }

  lemma NextLineSplit(tail: string, pat: string)
    requires !(pat <= "\n" + tail) && SplitAt(tail, pat).Some?
    ensures SplitAt("\n" + tail, pat)
         == Some(("\n" + SplitAt(tail, pat).value.0, SplitAt(tail, pat).value.1))
  {
    assert ("\n" + tail)[1..] == tail;
  }

  lemma Separators()
    ensures IsSeparator(MIDDLE) && IsSeparator(CLOSE)
  {
  }

  /** A rendered conflict is one match, up to its last character or the newline after it. */
  lemma ConflictMatches(script: Script, p: Part, k: string)
    requires p.Conflict? && Sound(p) && LineBreak(k)
    ensures Match(script, PutPart(p, k))
         == Some((PutLines(p.theirs, ""), if script.AppendNewline? && k != "" then k[1..] else k))
  {
    var theirs := PutLines(p.theirs, CLOSE + (p.branch + k));
    var ours := PutLines(p.ours, MIDDLE + theirs);
    var s := PutPart(p, k);
    assert s == OPEN + (p.header + ("\n" + ours));
    assert s[7..] == p.header + ("\n" + ours);
    RestAfter(p.header, "\n" + ours);
    assert ("\n" + ours)[1..] == ours;
    Separators();
    SplitAfterSide(p.ours, MIDDLE, theirs);
    SplitAfterSide(p.theirs, CLOSE, p.branch + k);
    RestAfter(p.branch, k);
    hide PutPart, PutLines, Side, IsSeparator, SplitAt;
  }

  // ---------- one pass over a rendered document ----------

  lemma OpenInLine(l: string, rest: string)
    requires LineBreak(rest)
    ensures OPEN <= l + rest ==> OPEN <= l
  {
    var s := l + rest;
    PrefixAgrees(OPEN, s);
    assert |l| < |s| ==> s[|l|] == rest[0];
    if OPEN <= s {
      assert s[..7] == l[..7];
    }
  }

  lemma NoOpenNoMatch(script: Script, s: string)
    ensures !(OPEN <= s) ==> Match(script, s).None?
  {
  }

  lemma {:induction false} PlainPasses(script: Script, l: string, rest: string)
    requires MarkerFree(l) && LineBreak(rest)
    ensures SubN(script, l + rest) == (l + SubN(script, rest).0, SubN(script, rest).1)
    decreases |l|
  {
    if l == "" {
      assert l + rest == rest;
      assert l + SubN(script, rest).0 == SubN(script, rest).0;
    } else {
      hide Match;
      var s := l + rest;
      OpenInLine(l, rest);
      NoOpenNoMatch(script, s);
      assert s[1..] == l[1..] + rest && s[0] == l[0];
      PlainPasses(script, l[1..], rest);
      assert [l[0]] + (l[1..] + SubN(script, rest).0) == l + SubN(script, rest).0;
    }
  }

  lemma NewlinePasses(script: Script, rest: string)
    ensures SubN(script, "\n" + rest) == ("\n" + SubN(script, rest).0, SubN(script, rest).1)
  {
    var s := "\n" + rest;
    assert s[0] == '\n' && s[1..] == rest;
    assert Match(script, s).None?;
  }

  lemma {:induction false} LinesPass(script: Script, lines: seq<string>)
    requires lines != [] && AllMarkerFree(lines)
    ensures SubN(script, PutLines(lines, "")) == (PutLines(lines, ""), 0)
  {
    hide SubN, MarkerFree;
    EmptyPasses(script);
    if |lines| == 1 {
      PlainPasses(script, lines[0], "");
    } else {
      LinesPass(script, lines[1..]);
      NewlinePasses(script, PutLines(lines[1..], ""));
      PlainPasses(script, lines[0], "\n" + PutLines(lines[1..], ""));
    }
  }

  lemma EmptyPasses(script: Script)
    ensures SubN(script, "") == ("", 0)
  {
  }

  lemma {:induction false} PutLinesConcat(a: seq<string>, b: seq<string>, k: string)
    requires a != [] && b != []
    ensures PutLines(a + b, k) == PutLines(a, "\n" + PutLines(b, k))
  {
    if |a| == 1 {
      assert (a + b)[1..] == b;
    } else {
      assert (a + b)[1..] == a[1..] + b;
      PutLinesConcat(a[1..], b, k);
    }
  }

  lemma {:induction false} PutLinesAppends(lines: seq<string>, k: string)
    requires lines != []
    ensures PutLines(lines, k) == PutLines(lines, "") + k
  {
    if |lines| == 1 {
      assert lines[0] + "" == lines[0];
    } else {
      PutLinesAppends(lines[1..], k);
      assert lines[0] + ("\n" + (PutLines(lines[1..], "") + k)) == lines[0] + ("\n" + PutLines(lines[1..], "")) + k;
    }
  }

  lemma ConflictNotEmpty(p: Part, k: string)
    requires p.Conflict? && Sound(p)
    ensures PutPart(p, k) != ""
  {
    assert PutPart(p, k)[0] == OPEN[0];
  }

  lemma MatchPasses(script: Script, s: string, theirs: string, rest: string)
    requires s != "" && Match(script, s) == Some((theirs, rest))
    ensures SubN(script, s) == (Replacement(script, theirs) + SubN(script, rest).0, SubN(script, rest).1 + 1)
  {
    hide Match;
  }

  lemma ConflictReplaced(script: Script, p: Part, k: string)
    requires p.Conflict? && Sound(p) && LineBreak(k)
    ensures var rest := if script.AppendNewline? && k != "" then k[1..] else k;
      SubN(script, PutPart(p, k)) ==
      (Replacement(script, PutLines(p.theirs, "")) + SubN(script, rest).0, SubN(script, rest).1 + 1)
  {
    var theirs := PutLines(p.theirs, "");
    hide SubN, Match, PutPart, PutLines, Sound, LineBreak, Replacement;
    ConflictMatches(script, p, k);
    ConflictNotEmpty(p, k);
    MatchPasses(script, PutPart(p, k), theirs, if script.AppendNewline? && k != "" then k[1..] else k);
  }

  lemma ConflictPasses(script: Script, p: Part, k: string)
    requires p.Conflict? && Sound(p) && LineBreak(k)
    ensures script.KeepTail? ==>
      SubN(script, PutPart(p, k)) == (PutLines(p.theirs, "") + SubN(script, k).0, SubN(script, k).1 + 1)
    ensures script.AppendNewline? && k != "" ==>
      SubN(script, PutPart(p, k)) ==
      (PutLines(p.theirs, "") + "\n" + SubN(script, k[1..]).0, SubN(script, k[1..]).1 + 1)
    ensures script.AppendNewline? && k == "" ==> SubN(script, PutPart(p, k)) == (PutLines(p.theirs, "") + "\n", 1)
  {
    var line := PutLines(p.theirs, "") + "\n";
    hide SubN, PutPart, PutLines, Sound, LineBreak;
    ConflictReplaced(script, p, k);
    EmptyPasses(script);
    assert line + "" == line;
  }

  function Count(p: Part): nat {
    if p.Conflict? then 1 else 0
  }

  lemma ConflictPartPasses(script: Script, p: Part, more: string)
    requires p.Conflict? && Sound(p)
    ensures SubN(script, PutPart(p, "\n" + more))
         == (PutLines(p.theirs, "\n" + SubN(script, more).0), SubN(script, more).1 + 1)
  {
    hide *;
    var t := SubN(script, more).0;
    var k := "\n" + more;
    Breaks(more);
    ConflictPasses(script, p, k);
    assert k[1..] == more;
    NewlinePasses(script, more);
    SideNotEmpty(p);
    PutLinesAppends(p.theirs, "\n" + t);
    assert PutLines(p.theirs, "") + "\n" + t == PutLines(p.theirs, "") + ("\n" + t);
  }

  lemma Breaks(more: string)
    ensures LineBreak("\n" + more)
  {
  }

  lemma SideNotEmpty(p: Part)
    requires p.Conflict? && Sound(p)
    ensures p.theirs != []
  {
  }

  /** A part followed by more lines. */
  lemma PartPasses(script: Script, p: Part, more: string)
    requires Sound(p)
    ensures SubN(script, PutPart(p, "\n" + more))
         == (PutLines(KeptLines(p), "\n" + SubN(script, more).0), SubN(script, more).1 + Count(p))
  {
    hide SubN;
    if p.Plain? {
      NewlinePasses(script, more);
      PlainPasses(script, p.line, "\n" + more);
    } else {
      ConflictPartPasses(script, p, more);
    }
  }

  /** The last part. */
  lemma LastPartPasses(script: Script, p: Part)
    requires Sound(p)
    ensures AllSound([p])
    ensures SubN(script, PutPart(p, "")) == (PutLines(Expected(script, [p]), ""), Count(p))
  {
    EmptyPasses(script);
    hide SubN;
    if p.Plain? {
      PlainPasses(script, p.line, "");
    } else {
      ConflictPasses(script, p, "");
      PutLinesConcat(p.theirs, [""], "");
      assert PutLines([""], "") == "" && "\n" + "" == "\n";
      PutLinesAppends(p.theirs, "\n");
      hide PutPart, Sound, PutLines;
      assert PutLines(p.theirs, "") + "" == PutLines(p.theirs, "");
    }
  }

  /** One pass replaces exactly the conflicts of the document. */
  lemma {:induction false} DocumentPasses(script: Script, doc: seq<Part>)
    requires doc != [] && AllSound(doc)
    ensures SubN(script, Text(doc)) == (PutLines(Expected(script, doc), ""), Conflicts(doc))
  {
    hide SubN, PutPart, PutLines, Sound, KeptLines;
    var p := doc[0];
    if |doc| == 1 {
      LastPartPasses(script, p);
      assert doc == [p];
    } else {
      var more := doc[1..];
      DocumentPasses(script, more);
      PartPasses(script, p, Text(more));
      PutLinesConcat(KeptLines(p), Expected(script, more), "");
    }
  }

  /** Resolving a rendered document leaves the plain lines and the second side of every conflict. */
  lemma {:induction false} ResolvesDocument(script: Script, doc: seq<Part>)
    requires doc != [] && AllSound(doc)
    ensures Fixpoint(script, Text(doc)) == (PutLines(Expected(script, doc), ""), Conflicts(doc))
  {
    hide SubN, Text, PutLines, Expected, Conflicts;
    DocumentPasses(script, doc);
    LinesPass(script, Expected(script, doc));
    FixedStays(script, PutLines(Expected(script, doc), ""));
    SubNShrinks(script, Text(doc));
  }

  lemma FixedStays(script: Script, t: string)
    requires SubN(script, t) == (t, 0)
    ensures Fixpoint(script, t) == (t, 0)
  {
  }
}
