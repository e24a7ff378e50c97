/** When the manifest digest fixes the path of a listed file: exactly when the path holds no dict with two keys. */
module PathOrder {
  import opened Wrappers
  import opened Bytes
  import opened Json
  import opened Manifest
  import opened TamperEvidence
  import Canonical

  /** No text of a string begins with the text of another one: repr() of a str ends at its closing quote. */
  ghost predicate TextsApart(env: Env) {
    forall s, t | s != t :: !(env.reprStr(s) <= env.reprStr(t))
  }

  lemma {:induction false} LiteralContinues(s: string, k: string)
    ensures PutChars(s, "") + k == PutChars(s, k)
  {
    hide PutChar;
    if s != "" {
      LiteralContinues(s[1..], k);
      CharContinues(s[0], PutChars(s[1..], ""), k);
    }
  }

  lemma CharContinues(c: char, x: string, k: string)
    ensures PutChar(c, x) + k == PutChar(c, x + k)
  {
  }

  /** A literal is read back from the front of a text, so it begins with no other literal. */
  lemma LiteralBegins(s: string, t: string)
    ensures PutString(s, "") <= PutString(t, "") ==> s == t
  {
    hide PutChars, ReadChars;
    var a, b := PutChars(s, ""), PutChars(t, "");
    if PutString(s, "") <= PutString(t, "") {
      assert PutString(s, "")[1..] == a && PutString(t, "")[1..] == b;
      var k := b[|a|..];
      assert b == a + k;
      LiteralContinues(s, k);
      CharsRead(s, k);
      CharsRead(t, "");
    }
  }

  /** An example: strings printed as JSON literals. */
  lemma {:induction false} JsonLiteralsApart(sha: Hash)
    ensures TextsApart(Env(sha, s => PutString(s, "")))
  {
    hide PutString;
    forall s, t | s != t ensures !(PutString(s, "") <= PutString(t, "")) {
      LiteralBegins(s, t);
    }
  }

  // ---------- another order of the keys ----------

  /** The value with the first dict of two or more keys reordered; the value itself when there is none. */
  function Twin(v: Json): Json
    decreases v, 1
  {
    match v
    case Arr(items) => Arr(TwinItems(items))
    case Obj(ms) =>
      if ms == [] then v
      else if |ms| == 1 then Obj([Member(ms[0].name, Twin(ms[0].value))])
      else Obj(Swapped(ms))
    case _ => v
  }

  function TwinItems(items: seq<Json>): seq<Json>
    decreases items, 0
  {
    if items == [] then []
    else if Unambiguous(items[0]) then [items[0]] + TwinItems(items[1..])
    else [Twin(items[0])] + items[1..]
  }

  function Swapped(xs: seq<Member>): (r: seq<Member>)
    requires |xs| > 1
    ensures |r| == |xs| && r[0] == xs[1] && r[1] == xs[0] && forall i | 2 <= i < |xs| :: r[i] == xs[i]
    ensures forall m :: m in r <==> m in xs
  {
    var r := [xs[1], xs[0]] + xs[2..];
    assert xs == [xs[0], xs[1]] + xs[2..];
    r
  }

  lemma SwapNorm(ms: seq<Member>)
    requires |ms| > 1 && DistinctNames(ms)
    ensures DistinctNames(Swapped(ms)) && Canonical.Norm(Obj(Swapped(ms))) == Canonical.Norm(Obj(ms))
  {
    var ns := Swapped(ms);
    assert Canonical.NormMembers(ns) == Swapped(Canonical.NormMembers(ms));
    hide Canonical.Norm, Canonical.NormMembers, Swapped;
    Canonical.SortedMembersEqual(ms, ns);
  }

  lemma {:induction false} TwinNorm(v: Json)
    requires WellFormed(v)
    ensures WellFormed(Twin(v)) && Canonical.Norm(Twin(v)) == Canonical.Norm(v)
    decreases v, 1
  {
    match v
    case Arr(items) =>
      TwinItemsNorm(items);
      Canonical.ArraysNormEqual(TwinItems(items), items);
    case Obj(ms) =>
      if |ms| == 1 {
        TwinNorm(ms[0].value);
        assert Canonical.NormMembers([Member(ms[0].name, Twin(ms[0].value))]) == Canonical.NormMembers(ms);
      } else if |ms| > 1 {
        SwapNorm(ms);
      }
    case _ =>
  }

  lemma {:induction false} TwinItemsNorm(items: seq<Json>)
    requires forall i | 0 <= i < |items| :: WellFormed(items[i])
    ensures |TwinItems(items)| == |items|
    ensures forall i | 0 <= i < |items| ::
      WellFormed(TwinItems(items)[i]) && Canonical.Norm(TwinItems(items)[i]) == Canonical.Norm(items[i])
    decreases items, 0
  {
    hide Canonical.Norm, WellFormed, Unambiguous;
    if items != [] {
      TwinNorm(items[0]);
      if Unambiguous(items[0]) {
        TwinItemsNorm(items[1..]);
      }
    }
  }

  // ---------- shows in the text ----------

  lemma SameHead(a: string, x: string, y: string)
    ensures a + x == a + y ==> x == y
  {
    assert (a + x)[|a|..] == x && (a + y)[|a|..] == y;
  }

  lemma SameTail(x: string, y: string, z: string)
    ensures x + z == y + z ==> x == y
  {
    if x + z == y + z {
      assert |x| == |y|;
      assert (x + z)[..|x|] == x && (y + z)[..|y|] == y;
    }
  }

  lemma OneBegins(t: string, u: string, a: string, b: string)
    requires a <= t && b <= u
    ensures t == u ==> a <= b || b <= a
  {
    if t == u {
      if |a| <= |b| { assert b[..|a|] == t[..|a|]; } else { assert a[..|b|] == t[..|b|]; }
    }
  }

  /** Dicts whose first keys differ have different texts. */
  lemma FirstKeyShows(env: Env, ms: seq<Member>, ns: seq<Member>)
    requires TextsApart(env) && ms != [] && ns != [] && ms[0].name != ns[0].name
    ensures ReprMembers(env, ms) != ReprMembers(env, ns)
  {
    ReprStarts(env, ms);
    ReprStarts(env, ns);
    OneBegins(ReprMembers(env, ms), ReprMembers(env, ns), env.reprStr(ms[0].name), env.reprStr(ns[0].name));
  }

  lemma {:induction false} TwinApart(env: Env, v: Json)
    requires TextsApart(env) && WellFormed(v) && !Unambiguous(v)
    ensures Repr(env, Twin(v)) != Repr(env, v)
    decreases v, 1
  {
    match v
    case Arr(items) =>
      TwinItemsApart(env, items);
      Wrapped("[", "]", ReprItems(env, TwinItems(items)), ReprItems(env, items));
    case Obj(ms) =>
      var ns := Twin(v).members;
      if |ms| == 1 {
        TwinApart(env, ms[0].value);
        var head := env.reprStr(ms[0].name) + ": ";
        SameHead(head, Repr(env, ns[0].value), Repr(env, ms[0].value));
        OneMember(env, ms);
        OneMember(env, ns);
      } else {
        FirstKeyShows(env, ns, ms);
      }
      Wrapped("{", "}", ReprMembers(env, ns), ReprMembers(env, ms));
    case _ =>
  }

  lemma ReprStarts(env: Env, ms: seq<Member>)
    requires ms != []
    ensures env.reprStr(ms[0].name) <= ReprMembers(env, ms)
  {
  }

  lemma OneMember(env: Env, ms: seq<Member>)
    requires |ms| == 1
    ensures ReprMembers(env, ms) == env.reprStr(ms[0].name) + ": " + Repr(env, ms[0].value)
  {
  }

  lemma Wrapped(open: string, close: string, x: string, y: string)
    requires x != y
    ensures open + x + close != open + y + close
  {
    SameTail(open + x, open + y, close);
    SameHead(open, x, y);
  }

  /** The text of a list after its first item. */
  function ReprRest(env: Env, items: seq<Json>): string {
    if items == [] then "" else ", " + ReprItems(env, items)
  }

  lemma ReprCons(env: Env, item: Json, rest: seq<Json>)
    ensures ReprItems(env, [item] + rest) == Repr(env, item) + ReprRest(env, rest)
  {
    assert ([item] + rest)[1..] == rest;
  }

  lemma {:induction false} TwinItemsApart(env: Env, items: seq<Json>)
    requires TextsApart(env) && WellFormed(Arr(items)) && !Unambiguous(Arr(items))
    ensures ReprItems(env, TwinItems(items)) != ReprItems(env, items)
    decreases items, 0
  {
    hide Repr, ReprItems;
    var head, tail := items[0], items[1..];
    assert items == [head] + tail;
    ReprCons(env, head, tail);
    if Unambiguous(head) {
      var i :| 0 <= i < |items| && !Unambiguous(items[i]);
      assert tail[i - 1] == items[i];
      TwinItemsApart(env, tail);
      TwinItemsNorm(tail);
      ReprCons(env, head, TwinItems(tail));
      SameHead(", ", ReprItems(env, TwinItems(tail)), ReprItems(env, tail));
      SameHead(Repr(env, head), ReprRest(env, TwinItems(tail)), ReprRest(env, tail));
    } else {
      TwinApart(env, head);
      ReprCons(env, Twin(head), tail);
      SameTail(Repr(env, Twin(head)), Repr(env, head), ReprRest(env, tail));
    }
  }

  /** Key order shows in the text of a value exactly when a dict with two keys is inside. */
  lemma {:induction false} UnambiguousIff(env: Env, v: Json)
    requires TextsApart(env) && WellFormed(v)
    ensures Unambiguous(v) <==>
      forall w | WellFormed(w) && Canonical.Norm(w) == Canonical.Norm(v) :: Repr(env, w) == Repr(env, v)
  {
    hide Repr, Unambiguous, WellFormed, Canonical.Norm;
    if Unambiguous(v) {
      forall w | WellFormed(w) && Canonical.Norm(w) == Canonical.Norm(v) ensures Repr(env, w) == Repr(env, v) {
        UnambiguousNorm(v, w);
      }
    } else {
      TwinNorm(v);
      TwinApart(env, v);
    }
  }

  // ---------- files ----------

  lemma RenamedNorm(ms: seq<Member>, k: nat, w: Json)
    requires k < |ms| && Canonical.Norm(w) == Canonical.Norm(ms[k].value)
    ensures Canonical.Norm(Obj(ms[k := Member(ms[k].name, w)])) == Canonical.Norm(Obj(ms))
  {
    assert Canonical.NormMembers(ms[k := Member(ms[k].name, w)]) == Canonical.NormMembers(ms);
  }

  lemma RenamedWellFormed(ms: seq<Member>, k: nat, w: Json)
    requires WellFormed(Obj(ms)) && k < |ms| && WellFormed(w)
    ensures var ns := ms[k := Member(ms[k].name, w)]; WellFormed(Obj(ns)) && Get(ns, ms[k].name) == Some(w)
  {
    var ns := ms[k := Member(ms[k].name, w)];
    hide Get;
    assert DistinctNames(ns) by { hide WellFormed; }
    GetAt(ns, k);
  }

  lemma AmbiguousText(env: Env, ms: seq<Member>, name: string)
    requires Get(ms, name).Some? && !Unambiguous(Get(ms, name).value)
    ensures TextOf(env, ms, name) == Repr(env, Get(ms, name).value)
  {
  }

  lemma {:induction false} TwinAmbiguous(v: Json)
    requires WellFormed(v) && !Unambiguous(v)
    ensures !Unambiguous(Twin(v))
  {
    TwinNorm(v);
    if Unambiguous(Twin(v)) {
      UnambiguousNorm(Twin(v), v);
    }
  }

  /** A listed file whose path is not plain has a twin with the same canonical bytes and another path. */
  lemma PathTwin(env: Env, f: Json) returns (g: Json)
    requires TextsApart(env) && WellFormed(f) && !PlainPath(f)
    ensures WellFormed(g) && Canonical.Norm(g) == Canonical.Norm(f) && PathOf(env, g) != PathOf(env, f)
  {
    var ms := f.members;
    var v := Get(ms, "path").value;
    var k :| 0 <= k < |ms| && ms[k] == Member("path", v);
    assert WellFormed(v) by { assert WellFormed(ms[k].value); }
    hide WellFormed, Canonical.Norm, Unambiguous, Repr, Twin;
    TwinNorm(v);
    TwinApart(env, v);
    TwinAmbiguous(v);
    RenamedNorm(ms, k, Twin(v));
    RenamedWellFormed(ms, k, Twin(v));
    var ns := ms[k := Member("path", Twin(v))];
    AmbiguousText(env, ms, "path");
    AmbiguousText(env, ns, "path");
    g := Obj(ns);
  }

  lemma PlainPathText(env: Env, f: Json, g: Json)
    requires WellFormed(f) && WellFormed(g) && Canonical.Norm(g) == Canonical.Norm(f) && PlainPath(f)
    ensures PathOf(env, g) == PathOf(env, f)
  {
    if f.Obj? {
      EqualTexts(env, f.members, g.members, "path");
    }
  }

  /** The exact condition: the digest fixes the path of a listed file exactly when the path is plain. */
  lemma {:induction false} PlainPathIff(env: Env, f: Json)
    requires TextsApart(env) && WellFormed(f)
    ensures PlainPath(f) <==>
      forall g | WellFormed(g) && Canonical.Norm(g) == Canonical.Norm(f) :: PathOf(env, g) == PathOf(env, f)
  {
    hide WellFormed, Canonical.Norm, PlainPath, PathOf;
    if PlainPath(f) {
      forall g | WellFormed(g) && Canonical.Norm(g) == Canonical.Norm(f) ensures PathOf(env, g) == PathOf(env, f) {
        PlainPathText(env, f, g);
      }
    } else {
      var g := PathTwin(env, f);
    }
  }
}
