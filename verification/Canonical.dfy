/** Canonical JSON: recursive key sorting, and what its injectivity means for dictionaries. */
module Canonical {
  import opened Wrappers
  import opened Bytes
  import opened Json
  import Ordering

  function CodePoints(s: string): (r: seq<int>)
    ensures |r| == |s|
  {
    seq(|s|, i requires 0 <= i < |s| => s[i] as int)
  }

  lemma CodePointsInjective(s: string, t: string)
    requires CodePoints(s) == CodePoints(t)
    ensures s == t
  {
    forall i | 0 <= i < |s| ensures s[i] == t[i] {
      assert CodePoints(s)[i] == CodePoints(t)[i];
    }
  }

  function NameKey(m: Member): seq<int> {
    CodePoints(m.name)
  }

  /** The value with the members of every object sorted by key. */
  function Norm(v: Json): Json
    decreases v, 1
  {
    match v
    case Arr(items) => Arr(NormItems(items))
    case Obj(ms) => Obj(Ordering.Sort(NormMembers(ms), NameKey))
    case _ => v
  }

  function NormItems(items: seq<Json>): (r: seq<Json>)
    ensures |r| == |items|
    ensures forall i | 0 <= i < |items| :: r[i] == Norm(items[i])
    decreases items, 0
  {
    if items == [] then [] else [Norm(items[0])] + NormItems(items[1..])
  }

  function NormMembers(ms: seq<Member>): (r: seq<Member>)
    ensures |r| == |ms|
    ensures forall i | 0 <= i < |ms| :: r[i] == Member(ms[i].name, Norm(ms[i].value))
    decreases ms, 0
  {
    if ms == [] then [] else [Member(ms[0].name, Norm(ms[0].value))] + NormMembers(ms[1..])
  }

  /** canonical_json: sort_keys=True, separators=(',', ':'), ensure_ascii=True, as ASCII text. */
  function Text(v: Json): string {
    Put(Norm(v), Compact, 0, "")
  }

  /** The bytes that are hashed. */
  function Encode(v: Json): seq<Byte> {
    Utf8(Text(v))
  }

  // ---------- equality of Python values: key order does not count ----------

  predicate Same(v: Json, w: Json) {
    match v
    case Arr(xs) =>
      w.Arr? && |w.items| == |xs| && forall i | 0 <= i < |xs| :: Same(xs[i], w.items[i])
    case Obj(ms) =>
      w.Obj?
      && (forall i | 0 <= i < |ms| ::
            Get(w.members, ms[i].name).Some? && Same(ms[i].value, Get(w.members, ms[i].name).value))
      && forall j | 0 <= j < |w.members| :: Get(ms, w.members[j].name).Some?
    case _ => v == w
  }

  // ---------- sorting keeps values well formed ----------

  lemma MembersDistinct(ms: seq<Member>)
    ensures DistinctNames(ms) <==> Ordering.DistinctKeys(ms, NameKey)
  {
    forall i, j | 0 <= i < j < |ms|
      ensures ms[i].name == ms[j].name <==> NameKey(ms[i]) == NameKey(ms[j])
    {
      if NameKey(ms[i]) == NameKey(ms[j]) {
        CodePointsInjective(ms[i].name, ms[j].name);
      }
    }
  }

  lemma SortedNamesDistinct(ms: seq<Member>)
    requires DistinctNames(ms)
    ensures DistinctNames(Ordering.Sort(ms, NameKey))
  {
    var r := Ordering.Sort(ms, NameKey);
    MembersDistinct(ms);
    Ordering.SortSorts(ms, NameKey);
    forall i, j | 0 <= i < j < |r| ensures r[i].name != r[j].name {
      assert Ordering.Less(NameKey(r[i]), NameKey(r[j]));
      Ordering.LessTotal(NameKey(r[i]), NameKey(r[j]));
    }
  }

  lemma {:induction false} NormWellFormed(v: Json)
    requires WellFormed(v)
    ensures WellFormed(Norm(v))
  {
    match v
    case Arr(items) =>
      forall i | 0 <= i < |items| ensures WellFormed(NormItems(items)[i]) {
        NormWellFormed(items[i]);
      }
    case Obj(ms) =>
      var ns := NormMembers(ms);
      var r := Ordering.Sort(ns, NameKey);
      SortedNamesDistinct(ns);
      Ordering.SortKeeps(ns, NameKey);
      forall i | 0 <= i < |r| ensures WellFormed(r[i].value) {
        assert r[i] in ns;
        var j :| 0 <= j < |ns| && ns[j] == r[i];
        NormWellFormed(ms[j].value);
      }
    case _ =>
  }

  // ---------- the canonical text decides equality ----------

  /** Reading the canonical text back gives the value with its keys sorted. */
  lemma LoadsCanonical(v: Json, d: OnDuplicate)
    requires WellFormed(v)
    ensures Loads(Text(v), d) == Ok(Norm(v))
  {
    NormWellFormed(v);
    LoadsUndoesPut(Norm(v), Compact, "", d);
  }

  lemma EncodeDecidesNorm(v: Json, w: Json)
    requires WellFormed(v) && WellFormed(w) && Encode(v) == Encode(w)
    ensures Norm(v) == Norm(w)
  {
    Utf8Injective(Text(v), Text(w));
    LoadsCanonical(v, Refuse);
    LoadsCanonical(w, Refuse);
  }

  /** What a sorted object answers to a lookup. */
  lemma GetNorm(ms: seq<Member>, name: string)
    requires DistinctNames(ms)
    ensures Get(Ordering.Sort(NormMembers(ms), NameKey), name)
         == match Get(ms, name) case Some(v) => Some(Norm(v)) case None => None
  {
    var ns := NormMembers(ms);
    var r := Ordering.Sort(ns, NameKey);
    SortedNamesDistinct(ns);
    Ordering.SortKeeps(ns, NameKey);
    if Get(ms, name).Some? {
      var i :| 0 <= i < |ms| && ms[i] == Member(name, Get(ms, name).value);
      assert ns[i] in r;
      var j :| 0 <= j < |r| && r[j] == ns[i];
      GetAt(r, j);
    } else {
      forall j | 0 <= j < |r| ensures r[j].name != name {
        assert r[j] in ns;
      }
    }
  }

  lemma {:induction false} NormEqualSame(v: Json, w: Json)
    requires WellFormed(v) && WellFormed(w) && Norm(v) == Norm(w)
    ensures Same(v, w)
  {
    match v
    case Arr(xs) =>
      forall i | 0 <= i < |xs| ensures Same(xs[i], w.items[i]) {
        assert Norm(xs[i]) == NormItems(w.items)[i];
        NormEqualSame(xs[i], w.items[i]);
      }
    case Obj(ms) =>
      forall i | 0 <= i < |ms|
        ensures Get(w.members, ms[i].name).Some? && Same(ms[i].value, Get(w.members, ms[i].name).value)
      {
        GetAt(ms, i);
        GetNorm(ms, ms[i].name);
        GetNorm(w.members, ms[i].name);
        var y := Get(w.members, ms[i].name).value;
        var j :| 0 <= j < |w.members| && w.members[j] == Member(ms[i].name, y);
        NormEqualSame(ms[i].value, y);
      }
      forall j | 0 <= j < |w.members| ensures Get(ms, w.members[j].name).Some? {
        GetAt(w.members, j);
        GetNorm(ms, w.members[j].name);
        GetNorm(w.members, w.members[j].name);
      }
    case _ =>
  }

  lemma NormMembersIn(ms: seq<Member>, ws: seq<Member>)
    requires forall i | 0 <= i < |ms| ::
      Get(ws, ms[i].name).Some? && Norm(ms[i].value) == Norm(Get(ws, ms[i].name).value)
    ensures forall m | m in NormMembers(ms) :: m in NormMembers(ws)
  {
    var ns, us := NormMembers(ms), NormMembers(ws);
    forall i | 0 <= i < |ns| ensures ns[i] in us {
      var y := Get(ws, ms[i].name).value;
      var j :| 0 <= j < |ws| && ws[j] == Member(ms[i].name, y);
      assert us[j] == ns[i];
    }
  }

  lemma SortedMembersEqual(ms: seq<Member>, ws: seq<Member>)
    requires DistinctNames(ms) && DistinctNames(ws)
    requires forall m | m in NormMembers(ms) :: m in NormMembers(ws)
    requires forall m | m in NormMembers(ws) :: m in NormMembers(ms)
    ensures Norm(Obj(ms)) == Norm(Obj(ws))
  {
    MembersDistinct(NormMembers(ms));
    MembersDistinct(NormMembers(ws));
    Ordering.SortForgetsOrder(NormMembers(ms), NormMembers(ws), NameKey);
  }

  lemma ArraysNormEqual(xs: seq<Json>, ys: seq<Json>)
    requires |xs| == |ys| && forall i | 0 <= i < |xs| :: Norm(xs[i]) == Norm(ys[i])
    ensures Norm(Arr(xs)) == Norm(Arr(ys))
  {
    assert NormItems(xs) == NormItems(ys);
  }

  lemma {:induction false} SameNormEqual(v: Json, w: Json)
    requires WellFormed(v) && WellFormed(w) && Same(v, w)
    ensures Norm(v) == Norm(w)
  {
    hide Norm;
    match v
    case Arr(xs) =>
      forall i | 0 <= i < |xs| ensures Norm(xs[i]) == Norm(w.items[i]) {
        SameNormEqual(xs[i], w.items[i]);
      }
      ArraysNormEqual(xs, w.items);
    case Obj(ms) =>
      var ws := w.members;
      forall i | 0 <= i < |ms| ensures Norm(ms[i].value) == Norm(Get(ws, ms[i].name).value) {
        var j :| 0 <= j < |ws| && ws[j] == Member(ms[i].name, Get(ws, ms[i].name).value);
        SameNormEqual(ms[i].value, Get(ws, ms[i].name).value);
      }
      NormMembersIn(ms, ws);
      forall j | 0 <= j < |ws| ensures Norm(ws[j].value) == Norm(Get(ms, ws[j].name).value) {
        assert Get(ms, w.members[j].name).Some?;
        var i :| 0 <= i < |ms| && ms[i] == Member(ws[j].name, Get(ms, ws[j].name).value);
        GetAt(ws, j);
      }
      NormMembersIn(ws, ms);
      SortedMembersEqual(ms, ws);
    case _ =>
  }

  lemma {:induction false} NormIdempotent(v: Json)
    requires WellFormed(v)
    ensures Norm(Norm(v)) == Norm(v)
  {
    match v
    case Arr(xs) =>
      forall i | 0 <= i < |xs| ensures Norm(NormItems(xs)[i]) == NormItems(xs)[i] {
        NormIdempotent(xs[i]);
      }
      assert NormItems(NormItems(xs)) == NormItems(xs);
    case Obj(ms) =>
      var ns := NormMembers(ms);
      var r := Ordering.Sort(ns, NameKey);
      Ordering.SortKeeps(ns, NameKey);
      forall i | 0 <= i < |r| ensures NormMembers(r)[i] == r[i] {
        assert r[i] in ns;
        var j :| 0 <= j < |ns| && ns[j] == r[i];
        NormIdempotent(ms[j].value);
      }
      assert NormMembers(r) == r;
      SortedNamesDistinct(ns);
      MembersDistinct(ns);
      MembersDistinct(r);
      Ordering.SortForgetsOrder(r, ns, NameKey);
    case _ =>
  }

  /** Reading the canonical text back gives a value equal to the printed one. */
  lemma {:induction false} CanonicalRoundTrip(v: Json, d: OnDuplicate)
    requires WellFormed(v)
    ensures Loads(Text(v), d).Ok? && Same(Loads(Text(v), d).value, v)
  {
    LoadsCanonical(v, d);
    NormWellFormed(v);
    NormIdempotent(v);
    NormEqualSame(Norm(v), v);
  }

  /** Canonical bytes agree exactly when Python's == does: the printer is injective up to key order. */
  lemma {:induction false} CanonicalDecidesEquality(v: Json, w: Json)
    requires WellFormed(v) && WellFormed(w)
    ensures Encode(v) == Encode(w) <==> Same(v, w)
  {
    if Encode(v) == Encode(w) {
      EncodeDecidesNorm(v, w);
      NormEqualSame(v, w);
    }
    if Same(v, w) {
      SameNormEqual(v, w);
    }
  }

  lemma BuildWellFormed(pairs: seq<Member>, d: OnDuplicate)
    requires ValuesWellFormed(pairs)
    ensures BuildObject(pairs, d).Ok? ==> WellFormed(BuildObject(pairs, d).value)
  {
    var ms := DictOf(pairs);
    forall i | 0 <= i < |ms| ensures WellFormed(ms[i].value) {
      assert ms[i] in pairs;
    }
  }

  /** Whatever the parser accepts has distinct keys throughout, so the theorems apply to it. */
  lemma {:induction false} ReadWellFormed(t: string, d: OnDuplicate)
    ensures ReadValue(t, d).Ok? ==> WellFormed(ReadValue(t, d).value.0)
    decreases |t|, 0
  {
    if t != "" && t[0] == '{' {
      var u := SkipSpace(t[1..]);
      ReadMembersWellFormed(u, d);
      if ReadMembers(u, d).Ok? {
        BuildWellFormed(ReadMembers(u, d).value.0, d);
      }
    } else if t != "" && t[0] == '[' {
      var u := SkipSpace(t[1..]);
      ReadItemsWellFormed(u, d);
      assert ReadValue(t, d).Ok? && ReadValue(t, d).value.0.items != [] ==>
        ReadValue(t, d).value.0 == Arr(ReadItems(u, d).value.0);
    }
  }

  lemma {:induction false} ReadItemsWellFormed(t: string, d: OnDuplicate)
    ensures ReadItems(t, d).Ok? ==> WellFormed(Arr(ReadItems(t, d).value.0))
    decreases |t|, 1
  {
    ReadWellFormed(t, d);
    if ReadValue(t, d).Ok? {
      var u := SkipSpace(ReadValue(t, d).value.1);
      if u != "" && u[0] == ',' {
        var x := SkipSpace(u[1..]);
        ReadItemsWellFormed(x, d);
        if ReadItems(x, d).Ok? {
          ConsWellFormed(ReadValue(t, d).value.0, ReadItems(x, d).value.0);
        }
      }
    }
  }

  lemma ConsWellFormed(v: Json, more: seq<Json>)
    requires WellFormed(v) && WellFormed(Arr(more))
    ensures WellFormed(Arr([v] + more))
  {
    forall i | 0 <= i < |[v] + more| ensures WellFormed(([v] + more)[i]) {
      if i > 0 { assert ([v] + more)[i] == more[i - 1]; }
    }
  }

  predicate ValuesWellFormed(ms: seq<Member>) {
    forall i | 0 <= i < |ms| :: WellFormed(ms[i].value)
  }

  lemma {:induction false} ReadMembersWellFormed(t: string, d: OnDuplicate)
    ensures ReadMembers(t, d).Ok? ==> ValuesWellFormed(ReadMembers(t, d).value.0)
    decreases |t|, 1
  {
    if t != "" && t[0] == '\"' && ReadChars(t[1..]).Ok? {
      var c := SkipSpace(ReadChars(t[1..]).value.1);
      if c != "" && c[0] == ':' {
        var x := SkipSpace(c[1..]);
        ReadWellFormed(x, d);
        if ReadValue(x, d).Ok? {
          var u := SkipSpace(ReadValue(x, d).value.1);
          if u != "" && u[0] == ',' {
            ReadMembersWellFormed(SkipSpace(u[1..]), d);
          }
        }
      }
    }
  }

  lemma {:induction false} LoadsWellFormed(t: string, d: OnDuplicate)
    ensures Loads(t, d).Ok? ==> WellFormed(Loads(t, d).value)
  {
    ReadWellFormed(SkipSpace(t), d);
  }
}
