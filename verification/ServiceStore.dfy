/** The local two-table service store: upserts, all-or-nothing metric replacement, and the two ways to read it. */
module ServiceStore {
  import opened Wrappers
  import opened Ordering

  datatype Service = Service(name: string, port: int, status: string, detail: string, updatedAt: string)
  datatype Metric = Metric(
    service: string, key: string, caption: string, value: string, status: string, updatedAt: string)
  datatype StoreError = KeyError | IntegrityError | RuntimeError

  /** A metric as a caller passes it: a dictionary, perhaps with fields missing. */
  type Draft = map<string, string>

  /** What the database file holds between connections. */
  datatype Tables = Tables(services: seq<Service>, metrics: seq<Metric>)

  // ---------- the two primary keys ----------

  ghost predicate NamesUnique(services: seq<Service>) {
    forall i, j | 0 <= i < j < |services| :: services[i].name != services[j].name
  }

  ghost predicate KeysUnique(ms: seq<Metric>) {
    forall i, j | 0 <= i < j < |ms| :: ms[i].service != ms[j].service || ms[i].key != ms[j].key
  }

  ghost predicate Sound(t: Tables) {
    NamesUnique(t.services) && KeysUnique(t.metrics)
  }

  // ---------- the statements ----------

  function Find(services: seq<Service>, name: string): Option<Service> {
    if services == [] then None
    else if services[0].name == name then Some(services[0])
    else Find(services[1..], name)
  }

  /** INSERT .. ON CONFLICT(service_name) DO UPDATE */
  function Upserted(services: seq<Service>, row: Service): (r: seq<Service>)
    ensures forall s | s in r :: s == row || s in services
  {
    if services == [] then [row]
    else if services[0].name == row.name then [row] + services[1..]
    else [services[0]] + Upserted(services[1..], row)
  }

  /** WHERE service_name = name */
  function RowsOf(ms: seq<Metric>, name: string): (r: seq<Metric>)
    ensures forall m :: m in r <==> m in ms && m.service == name
  {
    if ms == [] then []
    else (if ms[0].service == name then [ms[0]] else []) + RowsOf(ms[1..], name)
  }

  /** What DELETE .. WHERE service_name = name leaves. */
  function Others(ms: seq<Metric>, name: string): (r: seq<Metric>)
    ensures forall m :: m in r <==> m in ms && m.service != name
  {
    if ms == [] then []
    else (if ms[0].service != name then [ms[0]] else []) + Others(ms[1..], name)
  }

  predicate Complete(d: Draft) {
    "metric_key" in d && "label" in d && "value" in d && "status" in d
  }

  function RowFor(name: string, d: Draft, now: string): Metric
    requires Complete(d)
  {
    Metric(name, d["metric_key"], d["label"], d["value"], d["status"], now)
  }

  predicate AllComplete(drafts: seq<Draft>) {
    forall i | 0 <= i < |drafts| :: Complete(drafts[i])
  }

  predicate KeysDistinct(drafts: seq<Draft>)
    requires AllComplete(drafts)
  {
    forall i, j | 0 <= i < j < |drafts| :: drafts[i]["metric_key"] != drafts[j]["metric_key"]
  }

  /** The rows of a replacement; clock(i) is the time read for the i-th of them. */
  function RowsFor(name: string, drafts: seq<Draft>, clock: nat -> string): (r: seq<Metric>)
    requires AllComplete(drafts)
    ensures |r| == |drafts| && forall i | 0 <= i < |r| :: r[i] == RowFor(name, drafts[i], clock(i))
  {
    seq(|drafts|, i requires 0 <= i < |drafts| => RowFor(name, drafts[i], clock(i)))
  }

  function Replaced(ms: seq<Metric>, name: string, drafts: seq<Draft>, clock: nat -> string)
    : Result<seq<Metric>, StoreError>
  {
    if !AllComplete(drafts) then Err(KeyError)
    else if !KeysDistinct(drafts) then Err(IntegrityError)
    else Ok(Others(ms, name) + RowsFor(name, drafts, clock))
  }

  // ---------- lookups after a statement ----------

  lemma {:induction false} FindUpserted(services: seq<Service>, row: Service, name: string)
    ensures Find(Upserted(services, row), name) == if name == row.name then Some(row) else Find(services, name)
  {
    if services != [] && services[0].name != row.name {
      FindUpserted(services[1..], row, name);
    }
  }

  lemma {:induction false} UpsertedUnique(services: seq<Service>, row: Service)
    requires NamesUnique(services)
    ensures NamesUnique(Upserted(services, row))
  {
    if services != [] && services[0].name != row.name {
      UpsertedUnique(services[1..], row);
      var r := Upserted(services[1..], row);
      forall j | 0 <= j < |r| ensures r[j].name != services[0].name {
        assert r[j] in r;
      }
    }
  }

  lemma {:induction false} RowsOfAppend(a: seq<Metric>, b: seq<Metric>, name: string)
    ensures RowsOf(a + b, name) == RowsOf(a, name) + RowsOf(b, name)
  {
    if a == [] {
      assert a + b == b;
    } else {
      assert (a + b)[1..] == a[1..] + b && (a + b)[0] == a[0];
      RowsOfAppend(a[1..], b, name);
    }
  }

  lemma {:induction false} RowsOfOthers(ms: seq<Metric>, name: string, other: string)
    ensures RowsOf(Others(ms, name), other) == if other == name then [] else RowsOf(ms, other)
  {
    if ms != [] {
      RowsOfOthers(ms[1..], name, other);
      if ms[0].service == name {
        assert Others(ms, name) == Others(ms[1..], name);
      } else {
        assert Others(ms, name)[1..] == Others(ms[1..], name);
      }
    }
  }

  lemma {:induction false} RowsOfSame(ms: seq<Metric>, name: string, other: string)
    requires forall m | m in ms :: m.service == name
    ensures RowsOf(ms, other) == if other == name then ms else []
  {
    if ms != [] {
      RowsOfSame(ms[1..], name, other);
      assert ms == [ms[0]] + ms[1..];
    }
  }

  lemma {:induction false} OthersUnique(ms: seq<Metric>, name: string)
    requires KeysUnique(ms)
    ensures KeysUnique(Others(ms, name))
  {
    if ms != [] {
      OthersUnique(ms[1..], name);
      var r := Others(ms[1..], name);
      forall j | 0 <= j < |r| ensures ms[0].service != r[j].service || ms[0].key != r[j].key {
        assert r[j] in r && r[j] in ms[1..];
      }
    }
  }

  /** A successful replacement shows exactly the new rows for this service and leaves every other service alone. */
  lemma {:induction false} ReplacedRows(ms: seq<Metric>, name: string, drafts: seq<Draft>, clock: nat -> string,
                                        other: string)
    requires Replaced(ms, name, drafts, clock).Ok?
    ensures RowsOf(Replaced(ms, name, drafts, clock).value, other) ==
      if other == name then RowsFor(name, drafts, clock) else RowsOf(ms, other)
  {
    RowsOfAppend(Others(ms, name), RowsFor(name, drafts, clock), other);
    RowsOfOthers(ms, name, other);
    RowsOfSame(RowsFor(name, drafts, clock), name, other);
  }

  lemma ReplacedUnique(ms: seq<Metric>, name: string, drafts: seq<Draft>, clock: nat -> string)
    requires KeysUnique(ms) && Replaced(ms, name, drafts, clock).Ok?
    ensures KeysUnique(Replaced(ms, name, drafts, clock).value)
  {
    OthersUnique(ms, name);
    var a, b := Others(ms, name), RowsFor(name, drafts, clock);
    var r: seq<Metric> := a + b;
    forall i, j | 0 <= i < j < |r| ensures r[i].service != r[j].service || r[i].key != r[j].key {
      if i < |a| <= j {
        assert a[i] in a;
      }
    }
  }

  // ---------- runs ----------

  datatype Op =
    | Upsert(row: Service)
    | Replace(name: string, drafts: seq<Draft>, clock: nat -> string)
    | Seed(row: Service, drafts: seq<Draft>, clock: nat -> string)

  /** What one operation leaves, whether it succeeds or raises; seeding commits the service row first. */
  function Apply(t: Tables, op: Op): Tables {
    match op
    case Upsert(row) => t.(services := Upserted(t.services, row))
    case Replace(name, drafts, clock) =>
      var r := Replaced(t.metrics, name, drafts, clock);
      if r.Ok? then t.(metrics := r.value) else t
    case Seed(row, drafts, clock) =>
      var u := t.(services := Upserted(t.services, row));
      var r := Replaced(u.metrics, row.name, drafts, clock);
      if r.Ok? then u.(metrics := r.value) else u
  }

  function Run(t: Tables, ops: seq<Op>): Tables {
    if ops == [] then t else Apply(Run(t, ops[..|ops| - 1]), ops[|ops| - 1])
  }

  lemma ApplySound(t: Tables, op: Op)
    requires Sound(t)
    ensures Sound(Apply(t, op))
  {
    match op
    case Upsert(row) => UpsertedUnique(t.services, row);
    case Replace(name, drafts, clock) =>
      if Replaced(t.metrics, name, drafts, clock).Ok? {
        ReplacedUnique(t.metrics, name, drafts, clock);
      }
    case Seed(row, drafts, clock) =>
      UpsertedUnique(t.services, row);
      if Replaced(t.metrics, row.name, drafts, clock).Ok? {
        ReplacedUnique(t.metrics, row.name, drafts, clock);
      }
  }

  /** Both primary keys hold after every run. */
  lemma {:induction false} RunSound(t: Tables, ops: seq<Op>)
    requires Sound(t)
    ensures Sound(Run(t, ops))
  {
    if ops != [] {
      RunSound(t, ops[..|ops| - 1]);
      ApplySound(Run(t, ops[..|ops| - 1]), ops[|ops| - 1]);
    }
  }

  /** The replacement of a service's metrics an operation asks for. */
  function Asked(op: Op, name: string): Option<(seq<Draft>, nat -> string)> {
    match op
    case Upsert(_) => None
    case Replace(n, drafts, clock) => if n == name then Some((drafts, clock)) else None
    case Seed(row, drafts, clock) => if row.name == name then Some((drafts, clock)) else None
  }

  predicate Acceptable(drafts: seq<Draft>) {
    AllComplete(drafts) && KeysDistinct(drafts)
  }

  /** The last acceptable replacement of a service's metrics in a run. */
  function LastAsked(ops: seq<Op>, name: string): (r: Option<(seq<Draft>, nat -> string)>)
    ensures r.Some? ==> Acceptable(r.value.0)
  {
    if ops == [] then None
    else
      var a := Asked(ops[|ops| - 1], name);
      if a.Some? && Acceptable(a.value.0) then a else LastAsked(ops[..|ops| - 1], name)
  }

  /** After any run a service shows exactly the rows of the last acceptable replacement: failed ones leave no trace. */
  lemma {:induction false} RunShowsLastReplacement(t: Tables, ops: seq<Op>, name: string)
    ensures RowsOf(Run(t, ops).metrics, name) ==
      match LastAsked(ops, name)
      case None => RowsOf(t.metrics, name)
      case Some(a) => RowsFor(name, a.0, a.1)
  {
    hide RowsOf, RowsFor, KeysDistinct, AllComplete, Others;
    if ops != [] {
      var before, op := Run(t, ops[..|ops| - 1]), ops[|ops| - 1];
      RunShowsLastReplacement(t, ops[..|ops| - 1], name);
      match op
      case Upsert(_) =>
      case Replace(n, drafts, clock) =>
        if Acceptable(drafts) { ReplacedRows(before.metrics, n, drafts, clock, name); }
      case Seed(row, drafts, clock) =>
        if Acceptable(drafts) { ReplacedRows(before.metrics, row.name, drafts, clock, name); }
    }
  }

  function RowGiven(op: Op): Option<Service> {
    match op
    case Upsert(row) => Some(row)
    case Replace(_, _, _) => None
    case Seed(row, _, _) => Some(row)
  }

  function LastRow(ops: seq<Op>, name: string): Option<Service> {
    if ops == [] then None
    else
      var r := RowGiven(ops[|ops| - 1]);
      if r.Some? && r.value.name == name then r else LastRow(ops[..|ops| - 1], name)
  }

  /** After any run a service has the row given last, even by a seeding whose metrics were refused. */
  lemma {:induction false} RunShowsLastRow(t: Tables, ops: seq<Op>, name: string)
    ensures Find(Run(t, ops).services, name) ==
      if LastRow(ops, name).Some? then LastRow(ops, name) else Find(t.services, name)
  {
    if ops != [] {
      var before, op := Run(t, ops[..|ops| - 1]), ops[|ops| - 1];
      RunShowsLastRow(t, ops[..|ops| - 1], name);
      if RowGiven(op).Some? {
        FindUpserted(before.services, RowGiven(op).value, name);
      }
    }
  }

  // ---------- reading ----------

  /** Text in SQLite's order: by code point. */
  function Codes(s: string): seq<int> {
    seq(|s|, i requires 0 <= i < |s| => s[i] as int)
  }

  function LabelKey(m: Metric): seq<int> {
    Codes(m.caption)
  }

  /** ORDER BY service_name, label */
  function ServiceLabelKey(m: Metric): seq<int> {
    Codes(m.service) + ([-1] + Codes(m.caption))
  }

  function PortKey(s: Service): seq<int> {
    [s.port]
  }

  /** SELECT .. ORDER BY: any order of equal keys is allowed. */
  method OrderBy<T(!new)>(rows: seq<T>, key: T -> seq<int>) returns (r: seq<T>)
    ensures multiset(r) == multiset(rows) && InOrder(r, key)
  {
    SortPermutes(rows, key);
    SortOrders(rows, key);
    r := Sort(rows, key);
  }

  /** A metric without the column only one of the two readers selects. */
  datatype Shown = Shown(key: string, caption: string, value: string, status: string, updatedAt: string)

  function Show(m: Metric): Shown {
    Shown(m.key, m.caption, m.value, m.status, m.updatedAt)
  }

  function ShowAll(ms: seq<Metric>): (r: seq<Shown>)
    ensures |r| == |ms| && forall i | 0 <= i < |r| :: r[i] == Show(ms[i])
  {
    seq(|ms|, i requires 0 <= i < |ms| => Show(ms[i]))
  }

  datatype State = State(service: Service, metrics: seq<Shown>)
  datatype FullState = FullState(service: Service, metrics: seq<Metric>)

  /** The rows of one service in label order. */
  ghost predicate Lists(ms: seq<Metric>, name: string, r: seq<Metric>) {
    multiset(r) == multiset(RowsOf(ms, name)) && InOrder(r, LabelKey)
  }

  /** Any two listings of a service show the same labels in the same places, and the same rows. */
  lemma {:induction false} ListingsAgree(ms: seq<Metric>, name: string, a: seq<Metric>, b: seq<Metric>)
    requires Lists(ms, name, a) && Lists(ms, name, b)
    ensures multiset(a) == multiset(b) && |a| == |b|
    ensures forall i | 0 <= i < |a| :: a[i].caption == b[i].caption
    ensures (forall i, j | 0 <= i < j < |a| :: a[i].caption != a[j].caption) ==> a == b
  {
    OrderedKeysAgree(a, b, LabelKey);
    forall i | 0 <= i < |a| ensures a[i].caption == b[i].caption {
      assert Keys(a, LabelKey)[i] == LabelKey(a[i]) && Keys(b, LabelKey)[i] == LabelKey(b[i]);
      CodesInjective(a[i].caption, b[i].caption);
    }
    if forall i, j | 0 <= i < j < |a| :: a[i].caption != a[j].caption {
      forall i | 0 <= i < |a| ensures a[i] == b[i] {
        assert a[i] in multiset(a) && a[i] in multiset(b);
        var k :| 0 <= k < |b| && b[k] == a[i];
        assert a[k].caption == b[k].caption;
      }
    }
  }

  lemma CodesInjective(s: string, t: string)
    ensures Codes(s) == Codes(t) ==> s == t
  {
    if Codes(s) == Codes(t) {
      forall i | 0 <= i < |s| ensures s[i] == t[i] {
        assert Codes(s)[i] == s[i] as int && Codes(t)[i] == t[i] as int;
      }
    }
  }

  // ---------- the steps inside one connection ----------

  predicate RowKeysDistinct(rows: seq<Metric>) {
    forall i, j | 0 <= i < j < |rows| :: rows[i].key != rows[j].key
  }

  lemma RowKeys(name: string, drafts: seq<Draft>, clock: nat -> string)
    requires AllComplete(drafts)
    ensures RowKeysDistinct(RowsFor(name, drafts, clock)) <==> KeysDistinct(drafts)
    ensures forall m | m in RowsFor(name, drafts, clock) :: m.service == name
  {
    var rows := RowsFor(name, drafts, clock);
    assert forall i | 0 <= i < |rows| :: rows[i].key == drafts[i]["metric_key"];
  }

  /** The list of rows is built before any of them is inserted; a missing field raises. */
  method BuildRows(name: string, drafts: seq<Draft>, clock: nat -> string) returns (r: Result<seq<Metric>, StoreError>)
    ensures r.Ok? <==> AllComplete(drafts)
    ensures r.Ok? ==> r.value == RowsFor(name, drafts, clock)
    ensures r.Err? ==> r.error == KeyError
  {
    var rows: seq<Metric> := [];
    for i := 0 to |drafts|
      invariant |rows| == i && AllComplete(drafts[..i])
      invariant forall k | 0 <= k < i :: Complete(drafts[k]) && rows[k] == RowFor(name, drafts[k], clock(k))
    {
      if !Complete(drafts[i]) {
        return Err(KeyError);
      }
      rows := rows + [RowFor(name, drafts[i], clock(i))];
    }
    return Ok(rows);
  }

  /** executemany: a repeated primary key raises. */
  method InsertMany(kept: seq<Metric>, rows: seq<Metric>, name: string) returns (r: Result<seq<Metric>, StoreError>)
    requires (forall m | m in kept :: m.service != name) && forall m | m in rows :: m.service == name
    ensures r.Ok? <==> RowKeysDistinct(rows)
    ensures r.Ok? ==> r.value == kept + rows
    ensures r.Err? ==> r.error == IntegrityError
  {
    var working := kept;
    for i := 0 to |rows|
      invariant working == kept + rows[..i] && RowKeysDistinct(rows[..i])
    {
      InsertConflicts(kept, rows, i, name);
      if exists m | m in working :: m.service == rows[i].service && m.key == rows[i].key {
        return Err(IntegrityError);
      }
      working := working + [rows[i]];
    }
    assert rows[..|rows|] == rows;
    return Ok(working);
  }

  function GetOrEmpty(groups: map<string, seq<Metric>>, n: string): seq<Metric> {
    if n in groups then groups[n] else []
  }

  /** The metric_map loop: setdefault(name, []).append(row) for every row. */
  method GroupByService(listed: seq<Metric>) returns (groups: map<string, seq<Metric>>)
    ensures forall n :: GetOrEmpty(groups, n) == RowsOf(listed, n)
  {
    groups := map[];
    for i := 0 to |listed|
      invariant forall n :: GetOrEmpty(groups, n) == RowsOf(listed[..i], n)
    {
      var n := listed[i].service;
      ghost var before := groups;
      groups := groups[n := GetOrEmpty(groups, n) + [listed[i]]];
      RowsOfStep(listed, i);
      forall x ensures GetOrEmpty(groups, x) == RowsOf(listed[..i + 1], x) {
        assert GetOrEmpty(before, x) == RowsOf(listed[..i], x);
      }
    }
    assert listed[..|listed|] == listed;
  }

  // ---------- the store ----------

  class Store {
    var services: seq<Service>
    var metrics: seq<Metric>

    ghost function Contents(): Tables
      reads this
    {
      Tables(services, metrics)
    }

    /** ensure_schema on a new file. */
    constructor ()
      ensures Contents() == Tables([], [])
    {
      services, metrics := [], [];
    }

    method UpsertService(row: Service)
      modifies this`services
      ensures Contents() == Apply(old(Contents()), Upsert(row))
      ensures forall name :: Find(services, name) == if name == row.name then Some(row) else old(Find(services, name))
      ensures old(NamesUnique(services)) ==> NamesUnique(services)
    {
      forall name
        ensures Find(Upserted(services, row), name) == if name == row.name then Some(row) else Find(services, name)
      {
        FindUpserted(services, row, name);
      }
      if NamesUnique(services) {
        UpsertedUnique(services, row);
      }
      services := Upserted(services, row);
    }

    /** Deletes, builds the rows, inserts them; only the commit at the end is seen by other connections. */
    method ReplaceMetrics(name: string, drafts: seq<Draft>, clock: nat -> string) returns (r: Result<(), StoreError>)
      modifies this`metrics
      ensures Contents() == Apply(old(Contents()), Replace(name, drafts, clock))
      ensures r.Ok? <==> Acceptable(drafts)
      ensures r.Err? ==> r.error == if AllComplete(drafts) then IntegrityError else KeyError
    {
      hide AllComplete, KeysDistinct, Others, RowsFor, RowKeysDistinct;
      var kept := Others(metrics, name);
      var built := BuildRows(name, drafts, clock);
      if built.Err? {
        return Err(built.error);
      }
      RowKeys(name, drafts, clock);
      var working := InsertMany(kept, built.value, name);
      if working.Err? {
        return Err(working.error);
      }
      metrics := working.value;
      return Ok(());
    }

    method LoadService(name: string) returns (r: Option<State>)
      ensures r.None? <==> Find(services, name).None?
      ensures r.Some? ==> Find(services, name) == Some(r.value.service) && Shows(metrics, name, r.value.metrics)
    {
      var row := Find(services, name);
      if row.None? {
        return None;
      }
      var listed := OrderBy(RowsOf(metrics, name), LabelKey);
      assert Lists(metrics, name, listed);
      return Some(State(row.value, ShowAll(listed)));
    }

    method LoadAllServices() returns (r: seq<FullState>)
      ensures |r| == |services|
      ensures multiset(ServicesOf(r)) == multiset(services) && InOrder(ServicesOf(r), PortKey)
      ensures forall i | 0 <= i < |r| :: Lists(metrics, r[i].service.name, r[i].metrics)
    {
      hide Lists, InOrder;
      var rows := OrderBy(services, PortKey);
      assert |multiset(rows)| == |multiset(services)|;
      var listed := OrderBy(metrics, ServiceLabelKey);
      var metricMap := GroupByService(listed);
      r := [];
      for i := 0 to |rows|
        invariant |r| == i && forall k | 0 <= k < i :: r[k].service == rows[k]
        invariant forall k | 0 <= k < i :: Lists(metrics, r[k].service.name, r[k].metrics)
      {
        ListedPart(metrics, listed, rows[i].name);
        r := r + [FullState(rows[i], GetOrEmpty(metricMap, rows[i].name))];
      }
      assert ServicesOf(r) == rows;
    }

    /** Two connections and a read: a refused replacement leaves the new service row with the old metrics. */
    method SeedService(row: Service, drafts: seq<Draft>, clock: nat -> string) returns (r: Result<State, StoreError>)
      modifies this
      ensures Contents() == Apply(old(Contents()), Seed(row, drafts, clock))
      ensures r.Ok? <==> Acceptable(drafts)
      ensures r.Ok? ==> r.value.service == row && Shows(metrics, row.name, r.value.metrics)
      ensures r.Ok? ==> RowsOf(metrics, row.name) == RowsFor(row.name, drafts, clock)
      ensures r != Err(RuntimeError)
    {
      UpsertService(row);
      FindUpserted(old(services), row, row.name);
      var replaced := ReplaceMetrics(row.name, drafts, clock);
      if replaced.Err? {
        return Err(replaced.error);
      }
      ReplacedRows(old(metrics), row.name, drafts, clock, row.name);
      var state := LoadService(row.name);
      if state.None? {
        return Err(RuntimeError);
      }
      return Ok(state.value);
    }
  }

  /** The metrics load_service returns: some listing of the service, without the name column. */
  ghost predicate Shows(ms: seq<Metric>, name: string, shown: seq<Shown>) {
    exists listed :: Lists(ms, name, listed) && shown == ShowAll(listed)
  }

  function ServicesOf(es: seq<FullState>): (r: seq<Service>)
    ensures |r| == |es| && forall i | 0 <= i < |r| :: r[i] == es[i].service
  {
    seq(|es|, i requires 0 <= i < |es| => es[i].service)
  }

  lemma RowsOfStep(ms: seq<Metric>, i: nat)
    requires i < |ms|
    ensures forall n ::
      RowsOf(ms[..i + 1], n) == RowsOf(ms[..i], n) + (if ms[i].service == n then [ms[i]] else [])
  {
    forall n ensures RowsOf(ms[..i + 1], n) == RowsOf(ms[..i], n) + (if ms[i].service == n then [ms[i]] else []) {
      assert ms[..i + 1] == ms[..i] + [ms[i]];
      RowsOfAppend(ms[..i], [ms[i]], n);
      assert [ms[i]][1..] == [];
    }
  }

  /** An insert fails exactly when its key repeats an earlier one of the same call. */
  lemma InsertConflicts(kept: seq<Metric>, rows: seq<Metric>, i: nat, name: string)
    requires i < |rows| && (forall m | m in kept :: m.service != name) && forall m | m in rows :: m.service == name
    ensures (exists m | m in kept + rows[..i] :: m.service == rows[i].service && m.key == rows[i].key)
       <==> exists k :: 0 <= k < i && rows[k].key == rows[i].key
  {
    assert rows[i] in rows;
    if k :| 0 <= k < i && rows[k].key == rows[i].key {
      assert rows[..i][k] == rows[k] && rows[k] in rows;
      assert rows[k] in kept + rows[..i];
    }
    if m :| m in kept + rows[..i] && m.service == rows[i].service && m.key == rows[i].key {
      assert m !in kept;
      var k :| 0 <= k < i && rows[..i][k] == m;
      assert rows[k] == m;
    }
  }

  lemma {:induction false} RowsOfCount(ms: seq<Metric>, name: string, m: Metric)
    ensures multiset(RowsOf(ms, name))[m] == if m.service == name then multiset(ms)[m] else 0
  {
    if ms != [] {
      RowsOfCount(ms[1..], name, m);
      assert ms == [ms[0]] + ms[1..];
    }
  }

  /** The rows of one service inside all rows in (service, label) order are in label order. */
  lemma ListedPart(ms: seq<Metric>, listed: seq<Metric>, name: string)
    requires multiset(listed) == multiset(ms) && InOrder(listed, ServiceLabelKey)
    ensures Lists(ms, name, RowsOf(listed, name))
  {
    forall m ensures multiset(RowsOf(listed, name))[m] == multiset(RowsOf(ms, name))[m] {
      RowsOfCount(listed, name, m);
      RowsOfCount(ms, name, m);
    }
    PartInOrder(listed, name);
  }

  lemma {:induction false} PartInOrder(listed: seq<Metric>, name: string)
    requires InOrder(listed, ServiceLabelKey)
    ensures InOrder(RowsOf(listed, name), LabelKey)
  {
    if listed != [] {
      PartInOrder(listed[1..], name);
      var rest := RowsOf(listed[1..], name);
      forall j | 0 <= j < |rest| && listed[0].service == name ensures !Less(LabelKey(rest[j]), LabelKey(listed[0])) {
        assert rest[j] in rest;
        var k :| 1 <= k < |listed| && listed[k] == rest[j];
        assert !Less(ServiceLabelKey(listed[k]), ServiceLabelKey(listed[0]));
        LessBehind(Codes(name), [-1] + LabelKey(rest[j]), [-1] + LabelKey(listed[0]));
        LessBehind([-1], LabelKey(rest[j]), LabelKey(listed[0]));
      }
    }
  }

  lemma {:induction false} LessBehind(p: seq<int>, a: seq<int>, b: seq<int>)
    ensures Less(p + a, p + b) <==> Less(a, b)
  {
    if p == [] {
      assert p + a == a && p + b == b;
    } else {
      assert (p + a)[1..] == p[1..] + a && (p + b)[1..] == p[1..] + b;
      LessBehind(p[1..], a, b);
    }
  }

  lemma {:induction false} FindListed(services: seq<Service>, s: Service)
    requires NamesUnique(services) && s in services
    ensures Find(services, s.name) == Some(s)
  {
    if services[0] != s {
      assert s in services[1..];
      FindListed(services[1..], s);
    }
  }

  /** The two readers agree on every service, up to the name column and the order of equal labels. */
  lemma {:induction false} LoadersAgree(t: Tables, all: seq<FullState>, i: nat, one: seq<Shown>)
    requires Sound(t) && multiset(ServicesOf(all)) == multiset(t.services) && i < |all|
    requires Lists(t.metrics, all[i].service.name, all[i].metrics) && Shows(t.metrics, all[i].service.name, one)
    ensures Find(t.services, all[i].service.name) == Some(all[i].service)
    ensures |one| == |all[i].metrics| && multiset(one) == multiset(ShowAll(all[i].metrics))
    ensures forall k | 0 <= k < |one| :: one[k].caption == all[i].metrics[k].caption
    ensures (forall j, k | 0 <= j < k < |one| :: one[j].caption != one[k].caption) ==> one == ShowAll(all[i].metrics)
  {
    assert ServicesOf(all)[i] in multiset(t.services);
    FindListed(t.services, all[i].service);
    var listed: seq<Metric> :| Lists(t.metrics, all[i].service.name, listed) && one == ShowAll(listed);
    ListingsAgree(t.metrics, all[i].service.name, listed, all[i].metrics);
    ShowPermutes(listed, all[i].metrics);
    assert forall k | 0 <= k < |one| :: one[k].caption == listed[k].caption;
  }

  lemma {:induction false} ShowPermutes(a: seq<Metric>, b: seq<Metric>)
    requires multiset(a) == multiset(b)
    ensures multiset(ShowAll(a)) == multiset(ShowAll(b))
    decreases |a|
  {
    if a == [] {
      assert |multiset(b)| == 0;
    } else {
      assert a[0] in multiset(b);
      var k :| 0 <= k < |b| && b[k] == a[0];
      ShowWithout(a, 0);
      ShowWithout(b, k);
      assert Without(a, 0) == a[1..];
      ShowPermutes(a[1..], Without(b, k));
    }
  }

  function Without(ms: seq<Metric>, k: nat): seq<Metric>
    requires k < |ms|
  {
    ms[..k] + ms[k + 1..]
  }

  lemma ShowConcat(a: seq<Metric>, b: seq<Metric>)
    ensures ShowAll(a + b) == ShowAll(a) + ShowAll(b)
  {
  }

  lemma ShowWithout(ms: seq<Metric>, k: nat)
    requires k < |ms|
    ensures multiset(Without(ms, k)) == multiset(ms) - multiset{ms[k]}
    ensures multiset(ShowAll(ms)) == multiset(ShowAll(Without(ms, k))) + multiset{Show(ms[k])}
  {
    hide ShowAll, Show;
    var a, b := ms[..k], ms[k + 1..];
    assert ms == a + ([ms[k]] + b);
    ShowConcat(a, [ms[k]] + b);
    ShowConcat([ms[k]], b);
    ShowConcat(a, b);
    ShowOne(ms[k]);
  }

  lemma ShowOne(m: Metric)
    ensures ShowAll([m]) == [Show(m)]
  {
  }

  // ---------- the dashboard ----------

  datatype Card = Card(title: string, status: string, detail: string, service: string)

  function CardOf(service: string, m: Metric): Card {
    Card(m.caption, m.status, m.value, service)
  }

  /** All metrics of all services, in the order shown. */
  function Flat(es: seq<FullState>): seq<Metric> {
    if es == [] then [] else Flat(es[..|es| - 1]) + es[|es| - 1].metrics
  }

  function CardsOf(ms: seq<Metric>): (r: seq<Card>)
    ensures |r| == |ms| && forall i | 0 <= i < |r| :: r[i] == CardOf(ms[i].service, ms[i])
  {
    seq(|ms|, i requires 0 <= i < |ms| => CardOf(ms[i].service, ms[i]))
  }

  /** One card per metric of each service in turn, under the service's own name. */
  method DashboardCards(ms: seq<Metric>, es: seq<FullState>) returns (cards: seq<Card>)
    requires forall i | 0 <= i < |es| :: Lists(ms, es[i].service.name, es[i].metrics)
    ensures cards == CardsOf(Flat(es))
  {
    hide Lists;
    cards := [];
    for i := 0 to |es|
      invariant cards == CardsOf(Flat(es[..i]))
    {
      var service := es[i];
      var more := seq(|service.metrics|, j requires 0 <= j < |service.metrics| =>
        CardOf(service.service.name, service.metrics[j]));
      forall j | 0 <= j < |service.metrics| ensures service.metrics[j].service == service.service.name {
        ListedService(ms, service.service.name, service.metrics, j);
      }
      assert more == CardsOf(service.metrics);
      CardsStep(es, i);
      cards := cards + more;
    }
    assert es[..|es|] == es;
  }

  lemma CardsStep(es: seq<FullState>, i: nat)
    requires i < |es|
    ensures CardsOf(Flat(es[..i + 1])) == CardsOf(Flat(es[..i])) + CardsOf(es[i].metrics)
  {
    assert es[..i + 1][..i] == es[..i] && es[..i + 1][i] == es[i];
  }

  lemma ListedService(ms: seq<Metric>, name: string, listed: seq<Metric>, j: nat)
    requires Lists(ms, name, listed) && j < |listed|
    ensures listed[j].service == name
  {
    assert listed[j] in multiset(RowsOf(ms, name));
  }

  predicate Registered(es: seq<FullState>, name: string) {
    exists i :: 0 <= i < |es| && es[i].service.name == name
  }

  lemma RegisteredStep(es: seq<FullState>, name: string)
    requires es != [] && NamesUnique(ServicesOf(es))
    ensures var front, last := es[..|es| - 1], es[|es| - 1];
      && NamesUnique(ServicesOf(front)) && !Registered(front, last.service.name)
      && (Registered(es, name) <==> Registered(front, name) || last.service.name == name)
  {
    var n := |es| - 1;
    var all := ServicesOf(es);
    assert forall i | 0 <= i < n :: ServicesOf(es[..n])[i] == all[i] == es[..n][i].service;
    assert all[n] == es[n].service;
    if i :| 0 <= i < |es| && es[i].service.name == name {
      assert i < n ==> es[..n][i].service.name == name;
    }
    if Registered(es[..n], name) {
      var i :| 0 <= i < n && es[..n][i].service.name == name;
      assert es[i].service.name == name;
    }
  }

  lemma {:induction false} FlatCounts(ms: seq<Metric>, es: seq<FullState>, m: Metric)
    requires NamesUnique(ServicesOf(es))
    requires forall i | 0 <= i < |es| :: Lists(ms, es[i].service.name, es[i].metrics)
    ensures multiset(Flat(es))[m] == if Registered(es, m.service) then multiset(ms)[m] else 0
  {
    hide Lists, RowsOf, Registered, NamesUnique;
    if es == [] {
      assert Flat(es) == [];
      NoneRegistered(m.service);
    } else {
      var n := |es| - 1;
      RegisteredStep(es, m.service);
      FlatCounts(ms, es[..n], m);
      ListedCount(ms, es[n].service.name, es[n].metrics, m);
    }
  }

  lemma RegisteredIff(es: seq<FullState>, name: string)
    ensures Registered(es, name) <==> exists s :: s in ServicesOf(es) && s.name == name
  {
    var r := ServicesOf(es);
    if Registered(es, name) {
      var i :| 0 <= i < |es| && es[i].service.name == name;
      assert r[i] in r;
    }
    if s :| s in r && s.name == name {
      var i :| 0 <= i < |r| && r[i] == s;
      assert es[i].service.name == name;
    }
  }

  lemma NoneRegistered(name: string)
    ensures !Registered([], name)
  {
  }

  lemma ListedCount(ms: seq<Metric>, name: string, listed: seq<Metric>, m: Metric)
    requires Lists(ms, name, listed)
    ensures multiset(listed)[m] == if m.service == name then multiset(ms)[m] else 0
  {
    RowsOfCount(ms, name, m);
  }

  lemma {:induction false} CountOne(services: seq<Service>, s: Service)
    requires NamesUnique(services)
    ensures multiset(services)[s] <= 1
  {
    if services != [] {
      CountOne(services[1..], s);
      assert services == [services[0]] + services[1..];
      assert services[0] == s ==> s !in services[1..];
      assert s !in services[1..] ==> s !in multiset(services[1..]);
    }
  }

  lemma CountTwo(services: seq<Service>, i: nat, j: nat)
    requires i < j < |services| && services[i] == services[j]
    ensures multiset(services)[services[i]] >= 2
  {
    var a, b := services[..j], services[j..];
    assert services == a + b && a[i] == services[i] && b[0] == services[j];
    assert services[i] in a && services[i] in b;
  }

  lemma PermutedUnique(services: seq<Service>, r: seq<Service>)
    requires NamesUnique(services) && multiset(r) == multiset(services)
    ensures NamesUnique(r)
  {
    forall i, j | 0 <= i < j < |r| ensures r[i].name != r[j].name {
      assert r[i] in multiset(services) && r[j] in multiset(services);
      if r[i].name == r[j].name {
        FindListed(services, r[i]);
        FindListed(services, r[j]);
        CountTwo(r, i, j);
        CountOne(services, r[i]);
      }
    }
  }

  lemma {:induction false} FindNone(services: seq<Service>, name: string)
    ensures Find(services, name).None? <==> forall s | s in services :: s.name != name
  {
    if services != [] {
      FindNone(services[1..], name);
      assert forall s :: s in services <==> s == services[0] || s in services[1..];
    }
  }

  /** The dashboard shows every stored metric of a registered service exactly once, and no other metric. */
  lemma {:induction false} CardsShowRegistered(t: Tables, es: seq<FullState>, m: Metric)
    requires Sound(t) && multiset(ServicesOf(es)) == multiset(t.services)
    requires forall i | 0 <= i < |es| :: Lists(t.metrics, es[i].service.name, es[i].metrics)
    ensures multiset(Flat(es))[m] == if Find(t.services, m.service).Some? then multiset(t.metrics)[m] else 0
  {
    PermutedUnique(t.services, ServicesOf(es));
    FlatCounts(t.metrics, es, m);
    FindNone(t.services, m.service);
    var r := ServicesOf(es);
    forall s ensures s in t.services <==> s in r {
      assert s in multiset(r) <==> s in multiset(t.services);
    }
    RegisteredIff(es, m.service);
  }
}
