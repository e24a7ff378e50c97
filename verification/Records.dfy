/** Dictionaries with a fixed list of keys. */
module Records {
  import opened Wrappers
  import opened Json

  predicate Distinct(names: seq<string>) {
    forall i, j | 0 <= i < j < |names| :: names[i] != names[j]
  }

  /** {names[0]: values[0], names[1]: values[1], ..} */
  function Record(names: seq<string>, values: seq<Json>): (r: seq<Member>)
    requires |names| == |values|
    ensures |r| == |names| && forall i | 0 <= i < |r| :: r[i] == Member(names[i], values[i])
  {
    seq(|names|, i requires 0 <= i < |names| => Member(names[i], values[i]))
  }

  lemma Lookup(names: seq<string>, values: seq<Json>, i: nat)
    requires |names| == |values| && Distinct(names) && i < |names|
    ensures Get(Record(names, values), names[i]) == Some(values[i])
  {
    GetAt(Record(names, values), i);
  }

  lemma NoLookup(names: seq<string>, values: seq<Json>, name: string)
    requires |names| == |values| && name !in names
    ensures Get(Record(names, values), name) == None
  {
  }

  lemma RecordWellFormed(names: seq<string>, values: seq<Json>)
    requires |names| == |values| && Distinct(names) && forall i | 0 <= i < |values| :: WellFormed(values[i])
    ensures WellFormed(Obj(Record(names, values)))
  {
  }
}
