/** The evidence Merkle tree: decoda-merkle-v1. */
module Merkle {
  import opened Wrappers
  import opened Bytes
  import opened PyText
  import Ordering

  datatype MerkleError = NoPath | DuplicatePath | InvalidDigest

  /** (logical path, digest text) as the manifest lists it. */
  datatype Entry = Entry(path: string, digest: string)

  // ---------- digests ----------

  /** _normalize_digest: strip, lower, drop an algorithm prefix, then exactly 64 hexadecimal digits. */
  function NormalizeDigest(text: string): (r: Option<string>)
    ensures r.Some? ==> |r.value| == 64 && AllLowerHex(r.value)
  {
    var t := Lower(Strip(text));
    var d := if "sha256:" <= t then t[7..] else t;
    if |d| == 64 && AllLowerHex(d) then Some(d) else None
  }

  function Ascii(s: string): (r: seq<Byte>)
    requires AllLowerHex(s)
    ensures |r| == |s|
  {
    seq(|s|, i requires 0 <= i < |s| => s[i] as int)
  }

  // ---------- leaves and nodes ----------

  function LeafBytes(path: string, digest: string): seq<Byte>
    requires AllLowerHex(digest)
  {
    [0x00] + Utf8(path) + [0x1F] + Ascii(digest)
  }

  function NodeBytes(left: Digest, right: Digest): seq<Byte> {
    [0x01] + left + right
  }

  function Node(sha: Hash, left: Digest, right: Digest): Digest {
    sha(NodeBytes(left, right))
  }

  // ---------- the reference: RFC 6962, section 2.1 ----------

  /** The largest power of two below n. */
  function Split(n: nat): (k: nat)
    requires n >= 2
    ensures 1 <= k < n <= 2 * k
  {
    if n == 2 then 1 else 2 * Split((n + 1) / 2)
  }

  function Pow2(e: nat): nat {
    if e == 0 then 1 else 2 * Pow2(e - 1)
  }

  lemma {:induction false} SplitIsPowerOfTwo(n: nat) returns (e: nat)
    requires n >= 2
    ensures Split(n) == Pow2(e)
  {
    if n == 2 {
      e := 0;
    } else {
      var e' := SplitIsPowerOfTwo((n + 1) / 2);
      e := e' + 1;
    }
  }

  /** The tree hash of a list of leaf hashes: split at the largest power of two, hash both halves. */
  function TreeHash(sha: Hash, s: seq<Digest>): Digest
    requires s != []
    decreases |s|
  {
    if |s| == 1 then s[0]
    else
      var k := Split(|s|);
      Node(sha, TreeHash(sha, s[..k]), TreeHash(sha, s[k..]))
  }

  // ---------- one level of the loop ----------

  /** Neighbours are hashed in pairs; an odd last node moves up unchanged. */
  function NextLevel(sha: Hash, s: seq<Digest>): (r: seq<Digest>)
    ensures |r| == (|s| + 1) / 2
  {
    if |s| <= 1 then s else [Node(sha, s[0], s[1])] + NextLevel(sha, s[2..])
  }

  lemma {:induction false} NextLevelConcat(sha: Hash, a: seq<Digest>, b: seq<Digest>)
    requires |a| % 2 == 0
    ensures NextLevel(sha, a + b) == NextLevel(sha, a) + NextLevel(sha, b)
  {
    if a == [] {
      assert a + b == b;
    } else {
      NextLevelConcat(sha, a[2..], b);
      assert (a + b)[2..] == a[2..] + b;
    }
  }

  lemma NextLevelSplits(sha: Hash, s: seq<Digest>, k: nat)
    requires k <= |s| && k % 2 == 0
    ensures NextLevel(sha, s)[..k / 2] == NextLevel(sha, s[..k])
    ensures NextLevel(sha, s)[k / 2..] == NextLevel(sha, s[k..])
  {
    assert s == s[..k] + s[k..];
    NextLevelConcat(sha, s[..k], s[k..]);
  }

  lemma SplitHalves(n: nat)
    requires n > 2
    ensures Split(n) % 2 == 0 && Split(n) / 2 == Split((n + 1) / 2)
  {
  }

  lemma TreeHashUnfolds(sha: Hash, s: seq<Digest>, k: nat, a: seq<Digest>, b: seq<Digest>)
    requires |s| >= 2 && k == Split(|s|) && s[..k] == a && s[k..] == b
    ensures TreeHash(sha, s) == Node(sha, TreeHash(sha, a), TreeHash(sha, b))
  {
  }

  lemma PairTreeHash(sha: Hash, s: seq<Digest>)
    requires |s| == 2
    ensures TreeHash(sha, NextLevel(sha, s)) == TreeHash(sha, s)
  {
    assert s[..1] == [s[0]] && s[1..] == [s[1]] && s[2..] == [];
  }

  /** A level keeps the tree hash: the loop invariant. */
  lemma {:induction false} NextLevelKeepsTreeHash(sha: Hash, s: seq<Digest>)
    requires |s| >= 2
    ensures TreeHash(sha, NextLevel(sha, s)) == TreeHash(sha, s)
    decreases |s|
  {
    if |s| == 2 {
      PairTreeHash(sha, s);
    } else {
      hide TreeHash, NextLevel;
      var k := Split(|s|);
      SplitHalves(|s|);
      var a, b := s[..k], s[k..];
      NextLevelSplits(sha, s, k);
      NextLevelKeepsTreeHash(sha, a);
      if |b| >= 2 { NextLevelKeepsTreeHash(sha, b); }
      TreeHashUnfolds(sha, s, k, a, b);
      TreeHashUnfolds(sha, NextLevel(sha, s), k / 2, NextLevel(sha, a), NextLevel(sha, b));
    }
  }

  function Levels(sha: Hash, s: seq<Digest>, rounds: nat): seq<Digest>
    decreases rounds
  {
    if rounds == 0 then s else Levels(sha, NextLevel(sha, s), rounds - 1)
  }

  /** One node is left after r rounds exactly when n <= 2^r, and then it is the tree hash. */
  lemma {:induction false} RoundsToRoot(sha: Hash, s: seq<Digest>, r: nat)
    ensures |Levels(sha, s, r)| <= 1 <==> |s| <= Pow2(r)
    ensures s != [] && |s| <= Pow2(r) ==> Levels(sha, s, r) == [TreeHash(sha, s)]
    decreases r
  {
    if r == 0 {
      assert |s| == 1 ==> s == [s[0]];
    } else {
      RoundsToRoot(sha, NextLevel(sha, s), r - 1);
      if |s| >= 2 { NextLevelKeepsTreeHash(sha, s); }
    }
  }

  lemma {:induction false} LevelsSnoc(sha: Hash, s: seq<Digest>, r: nat)
    ensures Levels(sha, s, r + 1) == NextLevel(sha, Levels(sha, s, r))
    decreases r
  {
    if r > 0 { LevelsSnoc(sha, NextLevel(sha, s), r - 1); }
  }

  // ---------- the root ----------

  /** What compute_merkle_root insists on before hashing. */
  function CheckPaths(entries: seq<Entry>): (r: Option<MerkleError>)
    ensures r.None? <==> (forall i | 0 <= i < |entries| :: entries[i].path != "")
                         && (forall i, j | 0 <= i < j < |entries| :: entries[i].path != entries[j].path)
  {
    if entries == [] then None
    else
      var n := |entries| - 1;
      var e := CheckPaths(entries[..n]);
      if e.Some? then e
      else if entries[n].path == "" then Some(NoPath)
      else if exists i :: 0 <= i < n && entries[i].path == entries[n].path then Some(DuplicatePath)
      else None
  }

  function PathKey(e: Entry): seq<int> {
    Utf8(e.path)
  }

  predicate DigestsValid(entries: seq<Entry>) {
    forall i | 0 <= i < |entries| :: NormalizeDigest(entries[i].digest).Some?
  }

  function LeafHash(sha: Hash, e: Entry): Digest
    requires NormalizeDigest(e.digest).Some?
  {
    sha(LeafBytes(e.path, NormalizeDigest(e.digest).value))
  }

  function LeafHashes(sha: Hash, entries: seq<Entry>): (r: seq<Digest>)
    requires DigestsValid(entries)
    ensures |r| == |entries|
  {
    seq(|entries|, i requires 0 <= i < |entries| => LeafHash(sha, entries[i]))
  }

  /** The root in the words of the format: RFC 6962 shape over leaves sorted by UTF-8 path. */
  function MerkleRoot(sha: Hash, entries: seq<Entry>): Result<Option<string>, MerkleError> {
    if CheckPaths(entries).Some? then Err(CheckPaths(entries).value)
    else if entries == [] then Ok(None)
    else
      var leaves := Ordering.Sort(entries, PathKey);
      if !DigestsValid(leaves) then Err(InvalidDigest)
      else Ok(Some(Hex(TreeHash(sha, LeafHashes(sha, leaves)))))
  }

  /** leaf_hash of every entry, in order; the first malformed digest raises. */
  method HashLeaves(sha: Hash, leaves: seq<Entry>) returns (r: Result<seq<Digest>, MerkleError>)
    ensures r == if DigestsValid(leaves) then Ok(LeafHashes(sha, leaves)) else Err(InvalidDigest)
  {
    hide NormalizeDigest, LeafHash;
    var level: seq<Digest> := [];
    for i := 0 to |leaves|
      invariant DigestsValid(leaves[..i]) && level == LeafHashes(sha, leaves[..i])
    {
      if NormalizeDigest(leaves[i].digest).None? {
        return Err(InvalidDigest);
      }
      assert LeafHashes(sha, leaves[..i + 1]) == LeafHashes(sha, leaves[..i]) + [LeafHash(sha, leaves[i])];
      level := level + [LeafHash(sha, leaves[i])];
    }
    assert leaves[..|leaves|] == leaves;
    return Ok(level);
  }

  lemma NextLevelShort(sha: Hash, s: seq<Digest>)
    requires |s| <= 1
    ensures NextLevel(sha, s) == s
  {
  }

  lemma NextLevelPair(sha: Hash, s: seq<Digest>, i: nat)
    requires i % 2 == 0 && i + 1 < |s|
    ensures NextLevel(sha, s[..i + 2]) == NextLevel(sha, s[..i]) + [Node(sha, s[i], s[i + 1])]
  {
    var pair := [s[i], s[i + 1]];
    assert s[..i + 2] == s[..i] + pair;
    NextLevelConcat(sha, s[..i], pair);
    assert NextLevel(sha, pair) == [Node(sha, s[i], s[i + 1])] + NextLevel(sha, pair[2..]);
    NextLevelShort(sha, pair[2..]);
  }

  /** The inner loop: pairs of neighbours, then the promoted odd node. */
  method HashPairs(sha: Hash, level: seq<Digest>) returns (next: seq<Digest>)
    requires |level| > 1
    ensures next == NextLevel(sha, level)
  {
    hide NextLevel;
    next := [];
    var index := 0;
    while index < |level| - 1
      invariant 0 <= index <= |level| && index % 2 == 0
      invariant next == NextLevel(sha, level[..index])
    {
      NextLevelPair(sha, level, index);
      next := next + [Node(sha, level[index], level[index + 1])];
      index := index + 2;
    }
    assert level == level[..index] + level[index..];
    NextLevelConcat(sha, level[..index], level[index..]);
    NextLevelShort(sha, level[index..]);
    if |level| % 2 == 1 {
      next := next + [level[|level| - 1]];
    }
  }

  /** compute_merkle_root: two loops over the entries, sort, then halve the level until one node is left. */
  method ComputeMerkleRoot(sha: Hash, entries: seq<Entry>) returns (r: Result<Option<string>, MerkleError>)
    ensures r == MerkleRoot(sha, entries)
  {
    var seen: set<string> := {};
    for i := 0 to |entries|
      invariant CheckPaths(entries[..i]).None?
      invariant seen == set j | 0 <= j < i :: entries[j].path
    {
      var path := entries[i].path;
      assert entries[..i + 1][..i] == entries[..i];
      if path == "" || path in seen {
        CheckPathsStops(entries, i + 1);
        return Err(if path == "" then NoPath else DuplicatePath);
      }
      seen := seen + {path};
    }
    assert entries[..|entries|] == entries;
    if entries == [] {
      return Ok(None);
    }
    var leaves := Ordering.Sort(entries, PathKey);
    Ordering.SortKeeps(entries, PathKey);
    var hashed := HashLeaves(sha, leaves);
    if hashed.Err? {
      return Err(hashed.error);
    }
    var root, _ := HashLevels(sha, hashed.value);
    return Ok(Some(Hex(root)));
  }

  /** The outer loop: it reaches the tree hash after ceil(log2 n) rounds. */
  method HashLevels(sha: Hash, leaves: seq<Digest>) returns (root: Digest, ghost rounds: nat)
    requires leaves != []
    ensures root == TreeHash(sha, leaves)
    ensures |leaves| <= Pow2(rounds) && (rounds > 0 ==> Pow2(rounds - 1) < |leaves|)
  {
    hide TreeHash, NextLevel, Levels;
    var level := leaves;
    rounds := 0;
    NoRounds(sha, leaves);
    while |level| > 1
      invariant |level| >= 1 && level == Levels(sha, leaves, rounds)
      invariant rounds > 0 ==> Pow2(rounds - 1) < |leaves|
      decreases |level|
    {
      RoundsToRoot(sha, leaves, rounds);
      LevelsSnoc(sha, leaves, rounds);
      level := HashPairs(sha, level);
      rounds := rounds + 1;
    }
    RoundsToRoot(sha, leaves, rounds);
    root := level[0];
  }

  lemma NoRounds(sha: Hash, s: seq<Digest>)
    ensures Levels(sha, s, 0) == s
  {
  }

  /** The first refusal is the answer for every longer list. */
  lemma {:induction false} CheckPathsStops(entries: seq<Entry>, i: nat)
    requires i <= |entries| && CheckPaths(entries[..i]).Some?
    ensures CheckPaths(entries) == CheckPaths(entries[..i])
    decreases |entries|
  {
    if i < |entries| {
      var n := |entries| - 1;
      assert entries[..n][..i] == entries[..i];
      CheckPathsStops(entries[..n], i);
    } else {
      assert entries[..i] == entries;
    }
  }

  // ---------- order independence ----------

  lemma PathsDistinct(entries: seq<Entry>)
    requires CheckPaths(entries).None?
    ensures Ordering.DistinctKeys(entries, PathKey)
  {
    forall i, j | 0 <= i < j < |entries| ensures PathKey(entries[i]) != PathKey(entries[j]) {
      if PathKey(entries[i]) == PathKey(entries[j]) {
        Utf8Injective(entries[i].path, entries[j].path);
      }
    }
  }

  lemma PermutationPathsOk(a: seq<Entry>, b: seq<Entry>)
    requires multiset(a) == multiset(b) && CheckPaths(a).None?
    ensures CheckPaths(b).None?
  {
    forall i | 0 <= i < |b| ensures b[i].path != "" {
      assert b[i] in multiset(b);
      assert b[i] in a;
    }
    forall i, j | 0 <= i < j < |b| ensures b[i].path != b[j].path {
      if b[i].path == b[j].path {
        TwicePositions(a, b, i, j);
      }
    }
  }

  lemma TwoCopies(a: seq<Entry>, x: Entry)
    requires multiset(a)[x] >= 2
    ensures exists k, l :: 0 <= k < l < |a| && a[k] == a[l] == x
  {
    var k :| 0 <= k < |a| && a[k] == x;
    assert a == a[..k] + [x] + a[k + 1..];
    if x in a[..k] {
      var l :| 0 <= l < k && a[..k][l] == x;
      assert a[l] == a[k] == x;
    } else {
      assert x in multiset(a[k + 1..]);
      var l :| 0 <= l < |a[k + 1..]| && a[k + 1..][l] == x;
      assert a[k] == a[k + 1 + l] == x;
    }
  }

  /** Two places of b with one path come from two places of a with that path. */
  lemma TwicePositions(a: seq<Entry>, b: seq<Entry>, i: nat, j: nat)
    requires multiset(a) == multiset(b) && i < j < |b| && b[i].path == b[j].path
    ensures exists k, l :: 0 <= k < l < |a| && a[k].path == a[l].path
  {
    if b[i] == b[j] {
      assert b == b[..j] + [b[j]] + b[j + 1..];
      assert b[..j][i] in multiset(b[..j]);
      TwoCopies(a, b[i]);
      var k, l :| 0 <= k < l < |a| && a[k] == a[l] == b[i];
      assert a[k].path == a[l].path;
    } else {
      assert b[i] in multiset(a) && b[j] in multiset(a);
      var k :| 0 <= k < |a| && a[k] == b[i];
      var l :| 0 <= l < |a| && a[l] == b[j];
      assert if k < l then a[k].path == a[l].path else a[l].path == a[k].path;
    }
  }

  /** The root does not depend on the order the entries are given in; nor does refusal. */
  lemma {:induction false} MerkleRootForgetsOrder(sha: Hash, a: seq<Entry>, b: seq<Entry>)
    requires multiset(a) == multiset(b)
    ensures MerkleRoot(sha, a).Ok? <==> MerkleRoot(sha, b).Ok?
    ensures MerkleRoot(sha, a).Ok? ==> MerkleRoot(sha, a) == MerkleRoot(sha, b)
  {
    assert |multiset(a)| == |a| && |multiset(b)| == |b|;
    if CheckPaths(a).None? {
      PermutationPathsOk(a, b);
      PathsDistinct(a);
      PathsDistinct(b);
      forall x ensures x in a <==> x in b {
        assert x in multiset(a) <==> x in multiset(b);
      }
      Ordering.SortForgetsOrder(a, b, PathKey);
    } else if CheckPaths(b).None? {
      PermutationPathsOk(b, a);
    }
  }

  // ---------- binding ----------

  lemma {:induction false} LeafBytesInjective(p: string, d: string, q: string, e: string)
    requires AllLowerHex(d) && AllLowerHex(e) && |d| == |e|
    requires LeafBytes(p, d) == LeafBytes(q, e)
    ensures p == q && d == e
  {
    var x, y := LeafBytes(p, d), LeafBytes(q, e);
    var n := |Utf8(p)|;
    assert x[1..n + 1] == Utf8(p) && y[1..n + 1] == Utf8(q);
    Utf8Injective(p, q);
    assert x[n + 2..] == Ascii(d) && y[n + 2..] == Ascii(e);
    forall i | 0 <= i < |d| ensures d[i] == e[i] {
      assert Ascii(d)[i] == Ascii(e)[i];
    }
  }

  lemma NodeBytesInjective(a: Digest, b: Digest, c: Digest, d: Digest)
    requires NodeBytes(a, b) == NodeBytes(c, d)
    ensures a == c && b == d
  {
    assert NodeBytes(a, b)[1..33] == a && NodeBytes(c, d)[1..33] == c;
    assert NodeBytes(a, b)[33..] == b && NodeBytes(c, d)[33..] == d;
  }

  /** Normalised entries. */
  function Normalized(entries: seq<Entry>): (r: seq<Entry>)
    requires DigestsValid(entries)
    ensures |r| == |entries|
  {
    seq(|entries|, i requires 0 <= i < |entries| =>
      Entry(entries[i].path, NormalizeDigest(entries[i].digest).value))
  }

  /** Equal tree hashes over any two leaf lists: the lists agree, or two byte strings share a digest. */
  lemma {:induction false} TreeHashBinds(sha: Hash, a: seq<Entry>, b: seq<Entry>)
    returns (x: seq<Byte>, y: seq<Byte>)
    requires a != [] && b != [] && DigestsValid(a) && DigestsValid(b)
    requires TreeHash(sha, LeafHashes(sha, a)) == TreeHash(sha, LeafHashes(sha, b))
    ensures Normalized(a) == Normalized(b) || Collision(sha, x, y)
    decreases |a|
  {
    hide TreeHash, LeafHashes, NormalizeDigest;
    x, y := TopBytes(sha, a), TopBytes(sha, b);
    TopBytesHash(sha, a);
    TopBytesHash(sha, b);
    if x == y {
      assert x[0] == y[0];
      if |a| == 1 {
        LeafBytesInjective(a[0].path, NormalizeDigest(a[0].digest).value,
                           b[0].path, NormalizeDigest(b[0].digest).value);
      } else {
        var k, l := Split(|a|), Split(|b|);
        NodeBytesInjective(TreeHash(sha, LeafHashes(sha, a[..k])), TreeHash(sha, LeafHashes(sha, a[k..])),
                           TreeHash(sha, LeafHashes(sha, b[..l])), TreeHash(sha, LeafHashes(sha, b[l..])));
        x, y := TreeHashBinds(sha, a[..k], b[..l]);
        if !Collision(sha, x, y) {
          x, y := TreeHashBinds(sha, a[k..], b[l..]);
          if !Collision(sha, x, y) {
            assert Normalized(a) == Normalized(a[..k]) + Normalized(a[k..]);
            assert Normalized(b) == Normalized(b[..l]) + Normalized(b[l..]);
          }
        }
      }
    }
  }

  /** The bytes hashed at the top of the tree over these leaves. */
  function TopBytes(sha: Hash, a: seq<Entry>): (r: seq<Byte>)
    requires a != [] && DigestsValid(a)
    ensures r != [] && r[0] == (if |a| == 1 then 0x00 else 0x01)
  {
    if |a| == 1 then LeafBytes(a[0].path, NormalizeDigest(a[0].digest).value)
    else
      var k := Split(|a|);
      NodeBytes(TreeHash(sha, LeafHashes(sha, a[..k])), TreeHash(sha, LeafHashes(sha, a[k..])))
  }

  lemma TopBytesHash(sha: Hash, a: seq<Entry>)
    requires a != [] && DigestsValid(a)
    ensures sha(TopBytes(sha, a)) == TreeHash(sha, LeafHashes(sha, a))
  {
    if |a| > 1 {
      var k := Split(|a|);
      assert LeafHashes(sha, a)[..k] == LeafHashes(sha, a[..k]);
      assert LeafHashes(sha, a)[k..] == LeafHashes(sha, a[k..]);
    }
  }

  /** A malformed digest anywhere refuses the whole list. */
  lemma AcceptedDigestsValid(sha: Hash, a: seq<Entry>)
    ensures MerkleRoot(sha, a).Ok? <==> CheckPaths(a).None? && DigestsValid(a)
  {
    var s := Ordering.Sort(a, PathKey);
    Ordering.SortKeeps(a, PathKey);
    assert a == [] ==> s == [];
    if DigestsValid(s) {
      forall i | 0 <= i < |a| ensures NormalizeDigest(a[i].digest).Some? {
        assert a[i] in s;
      }
    }
    if DigestsValid(a) {
      forall i | 0 <= i < |s| ensures NormalizeDigest(s[i].digest).Some? {
        assert s[i] in a;
      }
    }
  }

  /** Two accepted entry lists with one root list the same files with the same digests. */
  lemma {:induction false} MerkleRootBinds(sha: Hash, a: seq<Entry>, b: seq<Entry>) returns (x: seq<Byte>, y: seq<Byte>)
    requires MerkleRoot(sha, a).Ok? && MerkleRoot(sha, a) == MerkleRoot(sha, b)
    ensures DigestsValid(a) && DigestsValid(b)
    ensures Collision(sha, x, y) || forall e :: e in Normalized(a) <==> e in Normalized(b)
  {
    AcceptedDigestsValid(sha, a);
    AcceptedDigestsValid(sha, b);
    x, y := [], [];
    if a != [] {
      var s, t := Ordering.Sort(a, PathKey), Ordering.Sort(b, PathKey);
      Ordering.SortKeeps(a, PathKey);
      Ordering.SortKeeps(b, PathKey);
      UnhexHex(TreeHash(sha, LeafHashes(sha, s)));
      UnhexHex(TreeHash(sha, LeafHashes(sha, t)));
      x, y := TreeHashBinds(sha, s, t);
      SortedNormalized(a, s);
      SortedNormalized(b, t);
    }
  }

  lemma SortedNormalized(a: seq<Entry>, s: seq<Entry>)
    requires DigestsValid(a) && DigestsValid(s) && forall e :: e in a <==> e in s
    ensures forall e :: e in Normalized(a) <==> e in Normalized(s)
  {
    forall i | 0 <= i < |a| ensures Normalized(a)[i] in Normalized(s) {
      assert a[i] in s;
      var j :| 0 <= j < |s| && s[j] == a[i];
      assert Normalized(s)[j] == Normalized(a)[i];
    }
    forall j | 0 <= j < |s| ensures Normalized(s)[j] in Normalized(a) {
      assert s[j] in a;
      var i :| 0 <= i < |a| && a[i] == s[j];
      assert Normalized(a)[i] == Normalized(s)[j];
    }
  }

  // ---------- why promotion and not duplication ----------

  /** The level of a tree that pairs an odd last node with itself. */
  function DuplicatingLevel(sha: Hash, s: seq<Digest>): seq<Digest> {
    if s == [] then []
    else if |s| == 1 then [Node(sha, s[0], s[0])]
    else [Node(sha, s[0], s[1])] + DuplicatingLevel(sha, s[2..])
  }

  lemma {:induction false} DuplicatingHalves(sha: Hash, s: seq<Digest>)
    ensures |DuplicatingLevel(sha, s)| == (|s| + 1) / 2
  {
    if |s| >= 2 { DuplicatingHalves(sha, s[2..]); }
  }

  /** The root of a tree that duplicates: the levels until one node is left. */
  function DuplicatingRoot(sha: Hash, s: seq<Digest>): Digest
    requires s != []
    decreases |s|
  {
    DuplicatingHalves(sha, s);
    if |s| == 1 then s[0] else DuplicatingRoot(sha, DuplicatingLevel(sha, s))
  }

  /** With duplication a leaf list of odd length and its extension by the last leaf have one root. */
  lemma {:induction false} DuplicatedRootsCollide(sha: Hash, s: seq<Digest>)
    requires |s| % 2 == 1 && |s| >= 3
    ensures DuplicatingRoot(sha, s) == DuplicatingRoot(sha, s + [s[|s| - 1]])
  {
    hide DuplicatingLevel;
    DuplicationForges(sha, s);
  }

  /** Under duplication every odd level has a longer twin: the forgery promotion rules out. */
  lemma {:induction false} DuplicationForges(sha: Hash, s: seq<Digest>)
    requires |s| % 2 == 1
    ensures DuplicatingLevel(sha, s) == DuplicatingLevel(sha, s + [s[|s| - 1]])
  {
    var t := s + [s[|s| - 1]];
    if |s| == 1 {
      assert t[2..] == [];
    } else {
      DuplicationForges(sha, s[2..]);
      assert t[2..] == s[2..] + [s[2..][|s[2..]| - 1]];
    }
  }
}
