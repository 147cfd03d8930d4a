/** Merkle roots over 32-byte digests: the level-by-level loop, the tree it computes, and what a root binds. */
module Merkle {
  import opened Types

  datatype Digest = Digest(bytes: seq<Byte>)

  type Hash32 = d: Digest | |d.bytes| == 32 witness Digest(seq(32, _ => 0))

  function ZeroHash(): Hash32 {
    Digest(seq(32, _ => 0))
  }

  /** The hash function over byte strings. Nothing is assumed of it but what a lemma states. */
  type Hasher = seq<Byte> -> Hash32

  function Node(h: Hasher, a: Hash32, b: Hash32): Hash32 {
    h(a.bytes + b.bytes)
  }

  function Pow2(k: nat): (r: nat)
    ensures r >= 1
  {
    if k == 0 then 1 else 2 * Pow2(k - 1)
  }

  lemma {:induction false} Pow2Grows(j: nat, k: nat)
    requires j < k
    ensures Pow2(j) < Pow2(k)
  {
    if j < k - 1 {
      Pow2Grows(j, k - 1);
    }
  }

  /** How often `n` leaves are paired up until one is left. */
  function Height(n: nat): nat
    requires n >= 1
  {
    if n == 1 then 0 else 1 + Height((n + 1) / 2)
  }

  /** The height is the least whose full tree has room for `n` leaves. */
  lemma {:induction false} HeightIsLeast(n: nat)
    requires n >= 1
    ensures n <= Pow2(Height(n))
    ensures n > 1 ==> n > Pow2(Height(n) - 1)
  {
    if n > 1 {
      HeightIsLeast((n + 1) / 2);
    }
  }

  // ---------------------------------------------------------------------------
  // The tree, top down
  // ---------------------------------------------------------------------------

  datatype Tree<T> = Leaf(value: T) | Fork(left: Tree<T>, right: Tree<T>)

  /** The tree of height `k` over the leaves from `at` on; its right half is its left half again
      when the leaves end before it. */
  function TreeAt<T>(k: nat, l: seq<T>, at: nat): Tree<T>
    requires at < |l|
  {
    if k == 0 then Leaf(l[at]) else
      Fork(TreeAt(k - 1, l, at), TreeAt(k - 1, l, if at + Pow2(k - 1) < |l| then at + Pow2(k - 1) else at))
  }

  function TreeOf<T>(l: seq<T>): Tree<T>
    requires l != []
  {
    TreeAt(Height(|l|), l, 0)
  }

  function Fold(h: Hasher, t: Tree<Hash32>): Hash32 {
    match t
    case Leaf(value) => value
    case Fork(left, right) => Node(h, Fold(h, left), Fold(h, right))
  }

  /** The leaves of a tree from left to right. */
  function Row<T>(t: Tree<T>): seq<T> {
    match t
    case Leaf(value) => [value]
    case Fork(left, right) => Row(left) + Row(right)
  }

  /** The full row of leaves that a short row stands for. */
  function Padded<T>(l: seq<T>): seq<T> {
    if l == [] then [] else Row(TreeOf(l))
  }

  function Root(h: Hasher, leaves: seq<Hash32>): Hash32 {
    if leaves == [] then ZeroHash() else Fold(h, TreeOf(leaves))
  }

  // ---------------------------------------------------------------------------
  // The loop, bottom up
  // ---------------------------------------------------------------------------

  function Mapped<S, T>(f: S -> T, s: seq<S>): seq<T> {
    seq(|s|, i requires 0 <= i < |s| => f(s[i]))
  }

  function MapTree<S, T>(f: S -> T, t: Tree<S>): Tree<T> {
    match t
    case Leaf(value) => Leaf(f(value))
    case Fork(left, right) => Fork(MapTree(f, left), MapTree(f, right))
  }

  lemma {:induction false} TreeMapped<S, T>(k: nat, f: S -> T, s: seq<S>, at: nat)
    requires at < |s|
    ensures TreeAt(k, Mapped(f, s), at) == MapTree(f, TreeAt(k, s, at))
  {
    if k > 0 {
      TreeMapped(k - 1, f, s, at);
      if at + Pow2(k - 1) < |s| {
        TreeMapped(k - 1, f, s, at + Pow2(k - 1));
      }
    }
  }

  datatype Pair<T> = Pair(left: T, right: T)

  /** Neighbours paired, an odd last one paired with itself. */
  function Paired<T>(l: seq<T>): seq<Pair<T>> {
    seq((|l| + 1) / 2, i requires 0 <= i < (|l| + 1) / 2 =>
      Pair(l[2 * i], if 2 * i + 1 < |l| then l[2 * i + 1] else l[2 * i]))
  }

  function PairHash(h: Hasher): Pair<Hash32> -> Hash32 {
    (p: Pair<Hash32>) => Node(h, p.left, p.right)
  }

  /** One row up. */
  function Level(h: Hasher, l: seq<Hash32>): seq<Hash32> {
    Mapped(PairHash(h), Paired(l))
  }

  /** The tree whose lowest forks are the pairs of `t`. */
  function Forked<T>(t: Tree<Pair<T>>): Tree<T> {
    match t
    case Leaf(Pair(a, b)) => Fork(Leaf(a), Leaf(b))
    case Fork(left, right) => Fork(Forked(left), Forked(right))
  }

  lemma {:induction false} TreeOfPairs<T>(k: nat, l: seq<T>, at: nat)
    requires k >= 1 && 2 * at < |l|
    ensures TreeAt(k, l, 2 * at) == Forked(TreeAt(k - 1, Paired(l), at))
  {
    if k > 1 {
      TreeOfPairs(k - 1, l, at);
      if 2 * at + Pow2(k - 1) < |l| {
        TreeOfPairs(k - 1, l, at + Pow2(k - 2));
      }
    }
  }

  lemma {:induction false} FoldOfPairs(h: Hasher, t: Tree<Pair<Hash32>>)
    ensures Fold(h, Forked(t)) == Fold(h, MapTree(PairHash(h), t))
  {
    if t.Fork? {
      FoldOfPairs(h, t.left);
      FoldOfPairs(h, t.right);
    }
  }

  /** Pairing a row up takes one level off the tree. */
  lemma {:induction false} TreeByLevel(h: Hasher, k: nat, l: seq<Hash32>, at: nat)
    requires k >= 1 && 2 * at < |l|
    ensures Fold(h, TreeAt(k, l, 2 * at)) == Fold(h, TreeAt(k - 1, Level(h, l), at))
  {
    TreeOfPairs(k, l, at);
    FoldOfPairs(h, TreeAt(k - 1, Paired(l), at));
    TreeMapped(k - 1, PairHash(h), Paired(l), at);
  }

  /** Pairing a row up leaves the root alone. */
  lemma RootByLevel(h: Hasher, l: seq<Hash32>)
    requires |l| >= 2
    ensures Root(h, Level(h, l)) == Root(h, l)
  {
    TreeByLevel(h, Height(|l|), l, 0);
  }

  /** The next row: a row of odd length first repeats its last digest. */
  method PairUp(h: Hasher, row: seq<Hash32>) returns (next: seq<Hash32>)
    requires |row| >= 1
    ensures next == Level(h, row)
  {
    var full := row;
    if |full| % 2 == 1 {
      full := full + [full[|full| - 1]];
    }
    next := [];
    for i := 0 to |full| / 2
      invariant |next| == i && forall j | 0 <= j < i :: next[j] == Node(h, full[2 * j], full[2 * j + 1])
    {
      next := next + [Node(h, full[2 * i], full[2 * i + 1])];
    }
  }

  method MerkleRoot(h: Hasher, leaves: seq<Hash32>) returns (root: Hash32)
    ensures root == Root(h, leaves)
  {
    if |leaves| == 0 {
      return ZeroHash();
    }
    var row := leaves;
    while |row| > 1
      invariant |row| >= 1 && Root(h, row) == Root(h, leaves)
      decreases |row|
    {
      RootByLevel(h, row);
      row := PairUp(h, row);
    }
    root := row[0];
  }

  lemma LevelOfOdd(h: Hasher, l: seq<Hash32>)
    requires |l| % 2 == 1
    ensures Level(h, l + [l[|l| - 1]]) == Level(h, l)
  {
  }

  /** An odd row and the row with its last leaf repeated have the same root. */
  lemma OddTailRepeats(h: Hasher, l: seq<Hash32>)
    requires |l| >= 3 && |l| % 2 == 1
    ensures Root(h, l + [l[|l| - 1]]) == Root(h, l)
  {
    var longer := l + [l[|l| - 1]];
    RootByLevel(h, l);
    RootByLevel(h, longer);
    LevelOfOdd(h, l);
  }

  // ---------------------------------------------------------------------------
  // What a root binds: rows of digests
  // ---------------------------------------------------------------------------

  /** Every string hashed on the way from a tree's digests to its own digest. */
  function NodeStrings(h: Hasher, t: Tree<Hash32>): set<seq<Byte>> {
    match t
    case Leaf(_) => {}
    case Fork(left, right) => {Fold(h, left).bytes + Fold(h, right).bytes} + NodeStrings(h, left) + NodeStrings(h, right)
  }

  /** Every string hashed on the way from a row of digests to its root. */
  function InnerStrings(h: Hasher, row: seq<Hash32>): set<seq<Byte>> {
    if row == [] then {} else NodeStrings(h, TreeOf(row))
  }

  /** Among these strings no two collide. */
  ghost predicate NoCollision(h: Hasher, strings: set<seq<Byte>>) {
    forall x, y | x in strings && y in strings :: h(x) == h(y) ==> x == y
  }

  lemma SameBytes(a: Hash32, b: Hash32, c: Hash32, d: Hash32)
    ensures a.bytes + b.bytes == c.bytes + d.bytes <==> a == c && b == d
  {
    SameHalves(a.bytes, b.bytes, c.bytes, d.bytes);
  }

  lemma SameHalves<T>(a: seq<T>, b: seq<T>, c: seq<T>, d: seq<T>)
    requires |a| == |c|
    ensures a + b == c + d <==> a == c && b == d
  {
    if a + b == c + d {
      assert a == (a + b)[..|a|] && b == (a + b)[|a|..] && c == (c + d)[..|c|] && d == (c + d)[|c|..];
    }
  }

  predicate Full<T>(k: nat, t: Tree<T>) {
    match t
    case Leaf(_) => k == 0
    case Fork(left, right) => k > 0 && Full(k - 1, left) && Full(k - 1, right)
  }

  lemma {:induction false} TreeIsFull<T>(k: nat, l: seq<T>, at: nat)
    requires at < |l|
    ensures Full(k, TreeAt(k, l, at))
  {
    if k > 0 {
      TreeIsFull(k - 1, l, at);
      if at + Pow2(k - 1) < |l| {
        TreeIsFull(k - 1, l, at + Pow2(k - 1));
      }
    }
  }

  lemma {:induction false} FullSize<T>(k: nat, t: Tree<T>)
    requires Full(k, t)
    ensures |Row(t)| == Pow2(k)
  {
    if k > 0 {
      FullSize(k - 1, t.left);
      FullSize(k - 1, t.right);
    }
  }

  /** A full tree is known by its height and its row of leaves. */
  lemma {:induction false} TreeIsItsRow<T>(k: nat, s: Tree<T>, j: nat, t: Tree<T>)
    requires Full(k, s) && Full(j, t)
    ensures s == t <==> k == j && Row(s) == Row(t)
  {
    if k > 0 && j > 0 {
      TreeIsItsRow(k - 1, s.left, j - 1, t.left);
      TreeIsItsRow(k - 1, s.right, j - 1, t.right);
      if k == j {
        FullSize(k - 1, s.left);
        FullSize(k - 1, t.left);
        SameHalves(Row(s.left), Row(s.right), Row(t.left), Row(t.right));
      }
    }
  }

  /** The row of the tree from `at` on starts with the leaves from `at` on. */
  lemma {:induction false} RowStarts<T>(k: nat, l: seq<T>, at: nat)
    requires at < |l|
    ensures |Row(TreeAt(k, l, at))| == Pow2(k)
    ensures forall i | 0 <= i < Pow2(k) && at + i < |l| :: Row(TreeAt(k, l, at))[i] == l[at + i]
  {
    if k > 0 {
      var half := Pow2(k - 1);
      var next := if at + half < |l| then at + half else at;
      RowStarts(k - 1, l, at);
      RowStarts(k - 1, l, next);
      assert Row(TreeAt(k, l, at)) == Row(TreeAt(k - 1, l, at)) + Row(TreeAt(k - 1, l, next));
    }
  }

  lemma PaddedStarts<T>(l: seq<T>)
    ensures l <= Padded(l)
    ensures l != [] ==> |Padded(l)| == Pow2(Height(|l|))
  {
    if l != [] {
      HeightIsLeast(|l|);
      RowStarts(Height(|l|), l, 0);
    }
  }

  lemma {:induction false} PaddedSize<T>(a: seq<T>, b: seq<T>)
    requires a != [] && b != []
    ensures |Padded(a)| == |Padded(b)| <==> Height(|a|) == Height(|b|)
  {
    PaddedStarts(a);
    PaddedStarts(b);
    if Height(|a|) < Height(|b|) {
      Pow2Grows(Height(|a|), Height(|b|));
    } else if Height(|b|) < Height(|a|) {
      Pow2Grows(Height(|b|), Height(|a|));
    }
  }

  /** Rows of one length that stand for the same full row are the same row. */
  lemma PaddedSame<T>(a: seq<T>, b: seq<T>)
    requires |a| == |b|
    ensures Padded(a) == Padded(b) <==> a == b
  {
    PaddedStarts(a);
    PaddedStarts(b);
  }

  /** Trees of one shape have the same digest exactly when they are the same tree. */
  lemma {:induction false} FullTreesBind(h: Hasher, k: nat, s: Tree<Hash32>, t: Tree<Hash32>, all: set<seq<Byte>>)
    requires Full(k, s) && Full(k, t) && NoCollision(h, all) && NodeStrings(h, s) <= all && NodeStrings(h, t) <= all
    ensures Fold(h, s) == Fold(h, t) <==> s == t
  {
    if k > 0 {
      SameBytes(Fold(h, s.left), Fold(h, s.right), Fold(h, t.left), Fold(h, t.right));
      FullTreesBind(h, k - 1, s.left, t.left, all);
      FullTreesBind(h, k - 1, s.right, t.right, all);
    }
  }

  /** Rows of one height have the same root exactly when they stand for the same full row, whatever the digests are. */
  lemma EqualHeightBinds(h: Hasher, a: seq<Hash32>, b: seq<Hash32>)
    requires a != [] && b != [] && Height(|a|) == Height(|b|) && NoCollision(h, InnerStrings(h, a) + InnerStrings(h, b))
    ensures Root(h, a) == Root(h, b) <==> Padded(a) == Padded(b)
  {
    var k := Height(|a|);
    TreeIsFull(k, a, 0);
    TreeIsFull(k, b, 0);
    FullTreesBind(h, k, TreeOf(a), TreeOf(b), InnerStrings(h, a) + InnerStrings(h, b));
    TreeIsItsRow(k, TreeOf(a), k, TreeOf(b));
  }

  /** Rows of one length have the same root exactly when they are the same row, whatever the digests are. */
  lemma EqualLengthBinds(h: Hasher, a: seq<Hash32>, b: seq<Hash32>)
    requires |a| == |b| && NoCollision(h, InnerStrings(h, a) + InnerStrings(h, b))
    ensures Root(h, a) == Root(h, b) <==> a == b
  {
    if a != [] {
      EqualHeightBinds(h, a, b);
      PaddedSame(a, b);
    }
  }

  /** The row that is left of `l` after `d` rounds of the loop. */
  function Raised(h: Hasher, l: seq<Hash32>, d: nat): (r: seq<Hash32>)
    requires l != [] && d <= Height(|l|)
    ensures r != [] && Height(|r|) == Height(|l|) - d
    decreases d
  {
    if d == 0 then l else Raised(h, Level(h, l), d - 1)
  }

  lemma {:induction false} RaisedRoot(h: Hasher, l: seq<Hash32>, d: nat)
    requires l != [] && d <= Height(|l|)
    ensures Root(h, Raised(h, l, d)) == Root(h, l)
    decreases d
  {
    if d > 0 {
      RootByLevel(h, l);
      RaisedRoot(h, Level(h, l), d - 1);
    }
  }

  /** Rows of digests of any two lengths have the same root exactly when the loop takes the higher one, once it is down to
      the height of the other, to a row that stands for the same full row. */
  lemma RootsMeetExactly(h: Hasher, a: seq<Hash32>, b: seq<Hash32>)
    requires a != [] && b != [] && Height(|a|) <= Height(|b|)
    requires NoCollision(h, InnerStrings(h, a) + InnerStrings(h, Raised(h, b, Height(|b|) - Height(|a|))))
    ensures Root(h, a) == Root(h, b) <==> Padded(a) == Padded(Raised(h, b, Height(|b|) - Height(|a|)))
  {
    var d := Height(|b|) - Height(|a|);
    RaisedRoot(h, b, d);
    EqualHeightBinds(h, a, Raised(h, b, d));
  }

  // ---------------------------------------------------------------------------
  // What a root binds: rows of strings, hashed for their digests
  // ---------------------------------------------------------------------------

  /** The inner strings of the tree over the strings' digests, and the strings themselves. */
  function Strings(h: Hasher, blobs: seq<seq<Byte>>): set<seq<Byte>> {
    InnerStrings(h, Mapped(h, blobs)) + (set x | x in blobs)
  }

  /** Among these strings no two collide, and none hashes to the empty root. */
  ghost predicate CollisionFree(h: Hasher, strings: set<seq<Byte>>) {
    NoCollision(h, strings) && forall x | x in strings :: h(x) != ZeroHash()
  }

  lemma FewerCollide(h: Hasher, all: set<seq<Byte>>, some: set<seq<Byte>>)
    requires some <= all
    ensures NoCollision(h, all) ==> NoCollision(h, some)
    ensures CollisionFree(h, all) ==> CollisionFree(h, some)
  {
  }

  /** No leaf's string passes for the two digests of an inner node. */
  ghost predicate LeavesApart(h: Hasher, a: seq<seq<Byte>>, b: seq<seq<Byte>>) {
    forall x | x in a || x in b :: x !in InnerStrings(h, Mapped(h, a)) && x !in InnerStrings(h, Mapped(h, b))
  }

  /** No string is as long as two digests. */
  predicate NotNodes(blobs: seq<seq<Byte>>) {
    forall i | 0 <= i < |blobs| :: |blobs[i]| != 64
  }

  lemma {:induction false} NodeStringSize(h: Hasher, t: Tree<Hash32>, x: seq<Byte>)
    requires x in NodeStrings(h, t)
    ensures |x| == 64
  {
    if x in NodeStrings(h, t.left) {
      NodeStringSize(h, t.left, x);
    } else if x in NodeStrings(h, t.right) {
      NodeStringSize(h, t.right, x);
    }
  }

  lemma InnerStringSize(h: Hasher, row: seq<Hash32>, x: seq<Byte>)
    requires x in InnerStrings(h, row)
    ensures |x| == 64
  {
    NodeStringSize(h, TreeOf(row), x);
  }

  /** Strings that are not as long as two digests never pass for inner nodes. */
  lemma NotNodesApart(h: Hasher, a: seq<seq<Byte>>, b: seq<seq<Byte>>)
    requires NotNodes(a) && NotNodes(b)
    ensures LeavesApart(h, a, b)
  {
    forall x | x in InnerStrings(h, Mapped(h, a)) || x in InnerStrings(h, Mapped(h, b)) ensures x !in a && x !in b {
      if x in InnerStrings(h, Mapped(h, a)) {
        InnerStringSize(h, Mapped(h, a), x);
      } else {
        InnerStringSize(h, Mapped(h, b), x);
      }
    }
  }

  /** The string hashed last for a tree over the digests of strings. */
  function TopString(h: Hasher, t: Tree<seq<Byte>>): (x: seq<Byte>)
    ensures Fold(h, MapTree(h, t)) == h(x)
  {
    match t
    case Leaf(value) => value
    case Fork(left, right) => Fold(h, MapTree(h, left)).bytes + Fold(h, MapTree(h, right)).bytes
  }

  predicate InTree<T(==)>(t: Tree<T>, x: T) {
    match t
    case Leaf(value) => value == x
    case Fork(left, right) => InTree(left, x) || InTree(right, x)
  }

  /** All strings of `t` are among `leaves`, and all strings hashed above them among `inner`. */
  ghost predicate Within(h: Hasher, t: Tree<seq<Byte>>, leaves: set<seq<Byte>>, inner: set<seq<Byte>>) {
    NodeStrings(h, MapTree(h, t)) <= inner && forall x :: InTree(t, x) ==> x in leaves
  }

  /** Trees of any two shapes have the same digest exactly when they are the same tree. */
  lemma {:induction false} TreesBind(h: Hasher, s: Tree<seq<Byte>>, t: Tree<seq<Byte>>, leaves: set<seq<Byte>>, inner: set<seq<Byte>>)
    requires NoCollision(h, leaves + inner) && leaves !! inner && Within(h, s, leaves, inner) && Within(h, t, leaves, inner)
    ensures Fold(h, MapTree(h, s)) == Fold(h, MapTree(h, t)) <==> s == t
  {
    var x, y := TopString(h, s), TopString(h, t);
    TopIsHashed(h, s, leaves, inner);
    TopIsHashed(h, t, leaves, inner);
    if s.Fork? && t.Fork? {
      var ds, dt := MapTree(h, s), MapTree(h, t);
      SameBytes(Fold(h, ds.left), Fold(h, ds.right), Fold(h, dt.left), Fold(h, dt.right));
      HalvesWithin(h, s, leaves, inner);
      HalvesWithin(h, t, leaves, inner);
      TreesBind(h, s.left, t.left, leaves, inner);
      TreesBind(h, s.right, t.right, leaves, inner);
    }
  }

  lemma TopIsHashed(h: Hasher, t: Tree<seq<Byte>>, leaves: set<seq<Byte>>, inner: set<seq<Byte>>)
    requires Within(h, t, leaves, inner)
    ensures TopString(h, t) in if t.Leaf? then leaves else inner
  {
    assert t.Leaf? ==> InTree(t, t.value);
  }

  lemma HalvesWithin(h: Hasher, t: Tree<seq<Byte>>, leaves: set<seq<Byte>>, inner: set<seq<Byte>>)
    requires Within(h, t, leaves, inner) && t.Fork?
    ensures Within(h, t.left, leaves, inner) && Within(h, t.right, leaves, inner)
  {
    forall x | InTree(t.left, x) || InTree(t.right, x) ensures x in leaves {
      assert InTree(t, x);
    }
  }

  lemma {:induction false} TreeElements<T>(k: nat, l: seq<T>, at: nat, x: T)
    requires at < |l| && InTree(TreeAt(k, l, at), x)
    ensures x in l
  {
    if k > 0 {
      if InTree(TreeAt(k - 1, l, at), x) {
        TreeElements(k - 1, l, at, x);
      } else {
        TreeElements(k - 1, l, at + Pow2(k - 1), x);
      }
    }
  }

  lemma {:induction false} RowElements<T>(t: Tree<T>, x: T)
    ensures x in Row(t) <==> InTree(t, x)
  {
    if t.Fork? {
      RowElements(t.left, x);
      RowElements(t.right, x);
    }
  }

  lemma PaddedElement<T>(l: seq<T>, x: T)
    requires x in Padded(l)
    ensures x in l
  {
    RowElements(TreeOf(l), x);
    TreeElements(Height(|l|), l, 0, x);
  }

  lemma RowWithin(h: Hasher, a: seq<seq<Byte>>, leaves: set<seq<Byte>>, inner: set<seq<Byte>>)
    requires a != [] && (forall x | x in a :: x in leaves) && InnerStrings(h, Mapped(h, a)) <= inner
    ensures Root(h, Mapped(h, a)) == Fold(h, MapTree(h, TreeOf(a))) && Within(h, TreeOf(a), leaves, inner)
  {
    TreeMapped(Height(|a|), h, a, 0);
    forall x | InTree(TreeOf(a), x) ensures x in leaves {
      TreeElements(Height(|a|), a, 0, x);
    }
  }

  /** Rows of strings of any two lengths have the same root exactly when they stand for the same full row. */
  lemma {:induction false} RootBinds(h: Hasher, a: seq<seq<Byte>>, b: seq<seq<Byte>>)
    requires LeavesApart(h, a, b) && CollisionFree(h, Strings(h, a) + Strings(h, b))
    ensures Root(h, Mapped(h, a)) == Root(h, Mapped(h, b)) <==> Padded(a) == Padded(b)
  {
    PaddedStarts(a);
    PaddedStarts(b);
    if a != [] && b != [] {
      NonEmptyBind(h, a, b);
    } else if a != [] {
      RootNotEmpty(h, a);
    } else if b != [] {
      RootNotEmpty(h, b);
    }
  }

  lemma RootNotEmpty(h: Hasher, a: seq<seq<Byte>>)
    requires a != [] && CollisionFree(h, Strings(h, a))
    ensures Root(h, Mapped(h, a)) != ZeroHash()
  {
    var leaves, inner := (set x | x in a), InnerStrings(h, Mapped(h, a));
    RowWithin(h, a, leaves, inner);
    TopIsHashed(h, TreeOf(a), leaves, inner);
  }

  lemma NonEmptyBind(h: Hasher, a: seq<seq<Byte>>, b: seq<seq<Byte>>)
    requires a != [] && b != [] && LeavesApart(h, a, b) && NoCollision(h, Strings(h, a) + Strings(h, b))
    ensures Root(h, Mapped(h, a)) == Root(h, Mapped(h, b)) <==> Padded(a) == Padded(b)
  {
    var leaves := (set x | x in a) + (set x | x in b);
    var inner := InnerStrings(h, Mapped(h, a)) + InnerStrings(h, Mapped(h, b));
    RowWithin(h, a, leaves, inner);
    RowWithin(h, b, leaves, inner);
    assert leaves + inner == Strings(h, a) + Strings(h, b);
    TreesBind(h, TreeOf(a), TreeOf(b), leaves, inner);
    PaddedSize(a, b);
    TreeIsFull(Height(|a|), a, 0);
    TreeIsFull(Height(|b|), b, 0);
    TreeIsItsRow(Height(|a|), TreeOf(a), Height(|b|), TreeOf(b));
  }

  /** Rows of strings of one length have the same root exactly when they are the same row, whatever the strings are. */
  lemma HashedLengthBinds(h: Hasher, a: seq<seq<Byte>>, b: seq<seq<Byte>>)
    requires |a| == |b| && NoCollision(h, Strings(h, a) + Strings(h, b))
    ensures Root(h, Mapped(h, a)) == Root(h, Mapped(h, b)) <==> a == b
  {
    EqualLengthBinds(h, Mapped(h, a), Mapped(h, b));
    MappedTells(h, a, b);
  }

  lemma MappedAt<S, T>(f: S -> T, s: seq<S>, i: nat)
    requires i < |s|
    ensures Mapped(f, s)[i] == f(s[i])
  {
  }

  lemma MappedTells<S, T>(f: S -> T, s: seq<S>, t: seq<S>)
    requires forall x, y | x in s && y in t :: f(x) == f(y) ==> x == y
    ensures Mapped(f, s) == Mapped(f, t) <==> s == t
  {
    if Mapped(f, s) == Mapped(f, t) {
      assert |Mapped(f, s)| == |s| && |Mapped(f, t)| == |t|;
      forall i | 0 <= i < |s| ensures s[i] == t[i] {
        assert Mapped(f, s)[i] == Mapped(f, t)[i];
      }
    }
  }

  lemma {:induction false} RowMapped<S, T>(f: S -> T, t: Tree<S>)
    ensures Row(MapTree(f, t)) == Mapped(f, Row(t))
  {
    if t.Fork? {
      RowMapped(f, t.left);
      RowMapped(f, t.right);
    }
  }

  lemma PaddedMapped<S, T>(f: S -> T, s: seq<S>)
    ensures Padded(Mapped(f, s)) == Mapped(f, Padded(s))
  {
    if s != [] {
      TreeMapped(Height(|s|), f, s, 0);
      RowMapped(f, TreeOf(s));
    }
  }

  /** Across lengths a leaf can pass for a node: one leaf that is the hash of two digests has the root of those two leaves. */
  lemma LeafCanPassForNode(h: Hasher, x: seq<Byte>, y: seq<Byte>)
    ensures var one, two := [h(x).bytes + h(y).bytes], [x, y];
      !LeavesApart(h, one, two) && Root(h, Mapped(h, one)) == Root(h, Mapped(h, two)) && Padded(one) != Padded(two)
  {
    var one, two := [h(x).bytes + h(y).bytes], [x, y];
    assert one[0] in one;
    PaddedSize(one, two);
    RootByLevel(h, Mapped(h, two));
    assert Level(h, Mapped(h, two)) == Mapped(h, one);
    TwoLeafTree(h, Mapped(h, two));
  }

  lemma TwoLeafTree(h: Hasher, row: seq<Hash32>)
    requires |row| == 2
    ensures row[0].bytes + row[1].bytes in InnerStrings(h, row)
  {
    assert Height(2) == 1 + Height(1) && Pow2(0) == 1;
    assert TreeAt(0, row, 0) == Leaf(row[0]) && TreeAt(0, row, 1) == Leaf(row[1]);
    assert TreeAt(1, row, 0) == Fork(Leaf(row[0]), Leaf(row[1]));
  }
}
