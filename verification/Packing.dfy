/** Greedy packing of a list into consecutive blocks, for any rule that says when a block may grow. */
module Packing {

  /** May this block take this element as its next? */
  type Rule<!T> = (seq<T>, T) -> bool

  /** Cuts `items` into blocks; `cur` is the block being filled. An empty block takes anything. */
  function Pack<T>(ok: Rule<T>, items: seq<T>, cur: seq<T>): seq<seq<T>>
    decreases |items|
  {
    if items == [] then (if cur == [] then [] else [cur])
    else if cur != [] && !ok(cur, items[0]) then [cur] + Pack(ok, items[1..], [items[0]])
    else Pack(ok, items[1..], cur + [items[0]])
  }

  function Joined<T>(blocks: seq<seq<T>>): seq<T> {
    if blocks == [] then [] else blocks[0] + Joined(blocks[1..])
  }

  /** Every element after the first was acceptable when it was added. */
  ghost predicate Accepted<T>(ok: Rule<T>, block: seq<T>) {
    block != [] && forall i | 1 <= i < |block| :: ok(block[..i], block[i])
  }

  /** `block` could not have taken the first element of `next`. */
  ghost predicate Blocked<T>(ok: Rule<T>, block: seq<T>, next: seq<T>) {
    next != [] && !ok(block, next[0])
  }

  /** A cutting of `all` into accepted blocks. */
  ghost predicate IsCut<T>(ok: Rule<T>, blocks: seq<seq<T>>, all: seq<T>) {
    Joined(blocks) == all && forall k | 0 <= k < |blocks| :: Accepted(ok, blocks[k])
  }

  /** A cutting in which no block could have taken the next block's first element. */
  ghost predicate GreedyCut<T>(ok: Rule<T>, blocks: seq<seq<T>>, all: seq<T>) {
    && IsCut(ok, blocks, all)
    && (forall k, l | 0 <= k && l == k + 1 && l < |blocks| :: Blocked(ok, blocks[k], blocks[l]))
  }

  lemma JoinedCons<T>(block: seq<T>, blocks: seq<seq<T>>)
    ensures Joined([block] + blocks) == block + Joined(blocks)
  {
    assert ([block] + blocks)[1..] == blocks;
  }

  lemma AcceptedSnoc<T>(ok: Rule<T>, block: seq<T>, x: T)
    requires block == [] || (Accepted(ok, block) && ok(block, x))
    ensures Accepted(ok, block + [x])
  {
    var more := block + [x];
    forall i | 1 <= i < |more| ensures ok(more[..i], more[i]) {
      if i < |block| {
        assert more[..i] == block[..i];
      } else {
        assert more[..i] == block;
      }
    }
  }

  lemma AcceptedPrefix<T>(ok: Rule<T>, block: seq<T>, n: nat)
    requires Accepted(ok, block) && 0 < n <= |block|
    ensures Accepted(ok, block[..n])
  {
    forall i | 1 <= i < n ensures ok(block[..n][..i], block[..n][i]) {
      assert block[..n][..i] == block[..i];
    }
  }

  lemma {:induction false} PackCuts<T>(ok: Rule<T>, items: seq<T>, cur: seq<T>)
    requires cur == [] || Accepted(ok, cur)
    ensures GreedyCut(ok, Pack(ok, items, cur), cur + items)
    ensures cur != [] ==> Pack(ok, items, cur) != [] && cur <= Pack(ok, items, cur)[0]
    decreases |items|
  {
    if items == [] {
      assert cur + items == cur;
      if cur != [] {
        assert [cur] + [] == [cur] && cur + [] == cur;
      }
    } else {
      var x, tail := items[0], items[1..];
      assert items == [x] + tail;
      if cur != [] && !ok(cur, x) {
        AcceptedSnoc(ok, [], x);
        assert [] + [x] == [x];
        PackCuts(ok, tail, [x]);
      } else {
        AcceptedSnoc(ok, cur, x);
        PackCuts(ok, tail, cur + [x]);
        assert cur + [x] + tail == cur + items;
      }
    }
  }

  /** Packing yields non-empty accepted blocks that concatenate to the input, each ending only where it must. */
  lemma PackIsGreedy<T>(ok: Rule<T>, items: seq<T>)
    ensures GreedyCut(ok, Pack(ok, items, []), items)
  {
    PackCuts(ok, items, []);
    assert [] + items == items;
  }

  // ---------------------------------------------------------------------------
  // Greedy uses the fewest blocks
  // ---------------------------------------------------------------------------

  /** Dropping leading elements keeps a block of these elements acceptable. */
  ghost predicate DropClosed<T(!new)>(ok: Rule<T>, all: seq<T>) {
    forall b: seq<T> | Accepted(ok, b) && |b| > 1 && (forall x | x in b :: x in all) :: Accepted(ok, b[1..])
  }

  lemma {:induction false} DropMany<T(!new)>(ok: Rule<T>, all: seq<T>, b: seq<T>, n: nat)
    requires DropClosed(ok, all) && Accepted(ok, b) && n < |b| && forall x | x in b :: x in all
    ensures Accepted(ok, b[n..])
  {
    if n > 0 {
      DropMany(ok, all, b[1..], n - 1);
      assert b[1..][n - 1..] == b[n..];
    }
  }

  /** Blocks the rule accepts, over elements of `all`. */
  ghost predicate AllAccepted<T(!new)>(ok: Rule<T>, all: seq<T>, blocks: seq<seq<T>>) {
    && (forall k | 0 <= k < |blocks| :: Accepted(ok, blocks[k]))
    && (forall x | x in Joined(blocks) :: x in all)
  }

  lemma AllAcceptedTail<T(!new)>(ok: Rule<T>, all: seq<T>, blocks: seq<seq<T>>)
    requires AllAccepted(ok, all, blocks) && blocks != []
    ensures Joined(blocks) == blocks[0] + Joined(blocks[1..])
    ensures AllAccepted(ok, all, blocks[1..]) && Accepted(ok, blocks[0]) && forall x | x in blocks[0] :: x in all
  {
    assert blocks == [blocks[0]] + blocks[1..];
    JoinedCons(blocks[0], blocks[1..]);
  }

  /** Past the first of the other blocks, at most one greedy block is gone. */
  lemma {:induction false} PastFirst<T(!new)>(ok: Rule<T>, all: seq<T>, greedy: seq<seq<T>>, rest: seq<T>, others: seq<seq<T>>, skip: nat)
    returns (greedy': seq<seq<T>>, rest': seq<T>, skip': nat)
    requires DropClosed(ok, all) && GreedyCut(ok, greedy, rest) && AllAccepted(ok, all, others)
    requires greedy != [] && others != [] && skip <= |Joined(others)| && rest == Joined(others)[skip..]
    ensures GreedyCut(ok, greedy', rest') && AllAccepted(ok, all, others[1..]) && |greedy| <= |greedy'| + 1
    ensures skip' <= |Joined(others[1..])| && rest' == Joined(others[1..])[skip'..]
  {
    GreedyTail(ok, greedy, rest);
    AllAcceptedTail(ok, all, others);
    var n, o, below := |greedy[0]|, others[0], Joined(others[1..]);
    SkipInTwo(o, below, skip);
    if skip >= |o| {
      greedy', rest', skip' := greedy, rest, skip - |o|;
    } else {
      FirstBlockReaches(ok, all, greedy, rest, o, skip, below);
      SkipInTwo(o[skip..], below, n);
      greedy', rest', skip' := greedy[1..], rest[n..], n - (|o| - skip);
    }
  }

  /** Blocks of a cutting of the tail of a list: greedy needs no more than any cutting of the whole. */
  lemma {:induction false} GreedyStaysAhead<T(!new)>(ok: Rule<T>, all: seq<T>, greedy: seq<seq<T>>, rest: seq<T>, others: seq<seq<T>>, skip: nat)
    requires DropClosed(ok, all) && GreedyCut(ok, greedy, rest) && AllAccepted(ok, all, others)
    requires skip <= |Joined(others)| && rest == Joined(others)[skip..]
    ensures |greedy| <= |others|
    decreases |others|
  {
    if greedy != [] {
      GreedyTail(ok, greedy, rest);
      var greedy', rest', skip' := PastFirst(ok, all, greedy, rest, others, skip);
      GreedyStaysAhead(ok, all, greedy', rest', others[1..], skip');
    }
  }

  lemma SkipInTwo<T>(a: seq<T>, b: seq<T>, skip: nat)
    requires skip <= |a| + |b|
    ensures skip >= |a| ==> (a + b)[skip..] == b[skip - |a|..]
    ensures skip < |a| ==> (a + b)[skip..] == a[skip..] + b
  {
  }

  lemma GreedyTail<T>(ok: Rule<T>, greedy: seq<seq<T>>, rest: seq<T>)
    requires GreedyCut(ok, greedy, rest) && greedy != []
    ensures 0 < |greedy[0]| <= |rest| && GreedyCut(ok, greedy[1..], rest[|greedy[0]|..])
  {
    assert Accepted(ok, greedy[0]);
    assert greedy == [greedy[0]] + greedy[1..];
    JoinedCons(greedy[0], greedy[1..]);
  }

  /** The first greedy block covers at least what is left of the block it starts in. */
  lemma {:induction false} FirstBlockReaches<T(!new)>(ok: Rule<T>, all: seq<T>, greedy: seq<seq<T>>, rest: seq<T>, o: seq<T>, skip: nat, more: seq<T>)
    requires DropClosed(ok, all) && GreedyCut(ok, greedy, rest) && greedy != []
    requires Accepted(ok, o) && skip < |o| && rest == o[skip..] + more
    requires forall x | x in o :: x in all
    ensures |greedy[0]| >= |o| - skip
  {
    var first, left := greedy[0], o[skip..];
    DropMany(ok, all, o, skip);
    GreedyTail(ok, greedy, rest);
    StartsWith(ok, greedy, rest);
    if |first| < |left| {
      SameStart(left, more, |first|);
      assert ok(left[..|first|], left[|first|]);
      SecondBlock(ok, greedy, rest);
    }
  }

  lemma SameStart<T>(a: seq<T>, b: seq<T>, n: nat)
    requires n < |a|
    ensures (a + b)[..n] == a[..n] && (a + b)[n] == a[n]
  {
  }

  lemma StartsWith<T>(ok: Rule<T>, greedy: seq<seq<T>>, rest: seq<T>)
    requires GreedyCut(ok, greedy, rest) && greedy != []
    ensures greedy[0] != [] && greedy[0] <= rest
  {
    assert Accepted(ok, greedy[0]);
    assert greedy == [greedy[0]] + greedy[1..];
    JoinedCons(greedy[0], greedy[1..]);
  }

  lemma SecondBlock<T>(ok: Rule<T>, greedy: seq<seq<T>>, rest: seq<T>)
    requires GreedyCut(ok, greedy, rest) && greedy != [] && |greedy[0]| < |rest|
    ensures !ok(greedy[0], rest[|greedy[0]|])
  {
    assert greedy == [greedy[0]] + greedy[1..];
    JoinedCons(greedy[0], greedy[1..]);
    var second := greedy[1];
    assert Blocked(ok, greedy[0], second);
    assert greedy[1..] == [second] + greedy[2..];
    JoinedCons(second, greedy[2..]);
  }

  /** No cutting into accepted blocks uses fewer blocks than the greedy one. */
  lemma FewestBlocks<T(!new)>(ok: Rule<T>, items: seq<T>, others: seq<seq<T>>)
    requires DropClosed(ok, items) && IsCut(ok, others, items)
    ensures |Pack(ok, items, [])| <= |others|
  {
    PackIsGreedy(ok, items);
    GreedyStaysAhead(ok, items, Pack(ok, items, []), items, others, 0);
  }
}
