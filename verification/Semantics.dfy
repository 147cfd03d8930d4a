/** What running intents in some order does to the accounts.
    An intent reads the accounts it touches and may rewrite its writable ones, no others.
    What it computes is left open: theorems quantify over every such program. */
module Semantics {
  import opened Types
  import opened Sorting

  type State = map<Pubkey, int>

  /** The accounts one node touches, and those among them it may write. */
  datatype Access = Access(touches: set<Pubkey>, writes: set<Pubkey>)

  /** From a node and the accounts it reads to the new contents of its writable accounts. */
  type Program = (NodeId, State) -> State

  /** The final accounts, and what each node read when it ran. */
  datatype Outcome = Outcome(state: State, views: map<NodeId, State>)

  ghost predicate WritesTouched(acc: seq<Access>) {
    forall n | 0 <= n < |acc| :: acc[n].writes <= acc[n].touches
  }

  predicate InRange(order: seq<NodeId>, n: nat) {
    forall i | 0 <= i < |order| :: order[i] < n
  }

  /** Two nodes clash when one writes an account the other touches. */
  predicate Clash(a: Access, b: Access) {
    a.writes * b.touches != {} || b.writes * a.touches != {}
  }

  ghost predicate Precedes(order: seq<NodeId>, u: NodeId, v: NodeId) {
    exists i, j :: 0 <= i < j < |order| && order[i] == u && order[j] == v
  }

  function Restrict(s: State, keys: set<Pubkey>): State {
    map a | a in s && a in keys :: s[a]
  }

  function Exec(p: Program, acc: seq<Access>, n: NodeId, s: State): State
    requires n < |acc|
  {
    (s - acc[n].writes) + Restrict(p(n, Restrict(s, acc[n].touches)), acc[n].writes)
  }

  function Run(p: Program, acc: seq<Access>, order: seq<NodeId>, s: State): Outcome
    requires InRange(order, |acc|)
  {
    if order == [] then Outcome(s, map[])
    else
      var n := order[0];
      var rest := Run(p, acc, order[1..], Exec(p, acc, n, s));
      Outcome(rest.state, rest.views[n := Restrict(s, acc[n].touches)])
  }

  /** A node that does not clash with `a` reads the same before and after `a`. */
  lemma ViewUnchanged(p: Program, acc: seq<Access>, a: NodeId, b: NodeId, s: State)
    requires a < |acc| && b < |acc| && !Clash(acc[a], acc[b])
    ensures Restrict(Exec(p, acc, a, s), acc[b].touches) == Restrict(s, acc[b].touches)
  {
    var wa, tb := acc[a].writes, acc[b].touches;
    assert wa * tb == {};
    assert forall k | k in tb :: k in wa ==> k in wa * tb;
  }

  lemma OverwritesCommute<K, V>(s: map<K, V>, wa: set<K>, ra: map<K, V>, wb: set<K>, rb: map<K, V>)
    requires wa !! wb && ra.Keys <= wa && rb.Keys <= wb
    ensures (((s - wa) + ra) - wb) + rb == (((s - wb) + rb) - wa) + ra
  {
  }

  lemma ExecCommutes(p: Program, acc: seq<Access>, a: NodeId, b: NodeId, s: State)
    requires a < |acc| && b < |acc| && WritesTouched(acc) && !Clash(acc[a], acc[b])
    ensures Exec(p, acc, b, Exec(p, acc, a, s)) == Exec(p, acc, a, Exec(p, acc, b, s))
  {
    ViewUnchanged(p, acc, a, b, s);
    ViewUnchanged(p, acc, b, a, s);
    var wa, wb, tb := acc[a].writes, acc[b].writes, acc[b].touches;
    assert wa !! wb by {
      assert wa * tb == {} && wb <= tb;
      assert forall k | k in wb :: k in wa ==> k in wa * tb;
    }
    var ra, rb := Restrict(p(a, Restrict(s, acc[a].touches)), wa), Restrict(p(b, Restrict(s, tb)), wb);
    OverwritesCommute(s, wa, ra, wb, rb);
  }

  lemma SwapHeads(p: Program, acc: seq<Access>, a: NodeId, b: NodeId, rest: seq<NodeId>, s: State)
    requires a < |acc| && b < |acc|
    requires InRange([a, b] + rest, |acc|) && InRange([b, a] + rest, |acc|)
    requires WritesTouched(acc) && a != b && !Clash(acc[a], acc[b])
    ensures Run(p, acc, [a, b] + rest, s) == Run(p, acc, [b, a] + rest, s)
  {
    assert ([a, b] + rest)[1..] == [b] + rest && ([b] + rest)[1..] == rest;
    assert ([b, a] + rest)[1..] == [a] + rest && ([a] + rest)[1..] == rest;
    ViewUnchanged(p, acc, a, b, s);
    ViewUnchanged(p, acc, b, a, s);
    ExecCommutes(p, acc, a, b, s);
    var r := Run(p, acc, rest, Exec(p, acc, b, Exec(p, acc, a, s)));
    var va, vb := Restrict(s, acc[a].touches), Restrict(s, acc[b].touches);
    assert r.views[b := vb][a := va] == r.views[a := va][b := vb];
  }

  /** What runs after a head may be exchanged for what has the same outcome there. */
  lemma RunAfter(p: Program, acc: seq<Access>, h: NodeId, t: seq<NodeId>, t': seq<NodeId>, s: State)
    requires h < |acc| && InRange(t, |acc|) && InRange(t', |acc|) && InRange([h] + t, |acc|) && InRange([h] + t', |acc|)
    requires Run(p, acc, t, Exec(p, acc, h, s)) == Run(p, acc, t', Exec(p, acc, h, s))
    ensures Run(p, acc, [h] + t, s) == Run(p, acc, [h] + t', s)
  {
    assert ([h] + t)[1..] == t && ([h] + t')[1..] == t';
  }

  lemma WithinRange(q: seq<NodeId>, order: seq<NodeId>, n: nat)
    requires InRange(order, n) && forall x | x in q :: x in order
    ensures InRange(q, n)
  {
    assert forall i | 0 <= i < |q| :: q[i] in order;
  }

  /** A node that clashes with nothing before it can run first instead. */
  lemma {:induction false} BubbleToFront(p: Program, acc: seq<Access>, pre: seq<NodeId>, h: NodeId, post: seq<NodeId>, s: State)
    requires InRange(pre + [h] + post, |acc|) && InRange([h] + pre + post, |acc|)
    requires WritesTouched(acc) && h !in pre && h < |acc|
    requires forall x | x in pre :: x < |acc| && !Clash(acc[x], acc[h])
    ensures Run(p, acc, pre + [h] + post, s) == Run(p, acc, [h] + pre + post, s)
  {
    if pre == [] {
      assert pre + [h] + post == [h] + pre + post;
    } else {
      var x, pre' := pre[0], pre[1..];
      assert pre == [x] + pre' && x in pre && forall y | y in pre' :: y in pre;
      Bubbled(x, pre', h, post, |acc|);
      BubbleToFront(p, acc, pre', h, post, Exec(p, acc, x, s));
      RunAfter(p, acc, x, pre' + [h] + post, [h] + pre' + post, s);
      SwapHeads(p, acc, x, h, pre' + post, s);
    }
  }

  lemma Bubbled(x: NodeId, pre: seq<NodeId>, h: NodeId, post: seq<NodeId>, n: nat)
    requires InRange([x] + pre + [h] + post, n)
    ensures [x] + pre + [h] + post == [x] + (pre + [h] + post)
    ensures [x] + ([h] + pre + post) == [x, h] + (pre + post)
    ensures [h] + ([x] + pre) + post == [h, x] + (pre + post)
    ensures InRange(pre + [h] + post, n) && InRange([h] + pre + post, n)
    ensures InRange([x, h] + (pre + post), n) && InRange([h, x] + (pre + post), n)
  {
    var all := [x] + pre + [h] + post;
    WithinRange(pre + [h] + post, all, n);
    WithinRange([h] + pre + post, all, n);
    WithinRange([x, h] + (pre + post), all, n);
    WithinRange([h, x] + (pre + post), all, n);
  }

  /** Every clashing pair of `q` is in the same order in `p`. */
  ghost predicate KeepsClashes(acc: seq<Access>, p: seq<NodeId>, q: seq<NodeId>)
    requires InRange(q, |acc|)
  {
    forall k, l | 0 <= k < l < |q| && Clash(acc[q[k]], acc[q[l]]) :: Precedes(p, q[k], q[l])
  }

  lemma PrecedesWithout(order: seq<NodeId>, k: nat, u: NodeId, v: NodeId)
    requires k < |order| && Precedes(order, u, v) && u != order[k] && v != order[k]
    ensures Precedes(order[..k] + order[k + 1..], u, v)
  {
    var i, j :| 0 <= i < j < |order| && order[i] == u && order[j] == v;
    var t := order[..k] + order[k + 1..];
    var i', j' := if i < k then i else i - 1, if j < k then j else j - 1;
    assert t[i'] == u && t[j'] == v;
  }

  lemma RemoveAt(order: seq<NodeId>, k: nat)
    requires k < |order| && NoDup(order)
    ensures var t := order[..k] + order[k + 1..];
      && NoDup(t) && order[k] !in t
      && multiset(t) == multiset(order) - multiset{order[k]}
  {
    var t := order[..k] + order[k + 1..];
    assert order == order[..k] + [order[k]] + order[k + 1..];
    assert forall i | 0 <= i < |t| :: t[i] == order[if i < k then i else i + 1];
  }

  /** Two orders of the same nodes that agree on every clashing pair have the same outcome:
      the same final accounts, and every node reads the same. */
  lemma {:induction false} SameClashOrder(pr: Program, acc: seq<Access>, p: seq<NodeId>, q: seq<NodeId>, s: State)
    requires InRange(p, |acc|) && InRange(q, |acc|) && WritesTouched(acc)
    requires NoDup(p) && multiset(p) == multiset(q)
    requires KeepsClashes(acc, p, q)
    ensures Run(pr, acc, p, s) == Run(pr, acc, q, s)
    decreases |q|
  {
    if q == [] {
      SameElements(p, q);
    } else {
      var k := FindHead(acc, p, q);
      var h, pre, post := q[0], p[..k], p[k + 1..];
      BubbleToFront(pr, acc, pre, h, post, s);
      SameClashOrder(pr, acc, pre + post, q[1..], Exec(pr, acc, h, s));
      assert [h] + (pre + post) == [h] + pre + post;
    }
  }

  /** The first node of `q` sits in `p` after nodes it does not clash with; without it the two still agree. */
  lemma FindHead(acc: seq<Access>, p: seq<NodeId>, q: seq<NodeId>) returns (k: nat)
    requires InRange(p, |acc|) && InRange(q, |acc|) && q != []
    requires NoDup(p) && multiset(p) == multiset(q)
    requires KeepsClashes(acc, p, q)
    ensures k < |p| && p[k] == q[0] && p == p[..k] + [q[0]] + p[k + 1..] && q == [q[0]] + q[1..]
    ensures q[0] !in p[..k] && forall x | x in p[..k] :: x < |acc| && !Clash(acc[x], acc[q[0]])
    ensures var t := p[..k] + p[k + 1..];
      NoDup(t) && multiset(t) == multiset(q[1..]) && KeepsClashes(acc, t, q[1..])
  {
    SameElements(p, q);
    assert q[0] in p;
    k :| 0 <= k < |p| && p[k] == q[0];
    NoDupPermutation(p, q);
    forall x | x in p[..k] ensures x < |acc| && !Clash(acc[x], acc[q[0]]) {
      NoClashBefore(acc, p, q, k, x);
    }
    assert p == p[..k] + [q[0]] + p[k + 1..] && q == [q[0]] + q[1..];
    HeadRemoved(p, q, k);
    KeepsClashesInTail(acc, p, q, k);
  }

  lemma HeadRemoved(p: seq<NodeId>, q: seq<NodeId>, k: nat)
    requires NoDup(p) && multiset(p) == multiset(q) && k < |p| && q != [] && p[k] == q[0]
    ensures var t := p[..k] + p[k + 1..]; NoDup(t) && multiset(t) == multiset(q[1..])
  {
    RemoveAt(p, k);
    TailElements(q);
  }

  lemma TailElements(q: seq<NodeId>)
    requires q != []
    ensures multiset(q[1..]) == multiset(q) - multiset{q[0]}
  {
    assert q == [q[0]] + q[1..];
  }

  lemma KeepsClashesInTail(acc: seq<Access>, p: seq<NodeId>, q: seq<NodeId>, k: nat)
    requires InRange(q, |acc|) && q != [] && NoDup(q)
    requires KeepsClashes(acc, p, q) && k < |p| && p[k] == q[0]
    ensures KeepsClashes(acc, p[..k] + p[k + 1..], q[1..])
  {
    var t := q[1..];
    forall i, j | 0 <= i < j < |t| && Clash(acc[t[i]], acc[t[j]])
      ensures Precedes(p[..k] + p[k + 1..], t[i], t[j])
    {
      assert t[i] == q[i + 1] && t[j] == q[j + 1];
      PrecedesWithout(p, k, t[i], t[j]);
    }
  }

  lemma NoClashBefore(acc: seq<Access>, p: seq<NodeId>, q: seq<NodeId>, k: nat, x: NodeId)
    requires InRange(p, |acc|) && InRange(q, |acc|)
    requires NoDup(p) && NoDup(q) && multiset(p) == multiset(q) && KeepsClashes(acc, p, q)
    requires q != [] && k < |p| && p[k] == q[0] && x in p[..k]
    ensures x < |acc| && !Clash(acc[x], acc[q[0]])
  {
    SameElements(p, q);
    assert x in p;
    var m :| 0 <= m < k && p[m] == x;
    var l :| 0 <= l < |q| && q[l] == x;
    assert p[m] != p[k];
    assert !Precedes(p, q[0], x) by {
      assert forall i, j | 0 <= i < j < |p| && p[i] == q[0] :: i == k && p[j] != p[m];
    }
  }

  // ---------------------------------------------------------------------------
  // A program that tells orders apart: every node writes its own number.
  // ---------------------------------------------------------------------------

  function Tagging(acc: seq<Access>): Program {
    (n: NodeId, view: State) =>
      if n < |acc| then map a | a in acc[n].writes :: n + 1 else map[]
  }

  lemma TagExec(acc: seq<Access>, n: NodeId, s: State, a: Pubkey)
    requires n < |acc|
    ensures var t := Exec(Tagging(acc), acc, n, s);
      if a in acc[n].writes then a in t && t[a] == n + 1
      else (a in t <==> a in s) && (a in s ==> t[a] == s[a])
  {
  }

  /** What `x` reads at `a` is the starting value, or the tag of a writer that ran before. */
  lemma {:induction false} ReadsEarlierWriter(acc: seq<Access>, order: seq<NodeId>, s: State, x: NodeId, a: Pubkey) returns (w: NodeId)
    requires InRange(order, |acc|) && NoDup(order) && x in order && a in acc[x].touches
    ensures var views := Run(Tagging(acc), acc, order, s).views;
      && x in views
      && var view := views[x];
      || ((a in view <==> a in s) && (a in s ==> view[a] == s[a]))
      || (w < |acc| && Precedes(order, w, x) && a in acc[w].writes && a in view && view[a] == w + 1)
  {
    var h, tail := order[0], order[1..];
    w := h;
    if h != x {
      assert x in tail;
      var s1 := Exec(Tagging(acc), acc, h, s);
      TagExec(acc, h, s, a);
      w := ReadsEarlierWriter(acc, tail, s1, x, a);
      var view := Run(Tagging(acc), acc, tail, s1).views[x];
      if w < |acc| && Precedes(tail, w, x) && a in acc[w].writes && a in view && view[a] == w + 1 {
        PrecedesInTail(order, w, x);
      } else {
        w := h;
      }
    }
  }

  lemma {:induction false} ReadsFirstWriter(acc: seq<Access>, order: seq<NodeId>, s: State, x: NodeId, a: Pubkey) returns (w: NodeId)
    requires InRange(order, |acc|) && NoDup(order) && order != [] && x in order[1..] && x < |acc|
    requires a in acc[order[0]].writes && a in acc[x].touches
    ensures x in Run(Tagging(acc), acc, order, s).views
    ensures w < |acc| && a in acc[w].writes && (w == order[0] || Precedes(order, order[0], w))
    ensures var view := Run(Tagging(acc), acc, order, s).views[x]; a in view && view[a] == w + 1
  {
    var v, tail := order[0], order[1..];
    var s1 := Exec(Tagging(acc), acc, v, s);
    TagExec(acc, v, s, a);
    w := ReadsEarlierWriter(acc, tail, s1, x, a);
    var view := Run(Tagging(acc), acc, tail, s1).views[x];
    if w < |acc| && Precedes(tail, w, x) && a in acc[w].writes && a in view && view[a] == w + 1 {
      HeadPrecedes(order, w, x);
    } else {
      w := v;
    }
  }

  lemma HeadPrecedes(order: seq<NodeId>, u: NodeId, v: NodeId)
    requires order != [] && Precedes(order[1..], u, v)
    ensures Precedes(order, order[0], u)
  {
    var i, j :| 0 <= i < j < |order[1..]| && order[1..][i] == u && order[1..][j] == v;
    assert order[i + 1] == u;
  }

  /** If writer `v` runs before `x`, then `x` reads the tag of `v` or of a later writer. */
  lemma {:induction false} ReadsLatestWriter(acc: seq<Access>, order: seq<NodeId>, s: State, v: NodeId, x: NodeId, a: Pubkey) returns (w: NodeId)
    requires InRange(order, |acc|) && NoDup(order) && Precedes(order, v, x)
    requires v < |acc| && x < |acc| && a in acc[v].writes && a in acc[x].touches
    ensures x in Run(Tagging(acc), acc, order, s).views
    ensures w < |acc| && a in acc[w].writes && (w == v || Precedes(order, v, w))
    ensures var view := Run(Tagging(acc), acc, order, s).views[x]; a in view && view[a] == w + 1
  {
    var h, tail := order[0], order[1..];
    var i, j :| 0 <= i < j < |order| && order[i] == v && order[j] == x;
    assert tail[j - 1] == x && h != x;
    var s1 := Exec(Tagging(acc), acc, h, s);
    TagExec(acc, h, s, a);
    if h == v {
      w := ReadsFirstWriter(acc, order, s, x, a);
    } else {
      assert tail[i - 1] == v;
      w := ReadsLatestWriter(acc, tail, s1, v, x, a);
      if w != v { PrecedesInTail(order, v, w); }
    }
  }

  lemma PrecedesInTail(order: seq<NodeId>, u: NodeId, v: NodeId)
    requires order != [] && Precedes(order[1..], u, v)
    ensures Precedes(order, u, v)
  {
    var i, j :| 0 <= i < j < |order[1..]| && order[1..][i] == u && order[1..][j] == v;
    assert order[i + 1] == u && order[j + 1] == v;
  }

}
