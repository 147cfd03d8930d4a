/** What the order in which a hash map yields the keys can change about the keys that move, and what it cannot. */
module AltOrders {
  import opened Types
  import opened Sorting
  import opened KeyOrder
  import opened IntentCodec
  import opened AltCache
  import Chunking

  // ---------------------------------------------------------------------------
  // Read off the keys alone, in no order
  // ---------------------------------------------------------------------------

  /** The keys that may move: used, never signing, not the payer's. */
  function Movable(payer: Pubkey, metas: seq<AccountMeta>): set<Pubkey> {
    set a | a in metas && a.pubkey != payer && !UsesSigning(metas, a.pubkey) :: a.pubkey
  }

  function Signing(payer: Pubkey, metas: seq<AccountMeta>): set<Pubkey> {
    set a | a in metas && a.pubkey != payer && UsesSigning(metas, a.pubkey) :: a.pubkey
  }

  function Cost(policy: AltPolicy, metas: seq<AccountMeta>, k: Pubkey): int {
    KeyCost(UsageOf(metas, k), policy.perAltIndexByte)
  }

  function DearerFirst(policy: AltPolicy, metas: seq<AccountMeta>): (Pubkey, Pubkey) -> bool {
    (a: Pubkey, b: Pubkey) => Cost(policy, metas, a) >= Cost(policy, metas, b)
  }

  /** How many movable keys cost more than `k`. */
  function Dearer(policy: AltPolicy, payer: Pubkey, metas: seq<AccountMeta>, k: Pubkey): nat {
    |set j | j in Movable(payer, metas) && Cost(policy, metas, j) > Cost(policy, metas, k)|
  }

  /** How many movable keys cost at least as much as `k`. */
  function AsDear(policy: AltPolicy, payer: Pubkey, metas: seq<AccountMeta>, k: Pubkey): nat {
    |set j | j in Movable(payer, metas) && Cost(policy, metas, j) >= Cost(policy, metas, k)|
  }

  /** The static slots that are left for movable keys. */
  function Slots(policy: AltPolicy, payer: Pubkey, metas: seq<AccountMeta>): int {
    policy.reserveMessageKeys - |Signing(payer, metas)|
  }

  predicate TablesUsed(policy: AltPolicy, payer: Pubkey, metas: seq<AccountMeta>) {
    policy.enabled && 0 < Slots(policy, payer, metas) < |Movable(payer, metas)|
  }

  /** How many movable keys are kept or moved. */
  function Served(policy: AltPolicy, payer: Pubkey, metas: seq<AccountMeta>): int {
    var free, n := Slots(policy, payer, metas), |Movable(payer, metas)|;
    if n - free > policy.maxAltKeys then free + policy.maxAltKeys else n
  }

  /** Tables are used, some key may be put in them, and `k` can stand past the free slots and within the cap. */
  predicate MayMove(policy: AltPolicy, payer: Pubkey, metas: seq<AccountMeta>, k: Pubkey) {
    && TablesUsed(policy, payer, metas) && k in Movable(payer, metas) && policy.maxAltKeys > 0
    && Dearer(policy, payer, metas, k) < Served(policy, payer, metas)
    && AsDear(policy, payer, metas, k) > Slots(policy, payer, metas)
  }

  /** `k` cannot stand elsewhere. */
  predicate MustMove(policy: AltPolicy, payer: Pubkey, metas: seq<AccountMeta>, k: Pubkey) {
    && TablesUsed(policy, payer, metas) && k in Movable(payer, metas)
    && Dearer(policy, payer, metas, k) >= Slots(policy, payer, metas)
    && AsDear(policy, payer, metas, k) <= Served(policy, payer, metas)
  }

  // ---------------------------------------------------------------------------
  // What one order makes of them
  // ---------------------------------------------------------------------------

  /** The keys that move when the hash map yields the keys in this order. */
  function MovedKeys(policy: AltPolicy, metas: seq<AccountMeta>, order: seq<Pubkey>): seq<Pubkey> {
    var entries := RecordsIn(order, metas);
    if UsesTables(policy, entries) then Addresses(Moved(policy, entries)) else []
  }

  function RankedKeys(policy: AltPolicy, metas: seq<AccountMeta>, order: seq<Pubkey>): seq<Pubkey> {
    Addresses(Ranked(policy, RecordsIn(order, metas)))
  }

  lemma MovableExactly(payer: Pubkey, metas: seq<AccountMeta>, k: Pubkey)
    ensures k in Movable(payer, metas) <==> k != payer && Uses(metas, k) && !UsesSigning(metas, k)
    ensures k in Signing(payer, metas) <==> k != payer && Uses(metas, k) && UsesSigning(metas, k)
  {
  }

  lemma DearerFirstIsOrder(policy: AltPolicy, metas: seq<AccountMeta>)
    ensures TotalPreorder(DearerFirst(policy, metas))
  {
  }

  lemma CountsAreRanks(policy: AltPolicy, payer: Pubkey, metas: seq<AccountMeta>, k: Pubkey)
    ensures |Sooner(DearerFirst(policy, metas), Movable(payer, metas), k)| == Dearer(policy, payer, metas, k)
    ensures |NoLater(DearerFirst(policy, metas), Movable(payer, metas), k)| == AsDear(policy, payer, metas, k)
  {
    var all := Movable(payer, metas);
    assert Sooner(DearerFirst(policy, metas), all, k) == set j | j in all && Cost(policy, metas, j) > Cost(policy, metas, k);
    assert NoLater(DearerFirst(policy, metas), all, k) == set j | j in all && Cost(policy, metas, j) >= Cost(policy, metas, k);
  }

  lemma RecordIn(order: seq<Pubkey>, metas: seq<AccountMeta>, u: KeyUsage)
    ensures u in RecordsIn(order, metas) <==> u.pubkey in order && u == UsageOf(metas, u.pubkey)
  {
    if u in RecordsIn(order, metas) {
      var i :| 0 <= i < |order| && RecordsIn(order, metas)[i] == u;
      assert order[i] in order;
    } else if u.pubkey in order {
      var i :| 0 <= i < |order| && order[i] == u.pubkey;
      assert RecordsIn(order, metas)[i] in RecordsIn(order, metas);
    }
  }

  lemma RankedRecords(policy: AltPolicy, payer: Pubkey, metas: seq<AccountMeta>, order: seq<Pubkey>)
    requires Enumerates(order, payer, metas)
    ensures var ranked := Ranked(policy, RecordsIn(order, metas));
      NoDup(ranked) && forall u :: u in ranked <==> u == UsageOf(metas, u.pubkey) && u.pubkey in Movable(payer, metas)
  {
    var entries := RecordsIn(order, metas);
    var ranked := Ranked(policy, entries);
    RecordsOnce(order, metas);
    NoDupCount(entries);
    forall u ensures multiset(ranked)[u] <= 1 {
      NonSignersExactly(entries, u);
    }
    NoDupCount(ranked);
    forall u ensures u in ranked <==> u == UsageOf(metas, u.pubkey) && u.pubkey in Movable(payer, metas) {
      RankedElements(policy, entries, u);
      RecordIn(order, metas, u);
      MovableExactly(payer, metas, u.pubkey);
    }
  }

  /** In every order the ranking lists the movable keys, dearest first. */
  lemma KeysAreRanked(policy: AltPolicy, payer: Pubkey, metas: seq<AccountMeta>, order: seq<Pubkey>)
    requires Enumerates(order, payer, metas)
    ensures Ranks(DearerFirst(policy, metas), Movable(payer, metas), RankedKeys(policy, metas, order))
    ensures |RankedKeys(policy, metas, order)| == |Movable(payer, metas)|
  {
    var ranked, r := Ranked(policy, RecordsIn(order, metas)), RankedKeys(policy, metas, order);
    RankedRecords(policy, payer, metas, order);
    forall i | 0 <= i < |r| ensures ranked[i] == UsageOf(metas, r[i]) && r[i] in Movable(payer, metas) {
      assert ranked[i] in ranked;
    }
    forall i, j | 0 <= i < j < |r| ensures r[i] != r[j] && DearerFirst(policy, metas)(r[i], r[j]) {
      assert ranked[i] != ranked[j];
      RankedDescends(policy, RecordsIn(order, metas), i, j);
    }
    forall k | k in Movable(payer, metas) ensures k in r {
      assert UsageOf(metas, k) in ranked;
      var i :| 0 <= i < |ranked| && ranked[i] == UsageOf(metas, k);
      assert r[i] == k;
    }
    NoDupSize(r, Movable(payer, metas));
  }

  /** Whether tables are used, and how far, is the same in every order. */
  lemma SlotsInAnyOrder(policy: AltPolicy, payer: Pubkey, metas: seq<AccountMeta>, order: seq<Pubkey>)
    requires Enumerates(order, payer, metas)
    ensures FreeSlots(policy, RecordsIn(order, metas)) == Slots(policy, payer, metas)
    ensures |NonSigners(RecordsIn(order, metas))| == |Movable(payer, metas)|
  {
    KeysAreRanked(policy, payer, metas, order);
    var m, s := Movable(payer, metas), Signing(payer, metas);
    forall k ensures k in order <==> k in m + s {
      MovableExactly(payer, metas, k);
    }
    NoDupSize(order, m + s);
    assert m !! s;
  }

  /** In every order exactly the stretch of the ranking past the free slots and within the cap moves. */
  lemma StretchMoves(policy: AltPolicy, payer: Pubkey, metas: seq<AccountMeta>, order: seq<Pubkey>, k: Pubkey)
    requires Enumerates(order, payer, metas)
    ensures !TablesUsed(policy, payer, metas) ==> MovedKeys(policy, metas, order) == []
    ensures TablesUsed(policy, payer, metas) ==>
      (k in MovedKeys(policy, metas, order) <==>
       exists i :: Slots(policy, payer, metas) <= i < Served(policy, payer, metas) && i < |RankedKeys(policy, metas, order)| && RankedKeys(policy, metas, order)[i] == k)
  {
    SlotsInAnyOrder(policy, payer, metas, order);
    var entries := RecordsIn(order, metas);
    if UsesTables(policy, entries) {
      var moved, ranked := Moved(policy, entries), Ranked(policy, entries);
      if k in Addresses(moved) {
        var j :| 0 <= j < |moved| && Addresses(moved)[j] == k;
        var i := MovedRank(policy, entries, moved[j]);
        assert RankedKeys(policy, metas, order)[i] == k;
      }
      forall i | Slots(policy, payer, metas) <= i < Served(policy, payer, metas) && ranked[i].pubkey == k ensures k in Addresses(moved) {
        RankMoves(policy, entries, i);
      }
    }
  }

  lemma RankMoves(policy: AltPolicy, entries: seq<KeyUsage>, i: nat)
    requires UsesTables(policy, entries) && FreeSlots(policy, entries) <= i < Cut(policy, entries)
    ensures Ranked(policy, entries)[i].pubkey in Addresses(Moved(policy, entries))
  {
    var moved, u := Moved(policy, entries), Ranked(policy, entries)[i];
    SliceHas(Ranked(policy, entries), FreeSlots(policy, entries), i, Cut(policy, entries));
    MovedElements(policy, entries);
    var j :| 0 <= j < |moved| && moved[j] == u;
    assert Addresses(moved)[j] == u.pubkey;
  }

  // ---------------------------------------------------------------------------
  // Every ranking comes of some order
  // ---------------------------------------------------------------------------

  lemma {:induction false} NonSignersJoin(a: seq<KeyUsage>, b: seq<KeyUsage>)
    ensures NonSigners(a + b) == NonSigners(a) + NonSigners(b)
  {
    if b == [] {
      assert a + b == a && NonSigners(a) + [] == NonSigners(a);
    } else {
      NonSignersJoin(a, b[..|b| - 1]);
      assert (a + b)[..|a + b| - 1] == a + b[..|b| - 1];
    }
  }

  lemma {:induction false} NoneSign(s: seq<KeyUsage>)
    requires forall i | 0 <= i < |s| :: !s[i].signer
    ensures NonSigners(s) == s
  {
    if s != [] {
      NoneSign(s[..|s| - 1]);
    }
  }

  lemma {:induction false} AllSign(s: seq<KeyUsage>)
    requires forall i | 0 <= i < |s| :: s[i].signer
    ensures NonSigners(s) == []
  {
    if s != [] {
      AllSign(s[..|s| - 1]);
    }
  }

  lemma SortedRecords(policy: AltPolicy, metas: seq<AccountMeta>, r: seq<Pubkey>)
    requires SortedBy(DearerFirst(policy, metas), r)
    ensures SortBy(ByCost(policy.perAltIndexByte), RecordsIn(r, metas)) == RecordsIn(r, metas)
  {
    var leq, records := ByCost(policy.perAltIndexByte), RecordsIn(r, metas);
    forall i, j | 0 <= i < j < |records| ensures leq(records[i], records[j]) {
      assert DearerFirst(policy, metas)(r[i], r[j]);
    }
    SortByKeepsSorted(leq, records);
  }

  /** Signers first and then the movable keys as ranked. */
  lemma OrderOfRanking(policy: AltPolicy, payer: Pubkey, metas: seq<AccountMeta>, r: seq<Pubkey>) returns (order: seq<Pubkey>)
    requires Ranks(DearerFirst(policy, metas), Movable(payer, metas), r)
    ensures Enumerates(order, payer, metas) && RankedKeys(policy, metas, order) == r
  {
    var signing := Listed(Signing(payer, metas));
    order := signing + r;
    ListsAllUsed(payer, metas, signing, r);
    RecordsSplit(payer, metas, signing, r);
    SortedRecords(policy, metas, r);
    assert Addresses(RecordsIn(r, metas)) == r;
  }

  lemma ListsAllUsed(payer: Pubkey, metas: seq<AccountMeta>, signing: seq<Pubkey>, r: seq<Pubkey>)
    requires NoDup(signing) && forall k :: k in signing <==> k in Signing(payer, metas)
    requires NoDup(r) && forall k :: k in r <==> k in Movable(payer, metas)
    ensures Enumerates(signing + r, payer, metas)
    ensures forall i | 0 <= i < |signing| :: signing[i] in Signing(payer, metas)
    ensures forall i | 0 <= i < |r| :: r[i] in Movable(payer, metas)
  {
    forall k ensures k in signing || k in r <==> k != payer && Uses(metas, k) {
      MovableExactly(payer, metas, k);
    }
    JoinNoDup(signing, r);
  }

  lemma RecordsSplit(payer: Pubkey, metas: seq<AccountMeta>, signing: seq<Pubkey>, r: seq<Pubkey>)
    requires forall i | 0 <= i < |signing| :: signing[i] in Signing(payer, metas)
    requires forall i | 0 <= i < |r| :: r[i] in Movable(payer, metas)
    ensures NonSigners(RecordsIn(signing + r, metas)) == RecordsIn(r, metas)
  {
    var a, b := RecordsIn(signing, metas), RecordsIn(r, metas);
    forall i | 0 <= i < |a| ensures a[i].signer {
      MovableExactly(payer, metas, signing[i]);
    }
    forall i | 0 <= i < |b| ensures !b[i].signer {
      MovableExactly(payer, metas, r[i]);
    }
    AllSign(a);
    NoneSign(b);
    assert RecordsIn(signing + r, metas) == a + b;
    NonSignersJoin(a, b);
  }

  lemma OrderExists(policy: AltPolicy, payer: Pubkey, metas: seq<AccountMeta>) returns (order: seq<Pubkey>)
    ensures Enumerates(order, payer, metas)
  {
    DearerFirstIsOrder(policy, metas);
    var r := RankingExists(DearerFirst(policy, metas), Movable(payer, metas));
    order := OrderOfRanking(policy, payer, metas, r);
  }

  /** Some order puts a movable key where its cost lets it stand. */
  lemma StandsThere(policy: AltPolicy, payer: Pubkey, metas: seq<AccountMeta>, k: Pubkey, p: nat) returns (order: seq<Pubkey>)
    requires k in Movable(payer, metas) && p < |Movable(payer, metas)|
    requires Dearer(policy, payer, metas, k) <= p < AsDear(policy, payer, metas, k)
    ensures Enumerates(order, payer, metas) && |RankedKeys(policy, metas, order)| > p && RankedKeys(policy, metas, order)[p] == k
  {
    var leq, all := DearerFirst(policy, metas), Movable(payer, metas);
    DearerFirstIsOrder(policy, metas);
    CountsAreRanks(policy, payer, metas, k);
    var r := RankingExists(leq, all);
    var t := RankReached(leq, all, r, k, p);
    order := OrderOfRanking(policy, payer, metas, t);
  }

  // ---------------------------------------------------------------------------
  // What moves, over all orders
  // ---------------------------------------------------------------------------

  /** Where a key stands in the ranking of any order. */
  lemma StandingBounds(policy: AltPolicy, payer: Pubkey, metas: seq<AccountMeta>, order: seq<Pubkey>, i: nat)
    requires Enumerates(order, payer, metas) && i < |RankedKeys(policy, metas, order)|
    ensures var k := RankedKeys(policy, metas, order)[i];
      k in Movable(payer, metas) && Dearer(policy, payer, metas, k) <= i < AsDear(policy, payer, metas, k)
  {
    DearerFirstIsOrder(policy, metas);
    KeysAreRanked(policy, payer, metas, order);
    RankBounds(DearerFirst(policy, metas), Movable(payer, metas), RankedKeys(policy, metas, order), i);
    CountsAreRanks(policy, payer, metas, RankedKeys(policy, metas, order)[i]);
  }

  lemma MovedMayMove(policy: AltPolicy, payer: Pubkey, metas: seq<AccountMeta>, order: seq<Pubkey>, k: Pubkey)
    requires Enumerates(order, payer, metas)
    ensures k in MovedKeys(policy, metas, order) ==> MayMove(policy, payer, metas, k)
    ensures MustMove(policy, payer, metas, k) ==> k in MovedKeys(policy, metas, order)
  {
    StretchMoves(policy, payer, metas, order, k);
    KeysAreRanked(policy, payer, metas, order);
    var r := RankedKeys(policy, metas, order);
    if k in MovedKeys(policy, metas, order) {
      var i :| Slots(policy, payer, metas) <= i < Served(policy, payer, metas) && i < |r| && r[i] == k;
      StandingBounds(policy, payer, metas, order, i);
    }
    if MustMove(policy, payer, metas, k) {
      var i :| 0 <= i < |r| && r[i] == k;
      StandingBounds(policy, payer, metas, order, i);
    }
  }

  function Max(a: int, b: int): int {
    if a >= b then a else b
  }

  /** At least one movable key is as dear as `k`, and none of those that are dearer is missing among them. */
  lemma CountsInOrder(policy: AltPolicy, payer: Pubkey, metas: seq<AccountMeta>, k: Pubkey)
    requires k in Movable(payer, metas)
    ensures Dearer(policy, payer, metas, k) < AsDear(policy, payer, metas, k) <= |Movable(payer, metas)|
  {
    var order := OrderExists(policy, payer, metas);
    KeysAreRanked(policy, payer, metas, order);
    var r := RankedKeys(policy, metas, order);
    var i :| 0 <= i < |r| && r[i] == k;
    StandingBounds(policy, payer, metas, order, i);
    SubsetSize((set j | j in Movable(payer, metas) && Cost(policy, metas, j) >= Cost(policy, metas, k)), Movable(payer, metas));
  }

  lemma OrderThatMoves(policy: AltPolicy, payer: Pubkey, metas: seq<AccountMeta>, k: Pubkey) returns (order: seq<Pubkey>)
    requires MayMove(policy, payer, metas, k)
    ensures Enumerates(order, payer, metas) && k in MovedKeys(policy, metas, order)
  {
    CountsInOrder(policy, payer, metas, k);
    var p := Max(Dearer(policy, payer, metas, k), Slots(policy, payer, metas));
    order := StandsThere(policy, payer, metas, k, p);
    StretchMoves(policy, payer, metas, order, k);
  }

  lemma OrderThatLeaves(policy: AltPolicy, payer: Pubkey, metas: seq<AccountMeta>, k: Pubkey) returns (order: seq<Pubkey>)
    requires !MustMove(policy, payer, metas, k)
    ensures Enumerates(order, payer, metas) && k !in MovedKeys(policy, metas, order)
  {
    if !TablesUsed(policy, payer, metas) || k !in Movable(payer, metas) {
      order := OrderExists(policy, payer, metas);
      MovedMayMove(policy, payer, metas, order, k);
      StretchMoves(policy, payer, metas, order, k);
    } else {
      CountsInOrder(policy, payer, metas, k);
      var p := if Dearer(policy, payer, metas, k) < Slots(policy, payer, metas) then Dearer(policy, payer, metas, k)
               else AsDear(policy, payer, metas, k) - 1;
      order := StandsThere(policy, payer, metas, k, p);
      NotInStretch(policy, payer, metas, order, k, p);
    }
  }

  lemma NotInStretch(policy: AltPolicy, payer: Pubkey, metas: seq<AccountMeta>, order: seq<Pubkey>, k: Pubkey, p: nat)
    requires Enumerates(order, payer, metas) && p < |RankedKeys(policy, metas, order)| && RankedKeys(policy, metas, order)[p] == k
    requires TablesUsed(policy, payer, metas) && !(Slots(policy, payer, metas) <= p < Served(policy, payer, metas))
    ensures k !in MovedKeys(policy, metas, order)
  {
    KeysAreRanked(policy, payer, metas, order);
    StretchMoves(policy, payer, metas, order, k);
    var r := RankedKeys(policy, metas, order);
    forall i | 0 <= i < |r| && r[i] == k ensures i == p {
      assert !(i < p) && !(p < i);
    }
  }

  /** Whether a key moves, over all orders in which the hash map may yield the keys: in some order exactly when it may,
      in every order exactly when it must. */
  lemma MovedExactly(policy: AltPolicy, payer: Pubkey, metas: seq<AccountMeta>, k: Pubkey)
    ensures (exists order :: Enumerates(order, payer, metas) && k in MovedKeys(policy, metas, order)) <==> MayMove(policy, payer, metas, k)
    ensures (forall order | Enumerates(order, payer, metas) :: k in MovedKeys(policy, metas, order)) <==> MustMove(policy, payer, metas, k)
  {
    forall order | Enumerates(order, payer, metas)
      ensures k in MovedKeys(policy, metas, order) ==> MayMove(policy, payer, metas, k)
      ensures MustMove(policy, payer, metas, k) ==> k in MovedKeys(policy, metas, order)
    {
      MovedMayMove(policy, payer, metas, order, k);
    }
    if MayMove(policy, payer, metas, k) {
      var order := OrderThatMoves(policy, payer, metas, k);
    }
    if !MustMove(policy, payer, metas, k) {
      var order := OrderThatLeaves(policy, payer, metas, k);
    }
  }

  /** In every order all programs stay static, as the source's comment has it. */
  ghost predicate ProgramsStay(policy: AltPolicy, payer: Pubkey, intents: seq<UserIntent>) {
    forall order, k | Enumerates(order, payer, AllMetas(intents)) && IsProgram(intents, k) :: k !in MovedKeys(policy, AllMetas(intents), order)
  }

  /** Programs stay static exactly when every program that is passed as an account, unsigned and not the payer,
      has too many dearer keys for the cap, or fits the free slots with all keys as dear, or the cap is zero. */
  lemma MovedProgramsExactly(policy: AltPolicy, payer: Pubkey, intents: seq<UserIntent>)
    requires TablesUsed(policy, payer, AllMetas(intents))
    ensures ProgramsStay(policy, payer, intents) <==>
      forall k | IsProgram(intents, k) && k in Movable(payer, AllMetas(intents)) ::
        || Dearer(policy, payer, AllMetas(intents), k) >= Served(policy, payer, AllMetas(intents))
        || AsDear(policy, payer, AllMetas(intents), k) <= Slots(policy, payer, AllMetas(intents))
        || policy.maxAltKeys == 0
  {
    if forall k | IsProgram(intents, k) :: !MayMove(policy, payer, AllMetas(intents), k) {
      NoProgramMoves(policy, payer, intents);
    } else {
      var k :| IsProgram(intents, k) && MayMove(policy, payer, AllMetas(intents), k);
      var order := OrderThatMoves(policy, payer, AllMetas(intents), k);
    }
  }

  lemma NoProgramMoves(policy: AltPolicy, payer: Pubkey, intents: seq<UserIntent>)
    requires forall k | IsProgram(intents, k) :: !MayMove(policy, payer, AllMetas(intents), k)
    ensures ProgramsStay(policy, payer, intents)
  {
    forall order, k | Enumerates(order, payer, AllMetas(intents)) && IsProgram(intents, k) ensures k !in MovedKeys(policy, AllMetas(intents), order) {
      MovedMayMove(policy, payer, AllMetas(intents), order, k);
    }
  }

  lemma SameKeysSameList(policy: AltPolicy, payer: Pubkey, metas: seq<AccountMeta>, a: seq<Pubkey>, b: seq<Pubkey>)
    requires Enumerates(a, payer, metas) && Enumerates(b, payer, metas)
    requires forall k :: k in MovedKeys(policy, metas, a) <==> k in MovedKeys(policy, metas, b)
    ensures MovedKeys(policy, metas, a) == MovedKeys(policy, metas, b)
  {
    SlotsInAnyOrder(policy, payer, metas, a);
    SlotsInAnyOrder(policy, payer, metas, b);
    if TablesUsed(policy, payer, metas) {
      MovedKeysAreSafe(policy, payer, metas, a);
      MovedKeysAreSafe(policy, payer, metas, b);
      SortedSame(MovedKeys(policy, metas, a), MovedKeys(policy, metas, b));
    }
  }

  lemma SortedSame(a: seq<Pubkey>, b: seq<Pubkey>)
    requires NoDup(a) && NoDup(b) && SortedBy(KeyLeq, a) && SortedBy(KeyLeq, b) && forall k :: k in a <==> k in b
    ensures a == b
  {
    KeyLeqIsOrder();
    NoDupCount(a);
    NoDupCount(b);
    forall k ensures multiset(a)[k] == multiset(b)[k] {
      assert multiset(a)[k] <= 1 && multiset(b)[k] <= 1;
      assert (k in a <==> k in multiset(a)) && (k in b <==> k in multiset(b));
    }
    SortedIsUnique(KeyLeq, a, b);
  }

  /** The hash map's order changes nothing exactly when every key that may move must. */
  lemma OrderDoesNotMatterExactly(policy: AltPolicy, payer: Pubkey, metas: seq<AccountMeta>)
    ensures (forall a, b | Enumerates(a, payer, metas) && Enumerates(b, payer, metas) :: MovedKeys(policy, metas, a) == MovedKeys(policy, metas, b))
       <==> (forall k | MayMove(policy, payer, metas, k) :: MustMove(policy, payer, metas, k))
  {
    if forall k | MayMove(policy, payer, metas, k) :: MustMove(policy, payer, metas, k) {
      forall a, b | Enumerates(a, payer, metas) && Enumerates(b, payer, metas) ensures MovedKeys(policy, metas, a) == MovedKeys(policy, metas, b) {
        forall k ensures k in MovedKeys(policy, metas, a) <==> k in MovedKeys(policy, metas, b) {
          MovedMayMove(policy, payer, metas, a, k);
          MovedMayMove(policy, payer, metas, b, k);
        }
        SameKeysSameList(policy, payer, metas, a, b);
      }
    } else {
      var k :| MayMove(policy, payer, metas, k) && !MustMove(policy, payer, metas, k);
      var a := OrderThatMoves(policy, payer, metas, k);
      var b := OrderThatLeaves(policy, payer, metas, k);
      assert MovedKeys(policy, metas, a) != MovedKeys(policy, metas, b);
    }
  }

  // ---------------------------------------------------------------------------
  // The cheapest key stays
  // ---------------------------------------------------------------------------

  function UsedTimes(b: Byte, freq: nat): KeyUsage {
    KeyUsage(UniformKey(b), false, false, freq)
  }

  /** Three keys used three times, twice and once, one free slot and a cap of one: the second moves and the third,
      which costs less, stays. */
  lemma CheaperKeyCanStay()
    ensures var policy, entries := Chunking.AltPolicy(true, 1, 1, 1, 34, 1), [UsedTimes(0, 3), UsedTimes(1, 2), UsedTimes(2, 1)];
      && UsesTables(policy, entries) && UsedTimes(1, 2) in Moved(policy, entries) && UsedTimes(2, 1) in Left(policy, entries)
      && !StaysAreDearer(policy, entries)
  {
    CheapestOfThreeStays(Chunking.AltPolicy(true, 1, 1, 1, 34, 1), UsedTimes(0, 3), UsedTimes(1, 2), UsedTimes(2, 1));
  }

  lemma CheapestOfThreeStays(policy: AltPolicy, x: KeyUsage, y: KeyUsage, z: KeyUsage)
    requires policy.enabled && policy.reserveMessageKeys == 1 && policy.maxAltKeys == 1 && !x.signer && !y.signer && !z.signer
    requires KeyCost(x, policy.perAltIndexByte) > KeyCost(y, policy.perAltIndexByte) > KeyCost(z, policy.perAltIndexByte)
    ensures UsesTables(policy, [x, y, z]) && y in Moved(policy, [x, y, z]) && z in Left(policy, [x, y, z]) && !StaysAreDearer(policy, [x, y, z])
  {
    var entries := [x, y, z];
    ThreeRanked(policy, x, y, z);
    ThreeSplit(policy, entries);
    assert KeyCost(z, policy.perAltIndexByte) < KeyCost(y, policy.perAltIndexByte);
  }

  lemma ThreeRanked(policy: AltPolicy, x: KeyUsage, y: KeyUsage, z: KeyUsage)
    requires !x.signer && !y.signer && !z.signer
    requires KeyCost(x, policy.perAltIndexByte) > KeyCost(y, policy.perAltIndexByte) > KeyCost(z, policy.perAltIndexByte)
    ensures NonSigners([x, y, z]) == [x, y, z] && Ranked(policy, [x, y, z]) == [x, y, z]
  {
    var entries := [x, y, z];
    NoneSign(entries);
    var leq := ByCost(policy.perAltIndexByte);
    assert leq(entries[0], entries[1]) && leq(entries[0], entries[2]) && leq(entries[1], entries[2]);
    SortByKeepsSorted(leq, entries);
  }

  lemma ThreeSplit(policy: AltPolicy, entries: seq<KeyUsage>)
    requires policy.enabled && policy.reserveMessageKeys == 1 && policy.maxAltKeys == 1
    requires |entries| == 3 && NonSigners(entries) == entries && Ranked(policy, entries) == entries
    ensures UsesTables(policy, entries) && entries[1] in Moved(policy, entries) && entries[2] in Left(policy, entries)
  {
    assert FreeSlots(policy, entries) == 1 && Cut(policy, entries) == 2;
    SliceHas(entries, 1, 1, 2);
    SliceHas(entries, 2, 2, 3);
    MovedElements(policy, entries);
  }
}
