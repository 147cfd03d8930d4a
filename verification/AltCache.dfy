/** Which keys move to a lookup table, and the cache over those choices (the synthetic-table path). */
module AltCache {
  import opened Types
  import opened Sorting
  import opened KeyOrder
  import opened Merkle
  import opened Integers
  import opened IntentCodec
  import Chunking

  type AltPolicy = Chunking.AltPolicy

  datatype KeyUsage = KeyUsage(pubkey: Pubkey, writable: bool, signer: bool, freq: nat)

  datatype Table = Table(key: Pubkey, addresses: seq<Pubkey>)

  datatype UsageStats = UsageStats(offloaded: nat, readonly: nat, writable: nat, savedBytes: nat)

  datatype Resolution = Resolution(tables: seq<Table>, stats: UsageStats, cacheHit: bool)

  datatype CacheEntry = CacheEntry(resolution: Resolution, expiresAt: int)

  datatype AltMetrics = AltMetrics(resolutions: nat, cacheHits: nat, offloaded: nat, readonly: nat, writable: nat, savedBytes: nat)

  const NO_TABLES := Resolution([], UsageStats(0, 0, 0, 0), false)

  // ---------------------------------------------------------------------------
  // Key usage
  // ---------------------------------------------------------------------------

  /** The accounts of all intents, in order. */
  function AllMetas(intents: seq<UserIntent>): seq<AccountMeta> {
    if intents == [] then [] else AllMetas(intents[..|intents| - 1]) + intents[|intents| - 1].ix.accounts
  }

  function Frequency(metas: seq<AccountMeta>, k: Pubkey): nat {
    if metas == [] then 0
    else Frequency(metas[..|metas| - 1], k) + (if metas[|metas| - 1].pubkey == k then 1 else 0)
  }

  predicate UsesSigning(metas: seq<AccountMeta>, k: Pubkey) {
    exists a :: a in metas && a.pubkey == k && a.isSigner
  }

  function UsageOf(metas: seq<AccountMeta>, k: Pubkey): KeyUsage {
    var n := Frequency(metas, k);
    KeyUsage(k, UsesWritably(metas, k), UsesSigning(metas, k), if n < U32_MAX then n else U32_MAX)
  }

  /** One record per key used, saying how it is used. */
  ghost predicate Records(usage: map<Pubkey, KeyUsage>, metas: seq<AccountMeta>) {
    forall k :: (k in usage <==> Uses(metas, k)) && (k in usage ==> usage[k] == UsageOf(metas, k))
  }

  lemma {:induction false} FrequencyPositive(metas: seq<AccountMeta>, k: Pubkey)
    ensures Frequency(metas, k) > 0 <==> Uses(metas, k)
  {
    if metas != [] {
      var front, m := metas[..|metas| - 1], metas[|metas| - 1];
      assert metas == front + [m];
      FrequencyPositive(front, k);
      assert forall a :: a in metas <==> a in front || a == m;
    }
  }

  method RecordOne(usage: map<Pubkey, KeyUsage>, ghost before: seq<AccountMeta>, m: AccountMeta) returns (r: map<Pubkey, KeyUsage>)
    requires Records(usage, before)
    ensures Records(r, before + [m])
  {
    var k := m.pubkey;
    var entry := if k in usage then usage[k] else KeyUsage(k, false, false, 0);
    entry := entry.(freq := if entry.freq < U32_MAX then entry.freq + 1 else U32_MAX);
    entry := entry.(writable := entry.writable || m.isWritable);
    entry := entry.(signer := entry.signer || m.isSigner);
    r := usage[k := entry];
    FrequencyPositive(before, k);
    forall j ensures (j in r <==> Uses(before + [m], j)) && (j in r ==> r[j] == UsageOf(before + [m], j)) {
      assert j in usage <==> Uses(before, j);
      UsesSnoc(before, m, j);
    }
  }

  lemma UsesSnoc(before: seq<AccountMeta>, m: AccountMeta, k: Pubkey)
    ensures Uses(before + [m], k) <==> Uses(before, k) || m.pubkey == k
    ensures UsesWritably(before + [m], k) <==> UsesWritably(before, k) || (m.pubkey == k && m.isWritable)
    ensures UsesSigning(before + [m], k) <==> UsesSigning(before, k) || (m.pubkey == k && m.isSigner)
    ensures Frequency(before + [m], k) == Frequency(before, k) + (if m.pubkey == k then 1 else 0)
  {
    assert forall a :: a in before + [m] <==> a in before || a == m;
    assert (before + [m])[..|before|] == before;
  }

  method BuildKeyUsage(payer: Pubkey, intents: seq<UserIntent>) returns (usage: map<Pubkey, KeyUsage>)
    ensures payer !in usage
    ensures forall k | k != payer :: k in usage <==> Uses(AllMetas(intents), k)
    ensures forall k | k in usage :: usage[k] == UsageOf(AllMetas(intents), k)
  {
    usage := map[];
    for i := 0 to |intents|
      invariant Records(usage, AllMetas(intents[..i]))
    {
      var metas := intents[i].ix.accounts;
      ghost var before := AllMetas(intents[..i]);
      assert before + metas[..0] == before;
      for j := 0 to |metas|
        invariant Records(usage, before + metas[..j])
      {
        usage := RecordOne(usage, before + metas[..j], metas[j]);
        assert (before + metas[..j]) + [metas[j]] == before + metas[..j + 1];
      }
      assert metas[..|metas|] == metas;
      assert intents[..i + 1][..i] == intents[..i];
    }
    assert intents[..|intents|] == intents;
    usage := usage - {payer};
  }

  // ---------------------------------------------------------------------------
  // The choice of keys
  // ---------------------------------------------------------------------------

  function KeyCost(u: KeyUsage, perIndexByte: int): int {
    32 * u.freq - perIndexByte * u.freq + (if u.writable then 8 else 0)
  }

  /** Dearest first. */
  function ByCost(perIndexByte: int): (KeyUsage, KeyUsage) -> bool {
    (a: KeyUsage, b: KeyUsage) => KeyCost(a, perIndexByte) >= KeyCost(b, perIndexByte)
  }

  function ByKey(): (KeyUsage, KeyUsage) -> bool {
    (a: KeyUsage, b: KeyUsage) => KeyLeq(a.pubkey, b.pubkey)
  }

  function NonSigners(entries: seq<KeyUsage>): (r: seq<KeyUsage>)
    ensures |r| <= |entries|
  {
    if entries == [] then []
    else
      var last := entries[|entries| - 1];
      NonSigners(entries[..|entries| - 1]) + (if last.signer then [] else [last])
  }

  method RetainNonSigners(entries: seq<KeyUsage>) returns (mustKeep: seq<Pubkey>, rest: seq<KeyUsage>)
    ensures rest == NonSigners(entries) && |mustKeep| == |entries| - |rest|
  {
    mustKeep, rest := [], [];
    for i := 0 to |entries|
      invariant rest == NonSigners(entries[..i]) && |mustKeep| == i - |rest|
    {
      assert entries[..i + 1][..i] == entries[..i];
      if entries[i].signer {
        mustKeep := mustKeep + [entries[i].pubkey];
      } else {
        rest := rest + [entries[i]];
      }
    }
    assert entries[..|entries|] == entries;
  }

  /** How many static slots are left for keys that may move; negative or zero means no tables at all. */
  function FreeSlots(policy: AltPolicy, entries: seq<KeyUsage>): int {
    policy.reserveMessageKeys - (|entries| - |NonSigners(entries)|)
  }

  /** Tables are used only when enabled, and some slot is free, and not all movable keys fit the free slots. */
  predicate UsesTables(policy: AltPolicy, entries: seq<KeyUsage>) {
    policy.enabled && 0 < FreeSlots(policy, entries) < |NonSigners(entries)|
  }

  function Ranked(policy: AltPolicy, entries: seq<KeyUsage>): (r: seq<KeyUsage>)
    ensures |r| == |NonSigners(entries)|
  {
    var r := SortBy(ByCost(policy.perAltIndexByte), NonSigners(entries));
    assert |multiset(r)| == |multiset(NonSigners(entries))|;
    r
  }

  /** The movable keys that stay because the free slots hold them. */
  function Kept(policy: AltPolicy, entries: seq<KeyUsage>): seq<KeyUsage>
    requires UsesTables(policy, entries)
  {
    Ranked(policy, entries)[..FreeSlots(policy, entries)]
  }

  /** Where the moved keys end in the ranking: the cap on table keys cuts them off. */
  function Cut(policy: AltPolicy, entries: seq<KeyUsage>): (r: nat)
    requires UsesTables(policy, entries)
    ensures FreeSlots(policy, entries) <= r <= |NonSigners(entries)|
  {
    var n, free := |NonSigners(entries)|, FreeSlots(policy, entries);
    if n - free > policy.maxAltKeys then free + policy.maxAltKeys else n
  }

  /** The keys beyond the cap: they stay too. */
  function Left(policy: AltPolicy, entries: seq<KeyUsage>): seq<KeyUsage>
    requires UsesTables(policy, entries)
  {
    Ranked(policy, entries)[Cut(policy, entries)..]
  }

  /** The stretch of the ranking that moves. */
  function Chosen(policy: AltPolicy, entries: seq<KeyUsage>): (r: seq<KeyUsage>)
    requires UsesTables(policy, entries)
    ensures |r| == Cut(policy, entries) - FreeSlots(policy, entries)
  {
    Ranked(policy, entries)[FreeSlots(policy, entries)..Cut(policy, entries)]
  }

  function Moved(policy: AltPolicy, entries: seq<KeyUsage>): seq<KeyUsage>
    requires UsesTables(policy, entries)
  {
    SortBy(ByKey(), Chosen(policy, entries))
  }

  lemma OrdersAreTotal(perIndexByte: int)
    ensures TotalPreorder(ByCost(perIndexByte)) && TotalPreorder(ByKey())
  {
    KeyLeqIsOrder();
  }

  lemma {:induction false} NonSignersExactly(entries: seq<KeyUsage>, u: KeyUsage)
    ensures u in NonSigners(entries) <==> u in entries && !u.signer
    ensures multiset(NonSigners(entries))[u] <= multiset(entries)[u]
  {
    if entries != [] {
      var front, last := entries[..|entries| - 1], entries[|entries| - 1];
      NonSignersExactly(front, u);
      assert entries == front + [last];
      CountSnoc(front, last, u);
      if last.signer {
        assert NonSigners(entries) == NonSigners(front);
      } else {
        CountSnoc(NonSigners(front), last, u);
      }
    }
  }

  lemma RankedElements(policy: AltPolicy, entries: seq<KeyUsage>, u: KeyUsage)
    ensures u in Ranked(policy, entries) <==> u in entries && !u.signer
  {
    SameElements(Ranked(policy, entries), NonSigners(entries));
    NonSignersExactly(entries, u);
  }

  /** The ranking descends in cost. */
  lemma RankedDescends(policy: AltPolicy, entries: seq<KeyUsage>, i: nat, j: nat)
    requires i <= j < |Ranked(policy, entries)|
    ensures var ranked := Ranked(policy, entries); KeyCost(ranked[i], policy.perAltIndexByte) >= KeyCost(ranked[j], policy.perAltIndexByte)
  {
    var leq, ranked := ByCost(policy.perAltIndexByte), Ranked(policy, entries);
    OrdersAreTotal(policy.perAltIndexByte);
    SortBySorted(leq, NonSigners(entries));
    assert i == j || leq(ranked[i], ranked[j]);
  }

  lemma MovedElements(policy: AltPolicy, entries: seq<KeyUsage>)
    requires UsesTables(policy, entries)
    ensures multiset(Moved(policy, entries)) == multiset(Chosen(policy, entries))
    ensures |Moved(policy, entries)| == Cut(policy, entries) - FreeSlots(policy, entries)
    ensures forall u :: u in Moved(policy, entries) <==> u in Chosen(policy, entries)
  {
    SameElements(Moved(policy, entries), Chosen(policy, entries));
  }

  /** Every record but the signers' is kept, moved or left, each exactly as often as it occurs. */
  lemma SplitConserves(policy: AltPolicy, entries: seq<KeyUsage>)
    requires UsesTables(policy, entries)
    ensures multiset(Kept(policy, entries)) + multiset(Moved(policy, entries)) + multiset(Left(policy, entries))
         == multiset(NonSigners(entries))
    ensures |Kept(policy, entries)| == FreeSlots(policy, entries)
    ensures |Moved(policy, entries)| <= policy.maxAltKeys
    ensures Left(policy, entries) != [] ==> |Moved(policy, entries)| == policy.maxAltKeys
  {
    MovedElements(policy, entries);
    CutInThree(Ranked(policy, entries), FreeSlots(policy, entries), Cut(policy, entries));
  }

  /** Where a moved key ranks. */
  lemma MovedRank(policy: AltPolicy, entries: seq<KeyUsage>, u: KeyUsage) returns (k: nat)
    requires UsesTables(policy, entries) && u in Moved(policy, entries)
    ensures FreeSlots(policy, entries) <= k < Cut(policy, entries) && Ranked(policy, entries)[k] == u
  {
    MovedElements(policy, entries);
    k := InSlice(Ranked(policy, entries), FreeSlots(policy, entries), Cut(policy, entries), u);
  }

  /** No key the free slots keep costs less than a moved one, and no moved key less than one the cap leaves. */
  lemma SplitByCost(policy: AltPolicy, entries: seq<KeyUsage>, kept: KeyUsage, moved: KeyUsage, left: KeyUsage)
    requires UsesTables(policy, entries) && moved in Moved(policy, entries)
    ensures kept in Kept(policy, entries) ==> KeyCost(kept, policy.perAltIndexByte) >= KeyCost(moved, policy.perAltIndexByte)
    ensures left in Left(policy, entries) ==> KeyCost(moved, policy.perAltIndexByte) >= KeyCost(left, policy.perAltIndexByte)
  {
    var m := MovedRank(policy, entries, moved);
    if kept in Kept(policy, entries) {
      var k := InSlice(Ranked(policy, entries), 0, FreeSlots(policy, entries), kept);
      RankedDescends(policy, entries, k, m);
    }
    if left in Left(policy, entries) {
      var k := LeftRank(policy, entries, left);
      RankedDescends(policy, entries, m, k);
    }
  }

  lemma LeftRank(policy: AltPolicy, entries: seq<KeyUsage>, u: KeyUsage) returns (k: nat)
    requires UsesTables(policy, entries) && u in Left(policy, entries)
    ensures Cut(policy, entries) <= k < |Ranked(policy, entries)| && Ranked(policy, entries)[k] == u
  {
    k := InSlice(Ranked(policy, entries), Cut(policy, entries), |Ranked(policy, entries)|, u);
  }

  /** No movable key that stays costs less than a moved one. */
  ghost predicate StaysAreDearer(policy: AltPolicy, entries: seq<KeyUsage>)
    requires UsesTables(policy, entries)
  {
    forall stays, moved | (stays in Kept(policy, entries) || stays in Left(policy, entries)) && moved in Moved(policy, entries) ::
      KeyCost(stays, policy.perAltIndexByte) >= KeyCost(moved, policy.perAltIndexByte)
  }

  /** The cap cuts nothing off, moves nothing, or only cuts among keys of one cost. */
  predicate CutsAmongEqualCosts(policy: AltPolicy, entries: seq<KeyUsage>)
    requires UsesTables(policy, entries)
  {
    var ranked, free, per := Ranked(policy, entries), FreeSlots(policy, entries), policy.perAltIndexByte;
    |ranked| - free <= policy.maxAltKeys || policy.maxAltKeys == 0 || KeyCost(ranked[free], per) == KeyCost(ranked[|ranked| - 1], per)
  }

  lemma EqualCostsSuffice(policy: AltPolicy, entries: seq<KeyUsage>, stays: KeyUsage, moved: KeyUsage)
    requires UsesTables(policy, entries) && CutsAmongEqualCosts(policy, entries) && moved in Moved(policy, entries)
    requires stays in Kept(policy, entries) || stays in Left(policy, entries)
    ensures KeyCost(stays, policy.perAltIndexByte) >= KeyCost(moved, policy.perAltIndexByte)
  {
    SplitByCost(policy, entries, stays, moved, stays);
    if stays in Left(policy, entries) {
      var k := LeftRank(policy, entries, stays);
      var m := MovedRank(policy, entries, moved);
      RankedDescends(policy, entries, FreeSlots(policy, entries), m);
      RankedDescends(policy, entries, k, |Ranked(policy, entries)| - 1);
    }
  }

  /** Otherwise the first moved key costs more than the last one left over. */
  lemma CheaperKeyStays(policy: AltPolicy, entries: seq<KeyUsage>) returns (stays: KeyUsage, moved: KeyUsage)
    requires UsesTables(policy, entries) && !CutsAmongEqualCosts(policy, entries)
    ensures stays in Left(policy, entries) && moved in Moved(policy, entries)
    ensures KeyCost(stays, policy.perAltIndexByte) < KeyCost(moved, policy.perAltIndexByte)
  {
    var ranked, free, cut := Ranked(policy, entries), FreeSlots(policy, entries), Cut(policy, entries);
    stays, moved := ranked[|ranked| - 1], ranked[free];
    MovedElements(policy, entries);
    SliceHas(ranked, free, free, cut);
    SliceHas(ranked, cut, |ranked| - 1, |ranked|);
    RankedDescends(policy, entries, free, |ranked| - 1);
  }

  /** No key that stays costs less than a moved one exactly when the cap does not cut between different costs. */
  lemma StaysAreDearerExactly(policy: AltPolicy, entries: seq<KeyUsage>)
    requires UsesTables(policy, entries)
    ensures StaysAreDearer(policy, entries) <==> CutsAmongEqualCosts(policy, entries)
  {
    if CutsAmongEqualCosts(policy, entries) {
      forall stays, moved | (stays in Kept(policy, entries) || stays in Left(policy, entries)) && moved in Moved(policy, entries)
        ensures KeyCost(stays, policy.perAltIndexByte) >= KeyCost(moved, policy.perAltIndexByte)
      {
        EqualCostsSuffice(policy, entries, stays, moved);
      }
    } else {
      var stays, moved := CheaperKeyStays(policy, entries);
    }
  }

  // ---------------------------------------------------------------------------
  // Resolutions and cache keys
  // ---------------------------------------------------------------------------

  function Addresses(moved: seq<KeyUsage>): (r: seq<Pubkey>)
    ensures |r| == |moved|
  {
    seq(|moved|, i requires 0 <= i < |moved| => moved[i].pubkey)
  }

  function CountWritable(moved: seq<KeyUsage>): (r: nat)
    ensures r <= |moved|
  {
    if moved == [] then 0 else (if moved[0].writable then 1 else 0) + CountWritable(moved[1..])
  }

  function SavedBytes(policy: AltPolicy, count: nat): nat {
    var saved := 32 * count - (policy.perAltIndexByte * count + policy.perTableFixedBytes);
    if saved > 0 then saved else 0
  }

  function ConcatKeys(keys: seq<Pubkey>): (r: seq<Byte>)
    ensures |r| == 32 * |keys|
  {
    if keys == [] then [] else keys[0].bytes + ConcatKeys(keys[1..])
  }

  function DeriveTableKey(h: Hasher, addresses: seq<Pubkey>): Pubkey {
    Key(h(ConcatKeys(addresses)).bytes)
  }

  lemma {:induction false} ConcatKeysTells(a: seq<Pubkey>, b: seq<Pubkey>)
    ensures ConcatKeys(a) == ConcatKeys(b) <==> a == b
  {
    if a != [] && b != [] {
      SameHalves(a[0].bytes, ConcatKeys(a[1..]), b[0].bytes, ConcatKeys(b[1..]));
      ConcatKeysTells(a[1..], b[1..]);
      assert a == [a[0]] + a[1..] && b == [b[0]] + b[1..];
    }
  }

  function Resolve(policy: AltPolicy, h: Hasher, moved: seq<KeyUsage>): Resolution {
    var writable := CountWritable(moved);
    Resolution(
      [Table(DeriveTableKey(h, Addresses(moved)), Addresses(moved))],
      UsageStats(|moved|, |moved| - writable, writable, SavedBytes(policy, |moved|)),
      false)
  }

  /** The positions from `from` on whose key is, or is not, written. */
  function Positions(moved: seq<KeyUsage>, from: nat, writable: bool): set<int> {
    set i | from <= i < |moved| && moved[i].writable == writable
  }

  lemma {:induction false} CountIsPositions(moved: seq<KeyUsage>, from: nat)
    requires from <= |moved|
    ensures CountWritable(moved[from..]) == |Positions(moved, from, true)|
    ensures |moved| - from - CountWritable(moved[from..]) == |Positions(moved, from, false)|
    decreases |moved| - from
  {
    if from == |moved| {
      assert Positions(moved, from, true) == {} && Positions(moved, from, false) == {};
    } else {
      CountIsPositions(moved, from + 1);
      assert moved[from..][1..] == moved[from + 1..];
      NextPosition(moved, from, true);
      NextPosition(moved, from, false);
    }
  }

  lemma NextPosition(moved: seq<KeyUsage>, from: nat, writable: bool)
    requires from < |moved|
    ensures |Positions(moved, from, writable)| == |Positions(moved, from + 1, writable)| + (if moved[from].writable == writable then 1 else 0)
  {
    var more := Positions(moved, from + 1, writable);
    assert Positions(moved, from, writable) == if moved[from].writable == writable then more + {from} else more;
  }

  /** The figures of an answer count the moved keys: each is either written or read only. */
  lemma StatsCountMoved(policy: AltPolicy, h: Hasher, moved: seq<KeyUsage>)
    ensures var stats := Resolve(policy, h, moved).stats;
      && stats.writable == |Positions(moved, 0, true)| && stats.readonly == |Positions(moved, 0, false)|
      && stats.offloaded == stats.writable + stats.readonly == |Addresses(moved)|
  {
    CountIsPositions(moved, 0);
    assert moved[0..] == moved;
  }

  /** What a manager without a cache answers. */
  function Uncached(policy: AltPolicy, h: Hasher, entries: seq<KeyUsage>): Resolution {
    if UsesTables(policy, entries) then Resolve(policy, h, Moved(policy, entries)) else NO_TABLES
  }

  function EntryBytes(u: KeyUsage): (r: seq<Byte>)
    ensures |r| == 33
  {
    u.pubkey.bytes + [if u.writable then 1 else 0]
  }

  function CacheKeyOf(moved: seq<KeyUsage>): (r: seq<Byte>)
    ensures |r| == 33 * |moved|
  {
    if moved == [] then [] else CacheKeyOf(moved[..|moved| - 1]) + EntryBytes(moved[|moved| - 1])
  }

  method BuildCacheKey(moved: seq<KeyUsage>) returns (data: seq<Byte>)
    ensures data == CacheKeyOf(moved)
  {
    data := [];
    for i := 0 to |moved|
      invariant data == CacheKeyOf(moved[..i])
    {
      assert moved[..i + 1][..i] == moved[..i];
      data := data + moved[i].pubkey.bytes;
      data := data + [if moved[i].writable then 1 else 0];
    }
    assert moved[..|moved|] == moved;
  }

  /** Same keys with the same writable bits; frequencies and signer bits may differ. */
  predicate SameMarks(a: seq<KeyUsage>, b: seq<KeyUsage>) {
    |a| == |b| && forall i | 0 <= i < |a| :: a[i].pubkey == b[i].pubkey && a[i].writable == b[i].writable
  }

  lemma {:induction false} CacheKeyTells(a: seq<KeyUsage>, b: seq<KeyUsage>)
    ensures CacheKeyOf(a) == CacheKeyOf(b) <==> SameMarks(a, b)
  {
    if |a| == |b| > 0 {
      var fa, fb, ua, ub := a[..|a| - 1], b[..|b| - 1], a[|a| - 1], b[|b| - 1];
      CacheKeyTells(fa, fb);
      SameHalves(CacheKeyOf(fa), EntryBytes(ua), CacheKeyOf(fb), EntryBytes(ub));
      SameHalves(ua.pubkey.bytes, [if ua.writable then 1 else 0], ub.pubkey.bytes, [if ub.writable then 1 else 0]);
      assert (if ua.writable then 1 else 0) == (if ub.writable then 1 else 0) <==> ua.writable == ub.writable;
      assert [if ua.writable then 1 else 0] == [if ub.writable then 1 else 0] <==> ua.writable == ub.writable by {
        if [if ua.writable then 1 else 0] == [if ub.writable then 1 else 0] {
          assert [if ua.writable then 1 else 0][0] == [if ub.writable then 1 else 0][0];
        }
      }
      assert SameMarks(a, b) <==> SameMarks(fa, fb) && ua.pubkey == ub.pubkey && ua.writable == ub.writable;
    }
  }

  /** The answer depends on the marks alone, so a cache key determines it. */
  lemma {:induction false} MarksDecide(policy: AltPolicy, h: Hasher, a: seq<KeyUsage>, b: seq<KeyUsage>)
    requires SameMarks(a, b)
    ensures Resolve(policy, h, a) == Resolve(policy, h, b)
  {
    SameWritableCount(a, b);
    assert Addresses(a) == Addresses(b);
  }

  lemma {:induction false} SameWritableCount(a: seq<KeyUsage>, b: seq<KeyUsage>)
    requires SameMarks(a, b)
    ensures CountWritable(a) == CountWritable(b)
  {
    if a != [] {
      SameWritableCount(a[1..], b[1..]);
    }
  }

  // ---------------------------------------------------------------------------
  // The cache over histories of calls
  // ---------------------------------------------------------------------------

  type Cache = map<seq<Byte>, CacheEntry>

  /** One call: the records in the order the hash map yields them, and the clock at the lookup and at the insertion. */
  datatype Call = Call(entries: seq<KeyUsage>, now: int, later: int)

  predicate Hits(cache: Cache, key: seq<Byte>, now: int) {
    key in cache && cache[key].expiresAt > now
  }

  /** The cache after looking up the keys to move, and the answer. */
  function StepMoved(policy: AltPolicy, h: Hasher, ttl: nat, cache: Cache, moved: seq<KeyUsage>, now: int, later: int): (Cache, Resolution) {
    var key := CacheKeyOf(moved);
    if Hits(cache, key, now) then (cache, cache[key].resolution.(cacheHit := true))
    else
      var computed := Resolve(policy, h, moved);
      (cache[key := CacheEntry(computed, later + ttl)], computed)
  }

  /** The cache after one call, and the call's answer. */
  function Step(policy: AltPolicy, h: Hasher, ttl: nat, cache: Cache, c: Call): (Cache, Resolution) {
    if !UsesTables(policy, c.entries) then (cache, NO_TABLES)
    else StepMoved(policy, h, ttl, cache, Moved(policy, c.entries), c.now, c.later)
  }

  function CacheAfter(policy: AltPolicy, h: Hasher, ttl: nat, calls: seq<Call>): Cache {
    if calls == [] then map[]
    else Step(policy, h, ttl, CacheAfter(policy, h, ttl, calls[..|calls| - 1]), calls[|calls| - 1]).0
  }

  /** The answer to call `i` of a history that starts with an empty cache. */
  function AnswerAt(policy: AltPolicy, h: Hasher, ttl: nat, calls: seq<Call>, i: nat): Resolution
    requires i < |calls|
  {
    Step(policy, h, ttl, CacheAfter(policy, h, ttl, calls[..i]), calls[i]).1
  }

  /** Every entry holds what its key would be answered afresh. */
  ghost predicate Faithful(policy: AltPolicy, h: Hasher, cache: Cache) {
    forall moved: seq<KeyUsage> | CacheKeyOf(moved) in cache :: cache[CacheKeyOf(moved)].resolution == Resolve(policy, h, moved)
  }

  lemma StepIsTransparent(policy: AltPolicy, h: Hasher, ttl: nat, cache: Cache, c: Call)
    requires Faithful(policy, h, cache)
    ensures Faithful(policy, h, Step(policy, h, ttl, cache, c).0)
    ensures Step(policy, h, ttl, cache, c).1.(cacheHit := false) == Uncached(policy, h, c.entries)
  {
    if UsesTables(policy, c.entries) {
      var moved := Moved(policy, c.entries);
      var cache' := Step(policy, h, ttl, cache, c).0;
      forall other: seq<KeyUsage> | CacheKeyOf(other) in cache'
        ensures cache'[CacheKeyOf(other)].resolution == Resolve(policy, h, other)
      {
        if CacheKeyOf(other) == CacheKeyOf(moved) {
          CacheKeyTells(other, moved);
          MarksDecide(policy, h, other, moved);
        }
      }
    }
  }

  lemma {:induction false} CacheStaysFaithful(policy: AltPolicy, h: Hasher, ttl: nat, calls: seq<Call>)
    ensures Faithful(policy, h, CacheAfter(policy, h, ttl, calls))
  {
    if calls != [] {
      CacheStaysFaithful(policy, h, ttl, calls[..|calls| - 1]);
      StepIsTransparent(policy, h, ttl, CacheAfter(policy, h, ttl, calls[..|calls| - 1]), calls[|calls| - 1]);
    }
  }

  /** In every history and under any clock, each answer is the uncached one but for the hit flag. */
  lemma CacheIsTransparent(policy: AltPolicy, h: Hasher, ttl: nat, calls: seq<Call>, i: nat)
    requires i < |calls|
    ensures AnswerAt(policy, h, ttl, calls, i).(cacheHit := false) == Uncached(policy, h, calls[i].entries)
  {
    CacheStaysFaithful(policy, h, ttl, calls[..i]);
    StepIsTransparent(policy, h, ttl, CacheAfter(policy, h, ttl, calls[..i]), calls[i]);
  }

  /** Call `i` moves keys with these marks, and its answer was computed, not found. */
  predicate Computes(policy: AltPolicy, h: Hasher, ttl: nat, calls: seq<Call>, i: nat, moved: seq<KeyUsage>)
    requires i < |calls|
  {
    UsesTables(policy, calls[i].entries) && SameMarks(Moved(policy, calls[i].entries), moved)
    && !AnswerAt(policy, h, ttl, calls, i).cacheHit
  }

  /** For each call, whether it computed these marks. */
  function Computations(policy: AltPolicy, h: Hasher, ttl: nat, calls: seq<Call>, moved: seq<KeyUsage>): seq<bool> {
    seq(|calls|, i requires 0 <= i < |calls| => Computes(policy, h, ttl, calls, i, moved))
  }

  function LastTrue(flags: seq<bool>): (r: Option<nat>)
    ensures r.Some? ==> r.value < |flags| && flags[r.value] && forall i | r.value < i < |flags| :: !flags[i]
    ensures r.None? ==> forall i | 0 <= i < |flags| :: !flags[i]
  {
    if flags == [] then None
    else if flags[|flags| - 1] then Some(|flags| - 1)
    else LastTrue(flags[..|flags| - 1])
  }

  /** The last call that computed these marks. */
  function LastComputed(policy: AltPolicy, h: Hasher, ttl: nat, calls: seq<Call>, moved: seq<KeyUsage>): (r: Option<nat>)
    ensures r.Some? ==> r.value < |calls| && Computes(policy, h, ttl, calls, r.value, moved)
    ensures forall i: nat | i < |calls| && (r.Some? ==> r.value < i) :: !Computes(policy, h, ttl, calls, i, moved)
  {
    var flags := Computations(policy, h, ttl, calls, moved);
    assert forall i: nat | i < |calls| :: flags[i] == Computes(policy, h, ttl, calls, i, moved);
    LastTrue(flags)
  }

  lemma {:induction false} ComputesInPrefix(policy: AltPolicy, h: Hasher, ttl: nat, calls: seq<Call>, n: nat, i: nat, moved: seq<KeyUsage>)
    requires i < n <= |calls|
    ensures Computes(policy, h, ttl, calls[..n], i, moved) == Computes(policy, h, ttl, calls, i, moved)
  {
    assert calls[..n][..i] == calls[..i];
  }

  lemma {:induction false} ComputationsPrefix(policy: AltPolicy, h: Hasher, ttl: nat, calls: seq<Call>, n: nat, moved: seq<KeyUsage>)
    requires n <= |calls|
    ensures Computations(policy, h, ttl, calls[..n], moved) == Computations(policy, h, ttl, calls, moved)[..n]
  {
    forall i: nat | i < n ensures Computes(policy, h, ttl, calls[..n], i, moved) == Computes(policy, h, ttl, calls, i, moved) {
      ComputesInPrefix(policy, h, ttl, calls, n, i, moved);
    }
  }

  lemma {:induction false} LastComputedSnoc(policy: AltPolicy, h: Hasher, ttl: nat, calls: seq<Call>, moved: seq<KeyUsage>)
    requires calls != []
    ensures var n := |calls| - 1;
      LastComputed(policy, h, ttl, calls, moved)
        == if Computes(policy, h, ttl, calls, n, moved) then Some(n) else LastComputed(policy, h, ttl, calls[..n], moved)
  {
    var n, flags := |calls| - 1, Computations(policy, h, ttl, calls, moved);
    ComputationsPrefix(policy, h, ttl, calls, n, moved);
    assert flags[n] == Computes(policy, h, ttl, calls, n, moved);
    assert LastTrue(flags) == if flags[n] then Some(n) else LastTrue(flags[..n]);
  }

  /** One call changes the entry of these marks exactly when it computes them. */
  lemma MovedInserts(policy: AltPolicy, h: Hasher, ttl: nat, cache: Cache, chosen: seq<KeyUsage>, now: int, later: int, key: seq<Byte>)
    ensures var (after, answer) := StepMoved(policy, h, ttl, cache, chosen, now, later);
      if key == CacheKeyOf(chosen) && !answer.cacheHit
      then key in after && after[key].expiresAt == later + ttl
      else (key in after <==> key in cache) && (key in cache ==> after[key] == cache[key])
  {
  }

  lemma {:induction false} StepInserts(policy: AltPolicy, h: Hasher, ttl: nat, cache: Cache, c: Call, moved: seq<KeyUsage>)
    ensures var key := CacheKeyOf(moved);
      var (after, answer) := Step(policy, h, ttl, cache, c);
      if UsesTables(policy, c.entries) && SameMarks(Moved(policy, c.entries), moved) && !answer.cacheHit
      then key in after && after[key].expiresAt == c.later + ttl
      else (key in after <==> key in cache) && (key in cache ==> after[key] == cache[key])
  {
    if UsesTables(policy, c.entries) {
      var chosen := Moved(policy, c.entries);
      CacheKeyTells(chosen, moved);
      MovedInserts(policy, h, ttl, cache, chosen, c.now, c.later, CacheKeyOf(moved));
    }
  }

  /** The cache remembers exactly the last computation of each choice. */
  lemma {:induction false} CacheIsLastComputed(policy: AltPolicy, h: Hasher, ttl: nat, calls: seq<Call>, moved: seq<KeyUsage>)
    ensures var cache, last := CacheAfter(policy, h, ttl, calls), LastComputed(policy, h, ttl, calls, moved);
      && (CacheKeyOf(moved) in cache <==> last.Some?)
      && (last.Some? ==> cache[CacheKeyOf(moved)].expiresAt == calls[last.value].later + ttl)
  {
    if calls != [] {
      var n := |calls| - 1;
      CacheIsLastComputed(policy, h, ttl, calls[..n], moved);
      LastComputedSnoc(policy, h, ttl, calls, moved);
      StepInserts(policy, h, ttl, CacheAfter(policy, h, ttl, calls[..n]), calls[n], moved);
    }
  }

  /** A call is answered from the cache exactly when the last computation of its choice has not expired. */
  lemma HitsExactly(policy: AltPolicy, h: Hasher, ttl: nat, calls: seq<Call>, i: nat)
    requires i < |calls| && UsesTables(policy, calls[i].entries)
    ensures var last := LastComputed(policy, h, ttl, calls[..i], Moved(policy, calls[i].entries));
      AnswerAt(policy, h, ttl, calls, i).cacheHit <==> last.Some? && calls[last.value].later + ttl > calls[i].now
  {
    CacheIsLastComputed(policy, h, ttl, calls[..i], Moved(policy, calls[i].entries));
  }

  // ---------------------------------------------------------------------------
  // What may move
  // ---------------------------------------------------------------------------

  /** `order` is one order in which a hash map may yield the keys used, without the payer. */
  ghost predicate Enumerates(order: seq<Pubkey>, payer: Pubkey, metas: seq<AccountMeta>) {
    NoDup(order) && forall k :: k in order <==> k != payer && Uses(metas, k)
  }

  /** The records of the keys used, in the order `order`. */
  function RecordsIn(order: seq<Pubkey>, metas: seq<AccountMeta>): seq<KeyUsage> {
    seq(|order|, i requires 0 <= i < |order| => UsageOf(metas, order[i]))
  }

  lemma MovedIsEntry(policy: AltPolicy, entries: seq<KeyUsage>, u: KeyUsage)
    requires UsesTables(policy, entries) && u in Moved(policy, entries)
    ensures u in entries && !u.signer
  {
    var k := MovedRank(policy, entries, u);
    RankedElements(policy, entries, u);
  }

  lemma MovedOnce(policy: AltPolicy, entries: seq<KeyUsage>)
    requires UsesTables(policy, entries) && NoDup(entries)
    ensures NoDup(Moved(policy, entries))
  {
    SplitConserves(policy, entries);
    NoDupCount(entries);
    NoDupCount(Moved(policy, entries));
    forall u ensures multiset(Moved(policy, entries))[u] <= 1 {
      NonSignersExactly(entries, u);
      assert multiset(Moved(policy, entries))[u] <= multiset(NonSigners(entries))[u];
    }
  }

  lemma MovedInKeyOrder(policy: AltPolicy, entries: seq<KeyUsage>, i: nat, j: nat)
    requires UsesTables(policy, entries) && i < j < |Moved(policy, entries)|
    ensures KeyLeq(Moved(policy, entries)[i].pubkey, Moved(policy, entries)[j].pubkey)
  {
    OrdersAreTotal(policy.perAltIndexByte);
    SortBySorted(ByKey(), Chosen(policy, entries));
    assert ByKey()(Moved(policy, entries)[i], Moved(policy, entries)[j]);
  }

  lemma RecordOfKey(order: seq<Pubkey>, payer: Pubkey, metas: seq<AccountMeta>, u: KeyUsage)
    requires Enumerates(order, payer, metas) && u in RecordsIn(order, metas)
    ensures u == UsageOf(metas, u.pubkey) && u.pubkey != payer && Uses(metas, u.pubkey)
  {
    var i :| 0 <= i < |order| && RecordsIn(order, metas)[i] == u;
    assert order[i] in order;
  }

  lemma RecordsOnce(order: seq<Pubkey>, metas: seq<AccountMeta>)
    requires NoDup(order)
    ensures NoDup(RecordsIn(order, metas))
  {
    var entries := RecordsIn(order, metas);
    forall i, j | 0 <= i < j < |entries| ensures entries[i] != entries[j] {
      assert entries[i].pubkey == order[i] && entries[j].pubkey == order[j];
    }
  }

  /** Moved keys are used, are neither payer nor signer, come once each in key order, and fit the cap. */
  lemma MovedKeysAreSafe(policy: AltPolicy, payer: Pubkey, metas: seq<AccountMeta>, order: seq<Pubkey>)
    requires Enumerates(order, payer, metas) && UsesTables(policy, RecordsIn(order, metas))
    ensures var keys := Addresses(Moved(policy, RecordsIn(order, metas)));
      && |keys| <= policy.maxAltKeys && NoDup(keys) && SortedBy(KeyLeq, keys)
      && forall i | 0 <= i < |keys| :: keys[i] != payer && Uses(metas, keys[i]) && !UsesSigning(metas, keys[i])
  {
    var entries := RecordsIn(order, metas);
    var moved := Moved(policy, entries);
    var keys := Addresses(moved);
    SplitConserves(policy, entries);
    RecordsOnce(order, metas);
    MovedOnce(policy, entries);
    forall i | 0 <= i < |moved|
      ensures moved[i] == UsageOf(metas, keys[i]) && keys[i] != payer && Uses(metas, keys[i]) && !UsesSigning(metas, keys[i])
    {
      assert moved[i] in moved;
      MovedIsEntry(policy, entries, moved[i]);
      RecordOfKey(order, payer, metas, moved[i]);
    }
    forall i, j | 0 <= i < j < |keys| ensures keys[i] != keys[j] && KeyLeq(keys[i], keys[j]) {
      assert moved[i] != moved[j];
      MovedInKeyOrder(policy, entries, i, j);
    }
  }

  /** `k` is the program of some intent. */
  predicate IsProgram(intents: seq<UserIntent>, k: Pubkey) {
    exists i :: i in intents && i.ix.programId == k
  }

  /** One intent that passes its own program as an account, and a policy with one reserved slot: the program moves. */
  lemma ProgramCanMove()
    ensures var payer, program, account := UniformKey(0), UniformKey(1), UniformKey(2);
      var metas := [AccountMeta(account, false, true), AccountMeta(program, false, false)];
      var intents := [UserIntent(payer, Instruction(program, metas, []), [], 0, None)];
      var policy, order := Chunking.AltPolicy(true, 1, 64, 1, 34, 1), [program, account];
      && Enumerates(order, payer, AllMetas(intents)) && UsesTables(policy, RecordsIn(order, AllMetas(intents)))
      && IsProgram(intents, program) && Addresses(Moved(policy, RecordsIn(order, AllMetas(intents)))) == [program]
  {
    var payer, program, account := UniformKey(0), UniformKey(1), UniformKey(2);
    UniformKeysDiffer(0, 1);
    UniformKeysDiffer(0, 2);
    UniformKeysDiffer(1, 2);
    var a, p := AccountMeta(account, false, true), AccountMeta(program, false, false);
    var metas := [a, p];
    var intents := [UserIntent(payer, Instruction(program, metas, []), [], 0, None)];
    OneIntentMetas(intents);
    ProgramRecords(a, p);
    assert intents[0] in intents;
    var policy, order := Chunking.AltPolicy(true, 1, 64, 1, 34, 1), [program, account];
    assert RecordsIn(order, metas) == [KeyUsage(program, false, false, 1), KeyUsage(account, true, false, 1)];
    ProgramRanks(policy, RecordsIn(order, metas), KeyUsage(program, false, false, 1), KeyUsage(account, true, false, 1));
  }

  lemma OneIntentMetas(intents: seq<UserIntent>)
    requires |intents| == 1
    ensures AllMetas(intents) == intents[0].ix.accounts
  {
    assert intents[..0] == [];
    assert AllMetas([]) + intents[0].ix.accounts == intents[0].ix.accounts;
  }

  lemma ProgramRecords(a: AccountMeta, p: AccountMeta)
    requires a.pubkey != p.pubkey && !a.isSigner && !p.isSigner && a.isWritable && !p.isWritable
    ensures UsageOf([a, p], p.pubkey) == KeyUsage(p.pubkey, false, false, 1)
    ensures UsageOf([a, p], a.pubkey) == KeyUsage(a.pubkey, true, false, 1)
    ensures forall k :: Uses([a, p], k) <==> k == a.pubkey || k == p.pubkey
  {
    assert [a, p][..1] == [a] && [a][..0] == [];
    assert a in [a, p] && p in [a, p] && forall x :: x in [a, p] <==> x == a || x == p;
    FrequencySteps(a, p, a.pubkey);
    FrequencySteps(a, p, p.pubkey);
  }

  lemma FrequencySteps(a: AccountMeta, p: AccountMeta, k: Pubkey)
    ensures Frequency([a, p], k) == (if a.pubkey == k then 1 else 0) + (if p.pubkey == k then 1 else 0)
  {
    assert [a, p][..1] == [a] && [a][..0] == [];
    assert Frequency([a], k) == if a.pubkey == k then 1 else 0;
  }

  lemma RankTwo(p: KeyUsage, a: KeyUsage)
    requires KeyCost(a, 1) > KeyCost(p, 1)
    ensures SortBy(ByCost(1), [p, a]) == [a, p]
  {
    var leq := ByCost(1);
    assert [p, a][1..] == [a] && [a][1..] == [];
    assert SortBy(leq, [a]) == Insert(leq, a, []) == [a];
    assert Insert(leq, p, [a]) == [a] + Insert(leq, p, []);
  }

  lemma BothMovable(p: KeyUsage, a: KeyUsage)
    requires !p.signer && !a.signer
    ensures NonSigners([p, a]) == [p, a]
  {
    assert [p, a][..1] == [p] && [p][..0] == [];
    assert NonSigners([p]) == [p];
  }

  lemma ProgramChosen(policy: AltPolicy, entries: seq<KeyUsage>, p: KeyUsage, a: KeyUsage)
    requires policy == Chunking.AltPolicy(true, 1, 64, 1, 34, 1)
    requires |entries| == 2 && NonSigners(entries) == [p, a] && Ranked(policy, entries) == [a, p]
    ensures UsesTables(policy, entries) && Chosen(policy, entries) == [p]
  {
    assert UsesTables(policy, entries) && FreeSlots(policy, entries) == 1 && Cut(policy, entries) == 2;
    SecondOfTwo(Ranked(policy, entries), a, p);
  }

  lemma SecondOfTwo<T>(s: seq<T>, a: T, b: T)
    requires s == [a, b]
    ensures s[1..2] == [b]
  {
  }

  lemma ProgramRanks(policy: AltPolicy, entries: seq<KeyUsage>, p: KeyUsage, a: KeyUsage)
    requires policy == Chunking.AltPolicy(true, 1, 64, 1, 34, 1) && entries == [p, a]
    requires !p.signer && !a.signer && p.freq == a.freq == 1 && a.writable && !p.writable
    ensures UsesTables(policy, entries) && Addresses(Moved(policy, entries)) == [p.pubkey]
  {
    BothMovable(p, a);
    RankTwo(p, a);
    ProgramChosen(policy, entries, p, a);
    assert [p][1..] == [] && SortBy(ByKey(), [p]) == [p];
  }

  // ---------------------------------------------------------------------------
  // The manager
  // ---------------------------------------------------------------------------

  /** The counters after one more answer. */
  function Counted(m: AltMetrics, r: Resolution): AltMetrics {
    AltMetrics(
      m.resolutions + 1,
      m.cacheHits + (if r.cacheHit then 1 else 0),
      m.offloaded + r.stats.offloaded,
      m.readonly + r.stats.readonly,
      m.writable + r.stats.writable,
      m.savedBytes + r.stats.savedBytes)
  }

  lemma SliceByParts<T>(s: seq<T>, i: nat, n: nat)
    requires i <= |s|
    ensures s[i..] == s[i..|s|] && (i + n <= |s| ==> s[i..][..n] == s[i..i + n])
  {
  }

  /** The keys to move, or nothing when no table is to be used. */
  method ChooseKeys(policy: AltPolicy, entries: seq<KeyUsage>) returns (offload: Option<seq<KeyUsage>>)
    ensures offload == if UsesTables(policy, entries) then Some(Moved(policy, entries)) else None
  {
    if !policy.enabled || entries == [] {
      return None;
    }
    var mustKeep, rest := RetainNonSigners(entries);
    if policy.reserveMessageKeys <= |mustKeep| {
      return None;
    }
    var reserved := policy.reserveMessageKeys - |mustKeep|;
    if |rest| <= reserved {
      return None;
    }
    var ranked := SortBy(ByCost(policy.perAltIndexByte), rest);
    assert ranked == Ranked(policy, entries);
    var moving := ranked[reserved..];
    if |moving| > policy.maxAltKeys {
      moving := moving[..policy.maxAltKeys];
    }
    SliceByParts(ranked, reserved, policy.maxAltKeys);
    assert moving == Chosen(policy, entries);
    offload := Some(SortBy(ByKey(), moving));
  }

  class CachingAltManager {
    const policy: AltPolicy
    const ttl: nat
    const hasher: Hasher
    var cache: Cache
    var metrics: AltMetrics

    ghost predicate Valid()
      reads this
    {
      Faithful(policy, hasher, cache)
    }

    constructor (policy: AltPolicy, ttl: nat, hasher: Hasher)
      ensures this.policy == policy && this.ttl == ttl && this.hasher == hasher
      ensures cache == map[] && metrics == AltMetrics(0, 0, 0, 0, 0, 0) && Valid()
    {
      this.policy, this.ttl, this.hasher := policy, ttl, hasher;
      cache, metrics := map[], AltMetrics(0, 0, 0, 0, 0, 0);
    }

    /** Answers from an unexpired entry, or computes the answer and stores it. */
    method ResolveMoved(offload: seq<KeyUsage>, now: int, later: int) returns (resolution: Resolution)
      modifies `cache
      ensures (cache, resolution) == StepMoved(policy, hasher, ttl, old(cache), offload, now, later)
    {
      var cacheKey := BuildCacheKey(offload);
      if cacheKey in cache {
        var entry := cache[cacheKey];
        if entry.expiresAt > now {
          return entry.resolution.(cacheHit := true);
        }
        cache := cache - {cacheKey};
      }
      var addresses := Addresses(offload);
      var writable := CountWritable(offload);
      resolution := Resolution(
        [Table(DeriveTableKey(hasher, addresses), addresses)],
        UsageStats(|addresses|, |offload| - writable, writable, SavedBytes(policy, |offload|)),
        false);
      cache := cache[cacheKey := CacheEntry(resolution, later + ttl)];
      assert cache == old(cache)[cacheKey := CacheEntry(resolution, later + ttl)];
    }

    /** `entries` are the usage records in the hash map's order; `now` and `later` are the clock's two readings. */
    method ComputeOffloadPlan(entries: seq<KeyUsage>, now: int, later: int) returns (resolution: Resolution)
      modifies `cache
      ensures (cache, resolution) == Step(policy, hasher, ttl, old(cache), Call(entries, now, later))
    {
      var offload := ChooseKeys(policy, entries);
      if offload.None? {
        return NO_TABLES;
      }
      resolution := ResolveMoved(offload.value, now, later);
    }

    /** Answers as an uncached manager would but for the hit flag, and counts the answer. */
    method ResolveTables(payer: Pubkey, intents: seq<UserIntent>, order: seq<Pubkey>, now: int, later: int)
      returns (resolution: Resolution)
      requires Valid() && Enumerates(order, payer, AllMetas(intents))
      modifies this
      ensures Valid()
      ensures resolution.(cacheHit := false) == Uncached(policy, hasher, RecordsIn(order, AllMetas(intents)))
      ensures (cache, resolution) == Step(policy, hasher, ttl, old(cache), Call(RecordsIn(order, AllMetas(intents)), now, later))
      ensures metrics == Counted(old(metrics), resolution)
    {
      var usage := BuildKeyUsage(payer, intents);
      assert forall i | 0 <= i < |order| :: order[i] in order;
      var entries := seq(|order|, i requires 0 <= i < |order| && order[i] in usage => usage[order[i]]);
      assert entries == RecordsIn(order, AllMetas(intents));
      StepIsTransparent(policy, hasher, ttl, cache, Call(entries, now, later));
      resolution := ComputeOffloadPlan(entries, now, later);
      metrics := Counted(metrics, resolution);
    }
  }
}
