/** The greedy packer that cuts a layer into chunks under byte, key, instruction and compute budgets. */
module Chunking {
  import opened Types
  import opened Shortvec
  import opened Packing

  datatype TxBudget = TxBudget(
    maxBytes: nat, byteSlack: nat, maxUniqueAccounts: nat,
    maxInstructions: nat, maxCu: nat, defaultCuPerIntent: nat)

  datatype AltPolicy = AltPolicy(
    enabled: bool, reserveMessageKeys: nat, maxAltKeys: nat,
    tableCountEstimate: nat, perTableFixedBytes: nat, perAltIndexByte: nat)

  const DEFAULT_BUDGET := TxBudget(1200, 64, 48, 30, 1_200_000, 25_000)

  const DEFAULT_ALT := AltPolicy(false, 32, 64, 1, 34, 1)

  datatype BudgetOracle = ProgramAwareOracle | BasicOracle {
    function InstrBytes(ix: Instruction): nat {
      1 + TableLen(|ix.accounts|) + |ix.accounts| + TableLen(|ix.data|) + |ix.data|
    }

    function CuForIntent(i: UserIntent): nat {
      match this
      case ProgramAwareOracle => 12_000 + AccountCu(i.ix.accounts) + |i.ix.data| * 30
      case BasicOracle => 0
    }
  }

  function AccountCu(accounts: seq<AccountMeta>): nat {
    if accounts == [] then 0
    else AccountCu(accounts[..|accounts| - 1]) + if accounts[|accounts| - 1].isWritable then 2_500 else 1_000
  }

  datatype KeyMeta = KeyMeta(pubkey: Pubkey, writable: bool)

  /** What one intent brings: its program key and account keys, its compiled bytes and its compute units. */
  datatype Footprint = Footprint(keys: seq<KeyMeta>, instrBytes: nat, cu: nat) {
    function MessageUniqueLen(alt: AltPolicy): nat {
      if !alt.enabled then |keys| else Min(|keys|, alt.reserveMessageKeys)
    }

    function AltUniqueLen(alt: AltPolicy): nat {
      if !alt.enabled then 0 else SaturatingSub(|keys|, alt.reserveMessageKeys)
    }

    function SelfBytes(alt: AltPolicy): nat {
      MessageUniqueLen(alt) * 32 + instrBytes + AltUniqueLen(alt) * alt.perAltIndexByte
    }
  }

  function Min(a: nat, b: nat): nat { if a <= b then a else b }

  function SaturatingSub(a: nat, b: nat): nat { if a >= b then a - b else 0 }

  function FootprintOf(i: UserIntent, budget: TxBudget, oracle: BudgetOracle): (fp: Footprint) {
    var metas := seq(|i.ix.accounts|, k requires 0 <= k < |i.ix.accounts| =>
      KeyMeta(i.ix.accounts[k].pubkey, i.ix.accounts[k].isWritable));
    var cu := oracle.CuForIntent(i);
    Footprint([KeyMeta(i.ix.programId, false)] + metas, oracle.InstrBytes(i.ix),
      if cu == 0 then budget.defaultCuPerIntent else cu)
  }

  const BASE_MESSAGE_OVERHEAD: nat := 3 + 32

  function DeltaSv(before: nat, after: nat): nat {
    SaturatingSub(TableLen(after), TableLen(before))
  }

  function SizeIfOnlyThis(fp: Footprint, budget: TxBudget, alt: AltPolicy): nat {
    var tableCount := if alt.enabled && fp.AltUniqueLen(alt) > 0 then alt.tableCountEstimate else 0;
    BASE_MESSAGE_OVERHEAD + budget.byteSlack + TableLen(fp.MessageUniqueLen(alt)) + TableLen(tableCount) + TableLen(1)
      + fp.SelfBytes(alt) + tableCount * alt.perTableFixedBytes
  }

  predicate FitsInEmpty(fp: Footprint, budget: TxBudget, alt: AltPolicy) {
    && SizeIfOnlyThis(fp, budget, alt) <= budget.maxBytes
    && fp.MessageUniqueLen(alt) <= budget.maxUniqueAccounts
    && fp.AltUniqueLen(alt) <= alt.maxAltKeys
    && 1 <= budget.maxInstructions
    && fp.cu <= budget.maxCu
  }

  datatype PlannedChunk = PlannedChunk(nodeIds: seq<NodeId>, estCu: nat, estMessageBytes: nat, altReadonly: nat, altWritable: nat)

  datatype ChunkError = IntentTooLarge(nodeId: NodeId, bytes: nat, messageUnique: nat, altUnique: nat, cu: nat)

  // ---------------------------------------------------------------------------
  // The accumulator as a value
  // ---------------------------------------------------------------------------

  /** Where the keys of a chunk go: into the message, or into lookup tables (there read-only or writable). */
  datatype Keys = Keys(message: set<Pubkey>, tables: set<Pubkey>, tablesRo: set<Pubkey>, tablesWr: set<Pubkey>) {
    function All(): set<Pubkey> {
      message + tables
    }
  }

  datatype Acc = Acc(nodes: seq<NodeId>, keys: Keys, bytes: nat, cu: nat, instrs: nat, altUsed: bool)

  function EmptyAcc(budget: TxBudget): Acc {
    Acc([], Keys({}, {}, {}, {}), BASE_MESSAGE_OVERHEAD + budget.byteSlack + TableLen(0) + TableLen(0) + TableLen(0), 0, 0, false)
  }

  /** How many entries of `keys` are not in `known`; a repeated key counts every time. */
  function CountNew(known: set<Pubkey>, keys: seq<KeyMeta>): nat {
    if keys == [] then 0
    else CountNew(known, keys[..|keys| - 1]) + if keys[|keys| - 1].pubkey in known then 0 else 1
  }

  /** New keys are all counted for the message while it has reserved room, and all for the tables afterwards. */
  predicate MessageHasRoom(k: Keys, alt: AltPolicy) {
    alt.enabled ==> |k.message| < alt.reserveMessageKeys
  }

  function NewMessageKeys(k: Keys, fp: Footprint, alt: AltPolicy): nat {
    if MessageHasRoom(k, alt) then CountNew(k.All(), fp.keys) else 0
  }

  function NewAltKeys(k: Keys, fp: Footprint, alt: AltPolicy): nat {
    if MessageHasRoom(k, alt) then 0 else CountNew(k.All(), fp.keys)
  }

  predicate AltFirstUsed(k: Keys, fp: Footprint, alt: AltPolicy) {
    alt.enabled && k.tables == {} && NewAltKeys(k, fp, alt) > 0
  }

  /** What the first use of tables adds, by the policy's estimate. */
  function TableSetup(alt: AltPolicy): nat {
    DeltaSv(0, alt.tableCountEstimate) + alt.tableCountEstimate * alt.perTableFixedBytes
  }

  function AddBytes(k: Keys, instrs: nat, fp: Footprint, alt: AltPolicy): nat {
    fp.SelfBytes(alt)
      + DeltaSv(|k.message|, |k.message| + NewMessageKeys(k, fp, alt))
      + DeltaSv(instrs, instrs + 1)
      + if AltFirstUsed(k, fp, alt) then TableSetup(alt) else 0
  }

  predicate CanAdd(a: Acc, fp: Footprint, budget: TxBudget, alt: AltPolicy) {
    && a.bytes + AddBytes(a.keys, a.instrs, fp, alt) <= budget.maxBytes
    && |a.keys.message| + NewMessageKeys(a.keys, fp, alt) <= budget.maxUniqueAccounts
    && |a.keys.tables| + NewAltKeys(a.keys, fp, alt) <= alt.maxAltKeys
    && a.instrs + 1 <= budget.maxInstructions
    && a.cu + fp.cu <= budget.maxCu
  }

  function InsertKey(k: Keys, m: KeyMeta, alt: AltPolicy): Keys {
    if m.pubkey in k.message || m.pubkey in k.tables then k
    else if alt.enabled && |k.message| >= alt.reserveMessageKeys then
      Keys(k.message, k.tables + {m.pubkey},
        if m.writable then k.tablesRo else k.tablesRo + {m.pubkey},
        if m.writable then k.tablesWr + {m.pubkey} else k.tablesWr)
    else k.(message := k.message + {m.pubkey})
  }

  function InsertKeys(k: Keys, metas: seq<KeyMeta>, alt: AltPolicy): Keys {
    if metas == [] then k
    else InsertKey(InsertKeys(k, metas[..|metas| - 1], alt), metas[|metas| - 1], alt)
  }

  /** Keys go in first, so the byte count is taken when no key of `fp` is new any more. */
  function AddTo(a: Acc, nid: NodeId, fp: Footprint, alt: AltPolicy): Acc {
    var k := InsertKeys(a.keys, fp.keys, alt);
    Acc(a.nodes + [nid], k, a.bytes + AddBytes(k, a.instrs, fp, alt), a.cu + fp.cu, a.instrs + 1,
      a.altUsed || AltFirstUsed(k, fp, alt))
  }

  function Planned(a: Acc): PlannedChunk {
    PlannedChunk(a.nodes, a.cu, a.bytes, |a.keys.tablesRo|, |a.keys.tablesWr|)
  }

  // ---------------------------------------------------------------------------
  // Packing as a function
  // ---------------------------------------------------------------------------

  /** One intent of the layer with its footprint. A block is what ends up in one chunk. */
  datatype Item = Item(node: NodeId, fp: Footprint)

  type Block = seq<Item>

  function Fold(block: Block, budget: TxBudget, alt: AltPolicy): Acc {
    if block == [] then EmptyAcc(budget)
    else
      var last := block[|block| - 1];
      AddTo(Fold(block[..|block| - 1], budget, alt), last.node, last.fp, alt)
  }

  /** The rule by which a chunk grows: its accumulator can add the footprint. */
  function Accepts(budget: TxBudget, alt: AltPolicy): Rule<Item> {
    (block: Block, x: Item) => CanAdd(Fold(block, budget, alt), x.fp, budget, alt)
  }

  function PlannedBlocks(blocks: seq<Block>, budget: TxBudget, alt: AltPolicy): (r: seq<PlannedChunk>)
    ensures |r| == |blocks|
  {
    seq(|blocks|, i requires 0 <= i < |blocks| => Planned(Fold(blocks[i], budget, alt)))
  }

  function ItemsOf(layer: seq<NodeId>, intents: seq<UserIntent>, budget: TxBudget, oracle: BudgetOracle): (items: seq<Item>)
    requires forall i | 0 <= i < |layer| :: layer[i] < |intents|
    ensures |items| == |layer|
    ensures forall i | 0 <= i < |layer| :: items[i] == Item(layer[i], FootprintOf(intents[layer[i]], budget, oracle))
  {
    seq(|layer|, i requires 0 <= i < |layer| => Item(layer[i], FootprintOf(intents[layer[i]], budget, oracle)))
  }

  function TooLarge(item: Item, budget: TxBudget, alt: AltPolicy): ChunkError {
    IntentTooLarge(item.node, SizeIfOnlyThis(item.fp, budget, alt),
      item.fp.MessageUniqueLen(alt), item.fp.AltUniqueLen(alt), item.fp.cu)
  }

  // ---------------------------------------------------------------------------
  // The accumulator as it runs
  // ---------------------------------------------------------------------------

  class ChunkAccumulator {
    const budget: TxBudget
    const alt: AltPolicy
    var nodes: seq<NodeId>
    var messageKeys: set<Pubkey>
    var altKeys: set<Pubkey>
    var altRoKeys: set<Pubkey>
    var altWrKeys: set<Pubkey>
    var bytes: nat
    var cu: nat
    var instrs: nat
    var altUsed: bool

    function KeyTable(): Keys
      reads this
    {
      Keys(messageKeys, altKeys, altRoKeys, altWrKeys)
    }

    function View(): Acc
      reads this
    {
      Acc(nodes, KeyTable(), bytes, cu, instrs, altUsed)
    }

    constructor (budget: TxBudget, alt: AltPolicy)
      ensures this.budget == budget && this.alt == alt && View() == EmptyAcc(budget)
    {
      this.budget := budget;
      this.alt := alt;
      nodes := [];
      messageKeys, altKeys, altRoKeys, altWrKeys := {}, {}, {}, {};
      bytes := BASE_MESSAGE_OVERHEAD + budget.byteSlack + TableLen(0) + TableLen(0) + TableLen(0);
      cu, instrs, altUsed := 0, 0, false;
    }

    method Reset()
      modifies this
      ensures View() == EmptyAcc(budget)
    {
      nodes := [];
      messageKeys, altKeys, altRoKeys, altWrKeys := {}, {}, {}, {};
      bytes := BASE_MESSAGE_OVERHEAD + budget.byteSlack + TableLen(0) + TableLen(0) + TableLen(0);
      cu, instrs, altUsed := 0, 0, false;
    }

    /** Counts the keys of `fp` that are new, on the message side and on the table side. */
    method CountNewKeys(fp: Footprint) returns (newMessageKeys: nat, newAltKeys: nat)
      ensures newMessageKeys == NewMessageKeys(KeyTable(), fp, alt)
      ensures newAltKeys == NewAltKeys(KeyTable(), fp, alt)
    {
      newMessageKeys, newAltKeys := 0, 0;
      ghost var known := messageKeys + altKeys;
      for i := 0 to |fp.keys|
        invariant newMessageKeys == if MessageHasRoom(KeyTable(), alt) then CountNew(known, fp.keys[..i]) else 0
        invariant newAltKeys == if MessageHasRoom(KeyTable(), alt) then 0 else CountNew(known, fp.keys[..i])
      {
        assert fp.keys[..i + 1][..i] == fp.keys[..i];
        var key := fp.keys[i].pubkey;
        if !(key in messageKeys || key in altKeys) {
          if alt.enabled {
            var used := Min(|messageKeys|, alt.reserveMessageKeys);
            if used < alt.reserveMessageKeys {
              newMessageKeys := newMessageKeys + 1;
            } else {
              newAltKeys := newAltKeys + 1;
            }
          } else {
            newMessageKeys := newMessageKeys + 1;
          }
        }
      }
      assert fp.keys[..|fp.keys|] == fp.keys;
    }

    method DeltasFor(fp: Footprint) returns (addBytes: nat, addUniqueTotal: nat, addInstrs: nat, addCu: nat, altFirst: bool)
      ensures addBytes == AddBytes(KeyTable(), instrs, fp, alt)
      ensures addUniqueTotal == NewMessageKeys(KeyTable(), fp, alt) + NewAltKeys(KeyTable(), fp, alt)
      ensures addInstrs == 1 && addCu == fp.cu
      ensures altFirst == AltFirstUsed(KeyTable(), fp, alt)
    {
      var newMessageKeys, newAltKeys := CountNewKeys(fp);
      addBytes := fp.SelfBytes(alt);
      addBytes := addBytes + DeltaSv(|messageKeys|, |messageKeys| + newMessageKeys);
      addBytes := addBytes + DeltaSv(instrs, instrs + 1);
      altFirst := alt.enabled && altKeys == {} && newAltKeys > 0;
      if altFirst {
        addBytes := addBytes + DeltaSv(0, alt.tableCountEstimate);
        addBytes := addBytes + alt.tableCountEstimate * alt.perTableFixedBytes;
      }
      addUniqueTotal, addInstrs, addCu := newMessageKeys + newAltKeys, 1, fp.cu;
    }

    method MayAdd(fp: Footprint) returns (ok: bool)
      ensures ok == CanAdd(View(), fp, budget, alt)
    {
      var addBytes, addUniqueTotal, addInstrs, addCu, _ := DeltasFor(fp);
      var prospectiveMessageKeys, prospectiveAltKeys := |messageKeys| + addUniqueTotal, |altKeys|;
      if alt.enabled {
        var newMessageKeys, newAltKeys := CountNewKeys(fp);
        prospectiveMessageKeys, prospectiveAltKeys := |messageKeys| + newMessageKeys, |altKeys| + newAltKeys;
      }
      ok := bytes + addBytes <= budget.maxBytes
            && prospectiveMessageKeys <= budget.maxUniqueAccounts
            && prospectiveAltKeys <= alt.maxAltKeys
            && instrs + addInstrs <= budget.maxInstructions
            && cu + addCu <= budget.maxCu;
    }

    method PlaceKey(m: KeyMeta)
      modifies `messageKeys, `altKeys, `altRoKeys, `altWrKeys
      ensures KeyTable() == InsertKey(old(KeyTable()), m, alt)
    {
      var key := m.pubkey;
      if key in messageKeys || key in altKeys {
        return;
      }
      var used := Min(|messageKeys|, alt.reserveMessageKeys);
      if alt.enabled && used >= alt.reserveMessageKeys {
        altKeys := altKeys + {key};
        if m.writable {
          altWrKeys := altWrKeys + {key};
        } else {
          altRoKeys := altRoKeys + {key};
        }
      } else {
        messageKeys := messageKeys + {key};
      }
    }

    method PlaceKeys(fp: Footprint)
      modifies `messageKeys, `altKeys, `altRoKeys, `altWrKeys
      ensures KeyTable() == InsertKeys(old(KeyTable()), fp.keys, alt)
    {
      for i := 0 to |fp.keys|
        invariant KeyTable() == InsertKeys(old(KeyTable()), fp.keys[..i], alt)
      {
        assert fp.keys[..i + 1][..i] == fp.keys[..i];
        PlaceKey(fp.keys[i]);
      }
      assert fp.keys[..|fp.keys|] == fp.keys;
    }

    /** Counts `fp` in, its keys being in place. */
    method Charge(fp: Footprint)
      modifies `bytes, `instrs, `cu, `altUsed
      ensures View() == old(View()).(bytes := old(bytes) + AddBytes(old(KeyTable()), old(instrs), fp, alt), cu := old(cu) + fp.cu,
        instrs := old(instrs) + 1, altUsed := old(altUsed) || AltFirstUsed(old(KeyTable()), fp, alt))
    {
      var addBytes, _, addInstrs, addCu, altFirst := DeltasFor(fp);
      bytes := bytes + addBytes;
      instrs := instrs + addInstrs;
      cu := cu + addCu;
      if altFirst {
        altUsed := true;
      }
    }

    method Add(nid: NodeId, fp: Footprint)
      modifies this
      ensures View() == AddTo(old(View()), nid, fp, alt)
    {
      PlaceKeys(fp);
      Charge(fp);
      nodes := nodes + [nid];
    }

    method TakePlannedChunk() returns (chunk: PlannedChunk)
      modifies this
      ensures chunk == Planned(old(View()))
      ensures View() == old(View()).(nodes := [])
    {
      chunk := PlannedChunk(nodes, cu, bytes, |altRoKeys|, |altWrKeys|);
      nodes := [];
    }

    /** Adds an intent, first closing the chunk when the intent does not fit it. */
    method Place(nid: NodeId, fp: Footprint, chunks: seq<PlannedChunk>) returns (chunks': seq<PlannedChunk>, closed: bool)
      modifies this
      ensures closed <==> !CanAdd(old(View()), fp, budget, alt) && old(nodes) != []
      ensures chunks' == if closed then chunks + [Planned(old(View()))] else chunks
      ensures View() == AddTo(if closed then EmptyAcc(budget) else old(View()), nid, fp, alt)
    {
      chunks', closed := chunks, false;
      var fits := MayAdd(fp);
      if !fits && nodes != [] {
        var chunk := TakePlannedChunk();
        chunks' := chunks' + [chunk];
        Reset();
        closed := true;
      }
      Add(nid, fp);
    }
  }

  method Footprints(layer: seq<NodeId>, intents: seq<UserIntent>, budget: TxBudget, oracle: BudgetOracle) returns (fps: seq<Footprint>)
    requires forall i | 0 <= i < |layer| :: layer[i] < |intents|
    ensures |fps| == |layer| && forall i | 0 <= i < |layer| :: fps[i] == FootprintOf(intents[layer[i]], budget, oracle)
  {
    fps := [];
    for i := 0 to |layer|
      invariant |fps| == i && forall j | 0 <= j < i :: fps[j] == FootprintOf(intents[layer[j]], budget, oracle)
    {
      fps := fps + [FootprintOf(intents[layer[i]], budget, oracle)];
    }
  }

  /** Intent `i` of the layer is the first that exceeds the budgets on its own. */
  ghost predicate FirstTooLarge(items: seq<Item>, i: int, budget: TxBudget, alt: AltPolicy) {
    0 <= i < |items| && !FitsInEmpty(items[i].fp, budget, alt) && forall j | 0 <= j < i :: FitsInEmpty(items[j].fp, budget, alt)
  }

  /** One turn of the loop: the open chunk takes the intent, or is closed and a new one takes it. */
  method FillOne(cur: ChunkAccumulator, ghost items: seq<Item>, ghost i: nat, ghost blocks: seq<Block>, ghost block: Block,
                 chunks: seq<PlannedChunk>, nid: NodeId, fp: Footprint)
    returns (chunks': seq<PlannedChunk>, ghost blocks': seq<Block>, ghost block': Block)
    requires i < |items| && items[i] == Item(nid, fp)
    requires Filling(items, i, blocks, block, chunks, cur.View(), cur.budget, cur.alt)
    modifies cur
    ensures Filling(items, i + 1, blocks', block', chunks', cur.View(), cur.budget, cur.alt)
  {
    var closed: bool;
    chunks', closed := cur.Place(nid, fp, chunks);
    blocks', block' := blocks, block + [items[i]];
    if closed {
      blocks', block' := blocks + [block], [items[i]];
    }
  }

  /** Cuts a layer into chunks, or reports the first intent that exceeds the budgets on its own. */
  method ChunkLayerWith(layer: seq<NodeId>, intents: seq<UserIntent>, budget: TxBudget, alt: AltPolicy, oracle: BudgetOracle)
    returns (r: Result<seq<PlannedChunk>, ChunkError>)
    requires forall i | 0 <= i < |layer| :: layer[i] < |intents|
    ensures var items := ItemsOf(layer, intents, budget, oracle);
      match r
      case Ok(chunks) =>
        && (forall i | 0 <= i < |items| :: FitsInEmpty(items[i].fp, budget, alt))
        && chunks == PlannedBlocks(Pack(Accepts(budget, alt), items, []), budget, alt)
      case Err(e) => exists i :: FirstTooLarge(items, i, budget, alt) && e == TooLarge(items[i], budget, alt)
  {
    var fps := Footprints(layer, intents, budget, oracle);
    ghost var items := ItemsOf(layer, intents, budget, oracle);
    ghost var blocks: seq<Block>, cur': Block := [], [];
    var chunks: seq<PlannedChunk> := [];
    var cur := new ChunkAccumulator(budget, alt);
    for i := 0 to |layer|
      invariant cur.budget == budget && cur.alt == alt && fresh(cur)
      invariant forall j | 0 <= j < i :: FitsInEmpty(items[j].fp, budget, alt)
      invariant Filling(items, i, blocks, cur', chunks, cur.View(), budget, alt)
    {
      var fp, nid := fps[i], layer[i];
      assert items[i] == Item(nid, fp);
      if !FitsInEmpty(fp, budget, alt) {
        assert FirstTooLarge(items, i, budget, alt);
        return Err(IntentTooLarge(nid, SizeIfOnlyThis(fp, budget, alt), fp.MessageUniqueLen(alt), fp.AltUniqueLen(alt), fp.cu));
      }
      chunks, blocks, cur' := FillOne(cur, items, i, blocks, cur', chunks, nid, fp);
    }

    FillEnd(items, blocks, cur', chunks, cur.View(), budget, alt);
    if cur.nodes != [] {
      var chunk := cur.TakePlannedChunk();
      chunks := chunks + [chunk];
    }
    return Ok(chunks);
  }

  /** After `i` items: `blocks` are closed and planned, `cur` is open, and packing the rest completes the packing of all. */
  ghost predicate Filling(items: seq<Item>, i: nat, blocks: seq<Block>, cur: Block, chunks: seq<PlannedChunk>, view: Acc, budget: TxBudget, alt: AltPolicy)
    requires i <= |items|
  {
    && view == Fold(cur, budget, alt)
    && chunks == PlannedBlocks(blocks, budget, alt)
    && Pack(Accepts(budget, alt), items, []) == blocks + Pack(Accepts(budget, alt), items[i..], cur)
  }

  lemma FillEnd(items: seq<Item>, blocks: seq<Block>, cur: Block, chunks: seq<PlannedChunk>, view: Acc, budget: TxBudget, alt: AltPolicy)
    requires Filling(items, |items|, blocks, cur, chunks, view, budget, alt)
    ensures PlannedBlocks(Pack(Accepts(budget, alt), items, []), budget, alt) == if view.nodes == [] then chunks else chunks + [Planned(view)]
  {
    assert items[|items|..] == [];
    PlannedSnoc(blocks, cur, budget, alt);
    assert cur == [] ==> blocks + [] == blocks;
  }

  lemma PlannedSnoc(blocks: seq<Block>, block: Block, budget: TxBudget, alt: AltPolicy)
    ensures PlannedBlocks(blocks + [block], budget, alt) == PlannedBlocks(blocks, budget, alt) + [Planned(Fold(block, budget, alt))]
  {
  }

}
