/** Why the packer's optimality asks for intents without repeated keys. */
module RepeatedKeys {
  import opened Types
  import opened Packing
  import opened Chunking
  import opened ChunkLaws

  /** Room for everything but a third key. */
  const TWO_KEYS := TxBudget(10_000, 64, 2, 30, 1_200_000, 25_000)

  /** The item of an intent for program `program` with these accounts and no data. */
  function Calling(node: NodeId, program: Byte, accounts: seq<KeyMeta>): Item {
    Item(node, Footprint([KeyMeta(UniformKey(program), false)] + accounts, 3 + |accounts|, 25_000))
  }

  function CallIntent(program: Byte, accounts: seq<AccountMeta>): UserIntent {
    UserIntent(UniformKey(9), Instruction(UniformKey(program), accounts, []), [], 0, None)
  }

  function CallIntents(): seq<UserIntent> {
    [CallIntent(0, []), CallIntent(1, []), CallIntent(2, []), CallIntent(1, [AccountMeta(UniformKey(1), false, false)])]
  }

  /** The items are those the planner makes of the four intents. */
  lemma CallsAreItems()
    ensures ItemsOf([0, 1, 2, 3], CallIntents(), TWO_KEYS, BasicOracle) == Calls()
  {
    var items := ItemsOf([0, 1, 2, 3], CallIntents(), TWO_KEYS, BasicOracle);
    forall i | 0 <= i < 4 ensures items[i].fp.keys == Calls()[i].fp.keys {
      assert items[i].fp == FootprintOf(CallIntents()[i], TWO_KEYS, BasicOracle);
    }
    assert AccountCu([]) == 0;
  }

  /** Three programs called in turn, and then the second one with its own key passed as an account. */
  function Calls(): seq<Item> {
    [Calling(0, 0, []), Calling(1, 1, []), Calling(2, 2, []), Calling(3, 1, [KeyMeta(UniformKey(1), false)])]
  }

  predicate Modest(block: Block) {
    |block| <= 3 && forall i | 0 <= i < |block| :: 1 <= |block[i].fp.keys| <= 2 && block[i].fp.instrBytes <= 4 && block[i].fp.cu == 25_000
  }

  lemma {:induction false} ModestTotals(block: Block)
    requires Modest(block)
    ensures TotalSelf(block, DEFAULT_ALT) <= 68 * |block| && TotalCu(block) == 25_000 * |block|
  {
    if block != [] {
      ModestTotals(block[..|block| - 1]);
    }
  }

  /** With this budget only the number of keys decides. */
  lemma OnlyKeysCount(block: Block, x: Item)
    requires Modest(block) && Modest([x])
    ensures Accepts(TWO_KEYS, DEFAULT_ALT)(block, x) <==> |BlockKeys(block)| + CountNew(BlockKeys(block), x.fp.keys) <= 2
  {
    var a := Fold(block, TWO_KEYS, DEFAULT_ALT);
    RecordedForBlock(block, TWO_KEYS, DEFAULT_ALT);
    ModestTotals(block);
    assert a.keys.message == BlockKeys(block) && a.keys.All() == BlockKeys(block);
    assert [x][0] == x;
    assert a.bytes <= 400 && AddBytes(a.keys, a.instrs, x.fp, DEFAULT_ALT) <= 100;
  }

  lemma {:induction false} BlockKeysPair(x: Item, y: Item)
    ensures BlockKeys([x]) == KeySet(x.fp.keys) && BlockKeys([x, y]) == KeySet(x.fp.keys) + KeySet(y.fp.keys)
  {
    assert [x][..0] == [] && [x, y][..1] == [x];
  }

  lemma KeysOfCalls()
    ensures KeySet(Calling(0, 0, []).fp.keys) == {UniformKey(0)} && KeySet(Calling(1, 1, []).fp.keys) == {UniformKey(1)}
    ensures KeySet(Calling(2, 2, []).fp.keys) == {UniformKey(2)}
    ensures UniformKey(0) != UniformKey(1) && UniformKey(0) != UniformKey(2) && UniformKey(1) != UniformKey(2)
  {
    UniformKeysDiffer(0, 1);
    UniformKeysDiffer(0, 2);
    UniformKeysDiffer(1, 2);
  }

  lemma CountRepeated(known: set<Pubkey>)
    ensures CountNew(known, Calls()[3].fp.keys) == if UniformKey(1) in known then 0 else 2
  {
    var m := KeyMeta(UniformKey(1), false);
    assert [m] + [m] == [m, m] && [m, m][..1] == [m] && [m][..0] == [];
    assert CountNew(known, [m]) == if UniformKey(1) in known then 0 else 1;
  }

  lemma CallsRuleSingle()
    ensures var ok, w, x, y := Accepts(TWO_KEYS, DEFAULT_ALT), Calls()[0], Calls()[1], Calls()[2];
      ok([w], x) && ok([x], y)
  {
    var w, x, y := Calls()[0], Calls()[1], Calls()[2];
    KeysOfCalls();
    BlockKeysPair(w, x);
    BlockKeysPair(x, y);
    OnlyKeysCount([w], x);
    OnlyKeysCount([x], y);
  }

  lemma CallsRuleRepeated()
    ensures !Accepts(TWO_KEYS, DEFAULT_ALT)([Calls()[2]], Calls()[3])
  {
    KeysOfCalls();
    BlockKeysPair(Calls()[2], Calls()[3]);
    CountRepeated(BlockKeys([Calls()[2]]));
    OnlyKeysCount([Calls()[2]], Calls()[3]);
  }

  lemma CallsRulePair()
    ensures !Accepts(TWO_KEYS, DEFAULT_ALT)([Calls()[0], Calls()[1]], Calls()[2])
  {
    var w, x, y := Calls()[0], Calls()[1], Calls()[2];
    KeysOfCalls();
    BlockKeysPair(w, x);
    OnlyKeysCount([w, x], y);
  }

  lemma CallsRuleOwnKey()
    ensures Accepts(TWO_KEYS, DEFAULT_ALT)([Calls()[1], Calls()[2]], Calls()[3])
  {
    var x, y, z := Calls()[1], Calls()[2], Calls()[3];
    KeysOfCalls();
    BlockKeysPair(x, y);
    CountRepeated(BlockKeys([x, y]));
    OnlyKeysCount([x, y], z);
  }

  lemma CallsFit()
    ensures forall i | 0 <= i < 4 :: FitsInEmpty(Calls()[i].fp, TWO_KEYS, DEFAULT_ALT)
  {
  }

  lemma PackFour<T>(ok: Rule<T>, w: T, x: T, y: T, z: T)
    requires ok([w], x) && !ok([w, x], y) && !ok([y], z)
    ensures Pack(ok, [w, x, y, z], []) == [[w, x], [y], [z]]
  {
    assert [w, x, y, z][1..] == [x, y, z] && [x, y, z][1..] == [y, z] && [y, z][1..] == [z] && [z][1..] == [];
    assert [] + [w] == [w] && [w] + [x] == [w, x];
    assert Pack(ok, [z], [y]) == [[y]] + Pack(ok, [], [z]);
    assert Pack(ok, [y, z], [w, x]) == [[w, x]] + Pack(ok, [z], [y]);
    assert Pack(ok, [x, y, z], [w]) == Pack(ok, [y, z], [w, x]);
  }

  lemma CutInTwo<T>(ok: Rule<T>, w: T, x: T, y: T, z: T)
    requires ok([x], y) && ok([x, y], z)
    ensures IsCut(ok, [[w], [x, y, z]], [w, x, y, z])
  {
    var two := [[w], [x, y, z]];
    assert [x, y, z][..1] == [x] && [x, y, z][..2] == [x, y];
    assert two[1..] == [[x, y, z]] && two[1..][1..] == [];
    assert Joined(two[1..]) == [x, y, z];
  }

  /** An intent that repeats a key can cost the packer a chunk: it cuts these four intents into three chunks
      although two accepted blocks hold them. */
  lemma RepeatedKeyCostsChunk()
    ensures var ok, items := Accepts(TWO_KEYS, DEFAULT_ALT), ItemsOf([0, 1, 2, 3], CallIntents(), TWO_KEYS, BasicOracle);
      && (forall i | 0 <= i < |items| :: FitsInEmpty(items[i].fp, TWO_KEYS, DEFAULT_ALT))
      && IsCut(ok, [items[..1], items[1..]], items) && |Pack(ok, items, [])| == 3
  {
    var ok, items := Accepts(TWO_KEYS, DEFAULT_ALT), Calls();
    CallsAreItems();
    CallsRuleSingle();
    CallsRuleRepeated();
    CallsRulePair();
    CallsRuleOwnKey();
    CallsFit();
    PackFour(ok, items[0], items[1], items[2], items[3]);
    CutInTwo(ok, items[0], items[1], items[2], items[3]);
    assert items[..1] == [items[0]] && items[1..] == [items[1], items[2], items[3]];
  }
}
