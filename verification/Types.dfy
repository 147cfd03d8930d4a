/** The data the planner works on: keys, instructions and intents.
    A key is wrapped in a datatype so that proofs compare keys, not byte sequences. */
module Types {
  datatype Option<+T> = None | Some(value: T)

  datatype Result<+T, +E> = Ok(value: T) | Err(error: E)

  type Byte = b: int | 0 <= b < 256

  datatype Key = Key(bytes: seq<Byte>)

  type Pubkey = k: Key | |k.bytes| == 32 witness Key(seq(32, _ => 0))

  datatype AccessKind = ReadOnly | Writable

  datatype AccountAccess = AccountAccess(pubkey: Pubkey, access: AccessKind)

  datatype AccountMeta = AccountMeta(pubkey: Pubkey, isSigner: bool, isWritable: bool)

  datatype Instruction = Instruction(programId: Pubkey, accounts: seq<AccountMeta>, data: seq<Byte>)

  datatype UserIntent = UserIntent(
    actor: Pubkey,
    ix: Instruction,
    accesses: seq<AccountAccess>,
    priority: Byte,
    expiresAtSlot: Option<nat>)

  type NodeId = nat

  /** A key whose 32 bytes are all `b`; used by the concrete witnesses. */
  function UniformKey(b: Byte): Pubkey {
    Key(seq(32, _ => b))
  }

  lemma UniformKeysDiffer(a: Byte, b: Byte)
    requires a != b
    ensures UniformKey(a) != UniformKey(b)
  {
    assert UniformKey(a).bytes[0] == a;
    assert UniformKey(b).bytes[0] == b;
  }
}
