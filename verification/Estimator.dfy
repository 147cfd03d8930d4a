/** The reference size of a v0 message, as the estimator computes it. */
module Estimator {
  import opened Types
  import opened Shortvec

  /** Static keys in the message, (readonly, writable) index counts per lookup table, and instructions. */
  datatype V0MessageShape = V0MessageShape(messageKeys: nat, lookupTables: seq<(nat, nat)>, instrCount: nat)

  function CompiledIxBytes(ix: Instruction): nat {
    1 + TableLen(|ix.accounts|) + |ix.accounts| + TableLen(|ix.data|) + |ix.data|
  }

  function SumCompiledIxBytes(ixs: seq<Instruction>): nat {
    if ixs == [] then 0 else SumCompiledIxBytes(ixs[..|ixs| - 1]) + CompiledIxBytes(ixs[|ixs| - 1])
  }

  function LookupBytes(tables: seq<(nat, nat)>): nat {
    if tables == [] then 0
    else
      var (ro, wr) := tables[|tables| - 1];
      LookupBytes(tables[..|tables| - 1]) + 32 + (TableLen(ro) + ro) + (TableLen(wr) + wr)
  }

  function MessageBytes(ixs: seq<Instruction>, shape: V0MessageShape): nat {
    3 + 32 + TableLen(shape.messageKeys) + 32 * shape.messageKeys
      + TableLen(|shape.lookupTables|) + LookupBytes(shape.lookupTables)
      + TableLen(shape.instrCount) + SumCompiledIxBytes(ixs)
  }

  method EstimateMessageV0Bytes(ixs: seq<Instruction>, shape: V0MessageShape) returns (bytes: nat)
    ensures bytes == MessageBytes(ixs, shape)
  {
    var lookupBytes := 0;
    for i := 0 to |shape.lookupTables|
      invariant lookupBytes == LookupBytes(shape.lookupTables[..i])
    {
      assert shape.lookupTables[..i + 1][..i] == shape.lookupTables[..i];
      var (ro, wr) := shape.lookupTables[i];
      lookupBytes := lookupBytes + 32;
      lookupBytes := lookupBytes + TableLen(ro) + ro;
      lookupBytes := lookupBytes + TableLen(wr) + wr;
    }
    assert shape.lookupTables[..|shape.lookupTables|] == shape.lookupTables;
    bytes := 3 + 32 + TableLen(shape.messageKeys) + shape.messageKeys * 32
      + TableLen(|shape.lookupTables|) + lookupBytes + TableLen(shape.instrCount) + SumCompiledIxBytes(ixs);
  }
}
