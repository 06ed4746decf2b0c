/** The parts of a task that the coordinator deals, the wire carries and a node parses. */
module TaskParts {
  import F = Field

  type Byte = F.Byte

  datatype ShareData = ShareData(slot: int, value: seq<Byte>)

  datatype TripleData = TripleData(A: seq<Byte>, B: seq<Byte>, C: seq<Byte>)
}
