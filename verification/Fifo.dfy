/** The actuator FIFO as a writer sees it. */
module Fifo {
  import opened Bytes

  /** What one os.write does: raise, or take the first n bytes of the payload. */
  datatype WriteReturn = WriteRaises | Wrote(n: nat)

  function Delivered(payload: seq<byte>, ret: WriteReturn): seq<byte> {
    match ret
    case WriteRaises => []
    case Wrote(n) => if n < |payload| then payload[..n] else payload
  }

  function Count(payload: seq<byte>, ret: WriteReturn): (n: nat)
    ensures n == |Delivered(payload, ret)|
  {
    match ret
    case WriteRaises => 0
    case Wrote(n) => if n < |payload| then n else |payload|
  }

  /** The bytes written so far; calls counts the os.write calls. */
  class FifoFile {
    var bytes: seq<byte>
    ghost var calls: nat

    constructor ()
      ensures bytes == [] && calls == 0
    {
      bytes := [];
      calls := 0;
    }

    method Write(payload: seq<byte>, ret: WriteReturn) returns (n: nat)
      modifies this
      ensures calls == old(calls) + 1 && bytes == old(bytes) + Delivered(payload, ret)
      ensures n == Count(payload, ret)
    {
      bytes := bytes + Delivered(payload, ret);
      calls := calls + 1;
      n := Count(payload, ret);
    }
  }
}
