/** A byte memory as a sequence; addresses outside it read as zero and are not written. */
module ByteMemory {

  function Peek(mem: seq<int>, address: int): int {
    if 0 <= address < |mem| then mem[address] else 0
  }

  function Poke(mem: seq<int>, address: int, value: int): (r: seq<int>)
    ensures |r| == |mem|
  {
    if 0 <= address < |mem| then mem[address := value] else mem
  }
}
