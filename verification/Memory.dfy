/** The memory object with its memory-mapped print device (gp_memory.h and
    gp_memory.cpp), for an image of exactly 64 KiB. Standard output is the field `log`. */
module Memory {
  import opened Bytes
  import opened MachineModel

  const DEFAULT_OUTPUT_ADDRESS: word := 0xFFFB

  class GPMemory {
    const cells: array<byte>
    var device: word
    var log: seq<byte>

    predicate Valid() {
      cells.Length == MEMORY_SIZE
    }

    constructor (image: seq<byte>)
      requires |image| == MEMORY_SIZE
      ensures Valid() && fresh(cells)
      ensures cells[..] == image && device == DEFAULT_OUTPUT_ADDRESS && log == []
    {
      cells := new byte[|image|](i requires 0 <= i < |image| => image[i]);
      device := DEFAULT_OUTPUT_ADDRESS;
      log := [];
    }

    function Size(): nat {
      cells.Length
    }

    /** Unchecked in the program; here the bound is the caller's obligation. */
    function Read(address: int): byte
      requires 0 <= address < cells.Length
      reads cells
    {
      cells[address]
    }

    method Write(address: word, value: byte)
      requires Valid()
      modifies this`log, cells
      ensures cells[..] == old(cells[..])[address := value]
      ensures log == if address == device then old(log) + [value] else old(log)
    {
      if address == device {
        log := log + [value];
      }
      cells[address] := value;
    }

    method SetPrintDevice(address: word)
      modifies this`device
      ensures device == address
    {
      device := address;
    }
  }
}
