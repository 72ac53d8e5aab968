/**
 * Memory-mapped register access of the FFT accelerator test program.
 *
 * A volatile load or store is an event the hardware observes. The model keeps
 * every access, in program order, in the trace of a `Bus`; the value a load
 * returns is the hardware's business, so it comes from a response function
 * fixed when the bus is created, which may depend on everything the bus has
 * seen before.
 */
module Mmio {

  /** One volatile access: a 32-bit or a 64-bit store or load, at an address. */
  datatype Access =
    | Store32(addr: nat, word: bv32)
    | Load32(addr: nat, word: bv32)
    | Store64(addr: nat, data: bv64)
    | Load64(addr: nat, data: bv64)

  /** The memory-mapped register space, as the ordered record of accesses made to it. */
  class Bus {
    var trace: seq<Access>
    /** What the hardware answers to a 32-bit load at an address, after a given history. */
    const respond32: (seq<Access>, nat) -> bv32
    /** What the hardware answers to a 64-bit load at an address, after a given history. */
    const respond64: (seq<Access>, nat) -> bv64

    constructor (respond32: (seq<Access>, nat) -> bv32, respond64: (seq<Access>, nat) -> bv64)
      ensures trace == []
      ensures this.respond32 == respond32 && this.respond64 == respond64
    {
      trace := [];
      this.respond32 := respond32;
      this.respond64 := respond64;
    }

    /** `*(volatile uint32_t *) addr = word`: exactly one store, after all earlier accesses. */
    method Store32(addr: nat, word: bv32)
      modifies this
      ensures trace == old(trace) + [Access.Store32(addr, word)]
    {
      trace := trace + [Access.Store32(addr, word)];
    }

    /** `*(volatile uint32_t *) addr`: exactly one load, answered by the hardware. */
    method Load32(addr: nat) returns (word: bv32)
      modifies this
      ensures word == respond32(old(trace), addr)
      ensures trace == old(trace) + [Access.Load32(addr, word)]
    {
      word := respond32(trace, addr);
      trace := trace + [Access.Load32(addr, word)];
    }

    /** `*(volatile uint64_t *) addr = data`. */
    method Store64(addr: nat, data: bv64)
      modifies this
      ensures trace == old(trace) + [Access.Store64(addr, data)]
    {
      trace := trace + [Access.Store64(addr, data)];
    }

    /** `*(volatile uint64_t *) addr`. */
    method Load64(addr: nat) returns (data: bv64)
      modifies this
      ensures data == respond64(old(trace), addr)
      ensures trace == old(trace) + [Access.Load64(addr, data)]
    {
      data := respond64(trace, addr);
      trace := trace + [Access.Load64(addr, data)];
    }
  }

  /** A `uint64_t` variable in ordinary memory, written through a pointer. */
  class Cell {
    var value: bv64

    constructor (value: bv64)
      ensures this.value == value
    {
      this.value := value;
    }
  }

  /**
   * `reg_read64`: one volatile 64-bit load from `addr`; the value is stored
   * into `*data` and that same value is returned. Reading `*data` back is an
   * ordinary access and leaves no trace.
   */
  method RegRead64(bus: Bus, addr: nat, data: Cell) returns (r: bv64)
    modifies bus, data
    ensures r == data.value
    ensures r == bus.respond64(old(bus.trace), addr)
    ensures bus.trace == old(bus.trace) + [Load64(addr, r)]
  {
    var loaded := bus.Load64(addr);
    data.value := loaded;
    r := data.value;
  }

  /** `reg_write64`: exactly one volatile 64-bit store of `data` at `addr`. */
  method RegWrite64(bus: Bus, addr: nat, data: bv64)
    modifies bus
    ensures bus.trace == old(bus.trace) + [Store64(addr, data)]
  {
    bus.Store64(addr, data);
  }
}
