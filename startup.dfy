/** The Cortex-M4 reset handler of the bare-metal ARM sample. Memory is a
    word-addressed array of 32-bit words, each linker symbol is a word
    index into it, and the coprocessor access control register CPACR is a
    field of its own. `__libc_init_array`, `main` and the debugger trace
    prints are calls into code outside this model; the handler records them
    as events, in order. */
module Startup {
  /** CP10 and CP11 full access: `(3 << 20) | (3 << 22)`. */
  const FPU_ACCESS: bv32 := 0x00F0_0000

  /** The read-modify-write that enables the FPU. */
  function EnableFpu(cpacr: bv32): (r: bv32)
    ensures r & FPU_ACCESS == FPU_ACCESS
    ensures r & !FPU_ACCESS == cpacr & !FPU_ACCESS
  {
    cpacr | FPU_ACCESS
  }

  /** The mask is exactly bits 20 to 23. */
  lemma FpuAccessBits()
    ensures FPU_ACCESS == (3 as bv32 << 20) | (3 as bv32 << 22)
  {
  }

  /** Enabling twice is the same as enabling once. */
  lemma EnableFpuIdempotent(cpacr: bv32)
    ensures EnableFpu(EnableFpu(cpacr)) == EnableFpu(cpacr)
  {
  }

  datatype Event =
    | FpuEnabled
    | Trace(msg: string)
    | DataCopied
    | BssZeroed
    | StaticConstructors
    | MainCalled
    | Halted

  /** The events of one reset, in order; when `main` returns the handler
      spins forever, shown as Halted. */
  const RESET_SEQUENCE: seq<Event> := [
    FpuEnabled, Trace("--- ENTERING RESET HANDLER ---\n"), DataCopied, BssZeroed,
    Trace("--- INITIALIZING C++ ---\n"), StaticConstructors,
    Trace("--- JUMPING TO MAIN ---\n"), MainCalled, Halted]

  /** The range [lo, hi) lies inside memory of `size` words, or is empty. */
  predicate InRange(lo: int, hi: int, size: int)
  {
    lo >= hi || (0 <= lo && hi <= size)
  }

  /** A forward word copy from `src` reproduces the source words when the
      source does not start below the destination while overlapping it. */
  predicate CopySafe(etext: int, data: int, edata: int)
  {
    data <= etext || etext + (edata - data) <= data
  }

  class Mcu {
    const mem: array<bv32>
    var cpacr: bv32
    var events: seq<Event>

    constructor (size: nat, cpacr: bv32)
      ensures mem.Length == size && fresh(mem) && this.cpacr == cpacr && events == []
    {
      mem := new bv32[size];
      this.cpacr := cpacr;
      events := [];
    }

    /** Step 3: `while (dst < &_edata) *dst++ = *src++;` starting from
        `_etext` and `_data`. Only [data, edata) is written; when the flash
        image does not clobber itself it lands there word for word. */
    method CopyData(etext: int, data: int, edata: int)
      requires InRange(data, edata, mem.Length) && InRange(etext, etext + (edata - data), mem.Length)
      modifies mem
      ensures forall k :: 0 <= k < mem.Length && !(data <= k < edata) ==> mem[k] == old(mem[k])
      ensures CopySafe(etext, data, edata) ==>
                forall k :: data <= k < edata ==> mem[k] == old(mem[etext + (k - data)])
    {
      var src := etext;
      var dst := data;
      while dst < edata
        invariant data <= dst <= edata || (dst == data && edata < data)
        invariant src == etext + (dst - data)
        invariant forall k :: 0 <= k < mem.Length && !(data <= k < dst) ==> mem[k] == old(mem[k])
        invariant CopySafe(etext, data, edata) ==>
                    forall k :: data <= k < dst ==> mem[k] == old(mem[etext + (k - data)])
      {
        mem[dst] := mem[src];
        dst := dst + 1;
        src := src + 1;
      }
    }

    /** Step 4: `while (dst < &_ebss) *dst++ = 0;` from `_bss`. Every word
        of [bss, ebss) becomes 0 and no other word changes. */
    method ZeroBss(bss: int, ebss: int)
      requires InRange(bss, ebss, mem.Length)
      modifies mem
      ensures forall k :: bss <= k < ebss ==> mem[k] == 0
      ensures forall k :: 0 <= k < mem.Length && !(bss <= k < ebss) ==> mem[k] == old(mem[k])
    {
      var dst := bss;
      while dst < ebss
        invariant bss <= dst <= ebss || (dst == bss && ebss < bss)
        invariant forall k :: bss <= k < dst ==> mem[k] == 0
        invariant forall k :: 0 <= k < mem.Length && !(bss <= k < dst) ==> mem[k] == old(mem[k])
      {
        mem[dst] := 0;
        dst := dst + 1;
      }
    }

    /** Reset_Handler: FPU on, `.data` initialised from flash, `.bss`
        cleared, the static constructors and `main` called, the steps logged
        in order; if `main` returns, the handler spins (Halted). With the
        linker's layout (flash image apart from RAM, `.data` below `.bss`),
        both sections hold their initial contents when the static
        constructors run. */
    method ResetHandler(etext: int, data: int, edata: int, bss: int, ebss: int)
      requires InRange(data, edata, mem.Length) && InRange(etext, etext + (edata - data), mem.Length)
      requires InRange(bss, ebss, mem.Length)
      modifies this`cpacr, this`events, mem
      ensures cpacr == EnableFpu(old(cpacr))
      ensures events == old(events) + RESET_SEQUENCE
      ensures forall k :: bss <= k < ebss ==> mem[k] == 0
      ensures CopySafe(etext, data, edata) ==>
                forall k :: data <= k < edata && !(bss <= k < ebss) ==> mem[k] == old(mem[etext + (k - data)])
      ensures forall k :: 0 <= k < mem.Length && !(data <= k < edata) && !(bss <= k < ebss) ==> mem[k] == old(mem[k])
    {
      cpacr := EnableFpu(cpacr);
      events := events + [FpuEnabled, Trace("--- ENTERING RESET HANDLER ---\n")];
      CopyData(etext, data, edata);
      events := events + [DataCopied];
      ZeroBss(bss, ebss);
      events := events + [BssZeroed, Trace("--- INITIALIZING C++ ---\n"), StaticConstructors,
                          Trace("--- JUMPING TO MAIN ---\n"), MainCalled, Halted];
    }
  }
}
