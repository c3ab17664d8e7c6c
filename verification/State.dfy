// The part of the collector's state record that the heap algorithms share.

module State {
  import opened Layout
  import opened Heap
  import opened StackSize

  class GCState {
    const env: Env
    const mem: array<Word>
    // Addresses of the global roots, in the order foreachGlobalObjptr visits them.
    const roots: seq<nat>
    const stackControls: StackControls
    var start: nat
    var oldGenSize: nat
    var nursery: nat
    var frontier: nat
    var weaks: nat

    constructor (env: Env, mem: array<Word>, roots: seq<nat>, stackControls: StackControls)
      ensures this.env == env && this.mem == mem && this.roots == roots && this.stackControls == stackControls
    {
      this.env, this.mem, this.roots, this.stackControls := env, mem, roots, stackControls;
      start, oldGenSize, nursery, frontier, weaks := 0, 0, 0, 0, 0;
    }

    function Spaces(): Spaces
      reads `start, `oldGenSize, `nursery, `frontier
    {
      Heap.Spaces.Spaces(start, start + oldGenSize, nursery, frontier)
    }

    // Write one word.
    method Store(a: nat, w: Word)
      requires a < mem.Length
      modifies mem
      ensures mem[..] == old(mem[..])[a := w]
    {
      mem[a] := w;
    }
  }
}
