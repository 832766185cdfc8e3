/**
 * What the circular buffers of a pipeline hold: a page is written to the back of its buffer and read
 * from the front, each modulo the capacity. In every interleaving a read yields what the producer
 * last wrote to that page in the matching execution of its block.
 */
module BufferContents {
  import opened CircularBuffers
  import opened Shapes

  // The cells of the buffers, and what was last written to a page in each execution of the
  // producer's block.
  datatype Memory = Memory(cells: map<(nat, nat), int>, written: map<(nat, nat, nat), int>)

  // The cell of a page of the n-th group of pages that goes through a buffer.
  function Slot(pages: nat, capacity: nat, n: nat, page: nat): nat
    requires capacity > 0
  {
    (pages * n + page) % capacity
  }

  // The cells of the back and of the front of a buffer.
  ghost function BackSlot(s: System, x: State, b: nat, page: nat): nat
    requires IsSystem(s) && Shaped(s, x) && b < |s.pages| && Connected(s, b) && s.capacity[b] > 0
  {
    Slot(s.pages[b], s.capacity[b], Pushes(s, x, b), page)
  }

  ghost function FrontSlot(s: System, x: State, b: nat, page: nat): nat
    requires IsSystem(s) && Shaped(s, x) && b < |s.pages| && Connected(s, b) && s.capacity[b] > 0
  {
    Slot(s.pages[b], s.capacity[b], Pops(s, x, b), page)
  }

  // A step of thread t, which stores `v` if it writes.
  ghost function Store(s: System, x: State, m: Memory, t: nat, v: int): Memory
    requires IsSystem(s) && Shaped(s, x) && t < |s.threads|
  {
    match s.threads[t][x.at[t]]
    case Write(b, page) =>
      if b < |s.pages| && s.capacity[b] > 0 && Connected(s, b)
      then Memory(m.cells[(b, BackSlot(s, x, b, page)) := v], m.written[(b, x.done[t], page) := v])
      else m
    case _ => m
  }

  // A run: the threads that step, in order, each with the value it stores if it writes.
  ghost predicate RunWith(s: System, x: State, m: Memory, steps: seq<(nat, int)>, y: State, k: Memory)
    requires IsSystem(s)
    decreases |steps|
  {
    if steps == [] then x == y && m == k
    else
      var (t, v) := steps[0];
      Shaped(s, x) && t < |s.threads| && Enabled(s, x, t) && RunWith(s, Step(s, x, t), Store(s, x, m, t, v), steps[1..], y, k)
  }

  // Thread p has executed the n-th time the write of a page.
  ghost predicate HasWritten(s: System, x: State, b: nat, n: nat, page: nat)
    requires Shaped(s, x) && b < |s.producer| && s.producer[b] < |s.threads|
  {
    var p := s.producer[b];
    exists k :: 0 <= k < |s.threads[p]| && s.threads[p][k] == Write(b, page) && (n < x.done[p] || (n == x.done[p] && k < x.at[p]))
  }

  // A page that was written for the n-th time, if it is not popped yet, is in its cell.
  predicate Kept(m: Memory, b: nat, pages: nat, capacity: nat, pushes: nat, pops: nat, n: nat, page: nat) {
    && page < pages && capacity > 0 && n <= pushes && (b, n, page) in m.written
    && (pops <= n ==> (b, Slot(pages, capacity, n, page)) in m.cells
                      && m.cells[(b, Slot(pages, capacity, n, page))] == m.written[(b, n, page)])
  }

  ghost predicate Holds(s: System, x: State, m: Memory, b: nat)
    requires IsSystem(s) && Shaped(s, x) && b < |s.pages| && Connected(s, b)
  {
    && (forall n: nat, page: nat :: (b, n, page) in m.written ==> Kept(m, b, s.pages[b], s.capacity[b], Pushes(s, x, b), Pops(s, x, b), n, page))
    && (forall n: nat, page: nat :: HasWritten(s, x, b, n, page) ==> (b, n, page) in m.written)
  }

  ghost predicate MemoryInv(s: System, x: State, m: Memory) {
    IsSystem(s) && Inv(s, x) && forall b: nat :: b < |s.pages| ==> Connected(s, b) && Holds(s, x, m, b)
  }

  lemma MemoryAtStart(s: System)
    requires IsSystem(s)
    ensures MemoryInv(s, Start(s), Memory(map[], map[]))
  {
    hide Connected, Sound, Refers;
    InvAtStart(s);
    forall b: nat | b < |s.pages|
      ensures Connected(s, b) && Holds(s, Start(s), Memory(map[], map[]), b)
    {
      assert Connected(s, b);
      ConnectedProducer(s, b);
    }
  }

  // Positions closer than the capacity are in different cells.
  lemma DifferentCells(a: nat, w: nat, capacity: nat)
    requires a != w && a < w + capacity && w < a + capacity
    ensures capacity > 0 && a % capacity != w % capacity
  {
    if a % capacity == w % capacity {
      if a > w {
        SameCellFarApart(a, w, capacity);
      } else {
        SameCellFarApart(w, a, capacity);
      }
    }
  }

  lemma SameCellFarApart(a: nat, w: nat, capacity: nat)
    requires capacity > 0 && a > w && a % capacity == w % capacity
    ensures a >= w + capacity
  {
    MixedRadixUnique((a - w) / capacity, (a - w) % capacity, a / capacity - w / capacity, 0, capacity);
  }

  lemma Groups(pages: nat, a: nat, b: nat)
    requires a <= b
    ensures pages * a <= pages * b && (a < b ==> pages * a + pages <= pages * b)
  {
    if a < b {
      assert pages * (a + 1) <= pages * b;
    }
  }

  // A write does not reach the cell of another page that is not popped.
  lemma OtherPageStays(pages: nat, capacity: nat, pops: nat, pushes: nat, n: nat, page: nat, page': nat)
    requires pops <= n <= pushes && page < pages && page' < pages <= capacity
    requires pages * pushes + page' < pages * pops + capacity && (n, page) != (pushes, page')
    ensures (pages * n + page) % capacity != (pages * pushes + page') % capacity
  {
    Groups(pages, n, pushes);
    Groups(pages, pops, n);
    DifferentCells(pages * n + page, pages * pushes + page', capacity);
  }

  // The counts a step leaves or raises.
  lemma CountsGrow(s: System, x: State, t: nat, b: nat)
    requires IsSystem(s) && Inv(s, x) && t < |s.threads| && Enabled(s, x, t) && b < |s.pages| && Connected(s, b)
    ensures Shaped(s, Step(s, x, t))
    ensures Pushes(s, x, b) <= Pushes(s, Step(s, x, t), b) && Pops(s, x, b) <= Pops(s, Step(s, x, t), b)
    ensures s.threads[t][x.at[t]].Write? ==> Pushes(s, Step(s, x, t), b) == Pushes(s, x, b) && Pops(s, Step(s, x, t), b) == Pops(s, x, b)
  {
    hide Connected, Sound, Pushes, Pops, Step, Refers;
    InvStep(s, x, t);
    assert Connected(s, b);
    CountsStep(s, x, t, b);
  }

  // What was written stays written, and the step adds its own write.
  lemma WrittenStep(s: System, x: State, t: nat, b: nat, n: nat, page: nat)
    requires Shaped(s, x) && t < |s.threads| && x.done[t] < s.times && Shaped(s, Step(s, x, t))
    requires b < |s.producer| && s.producer[b] < |s.threads| && HasWritten(s, Step(s, x, t), b, n, page)
    ensures HasWritten(s, x, b, n, page) || (t == s.producer[b] && n == x.done[t] && s.threads[t][x.at[t]] == Write(b, page))
  {
    hide HeldAfter;
    var p := s.producer[b];
    var y := Step(s, x, t);
    var k :| 0 <= k < |s.threads[p]| && s.threads[p][k] == Write(b, page) && (n < y.done[p] || (n == y.done[p] && k < y.at[p]));
    assert n < x.done[p] || (n == x.done[p] && k < x.at[p]) || (t == p && n == x.done[p] && k == x.at[p]);
  }

  lemma SameCells(s: System, x: State, m: Memory, t: nat, b: nat)
    requires IsSystem(s) && Inv(s, x) && t < |s.threads| && Enabled(s, x, t) && b < |s.pages| && Connected(s, b)
    requires Holds(s, x, m, b) && Shaped(s, Step(s, x, t))
    requires !(s.threads[t][x.at[t]].Write? && s.threads[t][x.at[t]].cb == b)
    ensures Holds(s, Step(s, x, t), m, b)
  {
    hide Connected, Sound, Pushes, Pops, Step, Refers, HasWritten, Slot;
    CountsGrow(s, x, t, b);
    ConnectedProducer(s, b);
    forall n: nat, page: nat | HasWritten(s, Step(s, x, t), b, n, page)
      ensures (b, n, page) in m.written
    {
      WrittenStep(s, x, t, b, n, page);
    }
    forall n: nat, page: nat | (b, n, page) in m.written
      ensures Kept(m, b, s.pages[b], s.capacity[b], Pushes(s, Step(s, x, t), b), Pops(s, Step(s, x, t), b), n, page)
    {
      assert Kept(m, b, s.pages[b], s.capacity[b], Pushes(s, x, b), Pops(s, x, b), n, page);
    }
  }

  lemma ConnectedProducer(s: System, b: nat)
    requires b < |s.producer| && b < |s.consumer| && Connected(s, b)
    ensures s.producer[b] < |s.threads| && s.consumer[b] < |s.threads|
    ensures Once(s.threads[s.producer[b]], Push(b)) && Once(s.threads[s.consumer[b]], Pop(b))
  {
    hide Once;
  }

  // Cells and writes of another buffer do not matter.
  lemma OtherBuffer(s: System, x: State, m: Memory, k: Memory, b: nat)
    requires IsSystem(s) && Shaped(s, x) && b < |s.pages| && Connected(s, b) && Holds(s, x, m, b)
    requires forall i: nat :: ((b, i) in k.cells <==> (b, i) in m.cells) && ((b, i) in m.cells ==> k.cells[(b, i)] == m.cells[(b, i)])
    requires forall n: nat, page: nat :: ((b, n, page) in k.written <==> (b, n, page) in m.written)
                                         && ((b, n, page) in m.written ==> k.written[(b, n, page)] == m.written[(b, n, page)])
    ensures Holds(s, x, k, b)
  {
    hide Connected, Pushes, Pops, HasWritten, Refers, Slot;
    ConnectedProducer(s, b);
    forall n: nat, page: nat | (b, n, page) in k.written
      ensures Kept(k, b, s.pages[b], s.capacity[b], Pushes(s, x, b), Pops(s, x, b), n, page)
    {
      assert Kept(m, b, s.pages[b], s.capacity[b], Pushes(s, x, b), Pops(s, x, b), n, page);
    }
  }

  // The write of a page keeps the pages of its buffer that are not popped.
  lemma WriteHolds(s: System, x: State, m: Memory, t: nat, v: int, b: nat, page: nat)
    requires IsSystem(s) && Inv(s, x) && t < |s.threads| && Enabled(s, x, t) && s.threads[t][x.at[t]] == Write(b, page)
    requires b < |s.pages| && Connected(s, b) && Holds(s, x, m, b)
    ensures Shaped(s, Step(s, x, t)) && Holds(s, Step(s, x, t), Store(s, x, m, t, v), b)
  {
    hide Connected, Sound, Pushes, Pops, Step, Refers, HasWritten, Kept;
    CountsGrow(s, x, t, b);
    ConnectedProducer(s, b);
    WriteIsToFreePage(s, x, t, b, page);
    RoomForPages(s, b);
    var y, k := Step(s, x, t), Store(s, x, m, t, v);
    forall n: nat, q: nat | HasWritten(s, y, b, n, q)
      ensures (b, n, q) in k.written
    {
      WrittenStep(s, x, t, b, n, q);
    }
    forall n: nat, q: nat | (b, n, q) in k.written
      ensures Kept(k, b, s.pages[b], s.capacity[b], Pushes(s, y, b), Pops(s, y, b), n, q)
    {
      WriteKeeps(m, b, s.pages[b], s.capacity[b], Pushes(s, x, b), Pops(s, x, b), page, v, n, q);
    }
  }

  lemma WriteKeeps(m: Memory, b: nat, pages: nat, capacity: nat, pushes: nat, pops: nat, page: nat, v: int, n: nat, q: nat)
    requires page < pages <= capacity && pages * pushes + page < pages * pops + capacity
    requires (n, q) != (pushes, page) ==> Kept(m, b, pages, capacity, pushes, pops, n, q)
    ensures Kept(Memory(m.cells[(b, Slot(pages, capacity, pushes, page)) := v], m.written[(b, pushes, page) := v]),
                 b, pages, capacity, pushes, pops, n, q)
  {
    if (n, q) != (pushes, page) && pops <= n {
      OtherPageStays(pages, capacity, pops, pushes, n, q, page);
    }
  }

  lemma RoomForPages(s: System, b: nat)
    requires IsSystem(s) && b < |s.pages|
    ensures s.capacity[b] >= s.pages[b]
  {}

  lemma MemoryStep(s: System, x: State, m: Memory, t: nat, v: int)
    requires MemoryInv(s, x, m) && t < |s.threads| && Enabled(s, x, t)
    ensures MemoryInv(s, Step(s, x, t), Store(s, x, m, t, v))
  {
    hide Connected, Sound, Step, Refers, Holds;
    InvStep(s, x, t);
    var y, k := Step(s, x, t), Store(s, x, m, t, v);
    forall b: nat | b < |s.pages|
      ensures Connected(s, b) && Holds(s, y, k, b)
    {
      assert Connected(s, b) && Holds(s, x, m, b);
      var i := s.threads[t][x.at[t]];
      if i.Write? && i.cb == b {
        WriteHolds(s, x, m, t, v, b, i.page);
      } else {
        SameCells(s, x, m, t, b);
        OtherBuffer(s, y, m, k, b);
      }
    }
  }

  lemma {:induction false} RunKeepsMemory(s: System, x: State, m: Memory, steps: seq<(nat, int)>, y: State, k: Memory)
    requires MemoryInv(s, x, m) && RunWith(s, x, m, steps, y, k)
    ensures MemoryInv(s, y, k)
    decreases |steps|
  {
    hide Step, Store, Connected, Refers, Sound, Holds;
    if steps != [] {
      var (t, v) := steps[0];
      MemoryStep(s, x, m, t, v);
      RunKeepsMemory(s, Step(s, x, t), Store(s, x, m, t, v), steps[1..], y, k);
    }
  }

  // A read finds at the front of the buffer what the producer last wrote to that page in the
  // execution of its block that matches the consumer's, if its block writes the page at all.
  lemma ReadsFindWhatWasWritten(s: System, steps: seq<(nat, int)>, y: State, m: Memory, t: nat, b: nat, page: nat)
    requires IsSystem(s) && RunWith(s, Start(s), Memory(map[], map[]), steps, y, m)
    requires Shaped(s, y) && t < |s.threads| && s.threads[t][y.at[t]] == Read(b, page)
    requires b < |s.producer| && s.producer[b] < |s.threads| && Write(b, page) in s.threads[s.producer[b]]
    ensures b < |s.pages| && Connected(s, b) && s.capacity[b] > 0
    ensures (b, FrontSlot(s, y, b, page)) in m.cells && (b, y.done[t], page) in m.written
    ensures m.cells[(b, FrontSlot(s, y, b, page))] == m.written[(b, y.done[t], page)]
  {
    hide Step, RunWith, MemoryInv, Refers, Connected, FrontSlot, Shaped;
    MemoryAtStart(s);
    RunKeepsMemory(s, Start(s), Memory(map[], map[]), steps, y, m);
    ReadFinds(s, y, m, t, b, page);
  }

  lemma ReadFinds(s: System, y: State, m: Memory, t: nat, b: nat, page: nat)
    requires MemoryInv(s, y, m) && Shaped(s, y) && t < |s.threads| && s.threads[t][y.at[t]] == Read(b, page)
    requires b < |s.producer| && s.producer[b] < |s.threads| && Write(b, page) in s.threads[s.producer[b]]
    ensures b < |s.pages| && Connected(s, b) && s.capacity[b] > 0
    ensures (b, FrontSlot(s, y, b, page)) in m.cells && (b, y.done[t], page) in m.written
    ensures m.cells[(b, FrontSlot(s, y, b, page))] == m.written[(b, y.done[t], page)]
  {
    hide Step, Sound, Pushes, Pops, Refers, Connected, Slot, Once;
    ReadIsOfPushedPage(s, y, t, b, page);
    ConnectedProducer(s, b);
    var n, p := y.done[t], s.producer[b];
    var k :| 0 <= k < |s.threads[p]| && s.threads[p][k] == Write(b, page);
    PushedBlockIsWritten(s, y, b, page, n, k);
    assert HasWritten(s, y, b, n, page);
    assert Holds(s, y, m, b);
  }

  // Before the push of a group of pages all writes to it have been executed.
  lemma PushedBlockIsWritten(s: System, y: State, b: nat, page: nat, n: nat, k: nat)
    requires IsSystem(s) && Shaped(s, y) && b < |s.pages| && Connected(s, b) && n < Pushes(s, y, b)
    requires k < |s.threads[s.producer[b]]| && s.threads[s.producer[b]][k] == Write(b, page)
    ensures n < y.done[s.producer[b]] || (n == y.done[s.producer[b]] && k < y.at[s.producer[b]])
  {
    hide Once, Leaves, Ignores, Consumes, Refers;
  }
}
