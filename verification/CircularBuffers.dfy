/**
 * Threads that exchange pages through circular buffers: any interleaving of blocks in which every
 * reserve, push, wait and pop is where the lowering of await and yield puts it. A buffer is a
 * bounded FIFO of pages: waiting and reserving block, pushing and popping do not.
 */
module CircularBuffers {
  // A read or write is of one page of the buffer's front or back.
  datatype Instr =
    | Wait(cb: nat) | Pop(cb: nat) | Reserve(cb: nat) | Push(cb: nat)
    | Read(cb: nat, page: nat) | Write(cb: nat, page: nat)
    | Define(cb: nat) | Await(cbs: seq<nat>) | Yield(cbs: seq<nat>)
    | Other | Terminator

  // Every thread executes its block `times` times. Buffer b moves `pages[b]` pages at a time and
  // holds `capacity[b]`; `producer[b]` and `consumer[b]` are the threads at its ends.
  datatype System = System(
    threads: seq<seq<Instr>>, times: nat,
    pages: seq<nat>, capacity: seq<nat>, producer: seq<nat>, consumer: seq<nat>)

  // How often a thread has finished its block, where it is in it, and how many pages each buffer holds.
  datatype State = State(done: seq<nat>, at: seq<nat>, held: seq<int>)

  ghost predicate Once(block: seq<Instr>, x: Instr) {
    exists i: nat :: IsAt(block, x, i)
  }

  ghost predicate IsAt(block: seq<Instr>, x: Instr, i: nat) {
    i < |block| && block[i] == x && forall j :: 0 <= j < |block| && j != i ==> block[j] != x
  }

  ghost function At(block: seq<Instr>, x: Instr): (i: nat)
    requires Once(block, x)
    ensures IsAt(block, x, i)
  {
    var i: nat :| IsAt(block, x, i);
    i
  }

  // x comes before y, and each comes once.
  ghost predicate Ordered(block: seq<Instr>, x: Instr, y: Instr) {
    Once(block, x) && Once(block, y) && At(block, x) < At(block, y)
  }

  // The producer's side: pages are reserved, written, then pushed.
  ghost predicate Produces(block: seq<Instr>, b: nat) {
    && Ordered(block, Reserve(b), Push(b))
    && forall i :: 0 <= i < |block| && block[i].Write? && block[i].cb == b ==> At(block, Reserve(b)) < i < At(block, Push(b))
  }

  // The consumer's side: pages are waited for, read, then popped.
  ghost predicate Consumes(block: seq<Instr>, b: nat) {
    && Ordered(block, Wait(b), Pop(b))
    && forall i :: 0 <= i < |block| && block[i].Read? && block[i].cb == b ==> At(block, Wait(b)) < i < At(block, Pop(b))
  }

  ghost predicate Leaves(block: seq<Instr>, b: nat) {
    forall i :: 0 <= i < |block| ==> block[i] != Reserve(b) && block[i] != Push(b) && !(block[i].Write? && block[i].cb == b)
  }

  ghost predicate Ignores(block: seq<Instr>, b: nat) {
    forall i :: 0 <= i < |block| ==> block[i] != Wait(b) && block[i] != Pop(b) && !(block[i].Read? && block[i].cb == b)
  }

  // One thread produces, one consumes; a thread that does both pushes before it waits.
  ghost predicate Connected(s: System, b: nat)
    requires b < |s.producer| && b < |s.consumer|
  {
    && s.producer[b] < |s.threads| && s.consumer[b] < |s.threads|
    && Produces(s.threads[s.producer[b]], b) && Consumes(s.threads[s.consumer[b]], b)
    && (forall t :: 0 <= t < |s.threads| && t != s.producer[b] ==> Leaves(s.threads[t], b))
    && (forall t :: 0 <= t < |s.threads| && t != s.consumer[b] ==> Ignores(s.threads[t], b))
    && (s.producer[b] == s.consumer[b] ==>
          Ordered(s.threads[s.producer[b]], Push(b), Wait(b)))
  }

  ghost predicate IsSystem(s: System) {
    && |s.pages| == |s.capacity| == |s.producer| == |s.consumer|
    && (forall t :: 0 <= t < |s.threads| ==> s.threads[t] != [])
    && (forall b :: 0 <= b < |s.pages| ==> s.capacity[b] >= s.pages[b] && Connected(s, b))
    && (forall t, i :: 0 <= t < |s.threads| && 0 <= i < |s.threads[t]| ==> Refers(s, s.threads[t][i]))
  }

  // Only the buffers of the system, and their pages, are used.
  predicate Refers(s: System, x: Instr) {
    && (x.Wait? || x.Pop? || x.Reserve? || x.Push? || x.Read? || x.Write? ==> x.cb < |s.pages|)
    && (x.Read? || x.Write? ==> x.cb < |s.pages| && x.page < s.pages[x.cb])
  }

  // A number for every instruction, which never falls along a block.
  predicate Numbered(blocks: seq<seq<Instr>>, rank: seq<seq<nat>>) {
    |rank| == |blocks| && forall t :: 0 <= t < |blocks| ==> |rank[t]| == |blocks[t]| && Rises(rank[t])
  }

  predicate Rises(r: seq<nat>) {
    forall i, j :: 0 <= i <= j < |r| ==> r[i] <= r[j]
  }

  // The flow has no cycle: a numbering of the instructions has every push below the wait of another
  // thread for what it pushed. Threads may exchange pages in both directions.
  ghost predicate Acyclic(s: System, rank: seq<seq<nat>>)
    requires IsSystem(s)
  {
    && Numbered(s.threads, rank)
    && forall b :: 0 <= b < |s.pages| ==> Connected(s, b) && PushesBelow(s, rank, b)
  }

  ghost predicate PushesBelow(s: System, rank: seq<seq<nat>>, b: nat)
    requires Numbered(s.threads, rank) && b < |s.producer| && b < |s.consumer| && Connected(s, b)
  {
    var p, q := s.producer[b], s.consumer[b];
    p == q || rank[p][At(s.threads[p], Push(b))] < rank[q][At(s.threads[q], Wait(b))]
  }

  function Start(s: System): State {
    State(seq(|s.threads|, (t: nat) requires t < |s.threads| => 0), seq(|s.threads|, (t: nat) requires t < |s.threads| => 0),
          seq(|s.pages|, (b: nat) requires b < |s.pages| => 0))
  }

  ghost predicate Shaped(s: System, x: State) {
    && |x.done| == |x.at| == |s.threads| && |x.held| == |s.pages|
    && forall t :: 0 <= t < |s.threads| ==> x.at[t] < |s.threads[t]| && x.done[t] <= s.times && (x.done[t] == s.times ==> x.at[t] == 0)
  }

  // Whether a thread can take its next step.
  predicate Enabled(s: System, x: State, t: nat)
    requires t < |x.done| == |x.at| == |s.threads| && |x.held| == |s.pages| == |s.capacity| && x.at[t] < |s.threads[t]|
  {
    x.done[t] < s.times &&
    match s.threads[t][x.at[t]]
    case Wait(b) => b < |s.pages| && x.held[b] >= s.pages[b]
    case Reserve(b) => b < |s.pages| && x.held[b] + s.pages[b] <= s.capacity[b]
    case _ => true
  }

  function HeldAfter(s: System, held: seq<int>, i: Instr): seq<int>
    requires |held| == |s.pages|
  {
    match i
    case Push(b) => if b < |held| then held[b := held[b] + s.pages[b]] else held
    case Pop(b) => if b < |held| then held[b := held[b] - s.pages[b]] else held
    case _ => held
  }

  // One step of one thread.
  function Step(s: System, x: State, t: nat): State
    requires t < |x.done| == |x.at| == |s.threads| && |x.held| == |s.pages| && x.at[t] < |s.threads[t]|
  {
    var held := HeldAfter(s, x.held, s.threads[t][x.at[t]]);
    if x.at[t] + 1 == |s.threads[t]|
    then State(x.done[t := x.done[t] + 1], x.at[t := 0], held)
    else State(x.done, x.at[t := x.at[t] + 1], held)
  }

  /* What every interleaving keeps */

  // How often a thread has passed an instruction of its block.
  ghost function Passed(s: System, x: State, t: nat, i: Instr): nat
    requires t < |x.done| == |x.at| == |s.threads| && Once(s.threads[t], i)
  {
    x.done[t] + if x.at[t] > At(s.threads[t], i) then 1 else 0
  }

  ghost function Pushes(s: System, x: State, b: nat): nat
    requires b < |s.producer| && s.producer[b] < |x.done| == |x.at| == |s.threads| && Once(s.threads[s.producer[b]], Push(b))
  {
    Passed(s, x, s.producer[b], Push(b))
  }

  ghost function Pops(s: System, x: State, b: nat): nat
    requires b < |s.consumer| && s.consumer[b] < |x.done| == |x.at| == |s.threads| && Once(s.threads[s.consumer[b]], Pop(b))
  {
    Passed(s, x, s.consumer[b], Pop(b))
  }

  // Past the reserve and before the push there is room; past the wait and before the pop there are pages.
  ghost predicate Sound(s: System, x: State, b: nat)
    requires |s.pages| == |s.capacity| == |s.producer| == |s.consumer| && Shaped(s, x) && b < |s.pages| && Connected(s, b)
  {
    && x.held[b] == s.pages[b] * (Pushes(s, x, b) - Pops(s, x, b))
    && 0 <= x.held[b] <= s.capacity[b]
    && (Within(s, x, s.producer[b], Reserve(b), Push(b)) ==> x.held[b] + s.pages[b] <= s.capacity[b])
    && (Within(s, x, s.consumer[b], Wait(b), Pop(b)) ==> x.held[b] >= s.pages[b])
  }

  // A thread has passed one instruction of its block and is not past the other.
  ghost predicate Within(s: System, x: State, t: nat, from: Instr, to: Instr)
    requires t < |x.at| == |s.threads| && Once(s.threads[t], from) && Once(s.threads[t], to)
  {
    At(s.threads[t], from) < x.at[t] <= At(s.threads[t], to)
  }

  ghost predicate Inv(s: System, x: State) {
    && |s.pages| == |s.capacity| == |s.producer| == |s.consumer| && Shaped(s, x)
    && forall b :: 0 <= b < |s.pages| ==> Connected(s, b) && Sound(s, x, b)
  }

  lemma InvAtStart(s: System)
    requires IsSystem(s)
    ensures Inv(s, Start(s))
  {
    hide Refers, Leaves, Ignores, Once, Produces, Consumes;
    forall b | 0 <= b < |s.pages|
      ensures Shaped(s, Start(s)) && Connected(s, b) && Sound(s, Start(s), b)
    {
      SoundAtStart(s, b);
    }
  }

  lemma SoundAtStart(s: System, b: nat)
    requires IsSystem(s) && b < |s.pages|
    ensures Shaped(s, Start(s)) && Connected(s, b) && Sound(s, Start(s), b)
  {
    hide Refers, Leaves, Ignores, Once;
    assert Connected(s, b);
  }

  // A step passes exactly the instruction it executes.
  lemma PassedStep(s: System, x: State, t: nat, u: nat, i: Instr)
    requires Shaped(s, x) && t < |s.threads| && u < |s.threads| && Once(s.threads[u], i)
    ensures |Step(s, x, t).done| == |Step(s, x, t).at| == |s.threads|
    ensures Passed(s, Step(s, x, t), u, i) == Passed(s, x, u, i) + if u == t && s.threads[t][x.at[t]] == i then 1 else 0
  {
    hide Once, HeldAfter;
    var block := s.threads[u];
    assert IsAt(block, i, At(block, i));
  }

  // A thread that is within a section after its step was there before, or has just entered it.
  lemma WithinStep(s: System, x: State, t: nat, u: nat, from: Instr, to: Instr)
    requires Shaped(s, x) && t < |s.threads| && u < |s.threads| && Once(s.threads[u], from) && Once(s.threads[u], to)
    requires Within(s, Step(s, x, t), u, from, to)
    ensures (Within(s, x, u, from, to) && (u == t ==> s.threads[t][x.at[t]] != to)) || (u == t && s.threads[t][x.at[t]] == from)
  {
    hide Once, HeldAfter;
    var block := s.threads[u];
    assert IsAt(block, from, At(block, from)) && IsAt(block, to, At(block, to));
  }

  // Executing the end of a section happens within it.
  lemma WithinAtEnd(s: System, x: State, t: nat, from: Instr, to: Instr)
    requires Shaped(s, x) && t < |s.threads| && Ordered(s.threads[t], from, to) && s.threads[t][x.at[t]] == to
    ensures Within(s, x, t, from, to)
  {
    hide Once;
    assert IsAt(s.threads[t], to, At(s.threads[t], to));
  }

  lemma TimesMore(n: int, d: int)
    ensures n * (d + 1) == n * d + n && n * (d - 1) == n * d - n
  {}

  lemma StepIsShaped(s: System, x: State, t: nat)
    requires Shaped(s, x) && t < |s.threads| && x.done[t] < s.times
    requires forall u :: 0 <= u < |s.threads| ==> s.threads[u] != []
    ensures Shaped(s, Step(s, x, t))
  {}

  // What a step does to one buffer.
  lemma HeldStep(s: System, x: State, t: nat, b: nat)
    requires Shaped(s, x) && t < |s.threads| && b < |s.pages|
    ensures var i := s.threads[t][x.at[t]];
      |Step(s, x, t).held| == |s.pages| &&
      Step(s, x, t).held[b] == x.held[b] + (if i == Push(b) then s.pages[b] else if i == Pop(b) then -(s.pages[b] as int) else 0)
  {}

  // Only the producer pushes and only the consumer pops.
  lemma OwnEnd(s: System, b: nat, t: nat, k: nat)
    requires b < |s.producer| && b < |s.consumer| && Connected(s, b) && t < |s.threads| && k < |s.threads[t]|
    ensures s.threads[t][k] == Push(b) || s.threads[t][k] == Reserve(b) ==> t == s.producer[b]
    ensures s.threads[t][k] == Pop(b) || s.threads[t][k] == Wait(b) ==> t == s.consumer[b]
  {
    hide Once, Produces, Consumes;
    if t != s.producer[b] {
      assert Leaves(s.threads[t], b);
    }
    if t != s.consumer[b] {
      assert Ignores(s.threads[t], b);
    }
  }

  lemma CountsStep(s: System, x: State, t: nat, b: nat)
    requires |s.pages| == |s.capacity| == |s.producer| == |s.consumer| && Shaped(s, x) && b < |s.pages| && Connected(s, b) && t < |s.threads|
    ensures |Step(s, x, t).done| == |Step(s, x, t).at| == |s.threads|
    ensures Pushes(s, Step(s, x, t), b) == Pushes(s, x, b) + if s.threads[t][x.at[t]] == Push(b) then 1 else 0
    ensures Pops(s, Step(s, x, t), b) == Pops(s, x, b) + if s.threads[t][x.at[t]] == Pop(b) then 1 else 0
  {
    hide Once, Passed, Step;
    PassedStep(s, x, t, s.producer[b], Push(b));
    PassedStep(s, x, t, s.consumer[b], Pop(b));
    OwnEnd(s, b, t, x.at[t]);
  }

  lemma SoundStep(s: System, x: State, t: nat, b: nat)
    requires |s.pages| == |s.capacity| == |s.producer| == |s.consumer| && Shaped(s, x) && b < |s.pages| && Connected(s, b) && Sound(s, x, b)
    requires t < |s.threads| && Enabled(s, x, t) && Shaped(s, Step(s, x, t))
    ensures Sound(s, Step(s, x, t), b)
  {
    hide Once, Passed, Step, Pushes, Pops, Within, At, Leaves, Ignores;
    var y := Step(s, x, t);
    var i := s.threads[t][x.at[t]];
    var p, q := s.producer[b], s.consumer[b];
    CountsStep(s, x, t, b);
    HeldStep(s, x, t, b);
    OwnEnd(s, b, t, x.at[t]);
    TimesMore(s.pages[b], Pushes(s, x, b) - Pops(s, x, b));
    if i == Push(b) {
      WithinAtEnd(s, x, p, Reserve(b), Push(b));
    }
    if i == Pop(b) {
      WithinAtEnd(s, x, q, Wait(b), Pop(b));
    }
    if Within(s, y, p, Reserve(b), Push(b)) {
      WithinStep(s, x, t, p, Reserve(b), Push(b));
    }
    if Within(s, y, q, Wait(b), Pop(b)) {
      WithinStep(s, x, t, q, Wait(b), Pop(b));
    }
  }

  // Every step of every thread keeps the invariant.
  lemma InvStep(s: System, x: State, t: nat)
    requires IsSystem(s) && Inv(s, x) && t < |s.threads| && Enabled(s, x, t)
    ensures Inv(s, Step(s, x, t))
  {
    hide Refers, Connected, Sound, Step;
    StepIsShaped(s, x, t);
    forall b | 0 <= b < |s.pages|
      ensures Connected(s, b) && Sound(s, Step(s, x, t), b)
    {
      assert Connected(s, b) && Sound(s, x, b);
      SoundStep(s, x, t, b);
    }
  }

  /* Runs */

  // A run: the threads that step, in order.
  ghost predicate Run(s: System, x: State, steps: seq<nat>, y: State)
    decreases |steps|
  {
    if steps == [] then x == y
    else Shaped(s, x) && |s.capacity| == |s.pages| && steps[0] < |s.threads| && Enabled(s, x, steps[0]) && Run(s, Step(s, x, steps[0]), steps[1..], y)
  }

  lemma {:induction false} RunKeepsInv(s: System, x: State, steps: seq<nat>, y: State)
    requires IsSystem(s) && Inv(s, x) && Run(s, x, steps, y)
    ensures Inv(s, y)
    decreases |steps|
  {
    hide Connected, Sound, Refers, Step;
    if steps != [] {
      InvStep(s, x, steps[0]);
      RunKeepsInv(s, Step(s, x, steps[0]), steps[1..], y);
    }
  }

  // In every run the pages a buffer holds stay between zero and its capacity.
  lemma OccupancyIsBounded(s: System, steps: seq<nat>, y: State, b: nat)
    requires IsSystem(s) && Run(s, Start(s), steps, y) && b < |s.pages|
    ensures |y.held| == |s.pages| && 0 <= y.held[b] <= s.capacity[b]
  {
    hide Connected, Run, Refers;
    InvAtStart(s);
    RunKeepsInv(s, Start(s), steps, y);
  }

  // Every read is of a page that has been pushed and not popped: the page the producer pushed in
  // the execution of its block that the consumer is in.
  lemma ReadsAreOfPushedPages(s: System, steps: seq<nat>, y: State, t: nat, b: nat, page: nat)
    requires IsSystem(s) && Run(s, Start(s), steps, y) && t < |s.threads|
    requires Shaped(s, y) && s.threads[t][y.at[t]] == Read(b, page)
    ensures b < |s.pages| && Connected(s, b) && t == s.consumer[b]
    ensures Pops(s, y, b) == y.done[t] < Pushes(s, y, b)
    ensures var position := s.pages[b] * Pops(s, y, b) + page;
      s.pages[b] * Pops(s, y, b) <= position < s.pages[b] * Pushes(s, y, b)
  {
    hide Run, Step, Once, Sound, Connected, Pushes, Pops;
    InvAtStart(s);
    RunKeepsInv(s, Start(s), steps, y);
    ReadIsOfPushedPage(s, y, t, b, page);
  }

  lemma ReadIsOfPushedPage(s: System, y: State, t: nat, b: nat, page: nat)
    requires IsSystem(s) && Inv(s, y) && t < |s.threads| && s.threads[t][y.at[t]] == Read(b, page)
    ensures b < |s.pages| && page < s.pages[b] && Connected(s, b) && t == s.consumer[b]
    ensures Pops(s, y, b) == y.done[t] < Pushes(s, y, b)
    ensures s.pages[b] * Pops(s, y, b) + page < s.pages[b] * Pushes(s, y, b)
  {
    hide Step, Once;
    assert Refers(s, s.threads[t][y.at[t]]);
    assert Connected(s, b) && Sound(s, y, b);
    assert t != s.consumer[b] ==> Ignores(s.threads[t], b);
    MoreThan(s.pages[b], Pushes(s, y, b) - Pops(s, y, b));
    Spread(s.pages[b], Pushes(s, y, b), Pops(s, y, b));
  }

  // Every write is to a page that is not held: it overwrites nothing unpopped.
  lemma WritesAreToFreePages(s: System, steps: seq<nat>, y: State, t: nat, b: nat, page: nat)
    requires IsSystem(s) && Run(s, Start(s), steps, y) && t < |s.threads|
    requires Shaped(s, y) && s.threads[t][y.at[t]] == Write(b, page)
    ensures b < |s.pages| && Connected(s, b) && t == s.producer[b] && Pushes(s, y, b) == y.done[t]
    ensures var position := s.pages[b] * Pushes(s, y, b) + page;
      s.pages[b] * Pushes(s, y, b) <= position < s.pages[b] * Pops(s, y, b) + s.capacity[b]
  {
    hide Run, Step, Once, Sound, Connected, Pushes, Pops;
    InvAtStart(s);
    RunKeepsInv(s, Start(s), steps, y);
    WriteIsToFreePage(s, y, t, b, page);
  }

  lemma WriteIsToFreePage(s: System, y: State, t: nat, b: nat, page: nat)
    requires IsSystem(s) && Inv(s, y) && t < |s.threads| && s.threads[t][y.at[t]] == Write(b, page)
    ensures b < |s.pages| && page < s.pages[b] && Connected(s, b) && t == s.producer[b] && Pushes(s, y, b) == y.done[t]
    ensures s.pages[b] * Pushes(s, y, b) + page < s.pages[b] * Pops(s, y, b) + s.capacity[b]
  {
    hide Step, Once;
    assert Refers(s, s.threads[t][y.at[t]]);
    assert Connected(s, b) && Sound(s, y, b);
    assert t != s.producer[b] ==> Leaves(s.threads[t], b);
    Spread(s.pages[b], Pushes(s, y, b), Pops(s, y, b));
  }

  lemma MoreThan(n: nat, d: int)
    requires n > 0 && n * d >= n
    ensures d >= 1
  {
    assert d <= 0 ==> n * d <= 0;
  }

  lemma Spread(n: int, a: int, b: int)
    ensures n * (a - b) == n * a - n * b
  {}

  /* No deadlock */

  // Among the first n threads, an unfinished one that has finished its block least often and, of
  // those, is at the instruction with the lowest number.
  ghost predicate Foremost(s: System, x: State, rank: seq<seq<nat>>, n: nat, t: nat)
    requires Shaped(s, x) && Numbered(s.threads, rank) && n <= |s.threads|
  {
    && t < n && x.done[t] < s.times
    && forall u :: 0 <= u < n && x.done[u] < s.times ==>
         x.done[t] < x.done[u] || (x.done[t] == x.done[u] && rank[t][x.at[t]] <= rank[u][x.at[u]])
  }

  lemma {:induction false} ForemostExists(s: System, x: State, rank: seq<seq<nat>>, n: nat) returns (t: nat)
    requires Shaped(s, x) && Numbered(s.threads, rank) && n <= |s.threads|
    requires exists u :: 0 <= u < n && x.done[u] < s.times
    ensures Foremost(s, x, rank, n, t)
  {
    var last := n - 1;
    if exists u :: 0 <= u < last && x.done[u] < s.times {
      t := ForemostExists(s, x, rank, last);
      if x.done[last] < s.times && (x.done[last] < x.done[t] || (x.done[last] == x.done[t] && rank[last][x.at[last]] < rank[t][x.at[t]])) {
        t := last;
      }
    } else {
      t := last;
    }
  }

  lemma ForemostCanWait(s: System, x: State, rank: seq<seq<nat>>, t: nat, b: nat)
    requires IsSystem(s) && Inv(s, x) && Acyclic(s, rank) && Foremost(s, x, rank, |s.threads|, t)
    requires b < |s.pages| && s.threads[t][x.at[t]] == Wait(b)
    ensures x.held[b] >= s.pages[b]
  {
    hide Refers, Leaves, Ignores, Once;
    assert Connected(s, b) && Sound(s, x, b);
    OwnEnd(s, b, t, x.at[t]);
    var block := s.threads[t];
    assert IsAt(block, Wait(b), At(block, Wait(b))) && IsAt(block, Pop(b), At(block, Pop(b)));
    assert Pops(s, x, b) == x.done[t];
    var p := s.producer[b];
    if p == t {
      assert IsAt(block, Push(b), At(block, Push(b)));
    } else {
      assert PushesBelow(s, rank, b) && Rises(rank[p]);
    }
    assert Pushes(s, x, b) >= x.done[t] + 1;
    AtLeast(s.pages[b], Pushes(s, x, b) - Pops(s, x, b));
  }

  lemma AtLeast(n: nat, d: int)
    requires d >= 1
    ensures n * d >= n
  {}

  lemma ForemostCanReserve(s: System, x: State, rank: seq<seq<nat>>, t: nat, b: nat)
    requires IsSystem(s) && Inv(s, x) && Acyclic(s, rank) && Foremost(s, x, rank, |s.threads|, t)
    requires b < |s.pages| && s.threads[t][x.at[t]] == Reserve(b)
    ensures x.held[b] + s.pages[b] <= s.capacity[b]
  {
    hide Refers, Leaves, Ignores, Once;
    assert Connected(s, b) && Sound(s, x, b);
    OwnEnd(s, b, t, x.at[t]);
    var block := s.threads[t];
    assert IsAt(block, Reserve(b), At(block, Reserve(b))) && IsAt(block, Push(b), At(block, Push(b)));
    assert Pushes(s, x, b) == x.done[t];
    assert Pops(s, x, b) >= x.done[t];
    AtMost(s.pages[b], Pushes(s, x, b) - Pops(s, x, b));
  }

  lemma AtMost(n: nat, d: int)
    requires d <= 0
    ensures n * d <= 0
  {}

  lemma RefersWithin(s: System, i: Instr)
    requires Refers(s, i)
    ensures i.Wait? || i.Reserve? ==> i.cb < |s.pages|
  {}

  // While a thread is unfinished, some thread can step.
  lemma NoDeadlock(s: System, rank: seq<seq<nat>>, steps: seq<nat>, x: State) returns (t: nat)
    requires IsSystem(s) && Acyclic(s, rank) && Run(s, Start(s), steps, x)
    requires |x.done| == |s.threads| && exists u :: 0 <= u < |s.threads| && x.done[u] < s.times
    ensures Shaped(s, x) && t < |s.threads| && Enabled(s, x, t)
  {
    hide Connected, Sound, Run, Refers;
    InvAtStart(s);
    RunKeepsInv(s, Start(s), steps, x);
    t := ForemostExists(s, x, rank, |s.threads|);
    var i := s.threads[t][x.at[t]];
    RefersWithin(s, i);
    if i.Wait? {
      ForemostCanWait(s, x, rank, t, i.cb);
    } else if i.Reserve? {
      ForemostCanReserve(s, x, rank, t, i.cb);
    }
  }

  /* Every run ends */

  // The steps the first n threads have taken, and those they take in all.
  function StepsTaken(s: System, x: State, n: nat): nat
    requires |x.done| == |x.at| == |s.threads| && n <= |s.threads|
  {
    if n == 0 then 0 else StepsTaken(s, x, n - 1) + x.done[n - 1] * |s.threads[n - 1]| + x.at[n - 1]
  }

  function AllSteps(s: System, n: nat): nat
    requires n <= |s.threads|
  {
    if n == 0 then 0 else AllSteps(s, n - 1) + s.times * |s.threads[n - 1]|
  }

  lemma {:induction false} StepIsTaken(s: System, x: State, t: nat, n: nat)
    requires Shaped(s, x) && t < |s.threads| && n <= |s.threads|
    ensures |Step(s, x, t).done| == |Step(s, x, t).at| == |s.threads|
    ensures StepsTaken(s, Step(s, x, t), n) == StepsTaken(s, x, n) + if t < n then 1 else 0
  {
    hide HeldAfter;
    if n > 0 {
      StepIsTaken(s, x, t, n - 1);
      if t == n - 1 {
        TimesMore(|s.threads[t]|, x.done[t]);
      }
    }
  }

  lemma {:induction false} NothingTaken(s: System, n: nat)
    requires n <= |s.threads|
    ensures StepsTaken(s, Start(s), n) == 0
  {
    if n > 0 {
      NothingTaken(s, n - 1);
    }
  }

  lemma {:induction false} TakenIsBounded(s: System, x: State, n: nat)
    requires Shaped(s, x) && n <= |s.threads|
    ensures StepsTaken(s, x, n) <= AllSteps(s, n)
    ensures (forall t :: 0 <= t < n ==> x.done[t] == s.times) ==> StepsTaken(s, x, n) == AllSteps(s, n)
  {
    if n > 0 {
      TakenIsBounded(s, x, n - 1);
      if x.done[n - 1] < s.times {
        LessTimes(x.done[n - 1], s.times, |s.threads[n - 1]|);
      }
    }
  }

  lemma LessTimes(a: nat, b: nat, n: nat)
    requires a < b
    ensures a * n + n <= b * n
  {
    assert (a + 1) * n <= b * n;
  }

  lemma {:induction false} RunTakesItsSteps(s: System, x: State, steps: seq<nat>, y: State)
    requires IsSystem(s) && Inv(s, x) && Run(s, x, steps, y)
    ensures Inv(s, y) && StepsTaken(s, y, |s.threads|) == StepsTaken(s, x, |s.threads|) + |steps|
    decreases |steps|
  {
    hide Connected, Sound, Refers, Step, StepsTaken;
    if steps != [] {
      InvStep(s, x, steps[0]);
      StepIsTaken(s, x, steps[0], |s.threads|);
      RunTakesItsSteps(s, Step(s, x, steps[0]), steps[1..], y);
    }
  }

  // No run is longer than all the blocks, and one that cannot go on has executed them all and left
  // every buffer empty.
  lemma RunsComplete(s: System, rank: seq<seq<nat>>, steps: seq<nat>, y: State)
    requires IsSystem(s) && Acyclic(s, rank) && Run(s, Start(s), steps, y)
    ensures |steps| <= AllSteps(s, |s.threads|) && Shaped(s, y)
    ensures (forall t :: 0 <= t < |s.threads| ==> !Enabled(s, y, t)) ==>
      && |steps| == AllSteps(s, |s.threads|)
      && (forall t :: 0 <= t < |s.threads| ==> y.done[t] == s.times)
      && (forall b :: 0 <= b < |s.pages| ==> y.held[b] == 0)
  {
    hide Connected, Sound, Refers, Run, StepsTaken, AllSteps, Acyclic, Enabled;
    InvAtStart(s);
    NothingTaken(s, |s.threads|);
    RunTakesItsSteps(s, Start(s), steps, y);
    TakenIsBounded(s, y, |s.threads|);
    if forall t :: 0 <= t < |s.threads| ==> !Enabled(s, y, t) {
      if exists u :: 0 <= u < |s.threads| && y.done[u] < s.times {
        var t := NoDeadlock(s, rank, steps, y);
      }
      forall b | 0 <= b < |s.pages|
        ensures y.held[b] == 0
      {
        EmptyAtEnd(s, y, b);
      }
    }
  }

  lemma EmptyAtEnd(s: System, y: State, b: nat)
    requires Inv(s, y) && b < |s.pages| && forall t :: 0 <= t < |s.threads| ==> y.done[t] == s.times
    ensures y.held[b] == 0
  {
    hide Once, Leaves, Ignores;
    assert Connected(s, b) && Sound(s, y, b);
  }
}
