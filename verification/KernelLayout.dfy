/**
 Where contexts and stacks are: the scheduler's in the kernel image, those of the
 tasks in the task table and in pages from the allocator. They never overlap.
 */
module KernelLayout {
  import opened Paging
  import opened PagingRuns
  import opened PagingWindow
  import Switching

  /** The parts of the kernel image that matter here: boot stack, `scheduler_context` and the table of tasks. */
  datatype Image = Image(bootStack: nat, schedulerContext: nat, tasks: nat, end: nat)

  /** A linked image with room for `n` tasks: the three objects lie apart, below its end and within the window. */
  predicate Linked(img: Image, n: nat) {
    && KERNEL_HIGH <= img.bootStack && KERNEL_HIGH <= img.schedulerContext && KERNEL_HIGH <= img.tasks
    && img.bootStack + 4096 <= img.end && img.schedulerContext + 20 <= img.end && img.tasks + 44 * n <= img.end
    && img.end <= KERNEL_HIGH + 0x40_0000
    && Switching.Apart(img.bootStack, 4096, img.schedulerContext, 20)
    && Switching.Apart(img.bootStack, 4096, img.tasks, 44 * n)
    && Switching.Apart(img.schedulerContext, 20, img.tasks, 44 * n)
  }

  /** `struct task` has 44 bytes, its context at offset 8. */
  function ContextOf(img: Image, p: nat): int {
    if p == 0 then img.schedulerContext else img.tasks + 44 * (p - 1) + 8
  }

  function StackOf(img: Image, pages: seq<nat>, p: nat): int
    requires p <= |pages|
  {
    if p == 0 then img.bootStack else Phys2Virt(pages[p - 1])
  }

  /** Party 0 is the scheduler; party t + 1 is the task in slot t, with its stack in `pages[t]`. */
  function TaskLayout(img: Image, pages: seq<nat>): (lay: Switching.Layout)
    ensures |lay.ctx| == |lay.stack| == |pages| + 1
    ensures forall p | 0 <= p <= |pages| :: lay.ctx[p] == ContextOf(img, p) && lay.stack[p] == StackOf(img, pages, p)
  {
    Switching.Layout(seq(|pages| + 1, p requires 0 <= p <= |pages| => ContextOf(img, p)),
                     seq(|pages| + 1, p requires 0 <= p <= |pages| => StackOf(img, pages, p)))
  }

  /** Page `pages[t]` was handed out by call `lends[t]` of the run, each by a call of its own. */
  ghost predicate StacksTaken(trace: seq<Mm>, ops: seq<Op>, lends: seq<nat>, pages: seq<nat>)
    requires |ops| < |trace|
  {
    && |lends| == |pages|
    && (forall t | 0 <= t < |lends| :: lends[t] < |ops| && Taken(trace, ops, lends[t], pages[t]))
    && (forall t, u | 0 <= t < u < |lends| :: lends[t] != lends[u])
  }

  ghost predicate AboveImage(own: map<nat, Owner>, img: Image) {
    forall p | p in own :: img.end <= KERNEL_HIGH + 4096 * p
  }

  /** The pages `init_kalloc_early` pushes lie above the image. */
  lemma PoolAboveImage(m: Mm, fl: seq<nat>, own: map<nat, Owner>, img: Image)
    requires AllFree(m, fl, own) && KERNEL_HIGH <= img.end <= KERNEL_HIGH + 0x40_0000
    requires forall k | 0 <= k < |fl| :: fl[k] == (RoundUp(img.end) - KERNEL_HIGH) / 4096 + k
    ensures AboveImage(own, img)
  {
    RoundedAbove(img.end);
    forall p | p in own ensures img.end <= KERNEL_HIGH + 4096 * p { assert FreeTrue(fl, own, p); }
  }

  lemma RoundedAbove(end: nat)
    requires KERNEL_HIGH <= end <= KERNEL_HIGH + 0x40_0000
    ensures RoundUp(end) >= end && end <= KERNEL_HIGH + 4096 * ((RoundUp(end) - KERNEL_HIGH) / 4096)
  {
  }

  /** A page handed out in the run lies in the window, above the image. */
  lemma StackPlace(trace: seq<Mm>, dir: nat, ops: seq<Op>, fl: seq<nat>, own: map<nat, Owner>, img: Image, i: nat,
                   p: nat)
    requires IsRun(trace, dir, ops) && Owned(trace[0], dir, fl, own) && AboveImage(own, img) && i < |ops|
             && Taken(trace, ops, i, p)
    ensures p < WINDOW_PAGES && Phys2Virt(p) == KERNEL_HIGH + 4096 * p && img.end <= Phys2Virt(p)
  {
    var fl1, own1 := RunOwned(trace, dir, ops, fl, own, i);
    LendTakes(trace[i], dir, fl1, own1, p);
    assert p in own;
  }

  lemma StacksApart(trace: seq<Mm>, dir: nat, ops: seq<Op>, fl: seq<nat>, own: map<nat, Owner>, lends: seq<nat>,
                    pages: seq<nat>, t: nat, u: nat)
    requires IsRun(trace, dir, ops) && Owned(trace[0], dir, fl, own) && StacksTaken(trace, ops, lends, pages)
    requires t < u < |pages|
    ensures Switching.Apart(Phys2Virt(pages[t]), 4096, Phys2Virt(pages[u]), 4096)
  {
    assert Taken(trace, ops, lends[t], pages[t]) && Taken(trace, ops, lends[u], pages[u]);
    if lends[t] < lends[u] { StacksNeverShared(trace, dir, ops, fl, own, lends[t], lends[u], pages[t], pages[u]); }
    else { StacksNeverShared(trace, dir, ops, fl, own, lends[u], lends[t], pages[u], pages[t]); }
  }

  lemma ContextsApart(img: Image, n: nat, p: nat, q: nat)
    requires Linked(img, n) && p <= n && q <= n
    ensures KERNEL_HIGH <= ContextOf(img, p) && ContextOf(img, p) + 20 <= img.end
    ensures Switching.Apart(ContextOf(img, p), 20, img.bootStack, 4096)
    ensures p != q ==> Switching.Apart(ContextOf(img, p), 20, ContextOf(img, q), 20)
  {
  }

  /**
   The contexts and stacks of the scheduler and of any tasks set up in a run of
   the allocator form a layout without overlap: what the context switch needs.
   */
  lemma LayoutHolds(trace: seq<Mm>, dir: nat, ops: seq<Op>, fl: seq<nat>, own: map<nat, Owner>, img: Image,
                    lends: seq<nat>, pages: seq<nat>)
    requires IsRun(trace, dir, ops) && Owned(trace[0], dir, fl, own) && AboveImage(own, img)
    requires StacksTaken(trace, ops, lends, pages) && Linked(img, |pages|)
    ensures Switching.LayoutOk(TaskLayout(img, pages))
  {
    var lay, n := TaskLayout(img, pages), |pages|;
    forall t | 0 <= t < n
      ensures pages[t] < WINDOW_PAGES && Phys2Virt(pages[t]) == KERNEL_HIGH + 4096 * pages[t]
              && img.end <= Phys2Virt(pages[t])
    {
      assert Taken(trace, ops, lends[t], pages[t]);
      StackPlace(trace, dir, ops, fl, own, img, lends[t], pages[t]);
    }
    forall p | 0 <= p <= n ensures Switching.AddressOk(lay, p) { ContextsApart(img, n, p, p); }
    forall p, q | 0 <= p <= n && 0 <= q <= n ensures Switching.PartiesApart(lay, p, q) {
      ContextsApart(img, n, p, q);
      if 0 < p < q { StacksApart(trace, dir, ops, fl, own, lends, pages, p - 1, q - 1); }
      if 0 < q < p { StacksApart(trace, dir, ops, fl, own, lends, pages, q - 1, p - 1); }
    }
  }
}
