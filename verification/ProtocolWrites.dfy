/**
 Steps of the disk and sleep protocol, seen in the byte memory of the stack
 machine: they write what own code may write there.
 */
module ProtocolWrites {
  import opened Kernel
  import opened KernelRuns
  import Machine
  import Switching
  import SwitchRuns

  /** A request is a structure of 24 bytes; memory words have two. */
  predicate InRequest(b: Addr, x: int) { b <= x < b + 24 }

  predicate InBuffer(f: Frame, x: int) { f.buf0 <= x / 2 < f.buf0 + SECTOR_WORDS * f.n }

  /** Party number of a task; party 0 is the scheduler. */
  function Party(t: nat): nat { t + 1 }

  predicate InStack(lay: Switching.Layout, p: nat, x: int)
    requires p < |lay.stack|
  {
    lay.stack[p] <= x < lay.stack[p] + 4096
  }

  predicate InContext(lay: Switching.Layout, p: nat, x: int)
    requires p < |lay.ctx|
  {
    lay.ctx[p] <= x < lay.ctx[p] + 20
  }

  ghost predicate BytePlaced(lay: Switching.Layout, p: nat, x: int)
    requires Switching.LayoutOk(lay)
  {
    && (forall r: nat | r < |lay.ctx| :: !InContext(lay, r, x))
    && (forall r: nat | r < |lay.ctx| && r != p :: !InStack(lay, r, x))
  }

  /** A request is on the stack of its task, and its buffer is on no other stack and in no context. */
  ghost predicate Placed(lay: Switching.Layout, s: Sys, b: Addr)
    requires Switching.LayoutOk(lay) && b in s.frames
  {
    && Party(s.frames[b].task) < |lay.ctx|
    && (forall x | InRequest(b, x) :: InStack(lay, Party(s.frames[b].task), x))
    && (forall x | InBuffer(s.frames[b], x) :: BytePlaced(lay, Party(s.frames[b].task), x))
  }

  ghost predicate AllPlaced(lay: Switching.Layout, s: Sys)
    requires Switching.LayoutOk(lay)
  {
    forall b | b in s.frames :: Placed(lay, s, b)
  }

  /** A suspended task has opened its request and its buffer. */
  ghost predicate OpenedFor(s: Sys, b: Addr, saved: map<nat, SwitchRuns.Saved>)
    requires b in s.frames
  {
    Party(s.frames[b].task) in saved ==>
      forall x | InRequest(b, x) || InBuffer(s.frames[b], x) ::
        SwitchRuns.InOpen(saved[Party(s.frames[b].task)].open, x)
  }

  /** Byte `x` is part of a request or of a word of memory that differs. */
  ghost predicate Differs(s: Sys, s': Sys, x: int) {
    || !SameWordAt(s.mem, s'.mem, x / 2)
    || exists b :: InRequest(b, x) && RequestDiffers(s, s', b)
  }

  ghost predicate RequestDiffers(s: Sys, s': Sys, b: Addr) {
    b in s'.frames && (b !in s.frames || s'.frames[b] != s.frames[b])
  }

  /** The suspended parties are those that are not on the processor. */
  ghost predicate Suspends(s: Sys, saved: map<nat, SwitchRuns.Saved>) {
    s.cpu.OnTask? ==> Party(s.cpu.task) !in saved
  }

  /** A byte the step writes lies in no context, and on a suspended stack only in an open range. */
  ghost predicate MayWrite(lay: Switching.Layout, saved: map<nat, SwitchRuns.Saved>, x: int)
    requires Switching.LayoutOk(lay)
  {
    && (forall p: nat | p < |lay.ctx| :: !InContext(lay, p, x))
    && (forall p: nat | p < |lay.ctx| && p in saved && InStack(lay, p, x) :: SwitchRuns.InOpen(saved[p].open, x))
  }

  lemma OnStackOnly(lay: Switching.Layout, p: nat, x: int)
    requires Switching.LayoutOk(lay) && p < |lay.ctx| && InStack(lay, p, x)
    ensures BytePlaced(lay, p, x)
  {
    forall r: nat | r < |lay.ctx| ensures !InContext(lay, r, x) && (r != p ==> !InStack(lay, r, x)) {
      assert Switching.PartiesApart(lay, r, p);
    }
  }

  lemma WordMayBeWritten(lay: Switching.Layout, trace: seq<Sys>, steps: seq<Step>, i: nat,
                         saved: map<nat, SwitchRuns.Saved>, x: int)
    requires Switching.LayoutOk(lay) && Started(trace, steps) && i < |steps| && !steps[i].Scribble?
    requires AllPlaced(lay, trace[i]) && forall b | b in trace[i].frames :: OpenedFor(trace[i], b, saved)
    requires !SameWordAt(trace[i].mem, trace[i + 1].mem, x / 2)
    ensures MayWrite(lay, saved, x)
  {
    var b := WordChanges(trace, steps, i, x / 2);
    assert Placed(lay, trace[i], b) && OpenedFor(trace[i], b, saved) && InBuffer(trace[i].frames[b], x);
    assert BytePlaced(lay, Party(trace[i].frames[b].task), x);
  }

  lemma RequestMayBeWritten(lay: Switching.Layout, trace: seq<Sys>, steps: seq<Step>, i: nat,
                            saved: map<nat, SwitchRuns.Saved>, b: Addr, x: int)
    requires Switching.LayoutOk(lay) && Started(trace, steps) && i < |steps| && Suspends(trace[i], saved)
    requires AllPlaced(lay, trace[i + 1]) && forall b | b in trace[i].frames :: OpenedFor(trace[i], b, saved)
    requires InRequest(b, x) && RequestDiffers(trace[i], trace[i + 1], b)
    ensures MayWrite(lay, saved, x)
  {
    var t := trace[i + 1].frames[b].task;
    assert Placed(lay, trace[i + 1], b) && InStack(lay, Party(t), x);
    OnStackOnly(lay, Party(t), x);
    RunFrameTask(trace, steps, i, b);
    if trace[i].cpu != OnTask(t) { assert OpenedFor(trace[i], b, saved); }
  }

  /**
   Whatever step of the protocol is taken: if the byte memory changes only where
   requests or words of the protocol's memory do, the change is one that code of
   the running party may make, with the request and the buffer of each sleeping
   `ata_read` as its task's open ranges.
   */
  lemma ProtocolIsOwnCode(lay: Switching.Layout, trace: seq<Sys>, steps: seq<Step>, i: nat,
                          saved: map<nat, SwitchRuns.Saved>, mem: Machine.Memory, mem': Machine.Memory)
    requires Switching.LayoutOk(lay) && Started(trace, steps) && i < |steps| && !steps[i].Scribble?
    requires AllPlaced(lay, trace[i]) && AllPlaced(lay, trace[i + 1]) && Suspends(trace[i], saved)
    requires forall b | b in trace[i].frames :: OpenedFor(trace[i], b, saved)
    requires forall x | Machine.Get(mem', x) != Machine.Get(mem, x) :: Differs(trace[i], trace[i + 1], x)
    requires forall p | p in saved :: p < |lay.ctx| && lay.stack[p] <= saved[p].snap.esp
    ensures SwitchRuns.OwnWrites(lay, mem, mem', saved)
  {
    forall x | Machine.Get(mem', x) != Machine.Get(mem, x) ensures MayWrite(lay, saved, x) {
      assert Differs(trace[i], trace[i + 1], x);
      if !SameWordAt(trace[i].mem, trace[i + 1].mem, x / 2) { WordMayBeWritten(lay, trace, steps, i, saved, x); }
      else {
        var b :| InRequest(b, x) && RequestDiffers(trace[i], trace[i + 1], b);
        RequestMayBeWritten(lay, trace, steps, i, saved, b, x);
      }
    }
    WritesAreOwn(lay, saved, mem, mem');
  }

  lemma WritesAreOwn(lay: Switching.Layout, saved: map<nat, SwitchRuns.Saved>, mem: Machine.Memory,
                     mem': Machine.Memory)
    requires Switching.LayoutOk(lay)
    requires forall x | Machine.Get(mem', x) != Machine.Get(mem, x) :: MayWrite(lay, saved, x)
    requires forall p | p in saved :: p < |lay.ctx| && lay.stack[p] <= saved[p].snap.esp
    ensures SwitchRuns.OwnWrites(lay, mem, mem', saved)
  {
    forall p: nat | p < |lay.ctx| ensures Machine.Same(mem, mem', lay.ctx[p], lay.ctx[p] + 20) {
      forall x | lay.ctx[p] <= x < lay.ctx[p] + 20 ensures Machine.Get(mem', x) == Machine.Get(mem, x) {
        assert InContext(lay, p, x);
      }
    }
    forall p: nat | p < |lay.ctx| && p in saved ensures SwitchRuns.StackKept(lay, mem, mem', p, saved[p]) {
      forall x | saved[p].snap.esp <= x < lay.stack[p] + 4096 && !SwitchRuns.InOpen(saved[p].open, x)
        ensures Machine.Get(mem', x) == Machine.Get(mem, x)
      {
        assert InStack(lay, p, x);
      }
    }
  }
}
