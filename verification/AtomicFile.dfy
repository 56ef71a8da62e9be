/** Replacing a file through a temporary and a rename, step by step, with
    failures and crashes at any point. */
module AtomicFile {
  import opened Basics

  /** The target file and the temporary beside it; None: absent. */
  datatype Fs = Fs(target: Option<string>, tmp: Option<string>)

  datatype Writer =
    | Idle
    | Opening(content: string)
    | Writing(content: string, done: nat)
    | Flushed(content: string)
    | Failing(content: string)
    | Returned(content: string, ok: bool)

  datatype Step =
    | Call(content: string)
    | Open(ok: bool)
    | Put(n: nat)
    | Flush(ok: bool)
    | Rename(ok: bool)
    | Remove(ok: bool)
    | Crash

  datatype State = State(fs: Fs, writer: Writer)

  predicate Ready(w: Writer) {
    w.Idle? || w.Returned?
  }

  /** One step of the single writer; a step that does not fit changes nothing. */
  function Take(s: State, step: Step): State {
    match (step, s.writer)
    case (Call(content), Idle) => s.(writer := Opening(content))
    case (Call(content), Returned(_, _)) => s.(writer := Opening(content))
    case (Open(ok), Opening(content)) =>
      if ok then State(s.fs.(tmp := Some("")), Writing(content, 0)) else s.(writer := Returned(content, false))
    case (Put(n), Writing(content, done)) =>
      if done + n <= |content|
      then State(s.fs.(tmp := Some(content[..done + n])), Writing(content, done + n)) else s
    case (Flush(ok), Writing(content, _)) =>
      if ok then State(s.fs.(tmp := Some(content)), Flushed(content)) else s.(writer := Failing(content))
    case (Rename(ok), Flushed(content)) =>
      if ok then State(Fs(s.fs.tmp, None), Returned(content, true)) else s.(writer := Failing(content))
    case (Remove(ok), Failing(content)) =>
      State(if ok then s.fs.(tmp := None) else s.fs, Returned(content, false))
    case (Crash, _) => s.(writer := Idle)
    case _ => s
  }

  function Replay(init: State, steps: seq<Step>): State {
    if steps == [] then init else Take(Replay(init, steps[..|steps| - 1]), steps[|steps| - 1])
  }

  /** Step c is a call that the writer accepts. */
  predicate Called(init: State, steps: seq<Step>, c: nat) {
    c < |steps| && steps[c].Call? && Ready(Replay(init, steps[..c]).writer)
  }

  /** A state since a call to put x where the target held was: the target holds
      exactly that, or the full new content; the new when the call has returned
      true, the old when it has returned false or is still on its way. */
  predicate Replacing(was: Option<string>, x: string, s: State) {
    && (s.fs.target == was || s.fs.target == Some(x))
    && (s.writer.Returned? && s.writer.ok ==> s.fs.target == Some(x))
    && (s.writer.Returned? && !s.writer.ok ==> s.fs.target == was)
    && (!Ready(s.writer) ==> s.fs.target == was && s.writer.content == x)
    && (s.writer.Writing? ==> s.writer.done <= |x| && s.fs.tmp == Some(x[..s.writer.done]))
    && (s.writer.Flushed? ==> s.fs.tmp == Some(x))
  }

  lemma TakeReplaces(was: Option<string>, x: string, s: State, step: Step)
    requires Replacing(was, x, s) && !(step.Call? && Ready(s.writer))
    ensures Replacing(was, x, Take(s, step))
  {
  }

  lemma CallReplaces(s: State, x: string)
    requires Ready(s.writer)
    ensures Replacing(s.fs.target, x, Take(s, Call(x)))
  {
  }

  /** In every interleaving with failures and crashes, and so for a reader at any
      moment n after a call and before the next one, the target is being replaced
      whole: it holds what it held at the call, or the full new content. */
  lemma {:induction false} OldOrNew(init: State, steps: seq<Step>, c: nat, n: nat)
    requires c < n <= |steps| && Called(init, steps, c)
    requires forall i: nat | c < i < n :: !Called(init, steps, i)
    ensures Replacing(Replay(init, steps[..c]).fs.target, steps[c].content, Replay(init, steps[..n]))
  {
    hide Take, Replacing;
    assert steps[..n][..n - 1] == steps[..n - 1];
    var before := Replay(init, steps[..n - 1]);
    if n - 1 == c {
      CallReplaces(before, steps[c].content);
    } else {
      OldOrNew(init, steps, c, n - 1);
      assert !Called(init, steps, n - 1);
      TakeReplaces(Replay(init, steps[..c]).fs.target, steps[c].content, before, steps[n - 1]);
    }
  }

  /** Before the first call the target is what it was. */
  lemma {:induction false} UntouchedBefore(init: State, steps: seq<Step>, n: nat)
    requires n <= |steps| && init.writer.Idle?
    requires forall i: nat | i < n :: !Called(init, steps, i)
    ensures Replay(init, steps[..n]) == init
  {
    if n == 0 {
    } else {
      assert steps[..n][..n - 1] == steps[..n - 1];
      UntouchedBefore(init, steps, n - 1);
      assert !Called(init, steps, n - 1);
    }
  }

  /** The step of a call that goes wrong, if any does. */
  datatype Fault = NoFault | CannotOpen | CannotFlush | CannotRename

  /** A disk with one writer. */
  class Disk {
    var fs: Fs

    constructor (target: Option<string>)
      ensures fs == Fs(target, None)
    {
      fs := Fs(target, None);
    }

    method Advance(w: Writer, step: Step) returns (next: Writer)
      modifies this
      ensures State(fs, next) == Take(State(old(fs), w), step)
    {
      var s := Take(State(fs, w), step);
      fs := s.fs;
      return s.writer;
    }

    /** Open, write in pieces, flush, rename; clean up on failure. Which step
        fails is the environment's choice, and so is the size of the pieces. */
    method WriteFileAtomic(content: string, fault: Fault) returns (ok: bool, error: string)
      modifies this
      ensures ok <==> fault == NoFault
      ensures fs.target == if ok then Some(content) else old(fs.target)
      ensures !ok ==> error != ""
    {
      error := "";
      var w := Opening(content);
      w := Advance(w, Open(fault != CannotOpen));
      if fault == CannotOpen {
        return false, "cannot write temporary (permission?)";
      }
      var done := 0;
      var stop :| 0 <= stop <= |content|;
      while done < stop
        invariant done <= stop && w == Writing(content, done)
        invariant fs == Fs(old(fs.target), Some(content[..done]))
      {
        var n :| 0 < n <= stop - done;
        w := Advance(w, Put(n));
        done := done + n;
      }
      w := Advance(w, Flush(fault != CannotFlush));
      if fault == CannotFlush {
        var removed: bool := *;
        w := Advance(w, Remove(removed));
        return false, "failed writing temporary (disk full?)";
      }
      w := Advance(w, Rename(fault != CannotRename));
      if fault == CannotRename {
        var removed: bool := *;
        w := Advance(w, Remove(removed));
        return false, "rename failed";
      }
      return true, "";
    }
  }
}
