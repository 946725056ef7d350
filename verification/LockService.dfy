// Entering and exiting the lock, with what other threads do while one waits as a parameter
// (storage/locking.py, lines 42-124).
module LockService {
  import opened FileLocking

  predicate Others(t: Thread, es: seq<Event>) {
    forall i :: 0 <= i < |es| ==> es[i].t != t
  }

  lemma {:induction false} OthersKeepState(w: World, t: Thread, es: seq<Event>)
    requires Others(t, es)
    ensures StateOf(DoAll(w, es), t) == StateOf(w, t)
  {
    if es != [] {
      OthersKeepState(w, t, es[..|es| - 1]);
      OthersKeep(DoAll(w, es[..|es| - 1]), es[|es| - 1], t);
    }
  }

  lemma {:induction false} DoSplit(w: World, xs: seq<Event>, ys: seq<Event>)
    ensures DoAll(w, xs + ys) == DoAll(DoAll(w, xs), ys)
  {
    if ys == [] {
      assert xs + ys == xs;
    } else {
      assert (xs + ys)[..|xs + ys| - 1] == xs + ys[..|ys| - 1];
      DoSplit(w, xs, ys[..|ys| - 1]);
    }
  }

  lemma DoLast(w: World, es: seq<Event>, e: Event)
    ensures DoAll(w, es + [e]) == Do(DoAll(w, es), e)
  {
    assert (es + [e])[..|es|] == es;
  }

  lemma EventsJoin(w: World, t: Thread, es: seq<Event>, waited: seq<Event>, last: Event)
    requires Others(t, waited) && !last.Leave? && forall i :: 0 <= i < |es| && es[i].t == t ==> !es[i].Leave?
    ensures var all := es + (waited + [last]);
            && DoAll(w, all) == DoAll(DoAll(w, es), waited + [last])
            && forall i :: 0 <= i < |all| && all[i].t == t ==> !all[i].Leave?
  {
    DoSplit(w, es, waited + [last]);
  }

  class LockTable {
    var threads: map<Thread, State>
    var inProcess: map<(nat, Key), Owner>
    var onFile: map<Key, Thread>

    function Now(): World
      reads this
    {
      World(threads, inProcess, onFile)
    }

    method Elapse(es: seq<Event>)
      modifies this
      ensures Now() == DoAll(old(Now()), es)
    {
      var w := DoAll(Now(), es);
      threads, inProcess, onFile := w.threads, w.inProcess, w.onFile;
    }

    // The in-process lock, tried once.
    method TryInProcess(t: Thread, key: Key) returns (got: bool)
      requires StateOf(Now(), t).phase.Idle?
      modifies this
      ensures Now() == Do(old(Now()), TakeInProcess(t, key)) && got == Available(old(Now()), t, key)
    {
      var at, s := (t.process, key), if t in threads then threads[t] else NEW;
      if at in inProcess && inProcess[at].thread != t {
        return false;
      }
      inProcess := inProcess[at := Owner(t, if at in inProcess then inProcess[at].count + 1 else 1)];
      if key in s.held && s.held[key] > 0 {
        threads := threads[t := s.(stack := s.stack + [Frame(key, true)], held := s.held[key := s.held[key] + 1])];
      } else {
        threads := threads[t := s.(phase := Waiting(key))];
      }
      got := true;
    }

    // The file lock, tried once.
    method TryFile(t: Thread) returns (got: bool)
      requires StateOf(Now(), t).phase.Waiting?
      modifies this
      ensures Now() == Do(old(Now()), TakeFile(t)) && got == (StateOf(old(Now()), t).phase.key !in old(onFile))
    {
      var s := threads[t];
      if s.phase.key in onFile {
        return false;
      }
      onFile := onFile[s.phase.key := t];
      threads := threads[t := State(s.stack + [Frame(s.phase.key, false)], Idle, s.held[s.phase.key := 1])];
      got := true;
    }

    // `acquire(timeout=...)`: tried again after each round of what the others do.
    method WaitInProcess(t: Thread, key: Key, rounds: seq<seq<Event>>) returns (got: bool, ghost es: seq<Event>)
      requires StateOf(Now(), t).phase.Idle? && forall i :: 0 <= i < |rounds| ==> Others(t, rounds[i])
      modifies this
      ensures Now() == DoAll(old(Now()), if got then es + [TakeInProcess(t, key)] else es)
      ensures Others(t, es) && (got ==> Available(DoAll(old(Now()), es), t, key))
    {
      ghost var w := Now();
      es := [];
      for i := 0 to |rounds|
        invariant Others(t, es) && Now() == DoAll(w, es) && StateOf(Now(), t) == StateOf(w, t)
      {
        got := TryInProcess(t, key);
        if got {
          DoLast(w, es, TakeInProcess(t, key));
          return;
        }
        Elapse(rounds[i]);
        DoSplit(w, es, rounds[i]);
        es := es + rounds[i];
        OthersKeepState(w, t, es);
      }
      got := TryInProcess(t, key);
      DoLast(w, es, TakeInProcess(t, key));
    }

    // `_acquire_process_lock`
    method WaitFile(t: Thread, rounds: seq<seq<Event>>) returns (got: bool, ghost es: seq<Event>)
      requires StateOf(Now(), t).phase.Waiting? && forall i :: 0 <= i < |rounds| ==> Others(t, rounds[i])
      modifies this
      ensures Now() == DoAll(old(Now()), if got then es + [TakeFile(t)] else es)
      ensures Others(t, es) && (got ==> StateOf(old(Now()), t).phase.key !in DoAll(old(Now()), es).onFile)
    {
      ghost var w := Now();
      es := [];
      for i := 0 to |rounds|
        invariant Others(t, es) && Now() == DoAll(w, es) && StateOf(Now(), t) == StateOf(w, t)
      {
        got := TryFile(t);
        if got {
          DoLast(w, es, TakeFile(t));
          return;
        }
        Elapse(rounds[i]);
        DoSplit(w, es, rounds[i]);
        es := es + rounds[i];
        OthersKeepState(w, t, es);
      }
      got := TryFile(t);
      DoLast(w, es, TakeFile(t));
    }

    method DropInProcess(t: Thread, key: Key)
      modifies this`inProcess
      ensures inProcess == Release(old(inProcess), t, key)
    {
      var at := (t.process, key);
      if at in inProcess && inProcess[at].count > 1 {
        inProcess := inProcess[at := Owner(t, inProcess[at].count - 1)];
      } else {
        inProcess := inProcess - {at};
      }
    }

    // `__enter__`: either the thread is one entry deeper in the key, or it is as it was. `es` is what it and
    // the others did.
    method Enter(t: Thread, key: Key, before: seq<seq<Event>>, between: seq<seq<Event>>)
      returns (entered: bool, ghost es: seq<Event>)
      requires StateOf(Now(), t).phase.Idle?
      requires forall i :: 0 <= i < |before| ==> Others(t, before[i])
      requires forall i :: 0 <= i < |between| ==> Others(t, between[i])
      modifies this
      ensures Now() == DoAll(old(Now()), es) && forall i :: 0 <= i < |es| && es[i].t == t ==> !es[i].Leave?
      ensures entered ==>
                && StateOf(Now(), t).phase.Idle?
                && StateOf(Now(), t).stack == StateOf(old(Now()), t).stack + [Frame(key, HeldOf(StateOf(old(Now()), t), key) > 0)]
                && HeldOf(StateOf(Now(), t), key) == HeldOf(StateOf(old(Now()), t), key) + 1
      ensures !entered ==> StateOf(Now(), t) == StateOf(old(Now()), t)
    {
      ghost var w := Now();
      entered, es := WaitInProcess(t, key, before);
      OthersKeepState(w, t, es);
      if !entered {
        return;
      }
      DoLast(w, es, TakeInProcess(t, key));
      es := es + [TakeInProcess(t, key)];
      if threads[t].phase.Idle? {
        return;
      }
      entered, es := EnterFile(t, key, between, w, es);
    }

    // The second half: the file lock, or giving the in-process lock back.
    method EnterFile(t: Thread, key: Key, rounds: seq<seq<Event>>, ghost w: World, ghost es0: seq<Event>)
      returns (entered: bool, ghost es: seq<Event>)
      requires StateOf(Now(), t).phase == Waiting(key) && Now() == DoAll(w, es0)
      requires forall i :: 0 <= i < |rounds| ==> Others(t, rounds[i])
      requires forall i :: 0 <= i < |es0| && es0[i].t == t ==> !es0[i].Leave?
      modifies this
      ensures Now() == DoAll(w, es) && forall i :: 0 <= i < |es| && es[i].t == t ==> !es[i].Leave?
      ensures var s := StateOf(old(Now()), t);
              StateOf(Now(), t) == if entered then State(s.stack + [Frame(key, false)], Idle, s.held[key := 1]) else s.(phase := Idle)
    {
      ghost var w1, waited := Now(), [];
      entered, waited := WaitFile(t, rounds);
      OthersKeepState(w1, t, waited);
      if !entered {
        threads := threads[t := threads[t].(phase := Idle)];
        DropInProcess(t, key);
      }
      ghost var last := if entered then TakeFile(t) else GiveUp(t);
      DoLast(w1, waited, last);
      EventsJoin(w, t, es0, waited, last);
      es := es0 + (waited + [last]);
    }

    // `__exit__` of the innermost entry.
    method Exit(t: Thread, meanwhile: seq<Event>)
      requires StateOf(Now(), t).phase.Idle? && StateOf(Now(), t).stack != [] && Others(t, meanwhile)
      modifies this
      ensures var w := old(Now());
              var stack := StateOf(w, t).stack;
              Now() == if stack[|stack| - 1].reentrant then Do(w, Leave(t, |stack| - 1))
                       else Do(DoAll(Do(w, Leave(t, |stack| - 1)), meanwhile), Finish(t))
    {
      ghost var w := Now();
      var s := threads[t];
      var f := s.stack[|s.stack| - 1];
      assert Without(s.stack, |s.stack| - 1) == s.stack[..|s.stack| - 1];
      if f.reentrant {
        var n := if f.key in s.held then s.held[f.key] else 0;
        threads := threads[t := s.(stack := s.stack[..|s.stack| - 1], held := s.held[f.key := if n > 0 then n - 1 else 0])];
        DropInProcess(t, f.key);
        return;
      }
      onFile := onFile - {f.key};
      threads := threads[t := s.(stack := s.stack[..|s.stack| - 1], phase := Releasing(f.key))];
      ghost var w1 := Now();
      Elapse(meanwhile);
      OthersKeepState(w1, t, meanwhile);
      s := StateOf(Now(), t);
      threads := threads[t := s.(phase := Idle, held := s.held - {f.key})];
      DropInProcess(t, f.key);
    }
  }
}
