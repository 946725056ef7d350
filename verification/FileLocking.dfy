// The re-entrant lock over threads and processes: a re-entrant lock per path inside each process, and an
// operating-system lock on the file (storage/locking.py, lines 22-124).
module FileLocking {
  datatype Thread = Thread(process: nat, id: nat)

  type Key = string

  // One entered lock object that has not been exited.
  datatype Frame = Frame(key: Key, reentrant: bool)

  // Between calls, after taking the in-process lock, or after giving back the file lock.
  datatype Phase = Idle | Waiting(key: Key) | Releasing(key: Key)

  // `held` is the thread-local counter; `stack` is what the thread has entered, innermost last.
  datatype State = State(stack: seq<Frame>, phase: Phase, held: map<Key, nat>)

  datatype Owner = Owner(thread: Thread, count: nat)

  datatype World = World(threads: map<Thread, State>, inProcess: map<(nat, Key), Owner>, onFile: map<Key, Thread>)

  datatype Event =
    | TakeInProcess(t: Thread, key: Key)
    | TakeFile(t: Thread)
    | GiveUp(t: Thread)
    | Leave(t: Thread, at: nat)
    | Finish(t: Thread)

  const NEW: State := State([], Idle, map[])

  function StateOf(w: World, t: Thread): State {
    if t in w.threads then w.threads[t] else NEW
  }

  function HeldOf(s: State, key: Key): nat {
    if key in s.held then s.held[key] else 0
  }

  function Frames(stack: seq<Frame>, key: Key): nat {
    if stack == [] then 0
    else Frames(stack[..|stack| - 1], key) + if stack[|stack| - 1].key == key then 1 else 0
  }

  // How often the thread holds the in-process lock.
  function Depth(s: State, key: Key): nat {
    Frames(s.stack, key) + if s.phase == Waiting(key) || s.phase == Releasing(key) then 1 else 0
  }

  function Acquire(locks: map<(nat, Key), Owner>, t: Thread, key: Key): map<(nat, Key), Owner> {
    var at := (t.process, key);
    locks[at := Owner(t, if at in locks then locks[at].count + 1 else 1)]
  }

  function Release(locks: map<(nat, Key), Owner>, t: Thread, key: Key): map<(nat, Key), Owner> {
    var at := (t.process, key);
    if at !in locks || locks[at].count <= 1 then locks - {at} else locks[at := Owner(t, locks[at].count - 1)]
  }

  // Whether `acquire` on the in-process lock gets it.
  predicate Available(w: World, t: Thread, key: Key) {
    (t.process, key) !in w.inProcess || w.inProcess[(t.process, key)].thread == t
  }

  // Removing the entered lock at the given place; a well-behaved caller exits the innermost.
  function Without(stack: seq<Frame>, at: nat): seq<Frame>
    requires at < |stack|
  {
    stack[..at] + stack[at + 1..]
  }

  function Do(w: World, e: Event): World {
    var s := StateOf(w, e.t);
    match e
    case TakeInProcess(t, key) =>
      if !s.phase.Idle? || !Available(w, t, key) then w
      else if HeldOf(s, key) > 0 then
        w.(threads := w.threads[t := s.(stack := s.stack + [Frame(key, true)], held := s.held[key := HeldOf(s, key) + 1])],
           inProcess := Acquire(w.inProcess, t, key))
      else w.(threads := w.threads[t := s.(phase := Waiting(key))], inProcess := Acquire(w.inProcess, t, key))
    case TakeFile(t) =>
      if !s.phase.Waiting? || s.phase.key in w.onFile then w
      else
        var key := s.phase.key;
        w.(threads := w.threads[t := State(s.stack + [Frame(key, false)], Idle, s.held[key := 1])], onFile := w.onFile[key := t])
    case GiveUp(t) =>
      if !s.phase.Waiting? then w
      else w.(threads := w.threads[t := s.(phase := Idle)], inProcess := Release(w.inProcess, t, s.phase.key))
    case Leave(t, at) =>
      if !s.phase.Idle? || at >= |s.stack| then w
      else
        var f := s.stack[at];
        if f.reentrant then
          var n := HeldOf(s, f.key);
          w.(threads := w.threads[t := s.(stack := Without(s.stack, at), held := s.held[f.key := if n > 0 then n - 1 else 0])],
             inProcess := Release(w.inProcess, t, f.key))
        else
          w.(threads := w.threads[t := s.(stack := Without(s.stack, at), phase := Releasing(f.key))], onFile := w.onFile - {f.key})
    case Finish(t) =>
      if !s.phase.Releasing? then w
      else
        w.(threads := w.threads[t := s.(phase := Idle, held := s.held - {s.phase.key})],
           inProcess := Release(w.inProcess, t, s.phase.key))
  }

  function DoAll(w: World, es: seq<Event>): World {
    if es == [] then w else Do(DoAll(w, es[..|es| - 1]), es[|es| - 1])
  }

  // ---- The invariant ----

  // The first entry of a key is the one that holds the file lock; later ones are nested in it.
  ghost predicate Nested(stack: seq<Frame>) {
    stack == [] ||
    (var last := stack[|stack| - 1];
     Nested(stack[..|stack| - 1]) && (last.reentrant <==> Frames(stack[..|stack| - 1], last.key) > 0))
  }

  ghost predicate Consistent(w: World, t: Thread, key: Key) {
    var s := StateOf(w, t);
    && HeldOf(s, key) == Frames(s.stack, key) + (if s.phase == Releasing(key) then 1 else 0)
    && (s.phase == Waiting(key) || s.phase == Releasing(key) ==> Frames(s.stack, key) == 0)
    && (Depth(s, key) > 0 ==> (t.process, key) in w.inProcess && w.inProcess[(t.process, key)] == Owner(t, Depth(s, key)))
    && (Depth(s, key) == 0 ==> (t.process, key) in w.inProcess ==> w.inProcess[(t.process, key)].thread != t)
    && (Frames(s.stack, key) > 0 <==> key in w.onFile && w.onFile[key] == t)
  }

  ghost predicate Inv(w: World) {
    forall t, key :: Nested(StateOf(w, t).stack) && Consistent(w, t, key)
  }

  // The entry that holds a key's file lock is exited after those nested in it; last-in, first-out exits are.
  predicate Orderly(w: World, e: Event) {
    e.Leave? && e.at < |StateOf(w, e.t).stack| ==>
      var f := StateOf(w, e.t).stack[e.at];
      f.reentrant || Frames(StateOf(w, e.t).stack, f.key) == 1
  }

  lemma LastInFirstOut(w: World, t: Thread)
    requires Inv(w) && StateOf(w, t).stack != []
    ensures Orderly(w, Leave(t, |StateOf(w, t).stack| - 1))
  {
    var stack := StateOf(w, t).stack;
    assert Consistent(w, t, stack[|stack| - 1].key);
  }

  ghost predicate AllOrderly(w: World, es: seq<Event>) {
    es == [] || (AllOrderly(w, es[..|es| - 1]) && Orderly(DoAll(w, es[..|es| - 1]), es[|es| - 1]))
  }

  lemma FramesPush(stack: seq<Frame>, f: Frame, key: Key)
    ensures Frames(stack + [f], key) == Frames(stack, key) + if f.key == key then 1 else 0
  {
    assert (stack + [f])[..|stack|] == stack;
  }

  lemma NestedPush(stack: seq<Frame>, f: Frame)
    requires Nested(stack) && (f.reentrant <==> Frames(stack, f.key) > 0)
    ensures Nested(stack + [f])
  {
    assert (stack + [f])[..|stack|] == stack;
  }

  lemma {:induction false} FramesWithout(stack: seq<Frame>, at: nat, key: Key)
    requires at < |stack|
    ensures Frames(stack, key) == Frames(Without(stack, at), key) + if stack[at].key == key then 1 else 0
  {
    var init, last := stack[..|stack| - 1], stack[|stack| - 1];
    if at == |init| {
      assert Without(stack, at) == init;
    } else {
      FramesWithout(init, at, key);
      FramesPush(Without(init, at), last, key);
      assert Without(stack, at) == Without(init, at) + [last];
    }
  }

  // A nested entry has another one before it.
  lemma {:induction false} NestedTwice(stack: seq<Frame>, at: nat)
    requires Nested(stack) && at < |stack| && stack[at].reentrant
    ensures Frames(stack, stack[at].key) >= 2
  {
    if at < |stack| - 1 {
      NestedTwice(stack[..|stack| - 1], at);
    }
  }

  lemma {:induction false} NestedWithout(stack: seq<Frame>, at: nat)
    requires Nested(stack) && at < |stack| && (stack[at].reentrant || Frames(stack, stack[at].key) == 1)
    ensures Nested(Without(stack, at))
  {
    var init, last := stack[..|stack| - 1], stack[|stack| - 1];
    if at == |init| {
      assert Without(stack, at) == init;
    } else {
      FramesAt(init, at);
      NestedWithout(init, at);
      FramesWithout(init, at, last.key);
      if stack[at].reentrant { NestedTwice(init, at); }
      NestedPush(Without(init, at), last);
      assert Without(stack, at) == Without(init, at) + [last];
    }
  }

  lemma {:induction false} FramesAt(stack: seq<Frame>, at: nat)
    requires at < |stack|
    ensures Frames(stack, stack[at].key) >= 1
  {
    FramesWithout(stack, at, stack[at].key);
  }

  // What a step does to the thread that takes it, and to no other.
  lemma OthersKeep(w: World, e: Event, t: Thread)
    requires t != e.t
    ensures StateOf(Do(w, e), t) == StateOf(w, t)
  {
  }

  // Nobody else in the process has a lock that is available.
  lemma OnlyHolder(w: World, t: Thread, u: Thread, key: Key)
    requires Inv(w) && t.process == u.process && t != u && Available(w, t, key)
    ensures Depth(StateOf(w, u), key) == 0
  {
    assert Consistent(w, u, key);
  }

  lemma TakerKeeps(w: World, t: Thread, key: Key, k: Key)
    requires Inv(w) && StateOf(w, t).phase.Idle? && Available(w, t, key)
    ensures var w' := Do(w, TakeInProcess(t, key));
            Nested(StateOf(w', t).stack) && Consistent(w', t, k)
  {
    var s := StateOf(w, t);
    assert Consistent(w, t, key) && Consistent(w, t, k);
    FramesPush(s.stack, Frame(key, true), k);
    if HeldOf(s, key) > 0 { NestedPush(s.stack, Frame(key, true)); }
  }

  lemma TakeInProcessKeeps(w: World, t: Thread, key: Key)
    requires Inv(w)
    ensures Inv(Do(w, TakeInProcess(t, key)))
  {
    var w' := Do(w, TakeInProcess(t, key));
    if StateOf(w, t).phase.Idle? && Available(w, t, key) {
      forall u, k ensures Nested(StateOf(w', u).stack) && Consistent(w', u, k) {
        assert Consistent(w, u, k);
        if u == t {
          TakerKeeps(w, t, key, k);
        } else {
          OthersKeep(w, TakeInProcess(t, key), u);
          if u.process == t.process { OnlyHolder(w, t, u, key); }
        }
      }
    }
  }

  lemma TakeFileKeeps(w: World, t: Thread)
    requires Inv(w)
    ensures Inv(Do(w, TakeFile(t)))
  {
    var w' := Do(w, TakeFile(t));
    var s := StateOf(w, t);
    if s.phase.Waiting? && s.phase.key !in w.onFile {
      var key := s.phase.key;
      assert Consistent(w, t, key);
      NestedPush(s.stack, Frame(key, false));
      forall u, k ensures Nested(StateOf(w', u).stack) && Consistent(w', u, k) {
        assert Consistent(w, u, k);
        FramesPush(s.stack, Frame(key, false), k);
        if u != t { OthersKeep(w, TakeFile(t), u); }
      }
    }
  }

  lemma GiveUpKeeps(w: World, t: Thread)
    requires Inv(w)
    ensures Inv(Do(w, GiveUp(t)))
  {
    var w' := Do(w, GiveUp(t));
    forall u, k ensures Nested(StateOf(w', u).stack) && Consistent(w', u, k) {
      assert Consistent(w, u, k) && Consistent(w, t, k);
      if u != t { OthersKeep(w, GiveUp(t), u); }
    }
  }

  lemma FinishKeeps(w: World, t: Thread)
    requires Inv(w)
    ensures Inv(Do(w, Finish(t)))
  {
    var w' := Do(w, Finish(t));
    forall u, k ensures Nested(StateOf(w', u).stack) && Consistent(w', u, k) {
      assert Consistent(w, u, k) && Consistent(w, t, k);
      if u != t { OthersKeep(w, Finish(t), u); }
    }
  }

  lemma LeaverKeeps(w: World, t: Thread, at: nat, k: Key)
    requires Inv(w) && Orderly(w, Leave(t, at)) && StateOf(w, t).phase.Idle? && at < |StateOf(w, t).stack|
    ensures var w' := Do(w, Leave(t, at));
            Nested(StateOf(w', t).stack) && Consistent(w', t, k)
  {
    var s := StateOf(w, t);
    assert Consistent(w, t, s.stack[at].key) && Consistent(w, t, k);
    NestedWithout(s.stack, at);
    FramesAt(s.stack, at);
    FramesWithout(s.stack, at, k);
    if s.stack[at].reentrant { NestedTwice(s.stack, at); }
  }

  lemma LeaveKeeps(w: World, t: Thread, at: nat)
    requires Inv(w) && Orderly(w, Leave(t, at))
    ensures Inv(Do(w, Leave(t, at)))
  {
    var w' := Do(w, Leave(t, at));
    if StateOf(w, t).phase.Idle? && at < |StateOf(w, t).stack| {
      forall u, k ensures Nested(StateOf(w', u).stack) && Consistent(w', u, k) {
        if u == t {
          LeaverKeeps(w, t, at, k);
        } else {
          OthersKeep(w, Leave(t, at), u);
          LeaveElsewhere(w, t, at, u, k);
        }
      }
    }
  }

  lemma LeaveElsewhere(w: World, t: Thread, at: nat, u: Thread, k: Key)
    requires Inv(w) && u != t && StateOf(w, t).phase.Idle? && at < |StateOf(w, t).stack|
    ensures var w' := Do(w, Leave(t, at));
            Nested(StateOf(w', u).stack) && Consistent(w', u, k)
  {
    var key := StateOf(w, t).stack[at].key;
    assert Consistent(w, u, k) && Consistent(w, t, key);
    FramesAt(StateOf(w, t).stack, at);
  }

  lemma StepKeeps(w: World, e: Event)
    requires Inv(w) && Orderly(w, e)
    ensures Inv(Do(w, e))
  {
    match e
    case TakeInProcess(t, key) => TakeInProcessKeeps(w, t, key);
    case TakeFile(t) => TakeFileKeeps(w, t);
    case GiveUp(t) => GiveUpKeeps(w, t);
    case Leave(t, at) => LeaveKeeps(w, t, at);
    case Finish(t) => FinishKeeps(w, t);
  }

  const START: World := World(map[], map[], map[])

  lemma StartConsistent(t: Thread, key: Key)
    ensures Nested(StateOf(START, t).stack) && Consistent(START, t, key)
  {
    assert StateOf(START, t) == State([], Idle, map[]);
  }

  lemma {:induction false} AlwaysConsistent(es: seq<Event>)
    requires AllOrderly(START, es)
    ensures Inv(DoAll(START, es))
  {
    if es == [] {
      forall t, key ensures Nested(StateOf(START, t).stack) && Consistent(START, t, key) {
        StartConsistent(t, key);
      }
    } else {
      AlwaysConsistent(es[..|es| - 1]);
      StepKeeps(DoAll(START, es[..|es| - 1]), es[|es| - 1]);
    }
  }

  // A thread is inside a key's protected section.
  predicate Inside(w: World, t: Thread, key: Key) {
    Frames(StateOf(w, t).stack, key) > 0
  }

  // At most one thread of all processes is inside a key, and outside of an exit its counter is its nesting depth.
  lemma MutualExclusion(es: seq<Event>, t: Thread, u: Thread, key: Key)
    requires AllOrderly(START, es)
    ensures var w := DoAll(START, es);
            && (Inside(w, t, key) && Inside(w, u, key) ==> t == u)
            && (StateOf(w, t).phase != Releasing(key) ==> HeldOf(StateOf(w, t), key) == Frames(StateOf(w, t).stack, key))
            && (Inside(w, t, key) <==> key in w.onFile && w.onFile[key] == t)
  {
    AlwaysConsistent(es);
    assert Consistent(DoAll(START, es), t, key) && Consistent(DoAll(START, es), u, key);
  }

  // Only the outermost exit gives the file lock back.
  lemma OutermostReleases(es: seq<Event>, t: Thread)
    requires AllOrderly(START, es) && StateOf(DoAll(START, es), t).phase.Idle? && StateOf(DoAll(START, es), t).stack != []
    ensures var w := DoAll(START, es);
            var stack := StateOf(w, t).stack;
            var key := stack[|stack| - 1].key;
            key !in Do(w, Leave(t, |stack| - 1)).onFile <==> Frames(stack, key) == 1
  {
    AlwaysConsistent(es);
    var w := DoAll(START, es);
    var stack := StateOf(w, t).stack;
    assert Consistent(w, t, stack[|stack| - 1].key);
  }

  // An acquire that times out leaves every counter and every lock as it was.
  lemma FailedAcquireChangesNothing(w: World, t: Thread, key: Key)
    requires Inv(w) && StateOf(w, t).phase.Idle? && HeldOf(StateOf(w, t), key) == 0 && Available(w, t, key)
    ensures var w' := Do(Do(w, TakeInProcess(t, key)), GiveUp(t));
            w'.inProcess == w.inProcess && w'.onFile == w.onFile && forall u :: StateOf(w', u) == StateOf(w, u)
  {
    assert Consistent(w, t, key);
    assert (t.process, key) !in w.inProcess;
    var w1 := Do(w, TakeInProcess(t, key));
    assert w1.inProcess == w.inProcess[(t.process, key) := Owner(t, 1)];
    assert w1.inProcess - {(t.process, key)} == w.inProcess;
  }

  // Exiting an outer entry while another of the same key is nested in it breaks the invariant, and only that:
  // the file lock is free although the thread is still inside.
  lemma OutOfOrderExit(w: World, t: Thread, at: nat)
    requires Inv(w) && StateOf(w, t).phase.Idle? && at < |StateOf(w, t).stack|
    ensures Inv(Do(w, Leave(t, at))) <==> Orderly(w, Leave(t, at))
    ensures !Orderly(w, Leave(t, at)) ==>
              var key := StateOf(w, t).stack[at].key;
              Inside(Do(w, Leave(t, at)), t, key) && key !in Do(w, Leave(t, at)).onFile
  {
    if Orderly(w, Leave(t, at)) {
      LeaveKeeps(w, t, at);
    } else {
      var s := StateOf(w, t);
      var key := s.stack[at].key;
      FramesWithout(s.stack, at, key);
      assert !Consistent(Do(w, Leave(t, at)), t, key);
    }
  }
}
