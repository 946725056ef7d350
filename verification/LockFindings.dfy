// A run in which an outer entry of a key is left before the one nested in it, and a second process gets inside
// (storage/locking.py, lines 92-108).
module LockFindings {
  import opened FileLocking
  import LockService

  function Locks(t: Thread, key: Key, count: nat): map<(nat, Key), Owner> {
    map[(t.process, key) := Owner(t, count)]
  }

  // The states of the run, one after each step of the first thread.
  function Waits(t: Thread, key: Key): World {
    World(map[t := State([], Waiting(key), map[])], Locks(t, key, 1), map[])
  }

  function Entered(t: Thread, key: Key): World {
    World(map[t := State([Frame(key, false)], Idle, map[key := 1])], Locks(t, key, 1), map[key := t])
  }

  function EnteredTwice(t: Thread, key: Key): World {
    World(map[t := State([Frame(key, false)] + [Frame(key, true)], Idle, map[key := 2])], Locks(t, key, 2), map[key := t])
  }

  function OuterLeft(t: Thread, key: Key): World {
    World(map[t := State([Frame(key, true)], Releasing(key), map[key := 2])], Locks(t, key, 2), map[])
  }

  // Another thread enters beside it.
  function BothInside(t: Thread, u: Thread, key: Key): World {
    World(OuterLeft(t, key).threads[u := State([Frame(key, false)], Idle, map[key := 1])],
          OuterLeft(t, key).inProcess[(u.process, key) := Owner(u, 1)], map[key := u])
  }

  lemma FirstEntry(t: Thread, key: Key)
    ensures Do(START, TakeInProcess(t, key)) == Waits(t, key) && Do(Waits(t, key), TakeFile(t)) == Entered(t, key)
  {
    assert [] + [Frame(key, false)] == [Frame(key, false)];
  }

  lemma SecondEntry(t: Thread, key: Key)
    ensures Do(Entered(t, key), TakeInProcess(t, key)) == EnteredTwice(t, key)
  {
    var w := Entered(t, key);
    assert StateOf(w, t) == State([Frame(key, false)], Idle, map[key := 1]) && HeldOf(StateOf(w, t), key) == 1;
    assert Acquire(w.inProcess, t, key) == Locks(t, key, 2);
    assert map[key := 1][key := 2] == map[key := 2];
    var s := State([Frame(key, false)] + [Frame(key, true)], Idle, map[key := 2]);
    assert w.threads[t := s] == map[t := s];
  }

  lemma OneFrame(f: Frame)
    ensures Frames([f], f.key) == 1
  {
    assert [f][..0] == [];
  }

  lemma LeavesOuter(t: Thread, key: Key)
    ensures !Orderly(EnteredTwice(t, key), Leave(t, 0)) && Do(EnteredTwice(t, key), Leave(t, 0)) == OuterLeft(t, key)
  {
    var stack := [Frame(key, false)] + [Frame(key, true)];
    assert stack[..1] == [Frame(key, false)];
    OneFrame(Frame(key, false));
    assert Frames(stack, key) == 2;
    assert Without(stack, 0) == [Frame(key, true)];
  }

  lemma OtherEnters(t: Thread, u: Thread, key: Key)
    requires t.process != u.process
    ensures Do(Do(OuterLeft(t, key), TakeInProcess(u, key)), TakeFile(u)) == BothInside(t, u, key)
    ensures Inside(BothInside(t, u, key), t, key) && Inside(BothInside(t, u, key), u, key)
  {
    OneFrame(Frame(key, true));
    OneFrame(Frame(key, false));
    var w := Do(OuterLeft(t, key), TakeInProcess(u, key));
    assert StateOf(w, u) == State([], Waiting(key), map[]);
    assert [] + [Frame(key, false)] == [Frame(key, false)];
  }

  function Entering(t: Thread, key: Key): seq<Event> {
    [TakeInProcess(t, key)] + [TakeFile(t)] + [TakeInProcess(t, key)]
  }

  lemma EntersTwice(t: Thread, key: Key)
    ensures DoAll(START, Entering(t, key)) == EnteredTwice(t, key)
  {
    var one := [TakeInProcess(t, key)];
    LockService.DoLast(START, [], TakeInProcess(t, key));
    assert [] + one == one;
    LockService.DoLast(START, one, TakeFile(t));
    LockService.DoLast(START, one + [TakeFile(t)], TakeInProcess(t, key));
    FirstEntry(t, key);
    SecondEntry(t, key);
  }

  lemma {:induction false} NoExits(w: World, es: seq<Event>)
    requires forall i :: 0 <= i < |es| ==> !es[i].Leave?
    ensures AllOrderly(w, es)
  {
    if es != [] {
      NoExits(w, es[..|es| - 1]);
    }
  }

  // The outer entry is left, and the other thread enters.
  function Whole(t: Thread, u: Thread, key: Key): seq<Event> {
    Entering(t, key) + [Leave(t, 0)] + [TakeInProcess(u, key)] + [TakeFile(u)]
  }

  lemma OutOfOrderThen(t: Thread, key: Key)
    ensures AllOrderly(START, Entering(t, key)) && !Orderly(DoAll(START, Entering(t, key)), Leave(t, 0))
  {
    NoExits(START, Entering(t, key));
    EntersTwice(t, key);
    LeavesOuter(t, key);
  }

  lemma EndsWithBoth(t: Thread, u: Thread, key: Key)
    requires t.process != u.process
    ensures DoAll(START, Whole(t, u, key)) == BothInside(t, u, key)
  {
    EntersTwice(t, key);
    LeavesOuter(t, key);
    OtherEnters(t, u, key);
    ThreeMore(Entering(t, key), Leave(t, 0), TakeInProcess(u, key), TakeFile(u));
  }

  // One exit out of order, and threads of two processes are inside the key at once.
  lemma OutOfOrderLetsTwoIn(t: Thread, u: Thread, key: Key)
    requires t.process != u.process
    ensures AllOrderly(START, Entering(t, key)) && !Orderly(DoAll(START, Entering(t, key)), Leave(t, 0))
    ensures Inside(DoAll(START, Whole(t, u, key)), t, key) && Inside(DoAll(START, Whole(t, u, key)), u, key)
  {
    OutOfOrderThen(t, key);
    EndsWithBoth(t, u, key);
    OtherEnters(t, u, key);
  }

  lemma ThreeMore(es: seq<Event>, a: Event, b: Event, c: Event)
    ensures DoAll(START, es + [a] + [b] + [c]) == Do(Do(Do(DoAll(START, es), a), b), c)
  {
    LockService.DoLast(START, es, a);
    LockService.DoLast(START, es + [a], b);
    LockService.DoLast(START, es + [a] + [b], c);
  }
}
