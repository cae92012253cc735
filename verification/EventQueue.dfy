/**
 The ring of events between the threads that push, one at a time under a lock, and
 the one that pops without a lock.  Each reads the other's cursor at some moment and
 goes on with what it has read; a cursor's increment and its wrap are one step.
 */
module EventQueue {
  import opened Options

  /** A push: the check has been passed; the element has been stored. */
  datatype Producer<T> = Idle | Checked(x: T) | Stored(x: T)

  /** A pop: an element has been seen; its slot has been taken. */
  datatype Consumer = Ready | Saw | Took(p: nat)

  /** `held`: the slot behind the pointer that the last pop returned.  `pushed`, `popped`: all that has gone in and come out. */
  datatype State<T> = State(slots: seq<T>, inCur: nat, outCur: nat, producer: Producer<T>, consumer: Consumer,
                            held: Option<nat>, pushed: seq<T>, popped: seq<T>)

  function Next(c: nat, n: nat): nat
  {
    if c + 1 >= n then 0 else c + 1
  }

  /** How many elements the cursors say there are. */
  function Size(inCur: nat, outCur: nat, n: nat): int
  {
    var s := inCur + n - outCur;
    if s >= n then s - n else s
  }

  datatype Step<T> = Push(x: T) | Store | Publish | Pop | Take | Return

  /** A push is refused when all slots but one are in use. */
  predicate Full<T>(s: State<T>)
  {
    |s.slots| - 1 <= Size(s.inCur, s.outCur, |s.slots|)
  }

  function Do<T>(s: State<T>, step: Step<T>): State<T>
  {
    var n := |s.slots|;
    match step
    case Push(x) => if s.producer.Idle? && !Full(s) then s.(producer := Checked(x)) else s
    case Store => if s.producer.Checked? && s.inCur < n then s.(slots := s.slots[s.inCur := s.producer.x], producer := Stored(s.producer.x)) else s
    case Publish =>
      if s.producer.Stored? then s.(inCur := Next(s.inCur, n), producer := Idle, pushed := s.pushed + [s.producer.x]) else s
    case Pop =>
      if s.consumer.Ready? then s.(held := None, consumer := if Size(s.inCur, s.outCur, n) == 0 then Ready else Saw) else s
    case Take => if s.consumer.Saw? then s.(consumer := Took(s.outCur)) else s
    case Return =>
      if s.consumer.Took? && s.consumer.p < n then
        s.(outCur := Next(s.outCur, n), consumer := Ready, held := Some(s.consumer.p), popped := s.popped + [s.slots[s.consumer.p]])
      else s
  }

  function Init<T>(slots: seq<T>): State<T>
  {
    State(slots, 0, 0, Idle, Ready, None, [], [])
  }

  // ---------------------------------------------------------------- the invariant

  /** The slot of the k-th element is k modulo the size. */
  ghost predicate Keeps<T>(s: State<T>, k: nat)
    requires s.slots != [] && k < |s.pushed|
  {
    s.slots[k % |s.slots|] == s.pushed[k]
  }

  ghost predicate Inv<T>(s: State<T>)
  {
    var n := |s.slots|;
    && n > 0 && |s.popped| <= |s.pushed| <= |s.popped| + n - 1
    && s.inCur == |s.pushed| % n && s.outCur == |s.popped| % n
    && s.popped == s.pushed[..|s.popped|]
    && (forall k :: |s.popped| <= k < |s.pushed| ==> Keeps(s, k))
    && (!s.producer.Idle? ==> |s.pushed| <= |s.popped| + n - 2)
    && (s.producer.Stored? ==> s.slots[s.inCur] == s.producer.x)
    && (!s.consumer.Ready? ==> |s.popped| < |s.pushed|)
    && (s.consumer.Took? ==> s.consumer.p == s.outCur)
    && (s.held.Some? ==> |s.popped| > 0 && s.held.value == (|s.popped| - 1) % n && Keeps(s, |s.popped| - 1))
  }

  lemma NextMod(k: nat, n: nat)
    requires n > 0
    ensures Next(k % n, n) == (k + 1) % n
  {
    var q, r := k / n, k % n;
    assert k == q * n + r;
    if r + 1 < n {
      ModIs(k + 1, n, q, r + 1);
    } else {
      assert k + 1 == (q + 1) * n + 0;
      ModIs(k + 1, n, q + 1, 0);
    }
  }

  lemma ModIs(k: nat, n: nat, q: nat, r: nat)
    requires n > 0 && r < n && k == q * n + r
    ensures k % n == r
  {
    var q', r' := k / n, k % n;
    DivIs(k, n);
    if q' > q {
      OneMore(q', q, n);
    } else if q' < q {
      OneMore(q, q', n);
    }
  }

  lemma DivIs(k: nat, n: nat)
    requires n > 0
    ensures k == (k / n) * n + k % n && k % n < n
  {
  }

  lemma OneMore(a: nat, b: nat, n: nat)
    requires a > b
    ensures a * n >= b * n + n
  {
    assert a * n == (a - b - 1) * n + b * n + n;
  }

  /** The cursors tell how many elements there are, if that is less than the size. */
  lemma SizeIs(inPos: nat, outPos: nat, n: nat)
    requires n > 0 && outPos <= inPos < outPos + n
    ensures Size(inPos % n, outPos % n, n) == inPos - outPos
  {
    var d, q, r := inPos - outPos, outPos / n, outPos % n;
    assert outPos == q * n + r;
    if r + d < n {
      ModIs(inPos, n, q, r + d);
    } else {
      assert inPos == (q + 1) * n + (r + d - n);
      ModIs(inPos, n, q + 1, r + d - n);
    }
  }

  /** Positions less than the size apart have different slots. */
  lemma SlotsDiffer(a: nat, b: nat, n: nat)
    requires n > 0 && a < b < a + n
    ensures a % n != b % n
  {
    SizeIs(b, a, n);
  }

  lemma InitInv<T>(slots: seq<T>)
    requires slots != []
    ensures Inv(Init(slots))
  {
  }

  lemma PushInv<T>(s: State<T>, x: T)
    requires Inv(s)
    ensures Inv(Do(s, Push(x)))
    ensures Full(s) <==> |s.pushed| == |s.popped| + |s.slots| - 1
  {
    SizeIs(|s.pushed|, |s.popped|, |s.slots|);
    var t := Do(s, Push(x));
    assert forall k: nat :: |s.popped| <= k < |s.pushed| && Keeps(s, k) ==> Keeps(t, k);
  }

  lemma StoreInv<T>(s: State<T>)
    requires Inv(s)
    ensures Inv(Do(s, Store))
  {
    var t := Do(s, Store);
    if s.producer.Checked? {
      forall k: nat | k < |s.pushed| && |s.popped| <= k + 1 && Keeps(s, k) ensures Keeps(t, k) {
        SlotsDiffer(k, |s.pushed|, |s.slots|);
      }
    }
  }

  lemma PublishInv<T>(s: State<T>)
    requires Inv(s)
    ensures Inv(Do(s, Publish))
  {
    var t := Do(s, Publish);
    NextMod(|s.pushed|, |s.slots|);
    if s.producer.Stored? {
      forall k: nat | k < |t.pushed| && |s.popped| <= k + 1 && (k < |s.pushed| ==> Keeps(s, k)) ensures Keeps(t, k) {
      }
    }
  }

  lemma PopInv<T>(s: State<T>)
    requires Inv(s)
    ensures Inv(Do(s, Pop))
    ensures s.consumer.Ready? ==> (Do(s, Pop).consumer.Ready? <==> s.pushed == s.popped)
  {
    SizeIs(|s.pushed|, |s.popped|, |s.slots|);
    var t := Do(s, Pop);
    assert forall k: nat :: |s.popped| <= k < |s.pushed| && Keeps(s, k) ==> Keeps(t, k);
  }

  lemma TakeInv<T>(s: State<T>)
    requires Inv(s)
    ensures Inv(Do(s, Take))
  {
    var t := Do(s, Take);
    assert forall k: nat :: k < |s.pushed| && Keeps(s, k) ==> Keeps(t, k);
  }

  lemma ReturnInv<T>(s: State<T>)
    requires Inv(s)
    ensures Inv(Do(s, Return))
  {
    var t := Do(s, Return);
    NextMod(|s.popped|, |s.slots|);
    assert forall k: nat :: k < |s.pushed| && Keeps(s, k) ==> Keeps(t, k);
    if s.consumer.Took? {
      assert Keeps(s, |s.popped|);
      assert t.popped == s.pushed[..|s.popped| + 1];
    }
  }

  lemma StepInv<T>(s: State<T>, step: Step<T>)
    requires Inv(s)
    ensures Inv(Do(s, step))
  {
    match step
    case Push(x) => PushInv(s, x);
    case Store => StoreInv(s);
    case Publish => PublishInv(s);
    case Pop => PopInv(s);
    case Take => TakeInv(s);
    case Return => ReturnInv(s);
  }

  // ---------------------------------------------------------------- runs

  /** The state after any interleaving of steps. */
  function Run<T>(s: State<T>, steps: seq<Step<T>>): State<T>
    decreases |steps|
  {
    if steps == [] then s else Run(Do(s, steps[0]), steps[1..])
  }

  lemma {:induction false} RunInv<T>(s: State<T>, steps: seq<Step<T>>)
    requires Inv(s)
    ensures Inv(Run(s, steps))
    decreases |steps|
  {
    if steps != [] {
      StepInv(s, steps[0]);
      RunInv(Do(s, steps[0]), steps[1..]);
    }
  }

  /** However pushes and pops interleave, what comes out is what went in, in order. */
  lemma Fifo<T>(slots: seq<T>, steps: seq<Step<T>>)
    requires slots != []
    ensures var s := Run(Init(slots), steps); s.popped <= s.pushed
  {
    InitInv(slots);
    RunInv(Init(slots), steps);
  }

  /** No pop starts. */
  predicate NoPop<T>(steps: seq<Step<T>>)
  {
    forall i :: 0 <= i < |steps| ==> !steps[i].Pop?
  }

  lemma {:induction false} HeldStays<T>(s: State<T>, steps: seq<Step<T>>)
    requires Inv(s) && s.consumer.Ready? && s.held.Some? && NoPop(steps)
    ensures var t := Run(s, steps);
            Inv(t) && t.consumer.Ready? && t.held == s.held && t.popped == s.popped
    decreases |steps|
  {
    if steps != [] {
      StepInv(s, steps[0]);
      assert NoPop(steps[1..]);
      HeldStays(Do(s, steps[0]), steps[1..]);
    }
  }

  /** The element behind the pointer that a pop returned stays what it is until the next pop, whatever is pushed meanwhile. */
  lemma PointerStays<T>(slots: seq<T>, before: seq<Step<T>>, after: seq<Step<T>>)
    requires slots != [] && NoPop(after)
    requires var s := Run(Init(slots), before); s.consumer.Ready? && s.held.Some?
    ensures var s, t := Run(Init(slots), before), Run(Run(Init(slots), before), after);
            && s.held.value < |s.slots| && |t.slots| == |s.slots| && t.slots[s.held.value] == s.slots[s.held.value]
            && s.popped != [] && s.slots[s.held.value] == s.popped[|s.popped| - 1]
  {
    InitInv(slots);
    RunInv(Init(slots), before);
    var s := Run(Init(slots), before);
    HeldStays(s, after);
    SlotsSame(s, after);
    HeldIs(s);
    HeldIs(Run(s, after));
  }

  lemma HeldIs<T>(s: State<T>)
    requires Inv(s) && s.held.Some?
    ensures s.held.value < |s.slots| && s.popped != [] && s.slots[s.held.value] == s.popped[|s.popped| - 1]
  {
  }

  lemma {:induction false} SlotsSame<T>(s: State<T>, steps: seq<Step<T>>)
    ensures |Run(s, steps).slots| == |s.slots|
    decreases |steps|
  {
    if steps != [] {
      SlotsSame(Do(s, steps[0]), steps[1..]);
    }
  }

  // ---------------------------------------------------------------- the ring in memory

  class TEventQueue<T> {
    const arr: array<T>
    var inCur: nat
    var outCur: nat
    ghost var held: Option<nat>
    ghost var pushed: seq<T>
    ghost var popped: seq<T>

    constructor (a: array<T>)
      requires a.Length > 0
      ensures arr == a && Abs() == Init(a[..]) && Inv(Abs())
    {
      arr, inCur, outCur, held, pushed, popped := a, 0, 0, None, [], [];
      new;
      InitInv(a[..]);
    }

    /** The queue between operations. */
    ghost function Abs(): State<T>
      reads this, arr
    {
      State(arr[..], inCur, outCur, Idle, Ready, held, pushed, popped)
    }

    /** All the steps of a push; a full ring refuses it. */
    method PushBack(x: T) returns (ok: bool)
      requires Inv(Abs())
      modifies this`inCur, this`pushed, arr
      ensures Inv(Abs()) && popped == old(popped) && held == old(held)
      ensures ok <==> |old(pushed)| - |old(popped)| < arr.Length - 1
      ensures Abs() == Run(old(Abs()), [Push(x), Store, Publish])
      ensures pushed == if ok then old(pushed) + [x] else old(pushed)
    {
      hide Inv, Full, Size;
      ghost var s := Abs();
      PushInv(s, x);
      StepInv(Do(s, Push(x)), Store);
      StepInv(Do(Do(s, Push(x)), Store), Publish);
      ThreeSteps(s, Push(x), Store, Publish);
      CursorsIn(s);
      FullIs(s);
      var size := inCur + arr.Length - outCur;
      size := if size >= arr.Length then size - arr.Length else size;
      if arr.Length - 1 <= size {
        return false;
      }
      arr[inCur] := x;
      inCur := inCur + 1;
      if inCur >= arr.Length {
        inCur := 0;
      }
      pushed := pushed + [x];
      ok := true;
    }

    /** All the steps of a pop: the slot of the oldest element, if there is one. */
    method PopFront() returns (p: Option<nat>)
      requires Inv(Abs())
      modifies this`outCur, this`popped, this`held
      ensures Inv(Abs()) && pushed == old(pushed) && arr[..] == old(arr[..])
      ensures p.None? <==> old(pushed) == old(popped)
      ensures Abs() == Run(old(Abs()), [Pop, Take, Return])
      ensures p.Some? ==> p.value < arr.Length && popped == old(popped) + [arr[p.value]] && held == p
    {
      hide Inv, Full, Size;
      ghost var s := Abs();
      PopInv(s);
      StepInv(Do(s, Pop), Take);
      StepInv(Do(Do(s, Pop), Take), Return);
      ThreeSteps(s, Pop, Take, Return);
      CursorsIn(s);
      SizeFrom(s);
      var size := inCur + arr.Length - outCur;
      size := if size >= arr.Length then size - arr.Length else size;
      held := None;
      if size == 0 {
        return None;
      }
      p := Some(outCur);
      popped := popped + [arr[outCur]];
      held := p;
      outCur := outCur + 1;
      if outCur >= arr.Length {
        outCur := 0;
      }
    }
  }

  lemma ThreeSteps<T>(s: State<T>, a: Step<T>, b: Step<T>, c: Step<T>)
    ensures Run(s, [a, b, c]) == Do(Do(Do(s, a), b), c)
  {
    hide Do;
    assert [a, b, c][1..] == [b, c] && [b, c][1..] == [c] && [c][1..] == [];
    assert Run(s, [a, b, c]) == Run(Do(s, a), [b, c]);
    assert Run(Do(s, a), [b, c]) == Run(Do(Do(s, a), b), [c]);
    assert Run(Do(Do(s, a), b), [c]) == Run(Do(Do(Do(s, a), b), c), []);
  }

  lemma CursorsIn<T>(s: State<T>)
    requires Inv(s)
    ensures s.inCur < |s.slots| && s.outCur < |s.slots| && |s.popped| <= |s.pushed|
  {
  }

  lemma FullIs<T>(s: State<T>)
    ensures Full(s) <==> |s.slots| - 1 <= Size(s.inCur, s.outCur, |s.slots|)
    ensures var d := s.inCur + |s.slots| - s.outCur; Size(s.inCur, s.outCur, |s.slots|) == if d >= |s.slots| then d - |s.slots| else d
  {
  }

  lemma SizeFrom<T>(s: State<T>)
    ensures var d := s.inCur + |s.slots| - s.outCur; Size(s.inCur, s.outCur, |s.slots|) == if d >= |s.slots| then d - |s.slots| else d
  {
  }
}
