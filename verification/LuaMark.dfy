/**
 Marking: white objects turn gray or black, gray ones wait on a list, and black
 ones have had everything they hold marked.
 */
module LuaMark {
  import opened LuaHeap

  function Paint(g: Global, x: Ref, c: Color): Global
    requires x in g.heap
  {
    g.(heap := g.heap[x := g.heap[x].(color := c)])
  }

  function Whites(g: Global): set<Ref>
  {
    set x | x in g.heap && g.heap[x].color.White?
  }

  /** The same object, perhaps no longer white. */
  predicate SameBut(a: Obj, b: Obj)
  {
    b == a.(color := b.color) && (b == a || (a.color.White? && !b.color.White?))
  }

  /** Marking only takes whites away and puts objects in front of the gray list. */
  ghost predicate Grown(g: Global, r: Global)
  {
    && r == g.(heap := r.heap, gray := r.gray)
    && r.heap.Keys == g.heap.Keys
    && (forall y :: y in g.heap ==> SameBut(g.heap[y], r.heap[y]))
  }

  lemma GrownTrans(g: Global, h: Global, r: Global)
    requires Grown(g, h) && Grown(h, r)
    ensures Grown(g, r)
  {
  }

  lemma GrownPaint(g: Global, x: Ref, c: Color)
    requires IsWhite(g, x) && !c.White?
    ensures Grown(g, Paint(g, x, c))
  {
  }

  lemma GrownRepaint(g: Global, h: Global, x: Ref, c: Color)
    requires Grown(g, h) && IsWhite(g, x) && !c.White?
    ensures Grown(g, Paint(h, x, c))
  {
  }

  lemma GrownSlots(g: Global, r: Global, y: Ref)
    requires Grown(g, r)
    ensures Slots(r, y) == Slots(g, y)
  {
    if y in g.heap && g.heap[y].kind.Open? && g.heap[y].kind.owner in g.heap {
      assert SameBut(g.heap[g.heap[y].kind.owner], r.heap[g.heap[y].kind.owner]);
    }
  }

  lemma WhitesGrown(g: Global, r: Global)
    requires Grown(g, r)
    ensures Whites(r) <= Whites(g) && |Whites(r)| <= |Whites(g)|
  {
    forall x | x in Whites(r) ensures x in Whites(g) {
      assert SameBut(g.heap[x], r.heap[x]);
    }
    Smaller(Whites(r), Whites(g));
  }

  lemma WhitesLess(g: Global, r: Global, x: Ref)
    requires Grown(g, r) && IsWhite(g, x) && !IsWhite(r, x)
    ensures |Whites(r)| < |Whites(g)|
  {
    WhitesGrown(g, r);
    assert x in Whites(g) && x !in Whites(r);
    Smaller(Whites(r), Whites(g) - {x});
  }

  lemma {:induction false} Smaller<T>(a: set<T>, b: set<T>)
    requires a <= b
    ensures |a| <= |b|
    decreases a
  {
    if a != {} {
      var x :| x in a;
      Smaller(a - {x}, b - {x});
    }
  }

  // ---------------------------------------------------------------- reallymarkobject, markvalue

  /** Marks a white object; what an upvalue or userdata holds is marked at once, what others hold later. */
  function Mark(g: Global, x: Ref): (r: Global)
    requires IsWhite(g, x)
    ensures Grown(g, r) && !IsWhite(r, x)
    decreases |Whites(g)|, 0
  {
    var o := g.heap[x];
    var gray, black := Paint(g, x, Gray), Paint(g, x, Black);
    GrownPaint(g, x, Gray);
    GrownPaint(g, x, Black);
    WhitesLess(g, gray, x);
    WhitesLess(g, black, x);
    match o.kind
    case Str(_) => gray
    case Userdata => MarkHeld(g, black, o.slots)
    case Closed =>
      var h := MarkHeld(g, gray, Slots(g, x));
      GrownRepaint(g, h, x, Black);
      Paint(h, x, Black)
    case Open(_, _) => MarkHeld(g, gray, Slots(g, x))
    case _ => gray.(gray := [x] + gray.gray)
  }

  /** `g` grows to `h`, which has fewer whites, and then what is held is marked too. */
  function MarkHeld(ghost g: Global, h: Global, s: seq<Value>): (r: Global)
    requires Grown(g, h) && |Whites(h)| < |Whites(g)|
    ensures Grown(g, r) && Grown(h, r)
    decreases |Whites(h)|, 3
  {
    GrownTrans(g, h, MarkSlots(h, s));
    MarkSlots(h, s)
  }

  function MarkValue(g: Global, v: Value): (r: Global)
    ensures Grown(g, r) && (v.Ptr? && v.ref in g.heap ==> Marked(r, v.ref))
    decreases |Whites(g)|, 1
  {
    if v.Ptr? && IsWhite(g, v.ref) then Mark(g, v.ref) else g
  }

  function MarkSlots(g: Global, s: seq<Value>): (r: Global)
    ensures Grown(g, r)
    decreases |Whites(g)|, 2, |s|
  {
    if s == [] then g
    else
      var h := MarkValue(g, s[0]);
      WhitesGrown(g, h);
      GrownTrans(g, h, MarkSlots(h, s[1..]));
      MarkSlots(h, s[1..])
  }

  // ---------------------------------------------------------------- the tri-colour invariant

  predicate ValueMarked(g: Global, v: Value)
  {
    v.Ptr? ==> Marked(g, v.ref)
  }

  /** Everything `x` holds is marked. */
  predicate AllMarked(g: Global, x: Ref)
  {
    forall i :: 0 <= i < |Slots(g, x)| ==> ValueMarked(g, Slots(g, x)[i])
  }

  /** Objects that wait on a list while they are gray. */
  predicate Listable(k: Kind)
  {
    k.Function? || k.Table? || k.Thread? || k.Proto?
  }

  /** Nothing refers to an object that is gone. */
  ghost predicate Whole(g: Global)
  {
    forall x, i :: x in g.heap && 0 <= i < |Slots(g, x)| ==> (Slots(g, x)[i].Ptr? ==> Slots(g, x)[i].ref in g.heap)
  }

  /** Strings, threads and open upvalues are never black; userdata are never gray. */
  predicate ColorOk(g: Global, x: Ref)
    requires x in g.heap
  {
    var o := g.heap[x];
    && (o.color.Black? ==> !o.kind.Str? && !o.kind.Thread? && !o.kind.Open?)
    && (o.color.Gray? ==> o.kind.Str? || o.kind.Open? || (Listable(o.kind) && (x in g.gray || x in g.again)))
  }

  /** The two gray lists hold gray objects, each once. */
  ghost predicate Lists(g: Global)
  {
    && Distinct(g.gray) && Distinct(g.again)
    && (forall x :: x in g.gray ==> x in g.heap && g.heap[x].color.Gray? && Listable(g.heap[x].kind) && x !in g.again)
    && (forall x :: x in g.again ==> x in g.heap && g.heap[x].color.Gray? && Listable(g.heap[x].kind))
  }

  /** Done with `x`: if it is black, what it holds is marked; the same for gray ones that no list will bring back. */
  predicate Done(g: Global, x: Ref, upvals: bool, again: bool)
    requires x in g.heap
  {
    && ColorOk(g, x)
    && (g.heap[x].color.Black? ==> AllMarked(g, x))
    && (upvals && g.heap[x].color.Gray? && g.heap[x].kind.Open? ==> AllMarked(g, x))
    && (again && x in g.again ==> AllMarked(g, x))
  }

  /**
   No black object holds a white one, except those in `e`, which are being traversed.  With `upvals`
   the same for marked open upvalues, with `again` for objects on the second list.
   */
  ghost predicate Tri(g: Global, e: set<Ref>, upvals: bool, again: bool)
  {
    && Whole(g) && Lists(g)
    && (forall x :: x in e ==> Marked(g, x))
    && (forall x :: x in g.heap && x !in e ==> Done(g, x, upvals, again))
  }

  lemma MarkedGrown(g: Global, r: Global, x: Ref)
    requires Grown(g, r)
    ensures AllMarked(g, x) ==> AllMarked(r, x)
    ensures Marked(g, x) ==> Marked(r, x)
  {
    GrownSlots(g, r, x);
    forall y | Marked(g, y) ensures Marked(r, y) {
      assert SameBut(g.heap[y], r.heap[y]);
    }
    hide Slots, Grown, Marked;
    if AllMarked(g, x) {
      forall i | 0 <= i < |Slots(r, x)| ensures ValueMarked(r, Slots(r, x)[i]) {
        assert ValueMarked(g, Slots(g, x)[i]);
      }
    }
  }

  lemma WholeGrown(g: Global, r: Global)
    requires Grown(g, r) && Whole(g)
    ensures Whole(r)
  {
    forall x, i | x in r.heap && 0 <= i < |Slots(r, x)| ensures Slots(r, x)[i].Ptr? ==> Slots(r, x)[i].ref in r.heap {
      GrownSlots(g, r, x);
    }
  }

  /** Painting a white object: others stay done, and the painted one becomes an exception. */
  lemma PaintTri(g: Global, x: Ref, c: Color, e: set<Ref>, upvals: bool, again: bool)
    requires Tri(g, e, upvals, again) && IsWhite(g, x) && !c.White?
    ensures x !in e && Tri(Paint(g, x, c), e + {x}, upvals, again)
  {
    var r := Paint(g, x, c);
    GrownPaint(g, x, c);
    WholeGrown(g, r);
    assert Lists(r);
    forall y | y in r.heap && y !in e + {x} ensures Done(r, y, upvals, again) {
      MarkedGrown(g, r, y);
      assert Done(g, y, upvals, again);
      hide Whole, Lists, AllMarked, Grown;
    }
  }

  /** An exception that is done is one no longer. */
  lemma Settle(g: Global, x: Ref, e: set<Ref>, upvals: bool, again: bool)
    requires Tri(g, e + {x}, upvals, again) && x in g.heap && Done(g, x, upvals, again)
    ensures Tri(g, e, upvals, again)
  {
    hide Whole, Lists, Done;
  }

  /** A gray object that is on no list goes to the front of the gray list. */
  lemma PushTri(g: Global, x: Ref, e: set<Ref>, upvals: bool, again: bool)
    requires Tri(g, e + {x}, upvals, again)
    requires x in g.heap && g.heap[x].color.Gray? && Listable(g.heap[x].kind) && x !in g.gray && x !in g.again
    ensures Tri(g.(gray := [x] + g.gray), e, upvals, again)
  {
    var r := g.(gray := [x] + g.gray);
    GrownSame(g, r);
    WholeGrown(g, r);
    assert Lists(r);
    forall y | y in r.heap && y !in e ensures Done(r, y, upvals, again) {
      MarkedGrown(g, r, y);
      assert y != x ==> Done(g, y, upvals, again);
      hide Whole, Lists, AllMarked, Grown;
    }
  }

  lemma GrownSame(g: Global, r: Global)
    requires r == g.(gray := r.gray)
    ensures Grown(g, r)
  {
  }

  /** Marking keeps the tri-colour invariant. */
  lemma {:induction false} MarkTri(g: Global, x: Ref, e: set<Ref>, upvals: bool, again: bool)
    requires Tri(g, e, upvals, again) && IsWhite(g, x)
    ensures Tri(Mark(g, x), e, upvals, again)
    decreases |Whites(g)|, 0
  {
    hide Tri, Done, Grown, Lists, Whole, Slots, Whites, SeqWhole, SeqMarked, MarkSlots;
    var o := g.heap[x];
    var gray, black := Paint(g, x, Gray), Paint(g, x, Black);
    GrownPaint(g, x, Gray);
    GrownPaint(g, x, Black);
    WhitesLess(g, gray, x);
    WhitesLess(g, black, x);
    PaintTri(g, x, Gray, e, upvals, again);
    PaintTri(g, x, Black, e, upvals, again);
    PaintSlots(g, x, e, upvals, again);
    match o.kind
    case Str(_) =>
      MarkedString(g, x, e, upvals, again);
    case Userdata =>
      MarkSlotsTri(black, o.slots, e + {x}, upvals, again);
      FinishTri(black, MarkSlots(black, o.slots), x, e, upvals, again);
    case Closed =>
      MarkSlotsTri(gray, Slots(g, x), e + {x}, upvals, again);
      BlackenTri(gray, MarkSlots(gray, Slots(g, x)), x, e, upvals, again);
    case Open(_, _) =>
      MarkSlotsTri(gray, Slots(g, x), e + {x}, upvals, again);
      FinishTri(gray, MarkSlots(gray, Slots(g, x)), x, e, upvals, again);
    case _ =>
      PushTri(gray, x, e, upvals, again);
  }

  /** Painting changes neither what an object holds nor what exists. */
  lemma PaintSlots(g: Global, x: Ref, e: set<Ref>, upvals: bool, again: bool)
    requires Tri(g, e, upvals, again) && IsWhite(g, x)
    ensures Slots(Paint(g, x, Gray), x) == Slots(g, x) && Slots(Paint(g, x, Black), x) == Slots(g, x)
    ensures !g.heap[x].kind.Open? ==> Slots(g, x) == g.heap[x].slots
    ensures SeqWhole(Paint(g, x, Gray), Slots(g, x)) && SeqWhole(Paint(g, x, Black), Slots(g, x))
    ensures x !in g.gray && x !in g.again
  {
    GrownPaint(g, x, Gray);
    GrownPaint(g, x, Black);
    GrownSlots(g, Paint(g, x, Gray), x);
    GrownSlots(g, Paint(g, x, Black), x);
    NotListed(g, x);
    hide Grown;
  }

  lemma NotListed(g: Global, x: Ref)
    requires Lists(g) && IsWhite(g, x)
    ensures x !in g.gray && x !in g.again
  {
  }

  lemma MarkedString(g: Global, x: Ref, e: set<Ref>, upvals: bool, again: bool)
    requires Tri(g, e, upvals, again) && IsWhite(g, x) && g.heap[x].kind.Str?
    requires Tri(Paint(g, x, Gray), e + {x}, upvals, again)
    ensures Tri(Paint(g, x, Gray), e, upvals, again)
  {
    NotListed(g, x);
    hide Tri, Lists;
    Settle(Paint(g, x, Gray), x, e, upvals, again);
  }

  /** All of `s` is marked. */
  predicate SeqMarked(g: Global, s: seq<Value>)
  {
    forall i :: 0 <= i < |s| ==> ValueMarked(g, s[i])
  }

  predicate SeqWhole(g: Global, s: seq<Value>)
  {
    forall i :: 0 <= i < |s| ==> (s[i].Ptr? ==> s[i].ref in g.heap)
  }

  /** Marking all that an exception holds finishes it. */
  lemma FinishTri(g: Global, r: Global, x: Ref, e: set<Ref>, upvals: bool, again: bool)
    requires x in g.heap && Grown(g, r)
    requires (g.heap[x].color.Black? && g.heap[x].kind.Userdata?) || (g.heap[x].color.Gray? && g.heap[x].kind.Open?)
    requires Tri(r, e + {x}, upvals, again) && SeqMarked(r, Slots(g, x))
    ensures Tri(r, e, upvals, again)
  {
    GrownSlots(g, r, x);
    assert SameBut(g.heap[x], r.heap[x]);
    hide Slots, Tri;
    Settle(r, x, e, upvals, again);
  }

  /** A closed upvalue turns black once its value is marked. */
  lemma BlackenTri(g: Global, h: Global, x: Ref, e: set<Ref>, upvals: bool, again: bool)
    requires x in g.heap && g.heap[x].color.Gray? && g.heap[x].kind.Closed? && Grown(g, h)
    requires Tri(h, e + {x}, upvals, again) && SeqMarked(h, Slots(g, x))
    ensures Tri(Paint(h, x, Black), e, upvals, again)
  {
    var r := Paint(h, x, Black);
    GrownSlots(g, h, x);
    assert SameBut(g.heap[x], h.heap[x]);
    RepaintTri(h, x, e, upvals, again);
    RepaintMarked(h, x, x);
    hide Tri, Lists;
    Settle(r, x, e, upvals, again);
  }

  lemma RepaintMarked(g: Global, x: Ref, y: Ref)
    requires Marked(g, x)
    ensures Slots(Paint(g, x, Black), y) == Slots(g, y)
    ensures AllMarked(g, y) ==> AllMarked(Paint(g, x, Black), y)
  {
    var r := Paint(g, x, Black);
    assert Slots(r, y) == Slots(g, y);
    forall z | Marked(g, z) ensures Marked(r, z) {
    }
    hide Slots, Marked;
    if AllMarked(g, y) {
      forall i | 0 <= i < |Slots(r, y)| ensures ValueMarked(r, Slots(r, y)[i]) {
        assert ValueMarked(g, Slots(g, y)[i]);
      }
    }
  }

  lemma RepaintTri(g: Global, x: Ref, e: set<Ref>, upvals: bool, again: bool)
    requires Tri(g, e + {x}, upvals, again) && x in g.heap && g.heap[x].color.Gray? && g.heap[x].kind.Closed?
    ensures Tri(Paint(g, x, Black), e + {x}, upvals, again)
  {
    var r := Paint(g, x, Black);
    assert Lists(r);
    forall y, i | y in r.heap && 0 <= i < |Slots(r, y)| ensures Slots(r, y)[i].Ptr? ==> Slots(r, y)[i].ref in r.heap {
      RepaintMarked(g, x, y);
    }
    forall y | y in r.heap && y !in e + {x} ensures Done(r, y, upvals, again) {
      RepaintMarked(g, x, y);
      assert Done(g, y, upvals, again);
      hide Whole, Lists, AllMarked;
    }
  }

  lemma {:induction false} MarkSlotsTri(g: Global, s: seq<Value>, e: set<Ref>, upvals: bool, again: bool)
    requires Tri(g, e, upvals, again) && SeqWhole(g, s)
    ensures Tri(MarkSlots(g, s), e, upvals, again) && SeqMarked(MarkSlots(g, s), s)
    decreases |Whites(g)|, 2, |s|
  {
    if s != [] {
      var h := MarkValue(g, s[0]);
      WhitesGrown(g, h);
      MarkValueTri(g, s[0], e, upvals, again);
      var r := MarkSlots(h, s[1..]);
      MarkSlotsTri(h, s[1..], e, upvals, again);
      MarkedStays(h, r, s[0]);
      forall i | 0 <= i < |s| ensures ValueMarked(r, s[i]) {
        assert i > 0 ==> ValueMarked(r, s[1..][i - 1]);
      }
    }
  }

  lemma MarkedStays(g: Global, r: Global, v: Value)
    requires Grown(g, r) && ValueMarked(g, v)
    ensures ValueMarked(r, v)
  {
    if v.Ptr? {
      assert SameBut(g.heap[v.ref], r.heap[v.ref]);
    }
  }

  lemma {:induction false} MarkValueTri(g: Global, v: Value, e: set<Ref>, upvals: bool, again: bool)
    requires Tri(g, e, upvals, again) && (v.Ptr? ==> v.ref in g.heap)
    ensures Tri(MarkValue(g, v), e, upvals, again) && ValueMarked(MarkValue(g, v), v)
    decreases |Whites(g)|, 1
  {
    if v.Ptr? && IsWhite(g, v.ref) {
      MarkTri(g, v.ref, e, upvals, again);
    }
  }

  // ---------------------------------------------------------------- propagation

  /** White objects and gray ones waiting: each propagation step takes one away. */
  function Load(g: Global): nat
  {
    |Whites(g)| + |g.gray|
  }

  lemma {:induction false} MarkLoad(g: Global, x: Ref)
    requires IsWhite(g, x)
    ensures Load(Mark(g, x)) <= Load(g)
    decreases |Whites(g)|, 0
  {
    var o := g.heap[x];
    var gray, black := Paint(g, x, Gray), Paint(g, x, Black);
    GrownPaint(g, x, Gray);
    GrownPaint(g, x, Black);
    WhitesLess(g, gray, x);
    WhitesLess(g, black, x);
    hide Whites, Paint, Slots, Grown;
    match o.kind
    case Str(_) => PaintKeeps(g, x, Gray);
    case Userdata =>
      PaintKeeps(g, x, Black);
      MarkSlotsLoad(black, o.slots);
    case Closed =>
      PaintKeeps(g, x, Gray);
      MarkSlotsLoad(gray, Slots(g, x));
      var h := MarkSlots(gray, Slots(g, x));
      RepaintLoad(gray, h, x);
    case Open(_, _) =>
      PaintKeeps(g, x, Gray);
      MarkSlotsLoad(gray, Slots(g, x));
    case _ =>
      PaintKeeps(g, x, Gray);
      PushLoad(gray, x);
  }

  lemma PaintKeeps(g: Global, x: Ref, c: Color)
    requires x in g.heap
    ensures Paint(g, x, c).gray == g.gray
  {
  }

  lemma PushLoad(g: Global, x: Ref)
    ensures Load(g.(gray := [x] + g.gray)) == Load(g) + 1
  {
    var r := g.(gray := [x] + g.gray);
    assert Whites(r) == Whites(g);
  }

  lemma RepaintLoad(g: Global, h: Global, x: Ref)
    requires Grown(g, h) && Marked(g, x)
    ensures x in h.heap && Load(Paint(h, x, Black)) == Load(h)
  {
    assert SameBut(g.heap[x], h.heap[x]);
    var r := Paint(h, x, Black);
    assert Whites(r) == Whites(h);
  }

  lemma {:induction false} MarkSlotsLoad(g: Global, s: seq<Value>)
    ensures Load(MarkSlots(g, s)) <= Load(g)
    decreases |Whites(g)|, 2, |s|
  {
    hide Load;
    if s != [] {
      var h := MarkValue(g, s[0]);
      WhitesGrown(g, h);
      if s[0].Ptr? && IsWhite(g, s[0].ref) {
        MarkLoad(g, s[0].ref);
      }
      MarkSlotsLoad(h, s[1..]);
    }
  }

  /** Takes one object off the gray list and marks what it holds; a thread stays gray and is looked at again. */
  function Step(g: Global): (r: Global)
    requires g.gray != [] && g.gray[0] in g.heap
    ensures r.heap.Keys == g.heap.Keys
  {
    var x := g.gray[0];
    MarkSlots(Taken(g), g.heap[x].slots)
  }

  function Taken(g: Global): (r: Global)
    requires g.gray != [] && g.gray[0] in g.heap
  {
    var x := g.gray[0];
    if g.heap[x].kind.Thread? then g.(gray := g.gray[1..], again := [x] + g.again)
    else Paint(g, x, Black).(gray := g.gray[1..])
  }

  /** The colour of an object while what it holds is being marked. */
  predicate UnderTraversal(h: Global, x: Ref)
    requires x in h.heap
  {
    Listable(h.heap[x].kind) && if h.heap[x].kind.Thread? then h.heap[x].color.Gray? && x in h.again else h.heap[x].color.Black?
  }

  lemma StepLoad(g: Global)
    requires g.gray != [] && Marked(g, g.gray[0])
    ensures Load(Step(g)) < Load(g)
  {
    var h := Taken(g);
    assert Whites(h) == Whites(g);
    MarkSlotsLoad(h, g.heap[g.gray[0]].slots);
  }

  lemma StepTri(g: Global, upvals: bool, again: bool)
    requires Tri(g, {}, upvals, again) && g.gray != []
    ensures Marked(g, g.gray[0])
    ensures Tri(Step(g), {}, upvals, again)
  {
    var x := g.gray[0];
    assert g.gray[0] in g.gray;
    TakenTri(g, upvals, again);
    hide *;
    MarkSlotsTri(Taken(g), g.heap[x].slots, {x}, upvals, again);
    StepDone(Taken(g), g.heap[x].slots, x, upvals, again);
  }

  lemma TakenTri(g: Global, upvals: bool, again: bool)
    requires Tri(g, {}, upvals, again) && g.gray != []
    ensures Marked(g, g.gray[0])
    ensures var x, h := g.gray[0], Taken(g);
            && Tri(h, {x}, upvals, again) && SeqWhole(h, g.heap[x].slots) && x in h.heap && Slots(h, x) == g.heap[x].slots
            && UnderTraversal(h, x)
            && h.heap.Keys == g.heap.Keys
  {
    var x, h := g.gray[0], Taken(g);
    assert x in g.gray;
    TakenLists(g);
    forall y ensures Slots(h, y) == Slots(g, y) && (Marked(g, y) <==> Marked(h, y)) {
    }
    forall y | y in h.heap && y != x ensures Done(h, y, upvals, again) {
      assert Done(g, y, upvals, again);
      SameMarked(g, h, y);
      hide Slots, AllMarked, Whole, Lists, Marked;
    }
  }

  lemma SameMarked(g: Global, h: Global, y: Ref)
    requires Slots(h, y) == Slots(g, y)
    requires forall z :: Marked(g, z) <==> Marked(h, z)
    ensures AllMarked(g, y) <==> AllMarked(h, y)
  {
    hide Slots, Marked;
    forall v ensures ValueMarked(g, v) <==> ValueMarked(h, v) {
    }
    hide ValueMarked;
  }

  lemma TakenLists(g: Global)
    requires Lists(g) && g.gray != []
    ensures g.gray[0] in g.heap && Lists(Taken(g))
    ensures forall y :: y != g.gray[0] ==> (y in Taken(g).gray <==> y in g.gray) && (y in Taken(g).again <==> y in g.again)
  {
    var x, h := g.gray[0], Taken(g);
    assert x in g.gray;
    assert g.gray == [x] + g.gray[1..];
    forall y | y in h.gray ensures y in g.gray && y != x {
    }
    assert Distinct(h.gray);
  }

  lemma StepDone(h: Global, s: seq<Value>, x: Ref, upvals: bool, again: bool)
    requires x in h.heap && Slots(h, x) == s
    requires UnderTraversal(h, x)
    requires var r := MarkSlots(h, s); Tri(r, {x}, upvals, again) && SeqMarked(r, s)
    ensures Tri(MarkSlots(h, s), {}, upvals, again)
  {
    var r := MarkSlots(h, s);
    GrownSlots(h, r, x);
    assert SameBut(h.heap[x], r.heap[x]);
    assert {} + {x} == {x};
    hide Tri, Slots, MarkSlots;
    Settle(r, x, {}, upvals, again);
  }

  /** Empties the gray list. */
  function PropagateAll(g: Global): (r: Global)
    requires Tri(g, {}, false, false)
    decreases Load(g)
  {
    if g.gray == [] then g
    else
      StepTri(g, false, false);
      StepLoad(g);
      PropagateAll(Step(g))
  }

  lemma {:induction false} PropagateAllTri(g: Global, upvals: bool, again: bool)
    requires Tri(g, {}, upvals, again)
    ensures Tri(g, {}, false, false)
    ensures var r := PropagateAll(g); r.gray == [] && Tri(r, {}, upvals, again)
    decreases Load(g)
  {
    Weaken(g, {}, upvals, again);
    hide Tri, Load, Step;
    if g.gray != [] {
      StepTri(g, upvals, again);
      StepLoad(g);
      PropagateAllTri(Step(g), upvals, again);
    }
  }

  lemma Weaken(g: Global, e: set<Ref>, upvals: bool, again: bool)
    requires Tri(g, e, upvals, again)
    ensures Tri(g, e, false, false)
  {
    hide Whole, Lists, AllMarked, ColorOk;
    forall x | x in g.heap && x !in e ensures Done(g, x, false, false) {
      assert Done(g, x, upvals, again);
    }
  }

  /** The same object, no whiter. */
  predicate NoWhiter(a: Obj, b: Obj)
  {
    b == a.(color := b.color) && (b.color.White? ==> b == a)
  }

  /** Like `Grown`, but gray objects may have turned black or moved to the second gray list. */
  ghost predicate Spread(g: Global, r: Global)
  {
    && r == g.(heap := r.heap, gray := r.gray, again := r.again)
    && r.heap.Keys == g.heap.Keys
    && (forall y :: y in g.heap ==> NoWhiter(g.heap[y], r.heap[y]))
  }

  lemma SpreadTrans(g: Global, h: Global, r: Global)
    requires Spread(g, h) && Spread(h, r)
    ensures Spread(g, r)
  {
  }

  lemma GrownSpread(g: Global, r: Global)
    requires Grown(g, r)
    ensures Spread(g, r)
  {
    assert forall y :: y in g.heap ==> SameBut(g.heap[y], r.heap[y]);
  }

  lemma SpreadSlots(g: Global, r: Global, y: Ref)
    requires Spread(g, r)
    ensures Slots(r, y) == Slots(g, y) && (Marked(g, y) ==> Marked(r, y))
  {
    if y in g.heap {
      assert NoWhiter(g.heap[y], r.heap[y]);
      if g.heap[y].kind.Open? && g.heap[y].kind.owner in g.heap {
        assert NoWhiter(g.heap[g.heap[y].kind.owner], r.heap[g.heap[y].kind.owner]);
      }
    }
  }
}
