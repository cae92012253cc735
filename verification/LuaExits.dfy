/**
 What the code of an expression does, said without code: how a run leaves it, and
 what a jump it leaves by carries.  For expressions without `true` and `false` as
 operands of and/or this is the expression's value; with them it need not be.
 */
module LuaExits {
  import opened Options
  import opened LuaVm
  import opened LuaCode

  /** What the generator has of an expression, as far as it matters what follows. */
  datatype Sort = SLit(v: Val, fits: bool) | SLocal | SNot | SJmp

  function SortOf(x: Expr): Sort
  {
    match x
    case Local(_) => SLocal
    case Lit(v, fits) => SLit(v, fits)
    case Rel(_, _, _) => SJmp
    case Neg(a) =>
      (match SortOf(a)
       case SLit(v, fits) => SLit(Bool(!Truthy(v)), fits)
       case SJmp => SJmp
       case _ => SNot)
    case And(_, b) => SortOf(b)
    case Or(_, b) => SortOf(b)
  }

  function KindSort(k: Kind): Sort
  {
    match k
    case KLit(v, fits) => SLit(v, fits)
    case KReg(_) => SLocal
    case KReloc(_) => SNot
    case KJmp(_) => SJmp
  }

  /**
   The end of a run: behind the code with the value where the descriptor says (`here`), or at a jump of
   one of the lists.  `carried` is what the jump the run is at carries, if it does: one of the lists, or
   one that is pending to here.  Not `clean`: a literal decided, but the run left by a jump with a value.
   */
  datatype Exit = Exit(here: bool, truth: bool, val: Val, carried: Option<Val>, clean: bool)

  /** The value a jump stands for: the one it carries, or else plain true or false. */
  function Standing(carried: Option<Val>, truth: bool): Val
  {
    if carried.Some? then carried.value else Bool(truth)
  }

  /** The run goes on behind a condition, or leaves. */
  datatype Went = Went(on: bool, carried: Option<Val>, clean: bool)

  /** Does a literal on which and/or must leave leave by a jump alone, without its value? */
  predicate Bare(v: Val, truth: bool)
  {
    v == Bool(!truth)
  }

  /** Going on if the operand is `truth`. */
  function Go(k: Sort, x: Exit, truth: bool): Went
  {
    if !x.here then Went(x.truth == truth, x.carried, x.clean)
    else match k
      case SLit(v, _) =>
        if Truthy(v) == truth then Went(true, x.carried, true)
        else if Bare(v, truth) then Went(false, x.carried, x.carried.None?)
        else Went(false, Some(v), true)
      case SNot => Went(x.truth == truth, None, true)
      case _ => if x.truth == truth then Went(true, None, true) else Went(false, Some(x.val), true)
  }

  /** Leaving because the operand is not `truth`. */
  function Leaving(y: Went, truth: bool): Exit
  {
    Exit(false, !truth, Standing(y.carried, !truth), y.carried, y.clean)
  }

  function Negated(k: Sort, x: Exit): Exit
  {
    Exit(x.here, !x.truth, Bool(!x.truth), if x.here && k.SLit? then x.carried else None, true)
  }

  /** Does the expression leave jumps on its list of true, or false, values? */
  predicate Jumps(x: Expr, truth: bool)
  {
    match x
    case Local(_) => false
    case Lit(_, _) => false
    case Rel(_, _, _) => false
    case Neg(a) => Jumps(a, !truth)
    case And(a, b) => Jumps(b, truth) || (!truth && (Jumps(a, false) || Leaves(SortOf(a), true)))
    case Or(a, b) => Jumps(b, truth) || (truth && (Jumps(a, true) || Leaves(SortOf(a), false)))
  }

  /** Is there a jump for an operand that is not `truth`? */
  predicate Leaves(k: Sort, truth: bool)
  {
    k.SLit? ==> Truthy(k.v) != truth
  }

  /** An operand that is where it is needed already: pending jumps stay pending. */
  predicate Direct(x: Expr)
  {
    (SortOf(x).SLocal? || (SortOf(x).SLit? && SortOf(x).fits)) && !Jumps(x, true) && !Jumps(x, false)
  }

  /** How the code of an expression is left, when it is entered by a jump that carries `carried`. */
  function Leave(x: Expr, carried: Option<Val>, c: Comparison, m: Regs): Exit
  {
    match x
    case Local(r) => Exit(true, Truthy(Get(m, r)), Get(m, r), carried, true)
    case Lit(v, _) => Exit(true, Truthy(v), v, carried, true)
    case Neg(a) => Negated(SortOf(a), Leave(a, carried, c, m))
    case And(a, b) =>
      var y := Go(SortOf(a), Leave(a, carried, c, m), true);
      if y.on then Leave(b, y.carried, c, m) else Leaving(y, true)
    case Or(a, b) =>
      var y := Go(SortOf(a), Leave(a, carried, c, m), false);
      if y.on then Leave(b, y.carried, c, m) else Leaving(y, false)
    case Rel(op, a, b) =>
      var xa := Leave(a, carried, c, m);
      var xb := Leave(b, Second(a, xa), c, m);
      var t := Compares(op, xa.val, xb.val, c);
      Exit(false, t, Bool(t), None, true)
  }

  /** What is pending when the second operand of a comparison starts. */
  function Second(a: Expr, xa: Exit): Option<Val>
  {
    if Direct(a) then xa.carried else None
  }

  /** The value the code of `x` yields. */
  function Outcome(x: Expr, c: Comparison, m: Regs): Val
  {
    Leave(x, None, c, m).val
  }

  /** The descriptor is of the expression's sort, and its lists are as said. */
  lemma {:induction false} CompileSort(fs: FS, x: Expr)
    ensures var e := Compile(fs, x).1;
            KindSort(e.kind) == SortOf(x) && (e.t != [] <==> Jumps(x, true)) && (e.f != [] <==> Jumps(x, false))
    decreases x
  {
    hide JumpOnCond, Exp2RK, CondJump, InvertJump;
    match x {
      case Local(_) =>
      case Lit(_, _) =>
      case Rel(_, _, _) =>
      case Neg(a) => CompileSort(fs, a);
      case And(a, b) =>
        var (h, ea) := Compile(fs, a);
        CompileSort(fs, a);
        CompileSort(GoIfTrue(h, ea).0, b);
      case Or(a, b) =>
        var (h, ea) := Compile(fs, a);
        CompileSort(fs, a);
        CompileSort(GoIfFalse(h, ea).0, b);
    }
  }

  // ---------------------------------------------------------------- which ways a run can take

  /** An exit without its values: does the jump carry one, and is it the right one? */
  datatype Way = Way(here: bool, truth: bool, carries: bool, clean: bool)

  function WayOf(e: Exit): Way
  {
    Way(e.here, e.truth, e.carried.Some?, e.clean)
  }

  datatype Turn = Turn(on: bool, carries: bool, clean: bool)

  function TurnAt(k: Sort, w: Way, truth: bool): Turn
  {
    if !w.here then Turn(w.truth == truth, w.carries, w.clean)
    else match k
      case SLit(v, _) =>
        if Truthy(v) == truth then Turn(true, w.carries, true)
        else if Bare(v, truth) then Turn(false, w.carries, !w.carries)
        else Turn(false, true, true)
      case SNot => Turn(w.truth == truth, false, true)
      case _ => if w.truth == truth then Turn(true, false, true) else Turn(false, true, true)
  }

  /** The ways out of a condition's first operand, and those of the second where the first goes on. */
  function Both(k: Sort, first: set<Way>, truth: bool, plain: set<Way>, carrying: set<Way>): set<Way>
  {
    (set w | w in first && !TurnAt(k, w, truth).on :: Way(false, !truth, TurnAt(k, w, truth).carries, TurnAt(k, w, truth).clean))
    + (if exists w :: w in first && TurnAt(k, w, truth).on && !TurnAt(k, w, truth).carries then plain else {})
    + (if exists w :: w in first && TurnAt(k, w, truth).on && TurnAt(k, w, truth).carries then carrying else {})
  }

  /** All ways a run may take if every test of a local, and every comparison, can go both ways. */
  function Ways(x: Expr, carries: bool): set<Way>
  {
    match x
    case Local(_) => {Way(true, true, carries, true), Way(true, false, carries, true)}
    case Lit(v, _) => {Way(true, Truthy(v), carries, true)}
    case Neg(a) => set w | w in Ways(a, carries) :: Way(w.here, !w.truth, w.here && SortOf(a).SLit? && w.carries, true)
    case And(a, b) => Both(SortOf(a), Ways(a, carries), true, Ways(b, false), Ways(b, true))
    case Or(a, b) => Both(SortOf(a), Ways(a, carries), false, Ways(b, false), Ways(b, true))
    case Rel(_, _, _) => {Way(false, true, false, true), Way(false, false, false, true)}
  }

  /** Whichever way a run takes, no value is lost. */
  predicate AllClean(x: Expr, carries: bool)
  {
    forall w :: w in Ways(x, carries) ==> w.clean
  }

  /** The operands of every comparison have their values. */
  predicate Tame(x: Expr, carries: bool)
  {
    match x
    case Local(_) => true
    case Lit(_, _) => true
    case Neg(a) => Tame(a, carries)
    case And(a, b) => Tame(a, carries) && forall w :: w in Ways(a, carries) && TurnAt(SortOf(a), w, true).on ==> Tame(b, TurnAt(SortOf(a), w, true).carries)
    case Or(a, b) => Tame(a, carries) && forall w :: w in Ways(a, carries) && TurnAt(SortOf(a), w, false).on ==> Tame(b, TurnAt(SortOf(a), w, false).carries)
    case Rel(_, a, b) =>
      && Tame(a, carries) && AllClean(a, carries)
      && forall w :: w in Ways(a, carries) ==> Tame(b, Direct(a) && w.carries) && AllClean(b, Direct(a) && w.carries)
  }

  /**
   No literal takes a jump along whose value is still wanted: on no way out of the expression does a
   bare literal decide while a jump with a value is pending.  A value is not wanted under `not`, and
   not where and/or goes on; the operands of comparisons are wanted.
   */
  predicate Harmless(x: Expr)
  {
    Tame(x, false) && AllClean(x, false)
  }

  /** What the sort says of a value that is here. */
  predicate Sorted(k: Sort, e: Exit)
  {
    match k
    case SLit(v, _) => e.val == v
    case SLocal => true
    case SNot => e.val == Bool(e.truth)
    case SJmp => false
  }

  /** The truth is always right, and the value unless a bare literal took a jump with a value along. */
  ghost predicate Faithful(e: Exit, x: Expr, carries: bool, c: Comparison, m: Regs)
  {
    && WayOf(e) in Ways(x, carries) && e.truth == Truthy(Eval(x, c, m))
    && (e.here ==> e.clean) && (!e.here ==> e.val == Standing(e.carried, e.truth))
    && (if e.clean then e.val == Eval(x, c, m) else e.carried.Some? && Eval(x, c, m) == Bool(e.truth))
    && (e.here ==> Sorted(SortOf(x), e))
  }

  lemma GoFaithful(a: Expr, xa: Exit, carries: bool, truth: bool, c: Comparison, m: Regs)
    requires Faithful(xa, a, carries, c, m)
    ensures var k := SortOf(a); var y, t := Go(k, xa, truth), TurnAt(k, WayOf(xa), truth);
            && t == Turn(y.on, y.carried.Some?, y.clean) && y.on == (Truthy(Eval(a, c, m)) == truth)
            && (!y.on ==> var e := Leaving(y, truth);
                  e.truth == Truthy(Eval(a, c, m)) && if e.clean then e.val == Eval(a, c, m) else e.carried.Some? && Eval(a, c, m) == Bool(e.truth))
  {
  }

  lemma BothHas(k: Sort, first: set<Way>, truth: bool, plain: set<Way>, carrying: set<Way>, w: Way)
    requires w in first
    ensures var t := TurnAt(k, w, truth);
            if t.on then (if t.carries then carrying else plain) <= Both(k, first, truth, plain, carrying)
            else Way(false, !truth, t.carries, t.clean) in Both(k, first, truth, plain, carrying)
  {
  }

  /** In a tame expression every run takes one of its ways, and its truth is right. */
  lemma {:induction false} Follows(x: Expr, carried: Option<Val>, c: Comparison, m: Regs)
    requires Tame(x, carried.Some?)
    ensures Faithful(Leave(x, carried, c, m), x, carried.Some?, c, m)
    decreases x
  {
    match x {
      case Local(_) =>
      case Lit(_, _) =>
      case Neg(a) => Follows(a, carried, c, m);
      case And(a, b) => FollowsBoth(a, b, true, carried, c, m);
      case Or(a, b) => FollowsBoth(a, b, false, carried, c, m);
      case Rel(op, a, b) => FollowsRel(op, a, b, carried, c, m);
    }
  }

  lemma {:induction false} FollowsRel(op: RelOp, a: Expr, b: Expr, carried: Option<Val>, c: Comparison, m: Regs)
    requires Tame(Rel(op, a, b), carried.Some?)
    ensures Faithful(Leave(Rel(op, a, b), carried, c, m), Rel(op, a, b), carried.Some?, c, m)
    decreases Rel(op, a, b), 0
  {
    RelLess(op, a, b);
    hide *;
    var xa := Leave(a, carried, c, m);
    RelTame(op, a, b, carried.Some?, WayOf(xa));
    Follows(a, carried, c, m);
    WayIn(xa, a, carried.Some?, c, m);
    SecondIs(a, xa);
    Follows(b, Second(a, xa), c, m);
    var xb := Leave(b, Second(a, xa), c, m);
    WayIn(xb, b, Second(a, xa).Some?, c, m);
    CleanRight(xa, a, carried.Some?, c, m);
    CleanRight(xb, b, Second(a, xa).Some?, c, m);
    RelFaithful(op, a, b, carried, c, m);
  }

  lemma RelLess(op: RelOp, a: Expr, b: Expr)
    ensures a < Rel(op, a, b) && b < Rel(op, a, b)
  {
  }

  lemma RelTame(op: RelOp, a: Expr, b: Expr, carries: bool, w: Way)
    requires Tame(Rel(op, a, b), carries)
    ensures Tame(a, carries)
    ensures w in Ways(a, carries) ==> w.clean && Tame(b, Direct(a) && w.carries) && forall v :: v in Ways(b, Direct(a) && w.carries) ==> v.clean
  {
    hide Ways, Direct;
  }

  lemma SecondIs(a: Expr, xa: Exit)
    ensures Second(a, xa).Some? == (Direct(a) && WayOf(xa).carries)
  {
    hide Direct;
  }

  lemma CleanRight(e: Exit, x: Expr, carries: bool, c: Comparison, m: Regs)
    requires Faithful(e, x, carries, c, m) && WayOf(e).clean
    ensures e.val == Eval(x, c, m)
  {
    hide Ways, Eval;
  }

  lemma RelFaithful(op: RelOp, a: Expr, b: Expr, carried: Option<Val>, c: Comparison, m: Regs)
    requires var xa := Leave(a, carried, c, m); xa.val == Eval(a, c, m) && Leave(b, Second(a, xa), c, m).val == Eval(b, c, m)
    ensures Faithful(Leave(Rel(op, a, b), carried, c, m), Rel(op, a, b), carried.Some?, c, m)
  {
    hide Second, Compares;
  }

  function Join(a: Expr, b: Expr, truth: bool): Expr
  {
    if truth then And(a, b) else Or(a, b)
  }

  lemma JoinIs(a: Expr, b: Expr, truth: bool, carried: Option<Val>, c: Comparison, m: Regs)
    ensures var y := Go(SortOf(a), Leave(a, carried, c, m), truth);
            Leave(Join(a, b, truth), carried, c, m) == if y.on then Leave(b, y.carried, c, m) else Leaving(y, truth)
    ensures Eval(Join(a, b, truth), c, m) == if Truthy(Eval(a, c, m)) == truth then Eval(b, c, m) else Eval(a, c, m)
    ensures Ways(Join(a, b, truth), carried.Some?) == Both(SortOf(a), Ways(a, carried.Some?), truth, Ways(b, false), Ways(b, true))
    ensures SortOf(Join(a, b, truth)) == SortOf(b) && Locals(Join(a, b, truth)) == Locals(a) + Locals(b)
  {
    hide Both, Go, Leaving;
  }

  lemma JoinFaithful(a: Expr, b: Expr, xa: Exit, e: Exit, truth: bool, carries: bool, c: Comparison, m: Regs)
    requires Faithful(xa, a, carries, c, m)
    requires SortOf(Join(a, b, truth)) == SortOf(b)
    requires Eval(Join(a, b, truth), c, m) == if Truthy(Eval(a, c, m)) == truth then Eval(b, c, m) else Eval(a, c, m)
    requires Ways(Join(a, b, truth), carries) == Both(SortOf(a), Ways(a, carries), truth, Ways(b, false), Ways(b, true))
    requires var y := Go(SortOf(a), xa, truth); if y.on then Faithful(e, b, y.carried.Some?, c, m) else e == Leaving(y, truth)
    ensures Faithful(e, Join(a, b, truth), carries, c, m)
  {
    GoFaithful(a, xa, carries, truth, c, m);
    BothHas(SortOf(a), Ways(a, carries), truth, Ways(b, false), Ways(b, true), WayOf(xa));
    hide Ways, Both, Go, TurnAt, SortOf, Eval, Join;
  }

  lemma {:induction false} FollowsBoth(a: Expr, b: Expr, truth: bool, carried: Option<Val>, c: Comparison, m: Regs)
    requires Tame(a, carried.Some?)
    requires forall w :: w in Ways(a, carried.Some?) && TurnAt(SortOf(a), w, truth).on ==> Tame(b, TurnAt(SortOf(a), w, truth).carries)
    ensures var x := Join(a, b, truth); Faithful(Leave(x, carried, c, m), x, carried.Some?, c, m)
    decreases Join(a, b, truth), 0
  {
    JoinLess(a, b, truth);
    hide *;
    Follows(a, carried, c, m);
    var xa := Leave(a, carried, c, m);
    WayIn(xa, a, carried.Some?, c, m);
    TurnOf(SortOf(a), xa, truth);
    var y := Go(SortOf(a), xa, truth);
    if y.on {
      Follows(b, y.carried, c, m);
    }
    JoinIs(a, b, truth, carried, c, m);
    JoinFaithful(a, b, xa, Leave(Join(a, b, truth), carried, c, m), truth, carried.Some?, c, m);
  }

  lemma JoinLess(a: Expr, b: Expr, truth: bool)
    ensures a < Join(a, b, truth) && b < Join(a, b, truth)
  {
  }

  lemma WayIn(e: Exit, x: Expr, carries: bool, c: Comparison, m: Regs)
    requires Faithful(e, x, carries, c, m)
    ensures WayOf(e) in Ways(x, carries)
  {
  }

  lemma TurnOf(k: Sort, xa: Exit, truth: bool)
    ensures var y, t := Go(k, xa, truth), TurnAt(k, WayOf(xa), truth); t == Turn(y.on, y.carried.Some?, y.clean)
  {
  }

  /** A harmless expression's code yields its value. */
  lemma HarmlessRight(x: Expr, c: Comparison, m: Regs)
    requires Harmless(x)
    ensures Outcome(x, c, m) == Eval(x, c, m)
  {
    Follows(x, None, c, m);
  }

  /** Run by run: a tame expression's code yields another value exactly when a bare literal decides and takes along a jump with another value. */
  lemma WrongExactly(x: Expr, c: Comparison, m: Regs)
    requires Tame(x, false)
    ensures var e := Leave(x, None, c, m);
            Outcome(x, c, m) != Eval(x, c, m) <==> !e.clean && e.carried != Some(Bool(e.truth))
  {
    Follows(x, None, c, m);
  }

  // ---------------------------------------------------------------- every way is taken

  function Locals(x: Expr): set<int>
  {
    match x
    case Local(r) => {r}
    case Lit(_, _) => {}
    case Neg(a) => Locals(a)
    case And(a, b) => Locals(a) + Locals(b)
    case Or(a, b) => Locals(a) + Locals(b)
    case Rel(_, a, b) => Locals(a) + Locals(b)
  }

  /** No local occurs twice, and comparisons compare locals. */
  predicate ReadOnce(x: Expr)
  {
    match x
    case Local(_) => true
    case Lit(_, _) => true
    case Neg(a) => ReadOnce(a)
    case And(a, b) => ReadOnce(a) && ReadOnce(b) && Locals(a) !! Locals(b)
    case Or(a, b) => ReadOnce(a) && ReadOnce(b) && Locals(a) !! Locals(b)
    case Rel(_, a, b) => a.Local? && b.Local? && a.r != b.r
  }

  lemma {:induction false} ReadOnceTame(x: Expr, carries: bool)
    requires ReadOnce(x)
    ensures Tame(x, carries)
    decreases x
  {
    match x {
      case Local(_) =>
      case Lit(_, _) =>
      case Neg(a) => ReadOnceTame(a, carries);
      case And(a, b) => ReadOnceTame(a, carries); ReadOnceTame(b, true); ReadOnceTame(b, false);
      case Or(a, b) => ReadOnceTame(a, carries); ReadOnceTame(b, true); ReadOnceTame(b, false);
      case Rel(_, a, b) => LocalTame(a); LocalTame(b);
    }
  }

  lemma LocalTame(x: Expr)
    requires x.Local?
    ensures forall k :: Tame(x, k) && AllClean(x, k)
  {
  }

  /** A comparison that holds when an operand is one of the chosen values. */
  function Chosen(s: set<int>): Comparison
  {
    (op, u: Val, v: Val) => (u.Other? && u.id in s) || (v.Other? && v.id in s)
  }

  /** Every local is nil, or a value of its own. */
  ghost predicate Own(m: Regs)
  {
    forall r: nat :: Get(m, r) == Nil || Get(m, r) == Other(r)
  }

  predicate Alike(x: Expr, s1: set<int>, m1: Regs, s2: set<int>, m2: Regs)
  {
    forall r: nat :: r in Locals(x) ==> Get(m1, r) == Get(m2, r) && (r in s1 <==> r in s2)
  }

  lemma {:induction false} AlikeLeaves(x: Expr, carried: Option<Val>, s1: set<int>, m1: Regs, s2: set<int>, m2: Regs)
    requires ReadOnce(x) && Alike(x, s1, m1, s2, m2) && Own(m1)
    ensures Leave(x, carried, Chosen(s1), m1) == Leave(x, carried, Chosen(s2), m2)
    decreases x
  {
    match x {
      case Local(_) =>
      case Lit(_, _) =>
      case Neg(a) => AlikeLeaves(a, carried, s1, m1, s2, m2);
      case And(a, b) =>
        AlikeLeaves(a, carried, s1, m1, s2, m2);
        AlikeLeaves(b, Go(SortOf(a), Leave(a, carried, Chosen(s1), m1), true).carried, s1, m1, s2, m2);
      case Or(a, b) =>
        AlikeLeaves(a, carried, s1, m1, s2, m2);
        AlikeLeaves(b, Go(SortOf(a), Leave(a, carried, Chosen(s1), m1), false).carried, s1, m1, s2, m2);
      case Rel(op, a, b) =>
        assert a.r in Locals(a) && b.r in Locals(b);
        assert a.r in Locals(x) && b.r in Locals(x);
        AlikeCompares(op, a.r, b.r, s1, m1, s2, m2);
    }
  }

  lemma AlikeCompares(op: RelOp, p: nat, q: nat, s1: set<int>, m1: Regs, s2: set<int>, m2: Regs)
    requires Own(m1) && forall r: nat :: r == p || r == q ==> Get(m1, r) == Get(m2, r) && (r in s1 <==> r in s2)
    ensures Get(m1, p) == Get(m2, p) && Get(m1, q) == Get(m2, q)
    ensures Compares(op, Get(m1, p), Get(m1, q), Chosen(s1)) == Compares(op, Get(m1, p), Get(m1, q), Chosen(s2))
  {
    assert (Get(m1, p) == Nil || Get(m1, p) == Other(p)) && (Get(m1, q) == Nil || Get(m1, q) == Other(q));
  }

  /** Registers and a comparison for which the run takes the way. */
  lemma {:induction false} Taken(x: Expr, carried: Option<Val>, w: Way) returns (s: set<int>, m: Regs)
    requires ReadOnce(x) && w in Ways(x, carried.Some?)
    ensures s <= Locals(x) && m.Keys <= Locals(x) && Own(m) && WayOf(Leave(x, carried, Chosen(s), m)) == w
    decreases x
  {
    match x {
      case Local(r) => s, m := {}, if w.truth then map[r := Other(r)] else map[];
      case Lit(_, _) => s, m := {}, map[];
      case Neg(a) =>
        var wa :| wa in Ways(a, carried.Some?) && w == Way(wa.here, !wa.truth, wa.here && SortOf(a).SLit? && wa.carries, true);
        s, m := Taken(a, carried, wa);
      case And(a, b) => s, m := TakenBoth(a, b, true, carried, w);
      case Or(a, b) => s, m := TakenBoth(a, b, false, carried, w);
      case Rel(op, a, b) =>
        s, m := if w.truth == (op != Ne) then {a.r as int} else {}, map[a.r := Other(a.r), b.r := Other(b.r)];
    }
  }

  /** Where a way out of and/or comes from. */
  lemma BothFrom(k: Sort, first: set<Way>, truth: bool, plain: set<Way>, carrying: set<Way>, w: Way) returns (wa: Way)
    requires w in Both(k, first, truth, plain, carrying)
    ensures wa in first
    ensures var t := TurnAt(k, wa, truth);
            if t.on then w in (if t.carries then carrying else plain) else w == Way(false, !truth, t.carries, t.clean)
  {
    if exists wa :: wa in first && !TurnAt(k, wa, truth).on && w == Way(false, !truth, TurnAt(k, wa, truth).carries, TurnAt(k, wa, truth).clean) {
      wa :| wa in first && !TurnAt(k, wa, truth).on && w == Way(false, !truth, TurnAt(k, wa, truth).carries, TurnAt(k, wa, truth).clean);
    } else if w in plain && exists wa :: wa in first && TurnAt(k, wa, truth).on && !TurnAt(k, wa, truth).carries {
      wa :| wa in first && TurnAt(k, wa, truth).on && !TurnAt(k, wa, truth).carries;
    } else {
      wa :| wa in first && TurnAt(k, wa, truth).on && TurnAt(k, wa, truth).carries;
    }
  }

  /** The registers of both operands together. */
  lemma Together(a: Expr, b: Expr, sa: set<int>, ma: Regs, sb: set<int>, mb: Regs)
    requires Locals(a) !! Locals(b) && sa <= Locals(a) && sb <= Locals(b) && Own(ma) && Own(mb)
    requires ma.Keys <= Locals(a) && mb.Keys <= Locals(b)
    ensures Alike(a, sa, ma, sa + sb, ma + mb) && Alike(b, sb, mb, sa + sb, ma + mb) && Own(ma + mb)
    ensures (ma + mb).Keys <= Locals(a) + Locals(b)
  {
    forall r: nat ensures Get(ma + mb, r) == Nil || Get(ma + mb, r) == Other(r) {
      assert (Get(ma, r) == Nil || Get(ma, r) == Other(r)) && (Get(mb, r) == Nil || Get(mb, r) == Other(r));
    }
    hide Locals;
  }

  lemma {:induction false} TakenBoth(a: Expr, b: Expr, truth: bool, carried: Option<Val>, w: Way) returns (s: set<int>, m: Regs)
    requires ReadOnce(a) && ReadOnce(b) && Locals(a) !! Locals(b)
    requires w in Both(SortOf(a), Ways(a, carried.Some?), truth, Ways(b, false), Ways(b, true))
    ensures s <= Locals(a) + Locals(b) && m.Keys <= Locals(a) + Locals(b) && Own(m)
    ensures WayOf(Leave(Join(a, b, truth), carried, Chosen(s), m)) == w
    decreases Join(a, b, truth), 0
  {
    JoinLess(a, b, truth);
    hide *;
    var k := SortOf(a);
    var wa := BothFrom(k, Ways(a, carried.Some?), truth, Ways(b, false), Ways(b, true), w);
    var sa, ma := Taken(a, carried, wa);
    var y := Go(k, Leave(a, carried, Chosen(sa), ma), truth);
    TurnOf(k, Leave(a, carried, Chosen(sa), ma), truth);
    s, m := sa, ma;
    if y.on {
      var sb, mb := Taken(b, y.carried, w);
      s, m := sa + sb, ma + mb;
      Together(a, b, sa, ma, sb, mb);
      AlikeLeaves(a, carried, sa, ma, s, m);
      AlikeLeaves(b, y.carried, sb, mb, s, m);
    }
    JoinIs(a, b, truth, carried, Chosen(s), m);
    LeavingWay(y, truth);
  }

  lemma LeavingWay(y: Went, truth: bool)
    ensures WayOf(Leaving(y, truth)) == Way(false, !truth, y.carried.Some?, y.clean)
  {
  }

  /** A value a jump carries is no boolean, if no local is one. */
  lemma {:induction false} CarriedPlain(x: Expr, carried: Option<Val>, c: Comparison, m: Regs)
    requires Own(m) && (carried.Some? ==> !carried.value.Bool?)
    ensures var e := Leave(x, carried, c, m);
            && (e.carried.Some? ==> !e.carried.value.Bool?)
            && (e.here && SortOf(x).SLocal? ==> !e.val.Bool?) && (e.here ==> !SortOf(x).SJmp?) && (!e.clean ==> e.carried.Some? && !e.here && e.val == e.carried.value)
    decreases x
  {
    match x {
      case Local(_) =>
      case Lit(_, _) =>
      case Neg(a) => CarriedPlain(a, carried, c, m);
      case And(a, b) =>
        CarriedPlain(a, carried, c, m);
        var y := Go(SortOf(a), Leave(a, carried, c, m), true);
        if y.on {
          CarriedPlain(b, y.carried, c, m);
        }
      case Or(a, b) =>
        CarriedPlain(a, carried, c, m);
        var y := Go(SortOf(a), Leave(a, carried, c, m), false);
        if y.on {
          CarriedPlain(b, y.carried, c, m);
        }
      case Rel(_, _, _) =>
    }
  }

  /** An expression that reads no local twice yields its value for all registers and comparisons exactly when it is harmless. */
  lemma HarmlessExactly(x: Expr)
    requires ReadOnce(x)
    ensures (forall c: Comparison, m: Regs :: Outcome(x, c, m) == Eval(x, c, m)) <==> Harmless(x)
  {
    ReadOnceTame(x, false);
    if Harmless(x) {
      forall c: Comparison, m: Regs ensures Outcome(x, c, m) == Eval(x, c, m) {
        HarmlessRight(x, c, m);
      }
    } else {
      var w :| w in Ways(x, false) && !w.clean;
      var s, m := Taken(x, None, w);
      CarriedPlain(x, None, Chosen(s), m);
      WrongExactly(x, Chosen(s), m);
      assert Outcome(x, Chosen(s), m) != Eval(x, Chosen(s), m);
    }
  }

  // ---------------------------------------------------------------- locals read more than once

  predicate NoComparison(x: Expr)
  {
    match x
    case Local(_) => true
    case Lit(_, _) => true
    case Neg(a) => NoComparison(a)
    case And(a, b) => NoComparison(a) && NoComparison(b)
    case Or(a, b) => NoComparison(a) && NoComparison(b)
    case Rel(_, _, _) => false
  }

  lemma {:induction false} NoComparisonTame(x: Expr, carries: bool)
    requires NoComparison(x)
    ensures Tame(x, carries)
    decreases x
  {
    match x {
      case Local(_) =>
      case Lit(_, _) =>
      case Neg(a) => NoComparisonTame(a, carries);
      case And(a, b) => NoComparisonTame(a, carries); NoComparisonTame(b, true); NoComparisonTame(b, false);
      case Or(a, b) => NoComparisonTame(a, carries); NoComparisonTame(b, true); NoComparisonTame(b, false);
    }
  }

  /** The same locals are true. */
  predicate SameTruth(x: Expr, a: Regs, b: Regs)
  {
    forall r: nat :: r in Locals(x) ==> Truthy(Get(a, r)) == Truthy(Get(b, r))
  }

  /** The way of a run depends on which locals are true, and on nothing else. */
  lemma {:induction false} SameWay(x: Expr, carried: Option<Val>, carried': Option<Val>, c: Comparison, c': Comparison, m: Regs, m': Regs)
    requires NoComparison(x) && SameTruth(x, m, m') && carried.Some? == carried'.Some?
    ensures WayOf(Leave(x, carried, c, m)) == WayOf(Leave(x, carried', c', m'))
    ensures Sorts(x, Leave(x, carried, c, m)) && Sorts(x, Leave(x, carried', c', m'))
    decreases x
  {
    match x {
      case Local(_) =>
      case Lit(_, _) =>
      case Neg(a) => SameWay(a, carried, carried', c, c', m, m');
      case And(a, b) => SameWays(a, b, true, carried, carried', c, c', m, m');
      case Or(a, b) => SameWays(a, b, false, carried, carried', c, c', m, m');
    }
  }

  predicate Sorts(x: Expr, e: Exit)
  {
    e.here && SortOf(x).SLit? ==> e.truth == Truthy(SortOf(x).v)
  }

  lemma {:induction false} SameWays(a: Expr, b: Expr, truth: bool, carried: Option<Val>, carried': Option<Val>, c: Comparison, c': Comparison, m: Regs, m': Regs)
    requires NoComparison(a) && NoComparison(b) && SameTruth(a, m, m') && SameTruth(b, m, m') && carried.Some? == carried'.Some?
    ensures var x := Join(a, b, truth);
            && WayOf(Leave(x, carried, c, m)) == WayOf(Leave(x, carried', c', m'))
            && Sorts(x, Leave(x, carried, c, m)) && Sorts(x, Leave(x, carried', c', m'))
    decreases Join(a, b, truth), 0
  {
    JoinLess(a, b, truth);
    hide *;
    SameWay(a, carried, carried', c, c', m, m');
    var k, xa, xa' := SortOf(a), Leave(a, carried, c, m), Leave(a, carried', c', m');
    TurnOf(k, xa, truth);
    TurnOf(k, xa', truth);
    var y, y' := Go(k, xa, truth), Go(k, xa', truth);
    if y.on {
      SameWay(b, y.carried, y'.carried, c, c', m, m');
    }
    JoinIs(a, b, truth, carried, c, m);
    JoinIs(a, b, truth, carried', c', m');
    LeavingWay(y, truth);
    LeavingWay(y', truth);
    LeavingSorts(Join(a, b, truth), b, y, truth);
    LeavingSorts(Join(a, b, truth), b, y', truth);
    SortsSame(Join(a, b, truth), b);
  }

  lemma LeavingSorts(x: Expr, b: Expr, y: Went, truth: bool)
    ensures Sorts(x, Leaving(y, truth))
  {
  }

  lemma SortsSame(x: Expr, b: Expr)
    requires SortOf(x) == SortOf(b)
    ensures forall e :: Sorts(b, e) ==> Sorts(x, e)
  {
  }

  /** Registers in which a true local holds a value of its own, and any other nil. */
  function TruthOf(x: Expr, m: Regs): Regs
  {
    map r: nat | r in Locals(x) && Truthy(Get(m, r)) :: Other(r)
  }

  lemma TruthSame(x: Expr, m: Regs)
    ensures Own(TruthOf(x, m)) && SameTruth(x, m, TruthOf(x, m))
  {
  }

  /** Trying every choice of which locals are true, no value is lost. */
  ghost predicate CleanThroughout(x: Expr)
  {
    forall m :: Own(m) ==> Leave(x, None, Chosen({}), m).clean
  }

  /**
   An expression without comparisons yields its value for all registers exactly when no value is lost
   for any choice of which locals are true: finitely many cases, since nothing else of the registers matters.
   */
  lemma CleanExactly(x: Expr)
    requires NoComparison(x)
    ensures (forall c: Comparison, m: Regs :: Outcome(x, c, m) == Eval(x, c, m)) <==> CleanThroughout(x)
  {
    NoComparisonTame(x, false);
    if CleanThroughout(x) {
      forall c: Comparison, m: Regs ensures Outcome(x, c, m) == Eval(x, c, m) {
        TruthSame(x, m);
        SameWay(x, None, None, c, Chosen({}), m, TruthOf(x, m));
        WrongExactly(x, c, m);
        assert WayOf(Leave(x, None, c, m)).clean == WayOf(Leave(x, None, Chosen({}), TruthOf(x, m))).clean;
      }
    } else {
      var m :| Own(m) && !Leave(x, None, Chosen({}), m).clean;
      CarriedPlain(x, None, Chosen({}), m);
      WrongExactly(x, Chosen({}), m);
      assert Outcome(x, Chosen({}), m) != Eval(x, Chosen({}), m);
    }
  }

  // ---------------------------------------------------------------- literals that never matter

  /** No `false` to the left of `and`, no `true` to the left of `or`. */
  predicate Careful(x: Expr)
  {
    match x
    case Local(_) => true
    case Lit(_, _) => true
    case Rel(_, a, b) => Careful(a) && Careful(b)
    case Neg(a) => Careful(a)
    case And(a, b) => Careful(a) && Careful(b) && !(SortOf(a).SLit? && Bare(SortOf(a).v, true))
    case Or(a, b) => Careful(a) && Careful(b) && !(SortOf(a).SLit? && Bare(SortOf(a).v, false))
  }

  lemma BothClean(k: Sort, first: set<Way>, truth: bool, plain: set<Way>, carrying: set<Way>)
    requires !(k.SLit? && Bare(k.v, truth))
    requires forall w :: w in first || w in plain || w in carrying ==> w.clean
    ensures forall w :: w in Both(k, first, truth, plain, carrying) ==> w.clean
  {
  }

  /** Such expressions are harmless wherever they stand. */
  lemma {:induction false} CarefulHarmless(x: Expr, carries: bool)
    requires Careful(x)
    ensures Tame(x, carries) && AllClean(x, carries)
    decreases x
  {
    match x {
      case Local(_) =>
      case Lit(_, _) =>
      case Neg(a) => CarefulHarmless(a, carries);
      case And(a, b) =>
        CarefulHarmless(a, carries);
        CarefulHarmless(b, false);
        CarefulHarmless(b, true);
        BothClean(SortOf(a), Ways(a, carries), true, Ways(b, false), Ways(b, true));
        hide Both, TurnAt;
      case Or(a, b) =>
        CarefulHarmless(a, carries);
        CarefulHarmless(b, false);
        CarefulHarmless(b, true);
        BothClean(SortOf(a), Ways(a, carries), false, Ways(b, false), Ways(b, true));
        hide Both, TurnAt;
      case Rel(_, a, b) => CarefulHarmless(a, carries); CarefulHarmless(b, false); CarefulHarmless(b, true);
    }
  }

  // ---------------------------------------------------------------- three expressions

  /** `a and b or false and c` */
  const NIL_FOR_FALSE: Expr := Or(And(Local(0), Local(1)), And(Lit(Bool(false), true), Local(2)))

  /** `((not p and (p or q)) and false) and c` */
  const DEAD_PATH: Expr := And(And(BEFORE, Lit(Bool(false), true)), Local(2))

  /** The first yields nil where its value is false; negated it is harmless. */
  lemma NilForFalse(c: Comparison)
    ensures Eval(NIL_FOR_FALSE, c, map[]) == Bool(false) && Outcome(NIL_FOR_FALSE, c, map[]) == Nil
    ensures !Harmless(NIL_FOR_FALSE) && Harmless(Neg(NIL_FOR_FALSE))
  {
    var m: Regs := map[];
    var l, r := And(Local(0), Local(1)), And(Lit(Bool(false), true), Local(2));
    assert Leave(l, None, c, m) == Exit(false, false, Nil, Some(Nil), true);
    assert Leave(r, Some(Nil), c, m) == Exit(false, false, Nil, Some(Nil), false);
    ReadOnceTame(NIL_FOR_FALSE, false);
    ReadOnceTame(Neg(NIL_FOR_FALSE), false);
    Follows(NIL_FOR_FALSE, None, c, m);
  }

  const BEFORE: Expr := And(Neg(Local(0)), Or(Local(0), Local(1)))

  /** A jump of p leads to `false`, on a way. */
  lemma DeadWay()
    ensures Way(false, true, true, true) in Ways(BEFORE, false)
  {
    var n, o := Neg(Local(0)), Or(Local(0), Local(1));
    assert Way(true, false, false, true) in Ways(Local(0), false);
    assert Way(true, true, false, true) in Ways(Local(0), false);
    assert Way(true, true, false, true) in Ways(n, false);
    BothHas(SortOf(Local(0)), Ways(Local(0), false), false, Ways(Local(1), false), Ways(Local(1), true), Way(true, true, false, true));
    assert Way(false, true, true, true) in Ways(o, false);
    BothHas(SortOf(n), Ways(n, false), true, Ways(o, false), Ways(o, true), Way(true, true, false, true));
    hide Both;
  }

  lemma DeadEnd()
    ensures !Harmless(DEAD_PATH)
  {
    var l, f := Lit(Bool(false), true), And(BEFORE, Lit(Bool(false), true));
    DeadWay();
    assert TurnAt(SortOf(BEFORE), Way(false, true, true, true), true) == Turn(true, true, true);
    BothHas(SortOf(BEFORE), Ways(BEFORE, false), true, Ways(l, false), Ways(l, true), Way(false, true, true, true));
    assert Way(true, false, true, true) in Ways(l, true);
    assert Way(true, false, true, true) in Ways(f, false);
    assert TurnAt(SortOf(f), Way(true, false, true, true), true) == Turn(false, true, false);
    BothHas(SortOf(f), Ways(f, false), true, Ways(Local(2), false), Ways(Local(2), true), Way(true, false, true, true));
    assert Way(false, false, true, false) in Ways(DEAD_PATH, false);
  }

  lemma NotSort(x: Expr)
    requires SortOf(x).SLocal?
    ensures SortOf(Neg(x)) == SNot
  {
  }

  lemma BeforeLeaves(c: Comparison, m: Regs)
    ensures var e := Leave(BEFORE, None, c, m);
            e.truth == Truthy(Eval(BEFORE, c, m)) && e.val == Eval(BEFORE, c, m) && (if e.here then e.val == Get(m, 1) else !e.truth) && (!e.here ==> e.val == Standing(e.carried, false))
  {
    var n, o := Neg(Local(0)), Or(Local(0), Local(1));
    var p, q := Get(m, 0), Get(m, 1);
    assert Eval(Local(0), c, m) == p && Eval(Local(1), c, m) == q && SortOf(Local(0)) == SLocal;
    NotSort(Local(0));
    assert Eval(n, c, m) == Bool(!Truthy(p)) && Eval(o, c, m) == if Truthy(p) then p else q;
    assert Leave(n, None, c, m) == Exit(true, !Truthy(p), Bool(!Truthy(p)), None, true) && SortOf(n) == SNot;
    assert Leave(o, None, c, m) == if Truthy(p) then Exit(false, true, p, Some(p), true) else Exit(true, Truthy(q), q, None, true);
    JoinIs(n, o, true, None, c, m);
    hide Harmless, Ways;
  }

  lemma DeadIs(c: Comparison, m: Regs)
    ensures var f := Lit(Bool(false), true);
            Join(BEFORE, f, true) == And(BEFORE, f) && Join(And(BEFORE, f), Local(2), true) == DEAD_PATH && SortOf(BEFORE) == SLocal
            && SortOf(And(BEFORE, f)) == SLit(Bool(false), true) && Outcome(DEAD_PATH, c, m) == Leave(DEAD_PATH, None, c, m).val
  {
  }

  lemma DeadEnds(c: Comparison, m: Regs, xb: Exit, xf: Exit, e: Exit)
    requires var y := Go(SLocal, xb, true); xf == if y.on then Leave(Lit(Bool(false), true), y.carried, c, m) else Leaving(y, true)
    requires var y := Go(SLit(Bool(false), true), xf, true); e == if y.on then Leave(Local(2), y.carried, c, m) else Leaving(y, true)
    requires xb.truth == Truthy(Eval(BEFORE, c, m)) && xb.val == Eval(BEFORE, c, m) && (!xb.here ==> !xb.truth && xb.val == Standing(xb.carried, false))
    ensures e.val == Eval(DEAD_PATH, c, m)
  {
    var f := Lit(Bool(false), true);
    assert Eval(And(BEFORE, f), c, m) == if xb.truth then Bool(false) else xb.val;
    assert !Truthy(Eval(And(BEFORE, f), c, m));
    hide Harmless, Ways, BEFORE;
  }

  /** Not harmless by its ways, yet always right: the way on which `false` takes along the value of p is closed by `not p`. */
  lemma DeadPath(c: Comparison, m: Regs)
    ensures !Harmless(DEAD_PATH) && Outcome(DEAD_PATH, c, m) == Eval(DEAD_PATH, c, m)
  {
    DeadEnd();
    BeforeLeaves(c, m);
    var f := Lit(Bool(false), true);
    hide *;
    JoinIs(BEFORE, f, true, None, c, m);
    JoinIs(And(BEFORE, f), Local(2), true, None, c, m);
    DeadIs(c, m);
    DeadEnds(c, m, Leave(BEFORE, None, c, m), Leave(And(BEFORE, f), None, c, m), Leave(DEAD_PATH, None, c, m));
  }
}
