/**
 The backtracking matcher: it finds the first of all matches in the order of
 preference, or fails with the captures as they were.
 */
module LuaMatch {
  import opened Options
  import opened LuaPattern

  datatype Res = Found(end: nat) | NoMatch | Error

  // ---------------------------------------------------------------- single characters

  /** Does the class letter stand for the character?  An upper-case letter stands for the complement. */
  method MatchClass(c: char, cl: char) returns (res: bool)
    ensures res == Escaped(c, cl)
  {
    var l := ToLower(cl);
    match l {
      case 'a' => res := Alpha(c);
      case 'c' => res := c < ' ' || c as int == 127;
      case 'd' => res := Digit(c);
      case 'l' => res := Lower(c);
      case 'p' => res := Graph(c) && !Alpha(c) && !Digit(c);
      case 's' => res := c == ' ' || 9 <= c as int <= 13;
      case 'u' => res := Upper(c);
      case 'w' => res := Alpha(c) || Digit(c);
      case 'x' => res := Digit(c) || 'a' <= c <= 'f' || 'A' <= c <= 'F';
      case 'z' => res := c == '\0';
      case _ => return cl == c;
    }
    if !Lower(cl) {
      res := !res;
    }
  }

  /** Is the character in the set from p to its closing bracket at ec? */
  method MatchBracketClass(pat: string, c: char, p: nat, ec: nat) returns (res: bool)
    ensures res == InSet(pat, p, ec, c)
  {
    var sig, q := true, p;
    if Ch(pat, q + 1) == '^' {
      sig := false;
      q := q + 1;
    }
    q := q + 1;
    ghost var start := q;
    while q < ec
      invariant start <= q && ((exists e :: e in Elems(pat, start, ec) && InElem(c, e)) <==> (exists e :: e in Elems(pat, q, ec) && InElem(c, e)))
    {
      hide InElem, Escaped;
      ElemsNext(pat, q, ec, c);
      if Ch(pat, q) == '%' {
        var m := MatchClass(c, Ch(pat, q + 1));
        if m {
          return sig;
        }
        q := q + 2;
      } else if Ch(pat, q + 1) == '-' && q + 2 < ec {
        if Ch(pat, q) <= c <= Ch(pat, q + 2) {
          return sig;
        }
        q := q + 3;
      } else {
        if Ch(pat, q) == c {
          return sig;
        }
        q := q + 1;
      }
    }
    res := !sig;
  }

  /** The first element, and the others. */
  lemma ElemsNext(pat: string, q: nat, ec: nat, c: char)
    requires q < ec
    ensures (exists e :: e in Elems(pat, q, ec) && InElem(c, e)) <==>
              if Ch(pat, q) == '%' then Escaped(c, Ch(pat, q + 1)) || exists e :: e in Elems(pat, q + 2, ec) && InElem(c, e)
              else if Ch(pat, q + 1) == '-' && q + 2 < ec then Ch(pat, q) <= c <= Ch(pat, q + 2) || exists e :: e in Elems(pat, q + 3, ec) && InElem(c, e)
              else Ch(pat, q) == c || exists e :: e in Elems(pat, q + 1, ec) && InElem(c, e)
  {
    var first := Elems(pat, q, ec)[0];
    assert first in Elems(pat, q, ec);
    var rest := Elems(pat, q, ec)[1..];
    assert Elems(pat, q, ec) == [first] + rest;
    hide Escaped;
  }

  method SingleMatch(pat: string, c: char, p: nat, ep: nat) returns (res: bool)
    ensures res == Accepts(pat, p, ep, c)
  {
    hide InSet, Escaped;
    if Ch(pat, p) == '.' {
      res := true;
    } else if Ch(pat, p) == '%' {
      res := MatchClass(c, Ch(pat, p + 1));
    } else if Ch(pat, p) == '[' {
      if ep == 0 {
        return false;
      }
      res := MatchBracketClass(pat, c, p, ep - 1);
    } else {
      res := Ch(pat, p) == c;
    }
  }

  /** Where a single item ends; None if the pattern is malformed. */
  method FindClassEnd(pat: string, p: nat) returns (r: Option<nat>)
    requires Ch(pat, p) != '\0'
    ensures r == ClassEnd(pat, p)
  {
    if Ch(pat, p) == '%' {
      if Ch(pat, p + 1) == '\0' {
        return None;
      }
      return Some(p + 2);
    }
    if Ch(pat, p) == '[' {
      var q := p + 1;
      if Ch(pat, q) == '^' {
        q := q + 1;
      }
      ghost var start := q;
      while true
        invariant start <= q && SetEnd(pat, start) == SetEnd(pat, q)
        decreases |pat| - q
      {
        if Ch(pat, q) == '\0' {
          return None;
        }
        var esc := Ch(pat, q) == '%';
        q := q + 1;
        if esc && Ch(pat, q) != '\0' {
          q := q + 1;
        }
        if Ch(pat, q) == ']' {
          return Some(q + 1);
        }
      }
    }
    r := Some(p + 1);
  }

  // ---------------------------------------------------------------- what a call answers

  /** The pattern from p on is well-formed, given the captures so far. */
  predicate Fine(pat: string, p: nat, caps: seq<Cap>)
  {
    Items(pat, p).Some? && WellFormed(Items(pat, p).value, Marks(caps))
  }

  /** All matches of the pattern from p on. */
  function All(pat: string, p: nat, src: string, s: nat, caps: seq<Cap>): seq<Outcome>
    requires s <= |src|
  {
    if Items(pat, p).Some? then Matches(pat, Items(pat, p).value, src, s, caps) else []
  }

  /** The preferred match of the pattern from p on, at s. */
  function First(pat: string, p: nat, src: string, s: nat, caps: seq<Cap>): Option<Outcome>
    requires s <= |src|
  {
    var os := All(pat, p, src, s, caps);
    if os == [] then None else Some(os[0])
  }

  /** The answer is the preferred match. */
  predicate Prefers(pat: string, p: nat, src: string, s: nat, caps: seq<Cap>, r: Res, now: seq<Cap>)
    requires s <= |src|
  {
    match r
    case Found(e) => First(pat, p, src, s, caps) == Some(Outcome(e, now))
    case NoMatch => First(pat, p, src, s, caps) == None && now == caps
    case Error => false
  }

  lemma MeetsFirst(pat: string, p: nat, src: string, s: nat, caps: seq<Cap>)
    requires s <= |src| && Fine(pat, p, caps)
    ensures forall r, now :: Meets(pat, p, src, s, caps, r, now) ==> Prefers(pat, p, src, s, caps, r, now)
  {
    hide Fine, All;
  }

  /** The first of the matches, or none and the captures as they were. */
  predicate Answers(os: seq<Outcome>, r: Res, caps: seq<Cap>, now: seq<Cap>)
  {
    match r
    case Found(e) => os != [] && os[0] == Outcome(e, now)
    case NoMatch => os == [] && now == caps
    case Error => false
  }

  /** The part of the pattern at p means what the one at p0 means, with these captures. */
  predicate GoesOn(pat: string, p0: nat, p: nat, src: string, s0: nat, s: nat, caps: seq<Cap>)
    requires s0 <= |src| && s <= |src|
  {
    Fine(pat, p0, caps) ==> Fine(pat, p, caps) && All(pat, p0, src, s0, caps) == All(pat, p, src, s, caps)
  }

  lemma ItemsNext(pat: string, p: nat)
    requires Ch(pat, p) != '\0'
    ensures match Head(pat, p)
            case None => Items(pat, p) == None
            case Some((item, next)) =>
              if Items(pat, next).Some? then
                Items(pat, p) == Some([item] + Items(pat, next).value) && ([item] + Items(pat, next).value)[1..] == Items(pat, next).value
              else Items(pat, p) == None
  {
  }

  /** The answer is the right one for the pattern from p on, if that is well-formed. */
  predicate Meets(pat: string, p: nat, src: string, s: nat, caps: seq<Cap>, r: Res, now: seq<Cap>)
    requires s <= |src|
  {
    Fine(pat, p, caps) ==> Answers(All(pat, p, src, s, caps), r, caps, now)
  }

  lemma MeetsBack(pat: string, p0: nat, p: nat, src: string, s0: nat, s: nat, caps: seq<Cap>, r: Res, now: seq<Cap>)
    requires s0 <= |src| && s <= |src| && GoesOn(pat, p0, p, src, s0, s, caps) && Meets(pat, p, src, s, caps, r, now)
    ensures Meets(pat, p0, src, s0, caps, r, now)
  {
    hide Fine, All, Answers;
  }

  lemma GoesFurther(pat: string, p0: nat, p: nat, p1: nat, src: string, s0: nat, s: nat, s1: nat, caps: seq<Cap>)
    requires s0 <= |src| && s <= |src| && s1 <= |src| && GoesOn(pat, p0, p, src, s0, s, caps) && GoesOn(pat, p, p1, src, s, s1, caps)
    ensures GoesOn(pat, p0, p1, src, s0, s1, caps)
  {
    hide Fine, All;
  }

  lemma GoesSelf(pat: string, p: nat, src: string, s: nat, caps: seq<Cap>)
    requires s <= |src|
    ensures GoesOn(pat, p, p, src, s, s, caps)
  {
    hide Fine, All;
  }

  lemma EndMeets(pat: string, p: nat, src: string, s: nat, caps: seq<Cap>)
    requires s <= |src| && Ch(pat, p) == '\0'
    ensures Meets(pat, p, src, s, caps, Found(s), caps)
  {
  }

  /** A malformed pattern promises nothing. */
  lemma MalformedMeets(pat: string, p: nat, src: string, s: nat, caps: seq<Cap>, r: Res, now: seq<Cap>)
    requires s <= |src| && Ch(pat, p) != '\0' && Head(pat, p) == None
    ensures Meets(pat, p, src, s, caps, r, now)
  {
    hide Matches;
  }

  /** The item at p, what follows it, and what all matches are. */
  lemma HeadIs(pat: string, p: nat, item: Item, next: nat, src: string, s: nat, caps: seq<Cap>)
    requires s <= |src| && Ch(pat, p) != '\0' && Head(pat, p) == Some((item, next)) && Fine(pat, p, caps)
    ensures Items(pat, next).Some?
    ensures var items := [item] + Items(pat, next).value;
            items[1..] == Items(pat, next).value && items[0] == item && All(pat, p, src, s, caps) == Matches(pat, items, src, s, caps) && WellFormed(items, Marks(caps))
  {
    ItemsNext(pat, p);
    hide Matches, WellFormed, Marks, Head;
  }

  lemma OpenMeets(pat: string, p: nat, item: Item, next: nat, src: string, s: nat, caps: seq<Cap>, what: Len, r: Res, now: seq<Cap>)
    requires s <= |src| && Ch(pat, p) != '\0' && Head(pat, p) == Some((item, next))
    requires (item.Open? && what == Unfinished) || (item.Position? && what == PositionOnly)
    requires |caps| < MAX_CAPTURES && Fine(pat, next, caps + [Cap(s, what)]) ==> Answers(All(pat, next, src, s, caps + [Cap(s, what)]), r, caps, now)
    ensures Meets(pat, p, src, s, caps, r, now)
  {
    if Fine(pat, p, caps) {
      HeadIs(pat, p, item, next, src, s, caps);
      MarksAdd(caps, Cap(s, what));
    }
    hide Head, Answers, Marks;
  }

  lemma CloseMeets(pat: string, p: nat, next: nat, src: string, s: nat, caps: seq<Cap>, r: Res, now: seq<Cap>)
    requires s <= |src| && Ch(pat, p) != '\0' && Head(pat, p) == Some((Close, next)) && Started(caps, s)
    requires var l := ToClose(caps);
             l >= 0 ==> var caps1 := caps[l := Cap(caps[l].init, Length(s - caps[l].init))];
                        Fine(pat, next, caps1) ==> Answers(All(pat, next, src, s, caps1), r, caps, now)
    ensures Meets(pat, p, src, s, caps, r, now)
  {
    hide *;
    if Fine(pat, p, caps) {
      HeadIs(pat, p, Close, next, src, s, caps);
      ToCloseIs(caps);
      CloseUnfolds(pat, [Close] + Items(pat, next).value, src, s, caps);
      var c := Cap(caps[ToClose(caps)].init, Length(s - caps[ToClose(caps)].init));
      MarksClose(caps, ToClose(caps), c);
      FineIs(pat, next, caps[ToClose(caps) := c]);
      AllIs(pat, next, src, s, caps[ToClose(caps) := c]);
    }
    MeetsIs(pat, p, src, s, caps, r, now);
  }

  lemma CloseUnfolds(pat: string, items: seq<Item>, src: string, s: nat, caps: seq<Cap>)
    requires s <= |src| && items != [] && items[0] == Close && WellFormed(items, Marks(caps)) && Started(caps, s) && LastOpen(Marks(caps)) == ToClose(caps)
    ensures var l := ToClose(caps);
            && l >= 0 && caps[l].init <= s && WellFormed(items[1..], Marks(caps)[l := true])
            && Matches(pat, items, src, s, caps) == Matches(pat, items[1..], src, s, caps[l := Cap(caps[l].init, Length(s - caps[l].init))])
  {
    hide ToClose, LastOpen, Marks;
  }

  lemma FineIs(pat: string, p: nat, caps: seq<Cap>)
    ensures Fine(pat, p, caps) <==> Items(pat, p).Some? && WellFormed(Items(pat, p).value, Marks(caps))
  {
    hide Items, WellFormed, Marks;
  }

  lemma AllIs(pat: string, p: nat, src: string, s: nat, caps: seq<Cap>)
    requires s <= |src|
    ensures All(pat, p, src, s, caps) == if Items(pat, p).Some? then Matches(pat, Items(pat, p).value, src, s, caps) else []
  {
    hide Items, Matches;
  }

  lemma MeetsIs(pat: string, p: nat, src: string, s: nat, caps: seq<Cap>, r: Res, now: seq<Cap>)
    requires s <= |src|
    ensures Meets(pat, p, src, s, caps, r, now) <==> (Fine(pat, p, caps) ==> Answers(All(pat, p, src, s, caps), r, caps, now))
  {
    hide Fine, All, Answers;
  }

  /** Where an item goes on that can go on at one place only. */
  predicate StepsTo(pat: string, item: Item, src: string, s: nat, caps: seq<Cap>, t: Option<nat>)
  {
    match item
    case Balance(b, e) => t == (if Ch(src, s) != b then None else BalanceEnd(src, s + 1, b, e, 1))
    case Frontier(q, ep) => ep > 0 && t == (if InSet(pat, q, ep - 1, Previous(src, s)) || !InSet(pat, q, ep - 1, Ch(src, s)) then None else Some(s))
    case BackRef(l) => 0 <= l < |caps| && t == (if RefersTo(src, s, caps[l]) then Some(s + caps[l].len.n) else None)
    case One(q, ep) => t == (if Fits(pat, q, ep, src, s) then Some(s + 1) else None)
    case _ => false
  }

  /** An item that goes on at one place only, or not at all. */
  lemma StepMeets(pat: string, p: nat, item: Item, next: nat, src: string, s: nat, caps: seq<Cap>, t: Option<nat>)
    requires s <= |src| && Ch(pat, p) != '\0' && Head(pat, p) == Some((item, next))
    requires StepsTo(pat, item, src, s, caps, t)
    ensures t.None? ==> Meets(pat, p, src, s, caps, NoMatch, caps)
    ensures t.Some? ==> t.value <= |src| && t.value >= s && GoesOn(pat, p, next, src, s, t.value, caps)
  {
    if Fine(pat, p, caps) {
      HeadIs(pat, p, item, next, src, s, caps);
      hide Head, Marks, InSet, BalanceEnd, Accepts;
      assert WellFormed(Items(pat, next).value, Marks(caps));
    }
  }

  /** A reference to a capture that is not closed is a mistake in the pattern. */
  lemma BadReference(pat: string, p: nat, l: int, next: nat, src: string, s: nat, caps: seq<Cap>, r: Res, now: seq<Cap>)
    requires s <= |src| && Ch(pat, p) != '\0' && Head(pat, p) == Some((BackRef(l), next)) && (l < 0 || l >= |caps| || caps[l].len == Unfinished)
    ensures Meets(pat, p, src, s, caps, r, now)
  {
    if Fine(pat, p, caps) {
      HeadIs(pat, p, BackRef(l), next, src, s, caps);
    }
    hide Head, Matches, Answers;
  }

  lemma AtEndMeets(pat: string, p: nat, next: nat, src: string, s: nat, caps: seq<Cap>)
    requires s <= |src| && Ch(pat, p) != '\0' && Head(pat, p) == Some((AtEnd, next))
    ensures Meets(pat, p, src, s, caps, if s == |src| then Found(s) else NoMatch, caps)
  {
    if Fine(pat, p, caps) {
      HeadIs(pat, p, AtEnd, next, src, s, caps);
    }
    hide Head;
  }

  /** What repetition answers. */
  predicate Expands(pat: string, next: nat, caps: seq<Cap>, os: seq<Outcome>, r: Res, now: seq<Cap>)
  {
    Fine(pat, next, caps) ==> Answers(os, r, caps, now)
  }

  function Rest(pat: string, next: nat): seq<Item>
  {
    if Items(pat, next).Some? then Items(pat, next).value else []
  }

  /** What a repeated item answers. */
  predicate RepeatsAs(pat: string, item: Item, next: nat, src: string, s: nat, caps: seq<Cap>, r: Res, now: seq<Cap>)
    requires s <= |src|
  {
    match item
    case Star(q, ep) => Expands(pat, next, caps, Greedy(pat, Rest(pat, next), src, s, caps, MaxCount(pat, q, ep, src, s)), r, now)
    case Plus(q, ep) =>
      (if Fits(pat, q, ep, src, s) then Expands(pat, next, caps, Greedy(pat, Rest(pat, next), src, s + 1, caps, MaxCount(pat, q, ep, src, s + 1)), r, now)
       else r == NoMatch && now == caps)
    case Lazy(q, ep) => next == ep + 1 && Expands(pat, next, caps, AllLazy(pat, q, ep, src, s, caps), r, now)
    case _ => false
  }

  lemma ExpandMeets(pat: string, p: nat, item: Item, next: nat, src: string, s: nat, caps: seq<Cap>, r: Res, now: seq<Cap>)
    requires s <= |src| && Ch(pat, p) != '\0' && Head(pat, p) == Some((item, next))
    requires RepeatsAs(pat, item, next, src, s, caps, r, now)
    ensures Meets(pat, p, src, s, caps, r, now)
  {
    if Fine(pat, p, caps) {
      HeadIs(pat, p, item, next, src, s, caps);
      hide Head, Marks, Accepts, MaxCount;
      assert WellFormed(Items(pat, next).value, Marks(caps));
    }
  }

  /** An optional item: with it first, then without. */
  lemma OptMeets(pat: string, p: nat, q: nat, ep: nat, next: nat, src: string, s: nat, caps: seq<Cap>, r: Res, now: seq<Cap>)
    requires s <= |src| && Ch(pat, p) != '\0' && Head(pat, p) == Some((Opt(q, ep), next))
    requires Fits(pat, q, ep, src, s) ==> s + 1 <= |src| && Meets(pat, next, src, s + 1, caps, r, now)
    ensures Fits(pat, q, ep, src, s) && r.Found? ==> Meets(pat, p, src, s, caps, r, now)
    ensures !Fits(pat, q, ep, src, s) || r.NoMatch? ==> GoesOn(pat, p, next, src, s, s, caps)
  {
    if Fine(pat, p, caps) {
      HeadIs(pat, p, Opt(q, ep), next, src, s, caps);
      hide Head, Marks, Accepts;
      assert WellFormed(Items(pat, next).value, Marks(caps));
    }
  }

  class MatchState {
    const src: string
    const pat: string
    var level: nat
    var capture: seq<Cap>

    constructor (source: string, pattern: string)
      ensures src == source && pat == pattern && Valid() && Caps() == []
    {
      src, pat, level := source, pattern, 0;
      capture := seq(MAX_CAPTURES, i => Cap(0, PositionOnly));
    }

    predicate Valid()
      reads this
    {
      level <= |capture| == MAX_CAPTURES
    }

    function Caps(): seq<Cap>
      reads this
      requires Valid()
    {
      capture[..level]
    }

    /** The last capture that is not closed. */
    method CaptureToClose() returns (l: int)
      requires Valid()
      ensures l == ToClose(Caps()) && -1 <= l < level
    {
      l := level - 1;
      while l >= 0
        invariant -1 <= l < level && ToClose(Caps()) == ToClose(capture[..l + 1])
      {
        assert capture[..l + 1][..l] == capture[..l];
        if capture[l].len == Unfinished {
          return;
        }
        l := l - 1;
      }
    }

    method Balanced(s: nat, b: char, e: char) returns (r: Option<nat>)
      ensures r == if Ch(src, s) != b then None else BalanceEnd(src, s + 1, b, e, 1)
    {
      if Ch(src, s) != b {
        return None;
      }
      var cont, t := 1, s + 1;
      while t < |src|
        invariant cont >= 1 && t >= s + 1 && BalanceEnd(src, s + 1, b, e, 1) == BalanceEnd(src, t, b, e, cont)
      {
        if src[t] == e {
          cont := cont - 1;
          if cont == 0 {
            return Some(t + 1);
          }
        } else if src[t] == b {
          cont := cont + 1;
        }
        t := t + 1;
      }
      r := None;
    }

    // -------------------------------------------------------------- matching

    /** The text of a capture, again. */
    method MatchCapture(s: nat, l: int) returns (r: Res)
      requires Valid() && s <= |src| && Started(Caps(), s)
      ensures r.Error? <==> l < 0 || l >= level || capture[l].len == Unfinished
      ensures !r.Error? ==> r == if RefersTo(src, s, capture[l]) then Found(s + capture[l].len.n) else NoMatch
    {
      if l < 0 || l >= level || capture[l].len == Unfinished {
        return Error;
      }
      if capture[l].len == PositionOnly || |src| - s < capture[l].len.n {
        return NoMatch;
      }
      assert capture[l] == Caps()[l];
      var len := capture[l].len.n;
      if src[capture[l].init..capture[l].init + len] == src[s..s + len] {
        return Found(s + len);
      }
      r := NoMatch;
    }

    /** A new capture; it is undone if the match fails. */
    method StartCapture(s: nat, p: nat, what: Len) returns (r: Res)
      requires Valid() && s <= |src| && p <= |pat| && Started(Caps(), s) && !what.Length?
      modifies this
      ensures Valid() && (r.NoMatch? ==> Caps() == old(Caps()))
      ensures var caps := old(Caps());
              |caps| < MAX_CAPTURES && Fine(pat, p, caps + [Cap(s, what)]) ==> Answers(All(pat, p, src, s, caps + [Cap(s, what)]), r, caps, Caps())
      decreases |pat| - p, 3
    {
      hide Fine, All;
      ghost var caps := Caps();
      if level >= MAX_CAPTURES {
        return Error;
      }
      capture := capture[level := Cap(s, what)];
      level := level + 1;
      assert Caps() == caps + [Cap(s, what)];
      r := Match(s, p);
      if r.NoMatch? {
        level := level - 1;
        assert Caps() == (caps + [Cap(s, what)])[..level] == caps;
      }
    }

    /** Closes the last open capture; it is open again if the match fails. */
    method EndCapture(s: nat, p: nat) returns (r: Res)
      requires Valid() && s <= |src| && p <= |pat| && Started(Caps(), s)
      modifies this
      ensures Valid() && (r.NoMatch? ==> Caps() == old(Caps()))
      ensures var caps := old(Caps()); var l := ToClose(caps);
              l >= 0 ==> var caps1 := caps[l := Cap(caps[l].init, Length(s - caps[l].init))];
                         Fine(pat, p, caps1) ==> Answers(All(pat, p, src, s, caps1), r, caps, Caps())
      decreases |pat| - p, 3
    {
      hide Fine, All, ToClose;
      ghost var caps := Caps();
      var l := CaptureToClose();
      if l < 0 {
        return Error;
      }
      assert caps[l] == capture[l];
      capture := capture[l := Cap(capture[l].init, Length(s - capture[l].init))];
      ghost var caps1 := caps[l := Cap(caps[l].init, Length(s - caps[l].init))];
      assert Caps() == caps1;
      r := Match(s, p);
      if r.NoMatch? {
        assert capture[l] == Caps()[l];
        capture := capture[l := Cap(capture[l].init, Unfinished)];
        assert Caps() == caps1[l := caps[l]] == caps;
      }
    }

    /** How many characters in a row are accepted. */
    method CountAccepted(s: nat, p: nat, ep: nat) returns (i: int)
      requires s <= |src|
      ensures i == MaxCount(pat, p, ep, src, s)
    {
      hide Accepts;
      i := 0;
      while s + i < |src|
        invariant 0 <= i && s + i <= |src| && MaxCount(pat, p, ep, src, s) == i + MaxCount(pat, p, ep, src, s + i)
      {
        var m := SingleMatch(pat, src[s + i], p, ep);
        if !m {
          break;
        }
        i := i + 1;
      }
    }

    /** As many repetitions as possible, then one fewer at a time. */
    method MaxExpand(s: nat, p: nat, ep: nat) returns (r: Res)
      requires Valid() && s <= |src| && p < ep + 1 <= |pat| && Started(Caps(), s)
      modifies this
      ensures Valid() && (r.NoMatch? ==> Caps() == old(Caps()))
      ensures Expands(pat, ep + 1, old(Caps()), Greedy(pat, Rest(pat, ep + 1), src, s, old(Caps()), MaxCount(pat, p, ep, src, s)), r, Caps())
      decreases |pat| - p, 0
    {
      hide Accepts, Fine, Matches;
      ghost var caps := Caps();
      var i := CountAccepted(s, p, ep);
      ghost var n := i;
      hide MaxCount, Greedy, Expands, Meets, Answers, Started;
      GreedyIs(pat, ep + 1, src, s, caps, p, ep, n);
      while i >= 0
        invariant -1 <= i && s + i <= |src| && Valid() && Caps() == caps && i <= n
        invariant Fine(pat, ep + 1, caps) ==> Greedy(pat, Rest(pat, ep + 1), src, s, caps, n) == if i < 0 then [] else Greedy(pat, Rest(pat, ep + 1), src, s, caps, i)
      {
        StartedLater(caps, s, s + i);
        r := Match(s + i, ep + 1);
        GreedyNext(pat, ep + 1, src, s, caps, i, r, Caps());
        if !r.NoMatch? {
          return;
        }
        i := i - 1;
      }
      r := NoMatch;
      NoneLeft(pat, ep + 1, caps);
    }

    /** As few repetitions as possible, then one more at a time. */
    method MinExpand(s0: nat, p: nat, ep: nat) returns (r: Res)
      requires Valid() && s0 <= |src| && p < ep + 1 <= |pat| && Started(Caps(), s0)
      modifies this
      ensures Valid() && (r.NoMatch? ==> Caps() == old(Caps()))
      ensures Expands(pat, ep + 1, old(Caps()), AllLazy(pat, p, ep, src, s0, old(Caps())), r, Caps())
      decreases |pat| - p, 0
    {
      hide Accepts, Fine, Matches, AllLazy, Expands, Meets, Answers, Started, Fits;
      ghost var caps := Caps();
      var s := s0;
      LazilySelf(pat, p, ep, src, s, caps);
      while true
        invariant s0 <= s <= |src| && Valid() && Caps() == caps && LazyFrom(pat, p, ep, src, s0, s, caps)
        decreases |src| - s
      {
        hide LazyFrom;
        StartedLater(caps, s0, s);
        r := Match(s, ep + 1);
        if !r.NoMatch? {
          LazilyFound(pat, p, ep, src, s0, s, caps, r, Caps());
          return;
        }
        var m := false;
        if s < |src| {
          m := SingleMatch(pat, src[s], p, ep);
        }
        FitsIs(pat, p, ep, src, s);
        LazilyFailed(pat, p, ep, src, s0, s, caps);
        if !m {
          return NoMatch;
        }
        s := s + 1;
      }
    }

    /** The first match of the pattern from p on, at s. */
    method Match(s0: nat, p0: nat) returns (r: Res)
      requires Valid() && s0 <= |src| && p0 <= |pat| && Started(Caps(), s0)
      modifies this
      ensures Valid() && (r.NoMatch? ==> Caps() == old(Caps()))
      ensures Meets(pat, p0, src, s0, old(Caps()), r, Caps())
      ensures Fine(pat, p0, old(Caps())) ==> Prefers(pat, p0, src, s0, old(Caps()), r, Caps())
      decreases |pat| - p0, 2
    {
      hide Meets, Prefers, GoesOn, Fine, All, Matches, Answers, InSet, Accepts, Greedy, Lazily, MaxCount, BalanceEnd, RefersTo, Expands, ClassEnd, Rest;
      ghost var caps := Caps();
      var s, p := s0, p0;
      if Fine(pat, p, caps) {
        MeetsFirst(pat, p, src, s, caps);
      }
      GoesSelf(pat, p, src, s, caps);
      while true
        invariant p0 <= p <= |pat| && s0 <= s <= |src| && Valid() && Caps() == caps && GoesOn(pat, p0, p, src, s0, s, caps)
        decreases |pat| - p
      {
        StartedLater(caps, s0, s);
        var c := Ch(pat, p);
        if c == '\0' {
          EndMeets(pat, p, src, s, caps);
          MeetsBack(pat, p0, p, src, s0, s, caps, Found(s), caps);
          return Found(s);
        }
        if c == '(' {
          if Ch(pat, p + 1) == ')' {
            r := StartCapture(s, p + 2, PositionOnly);
            OpenMeets(pat, p, Position, p + 2, src, s, caps, PositionOnly, r, Caps());
          } else {
            r := StartCapture(s, p + 1, Unfinished);
            OpenMeets(pat, p, Open, p + 1, src, s, caps, Unfinished, r, Caps());
          }
          MeetsBack(pat, p0, p, src, s0, s, caps, r, Caps());
          return;
        }
        if c == ')' {
          r := EndCapture(s, p + 1);
          CloseMeets(pat, p, p + 1, src, s, caps, r, Caps());
          MeetsBack(pat, p0, p, src, s0, s, caps, r, Caps());
          return;
        }
        if c == '$' && Ch(pat, p + 1) == '\0' {
          AtEndMeets(pat, p, p + 1, src, s, caps);
          r := if s == |src| then Found(s) else NoMatch;
          MeetsBack(pat, p0, p, src, s0, s, caps, r, caps);
          return;
        }
        var special := false;
        if c == '%' {
          var t, next, ok;
          special, ok, t, next := Special(s, p);
          if special && !ok {
            MalformedOrBad(pat, p, src, s, caps, Error);
            MeetsBack(pat, p0, p, src, s0, s, caps, Error, caps);
            return Error;
          }
          if special {
            if t == None {
              MeetsBack(pat, p0, p, src, s0, s, caps, NoMatch, caps);
              return NoMatch;
            }
            GoesFurther(pat, p0, p, next, src, s0, s, t.value, caps);
            s, p := t.value, next;
          }
        }
        if !special {
          var done, t, next;
          done, r, t, next := SingleItem(s, p);
          if done {
            MeetsBack(pat, p0, p, src, s0, s, caps, r, Caps());
            return;
          }
          GoesFurther(pat, p0, p, next, src, s0, s, t, caps);
          s, p := t, next;
        }
      }
    }

    /** Balanced text, a frontier, or the text of a capture. */
    method Special(s: nat, p: nat) returns (special: bool, ok: bool, t: Option<nat>, next: nat)
      requires Valid() && s <= |src| && p < |pat| && Ch(pat, p) == '%' && Started(Caps(), s)
      ensures special <==> Ch(pat, p + 1) == 'b' || Ch(pat, p + 1) == 'f' || Digit(Ch(pat, p + 1))
      ensures special && !ok ==> Wrong(pat, p, Caps())
      ensures special && ok && t == None ==> Meets(pat, p, src, s, Caps(), NoMatch, Caps())
      ensures special && ok && t.Some? ==> p < next <= |pat| && s <= t.value <= |src| && GoesOn(pat, p, next, src, s, t.value, Caps())
    {
      hide Meets, GoesOn, Matches, Answers, InSet, Accepts, BalanceEnd, RefersTo, ClassEnd;
      special, ok, t, next := true, true, None, p;
      var c := Ch(pat, p + 1);
      if c == 'b' {
        if Ch(pat, p + 2) == '\0' || Ch(pat, p + 3) == '\0' {
          ok := false;
        } else {
          t := Balanced(s, Ch(pat, p + 2), Ch(pat, p + 3));
          next := p + 4;
          StepMeets(pat, p, Balance(Ch(pat, p + 2), Ch(pat, p + 3)), next, src, s, Caps(), t);
        }
      } else if c == 'f' {
        if Ch(pat, p + 2) != '[' {
          ok := false;
          return;
        }
        var ep := FindClassEnd(pat, p + 2);
        if ep == None {
          ok := false;
          return;
        }
        next := ep.value;
        var before := MatchBracketClass(pat, Previous(src, s), p + 2, next - 1);
        var after := MatchBracketClass(pat, Ch(src, s), p + 2, next - 1);
        if !before && after {
          t := Some(s);
        }
        StepMeets(pat, p, Frontier(p + 2, next), next, src, s, Caps(), t);
      } else if Digit(c) {
        var l := c as int - '1' as int;
        var m := MatchCapture(s, l);
        if m.Error? {
          ok := false;
        } else {
          next := p + 2;
          if m.Found? {
            t := Some(m.end);
          }
          assert capture[l] == Caps()[l];
          StepMeets(pat, p, BackRef(l), next, src, s, Caps(), t);
        }
      } else {
        special := false;
      }
    }

    /** A single character item with its suffix: an answer, or where to go on. */
    method SingleItem(s: nat, p: nat) returns (done: bool, r: Res, t: nat, next: nat)
      requires Valid() && s <= |src| && p < |pat| && Ch(pat, p) != '\0' && Head(pat, p) == Single(pat, p) && Started(Caps(), s)
      modifies this
      ensures Valid() && (done && r.NoMatch? ==> Caps() == old(Caps())) && (!done ==> Caps() == old(Caps()))
      ensures done ==> Meets(pat, p, src, s, old(Caps()), r, Caps())
      ensures !done ==> p < next <= |pat| && s <= t <= |src| && GoesOn(pat, p, next, src, s, t, Caps())
      decreases |pat| - p, 1
    {
      hide Meets, GoesOn, Fine, All, Matches, Answers, Accepts, Greedy, Lazily, MaxCount, Expands, Rest, ClassEnd;
      ghost var caps := Caps();
      done, r, t, next := true, Error, s, p;
      var e := FindClassEnd(pat, p);
      if e == None {
        MalformedMeets(pat, p, src, s, caps, Error, caps);
        return;
      }
      var ep := e.value;
      var m := false;
      if s < |src| {
        m := SingleMatch(pat, src[s], p, ep);
      }
      var suffix := Ch(pat, ep);
      next := ep + 1;
      if suffix == '?' {
        if m {
          StartedLater(caps, s, s + 1);
          r := Match(s + 1, next);
          OptMeets(pat, p, p, ep, next, src, s, caps, r, Caps());
          if !r.NoMatch? {
            if r.Error? {
              OptError(pat, p, p, ep, next, src, s, caps, Caps());
            }
            return;
          }
        } else {
          OptMeets(pat, p, p, ep, next, src, s, caps, NoMatch, caps);
        }
        done := false;
      } else if suffix == '*' {
        r := MaxExpand(s, p, ep);
        ExpandMeets(pat, p, Star(p, ep), next, src, s, caps, r, Caps());
      } else if suffix == '+' {
        r := NoMatch;
        if m {
          StartedLater(caps, s, s + 1);
          r := MaxExpand(s + 1, p, ep);
        }
        ExpandMeets(pat, p, Plus(p, ep), next, src, s, caps, r, Caps());
      } else if suffix == '-' {
        r := MinExpand(s, p, ep);
        ExpandMeets(pat, p, Lazy(p, ep), next, src, s, caps, r, Caps());
      } else {
        next := ep;
        StepMeets(pat, p, One(p, ep), next, src, s, caps, if m then Some(s + 1) else None);
        if m {
          done, t := false, s + 1;
        } else {
          r := NoMatch;
        }
      }
    }
  }

  /** The item at p is malformed, or refers to a capture that is not closed. */
  predicate Wrong(pat: string, p: nat, caps: seq<Cap>)
    requires Ch(pat, p) != '\0'
  {
    match Head(pat, p)
    case None => true
    case Some((item, _)) => item.BackRef? && (item.l < 0 || item.l >= |caps| || caps[item.l].len == Unfinished)
  }

  lemma MalformedOrBad(pat: string, p: nat, src: string, s: nat, caps: seq<Cap>, r: Res)
    requires s <= |src| && Ch(pat, p) != '\0' && Wrong(pat, p, caps)
    ensures Meets(pat, p, src, s, caps, r, caps)
  {
    match Head(pat, p) {
      case None => MalformedMeets(pat, p, src, s, caps, r, caps);
      case Some((item, next)) => BadReference(pat, p, item.l, next, src, s, caps, r, caps);
    }
    hide Meets, Head;
  }

  /** An error in what follows is one in the pattern. */
  lemma OptError(pat: string, p: nat, q: nat, ep: nat, next: nat, src: string, s: nat, caps: seq<Cap>, now: seq<Cap>)
    requires s < |src| && Ch(pat, p) != '\0' && Head(pat, p) == Some((Opt(q, ep), next)) && Meets(pat, next, src, s + 1, caps, Error, now)
    ensures Meets(pat, p, src, s, caps, Error, now)
  {
    if Fine(pat, p, caps) {
      HeadIs(pat, p, Opt(q, ep), next, src, s, caps);
    }
    hide Head, Matches;
  }

  /** The answer to a repetition is the answer to its matches. */
  lemma GreedyIs(pat: string, next: nat, src: string, s: nat, caps: seq<Cap>, p: nat, ep: nat, n: nat)
    requires s <= |src| && n == MaxCount(pat, p, ep, src, s)
    ensures var os := Greedy(pat, Rest(pat, next), src, s, caps, n);
            forall r: Res, now: seq<Cap> :: (Fine(pat, next, caps) ==> Answers(os, r, caps, now)) ==> Expands(pat, next, caps, os, r, now)
  {
    hide Greedy, Fine, Answers;
  }

  lemma NoneLeft(pat: string, next: nat, caps: seq<Cap>)
    ensures Answers([], NoMatch, caps, caps)
  {
  }

  lemma GreedyNext(pat: string, next: nat, src: string, s: nat, caps: seq<Cap>, i: nat, r: Res, now: seq<Cap>)
    requires s + i <= |src| && Meets(pat, next, src, s + i, caps, r, now)
    ensures var os := Greedy(pat, Rest(pat, next), src, s, caps, i);
            Fine(pat, next, caps) ==>
              if r.NoMatch? then os == (if i == 0 then [] else Greedy(pat, Rest(pat, next), src, s, caps, i - 1)) && now == caps
              else Answers(os, r, caps, now)
  {
    hide Matches;
  }

  /** All matches from s on with the fewest repetitions first. */
  function AllLazy(pat: string, p: nat, ep: nat, src: string, s: nat, caps: seq<Cap>): seq<Outcome>
    requires s <= |src|
  {
    Lazily(pat, Rest(pat, ep + 1), src, s, caps, MaxCount(pat, p, ep, src, s))
  }

  /** What is left to try from s on is all there is from s0 on. */
  predicate LazyFrom(pat: string, p: nat, ep: nat, src: string, s0: nat, s: nat, caps: seq<Cap>)
    requires s0 <= |src| && s <= |src|
  {
    Fine(pat, ep + 1, caps) ==> AllLazy(pat, p, ep, src, s0, caps) == AllLazy(pat, p, ep, src, s, caps)
  }

  lemma LazilySelf(pat: string, p: nat, ep: nat, src: string, s: nat, caps: seq<Cap>)
    requires s <= |src|
    ensures LazyFrom(pat, p, ep, src, s, s, caps)
  {
    hide Fine, AllLazy;
  }

  lemma FitsIs(pat: string, p: nat, ep: nat, src: string, s: nat)
    ensures Fits(pat, p, ep, src, s) <==> s < |src| && Accepts(pat, p, ep, src[s])
  {
    hide Accepts;
  }

  /** No match without a further repetition, then the matches with one more. */
  lemma LazilyUnfold(pat: string, p: nat, ep: nat, src: string, s: nat, caps: seq<Cap>)
    requires s <= |src|
    ensures AllLazy(pat, p, ep, src, s, caps) ==
              Matches(pat, Rest(pat, ep + 1), src, s, caps) + if Fits(pat, p, ep, src, s) then AllLazy(pat, p, ep, src, s + 1, caps) else []
  {
    OneMoreCount(pat, p, ep, src, s);
    hide Matches, Accepts, MaxCount;
  }

  /** A match with these repetitions comes first of all. */
  lemma LazilyFound(pat: string, p: nat, ep: nat, src: string, s0: nat, s: nat, caps: seq<Cap>, r: Res, now: seq<Cap>)
    requires s0 <= |src| && s <= |src| && LazyFrom(pat, p, ep, src, s0, s, caps) && Meets(pat, ep + 1, src, s, caps, r, now) && !r.NoMatch?
    ensures Expands(pat, ep + 1, caps, AllLazy(pat, p, ep, src, s0, caps), r, now)
  {
    LazilyUnfold(pat, p, ep, src, s, caps);
    hide Fine, AllLazy, Matches, Items, Fits;
    NeedsItems(pat, ep + 1, caps);
  }

  /** No match with these repetitions: there are none, or those with one more. */
  lemma LazilyFailed(pat: string, p: nat, ep: nat, src: string, s0: nat, s: nat, caps: seq<Cap>)
    requires s0 <= |src| && s <= |src| && LazyFrom(pat, p, ep, src, s0, s, caps) && Meets(pat, ep + 1, src, s, caps, NoMatch, caps)
    ensures Fits(pat, p, ep, src, s) ==> s + 1 <= |src| && LazyFrom(pat, p, ep, src, s0, s + 1, caps)
    ensures !Fits(pat, p, ep, src, s) ==> Expands(pat, ep + 1, caps, AllLazy(pat, p, ep, src, s0, caps), NoMatch, caps)
  {
    LazilyUnfold(pat, p, ep, src, s, caps);
    FitsIs(pat, p, ep, src, s);
    hide Fine, AllLazy, Matches, Items, Fits;
    NeedsItems(pat, ep + 1, caps);
  }

  lemma NeedsItems(pat: string, p: nat, caps: seq<Cap>)
    ensures Fine(pat, p, caps) ==> Items(pat, p).Some?
  {
    hide Items, WellFormed;
  }
}
