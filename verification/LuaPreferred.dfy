/**
 What the preferred match is, said of the characters of the pattern: for each way a
 pattern can begin, whether it is well-formed and which match comes first, in terms of
 the pattern behind that beginning.  Together the laws settle both for every pattern.
 */
module LuaPreferred {
  import opened Options
  import opened LuaPattern
  import opened LuaMatch

  /** A pattern that begins with an item for single characters, which may have a suffix. */
  predicate SingleChar(pat: string, p: nat)
  {
    var c, d := Ch(pat, p), Ch(pat, p + 1);
    c != '\0' && c != '(' && c != ')' && (c == '%' ==> d != 'b' && d != 'f' && !('0' <= d <= '9')) && (c == '$' ==> d != '\0')
  }

  /** The characters of the subject from s up to t, each of them accepted by the item from p to ep. */
  predicate Run(pat: string, p: nat, ep: nat, src: string, s: nat, t: nat)
  {
    s <= t <= |src| && forall i :: s <= i < t ==> Accepts(pat, p, ep, src[i])
  }

  // ---------------------------------------------------------------- the first of a list of matches

  function Head1(os: seq<Outcome>): Option<Outcome>
  {
    if os == [] then None else Some(os[0])
  }

  lemma HeadOfBoth(a: seq<Outcome>, b: seq<Outcome>)
    ensures Head1(a + b) == if a != [] then Head1(a) else Head1(b)
  {
  }

  /** The first match of the rest at t. */
  function RestAt(pat: string, rest: seq<Item>, src: string, t: nat, caps: seq<Cap>): Option<Outcome>
    requires t <= |src|
  {
    Head1(Matches(pat, rest, src, t, caps))
  }

  /** Of up to n repetitions, the fewest with which the rest matches. */
  lemma {:induction false} LazilyFirst(pat: string, rest: seq<Item>, src: string, s: nat, caps: seq<Cap>, n: nat) returns (t: nat)
    requires s + n <= |src|
    ensures s <= t <= s + n && Head1(Lazily(pat, rest, src, s, caps, n)) == RestAt(pat, rest, src, t, caps)
    ensures forall u: nat :: s <= u < t ==> RestAt(pat, rest, src, u, caps) == None
    ensures RestAt(pat, rest, src, t, caps) == None ==> t == s + n
    decreases n
  {
    var here := Matches(pat, rest, src, s, caps);
    if n == 0 || here != [] {
      t := s;
      HeadOfBoth(here, if n == 0 then [] else Lazily(pat, rest, src, s + 1, caps, n - 1));
    } else {
      t := LazilyFirst(pat, rest, src, s + 1, caps, n - 1);
      HeadOfBoth(here, Lazily(pat, rest, src, s + 1, caps, n - 1));
    }
    hide Matches;
  }

  /** Of up to n repetitions, the most with which the rest matches. */
  lemma {:induction false} GreedyFirst(pat: string, rest: seq<Item>, src: string, s: nat, caps: seq<Cap>, n: nat) returns (t: nat)
    requires s + n <= |src|
    ensures s <= t <= s + n && Head1(Greedy(pat, rest, src, s, caps, n)) == RestAt(pat, rest, src, t, caps)
    ensures forall u: nat :: t < u <= s + n ==> RestAt(pat, rest, src, u, caps) == None
    ensures RestAt(pat, rest, src, t, caps) == None ==> t == s
    decreases n
  {
    var here := Matches(pat, rest, src, s + n, caps);
    if n == 0 || here != [] {
      t := s + n;
      HeadOfBoth(here, if n == 0 then [] else Greedy(pat, rest, src, s, caps, n - 1));
    } else {
      t := GreedyFirst(pat, rest, src, s, caps, n - 1);
      HeadOfBoth(here, Greedy(pat, rest, src, s, caps, n - 1));
    }
    hide Matches;
  }

  /** The runs from s are those within the longest. */
  lemma CountMeans(pat: string, p: nat, ep: nat, src: string, s: nat)
    requires s <= |src|
    ensures s + MaxCount(pat, p, ep, src, s) <= |src|
    ensures forall t: nat :: Run(pat, p, ep, src, s, t) <==> s <= t <= s + MaxCount(pat, p, ep, src, s)
  {
    var n := MaxCount(pat, p, ep, src, s);
    forall t: nat ensures Run(pat, p, ep, src, s, t) <==> s <= t <= s + n {
      if s <= t <= s + n {
        forall i | s <= i < t ensures Accepts(pat, p, ep, src[i]) {
          assert Fits(pat, p, ep, src, i);
        }
      }
      if t > s + n {
        assert !Fits(pat, p, ep, src, s + n);
      }
    }
    hide Accepts, MaxCount;
  }

  /** The item a pattern begins with, and the rest. */
  lemma Begins(pat: string, p: nat, item: Item, next: nat, src: string, s: nat, caps: seq<Cap>)
    requires s <= |src| && Ch(pat, p) != '\0' && Head(pat, p) == Some((item, next))
    requires !item.Open? && !item.Position? && !item.Close? && !item.BackRef?
    ensures Fine(pat, p, caps) <==> Fine(pat, next, caps)
    ensures Fine(pat, p, caps) ==>
              && First(pat, p, src, s, caps) == Head1(Matches(pat, [item] + Rest(pat, next), src, s, caps))
              && ([item] + Rest(pat, next))[1..] == Rest(pat, next)
              && forall t: nat :: t <= |src| ==> First(pat, next, src, t, caps) == RestAt(pat, Rest(pat, next), src, t, caps)
  {
    ItemsNext(pat, p);
    if Items(pat, next).Some? {
      var rest := Items(pat, next).value;
      assert WellFormed([item] + rest, Marks(caps)) <==> WellFormed(rest, Marks(caps)) by {
        assert ([item] + rest)[1..] == rest;
      }
    }
    hide Head, Matches, Marks;
  }

  // ---------------------------------------------------------------- single characters and their suffixes

  /** Where an item for single characters ends decides what its suffix is. */
  lemma SuffixHead(pat: string, p: nat, ep: nat)
    requires SingleChar(pat, p) && ClassEnd(pat, p) == Some(ep)
    ensures Ch(pat, p) != '\0' && Head(pat, p) == Some(match Ch(pat, ep)
                                 case '?' => (Opt(p, ep), ep + 1)
                                 case '*' => (Star(p, ep), ep + 1)
                                 case '+' => (Plus(p, ep), ep + 1)
                                 case '-' => (Lazy(p, ep), ep + 1)
                                 case _ => (One(p, ep), ep))
  {
    hide ClassEnd;
  }

  /** An item for single characters without an end is a mistake, in any pattern. */
  lemma EndlessMeans(pat: string, p: nat, caps: seq<Cap>)
    requires SingleChar(pat, p) && ClassEnd(pat, p) == None
    ensures !Fine(pat, p, caps)
  {
    ItemsNext(pat, p);
    hide ClassEnd, Items;
  }

  /**
   Suffix -: the fewest repetitions with which the rest matches.  The match is that of the
   rest from t on, where t is the first place behind a run of accepted characters at which
   the rest matches; if there is no such place, there is no match.
   */
  lemma MinusMeans(pat: string, p: nat, ep: nat, next: nat, src: string, s: nat, caps: seq<Cap>, o: Outcome)
    requires s <= |src| && SingleChar(pat, p) && ClassEnd(pat, p) == Some(ep) && Ch(pat, ep) == '-' && next == ep + 1
    ensures Fine(pat, p, caps) <==> Fine(pat, next, caps)
    ensures Fine(pat, p, caps) ==>
              (First(pat, p, src, s, caps) == Some(o) <==>
               exists t: nat :: Run(pat, p, ep, src, s, t) && First(pat, next, src, t, caps) == Some(o) &&
                                forall u: nat :: s <= u < t ==> First(pat, next, src, u, caps) == None)
  {
    hide *;
    SuffixHead(pat, p, ep);
    var n, rest := MaxCount(pat, p, ep, src, s), Rest(pat, next);
    Begins(pat, p, Lazy(p, ep), next, src, s, caps);
    if Fine(pat, p, caps) {
      var t := LazilyFirst(pat, rest, src, s, caps, n);
      LazyUnfolds(pat, p, ep, rest, src, s, caps);
      CountMeans(pat, p, ep, src, s);
    }
  }

  lemma LazyUnfolds(pat: string, p: nat, ep: nat, rest: seq<Item>, src: string, s: nat, caps: seq<Cap>)
    requires s <= |src|
    ensures Matches(pat, [Lazy(p, ep)] + rest, src, s, caps) == Lazily(pat, rest, src, s, caps, MaxCount(pat, p, ep, src, s))
  {
    assert ([Lazy(p, ep)] + rest)[1..] == rest;
    hide MaxCount, Lazily;
  }

  lemma StarUnfolds(pat: string, p: nat, ep: nat, rest: seq<Item>, src: string, s: nat, caps: seq<Cap>)
    requires s <= |src|
    ensures Matches(pat, [Star(p, ep)] + rest, src, s, caps) == Greedy(pat, rest, src, s, caps, MaxCount(pat, p, ep, src, s))
  {
    assert ([Star(p, ep)] + rest)[1..] == rest;
    hide MaxCount, Greedy;
  }

  lemma PlusUnfolds(pat: string, p: nat, ep: nat, rest: seq<Item>, src: string, s: nat, caps: seq<Cap>)
    requires s <= |src|
    ensures var n := MaxCount(pat, p, ep, src, s);
            Matches(pat, [Plus(p, ep)] + rest, src, s, caps) == if n == 0 then [] else Greedy(pat, rest, src, s + 1, caps, n - 1)
  {
    assert ([Plus(p, ep)] + rest)[1..] == rest;
    OneMoreCount(pat, p, ep, src, s);
    FitsInside(pat, p, ep, src, s);
    hide MaxCount, Greedy, Fits;
  }

  lemma OptUnfolds(pat: string, p: nat, ep: nat, rest: seq<Item>, src: string, s: nat, caps: seq<Cap>)
    requires s <= |src|
    ensures Matches(pat, [Opt(p, ep)] + rest, src, s, caps) ==
              (if s < |src| && Accepts(pat, p, ep, src[s]) then Matches(pat, rest, src, s + 1, caps) else []) + Matches(pat, rest, src, s, caps)
    ensures Matches(pat, [One(p, ep)] + rest, src, s, caps) ==
              if s < |src| && Accepts(pat, p, ep, src[s]) then Matches(pat, rest, src, s + 1, caps) else []
  {
    assert ([Opt(p, ep)] + rest)[1..] == rest && ([One(p, ep)] + rest)[1..] == rest;
    hide Accepts;
  }

  /** Suffix *: the most repetitions with which the rest matches. */
  lemma StarMeans(pat: string, p: nat, ep: nat, next: nat, src: string, s: nat, caps: seq<Cap>, o: Outcome)
    requires s <= |src| && SingleChar(pat, p) && ClassEnd(pat, p) == Some(ep) && Ch(pat, ep) == '*' && next == ep + 1
    ensures Fine(pat, p, caps) <==> Fine(pat, next, caps)
    ensures Fine(pat, p, caps) ==>
              (First(pat, p, src, s, caps) == Some(o) <==>
               exists t: nat :: Run(pat, p, ep, src, s, t) && First(pat, next, src, t, caps) == Some(o) &&
                                forall u: nat :: u > t && Run(pat, p, ep, src, s, u) ==> First(pat, next, src, u, caps) == None)
  {
    hide *;
    SuffixHead(pat, p, ep);
    var n, rest := MaxCount(pat, p, ep, src, s), Rest(pat, next);
    Begins(pat, p, Star(p, ep), next, src, s, caps);
    if Fine(pat, p, caps) {
      var t := GreedyFirst(pat, rest, src, s, caps, n);
      StarUnfolds(pat, p, ep, rest, src, s, caps);
      CountMeans(pat, p, ep, src, s);
    }
  }

  /** Suffix +: the most repetitions, and at least one. */
  lemma PlusMeans(pat: string, p: nat, ep: nat, next: nat, src: string, s: nat, caps: seq<Cap>, o: Outcome)
    requires s <= |src| && SingleChar(pat, p) && ClassEnd(pat, p) == Some(ep) && Ch(pat, ep) == '+' && next == ep + 1
    ensures Fine(pat, p, caps) <==> Fine(pat, next, caps)
    ensures Fine(pat, p, caps) ==>
              (First(pat, p, src, s, caps) == Some(o) <==>
               exists t: nat :: t > s && Run(pat, p, ep, src, s, t) && First(pat, next, src, t, caps) == Some(o) &&
                                forall u: nat :: u > t && Run(pat, p, ep, src, s, u) ==> First(pat, next, src, u, caps) == None)
  {
    hide *;
    SuffixHead(pat, p, ep);
    var n, rest := MaxCount(pat, p, ep, src, s), Rest(pat, next);
    Begins(pat, p, Plus(p, ep), next, src, s, caps);
    if Fine(pat, p, caps) {
      PlusUnfolds(pat, p, ep, rest, src, s, caps);
      CountMeans(pat, p, ep, src, s);
      if n > 0 {
        var t := GreedyFirst(pat, rest, src, s + 1, caps, n - 1);
      }
      HeadOfNone();
    }
  }

  lemma HeadOfNone()
    ensures Head1([]) == None
  {
  }

  /** Suffix ?: with the character, if it is accepted and the rest then matches; otherwise without. */
  lemma QuestionMeans(pat: string, p: nat, ep: nat, next: nat, src: string, s: nat, caps: seq<Cap>)
    requires s <= |src| && SingleChar(pat, p) && ClassEnd(pat, p) == Some(ep) && Ch(pat, ep) == '?' && next == ep + 1
    ensures Fine(pat, p, caps) <==> Fine(pat, next, caps)
    ensures Fine(pat, p, caps) ==>
              First(pat, p, src, s, caps) ==
                if s < |src| && Accepts(pat, p, ep, src[s]) && First(pat, next, src, s + 1, caps).Some? then First(pat, next, src, s + 1, caps)
                else First(pat, next, src, s, caps)
  {
    hide *;
    SuffixHead(pat, p, ep);
    var rest := Rest(pat, next);
    Begins(pat, p, Opt(p, ep), next, src, s, caps);
    if Fine(pat, p, caps) {
      OptUnfolds(pat, p, ep, rest, src, s, caps);
      HeadOfBoth(if s < |src| && Accepts(pat, p, ep, src[s]) then Matches(pat, rest, src, s + 1, caps) else [], Matches(pat, rest, src, s, caps));
      RestAtIs(pat, rest, src, s, caps);
      if s < |src| {
        RestAtIs(pat, rest, src, s + 1, caps);
      }
    }
  }

  lemma RestAtIs(pat: string, rest: seq<Item>, src: string, t: nat, caps: seq<Cap>)
    requires t <= |src|
    ensures RestAt(pat, rest, src, t, caps) == Head1(Matches(pat, rest, src, t, caps))
    ensures RestAt(pat, rest, src, t, caps) == None <==> Matches(pat, rest, src, t, caps) == []
  {
    hide Matches;
  }

  /** No suffix: exactly one accepted character. */
  lemma BareMeans(pat: string, p: nat, ep: nat, src: string, s: nat, caps: seq<Cap>)
    requires s <= |src| && SingleChar(pat, p) && ClassEnd(pat, p) == Some(ep) && Ch(pat, ep) !in "?*+-"
    ensures Fine(pat, p, caps) <==> Fine(pat, ep, caps)
    ensures Fine(pat, p, caps) ==>
              First(pat, p, src, s, caps) == if s < |src| && Accepts(pat, p, ep, src[s]) then First(pat, ep, src, s + 1, caps) else None
  {
    hide *;
    SuffixHead(pat, p, ep);
    var rest := Rest(pat, ep);
    Begins(pat, p, One(p, ep), ep, src, s, caps);
    if Fine(pat, p, caps) {
      OptUnfolds(pat, p, ep, rest, src, s, caps);
      HeadOfNone();
      if s < |src| {
        RestAtIs(pat, rest, src, s + 1, caps);
      }
    }
  }

  // ---------------------------------------------------------------- what else a pattern can begin with

  /** The end of the pattern: it matches at once. */
  lemma EndMeans(pat: string, p: nat, src: string, s: nat, caps: seq<Cap>)
    requires s <= |src| && Ch(pat, p) == '\0'
    ensures Fine(pat, p, caps) && First(pat, p, src, s, caps) == Some(Outcome(s, caps))
  {
  }

  /** A $ at the end of the pattern: only the end of the subject matches. */
  lemma DollarMeans(pat: string, p: nat, src: string, s: nat, caps: seq<Cap>)
    requires s <= |src| && Ch(pat, p) == '$' && Ch(pat, p + 1) == '\0'
    ensures Fine(pat, p, caps) && First(pat, p, src, s, caps) == if s == |src| then Some(Outcome(s, caps)) else None
  {
    EndMeans(pat, p + 1, src, s, caps);
    Begins(pat, p, AtEnd, p + 1, src, s, caps);
    hide *;
    AtEndUnfolds(pat, Rest(pat, p + 1), src, s, caps);
  }

  lemma AtEndUnfolds(pat: string, rest: seq<Item>, src: string, s: nat, caps: seq<Cap>)
    requires s <= |src|
    ensures Head1(Matches(pat, [AtEnd] + rest, src, s, caps)) == if s == |src| then Some(Outcome(s, caps)) else None
  {
  }

  /** A bracket that opens a capture, at most 32 of them: () captures the place, ( the text from here to its closing bracket. */
  lemma OpenMeans(pat: string, p: nat, next: nat, src: string, s: nat, caps: seq<Cap>, c: Cap)
    requires s <= |src| && Ch(pat, p) == '('
    requires if Ch(pat, p + 1) == ')' then next == p + 2 && c == Cap(s, PositionOnly) else next == p + 1 && c == Cap(s, Unfinished)
    ensures Fine(pat, p, caps) <==> |caps| < 32 && Fine(pat, next, caps + [c])
    ensures Fine(pat, p, caps) ==> First(pat, p, src, s, caps) == First(pat, next, src, s, caps + [c])
  {
    ItemsNext(pat, p);
    MarksAdd(caps, c);
    hide Marks, Items;
  }

  /** A closing bracket: it closes the last capture that is still open; there must be one. */
  lemma CloseMeans(pat: string, p: nat, src: string, s: nat, caps: seq<Cap>, l: int)
    requires s <= |src| && Ch(pat, p) == ')' && Started(caps, s)
    requires -1 <= l < |caps| && (l >= 0 ==> caps[l].len == Unfinished) && forall i :: l < i < |caps| ==> caps[i].len != Unfinished
    ensures l < 0 ==> !Fine(pat, p, caps)
    ensures l >= 0 ==>
              var caps1 := caps[l := Cap(caps[l].init, Length(s - caps[l].init))];
              && (Fine(pat, p, caps) <==> Fine(pat, p + 1, caps1))
              && (Fine(pat, p, caps) ==> First(pat, p, src, s, caps) == First(pat, p + 1, src, s, caps1))
  {
    assert l >= 0 ==> caps[l].init <= s;
    hide *;
    ToCloseIs(caps);
    assert ToClose(caps) == l;
    CloseHead(pat, p, caps);
    if l >= 0 {
      var c := Cap(caps[l].init, Length(s - caps[l].init));
      MarksClose(caps, l, c);
      FineIs(pat, p + 1, caps[l := c]);
      if Fine(pat, p, caps) {
        CloseUnfolds(pat, [Close] + Rest(pat, p + 1), src, s, caps);
        AllIs(pat, p, src, s, caps);
        AllIs(pat, p + 1, src, s, caps[l := c]);
        FirstIs(pat, p, src, s, caps);
        FirstIs(pat, p + 1, src, s, caps[l := c]);
      }
    }
  }

  lemma FirstIs(pat: string, p: nat, src: string, s: nat, caps: seq<Cap>)
    requires s <= |src|
    ensures First(pat, p, src, s, caps) == Head1(All(pat, p, src, s, caps))
  {
    hide All;
  }

  lemma CloseHead(pat: string, p: nat, caps: seq<Cap>)
    requires Ch(pat, p) == ')'
    ensures Fine(pat, p, caps) <==> Items(pat, p + 1).Some? && WellFormed([Close] + Rest(pat, p + 1), Marks(caps))
    ensures Items(pat, p + 1).Some? ==>
              && Items(pat, p) == Some([Close] + Rest(pat, p + 1)) && Rest(pat, p + 1) == Items(pat, p + 1).value
              && ([Close] + Rest(pat, p + 1))[1..] == Rest(pat, p + 1)
    ensures var l := LastOpen(Marks(caps));
            WellFormed([Close] + Rest(pat, p + 1), Marks(caps)) <==> l >= 0 && WellFormed(Rest(pat, p + 1), Marks(caps)[l := true])
  {
    ItemsNext(pat, p);
    assert ([Close] + Rest(pat, p + 1))[1..] == Rest(pat, p + 1);
    hide Items, Marks, LastOpen;
  }

  /** %bxy, with two different characters: from an x to the first y at which there are as many of both; x and y the same: to the next x. */
  lemma BalanceMeans(pat: string, p: nat, src: string, s: nat, caps: seq<Cap>, x: char, y: char, t: nat)
    requires s <= |src| && Ch(pat, p) == '%' && Ch(pat, p + 1) == 'b' && x == Ch(pat, p + 2) && y == Ch(pat, p + 3)
    ensures x == '\0' || y == '\0' ==> !Fine(pat, p, caps)
    ensures x != '\0' && y != '\0' ==>
              && (Fine(pat, p, caps) <==> Fine(pat, p + 4, caps))
              && (Fine(pat, p, caps) && BalancedText(src, s, t, x, y) ==> First(pat, p, src, s, caps) == First(pat, p + 4, src, t, caps))
              && (Fine(pat, p, caps) && (forall u: nat :: !BalancedText(src, s, u, x, y)) ==> First(pat, p, src, s, caps) == None)
  {
    ItemsNext(pat, p);
    if x != '\0' && y != '\0' {
      hide *;
      BalanceHead(pat, p);
      Begins(pat, p, Balance(x, y), p + 4, src, s, caps);
      BalanceUnfolds(pat, x, y, Rest(pat, p + 4), src, s, caps);
      var e := BalanceEnd(src, s + 1, x, y, 1);
      if s < |src| && src[s] == x {
        FirstChar(src, s, x, y);
        BalanceScan(src, s, s + 1, x, y, 1);
        if e.Some? && BalancedText(src, s, t, x, y) {
          BalancedOnce(src, s, t, e.value, x, y);
        }
      } else {
        NotBalanced(src, s, x, y);
      }
      if e.Some? {
        RestAtIs(pat, Rest(pat, p + 4), src, e.value, caps);
      }
      HeadOfNone();
    }
  }

  /** The text from s to t starts with b, ends with e, and is the shortest such text in which b and e balance. */
  predicate BalancedText(src: string, s: nat, t: nat, b: char, e: char)
  {
    && s + 1 < t <= |src| && src[s] == b && src[t - 1] == e
    && if b == e then forall u :: s < u < t - 1 ==> src[u] != e
       else multiset(src[s..t])[b] == multiset(src[s..t])[e] && forall u :: s < u < t ==> multiset(src[s..u])[b] > multiset(src[s..u])[e]
  }

  lemma BalanceHead(pat: string, p: nat)
    requires Ch(pat, p) == '%' && Ch(pat, p + 1) == 'b' && Ch(pat, p + 2) != '\0' && Ch(pat, p + 3) != '\0'
    ensures Head(pat, p) == Some((Balance(Ch(pat, p + 2), Ch(pat, p + 3)), p + 4))
  {
  }

  lemma NotBalanced(src: string, s: nat, b: char, e: char)
    requires s <= |src| && (s == |src| || src[s] != b)
    ensures forall t: nat :: !BalancedText(src, s, t, b, e)
  {
  }

  lemma BalanceUnfolds(pat: string, x: char, y: char, rest: seq<Item>, src: string, s: nat, caps: seq<Cap>)
    requires s <= |src| && x != '\0'
    ensures var e := BalanceEnd(src, s + 1, x, y, 1);
            Matches(pat, [Balance(x, y)] + rest, src, s, caps) ==
              if s < |src| && src[s] == x && e.Some? then Matches(pat, rest, src, e.value, caps) else []
  {
    assert ([Balance(x, y)] + rest)[1..] == rest;
    hide BalanceEnd;
  }

  /** The text up to t is not yet balanced: there are `cont` more b than e. */
  predicate Unbalanced(src: string, s: nat, t: nat, b: char, e: char, cont: nat)
  {
    && s < t <= |src| && src[s] == b && cont >= 1
    && if b == e then cont == 1 && forall u :: s < u < t ==> src[u] != e
       else multiset(src[s..t])[b] == multiset(src[s..t])[e] + cont && forall u :: s < u <= t ==> multiset(src[s..u])[b] > multiset(src[s..u])[e]
  }

  lemma OneMore(src: string, s: nat, t: nat, b: char, e: char)
    requires s <= t < |src|
    ensures multiset(src[s..t + 1])[b] == multiset(src[s..t])[b] + if src[t] == b then 1 else 0
    ensures multiset(src[s..t + 1])[e] == multiset(src[s..t])[e] + if src[t] == e then 1 else 0
  {
    assert src[s..t + 1] == src[s..t] + [src[t]];
  }

  lemma {:induction false} BalanceScan(src: string, s: nat, t: nat, b: char, e: char, cont: nat)
    requires Unbalanced(src, s, t, b, e, cont)
    ensures match BalanceEnd(src, t, b, e, cont)
            case Some(r) => BalancedText(src, s, r, b, e)
            case None => forall r: nat :: !BalancedText(src, s, r, b, e)
    decreases |src| - t
  {
    if t < |src| {
      OneMore(src, s, t, b, e);
      if src[t] == e && cont <= 1 {
        return;
      }
      BalanceScan(src, s, t + 1, b, e, if src[t] == e then cont - 1 else if src[t] == b then cont + 1 else cont);
    }
  }

  lemma BalancedOnce(src: string, s: nat, t: nat, u: nat, b: char, e: char)
    requires BalancedText(src, s, t, b, e) && BalancedText(src, s, u, b, e)
    ensures t == u
  {
  }

  lemma FirstChar(src: string, s: nat, b: char, e: char)
    requires s < |src| && src[s] == b
    ensures Unbalanced(src, s, s + 1, b, e, 1)
  {
    assert src[s..s + 1] == [b];
  }

  /** %f[set]: a place where the character before is not in the set and the one behind is; a zero stands before the start and behind the end. */
  lemma FrontierMeans(pat: string, p: nat, src: string, s: nat, caps: seq<Cap>)
    requires s <= |src| && Ch(pat, p) == '%' && Ch(pat, p + 1) == 'f'
    ensures Ch(pat, p + 2) != '[' || ClassEnd(pat, p + 2) == None ==> !Fine(pat, p, caps)
    ensures Ch(pat, p + 2) == '[' && ClassEnd(pat, p + 2).Some? ==>
              var ep := ClassEnd(pat, p + 2).value;
              var before, after := if s == 0 then '\0' else src[s - 1], if s == |src| then '\0' else src[s];
              && (Fine(pat, p, caps) <==> Fine(pat, ep, caps))
              && (Fine(pat, p, caps) ==>
                    First(pat, p, src, s, caps) ==
                      if !Accepts(pat, p + 2, ep, before) && Accepts(pat, p + 2, ep, after) then First(pat, ep, src, s, caps) else None)
  {
    ItemsNext(pat, p);
    if Ch(pat, p + 2) == '[' && ClassEnd(pat, p + 2).Some? {
      var ep := ClassEnd(pat, p + 2).value;
      Begins(pat, p, Frontier(p + 2, ep), ep, src, s, caps);
      FrontierUnfolds(pat, p + 2, ep, Rest(pat, ep), src, s, caps);
      hide *;
      HeadOfNone();
      RestAtIs(pat, Rest(pat, ep), src, s, caps);
    }
  }

  lemma FrontierUnfolds(pat: string, p: nat, ep: nat, rest: seq<Item>, src: string, s: nat, caps: seq<Cap>)
    requires s <= |src| && Ch(pat, p) == '[' && ep > 0
    ensures var before, after := if s == 0 then '\0' else src[s - 1], if s == |src| then '\0' else src[s];
            Matches(pat, [Frontier(p, ep)] + rest, src, s, caps) ==
              if !Accepts(pat, p, ep, before) && Accepts(pat, p, ep, after) then Matches(pat, rest, src, s, caps) else []
  {
    assert ([Frontier(p, ep)] + rest)[1..] == rest;
    hide InSet;
  }

  /** % and a digit: the text of that capture once more; there must be such a capture, and it must be closed. */
  lemma BackRefMeans(pat: string, p: nat, src: string, s: nat, caps: seq<Cap>, l: int)
    requires s <= |src| && Ch(pat, p) == '%' && '0' <= Ch(pat, p + 1) <= '9' && l == Ch(pat, p + 1) as int - 49
    ensures l < 0 || l >= |caps| || caps[l].len == Unfinished ==> !Fine(pat, p, caps)
    ensures 0 <= l < |caps| && caps[l].len != Unfinished ==>
              && (Fine(pat, p, caps) <==> Fine(pat, p + 2, caps))
              && (Fine(pat, p, caps) ==>
                    First(pat, p, src, s, caps) ==
                      match caps[l].len
                      case Length(n) =>
                        if s + n <= |src| && caps[l].init + n <= |src| && src[caps[l].init..caps[l].init + n] == src[s..s + n] then First(pat, p + 2, src, s + n, caps)
                        else None
                      case _ => None)
  {
    ItemsNext(pat, p);
    if Items(pat, p + 2).Some? {
      assert ([BackRef(l)] + Items(pat, p + 2).value)[1..] == Items(pat, p + 2).value;
    }
    hide Items, Head, Marks;
  }

  // ---------------------------------------------------------------- where an item ends

  /** How many % stand directly before i, counted back to q. */
  function Percents(pat: string, q: nat, i: nat): nat
  {
    if i <= q || Ch(pat, i - 1) != '%' then 0 else 1 + Percents(pat, q, i - 1)
  }

  /** A bracket that can close a set whose elements start at q: not the first character, and not escaped. */
  predicate Closes(pat: string, q: nat, i: nat)
  {
    q < i && Ch(pat, i) == ']' && Percents(pat, q, i) % 2 == 0
  }

  lemma {:induction false} PercentsLater(pat: string, q: nat, q1: nat, i: nat)
    requires q < q1 <= i && Percents(pat, q, q1) % 2 == 0
    ensures Percents(pat, q, i) % 2 == Percents(pat, q1, i) % 2
    decreases i
  {
    if q1 < i {
      PercentsLater(pat, q, q1, i - 1);
    }
  }

  /** A set ends behind the first bracket that closes it. */
  lemma {:induction false} SetEndMeans(pat: string, q: nat, ep: nat)
    ensures SetEnd(pat, q) == Some(ep) <==>
              ep > 0 && Closes(pat, q, ep - 1) && forall i :: q <= i < ep - 1 ==> Ch(pat, i) != '\0' && !Closes(pat, q, i)
    decreases |pat| - q
  {
    if Ch(pat, q) != '\0' {
      var q1 := if Ch(pat, q) == '%' && Ch(pat, q + 1) != '\0' then q + 2 else q + 1;
      assert Percents(pat, q, q) == 0 && Percents(pat, q, q + 1) == if Ch(pat, q) == '%' then 1 else 0;
      if Ch(pat, q1) != '\0' {
        assert Percents(pat, q, q1) % 2 == 0;
        forall i: nat | i > q1 ensures Closes(pat, q, i) <==> Closes(pat, q1, i) {
          PercentsLater(pat, q, q1, i);
        }
        SetEndMeans(pat, q1, ep);
      }
    }
  }

  /** Where an item for single characters ends. */
  lemma ClassEndMeans(pat: string, p: nat, ep: nat)
    requires Ch(pat, p) != '\0'
    ensures Ch(pat, p) != '%' && Ch(pat, p) != '[' ==> ClassEnd(pat, p) == Some(p + 1)
    ensures Ch(pat, p) == '%' ==> ClassEnd(pat, p) == if Ch(pat, p + 1) == '\0' then None else Some(p + 2)
    ensures Ch(pat, p) == '[' ==>
              var q := if Ch(pat, p + 1) == '^' then p + 2 else p + 1;
              (ClassEnd(pat, p) == Some(ep) <==>
               ep > 0 && Closes(pat, q, ep - 1) && forall i :: q <= i < ep - 1 ==> Ch(pat, i) != '\0' && !Closes(pat, q, i))
  {
    SetEndMeans(pat, if Ch(pat, p + 1) == '^' then p + 2 else p + 1, ep);
    hide Closes, SetEnd;
  }

  // ---------------------------------------------------------------- which characters an item accepts

  /** An item accepts any character, a class, a set, or just itself. */
  lemma AcceptsMeans(pat: string, p: nat, ep: nat, c: char)
    requires ep > 0
    ensures Ch(pat, p) == '.' ==> Accepts(pat, p, ep, c)
    ensures Ch(pat, p) == '%' ==> (Accepts(pat, p, ep, c) <==> Escaped(c, Ch(pat, p + 1)))
    ensures Ch(pat, p) == '[' ==>
              (Accepts(pat, p, ep, c) <==> if Ch(pat, p + 1) == '^' then !Among(pat, p + 2, ep - 1, c) else Among(pat, p + 1, ep - 1, c))
    ensures Ch(pat, p) !in ".%[" ==> (Accepts(pat, p, ep, c) <==> c == Ch(pat, p))
  {
    hide Escaped;
  }

  /** The character is one of those listed in a set from q on. */
  predicate Among(pat: string, q: nat, ec: nat, c: char)
  {
    exists e :: e in Elems(pat, q, ec) && InElem(c, e)
  }

  /** The elements of a set in turn: an escaped character, a range, or a character. */
  lemma AmongMeans(pat: string, q: nat, ec: nat, c: char)
    ensures q >= ec ==> !Among(pat, q, ec, c)
    ensures q < ec && Ch(pat, q) == '%' ==> (Among(pat, q, ec, c) <==> Escaped(c, Ch(pat, q + 1)) || Among(pat, q + 2, ec, c))
    ensures q < ec && Ch(pat, q) != '%' && Ch(pat, q + 1) == '-' && q + 2 < ec ==>
              (Among(pat, q, ec, c) <==> Ch(pat, q) <= c <= Ch(pat, q + 2) || Among(pat, q + 3, ec, c))
    ensures q < ec && Ch(pat, q) != '%' && !(Ch(pat, q + 1) == '-' && q + 2 < ec) ==>
              (Among(pat, q, ec, c) <==> c == Ch(pat, q) || Among(pat, q + 1, ec, c))
  {
    if q < ec {
      ElemsNext(pat, q, ec, c);
    }
    hide InElem, Escaped;
  }

  /** A set without escapes and ranges is the set of its characters. */
  lemma {:induction false} PlainSet(pat: string, q: nat, ec: nat, c: char)
    requires forall i :: q <= i < ec ==> Ch(pat, i) != '%' && Ch(pat, i) != '-'
    ensures Among(pat, q, ec, c) <==> exists i :: q <= i < ec && Ch(pat, i) == c
    decreases ec - q
  {
    AmongMeans(pat, q, ec, c);
    if q < ec {
      PlainSet(pat, q + 1, ec, c);
    }
    hide Among;
  }

  /** The classes by character codes. */
  lemma ClassesMean(c: char, n: int)
    requires n == c as int
    ensures Escaped(c, 'a') <==> 65 <= n <= 90 || 97 <= n <= 122
    ensures Escaped(c, 'c') <==> 0 <= n <= 31 || n == 127
    ensures Escaped(c, 'd') <==> 48 <= n <= 57
    ensures Escaped(c, 'l') <==> 97 <= n <= 122
  {
  }

  /** The other classes. */
  lemma MoreClassesMean(c: char, n: int)
    requires n == c as int
    ensures Escaped(c, 'p') <==> 33 <= n <= 47 || 58 <= n <= 64 || 91 <= n <= 96 || 123 <= n <= 126
    ensures Escaped(c, 's') <==> n == 32 || 9 <= n <= 13
    ensures Escaped(c, 'u') <==> 65 <= n <= 90
    ensures Escaped(c, 'w') <==> 48 <= n <= 57 || 65 <= n <= 90 || 97 <= n <= 122
    ensures Escaped(c, 'x') <==> 48 <= n <= 57 || 65 <= n <= 70 || 97 <= n <= 102
    ensures Escaped(c, 'z') <==> n == 0
  {
  }

  /** A letter in upper case is the complement of its class. */
  lemma ComplementsMean(c: char, e: char, u: char)
    requires e in "acdlpsuwxz" && u as int == e as int - 32
    ensures Escaped(c, u) <==> !Escaped(c, e)
  {
    assert ToLower(u) == e && !ClassLetter(u);
    hide InClass;
  }

  /** Any other character stands for itself. */
  lemma OthersMean(c: char, e: char)
    requires e !in "acdlpsuwxzACDLPSUWXZ"
    ensures Escaped(c, e) <==> c == e
  {
    hide InClass;
  }

  // ---------------------------------------------------------------- the words a pattern stands for

  /** Some word of the pattern from p on begins at t. */
  ghost predicate WordFrom(pat: string, p: nat, src: string, t: nat)
  {
    exists e: nat :: t <= e <= |src| && InLanguage(pat, Rest(pat, p), src[t..e], e == |src|)
  }

  /** Where items do not depend on captures or on what is around, a pattern matches exactly where a word begins, and matches a word. */
  lemma FirstIsWord(pat: string, p: nat, src: string, s: nat, caps: seq<Cap>)
    requires s <= |src| && Fine(pat, p, caps) && Plain(Rest(pat, p)) && Started(caps, s)
    ensures match First(pat, p, src, s, caps)
            case None => !WordFrom(pat, p, src, s)
            case Some(o) => s <= o.end <= |src| && InLanguage(pat, Rest(pat, p), src[s..o.end], o.end == |src|)
  {
    var rest := Rest(pat, p);
    forall e: nat ensures EndsAt(Matches(pat, rest, src, s, caps), e) <==> s <= e <= |src| && InLanguage(pat, rest, src[s..e], e == |src|) {
      MatchesAre(pat, rest, src, s, caps, e);
      hide InLanguage, Matches, EndsAt;
    }
    var os := Matches(pat, rest, src, s, caps);
    assert os != [] ==> EndsAt(os, os[0].end);
    hide Matches, InLanguage, Fine, Plain;
  }

  /**
   The words of a pattern that begins with an item for single characters: so many accepted
   characters, as the suffix says, and a word of the rest.
   */
  lemma WordsMean(pat: string, p: nat, ep: nat, next: nat, w: string, last: bool)
    requires SingleChar(pat, p) && ClassEnd(pat, p) == Some(ep) && Items(pat, p).Some?
    requires next == if Ch(pat, ep) in "?*+-" then ep + 1 else ep
    ensures Items(pat, next).Some?
    ensures InLanguage(pat, Rest(pat, p), w, last) <==>
              exists k: nat :: && AllAccepted(pat, p, ep, w, k) && InLanguage(pat, Rest(pat, next), w[k..], last)
                               && match Ch(pat, ep) case '*' => true case '-' => true case '+' => k >= 1 case '?' => k <= 1 case _ => k == 1
  {
    SuffixHead(pat, p, ep);
    ItemsNext(pat, p);
    var rest := Rest(pat, next);
    assert Rest(pat, p)[1..] == rest;
    hide Items, SingleChar, Head, ClassEnd, InLanguage;
    RepeatedWords(pat, p, ep, rest, w, last);
    OnceWords(pat, p, ep, rest, w, last);
    hide Rest;
  }

  lemma RepeatedWords(pat: string, p: nat, ep: nat, rest: seq<Item>, w: string, last: bool)
    ensures InLanguage(pat, [Star(p, ep)] + rest, w, last) <==> exists k: nat :: AllAccepted(pat, p, ep, w, k) && InLanguage(pat, rest, w[k..], last)
    ensures InLanguage(pat, [Lazy(p, ep)] + rest, w, last) <==> exists k: nat :: AllAccepted(pat, p, ep, w, k) && InLanguage(pat, rest, w[k..], last)
    ensures InLanguage(pat, [Plus(p, ep)] + rest, w, last) <==> exists k: nat :: AllAccepted(pat, p, ep, w, k) && InLanguage(pat, rest, w[k..], last) && k >= 1
  {
    assert ([Star(p, ep)] + rest)[1..] == rest && ([Lazy(p, ep)] + rest)[1..] == rest && ([Plus(p, ep)] + rest)[1..] == rest;
    RepeatsMean(pat, p, ep, rest, w, last, 0);
    RepeatsMean(pat, p, ep, rest, w, last, 1);
    hide AllAccepted, Repeats;
  }

  lemma RepeatsMean(pat: string, p: nat, ep: nat, rest: seq<Item>, w: string, last: bool, least: nat)
    ensures Repeats(pat, p, ep, rest, w, last, least) <==>
              exists k: nat :: AllAccepted(pat, p, ep, w, k) && InLanguage(pat, rest, w[k..], last) && k >= least
  {
    forall k: nat ensures RepeatRest(pat, p, ep, rest, w, last, k) <==> AllAccepted(pat, p, ep, w, k) && InLanguage(pat, rest, w[k..], last) {
    }
    hide AllAccepted, RepeatRest;
  }

  lemma OnceWords(pat: string, p: nat, ep: nat, rest: seq<Item>, w: string, last: bool)
    ensures InLanguage(pat, [One(p, ep)] + rest, w, last) <==> AllAccepted(pat, p, ep, w, 1) && InLanguage(pat, rest, w[1..], last)
    ensures InLanguage(pat, [Opt(p, ep)] + rest, w, last) <==>
              (AllAccepted(pat, p, ep, w, 0) && InLanguage(pat, rest, w[0..], last)) || (AllAccepted(pat, p, ep, w, 1) && InLanguage(pat, rest, w[1..], last))
  {
    assert ([One(p, ep)] + rest)[1..] == rest && ([Opt(p, ep)] + rest)[1..] == rest;
    hide AllAccepted;
  }

  /** Suffix - in a pattern of words: the fewest repetitions behind which a word of the rest begins. */
  lemma FewestWords(pat: string, p: nat, ep: nat, next: nat, src: string, s: nat, caps: seq<Cap>, t: nat)
    requires s <= |src| && SingleChar(pat, p) && ClassEnd(pat, p) == Some(ep) && Ch(pat, ep) == '-' && next == ep + 1
    requires Fine(pat, p, caps) && Plain(Rest(pat, next)) && Started(caps, s)
    requires Run(pat, p, ep, src, s, t) && WordFrom(pat, next, src, t) && forall u: nat :: s <= u < t ==> !WordFrom(pat, next, src, u)
    ensures First(pat, p, src, s, caps).Some? && First(pat, p, src, s, caps) == First(pat, next, src, t, caps)
  {
    SuffixHead(pat, p, ep);
    Begins(pat, p, Lazy(p, ep), next, src, s, caps);
    forall u: nat | s <= u <= |src| ensures First(pat, next, src, u, caps).Some? <==> WordFrom(pat, next, src, u) {
      StartedLater(caps, s, u);
      FirstIsWord(pat, next, src, u, caps);
      hide First, InLanguage, Rest, Fine, Plain;
    }
    RunsInside(pat, p, ep, src, s);
    hide *;
    MinusMeans(pat, p, ep, next, src, s, caps, First(pat, next, src, t, caps).value);
  }

  /** Suffix * in a pattern of words: the most repetitions behind which a word of the rest begins. */
  lemma MostWords(pat: string, p: nat, ep: nat, next: nat, src: string, s: nat, caps: seq<Cap>, t: nat)
    requires s <= |src| && SingleChar(pat, p) && ClassEnd(pat, p) == Some(ep) && Ch(pat, ep) == '*' && next == ep + 1
    requires Fine(pat, p, caps) && Plain(Rest(pat, next)) && Started(caps, s)
    requires Run(pat, p, ep, src, s, t) && WordFrom(pat, next, src, t) && forall u: nat :: u > t && Run(pat, p, ep, src, s, u) ==> !WordFrom(pat, next, src, u)
    ensures First(pat, p, src, s, caps).Some? && First(pat, p, src, s, caps) == First(pat, next, src, t, caps)
  {
    SuffixHead(pat, p, ep);
    Begins(pat, p, Star(p, ep), next, src, s, caps);
    forall u: nat | s <= u <= |src| ensures First(pat, next, src, u, caps).Some? <==> WordFrom(pat, next, src, u) {
      StartedLater(caps, s, u);
      FirstIsWord(pat, next, src, u, caps);
      hide First, InLanguage, Rest, Fine, Plain;
    }
    RunsInside(pat, p, ep, src, s);
    hide *;
    StarMeans(pat, p, ep, next, src, s, caps, First(pat, next, src, t, caps).value);
  }

  lemma RunsInside(pat: string, p: nat, ep: nat, src: string, s: nat)
    ensures forall t: nat :: Run(pat, p, ep, src, s, t) ==> s <= t <= |src|
  {
  }

  // ---------------------------------------------------------------- an example

  const TAGS := "<a><b>"

  /** The rest of either pattern: a closing bracket. */
  lemma BracketMeans(pat: string, t: nat)
    requires |pat| == 4 && pat[3] == '>' && t <= 6
    ensures Fine(pat, 3, []) && First(pat, 3, TAGS, t, []) == if t == 2 || t == 5 then Some(Outcome(t + 1, [])) else None
  {
    BareMeans(pat, 3, 4, TAGS, t, []);
    EndMeans(pat, 4, TAGS, if t < 6 then t + 1 else t, []);
    hide First, Fine;
  }

  /** A dot accepts every run. */
  lemma DotRuns(pat: string)
    requires Ch(pat, 1) == '.'
    ensures forall t: nat :: Run(pat, 1, 2, TAGS, 1, t) <==> 1 <= t <= 6
  {
  }

  /** <.-> ends at the first closing bracket, <.*> at the last. */
  lemma TagsMean(pat: string)
    requires pat == "<.->" || pat == "<.*>"
    ensures Fine(pat, 0, []) && First(pat, 0, TAGS, 0, []) == Some(Outcome(if pat[2] == '-' then 3 else 6, []))
  {
    forall t: nat | t <= 6 ensures Fine(pat, 3, []) && First(pat, 3, TAGS, t, []) == if t == 2 || t == 5 then Some(Outcome(t + 1, [])) else None {
      BracketMeans(pat, t);
    }
    BracketMeans(pat, 0);
    DotRuns(pat);
    hide First, Fine, Run;
    BareMeans(pat, 0, 1, TAGS, 0, []);
    if pat[2] == '-' {
      assert Run(pat, 1, 2, TAGS, 1, 2) && First(pat, 3, TAGS, 2, []) == Some(Outcome(3, []));
      MinusMeans(pat, 1, 2, 3, TAGS, 1, [], Outcome(3, []));
    } else {
      assert Run(pat, 1, 2, TAGS, 1, 5) && First(pat, 3, TAGS, 5, []) == Some(Outcome(6, []));
      StarMeans(pat, 1, 2, 3, TAGS, 1, [], Outcome(6, []));
    }
  }
}
