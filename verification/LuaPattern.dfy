/**
 Lua patterns: how a pattern is read item by item, the language it stands for, and
 all its matches in the order of preference, longest repetition first for * and +,
 shortest first for -.
 */
module LuaPattern {
  import opened Options

  /** The character at i; strings end with a zero. */
  function Ch(t: string, i: nat): char
  {
    if i < |t| then t[i] else '\0'
  }

  // ---------------------------------------------------------------- single characters

  predicate Lower(c: char) { 'a' <= c <= 'z' }
  predicate Upper(c: char) { 'A' <= c <= 'Z' }
  predicate Digit(c: char) { '0' <= c <= '9' }
  predicate Alpha(c: char) { Lower(c) || Upper(c) }
  predicate Graph(c: char) { '!' <= c <= '~' }

  function ToLower(c: char): char
  {
    if Upper(c) then (c as int + 32) as char else c
  }

  /** The class letters in the C locale; a letter's upper case stands for the complement. */
  predicate InClass(c: char, letter: char)
  {
    match letter
    case 'a' => Alpha(c)
    case 'c' => c < ' ' || c as int == 127
    case 'd' => Digit(c)
    case 'l' => Lower(c)
    case 'p' => Graph(c) && !Alpha(c) && !Digit(c)
    case 's' => c == ' ' || 9 <= c as int <= 13
    case 'u' => Upper(c)
    case 'w' => Alpha(c) || Digit(c)
    case 'x' => Digit(c) || 'a' <= c <= 'f' || 'A' <= c <= 'F'
    case 'z' => c == '\0'
    case _ => false
  }

  predicate ClassLetter(c: char)
  {
    c in "acdlpsuwxz"
  }

  /** What an escaped character stands for: a class, the complement of one, or itself. */
  predicate Escaped(c: char, e: char)
  {
    if ClassLetter(e) then InClass(c, e)
    else if ClassLetter(ToLower(e)) then !InClass(c, ToLower(e))
    else c == e
  }

  datatype Elem = Class(e: char) | Range(lo: char, hi: char) | Char(c: char)

  predicate InElem(c: char, e: Elem)
  {
    match e
    case Class(x) => Escaped(c, x)
    case Range(lo, hi) => lo <= c <= hi
    case Char(x) => c == x
  }

  /** The elements of a set, from q up to its closing bracket at ec. */
  function Elems(pat: string, q: nat, ec: nat): seq<Elem>
    decreases if ec > q then ec - q else 0
  {
    if q >= ec then []
    else if Ch(pat, q) == '%' then [Class(Ch(pat, q + 1))] + Elems(pat, q + 2, ec)
    else if Ch(pat, q + 1) == '-' && q + 2 < ec then [Range(Ch(pat, q), Ch(pat, q + 2))] + Elems(pat, q + 3, ec)
    else [Char(Ch(pat, q))] + Elems(pat, q + 1, ec)
  }

  /** The set that starts at p with its bracket closed at ec: some element, or none if it is a complement. */
  predicate InSet(pat: string, p: nat, ec: nat, c: char)
  {
    if Ch(pat, p + 1) == '^' then !exists e :: e in Elems(pat, p + 2, ec) && InElem(c, e)
    else exists e :: e in Elems(pat, p + 1, ec) && InElem(c, e)
  }

  /** The characters that the single item from p to ep accepts. */
  predicate Accepts(pat: string, p: nat, ep: nat, c: char)
  {
    match Ch(pat, p)
    case '.' => true
    case '%' => Escaped(c, Ch(pat, p + 1))
    case '[' => ep > 0 && InSet(pat, p, ep - 1, c)
    case x => x == c
  }

  // ---------------------------------------------------------------- reading a pattern

  /** Where a set ends, scanning from q; its first character cannot close it. */
  function SetEnd(pat: string, q: nat): (r: Option<nat>)
    ensures r.Some? ==> q + 1 < r.value <= |pat|
    decreases if |pat| > q then |pat| - q else 0
  {
    if Ch(pat, q) == '\0' then None
    else
      var q1 := if Ch(pat, q) == '%' && Ch(pat, q + 1) != '\0' then q + 2 else q + 1;
      if Ch(pat, q1) == ']' then Some(q1 + 1) else SetEnd(pat, q1)
  }

  /** Where a single item ends. */
  function ClassEnd(pat: string, p: nat): (r: Option<nat>)
    requires Ch(pat, p) != '\0'
    ensures r.Some? ==> p < r.value <= |pat|
  {
    if Ch(pat, p) == '%' then if Ch(pat, p + 1) == '\0' then None else Some(p + 2)
    else if Ch(pat, p) == '[' then SetEnd(pat, if Ch(pat, p + 1) == '^' then p + 2 else p + 1)
    else Some(p + 1)
  }

  /** Items; a single item is the part of the pattern from p to ep. */
  datatype Item =
    | Open | Position | Close
    | Balance(b: char, e: char) | Frontier(p: nat, ep: nat) | BackRef(l: int)
    | AtEnd
    | One(p: nat, ep: nat) | Opt(p: nat, ep: nat) | Star(p: nat, ep: nat) | Plus(p: nat, ep: nat) | Lazy(p: nat, ep: nat)

  /** A single item with its suffix. */
  function Single(pat: string, p: nat): (r: Option<(Item, nat)>)
    requires Ch(pat, p) != '\0'
    ensures r.Some? ==> p < r.value.1 <= |pat|
  {
    match ClassEnd(pat, p)
    case None => None
    case Some(ep) =>
      match Ch(pat, ep)
      case '?' => Some((Opt(p, ep), ep + 1))
      case '*' => Some((Star(p, ep), ep + 1))
      case '+' => Some((Plus(p, ep), ep + 1))
      case '-' => Some((Lazy(p, ep), ep + 1))
      case _ => Some((One(p, ep), ep))
  }

  /** The item at p, and where the next one starts. */
  function Head(pat: string, p: nat): (r: Option<(Item, nat)>)
    requires Ch(pat, p) != '\0'
    ensures r.Some? ==> p < r.value.1 <= |pat|
  {
    match Ch(pat, p)
    case '(' => if Ch(pat, p + 1) == ')' then Some((Position, p + 2)) else Some((Open, p + 1))
    case ')' => Some((Close, p + 1))
    case '%' =>
      if Ch(pat, p + 1) == 'b' then
        if Ch(pat, p + 2) == '\0' || Ch(pat, p + 3) == '\0' then None else Some((Balance(Ch(pat, p + 2), Ch(pat, p + 3)), p + 4))
      else if Ch(pat, p + 1) == 'f' then
        if Ch(pat, p + 2) != '[' then None
        else match ClassEnd(pat, p + 2) case None => None case Some(ep) => Some((Frontier(p + 2, ep), ep))
      else if Digit(Ch(pat, p + 1)) then Some((BackRef(Ch(pat, p + 1) as int - '1' as int), p + 2))
      else Single(pat, p)
    case '$' => if Ch(pat, p + 1) == '\0' then Some((AtEnd, p + 1)) else Single(pat, p)
    case _ => Single(pat, p)
  }

  /** The items of the pattern from p on; None if it is malformed. */
  function Items(pat: string, p: nat): Option<seq<Item>>
    decreases if |pat| > p then |pat| - p else 0
  {
    if Ch(pat, p) == '\0' then Some([])
    else match Head(pat, p)
      case None => None
      case Some((item, next)) =>
        match Items(pat, next) case None => None case Some(rest) => Some([item] + rest)
  }

  // ---------------------------------------------------------------- captures

  const MAX_CAPTURES := 32

  /** A capture: where it starts, and its length once it is closed. */
  datatype Len = Unfinished | PositionOnly | Length(n: nat)
  datatype Cap = Cap(init: nat, len: Len)

  /** The last capture that is not closed; -1 if there is none. */
  function ToClose(caps: seq<Cap>): (l: int)
    ensures -1 <= l < |caps|
    ensures l >= 0 ==> caps[l].len == Unfinished
    ensures forall i :: l < i < |caps| ==> caps[i].len != Unfinished
  {
    if caps == [] then -1
    else if caps[|caps| - 1].len == Unfinished then |caps| - 1
    else ToClose(caps[..|caps| - 1])
  }

  /** Which captures are closed: all that matters for whether a pattern is well-formed. */
  function Marks(caps: seq<Cap>): (m: seq<bool>)
    ensures |m| == |caps| && forall i :: 0 <= i < |caps| ==> m[i] == (caps[i].len != Unfinished)
  {
    seq(|caps|, i requires 0 <= i < |caps| => caps[i].len != Unfinished)
  }

  function LastOpen(marks: seq<bool>): (l: int)
    ensures -1 <= l < |marks|
    ensures l >= 0 ==> !marks[l]
    ensures forall i :: l < i < |marks| ==> marks[i]
  {
    if marks == [] then -1 else if !marks[|marks| - 1] then |marks| - 1 else LastOpen(marks[..|marks| - 1])
  }

  /** No item closes what is not open, opens too many captures, or refers to one that is not closed. */
  predicate WellFormed(items: seq<Item>, marks: seq<bool>)
  {
    if items == [] then true
    else match items[0]
      case Open => |marks| < MAX_CAPTURES && WellFormed(items[1..], marks + [false])
      case Position => |marks| < MAX_CAPTURES && WellFormed(items[1..], marks + [true])
      case Close => LastOpen(marks) >= 0 && WellFormed(items[1..], marks[LastOpen(marks) := true])
      case BackRef(l) => 0 <= l < |marks| && marks[l] && WellFormed(items[1..], marks)
      case _ => WellFormed(items[1..], marks)
  }

  // ---------------------------------------------------------------- the language

  /** Items whose meaning does not depend on captures or on what is around the match. */
  predicate Plain(items: seq<Item>)
  {
    forall i :: 0 <= i < |items| ==> !items[i].Balance? && !items[i].Frontier? && !items[i].BackRef?
  }

  /** The first k characters are all accepted. */
  predicate AllAccepted(pat: string, p: nat, ep: nat, w: string, k: nat)
  {
    k <= |w| && forall i :: 0 <= i < k ==> Accepts(pat, p, ep, w[i])
  }

  /** The word is one of those the items stand for; `last`: it ends where the subject ends. */
  ghost predicate InLanguage(pat: string, items: seq<Item>, w: string, last: bool)
    decreases |items|, 0
  {
    if items == [] then w == []
    else
      var rest := items[1..];
      match items[0]
      case AtEnd => w == [] && last
      case One(p, ep) => RepeatRest(pat, p, ep, rest, w, last, 1)
      case Opt(p, ep) => RepeatRest(pat, p, ep, rest, w, last, 0) || RepeatRest(pat, p, ep, rest, w, last, 1)
      case Star(p, ep) => Repeats(pat, p, ep, rest, w, last, 0)
      case Plus(p, ep) => Repeats(pat, p, ep, rest, w, last, 1)
      case Lazy(p, ep) => Repeats(pat, p, ep, rest, w, last, 0)
      case _ => InLanguage(pat, rest, w, last)
  }

  /** At least so many repetitions. */
  ghost predicate Repeats(pat: string, p: nat, ep: nat, rest: seq<Item>, w: string, last: bool, least: nat)
    decreases |rest|, 2
  {
    exists k: nat :: k >= least && RepeatRest(pat, p, ep, rest, w, last, k)
  }

  /** k accepted characters, then a word of the rest. */
  ghost predicate RepeatRest(pat: string, p: nat, ep: nat, rest: seq<Item>, w: string, last: bool, k: nat)
    decreases |rest|, 1
  {
    AllAccepted(pat, p, ep, w, k) && InLanguage(pat, rest, w[k..], last)
  }

  // ---------------------------------------------------------------- all matches, in order of preference

  datatype Outcome = Outcome(end: nat, caps: seq<Cap>)

  /** Is the character at s there, and accepted? */
  predicate Fits(pat: string, p: nat, ep: nat, src: string, s: nat)
  {
    s < |src| && Accepts(pat, p, ep, src[s])
  }

  /** How many characters from s on are accepted. */
  function MaxCount(pat: string, p: nat, ep: nat, src: string, s: nat): (n: nat)
    ensures s <= |src| ==> s + n <= |src|
    ensures forall i :: s <= i < s + n ==> Fits(pat, p, ep, src, i)
    ensures !Fits(pat, p, ep, src, s + n)
    decreases if |src| > s then |src| - s else 0
  {
    if Fits(pat, p, ep, src, s) then 1 + MaxCount(pat, p, ep, src, s + 1) else 0
  }

  /** Where the balanced text that starts at s ends: scanning from t with `cont` open. */
  function BalanceEnd(src: string, t: nat, b: char, e: char, cont: nat): (r: Option<nat>)
    ensures r.Some? ==> t < r.value <= |src|
    decreases if |src| > t then |src| - t else 0
  {
    if t >= |src| then None
    else if src[t] == e then if cont <= 1 then Some(t + 1) else BalanceEnd(src, t + 1, b, e, cont - 1)
    else if src[t] == b then BalanceEnd(src, t + 1, b, e, cont + 1)
    else BalanceEnd(src, t + 1, b, e, cont)
  }

  function Previous(src: string, s: nat): char
  {
    if s == 0 then '\0' else Ch(src, s - 1)
  }

  /** The text of a closed capture stands at s. */
  predicate RefersTo(src: string, s: nat, c: Cap)
  {
    c.len.Length? && s + c.len.n <= |src| && c.init + c.len.n <= |src| && src[c.init..c.init + c.len.n] == src[s..s + c.len.n]
  }

  /** All matches of the items at s, the preferred ones first. */
  function Matches(pat: string, items: seq<Item>, src: string, s: nat, caps: seq<Cap>): seq<Outcome>
    requires s <= |src|
    decreases |items|, 0
  {
    if items == [] then [Outcome(s, caps)]
    else
      var rest := items[1..];
      match items[0]
      case Open => Matches(pat, rest, src, s, caps + [Cap(s, Unfinished)])
      case Position => Matches(pat, rest, src, s, caps + [Cap(s, PositionOnly)])
      case Close =>
        var l := ToClose(caps);
        if l < 0 || caps[l].init > s then [] else Matches(pat, rest, src, s, caps[l := Cap(caps[l].init, Length(s - caps[l].init))])
      case Balance(b, e) =>
        if Ch(src, s) != b then []
        else (match BalanceEnd(src, s + 1, b, e, 1) case None => [] case Some(t) => Matches(pat, rest, src, t, caps))
      case Frontier(p, ep) =>
        if ep == 0 || InSet(pat, p, ep - 1, Previous(src, s)) || !InSet(pat, p, ep - 1, Ch(src, s)) then []
        else Matches(pat, rest, src, s, caps)
      case BackRef(l) =>
        if 0 <= l < |caps| && RefersTo(src, s, caps[l]) then Matches(pat, rest, src, s + caps[l].len.n, caps) else []
      case AtEnd => if s == |src| then [Outcome(s, caps)] else []
      case One(p, ep) => if Fits(pat, p, ep, src, s) then Matches(pat, rest, src, s + 1, caps) else []
      case Opt(p, ep) =>
        (if Fits(pat, p, ep, src, s) then Matches(pat, rest, src, s + 1, caps) else []) + Matches(pat, rest, src, s, caps)
      case Star(p, ep) => Greedy(pat, rest, src, s, caps, MaxCount(pat, p, ep, src, s))
      case Plus(p, ep) =>
        if Fits(pat, p, ep, src, s) then Greedy(pat, rest, src, s + 1, caps, MaxCount(pat, p, ep, src, s + 1)) else []
      case Lazy(p, ep) => Lazily(pat, rest, src, s, caps, MaxCount(pat, p, ep, src, s))
  }

  /** n repetitions first, then n-1, and so on. */
  function Greedy(pat: string, rest: seq<Item>, src: string, s: nat, caps: seq<Cap>, n: nat): seq<Outcome>
    requires s + n <= |src|
    decreases |rest|, n + 1
  {
    Matches(pat, rest, src, s + n, caps) + if n == 0 then [] else Greedy(pat, rest, src, s, caps, n - 1)
  }

  /** No repetition first, then one, and so on up to n. */
  function Lazily(pat: string, rest: seq<Item>, src: string, s: nat, caps: seq<Cap>, n: nat): seq<Outcome>
    requires s + n <= |src|
    decreases |rest|, n + 1
  {
    Matches(pat, rest, src, s, caps) + if n == 0 then [] else Lazily(pat, rest, src, s + 1, caps, n - 1)
  }

  // ---------------------------------------------------------------- the matches are the language

  ghost predicate EndsAt(os: seq<Outcome>, e: nat)
  {
    exists i :: 0 <= i < |os| && os[i].end == e
  }

  lemma EndsBoth(a: seq<Outcome>, b: seq<Outcome>, e: nat)
    ensures EndsAt(a + b, e) <==> EndsAt(a, e) || EndsAt(b, e)
  {
    if i :| 0 <= i < |a| && a[i].end == e {
      assert (a + b)[i].end == e;
    } else if i :| 0 <= i < |b| && b[i].end == e {
      assert (a + b)[|a| + i].end == e;
    }
  }

  /** Captures start at or before s. */
  predicate Started(caps: seq<Cap>, s: nat)
  {
    forall i :: 0 <= i < |caps| ==> caps[i].init <= s
  }

  lemma StartedLater(caps: seq<Cap>, s: nat, t: nat)
    requires Started(caps, s) && s <= t
    ensures Started(caps, t)
  {
  }

  lemma {:induction false} ToCloseIs(caps: seq<Cap>)
    ensures ToClose(caps) == LastOpen(Marks(caps))
  {
  }

  lemma MarksAdd(caps: seq<Cap>, c: Cap)
    ensures Marks(caps + [c]) == Marks(caps) + [c.len != Unfinished]
  {
  }

  lemma MarksClose(caps: seq<Cap>, l: nat, c: Cap)
    requires l < |caps|
    ensures Marks(caps[l := c]) == Marks(caps)[l := c.len != Unfinished]
  {
  }

  ghost predicate EndsFrom(pat: string, rest: seq<Item>, src: string, t: nat, caps: seq<Cap>, e: nat)
  {
    t <= |src| && EndsAt(Matches(pat, rest, src, t, caps), e)
  }

  lemma {:induction false} GreedyEnds(pat: string, rest: seq<Item>, src: string, s: nat, caps: seq<Cap>, n: nat, e: nat)
    requires s + n <= |src|
    ensures EndsAt(Greedy(pat, rest, src, s, caps, n), e) <==> exists t: nat :: s <= t <= s + n && EndsFrom(pat, rest, src, t, caps, e)
    decreases n
  {
    assert EndsFrom(pat, rest, src, s + n, caps, e) <==> EndsAt(Matches(pat, rest, src, s + n, caps), e);
    if n == 0 {
      assert Greedy(pat, rest, src, s, caps, 0) == Matches(pat, rest, src, s, caps);
    } else {
      EndsBoth(Matches(pat, rest, src, s + n, caps), Greedy(pat, rest, src, s, caps, n - 1), e);
      GreedyEnds(pat, rest, src, s, caps, n - 1, e);
    }
    hide EndsAt, Matches, EndsFrom;
  }

  lemma {:induction false} LazilyEnds(pat: string, rest: seq<Item>, src: string, s: nat, caps: seq<Cap>, n: nat, e: nat)
    requires s + n <= |src|
    ensures EndsAt(Lazily(pat, rest, src, s, caps, n), e) <==> exists t: nat :: s <= t <= s + n && EndsFrom(pat, rest, src, t, caps, e)
    decreases n
  {
    assert EndsFrom(pat, rest, src, s, caps, e) <==> EndsAt(Matches(pat, rest, src, s, caps), e);
    if n == 0 {
      assert Lazily(pat, rest, src, s, caps, 0) == Matches(pat, rest, src, s, caps);
    } else {
      EndsBoth(Matches(pat, rest, src, s, caps), Lazily(pat, rest, src, s + 1, caps, n - 1), e);
      LazilyEnds(pat, rest, src, s + 1, caps, n - 1, e);
    }
    hide EndsAt, Matches, EndsFrom;
  }

  /** k repetitions fit into the word exactly if they fit into the subject. */
  lemma RepeatFits(pat: string, p: nat, ep: nat, src: string, s: nat, e: nat, k: nat)
    requires s <= e <= |src|
    ensures AllAccepted(pat, p, ep, src[s..e], k) <==> k <= e - s && k <= MaxCount(pat, p, ep, src, s)
    ensures k <= e - s ==> src[s..e][k..] == src[s + k..e]
  {
    var n, w := MaxCount(pat, p, ep, src, s), src[s..e];
    if k <= n && k <= e - s {
      forall i | 0 <= i < k ensures Accepts(pat, p, ep, w[i]) {
        assert Fits(pat, p, ep, src, s + i) && w[i] == src[s + i];
      }
    }
    if n < e - s {
      assert w[n] == src[s + n] && !Fits(pat, p, ep, src, s + n);
    }
    hide Accepts, MaxCount;
  }

  /** The matches of these items that end at e, as words of their language. */
  ghost predicate Agrees(pat: string, items: seq<Item>, src: string, s: nat, caps: seq<Cap>, e: nat)
  {
    s <= |src| ==>
      (EndsAt(Matches(pat, items, src, s, caps), e) <==> s <= e <= |src| && InLanguage(pat, items, src[s..e], e == |src|))
  }

  /** For any number of repetitions, the rest agrees. */
  lemma RepeatAgrees(pat: string, p: nat, ep: nat, rest: seq<Item>, src: string, s: nat, caps: seq<Cap>, e: nat, k: nat)
    requires s <= e <= |src| && Agrees(pat, rest, src, s + k, caps, e)
    ensures RepeatRest(pat, p, ep, rest, src[s..e], e == |src|, k) <==>
              k <= MaxCount(pat, p, ep, src, s) && EndsFrom(pat, rest, src, s + k, caps, e)
  {
    RepeatFits(pat, p, ep, src, s, e, k);
    hide AllAccepted, MaxCount, InLanguage, EndsAt, Matches;
  }

  /** The rest agrees wherever it starts. */
  ghost predicate RestAgrees(pat: string, rest: seq<Item>, src: string, s: nat, caps: seq<Cap>, e: nat)
  {
    forall t: nat :: s <= t <= |src| ==> Agrees(pat, rest, src, t, caps, e)
  }

  /** Ends lie behind the start. */
  lemma EndsLater(pat: string, rest: seq<Item>, src: string, s: nat, caps: seq<Cap>, e: nat, t: nat)
    requires RestAgrees(pat, rest, src, s, caps, e) && s <= t && EndsFrom(pat, rest, src, t, caps, e)
    ensures t <= e <= |src|
  {
    assert Agrees(pat, rest, src, t, caps, e);
    hide InLanguage, Matches, EndsAt;
  }

  lemma StarAgrees(pat: string, p: nat, ep: nat, rest: seq<Item>, src: string, s: nat, caps: seq<Cap>, e: nat, least: nat, ends: bool)
    requires s + least <= |src| && RestAgrees(pat, rest, src, s, caps, e)
    requires ends <==> exists t: nat :: s + least <= t <= s + MaxCount(pat, p, ep, src, s) && EndsFrom(pat, rest, src, t, caps, e)
    ensures ends <==> s <= e <= |src| && Repeats(pat, p, ep, rest, src[s..e], e == |src|, least)
  {
    hide MaxCount, RepeatRest, EndsFrom;
    if ends {
      var t: nat :| s + least <= t <= s + MaxCount(pat, p, ep, src, s) && EndsFrom(pat, rest, src, t, caps, e);
      EndsLater(pat, rest, src, s, caps, e, t);
      assert Agrees(pat, rest, src, s + (t - s), caps, e);
      RepeatAgrees(pat, p, ep, rest, src, s, caps, e, t - s);
    }
    if s <= e <= |src| && Repeats(pat, p, ep, rest, src[s..e], e == |src|, least) {
      var k := TheCount(pat, p, ep, rest, src[s..e], e == |src|, least);
      RepeatWithin(pat, p, ep, rest, src, s, e, k);
      assert Agrees(pat, rest, src, s + k, caps, e);
      RepeatAgrees(pat, p, ep, rest, src, s, caps, e, k);
      assert EndsFrom(pat, rest, src, s + k, caps, e);
    }
    hide *;
  }

  lemma TheCount(pat: string, p: nat, ep: nat, rest: seq<Item>, w: string, last: bool, least: nat) returns (k: nat)
    requires Repeats(pat, p, ep, rest, w, last, least)
    ensures k >= least && RepeatRest(pat, p, ep, rest, w, last, k)
  {
    hide RepeatRest;
    k :| k >= least && RepeatRest(pat, p, ep, rest, w, last, k);
  }

  lemma RepeatWithin(pat: string, p: nat, ep: nat, rest: seq<Item>, src: string, s: nat, e: nat, k: nat)
    requires s <= e <= |src| && RepeatRest(pat, p, ep, rest, src[s..e], e == |src|, k)
    ensures s + k <= e
  {
  }

  /** One character, or the item left out, or more than one. */
  lemma OneAgrees(pat: string, p: nat, ep: nat, rest: seq<Item>, src: string, s: nat, caps: seq<Cap>, e: nat)
    requires s <= |src| && RestAgrees(pat, rest, src, s, caps, e)
    ensures EndsAt(if Fits(pat, p, ep, src, s) then Matches(pat, rest, src, s + 1, caps) else [], e) <==>
              s <= e <= |src| && RepeatRest(pat, p, ep, rest, src[s..e], e == |src|, 1)
    ensures EndsAt(Matches(pat, rest, src, s, caps), e) <==>
              s <= e <= |src| && RepeatRest(pat, p, ep, rest, src[s..e], e == |src|, 0)
  {
    assert MaxCount(pat, p, ep, src, s) >= 1 <==> Fits(pat, p, ep, src, s);
    hide MaxCount, RepeatRest, Matches, EndsAt, Fits;
    FitsInside(pat, p, ep, src, s);
    if EndsFrom(pat, rest, src, s, caps, e) {
      EndsLater(pat, rest, src, s, caps, e, s);
    }
    if EndsFrom(pat, rest, src, s + 1, caps, e) {
      EndsLater(pat, rest, src, s, caps, e, s + 1);
    }
    if s <= e <= |src| {
      assert Agrees(pat, rest, src, s + 0, caps, e);
      RepeatAgrees(pat, p, ep, rest, src, s, caps, e, 0);
      if s < |src| {
        assert Agrees(pat, rest, src, s + 1, caps, e);
        RepeatAgrees(pat, p, ep, rest, src, s, caps, e, 1);
      } else {
        OnlyInside(pat, p, ep, rest, src, s, e);
      }
    }
    NoEnds(e);
  }

  lemma NoEnds(e: nat)
    ensures !EndsAt([], e)
  {
  }

  lemma FitsInside(pat: string, p: nat, ep: nat, src: string, s: nat)
    ensures Fits(pat, p, ep, src, s) ==> s < |src|
  {
  }

  lemma OnlyInside(pat: string, p: nat, ep: nat, rest: seq<Item>, src: string, s: nat, e: nat)
    requires s == e == |src|
    ensures !RepeatRest(pat, p, ep, rest, src[s..e], e == |src|, 1)
  {
  }

  /** The items in turn. */
  lemma {:induction false} MatchesAre(pat: string, items: seq<Item>, src: string, s: nat, caps: seq<Cap>, e: nat)
    requires Plain(items) && WellFormed(items, Marks(caps)) && Started(caps, s)
    ensures Agrees(pat, items, src, s, caps, e)
    decreases |items|
  {
    if items == [] || s > |src| {
      MatchesNone(pat, items, src, s, caps, e);
    } else {
      hide Matches, InLanguage, EndsAt, Agrees, Greedy, Lazily, RepeatRest, MaxCount, Fits;
      var rest := items[1..];
      assert Plain(rest);
      MarksAdd(caps, Cap(s, Unfinished));
      MarksAdd(caps, Cap(s, PositionOnly));
      ToCloseIs(caps);
      if items[0].Open? {
        MatchesAre(pat, rest, src, s, caps + [Cap(s, Unfinished)], e);
        SkipAgrees(pat, items, src, s, caps, e);
      } else if items[0].Position? {
        MatchesAre(pat, rest, src, s, caps + [Cap(s, PositionOnly)], e);
        SkipAgrees(pat, items, src, s, caps, e);
      } else if items[0].Close? {
        var l := ToClose(caps);
        var c := Cap(caps[l].init, Length(s - caps[l].init));
        MarksClose(caps, l, c);
        MatchesAre(pat, rest, src, s, caps[l := c], e);
        SkipAgrees(pat, items, src, s, caps, e);
      } else if items[0].AtEnd? {
        EndAgrees(pat, items, src, s, caps, e);
      } else {
        forall t: nat | s <= t <= |src| ensures Agrees(pat, rest, src, t, caps, e) {
          StartedLater(caps, s, t);
          MatchesAre(pat, rest, src, t, caps, e);
        }
        ItemAgrees(pat, items, src, s, caps, e);
      }
    }
  }

  lemma MatchesNone(pat: string, items: seq<Item>, src: string, s: nat, caps: seq<Cap>, e: nat)
    requires items == [] || s > |src|
    ensures Agrees(pat, items, src, s, caps, e)
  {
    if s <= |src| {
      assert Matches(pat, items, src, s, caps) == [Outcome(s, caps)];
      assert [Outcome(s, caps)][0].end == s;
    }
  }

  /** Captures do not restrict what is matched. */
  lemma SkipAgrees(pat: string, items: seq<Item>, src: string, s: nat, caps: seq<Cap>, e: nat)
    requires items != [] && s <= |src| && Started(caps, s) && (items[0].Open? || items[0].Position? || (items[0].Close? && ToClose(caps) >= 0))
    requires items[0].Open? ==> Agrees(pat, items[1..], src, s, caps + [Cap(s, Unfinished)], e)
    requires items[0].Position? ==> Agrees(pat, items[1..], src, s, caps + [Cap(s, PositionOnly)], e)
    requires items[0].Close? ==>
      var l := ToClose(caps); Agrees(pat, items[1..], src, s, caps[l := Cap(caps[l].init, Length(s - caps[l].init))], e)
    ensures Agrees(pat, items, src, s, caps, e)
  {
    hide EndsAt, ToClose;
  }

  lemma EndAgrees(pat: string, items: seq<Item>, src: string, s: nat, caps: seq<Cap>, e: nat)
    requires items != [] && s <= |src| && items[0].AtEnd?
    ensures Agrees(pat, items, src, s, caps, e)
  {
    if s == |src| {
      assert [Outcome(s, caps)][0].end == s;
    }
  }

  /** An item that takes characters. */
  predicate Takes(i: Item)
  {
    i.One? || i.Opt? || i.Star? || i.Plus? || i.Lazy?
  }

  lemma ItemAgrees(pat: string, items: seq<Item>, src: string, s: nat, caps: seq<Cap>, e: nat)
    requires items != [] && s <= |src| && RestAgrees(pat, items[1..], src, s, caps, e) && Takes(items[0])
    ensures Agrees(pat, items, src, s, caps, e)
  {
    hide EndsAt, EndsFrom, RestAgrees, RepeatRest, Repeats, MaxCount, Fits, Greedy, Lazily;
    var rest, i := items[1..], items[0];
    if i.One? || i.Opt? {
      OneAgrees(pat, i.p, i.ep, rest, src, s, caps, e);
      FitsInside(pat, i.p, i.ep, src, s);
      EndsBoth(if Fits(pat, i.p, i.ep, src, s) then Matches(pat, rest, src, s + 1, caps) else [], Matches(pat, rest, src, s, caps), e);
    } else if i.Star? {
      GreedyEnds(pat, rest, src, s, caps, MaxCount(pat, i.p, i.ep, src, s), e);
      StarAgrees(pat, i.p, i.ep, rest, src, s, caps, e, 0, EndsAt(Greedy(pat, rest, src, s, caps, MaxCount(pat, i.p, i.ep, src, s)), e));
    } else if i.Lazy? {
      LazilyEnds(pat, rest, src, s, caps, MaxCount(pat, i.p, i.ep, src, s), e);
      StarAgrees(pat, i.p, i.ep, rest, src, s, caps, e, 0, EndsAt(Lazily(pat, rest, src, s, caps, MaxCount(pat, i.p, i.ep, src, s)), e));
    } else {
      PlusAgrees(pat, i.p, i.ep, items, src, s, caps, e);
    }
  }

  lemma PlusAgrees(pat: string, p: nat, ep: nat, items: seq<Item>, src: string, s: nat, caps: seq<Cap>, e: nat)
    requires items != [] && items[0] == Plus(p, ep) && s <= |src| && RestAgrees(pat, items[1..], src, s, caps, e)
    ensures Agrees(pat, items, src, s, caps, e)
  {
    hide EndsAt, EndsFrom, RestAgrees, Greedy;
    var rest := items[1..];
    OneMoreCount(pat, p, ep, src, s);
    if Fits(pat, p, ep, src, s) {
      FitsInside(pat, p, ep, src, s);
      hide MaxCount, RepeatRest, Repeats, Fits;
      GreedyEnds(pat, rest, src, s + 1, caps, MaxCount(pat, p, ep, src, s + 1), e);
      StarAgrees(pat, p, ep, rest, src, s, caps, e, 1, EndsAt(Greedy(pat, rest, src, s + 1, caps, MaxCount(pat, p, ep, src, s + 1)), e));
    } else {
      NoEnds(e);
      hide MaxCount, Fits;
      NoRepeats(pat, p, ep, rest, src, s, e);
    }
  }

  lemma OneMoreCount(pat: string, p: nat, ep: nat, src: string, s: nat)
    ensures MaxCount(pat, p, ep, src, s) == if Fits(pat, p, ep, src, s) then 1 + MaxCount(pat, p, ep, src, s + 1) else 0
  {
    hide Fits;
  }

  lemma NoRepeats(pat: string, p: nat, ep: nat, rest: seq<Item>, src: string, s: nat, e: nat)
    requires MaxCount(pat, p, ep, src, s) == 0
    ensures s <= e <= |src| ==> !Repeats(pat, p, ep, rest, src[s..e], e == |src|, 1)
  {
    hide MaxCount;
    if s <= e <= |src| {
      forall k: nat | k >= 1 ensures !AllAccepted(pat, p, ep, src[s..e], k) {
        RepeatFits(pat, p, ep, src, s, e, k);
      }
    }
  }
}
