/**
 Searching a subject for a pattern: the leftmost place where some word of the
 pattern's language starts, and there the preferred one of those words.
 */
module LuaFind {
  import opened Options
  import opened LuaPattern
  import opened LuaMatch

  /** Where the items of the pattern start: behind the anchor, if there is one. */
  function Start(pat: string): nat
  {
    if Ch(pat, 0) == '^' then 1 else 0
  }

  /** A pattern without mistakes whose items' meaning does not depend on captures or on what is around the match. */
  predicate Regular(pat: string)
  {
    Fine(pat, Start(pat), []) && Plain(Items(pat, Start(pat)).value)
  }

  /** The part of the subject from s to e is a word of the pattern's language. */
  ghost predicate Word(pat: string, src: string, s: nat, e: nat)
  {
    s <= e <= |src| && Items(pat, Start(pat)).Some? && InLanguage(pat, Items(pat, Start(pat)).value, src[s..e], e == |src|)
  }

  /** What the matcher finds at s is a word; if it finds nothing, there is none. */
  lemma FoundIsWord(pat: string, src: string, s: nat, r: Res, now: seq<Cap>)
    requires Regular(pat) && s <= |src| && Meets(pat, Start(pat), src, s, [], r, now)
    ensures match r case Found(e) => Word(pat, src, s, e) case NoMatch => forall e: nat :: !Word(pat, src, s, e) case Error => false
  {
    var items := Items(pat, Start(pat)).value;
    forall e: nat ensures Word(pat, src, s, e) <==> EndsAt(Matches(pat, items, src, s, []), e) {
      MatchesAre(pat, items, src, s, [], e);
      hide InLanguage, Matches, EndsAt;
    }
    hide Matches, InLanguage, Fine, Plain;
  }

  datatype Hit = Hit(start: nat, end: nat) | Nowhere | BadPattern

  /** From `init` on, the first place where the pattern matches; only there, if the pattern is anchored. */
  method Search(src: string, pat: string, init: nat) returns (hit: Hit, caps: seq<Cap>)
    requires init <= |src|
    ensures hit.Hit? ==> init <= hit.start <= |src| && (Ch(pat, 0) == '^' ==> hit.start == init)
    ensures var p := if Ch(pat, 0) == '^' then 1 else 0;
            Fine(pat, p, []) ==>
              match hit
              case Hit(s, e) => First(pat, p, src, s, []) == Some(Outcome(e, caps)) && forall t: nat :: init <= t < s ==> First(pat, p, src, t, []) == None
              case Nowhere => forall t: nat :: init <= t <= |src| && (Ch(pat, 0) == '^' ==> t == init) ==> First(pat, p, src, t, []) == None
              case BadPattern => false
    ensures Regular(pat) && hit.Hit? ==> Word(pat, src, hit.start, hit.end) && forall s: nat, e: nat :: init <= s < hit.start ==> !Word(pat, src, s, e)
    ensures Regular(pat) && hit.Nowhere? ==> forall s: nat, e: nat :: init <= s && (Ch(pat, 0) == '^' ==> s == init) ==> !Word(pat, src, s, e)
  {
    hide Meets, Word, Fine, Plain, First;
    var ms := new MatchState(src, pat);
    var p := Start(pat);
    StartWithin(pat);
    var s := init;
    while true
      invariant init <= s <= |src| && fresh(ms) && ms.src == src && ms.pat == pat && ms.Valid() && (Ch(pat, 0) == '^' ==> s == init)
      invariant Fine(pat, p, []) ==> forall t: nat :: init <= t < s ==> First(pat, p, src, t, []) == None
      invariant Regular(pat) ==> forall t: nat, e: nat :: init <= t < s ==> !Word(pat, src, t, e)
      decreases |src| - s
    {
      ms.level := 0;
      var r := ms.Match(s, p);
      if Regular(pat) {
        FoundIsWord(pat, src, s, r, ms.Caps());
      }
      match r {
        case Found(e) => return Hit(s, e), ms.Caps();
        case Error => return BadPattern, [];
        case NoMatch =>
      }
      if s == |src| || Ch(pat, 0) == '^' {
        WordsInside(pat, src);
        return Nowhere, [];
      }
      s := s + 1;
    }
  }

  lemma StartWithin(pat: string)
    ensures Start(pat) <= |pat|
  {
  }

  lemma WordsInside(pat: string, src: string)
    ensures forall s: nat, e: nat :: s > |src| ==> !Word(pat, src, s, e)
  {
    hide InLanguage;
  }
}
