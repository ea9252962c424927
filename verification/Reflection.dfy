/**
 * The field-matching loops of the reflection validator: a class's fields against the fields its reflection
 * lists, with fields marked as ignored or as swapped out of order.
 */
module Reflection {

  predicate Distinct<T(==)>(s: seq<T>) {
    forall i, j :: 0 <= i < j < |s| ==> s[i] != s[j]
  }

  /** What is left of a list when some names are deleted. */
  function Without<T(==)>(s: seq<T>, drop: seq<T>): seq<T> {
    if s == [] then []
    else
      var rest := Without(s[..|s| - 1], drop);
      if s[|s| - 1] in drop then rest else rest + [s[|s| - 1]]
  }

  /** A list without the one occurrence of `x` in it. */
  function Removed<T(==,!new)>(s: seq<T>, x: T): (r: seq<T>)
    requires x in s && Distinct(s)
    ensures |r| == |s| - 1 && Distinct(r)
    ensures forall y :: y in r <==> y in s && y != x
  {
    if s[0] == x then s[1..]
    else
      var rest := Removed(s[1..], x);
      DistinctCons(s[0], rest);
      [s[0]] + rest
  }

  lemma DistinctCons<T>(x: T, s: seq<T>)
    ensures Distinct(s) && x !in s ==> Distinct([x] + s)
  {
    if Distinct(s) && x !in s {
      var t := [x] + s;
      forall i, j | 0 <= i < j < |t| ensures t[i] != t[j] {
        assert t[j] == s[j - 1];
        assert i > 0 ==> t[i] == s[i - 1];
      }
    }
  }

  /**
   * What the markings promise: the reflection has exactly the fields that are not ignored, ignored and
   * swapped names are fields, and apart from swapped ones the order is that of the class.
   */
  ghost predicate Consistent<T(!new)>(fields: seq<T>, reflected: seq<T>, swapped: seq<T>, ignored: seq<T>) {
    && (forall x :: x in reflected <==> x in fields && x !in ignored)
    && (forall x :: x in ignored ==> x in fields)
    && (forall x :: x in swapped ==> x in fields && x in reflected)
    && Without(fields, swapped + ignored) == Without(reflected, swapped)
  }

  /**
   * Positions `f` in the class and `r` in the reflection with nothing but pending swaps since the last match:
   * the reflection is just past a kept name, or at its start, and from that name's place `g` on the class
   * has only swapped names that the reflection has not come to.
   */
  ghost predicate JustMatched<T>(fields: seq<T>, reflected: seq<T>, swapped: seq<T>, g: int, f: int, r: int) {
    && 0 <= g <= f <= |fields| && 0 <= r <= |reflected|
    && (if r == 0 then g == 0
        else g > 0 && reflected[r - 1] !in swapped && fields[g - 1] == reflected[r - 1])
    && forall j :: g <= j < f ==> fields[j] in swapped && fields[j] !in reflected[..r]
  }

  /** A swapped name that both lists have next at such positions: its marking is refused. */
  ghost predicate InPlaceAt<T>(fields: seq<T>, reflected: seq<T>, swapped: seq<T>, g: int, p: int, q: int) {
    && 0 <= p < |fields| && 0 <= q < |reflected|
    && fields[p] == reflected[q] && fields[p] in swapped
    && JustMatched(fields, reflected, swapped, g, p, q)
  }

  ghost predicate InPlace<T>(fields: seq<T>, reflected: seq<T>, swapped: seq<T>, x: T) {
    exists g, p, q :: InPlaceAt(fields, reflected, swapped, g, p, q) && fields[p] == x
  }

  datatype Verdict<T> = Accepted | NeedlessSwap(field: T) | Rejected

  // ---------- deleting names ----------

  lemma WithoutLast<T>(s: seq<T>, k: nat, drop: seq<T>)
    requires k < |s|
    ensures Without(s[..k + 1], drop) == Without(s[..k], drop) + (if s[k] in drop then [] else [s[k]])
  {
    assert s[..k + 1][..k] == s[..k];
  }

  lemma {:induction false} WithoutConcat<T>(a: seq<T>, b: seq<T>, drop: seq<T>)
    ensures Without(a + b, drop) == Without(a, drop) + Without(b, drop)
    decreases |b|
  {
    if b == [] {
      assert a + b == a;
    } else {
      assert (a + b)[..|a + b| - 1] == a + b[..|b| - 1];
      WithoutConcat(a, b[..|b| - 1], drop);
    }
  }

  lemma {:induction false} InWithout<T>(s: seq<T>, drop: seq<T>, x: T)
    ensures x in Without(s, drop) <==> x in s && x !in drop
    decreases |s|
  {
    if s != [] {
      InWithout(s[..|s| - 1], drop, x);
      assert x in s <==> x in s[..|s| - 1] || x == s[|s| - 1];
    }
  }

  lemma SplitAt<T>(s: seq<T>, i: nat, drop: seq<T>)
    requires i < |s|
    ensures Without(s, drop) ==
      Without(s[..i], drop) + (if s[i] in drop then [] else [s[i]]) + Without(s[i + 1..], drop)
  {
    assert s == s[..i + 1] + s[i + 1..];
    WithoutConcat(s[..i + 1], s[i + 1..], drop);
    WithoutLast(s, i, drop);
  }

  /** If two lists agree after deletion, and so do prefixes of theirs, the next kept names agree. */
  lemma NextKept<T>(s: seq<T>, t: seq<T>, dropS: seq<T>, dropT: seq<T>, i: nat, j: nat)
    requires i < |s| && j <= |t| && s[i] !in dropS
    requires Without(s, dropS) == Without(t, dropT)
    requires Without(s[..i], dropS) == Without(t[..j], dropT)
    ensures j < |t|
    ensures t[j] !in dropT ==> t[j] == s[i]
  {
    hide Without;
    SplitAt(s, i, dropS);
    var p := |Without(s[..i], dropS)|;
    assert Without(s, dropS)[p] == s[i];
    assert t[..|t|] == t;
    if j < |t| {
      SplitAt(t, j, dropT);
      assert t[j] !in dropT ==> Without(t, dropT)[p] == t[j];
    }
  }

  // ---------- the loops ----------

  /** Where each swapped name stands: unseen, seen in the class only, or in the reflection only. */
  ghost predicate Swaps<T(!new)>(seenF: seq<T>, seenR: seq<T>, swapped0: seq<T>,
                                 swapped: seq<T>, back: seq<T>, fwd: seq<T>) {
    && Distinct(swapped) && Distinct(back) && Distinct(fwd)
    && (forall x :: x in swapped <==> x in swapped0 && x !in seenF && x !in seenR)
    && (forall x :: x in back <==> x in swapped0 && x in seenF && x !in seenR)
    && (forall x :: x in fwd <==> x in swapped0 && x !in seenF && x in seenR)
  }

  /** Ignored names move over as the class's fields are seen. */
  ghost predicate Ignores<T(!new)>(seenF: seq<T>, seenR: seq<T>, ignored0: seq<T>, ignored: seq<T>, used: seq<T>) {
    && Distinct(ignored)
    && (forall x :: x in ignored <==> x in ignored0 && x !in seenF)
    && (forall x :: x in used <==> x in ignored0 && x in seenF)
    && (forall x :: x in seenR ==> x !in ignored0)
  }

  /** The kept names before both positions agree. */
  ghost predicate Matched<T>(fields: seq<T>, reflected: seq<T>, swapped0: seq<T>, ignored0: seq<T>, f: nat, r: nat)
    requires f <= |fields| && r <= |reflected|
  {
    Without(fields[..f], swapped0 + ignored0) == Without(reflected[..r], swapped0)
  }

  lemma SeenNext<T(!new)>(s: seq<T>, k: nat)
    requires k < |s| && Distinct(s)
    ensures s[k] !in s[..k]
    ensures forall x :: x in s[..k + 1] <==> x in s[..k] || x == s[k]
  {
    assert s[..k + 1] == s[..k] + [s[k]];
  }

  /** A field that is neither pending as a swap nor ignored has to be the next one of the reflection. */
  lemma MismatchIsInconsistent<T(!new)>(fields: seq<T>, reflected: seq<T>, swapped0: seq<T>, ignored0: seq<T>,
                                        f: nat, r: nat)
    requires f < |fields| && r <= |reflected| && Matched(fields, reflected, swapped0, ignored0, f, r)
    requires fields[f] !in swapped0 && fields[f] !in ignored0
    requires r < |reflected| ==> reflected[r] !in swapped0 && reflected[r] != fields[f]
    ensures !Consistent(fields, reflected, swapped0, ignored0)
  {
    if Consistent(fields, reflected, swapped0, ignored0) {
      NextKept(fields, reflected, swapped0 + ignored0, swapped0, f, r);
    }
  }

  /** A name of the reflection that is left over after the class's fields have to be a swapped one. */
  lemma LeftoverIsInconsistent<T(!new)>(fields: seq<T>, reflected: seq<T>, swapped0: seq<T>, ignored0: seq<T>, r: nat)
    requires r < |reflected| && Matched(fields, reflected, swapped0, ignored0, |fields|, r)
    requires reflected[r] !in swapped0
    ensures !Consistent(fields, reflected, swapped0, ignored0)
  {
    if Consistent(fields, reflected, swapped0, ignored0) {
      assert fields[..|fields|] == fields;
      NextKept(reflected, fields, swapped0, swapped0 + ignored0, r, |fields|);
    }
  }

  lemma MatchedIsConsistent<T(!new)>(fields: seq<T>, reflected: seq<T>, swapped0: seq<T>, ignored0: seq<T>)
    requires Matched(fields, reflected, swapped0, ignored0, |fields|, |reflected|)
    requires forall x :: x in swapped0 ==> x in fields && x in reflected
    requires forall x :: x in ignored0 ==> x in fields && x !in reflected
    ensures Consistent(fields, reflected, swapped0, ignored0)
  {
    assert fields[..|fields|] == fields && reflected[..|reflected|] == reflected;
    forall x ensures x in reflected <==> x in fields && x !in ignored0 {
      InWithout(fields, swapped0 + ignored0, x);
      InWithout(reflected, swapped0, x);
    }
  }

  // ---------- one move at a time ----------

  lemma SwapBack<T(!new)>(seenF: seq<T>, seenR: seq<T>, swapped0: seq<T>,
                          swapped: seq<T>, back: seq<T>, fwd: seq<T>, x: T)
    requires Swaps(seenF, seenR, swapped0, swapped, back, fwd) && x in swapped
    ensures Swaps(seenF + [x], seenR, swapped0, Removed(swapped, x), back + [x], fwd)
  {
  }

  lemma SwapForward<T(!new)>(seenF: seq<T>, seenR: seq<T>, swapped0: seq<T>,
                             swapped: seq<T>, back: seq<T>, fwd: seq<T>, x: T)
    requires Swaps(seenF, seenR, swapped0, swapped, back, fwd) && x in swapped
    ensures Swaps(seenF, seenR + [x], swapped0, Removed(swapped, x), back, fwd + [x])
  {
  }

  lemma TakeBack<T(!new)>(seenF: seq<T>, seenR: seq<T>, swapped0: seq<T>,
                          swapped: seq<T>, back: seq<T>, fwd: seq<T>, x: T)
    requires Swaps(seenF, seenR, swapped0, swapped, back, fwd) && x in back
    ensures Swaps(seenF, seenR + [x], swapped0, swapped, Removed(back, x), fwd)
  {
  }

  lemma TakeForward<T(!new)>(seenF: seq<T>, seenR: seq<T>, swapped0: seq<T>,
                             swapped: seq<T>, back: seq<T>, fwd: seq<T>, x: T)
    requires Swaps(seenF, seenR, swapped0, swapped, back, fwd) && x in fwd
    ensures Swaps(seenF + [x], seenR, swapped0, swapped, back, Removed(fwd, x))
  {
  }

  lemma PassField<T(!new)>(seenF: seq<T>, seenR: seq<T>, swapped0: seq<T>,
                           swapped: seq<T>, back: seq<T>, fwd: seq<T>, x: T)
    requires Swaps(seenF, seenR, swapped0, swapped, back, fwd) && x !in swapped0
    ensures Swaps(seenF + [x], seenR, swapped0, swapped, back, fwd)
    ensures Swaps(seenF, seenR + [x], swapped0, swapped, back, fwd)
  {
  }

  lemma IgnoreField<T(!new)>(seenF: seq<T>, seenR: seq<T>, ignored0: seq<T>, ignored: seq<T>, used: seq<T>, x: T)
    requires Ignores(seenF, seenR, ignored0, ignored, used) && x in ignored
    ensures Ignores(seenF + [x], seenR, ignored0, Removed(ignored, x), used + [x])
    ensures x in ignored0
  {
  }

  lemma KeepField<T(!new)>(seenF: seq<T>, seenR: seq<T>, ignored0: seq<T>, ignored: seq<T>, used: seq<T>, x: T)
    requires Ignores(seenF, seenR, ignored0, ignored, used) && x !in ignored0
    ensures Ignores(seenF + [x], seenR, ignored0, ignored, used)
    ensures Ignores(seenF, seenR + [x], ignored0, ignored, used)
  {
  }

  // ---------- swaps that are in place ----------

  /** The walk stands at `f` and `r`, and no swapped name in place has been passed. */
  ghost predicate NonePassed<T>(fields: seq<T>, reflected: seq<T>, swapped0: seq<T>, f: int, r: int) {
    forall g, p, q :: InPlaceAt(fields, reflected, swapped0, g, p, q) ==> r < q || (r == q && g <= f <= p)
  }

  /** A class field that is not a pending swap. */
  ghost predicate Settled<T>(fields: seq<T>, reflected: seq<T>, swapped0: seq<T>, f: nat, r: nat)
    requires f < |fields| && r <= |reflected|
  {
    fields[f] in swapped0 ==> fields[f] in reflected[..r]
  }

  /** With no pending swap at hand, names in place are all further on in the reflection. */
  lemma NoneHere<T>(fields: seq<T>, reflected: seq<T>, swapped0: seq<T>, f: nat, r: nat, g: int, p: int, q: int)
    requires f < |fields| && r <= |reflected| && Distinct(reflected) && Settled(fields, reflected, swapped0, f, r)
    requires NonePassed(fields, reflected, swapped0, f, r) && InPlaceAt(fields, reflected, swapped0, g, p, q)
    ensures r < q
  {
  }

  lemma PassSwap<T>(fields: seq<T>, reflected: seq<T>, swapped0: seq<T>, f: nat, r: nat)
    requires f < |fields| && r <= |reflected| && fields[f] in swapped0
    requires r < |reflected| ==> reflected[r] != fields[f]
    requires NonePassed(fields, reflected, swapped0, f, r)
    ensures NonePassed(fields, reflected, swapped0, f + 1, r)
    ensures forall g ::
      fields[f] !in reflected[..r] && JustMatched(fields, reflected, swapped0, g, f, r) ==>
      JustMatched(fields, reflected, swapped0, g, f + 1, r)
  {
  }

  lemma PassSettled<T>(fields: seq<T>, reflected: seq<T>, swapped0: seq<T>, f: nat, r: nat)
    requires f < |fields| && r <= |reflected| && Distinct(reflected) && Settled(fields, reflected, swapped0, f, r)
    requires NonePassed(fields, reflected, swapped0, f, r)
    ensures NonePassed(fields, reflected, swapped0, f + 1, r)
    ensures r < |reflected| && reflected[r] in swapped0 ==> NonePassed(fields, reflected, swapped0, f, r + 1)
  {
    forall g, p, q | InPlaceAt(fields, reflected, swapped0, g, p, q)
      ensures r < q && (r < |reflected| && reflected[r] in swapped0 ==> r + 1 < q)
    {
      NoneHere(fields, reflected, swapped0, f, r, g, p, q);
    }
  }

  lemma PassMatch<T>(fields: seq<T>, reflected: seq<T>, swapped0: seq<T>, f: nat, r: nat)
    requires f < |fields| && r < |reflected| && Distinct(fields) && Distinct(reflected)
    requires fields[f] == reflected[r] && fields[f] !in swapped0
    requires NonePassed(fields, reflected, swapped0, f, r)
    ensures NonePassed(fields, reflected, swapped0, f + 1, r + 1)
    ensures JustMatched(fields, reflected, swapped0, f + 1, f + 1, r + 1)
  {
    forall g, p, q | InPlaceAt(fields, reflected, swapped0, g, p, q)
      ensures r + 1 < q || (r + 1 == q && g <= f + 1 <= p)
    {
      NoneHere(fields, reflected, swapped0, f, r, g, p, q);
    }
  }

  /** When the class is done, a name in place further on would follow a kept name the class does not have. */
  lemma NoneLeft<T(!new)>(fields: seq<T>, reflected: seq<T>, swapped0: seq<T>, ignored0: seq<T>, r: nat, x: T)
    requires r <= |reflected| && NonePassed(fields, reflected, swapped0, |fields|, r)
    requires Matched(fields, reflected, swapped0, ignored0, |fields|, r)
    requires Consistent(fields, reflected, swapped0, ignored0)
    ensures !InPlace(fields, reflected, swapped0, x)
  {
    hide Without;
    if InPlace(fields, reflected, swapped0, x) {
      var g, p, q :| InPlaceAt(fields, reflected, swapped0, g, p, q) && fields[p] == x;
      assert r < q;
      assert fields[..|fields|] == fields && reflected == reflected[..r] + reflected[r..];
      WithoutConcat(reflected[..r], reflected[r..], swapped0);
      assert reflected[q - 1] == reflected[r..][q - 1 - r];
      InWithout(reflected[r..], swapped0, reflected[q - 1]);
    }
  }

  lemma FoundInPlace<T>(fields: seq<T>, reflected: seq<T>, swapped0: seq<T>, g: int, f: nat, r: nat)
    requires f < |fields| && r < |reflected| && fields[f] == reflected[r] && fields[f] in swapped0
    requires JustMatched(fields, reflected, swapped0, g, f, r)
    ensures InPlace(fields, reflected, swapped0, fields[f])
  {
    assert InPlaceAt(fields, reflected, swapped0, g, f, r);
  }

  /** A swapped name that the reflection lacks, or an ignored one that it has. */
  lemma MarkedWrong<T(!new)>(fields: seq<T>, reflected: seq<T>, swapped0: seq<T>, ignored0: seq<T>, x: T)
    requires (x in swapped0 && x !in reflected) || (x in ignored0 && x in reflected)
    ensures !Consistent(fields, reflected, swapped0, ignored0)
  {
  }

  /** How each move leaves the kept names. */
  lemma MatchMoves<T(!new)>(fields: seq<T>, reflected: seq<T>, swapped0: seq<T>, ignored0: seq<T>, f: nat, r: nat)
    requires f < |fields| && r <= |reflected| && Matched(fields, reflected, swapped0, ignored0, f, r)
    ensures fields[f] in swapped0 || fields[f] in ignored0 ==>
      Matched(fields, reflected, swapped0, ignored0, f + 1, r)
    ensures r < |reflected| && reflected[r] in swapped0 ==> Matched(fields, reflected, swapped0, ignored0, f, r + 1)
    ensures r < |reflected| && reflected[r] == fields[f] && fields[f] !in swapped0 && fields[f] !in ignored0 ==>
      Matched(fields, reflected, swapped0, ignored0, f + 1, r + 1)
  {
    hide Without;
    WithoutLast(fields, f, swapped0 + ignored0);
    if r < |reflected| {
      WithoutLast(reflected, r, swapped0);
    }
  }

  // ---------- where the walk stands ----------

  /** The validator's lists: swaps not met yet, met in the class only or in the reflection only, and ignores. */
  datatype Pending<T> = Pending(swapped: seq<T>, back: seq<T>, fwd: seq<T>, ignored: seq<T>, used: seq<T>)

  /** What the markings are checked for before the walk. */
  ghost predicate WellMarked<T(!new)>(fields: seq<T>, reflected: seq<T>, swapped: seq<T>, ignored: seq<T>) {
    && Distinct(fields) && Distinct(reflected) && Distinct(swapped) && Distinct(ignored)
    && forall x :: x in swapped ==> x !in ignored
  }

  ghost predicate Walk<T(!new)>(fields: seq<T>, reflected: seq<T>, swapped0: seq<T>, ignored0: seq<T>,
                                f: nat, r: nat, p: Pending<T>) {
    && f <= |fields| && r <= |reflected|
    && Swaps(fields[..f], reflected[..r], swapped0, p.swapped, p.back, p.fwd)
    && Ignores(fields[..f], reflected[..r], ignored0, p.ignored, p.used)
    && Matched(fields, reflected, swapped0, ignored0, f, r)
    && NonePassed(fields, reflected, swapped0, f, r)
  }

  lemma WalkStarts<T(!new)>(fields: seq<T>, reflected: seq<T>, swapped0: seq<T>, ignored0: seq<T>)
    requires WellMarked(fields, reflected, swapped0, ignored0)
    ensures Walk(fields, reflected, swapped0, ignored0, 0, 0, Pending(swapped0, [], [], ignored0, []))
    ensures JustMatched(fields, reflected, swapped0, 0, 0, 0)
  {
  }

  /** What the lists say about the names at hand. */
  lemma AtHand<T(!new)>(fields: seq<T>, reflected: seq<T>, swapped0: seq<T>, ignored0: seq<T>,
                        f: nat, r: nat, p: Pending<T>)
    requires WellMarked(fields, reflected, swapped0, ignored0) && f < |fields|
    requires Walk(fields, reflected, swapped0, ignored0, f, r, p)
    ensures r <= |reflected| && Distinct(p.swapped) && Distinct(p.back) && Distinct(p.fwd) && Distinct(p.ignored)
    ensures Settled(fields, reflected, swapped0, f, r) <==> fields[f] !in p.swapped
    ensures fields[f] in swapped0 <==> fields[f] in p.swapped || fields[f] in p.fwd
    ensures fields[f] in ignored0 <==> fields[f] in p.ignored
    ensures r < |reflected| ==>
      && (reflected[r] in swapped0 <==> reflected[r] in p.swapped || reflected[r] in p.back)
      && (reflected[r] in p.used ==> reflected[r] in ignored0)
  {
    hide Matched, NonePassed;
    SeenNext(fields, f);
    if r < |reflected| {
      SeenNext(reflected, r);
    }
  }

  lemma MoveBack<T(!new)>(fields: seq<T>, reflected: seq<T>, swapped0: seq<T>, ignored0: seq<T>,
                          f: nat, r: nat, p: Pending<T>, g: int)
    requires WellMarked(fields, reflected, swapped0, ignored0) && f < |fields|
    requires Walk(fields, reflected, swapped0, ignored0, f, r, p) && fields[f] in p.swapped
    requires r < |reflected| ==> reflected[r] != fields[f]
    ensures Walk(fields, reflected, swapped0, ignored0, f + 1, r,
                 p.(swapped := Removed(p.swapped, fields[f]), back := p.back + [fields[f]]))
    ensures JustMatched(fields, reflected, swapped0, g, f, r) ==> JustMatched(fields, reflected, swapped0, g, f + 1, r)
  {
    hide Swaps, Ignores, Matched, NonePassed, JustMatched, Removed;
    AtHand(fields, reflected, swapped0, ignored0, f, r, p);
    assert fields[..f + 1] == fields[..f] + [fields[f]];
    PassSwap(fields, reflected, swapped0, f, r);
    SwapBack(fields[..f], reflected[..r], swapped0, p.swapped, p.back, p.fwd, fields[f]);
    KeepField(fields[..f], reflected[..r], ignored0, p.ignored, p.used, fields[f]);
    MatchMoves(fields, reflected, swapped0, ignored0, f, r);
  }

  lemma MoveForward<T(!new)>(fields: seq<T>, reflected: seq<T>, swapped0: seq<T>, ignored0: seq<T>,
                             f: nat, r: nat, p: Pending<T>)
    requires WellMarked(fields, reflected, swapped0, ignored0) && f < |fields| && r < |reflected|
    requires Walk(fields, reflected, swapped0, ignored0, f, r, p)
    requires fields[f] !in p.swapped && reflected[r] in p.swapped
    ensures Walk(fields, reflected, swapped0, ignored0, f, r + 1,
                 p.(swapped := Removed(p.swapped, reflected[r]), fwd := p.fwd + [reflected[r]]))
  {
    hide Swaps, Ignores, Matched, NonePassed, JustMatched, Removed;
    AtHand(fields, reflected, swapped0, ignored0, f, r, p);
    assert reflected[..r + 1] == reflected[..r] + [reflected[r]];
    PassSettled(fields, reflected, swapped0, f, r);
    SwapForward(fields[..f], reflected[..r], swapped0, p.swapped, p.back, p.fwd, reflected[r]);
    KeepField(fields[..f], reflected[..r], ignored0, p.ignored, p.used, reflected[r]);
    MatchMoves(fields, reflected, swapped0, ignored0, f, r);
  }

  lemma MoveIgnored<T(!new)>(fields: seq<T>, reflected: seq<T>, swapped0: seq<T>, ignored0: seq<T>,
                             f: nat, r: nat, p: Pending<T>)
    requires WellMarked(fields, reflected, swapped0, ignored0) && f < |fields|
    requires Walk(fields, reflected, swapped0, ignored0, f, r, p)
    requires fields[f] !in p.swapped && fields[f] in p.ignored
    ensures Walk(fields, reflected, swapped0, ignored0, f + 1, r,
                 p.(ignored := Removed(p.ignored, fields[f]), used := p.used + [fields[f]]))
  {
    hide Swaps, Ignores, Matched, NonePassed, JustMatched, Removed;
    AtHand(fields, reflected, swapped0, ignored0, f, r, p);
    assert fields[..f + 1] == fields[..f] + [fields[f]];
    PassSettled(fields, reflected, swapped0, f, r);
    IgnoreField(fields[..f], reflected[..r], ignored0, p.ignored, p.used, fields[f]);
    PassField(fields[..f], reflected[..r], swapped0, p.swapped, p.back, p.fwd, fields[f]);
    MatchMoves(fields, reflected, swapped0, ignored0, f, r);
  }

  lemma MoveTakeBack<T(!new)>(fields: seq<T>, reflected: seq<T>, swapped0: seq<T>, ignored0: seq<T>,
                              f: nat, r: nat, p: Pending<T>)
    requires WellMarked(fields, reflected, swapped0, ignored0) && f < |fields| && r < |reflected|
    requires Walk(fields, reflected, swapped0, ignored0, f, r, p)
    requires fields[f] !in p.swapped && reflected[r] in p.back
    ensures Walk(fields, reflected, swapped0, ignored0, f, r + 1, p.(back := Removed(p.back, reflected[r])))
  {
    hide Swaps, Ignores, Matched, NonePassed, JustMatched, Removed;
    AtHand(fields, reflected, swapped0, ignored0, f, r, p);
    assert reflected[..r + 1] == reflected[..r] + [reflected[r]];
    PassSettled(fields, reflected, swapped0, f, r);
    TakeBack(fields[..f], reflected[..r], swapped0, p.swapped, p.back, p.fwd, reflected[r]);
    KeepField(fields[..f], reflected[..r], ignored0, p.ignored, p.used, reflected[r]);
    MatchMoves(fields, reflected, swapped0, ignored0, f, r);
  }

  lemma MoveTakeForward<T(!new)>(fields: seq<T>, reflected: seq<T>, swapped0: seq<T>, ignored0: seq<T>,
                                 f: nat, r: nat, p: Pending<T>)
    requires WellMarked(fields, reflected, swapped0, ignored0) && f < |fields|
    requires Walk(fields, reflected, swapped0, ignored0, f, r, p)
    requires fields[f] !in p.swapped && fields[f] in p.fwd
    ensures Walk(fields, reflected, swapped0, ignored0, f + 1, r, p.(fwd := Removed(p.fwd, fields[f])))
  {
    hide Swaps, Ignores, Matched, NonePassed, JustMatched, Removed;
    AtHand(fields, reflected, swapped0, ignored0, f, r, p);
    assert fields[..f + 1] == fields[..f] + [fields[f]];
    PassSettled(fields, reflected, swapped0, f, r);
    TakeForward(fields[..f], reflected[..r], swapped0, p.swapped, p.back, p.fwd, fields[f]);
    KeepField(fields[..f], reflected[..r], ignored0, p.ignored, p.used, fields[f]);
    MatchMoves(fields, reflected, swapped0, ignored0, f, r);
  }

  lemma MoveMatch<T(!new)>(fields: seq<T>, reflected: seq<T>, swapped0: seq<T>, ignored0: seq<T>,
                           f: nat, r: nat, p: Pending<T>)
    requires WellMarked(fields, reflected, swapped0, ignored0) && f < |fields| && r < |reflected|
    requires Walk(fields, reflected, swapped0, ignored0, f, r, p) && fields[f] == reflected[r]
    requires fields[f] !in p.swapped && fields[f] !in p.fwd && fields[f] !in p.ignored
    ensures Walk(fields, reflected, swapped0, ignored0, f + 1, r + 1, p)
    ensures JustMatched(fields, reflected, swapped0, f + 1, f + 1, r + 1)
  {
    hide Swaps, Ignores, Matched, NonePassed, JustMatched;
    AtHand(fields, reflected, swapped0, ignored0, f, r, p);
    var seenF, seenR, x := fields[..f], reflected[..r], fields[f];
    assert fields[..f + 1] == seenF + [x] && reflected[..r + 1] == seenR + [x];
    PassMatch(fields, reflected, swapped0, f, r);
    PassField(seenF, seenR, swapped0, p.swapped, p.back, p.fwd, x);
    PassField(seenF + [x], seenR, swapped0, p.swapped, p.back, p.fwd, x);
    KeepField(seenF, seenR, ignored0, p.ignored, p.used, x);
    KeepField(seenF + [x], seenR, ignored0, p.ignored, p.used, x);
    MatchMoves(fields, reflected, swapped0, ignored0, f, r);
  }

  /**
   * Walks both lists, then the rest of the reflection, as the validator does. It accepts exactly the consistent
   * reflections none of whose swapped names is in place.
   */
  method Validate<T(==,!new)>(fields: seq<T>, reflected: seq<T>, swapped0: seq<T>, ignored0: seq<T>)
    returns (v: Verdict<T>)
    requires WellMarked(fields, reflected, swapped0, ignored0)
    ensures v.Accepted? <==>
      Consistent(fields, reflected, swapped0, ignored0) && forall x :: !InPlace(fields, reflected, swapped0, x)
    ensures v.Rejected? ==> !Consistent(fields, reflected, swapped0, ignored0)
    ensures v.NeedlessSwap? ==> InPlace(fields, reflected, swapped0, v.field)
  {
    hide WellMarked, Walk, JustMatched, InPlace, Consistent, Removed, Distinct;
    var swapped, ignored := swapped0, ignored0;
    var back, fwd, used: seq<T> := [], [], [];
    WalkStarts(fields, reflected, swapped0, ignored0);
    var f, r := 0, 0;
    ghost var g, clean := 0, true;
    while f < |fields|
      invariant f <= |fields| && r <= |reflected|
      invariant Walk(fields, reflected, swapped0, ignored0, f, r, Pending(swapped, back, fwd, ignored, used))
      invariant clean ==> JustMatched(fields, reflected, swapped0, g, f, r)
      invariant clean || f == |fields| || r == |reflected| || fields[f] !in swapped || reflected[r] !in swapped
      decreases |fields| - f + |reflected| - r
    {
      var field := fields[f];
      ghost var p := Pending(swapped, back, fwd, ignored, used);
      AtHand(fields, reflected, swapped0, ignored0, f, r, p);
      if field in swapped {
        if field !in reflected {
          MarkedWrong(fields, reflected, swapped0, ignored0, field);
          return Rejected;
        }
        if r < |reflected| && reflected[r] == field {
          FoundInPlace(fields, reflected, swapped0, g, f, r);
          return NeedlessSwap(field);
        }
        MoveBack(fields, reflected, swapped0, ignored0, f, r, p, g);
        swapped := Removed(swapped, field);
        back := back + [field];
        f := f + 1;
      } else if r < |reflected| && reflected[r] in swapped {
        MoveForward(fields, reflected, swapped0, ignored0, f, r, p);
        clean := false;
        swapped := Removed(swapped, reflected[r]);
        fwd := fwd + [reflected[r]];
        r := r + 1;
      } else if r < |reflected| && reflected[r] in used {
        MarkedWrong(fields, reflected, swapped0, ignored0, reflected[r]);
        return Rejected;
      } else if field in ignored {
        if r < |reflected| && reflected[r] == field {
          MarkedWrong(fields, reflected, swapped0, ignored0, field);
          return Rejected;
        }
        MoveIgnored(fields, reflected, swapped0, ignored0, f, r, p);
        clean := false;
        ignored := Removed(ignored, field);
        used := used + [field];
        f := f + 1;
      } else if r < |reflected| && reflected[r] in back {
        MoveTakeBack(fields, reflected, swapped0, ignored0, f, r, p);
        clean := false;
        back := Removed(back, reflected[r]);
        r := r + 1;
      } else if field in fwd {
        MoveTakeForward(fields, reflected, swapped0, ignored0, f, r, p);
        clean := false;
        fwd := Removed(fwd, field);
        f := f + 1;
      } else {
        if !(r < |reflected| && reflected[r] == field) {
          Mismatch(fields, reflected, swapped0, ignored0, f, r, p);
          return Rejected;
        }
        MoveMatch(fields, reflected, swapped0, ignored0, f, r, p);
        g, clean := f + 1, true;
        f, r := f + 1, r + 1;
      }
    }
    WalkEnds(fields, reflected, swapped0, ignored0, r, Pending(swapped, back, fwd, ignored, used));
    v := Finish(fields, reflected, swapped0, ignored0, r, swapped, back, fwd, ignored, used);
  }

  /** Names at hand that differ and are on no list. */
  lemma Mismatch<T(!new)>(fields: seq<T>, reflected: seq<T>, swapped0: seq<T>, ignored0: seq<T>,
                          f: nat, r: nat, p: Pending<T>)
    requires WellMarked(fields, reflected, swapped0, ignored0) && f < |fields|
    requires Walk(fields, reflected, swapped0, ignored0, f, r, p)
    requires fields[f] !in p.swapped && fields[f] !in p.ignored && fields[f] !in p.fwd
    requires r < |reflected| ==>
      reflected[r] != fields[f] && reflected[r] !in p.swapped && reflected[r] !in p.back
    ensures !Consistent(fields, reflected, swapped0, ignored0)
  {
    AtHand(fields, reflected, swapped0, ignored0, f, r, p);
    MismatchIsInconsistent(fields, reflected, swapped0, ignored0, f, r);
  }

  /** With the class's fields seen, a consistent reflection has no swapped name in place. */
  lemma WalkEnds<T(!new)>(fields: seq<T>, reflected: seq<T>, swapped0: seq<T>, ignored0: seq<T>,
                          r: nat, p: Pending<T>)
    requires Walk(fields, reflected, swapped0, ignored0, |fields|, r, p)
    ensures Tail(fields, reflected, swapped0, ignored0, r, p)
    ensures Consistent(fields, reflected, swapped0, ignored0) ==>
      forall x :: !InPlace(fields, reflected, swapped0, x)
  {
    hide Swaps, Ignores, Matched, NonePassed, Consistent;
    assert fields[..|fields|] == fields;
    if Consistent(fields, reflected, swapped0, ignored0) {
      forall x ensures !InPlace(fields, reflected, swapped0, x) {
        NoneLeft(fields, reflected, swapped0, ignored0, r, x);
      }
    }
  }

  /** The class's fields are all seen, and the reflection's up to `r`. */
  ghost predicate Tail<T(!new)>(fields: seq<T>, reflected: seq<T>, swapped0: seq<T>, ignored0: seq<T>,
                                r: nat, p: Pending<T>) {
    && r <= |reflected|
    && Swaps(fields, reflected[..r], swapped0, p.swapped, p.back, p.fwd)
    && Ignores(fields, reflected[..r], ignored0, p.ignored, p.used)
    && Matched(fields, reflected, swapped0, ignored0, |fields|, r)
  }

  lemma TailDistinct<T(!new)>(fields: seq<T>, reflected: seq<T>, swapped0: seq<T>, ignored0: seq<T>,
                              r: nat, p: Pending<T>)
    requires Tail(fields, reflected, swapped0, ignored0, r, p)
    ensures Distinct(p.back)
  {
  }

  lemma TailTakes<T(!new)>(fields: seq<T>, reflected: seq<T>, swapped0: seq<T>, ignored0: seq<T>,
                           r: nat, p: Pending<T>)
    requires WellMarked(fields, reflected, swapped0, ignored0) && r < |reflected|
    requires Tail(fields, reflected, swapped0, ignored0, r, p) && reflected[r] in p.back
    ensures Tail(fields, reflected, swapped0, ignored0, r + 1, p.(back := Removed(p.back, reflected[r])))
  {
    hide Ignores, Matched, Removed;
    assert reflected[..r + 1] == reflected[..r] + [reflected[r]];
    StillMatched(fields, reflected, swapped0, ignored0, r);
    TakeBack(fields, reflected[..r], swapped0, p.swapped, p.back, p.fwd, reflected[r]);
    KeepField(fields, reflected[..r], ignored0, p.ignored, p.used, reflected[r]);
  }

  /** The rest of the reflection may only hold names swapped back, and every marking must be used up. */
  method Finish<T(==,!new)>(fields: seq<T>, reflected: seq<T>, ghost swapped0: seq<T>, ghost ignored0: seq<T>, r0: nat,
                            swapped: seq<T>, back0: seq<T>, fwd: seq<T>, ignored: seq<T>, ghost used: seq<T>)
    returns (v: Verdict<T>)
    requires WellMarked(fields, reflected, swapped0, ignored0)
    requires Tail(fields, reflected, swapped0, ignored0, r0, Pending(swapped, back0, fwd, ignored, used))
    ensures v.Accepted? <==> Consistent(fields, reflected, swapped0, ignored0)
    ensures v.Rejected? <==> !Consistent(fields, reflected, swapped0, ignored0)
  {
    if ignored != [] {
      IgnoredUnused(fields, reflected, swapped0, ignored0, r0, ignored, used);
      return Rejected;
    }
    hide WellMarked, Tail, Consistent, Removed, Distinct;
    TailDistinct(fields, reflected, swapped0, ignored0, r0, Pending(swapped, back0, fwd, ignored, used));
    var r, back := r0, back0;
    var unused: seq<T> := [];
    while r < |reflected|
      invariant r <= |reflected| && Distinct(back)
      invariant if unused == []
        then Tail(fields, reflected, swapped0, ignored0, r, Pending(swapped, back, fwd, ignored, used))
        else !Consistent(fields, reflected, swapped0, ignored0)
    {
      var x := reflected[r];
      if unused == [] {
        if x in back {
          TailTakes(fields, reflected, swapped0, ignored0, r, Pending(swapped, back, fwd, ignored, used));
        } else {
          LeftoverRejected(fields, reflected, swapped0, ignored0, r, Pending(swapped, back, fwd, ignored, used));
        }
      }
      if x in back {
        back := Removed(back, x);
      } else {
        unused := unused + [x];
      }
      r := r + 1;
    }
    if unused != [] {
      return Rejected;
    }
    AllUsed(fields, reflected, swapped0, ignored0, Pending(swapped, back, fwd, ignored, used));
    return if swapped == [] && back == [] && fwd == [] then Accepted else Rejected;
  }

  /** Passing over a swapped name keeps the match. */
  lemma StillMatched<T(!new)>(fields: seq<T>, reflected: seq<T>, swapped0: seq<T>, ignored0: seq<T>, r: nat)
    requires r < |reflected| && reflected[r] in swapped0
    requires Matched(fields, reflected, swapped0, ignored0, |fields|, r)
    ensures Matched(fields, reflected, swapped0, ignored0, |fields|, r + 1)
  {
    WithoutLast(reflected, r, swapped0);
  }

  /** An ignored name that the class does not have. */
  lemma IgnoredUnused<T(!new)>(fields: seq<T>, reflected: seq<T>, swapped0: seq<T>, ignored0: seq<T>, r: nat,
                               ignored: seq<T>, used: seq<T>)
    requires r <= |reflected| && Ignores(fields, reflected[..r], ignored0, ignored, used) && ignored != []
    ensures !Consistent(fields, reflected, swapped0, ignored0)
  {
    assert ignored[0] in ignored;
  }

  /** A left-over name that is not a pending swap. */
  lemma LeftoverRejected<T(!new)>(fields: seq<T>, reflected: seq<T>, swapped0: seq<T>, ignored0: seq<T>, r: nat,
                                  p: Pending<T>)
    requires WellMarked(fields, reflected, swapped0, ignored0) && r < |reflected|
    requires Tail(fields, reflected, swapped0, ignored0, r, p) && reflected[r] !in p.back
    ensures !Consistent(fields, reflected, swapped0, ignored0)
  {
    SeenNext(reflected, r);
    if reflected[r] in swapped0 {
      assert reflected[r] !in fields;
    } else {
      LeftoverIsInconsistent(fields, reflected, swapped0, ignored0, r);
    }
  }

  /** With both lists seen, the markings were consistent exactly when no swap is pending. */
  lemma AllUsed<T(!new)>(fields: seq<T>, reflected: seq<T>, swapped0: seq<T>, ignored0: seq<T>, p: Pending<T>)
    requires Tail(fields, reflected, swapped0, ignored0, |reflected|, p) && p.ignored == []
    ensures Consistent(fields, reflected, swapped0, ignored0) <==> p.swapped == [] && p.back == [] && p.fwd == []
  {
    assert reflected[..|reflected|] == reflected;
    if p.swapped == [] && p.back == [] && p.fwd == [] {
      MatchedIsConsistent(fields, reflected, swapped0, ignored0);
    } else if p.swapped != [] {
      assert p.swapped[0] in p.swapped;
    } else if p.back != [] {
      assert p.back[0] in p.back;
    } else {
      assert p.fwd[0] in p.fwd;
    }
  }
}
