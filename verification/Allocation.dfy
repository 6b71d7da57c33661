/**
 Which subdomain a connecting client gets.  `live` is the key set of the host's client
 map: lower-cased names, reserved or published.
 */
module Allocation {
  import opened Ascii
  import opened Protocol

  const FALLBACK_WORDS: seq<string> := [
    "apple", "banana", "cherry", "date", "elderberry", "fig", "grape", "honeydew",
    "alpha", "beta", "gamma", "delta", "epsilon", "zeta", "eta", "theta"]

  const ATTEMPTS := 1000

  // One word-and-number draw: an index into the words and a number from 1 to 999.
  type Draw = d: (nat, nat) | d.0 < 16 && 1 <= d.1 <= 999 witness (0, 1)

  function DrawnName(d: Draw): string { FALLBACK_WORDS[d.0] + Itoa(d.1) }

  predicate IsHeld(live: set<string>, name: string) { Lower(name) in live }

  // The requested name is a pool member, ignoring case, and nobody holds it.
  ghost predicate WantedIsFree(pool: seq<string>, live: set<string>, requested: string) {
    && requested != ""
    && !IsHeld(live, requested)
    && exists j | 0 <= j < |pool| :: EqualFold(pool[j], requested)
  }

  ghost predicate FirstWanted(pool: seq<string>, requested: string, i: nat)
    requires i < |pool|
  {
    EqualFold(pool[i], requested) && forall j | 0 <= j < i :: !EqualFold(pool[j], requested)
  }

  ghost predicate FirstFree(pool: seq<string>, live: set<string>, i: nat)
    requires i < |pool|
  {
    !IsHeld(live, pool[i]) && forall j | 0 <= j < i :: IsHeld(live, pool[j])
  }

  ghost predicate PoolChoice(pool: seq<string>, live: set<string>, requested: string, i: nat) {
    && i < |pool|
    && if WantedIsFree(pool, live, requested) then FirstWanted(pool, requested, i) else FirstFree(pool, live, i)
  }

  ghost predicate FirstFreeDraw(live: set<string>, draws: seq<Draw>, i: nat) {
    && i < |draws|
    && !IsHeld(live, DrawnName(draws[i]))
    && forall j | 0 <= j < i :: IsHeld(live, DrawnName(draws[j]))
  }

  // The allocation policy: what the host answers, None being an error.
  ghost predicate Assigned(pool: seq<string>, live: set<string>, requested: string, draws: seq<Draw>,
                           r: Option<string>) {
    if pool != [] then
      match r
      case None => forall i | 0 <= i < |pool| :: IsHeld(live, pool[i])
      case Some(name) => exists i: nat :: PoolChoice(pool, live, requested, i) && pool[i] == name
    else if requested != "" then
      r == if IsHeld(live, requested) then None else Some(requested)
    else
      match r
      case None => forall i | 0 <= i < |draws| :: IsHeld(live, DrawnName(draws[i]))
      case Some(name) => exists i: nat :: FirstFreeDraw(live, draws, i) && DrawnName(draws[i]) == name
  }

  lemma ChoiceIsFree(pool: seq<string>, live: set<string>, requested: string, i: nat)
    requires PoolChoice(pool, live, requested, i)
    ensures !IsHeld(live, pool[i])
  {
    LowerDecidesEqualFold(pool[i], requested);
  }

  // A name handed out was not held, and in pool mode is spelled as the pool spells it.
  lemma AssignedIsFree(pool: seq<string>, live: set<string>, requested: string, draws: seq<Draw>, name: string)
    requires Assigned(pool, live, requested, draws, Some(name))
    ensures !IsHeld(live, name)
    ensures pool != [] ==> name in pool
  {
    if pool != [] {
      var i: nat :| PoolChoice(pool, live, requested, i) && pool[i] == name;
      ChoiceIsFree(pool, live, requested, i);
    }
  }

  // Pool mode hands out the first free member, in the pool's order, unless the requested one
  // is free.
  lemma PoolGivesFirstFree(pool: seq<string>, live: set<string>, requested: string, draws: seq<Draw>, name: string)
    requires pool != [] && Assigned(pool, live, requested, draws, Some(name))
    requires requested == "" || forall j | 0 <= j < |pool| :: EqualFold(pool[j], requested) ==> Lower(pool[j]) in live
    ensures exists i | 0 <= i < |pool| ::
              && pool[i] == name && Lower(name) !in live
              && forall j | 0 <= j < i :: Lower(pool[j]) in live
  {
    var i: nat :| PoolChoice(pool, live, requested, i) && pool[i] == name;
    ChoiceIsFree(pool, live, requested, i);
    assert FirstFree(pool, live, i);
  }

  // Pool mode fails exactly when no pool member is free.
  lemma PoolIsComplete(pool: seq<string>, live: set<string>, requested: string, draws: seq<Draw>, r: Option<string>)
    requires pool != [] && Assigned(pool, live, requested, draws, r)
    ensures r.Some? <==> exists i | 0 <= i < |pool| :: !IsHeld(live, pool[i])
  {
    if r.Some? {
      var i: nat :| PoolChoice(pool, live, requested, i) && pool[i] == r.value;
      ChoiceIsFree(pool, live, requested, i);
    }
  }

  // A free requested pool member is honoured whatever its case.
  lemma PoolHonoursRequest(pool: seq<string>, live: set<string>, requested: string, draws: seq<Draw>, r: Option<string>)
    requires pool != [] && Assigned(pool, live, requested, draws, r)
    requires WantedIsFree(pool, live, requested)
    ensures r.Some? && EqualFold(r.value, requested)
  {
    var j :| 0 <= j < |pool| && EqualFold(pool[j], requested);
    LowerDecidesEqualFold(pool[j], requested);
    assert !IsHeld(live, pool[j]);
  }

  // Dynamic mode fails only when the requested name, or every drawn name, is held.
  lemma DynamicFailure(live: set<string>, requested: string, draws: seq<Draw>, r: Option<string>)
    requires Assigned([], live, requested, draws, r)
    ensures r.None? <==> if requested != "" then IsHeld(live, requested)
                         else forall i | 0 <= i < |draws| :: IsHeld(live, DrawnName(draws[i]))
  {
    if requested == "" && r.Some? {
      var i: nat :| FirstFreeDraw(live, draws, i) && DrawnName(draws[i]) == r.value;
    }
  }

  // What the comments on assignSubdomain promise without a pool: the requested name if it
  // is free, else a random one.
  ghost predicate Documented(live: set<string>, requested: string, draws: seq<Draw>, r: Option<string>) {
    if requested != "" && !IsHeld(live, requested) then r == Some(requested)
    else Assigned([], live, "", draws, r)
  }

  // The code keeps that promise exactly when no held name was requested, or when the random
  // draws would have failed as well.
  lemma FallbackOnlyWithoutRequest(live: set<string>, requested: string, draws: seq<Draw>, r: Option<string>)
    requires Assigned([], live, requested, draws, r)
    ensures Documented(live, requested, draws, r)
            <==> || requested == ""
                 || !IsHeld(live, requested)
                 || forall i | 0 <= i < |draws| :: IsHeld(live, DrawnName(draws[i]))
  {}

  // A case in which it does not: "App" is requested while "app" is held and "apple1" is free.
  lemma FallbackIsMissing()
    ensures var draws := seq(ATTEMPTS, i => (0, 1));
            && Assigned([], {"app"}, "App", draws, None)
            && !Documented({"app"}, "App", draws, None)
  {
    var draws: seq<Draw> := seq(ATTEMPTS, i => (0, 1));
    assert Lower("App") == "app";
    assert |DrawnName(draws[0])| > 3;
    assert !IsHeld({"app"}, DrawnName(draws[0]));
  }

  // The policy has an answer for everyone.
  lemma {:induction false} FirstFreeDrawExists(live: set<string>, draws: seq<Draw>, n: nat)
    requires n <= |draws|
    ensures (forall i | 0 <= i < n :: IsHeld(live, DrawnName(draws[i]))) ||
            exists i: nat :: FirstFreeDraw(live, draws, i)
  {
    if n > 0 {
      FirstFreeDrawExists(live, draws, n - 1);
      if forall i | 0 <= i < n - 1 :: IsHeld(live, DrawnName(draws[i])) {
        assert !IsHeld(live, DrawnName(draws[n - 1])) ==> FirstFreeDraw(live, draws, n - 1);
      }
    }
  }

  lemma {:induction false} FirstWantedExists(pool: seq<string>, requested: string, n: nat)
    requires n <= |pool|
    ensures (forall i | 0 <= i < n :: !EqualFold(pool[i], requested)) ||
            exists i: nat :: i < |pool| && FirstWanted(pool, requested, i)
  {
    if n > 0 {
      FirstWantedExists(pool, requested, n - 1);
      if forall i | 0 <= i < n - 1 :: !EqualFold(pool[i], requested) {
        assert EqualFold(pool[n - 1], requested) ==> FirstWanted(pool, requested, n - 1);
      }
    }
  }

  lemma {:induction false} FirstFreeExists(pool: seq<string>, live: set<string>, n: nat)
    requires n <= |pool|
    ensures (forall i | 0 <= i < n :: IsHeld(live, pool[i])) || exists i: nat :: i < |pool| && FirstFree(pool, live, i)
  {
    if n > 0 {
      FirstFreeExists(pool, live, n - 1);
      if forall i | 0 <= i < n - 1 :: IsHeld(live, pool[i]) {
        assert !IsHeld(live, pool[n - 1]) ==> FirstFree(pool, live, n - 1);
      }
    }
  }

  lemma PoolChoiceExists(pool: seq<string>, live: set<string>, requested: string)
    ensures (exists i: nat :: PoolChoice(pool, live, requested, i)) ||
            forall i | 0 <= i < |pool| :: IsHeld(live, pool[i])
  {
    if WantedIsFree(pool, live, requested) {
      FirstWantedExists(pool, requested, |pool|);
      var i: nat :| i < |pool| && FirstWanted(pool, requested, i);
      assert PoolChoice(pool, live, requested, i);
    } else {
      FirstFreeExists(pool, live, |pool|);
      if i: nat :| i < |pool| && FirstFree(pool, live, i) {
        assert PoolChoice(pool, live, requested, i);
      }
    }
  }

  lemma AssignedExists(pool: seq<string>, live: set<string>, requested: string, draws: seq<Draw>)
    ensures exists r :: Assigned(pool, live, requested, draws, r)
  {
    if pool != [] {
      PoolChoiceExists(pool, live, requested);
      if i: nat :| PoolChoice(pool, live, requested, i) {
        assert Assigned(pool, live, requested, draws, Some(pool[i]));
      } else {
        assert Assigned(pool, live, requested, draws, None);
      }
    } else if requested != "" {
      assert Assigned(pool, live, requested, draws, if IsHeld(live, requested) then None else Some(requested));
    } else {
      FirstFreeDrawExists(live, draws, |draws|);
      if i: nat :| FirstFreeDraw(live, draws, i) {
        assert Assigned(pool, live, requested, draws, Some(DrawnName(draws[i])));
      } else {
        assert Assigned(pool, live, requested, draws, None);
      }
    }
  }

  // The policy leaves the host no choice.
  lemma AssignedIsDeterministic(pool: seq<string>, live: set<string>, requested: string, draws: seq<Draw>,
                                r: Option<string>, r': Option<string>)
    requires Assigned(pool, live, requested, draws, r)
    requires Assigned(pool, live, requested, draws, r')
    ensures r == r'
  {
    if pool != [] {
      PoolIsComplete(pool, live, requested, draws, r);
      PoolIsComplete(pool, live, requested, draws, r');
      if r.Some? {
        var i: nat :| PoolChoice(pool, live, requested, i) && pool[i] == r.value;
        var j: nat :| PoolChoice(pool, live, requested, j) && pool[j] == r'.value;
        assert i == j;
      }
    } else if requested == "" {
      DynamicFailure(live, requested, draws, r);
      DynamicFailure(live, requested, draws, r');
      if r.Some? {
        var i: nat :| FirstFreeDraw(live, draws, i) && DrawnName(draws[i]) == r.value;
        var j: nat :| FirstFreeDraw(live, draws, j) && DrawnName(draws[j]) == r'.value;
        assert i == j;
      }
    }
  }

  lemma WordsAreDistinct(i: nat, j: nat)
    requires i < j < 16
    ensures FALLBACK_WORDS[i] != FALLBACK_WORDS[j]
  {
    var v, w := FALLBACK_WORDS[i], FALLBACK_WORDS[j];
    assert |v| != |w| || v[0] != w[0] || v[1] != w[1];
  }

  lemma WordsHaveNoDigits(i: nat)
    requires i < 16
    ensures forall k | 0 <= k < |FALLBACK_WORDS[i]| :: 'a' <= FALLBACK_WORDS[i][k] <= 'z'
    ensures |FALLBACK_WORDS[i]| > 0
  {}

  lemma DrawnNamesAreLower(d: Draw)
    ensures Lower(DrawnName(d)) == DrawnName(d)
  {
    var word, name := FALLBACK_WORDS[d.0], DrawnName(d);
    WordsHaveNoDigits(d.0);
    forall i | 0 <= i < |name| ensures LowerChar(name[i]) == name[i] {
      assert name[i] == if i < |word| then word[i] else Itoa(d.1)[i - |word|];
    }
  }

  lemma DrawnNamesAreSpelled()
    ensures DrawnName((0, 1)) == "apple1" && DrawnName((7, 40)) == "honeydew40" && DrawnName((15, 999)) == "theta999"
    ensures |FALLBACK_WORDS| == 16
  {
    ItoaIsDecimal(0, 1);
    ItoaIsDecimal(4, 0);
    ItoaIsDecimal(0, 4);
    ItoaIsDecimal(99, 9);
    ItoaIsDecimal(9, 9);
  }

  // Different words or numbers never give names equal up to case.
  lemma DrawnNamesAreInjective(d: Draw, e: Draw)
    requires EqualFold(DrawnName(d), DrawnName(e))
    ensures d == e
  {
    LowerDecidesEqualFold(DrawnName(d), DrawnName(e));
    DrawnNamesAreLower(d);
    DrawnNamesAreLower(e);
    WordsHaveNoDigits(d.0);
    WordsHaveNoDigits(e.0);
    TrimDigitsSplits(FALLBACK_WORDS[d.0], Itoa(d.1));
    TrimDigitsSplits(FALLBACK_WORDS[e.0], Itoa(e.1));
    if d.0 < e.0 {
      WordsAreDistinct(d.0, e.0);
    } else if e.0 < d.0 {
      WordsAreDistinct(e.0, d.0);
    }
    var n := |FALLBACK_WORDS[d.0]|;
    assert DrawnName(d)[n..] == Itoa(d.1) && DrawnName(e)[n..] == Itoa(e.1);
    AtoiItoa(d.1);
    AtoiItoa(e.1);
  }

  const DRAWS := 16 * 999

  // The draws in order, and their keys.
  function DrawAt(i: nat): Draw { (i / 999 % 16, i % 999 + 1) }

  function KeyOfDraw(i: nat): string { Lower(DrawnName(DrawAt(i))) }

  lemma DrawKeysDiffer(i: nat, j: nat)
    requires i < j < DRAWS
    ensures KeyOfDraw(i) != KeyOfDraw(j)
  {
    LowerDecidesEqualFold(DrawnName(DrawAt(i)), DrawnName(DrawAt(j)));
    if EqualFold(DrawnName(DrawAt(i)), DrawnName(DrawAt(j))) {
      DrawnNamesAreInjective(DrawAt(i), DrawAt(j));
    }
  }

  function Image(f: nat -> string, n: nat): set<string> { set i: nat | i < n :: f(i) }

  lemma {:induction false} ImageCount(f: nat -> string, n: nat)
    requires forall i: nat, j: nat | i < j < n :: f(i) != f(j)
    ensures |Image(f, n)| == n
  {
    if n == 0 {
      assert Image(f, n) == {};
    } else {
      ImageCount(f, n - 1);
      assert Image(f, n) == Image(f, n - 1) + {f(n - 1)};
    }
  }

  function AllKeys(): set<string> { Image(KeyOfDraw, DRAWS) }

  lemma DrawsHaveOwnKeys()
    ensures |AllKeys()| == 15984
  {
    forall i: nat, j: nat | i < j < DRAWS ensures KeyOfDraw(i) != KeyOfDraw(j) { DrawKeysDiffer(i, j); }
    ImageCount(KeyOfDraw, DRAWS);
  }

  lemma {:induction false} SubsetIsSmaller<T>(a: set<T>, b: set<T>)
    requires a <= b
    ensures |a| <= |b|
  {
    if a != {} {
      var x :| x in a;
      SubsetIsSmaller(a - {x}, b - {x});
    }
  }

  lemma DrawIsNumbered(d: Draw)
    ensures DrawAt(999 * d.0 + d.1 - 1) == d && 999 * d.0 + d.1 - 1 < DRAWS
  {}

  lemma DrawHasKey(d: Draw)
    ensures IsHeld(AllKeys(), DrawnName(d))
  {
    DrawIsNumbered(d);
    var i := 999 * d.0 + d.1 - 1;
    assert KeyOfDraw(i) in Image(KeyOfDraw, DRAWS);
  }

  lemma KeysAreDrawn(live: set<string>)
    requires forall d: Draw :: IsHeld(live, DrawnName(d))
    ensures AllKeys() <= live
  {
    forall key | key in AllKeys() ensures key in live {
      var i: nat :| i < DRAWS && KeyOfDraw(i) == key;
      assert IsHeld(live, DrawnName(DrawAt(i)));
    }
  }

  // The generator can name 15984 clients: while fewer names are held, some draw is free, and
  // that many may be needed before none is.
  lemma FewerThanAllDrawsHeld(live: set<string>)
    ensures |live| < 15984 ==> exists d: Draw :: !IsHeld(live, DrawnName(d))
    ensures |AllKeys()| == 15984 && forall d: Draw :: IsHeld(AllKeys(), DrawnName(d))
  {
    DrawsHaveOwnKeys();
    if forall d: Draw :: IsHeld(live, DrawnName(d)) {
      KeysAreDrawn(live);
      SubsetIsSmaller(AllKeys(), live);
    }
    forall d: Draw ensures IsHeld(AllKeys(), DrawnName(d)) { DrawHasKey(d); }
  }
}
