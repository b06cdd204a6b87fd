/**
 `PasswordBuilder` as an immutable record `(length, characterSet, forcedChars)`
 with pure operations. Every call of `secrets.choice` is an injected index into
 the alphabet it samples; the final shuffle is `Shuffle.FisherYates` driven by
 injected draws.
 */
module PasswordBuilder {
  import opened Alphabets
  import Shuffle

  /** The two `ValueError`s the builder raises. */
  datatype BuildError = InvalidLength | NoCharacterClassSelected

  datatype Result<T> = Ok(value: T) | Err(error: BuildError)

  /**
   The builder's three attributes: the requested length, the concatenated
   alphabets of the classes added so far, and one forced character per add
   while there was room for it.
   */
  datatype Builder = Builder(length: int, characterSet: string, forcedChars: string)

  function Min(a: int, b: int): int
  {
    if a <= b then a else b
  }

  /** What the constructor establishes and every `add_*` keeps. */
  predicate Valid(b: Builder)
  {
    b.length > 0 && |b.forcedChars| <= b.length
  }

  /** Every forced character can also be drawn from the character set. */
  predicate ForcedFromSet(b: Builder)
  {
    forall i :: 0 <= i < |b.forcedChars| ==> b.forcedChars[i] in b.characterSet
  }

  /** The constructor: rejects a non-positive length, else an empty builder. */
  function New(length: int): (r: Result<Builder>)
    ensures r.Ok? <==> length > 0
    ensures r.Err? ==> r.error == InvalidLength
    ensures r.Ok? ==> r.value.length == length && Valid(r.value) && ForcedFromSet(r.value)
    ensures r.Ok? ==> |r.value.characterSet| == 0 && |r.value.forcedChars| == 0
  {
    if length <= 0 then Err(InvalidLength) else Ok(Builder(length, "", ""))
  }

  /**
   `add_lowercase`, `add_uppercase`, `add_numbers` and `add_symbols`: appends the
   class alphabet and, while fewer than `length` characters are forced, forces
   the one at index `pick` of that alphabet (the draw of `secrets.choice`).
   Without room no draw is made, so `pick` is then unconstrained and unused.
   */
  function AddClass(b: Builder, c: CharClass, pick: nat): (r: Builder)
    requires |b.forcedChars| < b.length ==> pick < |Alphabet(c)|
    ensures r.length == b.length
    ensures r.characterSet == b.characterSet + Alphabet(c)
    ensures |b.forcedChars| < b.length ==> r.forcedChars == b.forcedChars + [Alphabet(c)[pick]]
    ensures |b.forcedChars| >= b.length ==> r.forcedChars == b.forcedChars
    ensures Valid(b) ==> Valid(r)
    ensures ForcedFromSet(b) ==> ForcedFromSet(r)
  {
    var forced := if |b.forcedChars| < b.length then b.forcedChars + [Alphabet(c)[pick]] else b.forcedChars;
    Builder(b.length, b.characterSet + Alphabet(c), forced)
  }

  /** `picks[k]` is a draw from the alphabet of `classes[k]`. */
  predicate PicksFit(classes: seq<CharClass>, picks: seq<nat>)
  {
    && |picks| == |classes|
    && forall k :: 0 <= k < |classes| ==> picks[k] < |Alphabet(classes[k])|
  }

  /** The characters the draws select, one per class, before any is dropped for lack of room. */
  function Drawn(classes: seq<CharClass>, picks: seq<nat>): (d: string)
    requires PicksFit(classes, picks)
    ensures |d| == |classes|
    ensures forall k :: 0 <= k < |d| ==> d[k] in Alphabet(classes[k])
  {
    seq(|classes|, k requires 0 <= k < |classes| => Alphabet(classes[k])[picks[k]])
  }

  /** The alphabets of `classes` concatenated in order. */
  function Combined(classes: seq<CharClass>): (s: string)
    ensures |s| == 0 <==> |classes| == 0
  {
    if |classes| == 0 then "" else Alphabet(classes[0]) + Combined(classes[1..])
  }

  /** A character is in the combined alphabet exactly when one of the classes has it. */
  lemma {:induction false} CombinedMembership(classes: seq<CharClass>, ch: char)
    ensures ch in Combined(classes) <==> exists k :: 0 <= k < |classes| && ch in Alphabet(classes[k])
  {
    if |classes| > 0 {
      CombinedMembership(classes[1..], ch);
      if ch in Combined(classes[1..]) {
        var k :| 0 <= k < |classes[1..]| && ch in Alphabet(classes[1..][k]);
        assert ch in Alphabet(classes[k + 1]);
      }
      if exists k :: 0 <= k < |classes| && ch in Alphabet(classes[k]) {
        var k :| 0 <= k < |classes| && ch in Alphabet(classes[k]);
        if k > 0 {
          assert ch in Alphabet(classes[1..][k - 1]);
        }
      }
    }
  }

  /**
   A run of `add_*` calls, one per element of `classes`, in order. The character
   set grows by every alphabet. Only the first calls that still find room draw a
   forced character, so `picks` holds exactly those draws, and the forced
   characters never grow past `length`.
   */
  function AddAll(b: Builder, classes: seq<CharClass>, picks: seq<nat>): (r: Builder)
    requires |b.forcedChars| <= b.length
    requires PicksFit(classes[..Min(|classes|, b.length - |b.forcedChars|)], picks)
    ensures r.length == b.length
    ensures r.characterSet == b.characterSet + Combined(classes)
    ensures r.forcedChars == b.forcedChars + Drawn(classes[..Min(|classes|, b.length - |b.forcedChars|)], picks)
    ensures |r.forcedChars| <= r.length
    ensures ForcedFromSet(b) ==> ForcedFromSet(r)
    decreases |classes|
  {
    if |classes| == 0 then
      assert b.forcedChars + Drawn([], picks) == b.forcedChars;
      b
    else if |b.forcedChars| < b.length then
      var room := b.length - |b.forcedChars|;
      var made := classes[..Min(|classes|, room)];
      assert made[1..] == classes[1..][..Min(|classes| - 1, room - 1)];
      DrawnCons(made, picks);
      var next := AddClass(b, classes[0], picks[0]);
      var r := AddAll(next, classes[1..], picks[1..]);
      ConcatAssoc(b.characterSet, Alphabet(classes[0]), Combined(classes[1..]));
      ConcatAssoc(b.forcedChars, [Alphabet(classes[0])[picks[0]]], Drawn(made[1..], picks[1..]));
      r
    else
      // No room: this call and every later one make no draw.
      var next := AddClass(b, classes[0], 0);
      assert classes[1..][..0] == classes[..0];
      var r := AddAll(next, classes[1..], picks);
      ConcatAssoc(b.characterSet, Alphabet(classes[0]), Combined(classes[1..]));
      r
  }

  /** Concatenation is associative; stated once so the step of `AddAll` need not rediscover it. */
  lemma ConcatAssoc(x: string, y: string, z: string)
    ensures (x + y) + z == x + (y + z)
  {
  }

  /** The draws of a run are the first class's draw followed by the draws of the rest. */
  lemma DrawnCons(classes: seq<CharClass>, picks: seq<nat>)
    requires PicksFit(classes, picks) && |classes| > 0
    ensures PicksFit(classes[1..], picks[1..])
    ensures Drawn(classes, picks) == [Alphabet(classes[0])[picks[0]]] + Drawn(classes[1..], picks[1..])
  {
  }

  /** The forced characters `build` keeps: `forced_chars[:length]`. */
  function Retained(b: Builder): (kept: string)
    requires b.length > 0
    ensures |kept| <= b.length
    ensures |kept| == Min(b.length, |b.forcedChars|)
    ensures kept == b.forcedChars[..|kept|]
  {
    b.forcedChars[..Min(b.length, |b.forcedChars|)]
  }

  /** How many filler characters `build` draws. */
  function FillCount(b: Builder): nat
    requires b.length > 0
  {
    b.length - |Retained(b)|
  }

  /** `fill` holds the filler draws of `build`: one in-range index into the character set per missing character. */
  predicate FillFits(b: Builder, fill: seq<nat>)
    requires b.length > 0
  {
    && |fill| == FillCount(b)
    && forall k :: 0 <= k < |fill| ==> fill[k] < |b.characterSet|
  }

  /** The filler characters selected by the draws. */
  function Filler(characterSet: string, fill: seq<nat>): (f: string)
    requires forall k :: 0 <= k < |fill| ==> fill[k] < |characterSet|
    ensures |f| == |fill|
    ensures forall k :: 0 <= k < |f| ==> f[k] in characterSet
  {
    seq(|fill|, k requires 0 <= k < |fill| => characterSet[fill[k]])
  }

  /**
   `build`: fails on an empty character set whatever is forced; otherwise keeps
   the first `length` forced characters, pads them from the character set to
   `length`, and shuffles. The result is a rearrangement of exactly those
   characters, so every retained forced character survives.
   */
  function Build(b: Builder, fill: seq<nat>, draws: seq<nat>): (r: Result<string>)
    requires b.length > 0
    requires |b.characterSet| > 0 ==> FillFits(b, fill) && Shuffle.ValidDraws(b.length, draws)
    ensures r.Err? <==> |b.characterSet| == 0
    ensures r.Err? ==> r.error == NoCharacterClassSelected
    ensures r.Ok? ==> |r.value| == b.length
    ensures r.Ok? ==> multiset(r.value) == multiset(Retained(b)) + multiset(Filler(b.characterSet, fill))
    ensures r.Ok? ==> forall i :: 0 <= i < |Retained(b)| ==> Retained(b)[i] in r.value
    ensures r.Ok? ==> forall i :: 0 <= i < |r.value| ==> r.value[i] in Retained(b) || r.value[i] in b.characterSet
  {
    if |b.characterSet| == 0 then Err(NoCharacterClassSelected)
    else
      var kept := Retained(b);
      var filler := Filler(b.characterSet, fill);
      var password := kept + filler;
      var shuffled := Shuffle.FisherYates(password, draws);
      Shuffle.FisherYatesPermutes(password, draws);
      assert multiset(password) == multiset(kept) + multiset(filler);
      SameMembers(kept, password);
      SameMembers(password, shuffled);
      SameMembers(shuffled, password);
      assert forall ch :: ch in password ==> ch in kept || ch in filler;
      Ok(shuffled)
  }

  /** Every element of `s` occurs in `t` when `t` holds at least the multiset of `s`. */
  lemma SameMembers(s: string, t: string)
    requires multiset(s) <= multiset(t)
    ensures forall i :: 0 <= i < |s| ==> s[i] in t
  {
    forall i | 0 <= i < |s|
      ensures s[i] in t
    {
      assert s[i] in multiset(s);
    }
  }

  /**
   When every retained forced character belongs to the character set (as it does
   for a builder filled only by `add_*`), every output character does.
   */
  lemma BuildWithinCharacterSet(b: Builder, fill: seq<nat>, draws: seq<nat>)
    requires b.length > 0
    requires |b.characterSet| > 0 ==> FillFits(b, fill) && Shuffle.ValidDraws(b.length, draws)
    requires forall i :: 0 <= i < |Retained(b)| ==> Retained(b)[i] in b.characterSet
    ensures Build(b, fill, draws).Ok? ==>
      forall i :: 0 <= i < b.length ==> Build(b, fill, draws).value[i] in b.characterSet
  {
    var r := Build(b, fill, draws);
    if r.Ok? {
      forall i | 0 <= i < b.length
        ensures r.value[i] in b.characterSet
      {
        if r.value[i] in Retained(b) {
          var k :| 0 <= k < |Retained(b)| && Retained(b)[k] == r.value[i];
        }
      }
    }
  }

  /** For a builder whose forced characters all came from `add_*` calls, every output character is in the character set. */
  lemma BuildFromAddsWithinCharacterSet(b: Builder, fill: seq<nat>, draws: seq<nat>)
    requires b.length > 0 && ForcedFromSet(b)
    requires |b.characterSet| > 0 ==> FillFits(b, fill) && Shuffle.ValidDraws(b.length, draws)
    ensures Build(b, fill, draws).Ok? ==>
      forall i :: 0 <= i < b.length ==> Build(b, fill, draws).value[i] in b.characterSet
  {
    var kept := Retained(b);
    assert forall i :: 0 <= i < |kept| ==> kept[i] == b.forcedChars[i];
    BuildWithinCharacterSet(b, fill, draws);
  }

  /**
   A builder of length 4 with lowercase and uppercase added, whose forced
   characters are then overwritten with five characters, one of them a digit:
   `build` still returns four characters, all from the character set, because
   the digit is cut off with the excess.
   */
  lemma BuildTruncatesExcessForced(lowerPick: nat, upperPick: nat, draws: seq<nat>)
    requires lowerPick < |AsciiLowercase| && upperPick < |AsciiUppercase|
    requires Shuffle.ValidDraws(4, draws)
    ensures var b := AddClass(AddClass(New(4).value, Lower, lowerPick), Upper, upperPick).(forcedChars := "aBcD1");
      var r := Build(b, [], draws);
      && r.Ok? && |r.value| == 4
      && forall i :: 0 <= i < 4 ==> r.value[i] in b.characterSet
  {
    var b := AddClass(AddClass(New(4).value, Lower, lowerPick), Upper, upperPick).(forcedChars := "aBcD1");
    var kept := Retained(b);
    assert kept == "aBcD";
    AlphabetIsRange(Lower, 'a');
    AlphabetIsRange(Lower, 'c');
    AlphabetIsRange(Upper, 'B');
    AlphabetIsRange(Upper, 'D');
    forall i | 0 <= i < |kept|
      ensures kept[i] in b.characterSet
    {
      assert kept[i] in AsciiLowercase || kept[i] in AsciiUppercase;
    }
    BuildWithinCharacterSet(b, [], draws);
  }
}
