/**
 `PasswordGenerator.generate`: four flags select the classes, which are added
 to a fresh builder in the fixed order lowercase, uppercase, digits, symbols,
 and the builder is built.
 */
module PasswordGenerator {
  import opened Alphabets
  import opened PasswordBuilder
  import Shuffle

  /** Whether the flag of class `c` is set. */
  predicate IsEnabled(c: CharClass, useSymbols: bool, useNumbers: bool, useUppercase: bool, useLowercase: bool)
  {
    match c
    case Lower => useLowercase
    case Upper => useUppercase
    case Digit => useNumbers
    case Symbol => useSymbols
  }

  /** The position of a class in the order `generate` adds classes. */
  function Rank(c: CharClass): nat
  {
    match c
    case Lower => 0
    case Upper => 1
    case Digit => 2
    case Symbol => 3
  }

  /**
   The classes `generate` adds, in the order it adds them: exactly the enabled
   ones, each once, in the fixed order whatever the order of the parameters.
   */
  function EnabledClasses(useSymbols: bool, useNumbers: bool, useUppercase: bool, useLowercase: bool)
    : (classes: seq<CharClass>)
    ensures forall c :: c in classes <==> IsEnabled(c, useSymbols, useNumbers, useUppercase, useLowercase)
    ensures forall i, j :: 0 <= i < j < |classes| ==> Rank(classes[i]) < Rank(classes[j])
    ensures |classes| == 0 <==> !(useSymbols || useNumbers || useUppercase || useLowercase)
  {
    var classes :=
      (if useLowercase then [Lower] else [])
      + (if useUppercase then [Upper] else [])
      + (if useNumbers then [Digit] else [])
      + (if useSymbols then [Symbol] else []);
    forall c | true
      ensures c in classes <==> IsEnabled(c, useSymbols, useNumbers, useUppercase, useLowercase)
    {
      if c.Lower? { assert c == Lower; }
      else if c.Upper? { assert c == Upper; }
      else if c.Digit? { assert c == Digit; }
      else { assert c == Symbol; }
    }
    classes
  }

  /**
   The random source of one `generate` call: the draws of the `add_*` calls that
   found room, the filler draws of `build`, and the swap draws of the shuffle.
   */
  datatype Entropy = Entropy(picks: seq<nat>, fill: seq<nat>, shuffle: seq<nat>)

  /**
   The draws are what the source can return: each in range for what it samples,
   as many as are made. A non-positive length raises before any draw, and the
   `build` draws are made only once a class is selected.
   */
  predicate EntropyFits(length: int, classes: seq<CharClass>, e: Entropy)
  {
    length > 0 ==>
      && PicksFit(classes[..Min(|classes|, length)], e.picks)
      && (|classes| > 0 ==>
            && FillFits(Configured(length, classes, e.picks), e.fill)
            && Shuffle.ValidDraws(length, e.shuffle))
  }

  /** The builder `generate` builds, after the enabled `add_*` calls. */
  function Configured(length: int, classes: seq<CharClass>, picks: seq<nat>): (b: Builder)
    requires length > 0 && PicksFit(classes[..Min(|classes|, length)], picks)
    ensures b.length == length && Valid(b) && ForcedFromSet(b)
    ensures b.characterSet == Combined(classes)
    ensures Retained(b) == Drawn(classes[..Min(|classes|, length)], picks)
  {
    var b := AddAll(New(length).value, classes, picks);
    assert b.forcedChars == Drawn(classes[..Min(|classes|, length)], picks);
    b
  }

  /**
   `generate`: the length check of the constructor comes first, then the
   class check of `build`; on success the password has exactly `length` characters.
   */
  function Generate(length: int, useSymbols: bool, useNumbers: bool, useUppercase: bool, useLowercase: bool,
                    e: Entropy): (r: Result<string>)
    requires EntropyFits(length, EnabledClasses(useSymbols, useNumbers, useUppercase, useLowercase), e)
    ensures length <= 0 ==> r == Err(InvalidLength)
    ensures length > 0 && !(useSymbols || useNumbers || useUppercase || useLowercase)
      ==> r == Err(NoCharacterClassSelected)
    ensures r.Ok? <==> length > 0 && (useSymbols || useNumbers || useUppercase || useLowercase)
    ensures r.Ok? ==> |r.value| == length
  {
    match New(length)
    case Err(err) => Err(err)
    case Ok(_) =>
      var classes := EnabledClasses(useSymbols, useNumbers, useUppercase, useLowercase);
      var b := Configured(length, classes, e.picks);
      Build(b, e.fill, e.shuffle)
  }

  /**
   A successful `generate` returns a rearrangement of the forced draws of the
   first `length` enabled classes together with the filler drawn from the
   combined alphabet.
   */
  lemma GenerateContents(length: int, useSymbols: bool, useNumbers: bool, useUppercase: bool, useLowercase: bool,
                         e: Entropy)
    requires EntropyFits(length, EnabledClasses(useSymbols, useNumbers, useUppercase, useLowercase), e)
    requires length > 0 && (useSymbols || useNumbers || useUppercase || useLowercase)
    ensures var classes := EnabledClasses(useSymbols, useNumbers, useUppercase, useLowercase);
      var r := Generate(length, useSymbols, useNumbers, useUppercase, useLowercase, e);
      && r.Ok?
      && multiset(r.value)
         == multiset(Drawn(classes[..Min(|classes|, length)], e.picks)) + multiset(Filler(Combined(classes), e.fill))
  {
  }

  /**
   Class coverage with the truncation order made explicit: each of the first
   `length` enabled classes, in the order lowercase, uppercase, digits, symbols,
   has a character in the password.
   */
  lemma GenerateCoversFirstClasses(length: int, useSymbols: bool, useNumbers: bool, useUppercase: bool,
                                   useLowercase: bool, e: Entropy, k: nat)
    requires EntropyFits(length, EnabledClasses(useSymbols, useNumbers, useUppercase, useLowercase), e)
    requires k < Min(|EnabledClasses(useSymbols, useNumbers, useUppercase, useLowercase)|, length)
    ensures var r := Generate(length, useSymbols, useNumbers, useUppercase, useLowercase, e);
      && r.Ok?
      && exists i :: 0 <= i < |r.value|
           && r.value[i] in Alphabet(EnabledClasses(useSymbols, useNumbers, useUppercase, useLowercase)[k])
  {
    var classes := EnabledClasses(useSymbols, useNumbers, useUppercase, useLowercase);
    var r := Generate(length, useSymbols, useNumbers, useUppercase, useLowercase, e);
    var b := Configured(length, classes, e.picks);
    assert r == Build(b, e.fill, e.shuffle);
    var kept := Retained(b);
    assert kept[k] in Alphabet(classes[k]);
    assert kept[k] in r.value;
    var i :| 0 <= i < |r.value| && r.value[i] == kept[k];
  }

  /** When no more classes are enabled than `length`, every enabled class has a character in the password. */
  lemma GenerateCoversEnabled(length: int, useSymbols: bool, useNumbers: bool, useUppercase: bool,
                              useLowercase: bool, e: Entropy, c: CharClass)
    requires EntropyFits(length, EnabledClasses(useSymbols, useNumbers, useUppercase, useLowercase), e)
    requires IsEnabled(c, useSymbols, useNumbers, useUppercase, useLowercase)
    requires |EnabledClasses(useSymbols, useNumbers, useUppercase, useLowercase)| <= length
    ensures var r := Generate(length, useSymbols, useNumbers, useUppercase, useLowercase, e);
      && r.Ok?
      && exists i :: 0 <= i < |r.value| && r.value[i] in Alphabet(c)
  {
    var classes := EnabledClasses(useSymbols, useNumbers, useUppercase, useLowercase);
    var k :| 0 <= k < |classes| && classes[k] == c;
    GenerateCoversFirstClasses(length, useSymbols, useNumbers, useUppercase, useLowercase, e, k);
  }

  /** Every character of a generated password belongs to an enabled class. */
  lemma GenerateOnlyEnabled(length: int, useSymbols: bool, useNumbers: bool, useUppercase: bool,
                            useLowercase: bool, e: Entropy)
    requires EntropyFits(length, EnabledClasses(useSymbols, useNumbers, useUppercase, useLowercase), e)
    ensures var r := Generate(length, useSymbols, useNumbers, useUppercase, useLowercase, e);
      r.Ok? ==> forall i :: 0 <= i < |r.value| ==>
        exists c :: IsEnabled(c, useSymbols, useNumbers, useUppercase, useLowercase) && r.value[i] in Alphabet(c)
  {
    var classes := EnabledClasses(useSymbols, useNumbers, useUppercase, useLowercase);
    var r := Generate(length, useSymbols, useNumbers, useUppercase, useLowercase, e);
    if r.Ok? {
      var b := Configured(length, classes, e.picks);
      assert r == Build(b, e.fill, e.shuffle);
      BuildFromAddsWithinCharacterSet(b, e.fill, e.shuffle);
      forall i | 0 <= i < |r.value|
        ensures exists c :: IsEnabled(c, useSymbols, useNumbers, useUppercase, useLowercase) && r.value[i] in Alphabet(c)
      {
        CombinedMembership(classes, r.value[i]);
        var k :| 0 <= k < |classes| && r.value[i] in Alphabet(classes[k]);
        assert classes[k] in classes;
      }
    }
  }

  /** A disabled class has no character in a generated password. */
  lemma GenerateExcludesDisabled(length: int, useSymbols: bool, useNumbers: bool, useUppercase: bool,
                                 useLowercase: bool, e: Entropy, c: CharClass)
    requires EntropyFits(length, EnabledClasses(useSymbols, useNumbers, useUppercase, useLowercase), e)
    requires !IsEnabled(c, useSymbols, useNumbers, useUppercase, useLowercase)
    ensures var r := Generate(length, useSymbols, useNumbers, useUppercase, useLowercase, e);
      r.Ok? ==> forall i :: 0 <= i < |r.value| ==> r.value[i] !in Alphabet(c)
  {
    var r := Generate(length, useSymbols, useNumbers, useUppercase, useLowercase, e);
    GenerateOnlyEnabled(length, useSymbols, useNumbers, useUppercase, useLowercase, e);
    if r.Ok? {
      forall i | 0 <= i < |r.value|
        ensures r.value[i] !in Alphabet(c)
      {
        var d :| IsEnabled(d, useSymbols, useNumbers, useUppercase, useLowercase) && r.value[i] in Alphabet(d);
        AlphabetsDisjoint(c, d, r.value[i]);
      }
    }
  }

  /**
   All four classes at length 4: the source draws one character per class, no
   filler and three swaps. The password has exactly four characters, and since
   the four forced draws fit, one of each class.
   */
  lemma GenerateAllClassesAtLengthFour(e: Entropy, c: CharClass)
    requires PicksFit([Lower, Upper, Digit, Symbol], e.picks)
    requires e.fill == [] && Shuffle.ValidDraws(4, e.shuffle)
    ensures var r := Generate(4, true, true, true, true, e);
      && r.Ok? && |r.value| == 4
      && exists i :: 0 <= i < 4 && r.value[i] in Alphabet(c)
  {
    var classes := EnabledClasses(true, true, true, true);
    assert classes == [Lower, Upper, Digit, Symbol];
    assert classes[..Min(|classes|, 4)] == classes;
    var b := Configured(4, classes, e.picks);
    assert |Retained(b)| == 4;
    assert FillFits(b, e.fill);
    GenerateCoversEnabled(4, true, true, true, true, e, c);
  }
}
