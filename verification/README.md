# Password builder and generator, modelled in Dafny

This project models the password logic of a small desktop password generator.
It covers `PasswordBuilder` and `PasswordGenerator.generate` from
`utils/password_generator.py`.

A builder is a record `(length, characterSet, forcedChars)`:

- The constructor rejects a non-positive length.
- Each `add_*` call appends one fixed ASCII alphabet to the character set. While
  fewer than `length` characters are forced, it also forces one character drawn
  from that alphabet.
- `build` rejects an empty character set. Otherwise it keeps the first `length`
  forced characters, pads them to `length` with characters drawn from the
  character set, and shuffles the result.
- `generate` maps its four flags onto `add_*` calls in the fixed order
  lowercase, uppercase, digits, symbols, then calls `build`.

Files and modules:

- `alphabets.dfy` (`Alphabets`): the four character classes and their alphabets.
  These are Python's `string.ascii_lowercase`, `string.ascii_uppercase`,
  `string.digits` and `string.punctuation`. Each is a constant built from runs
  of consecutive ASCII code points, and is proved equal to Python's literal
  string. The module proves each alphabet equals its code range(s) and that the
  four alphabets are pairwise disjoint.
- `shuffle.dfy` (`Shuffle`): the shuffle `secrets.SystemRandom().shuffle`
  performs. This is CPython's `Random.shuffle`: Fisher–Yates from the back,
  swapping position `i` with a drawn `j` in `0..i`. It is given both as a
  function and as the in-place loop, and the two are proved equal. The module
  proves the shuffle keeps the multiset. It also proves every rearrangement is
  produced by some draws, so the model does not constrain the order.
- `password_builder.dfy` (`PasswordBuilder`): the builder record, its
  constructor (`New`), the four adders, runs of adders (`AddAll`) and `Build`.
  The four `add_*` methods differ only in their alphabet, so they are one
  function, `AddClass`, taking the class as a parameter.
- `password_generator.dfy` (`PasswordGenerator`): `Generate`, plus its
  coverage, exclusion and error-order properties.

Randomness is injected:

- Every `secrets.choice` becomes an index into the alphabet it samples. These
  are the `pick` of `AddClass` and the `fill` indices of `Build`.
- The shuffle is driven by a sequence of swap draws.
- `Generate` takes all three together as an `Entropy` value.
- Preconditions on these oracles demand only what the real source provides:
  an in-range index for each draw that is made, and exactly as many draws as are
  made. A non-positive length raises before any draw. An `add_*` call that finds
  no room draws nothing, so `picks` holds one draw for each of the first
  `min(#enabled, length)` enabled classes only. The filler and shuffle draws are
  constrained only when a class is selected, so the error paths stay callable
  with no draws at all.

The two `ValueError`s become the error kinds `InvalidLength` and
`NoCharacterClassSelected` of a `Result`.

Two consequences of the code worth stating:

- Forced characters are bounded twice. `add_*` draws only while fewer than
  `length` characters are forced (utils/password_generator.py:17,24,31,38), and
  `build` truncates again with `forced_chars[:length]`
  (utils/password_generator.py:48). The second bound matters only for a builder
  whose forced characters were set directly (`BuildTruncatesExcessForced`).
- At length 4 with all four classes enabled, all four forced draws fit, so every
  class always appears in the password (`GenerateAllClassesAtLengthFour`).

## Model

| member | source | states |
|---|---|---|
| Alphabets.AlphabetLiterals | utils/password_generator.py:16-37 | the four alphabets are exactly the strings `abc…z`, `ABC…Z`, `0123456789` and the ASCII punctuation string, in that order, so they have 26, 26, 10 and 32 characters |
| Alphabets.AlphabetIsRange | utils/password_generator.py:16-37 | each class alphabet is exactly the characters of its ASCII code range(s): a–z, A–Z, 0–9, and the four punctuation runs `!`–`/`, `:`–`@`, `[`–`` ` ``, `{`–`~` |
| Alphabets.AlphabetsDisjoint | utils/password_generator.py:16-37 | no character belongs to two different classes |
| Shuffle.FisherYatesPermutes | utils/password_generator.py:53 | for any valid draws the shuffle's result has the multiset of its input: it only reorders |
| Shuffle.ShuffleInPlace | utils/password_generator.py:53 | the in-place swap loop over the list computes the same permutation as the functional shuffle |
| Shuffle.DrawsFor | utils/password_generator.py:53 | every rearrangement of the input is the result of some valid sequence of draws, so the shuffle may produce any permutation |
| PasswordBuilder.New | utils/password_generator.py:7-12 | length <= 0 fails with the length error; otherwise the length is stored, the character set and the forced characters start empty, and the builder invariants hold |
| PasswordBuilder.AddClass | utils/password_generator.py:14-40 | an `add_*` call appends exactly its class alphabet; it forces the drawn character of that class only while fewer than `length` are forced, and needs a draw only then; it keeps `len(forced) <= length` and "forced characters lie in the character set" |
| PasswordBuilder.CombinedMembership | utils/password_generator.py:16-37 | a character is in the concatenated alphabets of a run of adds exactly when one of the added classes contains it |
| PasswordBuilder.AddAll | utils/password_generator.py:63-71 | after a run of `add_*` calls, the character set is the concatenation of their alphabets; only the first calls that found room make a draw, and the forced characters are exactly those draws, never more than `length`; "forced characters in the set" is preserved |
| PasswordBuilder.Retained | utils/password_generator.py:48 | `build` keeps a prefix of the forced characters of length `min(length, len(forced))` |
| PasswordBuilder.Build | utils/password_generator.py:42-54 | fails with the no-class error exactly when the character set is empty, whatever is forced; otherwise returns exactly `length` characters that are a permutation of the retained forced characters plus the filler; every retained forced character appears; every output character is retained or in the set |
| PasswordBuilder.BuildWithinCharacterSet | utils/password_generator.py:48-53 | when the retained forced characters lie in the character set, every output character does |
| PasswordBuilder.BuildFromAddsWithinCharacterSet | utils/password_generator.py:14-53 | when every forced character came from an `add_*` call (so lies in the character set), every output character is in the character set |
| PasswordBuilder.BuildTruncatesExcessForced | test/test_password_generator.py:55-61 | with five forced characters at length 4, `build` returns 4 characters, all in the character set, because the excess is cut off before padding |
| PasswordGenerator.EnabledClasses | utils/password_generator.py:63-71 | the classes added are exactly the enabled ones, each once, in the fixed order lowercase, uppercase, digits, symbols, independent of parameter order; none are added exactly when all flags are false |
| PasswordGenerator.Configured | utils/password_generator.py:63-71 | the builder `generate` builds has the combined alphabet of the enabled classes, and retains the draws of the first `min(#enabled, length)` of them |
| PasswordGenerator.Generate | utils/password_generator.py:60-73 | length <= 0 fails with the length error even when all flags are false; all flags false with a positive length fails with the no-class error; it succeeds exactly otherwise, with exactly `length` characters |
| PasswordGenerator.GenerateContents | utils/password_generator.py:63-73 | a generated password is a permutation of the retained forced draws plus filler from the combined alphabet |
| PasswordGenerator.GenerateCoversFirstClasses | utils/password_generator.py:63-73 | each of the first `length` enabled classes, in the fixed order, has a character in the password |
| PasswordGenerator.GenerateCoversEnabled | utils/password_generator.py:63-73 | when #enabled <= length, every enabled class has at least one character in the password |
| PasswordGenerator.GenerateOnlyEnabled | utils/password_generator.py:63-73 | every password character belongs to an enabled class |
| PasswordGenerator.GenerateExcludesDisabled | utils/password_generator.py:63-73 | a disabled class contributes no character to the password |
| PasswordGenerator.GenerateAllClassesAtLengthFour | utils/password_generator.py:60-73 | with all four classes at length 4, the password has 4 characters and contains every class |

## Left out

- The user interface (`ui/`), the UI constants in `utils/config.py` (slider bounds 4..32, default length 12) and the packaging script: presentation, clipboard and build plumbing with no password logic.
- Uniformity of `secrets.choice` and of the shuffle, and cryptographic strength: these are probabilistic properties of the operating system's entropy. The draws are modelled only as arbitrary in-range indices.
- Error messages: the two `ValueError` texts are represented by their two error kinds only.
- Mutation and chaining: the builder is an immutable record, so `add_*` returns a new builder instead of `self`.
- PasswordBuilder.Build: requires `length > 0`, the invariant the constructor establishes. With a non-positive `length` assigned to the field directly, Python's slice `forced_chars[:length]` would count from the end; that state is not modelled.
