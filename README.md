# semantic-versioning in Dafny

A verified model of `semanticversioning.py`, a small Python version value
type. A version is a `(major, minor, patch)` triple. It is built by a
normaliser (`_parse`) from one of five input shapes: nothing, a dotted
string, a list or tuple, an integer, or a dictionary. It renders as
`"major.minor.patch"` and compares lexicographically (major, then minor, then
patch, as item 11 of Semantic Versioning 2.0.0 orders precedence). Every
relational operator is derived from one three-way `_compare`. The bump
operations follow items 6 to 8 of Semantic Versioning 2.0.0. Three module
helpers sit on top: `compare`, `max_version` and `min_version`.

Files and modules:

- `wrappers.dfy` (`Wrappers`): `Option` and `Result`.
- `atoms.dfy` (`Atoms`): `str.split` on a separator, `int()` on one atom,
  and `str()` of an integer, with their round trips.
- `normalizer.dfy` (`Normalizer`): the `Version` triple, the error variants,
  the `Input` shapes, `_from_iter`, `_from_int`, `_from_dict` (as a function
  and as the step-by-step method `FillDict`), `_from_str` and `_parse`, plus
  the defaulting lemmas.
- `versions.dfy` (`Versions`): `__str__`, `_convert`, `_compare`, the six
  operators and the bumps, with the total-order lemmas.
- `aggregates.dfy` (`Aggregates`): `compare`, and `max_version` /
  `min_version` as loops that mirror `functools.reduce`. It also holds the
  literal cases of the repository's tests. Three methods without contracts,
  `MaxVersionExample`, `MinVersionExample` and `TieAndErrorExamples`, check
  the max/min test cases and the tie and failure behaviour against the
  methods' contracts.

Modelling decisions:

- A `Version` is never changed after `__init__`, so it is a datatype. The
  `setattr` loop of `__init__` becomes a one-step construction from the
  normalised triple.
- `functools.singledispatch` becomes a `match` on the `Input` datatype. A
  Version instance on the right of an operator is the `Operand` variant
  `Existing`, and `_convert` is `Convert`.
- Python exceptions are `Error` variants. `UnsupportedType` is the TypeError
  of `_parse`. `TooManyComponents`, `NegativeInteger` and `BadAtom` are the
  ValueErrors. `NotComparable` is the NotImplementedError of `_compare`.
  `EmptyInput` is the TypeError that `functools.reduce` raises on an empty
  list.
- `compare(a, b)` converts `a` through `_convert` and not through `_compare`.
  So a bad first operand raises its own error, while a bad second operand
  raises NotImplementedError. `CompareAny` keeps this asymmetry, and so do
  the error contracts of `MaxVersion` and `MinVersion` (`FoldError`).
- Ties in `max_version` and `min_version`: the code keeps the accumulator
  when `compare >= 0` in `bigger`, and only when `compare < 0` in `smaller`.
  So max returns the FIRST of several equal maxima and min the LAST of
  several equal minima. The methods' ghost out-parameter `k` names the element
  kept. The value returned is the same either way.
- Non-negativity is not an invariant of the model. The code rejects only
  negative integers (line 39); `"-1.2"`, `[-1]` and `{"major": -1}` are
  accepted as they are.

## Model

| member | source | states |
|---|---|---|
| Atoms.Split | semanticversioning.py:14 | `str.split('.')`: at least one piece, no piece contains the separator, and joining the pieces gives the text back |
| Atoms.SplitJoin | semanticversioning.py:14 | splitting a join of separator-free pieces gives exactly those pieces |
| Atoms.ParseInt | semanticversioning.py:14 | `int()` on an atom succeeds exactly for a non-empty digit string, read as its decimal value, or a `-` followed by one, read as the negated value; everything else is rejected |
| Atoms.NonDigitRejected | semanticversioning.py:14 | an atom with any character that is neither a digit nor a leading `-` (`"x"`, `"1a"`, `"--1"`) is rejected |
| Atoms.NatToString | semanticversioning.py:66 | the digits of a natural number: non-empty, all digits, with that value, with no leading zero; 0 is exactly `"0"` |
| Atoms.IntToString | semanticversioning.py:66 | `str()` of an integer is non-empty, has no `.`, starts with `-` exactly for negatives, has digits with no leading zero after it (0 is exactly `"0"`), and reads back as the same integer |
| Normalizer.FromIter | semanticversioning.py:20-34 | a sequence fails exactly when it has more than three components, and then with the too-many-components ValueError |
| Normalizer.FromInt | semanticversioning.py:38-41 | an integer fails exactly when it is negative, and then with the non-negative ValueError |
| Normalizer.FromDict | semanticversioning.py:46-53 | given major/minor/patch keys are kept; a missing major or patch is 0; a missing minor is 1 exactly when the major is 0, and 0 otherwise |
| Normalizer.FillDict | semanticversioning.py:46-53 | the in-place filling leaves exactly the three keys, keeps every given one, and describes the same triple as FromDict |
| Normalizer.ParseAtoms | semanticversioning.py:14 | `map(int, ...)` succeeds exactly when every atom is an integer, and then gives their values in order; otherwise it fails with the first bad atom |
| Normalizer.FromStr | semanticversioning.py:12-15 | `_from_str` fails only with a bad atom or too many components; the first bad atom wins; too many components exactly when all atoms parse and there are more than three; success exactly when all atoms parse and there are at most three |
| Normalizer.Parse | semanticversioning.py:4-9 | every failure of `_parse` is a TypeError or ValueError; the TypeError happens exactly for unsupported shapes; None and dictionaries never fail |
| Normalizer.DefaultInputs | semanticversioning.py:7-50 | no argument, `[]`, `[0]`, `0` and `{}` all give 0.1.0 |
| Normalizer.ItemsPadWithZeros | semanticversioning.py:20-34 | any other sequence of one to three components gives those components padded with zeros, so `[0, 0]` is 0.0.0 |
| Normalizer.IntegerIsOneComponent | semanticversioning.py:38-41 | a non-negative integer n normalises as `[n]`, so n > 0 gives n.0.0 |
| Normalizer.MajorOnlyMappingIsInteger | semanticversioning.py:46-53 | `{"major": n}` normalises like the integer n |
| Normalizer.CompleteMapping | semanticversioning.py:46-53 | a dictionary naming all three fields gives exactly those fields |
| Normalizer.MappingIgnoresOtherKeys | semanticversioning.py:46 | keys other than major, minor and patch do not change the result |
| Normalizer.TextIsSplitIntoItems | semanticversioning.py:13-15 | by definition, a text whose atoms are integers normalises exactly like the sequence of those integers |
| Normalizer.EmptyAtomRejected | semanticversioning.py:14 | a text with an empty atom (`""`, a leading or trailing dot, two dots in a row) fails with a bad-atom ValueError |
| Normalizer.BadAtomRejected | semanticversioning.py:14 | a text with any atom that `int()` rejects fails with a bad-atom ValueError |
| Normalizer.AtomsOfIntegers | semanticversioning.py:14 | atoms written by `str()` are read back into the same integers |
| Normalizer.TextOfThree | semanticversioning.py:13-15 | `"a.b.c"` written from any three integers gives exactly (a, b, c) |
| Normalizer.SingleAtomText | semanticversioning.py:13-24 | one atom n gives n.0.0, except that `"0"` gives 0.1.0 |
| Normalizer.TwoAtomText | semanticversioning.py:13-34 | `"a.b"` gives a.b.0 |
| Normalizer.TextExamples | test_semver.py:6-19 | `"1.2.3"`, `"1.2"` and `"1"` give 1.2.3, 1.2.0 and 1.0.0 |
| Normalizer.BadTextExamples | semanticversioning.py:14 | `""` and `"1..2"` fail on the empty atom |
| Normalizer.NonIntegerTextExamples | semanticversioning.py:14 | `"1.x"` fails on `"x"` and `"--1"` fails on itself |
| Normalizer.ShapeExamples | test_semver.py:21-68 | the literal list, tuple, integer and dictionary cases of the tests, plus `[0, 0]`, a four-component list and -1 |
| Versions.Render | semanticversioning.py:65-66 | the rendering is three dot-separated atoms, one per field, and normalising it gives the same version back |
| Versions.TextRoundTrip | semanticversioning.py:13-15 | a text of three dot-separated integers normalises, and renders back as exactly that text |
| Versions.OneAtomRendersPadded | semanticversioning.py:13-15 | a one-atom text "n" renders as "n.0.0", except "0", which renders as "0.1.0" |
| Versions.TwoAtomsRenderPadded | semanticversioning.py:13-15 | a two-atom text "a.b" renders as "a.b.0" |
| Versions.Compare | semanticversioning.py:81-93 | the three-way result is -1, 0 or 1, and 0 exactly for equal versions |
| Versions.CompareIsPrecedence | semanticversioning.py:81-93 | -1 exactly when the first differing field, in major, minor, patch order, is smaller on the left; 1 exactly for the converse |
| Versions.PrecedenceTrichotomy | semanticversioning.py:81-93 | exactly one of a < b, a == b, a > b holds, and no version precedes itself |
| Versions.PrecedenceTransitive | semanticversioning.py:81-93 | precedence is transitive |
| Versions.CompareAntisymmetric | semanticversioning.py:81-93 | swapping the operands negates the result, and a version compares 0 with itself |
| Versions.CompareTransitive | semanticversioning.py:81-93 | the three-way result is transitive for both <= 0 and < 0 |
| Versions.Convert | semanticversioning.py:68-73 | a Version converts to itself; a failed conversion is always a TypeError or ValueError |
| Versions.CompareTo | semanticversioning.py:75-93 | `_compare` fails with NotImplementedError exactly when the other operand does not normalise; otherwise it is -1, 0 or 1 exactly for precedes, equal, follows |
| Versions.Less | semanticversioning.py:95-96 | `<` is precedence against the normalised operand, or NotImplementedError |
| Versions.LessOrEqual | semanticversioning.py:56-99 | `<=` is precedence or equality against the normalised operand, or NotImplementedError |
| Versions.Equal | semanticversioning.py:98-99 | `==` is equality of triples against the normalised operand, or NotImplementedError |
| Versions.NotEqual | semanticversioning.py:98-99 | `!=` is the negation of equality, or NotImplementedError |
| Versions.Greater | semanticversioning.py:56-99 | `>` is reverse precedence against the normalised operand, or NotImplementedError |
| Versions.GreaterOrEqual | semanticversioning.py:56-99 | `>=` is reverse precedence or equality, or NotImplementedError |
| Versions.RawOperandIsNormalised | semanticversioning.py:75-79 | every operator answers the same against a raw input as against the Version built from it, and fails with NotImplementedError when building fails |
| Versions.BumpMajor | semanticversioning.py:101-102 | the result is (major + 1, 0, 0) and compares greater than the original |
| Versions.BumpMinor | semanticversioning.py:104-107 | the result is (major, minor + 1, 0) and compares greater than the original |
| Versions.BumpPatch | semanticversioning.py:109-112 | the result is (major, minor, patch + 1) and compares greater than the original |
| Versions.BumpsIncrease | semanticversioning.py:101-112 | each bump gives a version of strictly higher precedence |
| Versions.BumpPatchIsSuccessor | semanticversioning.py:109-112 | no version lies strictly between a version and its patch bump |
| Versions.BumpMinorIsLeast | semanticversioning.py:104-107 | among versions with a non-negative patch, nothing above v with a new major or minor lies below the minor bump |
| Versions.BumpMajorIsLeast | semanticversioning.py:101-102 | among versions with non-negative minor and patch, nothing above v with a new major lies below the major bump |
| Versions.BumpExamples | test_semver.py:129-134 | from 1.2.3 the bumps give 2.0.0, 1.3.0 and 1.2.4, and all three composed give 2.1.1 |
| Versions.BumpResultTexts | test_semver.py:129-134 | each bump result of the test compares equal under `==` to the text the test expects (`"2.0.0"`, `"1.3.0"`, `"1.2.4"`, `"2.1.1"`) |
| Versions.OperatorsOnParsed | semanticversioning.py:75-99 | against a raw input that normalises to w, each operator answers by the three-way comparison with w |
| Versions.OperatorExamplesLess | test_semver.py:70-126 | the six operators on 1.2.3 against "4.5" give the tested truth values |
| Versions.OperatorExamplesGreater | test_semver.py:70-126 | the six operators on 1.2 against "1" give the tested truth values |
| Versions.OperatorExamplesEqual | test_semver.py:85-96 | the six operators on 1.2.3 against "1.2.3" give the tested truth values |
| Versions.OperatorsOnExisting | semanticversioning.py:71-99 | against a Version operand each operator is the matching test on `Compare` |
| Versions.OperatorExamplesOnVersions | test_semver.py:120-126 | the six operators against Version operands give the same truth values as against the texts |
| Aggregates.CompareAny | semanticversioning.py:115-117 | `compare` raises the first operand's own error, NotImplementedError for the second's, and otherwise -1, 0 or 1 exactly for precedes, equal, follows |
| Aggregates.CompareAnyAntisymmetric | semanticversioning.py:115-117 | on constructible operands `compare(a, b) == -compare(b, a)` and `compare(a, a) == 0` |
| Aggregates.MaxVersion | semanticversioning.py:120-124 | an empty list is an error; the result exists exactly when every element normalises, is at least every element, is one of them, and is the first of equal maxima; otherwise the error is the first element's own or NotImplementedError |
| Aggregates.MinVersion | semanticversioning.py:127-131 | an empty list is an error; the result exists exactly when every element normalises, is at most every element, is one of them, and is the last of equal minima; otherwise the error is the first element's own or NotImplementedError |
| Aggregates.CompareTextExamples | test_semver.py:137-150 | `compare` gives -1, 0 and 1 on the tested pairs of texts |
| Aggregates.CompareMixedExamples | test_semver.py:137-150 | `compare` of a text against an integer and against `[]` gives the tested results |
| Aggregates.CompareTupleExample | test_semver.py:137-150 | `compare("3.3.7", (3, 3, 9))` is -1 |
| Aggregates.CompareMappingExample | test_semver.py:137-150 | `compare("2", {"patch": 9})` is 1 |
| Aggregates.ExampleVersionsNormalise | test_semver.py:153-160 | the list of the max/min tests normalises to 1.2.0, 7.0.0, 5.4.11 and 3.0.10 |
| Aggregates.ExampleResultTexts | test_semver.py:153-160 | 7.0.0 equals `"7.0.0"` and 1.2.0 equals `"1.2.0"` under `==` |

## Left out

- `__repr__`: display only.
- Object identity: a Version that goes into `_convert` comes back as the same
  object. The model has values only, so two equal versions cannot be told
  apart.
- The reflected operators Python calls when a raw value is on the left (for
  instance `"1.2" < Version(...)`) are not modelled; only a Version on the
  left is.
- `int()` leniency: Python also accepts surrounding whitespace, a leading
  `+`, underscores between digits and non-ASCII digits. The model accepts only
  an optional `-` followed by ASCII digits.
- Element types: the source never checks what is inside a list or a
  dictionary (the tests even pass `None` as an ignored value). The model
  takes integer elements and integer values only.
- `bool` is a subclass of `int` in Python, so `Version(True)` keeps `True` as
  its major: it compares equal to 1.0.0 but renders as `True.0.0` (and
  `Version(False)` as `False.1.0`). The model has no separate boolean input.
- Python's arbitrary-precision integers match Dafny's `int`, so there is no
  wrap-around to model.
- The `setattr` loop in `Version.__init__` is not modelled step by step; a
  Version is built in one step from the normalised fields, with the same
  values.
