/**
 * The Version class of semanticversioning.py: rendering, the three-way
 * _compare, the relational operators derived from it, and the bump
 * operations. A Version is never changed after construction, so it is the
 * value Normalizer.Version; an operand that is not yet a Version is
 * normalised first, as _convert does.
 */
module Versions {
  import opened Wrappers
  import opened Atoms
  import opened Normalizer

  /** __str__: "major.minor.patch"; reading it back gives the same version. */
  function Render(v: Version): (s: string)
    ensures Split(s, '.') == [IntToString(v.major), IntToString(v.minor), IntToString(v.patch)]
    ensures Parse(Text(s)) == Ok(v)
  {
    var pieces := [IntToString(v.major), IntToString(v.minor), IntToString(v.patch)];
    var s := IntToString(v.major) + "." + IntToString(v.minor) + "." + IntToString(v.patch);
    assert pieces[1..] == [IntToString(v.minor), IntToString(v.patch)];
    assert pieces[1..][1..] == [IntToString(v.patch)];
    assert Join(pieces[1..], '.') == IntToString(v.minor) + "." + IntToString(v.patch);
    assert Join(pieces, '.') == s;
    SplitJoin(pieces, '.');
    TextOfThree(v.major, v.minor, v.patch);
    s
  }

  /** A three-atom text of integers renders back as exactly that text. */
  lemma TextRoundTrip(a: int, b: int, c: int)
    ensures var t := IntToString(a) + "." + IntToString(b) + "." + IntToString(c);
      Parse(Text(t)).Ok? && Render(Parse(Text(t)).value) == t
  {
    TextOfThree(a, b, c);
  }

  /** One atom renders zero-padded: "n" as "n.0.0", except that "0" renders as "0.1.0". */
  lemma OneAtomRendersPadded(a: int)
    ensures var r := Parse(Text(IntToString(a)));
      r.Ok? && Render(r.value) == if a == 0 then "0.1.0" else IntToString(a) + ".0.0"
  {
    SingleAtomText(a);
    OneDigit(0);
    OneDigit(1);
  }

  /** Two atoms render zero-padded: "a.b" as "a.b.0". */
  lemma TwoAtomsRenderPadded(a: int, b: int)
    ensures var r := Parse(Text(IntToString(a) + "." + IntToString(b)));
      r.Ok? && Render(r.value) == IntToString(a) + "." + IntToString(b) + ".0"
  {
    TwoAtomText(a, b);
    OneDigit(0);
  }

  /**
   * Precedence in the sense of item 11 of Semantic Versioning 2.0.0: the
   * first field, in major, minor, patch order, where the two differ is
   * smaller in a.
   */
  ghost predicate Precedes(a: Version, b: Version) {
    exists k :: 0 <= k < 3 && Parts(a)[..k] == Parts(b)[..k] && Parts(a)[k] < Parts(b)[k]
  }

  /** The three-way comparison at the heart of Version._compare. */
  function Compare(a: Version, b: Version): (r: int)
    ensures r == -1 || r == 0 || r == 1
    ensures r == 0 <==> a == b
  {
    if a.major > b.major then 1
    else if a.major < b.major then -1
    else if a.minor > b.minor then 1
    else if a.minor < b.minor then -1
    else if a.patch > b.patch then 1
    else if a.patch < b.patch then -1
    else 0
  }

  /** Compare answers -1 exactly for precedence and 1 exactly for the converse. */
  lemma CompareIsPrecedence(a: Version, b: Version)
    ensures Compare(a, b) == -1 <==> Precedes(a, b)
    ensures Compare(a, b) == 1 <==> Precedes(b, a)
  {
    var pa, pb := Parts(a), Parts(b);
    if a.major != b.major {
      assert pa[..0] == pb[..0];
    } else if a.minor != b.minor {
      assert pa[..1] == pb[..1];
    } else if a.patch != b.patch {
      assert pa[..2] == pb[..2];
    }
    if Precedes(a, b) {
      var k :| 0 <= k < 3 && pa[..k] == pb[..k] && pa[k] < pb[k];
      assert k > 0 ==> pa[0] == pb[0] by { assert k > 0 ==> pa[..k][0] == pa[0] && pb[..k][0] == pb[0]; }
      assert k > 1 ==> pa[1] == pb[1] by { assert k > 1 ==> pa[..k][1] == pa[1] && pb[..k][1] == pb[1]; }
    }
    if Precedes(b, a) {
      var k :| 0 <= k < 3 && pb[..k] == pa[..k] && pb[k] < pa[k];
      assert k > 0 ==> pa[0] == pb[0] by { assert k > 0 ==> pa[..k][0] == pa[0] && pb[..k][0] == pb[0]; }
      assert k > 1 ==> pa[1] == pb[1] by { assert k > 1 ==> pa[..k][1] == pa[1] && pb[..k][1] == pb[1]; }
    }
  }

  /** Exactly one of a < b, a == b, a > b holds. */
  lemma PrecedenceTrichotomy(a: Version, b: Version)
    ensures Precedes(a, b) || a == b || Precedes(b, a)
    ensures !(Precedes(a, b) && Precedes(b, a))
    ensures !Precedes(a, a)
  {
    CompareIsPrecedence(a, b);
    CompareIsPrecedence(a, a);
  }

  /** Precedence is transitive. */
  lemma PrecedenceTransitive(a: Version, b: Version, c: Version)
    requires Precedes(a, b) && Precedes(b, c)
    ensures Precedes(a, c)
  {
    CompareIsPrecedence(a, b);
    CompareIsPrecedence(b, c);
    CompareIsPrecedence(a, c);
  }

  /** The signed comparison is antisymmetric and zero on equal versions. */
  lemma CompareAntisymmetric(a: Version, b: Version)
    ensures Compare(a, b) == -Compare(b, a)
    ensures Compare(a, a) == 0
  {
  }

  /** _compare orders versions transitively, for both <= and <. */
  lemma CompareTransitive(a: Version, b: Version, c: Version)
    ensures Compare(a, b) <= 0 && Compare(b, c) <= 0 ==> Compare(a, c) <= 0
    ensures Compare(a, b) < 0 && Compare(b, c) <= 0 ==> Compare(a, c) < 0
  {
  }

  /** What may stand on the right of an operator: a Version or a raw input. */
  datatype Operand = Existing(version: Version) | Raw(input: Input)

  /** _convert: a Version is itself, anything else goes through the constructor. */
  function Convert(o: Operand): (r: Result<Version, Error>)
    ensures o.Existing? ==> r == Ok(o.version)
    ensures r.Err? ==> IsParseError(r.error)
  {
    match o
    case Existing(v) => Ok(v)
    case Raw(input) => Parse(input)
  }

  /**
   * Version._compare: normalise the other operand, turning its TypeError or
   * ValueError into NotImplementedError, then compare.
   */
  function CompareTo(self: Version, other: Operand): (r: Result<int, Error>)
    ensures Convert(other).Err? <==> r == Err(NotComparable)
    ensures r.Ok? ==> (r.value == -1 <==> Precedes(self, Convert(other).value))
    ensures r.Ok? ==> (r.value == 0 <==> self == Convert(other).value)
    ensures r.Ok? ==> (r.value == 1 <==> Precedes(Convert(other).value, self))
  {
    match Convert(other)
    case Err(_) => Err(NotComparable)
    case Ok(v) =>
      CompareIsPrecedence(self, v);
      Ok(Compare(self, v))
  }

  /** __lt__ */
  function Less(self: Version, other: Operand): (r: Result<bool, Error>)
    ensures Convert(other).Err? ==> r == Err(NotComparable)
    ensures Convert(other).Ok? ==> r == Ok(Precedes(self, Convert(other).value))
  {
    match CompareTo(self, other)
    case Err(e) => Err(e)
    case Ok(c) => Ok(c == -1)
  }

  /** __le__, which total_ordering derives as "less than or equal". */
  function LessOrEqual(self: Version, other: Operand): (r: Result<bool, Error>)
    ensures Convert(other).Err? ==> r == Err(NotComparable)
    ensures Convert(other).Ok? ==>
      r == Ok(Precedes(self, Convert(other).value) || self == Convert(other).value)
  {
    match CompareTo(self, other)
    case Err(e) => Err(e)
    case Ok(c) => Ok(c == -1 || c == 0)
  }

  /** __eq__ */
  function Equal(self: Version, other: Operand): (r: Result<bool, Error>)
    ensures Convert(other).Err? ==> r == Err(NotComparable)
    ensures Convert(other).Ok? ==> r == Ok(self == Convert(other).value)
  {
    match CompareTo(self, other)
    case Err(e) => Err(e)
    case Ok(c) => Ok(c == 0)
  }

  /** __ne__, the negation of __eq__. */
  function NotEqual(self: Version, other: Operand): (r: Result<bool, Error>)
    ensures Convert(other).Err? ==> r == Err(NotComparable)
    ensures Convert(other).Ok? ==> r == Ok(self != Convert(other).value)
  {
    match CompareTo(self, other)
    case Err(e) => Err(e)
    case Ok(c) => Ok(c != 0)
  }

  /** __gt__, which total_ordering derives as "neither less nor equal". */
  function Greater(self: Version, other: Operand): (r: Result<bool, Error>)
    ensures Convert(other).Err? ==> r == Err(NotComparable)
    ensures Convert(other).Ok? ==> r == Ok(Precedes(Convert(other).value, self))
  {
    match CompareTo(self, other)
    case Err(e) => Err(e)
    case Ok(c) => Ok(c == 1)
  }

  /** __ge__, which total_ordering derives as "not less". */
  function GreaterOrEqual(self: Version, other: Operand): (r: Result<bool, Error>)
    ensures Convert(other).Err? ==> r == Err(NotComparable)
    ensures Convert(other).Ok? ==>
      r == Ok(Precedes(Convert(other).value, self) || self == Convert(other).value)
  {
    match CompareTo(self, other)
    case Err(e) => Err(e)
    case Ok(c) => Ok(c != -1)
  }

  /**
   * Every operator gives the same answer against a raw input as against the
   * Version built from it, and fails with NotImplementedError when that
   * construction fails.
   */
  lemma RawOperandIsNormalised(self: Version, input: Input)
    ensures Parse(input).Ok? ==>
      var v := Existing(Parse(input).value);
      Less(self, Raw(input)) == Less(self, v) &&
      LessOrEqual(self, Raw(input)) == LessOrEqual(self, v) &&
      Equal(self, Raw(input)) == Equal(self, v) &&
      NotEqual(self, Raw(input)) == NotEqual(self, v) &&
      Greater(self, Raw(input)) == Greater(self, v) &&
      GreaterOrEqual(self, Raw(input)) == GreaterOrEqual(self, v)
    ensures Parse(input).Err? ==>
      Less(self, Raw(input)) == Err(NotComparable) &&
      LessOrEqual(self, Raw(input)) == Err(NotComparable) &&
      Equal(self, Raw(input)) == Err(NotComparable) &&
      NotEqual(self, Raw(input)) == Err(NotComparable) &&
      Greater(self, Raw(input)) == Err(NotComparable) &&
      GreaterOrEqual(self, Raw(input)) == Err(NotComparable)
  {
  }

  /** bump_major: the next major version, with minor and patch reset (item 8). */
  function BumpMajor(v: Version): (r: Version)
    ensures r == Version(v.major + 1, 0, 0)
    ensures Compare(v, r) == -1
  {
    FromDict(map["major" := v.major + 1, "minor" := 0, "patch" := 0])
  }

  /** bump_minor: the next minor version, with patch reset (item 7). */
  function BumpMinor(v: Version): (r: Version)
    ensures r == Version(v.major, v.minor + 1, 0)
    ensures Compare(v, r) == -1
  {
    FromDict(map["major" := v.major, "minor" := v.minor + 1, "patch" := 0])
  }

  /** bump_patch: the next patch version (item 6). */
  function BumpPatch(v: Version): (r: Version)
    ensures r == Version(v.major, v.minor, v.patch + 1)
    ensures Compare(v, r) == -1
  {
    FromDict(map["major" := v.major, "minor" := v.minor, "patch" := v.patch + 1])
  }

  /** Every bump gives a version of strictly higher precedence. */
  lemma BumpsIncrease(v: Version)
    ensures Precedes(v, BumpMajor(v))
    ensures Precedes(v, BumpMinor(v))
    ensures Precedes(v, BumpPatch(v))
  {
    CompareIsPrecedence(v, BumpMajor(v));
    CompareIsPrecedence(v, BumpMinor(v));
    CompareIsPrecedence(v, BumpPatch(v));
  }

  /** No version lies strictly between v and its patch bump. */
  lemma BumpPatchIsSuccessor(v: Version, w: Version)
    ensures !(Precedes(v, w) && Precedes(w, BumpPatch(v)))
  {
    CompareIsPrecedence(v, w);
    CompareIsPrecedence(w, BumpPatch(v));
  }

  /**
   * Among versions with non-negative patch, the minor bump is the lowest
   * one above v with a different major or minor.
   */
  lemma BumpMinorIsLeast(v: Version, w: Version)
    requires w.patch >= 0 && Precedes(v, w) && (w.major, w.minor) != (v.major, v.minor)
    ensures !Precedes(w, BumpMinor(v))
  {
    CompareIsPrecedence(v, w);
    CompareIsPrecedence(w, BumpMinor(v));
  }

  /**
   * Among versions with non-negative minor and patch, the major bump is the
   * lowest one above v with a different major.
   */
  lemma BumpMajorIsLeast(v: Version, w: Version)
    requires w.minor >= 0 && w.patch >= 0 && Precedes(v, w) && w.major != v.major
    ensures !Precedes(w, BumpMajor(v))
  {
    CompareIsPrecedence(v, w);
    CompareIsPrecedence(w, BumpMajor(v));
  }

  /** The literal cases of the bump test of test_semver.py, starting from "1.2.3". */
  lemma BumpExamples()
    ensures Parse(Text("1.2.3")) == Ok(Version(1, 2, 3))
    ensures var v := Version(1, 2, 3);
      BumpMajor(v) == Version(2, 0, 0) && BumpMinor(v) == Version(1, 3, 0) &&
      BumpPatch(v) == Version(1, 2, 4) &&
      BumpPatch(BumpMinor(BumpMajor(v))) == Version(2, 1, 1)
  {
    assert "1.2.3" == [DigitChar(1), '.', DigitChar(2), '.', DigitChar(3)];
    ThreeDigitText(1, 2, 3);
  }

  /** The bump results of test_semver.py compared with texts under ==, as the test does. */
  lemma BumpResultTexts()
    ensures Equal(BumpMajor(Version(1, 2, 3)), Raw(Text("2.0.0"))) == Ok(true)
    ensures Equal(BumpMinor(Version(1, 2, 3)), Raw(Text("1.3.0"))) == Ok(true)
    ensures Equal(BumpPatch(Version(1, 2, 3)), Raw(Text("1.2.4"))) == Ok(true)
    ensures Equal(BumpPatch(BumpMinor(BumpMajor(Version(1, 2, 3)))), Raw(Text("2.1.1"))) == Ok(true)
  {
    assert "2.0.0" == [DigitChar(2), '.', DigitChar(0), '.', DigitChar(0)];
    ThreeDigitText(2, 0, 0);
    assert "1.3.0" == [DigitChar(1), '.', DigitChar(3), '.', DigitChar(0)];
    ThreeDigitText(1, 3, 0);
    assert "1.2.4" == [DigitChar(1), '.', DigitChar(2), '.', DigitChar(4)];
    ThreeDigitText(1, 2, 4);
    assert "2.1.1" == [DigitChar(2), '.', DigitChar(1), '.', DigitChar(1)];
    ThreeDigitText(2, 1, 1);
  }

  /** The six operators against a raw input whose normal form is known. */
  lemma OperatorsOnParsed(self: Version, input: Input, w: Version)
    requires Parse(input) == Ok(w)
    ensures Less(self, Raw(input)) == Ok(Compare(self, w) == -1)
    ensures LessOrEqual(self, Raw(input)) == Ok(Compare(self, w) != 1)
    ensures Equal(self, Raw(input)) == Ok(Compare(self, w) == 0)
    ensures NotEqual(self, Raw(input)) == Ok(Compare(self, w) != 0)
    ensures Greater(self, Raw(input)) == Ok(Compare(self, w) == 1)
    ensures GreaterOrEqual(self, Raw(input)) == Ok(Compare(self, w) != -1)
  {
    CompareIsPrecedence(self, w);
  }

  /** The comparison test of test_semver.py on Version("1.2.3"), that is 1.2.3, against "4.5". */
  lemma OperatorExamplesLess()
    ensures var v := Version(1, 2, 3);
      Less(v, Raw(Text("4.5"))) == Ok(true) && LessOrEqual(v, Raw(Text("4.5"))) == Ok(true) &&
      Equal(v, Raw(Text("4.5"))) == Ok(false) && NotEqual(v, Raw(Text("4.5"))) == Ok(true) &&
      Greater(v, Raw(Text("4.5"))) == Ok(false) && GreaterOrEqual(v, Raw(Text("4.5"))) == Ok(false)
  {
    assert "4.5" == [DigitChar(4), '.', DigitChar(5)];
    TwoDigitText(4, 5);
    OperatorsOnParsed(Version(1, 2, 3), Text("4.5"), Version(4, 5, 0));
  }

  /** The comparison test of test_semver.py on Version("1.2"), that is 1.2.0, against "1". */
  lemma OperatorExamplesGreater()
    ensures var v := Version(1, 2, 0);
      Less(v, Raw(Text("1"))) == Ok(false) && LessOrEqual(v, Raw(Text("1"))) == Ok(false) &&
      Equal(v, Raw(Text("1"))) == Ok(false) && NotEqual(v, Raw(Text("1"))) == Ok(true) &&
      Greater(v, Raw(Text("1"))) == Ok(true) && GreaterOrEqual(v, Raw(Text("1"))) == Ok(true)
  {
    assert "1" == [DigitChar(1)];
    OneDigitText(1);
    OperatorsOnParsed(Version(1, 2, 0), Text("1"), Version(1, 0, 0));
  }

  /** The comparison test of test_semver.py on Version("1.2.3") against an equal "1.2.3". */
  lemma OperatorExamplesEqual()
    ensures var v := Version(1, 2, 3);
      Less(v, Raw(Text("1.2.3"))) == Ok(false) && LessOrEqual(v, Raw(Text("1.2.3"))) == Ok(true) &&
      Equal(v, Raw(Text("1.2.3"))) == Ok(true) && NotEqual(v, Raw(Text("1.2.3"))) == Ok(false) &&
      Greater(v, Raw(Text("1.2.3"))) == Ok(false) && GreaterOrEqual(v, Raw(Text("1.2.3"))) == Ok(true)
  {
    assert "1.2.3" == [DigitChar(1), '.', DigitChar(2), '.', DigitChar(3)];
    ThreeDigitText(1, 2, 3);
    OperatorsOnParsed(Version(1, 2, 3), Text("1.2.3"), Version(1, 2, 3));
  }

  /** The six operators against a Version operand, which _convert passes through. */
  lemma OperatorsOnExisting(self: Version, w: Version)
    ensures Less(self, Existing(w)) == Ok(Compare(self, w) == -1)
    ensures LessOrEqual(self, Existing(w)) == Ok(Compare(self, w) != 1)
    ensures Equal(self, Existing(w)) == Ok(Compare(self, w) == 0)
    ensures NotEqual(self, Existing(w)) == Ok(Compare(self, w) != 0)
    ensures Greater(self, Existing(w)) == Ok(Compare(self, w) == 1)
    ensures GreaterOrEqual(self, Existing(w)) == Ok(Compare(self, w) != -1)
  {
    CompareIsPrecedence(self, w);
  }

  /**
   * The second half of the comparison test of test_semver.py, where the
   * right operand is Version("4.5"), Version("1.2.3") and Version("1"):
   * the same truth values as against the texts.
   */
  lemma OperatorExamplesOnVersions()
    ensures var v := Version(1, 2, 3); var w := Version(4, 5, 0);
      Less(v, Existing(w)) == Ok(true) && LessOrEqual(v, Existing(w)) == Ok(true) &&
      Equal(v, Existing(w)) == Ok(false) && NotEqual(v, Existing(w)) == Ok(true) &&
      Greater(v, Existing(w)) == Ok(false) && GreaterOrEqual(v, Existing(w)) == Ok(false)
    ensures var v := Version(1, 2, 3);
      Less(v, Existing(v)) == Ok(false) && LessOrEqual(v, Existing(v)) == Ok(true) &&
      Equal(v, Existing(v)) == Ok(true) && NotEqual(v, Existing(v)) == Ok(false) &&
      Greater(v, Existing(v)) == Ok(false) && GreaterOrEqual(v, Existing(v)) == Ok(true)
    ensures var v := Version(1, 2, 0); var w := Version(1, 0, 0);
      Less(v, Existing(w)) == Ok(false) && LessOrEqual(v, Existing(w)) == Ok(false) &&
      Equal(v, Existing(w)) == Ok(false) && NotEqual(v, Existing(w)) == Ok(true) &&
      Greater(v, Existing(w)) == Ok(true) && GreaterOrEqual(v, Existing(w)) == Ok(true)
  {
    OperatorsOnExisting(Version(1, 2, 3), Version(4, 5, 0));
    OperatorsOnExisting(Version(1, 2, 3), Version(1, 2, 3));
    OperatorsOnExisting(Version(1, 2, 0), Version(1, 0, 0));
  }
}
