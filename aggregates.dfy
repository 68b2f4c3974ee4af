/**
 * The module-level helpers of semanticversioning.py: compare, max_version
 * and min_version, over operands that are Versions or raw inputs.
 */
module Aggregates {
  import opened Wrappers
  import opened Atoms
  import opened Normalizer
  import opened Versions

  /**
   * compare(a, b): the first operand goes through _convert, so its own
   * TypeError or ValueError escapes unchanged; the second goes through
   * _compare, which turns its failure into NotImplementedError.
   */
  function CompareAny(a: Operand, b: Operand): (r: Result<int, Error>)
    ensures Convert(a).Err? ==> r == Err(Convert(a).error)
    ensures Convert(a).Ok? && Convert(b).Err? ==> r == Err(NotComparable)
    ensures Convert(a).Ok? && Convert(b).Ok? ==>
      r.Ok? && (r.value == -1 <==> Precedes(Convert(a).value, Convert(b).value)) &&
      (r.value == 0 <==> Convert(a).value == Convert(b).value) &&
      (r.value == 1 <==> Precedes(Convert(b).value, Convert(a).value))
    ensures Convert(a).Ok? && Convert(b).Ok? ==> r == Ok(Compare(Convert(a).value, Convert(b).value))
  {
    match Convert(a)
    case Err(e) => Err(e)
    case Ok(v) => CompareTo(v, b)
  }

  /** compare(a, b) == -compare(b, a), and compare(a, a) == 0, for constructible a and b. */
  lemma CompareAnyAntisymmetric(a: Operand, b: Operand)
    requires Convert(a).Ok? && Convert(b).Ok?
    ensures CompareAny(a, b).Ok? && CompareAny(b, a).Ok?
    ensures CompareAny(a, b).value == -CompareAny(b, a).value
    ensures CompareAny(a, a) == Ok(0)
  {
    CompareAntisymmetric(Convert(a).value, Convert(b).value);
  }

  /** Every element of the list can be normalised. */
  predicate AllConvert(versions: seq<Operand>) {
    forall i :: 0 <= i < |versions| ==> Convert(versions[i]).Ok?
  }

  /** The error reduce reports once some element of a non-empty list cannot be normalised. */
  function FoldError(versions: seq<Operand>): Error
    requires |versions| > 0
  {
    if Convert(versions[0]).Err? then Convert(versions[0]).error else NotComparable
  }

  /** The first n elements normalise, and none of them is above best. */
  ghost predicate UpperBound(versions: seq<Operand>, n: nat, best: Version)
    requires n <= |versions|
  {
    forall j :: 0 <= j < n ==> Convert(versions[j]).Ok? && Compare(best, Convert(versions[j]).value) >= 0
  }

  /** The first n elements normalise, and none of them is below best. */
  ghost predicate LowerBound(versions: seq<Operand>, n: nat, best: Version)
    requires n <= |versions|
  {
    forall j :: 0 <= j < n ==> Convert(versions[j]).Ok? && Compare(best, Convert(versions[j]).value) <= 0
  }

  /** The elements from lo up to hi normalise, and all are strictly below best. */
  ghost predicate StrictlyBelow(versions: seq<Operand>, lo: nat, hi: nat, best: Version)
    requires lo <= hi <= |versions|
  {
    forall j :: lo <= j < hi ==> Convert(versions[j]).Ok? && Compare(Convert(versions[j]).value, best) < 0
  }

  /** The elements from lo up to hi normalise, and all are strictly above best. */
  ghost predicate StrictlyAbove(versions: seq<Operand>, lo: nat, hi: nat, best: Version)
    requires lo <= hi <= |versions|
  {
    forall j :: lo <= j < hi ==> Convert(versions[j]).Ok? && Compare(best, Convert(versions[j]).value) < 0
  }

  /** One step of bigger when the accumulator stays. */
  lemma MaxKeeps(versions: seq<Operand>, i: nat, best: Version)
    requires i < |versions| && UpperBound(versions, i, best)
    requires Convert(versions[i]).Ok? && Compare(best, Convert(versions[i]).value) >= 0
    ensures UpperBound(versions, i + 1, best)
  {
  }

  /** One step of bigger when the new element replaces the accumulator. */
  lemma MaxSwitches(versions: seq<Operand>, i: nat, best: Version)
    requires i < |versions| && UpperBound(versions, i, best)
    requires Convert(versions[i]).Ok? && Compare(best, Convert(versions[i]).value) < 0
    ensures UpperBound(versions, i + 1, Convert(versions[i]).value)
    ensures StrictlyBelow(versions, 0, i, Convert(versions[i]).value)
  {
    var w := Convert(versions[i]).value;
    forall j | 0 <= j < i
      ensures Convert(versions[j]).Ok? && Compare(Convert(versions[j]).value, w) < 0
    {
      var x := Convert(versions[j]).value;
      assert Compare(best, x) >= 0;
      BelowAbove(x, best, w);
    }
  }

  /** x <= y < z gives x < z. */
  lemma BelowAbove(x: Version, y: Version, z: Version)
    requires Compare(y, x) >= 0 && Compare(y, z) < 0
    ensures Compare(x, z) < 0
  {
    CompareAntisymmetric(x, y);
    CompareTransitive(x, y, z);
  }

  /** One step of smaller when the accumulator stays. */
  lemma MinKeeps(versions: seq<Operand>, i: nat, k: nat, best: Version)
    requires k < i < |versions| && LowerBound(versions, i, best) && StrictlyAbove(versions, k + 1, i, best)
    requires Convert(versions[i]).Ok? && Compare(best, Convert(versions[i]).value) < 0
    ensures LowerBound(versions, i + 1, best) && StrictlyAbove(versions, k + 1, i + 1, best)
  {
  }

  /** One step of smaller when the new element replaces the accumulator. */
  lemma MinSwitches(versions: seq<Operand>, i: nat, best: Version)
    requires i < |versions| && LowerBound(versions, i, best)
    requires Convert(versions[i]).Ok? && Compare(best, Convert(versions[i]).value) >= 0
    ensures LowerBound(versions, i + 1, Convert(versions[i]).value)
  {
    var w := Convert(versions[i]).value;
    forall j | 0 <= j < i + 1
      ensures Convert(versions[j]).Ok? && Compare(w, Convert(versions[j]).value) <= 0
    {
      if j < i {
        var x := Convert(versions[j]).value;
        assert Compare(best, x) <= 0;
        AboveBelow(x, best, w);
      }
    }
  }

  /** w <= y <= x gives w <= x. */
  lemma AboveBelow(x: Version, y: Version, w: Version)
    requires Compare(y, x) <= 0 && Compare(y, w) >= 0
    ensures Compare(w, x) <= 0
  {
    CompareAntisymmetric(y, w);
    CompareTransitive(w, y, x);
  }

  /**
   * max_version: reduce with bigger(a, b) = a if compare(a, b) >= 0 else b,
   * then _convert the survivor. The result is at least every element and is
   * one of them; k names the element the fold kept, which is the FIRST of
   * several equal maxima, because a tie keeps the accumulator.
   */
  method MaxVersion(versions: seq<Operand>) returns (r: Result<Version, Error>, ghost k: nat)
    ensures |versions| == 0 ==> r == Err(EmptyInput)
    ensures r.Ok? <==> |versions| > 0 && AllConvert(versions)
    ensures |versions| > 0 && r.Err? ==> r.error == FoldError(versions)
    ensures r.Ok? ==> k < |versions| && Convert(versions[k]) == Ok(r.value)
    ensures r.Ok? ==> forall i :: 0 <= i < |versions| ==>
      Convert(versions[i]).Ok? && Compare(r.value, Convert(versions[i]).value) >= 0
    ensures r.Ok? ==> forall i :: 0 <= i < k ==>
      Convert(versions[i]).Ok? && Compare(Convert(versions[i]).value, r.value) < 0
  {
    k := 0;
    if |versions| == 0 {
      return Err(EmptyInput), k;
    }
    var acc := versions[0];
    ghost var best := Default;
    var i := 1;
    while i < |versions|
      invariant 1 <= i <= |versions|
      invariant k < i && acc == versions[k]
      invariant i > 1 ==> Convert(acc) == Ok(best)
      invariant i > 1 ==> UpperBound(versions, i, best) && StrictlyBelow(versions, 0, k, best)
    {
      var c := CompareAny(acc, versions[i]);
      if c.Err? {
        assert i > 1 ==> Convert(versions[0]).Ok?;
        assert Convert(acc).Err? || Convert(versions[i]).Err?;
        return Err(c.error), k;
      }
      if i == 1 {
        best := Convert(acc).value;
        assert UpperBound(versions, 1, best);
      }
      if c.value < 0 {
        MaxSwitches(versions, i, best);
        acc := versions[i];
        k := i;
        best := Convert(acc).value;
      } else {
        MaxKeeps(versions, i, best);
      }
      i := i + 1;
    }
    r := Convert(acc);
  }

  /**
   * min_version: reduce with smaller(a, b) = a if compare(a, b) < 0 else b,
   * then _convert the survivor. The result is at most every element and is
   * one of them; k names the element the fold kept, which is the LAST of
   * several equal minima, because a tie switches to the later element.
   */
  method MinVersion(versions: seq<Operand>) returns (r: Result<Version, Error>, ghost k: nat)
    ensures |versions| == 0 ==> r == Err(EmptyInput)
    ensures r.Ok? <==> |versions| > 0 && AllConvert(versions)
    ensures |versions| > 0 && r.Err? ==> r.error == FoldError(versions)
    ensures r.Ok? ==> k < |versions| && Convert(versions[k]) == Ok(r.value)
    ensures r.Ok? ==> forall i :: 0 <= i < |versions| ==>
      Convert(versions[i]).Ok? && Compare(r.value, Convert(versions[i]).value) <= 0
    ensures r.Ok? ==> forall i :: k < i < |versions| ==>
      Convert(versions[i]).Ok? && Compare(r.value, Convert(versions[i]).value) < 0
  {
    k := 0;
    if |versions| == 0 {
      return Err(EmptyInput), k;
    }
    var acc := versions[0];
    ghost var best := Default;
    var i := 1;
    while i < |versions|
      invariant 1 <= i <= |versions|
      invariant k < i && acc == versions[k]
      invariant i > 1 ==> Convert(acc) == Ok(best)
      invariant i > 1 ==> LowerBound(versions, i, best) && StrictlyAbove(versions, k + 1, i, best)
    {
      var c := CompareAny(acc, versions[i]);
      if c.Err? {
        assert i > 1 ==> Convert(versions[0]).Ok?;
        assert Convert(acc).Err? || Convert(versions[i]).Err?;
        return Err(c.error), k;
      }
      if i == 1 {
        best := Convert(acc).value;
        assert LowerBound(versions, 1, best);
      }
      if c.value >= 0 {
        MinSwitches(versions, i, best);
        acc := versions[i];
        k := i;
        best := Convert(acc).value;
      } else {
        MinKeeps(versions, i, k, best);
      }
      i := i + 1;
    }
    r := Convert(acc);
  }

  /** compare on two raw inputs with known normal forms. */
  lemma CompareParsed(a: Input, b: Input, va: Version, vb: Version)
    requires Parse(a) == Ok(va) && Parse(b) == Ok(vb)
    ensures CompareAny(Raw(a), Raw(b)) == Ok(Compare(va, vb))
  {
  }

  /** The literal cases of the compare tests of test_semver.py, between two texts. */
  lemma CompareTextExamples()
    ensures CompareAny(Raw(Text("1.2.3")), Raw(Text("4.5"))) == Ok(-1)
    ensures CompareAny(Raw(Text("6")), Raw(Text("6.0.0"))) == Ok(0)
    ensures CompareAny(Raw(Text("3.6")), Raw(Text("3"))) == Ok(1)
  {
    assert CompareAny(Raw(Text("1.2.3")), Raw(Text("4.5"))) == Ok(-1) by {
      assert "1.2.3" == [DigitChar(1), '.', DigitChar(2), '.', DigitChar(3)];
      assert "4.5" == [DigitChar(4), '.', DigitChar(5)];
      ThreeDigitText(1, 2, 3);
      TwoDigitText(4, 5);
      CompareParsed(Text("1.2.3"), Text("4.5"), Version(1, 2, 3), Version(4, 5, 0));
    }
    assert CompareAny(Raw(Text("6")), Raw(Text("6.0.0"))) == Ok(0) by {
      assert "6" == [DigitChar(6)];
      assert "6.0.0" == [DigitChar(6), '.', DigitChar(0), '.', DigitChar(0)];
      ThreeDigitText(6, 0, 0);
      OneDigitText(6);
      CompareParsed(Text("6"), Text("6.0.0"), Version(6, 0, 0), Version(6, 0, 0));
    }
    assert "3.6" == [DigitChar(3), '.', DigitChar(6)];
    assert "3" == [DigitChar(3)];
    TwoDigitText(3, 6);
    OneDigitText(3);
    CompareParsed(Text("3.6"), Text("3"), Version(3, 6, 0), Version(3, 0, 0));
  }

  /** The literal cases of the compare tests of test_semver.py, between a text and another shape. */
  lemma CompareMixedExamples()
    ensures CompareAny(Raw(Text("4.5")), Raw(Integer(3))) == Ok(1)
    ensures CompareAny(Raw(Text("0.1")), Raw(Items([]))) == Ok(0)
  {
    assert "4.5" == [DigitChar(4), '.', DigitChar(5)];
    TwoDigitText(4, 5);
    CompareParsed(Text("4.5"), Integer(3), Version(4, 5, 0), Version(3, 0, 0));
    assert "0.1" == [DigitChar(0), '.', DigitChar(1)];
    TwoDigitText(0, 1);
    CompareParsed(Text("0.1"), Items([]), Version(0, 1, 0), Version(0, 1, 0));
  }

  /** The literal case of the compare tests of test_semver.py, between a text and a tuple. */
  lemma CompareTupleExample()
    ensures CompareAny(Raw(Text("3.3.7")), Raw(Items([3, 3, 9]))) == Ok(-1)
  {
    assert "3.3.7" == [DigitChar(3), '.', DigitChar(3), '.', DigitChar(7)];
    ThreeDigitText(3, 3, 7);
    CompareParsed(Text("3.3.7"), Items([3, 3, 9]), Version(3, 3, 7), Version(3, 3, 9));
  }

  /** The literal case of the compare tests of test_semver.py, between a text and a dictionary. */
  lemma CompareMappingExample()
    ensures CompareAny(Raw(Text("2")), Raw(Mapping(map["patch" := 9]))) == Ok(1)
  {
    assert "2" == [DigitChar(2)];
    OneDigitText(2);
    CompareParsed(Text("2"), Mapping(map["patch" := 9]), Version(2, 0, 0), Version(0, 1, 9));
  }

  /** The list of the max_version and min_version tests of test_semver.py. */
  const ExampleVersions: seq<Operand> := [Raw(Text("1.2")), Raw(Integer(7)), Raw(Items([5, 4, 11])),
                                         Raw(Mapping(map["major" := 3, "patch" := 10]))]

  /** The example list normalises to 1.2.0, 7.0.0, 5.4.11 and 3.0.10. */
  lemma ExampleVersionsNormalise()
    ensures |ExampleVersions| == 4
    ensures Convert(ExampleVersions[0]) == Ok(Version(1, 2, 0))
    ensures Convert(ExampleVersions[1]) == Ok(Version(7, 0, 0))
    ensures Convert(ExampleVersions[2]) == Ok(Version(5, 4, 11))
    ensures Convert(ExampleVersions[3]) == Ok(Version(3, 0, 10))
  {
    assert "1.2" == [DigitChar(1), '.', DigitChar(2)];
    TwoDigitText(1, 2);
    assert FromDict(map["major" := 3, "patch" := 10]) == Version(3, 0, 10);
  }

  /** The expected results of those tests, written as the texts the tests compare with. */
  lemma ExampleResultTexts()
    ensures Equal(Version(7, 0, 0), Raw(Text("7.0.0"))) == Ok(true)
    ensures Equal(Version(1, 2, 0), Raw(Text("1.2.0"))) == Ok(true)
  {
    assert "7.0.0" == [DigitChar(7), '.', DigitChar(0), '.', DigitChar(0)];
    ThreeDigitText(7, 0, 0);
    assert "1.2.0" == [DigitChar(1), '.', DigitChar(2), '.', DigitChar(0)];
    ThreeDigitText(1, 2, 0);
  }

  /** The max_version test of test_semver.py, and max_version on an empty list. */
  method MaxVersionExample() {
    ExampleVersionsNormalise();
    var biggest, _ := MaxVersion(ExampleVersions);
    assert biggest == Ok(Version(7, 0, 0));
    ExampleResultTexts();
    assert Equal(biggest.value, Raw(Text("7.0.0"))) == Ok(true);
    var none, _ := MaxVersion([]);
    assert none == Err(EmptyInput);
  }

  /** The min_version test of test_semver.py. */
  method MinVersionExample() {
    ExampleVersionsNormalise();
    var smallest, k := MinVersion(ExampleVersions);
    assert smallest.Ok? && k < 4;
    assert Compare(smallest.value, Version(1, 2, 0)) <= 0;
    assert smallest == Ok(Version(1, 2, 0));
    ExampleResultTexts();
    assert Equal(smallest.value, Raw(Text("1.2.0"))) == Ok(true);
  }

  /** Ties and failures: max keeps the earlier of two equal elements, min the later. */
  method TieAndErrorExamples() {
    var tied := [Existing(Version(1, 0, 0)), Raw(Integer(1))];
    assert Convert(tied[0]) == Convert(tied[1]) == Ok(Version(1, 0, 0));
    var biggest, i := MaxVersion(tied);
    assert biggest == Ok(Version(1, 0, 0));
    assert Compare(Convert(tied[0]).value, biggest.value) == 0;
    assert i == 0;
    var smallest, j := MinVersion(tied);
    assert smallest == Ok(Version(1, 0, 0));
    assert Compare(smallest.value, Convert(tied[1]).value) == 0;
    assert j == 1;
    var first, _ := MaxVersion([Raw(Unsupported)]);
    assert first == Err(UnsupportedType);
    var failing := [Existing(Default), Raw(Integer(-1))];
    assert Convert(failing[1]) == Err(NegativeInteger);
    assert !AllConvert(failing);
    var later, _ := MinVersion(failing);
    assert later == Err(NotComparable);
  }
}
