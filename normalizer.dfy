/**
 * The normaliser of semanticversioning.py: _parse and the per-shape
 * converters it dispatches to (_from_str, _from_iter, _from_int,
 * _from_dict). Each turns one input shape into the (major, minor, patch)
 * triple a Version holds, or into the exception the source raises.
 */
module Normalizer {
  import opened Wrappers
  import opened Atoms

  /** The triple a Version instance holds once __init__ has set its fields. */
  datatype Version = Version(major: int, minor: int, patch: int)

  /** The version used when none is given: 0.1.0. */
  const Default := Version(0, 1, 0)

  /** The fields in precedence order. */
  function Parts(v: Version): seq<int> {
    [v.major, v.minor, v.patch]
  }

  /** The exceptions the module raises, one variant per cause. */
  datatype Error =
    | UnsupportedType      // TypeError("Unsupported type") from the generic _parse
    | TooManyComponents    // ValueError from _from_iter: more than three components
    | NegativeInteger      // ValueError from _from_int
    | BadAtom(atom: string) // ValueError from int() on a text atom
    | NotComparable        // NotImplementedError from Version._compare
    | EmptyInput           // TypeError from functools.reduce on an empty list

  /** The TypeError and ValueError cases, which _compare turns into NotComparable. */
  predicate IsParseError(e: Error) {
    e.UnsupportedType? || e.TooManyComponents? || e.NegativeInteger? || e.BadAtom?
  }

  /** The runtime shapes _parse dispatches on. */
  datatype Input =
    | Absent                          // None, the constructor's default argument
    | Text(text: string)              // str
    | Items(items: seq<int>)          // list or tuple
    | Integer(n: int)                 // int
    | Mapping(entries: map<string, int>) // dict
    | Unsupported                     // any other type, a float for instance

  /** A sequence of up to three components; [] and [0] mean the default version. */
  function FromIter(items: seq<int>): (r: Result<Version, Error>)
    ensures r.Err? <==> |items| > 3
    ensures r.Err? ==> r.error == TooManyComponents
  {
    if |items| > 3 then Err(TooManyComponents)
    else if |items| == 0 || (|items| == 1 && items[0] == 0) then Ok(Default)
    else
      var major := items[0];
      var minor := if |items| > 1 then items[1] else 0;
      var patch := if |items| > 2 then items[2] else 0;
      Ok(Version(major, minor, patch))
  }

  /** A non-negative integer n means n.0.0, except that 0 means 0.1.0. */
  function FromInt(n: int): (r: Result<Version, Error>)
    ensures r.Err? <==> n < 0
    ensures r.Err? ==> r.error == NegativeInteger
  {
    if n < 0 then Err(NegativeInteger)
    else Ok(Version(n, if n != 0 then 0 else 1, 0))
  }

  /** The keys _from_dict keeps. */
  const Fields: set<string> := {"major", "minor", "patch"}

  function Lookup(m: map<string, int>, key: string, default: int): int {
    if key in m then m[key] else default
  }

  /**
   * The triple _from_dict produces: given keys are kept, a missing major or
   * patch is 0, and a missing minor is 1 exactly when the major is 0.
   */
  function FromDict(m: map<string, int>): (v: Version)
    ensures "major" in m ==> v.major == m["major"]
    ensures "minor" in m ==> v.minor == m["minor"]
    ensures "patch" in m ==> v.patch == m["patch"]
    ensures "major" !in m ==> v.major == 0
    ensures "patch" !in m ==> v.patch == 0
    ensures "minor" !in m ==> (v.minor == 1 <==> v.major == 0) && 0 <= v.minor <= 1
  {
    var major := Lookup(m, "major", 0);
    Version(major, Lookup(m, "minor", if major != 0 then 0 else 1), Lookup(m, "patch", 0))
  }

  /**
   * _from_dict step by step: filter the recognised keys, then fill in each
   * missing one in turn. The dictionary it returns holds all three keys and
   * describes the same triple as FromDict.
   */
  method FillDict(m: map<string, int>) returns (filtered: map<string, int>)
    ensures filtered.Keys == Fields
    ensures forall k :: k in Fields && k in m ==> filtered[k] == m[k]
    ensures Version(filtered["major"], filtered["minor"], filtered["patch"]) == FromDict(m)
  {
    filtered := map k | k in m && k in Fields :: m[k];
    if "major" !in filtered {
      filtered := filtered["major" := 0];
    }
    if "minor" !in filtered {
      filtered := filtered["minor" := if filtered["major"] != 0 then 0 else 1];
    }
    if "patch" !in filtered {
      filtered := filtered["patch" := 0];
    }
  }

  /**
   * int() on every atom, left to right; the first atom that is not an
   * integer raises.
   */
  function ParseAtoms(atoms: seq<string>): (r: Result<seq<int>, Error>)
    ensures r.Ok? <==> forall i :: 0 <= i < |atoms| ==> ParseInt(atoms[i]).Some?
    ensures r.Ok? ==> (|r.value| == |atoms| &&
      forall i :: 0 <= i < |atoms| ==> ParseInt(atoms[i]) == Some(r.value[i]))
    ensures r.Err? ==>
      exists i :: 0 <= i < |atoms| && ParseInt(atoms[i]).None? &&
        r.error == BadAtom(atoms[i]) && forall j :: 0 <= j < i ==> ParseInt(atoms[j]).Some?
  {
    if atoms == [] then Ok([])
    else match ParseInt(atoms[0])
      case None => Err(BadAtom(atoms[0]))
      case Some(n) =>
        match ParseAtoms(atoms[1..])
        case Err(e) =>
          assert forall i :: 1 <= i < |atoms| ==> atoms[i] == atoms[1..][i - 1];
          Err(e)
        case Ok(ns) =>
          assert forall i :: 1 <= i < |atoms| ==> atoms[i] == atoms[1..][i - 1];
          Ok([n] + ns)
  }

  /**
   * _from_str: a text is split on '.' and its atoms are read as a sequence
   * input. It fails on the first atom that is not an integer, or else on
   * more than three atoms.
   */
  function FromStr(text: string): (r: Result<Version, Error>)
    ensures r.Err? ==> r.error.BadAtom? || r.error == TooManyComponents
    ensures ParseAtoms(Split(text, '.')).Err? ==> r == Err(ParseAtoms(Split(text, '.')).error)
    ensures r == Err(TooManyComponents) <==>
      ParseAtoms(Split(text, '.')).Ok? && |Split(text, '.')| > 3
    ensures r.Ok? <==> ParseAtoms(Split(text, '.')).Ok? && |Split(text, '.')| <= 3
  {
    match ParseAtoms(Split(text, '.'))
    case Err(e) => Err(e)
    case Ok(atoms) => FromIter(atoms)
  }

  /** _parse: dispatch on the shape of the input. */
  function Parse(input: Input): (r: Result<Version, Error>)
    ensures r.Err? ==> IsParseError(r.error)
    ensures r == Err(UnsupportedType) <==> input.Unsupported?
    ensures input.Absent? || input.Mapping? ==> r.Ok?
  {
    match input
    case Absent => Ok(Default)
    case Text(s) => FromStr(s)
    case Items(items) => FromIter(items)
    case Integer(n) => FromInt(n)
    case Mapping(m) => Ok(FromDict(m))
    case Unsupported => Err(UnsupportedType)
  }

  // ----- Properties of the normaliser -----

  /** No argument, an empty sequence, [0], the integer 0 and {} all mean 0.1.0. */
  lemma DefaultInputs()
    ensures Parse(Absent) == Ok(Default)
    ensures Parse(Items([])) == Ok(Default)
    ensures Parse(Items([0])) == Ok(Default)
    ensures Parse(Integer(0)) == Ok(Default)
    ensures Parse(Mapping(map[])) == Ok(Default)
  {
  }

  /**
   * Any other sequence of one to three components gives exactly those
   * components, padded with zeros on the right (so [0, 0] is 0.0.0).
   */
  lemma ItemsPadWithZeros(items: seq<int>)
    requires 1 <= |items| <= 3 && items != [0]
    ensures Parse(Items(items)).Ok?
    ensures Parts(Parse(Items(items)).value) == items + seq(3 - |items|, _ => 0)
  {
    var v := Parse(Items(items)).value;
    if |items| == 1 {
      assert items[0] != 0;
      assert Parts(v) == items + [0, 0];
    } else if |items| == 2 {
      assert Parts(v) == items + [0];
    } else {
      assert Parts(v) == items;
    }
  }

  /** A non-negative integer n is read as the one-component sequence [n]. */
  lemma IntegerIsOneComponent(n: int)
    requires n >= 0
    ensures Parse(Integer(n)) == Parse(Items([n]))
    ensures n > 0 ==> Parse(Integer(n)) == Ok(Version(n, 0, 0))
  {
  }

  /** The dictionary path agrees with the integer path on {"major": n}. */
  lemma MajorOnlyMappingIsInteger(n: int)
    requires n >= 0
    ensures Parse(Mapping(map["major" := n])) == Parse(Integer(n))
  {
  }

  /** A dictionary that names all three fields gives exactly those fields. */
  lemma CompleteMapping(m: map<string, int>)
    requires Fields <= m.Keys
    ensures Parse(Mapping(m)) == Ok(Version(m["major"], m["minor"], m["patch"]))
  {
  }

  /** Keys other than major, minor and patch have no effect. */
  lemma MappingIgnoresOtherKeys(m: map<string, int>, extra: map<string, int>)
    requires extra.Keys !! Fields
    ensures Parse(Mapping(m + extra)) == Parse(Mapping(map k | k in m && k in Fields :: m[k]))
  {
  }

  /**
   * Text is split into atoms, which then follow the sequence rules. This is
   * the definition of FromStr read back; the text lemmas below are the ones
   * that say what a given text becomes.
   */
  lemma TextIsSplitIntoItems(text: string, atoms: seq<int>)
    requires ParseAtoms(Split(text, '.')) == Ok(atoms)
    ensures Parse(Text(text)) == Parse(Items(atoms))
  {
  }

  /**
   * An empty atom is rejected: the empty text, a leading or trailing '.',
   * and two dots in a row all raise ValueError.
   */
  lemma EmptyAtomRejected(text: string)
    requires "" in Split(text, '.')
    ensures Parse(Text(text)).Err? && Parse(Text(text)).error.BadAtom?
  {
    var pieces := Split(text, '.');
    var i :| 0 <= i < |pieces| && pieces[i] == "";
    assert ParseInt(pieces[i]).None?;
  }

  /**
   * Any atom that int() rejects makes the whole text fail with a bad-atom
   * error, whatever the other atoms are.
   */
  lemma BadAtomRejected(text: string, i: nat)
    requires i < |Split(text, '.')| && ParseInt(Split(text, '.')[i]).None?
    ensures Parse(Text(text)).Err? && Parse(Text(text)).error.BadAtom?
  {
  }

  /** Atoms that are all integers are read into exactly those integers. */
  lemma AtomsOfIntegers(ns: seq<int>)
    ensures ParseAtoms(seq(|ns|, i requires 0 <= i < |ns| => IntToString(ns[i]))) == Ok(ns)
  {
    var atoms := seq(|ns|, i requires 0 <= i < |ns| => IntToString(ns[i]));
    assert forall i :: 0 <= i < |atoms| ==> ParseInt(atoms[i]) == Some(ns[i]);
    var r := ParseAtoms(atoms);
    assert r.Ok?;
    assert forall i :: 0 <= i < |ns| ==> r.value[i] == ns[i];
    assert r.value == ns;
  }

  /** Three integers rendered and joined with dots are read back exactly. */
  lemma TextOfThree(a: int, b: int, c: int)
    ensures Parse(Text(IntToString(a) + "." + IntToString(b) + "." + IntToString(c)))
      == Ok(Version(a, b, c))
  {
    var pieces := [IntToString(a), IntToString(b), IntToString(c)];
    assert pieces[1..] == [IntToString(b), IntToString(c)];
    assert pieces[1..][1..] == [IntToString(c)];
    assert Join(pieces[1..], '.') == IntToString(b) + "." + IntToString(c);
    assert Join(pieces, '.') == IntToString(a) + "." + IntToString(b) + "." + IntToString(c);
    SplitJoin(pieces, '.');
    AtomsOfIntegers([a, b, c]);
    assert seq(3, i requires 0 <= i < 3 => IntToString([a, b, c][i])) == pieces;
  }

  /** One atom n is n.0.0, except that "0" is the default 0.1.0. */
  lemma SingleAtomText(a: int)
    ensures Parse(Text(IntToString(a))) == if a == 0 then Ok(Default) else Ok(Version(a, 0, 0))
  {
    SplitFree(IntToString(a), '.');
    AtomsOfIntegers([a]);
    assert seq(1, i requires 0 <= i < 1 => IntToString([a][i])) == [IntToString(a)];
  }

  /** Two atoms a.b are a.b.0. */
  lemma TwoAtomText(a: int, b: int)
    ensures Parse(Text(IntToString(a) + "." + IntToString(b))) == Ok(Version(a, b, 0))
  {
    var pieces := [IntToString(a), IntToString(b)];
    assert pieces[1..] == [IntToString(b)];
    assert Join(pieces, '.') == IntToString(a) + "." + IntToString(b);
    SplitJoin(pieces, '.');
    AtomsOfIntegers([a, b]);
    assert seq(2, i requires 0 <= i < 2 => IntToString([a, b][i])) == pieces;
  }

  /** A one-digit atom, as in the literal cases of test_semver.py. */
  lemma OneDigitText(a: nat)
    requires a < 10
    ensures Parse(Text([DigitChar(a)])) == if a == 0 then Ok(Default) else Ok(Version(a, 0, 0))
  {
    OneDigit(a);
    SingleAtomText(a);
  }

  /** Two one-digit atoms joined by a dot. */
  lemma TwoDigitText(a: nat, b: nat)
    requires a < 10 && b < 10
    ensures Parse(Text([DigitChar(a), '.', DigitChar(b)])) == Ok(Version(a, b, 0))
  {
    OneDigit(a);
    OneDigit(b);
    assert [DigitChar(a), '.', DigitChar(b)] == IntToString(a) + "." + IntToString(b);
    TwoAtomText(a, b);
  }

  /** Three one-digit atoms joined by dots. */
  lemma ThreeDigitText(a: nat, b: nat, c: nat)
    requires a < 10 && b < 10 && c < 10
    ensures Parse(Text([DigitChar(a), '.', DigitChar(b), '.', DigitChar(c)])) == Ok(Version(a, b, c))
  {
    OneDigit(a);
    OneDigit(b);
    OneDigit(c);
    assert [DigitChar(a), '.', DigitChar(b), '.', DigitChar(c)]
      == IntToString(a) + "." + IntToString(b) + "." + IntToString(c);
    TextOfThree(a, b, c);
  }

  /** The literal text cases of the construction tests of test_semver.py. */
  lemma TextExamples()
    ensures Parse(Text("1.2.3")) == Ok(Version(1, 2, 3))
    ensures Parse(Text("1.2")) == Ok(Version(1, 2, 0))
    ensures Parse(Text("1")) == Ok(Version(1, 0, 0))
  {
    var one, two, three := IntToString(1), IntToString(2), IntToString(3);
    assert one == "1" && two == "2" && three == "3" by {
      OneDigit(1);
      OneDigit(2);
      OneDigit(3);
    }
    assert Parse(Text("1.2.3")) == Ok(Version(1, 2, 3)) by {
      assert one + "." + two + "." + three == "1.2.3";
      TextOfThree(1, 2, 3);
    }
    assert Parse(Text("1.2")) == Ok(Version(1, 2, 0)) by {
      assert one + "." + two == "1.2";
      TwoAtomText(1, 2);
    }
    SingleAtomText(1);
  }

  lemma OneDigit(d: nat)
    requires d < 10
    ensures IntToString(d) == [DigitChar(d)]
  {
  }

  /** Empty atoms, from "" or from two dots in a row, raise ValueError. */
  lemma BadTextExamples()
    ensures Parse(Text("")) == Err(BadAtom(""))
    ensures Parse(Text("1..2")) == Err(BadAtom(""))
  {
    assert "1..2" == "1" + ['.'] + ".2";
    assert ".2" == "" + ['.'] + "2";
    SplitAround("1", ".2", '.');
    SplitAround("", "2", '.');
    SplitFree("1", '.');
    SplitFree("2", '.');
    assert Split("1..2", '.') == ["1", "", "2"];
  }

  /** An atom that is not an integer is reported: "1.x" fails on "x", "--1" on itself. */
  lemma NonIntegerTextExamples()
    ensures Parse(Text("1.x")) == Err(BadAtom("x"))
    ensures Parse(Text("--1")) == Err(BadAtom("--1"))
  {
    assert "1.x" == "1" + ['.'] + "x";
    SplitAround("1", "x", '.');
    SplitFree("1", '.');
    SplitFree("x", '.');
    assert Split("1.x", '.') == ["1", "x"];
    NonDigitRejected("x", 0);
    SplitFree("--1", '.');
    NonDigitRejected("--1", 1);
  }

  /** The literal cases of the other construction tests of test_semver.py. */
  lemma ShapeExamples()
    ensures Parse(Items([1, 2, 3])) == Ok(Version(1, 2, 3))
    ensures Parse(Items([1, 2])) == Ok(Version(1, 2, 0))
    ensures Parse(Items([1])) == Ok(Version(1, 0, 0))
    ensures Parse(Items([0, 0])) == Ok(Version(0, 0, 0))
    ensures Parse(Items([1, 2, 3, 4])) == Err(TooManyComponents)
    ensures Parse(Integer(1)) == Ok(Version(1, 0, 0))
    ensures Parse(Integer(-1)) == Err(NegativeInteger)
    ensures Parse(Mapping(map["major" := 1, "minor" := 2, "patch" := 3])) == Ok(Version(1, 2, 3))
    ensures Parse(Mapping(map["major" := 1, "patch" := 3, "foo" := 8])) == Ok(Version(1, 0, 3))
    ensures Parse(Mapping(map["minor" := 2])) == Ok(Version(0, 2, 0))
  {
  }
}
