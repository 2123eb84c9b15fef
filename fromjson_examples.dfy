/**
 * Worked cases of `SourceMap.from_json`: the error paths, and a map whose
 * running totals carry across an empty line while the generated column
 * starts again at 0.
 */
module FromJsonExamples {
  import opened Wrappers
  import opened Text
  import opened Base64Vlq
  import opened Base64VlqProperties
  import opened Mappings
  import opened SourceMaps

  function Json(sources: seq<string>, mappings: string): JsonSourceMap
  {
    JsonSourceMap(3, None, None, sources, [], [], mappings)
  }

  /** Decoding past a symbol without the continuation flag completes one integer. */
  lemma Terminal(c: char, rest: string, results: seq<int>)
    requires Table(c).Some? && !Continues(Table(c).value)
    ensures DecodeFrom([c] + rest, 0, 0, results) == DecodeFrom(rest, 0, 0, results + [Signed(Table(c).value)])
  {
    assert ([c] + rest)[0] == c && ([c] + rest)[1..] == rest;
  }

  /** `"AAAA"`: four zeros. */
  lemma DecodeZeros()
    ensures Decode("AAAA") == Success([0, 0, 0, 0])
  {
    assert Table('A') == Some(0) && Signed(0) == 0;
    assert ['A'] + "AAA" == "AAAA";
    Terminal('A', "AAA", []);
    assert ['A'] + "AA" == "AAA";
    Terminal('A', "AA", [0]);
    assert ['A'] + "A" == "AA";
    Terminal('A', "A", [0, 0]);
    assert ['A'] + "" == "A";
    Terminal('A', "", [0, 0, 0]);
    assert [] + [0] == [0] && [0] + [0] == [0, 0] && [0, 0] + [0] == [0, 0, 0] && [0, 0, 0] + [0] == [0, 0, 0, 0];
  }

  /** `"CAAA"`: a column delta of 1 and no source move. */
  lemma DecodeColumnStep()
    ensures Decode("CAAA") == Success([1, 0, 0, 0])
  {
    assert Table('A') == Some(0) && Signed(0) == 0;
    assert Table('C') == Some(2) && Signed(2) == 1;
    assert ['C'] + "AAA" == "CAAA";
    Terminal('C', "AAA", []);
    assert ['A'] + "AA" == "AAA";
    Terminal('A', "AA", [1]);
    assert ['A'] + "A" == "AA";
    Terminal('A', "A", [1, 0]);
    assert ['A'] + "" == "A";
    Terminal('A', "", [1, 0, 0]);
    assert [] + [1] == [1] && [1] + [0] == [1, 0] && [1, 0] + [0] == [1, 0, 0] && [1, 0, 0] + [0] == [1, 0, 0, 0];
  }

  /** `"AACA"`: a source line delta of 1 and nothing else. */
  lemma DecodeLineStep()
    ensures Decode("AACA") == Success([0, 0, 1, 0])
  {
    assert Table('A') == Some(0) && Signed(0) == 0;
    assert Table('C') == Some(2) && Signed(2) == 1;
    assert ['A'] + "ACA" == "AACA";
    Terminal('A', "ACA", []);
    assert ['A'] + "CA" == "ACA";
    Terminal('A', "CA", [0]);
    assert ['C'] + "A" == "CA";
    Terminal('C', "A", [0, 0]);
    assert ['A'] + "" == "A";
    Terminal('A', "", [0, 0, 1]);
    assert [] + [0] == [0] && [0] + [0] == [0, 0] && [0, 0] + [1] == [0, 0, 1] && [0, 0, 1] + [0] == [0, 0, 1, 0];
  }

  /** An empty group between commas has no column delta to unpack. */
  lemma EmptyGroupFails()
    ensures FromJsonSpec(Json([], ",")) == Failure(EmptyGroup)
  {
    assert Split(",", ';') == [","];
    assert Split(",", ',') == ["", ""];
    assert Decode("") == Success([]);
  }

  /** A character outside the alphabet fails the whole map. */
  lemma InvalidSymbolFails()
    ensures FromJsonSpec(Json([], "A!")) == Failure(InvalidVlq)
  {
    assert Split("A!", ';') == ["A!"];
    assert Split("A!", ',') == ["A!"];
    DecodeCounts("A!");
    assert "A!"[1] !in Alphabet;
  }

  /** A source index with no entry in `sources` fails at the lookup. */
  lemma MissingSourceFails()
    ensures FromJsonSpec(Json([], "AAAA")) == Failure(SourceIndexOutOfRange)
  {
    assert Split("AAAA", ';') == ["AAAA"];
    assert Split("AAAA", ',') == ["AAAA"];
    DecodeZeros();
  }

  const Carried: JsonSourceMap := Json(["a.css"], "CAAA;;AACA")
  const FirstRecord: SourceMapping := MappingRecord(0, 1, Some("a.css"), Some(0), Some(0), None, None)
  const ThirdRecord: SourceMapping := MappingRecord(2, 0, Some("a.css"), Some(1), Some(0), None, None)

  /** A string without the separator splits into itself alone. */
  lemma SplitAbsent(s: string, sep: char)
    requires sep !in s
    ensures Split(s, sep) == [s]
  {
    assert FirstIndex(s, sep) == |s|;
  }

  /** The first piece of a split is everything before the first separator. */
  lemma SplitCons(head: string, rest: string, sep: char)
    requires sep !in head
    ensures Split(head + [sep] + rest, sep) == [head] + Split(rest, sep)
  {
    var s := head + [sep] + rest;
    assert s[|head|] == sep;
    assert FirstIndex(s, sep) == |head|;
    assert s[..|head|] == head && s[|head| + 1..] == rest;
  }

  lemma CarriedTail()
    ensures Split(";AACA", ';') == ["", "AACA"]
  {
    var s := ";AACA";
    assert s[0] == ';' && s[1..] == "AACA";
    assert FirstIndex(s, ';') == 0;
    SplitAbsent("AACA", ';');
  }

  lemma CarriedLines()
    ensures Split(Carried.mappings, ';') == ["CAAA", "", "AACA"]
  {
    assert "CAAA;;AACA" == "CAAA" + [';'] + ";AACA";
    SplitCons("CAAA", ";AACA", ';');
    CarriedTail();
  }

  /** Line 0: the column moves to 1 and the source totals stay at 0. */
  lemma CarriedFirstLine()
    ensures ParseGroups(Carried, ["CAAA"], Start.(index := [[]]), 0)
         == Success(ParseState(Totals(0, 0, 0, 0), map[(0, 1) := FirstRecord], [[1]]))
  {
    DecodeColumnStep();
    assert Group(Carried, "CAAA", Totals(0, 0, 0, 0), 0, 0) == Success((Totals(0, 0, 0, 0), 1, FirstRecord));
    var e: seq<int> := [];
    var u := [e][0 := e + [1]];
    assert |u| == 1 && u[0] == [1];
    assert u == [[1]];
  }

  /** Line 2: the column starts again from 0 while the source line total moves from 0 to 1. */
  lemma CarriedThirdLine()
    ensures ParseGroups(Carried, ["AACA"], ParseState(Totals(0, 0, 0, 0), map[(0, 1) := FirstRecord], [[1], [], []]), 0)
         == Success(ParseState(Totals(0, 1, 0, 0), map[(0, 1) := FirstRecord, (2, 0) := ThirdRecord], [[1], [], [0]]))
  {
    DecodeLineStep();
    assert Group(Carried, "AACA", Totals(0, 0, 0, 0), 2, 0) == Success((Totals(0, 1, 0, 0), 0, ThirdRecord));
    var e: seq<int> := [];
    var u := [[1], e, e][2 := e + [0]];
    assert |u| == 3 && u[0] == [1] && u[1] == [] && u[2] == [0];
    assert u == [[1], [], [0]];
  }

  const AfterFirst: ParseState := ParseState(Totals(0, 0, 0, 0), map[(0, 1) := FirstRecord], [[1]])
  const AfterThird: ParseState :=
    ParseState(Totals(0, 1, 0, 0), map[(0, 1) := FirstRecord, (2, 0) := ThirdRecord], [[1], [], [0]])

  lemma CarriedFrom2()
    ensures ParseLines(Carried, ["AACA"], AfterFirst.(index := [[1], []])) == Success(AfterThird)
  {
    SplitAbsent("AACA", ',');
    CarriedThirdLine();
    var e: seq<int> := [];
    assert [[1], e] + [e] == [[1], e, e];
    assert ["AACA"][1..] == [];
  }

  lemma CarriedFrom1()
    ensures ParseLines(Carried, ["", "AACA"], AfterFirst) == Success(AfterThird)
  {
    CarriedFrom2();
    var e: seq<int> := [];
    assert [[1]] + [e] == [[1], e];
    assert ["", "AACA"][1..] == ["AACA"];
  }

  lemma CarriedFrom0()
    ensures ParseLines(Carried, ["CAAA", "", "AACA"], Start) == Success(AfterThird)
  {
    SplitAbsent("CAAA", ',');
    CarriedFirstLine();
    CarriedFrom1();
    var e: seq<seq<int>> := [];
    assert e + [[]] == [[]];
    assert ["CAAA", "", "AACA"][1..] == ["", "AACA"];
  }

  /**
   * `"CAAA;;AACA"`: line 0 has a mapping at column 1; line 1 is empty; line 2
   * starts again at column 0, and its source line is 1 because the source
   * line total carried over from line 0 across the empty line.
   */
  lemma TotalsCarryAcrossLines()
    ensures FromJsonSpec(Carried) == Success(SourceMap(None, None,
      map[(0, 1) := FirstRecord, (2, 0) := ThirdRecord], [[1], [], [0]]))
  {
    CarriedLines();
    CarriedFrom0();
  }
}
