/** What the Base64 VLQ codec promises: round trip, output shape, concatenation and decode counts. */
module Base64VlqProperties {
  import opened Wrappers
  import opened Base64Vlq

  /** Whether `c` is a symbol whose continuation flag is set. */
  predicate Flagged(c: char)
  {
    Table(c).Some? && Continues(Table(c).value)
  }

  /** The number of symbols of `s` that end an integer (valid, flag clear). */
  function Terminators(s: string): nat
  {
    if s == [] then 0
    else (if Table(s[0]).Some? && !Continues(Table(s[0]).value) then 1 else 0) + Terminators(s[1..])
  }

  lemma SymbolsAppend(a: seq<Sextet>, b: seq<Sextet>)
    ensures Symbols(a + b) == Symbols(a) + Symbols(b)
  {
  }

  lemma EncodeDigitsAppend(a: seq<int>, b: seq<int>)
    ensures EncodeDigits(a + b) == EncodeDigits(a) + EncodeDigits(b)
    decreases |a|
  {
    if a == [] {
      assert a + b == b;
    } else {
      assert (a + b)[0] == a[0];
      assert (a + b)[1..] == a[1..] + b;
      EncodeDigitsAppend(a[1..], b);
    }
  }

  /** Five more bits above `shift` add up to the whole magnitude. */
  lemma Regroup(n: nat, shift: nat, value: nat)
    ensures value + (n % 32) * Pow2(shift) + (n / 32) * Pow2(shift + ShiftSize) == value + n * Pow2(shift)
  {
    var p := Pow2(shift);
    Pow2Shift(shift);
    assert (n / 32) * (32 * p) == ((n / 32) * 32) * p;
    assert (n % 32) * p + ((n / 32) * 32) * p == ((n % 32) + (n / 32) * 32) * p;
  }

  /** The symbol values of `s`, or `None` when some character has no table entry. */
  function Codes(s: string): (r: Option<seq<Sextet>>)
    ensures r.Some? ==> |r.value| == |s|
  {
    if s == [] then Some([])
    else match Table(s[0])
      case None => None
      case Some(v) =>
        match Codes(s[1..])
        case None => None
        case Some(rest) => Some([v] + rest)
  }

  /** The decoding loop on symbol values that are already looked up. */
  function DecodeCodesFrom(ds: seq<Sextet>, shift: nat, value: nat, results: seq<int>): seq<int>
  {
    if ds == [] then results
    else
      var value' := value + (ds[0] % 32) * Pow2(shift);
      if Continues(ds[0]) then DecodeCodesFrom(ds[1..], shift + ShiftSize, value', results)
      else DecodeCodesFrom(ds[1..], 0, 0, results + [Signed(value')])
  }

  /** Decoding characters is looking every one of them up, then decoding the values. */
  lemma {:induction false} DecodeFromCodes(s: string, shift: nat, value: nat, results: seq<int>)
    ensures DecodeFrom(s, shift, value, results)
         == match Codes(s)
            case None => Failure(InvalidSymbol)
            case Some(ds) => Success(DecodeCodesFrom(ds, shift, value, results))
    decreases |s|
  {
    if s != [] && Table(s[0]).Some? {
      var v := Table(s[0]).value;
      ScaledNonNegative(v % 32, shift);
      var value' := value + (v % 32) * Pow2(shift);
      DecodeFromCodes(s[1..], shift + ShiftSize, value', results);
      DecodeFromCodes(s[1..], 0, 0, results + [Signed(value')]);
      if Codes(s[1..]).Some? {
        var ds := [v] + Codes(s[1..]).value;
        assert ds[0] == v && ds[1..] == Codes(s[1..]).value;
      }
    }
  }

  /** The table takes every emitted symbol back to its value. */
  lemma {:induction false} CodesOfSymbols(ds: seq<Sextet>)
    ensures Codes(Symbols(ds)) == Some(ds)
    decreases |ds|
  {
    if ds != [] {
      var s := Symbols(ds);
      TableOfSymbol(ds[0]);
      assert s[1..] == Symbols(ds[1..]);
      CodesOfSymbols(ds[1..]);
      assert ds == [ds[0]] + ds[1..];
    }
  }

  /** Five data bits with and without the continuation flag. */
  lemma FlagBits(d: nat)
    requires d < 32
    ensures !Continues(d) && d % 32 == d
    ensures Continues(d + Flag) && (d + Flag) % 32 == d
  {
  }

  /** One symbol value of the decoding loop. */
  lemma DecodeCodesCons(d: Sextet, ds: seq<Sextet>, shift: nat, value: nat, results: seq<int>)
    ensures DecodeCodesFrom([d] + ds, shift, value, results)
      == if Continues(d) then DecodeCodesFrom(ds, shift + ShiftSize, value + (d % 32) * Pow2(shift), results)
         else DecodeCodesFrom(ds, 0, 0, results + [Signed(value + (d % 32) * Pow2(shift))])
  {
    assert ([d] + ds)[0] == d && ([d] + ds)[1..] == ds;
  }

  /**
   * Decoding the run of `n` in the middle of a decode, with `shift` and
   * `value` already accumulated, completes exactly one integer and resumes
   * from a fresh state on the rest.
   */
  lemma {:induction false} DecodeDigits(n: nat, rest: seq<Sextet>, shift: nat, value: nat, results: seq<int>)
    ensures DecodeCodesFrom(Digits(n) + rest, shift, value, results)
         == DecodeCodesFrom(rest, 0, 0, results + [Signed(value + n * Pow2(shift))])
    decreases n
  {
    DigitsStep(n);
    FlagBits(n % 32);
    ScaledNonNegative(n % 32, shift);
    if n / 32 == 0 {
      assert n % 32 == n;
      assert Digits(n) + rest == [n % 32] + rest;
      DecodeCodesCons(n % 32, rest, shift, value, results);
    } else {
      assert Digits(n) + rest == [n % 32 + Flag] + (Digits(n / 32) + rest);
      DecodeCodesCons(n % 32 + Flag, Digits(n / 32) + rest, shift, value, results);
      var value' := value + (n % 32) * Pow2(shift);
      DecodeDigits(n / 32, rest, shift + ShiftSize, value', results);
      Regroup(n, shift, value);
    }
  }

  /** The sign convention inverts the zig-zag step. */
  lemma SignedZigZag(v: int)
    ensures Signed(ZigZag(v)) == v
  {
  }

  lemma {:induction false} DecodeEncodeFrom(values: seq<int>, results: seq<int>)
    ensures DecodeCodesFrom(EncodeDigits(values), 0, 0, results) == results + values
    decreases |values|
  {
    if values == [] {
      assert results + values == results;
    } else {
      var v := values[0];
      DecodeDigits(ZigZag(v), EncodeDigits(values[1..]), 0, 0, results);
      assert Signed(0 + ZigZag(v) * Pow2(0)) == v by {
        SignedZigZag(v);
      }
      DecodeEncodeFrom(values[1..], results + [v]);
      assert results + [v] + values[1..] == results + values;
    }
  }

  /** Round trip: decoding what `base64vlq_encode` produced gives back every integer, in order. */
  lemma RoundTrip(values: seq<int>)
    ensures Decode(Encode(values)) == Success(values)
  {
    DecodeFromCodes(Encode(values), 0, 0, []);
    CodesOfSymbols(EncodeDigits(values));
    DecodeEncodeFrom(values, []);
    assert [] + values == values;
  }

  /**
   * Concatenation: `base64vlq_encode()` is empty, and encoding a list is
   * encoding its first integer followed by encoding the rest; more generally
   * the encoding of a concatenation is the concatenation of the encodings.
   */
  lemma EncodeConcat(a: seq<int>, b: seq<int>)
    ensures Encode([]) == ""
    ensures Encode(a + b) == Encode(a) + Encode(b)
    ensures a != [] ==> Encode(a) == EncodeValue(a[0]) + Encode(a[1..])
  {
    EncodeDigitsAppend(a, b);
    SymbolsAppend(EncodeDigits(a), EncodeDigits(b));
    if a != [] {
      SymbolsAppend(Digits(ZigZag(a[0])), EncodeDigits(a[1..]));
    }
  }

  /** Every character `base64vlq_encode` emits is one of the 64 symbols. */
  lemma EncodeInAlphabet(values: seq<int>)
    ensures forall k :: 0 <= k < |Encode(values)| ==> Encode(values)[k] in Alphabet && Table(Encode(values)[k]).Some?
  {
    forall k | 0 <= k < |Encode(values)|
      ensures Encode(values)[k] in Alphabet && Table(Encode(values)[k]).Some?
    {
      var d := EncodeDigits(values)[k];
      TableOfSymbol(d);
      assert Alphabet[d] == Encode(values)[k];
    }
  }

  lemma {:induction false} DigitsShape(n: nat)
    ensures forall k :: 0 <= k < |Digits(n)| ==> (Continues(Digits(n)[k]) <==> k < |Digits(n)| - 1)
    decreases n
  {
    var ds := Digits(n);
    if n / 32 != 0 {
      DigitsShape(n / 32);
      assert ds == [ds[0]] + Digits(n / 32);
    }
  }

  /**
   * Within the run of one integer every symbol but the last has the
   * continuation flag set, and the last does not.
   */
  lemma RunShape(v: int)
    ensures forall k :: 0 <= k < |EncodeValue(v)| ==> (Flagged(EncodeValue(v)[k]) <==> k < |EncodeValue(v)| - 1)
  {
    var ds := Digits(ZigZag(v));
    DigitsShape(ZigZag(v));
    forall k | 0 <= k < |ds| ensures Table(EncodeValue(v)[k]) == Some(ds[k]) {
      TableOfSymbol(ds[k]);
    }
  }

  /** An integer takes exactly one symbol precisely when its magnitude is below 16. */
  lemma ShortValue(v: int)
    ensures |EncodeValue(v)| == 1 <==> -16 < v < 16
  {
    if ZigZag(v) >= 32 {
      assert |Digits(ZigZag(v))| == 1 + |Digits(ZigZag(v) / 32)|;
    }
  }

  /** The sign bit is the lowest bit of the first symbol of the run. */
  lemma SignInFirstSymbol(v: int)
    ensures Table(EncodeValue(v)[0]).Some?
    ensures Table(EncodeValue(v)[0]).value % 2 == 1 <==> v < 0
  {
    TableOfSymbol(Digits(ZigZag(v))[0]);
  }

  /** A single symbol without the flag decodes to the one integer it carries. */
  lemma DecodeSingle(d: Sextet)
    requires !Continues(d)
    ensures Decode([Symbol(d)]) == Success([Signed(d)])
  {
    assert Symbols([d]) == [Symbol(d)];
    CodesOfSymbols([d]);
    DecodeFromCodes([Symbol(d)], 0, 0, []);
    assert [d][1..] == [];
    assert d % 32 == d && Pow2(0) == 1;
    assert [] + [Signed(0 + d * 1)] == [Signed(d)];
  }

  /** "B", the negative zero, is never a run `base64vlq_encode` produces, although it decodes to 0. */
  lemma NoNegativeZero(v: int)
    ensures EncodeValue(v) != "B"
    ensures Decode("B") == Success([0])
  {
    SignInFirstSymbol(v);
    assert Symbol(1) == 'B';
    DecodeSingle(1);
    if EncodeValue(v) == "B" {
      assert false;
    }
  }

  /** The known vectors of the format: "A" is 0, "C" is 1, "D" is -1 and "gB" is 16. */
  lemma KnownVectors()
    ensures Encode([0]) == "A"
    ensures Decode("A") == Success([0])
    ensures Decode("C") == Success([1])
    ensures Decode("D") == Success([-1])
    ensures Decode("gB") == Success([16])
  {
    assert Symbol(0) == 'A' && Symbol(2) == 'C' && Symbol(3) == 'D';
    assert EncodeDigits([0]) == [0] by {
      DigitsStep(0);
      assert [0][1..] == [];
    }
    assert Symbols([0]) == "A";
    DecodeSingle(0);
    DecodeSingle(2);
    DecodeSingle(3);
    GbVector();
  }

  /** 16 needs two symbols: "g" (flagged, bits 0-4 clear) and "B" (one bit above them). */
  lemma GbVector()
    ensures Symbols(Digits(32)) == "gB"
    ensures Decode("gB") == Success([16])
  {
    DigitsStep(32);
    DigitsStep(1);
    assert Digits(32) == [32, 1];
    assert Symbol(32) == 'g' && Symbol(1) == 'B';
    assert Symbols([32, 1]) == "gB";
    CodesOfSymbols([32, 1]);
    DecodeFromCodes("gB", 0, 0, []);
    assert [32, 1] + [] == [32, 1];
    DecodeDigits(32, [], 0, 0, []);
    assert Signed(0 + 32 * Pow2(0)) == 16;
    assert [] + [16] == [16];
  }

  /** Three integers of each kind: a positive, a negative and a two-symbol one. */
  lemma EncodeVector()
    ensures Encode([1, -1, 16]) == "CDgB"
  {
    assert EncodeDigits([1, -1, 16]) == [2, 3, 32, 1] by {
      assert [1, -1, 16][1..] == [-1, 16];
      assert [-1, 16][1..] == [16];
      assert [16][1..] == [];
      DigitsStep(2);
      DigitsStep(3);
      DigitsStep(32);
      DigitsStep(1);
    }
    assert Symbol(2) == 'C' && Symbol(3) == 'D' && Symbol(32) == 'g' && Symbol(1) == 'B';
    assert Symbols([2, 3, 32, 1]) == "CDgB";
  }

  lemma {:induction false} DecodeFromSucceeds(s: string, shift: nat, value: nat, results: seq<int>)
    ensures DecodeFrom(s, shift, value, results).Success? <==> forall k :: 0 <= k < |s| ==> Table(s[k]).Some?
    ensures DecodeFrom(s, shift, value, results).Success? ==>
      |DecodeFrom(s, shift, value, results).value| == |results| + Terminators(s)
    decreases |s|
  {
    if s != [] {
      var v := Table(s[0]);
      if v.Some? {
        var value' := value + (v.value % 32) * Pow2(shift);
        if Continues(v.value) {
          DecodeFromSucceeds(s[1..], shift + ShiftSize, value', results);
        } else {
          DecodeFromSucceeds(s[1..], 0, 0, results + [Signed(value')]);
        }
        assert forall k :: 1 <= k < |s| ==> s[k] == s[1..][k - 1];
      }
    }
  }

  /**
   * Decode counts: decoding succeeds exactly when every character is a symbol,
   * an empty run gives no integers, and a successful decode yields one
   * integer per symbol whose continuation flag is clear.
   */
  lemma DecodeCounts(s: string)
    ensures Decode("") == Success([])
    ensures Decode(s).Success? <==> forall k :: 0 <= k < |s| ==> Table(s[k]).Some?
    ensures Decode(s).Failure? <==> exists k :: 0 <= k < |s| && s[k] !in Alphabet
    ensures Decode(s).Success? ==> |Decode(s).value| == Terminators(s)
  {
    DecodeFromSucceeds(s, 0, 0, []);
    forall k | 0 <= k < |s| ensures Table(s[k]).Some? <==> s[k] in Alphabet {
      TableDefinedOnAlphabet(s[k]);
    }
  }

  lemma {:induction false} OnlyFlaggedLeft(t: string, shift: nat, value: nat, results: seq<int>)
    requires forall k :: 0 <= k < |t| ==> Flagged(t[k])
    ensures DecodeFrom(t, shift, value, results) == Success(results)
    decreases |t|
  {
    if t != [] {
      var v := Table(t[0]).value;
      OnlyFlaggedLeft(t[1..], shift + ShiftSize, value + (v % 32) * Pow2(shift), results);
    }
  }

  lemma {:induction false} DropTrailingFrom(s: string, t: string, shift: nat, value: nat, results: seq<int>)
    requires forall k :: 0 <= k < |t| ==> Flagged(t[k])
    ensures DecodeFrom(s + t, shift, value, results) == DecodeFrom(s, shift, value, results)
    decreases |s|
  {
    if s == [] {
      assert s + t == t;
      OnlyFlaggedLeft(t, shift, value, results);
    } else {
      assert (s + t)[0] == s[0];
      assert (s + t)[1..] == s[1..] + t;
      var v := Table(s[0]);
      if v.Some? {
        var value' := value + (v.value % 32) * Pow2(shift);
        if Continues(v.value) {
          DropTrailingFrom(s[1..], t, shift + ShiftSize, value', results);
        } else {
          DropTrailingFrom(s[1..], t, 0, 0, results + [Signed(value')]);
        }
      }
    }
  }

  /** A trailing run of flagged symbols with no terminator is silently dropped. */
  lemma DropsUnterminatedRun(s: string, t: string)
    requires forall k :: 0 <= k < |t| ==> Flagged(t[k])
    ensures Decode(s + t) == Decode(s)
  {
    DropTrailingFrom(s, t, 0, 0, []);
  }
}
