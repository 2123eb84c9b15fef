/**
 * Base64 VLQ, the integer encoding of the `mappings` field of a source map.
 *
 * Every symbol of the 64-character alphabet stands for a 6-bit value: bit 5
 * is a continuation flag and bits 0-4 carry five bits of the integer, least
 * significant group first. In the first group of an integer the lowest bit is
 * the sign, so the magnitude starts at bit 1 (this is not two's complement).
 *
 * Dafny has no bitwise operators on `int`: `v & 31` is written `v % 32`,
 * `v >> 5` is `v / 32`, `x << n` is `x * Pow2(n)` and the flag test
 * `v & 32` is `(v / 32) % 2 == 1`, which agree for the non-negative values
 * the codec works on.
 */
module Base64Vlq {
  import opened Wrappers

  /** The value of one symbol. */
  type Sextet = d: int | 0 <= d < 64

  /** `_b64chars[d]`: "A".."Z", "a".."z", "0".."9", "+" and "/" stand for 0..63 in that order. */
  function Symbol(d: Sextet): char
  {
    if d < 26 then ('A' as int + d) as char
    else if d < 52 then ('a' as int + (d - 26)) as char
    else if d < 62 then ('0' as int + (d - 52)) as char
    else if d == 62 then '+'
    else '/'
  }

  /** `_b64chars`, the 64 symbols in value order. */
  const Alphabet: string := seq(64, d requires 0 <= d < 64 => Symbol(d))

  /** `max(_b64chars) + 1`: the reverse table has a slot for each code point up to "z". */
  const TableSize: nat := 'z' as int + 1

  const ShiftSize: nat := 5
  /** `_flag`, bit 5. `v & _mask`, bits 0 to 4, is written `v % 32` below. */
  const Flag: nat := 32

  /** The failure of `base64vlq_decode` on a character that has no table entry. */
  datatype VlqError = InvalidSymbol

  /**
   * `_b64table[ord(c)]`: the value of `c`, or `None` for a code point that is
   * not in the alphabet (including those past the end of the table and the
   * non-ASCII ones, which make the source raise before the lookup).
   */
  function Table(c: char): (r: Option<Sextet>)
    ensures r.Some? ==> Symbol(r.value) == c
    ensures r.Some? ==> c as int < TableSize
  {
    if 'A' <= c <= 'Z' then Some(c as int - 'A' as int)
    else if 'a' <= c <= 'z' then Some(c as int - 'a' as int + 26)
    else if '0' <= c <= '9' then Some(c as int - '0' as int + 52)
    else if c == '+' then Some(62)
    else if c == '/' then Some(63)
    else None
  }

  /** The reverse table maps every symbol back to its value. */
  lemma TableOfSymbol(d: Sextet)
    ensures Table(Symbol(d)) == Some(d)
  {
  }

  /** A character has a table entry exactly when it is one of the 64 symbols. */
  lemma TableDefinedOnAlphabet(c: char)
    ensures Table(c).Some? <==> c in Alphabet
  {
    if c in Alphabet {
      var d :| 0 <= d < 64 && Alphabet[d] == c;
      TableOfSymbol(d);
    }
    if Table(c).Some? {
      assert Alphabet[Table(c).value] == c;
    }
  }

  /** The reverse table as an array indexed by code point, as `base64vlq.py` keeps it. */
  ghost predicate IsReverseTable(table: array<Option<Sextet>>)
    reads table
  {
    table.Length == TableSize && forall b :: 0 <= b < TableSize ==> table[b] == Table(b as char)
  }

  /**
   * The load-time loop that fills `_b64table`: every slot starts as `None` and
   * each symbol's slot receives its value.
   */
  method BuildTable() returns (table: array<Option<Sextet>>)
    ensures table.Length == TableSize
    ensures forall b :: 0 <= b < TableSize ==> table[b] == Table(b as char)
  {
    table := new Option<Sextet>[TableSize](_ => None);
    for i := 0 to 64
      invariant forall b :: 0 <= b < TableSize ==>
        table[b] == if Table(b as char).Some? && Table(b as char).value < i then Table(b as char) else None
    {
      TableOfSymbol(i);
      table[Symbol(i) as int] := Some(i);
    }
  }

  function Pow2(n: nat): (p: nat)
    ensures p >= 1
  {
    if n == 0 then 1 else 2 * Pow2(n - 1)
  }

  /** A digit moved up by `shift` bits stays non-negative. */
  lemma ScaledNonNegative(d: nat, shift: nat)
    ensures d * Pow2(shift) >= 0
  {
  }

  lemma Pow2Shift(n: nat)
    ensures Pow2(n + ShiftSize) == Flag * Pow2(n)
  {
    assert Pow2(n + 5) == 2 * Pow2(n + 4) == 4 * Pow2(n + 3) == 8 * Pow2(n + 2) == 16 * Pow2(n + 1);
  }

  /** The integer an accumulated group value stands for: bit 0 is the sign, the rest the magnitude. */
  function Signed(value: nat): int
  {
    (value / 2) * (if value % 2 == 1 then -1 else 1)
  }

  /** Whether a symbol value has the continuation flag set. */
  predicate Continues(v: Sextet)
  {
    (v / Flag) % 2 == 1
  }

  /**
   * The decoding loop of `base64vlq_decode` from a given state: `shift` and
   * `value` accumulate the integer in progress and `results` holds those
   * already complete. A run of flagged symbols at the end is dropped.
   */
  function DecodeFrom(s: string, shift: nat, value: nat, results: seq<int>): Result<seq<int>, VlqError>
    decreases |s|
  {
    if s == [] then Success(results)
    else match Table(s[0])
      case None => Failure(InvalidSymbol)
      case Some(v) =>
        var value' := value + (v % 32) * Pow2(shift);
        if Continues(v) then DecodeFrom(s[1..], shift + ShiftSize, value', results)
        else DecodeFrom(s[1..], 0, 0, results + [Signed(value')])
  }

  /** `base64vlq_decode`. */
  function Decode(s: string): Result<seq<int>, VlqError>
  {
    DecodeFrom(s, 0, 0, [])
  }

  /** One turn of the decoding loop on a symbol with a table entry. */
  lemma DecodeFromSymbol(s: string, shift: nat, value: nat, results: seq<int>, v: Sextet)
    requires s != [] && Table(s[0]) == Some(v)
    ensures DecodeFrom(s, shift, value, results)
      == if Continues(v) then DecodeFrom(s[1..], shift + ShiftSize, value + (v % 32) * Pow2(shift), results)
         else DecodeFrom(s[1..], 0, 0, results + [Signed(value + (v % 32) * Pow2(shift))])
  {
  }

  /** The decoding loop stops with an error at a symbol without a table entry. */
  lemma DecodeFromInvalid(s: string, shift: nat, value: nat, results: seq<int>)
    requires s != [] && Table(s[0]).None?
    ensures DecodeFrom(s, shift, value, results) == Failure(InvalidSymbol)
  {
  }

  /** `base64vlq_decode` as `base64vlq.py` runs it: a loop over the characters with the reverse table. */
  method DecodeVlq(table: array<Option<Sextet>>, vlqval: string) returns (r: Result<seq<int>, VlqError>)
    requires IsReverseTable(table)
    ensures r == Decode(vlqval)
  {
    var results: seq<int> := [];
    var shift: nat, value: nat := 0, 0;
    for i := 0 to |vlqval|
      invariant DecodeFrom(vlqval[i..], shift, value, results) == Decode(vlqval)
    {
      var rest := vlqval[i..];
      assert rest[0] == vlqval[i] && rest[1..] == vlqval[i + 1..];
      var b := vlqval[i] as int;
      if b >= table.Length {
        DecodeFromInvalid(rest, shift, value, results);
        return Failure(InvalidSymbol);
      }
      var entry := table[b];
      if entry.None? {
        DecodeFromInvalid(rest, shift, value, results);
        return Failure(InvalidSymbol);
      }
      var v := entry.value;
      DecodeFromSymbol(rest, shift, value, results, v);
      ScaledNonNegative(v % 32, shift);
      value := value + (v % 32) * Pow2(shift);
      if (v / Flag) % 2 == 1 {
        shift := shift + ShiftSize;
        continue;
      }
      results := results + [(value / 2) * (if value % 2 == 1 then -1 else 1)];
      shift, value := 0, 0;
    }
    assert vlqval[|vlqval|..] == [];
    r := Success(results);
  }

  /** `(abs(v) << 1) | int(v < 0)`: the magnitude moved up one bit with the sign below it. */
  function ZigZag(v: int): nat
  {
    if v < 0 then -v * 2 + 1 else v * 2
  }

  /**
   * The symbol values the inner loop of `base64vlq_encode` emits for a
   * non-negative `n`: five bits at a time, least significant first, each
   * flagged while bits remain.
   */
  function Digits(n: nat): (ds: seq<Sextet>)
    ensures |ds| >= 1
    decreases n
  {
    var rest := n / 32;
    [n % 32 + (if rest != 0 then Flag else 0)] + (if rest == 0 then [] else Digits(rest))
  }

  /** The symbol values of all of `values`, one run after another. */
  function EncodeDigits(values: seq<int>): seq<Sextet>
  {
    if values == [] then [] else Digits(ZigZag(values[0])) + EncodeDigits(values[1..])
  }

  /** `bytes(map(_b64chars.__getitem__, results)).decode()`. */
  function Symbols(ds: seq<Sextet>): (s: string)
    ensures |s| == |ds|
  {
    seq(|ds|, k requires 0 <= k < |ds| => Symbol(ds[k]))
  }

  /** `base64vlq_encode(*values)`. */
  function Encode(values: seq<int>): string
  {
    Symbols(EncodeDigits(values))
  }

  /** The run of symbols `base64vlq_encode` gives one integer. */
  function EncodeValue(v: int): string
  {
    Symbols(Digits(ZigZag(v)))
  }

  /** One turn of the inner encoding loop: the low five bits, flagged while more remain. */
  lemma DigitsStep(n: nat)
    ensures n / 32 == 0 ==> Digits(n) == [n % 32]
    ensures n / 32 != 0 ==> Digits(n) == [n % 32 + Flag] + Digits(n / 32)
  {
  }

  /**
   * One turn of the inner encoding loop keeps `done + Digits(v)` fixed, and
   * the turn that leaves nothing to encode completes the run.
   */
  lemma EncodeTurn(done: seq<Sextet>, n: nat, target: seq<Sextet>)
    requires done + Digits(n) == target
    ensures n / 32 == 0 ==> done + [n % 32] == target
    ensures n / 32 != 0 ==> done + [n % 32 + Flag] + Digits(n / 32) == target
  {
    DigitsStep(n);
  }

  /** The outer encoding loop moves one integer's run from what is left to what is done. */
  lemma EncodeDigitsStep(values: seq<int>, i: nat, done: seq<Sextet>)
    requires i < |values|
    ensures done + EncodeDigits(values[i..]) == done + Digits(ZigZag(values[i])) + EncodeDigits(values[i + 1..])
  {
    assert values[i..][1..] == values[i + 1..];
  }

  /** `base64vlq_encode` as `base64vlq.py` runs it: an outer loop over the values and a `while True` loop per value. */
  method EncodeVlq(values: seq<int>) returns (s: string)
    ensures s == Encode(values)
  {
    var results: seq<Sextet> := [];
    assert values[0..] == values;
    for i := 0 to |values|
      invariant results + EncodeDigits(values[i..]) == EncodeDigits(values)
    {
      ghost var start := results;
      var v: nat := ZigZag(values[i]);
      while true
        invariant results + Digits(v) == start + Digits(ZigZag(values[i]))
        decreases v
      {
        EncodeTurn(results, v, start + Digits(ZigZag(values[i])));
        var toencode;
        toencode, v := v % 32, v / 32;
        results := results + [toencode + (if v != 0 then Flag else 0)];
        if v == 0 {
          break;
        }
      }
      EncodeDigitsStep(values, i, start);
    }
    assert values[|values|..] == [];
    s := Symbols(results);
  }
}
