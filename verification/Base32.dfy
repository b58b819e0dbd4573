/** Crockford base32 as the Recovery Kit uses it (core/vault-core/src/recovery.rs:27-85).

    The loops keep a 32-bit accumulator whose high bits fall off as bytes are shifted in. Their
    specification is arithmetic: a byte string read as one base-256 number, and the digits of
    that number in base 32. The accumulator is that number modulo 2^32. Where the source joins
    disjoint bits with `|` the model adds. */
module Base32 {
  import opened Wrappers
  import opened Numbers

  const ALPHABET: string := "0123456789" + "ABCDEFGHJKMNPQRSTVWXYZ"

  const WORD: nat := 0x1_0000_0000

  // ---- The 32-bit accumulator

  /** `(buffer << n) | low` on a u32, for `low` below 2^n: the bits shifted out are lost. */
  function ShiftIn(buffer: nat, n: nat, low: nat): nat {
    (buffer * Pow2(n) + low) % WORD
  }

  /** `(buffer >> n) & (size - 1)` for `size` a power of two. */
  function Extract(buffer: nat, n: nat, size: nat): (field: nat)
    requires size > 0
    ensures field < size
  {
    buffer / Pow2(n) % size
  }

  /** Truncating to a multiple of `a * b` does not change the `b`-sized field above `a`. */
  lemma FieldSurvives(value: nat, a: nat, b: nat, k: nat)
    requires a > 0 && b > 0 && k > 0
    ensures (value % (a * b * k)) / a % b == value / a % b
  {
    var m := a * b * k;
    MulPositive(a, b);
    MulPositive(a * b, k);
    DivModBounds(value, m);
    var q, r := value / m, value % m;
    assert value == a * (b * (k * q)) + r by {
      assert m * q == a * (b * (k * q));
    }
    DivShift(r, a, b * (k * q));
    DivModBounds(r, a);
    ModShift(r / a, b, k * q);
  }

  /** Truncation commutes with shifting in. */
  lemma ShiftInTruncates(value: nat, width: nat, low: nat)
    ensures ShiftIn(value % WORD, width, low) == (value * Pow2(width) + low) % WORD
  {
    DivModBounds(value, WORD);
    var p := Pow2(width);
    var q, r := value / WORD, value % WORD;
    assert value * p + low == WORD * (q * p) + (r * p + low);
    ModShift(r * p + low, WORD, q * p);
  }

  lemma WordIsPower()
    ensures Pow(2, 32) == WORD
  {
    PowAdd(2, 16, 16);
    PowAdd(2, 8, 8);
    assert Pow(2, 8) == 256;
  }

  lemma WordSplits(n: nat)
    requires n <= 32
    ensures WORD == Pow2(n) * Pow2(32 - n)
  {
    PowAdd(2, n, 32 - n);
    WordIsPower();
  }

  /** A field of the accumulator is the same field of the number it truncates. */
  lemma ExtractSeesThrough(value: nat, n: nat, width: nat)
    requires n + width <= 32
    ensures Extract(value % WORD, n, Pow2(width)) == value / Pow2(n) % Pow2(width)
  {
    WordSplits(n + width);
    PowAdd(2, n, width);
    FieldSurvives(value, Pow2(n), Pow2(width), Pow2(32 - (n + width)));
  }

  /** The accumulator supplies the field that extends the bits above it. */
  lemma NextField(value: nat, n: nat, width: nat)
    requires n + width <= 32
    ensures value / Pow2(n)
         == value / Pow2(n + width) * Pow2(width) + Extract(value % WORD, n, Pow2(width))
  {
    ExtractSeesThrough(value, n, width);
    ShiftSplit(value, n, width);
  }

  lemma SmallPowers()
    ensures Pow2(0) == 1 && Pow2(1) == 2 && Pow2(2) == 4 && Pow2(3) == 8
    ensures Pow2(5) == 32 && Pow2(8) == 256
  {
    assert Pow2(4) == 16;
  }

  // ---- Encoding

  /** Characters for `n` bytes: enough 5-bit groups for 8n bits, the last padded with zeros. */
  function EncodedLen(n: nat): nat {
    (8 * n + 4) / 5
  }

  function Padding(n: nat): nat {
    5 * EncodedLen(n) - 8 * n
  }

  function Symbols(quintets: seq<int>): string
    requires AreDigits(quintets, 32)
  {
    seq(|quintets|, k requires 0 <= k < |quintets| => ALPHABET[quintets[k]])
  }

  /** The 5-bit regrouping of a byte string, as digits. */
  function Regrouped(data: seq<Byte>): (quintets: seq<int>)
    ensures |quintets| == EncodedLen(|data|) && AreDigits(quintets, 32)
  {
    ValueBounds(data, 256);
    MulNonNegative(Value(data, 256), Pow2(Padding(|data|)));
    Digits(Value(data, 256) * Pow2(Padding(|data|)), 32, EncodedLen(|data|))
  }

  function Encode(data: seq<Byte>): string {
    Symbols(Regrouped(data))
  }

  /** What the inner loop keeps: `quintets` is all but the last `bits` bits of `value`. */
  predicate Regroups(quintets: seq<int>, value: nat, bits: nat, read: nat) {
    && AreDigits(quintets, 32)
    && 5 * |quintets| + bits == read
    && Value(quintets, 32) == value / Pow2(bits)
  }

  lemma EmitQuintet(quintets: seq<int>, value: nat, bits: nat, read: nat)
    requires Regroups(quintets, value, bits, read) && 5 <= bits <= 12
    ensures Regroups(quintets + [Extract(value % WORD, bits - 5, 32)], value, bits - 5, read)
  {
    SmallPowers();
    NextField(value, bits - 5, 5);
    ValueAppend(quintets, Extract(value % WORD, bits - 5, 32), 32);
  }

  lemma ReadByte(quintets: seq<int>, value: nat, bits: nat, read: nat, byte: Byte)
    requires Regroups(quintets, value, bits, read)
    ensures Regroups(quintets, value * 256 + byte, bits + 8, read + 8)
    ensures ShiftIn(value % WORD, 8, byte) == (value * 256 + byte) % WORD
  {
    SmallPowers();
    ShiftInOut(value, bits, 8, byte);
    ShiftInTruncates(value, 8, byte);
  }

  lemma EmitLast(quintets: seq<int>, value: nat, bits: nat, read: nat)
    requires Regroups(quintets, value, bits, read) && 0 < bits < 5
    ensures var last := Extract(ShiftIn(value % WORD, 5 - bits, 0), 0, 32);
            Regroups(quintets + [last], value * Pow2(5 - bits), 0, read + 5 - bits)
  {
    var shifted := value * Pow2(5 - bits);
    SmallPowers();
    MulNonNegative(value, Pow2(5 - bits));
    ShiftInTruncates(value, 5 - bits, 0);
    NextField(shifted, 0, 5);
    ShiftInOut(value, bits, 5 - bits, 0);
    ValueAppend(quintets, Extract(shifted % WORD, 0, 32), 32);
  }

  lemma IsRegrouped(quintets: seq<int>, data: seq<Byte>)
    requires AreDigits(quintets, 32) && |quintets| == EncodedLen(|data|)
    requires Value(quintets, 32) == Value(data, 256) * Pow2(Padding(|data|))
    ensures quintets == Regrouped(data)
  {
    DigitsOfValue(quintets, 32);
  }

  lemma GroupsNeeded(n: nat, groups: nat, bits: nat)
    requires 5 * groups + bits == 8 * n && bits < 5
    ensures if bits == 0 then EncodedLen(n) == groups && Padding(n) == 0
            else EncodedLen(n) == groups + 1 && Padding(n) == 5 - bits
  {
  }

  /** The leftover bits, padded with zeros, complete the regrouping. */
  lemma Completed(quintets: seq<int>, data: seq<Byte>, value: nat, bits: nat)
    requires value == Value(data, 256) && bits < 5 && Regroups(quintets, value, bits, 8 * |data|)
    ensures Regrouped(data) ==
            if bits == 0 then quintets
            else quintets + [Extract(ShiftIn(value % WORD, 5 - bits, 0), 0, 32)]
  {
    GroupsNeeded(|data|, |quintets|, bits);
    SmallPowers();
    if bits == 0 {
      IsRegrouped(quintets, data);
    } else {
      var last := Extract(ShiftIn(value % WORD, 5 - bits, 0), 0, 32);
      EmitLast(quintets, value, bits, 8 * |data|);
      IsRegrouped(quintets + [last], data);
    }
  }

  /** The number that the first `i` bytes make. */
  function Prefix(data: seq<Byte>, i: nat): nat
    requires i <= |data|
  {
    ValueBounds(data[..i], 256);
    Value(data[..i], 256)
  }

  lemma PrefixGrows(data: seq<Byte>, i: nat)
    requires i < |data|
    ensures Prefix(data, i + 1) == Prefix(data, i) * 256 + data[i]
  {
    assert data[..i + 1] == data[..i] + [data[i]];
    ValueAppend(data[..i], data[i], 256);
  }

  /** What the loops have after reading `i` bytes. */
  predicate Encoding(data: seq<Byte>, i: nat, quintets: seq<int>, out: string, buffer: nat, bits: nat) {
    && i <= |data| && buffer == Prefix(data, i) % WORD
    && Regroups(quintets, Prefix(data, i), bits, 8 * i)
    && out == Symbols(quintets)
  }

  lemma EncodesOne(data: seq<Byte>, i: nat, quintets: seq<int>, out: string, buffer: nat, bits: nat)
    requires i < |data| && Encoding(data, i, quintets, out, buffer, bits)
    ensures Encoding(data, i + 1, quintets, out, ShiftIn(buffer, 8, data[i]), bits + 8)
  {
    PrefixGrows(data, i);
    ReadByte(quintets, Prefix(data, i), bits, 8 * i, data[i]);
  }

  lemma EmitsOne(data: seq<Byte>, i: nat, quintets: seq<int>, out: string, buffer: nat, bits: nat)
    requires Encoding(data, i, quintets, out, buffer, bits) && 5 <= bits <= 12
    ensures var quintet := Extract(buffer, bits - 5, 32);
            Encoding(data, i, quintets + [quintet], out + [ALPHABET[quintet]], buffer, bits - 5)
  {
    EmitQuintet(quintets, Prefix(data, i), bits, 8 * i);
    SymbolsAppend(quintets, Extract(buffer, bits - 5, 32));
  }

  lemma SymbolsAppend(quintets: seq<int>, quintet: nat)
    requires AreDigits(quintets, 32) && quintet < 32
    ensures Symbols(quintets + [quintet]) == Symbols(quintets) + [ALPHABET[quintet]]
  {
  }

  lemma Encoded(data: seq<Byte>, quintets: seq<int>, out: string, buffer: nat, bits: nat)
    requires bits < 5 && Encoding(data, |data|, quintets, out, buffer, bits)
    ensures Encode(data) ==
            if bits == 0 then out else out + [ALPHABET[Extract(ShiftIn(buffer, 5 - bits, 0), 0, 32)]]
  {
    assert data[..|data|] == data;
    Completed(quintets, data, Prefix(data, |data|), bits);
    if bits > 0 {
      SymbolsAppend(quintets, Extract(ShiftIn(buffer, 5 - bits, 0), 0, 32));
    }
  }

  method EncodeBase32(data: seq<Byte>) returns (out: string)
    ensures out == Encode(data)
  {
    out := "";
    var buffer: nat := 0;
    var bits: nat := 0;
    ghost var quintets: seq<int> := [];
    for i := 0 to |data|
      invariant bits < 5 && Encoding(data, i, quintets, out, buffer, bits)
    {
      EncodesOne(data, i, quintets, out, buffer, bits);
      buffer := ShiftIn(buffer, 8, data[i]);
      bits := bits + 8;
      while bits >= 5
        invariant bits <= 12 && Encoding(data, i + 1, quintets, out, buffer, bits)
      {
        EmitsOne(data, i + 1, quintets, out, buffer, bits);
        bits := bits - 5;
        quintets := quintets + [Extract(buffer, bits, 32)];
        out := out + [ALPHABET[Extract(buffer, bits, 32)]];
      }
    }
    Encoded(data, quintets, out, buffer, bits);
    if bits > 0 {
      out := out + [ALPHABET[Extract(ShiftIn(buffer, 5 - bits, 0), 0, 32)]];
    }
  }

  // ---- Decoding

  datatype DecodeError =
    | InvalidCharacter(c: char)
    | NonZeroPadding
    | WrongLength(expected: nat, got: nat)

  function Upper(c: char): char {
    if 'a' <= c <= 'z' then (c as int - 'a' as int + 'A' as int) as char else c
  }

  /** Crockford's folding: upper case, O read as 0, I and L as 1. */
  function Fold(c: char): char {
    match Upper(c)
    case 'O' => '0'
    case 'I' => '1'
    case 'L' => '1'
    case other => other
  }

  function Folded(s: string): string {
    seq(|s|, k requires 0 <= k < |s| => Fold(s[k]))
  }

  /** The place of the folded character in the alphabet, run by run (see `DecodeCharFinds`). */
  function DecodeChar(c: char): (quintet: Option<nat>)
    ensures quintet.Some? ==> quintet.value < 32
  {
    var f := Fold(c);
    var place := f as int;
    if '0' <= f <= '9' then Some(place - '0' as int)
    else if 'A' <= f <= 'H' then Some(place - 'A' as int + 10)
    else if 'J' <= f <= 'K' then Some(place - 'J' as int + 18)
    else if 'M' <= f <= 'N' then Some(place - 'M' as int + 20)
    else if 'P' <= f <= 'T' then Some(place - 'P' as int + 22)
    else if 'V' <= f <= 'Z' then Some(place - 'V' as int + 27)
    else None
  }

  predicate Decodable(s: string) {
    forall k | 0 <= k < |s| :: DecodeChar(s[k]).Some?
  }

  function Quintets(s: string): (quintets: seq<int>)
    requires Decodable(s)
    ensures |quintets| == |s| && AreDigits(quintets, 32)
  {
    seq(|s|, k requires 0 <= k < |s| => DecodeChar(s[k]).value)
  }

  function FirstBad(s: string): (c: char)
    requires !Decodable(s)
    ensures DecodeChar(c).None?
  {
    if DecodeChar(s[0]).None? then s[0] else FirstBad(s[1..])
  }

  /** Decoding, as digits: the characters are one base-32 number; whole bytes come off its top,
      and what is left below them must be zero. */
  function Decode(s: string, expected: nat): Result<seq<Byte>, DecodeError> {
    if !Decodable(s) then Err(InvalidCharacter(FirstBad(s)))
    else
      ValueBounds(Quintets(s), 32);
      var value: nat := Value(Quintets(s), 32);
      var len := 5 * |s| / 8;
      var bits := 5 * |s| - 8 * len;
      if value % Pow2(bits) != 0 then Err(NonZeroPadding)
      else if len != expected then Err(WrongLength(expected, len))
      else
        DivModBounds(value, Pow2(bits));
        Ok(Digits(value / Pow2(bits), 256, len))
  }

  /** What the decoding loop keeps: `out` is all but the last `bits` bits of `value`. */
  predicate Unpacks(out: seq<Byte>, value: nat, bits: nat, read: nat) {
    && 8 * |out| + bits == read
    && Value(out, 256) == value / Pow2(bits)
  }

  lemma ReadQuintet(out: seq<Byte>, value: nat, bits: nat, read: nat, quintet: nat)
    requires Unpacks(out, value, bits, read) && quintet < 32
    ensures Unpacks(out, value * 32 + quintet, bits + 5, read + 5)
    ensures ShiftIn(value % WORD, 5, quintet) == (value * 32 + quintet) % WORD
  {
    SmallPowers();
    ShiftInOut(value, bits, 5, quintet);
    ShiftInTruncates(value, 5, quintet);
  }

  lemma EmitByte(out: seq<Byte>, value: nat, bits: nat, read: nat)
    requires Unpacks(out, value, bits, read) && 8 <= bits <= 12
    ensures Unpacks(out + [Extract(value % WORD, bits - 8, 256)], value, bits - 8, read)
  {
    SmallPowers();
    NextField(value, bits - 8, 8);
    ValueAppend(out, Extract(value % WORD, bits - 8, 256), 256);
  }

  lemma PaddingSeen(value: nat, bits: nat)
    requires bits <= 32
    ensures Extract(value % WORD, 0, Pow2(bits)) == value % Pow2(bits)
  {
    ExtractSeesThrough(value, 0, bits);
    assert Pow2(0) == 1 && value / 1 == value;
  }

  lemma Unpacked(out: seq<Byte>, value: nat, bits: nat, read: nat)
    requires Unpacks(out, value, bits, read) && bits < 8
    ensures read / 8 == |out| && value / Pow2(bits) >= 0
    ensures Digits(value / Pow2(bits), 256, |out|) == out
  {
    DivModBounds(value, Pow2(bits));
    DigitsOfValue(out, 256);
  }

  lemma FirstBadAt(s: string, i: nat)
    requires i < |s| && DecodeChar(s[i]).None? && Decodable(s[..i])
    ensures !Decodable(s) && FirstBad(s) == s[i]
  {
    if i > 0 {
      assert s[..i][0] == s[0];
      assert s[1..][..i - 1] == s[..i][1..];
      FirstBadAt(s[1..], i - 1);
    }
  }

  /** The number that the first `i` characters spell. */
  function Spelt(s: string, i: nat): nat
    requires i <= |s| && Decodable(s[..i])
  {
    ValueBounds(Quintets(s[..i]), 32);
    Value(Quintets(s[..i]), 32)
  }

  lemma SpellsOneMore(s: string, i: nat)
    requires i < |s| && Decodable(s[..i]) && DecodeChar(s[i]).Some?
    ensures Decodable(s[..i + 1]) && Spelt(s, i + 1) == Spelt(s, i) * 32 + DecodeChar(s[i]).value
  {
    var quintet := DecodeChar(s[i]).value;
    var quintets := Quintets(s[..i]);
    assert s[..i + 1] == s[..i] + [s[i]];
    QuintetsAppend(s[..i], s[i]);
    ValueAppend(quintets, quintet, 32);
  }

  lemma QuintetsAppend(s: string, c: char)
    requires Decodable(s) && DecodeChar(c).Some?
    ensures Decodable(s + [c]) && Quintets(s + [c]) == Quintets(s) + [DecodeChar(c).value]
  {
  }

  /** What the loop has after `i` characters. */
  predicate Decoding(s: string, i: nat, out: seq<Byte>, buffer: nat, bits: nat) {
    && i <= |s| && Decodable(s[..i])
    && buffer == Spelt(s, i) % WORD
    && Unpacks(out, Spelt(s, i), bits, 5 * i)
  }

  lemma DecodesOne(s: string, i: nat, out: seq<Byte>, buffer: nat, bits: nat)
    requires i < |s| && Decoding(s, i, out, buffer, bits) && DecodeChar(s[i]).Some?
    ensures Decoding(s, i + 1, out, ShiftIn(buffer, 5, DecodeChar(s[i]).value), bits + 5)
  {
    SpellsOneMore(s, i);
    ReadQuintet(out, Spelt(s, i), bits, 5 * i, DecodeChar(s[i]).value);
  }

  lemma Emits(s: string, i: nat, out: seq<Byte>, buffer: nat, bits: nat)
    requires Decoding(s, i, out, buffer, bits) && 8 <= bits <= 12
    ensures Decoding(s, i, out + [Extract(buffer, bits - 8, 256)], buffer, bits - 8)
  {
    EmitByte(out, Spelt(s, i), bits, 5 * i);
  }

  lemma Decoded(s: string, out: seq<Byte>, buffer: nat, bits: nat, expected: nat)
    requires Decoding(s, |s|, out, buffer, bits) && bits < 8
    ensures Decode(s, expected) ==
            if bits > 0 && Extract(buffer, 0, Pow2(bits)) != 0 then Err(NonZeroPadding)
            else if |out| != expected then Err(WrongLength(expected, |out|))
            else Ok(out)
  {
    assert s[..|s|] == s;
    SmallPowers();
    PaddingSeen(Spelt(s, |s|), bits);
    Unpacked(out, Spelt(s, |s|), bits, 5 * |s|);
  }

  method DecodeBase32(s: string, expected: nat) returns (decoded: Result<seq<Byte>, DecodeError>)
    ensures decoded == Decode(s, expected)
  {
    var out: seq<Byte> := [];
    var buffer: nat := 0;
    var bits: nat := 0;
    for i := 0 to |s|
      invariant bits < 8 && Decoding(s, i, out, buffer, bits)
    {
      var quintet := DecodeChar(s[i]);
      if quintet.None? {
        FirstBadAt(s, i);
        return Err(InvalidCharacter(s[i]));
      }
      DecodesOne(s, i, out, buffer, bits);
      buffer := ShiftIn(buffer, 5, quintet.value);
      bits := bits + 5;
      if bits >= 8 {
        Emits(s, i + 1, out, buffer, bits);
        bits := bits - 8;
        out := out + [Extract(buffer, bits, 256)];
      }
    }
    Decoded(s, out, buffer, bits, expected);
    if bits > 0 && Extract(buffer, 0, Pow2(bits)) != 0 {
      return Err(NonZeroPadding);
    }
    if |out| != expected {
      return Err(WrongLength(expected, |out|));
    }
    return Ok(out);
  }

  // ---- The alphabet

  lemma SymbolDecodes(quintet: nat)
    requires quintet < 32
    ensures Fold(ALPHABET[quintet]) == ALPHABET[quintet]
    ensures DecodeChar(ALPHABET[quintet]) == Some(quintet)
  {
    SymbolRuns(quintet);
  }

  /** The alphabet in runs of consecutive characters. */
  lemma SymbolRuns(quintet: nat)
    requires quintet < 32
    ensures ALPHABET[quintet] as int ==
            if quintet < 10 then '0' as int + quintet
            else if quintet < 18 then 'A' as int + quintet - 10
            else if quintet < 20 then 'J' as int + quintet - 18
            else if quintet < 22 then 'M' as int + quintet - 20
            else if quintet < 27 then 'P' as int + quintet - 22
            else 'V' as int + quintet - 27
  {
  }

  /** What every character reads as, letter by letter: the alphabet as itself, lower case as upper, O
      as 0, I and L as 1, and nothing else at all. */
  lemma CharactersRead(c: char, quintet: nat)
    requires quintet < 32
    ensures DecodeChar(ALPHABET[quintet]) == Some(quintet)
    ensures 'a' <= c <= 'z' ==> DecodeChar(c) == DecodeChar((c as int - 32) as char)
    ensures DecodeChar('O') == Some(0) && DecodeChar('I') == Some(1) && DecodeChar('L') == Some(1)
    ensures !('0' <= c <= '9') && !('A' <= c <= 'Z') && !('a' <= c <= 'z') ==> DecodeChar(c).None?
    ensures DecodeChar('U').None? && DecodeChar('u').None?
  {
    SymbolDecodes(quintet);
  }

  /** Decoding a character is finding it, folded, in the alphabet. */
  lemma DecodeCharFinds(c: char, quintet: nat)
    requires quintet < 32
    ensures DecodeChar(c) == Some(quintet) <==> ALPHABET[quintet] == Fold(c)
  {
    SymbolDecodes(quintet);
    FoldTwice(c);
    if DecodeChar(c) == Some(quintet) {
      PlaceIsInAlphabet(c);
    }
  }

  lemma PlaceIsInAlphabet(c: char)
    requires DecodeChar(c).Some?
    ensures ALPHABET[DecodeChar(c).value] == Fold(c)
  {
    SymbolRuns(DecodeChar(c).value);
  }

  lemma FoldTwice(c: char)
    ensures Fold(Fold(c)) == Fold(c)
  {
  }

  /** A text stands for quintets exactly when folding it spells their symbols. */
  lemma SpellsExactly(s: string, quintets: seq<int>)
    requires AreDigits(quintets, 32)
    ensures Decodable(s) && Quintets(s) == quintets <==> Folded(s) == Symbols(quintets)
  {
    if Folded(s) == Symbols(quintets) {
      forall k | 0 <= k < |s| ensures DecodeChar(s[k]) == Some(quintets[k]) {
        assert Folded(s)[k] == Symbols(quintets)[k];
        DecodeCharFinds(s[k], quintets[k]);
      }
    }
    if Decodable(s) && Quintets(s) == quintets {
      forall k | 0 <= k < |s| ensures Folded(s)[k] == Symbols(quintets)[k] {
        assert Quintets(s)[k] == quintets[k];
        DecodeCharFinds(s[k], quintets[k]);
      }
    }
  }

  // ---- Round trip, and which texts decode to what

  lemma {:induction false} PowPow(base: nat, width: nat, n: nat)
    requires base == Pow2(width)
    ensures Pow(base, n) == Pow2(width * n)
    decreases n
  {
    if n > 0 {
      PowPow(base, width, n - 1);
      PowAdd(2, width, width * (n - 1));
      assert width * n == width + width * (n - 1);
    } else {
      assert width * n == 0;
    }
  }

  lemma DecodeOfLength(s: string, n: nat, bits: nat)
    requires Decodable(s) && 5 * |s| == 8 * n + bits && bits < 8
    ensures var value := Spelt(s, |s|);
            Decode(s, n) == if value % Pow2(bits) != 0 then Err(NonZeroPadding)
                            else Ok(Digits(value / Pow2(bits), 256, n))
  {
    assert s[..|s|] == s;
  }

  lemma IsMultiple(value: nat, p: nat, v: nat)
    requires p > 0
    ensures value % p == 0 && value / p == v <==> value == v * p
  {
    DivModOf(v, p, 0);
    DivModBounds(value, p);
  }

  lemma DigitsSpell(value: nat, data: seq<Byte>)
    requires value < Pow(256, |data|)
    ensures Digits(value, 256, |data|) == data <==> value == Value(data, 256)
  {
    DigitsOfValue(data, 256);
    ValueOfDigits(value, 256, |data|);
  }

  /** Texts of a length that fits `data` decode to it exactly when they spell its number with
      zeros below it. */
  lemma DecodesByNumber(s: string, data: seq<Byte>, bits: nat)
    requires Decodable(s) && 5 * |s| == 8 * |data| + bits && bits < 8
    ensures Decode(s, |data|) == Ok(data) <==> Spelt(s, |s|) == Value(data, 256) * Pow2(bits)
  {
    var value, p := Spelt(s, |s|), Pow2(bits);
    assert value < Pow(32, |s|) by {
      assert s[..|s|] == s;
      ValueBounds(Quintets(s), 32);
    }
    DecodeOfLength(s, |data|, bits);
    NumberFits(value, |s|, |data|, bits);
    DivModBounds(value, p);
    DigitsSpell(value / p, data);
    ValueBounds(data, 256);
    IsMultiple(value, p, Value(data, 256));
  }

  lemma NumberFits(value: nat, symbols: nat, bytes: nat, bits: nat)
    requires 5 * symbols == 8 * bytes + bits && value < Pow(32, symbols)
    ensures value / Pow2(bits) < Pow(256, bytes)
  {
    SmallPowers();
    PowPow(32, 5, symbols);
    PowPow(256, 8, bytes);
    PowAdd(2, bits, 8 * bytes);
    DivBelow(value, Pow2(bits), Pow(256, bytes));
  }

  lemma NumberPads(value: nat, n: nat)
    requires value < Pow(256, n)
    ensures 0 <= value * Pow2(Padding(n)) < Pow(32, EncodedLen(n))
  {
    assert Pow(256, n) * Pow2(Padding(n)) == Pow(32, EncodedLen(n)) by {
      SmallPowers();
      PowPow(32, 5, EncodedLen(n));
      PowPow(256, 8, n);
      PowAdd(2, 8 * n, Padding(n));
    }
    ScaledBound(value, Pow(256, n), Pow2(Padding(n)));
  }

  lemma ScaledBound(value: nat, bound: nat, scale: nat)
    requires value < bound && scale > 0
    ensures 0 <= value * scale < bound * scale
  {
    MulPositive(bound - value, scale);
    MulNonNegative(value, scale);
    assert bound * scale == value * scale + (bound - value) * scale;
  }

  lemma RegroupedNumber(data: seq<Byte>)
    ensures Value(Regrouped(data), 32) == Value(data, 256) * Pow2(Padding(|data|))
  {
    ValueBounds(data, 256);
    NumberPads(Value(data, 256), |data|);
    ValueOfDigits(Value(data, 256) * Pow2(Padding(|data|)), 32, EncodedLen(|data|));
  }

  lemma MoreZeros(value: int, n: nat)
    ensures value * Pow2(n) * 32 == value * Pow2(n + 5)
  {
    var p, q := Pow2(n), Pow2(n + 5);
    assert q == p * 32 by {
      SmallPowers();
      PowAdd(2, n, 5);
    }
    assert value * p * 32 == value * (p * 32);
  }

  lemma AppendZero(quintets: seq<int>, value: int, n: nat)
    requires Value(quintets, 32) == value * Pow2(n)
    ensures Value(quintets + [0], 32) == value * Pow2(n + 5)
  {
    ValueAppend(quintets, 0, 32);
    MoreZeros(value, n);
  }

  lemma SpelledByNumber(s: string, data: seq<Byte>, quintets: seq<int>, bits: nat)
    requires AreDigits(quintets, 32) && |quintets| == |s| && 5 * |s| == 8 * |data| + bits && bits < 8
    requires Value(quintets, 32) == Value(data, 256) * Pow2(bits)
    ensures Decode(s, |data|) == Ok(data) <==> Folded(s) == Symbols(quintets)
  {
    SpellsExactly(s, quintets);
    if Decodable(s) {
      DecodesByNumber(s, data, bits);
      assert s[..|s|] == s;
      if Value(Quintets(s), 32) == Value(quintets, 32) {
        SameValueSameDigits(Quintets(s), quintets, 32);
      }
    }
  }

  /** Whether a text one symbol longer than the encoding still fills only `n` bytes. */
  predicate HasSlack(n: nat) {
    n % 5 != 2 && n % 5 != 4
  }

  lemma DecodesTight(s: string, data: seq<Byte>)
    requires |s| == EncodedLen(|data|)
    ensures Decode(s, |data|) == Ok(data) <==> Folded(s) == Encode(data)
  {
    RegroupedNumber(data);
    SpelledByNumber(s, data, Regrouped(data), Padding(|data|));
  }

  lemma DecodesSlack(s: string, data: seq<Byte>)
    requires |s| == EncodedLen(|data|) + 1 && HasSlack(|data|)
    ensures Decode(s, |data|) == Ok(data) <==> Folded(s) == Encode(data) + "0"
  {
    RegroupedNumber(data);
    AppendZero(Regrouped(data), Value(data, 256), Padding(|data|));
    LengthsThatFit(|s|, |data|);
    SpelledByNumber(s, data, Regrouped(data) + [0], Padding(|data|) + 5);
    SymbolsAppend(Regrouped(data), 0);
  }

  /** Only these text lengths decode to `n` bytes. */
  lemma LengthsThatFit(symbols: nat, n: nat)
    ensures 5 * symbols / 8 == n <==>
            symbols == EncodedLen(n) || (HasSlack(n) && symbols == EncodedLen(n) + 1)
  {
  }

  lemma DecodedLength(s: string, n: nat)
    requires Decode(s, n).Ok?
    ensures 5 * |s| / 8 == n
  {
  }

  lemma DecodesWithoutSlack(s: string, data: seq<Byte>)
    requires !HasSlack(|data|)
    ensures Decode(s, |data|) == Ok(data) <==> Folded(s) == Encode(data)
  {
    LengthsThatFit(|s|, |data|);
    if |s| == EncodedLen(|data|) {
      DecodesTight(s, data);
    } else if Decode(s, |data|) == Ok(data) {
      DecodedLength(s, |data|);
    }
  }

  /** The texts that decode to `data`, all of them: its encoding up to folding, and, at the
      lengths that leave room, its encoding with a zero appended. */
  lemma DecodesExactly(s: string, data: seq<Byte>)
    ensures Decode(s, |data|) == Ok(data) <==>
            Folded(s) == Encode(data) || (HasSlack(|data|) && Folded(s) == Encode(data) + "0")
  {
    var n := |data|;
    LengthsThatFit(|s|, n);
    if |s| == EncodedLen(n) {
      DecodesTight(s, data);
    } else if |s| == EncodedLen(n) + 1 && HasSlack(n) {
      DecodesSlack(s, data);
    } else if Decode(s, n) == Ok(data) {
      DecodedLength(s, n);
    }
  }

  /** Which error a text gets: its first unreadable character; or padding, if it does not decode even
      at the length it has; or the length it has, if it does. */
  lemma RefusesExactly(s: string, n: nat)
    ensures var own := 5 * |s| / 8;
            && (Decode(s, n) == Err(NonZeroPadding) <==> Decodable(s) && Decode(s, own).Err?)
            && (Decode(s, n) == Err(WrongLength(n, own)) <==> n != own && Decode(s, own).Ok?)
            && (Decode(s, n).Ok? <==> n == own && Decode(s, own).Ok?)
    ensures Decode(s, n).Err? && Decode(s, n).error.InvalidCharacter? <==> !Decodable(s)
    ensures !Decodable(s) ==>
              exists k | 0 <= k < |s| && (forall j | 0 <= j < k :: DecodeChar(s[j]).Some?) ::
                DecodeChar(s[k]).None? && Decode(s, n) == Err(InvalidCharacter(s[k]))
  {
    if !Decodable(s) {
      FirstBadIsFirst(s);
    }
  }

  lemma {:induction false} FirstBadIsFirst(s: string)
    requires !Decodable(s)
    ensures exists k | 0 <= k < |s| && (forall j | 0 <= j < k :: DecodeChar(s[j]).Some?) ::
              DecodeChar(s[k]).None? && FirstBad(s) == s[k]
  {
    if DecodeChar(s[0]).None? {
      assert 0 < |s|;
    } else {
      FirstBadIsFirst(s[1..]);
      var k :| 0 <= k < |s[1..]| && (forall j | 0 <= j < k :: DecodeChar(s[1..][j]).Some?)
               && DecodeChar(s[1..][k]).None? && FirstBad(s[1..]) == s[1..][k];
      assert forall j | 0 < j < k + 1 :: s[j] == s[1..][j - 1];
      assert s[k + 1] == s[1..][k];
    }
  }

  /** Texts with the same folding decode alike, up to which bad character is named. */
  lemma DecodesByFolding(a: string, b: string, n: nat)
    requires Folded(a) == Folded(b)
    ensures Decode(a, n) == Decode(b, n)
            || (Decode(a, n).Err? && Decode(a, n).error.InvalidCharacter?
                && Decode(b, n).Err? && Decode(b, n).error.InvalidCharacter?)
  {
    forall k | 0 <= k < |a| ensures DecodeChar(a[k]) == DecodeChar(b[k]) {
      assert Folded(a)[k] == Folded(b)[k];
    }
    if Decodable(a) {
      assert Decodable(b) && Quintets(a) == Quintets(b);
    } else {
      assert !Decodable(b) by {
        var k :| 0 <= k < |a| && DecodeChar(a[k]).None?;
        assert DecodeChar(b[k]).None?;
      }
    }
  }

  lemma FoldedEncoding(data: seq<Byte>)
    ensures Folded(Encode(data)) == Encode(data)
  {
    forall k | 0 <= k < |Encode(data)| ensures Fold(Encode(data)[k]) == Encode(data)[k] {
      SymbolDecodes(Regrouped(data)[k]);
    }
  }

  lemma RoundTrip(data: seq<Byte>)
    ensures Decode(Encode(data), |data|) == Ok(data)
  {
    FoldedEncoding(data);
    DecodesExactly(Encode(data), data);
  }

  ghost predicate InjectiveUpToFolding(n: nat) {
    forall s, t | Decode(s, n).Ok? && Decode(s, n) == Decode(t, n) :: Folded(s) == Folded(t)
  }

  /** Distinct codes never decode to the same bytes exactly at the lengths without slack; 34,
      the length of a Recovery Kit payload, is one of them. */
  lemma InjectiveExactly(n: nat)
    ensures InjectiveUpToFolding(n) <==> !HasSlack(n)
  {
    if HasSlack(n) {
      var data: seq<Byte> := seq(n, _ => 0);
      var s, t := Encode(data), Encode(data) + "0";
      FoldedEncoding(data);
      assert Folded(t) == t;
      DecodesExactly(s, data);
      DecodesExactly(t, data);
      assert !InjectiveUpToFolding(n);
    } else {
      forall s, t | Decode(s, n).Ok? && Decode(s, n) == Decode(t, n) ensures Folded(s) == Folded(t) {
        DecodesExactly(s, Decode(s, n).value);
        DecodesExactly(t, Decode(s, n).value);
      }
    }
  }
}
