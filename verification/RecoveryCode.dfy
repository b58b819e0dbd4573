/** The printed Recovery Kit code and its parser (core/vault-core/src/recovery.rs:87-145).

    The checksum is any function of the key: nothing below depends on which. */
module RecoveryCode {
  import opened Wrappers
  import opened Numbers
  import opened Base32

  const PREFIX := "BV1"
  const KEY_LEN := 32
  const CHECKSUM_LEN := 2
  const GROUP := 5

  type RecoveryKey = k: seq<Byte> | |k| == KEY_LEN witness seq(KEY_LEN, _ => 0)
  type Checksum = seq<Byte> -> (Byte, Byte)

  datatype CodeError =
    | MissingPrefix
    | BadBody(error: DecodeError)
    | ChecksumMismatch

  // ---- Printing

  function Payload(sum: Checksum, key: RecoveryKey): (payload: seq<Byte>)
    ensures |payload| == KEY_LEN + CHECKSUM_LEN
  {
    key + [sum(key).0, sum(key).1]
  }

  /** The code without separators. */
  function Bare(sum: Checksum, key: RecoveryKey): string {
    PREFIX + Encode(Payload(sum, key))
  }

  /** Groups of five, each behind a hyphen; the last may be short. */
  function Grouped(raw: string): string {
    if raw == "" then ""
    else if |raw| <= GROUP then "-" + raw
    else "-" + raw[..GROUP] + Grouped(raw[GROUP..])
  }

  function Printed(sum: Checksum, key: RecoveryKey): string {
    PREFIX + Grouped(Encode(Payload(sum, key)))
  }

  lemma {:induction false} GroupedAppend(raw: string, c: char)
    ensures Grouped(raw + [c]) == Grouped(raw) + (if |raw| % GROUP == 0 then "-" else "") + [c]
  {
    if |raw| > GROUP {
      GroupedAppend(raw[GROUP..], c);
      assert (raw + [c])[GROUP..] == raw[GROUP..] + [c];
      assert (raw + [c])[..GROUP] == raw[..GROUP];
    } else if |raw| == GROUP {
      assert (raw + [c])[GROUP..] == [c];
      assert (raw + [c])[..GROUP] == raw;
    }
  }

  method ToRecoveryCode(sum: Checksum, key: RecoveryKey) returns (code: string)
    ensures code == Printed(sum, key)
  {
    var raw := EncodeBase32(Payload(sum, key));
    code := PREFIX;
    for i := 0 to |raw|
      invariant code == PREFIX + Grouped(raw[..i])
    {
      GroupedAppend(raw[..i], raw[i]);
      assert raw[..i + 1] == raw[..i] + [raw[i]];
      if i % GROUP == 0 {
        code := code + "-";
      }
      code := code + [raw[i]];
    }
    assert raw[..|raw|] == raw;
  }

  // ---- Parsing

  /** The characters Unicode calls white space. */
  predicate IsWhitespace(c: char) {
    var code := c as int;
    || 0x9 <= code <= 0xD || code == 0x20 || code == 0x85 || code == 0xA0 || code == 0x1680
    || 0x2000 <= code <= 0x200A || code == 0x2028 || code == 0x2029 || code == 0x202F
    || code == 0x205F || code == 0x3000
  }

  predicate IsSeparator(c: char) {
    IsWhitespace(c) || c == '-'
  }

  function Cleaned(code: string): string {
    if code == "" then ""
    else if IsSeparator(code[0]) then Cleaned(code[1..])
    else [code[0]] + Cleaned(code[1..])
  }

  predicate HasPrefix(cleaned: string) {
    |PREFIX| <= |cleaned| && Folded(cleaned[..|PREFIX|]) == PREFIX
  }

  function Body(cleaned: string): string {
    if |PREFIX| <= |cleaned| then cleaned[|PREFIX|..] else ""
  }

  function Parsed(sum: Checksum, code: string): Result<RecoveryKey, CodeError> {
    var cleaned := Cleaned(code);
    if !HasPrefix(cleaned) then Err(MissingPrefix)
    else
      match Decode(Body(cleaned), KEY_LEN + CHECKSUM_LEN)
      case Err(error) => Err(BadBody(error))
      case Ok(payload) =>
        if |payload| != KEY_LEN + CHECKSUM_LEN || payload != Payload(sum, payload[..KEY_LEN])
        then Err(ChecksumMismatch)
        else Ok(payload[..KEY_LEN])
  }

  method FromRecoveryCode(sum: Checksum, code: string) returns (key: Result<RecoveryKey, CodeError>)
    ensures key == Parsed(sum, code)
  {
    var cleaned := Cleaned(code);
    var head := if |cleaned| < |PREFIX| then cleaned else cleaned[..|PREFIX|];
    if Folded(head) != PREFIX {
      return Err(MissingPrefix);
    }
    var decoded := DecodeBase32(cleaned[|PREFIX|..], KEY_LEN + CHECKSUM_LEN);
    if decoded.Err? {
      return Err(BadBody(decoded.error));
    }
    DecodedFills(cleaned[|PREFIX|..], KEY_LEN + CHECKSUM_LEN);
    var payload := decoded.value;
    var found := payload[..KEY_LEN];
    if [sum(found).0, sum(found).1] != payload[KEY_LEN..] {
      return Err(ChecksumMismatch);
    }
    assert payload == found + payload[KEY_LEN..];
    return Ok(found);
  }

  lemma DecodedFills(s: string, n: nat)
    requires Decode(s, n).Ok?
    ensures |Decode(s, n).value| == n
  {
  }

  // ---- Which texts are codes

  lemma FoldedSplit(s: string, n: nat)
    requires n <= |s|
    ensures Folded(s) == Folded(s[..n]) + Folded(s[n..])
  {
  }

  lemma ParsesByPayload(sum: Checksum, code: string, key: RecoveryKey)
    ensures var cleaned := Cleaned(code);
            Parsed(sum, code) == Ok(key) <==>
            HasPrefix(cleaned) && Decode(Body(cleaned), KEY_LEN + CHECKSUM_LEN) == Ok(Payload(sum, key))
  {
    assert Payload(sum, key)[..KEY_LEN] == key;
  }

  lemma FoldsToBare(sum: Checksum, cleaned: string, key: RecoveryKey)
    ensures Folded(cleaned) == Bare(sum, key) <==>
            HasPrefix(cleaned) && Folded(Body(cleaned)) == Encode(Payload(sum, key))
  {
    var n, raw := |PREFIX|, Encode(Payload(sum, key));
    assert Bare(sum, key)[..n] == PREFIX && Bare(sum, key)[n..] == raw;
    if n <= |cleaned| {
      assert Folded(cleaned)[..n] == Folded(cleaned[..n]);
      assert Folded(cleaned)[n..] == Folded(cleaned[n..]);
      FoldedSplit(cleaned, n);
    } else {
      assert |Folded(cleaned)| < |Bare(sum, key)|;
    }
  }

  /** A payload's length leaves no slack. */
  lemma PayloadDecodes(sum: Checksum, body: string, key: RecoveryKey)
    ensures Decode(body, KEY_LEN + CHECKSUM_LEN) == Ok(Payload(sum, key))
       <==> Folded(body) == Encode(Payload(sum, key))
  {
    assert !HasSlack(34);
    DecodesWithoutSlack(body, Payload(sum, key));
  }

  /** A text parses to a key exactly when, cleaned of separators and folded, it is that key's
      printed code without its hyphens. */
  lemma ParsesExactly(sum: Checksum, code: string, key: RecoveryKey)
    ensures Parsed(sum, code) == Ok(key) <==> Folded(Cleaned(code)) == Cleaned(Printed(sum, key))
  {
    PrintedCleans(sum, key);
    ParsesByPayload(sum, code, key);
    FoldsToBare(sum, Cleaned(code), key);
    PayloadDecodes(sum, Body(Cleaned(code)), key);
  }

  lemma PrintThenParse(sum: Checksum, key: RecoveryKey)
    ensures Parsed(sum, Printed(sum, key)) == Ok(key)
  {
    PrintedCleans(sum, key);
    FoldedBare(sum, key);
    ParsesExactly(sum, Printed(sum, key), key);
  }

  /** No text is a misreading of two keys, and texts for one key differ only in folding. */
  lemma CodesAreUnambiguous(sum: Checksum, a: string, b: string)
    requires Parsed(sum, a).Ok? && Parsed(sum, b).Ok?
    ensures Parsed(sum, a) == Parsed(sum, b) <==> Folded(Cleaned(a)) == Folded(Cleaned(b))
  {
    ParsesExactly(sum, a, Parsed(sum, a).value);
    ParsesExactly(sum, a, Parsed(sum, b).value);
    ParsesExactly(sum, b, Parsed(sum, b).value);
  }

  /** Which error a text gets that is no code: without the prefix; what is wrong with its body; or,
      for a body of thirty-four bytes, a checksum that is not its key's. */
  lemma RefusesExactly(sum: Checksum, code: string)
    ensures var (cleaned, parsed) := (Cleaned(code), Parsed(sum, code));
            && (parsed == Err(MissingPrefix) <==> !(PREFIX <= Folded(cleaned)))
            && (PREFIX <= Folded(cleaned) ==>
                var body := Decode(cleaned[3..], 34);
                && (body.Err? <==> parsed.Err? && parsed.error.BadBody?)
                && (body.Err? ==> parsed.error.error == body.error)
                && (parsed == Err(ChecksumMismatch) <==>
                    body.Ok? && (body.value[32] != sum(body.value[..32]).0 || body.value[33] != sum(body.value[..32]).1)))
  {
    var cleaned := Cleaned(code);
    PrefixIs(cleaned);
    if PREFIX <= Folded(cleaned) && Decode(cleaned[3..], 34).Ok? {
      DecodedFills(cleaned[3..], 34);
      PayloadIs(sum, Decode(cleaned[3..], 34).value);
    }
  }

  lemma PrefixIs(cleaned: string)
    ensures HasPrefix(cleaned) <==> PREFIX <= Folded(cleaned)
  {
    if 3 <= |cleaned| {
      assert Folded(cleaned)[..3] == Folded(cleaned[..3]);
    }
  }

  lemma PayloadIs(sum: Checksum, payload: seq<Byte>)
    requires |payload| == 34
    ensures payload == Payload(sum, payload[..32]) <==>
            payload[32] == sum(payload[..32]).0 && payload[33] == sum(payload[..32]).1
  {
    assert payload == payload[..32] + [payload[32], payload[33]];
  }

  // ---- Copying by hand

  /** Two ways to write one character: either case of a letter; 0 and the letter O; 1, I and L. */
  predicate Alike(a: char, b: char) {
    || ('A' <= a <= 'Z' && b as int == a as int + 32)
    || (a == '0' && b in {'O', 'o'})
    || (a == '1' && b in {'I', 'i', 'L', 'l'})
  }

  lemma AlikeReadAlike(a: char, b: char)
    requires Alike(a, b)
    ensures Fold(a) == Fold(b) && !IsSeparator(a) && !IsSeparator(b)
  {
  }

  lemma {:induction false} CleanedAlike(code: string, k: nat, c: char)
    requires k < |code| && Fold(code[k]) == Fold(c) && !IsSeparator(code[k]) && !IsSeparator(c)
    ensures Folded(Cleaned(code[k := c])) == Folded(Cleaned(code))
  {
    var other := code[k := c];
    CleanedHead(code[0], code[1..]);
    CleanedHead(other[0], other[1..]);
    assert code == [code[0]] + code[1..] && other == [other[0]] + other[1..];
    if k == 0 {
      assert other[1..] == code[1..];
    } else {
      assert other[1..] == code[1..][k - 1 := c];
      CleanedAlike(code[1..], k - 1, c);
    }
    var first := if IsSeparator(code[0]) then "" else [code[0]];
    var first' := if IsSeparator(other[0]) then "" else [other[0]];
    FoldedAppend(first, Cleaned(code[1..]));
    FoldedAppend(first', Cleaned(other[1..]));
  }

  lemma FoldedAppend(a: string, b: string)
    ensures Folded(a + b) == Folded(a) + Folded(b)
  {
  }

  /** A code reads the same whichever way each of its characters is written, up to which bad
      character an error names. */
  lemma WritingDoesNotMatter(sum: Checksum, code: string, k: nat, c: char)
    requires k < |code| && (Alike(code[k], c) || Alike(c, code[k]))
    ensures var (read, other) := (Parsed(sum, code), Parsed(sum, code[k := c]));
            other == read
            || (read.Err? && read.error.BadBody? && read.error.error.InvalidCharacter?
                && other.Err? && other.error.BadBody? && other.error.error.InvalidCharacter?)
  {
    if Alike(code[k], c) {
      AlikeReadAlike(code[k], c);
    } else {
      AlikeReadAlike(c, code[k]);
    }
    CleanedAlike(code, k, c);
    ParsedByFolding(sum, code, code[k := c]);
  }

  lemma ParsedByFolding(sum: Checksum, a: string, b: string)
    requires Folded(Cleaned(a)) == Folded(Cleaned(b))
    ensures Parsed(sum, a) == Parsed(sum, b)
            || (Parsed(sum, a).Err? && Parsed(sum, a).error.BadBody? && Parsed(sum, a).error.error.InvalidCharacter?
                && Parsed(sum, b).Err? && Parsed(sum, b).error.BadBody? && Parsed(sum, b).error.error.InvalidCharacter?)
  {
    var (x, y) := (Cleaned(a), Cleaned(b));
    assert |x| == |y| by {
      assert |Folded(x)| == |Folded(y)|;
    }
    if |PREFIX| <= |x| {
      FoldedSplit(x, |PREFIX|);
      FoldedSplit(y, |PREFIX|);
      assert Folded(x)[..|PREFIX|] == Folded(x[..|PREFIX|]) && Folded(x)[|PREFIX|..] == Folded(x[|PREFIX|..]);
      assert Folded(y)[..|PREFIX|] == Folded(y[..|PREFIX|]) && Folded(y)[|PREFIX|..] == Folded(y[|PREFIX|..]);
      DecodesByFolding(Body(x), Body(y), KEY_LEN + CHECKSUM_LEN);
    }
  }

  /** The twenty-five white-space characters and the hyphen. */
  const SEPARATORS: set<char> := {
    '-', '\t', '\n', '\r', ' ', '\U{0B}', '\U{0C}', '\U{85}', '\U{A0}', '\U{1680}',
    '\U{2000}', '\U{2001}', '\U{2002}', '\U{2003}', '\U{2004}', '\U{2005}', '\U{2006}', '\U{2007}', '\U{2008}',
    '\U{2009}', '\U{200A}', '\U{2028}', '\U{2029}', '\U{202F}', '\U{205F}', '\U{3000}'}

  lemma SeparatorsAre(c: char)
    ensures IsSeparator(c) <==> c in SEPARATORS
  {
  }

  /** Separators may stand anywhere, or nowhere. */
  lemma SeparatorsDoNotMatter(sum: Checksum, before: string, after: string, c: char)
    requires c in SEPARATORS
    ensures Parsed(sum, before + [c] + after) == Parsed(sum, before + after)
  {
    SeparatorsAre(c);
    CleanedAppend(before + [c], after);
    CleanedAppend(before, [c]);
    CleanedAppend(before, after);
    CleanedHead(c, "");
    assert [c] + "" == [c] && Cleaned("") == "";
    assert Cleaned(before) + "" == Cleaned(before);
  }

  // ---- Cleaning a printed code

  predicate NoSeparators(s: string) {
    forall k | 0 <= k < |s| :: !IsSeparator(s[k])
  }

  lemma {:induction false} CleanedAppend(a: string, b: string)
    ensures Cleaned(a + b) == Cleaned(a) + Cleaned(b)
  {
    if a == "" {
      assert a + b == b;
    } else {
      CleanedAppend(a[1..], b);
      CleanedHead(a[0], a[1..] + b);
      CleanedHead(a[0], a[1..]);
      assert a + b == [a[0]] + (a[1..] + b) && a == [a[0]] + a[1..];
    }
  }

  lemma CleanedHead(c: char, rest: string)
    ensures Cleaned([c] + rest) == (if IsSeparator(c) then "" else [c]) + Cleaned(rest)
  {
    assert ([c] + rest)[1..] == rest;
  }

  lemma {:induction false} CleanedKeeps(s: string)
    requires NoSeparators(s)
    ensures Cleaned(s) == s
  {
    if s != "" {
      CleanedKeeps(s[1..]);
      assert s == [s[0]] + s[1..];
    }
  }

  lemma CleanedGroup(group: string, rest: string)
    requires NoSeparators(group)
    ensures Cleaned("-" + group + rest) == group + Cleaned(rest)
  {
    CleanedAppend("-" + group, rest);
    CleanedAppend("-", group);
    CleanedKeeps(group);
    assert Cleaned("-") == "";
  }

  lemma {:induction false} GroupedCleans(raw: string)
    requires NoSeparators(raw)
    ensures Cleaned(Grouped(raw)) == raw
  {
    if |raw| > GROUP {
      CleanedGroup(raw[..GROUP], Grouped(raw[GROUP..]));
      GroupedCleans(raw[GROUP..]);
    } else if raw != "" {
      CleanedGroup(raw, "");
      assert "-" + raw + "" == "-" + raw;
    }
  }

  lemma SymbolsAreNotSeparators(quintet: nat)
    requires quintet < 32
    ensures !IsSeparator(ALPHABET[quintet])
  {
  }

  lemma PrintedCleans(sum: Checksum, key: RecoveryKey)
    ensures Cleaned(Printed(sum, key)) == Bare(sum, key)
  {
    var raw := Encode(Payload(sum, key));
    forall k | 0 <= k < |raw| ensures !IsSeparator(raw[k]) {
      SymbolsAreNotSeparators(Regrouped(Payload(sum, key))[k]);
    }
    GroupedCleans(raw);
    CleanedAppend(PREFIX, Grouped(raw));
    CleanedKeeps(PREFIX);
  }

  lemma FoldedBare(sum: Checksum, key: RecoveryKey)
    ensures Folded(Bare(sum, key)) == Bare(sum, key)
  {
    FoldedEncoding(Payload(sum, key));
    FoldedSplit(Bare(sum, key), |PREFIX|);
  }
}
