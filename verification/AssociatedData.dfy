/** The associated data bound into every ciphertext: items (core/vault-core/src/item.rs:95-108),
    wrapped keys (core/vault-core/src/envelope.rs:17-50) and exports
    (core/vault-core/src/export.rs:22-33). Each format determines its fields, and no byte string
    belongs to two formats. */
module AssociatedData {
  import opened Numbers

  type Version = v: nat | v < 0x1_0000
  type Revision = r: nat | r < 0x1_0000_0000_0000_0000
  /** An identifier's UTF-8 bytes; a Rust string's length fits 64 bits. */
  type ItemId = id: seq<Byte> | |id| < 0x1_0000_0000_0000_0000

  datatype WrapPurpose = MasterWrap | RecoveryWrap

  const ITEM_CONTEXT := "basementen-vault/v1/item"
  const MASTER_CONTEXT := "basementen-vault/v1/wrap/master"
  const RECOVERY_CONTEXT := "basementen-vault/v1/wrap/recovery"
  const EXPORT_CONTEXT := "basementen-vault/export"

  function AsciiByte(c: char): Byte {
    c as int % 0x80
  }

  /** The bytes of a string of ASCII characters. */
  function Ascii(s: string): seq<Byte> {
    seq(|s|, k requires 0 <= k < |s| => AsciiByte(s[k]))
  }

  // ---- The three formats

  function ItemAad(version: Version, id: ItemId, revision: Revision): seq<Byte> {
    Ascii(ITEM_CONTEXT) + LittleEndian(version, 2) + LittleEndian(|id|, 8) + id + LittleEndian(revision, 8)
  }

  function WrapContext(purpose: WrapPurpose): string {
    match purpose
    case MasterWrap => MASTER_CONTEXT
    case RecoveryWrap => RECOVERY_CONTEXT
  }

  function WrapAad(version: Version, purpose: WrapPurpose): seq<Byte> {
    Ascii(WrapContext(purpose)) + LittleEndian(version, 2)
  }

  function ExportAad(version: Version): seq<Byte> {
    Ascii(EXPORT_CONTEXT) + LittleEndian(version, 2)
  }

  // ---- Each determines its fields

  lemma SmallRanges()
    ensures Pow(256, 2) == 0x1_0000 && Pow(256, 8) == 0x1_0000_0000_0000_0000
  {
    PowAdd(256, 2, 2);
    PowAdd(256, 4, 4);
  }

  lemma SameLittleEndian(a: nat, b: nat, len: nat)
    requires a < Pow(256, len) && b < Pow(256, len)
    requires LittleEndian(a, len) == LittleEndian(b, len)
    ensures a == b
  {
    LittleEndianRoundTrip(a, len);
    LittleEndianRoundTrip(b, len);
  }

  /** Two concatenations with equal-length heads agree part by part. */
  lemma SameParts(a: seq<Byte>, b: seq<Byte>, x: seq<Byte>, y: seq<Byte>)
    requires |a| == |x| && a + b == x + y
    ensures a == x && b == y
  {
    assert a == (a + b)[..|a|] && x == (x + y)[..|x|];
    assert b == (a + b)[|a|..] && y == (x + y)[|x|..];
  }

  lemma SameHead(a: seq<Byte>, b: seq<Byte>, c: seq<Byte>, x: seq<Byte>, y: seq<Byte>, z: seq<Byte>)
    requires |a| == |x| && a + b + c == x + y + z
    ensures a == x && b + c == y + z
  {
    assert a + b + c == a + (b + c) && x + y + z == x + (y + z);
    SameParts(a, b + c, x, y + z);
  }

  /** A frame whose fourth field's length is told by its third. */
  lemma SameFrame(a: seq<Byte>, b: seq<Byte>, c: seq<Byte>, d: seq<Byte>, e: seq<Byte>,
                  b': seq<Byte>, c': seq<Byte>, d': seq<Byte>, e': seq<Byte>)
    requires a + b + c + d + e == a + b' + c' + d' + e'
    requires |b| == |b'| && |c| == |c'| && (c == c' ==> |d| == |d'|)
    ensures b == b' && c == c' && d == d' && e == e'
  {
    assert a + b + c + d + e == (a + b) + c + (d + e);
    assert a + b' + c' + d' + e' == (a + b') + c' + (d' + e');
    SameHead(a + b, c, d + e, a + b', c', d' + e');
    SameParts(a, b, a, b');
    SameParts(c, d + e, c', d' + e');
    SameParts(d, e, d', e');
  }

  lemma ItemAadIsInjective(v: Version, id: ItemId, r: Revision, v': Version, id': ItemId, r': Revision)
    requires ItemAad(v, id, r) == ItemAad(v', id', r')
    ensures v == v' && id == id' && r == r'
  {
    SmallRanges();
    if LittleEndian(|id|, 8) == LittleEndian(|id'|, 8) {
      SameLittleEndian(|id|, |id'|, 8);
    }
    SameFrame(Ascii(ITEM_CONTEXT),
              LittleEndian(v, 2), LittleEndian(|id|, 8), id, LittleEndian(r, 8),
              LittleEndian(v', 2), LittleEndian(|id'|, 8), id', LittleEndian(r', 8));
    SameLittleEndian(v, v', 2);
    SameLittleEndian(r, r', 8);
  }

  lemma WrapAadIsInjective(v: Version, p: WrapPurpose, v': Version, p': WrapPurpose)
    requires WrapAad(v, p) == WrapAad(v', p')
    ensures v == v' && p == p'
  {
    SmallRanges();
    assert |LittleEndian(v, 2)| == |LittleEndian(v', 2)|;
    assert |WrapContext(p)| == |WrapContext(p')|;
    SameParts(Ascii(WrapContext(p)), LittleEndian(v, 2), Ascii(WrapContext(p')), LittleEndian(v', 2));
    SameLittleEndian(v, v', 2);
  }

  lemma ExportAadIsInjective(v: Version, v': Version)
    requires ExportAad(v) == ExportAad(v')
    ensures v == v'
  {
    SmallRanges();
    SameParts(Ascii(EXPORT_CONTEXT), LittleEndian(v, 2), Ascii(EXPORT_CONTEXT), LittleEndian(v', 2));
    SameLittleEndian(v, v', 2);
  }

  // ---- The formats are apart

  lemma ContextsDiffer()
    ensures ITEM_CONTEXT[17] == 'v' && EXPORT_CONTEXT[17] == 'e'
    ensures ITEM_CONTEXT[20] == 'i'
    ensures forall p :: WrapContext(p)[17] == 'v' && WrapContext(p)[20] == 'w'
  {
  }

  lemma FormatsAreApart(v: Version, id: ItemId, r: Revision, v': Version, p: WrapPurpose, v'': Version)
    ensures ItemAad(v, id, r) != WrapAad(v', p)
    ensures ItemAad(v, id, r) != ExportAad(v'')
    ensures WrapAad(v', p) != ExportAad(v'')
  {
    ContextsDiffer();
    var item, wrap, export_ := ItemAad(v, id, r), WrapAad(v', p), ExportAad(v'');
    assert item[17] == AsciiByte('v') && item[20] == AsciiByte('i');
    assert wrap[17] == AsciiByte('v') && wrap[20] == AsciiByte('w');
    assert export_[17] == AsciiByte('e');
  }
}
