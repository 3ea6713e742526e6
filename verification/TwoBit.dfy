/** The two-bit fields of the Digital characteristic (section 3.1 of the Bluetooth Automation IO Service). */
module TwoBit {
  import opened Optional
  import opened RawValues

  /** Whether a written value makes a field active. */
  function Bit(value: bv8): bv8 { if value != 0 then 1 else 0 }

  /** The byte and the bit inside it where a field starts; the doubled offset is a 32-bit number. */
  function Shift(offset: nat): nat { (2 * offset) % 0x1_0000_0000 }
  function ByteOf(offset: nat): nat { Shift(offset) / 8 }
  function BitOf(offset: nat): (bit: nat)
    ensures bit <= 6
  {
    Even(offset);
    Shift(offset) % 8
  }

  lemma Even(offset: nat)
    ensures Shift(offset) % 8 <= 6
  {
    assert Shift(offset) % 2 == 0;
  }

  function Cleared(b: bv8, bit: nat): bv8
    requires bit <= 6
  {
    b & !(3 << bit)
  }

  function Activated(b: bv8, bit: nat): bv8
    requires bit <= 6
  {
    b | (1 << bit)
  }

  function WriteField(b: bv8, bit: nat, value: bv8): bv8
    requires bit <= 6
  {
    if value != 0 then Activated(Cleared(b, bit), bit) else Cleared(b, bit)
  }

  /** The encoder: nothing when the field lies outside the buffer; otherwise the buffer up to the touched byte. */
  function Encode(current: Bytes, offset: nat, value: bv8): Option<Bytes> {
    var k := ByteOf(offset);
    if k + 1 > |current| then None
    else Some(current[..k] + [WriteField(current[k], BitOf(offset), value)])
  }

  /** The decoder looks at the first byte only. Shifting a byte by eight or more, below 32, leaves nothing. */
  function Decode(value: Bytes, offset: nat): bv8
    requires value != [] && offset < 16
  {
    if offset < 4 then (value[0] >> (2 * offset)) & 3 else 0
  }

  // ---------- One field ----------

  lemma FieldByte(b: bv8, a: nat, k: nat, value: bv8)
    requires a < 4 && k < 4
    ensures (WriteField(b, 2 * a, value) >> (2 * k)) & 3 == if a == k then Bit(value) else (b >> (2 * k)) & 3
  {
    hide WriteField, Bit;
    if a == 0 { FieldByte0(b, k, value); }
    else if a == 1 { FieldByte1(b, k, value); }
    else if a == 2 { FieldByte2(b, k, value); }
    else { FieldByte3(b, k, value); }
  }

  lemma FieldByte0(b: bv8, k: nat, value: bv8)
    requires k < 4
    ensures (WriteField(b, 0, value) >> (2 * k)) & 3 == if k == 0 then Bit(value) else (b >> (2 * k)) & 3
  {
    if k == 0 {} else if k == 1 {} else if k == 2 {} else {}
  }

  lemma FieldByte1(b: bv8, k: nat, value: bv8)
    requires k < 4
    ensures (WriteField(b, 2, value) >> (2 * k)) & 3 == if k == 1 then Bit(value) else (b >> (2 * k)) & 3
  {
    if k == 0 {} else if k == 1 {} else if k == 2 {} else {}
  }

  lemma FieldByte2(b: bv8, k: nat, value: bv8)
    requires k < 4
    ensures (WriteField(b, 4, value) >> (2 * k)) & 3 == if k == 2 then Bit(value) else (b >> (2 * k)) & 3
  {
    if k == 0 {} else if k == 1 {} else if k == 2 {} else {}
  }

  lemma FieldByte3(b: bv8, k: nat, value: bv8)
    requires k < 4
    ensures (WriteField(b, 6, value) >> (2 * k)) & 3 == if k == 3 then Bit(value) else (b >> (2 * k)) & 3
  {
    if k == 0 {} else if k == 1 {} else if k == 2 {} else {}
  }

  /** Encoding refuses exactly when the field's byte is outside the buffer, and keeps every byte below it. */
  lemma EncodeExact(current: Bytes, offset: nat, value: bv8)
    ensures Encode(current, offset, value) == None <==> ByteOf(offset) >= |current|
    ensures var r := Encode(current, offset, value);
            r != None ==>
              |r.value| == ByteOf(offset) + 1 && r.value[..ByteOf(offset)] == current[..ByteOf(offset)]
  {
  }

  /** Fields 0 to 3 do not disturb one another. */
  lemma WriteThenRead(current: Bytes, a: nat, k: nat, value: bv8)
    requires current != [] && a < 4 && k < 4
    ensures var r := Encode(current, a, value);
            && r != None && |r.value| == 1
            && Decode(r.value, k) == if a == k then Bit(value) else Decode(current, k)
  {
    FieldByte(current[0], a, k, value);
    assert ByteOf(a) == 0 && BitOf(a) == 2 * a;
  }

  /** The decoder reads back what the encoder wrote exactly for fields in the first byte and for zero. */
  lemma ReadBackExact(current: Bytes, offset: nat, value: bv8)
    requires offset < 16 && ByteOf(offset) < |current|
    ensures Decode(Encode(current, offset, value).value, offset) == Bit(value) <==> offset < 4 || value == 0
  {
    if offset < 4 {
      WriteThenRead(current, offset, offset, value);
    }
  }

  // ---------- Any sequence of writes ----------

  datatype Write = Write(field: nat, value: bv8)

  /** Each encoder call is fed the output of the one before. */
  function Writes(current: Bytes, ws: seq<Write>): Option<Bytes> {
    if ws == [] then Some(current)
    else
      match Writes(current, ws[..|ws| - 1])
      case None => None
      case Some(b) => Encode(b, ws[|ws| - 1].field, ws[|ws| - 1].value)
  }

  /** The last value written to a field, if any. */
  function LastWrite(ws: seq<Write>, k: nat): Option<bv8> {
    if ws == [] then None
    else if ws[|ws| - 1].field == k then Some(ws[|ws| - 1].value)
    else LastWrite(ws[..|ws| - 1], k)
  }

  /** The four fields of the first byte are independent registers. */
  lemma {:induction false} IndependentRegisters(current: Bytes, ws: seq<Write>, k: nat)
    requires current != [] && k < 4
    requires forall i :: 0 <= i < |ws| ==> ws[i].field < 4
    ensures Writes(current, ws) != None && Writes(current, ws).value != []
    ensures Decode(Writes(current, ws).value, k) ==
              match LastWrite(ws, k) case None => Decode(current, k) case Some(v) => Bit(v)
  {
    if ws != [] {
      var n := |ws| - 1;
      IndependentRegisters(current, ws[..n], k);
      WriteThenRead(Writes(current, ws[..n]).value, ws[n].field, k, ws[n].value);
    }
  }

  // ---------- The encoder over its buffers ----------

  /** ble_services_encode_2bit_bitfield_value */
  method EncodeInto(current: array<bv8>, size: nat, offset: nat, value: bv8) returns (buf: array?<bv8>)
    requires size <= current.Length
    ensures buf == null <==> Encode(current[..size], offset, value) == None
    ensures buf != null ==> fresh(buf) && Encode(current[..size], offset, value) == Some(buf[..])
  {
    hide WriteField, Cleared, Activated, ByteOf, BitOf;
    var byteOffset, bitOffset := ByteOf(offset), BitOf(offset);
    var outSize := byteOffset + 1;
    if outSize > size { return null; }
    buf := new bv8[outSize];
    for i := 0 to outSize
      invariant forall j :: 0 <= j < i ==> buf[j] == current[j]
    {
      buf[i] := current[i];
    }
    ChangeField(buf, byteOffset, bitOffset, value);
    assert buf[..] == current[..size][..byteOffset] + [WriteField(current[byteOffset], bitOffset, value)];
  }

  /** One field of byte k, written in place. */
  method ChangeField(buf: array<bv8>, k: nat, bit: nat, value: bv8)
    requires k < buf.Length && bit <= 6
    modifies buf
    ensures buf[..] == old(buf[..])[k := WriteField(old(buf[k]), bit, value)]
  {
    hide Cleared, Activated;
    buf[k] := Cleared(buf[k], bit);
    if value != 0 {
      buf[k] := Activated(buf[k], bit);
    }
  }
}
