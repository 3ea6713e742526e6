/** The little-endian number a sensor characteristic carries. */
module RawValues {
  const TWO_32 := 0x1_0000_0000

  type Bytes = seq<bv8>

  function Little(v: Bytes): nat {
    if v == [] then 0 else v[0] as nat + 256 * Little(v[1..])
  }

  function Pow256(n: nat): nat {
    if n == 0 then 1 else 256 * Pow256(n - 1)
  }

  /** At most the first four bytes count. */
  function Counted(v: Bytes): Bytes {
    if |v| > 4 then v[..4] else v
  }

  function RawOf(v: Bytes): nat { Little(Counted(v)) }

  lemma {:induction false} LittleAppend(v: Bytes, b: bv8)
    ensures Little(v + [b]) == Little(v) + b as nat * Pow256(|v|)
  {
    if v == [] {
      assert v + [b] == [b];
    } else {
      assert (v + [b])[1..] == v[1..] + [b];
      LittleAppend(v[1..], b);
      Shift(b as nat, Pow256(|v| - 1));
    }
  }

  lemma Shift(b: nat, p: nat)
    ensures 256 * (b * p) == b * (256 * p)
  {
  }

  lemma {:induction false} LittleBelow(v: Bytes)
    ensures Little(v) < Pow256(|v|)
  {
    if v != [] {
      LittleBelow(v[1..]);
    }
  }

  lemma Powers()
    ensures Pow256(0) == 1 && Pow256(1) == 256 && Pow256(2) == 65536 && Pow256(3) == 16777216 && Pow256(4) == TWO_32
  {
    assert Pow256(2) == 256 * Pow256(1);
    assert Pow256(4) == 256 * Pow256(3);
  }

  /** The accumulation never wraps: the number fits its 32 bits. */
  lemma RawFits(v: Bytes)
    ensures RawOf(v) < TWO_32
  {
    Powers();
    LittleBelow(Counted(v));
  }

  /** One more byte counts exactly when fewer than four came before it and it is not zero. */
  lemma ExtraByteExact(v: Bytes, b: bv8)
    ensures RawOf(v + [b]) == RawOf(v) <==> |v| >= 4 || b == 0
  {
    if |v| >= 4 {
      assert Counted(v + [b]) == v[..4] == Counted(v);
    } else {
      LittleAppend(v, b);
      Powers();
      assert b as nat == 0 <==> b == 0;
    }
  }

  lemma Accumulated(value: Bytes, i: nat)
    requires i < |value| && i < 4
    ensures Little(value[..i + 1]) == Little(value[..i]) + value[i] as nat * Pow256(i) < TWO_32
  {
    Powers();
    assert value[..i + 1] == value[..i] + [value[i]];
    LittleAppend(value[..i], value[i]);
    LittleBelow(value[..i + 1]);
  }

  /** The accumulation loop, in 32 bits. */
  method Accumulate(value: Bytes) returns (raw: nat)
    ensures raw == RawOf(value) < TWO_32
  {
    var n := if |value| > 4 then 4 else |value|;
    RawFits(value);
    assert value[..n] == Counted(value);
    raw := 0;
    var unit := 1;
    assert Little(value[..0]) == 0 && Pow256(0) == 1;
    for i := 0 to n
      invariant unit == Pow256(i) && raw == Little(value[..i])
    {
      Accumulated(value, i);
      assert Pow256(i + 1) == 256 * Pow256(i);
      hide Little, Pow256;
      raw := (raw + value[i] as nat * unit) % TWO_32;
      unit := 256 * unit;
    }
  }
}
