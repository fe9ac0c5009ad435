/** The per-sample arithmetic of the 8-bit mixing callback: an unsigned
    8-bit stored sample is re-centred, scaled by a volume-keyed shift ladder
    in 32-bit signed arithmetic, re-biased and narrowed to an unsigned 16-bit
    output code. */
module Mixing {

  newtype uint8 = x: int | 0 <= x < 0x100
  newtype uint16 = x: int | 0 <= x < 0x1_0000

  /** Neutral (zero-amplitude) code of an unsigned 8-bit sample. */
  const SetupU8: int := 0x80
  /** Neutral (zero-amplitude) code of an unsigned 16-bit output sample. */
  const SetupU16: int := 0x8000

  /** The stored value the buffer starts out filled with. */
  const Centre: uint8 := SetupU8 as uint8

  function Pow2(k: nat): (r: nat)
    ensures r >= 1
  {
    if k == 0 then 1 else 2 * Pow2(k - 1)
  }

  /** Reduction of an integer to the 32-bit two's-complement range. */
  function WrapI32(x: int): (r: int)
    ensures -0x8000_0000 <= r < 0x8000_0000
    ensures (x - r) % 0x1_0000_0000 == 0
    ensures -0x8000_0000 <= x < 0x8000_0000 ==> r == x
  {
    (x + 0x8000_0000) % 0x1_0000_0000 - 0x8000_0000
  }

  /** `x << k` on a 32-bit signed integer: the bits shifted out are lost. */
  function ShlI32(x: int, k: nat): (r: int)
    requires k < 32
    ensures -0x8000_0000 <= r < 0x8000_0000
    ensures (x * Pow2(k) - r) % 0x1_0000_0000 == 0
  {
    WrapI32(x * Pow2(k))
  }

  /** `x as u16` on a 32-bit signed integer: the low 16 bits. */
  function AsU16(x: int): (r: uint16)
    ensures (x - r as int) % 0x1_0000 == 0
    ensures 0 <= x < 0x1_0000 ==> r as int == x
  {
    (x % 0x1_0000) as uint16
  }

  /** The volume ladder applied to a signed deviation. */
  function Scale(signed: int, volume: uint16): (r: int)
    ensures -0x8000_0000 <= r < 0x8000_0000
  {
    match volume
    case 0 => 0
    case 1 => ShlI32(signed, 2)
    case 2 => ShlI32(signed, 3)
    case 3 => ShlI32(signed, 4)
    case 4 => ShlI32(signed, 5)
    case 5 => ShlI32(signed, 6)
    case 6 => ShlI32(signed, 7)
    case _ => ShlI32(signed, 8)
  }

  /** The gain tier of a non-zero volume as a shift distance: levels 1 to 6
      shift by 2 to 7, every higher level by 8. */
  function LadderShift(volume: uint16): (k: nat)
    requires volume != 0
  {
    if volume <= 6 then volume as nat + 1 else 8
  }

  /** The stored sample at `pos`, or the neutral code when `pos` is past the
      end of the buffer. */
  function SampleAt(buffer: seq<uint8>, pos: nat): (r: uint8)
    ensures r in buffer || r == Centre
  {
    if pos < |buffer| then buffer[pos] else Centre
  }

  /** The signed, scaled deviation emitted for the slot read at cursor
      position `current`; zero when muted or at volume 0. The modulo by
      `bufSize` is only reached when sound is audible. */
  function Deviation(buffer: seq<uint8>, bufSize: nat, volume: uint16, mute: bool, current: nat): (r: int)
    requires mute || volume == 0 || bufSize > 0
    ensures -0x8000_0000 <= r < 0x8000_0000
    ensures mute || volume == 0 ==> r == 0
  {
    if mute || volume == 0 then 0
    else Scale(SampleAt(buffer, current % bufSize) as int - SetupU8, volume)
  }

  /** The output code for the slot read at cursor position `current`. */
  function MixSample(buffer: seq<uint8>, bufSize: nat, volume: uint16, mute: bool, current: nat): (r: uint16)
    requires mute || volume == 0 || bufSize > 0
    ensures (Deviation(buffer, bufSize, volume, mute, current) + SetupU16 - r as int) % 0x1_0000 == 0
  {
    AsU16(Deviation(buffer, bufSize, volume, mute, current) + SetupU16)
  }

  /** The `len` output codes produced with the cursor starting at `current`. */
  function Mixed(buffer: seq<uint8>, bufSize: nat, volume: uint16, mute: bool, current: nat, len: nat): (r: seq<uint16>)
    requires len > 0 ==> mute || volume == 0 || bufSize > 0
    ensures |r| == len
    decreases len
  {
    if len == 0 then []
    else
      [MixSample(buffer, bufSize, volume, mute, current)]
      + Mixed(buffer, bufSize, volume, mute, current + 1, len - 1)
  }

  /** The shifts of the ladder never leave the 32-bit range for a deviation
      of an 8-bit sample: each tier multiplies by its power of two. */
  lemma ScaleExact(signed: int, volume: uint16)
    requires -SetupU8 <= signed < SetupU8
    requires volume != 0
    ensures Scale(signed, volume) == signed * Pow2(LadderShift(volume))
    ensures -0x8000 <= Scale(signed, volume) <= 0x7F00
  {
    assert Pow2(2) == 4 && Pow2(3) == 8 && Pow2(4) == 16 && Pow2(5) == 32;
    assert Pow2(6) == 64 && Pow2(7) == 128 && Pow2(8) == 256;
  }

  /** Every deviation lies in [-32768, 32512], so the biased value lies in
      [0, 65280]: the i32 addition cannot overflow and the narrowing to u16
      never truncates. */
  lemma NoTruncation(buffer: seq<uint8>, bufSize: nat, volume: uint16, mute: bool, current: nat)
    requires mute || volume == 0 || bufSize > 0
    ensures -0x8000 <= Deviation(buffer, bufSize, volume, mute, current) <= 0x7F00
    ensures MixSample(buffer, bufSize, volume, mute, current) as int
              == Deviation(buffer, bufSize, volume, mute, current) + SetupU16
    ensures MixSample(buffer, bufSize, volume, mute, current) <= 0xFF00
  {
    if !(mute || volume == 0) {
      ScaleExact(SampleAt(buffer, current % bufSize) as int - SetupU8, volume);
    }
  }

  /** Muted or at volume 0, every slot is the centred code whatever the
      buffer holds. */
  lemma {:induction false} Silence(buffer: seq<uint8>, bufSize: nat, volume: uint16, mute: bool, current: nat, len: nat)
    requires mute || volume == 0
    ensures forall k :: 0 <= k < len ==> Mixed(buffer, bufSize, volume, mute, current, len)[k] as int == SetupU16
  {
    forall k | 0 <= k < len
      ensures Mixed(buffer, bufSize, volume, mute, current, len)[k] as int == SetupU16
    {
      MixedAt(buffer, bufSize, volume, mute, current, len, k);
    }
  }

  /** When audible and the buffer length is `bufSize`, the fallback is never
      taken: the slot is the stored sample at the cursor modulo the buffer
      size, re-centred, shifted by the volume's tier and re-biased. */
  lemma SampleFormula(buffer: seq<uint8>, bufSize: nat, volume: uint16, mute: bool, current: nat)
    requires |buffer| == bufSize > 0
    requires !mute && volume != 0
    ensures MixSample(buffer, bufSize, volume, mute, current) as int
              == (buffer[current % bufSize] as int - SetupU8) * Pow2(LadderShift(volume)) + SetupU16
  {
    NoTruncation(buffer, bufSize, volume, mute, current);
    ScaleExact(buffer[current % bufSize] as int - SetupU8, volume);
  }

  /** A stored neutral code produces the centred output at every volume. */
  lemma CentreIsSilent(buffer: seq<uint8>, bufSize: nat, volume: uint16, mute: bool, current: nat)
    requires mute || volume == 0 || bufSize > 0
    requires bufSize > 0 ==> SampleAt(buffer, current % bufSize) == Centre
    ensures MixSample(buffer, bufSize, volume, mute, current) as int == SetupU16
  {
    if !(mute || volume == 0) {
      ScaleExact(0, volume);
    }
  }

  /** For a fixed non-zero deviation, each step up the ladder from 1 to 7
      strictly increases the magnitude of the output deviation. */
  lemma LouderWithVolume(signed: int, volume: uint16)
    requires -SetupU8 <= signed < SetupU8 && signed != 0
    requires 1 <= volume < 7
    ensures Abs(Scale(signed, volume)) < Abs(Scale(signed, volume + 1))
  {
    ScaleExact(signed, volume);
    ScaleExact(signed, volume + 1);
    var g := Pow2(LadderShift(volume));
    assert Pow2(LadderShift(volume + 1)) == 2 * g by {
      assert LadderShift(volume + 1) == LadderShift(volume) + 1;
    }
    DoublingIsLouder(signed, g);
  }

  /** Doubling the gain doubles the magnitude of a non-zero deviation. */
  lemma DoublingIsLouder(signed: int, g: nat)
    requires signed != 0 && g >= 1
    ensures Abs(signed * g) < Abs(signed * (2 * g))
  {
    if signed > 0 {
      assert signed * (2 * g) == signed * g + signed * g;
      assert signed * g >= g;
    } else {
      assert (-signed) * (2 * g) == (-signed) * g + (-signed) * g;
      assert (-signed) * g >= g;
      assert signed * g == -((-signed) * g);
      assert signed * (2 * g) == -((-signed) * (2 * g));
    }
  }

  /** Volumes above 7 are treated as the top gain tier. */
  lemma TopTier(signed: int, volume: uint16)
    requires -SetupU8 <= signed < SetupU8
    requires volume >= 7
    ensures Scale(signed, volume) == Scale(signed, 7) == signed * 0x100
  {
    ScaleExact(signed, volume);
    ScaleExact(signed, 7);
  }

  function Abs(x: int): (r: nat)
    ensures r == x || r == -x
  {
    if x < 0 then -x else x
  }

  /** The k-th slot of a run of output is the slot read at the cursor
      advanced by k. */
  lemma {:induction false} MixedAt(buffer: seq<uint8>, bufSize: nat, volume: uint16, mute: bool, current: nat, len: nat, k: nat)
    requires len > 0 ==> mute || volume == 0 || bufSize > 0
    requires k < len
    ensures Mixed(buffer, bufSize, volume, mute, current, len)[k]
              == MixSample(buffer, bufSize, volume, mute, current + k)
    decreases len
  {
    if k > 0 {
      MixedAt(buffer, bufSize, volume, mute, current + 1, len - 1, k - 1);
    }
  }

  /** Splitting a run of output into two consecutive periods, with the
      cursor carried over, yields the same samples: no drift, no sample
      skipped or repeated. */
  lemma {:induction false} MixedSplit(buffer: seq<uint8>, bufSize: nat, volume: uint16, mute: bool, current: nat, a: nat, b: nat)
    requires a + b > 0 ==> mute || volume == 0 || bufSize > 0
    ensures Mixed(buffer, bufSize, volume, mute, current, a)
              + Mixed(buffer, bufSize, volume, mute, current + a, b)
              == Mixed(buffer, bufSize, volume, mute, current, a + b)
    decreases a
  {
    if a > 0 {
      MixedSplit(buffer, bufSize, volume, mute, current + 1, a - 1, b);
      assert current + 1 + (a - 1) == current + a;
    }
  }
}
