/** The sample store shared by the control side and the audio callback: a
    fixed-length circular buffer of unsigned 8-bit samples, its volume and
    mute settings, the playback cursor and the count of callback periods.
    Each operation is one atomic step; the lock that serialises them in a
    running program is not modelled. */
module Audio {
  import opened Mixing
  import Ring

  /** One more than the largest `usize` on a 64-bit target. */
  const UsizeLimit: nat := 0x1_0000_0000_0000_0000

  class Sound {
    var buffer: array<uint8>
    var bufSize: nat
    var volume: uint16
    var mute: bool
    /** Playback cursor: the number of slots mixed so far. */
    var current: nat
    /** Number of completed callback periods. */
    var called: nat

    /** The recorded size is the length of the buffer. */
    ghost predicate Valid()
      reads this
    {
      buffer.Length == bufSize
    }

    /** The store a freshly opened device starts with: `len` neutral codes,
        volume 0, not muted, both counters at zero. A zero length is
        accepted. */
    constructor (len: nat)
      ensures Valid() && fresh(buffer)
      ensures bufSize == len
      ensures forall i :: 0 <= i < len ==> buffer[i] == Centre
      ensures volume == 0 && !mute && current == 0 && called == 0
    {
      buffer := new uint8[len](_ => Centre);
      bufSize := len;
      volume := 0;
      current := 0;
      mute := false;
      called := 0;
    }

    method SetMute(specifier: bool)
      requires Valid()
      modifies this
      ensures Valid() && mute == specifier
      ensures buffer == old(buffer) && bufSize == old(bufSize) && volume == old(volume)
      ensures current == old(current) && called == old(called)
    {
      mute := specifier;
    }

    /** Any level is accepted; the mixing step treats levels above 7 as 7. */
    method SetVolume(level: uint16)
      requires Valid()
      modifies this
      ensures Valid() && volume == level
      ensures buffer == old(buffer) && bufSize == old(bufSize) && mute == old(mute)
      ensures current == old(current) && called == old(called)
    {
      volume := level;
    }

    /** Writes `sound` into the ring from position `offset` modulo the
        size, wrapping. The modulo is only reached for a non-empty `sound`,
        so only then must the size be positive. The position advances once
        per element as a `usize`, so it must not pass the largest `usize`. */
    method SetData(offset: nat, sound: seq<uint8>)
      requires Valid()
      requires |sound| > 0 ==> bufSize > 0
      requires offset + |sound| < UsizeLimit
      modifies buffer
      ensures Valid()
      ensures buffer[..] == Ring.Written(old(buffer[..]), offset, sound)
      ensures bufSize == old(bufSize) && volume == old(volume) && mute == old(mute)
      ensures current == old(current) && called == old(called)
    {
      var pos := offset;
      var len := bufSize;
      var k := 0;
      while k < |sound|
        invariant 0 <= k <= |sound| && pos == offset + k
        invariant buffer.Length == len
        invariant Ring.Written(buffer[..], pos, sound[k..]) == Ring.Written(old(buffer[..]), offset, sound)
      {
        ghost var before := buffer[..];
        buffer[pos % len] := sound[k];
        assert buffer[..] == before[pos % len := sound[k]];
        assert sound[k..][1..] == sound[k + 1..];
        pos := pos + 1;
        k := k + 1;
      }
      assert sound[k..] == [];
    }

    method BufSize() returns (n: nat)
      requires Valid()
      ensures n == bufSize == buffer.Length
    {
      n := bufSize;
    }

    method Mute() returns (m: bool)
      ensures m == mute
    {
      m := mute;
    }

    method Volume() returns (v: uint16)
      ensures v == volume
    {
      v := volume;
    }

    method Current() returns (c: nat)
      ensures c == current
    {
      c := current;
    }

    method Called() returns (c: nat)
      ensures c == called
    {
      c := called;
    }

    /** One output period: fills every slot of `out` with the mixed code for
        the cursor position, advancing the cursor once per slot, then counts
        the period. The modulo by the size is only reached when some slot is
        audible. */
    method Callback(out: array<uint16>)
      requires Valid()
      requires out.Length > 0 && !mute && volume != 0 ==> bufSize > 0
      modifies this, out
      ensures Valid() && buffer == old(buffer) && buffer[..] == old(buffer[..])
      ensures bufSize == old(bufSize) && volume == old(volume) && mute == old(mute)
      ensures current == old(current) + out.Length && called == old(called) + 1
      ensures out[..] == Mixed(buffer[..], bufSize, volume, mute, old(current), out.Length)
    {
      for k := 0 to out.Length
        invariant buffer == old(buffer) && bufSize == old(bufSize)
        invariant volume == old(volume) && mute == old(mute) && called == old(called)
        invariant current == old(current) + k
        invariant forall j :: 0 <= j < k ==> out[j] == MixSample(buffer[..], bufSize, volume, mute, old(current) + j)
      {
        var output: int;
        if mute || volume == 0 {
          output := 0;
        } else {
          var pos := current % bufSize;
          var raw := if pos < buffer.Length then buffer[pos] else Centre;
          output := Scale(raw as int - SetupU8, volume);
        }
        out[k] := AsU16(output + SetupU16);
        current := current + 1;
      }
      called := called + 1;
      forall k | 0 <= k < out.Length
        ensures out[k] == Mixed(buffer[..], bufSize, volume, mute, old(current), out.Length)[k]
      {
        MixedAt(buffer[..], bufSize, volume, mute, old(current), out.Length, k);
      }
    }
  }

  /** What `SetData` writes at the cursor position is what the following
      callback periods play, sample for sample: with the cursor at a position
      congruent to `offset` modulo the buffer size and a pattern no longer
      than the buffer, slot k of the output is pattern[k] re-centred, shifted
      by the volume's tier and re-biased. */
  lemma WrittenThenPlayed(buf: seq<uint8>, offset: nat, pattern: seq<uint8>, volume: uint16, current: nat)
    requires 0 < |buf| && |pattern| <= |buf|
    requires current % |buf| == offset % |buf|
    requires volume != 0
    ensures forall k :: 0 <= k < |pattern| ==>
              Mixed(Ring.Written(buf, offset, pattern), |buf|, volume, false, current, |pattern|)[k] as int
                == (pattern[k] as int - SetupU8) * Pow2(LadderShift(volume)) + SetupU16
  {
    var n := |buf|;
    var w := Ring.Written(buf, offset, pattern);
    Ring.WrittenInOrder(buf, offset, pattern);
    forall k | 0 <= k < |pattern|
      ensures Mixed(w, n, volume, false, current, |pattern|)[k] as int
                == (pattern[k] as int - SetupU8) * Pow2(LadderShift(volume)) + SetupU16
    {
      MixedAt(w, n, volume, false, current, |pattern|, k);
      SampleFormula(w, n, volume, false, current + k);
      assert w[(current + k) % n] == pattern[k] by {
        Ring.SlotShift(n, current, offset, k);
        assert Ring.Slot(n, current, k) == (current + k) % n;
      }
    }
  }
}
