/** Writes into a fixed-length circular buffer, where the i-th element of a
    slice lands at position (offset + i) modulo the buffer length. */
module Ring {

  /** The buffer position that the i-th element of a write starting at
      `offset` lands on. */
  function Slot(n: nat, offset: nat, i: nat): (p: nat)
    requires n > 0
    ensures p < n
  {
    (offset + i) % n
  }

  /** The buffer after writing `s` element by element, starting at `offset`
      and wrapping modulo the buffer length; later elements overwrite earlier
      ones that land on the same position. */
  function Written<T>(buf: seq<T>, offset: nat, s: seq<T>): (r: seq<T>)
    requires |s| > 0 ==> |buf| > 0
    ensures |r| == |buf|
    decreases |s|
  {
    if s == [] then buf
    else Written(buf[offset % |buf| := s[0]], offset + 1, s[1..])
  }

  /** Element i is the last of a length-`len` write from `offset` to land
      on position p. */
  ghost predicate IsLastWrite(n: nat, offset: nat, len: nat, p: nat, i: nat)
    requires n > 0
  {
    i < len && Slot(n, offset, i) == p &&
    forall j :: i < j < len ==> Slot(n, offset, j) != p
  }

  /** Each position holds the element last written to it, or its old value
      when nothing was written to it. */
  lemma {:induction false} WrittenAt<T>(buf: seq<T>, offset: nat, s: seq<T>, p: nat)
    requires |buf| > 0 && p < |buf|
    ensures (forall i :: 0 <= i < |s| ==> Slot(|buf|, offset, i) != p) ==>
              Written(buf, offset, s)[p] == buf[p]
    ensures forall i: nat :: IsLastWrite(|buf|, offset, |s|, p, i) ==>
              Written(buf, offset, s)[p] == s[i]
    decreases |s|
  {
    var n := |buf|;
    if s != [] {
      var buf' := buf[offset % n := s[0]];
      var tail := s[1..];
      WrittenAt(buf', offset + 1, tail, p);
      assert Written(buf, offset, s) == Written(buf', offset + 1, tail);
      assert Slot(n, offset, 0) == offset % n;
      var next := offset + 1;
      if forall i :: 0 <= i < |s| ==> Slot(n, offset, i) != p {
        forall i: nat | i < |tail| ensures Slot(n, next, i) != p {
          assert Slot(n, offset, i + 1) != p;
        }
      }
      forall i: nat | IsLastWrite(n, offset, |s|, p, i)
        ensures Written(buf, offset, s)[p] == s[i]
      {
        if i == 0 {
          forall j: nat | j < |tail| ensures Slot(n, next, j) != p {
            assert Slot(n, offset, j + 1) != p;
          }
        } else {
          forall j: nat | i - 1 < j < |tail| ensures Slot(n, next, j) != p {
            assert Slot(n, offset, j + 1) != p;
          }
          assert IsLastWrite(n, next, |tail|, p, i - 1);
        }
      }
    }
  }

  /** Fewer than n consecutive elements land on pairwise distinct positions. */
  lemma SlotsDistinct(n: nat, offset: nat, i: nat, j: nat)
    requires n > 0 && i < j < i + n
    ensures Slot(n, offset, i) != Slot(n, offset, j)
  {
    var a, d := offset + i, j - i;
    var q, r := a / n, a % n;
    assert a == q * n + r;
    if r + d < n {
      ModOf(a + d, n, q, r + d);
    } else {
      assert a + d == (q + 1) * n + (r + d - n);
      ModOf(a + d, n, q + 1, r + d - n);
    }
  }

  /** The remainder is determined by any quotient-remainder decomposition. */
  lemma ModOf(x: nat, n: nat, q: int, r: int)
    requires n > 0 && 0 <= r < n && x == q * n + r
    ensures x % n == r
  {
    var q', r' := x / n, x % n;
    var k := q - q';
    assert x == q' * n + r';
    assert k * n == q * n - q' * n;
    assert k * n == r' - r;
    if k >= 1 {
      MulAtLeast(k, n);
    } else if k <= -1 {
      MulAtLeast(-k, n);
    }
  }

  lemma MulAtLeast(k: int, n: nat)
    requires k >= 1
    ensures k * n >= n
  {
  }

  /** Two starting points that agree modulo n agree at every later step. */
  lemma SlotShift(n: nat, a: nat, b: nat, k: nat)
    requires n > 0 && a % n == b % n
    ensures Slot(n, a, k) == Slot(n, b, k)
  {
    var r := a % n;
    var q, q' := (r + k) / n, (r + k) % n;
    assert r + k == q * n + q';
    assert a == (a / n) * n + r;
    assert b == (b / n) * n + r;
    assert a + k == (a / n + q) * n + q';
    assert b + k == (b / n + q) * n + q';
    ModOf(a + k, n, a / n + q, q');
    ModOf(b + k, n, b / n + q, q');
  }

  /** A slice no longer than the buffer is found in the buffer, in order,
      starting at `offset` modulo the length; every position it does not
      reach keeps its old value. */
  lemma WrittenInOrder<T>(buf: seq<T>, offset: nat, s: seq<T>)
    requires 0 < |buf| && |s| <= |buf|
    ensures forall i :: 0 <= i < |s| ==>
              Written(buf, offset, s)[Slot(|buf|, offset, i)] == s[i]
    ensures forall p :: 0 <= p < |buf| && (forall i :: 0 <= i < |s| ==> Slot(|buf|, offset, i) != p) ==>
              Written(buf, offset, s)[p] == buf[p]
  {
    var n := |buf|;
    forall i | 0 <= i < |s|
      ensures Written(buf, offset, s)[Slot(n, offset, i)] == s[i]
    {
      var p := Slot(n, offset, i);
      forall j | i < j < |s| ensures Slot(n, offset, j) != p {
        SlotsDistinct(n, offset, i, j);
      }
      assert IsLastWrite(n, offset, |s|, p, i);
      WrittenAt(buf, offset, s, p);
    }
    forall p | 0 <= p < n && (forall i :: 0 <= i < |s| ==> Slot(n, offset, i) != p)
      ensures Written(buf, offset, s)[p] == buf[p]
    {
      WrittenAt(buf, offset, s, p);
    }
  }
}
