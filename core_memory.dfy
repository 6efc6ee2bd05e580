/** Bytes, word-wise byte swapping (Memory::convertEndian) and the integer
    value a host reads from a word in memory. */
module CoreMemory {

  newtype byte = x: int | 0 <= x < 256

  /** The elements of `s` in the opposite order. */
  function Reverse<T>(s: seq<T>): (r: seq<T>)
    ensures |r| == |s|
    ensures forall i :: 0 <= i < |s| ==> r[i] == s[|s| - 1 - i]
  {
    if s == [] then [] else Reverse(s[1..]) + [s[0]]
  }

  lemma ReverseReverse<T>(s: seq<T>)
    ensures Reverse(Reverse(s)) == s
  {
    assert forall i :: 0 <= i < |s| ==> Reverse(Reverse(s))[i] == s[i];
  }

  /** `n` is a whole number of words of `wordSize` bytes. */
  predicate WordAligned(n: nat, wordSize: nat)
    decreases n
  {
    n == 0 || (wordSize > 0 && n >= wordSize && WordAligned(n - wordSize, wordSize))
  }

  /** `count` words of `wordSize` bytes fill `count * wordSize` bytes. */
  lemma {:induction false} WordsAligned(count: nat, wordSize: nat)
    requires wordSize > 0
    ensures WordAligned(count * wordSize, wordSize)
  {
    if count > 0 {
      assert count * wordSize - wordSize == (count - 1) * wordSize;
      WordsAligned(count - 1, wordSize);
    }
  }

  /** Word `k` of `count` words lies inside the buffer. */
  lemma WordInside(k: nat, count: nat, wordSize: nat)
    requires k < count
    ensures k * wordSize + wordSize <= count * wordSize
  {
    var d := count - k - 1;
    assert count * wordSize == k * wordSize + wordSize + d * wordSize;
  }

  /** Memory::convertEndian: the buffer cut into words of `wordSize` bytes, each
      word with its bytes in the opposite order. */
  function ConvertEndian(b: seq<byte>, wordSize: nat): (r: seq<byte>)
    requires WordAligned(|b|, wordSize)
    ensures |r| == |b|
    decreases |b|
  {
    if |b| == 0 then []
    else Reverse(b[..wordSize]) + ConvertEndian(b[wordSize..], wordSize)
  }

  /** Byte `j` of the word starting at `off` in the swapped buffer is byte
      `wordSize - 1 - j` of the same word of the original. */
  lemma {:induction false} ConvertEndianAt(b: seq<byte>, wordSize: nat, off: nat, j: nat)
    requires WordAligned(|b|, wordSize) && wordSize > 0
    requires WordAligned(off, wordSize) && off < |b| && j < wordSize
    ensures off + wordSize <= |b|
    ensures ConvertEndian(b, wordSize)[off + j] == b[off + (wordSize - 1 - j)]
    decreases off
  {
    var tail := b[wordSize..];
    var r := ConvertEndian(b, wordSize);
    assert r == Reverse(b[..wordSize]) + ConvertEndian(tail, wordSize);
    if off == 0 {
      assert r[j] == Reverse(b[..wordSize])[j];
    } else {
      var o := off - wordSize;
      ConvertEndianAt(tail, wordSize, o, j);
      assert r[off + j] == ConvertEndian(tail, wordSize)[o + j];
      assert tail[o + (wordSize - 1 - j)] == b[off + (wordSize - 1 - j)];
    }
  }

  /** Swapping twice gives the original bytes back. */
  lemma {:induction false} ConvertEndianInvolution(b: seq<byte>, wordSize: nat)
    requires WordAligned(|b|, wordSize)
    ensures ConvertEndian(ConvertEndian(b, wordSize), wordSize) == b
    decreases |b|
  {
    if |b| > 0 {
      var once := ConvertEndian(b, wordSize);
      assert once[..wordSize] == Reverse(b[..wordSize]);
      assert once[wordSize..] == ConvertEndian(b[wordSize..], wordSize);
      ReverseReverse(b[..wordSize]);
      ConvertEndianInvolution(b[wordSize..], wordSize);
      assert b == b[..wordSize] + b[wordSize..];
    }
  }

  /** Words of one byte are left as they are. */
  lemma {:induction false} ConvertEndianSingleBytes(b: seq<byte>)
    ensures WordAligned(|b|, 1)
    ensures ConvertEndian(b, 1) == b
    decreases |b|
  {
    if |b| > 0 {
      ConvertEndianSingleBytes(b[1..]);
      assert b == [b[0]] + b[1..];
    }
  }

  /** A buffer of a single word is reversed as a whole. */
  lemma ConvertEndianOneWord(b: seq<byte>)
    requires |b| > 0
    ensures WordAligned(|b|, |b|)
    ensures ConvertEndian(b, |b|) == Reverse(b)
  {
    assert WordAligned(0, |b|);
    assert b[|b|..] == [];
  }

  /** The value of a word stored most significant byte first. */
  function BigEndian(b: seq<byte>): nat
  {
    if b == [] then 0 else BigEndian(b[..|b| - 1]) * 256 + b[|b| - 1] as nat
  }

  /** The value of a word stored least significant byte first. */
  function LittleEndian(b: seq<byte>): nat
  {
    if b == [] then 0 else LittleEndian(b[1..]) * 256 + b[0] as nat
  }

  /** The value a host of the given byte order reads from the bytes of a word in memory. */
  function NativeValue(b: seq<byte>, hostMsb: bool): nat
  {
    if hostMsb then BigEndian(b) else LittleEndian(b)
  }

  /** Reading a reversed word least significant byte first gives its big-endian value. */
  lemma {:induction false} LittleEndianOfReverse(b: seq<byte>)
    ensures LittleEndian(Reverse(b)) == BigEndian(b)
    decreases |b|
  {
    if b != [] {
      var r := Reverse(b);
      assert r[1..] == Reverse(b[..|b| - 1]);
      LittleEndianOfReverse(b[..|b| - 1]);
    }
  }

  /** The big-endian value of two bytes. */
  lemma BigEndianTwo(b: seq<byte>)
    requires |b| == 2
    ensures BigEndian(b) == b[0] as nat * 256 + b[1] as nat
  {
    assert b[..1][..0] == [];
    assert BigEndian(b[..0]) == 0;
    assert BigEndian(b[..1]) == BigEndian(b[..1][..0]) * 256 + b[0] as nat;
  }
}
