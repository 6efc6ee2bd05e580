/** Frame sequences (djvCore/SequenceInline.h): the first and last frame, the
    parsing of a frame token from a file name, and sequence equality. */
module CoreSequence {
  import opened CoreErrors

  /** Playback speed; only compared for equality here. */
  datatype Speed = Speed(scale: int, duration: int)

  /** A list of frame numbers with the zero-pad width used to print them. */
  datatype Sequence = Sequence(frames: seq<int>, pad: int, speed: Speed)

  const INT64_MIN: int := -0x8000_0000_0000_0000
  const INT64_MAX: int := 0x7fff_ffff_ffff_ffff

  /** Sequence::start: the first frame, 0 for an empty list. */
  function Start(s: Sequence): int
  {
    if |s.frames| > 0 then s.frames[0] else 0
  }

  /** Sequence::end: the last frame, 0 for an empty list. */
  function End(s: Sequence): int
  {
    if |s.frames| > 0 then s.frames[|s.frames| - 1] else 0
  }

  predicate Ascending(frames: seq<int>)
  {
    forall i, j :: 0 <= i < j < |frames| ==> frames[i] <= frames[j]
  }

  /** The frames `first`, `first + 1`, ..., `count` of them: what the
      Sequence(start, end) constructor builds when end is start + count - 1. */
  function FrameRange(first: int, count: nat): (r: seq<int>)
    ensures |r| == count
    ensures forall i :: 0 <= i < count ==> r[i] == first + i
  {
    seq(count, i => first + i)
  }

  /** In a sorted sequence every frame lies between start() and end(); an
      empty sequence starts and ends at 0. */
  lemma StartEndBound(s: Sequence)
    requires Ascending(s.frames)
    ensures forall i :: 0 <= i < |s.frames| ==> Start(s) <= s.frames[i] <= End(s)
    ensures |s.frames| == 0 ==> Start(s) == 0 && End(s) == 0
  {
  }

  /** A range built from `first` and a count starts at `first` and ends at
      `first + count - 1`. */
  lemma FrameRangeStartEnd(first: int, count: nat, pad: int, speed: Speed)
    requires count > 0
    ensures Start(Sequence(FrameRange(first, count), pad, speed)) == first
    ensures End(Sequence(FrameRange(first, count), pad, speed)) == first + count - 1
    ensures Ascending(FrameRange(first, count))
  {
  }

  // ---------------------------------------------------------------------------
  // Parsing a frame token

  predicate IsDigit(c: char)
  {
    '0' <= c <= '9'
  }

  predicate AllDigits(d: string)
  {
    forall i :: 0 <= i < |d| ==> IsDigit(d[i])
  }

  function DigitValue(c: char): nat
    requires IsDigit(c)
  {
    c as int - '0' as int
  }

  /** The value of a string of decimal digits. */
  function DigitsValue(d: string): nat
    requires AllDigits(d)
  {
    if d == [] then 0 else DigitsValue(d[..|d| - 1]) * 10 + DigitValue(d[|d| - 1])
  }

  /** QString::toLongLong in base ten: an optional sign followed by at least one
      digit, whose value fits in 64 bits; 0 for anything else. */
  function ToLongLong(s: string): int
  {
    var signed := |s| > 0 && (s[0] == '-' || s[0] == '+');
    var d := if signed then s[1..] else s;
    if |d| > 0 && AllDigits(d) then
      var v: int := if signed && s[0] == '-' then 0 - DigitsValue(d) as int else DigitsValue(d) as int;
      if INT64_MIN <= v <= INT64_MAX then v else 0
    else 0
  }

  /** The pad width stringToFrame detects: the number of characters after an
      optional leading '-', when there are at least two and the first is '0'. */
  function PadWidth(s: string): nat
  {
    var i := if |s| > 0 && s[0] == '-' then 1 else 0;
    if |s| - i > 1 && s[i] == '0' then |s| - i else 0
  }

  /** Sequence::stringToFrame: the frame number of a token and the pad width it
      writes; a token starting with '#' gives -1 and leaves the pad untouched (None). */
  function StringToFrame(s: string): (int, Option<nat>)
  {
    if |s| > 0 && s[0] == '#' then (-1, None)
    else (ToLongLong(s), Some(PadWidth(s)))
  }

  // ---------------------------------------------------------------------------
  // Reference formatting: the zero-padded decimal naming convention

  function DigitChar(v: nat): (c: char)
    requires v < 10
    ensures IsDigit(c) && DigitValue(c) == v
  {
    ('0' as int + v) as char
  }

  /** The decimal digits of `n`, without leading zeros. */
  function Digits(n: nat): (d: string)
    ensures |d| > 0 && AllDigits(d)
  {
    if n < 10 then [DigitChar(n)] else Digits(n / 10) + [DigitChar(n % 10)]
  }

  function Zeros(k: nat): (z: string)
    ensures |z| == k && AllDigits(z)
    ensures forall i :: 0 <= i < k ==> z[i] == '0'
  {
    seq(k, i => '0')
  }

  /** `n` in decimal, padded with zeros on the left to at least `width` characters. */
  function ZeroPadded(n: nat, width: nat): (d: string)
    ensures AllDigits(d)
  {
    var digits := Digits(n);
    (if width > |digits| then Zeros(width - |digits|) else []) + digits
  }

  /** A frame number written with the convention of file names: a '-' for a
      negative frame, then the magnitude zero-padded to `width`. */
  function FrameString(frame: int, width: nat): string
  {
    if frame < 0 then "-" + ZeroPadded(-frame, width) else ZeroPadded(frame, width)
  }

  lemma {:induction false} DigitsValueOfDigits(n: nat)
    ensures DigitsValue(Digits(n)) == n
  {
    if n >= 10 {
      var d := Digits(n);
      assert d[..|d| - 1] == Digits(n / 10);
      DigitsValueOfDigits(n / 10);
    }
  }

  /** Leading zeros do not change the value. */
  lemma {:induction false} DigitsValueLeadingZeros(k: nat, d: string)
    requires AllDigits(d)
    ensures AllDigits(Zeros(k) + d)
    ensures DigitsValue(Zeros(k) + d) == DigitsValue(d)
    decreases |d|
  {
    var s := Zeros(k) + d;
    if d == [] {
      assert s == Zeros(k);
      ZerosValue(k);
    } else {
      assert s[..|s| - 1] == Zeros(k) + d[..|d| - 1];
      DigitsValueLeadingZeros(k, d[..|d| - 1]);
    }
  }

  lemma {:induction false} ZerosValue(k: nat)
    ensures DigitsValue(Zeros(k)) == 0
  {
    if k > 0 {
      assert Zeros(k)[..k - 1] == Zeros(k - 1);
      ZerosValue(k - 1);
    }
  }

  /** Only zero is written with a leading '0'. */
  lemma {:induction false} DigitsHead(n: nat)
    ensures Digits(n)[0] == '0' <==> n == 0
  {
    if n >= 10 {
      DigitsHead(n / 10);
    }
  }

  lemma {:induction false} ZeroPaddedValue(n: nat, width: nat)
    ensures DigitsValue(ZeroPadded(n, width)) == n
  {
    var digits := Digits(n);
    DigitsValueOfDigits(n);
    if width > |digits| {
      DigitsValueLeadingZeros(width - |digits|, digits);
    } else {
      assert ZeroPadded(n, width) == digits;
    }
  }

  /** The pad width detected in a zero-padded number: `width` when zeros were
      added, and 0 when the digits alone are at least that long. */
  lemma ZeroPaddedPad(n: nat, width: nat)
    ensures var d := ZeroPadded(n, width);
            |d| > 0 && d[0] != '-' && d[0] != '+' && d[0] != '#' &&
            (if |d| > 1 && d[0] == '0' then |d| else 0) == (if width > |Digits(n)| then width else 0)
  {
    var digits := Digits(n);
    var d := ZeroPadded(n, width);
    if width > |digits| {
      assert d[0] == '0';
    } else {
      assert d == digits;
      DigitsHead(n);
    }
  }

  /** stringToFrame inverts the file-name convention: a frame written with pad
      width `width` parses back to the same frame, and the pad it reports is
      `width` exactly when the zero padding was needed. */
  lemma StringToFrameOfFrameString(frame: int, width: nat)
    requires INT64_MIN <= frame <= INT64_MAX
    ensures var pad: nat := if width > |Digits(if frame < 0 then -frame else frame)| then width else 0;
            StringToFrame(FrameString(frame, width)) == (frame, Some(pad))
  {
    var m := if frame < 0 then -frame else frame;
    var d := ZeroPadded(m, width);
    ZeroPaddedValue(m, width);
    ZeroPaddedPad(m, width);
    var s := FrameString(frame, width);
    if frame < 0 {
      assert s == "-" + d;
      assert s[1..] == d;
    } else {
      assert s == d;
    }
  }

  /** The token "0012" is frame 12 with pad 4, "-5" is frame -5 with no pad,
      "0" is frame 0 with no pad, and "#" is the sentinel -1. */
  lemma StringToFrameExamples()
    ensures StringToFrame("0012") == (12, Some(4))
    ensures StringToFrame("-5") == (-5, Some(0))
    ensures StringToFrame("0") == (0, Some(0))
    ensures StringToFrame("#") == (-1, None)
  {
    assert "0012"[..3] == "001" && "001"[..2] == "00" && "00"[..1] == "0" && "0"[..0] == "";
    assert "-5"[1..] == "5" && "5"[..0] == "";
  }

  // ---------------------------------------------------------------------------
  // Equality

  /** operator==: frames, pad and speed all equal, which is value equality. */
  function Equal(a: Sequence, b: Sequence): (r: bool)
    ensures r <==> a == b
  {
    a.frames == b.frames && a.pad == b.pad && a.speed == b.speed
  }

  /** operator!=: the negation of operator==. */
  function NotEqual(a: Sequence, b: Sequence): (r: bool)
    ensures r <==> a != b
  {
    !Equal(a, b)
  }
}
