/** Byte strings and the primitive encodings the services hash, sign and store. */
module ByteStrings {

  newtype byte = x: int | 0 <= x < 256

  type Bytes = seq<byte>

  /** The bytes of an ASCII literal. */
  function Ascii(s: string): (b: Bytes)
    requires forall i | 0 <= i < |s| :: s[i] < 128 as char
    ensures |b| == |s|
    ensures forall i | 0 <= i < |s| :: b[i] == s[i] as int as byte
  {
    seq(|s|, i requires 0 <= i < |s| => s[i] as int as byte)
  }

  /** Cuts equal concatenations at equal lengths. */
  lemma CutEqual<T>(a: seq<T>, x: seq<T>, b: seq<T>, y: seq<T>)
    requires a + x == b + y && |a| == |b|
    ensures a == b && x == y
  {
    assert (a + x)[..|a|] == (b + y)[..|a|];
    assert (a + x)[|a|..] == (b + y)[|a|..];
    assert a == (a + x)[..|a|] && x == (a + x)[|a|..];
    assert b == (b + y)[..|a|] && y == (b + y)[|a|..];
  }

  /** Cuts equal strings at the first mark. */
  lemma CutAtMark(a: Bytes, x: Bytes, b: Bytes, y: Bytes, mark: byte)
    requires mark !in a && mark !in b
    ensures a + [mark] + x == b + [mark] + y ==> a == b && x == y
  {
    if |a| < |b| {
      assert (a + [mark] + x)[|a|] == mark && (b + [mark] + y)[|a|] == b[|a|];
    } else if |b| < |a| {
      assert (b + [mark] + y)[|b|] == mark && (a + [mark] + x)[|b|] == a[|b|];
    } else if a + [mark] + x == b + [mark] + y {
      CutEqual(a + [mark], x, b + [mark], y);
      CutEqual(a, [mark], b, [mark]);
    }
  }

  /** `width` bytes, most significant first (`to_be_bytes`). */
  function BigEndian(n: nat, width: nat): (b: Bytes)
    ensures |b| == width
  {
    if width == 0 then [] else BigEndian(n / 256, width - 1) + [(n % 256) as byte]
  }

  function Power256(width: nat): (p: nat)
    ensures p > 0
  {
    if width == 0 then 1 else 256 * Power256(width - 1)
  }

  /** Numbers that fit the width have different encodings. */
  lemma {:induction false} BigEndianInjective(m: nat, n: nat, width: nat)
    requires m < Power256(width) && n < Power256(width)
    requires BigEndian(m, width) == BigEndian(n, width)
    ensures m == n
  {
    if width > 0 {
      CutEqual(BigEndian(m / 256, width - 1), [(m % 256) as byte],
               BigEndian(n / 256, width - 1), [(n % 256) as byte]);
      assert [(m % 256) as byte][0] == [(n % 256) as byte][0];
      BigEndianInjective(m / 256, n / 256, width - 1);
    }
  }

  /** A length in eight bytes, then the bytes (`len() as u64` to big-endian). */
  function LengthPrefixed(b: Bytes): Bytes {
    BigEndian(|b|, 8) + b
  }

  /** In-memory lengths fit 64 bits. */
  ghost predicate Fits64(b: Bytes) {
    |b| < Power256(8)
  }

  lemma LengthPrefixedCancel(a: Bytes, x: Bytes, b: Bytes, y: Bytes)
    requires Fits64(a) && Fits64(b) && LengthPrefixed(a) + x == LengthPrefixed(b) + y
    ensures a == b && x == y
  {
    hide BigEndian, Power256;
    assert LengthPrefixed(a) + x == BigEndian(|a|, 8) + (a + x);
    assert LengthPrefixed(b) + y == BigEndian(|b|, 8) + (b + y);
    CutEqual(BigEndian(|a|, 8), a + x, BigEndian(|b|, 8), b + y);
    BigEndianInjective(|a|, |b|, 8);
    CutEqual(a, x, b, y);
  }

  function AllLengthPrefixed(fields: seq<Bytes>): Bytes {
    if fields == [] then [] else LengthPrefixed(fields[0]) + AllLengthPrefixed(fields[1..])
  }

  /** Equally many length-prefixed fields are read back from what follows them. */
  lemma {:induction false} AllLengthPrefixedCancel(a: seq<Bytes>, x: Bytes, b: seq<Bytes>, y: Bytes)
    requires (forall f | f in a :: Fits64(f)) && (forall f | f in b :: Fits64(f))
    requires |a| == |b| && AllLengthPrefixed(a) + x == AllLengthPrefixed(b) + y
    ensures a == b && x == y
  {
    hide LengthPrefixed, Fits64;
    if a == [] {
      assert AllLengthPrefixed(a) + x == x && AllLengthPrefixed(b) + y == y;
    } else {
      assert AllLengthPrefixed(a) + x == LengthPrefixed(a[0]) + (AllLengthPrefixed(a[1..]) + x);
      assert AllLengthPrefixed(b) + y == LengthPrefixed(b[0]) + (AllLengthPrefixed(b[1..]) + y);
      LengthPrefixedCancel(a[0], AllLengthPrefixed(a[1..]) + x, b[0], AllLengthPrefixed(b[1..]) + y);
      AllLengthPrefixedCancel(a[1..], x, b[1..], y);
      assert a == [a[0]] + a[1..] && b == [b[0]] + b[1..];
    }
  }

  const DASH: byte := 45
  const ZERO: byte := 48

  function Digits(n: nat): (b: Bytes)
    ensures |b| > 0
    ensures forall i | 0 <= i < |b| :: ZERO <= b[i] <= ZERO + 9
  {
    if n < 10 then [ZERO + n as byte] else Digits(n / 10) + [ZERO + (n % 10) as byte]
  }

  /** Decimal notation (`strconv.FormatInt(n, 10)`). */
  function Decimal(n: int): (b: Bytes)
    ensures |b| > 0
  {
    if n < 0 then [DASH] + Digits(-n) else Digits(n)
  }

  lemma {:induction false} DigitsInjective(m: nat, n: nat)
    ensures Digits(m) == Digits(n) ==> m == n
    decreases m + n
  {
    if m < 10 && n < 10 {
    } else if m < 10 {
      assert |Digits(n)| == |Digits(n / 10)| + 1;
    } else if n < 10 {
      assert |Digits(m)| == |Digits(m / 10)| + 1;
    } else if Digits(m) == Digits(n) {
      CutEqual(Digits(m / 10), [ZERO + (m % 10) as byte], Digits(n / 10), [ZERO + (n % 10) as byte]);
      assert [ZERO + (m % 10) as byte][0] == [ZERO + (n % 10) as byte][0];
      DigitsInjective(m / 10, n / 10);
    }
  }

  lemma DecimalInjective(m: int, n: int)
    ensures Decimal(m) == Decimal(n) ==> m == n
  {
    if m < 0 && n < 0 {
      assert Decimal(m)[1..] == Digits(-m) && Decimal(n)[1..] == Digits(-n);
      DigitsInjective(-m, -n);
    } else if m >= 0 && n >= 0 {
      DigitsInjective(m, n);
    } else {
      assert Decimal(m)[0] != Decimal(n)[0];
    }
  }

  /** Byte-wise lexicographic order (Go's string order). */
  predicate LexLe(a: Bytes, b: Bytes)
  {
    if a == [] then true
    else if b == [] then false
    else a[0] < b[0] || (a[0] == b[0] && LexLe(a[1..], b[1..]))
  }

  /** A prefix comes first; otherwise the first byte that differs decides. */
  lemma {:induction false} LexLeMeans(a: Bytes, b: Bytes, i: nat)
    requires i <= |a| && i <= |b| && a[..i] == b[..i] && (i == |a| || i == |b| || a[i] != b[i])
    ensures LexLe(a, b) <==> i == |a| || (i < |b| && a[i] < b[i])
  {
    if i > 0 {
      assert a[0] == a[..i][0] == b[..i][0] == b[0];
      assert a[1..][..i - 1] == a[..i][1..] && b[1..][..i - 1] == b[..i][1..];
      LexLeMeans(a[1..], b[1..], i - 1);
    }
  }

  lemma LexTotal(a: Bytes, b: Bytes)
    ensures LexLe(a, b) || LexLe(b, a)
    ensures LexLe(a, b) && LexLe(b, a) ==> a == b
  {
    if a != [] && b != [] {
      LexTotal(a[1..], b[1..]);
      assert a == [a[0]] + a[1..] && b == [b[0]] + b[1..];
    }
  }

  lemma LexTransitive(a: Bytes, b: Bytes, c: Bytes)
    requires LexLe(a, b) && LexLe(b, c)
    ensures LexLe(a, c)
  {
    if a != [] {
      if a[0] == b[0] == c[0] {
        LexTransitive(a[1..], b[1..], c[1..]);
      }
    }
  }
}
