/** Big-endian byte words: how the virtual machine turns unbounded integers into
    32-byte words and back, and the calldata layout built from them. */
module Words {
  import opened Arithmetic

  type byte = x: int | 0 <= x < 256

  const WORD_SIZE: nat := 32

  function Abs(v: int): nat {
    if v < 0 then -v else v
  }

  function Pow256(n: nat): (r: nat)
    ensures r >= 1
  {
    if n == 0 then 1 else 256 * Pow256(n - 1)
  }

  /** The shortest big-endian form of n; zero is the empty string. */
  function BytesOf(n: nat): seq<byte> {
    if n == 0 then [] else BytesOf(n / 256) + [n % 256]
  }

  /** The number that a big-endian string denotes. */
  function FromBytes(s: seq<byte>): nat {
    if s == [] then 0 else 256 * FromBytes(s[..|s| - 1]) + s[|s| - 1]
  }

  function Zeros(n: nat): (r: seq<byte>)
    ensures |r| == n
  {
    seq(n, _ => 0)
  }

  /** Pads on the left to a word; a longer string keeps its first 32 bytes. */
  function PadTo32(b: seq<byte>): (r: seq<byte>)
    ensures |r| == WORD_SIZE
  {
    if |b| >= WORD_SIZE then b[..WORD_SIZE] else Zeros(WORD_SIZE - |b|) + b
  }

  function EncodeWord(v: int): (r: seq<byte>)
    ensures |r| == WORD_SIZE
  {
    PadTo32(BytesOf(Abs(v)))
  }

  function DecodeWord(b: seq<byte>): nat {
    FromBytes(if |b| < WORD_SIZE then Zeros(WORD_SIZE - |b|) + b else b[..WORD_SIZE])
  }

  // ---------- Numbers and byte strings ----------

  lemma {:induction false} BytesRoundTrip(n: nat)
    ensures FromBytes(BytesOf(n)) == n
  {
    if n == 0 {
    } else {
      BytesRoundTrip(n / 256);
      assert BytesOf(n)[..|BytesOf(n)| - 1] == BytesOf(n / 256);
    }
  }

  lemma {:induction false} FromBytesBound(s: seq<byte>)
    ensures FromBytes(s) < Pow256(|s|)
  {
    if s == [] {
    } else {
      FromBytesBound(s[..|s| - 1]);
    }
  }

  lemma {:induction false} BytesLength(n: nat, k: nat)
    ensures |BytesOf(n)| <= k <==> n < Pow256(k)
  {
    if n != 0 && k != 0 {
      BytesLength(n / 256, k - 1);
    }
  }

  lemma {:induction false} LeadingZeros(z: nat, s: seq<byte>)
    ensures FromBytes(Zeros(z) + s) == FromBytes(s)
  {
    var t := Zeros(z) + s;
    if s != [] {
      LeadingZeros(z, s[..|s| - 1]);
      assert t[..|t| - 1] == Zeros(z) + s[..|s| - 1];
    } else if z != 0 {
      LeadingZeros(z - 1, s);
      assert t[..|t| - 1] == Zeros(z - 1) + s;
    }
  }

  lemma PaddedValue(b: seq<byte>)
    requires |b| <= WORD_SIZE
    ensures FromBytes(PadTo32(b)) == FromBytes(b)
  {
    if |b| < WORD_SIZE {
      LeadingZeros(WORD_SIZE - |b|, b);
    } else {
      assert b[..WORD_SIZE] == b;
    }
  }

  /** A word holds exactly the integers below 2^256 in magnitude: encoding and decoding
      gives the magnitude back if and only if it fits. */
  lemma WordRoundTrip(v: int)
    ensures DecodeWord(EncodeWord(v)) == FromBytes(EncodeWord(v))
    ensures FromBytes(EncodeWord(v)) < Pow256(WORD_SIZE)
    ensures FromBytes(EncodeWord(v)) == Abs(v) <==> Abs(v) < Pow256(WORD_SIZE)
  {
    var word := EncodeWord(v);
    assert word[..WORD_SIZE] == word;
    FromBytesBound(word);
    BytesLength(Abs(v), WORD_SIZE);
    if |BytesOf(Abs(v))| <= WORD_SIZE {
      PaddedValue(BytesOf(Abs(v)));
      BytesRoundTrip(Abs(v));
    }
  }

  lemma LowestByte(s: seq<byte>)
    requires s != []
    ensures FromBytes(s) / 256 == FromBytes(s[..|s| - 1]) && FromBytes(s) % 256 == s[|s| - 1]
  {
    Quotient(FromBytes(s), 256, FromBytes(s[..|s| - 1]), s[|s| - 1]);
  }

  /** Byte k from the right has weight 256^k. */
  lemma {:induction false} ByteWeight(s: seq<byte>, k: nat)
    requires k < |s|
    ensures s[|s| - 1 - k] == FromBytes(s) / Pow256(k) % 256
  {
    var init := s[..|s| - 1];
    if k == 0 {
      LowestByte(s);
    } else {
      assert init[|init| - 1 - (k - 1)] == s[|s| - 1 - k];
      ByteWeight(init, k - 1);
      LowestByte(s);
      DivideTwice(FromBytes(s), 256, Pow256(k - 1));
    }
  }

  /** Words are big-endian: the last byte of a number's word is its lowest. */
  lemma BigEndian(v: nat, k: nat)
    requires v < Pow256(WORD_SIZE) && k < WORD_SIZE
    ensures EncodeWord(v)[WORD_SIZE - 1 - k] == v / Pow256(k) % 256
  {
    WordRoundTrip(v);
    ByteWeight(EncodeWord(v), k);
  }

  /** Strings of one length denote different numbers. */
  lemma {:induction false} FromBytesInjective(s: seq<byte>, t: seq<byte>)
    requires |s| == |t| && FromBytes(s) == FromBytes(t)
    ensures s == t
  {
    if s == [] {
    } else {
      var n := |s| - 1;
      assert s[n] == t[n] && FromBytes(s[..n]) == FromBytes(t[..n]);
      FromBytesInjective(s[..n], t[..n]);
      assert s == s[..n] + [s[n]] && t == t[..n] + [t[n]];
    }
  }

  /** Encoding what a word denotes gives the word back. */
  lemma WordOfNumber(word: seq<byte>)
    requires |word| == WORD_SIZE
    ensures EncodeWord(FromBytes(word)) == word
  {
    FromBytesBound(word);
    WordRoundTrip(FromBytes(word));
    FromBytesInjective(EncodeWord(FromBytes(word)), word);
  }

  /** Decoding a shorter string reads it as it stands, a longer one by its first 32 bytes. */
  lemma DecodeShortOrLong(b: seq<byte>)
    ensures DecodeWord(b) == FromBytes(if |b| <= WORD_SIZE then b else b[..WORD_SIZE])
  {
    if |b| < WORD_SIZE {
      LeadingZeros(WORD_SIZE - |b|, b);
    } else {
      assert |b| == WORD_SIZE ==> b[..WORD_SIZE] == b;
    }
  }

  /** Two magnitudes below 2^256 share a word only when they are equal. */
  lemma WordsDistinct(v: int, w: int)
    requires Abs(v) < Pow256(WORD_SIZE) && Abs(w) < Pow256(WORD_SIZE)
    ensures EncodeWord(v) == EncodeWord(w) <==> Abs(v) == Abs(w)
  {
    WordRoundTrip(v);
    WordRoundTrip(w);
  }

  // ---------- Calldata ----------

  /** The calldata layout: a four-byte selector, then one word per argument. */
  function Calldata(selector: seq<byte>, args: seq<int>): (data: seq<byte>)
    requires |selector| >= 4
    ensures |data| == 4 + WORD_SIZE * |args|
  {
    if args == [] then selector[..4]
    else Calldata(selector, args[..|args| - 1]) + EncodeWord(args[|args| - 1])
  }

  method EncodeCalldata(selector: seq<byte>, args: seq<int>) returns (data: seq<byte>)
    requires |selector| >= 4
    ensures data == Calldata(selector, args)
  {
    var buf := new byte[4 + WORD_SIZE * |args|];
    forall k | 0 <= k < 4 {
      buf[k] := selector[k];
    }
    for i := 0 to |args|
      invariant buf[..4 + WORD_SIZE * i] == Calldata(selector, args[..i])
    {
      var encoded := EncodeWord(args[i]);
      ghost var before := buf[..];
      forall k | 0 <= k < WORD_SIZE {
        buf[4 + i * WORD_SIZE + k] := encoded[k];
      }
      assert args[..i + 1][..i] == args[..i];
      assert buf[..4 + WORD_SIZE * i] == before[..4 + WORD_SIZE * i];
      assert buf[..4 + WORD_SIZE * (i + 1)] == buf[..4 + WORD_SIZE * i] + encoded;
    }
    assert args[..|args|] == args;
    data := buf[..];
  }

  lemma {:induction false} CalldataStart(selector: seq<byte>, args: seq<int>)
    requires |selector| >= 4
    ensures Calldata(selector, args)[..4] == selector[..4]
  {
    if args == [] {
    } else {
      CalldataStart(selector, args[..|args| - 1]);
      assert Calldata(selector, args)[..4] == Calldata(selector, args[..|args| - 1])[..4];
    }
  }

  lemma {:induction false} CalldataWord(selector: seq<byte>, args: seq<int>, i: nat)
    requires |selector| >= 4 && i < |args|
    ensures Calldata(selector, args)[4 + WORD_SIZE * i..][..WORD_SIZE] == EncodeWord(args[i])
  {
    var data, init := Calldata(selector, args), args[..|args| - 1];
    if i < |init| {
      CalldataWord(selector, init, i);
      assert data[4 + WORD_SIZE * i..][..WORD_SIZE] == Calldata(selector, init)[4 + WORD_SIZE * i..][..WORD_SIZE];
    } else {
      assert data[4 + WORD_SIZE * i..] == EncodeWord(args[i]);
    }
  }

  /** Calldata begins with the selector, and decoding it from offset 4 + 32 * i onwards
      gives the magnitude of argument i if and only if that fits a word. */
  lemma CalldataRoundTrip(selector: seq<byte>, args: seq<int>, i: nat)
    requires |selector| >= 4 && i < |args|
    ensures Calldata(selector, args)[..4] == selector[..4]
    ensures DecodeWord(Calldata(selector, args)[4 + WORD_SIZE * i..]) == Abs(args[i])
            <==> Abs(args[i]) < Pow256(WORD_SIZE)
  {
    CalldataStart(selector, args);
    CalldataWord(selector, args, i);
    WordRoundTrip(args[i]);
  }
}
