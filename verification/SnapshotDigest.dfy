/** FNV-1a over the identity stream: each step loses nothing, so one changed byte
    is always seen. */
module SnapshotDigest {
  import opened SnapshotEncoding

  const OFFSET_BASIS: nat := 14695981039346656037
  const PRIME: nat := 1099511628211
  // The prime's inverse modulo 2^64.
  const INVERSE: nat := 14886173955864302971
  const QUOTIENT: nat := 887285111055

  function Differ(a: nat, b: nat): (d: nat)
    ensures d < 2
  {
    if a != b then 1 else 0
  }

  // Exclusive or of n-bit numbers, bit by bit.
  function Xor(a: nat, b: nat, n: nat): nat {
    if n == 0 then 0 else Differ(a % 2, b % 2) + 2 * Xor(a / 2, b / 2, n - 1)
  }

  // A byte changes only the low eight bits.
  function XorByte(v: nat, byte: Byte): nat {
    v - v % 256 + Xor(v % 256, byte, 8)
  }

  function Step(v: nat, byte: Byte): nat {
    (XorByte(v, byte) * PRIME) % WORD
  }

  function Digest(v: nat, bytes: seq<Byte>): nat
    decreases |bytes|
  {
    if bytes == [] then v else Digest(Step(v, bytes[0]), bytes[1..])
  }

  function PowerOfTwo(n: nat): nat {
    if n == 0 then 1 else 2 * PowerOfTwo(n - 1)
  }

  lemma {:induction false} XorIsBounded(a: nat, b: nat, n: nat)
    ensures Xor(a, b, n) < PowerOfTwo(n)
  {
    if n > 0 {
      XorIsBounded(a / 2, b / 2, n - 1);
    }
  }

  lemma {:induction false} XorIsInjective(a: nat, a': nat, b: nat, b': nat, n: nat)
    requires a < PowerOfTwo(n) && a' < PowerOfTwo(n) && b < PowerOfTwo(n) && b' < PowerOfTwo(n)
    requires Xor(a, b, n) == Xor(a', b', n)
    ensures a == a' <==> b == b'
  {
    if n > 0 {
      XorIsInjective(a / 2, a' / 2, b / 2, b' / 2, n - 1);
      hide Xor, PowerOfTwo;
      BitsAreInjective(a % 2, a' % 2, b % 2, b' % 2);
      HalvesDetermine(a, a');
      HalvesDetermine(b, b');
    }
  }

  lemma BitsAreInjective(a: nat, a': nat, b: nat, b': nat)
    requires a < 2 && a' < 2 && b < 2 && b' < 2 && Differ(a, b) == Differ(a', b')
    ensures a == a' <==> b == b'
  {
  }

  lemma HalvesDetermine(a: nat, b: nat)
    ensures a == b <==> a / 2 == b / 2 && a % 2 == b % 2
  {
  }

  lemma EightBits()
    ensures PowerOfTwo(8) == 256
  {
    assert PowerOfTwo(4) == 16;
  }

  lemma XorByteStaysInRange(v: nat, byte: Byte)
    requires v < WORD
    ensures XorByte(v, byte) < WORD
  {
    hide Xor;
    EightBits();
    XorIsBounded(v % 256, byte, 8);
    LowByteFits(v, Xor(v % 256, byte, 8));
  }

  lemma LowByteFits(v: nat, low: nat)
    requires v < WORD && low < 256
    ensures v - v % 256 + low < WORD
  {
    assert v == 256 * (v / 256) + v % 256 && v / 256 < WORD / 256;
  }

  // Given the result, the state and the byte determine each other.
  lemma XorByteIsInjective(v: nat, v': nat, byte: Byte, byte': Byte)
    requires XorByte(v, byte) == XorByte(v', byte')
    ensures byte == byte' ==> v == v'
    ensures v == v' ==> byte == byte'
  {
    EightBits();
    XorIsBounded(v % 256, byte, 8);
    XorIsBounded(v' % 256, byte', 8);
    SplitLow(v, v', Xor(v % 256, byte, 8), Xor(v' % 256, byte', 8));
    XorIsInjective(v % 256, v' % 256, byte, byte', 8);
  }

  lemma SplitLow(v: nat, v': nat, low: nat, low': nat)
    requires low < 256 && low' < 256 && v - v % 256 + low == v' - v' % 256 + low'
    ensures low == low' && v - v % 256 == v' - v' % 256
  {
    assert v == 256 * (v / 256) + v % 256 && v' == 256 * (v' / 256) + v' % 256;
  }

  lemma InverseOfThePrime()
    ensures PRIME * INVERSE == 1 + QUOTIENT * WORD
  {
  }

  // Multiplication by the prime modulo 2^64 can be undone.
  lemma MultiplicationIsInjective(x: nat, y: nat)
    requires x < WORD && y < WORD && (x * PRIME) % WORD == (y * PRIME) % WORD
    ensures x == y
  {
    var d: int := x - y;
    var t: int := (x * PRIME) / WORD - (y * PRIME) / WORD;
    assert d * PRIME == t * WORD by {
      assert x * PRIME == (x * PRIME) / WORD * WORD + (x * PRIME) % WORD;
      assert y * PRIME == (y * PRIME) / WORD * WORD + (y * PRIME) % WORD;
    }
    var k: int := t * INVERSE - d * QUOTIENT;
    assert d == k * WORD by {
      InverseOfThePrime();
      calc {
        d;
        d * (PRIME * INVERSE - QUOTIENT * WORD);
        (d * PRIME) * INVERSE - d * QUOTIENT * WORD;
        (t * WORD) * INVERSE - d * QUOTIENT * WORD;
        k * WORD;
      }
    }
    assert d < WORD && d + WORD > 0;
  }

  lemma StepIsInjective(v: nat, v': nat, byte: Byte, byte': Byte)
    requires v < WORD && v' < WORD && Step(v, byte) == Step(v', byte')
    ensures byte == byte' ==> v == v'
    ensures v == v' ==> byte == byte'
  {
    hide XorByte;
    XorByteStaysInRange(v, byte);
    XorByteStaysInRange(v', byte');
    MultiplicationIsInjective(XorByte(v, byte), XorByte(v', byte'));
    XorByteIsInjective(v, v', byte, byte');
  }

  lemma StepStaysInRange(v: nat, byte: Byte)
    ensures Step(v, byte) < WORD
  {
    hide XorByte;
  }

  lemma {:induction false} DigestIsInjectiveInTheState(v: nat, v': nat, bytes: seq<Byte>)
    requires v < WORD && v' < WORD && Digest(v, bytes) == Digest(v', bytes)
    ensures v == v'
    decreases |bytes|
  {
    if bytes != [] {
      StepStaysInRange(v, bytes[0]);
      StepStaysInRange(v', bytes[0]);
      hide Step;
      DigestIsInjectiveInTheState(Step(v, bytes[0]), Step(v', bytes[0]), bytes[1..]);
      StepIsInjective(v, v', bytes[0], bytes[0]);
    }
  }

  lemma {:induction false} DigestAppend(v: nat, a: seq<Byte>, b: seq<Byte>)
    ensures Digest(v, a + b) == Digest(Digest(v, a), b)
    decreases |a|
  {
    if a == [] {
      assert a + b == b;
    } else {
      assert (a + b)[1..] == a[1..] + b;
      DigestAppend(Step(v, a[0]), a[1..], b);
      hide Step;
    }
  }

  lemma {:induction false} DigestStaysInRange(v: nat, bytes: seq<Byte>)
    requires v < WORD
    ensures Digest(v, bytes) < WORD
    decreases |bytes|
  {
    if bytes != [] {
      hide Step;
      StepStaysInRange(v, bytes[0]);
      DigestStaysInRange(Step(v, bytes[0]), bytes[1..]);
    }
  }

  // Streams of one length that differ in exactly one byte never collide.
  lemma OneByteIsAlwaysSeen(head: seq<Byte>, byte: Byte, byte': Byte, tail: seq<Byte>)
    ensures Digest(OFFSET_BASIS, head + ([byte] + tail)) == Digest(OFFSET_BASIS, head + ([byte'] + tail)) <==>
            byte == byte'
  {
    var v := Digest(OFFSET_BASIS, head);
    DigestStaysInRange(OFFSET_BASIS, head);
    DigestAppend(OFFSET_BASIS, head, [byte] + tail);
    DigestAppend(OFFSET_BASIS, head, [byte'] + tail);
    OneByteAhead(v, byte, tail);
    OneByteAhead(v, byte', tail);
    hide Digest, Step;
    if Digest(v, [byte] + tail) == Digest(v, [byte'] + tail) {
      DigestIsInjectiveInTheState(Step(v, byte), Step(v, byte'), tail);
      StepIsInjective(v, v, byte, byte');
    }
  }

  // The exclusive ors of the vectors' low bytes, two bits at a time.
  lemma FirstOfA()
    ensures Xor(0x25, 0x61, 8) == 0x44
  {
    assert Xor(2, 6, 4) == 4;
    assert Xor(9, 24, 6) == 17;
  }

  lemma FirstOfFo()
    ensures Xor(0x25, 0x66, 8) == 0x43
  {
    assert Xor(2, 6, 4) == 4;
    assert Xor(9, 25, 6) == 16;
  }

  lemma SecondOfFo()
    ensures Xor(0xd9, 0x6f, 8) == 0xb6
  {
    assert Xor(3, 1, 2) == 2;
    assert Xor(13, 6, 4) == 11;
    assert Xor(54, 27, 6) == 45;
  }

  lemma StepTo(v: nat, byte: Byte, low: Byte, wraps: nat, after: nat)
    requires Xor(v % 256, byte, 8) == low && after < WORD && (v - v % 256 + low) * PRIME == wraps * WORD + after
    ensures Step(v, byte) == after
  {
    hide Xor;
    Remainder(wraps, after);
  }

  lemma Remainder(wraps: nat, after: nat)
    requires after < WORD
    ensures (wraps * WORD + after) % WORD == after
  {
  }

  // Published test vectors of the 64-bit FNV-1a: the empty string, "a" and "fo".
  lemma PublishedVectors()
    ensures Digest(OFFSET_BASIS, []) == 0xcbf29ce484222325
    ensures Digest(OFFSET_BASIS, [0x61]) == 0xaf63dc4c8601ec8c
    ensures Digest(OFFSET_BASIS, [0x66, 0x6f]) == 0x08985907b541d342
  {
    hide Xor, Step;
    FirstOfA();
    FirstOfFo();
    SecondOfFo();
    StepTo(0xcbf29ce484222325, 0x61, 0x44, 875948729822, 0xaf63dc4c8601ec8c);
    StepTo(0xcbf29ce484222325, 0x66, 0x43, 875948729822, 0xaf63db4c8601ead9);
    StepTo(0xaf63db4c8601ead9, 0x6f, 0xb6, 753294593456, 0x08985907b541d342);
    var word: seq<Byte> := [0x66, 0x6f];
    assert word[1..] == [0x6f];
  }

  lemma OneByteAhead(v: nat, byte: Byte, tail: seq<Byte>)
    ensures Digest(v, [byte] + tail) == Digest(Step(v, byte), tail) && Step(v, byte) < WORD
  {
    assert ([byte] + tail)[1..] == tail;
    hide XorByte;
  }

  lemma LittleEndianSplits(v: nat, n: nat)
    requires n > 0
    ensures LittleEndian(v, n) == [v % 256] + LittleEndian(v / 256, n - 1)
  {
  }

  class CanonicalDigestWriter {
    var value: nat
    // Everything written so far.
    ghost var stream: seq<Byte>

    ghost predicate Valid()
      reads this
    {
      value == Digest(OFFSET_BASIS, stream)
    }

    constructor ()
      ensures Valid() && stream == []
    {
      value, stream := OFFSET_BASIS, [];
    }

    method AppendByte(byte: Byte)
      requires Valid()
      modifies this
      ensures Valid() && stream == old(stream) + [byte]
    {
      DigestAppend(OFFSET_BASIS, stream, [byte]);
      assert Digest(value, [byte]) == Step(value, byte);
      value := (XorByte(value, byte) * PRIME) % WORD;
      stream := stream + [byte];
    }

    method AppendU64(v: U64)
      requires Valid()
      modifies this
      ensures Valid() && stream == old(stream) + EncodeU64(v)
    {
      hide Digest, LittleEndian;
      var rest: nat := v;
      ghost var start := stream;
      for byte := 0 to 8
        invariant Valid() && rest >= 0
        invariant start + EncodeU64(v) == stream + LittleEndian(rest, 8 - byte)
      {
        LittleEndianSplits(rest, 8 - byte);
        Associate(stream, [rest % 256], LittleEndian(rest / 256, 7 - byte));
        AppendByte(rest % 256);
        rest := rest / 256;
      }
    }

    method AppendI64(v: I64)
      requires Valid()
      modifies this
      ensures Valid() && stream == old(stream) + EncodeU64(TwosComplement(v))
    {
      AppendU64(if v >= 0 then v else v + WORD);
    }

    method AppendFiniteDouble(d: Double)
      requires Valid()
      modifies this
      ensures Valid() && stream == old(stream) + EncodeU64(Canonical(d))
    {
      AppendU64(if d == NEGATIVE_ZERO then 0 else d);
    }

    method AppendString(s: seq<Byte>)
      requires Valid() && |s| < WORD
      modifies this
      ensures Valid() && stream == old(stream) + EncodeString(s)
    {
      hide Digest;
      ghost var start := stream;
      AppendU64(|s|);
      for i := 0 to |s|
        invariant Valid() && stream == start + EncodeU64(|s|) + s[..i]
      {
        AppendByte(s[i]);
        assert s[..i + 1] == s[..i] + [s[i]];
      }
      assert s[..|s|] == s;
      Associate(start, EncodeU64(|s|), s);
    }

    method AppendVector3(v: Vector3)
      requires Valid()
      modifies this
      ensures Valid() && stream == old(stream) + EncodeVector(v)
    {
      hide Digest, EncodeU64, Canonical;
      AppendFiniteDouble(v.x);
      AppendFiniteDouble(v.y);
      AppendFiniteDouble(v.z);
    }

    method AppendReferences(references: seq<Reference>)
      requires Valid()
      modifies this
      ensures Valid() && stream == old(stream) + EncodeReferences(references)
    {
      hide Digest, EncodeVector;
      ghost var start := stream;
      for i := 0 to |references|
        invariant Valid() && start + EncodeReferences(references) == stream + EncodeReferences(references[i..])
      {
        AppendVector3(references[i].state);
        AppendVector3(references[i].control);
        assert references[i..][1..] == references[i + 1..];
      }
    }

    // The execution authority that the cycle ran under.
    method AppendIdentity(s: Snapshot)
      requires Valid()
      modifies this
      ensures Valid() && stream == old(stream) + EncodeIdentity(s)
    {
      hide Digest, EncodeU64;
      ghost var f := EncodeU64(s.publication);
      ghost var e := EncodeU64(s.generation) + f;
      ghost var d := EncodeU64(s.epoch) + e;
      ghost var c := EncodeU64(s.goal) + d;
      ghost var b := EncodeU64(s.sequence) + c;
      Associate(stream, EncodeU64(s.incarnation), b);
      AppendU64(s.incarnation);
      Associate(stream, EncodeU64(s.sequence), c);
      AppendU64(s.sequence);
      Associate(stream, EncodeU64(s.goal), d);
      AppendU64(s.goal);
      Associate(stream, EncodeU64(s.epoch), e);
      AppendU64(s.epoch);
      Associate(stream, EncodeU64(s.generation), f);
      AppendU64(s.generation);
      AppendU64(s.publication);
    }

    method AppendBody(s: Snapshot)
      requires Valid() && Countable(s)
      modifies this
      ensures Valid() && stream == old(stream) + EncodeBody(s)
    {
      hide Digest, EncodeU64, EncodeString, EncodeVector, EncodeReferences, EncodeIdentity;
      ghost var ids := EncodeIdentity(s);
      ghost var g := EncodeVector(s.last) + ids;
      ghost var f := EncodeReferences(s.references) + g;
      ghost var e := EncodeU64(|s.references|) + f;
      ghost var d := EncodeString(s.frame) + e;
      ghost var c := EncodeU64(TwosComplement(s.deadline)) + d;
      ghost var b := EncodeU64(TwosComplement(s.stamp)) + c;
      Associate(stream, EncodeVector(s.current), b);
      AppendVector3(s.current);
      Associate(stream, EncodeU64(TwosComplement(s.stamp)), c);
      AppendI64(s.stamp);
      Associate(stream, EncodeU64(TwosComplement(s.deadline)), d);
      AppendI64(s.deadline);
      Associate(stream, EncodeString(s.frame), e);
      AppendString(s.frame);
      Associate(stream, EncodeU64(|s.references|), f);
      AppendU64(|s.references|);
      Associate(stream, EncodeReferences(s.references), g);
      AppendReferences(s.references);
      Associate(stream, EncodeVector(s.last), ids);
      AppendVector3(s.last);
      AppendIdentity(s);
    }

    // A fresh writer's whole stream, under a schema name.
    method AppendNamed(name: seq<Byte>, s: Snapshot)
      requires Valid() && Countable(s) && |name| < WORD && stream == []
      modifies this
      ensures Valid() && stream == EncodeU64(SCHEMA_VERSION) + (EncodeString(name) + EncodeBody(s))
    {
      hide Digest, EncodeU64, EncodeString, EncodeBody;
      AppendU64(SCHEMA_VERSION);
      Associate(stream, EncodeString(name), EncodeBody(s));
      AppendString(name);
      AppendBody(s);
    }
  }

  method IdentityDigest(s: Snapshot) returns (digest: nat)
    requires Countable(s)
    ensures digest == if AllFinite(s) then Digest(OFFSET_BASIS, Encode(s)) else 0
  {
    if !AllFinite(s) {
      return 0;
    }
    hide Digest, EncodeU64, EncodeString, EncodeBody, AllFinite;
    var writer := new CanonicalDigestWriter();
    writer.AppendNamed(SCHEMA_NAME, s);
    return writer.value;
  }

  ghost predicate DifferOnlyAt(a: seq<Byte>, b: seq<Byte>, i: nat) {
    i < |a| == |b| && a[i] != b[i] && a[..i] == b[..i] && a[i + 1..] == b[i + 1..]
  }

  // What the audit can rely on: one identity has one digest, and inputs whose
  // streams differ in a single byte have two.
  lemma AuditSeesEveryByte(a: Snapshot, b: Snapshot)
    requires Countable(a) && Countable(b)
    ensures IdentityOf(a) == IdentityOf(b) ==> Digest(OFFSET_BASIS, Encode(a)) == Digest(OFFSET_BASIS, Encode(b))
    ensures forall i: nat :: DifferOnlyAt(Encode(a), Encode(b), i) ==>
              IdentityOf(a) != IdentityOf(b) && Digest(OFFSET_BASIS, Encode(a)) != Digest(OFFSET_BASIS, Encode(b))
  {
    hide Encode, IdentityOf, Digest;
    StreamIsTheIdentity(a, b);
    forall i: nat | DifferOnlyAt(Encode(a), Encode(b), i)
      ensures Digest(OFFSET_BASIS, Encode(a)) != Digest(OFFSET_BASIS, Encode(b)) && Encode(a) != Encode(b)
    {
      var x, y := Encode(a), Encode(b);
      assert x == x[..i] + ([x[i]] + x[i + 1..]) && y == x[..i] + ([y[i]] + x[i + 1..]);
      OneByteIsAlwaysSeen(x[..i], x[i], y[i], x[i + 1..]);
    }
  }
}
