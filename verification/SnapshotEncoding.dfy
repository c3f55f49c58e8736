/** The byte stream that identifies a control cycle's inputs, and reading it back. */
module SnapshotEncoding {
  import opened Basics

  type Byte = b: int | 0 <= b < 256
  const WORD: nat := 0x1_0000_0000_0000_0000
  type U64 = v: int | 0 <= v < 0x1_0000_0000_0000_0000
  type I64 = v: int | -0x8000_0000_0000_0000 <= v < 0x8000_0000_0000_0000

  // A double is its bit pattern.
  type Double = U64
  const NEGATIVE_ZERO: Double := 0x8000_0000_0000_0000

  predicate IsFinite(d: Double) {
    (d / 0x10_0000_0000_0000) % 2048 != 2047
  }

  datatype Vector3 = Vector3(x: Double, y: Double, z: Double)
  datatype Reference = Reference(state: Vector3, control: Vector3)

  datatype Snapshot = Snapshot(
    current: Vector3, stamp: I64, deadline: I64, frame: seq<Byte>, references: seq<Reference>, last: Vector3,
    incarnation: U64, sequence: U64, goal: U64, epoch: U64, generation: U64, publication: U64)

  // "ats_swerve_mpc.control_cycle_snapshot"
  const SCHEMA_NAME: seq<Byte> :=
    [97, 116, 115, 95, 115, 119, 101, 114, 118, 101, 95, 109, 112, 99, 46, 99, 111, 110, 116, 114, 111, 108, 95, 99,
     121, 99, 108, 101,
     95, 115, 110, 97, 112, 115, 104, 111, 116]
  const SCHEMA_VERSION: U64 := 1

  predicate FiniteVector(v: Vector3) {
    IsFinite(v.x) && IsFinite(v.y) && IsFinite(v.z)
  }

  predicate AllFinite(s: Snapshot) {
    FiniteVector(s.current) && FiniteVector(s.last) &&
    forall i | 0 <= i < |s.references| :: FiniteVector(s.references[i].state) && FiniteVector(s.references[i].control)
  }

  // Sizes that a 64-bit count can hold.
  predicate Countable(s: Snapshot) {
    |s.frame| < WORD && |s.references| < WORD
  }

  function LittleEndian(v: nat, n: nat): (bytes: seq<Byte>)
    ensures |bytes| == n
  {
    if n == 0 then [] else [v % 256] + LittleEndian(v / 256, n - 1)
  }

  function EncodeU64(v: U64): (bytes: seq<Byte>)
    ensures |bytes| == 8
  {
    LittleEndian(v, 8)
  }

  function TwosComplement(v: I64): U64 {
    if v >= 0 then v else v + WORD
  }

  function Canonical(d: Double): Double {
    if d == NEGATIVE_ZERO then 0 else d
  }

  function EncodeVector(v: Vector3): seq<Byte> {
    EncodeU64(Canonical(v.x)) + (EncodeU64(Canonical(v.y)) + EncodeU64(Canonical(v.z)))
  }

  function EncodeString(s: seq<Byte>): seq<Byte>
    requires |s| < WORD
  {
    EncodeU64(|s|) + s
  }

  function EncodeReferences(references: seq<Reference>): seq<Byte> {
    if references == [] then []
    else EncodeVector(references[0].state) + (EncodeVector(references[0].control) + EncodeReferences(references[1..]))
  }

  function EncodeIdentity(s: Snapshot): seq<Byte> {
    EncodeU64(s.incarnation) + (EncodeU64(s.sequence) + (EncodeU64(s.goal) + (EncodeU64(s.epoch) +
    (EncodeU64(s.generation) + EncodeU64(s.publication)))))
  }

  function EncodeBody(s: Snapshot): seq<Byte>
    requires Countable(s)
  {
    EncodeVector(s.current) + (EncodeU64(TwosComplement(s.stamp)) + (EncodeU64(TwosComplement(s.deadline)) +
    (EncodeString(s.frame) + (EncodeU64(|s.references|) + (EncodeReferences(s.references) + (EncodeVector(s.last) +
    EncodeIdentity(s)))))))
  }

  function Encode(s: Snapshot): seq<Byte>
    requires Countable(s)
  {
    EncodeU64(SCHEMA_VERSION) + (EncodeString(SCHEMA_NAME) + EncodeBody(s))
  }

  // Reading: each reader takes its field off the front and leaves the rest.
  datatype Read<T> = Read(value: T, rest: seq<Byte>) | Short
  {
    predicate IsFailure() {
      Short?
    }

    function PropagateFailure<U>(): Read<U>
      requires Short?
    {
      Short
    }

    function Extract(): (T, seq<Byte>)
      requires Read?
    {
      (value, rest)
    }
  }

  function FromLittleEndian(bytes: seq<Byte>): nat {
    if bytes == [] then 0 else bytes[0] + 256 * FromLittleEndian(bytes[1..])
  }

  function ReadU64(bytes: seq<Byte>): Read<nat> {
    if |bytes| < 8 then Short else Read(FromLittleEndian(bytes[..8]), bytes[8..])
  }

  function FromTwosComplement(v: nat): int {
    if v < 0x8000_0000_0000_0000 then v else v - WORD
  }

  datatype Triple = Triple(x: nat, y: nat, z: nat)

  function ReadVector(bytes: seq<Byte>): Read<Triple> {
    var (x, b1) :- ReadU64(bytes);
    var (y, b2) :- ReadU64(b1);
    var (z, b3) :- ReadU64(b2);
    Read(Triple(x, y, z), b3)
  }

  function ReadString(bytes: seq<Byte>): Read<seq<Byte>> {
    var (n, rest) :- ReadU64(bytes);
    if |rest| < n then Short else Read(rest[..n], rest[n..])
  }

  function ReadReferences(bytes: seq<Byte>, n: nat): Read<seq<(Triple, Triple)>> {
    if n == 0 then Read([], bytes)
    else
      var (state, b1) :- ReadVector(bytes);
      var (control, b2) :- ReadVector(b1);
      var (others, b3) :- ReadReferences(b2, n - 1);
      Read([(state, control)] + others, b3)
  }

  datatype Ids = Ids(incarnation: nat, sequence: nat, goal: nat, epoch: nat, generation: nat, publication: nat)

  function ReadIds(bytes: seq<Byte>): Read<Ids> {
    var (incarnation, b1) :- ReadU64(bytes);
    var (sequence, b2) :- ReadU64(b1);
    var (goal, b3) :- ReadU64(b2);
    var (epoch, b4) :- ReadU64(b3);
    var (generation, b5) :- ReadU64(b4);
    var (publication, b6) :- ReadU64(b5);
    Read(Ids(incarnation, sequence, goal, epoch, generation, publication), b6)
  }

  datatype Identity = Identity(
    current: Triple, stamp: int, deadline: int, frame: seq<Byte>, references: seq<(Triple, Triple)>, last: Triple,
    ids: Ids)

  function ReadBody(bytes: seq<Byte>): Read<Identity> {
    var (current, b1) :- ReadVector(bytes);
    var (stamp, b2) :- ReadU64(b1);
    var (deadline, b3) :- ReadU64(b2);
    var (frame, b4) :- ReadString(b3);
    var (count, b5) :- ReadU64(b4);
    var (references, b6) :- ReadReferences(b5, count);
    var (last, b7) :- ReadVector(b6);
    var (ids, b8) :- ReadIds(b7);
    Read(Identity(current, FromTwosComplement(stamp), FromTwosComplement(deadline), frame, references, last, ids), b8)
  }

  function Decode(bytes: seq<Byte>): Option<Identity> {
    var version := ReadU64(bytes);
    if version.Short? || version.value != SCHEMA_VERSION then None
    else
      var name := ReadString(version.rest);
      if name.Short? || name.value != SCHEMA_NAME then None
      else
        var body := ReadBody(name.rest);
        if body.Short? || body.rest != [] then None else Some(body.value)
  }

  // The identity of a snapshot: everything encoded, with -0.0 read as +0.0.
  function VectorOf(v: Vector3): Triple {
    Triple(Canonical(v.x), Canonical(v.y), Canonical(v.z))
  }

  function ReferencesOf(references: seq<Reference>): seq<(Triple, Triple)> {
    if references == [] then []
    else [(VectorOf(references[0].state), VectorOf(references[0].control))] + ReferencesOf(references[1..])
  }

  function IdentityOf(s: Snapshot): Identity {
    Identity(VectorOf(s.current), s.stamp, s.deadline, s.frame, ReferencesOf(s.references), VectorOf(s.last),
             Ids(s.incarnation, s.sequence, s.goal, s.epoch, s.generation, s.publication))
  }

  function Pow256(n: nat): nat {
    if n == 0 then 1 else 256 * Pow256(n - 1)
  }

  lemma {:induction false} LittleEndianRoundTrip(v: nat, n: nat)
    requires v < Pow256(n)
    ensures FromLittleEndian(LittleEndian(v, n)) == v
  {
    if n > 0 {
      LittleEndianRoundTrip(v / 256, n - 1);
      assert LittleEndian(v, n)[1..] == LittleEndian(v / 256, n - 1);
    }
  }

  lemma U64RoundTrip(v: U64, rest: seq<Byte>)
    ensures ReadU64(EncodeU64(v) + rest) == Read(v, rest)
  {
    assert Pow256(8) == WORD by {
      assert Pow256(4) == 0x1_0000_0000;
    }
    LittleEndianRoundTrip(v, 8);
    assert (EncodeU64(v) + rest)[..8] == EncodeU64(v);
  }

  lemma Associate(a: seq<Byte>, b: seq<Byte>, c: seq<Byte>)
    ensures (a + b) + c == a + (b + c)
  {
  }

  lemma VectorRoundTrip(v: Vector3, rest: seq<Byte>)
    ensures ReadVector(EncodeVector(v) + rest) == Read(VectorOf(v), rest)
  {
    hide EncodeU64, ReadU64, Canonical;
    var x, y, z := EncodeU64(Canonical(v.x)), EncodeU64(Canonical(v.y)), EncodeU64(Canonical(v.z));
    Associate(x, y + z, rest);
    Associate(y, z, rest);
    U64RoundTrip(Canonical(v.x), (y + z) + rest);
    U64RoundTrip(Canonical(v.y), z + rest);
    U64RoundTrip(Canonical(v.z), rest);
  }

  lemma StringRoundTrip(s: seq<Byte>, rest: seq<Byte>)
    requires |s| < WORD
    ensures ReadString(EncodeString(s) + rest) == Read(s, rest)
  {
    hide EncodeU64, ReadU64;
    Associate(EncodeU64(|s|), s, rest);
    U64RoundTrip(|s|, s + rest);
    assert (s + rest)[..|s|] == s && (s + rest)[|s|..] == rest;
  }

  lemma {:induction false} ReferencesRoundTrip(references: seq<Reference>, rest: seq<Byte>)
    ensures ReadReferences(EncodeReferences(references) + rest, |references|) == Read(ReferencesOf(references), rest)
  {
    if references != [] {
      hide EncodeVector, ReadVector, VectorOf;
      var state, control := EncodeVector(references[0].state), EncodeVector(references[0].control);
      var others := EncodeReferences(references[1..]);
      Associate(state, control + others, rest);
      Associate(control, others, rest);
      VectorRoundTrip(references[0].state, (control + others) + rest);
      VectorRoundTrip(references[0].control, others + rest);
      ReferencesRoundTrip(references[1..], rest);
    } else {
      assert EncodeReferences(references) + rest == rest;
    }
  }

  lemma IdsRoundTrip(s: Snapshot)
    ensures ReadIds(EncodeIdentity(s)) == Read(IdentityOf(s).ids, [])
  {
    hide EncodeU64, ReadU64, VectorOf, ReferencesOf;
    var f := EncodeU64(s.publication);
    var e := EncodeU64(s.generation) + f;
    var d := EncodeU64(s.epoch) + e;
    var c := EncodeU64(s.goal) + d;
    var b := EncodeU64(s.sequence) + c;
    U64RoundTrip(s.incarnation, b);
    U64RoundTrip(s.sequence, c);
    U64RoundTrip(s.goal, d);
    U64RoundTrip(s.epoch, e);
    U64RoundTrip(s.generation, f);
    U64RoundTrip(s.publication, []);
    assert f + [] == f;
  }

  lemma TwosComplementRoundTrip(v: I64)
    ensures FromTwosComplement(TwosComplement(v)) == v
  {
  }

  lemma BodyRoundTrip(s: Snapshot)
    requires Countable(s)
    ensures ReadBody(EncodeBody(s)) == Read(IdentityOf(s), [])
  {
    hide EncodeU64, ReadU64, EncodeVector, ReadVector, EncodeString, ReadString, EncodeReferences, ReadReferences,
      EncodeIdentity,
      ReadIds, VectorOf, ReferencesOf;
    var ids := EncodeIdentity(s);
    var g := EncodeVector(s.last) + ids;
    var f := EncodeReferences(s.references) + g;
    var e := EncodeU64(|s.references|) + f;
    var d := EncodeString(s.frame) + e;
    var c := EncodeU64(TwosComplement(s.deadline)) + d;
    var b := EncodeU64(TwosComplement(s.stamp)) + c;
    VectorRoundTrip(s.current, b);
    U64RoundTrip(TwosComplement(s.stamp), c);
    U64RoundTrip(TwosComplement(s.deadline), d);
    StringRoundTrip(s.frame, e);
    U64RoundTrip(|s.references|, f);
    ReferencesRoundTrip(s.references, g);
    VectorRoundTrip(s.last, ids);
    IdsRoundTrip(s);
    TwosComplementRoundTrip(s.stamp);
    TwosComplementRoundTrip(s.deadline);
  }

  // The stream can be read back to every identity field.
  lemma DecodeInvertsEncode(s: Snapshot)
    requires Countable(s)
    ensures Decode(Encode(s)) == Some(IdentityOf(s))
  {
    hide EncodeU64, ReadU64, EncodeString, ReadString, EncodeBody, ReadBody, IdentityOf;
    U64RoundTrip(SCHEMA_VERSION, EncodeString(SCHEMA_NAME) + EncodeBody(s));
    StringRoundTrip(SCHEMA_NAME, EncodeBody(s));
    BodyRoundTrip(s);
  }

  lemma {:induction false} SameReferences(a: seq<Reference>, b: seq<Reference>)
    requires ReferencesOf(a) == ReferencesOf(b)
    ensures |a| == |b| && EncodeReferences(a) == EncodeReferences(b)
  {
    if a != [] && b != [] {
      assert ReferencesOf(a)[0] == ReferencesOf(b)[0];
      assert ReferencesOf(a)[1..] == ReferencesOf(a[1..]) && ReferencesOf(b)[1..] == ReferencesOf(b[1..]);
      SameReferences(a[1..], b[1..]);
      hide EncodeU64;
    }
  }

  // Two snapshots have one stream exactly when they are the same up to the sign of zero.
  lemma StreamIsTheIdentity(a: Snapshot, b: Snapshot)
    requires Countable(a) && Countable(b)
    ensures Encode(a) == Encode(b) <==> IdentityOf(a) == IdentityOf(b)
  {
    hide EncodeU64, Decode;
    DecodeInvertsEncode(a);
    DecodeInvertsEncode(b);
    if IdentityOf(a) == IdentityOf(b) {
      SameReferences(a.references, b.references);
    }
  }
}
