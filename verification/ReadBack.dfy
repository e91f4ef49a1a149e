/** Reading encoded bytes back, field by field: what each encoding says, and in which order. */
module ReadBack {
  import opened Bytes
  import opened Text
  import opened Canonical
  import opened RevealCodec
  import opened Fairness

  // ------------------------------------------------------------------ numbers

  /** Of a number's bytes the first one counts most. */
  lemma {:induction false} HighByteFirst(s: seq<byte>)
    requires s != []
    ensures FromBigEndian(s) == s[0] as nat * Power256(|s| - 1) + FromBigEndian(s[1..])
  {
    var n := |s| - 1;
    if n == 0 {
      assert s[..0] == [] && s[1..] == [];
    } else {
      HighByteFirst(s[..n]);
      assert s[..n][1..] == s[1..][..n - 1] && s[1..][n - 1] == s[n];
      Shifted(s[0] as nat, Power256(n - 1), FromBigEndian(s[..n][1..]), s[n] as nat);
    }
  }

  lemma Shifted(first: nat, weight: nat, middle: nat, last: nat)
    ensures (first * weight + middle) * 0x100 + last == first * (0x100 * weight) + (middle * 0x100 + last)
  {
  }

  /** The bytes written for a number are read as that number. */
  lemma WordReadsBack(value: uint64)
    ensures FromBigEndian(BigEndian(value, 8)) == value
  {
    WidthBounds();
    BigEndianRoundTrip(value, 8);
  }

  // ------------------------------------------------------------------ a reader

  /** A string behind its 32-bit length, or so many bytes. */
  datatype Shape = Lengthened | Wide(width: nat)

  /** The fields of these shapes, if that is what the bytes are, to the last one. */
  function Read(layout: seq<Shape>, s: seq<byte>): Option<seq<seq<byte>>> {
    if layout == [] then if s == [] then Some([]) else None
    else if layout[0].Lengthened? && |s| < 4 then None
    else
      var start, length := if layout[0].Lengthened? then 4 else 0,
                           if layout[0].Lengthened? then FromBigEndian(s[..4]) else layout[0].width;
      if |s| < start + length then None
      else
        match Read(layout[1..], s[start + length..])
        case None => None
        case Some(rest) => Some([s[start..start + length]] + rest)
  }

  ghost predicate Has(f: Field, shape: Shape) {
    match shape
    case Lengthened => f.Prefixed? && |f.value| < TWO_POW_32
    case Wide(width) => f.Fixed? && |f.value| == width
  }

  ghost predicate LaidOut(fields: seq<Field>, layout: seq<Shape>) {
    |fields| == |layout| && forall i :: 0 <= i < |fields| ==> Has(fields[i], layout[i])
  }

  function ValuesOf(fields: seq<Field>): (v: seq<seq<byte>>)
    ensures |v| == |fields|
  {
    seq(|fields|, i requires 0 <= i < |fields| => fields[i].value)
  }

  lemma PrefixIsLength(v: seq<byte>)
    requires |v| < TWO_POW_32
    ensures FromBigEndian(Prefix(v)) == |v|
  {
    LengthFits(|v|);
    BigEndianRoundTrip(|v|, 4);
  }

  /** Written fields are read back. */
  lemma {:induction false} WrittenReadsBack(fields: seq<Field>, layout: seq<Shape>)
    requires LaidOut(fields, layout)
    ensures Read(layout, Flatten(fields)) == Some(ValuesOf(fields))
  {
    if fields != [] {
      var f, s := fields[0], Flatten(fields);
      assert Has(f, layout[0]);
      WrittenReadsBack(fields[1..], layout[1..]);
      if f.Prefixed? {
        PrefixIsLength(f.value);
        assert s[..4] == Prefix(f.value) && s[4..4 + |f.value|] == f.value;
        assert s[4 + |f.value|..] == Flatten(fields[1..]);
      } else {
        assert s[0..|f.value|] == f.value && s[|f.value|..] == Flatten(fields[1..]);
      }
      assert ValuesOf(fields) == [f.value] + ValuesOf(fields[1..]);
    }
  }

  // ------------------------------------------------------------------ the encodings

  const HEADER: seq<Shape> := [Lengthened, Lengthened, Lengthened, Lengthened, Lengthened, Lengthened, Lengthened,
                               Lengthened, Wide(1), Wide(8), Wide(8)]

  /** What the header of an encoding says, in its order. */
  function HeaderValues(kind: Text, c: Command, actor: Text, seat: uint8, keyId: Text): seq<seq<byte>> {
    [kind, c.version, c.name, keyId, c.commandId, c.aggregateType, c.aggregateId, actor, [seat as byte],
     BigEndian(c.clientSeq, 8), BigEndian(c.expectedVersion, 8)]
  }

  lemma HeaderIsLaidOut(kind: Text, c: Command, actor: Text, seat: uint8, keyId: Text)
    requires |kind| < TWO_POW_32 && Fits(c, actor, keyId)
    ensures LaidOut(HeaderFields(kind, c, actor, seat, keyId), HEADER)
    ensures ValuesOf(HeaderFields(kind, c, actor, seat, keyId)) == HeaderValues(kind, c, actor, seat, keyId)
  {
  }

  lemma {:induction false} LaidOutBehind(head: seq<Field>, headLayout: seq<Shape>, rest: seq<Field>,
                                         restLayout: seq<Shape>)
    requires LaidOut(head, headLayout) && LaidOut(rest, restLayout)
    ensures LaidOut(head + rest, headLayout + restLayout) && ValuesOf(head + rest) == ValuesOf(head) + ValuesOf(rest)
  {
    forall i | 0 <= i < |head + rest| ensures Has((head + rest)[i], (headLayout + restLayout)[i]) {
      if i < |head| {
        assert Has(head[i], headLayout[i]);
      } else {
        assert Has(rest[i - |head|], restLayout[i - |head|]);
      }
    }
  }

  lemma {:induction false} ReadsBackBehind(head: seq<Field>, headLayout: seq<Shape>, rest: seq<Field>,
                                           restLayout: seq<Shape>)
    requires LaidOut(head, headLayout) && LaidOut(rest, restLayout)
    ensures Read(headLayout + restLayout, Flatten(head + rest)) == Some(ValuesOf(head) + ValuesOf(rest))
  {
    LaidOutBehind(head, headLayout, rest, restLayout);
    WrittenReadsBack(head + rest, headLayout + restLayout);
  }

  /** The bytes of a reveal say, in this order: kind, protocol, name, key, command, aggregate, actor, seat, sequence,
      version, commitment and the two times. */
  lemma RevealReadsBack(c: Command, actor: Text, seat: uint8, commitment: Block, keyId: Text)
    requires Fits(c, actor, keyId) && RevealAAD(c, actor, seat, commitment, keyId).Some?
    ensures Read(HEADER + [Wide(32), Wide(8), Wide(8)], RevealAAD(c, actor, seat, commitment, keyId).value)
            == Some(HeaderValues(REVEAL_AAD_V1, c, actor, seat, keyId)
                    + [commitment, BigEndian(c.issuedAt % TWO_POW_64, 8), BigEndian(c.expiresAt % TWO_POW_64, 8)])
  {
    HeaderIsLaidOut(REVEAL_AAD_V1, c, actor, seat, keyId);
    var rest := [Fixed(commitment), I64(c.issuedAt), I64(c.expiresAt)];
    ReadsBackBehind(HeaderFields(REVEAL_AAD_V1, c, actor, seat, keyId), HEADER, rest, [Wide(32), Wide(8), Wide(8)]);
    assert ValuesOf(rest)
           == [commitment, BigEndian(c.issuedAt % TWO_POW_64, 8), BigEndian(c.expiresAt % TWO_POW_64, 8)];
  }

  /** The bytes of a custodied contribution say the same without a commitment. */
  lemma CustodiedReadsBack(c: Command, actor: Text, seat: uint8, keyId: Text)
    requires Fits(c, actor, keyId) && CustodiedAAD(c, actor, seat, keyId).Some?
    ensures Read(HEADER + [Wide(8), Wide(8)], CustodiedAAD(c, actor, seat, keyId).value)
            == Some(HeaderValues(CUSTODIED_AAD_V1, c, actor, seat, keyId)
                    + [BigEndian(c.issuedAt % TWO_POW_64, 8), BigEndian(c.expiresAt % TWO_POW_64, 8)])
  {
    HeaderIsLaidOut(CUSTODIED_AAD_V1, c, actor, seat, keyId);
    var rest := [I64(c.issuedAt), I64(c.expiresAt)];
    ReadsBackBehind(HeaderFields(CUSTODIED_AAD_V1, c, actor, seat, keyId), HEADER, rest, [Wide(8), Wide(8)]);
    assert ValuesOf(rest) == [BigEndian(c.issuedAt % TWO_POW_64, 8), BigEndian(c.expiresAt % TWO_POW_64, 8)];
  }

  const RECORD: seq<Shape> := [Lengthened, Lengthened, Lengthened, Wide(1), Lengthened, Lengthened, Wide(32)]

  lemma RecordIsLaidOut(recordId: Text, handId: Text, seat: uint8, actor: Text, commandId: Text, digest: Block)
    requires |recordId| < TWO_POW_32 && |handId| < TWO_POW_32 && |actor| < TWO_POW_32 && |commandId| < TWO_POW_32
    ensures LaidOut(RecordFields(recordId, handId, seat, actor, commandId, digest), RECORD)
    ensures ValuesOf(RecordFields(recordId, handId, seat, actor, commandId, digest))
            == [RECORD_AAD_V1, recordId, handId, [seat as byte], actor, commandId, digest]
  {
  }

  /** The bytes of a contribution record say: kind, record, hand, seat, actor, command and digest. */
  lemma RecordReadsBack(recordId: Text, handId: Text, seat: uint8, actor: Text, commandId: Text, digest: Block)
    requires |recordId| < TWO_POW_32 && |handId| < TWO_POW_32 && |actor| < TWO_POW_32 && |commandId| < TWO_POW_32
    requires RecordAAD(recordId, handId, seat, actor, commandId, digest).Some?
    ensures Read(RECORD, RecordAAD(recordId, handId, seat, actor, commandId, digest).value)
            == Some([RECORD_AAD_V1, recordId, handId, [seat as byte], actor, commandId, digest])
  {
    RecordIsLaidOut(recordId, handId, seat, actor, commandId, digest);
    WrittenReadsBack(RecordFields(recordId, handId, seat, actor, commandId, digest), RECORD);
  }

  const MATERIAL_HEAD: seq<Shape> := [Wide(30), Lengthened, Lengthened, Lengthened, Lengthened, Lengthened, Wide(1),
                                      Lengthened, Wide(32), Wide(32), Wide(1)]
  const MATERIAL_TAIL: seq<Shape> := [Lengthened, Lengthened, Wide(32), Lengthened, Lengthened, Wide(32)]

  function ParticipantLayout(count: nat): (l: seq<Shape>)
    ensures |l| == count
  {
    seq(count, _ => Wide(65))
  }

  /** A participant's bytes: position, contribution, commitment. */
  function ParticipantValues(ps: seq<Participant>): seq<seq<byte>> {
    seq(|ps|, i requires 0 <= i < |ps| => [ps[i].position] + ps[i].contribution + ps[i].commitment)
  }

  /** What the head of the material says, in its order. */
  function HeadValues(m: Material): seq<seq<byte>>
    requires |m.participants| < 0x100
  {
    [FAIRNESS_MATERIAL_DOMAIN + [0], FAIRNESS_MATERIAL_VERSION, m.descriptor.gameId, m.descriptor.rulesetVersion,
     m.descriptor.moduleVersion, m.descriptor.fairnessSuiteId, [m.descriptor.participantCount], m.instanceId,
     m.serverSeed, m.serverCommitment, [|m.participants| as byte]]
  }

  function TailValues(m: Material): seq<seq<byte>> {
    [m.beacon.provider, m.beacon.round, m.beacon.digest, m.beacon.proofRef, m.keyId, m.publicKey]
  }

  lemma MaterialHead(m: Material)
    requires Bounded(m)
    ensures LaidOut(HeadFields(m), MATERIAL_HEAD) && ValuesOf(HeadFields(m)) == HeadValues(m)
  {
  }

  lemma MaterialParticipants(ps: seq<Participant>)
    ensures LaidOut(ParticipantFields(ps), ParticipantLayout(|ps|))
    ensures ValuesOf(ParticipantFields(ps)) == ParticipantValues(ps)
  {
  }

  lemma MaterialTail(m: Material)
    requires Bounded(m)
    ensures LaidOut(TailFields(m), MATERIAL_TAIL) && ValuesOf(TailFields(m)) == TailValues(m)
  {
  }

  /** The preimage of a fairness digest says: domain, version, the game's description, instance, seed, commitment, the
      participants in order, the beacon and the reveal key. */
  lemma MaterialReadsBack(m: Material)
    requires ValidMaterial(m)
    ensures |m.participants| < 0x100
    ensures Read(MATERIAL_HEAD + (ParticipantLayout(|m.participants|) + MATERIAL_TAIL), Preimage(m))
            == Some(HeadValues(m) + (ParticipantValues(m.participants) + TailValues(m)))
  {
    ValidIsBounded(m);
    BoundedReadsBack(m);
  }

  lemma BoundedReadsBack(m: Material)
    requires Bounded(m)
    ensures Read(MATERIAL_HEAD + (ParticipantLayout(|m.participants|) + MATERIAL_TAIL), Preimage(m))
            == Some(HeadValues(m) + (ParticipantValues(m.participants) + TailValues(m)))
  {
    var ps, layout := ParticipantFields(m.participants), ParticipantLayout(|m.participants|);
    MaterialHead(m);
    MaterialParticipants(m.participants);
    MaterialTail(m);
    LaidOutBehind(ps, layout, TailFields(m), MATERIAL_TAIL);
    ReadsBackBehind(HeadFields(m), MATERIAL_HEAD, ps + TailFields(m), layout + MATERIAL_TAIL);
  }
}
