/** Fairness material and the bytes its digest is taken over. */
module Fairness {
  import opened Bytes
  import opened Text
  import opened Identity
  import opened Canonical

  const FAIRNESS_MATERIAL_DOMAIN := Ascii("gamecore/fairness-material/v1")
  const FAIRNESS_MATERIAL_VERSION := Ascii("gamecore-fairness-material-v1")

  datatype Participant = Participant(position: byte, contribution: Block, commitment: Block)

  datatype Beacon = Beacon(provider: Text, round: Text, digest: Block, proofRef: Text)

  datatype Material = Material(
    descriptor: Descriptor, instanceId: Text, serverSeed: Block, serverCommitment: Block,
    participants: seq<Participant>, beacon: Beacon, keyId: Text, publicKey: Block)

  predicate ValidParticipant(p: Participant, index: nat) {
    p.position as int == index + 1 && p.contribution != ZeroBlock() && p.commitment != ZeroBlock()
  }

  predicate ValidMaterial(m: Material) {
    && ValidDescriptor(m.descriptor)
    && ValidId(m.instanceId)
    && m.serverSeed != ZeroBlock() && m.serverCommitment != ZeroBlock()
    && |m.participants| == m.descriptor.participantCount as int
    && (forall i :: 0 <= i < |m.participants| ==> ValidParticipant(m.participants[i], i))
    && ValidId(m.beacon.provider) && ValidId(m.beacon.round) && m.beacon.digest != ZeroBlock()
    && ValidId(m.beacon.proofRef)
    && ValidId(m.keyId) && m.publicKey != ZeroBlock()
  }

  function HeadFields(m: Material): (f: seq<Field>)
    requires |m.participants| < 0x100
    ensures |f| == 11
  {
    [Fixed(FAIRNESS_MATERIAL_DOMAIN + [0]), Prefixed(FAIRNESS_MATERIAL_VERSION),
     Prefixed(m.descriptor.gameId), Prefixed(m.descriptor.rulesetVersion),
     Prefixed(m.descriptor.moduleVersion), Prefixed(m.descriptor.fairnessSuiteId),
     Fixed([m.descriptor.participantCount]), Prefixed(m.instanceId),
     Fixed(m.serverSeed), Fixed(m.serverCommitment), Fixed([|m.participants| as byte])]
  }

  /** One participant: a position byte and two digests. */
  function ParticipantField(p: Participant): Field {
    Fixed([p.position] + p.contribution + p.commitment)
  }

  function ParticipantFields(ps: seq<Participant>): (f: seq<Field>)
    ensures |f| == |ps|
  {
    seq(|ps|, i requires 0 <= i < |ps| => ParticipantField(ps[i]))
  }

  function TailFields(m: Material): (f: seq<Field>)
    ensures |f| == 6
  {
    [Prefixed(m.beacon.provider), Prefixed(m.beacon.round), Fixed(m.beacon.digest), Prefixed(m.beacon.proofRef),
     Prefixed(m.keyId), Fixed(m.publicKey)]
  }

  /** The digest's input, for material that passes validation. */
  function Preimage(m: Material): seq<byte>
    requires |m.participants| < 0x100
  {
    Flatten(HeadFields(m) + (ParticipantFields(m.participants) + TailFields(m)))
  }

  lemma ParticipantDecided(p: Participant, q: Participant)
    requires ParticipantField(p) == ParticipantField(q)
    ensures p == q
  {
    Split([p.position] + p.contribution, [q.position] + q.contribution, p.commitment, q.commitment);
    Split([p.position], [q.position], p.contribution, q.contribution);
    assert [p.position][0] == [q.position][0];
  }

  lemma ParticipantsDecided(ps: seq<Participant>, qs: seq<Participant>)
    requires ParticipantFields(ps) == ParticipantFields(qs)
    ensures ps == qs
  {
    forall i | 0 <= i < |ps| ensures ps[i] == qs[i] {
      assert ParticipantFields(ps)[i] == ParticipantFields(qs)[i];
      ParticipantDecided(ps[i], qs[i]);
    }
  }

  lemma HeadDecided(m: Material, n: Material)
    requires |m.participants| < 0x100 && |n.participants| < 0x100 && HeadFields(m) == HeadFields(n)
    ensures m.descriptor == n.descriptor && m.instanceId == n.instanceId
    ensures m.serverSeed == n.serverSeed && m.serverCommitment == n.serverCommitment
    ensures |m.participants| == |n.participants|
  {
    var f, g := HeadFields(m), HeadFields(n);
    assert f[2] == g[2] && f[3] == g[3] && f[4] == g[4] && f[5] == g[5] && f[6] == g[6];
    assert f[7] == g[7] && f[8] == g[8] && f[9] == g[9] && f[10] == g[10];
    assert f[6].value[0] == g[6].value[0] && f[10].value[0] == g[10].value[0];
  }

  lemma TailDecided(m: Material, n: Material)
    requires TailFields(m) == TailFields(n)
    ensures m.beacon == n.beacon && m.keyId == n.keyId && m.publicKey == n.publicKey
  {
    var f, g := TailFields(m), TailFields(n);
    assert f[0] == g[0] && f[1] == g[1] && f[2] == g[2] && f[3] == g[3] && f[4] == g[4] && f[5] == g[5];
  }

  /** The lengths that validation bounds. */
  predicate Bounded(m: Material) {
    && |m.participants| < 0x100
    && |m.descriptor.gameId| <= 128 && |m.descriptor.rulesetVersion| <= 128 && |m.descriptor.moduleVersion| <= 128
    && |m.descriptor.fairnessSuiteId| <= 128 && |m.instanceId| <= 128 && |m.beacon.provider| <= 128
    && |m.beacon.round| <= 128 && |m.beacon.proofRef| <= 128 && |m.keyId| <= 128
  }

  lemma ValidIsBounded(m: Material)
    requires ValidMaterial(m)
    ensures Bounded(m)
  {
  }

  lemma HeadFormat(m: Material, n: Material)
    requires Bounded(m) && Bounded(n)
    ensures SameFormat(HeadFields(m), HeadFields(n))
  {
    assert |FAIRNESS_MATERIAL_VERSION| == 29;
  }

  lemma RestFormat(m: Material, n: Material)
    requires Bounded(m) && Bounded(n) && |m.participants| == |n.participants|
    ensures SameFormat(ParticipantFields(m.participants) + TailFields(m),
                       ParticipantFields(n.participants) + TailFields(n))
  {
    assert SameFormat(TailFields(m), TailFields(n));
    assert SameFormat(ParticipantFields(m.participants), ParticipantFields(n.participants));
  }

  /** Valid materials with equal preimages are equal. */
  lemma PreimageIsInjective(m: Material, n: Material)
    requires ValidMaterial(m) && ValidMaterial(n) && Preimage(m) == Preimage(n)
    ensures m == n
  {
    var ps, qs, s, t := ParticipantFields(m.participants), ParticipantFields(n.participants), TailFields(m),
        TailFields(n);
    ValidIsBounded(m);
    ValidIsBounded(n);
    HeadFormat(m, n);
    FlattenAppend(HeadFields(m), ps + s);
    FlattenAppend(HeadFields(n), qs + t);
    FieldsDecided(HeadFields(m), HeadFields(n), Flatten(ps + s), Flatten(qs + t));
    HeadDecided(m, n);
    RestFormat(m, n);
    FlattenIsInjective(ps + s, qs + t);
    Split(ps, qs, s, t);
    ParticipantsDecided(m.participants, n.participants);
    TailDecided(m, n);
  }

  /** CanonicalDigest: invalid material is refused, otherwise the fields are written and hashed. */
  method CanonicalDigest(m: Material, hash: seq<byte> -> Block) returns (r: Option<Block>)
    ensures r.None? <==> !ValidMaterial(m)
    ensures r.Some? ==> r.value == hash(Preimage(m))
  {
    if !ValidMaterial(m) {
      return None;
    }
    var h := new Buffer();
    WriteHead(h, m);
    WriteParticipants(h, m.participants);
    WriteTail(h, m);
    Associative(HeadFields(m), ParticipantFields(m.participants), TailFields(m));
    return Some(hash(h.data));
  }

  method WriteParticipants(h: Buffer, ps: seq<Participant>)
    requires h.Valid()
    modifies h
    ensures h.Valid() && h.fields == old(h.fields) + ParticipantFields(ps)
  {
    ghost var written: seq<Field> := [];
    for index := 0 to |ps|
      invariant h.Valid() && written == ParticipantFields(ps)[..index]
      invariant h.fields == old(h.fields) + written
    {
      h.Write([ps[index].position] + ps[index].contribution + ps[index].commitment);
      written := written + [ParticipantField(ps[index])];
    }
  }

  method WriteHead(h: Buffer, m: Material)
    requires h.Valid() && h.fields == [] && |m.participants| < 0x100
    modifies h
    ensures h.Valid() && h.fields == HeadFields(m)
  {
    h.Write(FAIRNESS_MATERIAL_DOMAIN + [0]);
    h.WriteString(FAIRNESS_MATERIAL_VERSION);
    WriteDescriptor(h, m.descriptor);
    h.WriteString(m.instanceId);
    h.Write(m.serverSeed);
    h.Write(m.serverCommitment);
    h.Write([|m.participants| as byte]);
  }

  method WriteDescriptor(h: Buffer, d: Descriptor)
    requires h.Valid()
    modifies h
    ensures h.Valid()
    ensures h.fields == old(h.fields) + [Prefixed(d.gameId), Prefixed(d.rulesetVersion), Prefixed(d.moduleVersion),
                                         Prefixed(d.fairnessSuiteId), Fixed([d.participantCount])]
  {
    h.WriteString(d.gameId);
    h.WriteString(d.rulesetVersion);
    h.WriteString(d.moduleVersion);
    h.WriteString(d.fairnessSuiteId);
    h.Write([d.participantCount]);
  }

  method WriteTail(h: Buffer, m: Material)
    requires h.Valid()
    modifies h
    ensures h.Valid() && h.fields == old(h.fields) + TailFields(m)
  {
    h.WriteString(m.beacon.provider);
    h.WriteString(m.beacon.round);
    h.Write(m.beacon.digest);
    h.WriteString(m.beacon.proofRef);
    h.WriteString(m.keyId);
    h.Write(m.publicKey);
  }
}
