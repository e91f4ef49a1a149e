/** The authenticated data of fairness messages: the Go builders, the TypeScript encoders, and why
    equal bytes mean equal messages. */
module RevealCodec {
  import opened Bytes
  import opened Text
  import opened Canonical

  const REVEAL_AAD_V1 := Ascii("fair-doudizhu/reveal-aad/v1")
  const CUSTODIED_AAD_V1 := Ascii("fair-doudizhu/custodied-contribution-aad/v1")
  const RECORD_AAD_V1 := Ascii("fair-doudizhu/contribution-record-aad/v1")
  const COMMAND_PROTOCOL_V1 := Ascii("fair-doudizhu-command-v1")
  const COMMAND_REVEAL := Ascii("doudizhu.hand.fairness.reveal.submit.v1")
  const COMMAND_CONTRIBUTION := Ascii("doudizhu.hand.fairness.contribution.submit.v1")
  const AGGREGATE_HAND := Ascii("hand")
  const REVEAL_TICKET_V1 := Ascii("doudizhu-reveal-context-v1")
  const CUSTODIED_TICKET_V1 := Ascii("doudizhu-custodied-context-v1")
  const MAX_SAFE_INTEGER := 0x1F_FFFF_FFFF_FFFF

  type uint8 = x: int | 0 <= x < 0x100

  predicate ValidSeat(seat: uint8) {
    1 <= seat <= 3
  }

  /** The parts of a command that are authenticated; the times are Unix milliseconds. */
  datatype Command = Command(
    version: Text, name: Text, commandId: Text, aggregateType: Text, aggregateId: Text,
    clientSeq: uint64, expectedVersion: uint64, issuedAt: int64, expiresAt: int64)

  /** Every string fits the 32-bit length that is written before it. */
  predicate Fits(c: Command, actor: Text, keyId: Text) {
    && |c.version| < TWO_POW_32 && |c.name| < TWO_POW_32 && |c.commandId| < TWO_POW_32
    && |c.aggregateType| < TWO_POW_32 && |c.aggregateId| < TWO_POW_32
    && |actor| < TWO_POW_32 && |keyId| < TWO_POW_32
  }

  // ------------------------------------------------------------------ field lists

  function HeaderFields(kind: Text, c: Command, actor: Text, seat: uint8, keyId: Text): (f: seq<Field>)
    ensures |f| == 11
  {
    [Prefixed(kind), Prefixed(c.version), Prefixed(c.name), Prefixed(keyId), Prefixed(c.commandId),
     Prefixed(c.aggregateType), Prefixed(c.aggregateId), Prefixed(actor),
     Fixed([seat as byte]), U64(c.clientSeq), U64(c.expectedVersion)]
  }

  function RevealFields(c: Command, actor: Text, seat: uint8, commitment: Block, keyId: Text): seq<Field> {
    HeaderFields(REVEAL_AAD_V1, c, actor, seat, keyId) + [Fixed(commitment), I64(c.issuedAt), I64(c.expiresAt)]
  }

  function CustodiedFields(c: Command, actor: Text, seat: uint8, keyId: Text): seq<Field> {
    HeaderFields(CUSTODIED_AAD_V1, c, actor, seat, keyId) + [I64(c.issuedAt), I64(c.expiresAt)]
  }

  function RecordFieldsOf(kind: Text, recordId: Text, handId: Text, seat: uint8, actor: Text, commandId: Text,
                          digest: Block): seq<Field> {
    [Prefixed(kind), Prefixed(recordId), Prefixed(handId), Fixed([seat as byte]),
     Prefixed(actor), Prefixed(commandId), Fixed(digest)]
  }

  function RecordFields(recordId: Text, handId: Text, seat: uint8, actor: Text, commandId: Text,
                        digest: Block): seq<Field> {
    RecordFieldsOf(RECORD_AAD_V1, recordId, handId, seat, actor, commandId, digest)
  }

  // ------------------------------------------------------------------ the Go builders

  predicate KeyUsable(keyId: Text) {
    !Blank(keyId) && |keyId| <= 128
  }

  predicate RevealAllowed(c: Command, seat: uint8, keyId: Text) {
    c.name == COMMAND_REVEAL && c.aggregateType == AGGREGATE_HAND && ValidSeat(seat) && KeyUsable(keyId)
  }

  predicate CustodiedAllowed(c: Command, seat: uint8, keyId: Text) {
    c.name == COMMAND_CONTRIBUTION && c.aggregateType == AGGREGATE_HAND && ValidSeat(seat) && KeyUsable(keyId)
  }

  predicate RecordAllowed(recordId: Text, handId: Text, seat: uint8, actor: Text, commandId: Text) {
    !Blank(recordId) && !Blank(handId) && !Blank(actor) && !Blank(commandId) && ValidSeat(seat)
  }

  function RevealAAD(c: Command, actor: Text, seat: uint8, commitment: Block, keyId: Text): Option<seq<byte>> {
    if RevealAllowed(c, seat, keyId) then Some(Flatten(RevealFields(c, actor, seat, commitment, keyId))) else None
  }

  function CustodiedAAD(c: Command, actor: Text, seat: uint8, keyId: Text): Option<seq<byte>> {
    if CustodiedAllowed(c, seat, keyId) then Some(Flatten(CustodiedFields(c, actor, seat, keyId))) else None
  }

  function RecordAAD(recordId: Text, handId: Text, seat: uint8, actor: Text, commandId: Text,
                     digest: Block): Option<seq<byte>> {
    if RecordAllowed(recordId, handId, seat, actor, commandId)
    then Some(Flatten(RecordFields(recordId, handId, seat, actor, commandId, digest))) else None
  }

  method WriteHeader(buffer: Buffer, kind: Text, c: Command, actor: Text, seat: uint8, keyId: Text)
    requires buffer.Valid() && buffer.fields == []
    modifies buffer
    ensures buffer.Valid() && buffer.fields == HeaderFields(kind, c, actor, seat, keyId)
  {
    buffer.WriteString(kind);
    buffer.WriteString(c.version);
    buffer.WriteString(c.name);
    buffer.WriteString(keyId);
    buffer.WriteString(c.commandId);
    buffer.WriteString(c.aggregateType);
    buffer.WriteString(c.aggregateId);
    buffer.WriteString(actor);
    buffer.Write([seat as byte]);
    buffer.WriteUint64(c.clientSeq);
    buffer.WriteUint64(c.expectedVersion);
  }

  method BuildRevealAAD(c: Command, actor: Text, seat: uint8, commitment: Block, keyId: Text)
    returns (r: Option<seq<byte>>)
    ensures r == RevealAAD(c, actor, seat, commitment, keyId)
  {
    if c.name != COMMAND_REVEAL || c.aggregateType != AGGREGATE_HAND || !ValidSeat(seat) {
      return None;
    }
    if Trim(keyId) == [] || |keyId| > 128 {
      return None;
    }
    var buffer := new Buffer();
    WriteHeader(buffer, REVEAL_AAD_V1, c, actor, seat, keyId);
    buffer.Write(commitment);
    buffer.WriteInt64(c.issuedAt);
    buffer.WriteInt64(c.expiresAt);
    assert buffer.fields == RevealFields(c, actor, seat, commitment, keyId);
    return Some(buffer.data);
  }

  method BuildCustodiedAAD(c: Command, actor: Text, seat: uint8, keyId: Text) returns (r: Option<seq<byte>>)
    ensures r == CustodiedAAD(c, actor, seat, keyId)
  {
    if c.name != COMMAND_CONTRIBUTION || c.aggregateType != AGGREGATE_HAND || !ValidSeat(seat) {
      return None;
    }
    if Trim(keyId) == [] || |keyId| > 128 {
      return None;
    }
    var buffer := new Buffer();
    WriteHeader(buffer, CUSTODIED_AAD_V1, c, actor, seat, keyId);
    buffer.WriteInt64(c.issuedAt);
    buffer.WriteInt64(c.expiresAt);
    assert buffer.fields == CustodiedFields(c, actor, seat, keyId);
    return Some(buffer.data);
  }

  method BuildContributionRecordAAD(recordId: Text, handId: Text, seat: uint8, actor: Text, commandId: Text,
                                    digest: Block)
    returns (r: Option<seq<byte>>)
    ensures r == RecordAAD(recordId, handId, seat, actor, commandId, digest)
  {
    if Trim(recordId) == [] || Trim(handId) == [] || Trim(actor) == [] || Trim(commandId) == [] || !ValidSeat(seat) {
      return None;
    }
    var buffer := new Buffer();
    WriteRecord(buffer, RECORD_AAD_V1, recordId, handId, seat, actor, commandId, digest);
    return Some(buffer.data);
  }

  method WriteRecord(buffer: Buffer, kind: Text, recordId: Text, handId: Text, seat: uint8, actor: Text,
                     commandId: Text, digest: Block)
    requires buffer.Valid() && buffer.fields == []
    modifies buffer
    ensures buffer.Valid() && buffer.fields == RecordFieldsOf(kind, recordId, handId, seat, actor, commandId, digest)
  {
    buffer.WriteString(kind);
    buffer.WriteString(recordId);
    buffer.WriteString(handId);
    buffer.Write([seat as byte]);
    buffer.WriteString(actor);
    buffer.WriteString(commandId);
    buffer.Write(digest);
  }

  // ------------------------------------------------------------------ equal bytes, equal messages

  lemma HeaderDecides(kind: Text, c: Command, actor: Text, seat: uint8, keyId: Text,
                      kind': Text, c': Command, actor': Text, seat': uint8, keyId': Text)
    requires HeaderFields(kind, c, actor, seat, keyId) == HeaderFields(kind', c', actor', seat', keyId')
    ensures c.version == c'.version && c.name == c'.name && c.commandId == c'.commandId
    ensures c.aggregateType == c'.aggregateType && c.aggregateId == c'.aggregateId
    ensures c.clientSeq == c'.clientSeq && c.expectedVersion == c'.expectedVersion
    ensures kind == kind' && actor == actor' && seat == seat' && keyId == keyId'
  {
    var f, g := HeaderFields(kind, c, actor, seat, keyId), HeaderFields(kind', c', actor', seat', keyId');
    assert f[0] == g[0] && f[1] == g[1] && f[2] == g[2] && f[3] == g[3] && f[4] == g[4] && f[5] == g[5];
    assert f[6] == g[6] && f[7] == g[7] && f[8] == g[8] && f[9] == g[9] && f[10] == g[10];
    assert f[8].value[0] == g[8].value[0];
    WordsDecide(c.clientSeq, c'.clientSeq);
    WordsDecide(c.expectedVersion, c'.expectedVersion);
  }

  /** Header and rest of two messages of one kind, from their bytes. */
  lemma {:induction false} HeaderAndRestDecide(kind: Text, c: Command, actor: Text, seat: uint8, keyId: Text,
                                               rest: seq<Field>, c': Command, actor': Text, seat': uint8,
                                               keyId': Text, rest': seq<Field>)
    requires |kind| < TWO_POW_32 && Fits(c, actor, keyId) && Fits(c', actor', keyId')
    requires SameFormat(rest, rest')
    requires Flatten(HeaderFields(kind, c, actor, seat, keyId) + rest)
             == Flatten(HeaderFields(kind, c', actor', seat', keyId') + rest')
    ensures c.version == c'.version && c.name == c'.name && c.commandId == c'.commandId
    ensures c.aggregateType == c'.aggregateType && c.aggregateId == c'.aggregateId
    ensures c.clientSeq == c'.clientSeq && c.expectedVersion == c'.expectedVersion
    ensures actor == actor' && seat == seat' && keyId == keyId' && rest == rest'
  {
    var f, g := HeaderFields(kind, c, actor, seat, keyId), HeaderFields(kind, c', actor', seat', keyId');
    assert SameFormat(f, g);
    assert SameFormat(f + rest, g + rest');
    FlattenIsInjective(f + rest, g + rest');
    Split(f, g, rest, rest');
    HeaderDecides(kind, c, actor, seat, keyId, kind, c', actor', seat', keyId');
  }

  lemma RevealAADIsInjective(c: Command, actor: Text, seat: uint8, commitment: Block, keyId: Text,
                             c': Command, actor': Text, seat': uint8, commitment': Block, keyId': Text)
    requires Fits(c, actor, keyId) && Fits(c', actor', keyId')
    requires RevealAAD(c, actor, seat, commitment, keyId).Some?
    requires RevealAAD(c, actor, seat, commitment, keyId) == RevealAAD(c', actor', seat', commitment', keyId')
    ensures c == c' && actor == actor' && seat == seat' && commitment == commitment' && keyId == keyId'
  {
    var rest := [Fixed(commitment), I64(c.issuedAt), I64(c.expiresAt)];
    var rest' := [Fixed(commitment'), I64(c'.issuedAt), I64(c'.expiresAt)];
    HeaderAndRestDecide(REVEAL_AAD_V1, c, actor, seat, keyId, rest, c', actor', seat', keyId', rest');
    assert rest[0] == rest'[0] && rest[1] == rest'[1] && rest[2] == rest'[2];
    SignedWordsDecide(c.issuedAt, c'.issuedAt);
    SignedWordsDecide(c.expiresAt, c'.expiresAt);
  }

  lemma CustodiedAADIsInjective(c: Command, actor: Text, seat: uint8, keyId: Text,
                                c': Command, actor': Text, seat': uint8, keyId': Text)
    requires Fits(c, actor, keyId) && Fits(c', actor', keyId')
    requires CustodiedAAD(c, actor, seat, keyId).Some?
    requires CustodiedAAD(c, actor, seat, keyId) == CustodiedAAD(c', actor', seat', keyId')
    ensures c == c' && actor == actor' && seat == seat' && keyId == keyId'
  {
    var rest, rest' := [I64(c.issuedAt), I64(c.expiresAt)], [I64(c'.issuedAt), I64(c'.expiresAt)];
    HeaderAndRestDecide(CUSTODIED_AAD_V1, c, actor, seat, keyId, rest, c', actor', seat', keyId', rest');
    assert rest[0] == rest'[0] && rest[1] == rest'[1];
    SignedWordsDecide(c.issuedAt, c'.issuedAt);
    SignedWordsDecide(c.expiresAt, c'.expiresAt);
  }

  lemma RecordFieldsDecide(recordId: Text, handId: Text, seat: uint8, actor: Text, commandId: Text, digest: Block,
                           recordId': Text, handId': Text, seat': uint8, actor': Text, commandId': Text, digest': Block)
    requires RecordFields(recordId, handId, seat, actor, commandId, digest)
             == RecordFields(recordId', handId', seat', actor', commandId', digest')
    ensures recordId == recordId' && handId == handId' && seat == seat' && actor == actor'
    ensures commandId == commandId' && digest == digest'
  {
    var f, g := RecordFields(recordId, handId, seat, actor, commandId, digest),
                RecordFields(recordId', handId', seat', actor', commandId', digest');
    assert f[1] == g[1] && f[2] == g[2] && f[3] == g[3] && f[4] == g[4] && f[5] == g[5] && f[6] == g[6];
    assert f[3].value[0] == g[3].value[0];
  }

  lemma RecordFormats(recordId: Text, handId: Text, seat: uint8, actor: Text, commandId: Text, digest: Block,
                      recordId': Text, handId': Text, seat': uint8, actor': Text, commandId': Text, digest': Block)
    requires |recordId| < TWO_POW_32 && |handId| < TWO_POW_32 && |actor| < TWO_POW_32 && |commandId| < TWO_POW_32
    requires |recordId'| < TWO_POW_32 && |handId'| < TWO_POW_32 && |actor'| < TWO_POW_32 && |commandId'| < TWO_POW_32
    ensures SameFormat(RecordFields(recordId, handId, seat, actor, commandId, digest),
                       RecordFields(recordId', handId', seat', actor', commandId', digest'))
  {
  }

  lemma RecordAADIsInjective(recordId: Text, handId: Text, seat: uint8, actor: Text, commandId: Text, digest: Block,
                             recordId': Text, handId': Text, seat': uint8, actor': Text, commandId': Text,
                                 digest': Block)
    requires |recordId| < TWO_POW_32 && |handId| < TWO_POW_32 && |actor| < TWO_POW_32 && |commandId| < TWO_POW_32
    requires |recordId'| < TWO_POW_32 && |handId'| < TWO_POW_32 && |actor'| < TWO_POW_32 && |commandId'| < TWO_POW_32
    requires RecordAAD(recordId, handId, seat, actor, commandId, digest).Some?
    requires RecordAAD(recordId, handId, seat, actor, commandId, digest)
             == RecordAAD(recordId', handId', seat', actor', commandId', digest')
    ensures recordId == recordId' && handId == handId' && seat == seat' && actor == actor'
    ensures commandId == commandId' && digest == digest'
  {
    RecordFormats(recordId, handId, seat, actor, commandId, digest, recordId', handId', seat', actor', commandId',
                  digest');
    FlattenIsInjective(RecordFields(recordId, handId, seat, actor, commandId, digest),
                       RecordFields(recordId', handId', seat', actor', commandId', digest'));
    RecordFieldsDecide(recordId, handId, seat, actor, commandId, digest, recordId', handId', seat', actor', commandId',
                       digest');
  }

  /** No bytes are authenticated data of two kinds. */
  lemma KindsAreDisjoint(c: Command, actor: Text, seat: uint8, commitment: Block, keyId: Text,
                         c': Command, actor': Text, seat': uint8, keyId': Text,
                         recordId: Text, handId: Text, seat'': uint8, actor'': Text, commandId: Text, digest: Block)
    ensures var opening, custodied, record :=
              Flatten(RevealFields(c, actor, seat, commitment, keyId)),
              Flatten(CustodiedFields(c', actor', seat', keyId')),
              Flatten(RecordFields(recordId, handId, seat'', actor'', commandId, digest));
            opening != custodied && custodied != record && opening != record
  {
    var f, g, h := RevealFields(c, actor, seat, commitment, keyId), CustodiedFields(c', actor', seat', keyId'),
                   RecordFields(recordId, handId, seat'', actor'', commandId, digest);
    assert |REVEAL_AAD_V1| == 27 && |CUSTODIED_AAD_V1| == 43 && |RECORD_AAD_V1| == 40;
    FirstStringSeparates(f, g);
    FirstStringSeparates(g, h);
    FirstStringSeparates(f, h);
  }

  // ------------------------------------------------------------------ tickets: claims to bytes, twice

  /** The signed claims. The commitment is the hexadecimal text. */
  datatype Claims = Claims(
    version: Text, actor: Text, handId: Text, requestId: Text, clientSeq: uint64, expectedVersion: uint64,
    seat: uint8, commitment: Text, keyId: Text, issuedAt: int64, expiresAt: int64)

  predicate LowerHex(b: byte) {
    48 <= b <= 57 || 97 <= b <= 102
  }

  predicate AnyHex(b: byte) {
    LowerHex(b) || 65 <= b <= 70
  }

  function Nibble(b: byte): (n: nat)
    requires AnyHex(b)
    ensures n < 16
  {
    if b <= 57 then b as int - 48 else if b <= 70 then b as int - 55 else b as int - 87
  }

  function FromHex(s: Text): (r: seq<byte>)
    requires |s| % 2 == 0 && forall i :: 0 <= i < |s| ==> AnyHex(s[i])
    ensures |r| == |s| / 2
  {
    seq(|s| / 2, i requires 0 <= i < |s| / 2 => (Nibble(s[2 * i]) * 16 + Nibble(s[2 * i + 1])) as byte)
  }

  predicate IsHex64(s: Text) {
    |s| == 64 && forall i :: 0 <= i < |s| ==> AnyHex(s[i])
  }

  predicate IsLowerHex64(s: Text) {
    |s| == 64 && forall i :: 0 <= i < |s| ==> LowerHex(s[i])
  }

  function TicketCommand(claims: Claims, name: Text): Command {
    Command(COMMAND_PROTOCOL_V1, name, claims.requestId, AGGREGATE_HAND, claims.handId,
            claims.clientSeq, claims.expectedVersion, claims.issuedAt, claims.expiresAt)
  }

  /** Go: revealTicketAAD. */
  function TicketAAD(claims: Claims): Option<seq<byte>> {
    if claims.version == CUSTODIED_TICKET_V1 then
      if claims.commitment != [] then None
      else CustodiedAAD(TicketCommand(claims, COMMAND_CONTRIBUTION), claims.actor, claims.seat, claims.keyId)
    else if claims.version != REVEAL_TICKET_V1 || !IsHex64(claims.commitment) then None
    else RevealAAD(TicketCommand(claims, COMMAND_REVEAL), claims.actor, claims.seat, FromHex(claims.commitment),
                   claims.keyId)
  }

  /** TypeScript: n64 throws outside the safe non-negative integers. */
  predicate SafeInteger(n: int) {
    0 <= n <= MAX_SAFE_INTEGER
  }

  predicate NumbersSafe(claims: Claims) {
    && SafeInteger(claims.clientSeq) && SafeInteger(claims.expectedVersion)
    && SafeInteger(claims.issuedAt) && SafeInteger(claims.expiresAt)
  }

  function N64(n: int): (s: seq<byte>)
    requires SafeInteger(n)
    ensures |s| == 8
  {
    BigEndian(n, 8)
  }

  /** TypeScript: encodeLength. */
  function EncodeLength(v: Text): seq<byte> {
    BigEndian(|v| % TWO_POW_32, 4) + v
  }

  function EncodeAll(vs: seq<Text>): seq<byte> {
    if vs == [] then [] else EncodeLength(vs[0]) + EncodeAll(vs[1..])
  }

  /** TypeScript: canonicalRevealAAD. */
  function ClientRevealAAD(claims: Claims): Option<seq<byte>> {
    if claims.version != REVEAL_TICKET_V1 || !IsLowerHex64(claims.commitment) || !NumbersSafe(claims) then None
    else Some(ClientBytes(
      [REVEAL_AAD_V1, COMMAND_PROTOCOL_V1, COMMAND_REVEAL, claims.keyId, claims.requestId,
       AGGREGATE_HAND, claims.handId, claims.actor],
      claims.seat, claims.clientSeq, claims.expectedVersion, FromHex(claims.commitment), claims.issuedAt,
          claims.expiresAt))
  }

  /** TypeScript: canonicalCustodiedAAD. */
  function ClientCustodiedAAD(claims: Claims): Option<seq<byte>> {
    if claims.version != CUSTODIED_TICKET_V1 || claims.commitment != [] || !NumbersSafe(claims) then None
    else Some(ClientBytes(
      [CUSTODIED_AAD_V1, COMMAND_PROTOCOL_V1, COMMAND_CONTRIBUTION, claims.keyId, claims.requestId,
       AGGREGATE_HAND, claims.handId, claims.actor],
      claims.seat, claims.clientSeq, claims.expectedVersion, [], claims.issuedAt, claims.expiresAt))
  }

  lemma {:induction false} EncodeAllIsFlatten(vs: seq<Text>)
    ensures EncodeAll(vs) == Flatten(seq(|vs|, i requires 0 <= i < |vs| => Prefixed(vs[i])))
  {
    var fs := seq(|vs|, i requires 0 <= i < |vs| => Prefixed(vs[i]));
    if vs != [] {
      EncodeAllIsFlatten(vs[1..]);
      assert fs[1..] == seq(|vs| - 1, i requires 0 <= i < |vs| - 1 => Prefixed(vs[1..][i]));
    }
  }

  lemma {:induction false} FlattenFixed(a: seq<Field>, f: seq<byte>, rest: seq<Field>)
    ensures Flatten(a + [Fixed(f)] + rest) == Flatten(a) + f + Flatten(rest)
  {
    FlattenAppend(a + [Fixed(f)], rest);
    FlattenAppend(a, [Fixed(f)]);
    FlattenOne(Fixed(f));
  }

  /** The header as the TypeScript encoders concatenate it. */
  lemma ClientHeader(kind: Text, c: Command, actor: Text, seat: uint8, keyId: Text)
    requires SafeInteger(c.clientSeq) && SafeInteger(c.expectedVersion)
    ensures Flatten(HeaderFields(kind, c, actor, seat, keyId))
            == EncodeAll([kind, c.version, c.name, keyId, c.commandId, c.aggregateType, c.aggregateId, actor])
               + [seat as byte] + N64(c.clientSeq) + N64(c.expectedVersion)
  {
    var vs := [kind, c.version, c.name, keyId, c.commandId, c.aggregateType, c.aggregateId, actor];
    var strings := seq(|vs|, i requires 0 <= i < |vs| => Prefixed(vs[i]));
    EncodeAllIsFlatten(vs);
    var f := HeaderFields(kind, c, actor, seat, keyId);
    assert f == strings + [Fixed([seat as byte])] + [U64(c.clientSeq), U64(c.expectedVersion)];
    FlattenFixed(strings, [seat as byte], [U64(c.clientSeq), U64(c.expectedVersion)]);
    FlattenTwo(U64(c.clientSeq), U64(c.expectedVersion));
  }

  lemma FlattenTwo(f: Field, g: Field)
    ensures Flatten([f, g]) == Written(f) + Written(g)
  {
    assert [f, g] == [f] + [g];
    FlattenAppend([f], [g]);
    FlattenOne(f);
    FlattenOne(g);
  }

  /** What the client's encoders concatenate. */
  function ClientBytes(strings: seq<Text>, seat: uint8, clientSeq: uint64, expectedVersion: uint64,
                       middle: seq<byte>, issuedAt: int64, expiresAt: int64): seq<byte>
    requires SafeInteger(clientSeq) && SafeInteger(expectedVersion) && SafeInteger(issuedAt) && SafeInteger(expiresAt)
  {
    EncodeAll(strings) + [seat as byte] + N64(clientSeq) + N64(expectedVersion) + middle
    + N64(issuedAt) + N64(expiresAt)
  }

  lemma ClientBytesAreFields(kind: Text, c: Command, actor: Text, seat: uint8, keyId: Text, middle: seq<byte>)
    requires SafeInteger(c.clientSeq) && SafeInteger(c.expectedVersion) && SafeInteger(c.issuedAt)
             && SafeInteger(c.expiresAt)
    ensures ClientBytes([kind, c.version, c.name, keyId, c.commandId, c.aggregateType, c.aggregateId, actor],
                        seat, c.clientSeq, c.expectedVersion, middle, c.issuedAt, c.expiresAt)
            == Flatten(HeaderFields(kind, c, actor, seat, keyId)) + middle + Flatten([I64(c.issuedAt),
                I64(c.expiresAt)])
  {
    ClientHeader(kind, c, actor, seat, keyId);
    SafeTimes(c.issuedAt, c.expiresAt);
    Associative(Flatten(HeaderFields(kind, c, actor, seat, keyId)) + middle, N64(c.issuedAt), N64(c.expiresAt));
  }

  lemma SafeTimes(issuedAt: int64, expiresAt: int64)
    requires SafeInteger(issuedAt) && SafeInteger(expiresAt)
    ensures Flatten([I64(issuedAt), I64(expiresAt)]) == N64(issuedAt) + N64(expiresAt)
  {
    FlattenTwo(I64(issuedAt), I64(expiresAt));
  }

  /** A reveal ticket that both sides encode has one encoding. */
  lemma RevealTicketsAgree(claims: Claims)
    requires ClientRevealAAD(claims).Some? && TicketAAD(claims).Some?
    ensures ClientRevealAAD(claims) == TicketAAD(claims)
  {
    TicketVersionsDiffer();
    var c, m := TicketCommand(claims, COMMAND_REVEAL), FromHex(claims.commitment);
    var header := HeaderFields(REVEAL_AAD_V1, c, claims.actor, claims.seat, claims.keyId);
    var times := [I64(c.issuedAt), I64(c.expiresAt)];
    ClientBytesAreFields(REVEAL_AAD_V1, c, claims.actor, claims.seat, claims.keyId, m);
    FlattenFixed(header, m, times);
    assert RevealFields(c, claims.actor, claims.seat, m, claims.keyId) == header + [Fixed(m)] + times;
  }

  lemma CustodiedTicketsAgree(claims: Claims)
    requires ClientCustodiedAAD(claims).Some? && TicketAAD(claims).Some?
    ensures ClientCustodiedAAD(claims) == TicketAAD(claims)
  {
    var c := TicketCommand(claims, COMMAND_CONTRIBUTION);
    var header := HeaderFields(CUSTODIED_AAD_V1, c, claims.actor, claims.seat, claims.keyId);
    ClientBytesAreFields(CUSTODIED_AAD_V1, c, claims.actor, claims.seat, claims.keyId, []);
    assert Flatten(header) + [] == Flatten(header);
    FlattenAppend(header, [I64(c.issuedAt), I64(c.expiresAt)]);
  }

  lemma TicketVersionsDiffer()
    ensures REVEAL_TICKET_V1 != CUSTODIED_TICKET_V1
  {
    assert |REVEAL_TICKET_V1| == 26 && |CUSTODIED_TICKET_V1| == 29;
  }

  /** The client refuses what the server encodes exactly when the commitment has an upper-case digit or a
      number is not a safe integer; the server refuses what the client encodes exactly when the seat or the
      key is unusable. */
  lemma WhoRefusesWhat(claims: Claims)
    ensures claims.version == REVEAL_TICKET_V1 && TicketAAD(claims).Some? ==>
              (ClientRevealAAD(claims).None? <==> !IsLowerHex64(claims.commitment) || !NumbersSafe(claims))
    ensures ClientRevealAAD(claims).Some? ==>
              (TicketAAD(claims).None? <==> !ValidSeat(claims.seat) || !KeyUsable(claims.keyId))
    ensures claims.version == CUSTODIED_TICKET_V1 && TicketAAD(claims).Some? ==>
              (ClientCustodiedAAD(claims).None? <==> !NumbersSafe(claims))
    ensures ClientCustodiedAAD(claims).Some? ==>
              (TicketAAD(claims).None? <==> !ValidSeat(claims.seat) || !KeyUsable(claims.keyId))
  {
    TicketVersionsDiffer();
  }
}
