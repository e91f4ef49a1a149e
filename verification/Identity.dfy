/** The names that games and their records carry, and the description of a game. */
module Identity {
  import opened Bytes
  import opened Text

  const MAX_IDENTIFIER := 128
  const MAX_PARTICIPANT_COUNT := 64

  /** gamecore's identifier check: text that is not blank, not padded, and not too long. */
  predicate ValidId(s: Text) {
    !Blank(s) && s == Trim(s) && ValidUtf8(s) && |s| <= MAX_IDENTIFIER
  }

  datatype Descriptor = Descriptor(
    gameId: Text, rulesetVersion: Text, moduleVersion: Text, fairnessSuiteId: Text, participantCount: byte)

  predicate ValidDescriptor(d: Descriptor) {
    && ValidId(d.gameId) && ValidId(d.rulesetVersion) && ValidId(d.moduleVersion) && ValidId(d.fairnessSuiteId)
    && 1 <= d.participantCount as int <= MAX_PARTICIPANT_COUNT
  }

  /** A position that the described game has. */
  predicate HasPosition(d: Descriptor, position: nat) {
    1 <= position <= d.participantCount as nat
  }
}
