/**
 The vocabulary of SSV messages: operators, slots, roles and their per-role constants.
 Hashes and keys are only ever compared for equality, so they are plain identifiers.
 */
module SsvTypes {
  import opened Wrappers
  import opened OperatorIds

  type ValidatorIndex = nat
  type Slot = nat
  type Epoch = nat
  type Hash256 = int
  type Millis = int

  const FIRST_ROUND: nat := 1

  datatype Role =
    | Committee
    | Aggregator
    | Proposer
    | SyncCommittee
    | ValidatorRegistration
    | VoluntaryExit
    | PTCAttester
    | AggregatorCommittee
    | ProposerPreferences
  {
    predicate IsCommitteeRole() {
      Committee? || AggregatorCommittee?
    }

    // The signer of such a role moves through slots one at a time.
    predicate MonotonicSlotRole() {
      !IsCommitteeRole() && !ProposerPreferences?
    }

    // None for the roles that run no QBFT round.
    function MaxRound(): Option<nat> {
      match this
      case Committee | Aggregator | AggregatorCommittee => Some(12)
      case Proposer => Some(2)
      case SyncCommittee => Some(6)
      case ValidatorRegistration | VoluntaryExit | PTCAttester | ProposerPreferences => None
    }
  }

  datatype MessageId = MessageId(role: Role, executor: int)

  datatype QbftKind = Proposal | Prepare | Commit | RoundChange

  datatype PartialKind =
    | PostConsensus
    | RandaoPartialSig
    | SelectionProofPartialSig
    | ContributionProofs
    | ValidatorRegistrationSig
    | VoluntaryExitSig
    | AggregatorCommitteePartialSig
    | PTCAttesterSig
    | PreferencesSig
    | RequestAuth

  // A decoded QBFT message. SSZ decoding, the identifier comparison and the RSA and SSZ checks of
  // the attached justifications are carried as their outcomes.
  datatype QbftMessage = QbftMessage(
    kind: QbftKind, height: Slot, round: nat, root: Hash256,
    identifierMatches: bool, justificationsValid: bool)

  // A decoded partial-signature packet with the signing root of each of its entries. `wellFormed`
  // and `withinSizeLimits` carry the outcomes of the rules that look at no duty state: inner signers,
  // validator indices and retirement of registrations, and the per-role entry counts.
  datatype Packet = Packet(
    kind: PartialKind, slot: Slot, roots: seq<Hash256>, wellFormed: bool, withinSizeLimits: bool)

  datatype Payload = Consensus(qbft: QbftMessage) | Partial(packet: Packet) | Undecodable

  // A signed message. `fullDataHash` is None when the message carries no full data.
  datatype Signed = Signed(signers: seq<OperatorId>, fullDataHash: Option<Hash256>, signaturesValid: bool)

  function FaultTolerance(members: nat): nat {
    if members == 0 then 0 else (members - 1) / 3
  }

  function QuorumSize(members: nat): nat {
    2 * FaultTolerance(members) + 1
  }

  datatype ValidationFailure =
    | NoSigners | ZeroSigner | DuplicatedSigner
    | SignerNotInCommittee | UndecodableMessageData | RoleNotActive
    | NonDecidedWithMultipleSigners | DecidedNotEnoughSigners | PrepareOrCommitWithFullData
    | InvalidHash | ZeroRound | UnexpectedConsensusMessage | RoundTooHigh | MismatchedIdentifier
    | InvalidJustifications | NonExistentCommitteeID | SignerNotLeader
    | RoundAlreadyAdvanced | DifferentProposalData | DuplicatedMessage | DecidedWithSameSigners
    | EstimatedRoundNotInAllowedSpread | SlotAlreadyAdvanced | NoDuty
    | EarlySlotMessage | LateSlotMessage | SyncCommitteePeriodCalculationFailure
    | ExcessiveDutyCount | SignatureVerificationFailed
    | PartialSigOneSigner | FullDataNotInConsensusMessage | PartialSignatureTypeRoleMismatch
    | MalformedPacket | TooManyPartialSignatureMessages | InvalidPartialSignatureTypeCount
    | NoPartialSignatureMessages | RelayedDuplicateMessage | TooManyDistinctSigningRoots

  datatype Verdict = Accept | Refuse(reason: ValidationFailure)
}
