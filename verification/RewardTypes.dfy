/** The kinds of epoch rewards. */
module RewardTypes {
  datatype RewardType =
    | Validation | Flips | Invitations | FoundationPayouts | ZeroWalletFund | Invitations2 | Invitations3
    | SavedInvite | SavedInviteWin | ReportedFlips | Staking | Candidate | ExtraFlips | Invitee1 | Invitee2 | Invitee3
}
