/** The direct sponsor bonus (bonus.service.ts, updateDirectSponsorBonus): the buyer's referrer is
    paid its rank's percentage of the pack price, unless it has a referrer itself and its last pack
    is below the first paying tier. */
module Direct {
  import opened Entities

  /** The gate: a sponsor that has a referrer and whose last pack id is negative or 1 is not paid.
      A root sponsor (no referrer) is never gated. */
  predicate Gated(sponsor: User)
  {
    sponsor.referredBy.Some? && (sponsor.lastBoughtPack < 0 || sponsor.lastBoughtPack == 1)
  }

  /** The amount paid to the sponsor, or None when nothing happens. */
  function DirectBonus(ranks: seq<Rank>, sponsor: Option<User>, price: real): (r: Option<real>)
    ensures r.None? <==> sponsor.None? || Gated(sponsor.value)
    ensures r.Some? ==> r.value == price * DirectPct(ranks, sponsor.value.profile) / 100.0
    ensures r.Some? && price >= 0.0 && DirectPct(ranks, sponsor.value.profile) >= 0.0 ==> r.value >= 0.0
  {
    match sponsor
    case None => None
    case Some(s) =>
      var amount := price * (DirectPct(ranks, s.profile) / 100.0);
      if Gated(s) then None else Some(amount)
  }

  /** A sponsor at a rank paying 10% on a pack of 200 is paid 20, whether or not it is a root. */
  lemma DirectBonusExample(s: User)
    requires !(s.lastBoughtPack < 0 || s.lastBoughtPack == 1)
    ensures DirectBonus([Rank(s.profile, 0.0, 0, "1:1", None, 10.0, 0.0)], Some(s), 200.0) == Some(20.0)
  {
  }

  /** The ledger row makeEntryInBonus writes; `userLevel` is the beneficiary's current rank id. */
  function BonusRow(amount: real, from: Address, kind: BonusType, beneficiary: User, packBought: nat,
                    percentage: real, canClaim: bool): BonusEntry
  {
    BonusEntry(amount, from, kind, beneficiary.accountAddress, packBought, beneficiary.profile, percentage,
               canClaim, 0.0, None)
  }

  /** The sponsor after updateDirectSponsorBonus raises its direct bonus total. */
  function CreditDirect(u: User, amount: real): (r: User)
    ensures r.directSponsorBonus == u.directSponsorBonus + amount
    ensures r.(directSponsorBonus := u.directSponsorBonus) == u
  {
    u.(directSponsorBonus := u.directSponsorBonus + amount)
  }

  /** The beneficiary after makeEntryInBonus: credited with the amount exactly when it may be claimed. */
  function Claim(u: User, amount: real, canClaim: bool): (r: User)
    ensures r.totalWithdrawableAmount == u.totalWithdrawableAmount + (if canClaim then amount else 0.0)
    ensures r.(totalWithdrawableAmount := u.totalWithdrawableAmount) == u
  {
    if canClaim then u.(totalWithdrawableAmount := u.totalWithdrawableAmount + amount) else u
  }
}
