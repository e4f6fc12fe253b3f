/** Business-volume propagation of a purchase (bonus.service.ts, updateSponsorsIncome) and the
    buyer's own income (updateUserIndividualIncome). */
module Volume {
  import opened Entities

  /** No leg has been matched beyond the volume it received. */
  predicate WithinVolume(u: User)
  {
    u.businessIncomeFirstDeltaTeam <= u.businessIncomeFirstTeam &&
    u.businessIncomeSecondDeltaTeam <= u.businessIncomeSecondTeam
  }

  /** Total volume an account's two legs have received. */
  function LegVolume(u: User): real
  {
    u.businessIncomeFirstTeam + u.businessIncomeSecondTeam
  }

  /** The record after one ancestor is credited with `price`: total business always, and the volume,
      rank bucket and count of one leg only (team A when `first`). */
  function Credit(u: User, price: real, first: bool): (r: User)
    ensures r.businessIncome == u.businessIncome + price
    ensures first ==> r.businessIncomeFirstTeam == u.businessIncomeFirstTeam + price
                      && r.rankBusinessATeamBucket == u.rankBusinessATeamBucket + price
                      && r.teamACount == u.teamACount + 1
                      && r.businessIncomeSecondTeam == u.businessIncomeSecondTeam
                      && r.rankBusinessBTeamBucket == u.rankBusinessBTeamBucket
                      && r.teamBCount == u.teamBCount
    ensures !first ==> r.businessIncomeSecondTeam == u.businessIncomeSecondTeam + price
                       && r.rankBusinessBTeamBucket == u.rankBusinessBTeamBucket + price
                       && r.teamBCount == u.teamBCount + 1
                       && r.businessIncomeFirstTeam == u.businessIncomeFirstTeam
                       && r.rankBusinessATeamBucket == u.rankBusinessATeamBucket
                       && r.teamACount == u.teamACount
    ensures r.teamACount + r.teamBCount == u.teamACount + u.teamBCount + 1
    ensures LegVolume(r) == LegVolume(u) + price
    // every other field is untouched
    ensures r.(businessIncome := u.businessIncome,
               businessIncomeFirstTeam := u.businessIncomeFirstTeam,
               businessIncomeSecondTeam := u.businessIncomeSecondTeam,
               rankBusinessATeamBucket := u.rankBusinessATeamBucket,
               rankBusinessBTeamBucket := u.rankBusinessBTeamBucket,
               teamACount := u.teamACount,
               teamBCount := u.teamBCount) == u
    ensures price >= 0.0 && WithinVolume(u) ==> WithinVolume(r)
  {
    if first then
      u.(businessIncome := u.businessIncome + price,
         businessIncomeFirstTeam := u.businessIncomeFirstTeam + price,
         rankBusinessATeamBucket := u.rankBusinessATeamBucket + price,
         teamACount := u.teamACount + 1)
    else
      u.(businessIncome := u.businessIncome + price,
         businessIncomeSecondTeam := u.businessIncomeSecondTeam + price,
         rankBusinessBTeamBucket := u.rankBusinessBTeamBucket + price,
         teamBCount := u.teamBCount + 1)
  }

  /** The record one step below `sponsors[i]` on the way to the buyer: the next ancestor, or the buyer. */
  function NextChild(sponsors: seq<User>, buyer: User, i: nat): User
    requires i < |sponsors|
  {
    if i + 1 < |sponsors| then sponsors[i + 1] else buyer
  }

  /** Whether the purchase counts for team A of `sponsors[i]`. */
  predicate IsFirstTeam(sponsors: seq<User>, buyer: User, i: nat)
    requires i < |sponsors|
  {
    NextChild(sponsors, buyer, i).node == 0
  }

  /** The new records of the affected ancestors, in the order given. */
  function SponsorsIncome(sponsors: seq<User>, buyer: User, price: real): (r: seq<User>)
    ensures |r| == |sponsors|
    ensures forall i :: 0 <= i < |sponsors| ==> r[i] == Credit(sponsors[i], price, IsFirstTeam(sponsors, buyer, i))
  {
    seq(|sponsors|, i requires 0 <= i < |sponsors| => Credit(sponsors[i], price, IsFirstTeam(sponsors, buyer, i)))
  }

  /** The business-log rows of a purchase: one per affected ancestor, on the leg it was credited. */
  function BusinessEntries(sponsors: seq<User>, buyer: User, price: real): (r: seq<BusinessEntry>)
    ensures |r| == |sponsors|
    ensures forall i :: 0 <= i < |sponsors| ==>
              r[i].accountAddress == sponsors[i].accountAddress && r[i].businessIncome == price &&
              r[i].joinedByAccountAddress == buyer.accountAddress &&
              (r[i].node == 0 <==> IsFirstTeam(sponsors, buyer, i)) && (r[i].node == 0 || r[i].node == 1)
  {
    seq(|sponsors|, i requires 0 <= i < |sponsors| =>
          BusinessEntry(if IsFirstTeam(sponsors, buyer, i) then 0 else 1,
                        sponsors[i].accountAddress, price, buyer.accountAddress))
  }

  /** Sum of leg volume over a list of records. */
  function TotalLegVolume(us: seq<User>): real
  {
    if us == [] then 0.0 else LegVolume(us[0]) + TotalLegVolume(us[1..])
  }

  /** Raising every record's leg volume by `price` raises the total by `price` per record. */
  lemma {:induction false} TotalLegVolumeShift(us: seq<User>, vs: seq<User>, price: real)
    requires |vs| == |us|
    requires forall i :: 0 <= i < |us| ==> LegVolume(vs[i]) == LegVolume(us[i]) + price
    ensures TotalLegVolume(vs) == TotalLegVolume(us) + price * (|us| as real)
  {
    if us != [] {
      TotalLegVolumeShift(us[1..], vs[1..], price);
      ScaleStep(price, |us|);
    }
  }

  lemma ScaleStep(p: real, n: nat)
    requires n >= 1
    ensures p * (n as real) == p + p * ((n - 1) as real)
  {
  }

  /** A purchase adds exactly its price to the leg volume of every affected ancestor. */
  lemma SponsorsIncomeAddsVolume(sponsors: seq<User>, buyer: User, price: real)
    ensures TotalLegVolume(SponsorsIncome(sponsors, buyer, price)) == TotalLegVolume(sponsors) + price * (|sponsors| as real)
  {
    TotalLegVolumeShift(sponsors, SponsorsIncome(sponsors, buyer, price), price);
  }

  /** The buyer's record after the purchase: individual income up by the price, nothing else. */
  function IndividualIncome(u: User, price: real): (r: User)
    ensures r.individualIncome == u.individualIncome + price
    ensures r.(individualIncome := u.individualIncome) == u
  {
    u.(individualIncome := u.individualIncome + price)
  }
}
