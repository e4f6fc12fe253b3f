/** The records the compensation engine reads and writes: accounts, ranks, packs,
    purchases and the two append-only logs (business volume and bonus ledger).
    Amounts are exact rationals; the source's JavaScript numbers are not rounded here. */
module Entities {

  type Address = string

  datatype Option<T> = None | Some(value: T)

  /** The exceptions the core raises, as values. */
  datatype Error =
    | ParentOrReferrerNotFound   // register: parent or referrer is not registered
    | UserNotFound               // buyPack: findOneOrFail on the buyer
    | PackNotFound               // buyPack: findOneOrFail on the pack
    | InsufficientBalance        // buyPack: wallet balance below the pack price
    | SmallerPack                // buyPack: the pack is below the last one bought

  datatype Result<T> = Ok(value: T) | Err(error: Error)

  /** The `minimumStarWithRank` requirement "N_ID": N descendants whose rank id is at most ID. */
  datatype StarRequirement = StarRequirement(count: int, rankId: int)

  /** A row of the rank table; `id` is the rank's level (`_id`). */
  datatype Rank = Rank(
    id: int,
    minimumBusinessRequired: real,
    directSponsorRequired: int,
    matchingRatio: string,
    minimumStarWithRank: Option<StarRequirement>,
    directSponsorBonus: real,   // a percentage
    rankBonus: real)

  /** An account. `node` is the placement leg under `parent`: 0 is team A, 1 is team B.
      `parents` and `sponsorTree` list the placement and referral ancestors, root first. */
  datatype User = User(
    accountAddress: Address,
    parent: Option<Address>,
    referredBy: Option<Address>,
    parents: seq<Address>,
    sponsorTree: seq<Address>,
    node: int,
    treeDepth: int,
    referralCode: string,
    referralCodeSecond: string,
    profile: int,               // id of the account's current rank
    directPartner: int,
    lastBoughtPack: int,        // 0 when nothing was bought
    lastBoughtPackPrice: real,
    individualIncome: real,
    businessIncome: real,
    businessIncomeFirstTeam: real,
    businessIncomeSecondTeam: real,
    businessIncomeFirstDeltaTeam: real,
    businessIncomeSecondDeltaTeam: real,
    rankBusinessATeamBucket: real,
    rankBusinessBTeamBucket: real,
    teamACount: int,
    teamBCount: int,
    directSponsorBonus: real,
    teamMatchingBonus: real,
    directMatchingBonus: real,
    rankBonus: real,
    totalWithdrawableAmount: real)

  datatype Pack = Pack(id: int, price: real, name: string)

  datatype PackStatus = Initiated | Paid | NftDistributed

  /** A purchase record; `packPrice` is the price at the time of purchase. */
  datatype PackBought = PackBought(buyer: Address, packId: int, packPrice: real, status: PackStatus)

  /** A row of the business-volume log written by volume propagation. */
  datatype BusinessEntry = BusinessEntry(
    node: int, accountAddress: Address, businessIncome: real, joinedByAccountAddress: Address)

  datatype BonusType = Direct | Team | TeamDirect | RankBonus

  /** A bonus ledger row. `user` is the beneficiary, `bonusFrom` the buyer whose purchase produced it,
      `packBought` the index of that purchase. `onHold` is None until the daily job sets it. */
  datatype BonusEntry = BonusEntry(
    amount: real,
    bonusFrom: Address,
    bonusType: BonusType,
    user: Address,
    packBought: nat,
    userLevel: int,
    percentage: real,
    canClaim: bool,
    flushAmount: real,
    onHold: Option<bool>)

  /** The first rank of the table with the given id. */
  function FindRank(ranks: seq<Rank>, id: int): (r: Option<Rank>)
    ensures r.Some? ==> r.value in ranks && r.value.id == id
    ensures r.None? ==> forall k :: 0 <= k < |ranks| ==> ranks[k].id != id
  {
    if ranks == [] then None
    else if ranks[0].id == id then Some(ranks[0])
    else FindRank(ranks[1..], id)
  }

  /** The `directSponsorBonus` percentage of a rank; 0 when the rank is unknown. */
  function DirectPct(ranks: seq<Rank>, id: int): real
  {
    match FindRank(ranks, id)
    case Some(r) => r.directSponsorBonus
    case None => 0.0
  }

  /** `x` occurs at most once in `s`. */
  predicate NoDup<T(==)>(s: seq<T>)
  {
    forall i, j :: 0 <= i < j < |s| ==> s[i] != s[j]
  }

  /** A list is duplicate-free exactly when no element has multiplicity above one. */
  lemma {:induction false} NoDupMultiset<T>(s: seq<T>)
    ensures NoDup(s) <==> forall y :: multiset(s)[y] <= 1
  {
    if s != [] {
      var h, t := s[0], s[1..];
      assert s == [h] + t;
      NoDupMultiset(t);
      if NoDup(s) {
        forall k | 0 <= k < |t| ensures t[k] != h { assert t[k] == s[k + 1]; }
        assert h !in multiset(t);
        forall i, j | 0 <= i < j < |t| ensures t[i] != t[j] { assert t[i] == s[i + 1] && t[j] == s[j + 1]; }
      }
      if forall y :: multiset(s)[y] <= 1 {
        forall y ensures multiset(t)[y] <= 1 { assert multiset(s)[y] == multiset{h}[y] + multiset(t)[y]; }
        assert multiset(s)[h] == 1 + multiset(t)[h];
        assert h !in t;
        forall i, j | 0 <= i < j < |s| ensures s[i] != s[j] {
          assert s[j] == t[j - 1];
          if i > 0 { assert s[i] == t[i - 1]; }
        }
      }
    }
  }

  /** The address of every record, in order. */
  function Addresses(us: seq<User>): (r: seq<Address>)
    ensures |r| == |us|
    ensures forall i :: 0 <= i < |us| ==> r[i] == us[i].accountAddress
  {
    if us == [] then [] else [us[0].accountAddress] + Addresses(us[1..])
  }
}
