/** Binary matching of a purchase (bonus.service.ts, updateTeamMatchingSponsorBonus): each affected
    ancestor whose two legs both hold unmatched volume is paid 7% of the smaller leg, may earn an
    override on top, and advances both legs' matched volume (the "delta") by that amount. */
module Matching {
  import opened Entities
  import opened Volume

  /** `teamMatchingBonusPercentage`. */
  const TeamMatchingBonusPercentage: real := 7.0

  function UnmatchedA(u: User): real
  {
    u.businessIncomeFirstTeam - u.businessIncomeFirstDeltaTeam
  }

  function UnmatchedB(u: User): real
  {
    u.businessIncomeSecondTeam - u.businessIncomeSecondDeltaTeam
  }

  function Min(x: real, y: real): (m: real)
    ensures m <= x && m <= y && (m == x || m == y)
  {
    if x > y then y else x
  }

  /** The override applies to a referral ancestor of the buyer other than the last one in its list
      (the buyer's own referrer, who is paid the direct bonus instead). */
  predicate OverrideApplies(buyer: User, a: Address)
  {
    a in buyer.sponsorTree && a != buyer.sponsorTree[|buyer.sponsorTree| - 1]
  }

  /** The outcome for one matched ancestor. `updated` is its new record, `matched` the volume paid on. */
  datatype Match = Match(updated: User, matched: real, teamBonus: real, overrideBonus: real, overridePct: real)

  /** Matching for one ancestor: None when either leg has no unmatched volume. */
  function MatchSponsor(ranks: seq<Rank>, buyer: User, sponsor: User): (r: Option<Match>)
    ensures r.None? <==> UnmatchedA(sponsor) <= 0.0 || UnmatchedB(sponsor) <= 0.0
    ensures r.Some? ==>
      var m := r.value;
      && m.matched == Min(UnmatchedA(sponsor), UnmatchedB(sponsor)) && m.matched > 0.0
      && m.teamBonus == m.matched * TeamMatchingBonusPercentage / 100.0 && m.teamBonus > 0.0
      && m.overridePct == DirectPct(ranks, sponsor.profile)
      && (m.overrideBonus != 0.0 ==> OverrideApplies(buyer, sponsor.accountAddress))
      && (OverrideApplies(buyer, sponsor.accountAddress) ==> m.overrideBonus == m.teamBonus * m.overridePct / 100.0)
      && m.updated.businessIncomeFirstDeltaTeam == sponsor.businessIncomeFirstDeltaTeam + m.matched
      && m.updated.businessIncomeSecondDeltaTeam == sponsor.businessIncomeSecondDeltaTeam + m.matched
      && m.updated.teamMatchingBonus == sponsor.teamMatchingBonus + m.teamBonus
      && m.updated.directMatchingBonus ==
           (if m.overrideBonus > 0.0 then sponsor.directMatchingBonus + m.overrideBonus else sponsor.directMatchingBonus)
      // afterwards one leg has nothing left to match and the other keeps the difference
      && (UnmatchedA(m.updated) == 0.0 || UnmatchedB(m.updated) == 0.0)
      && UnmatchedA(m.updated) + UnmatchedB(m.updated) == Abs(UnmatchedA(sponsor) - UnmatchedB(sponsor))
      && (WithinVolume(sponsor) ==> WithinVolume(m.updated))
      && m.updated.(businessIncomeFirstDeltaTeam := sponsor.businessIncomeFirstDeltaTeam,
                    businessIncomeSecondDeltaTeam := sponsor.businessIncomeSecondDeltaTeam,
                    teamMatchingBonus := sponsor.teamMatchingBonus,
                    directMatchingBonus := sponsor.directMatchingBonus) == sponsor
  {
    var a, b := UnmatchedA(sponsor), UnmatchedB(sponsor);
    if b <= 0.0 || a <= 0.0 then None
    else
      var matched := if a > b then b else a;
      var bonus := matched * (TeamMatchingBonusPercentage / 100.0);
      var pct := DirectPct(ranks, sponsor.profile);
      var over := if OverrideApplies(buyer, sponsor.accountAddress) then bonus * (pct / 100.0) else 0.0;
      var updated := sponsor.(
        businessIncomeSecondDeltaTeam := sponsor.businessIncomeSecondDeltaTeam + matched,
        businessIncomeFirstDeltaTeam := sponsor.businessIncomeFirstDeltaTeam + matched,
        teamMatchingBonus := if bonus > 0.0 then sponsor.teamMatchingBonus + bonus else sponsor.teamMatchingBonus,
        directMatchingBonus := if over > 0.0 then sponsor.directMatchingBonus + over else sponsor.directMatchingBonus);
      Some(Match(updated, matched, bonus, over, pct))
  }

  function Abs(x: real): real
  {
    if x < 0.0 then -x else x
  }

  /** The outcomes of every matched ancestor, in the order given; skipped ancestors leave no trace. */
  function MatchAll(ranks: seq<Rank>, buyer: User, sponsors: seq<User>): (r: seq<Match>)
    ensures forall m :: m in r ==> exists k :: 0 <= k < |sponsors| && MatchSponsor(ranks, buyer, sponsors[k]) == Some(m)
    ensures forall k :: 0 <= k < |sponsors| && MatchSponsor(ranks, buyer, sponsors[k]).Some? ==>
              MatchSponsor(ranks, buyer, sponsors[k]).value in r
  {
    if sponsors == [] then []
    else
      var rest := MatchAll(ranks, buyer, sponsors[1..]);
      assert forall k :: 1 <= k < |sponsors| ==> sponsors[k] == sponsors[1..][k - 1];
      match MatchSponsor(ranks, buyer, sponsors[0])
      case None => rest
      case Some(m) => [m] + rest
  }

  /** The new records of the matched ancestors. */
  function Updated(ms: seq<Match>): (r: seq<User>)
    ensures |r| == |ms|
    ensures forall i :: 0 <= i < |ms| ==> r[i] == ms[i].updated
  {
    if ms == [] then [] else [ms[0].updated] + Updated(ms[1..])
  }

  /** The `team` ledger row of a matched ancestor: its matching bonus, held and not yet claimable. */
  function TeamRow(buyer: User, packBought: nat, m: Match): BonusEntry
  {
    BonusEntry(m.teamBonus, buyer.accountAddress, Team, m.updated.accountAddress, packBought,
               m.updated.profile, TeamMatchingBonusPercentage, false, 0.0, None)
  }

  /** A `team` ledger row for every matched ancestor whose cumulative matching bonus is positive. */
  function TeamEntries(buyer: User, packBought: nat, ms: seq<Match>): (r: seq<BonusEntry>)
    ensures forall e :: e in r ==>
              (e.bonusType == Team && !e.canClaim && e.flushAmount == 0.0 &&
               e.bonusFrom == buyer.accountAddress && e.packBought == packBought && e.onHold == None &&
               e.percentage == TeamMatchingBonusPercentage)
    ensures forall e :: e in r ==>
              exists m :: m in ms && m.updated.teamMatchingBonus > 0.0 && e == TeamRow(buyer, packBought, m)
    ensures forall m :: m in ms && m.updated.teamMatchingBonus > 0.0 ==> TeamRow(buyer, packBought, m) in r
  {
    if ms == [] then []
    else
      var rest := TeamEntries(buyer, packBought, ms[1..]);
      assert forall m :: m in ms <==> m == ms[0] || m in ms[1..] by { assert ms == [ms[0]] + ms[1..]; }
      if ms[0].updated.teamMatchingBonus > 0.0 then [TeamRow(buyer, packBought, ms[0])] + rest else rest
  }

  /** The `teamDirect` ledger row of an ancestor's override: the override amount at its rank's percentage. */
  function OverrideRow(buyer: User, packBought: nat, m: Match): BonusEntry
  {
    BonusEntry(m.overrideBonus, buyer.accountAddress, TeamDirect, m.updated.accountAddress, packBought,
               m.updated.profile, m.overridePct, false, 0.0, None)
  }

  /** A `teamDirect` ledger row for every matched ancestor with a positive override. */
  function OverrideEntries(buyer: User, packBought: nat, ms: seq<Match>): (r: seq<BonusEntry>)
    ensures forall e :: e in r ==>
              (e.bonusType == TeamDirect && !e.canClaim && e.flushAmount == 0.0 &&
               e.bonusFrom == buyer.accountAddress && e.packBought == packBought && e.onHold == None &&
               e.amount > 0.0)
    ensures forall e :: e in r ==>
              exists m :: m in ms && m.overrideBonus > 0.0 && e == OverrideRow(buyer, packBought, m)
    ensures forall m :: m in ms && m.overrideBonus > 0.0 ==> OverrideRow(buyer, packBought, m) in r
  {
    if ms == [] then []
    else
      var rest := OverrideEntries(buyer, packBought, ms[1..]);
      assert forall m :: m in ms <==> m == ms[0] || m in ms[1..] by { assert ms == [ms[0]] + ms[1..]; }
      if ms[0].overrideBonus > 0.0 then [OverrideRow(buyer, packBought, ms[0])] + rest else rest
  }

  /** An ancestor that is skipped gets no new record and no ledger row, provided each ancestor is listed once. */
  lemma SkippedLeavesNoTrace(ranks: seq<Rank>, buyer: User, sponsors: seq<User>, k: nat, packBought: nat)
    requires NoDup(Addresses(sponsors)) && k < |sponsors|
    requires UnmatchedA(sponsors[k]) <= 0.0 || UnmatchedB(sponsors[k]) <= 0.0
    ensures forall m :: m in MatchAll(ranks, buyer, sponsors) ==> m.updated.accountAddress != sponsors[k].accountAddress
    ensures forall e :: e in TeamEntries(buyer, packBought, MatchAll(ranks, buyer, sponsors)) + OverrideEntries(buyer, packBought, MatchAll(ranks, buyer, sponsors)) ==>
              e.user != sponsors[k].accountAddress
  {
    var ms := MatchAll(ranks, buyer, sponsors);
    forall m | m in ms ensures m.updated.accountAddress != sponsors[k].accountAddress {
      var j :| 0 <= j < |sponsors| && MatchSponsor(ranks, buyer, sponsors[j]) == Some(m);
      assert j != k;
      assert Addresses(sponsors)[j] != Addresses(sponsors)[k];
    }
  }
}
