/** The rank decision (bonus.service.ts, getUserCurrentLevel): a chain of checks that returns the
    candidate rank or the account's current one. Ranks are returned by id; None stands for the
    undefined value the source returns when no rank qualifies and the ratio check passes. */
module Ranks {
  import opened Entities
  import opened Tree

  /** A rank the query's `minimumBusinessRequired <= A bucket OR <= B bucket` selects. */
  predicate Qualifies(r: Rank, a: real, b: real)
  {
    r.minimumBusinessRequired <= a || r.minimumBusinessRequired <= b
  }

  /** The qualifying rank with the highest threshold (the first in table order among equals). */
  function Candidate(ranks: seq<Rank>, a: real, b: real): (r: Option<Rank>)
    ensures r.None? <==> forall k :: 0 <= k < |ranks| ==> !Qualifies(ranks[k], a, b)
    ensures r.Some? ==> r.value in ranks && Qualifies(r.value, a, b)
    ensures r.Some? ==> forall k :: 0 <= k < |ranks| && Qualifies(ranks[k], a, b) ==>
                          ranks[k].minimumBusinessRequired <= r.value.minimumBusinessRequired
  {
    if ranks == [] then None
    else
      var rest := Candidate(ranks[1..], a, b);
      assert forall k :: 1 <= k < |ranks| ==> ranks[k] == ranks[1..][k - 1];
      if !Qualifies(ranks[0], a, b) then rest
      else match rest
        case None => Some(ranks[0])
        case Some(c) => if c.minimumBusinessRequired > ranks[0].minimumBusinessRequired then rest else Some(ranks[0])
  }

  /** `x / y`, or 0 when the divisor is not positive. */
  function Ratio(x: real, y: real): real
  {
    if y > 0.0 then x / y else 0.0
  }

  /** The required ratio: 2 for '2:1', 1 for anything else. */
  function RequiredRatio(g: Option<Rank>): real
  {
    if g.Some? && g.value.matchingRatio == "2:1" then 2.0 else 1.0
  }

  /** Either bucket is at least `ratio` times the other. */
  predicate RatioMet(u: User, ratio: real)
  {
    Ratio(u.rankBusinessATeamBucket, u.rankBusinessBTeamBucket) >= ratio ||
    Ratio(u.rankBusinessBTeamBucket, u.rankBusinessATeamBucket) >= ratio
  }

  /** A descendant that counts as a star on leg `leg`: registered, with a rank id at most `starId`,
      and on that leg. */
  predicate IsStar(users: map<Address, User>, d: Address, starId: int, leg: int)
  {
    d in users && users[d].profile <= starId && users[d].node == leg
  }

  /** The positions in `ds` of the stars on leg `leg`. */
  function Stars(users: map<Address, User>, ds: seq<Address>, starId: int, leg: int): set<nat>
  {
    set i: nat | i < |ds| && IsStar(users, ds[i], starId, leg)
  }

  /** One more descendant adds its position to the stars exactly when it is one. */
  lemma StarsStep(users: map<Address, User>, ds: seq<Address>, starId: int, leg: int)
    requires ds != []
    ensures var p := ds[..|ds| - 1];
            && |ds| - 1 !in Stars(users, p, starId, leg)
            && Stars(users, ds, starId, leg) ==
                 Stars(users, p, starId, leg) + (if IsStar(users, ds[|ds| - 1], starId, leg) then {|ds| - 1} else {})
  {
    var p := ds[..|ds| - 1];
    assert forall i :: 0 <= i < |p| ==> p[i] == ds[i];
  }

  /** How many of `ds` are stars on leg `leg`: the size of the descendant filter. */
  function StarCount(users: map<Address, User>, ds: seq<Address>, starId: int, leg: int): (n: nat)
    ensures n == |Stars(users, ds, starId, leg)|
    ensures n <= |ds|
  {
    if ds == [] then 0
    else
      StarsStep(users, ds, starId, leg);
      StarCount(users, ds[..|ds| - 1], starId, leg) + (if IsStar(users, ds[|ds| - 1], starId, leg) then 1 else 0)
  }

  /** The star condition: with ratio 1 both legs need N stars, with ratio 2 either leg does; both
      need at least one purchase counted on each leg. */
  predicate StarsMet(u: User, ratio: real, req: StarRequirement, starsA: int, starsB: int)
  {
    (if ratio == 1.0 then starsA >= req.count && starsB >= req.count
     else starsA >= req.count || starsB >= req.count)
    && u.teamACount >= 1 && u.teamBCount >= 1
  }

  /** Every check past the candidate's lookup: positive threshold, above the current rank, enough
      direct partners, the ratio, and the stars among the placement descendants listed in `ds`. */
  predicate Promotes(users: map<Address, User>, ds: seq<Address>, u: User, g: Rank)
  {
    && g.minimumBusinessRequired > 0.0
    && g.id > u.profile
    && g.directSponsorRequired <= u.directPartner
    && RatioMet(u, RequiredRatio(Some(g)))
    && match g.minimumStarWithRank
       case None => true
       case Some(req) =>
         StarsMet(u, RequiredRatio(Some(g)), req,
                  StarCount(users, ds, req.rankId, 0), StarCount(users, ds, req.rankId, 1))
  }

  /** The rank id the account should hold. */
  function CurrentLevel(users: map<Address, User>, order: seq<Address>, ranks: seq<Rank>, a: Address): (r: Option<int>)
    requires a in users && a in order
    // never a rank at or below the current one, other than the current one
    ensures r.Some? ==> r.value == users[a].profile || r.value > users[a].profile
    // a change of rank is exactly a candidate that passes every check
    ensures var u := users[a];
            var g := Candidate(ranks, u.rankBusinessATeamBucket, u.rankBusinessBTeamBucket);
            var ds := Descendants(users, order, Pos(order, a), Placement);
            g.Some? ==> (r == (if Promotes(users, ds, u, g.value) then Some(g.value.id) else Some(u.profile)))
    // with no candidate the result is undefined exactly when the ratio check passes
    ensures var u := users[a];
            Candidate(ranks, u.rankBusinessATeamBucket, u.rankBusinessBTeamBucket).None? ==>
              (r.None? <==> RatioMet(u, 1.0)) && (r.Some? ==> r.value == u.profile)
  {
    var u := users[a];
    var given := Candidate(ranks, u.rankBusinessATeamBucket, u.rankBusinessBTeamBucket);
    if given.Some? && given.value.minimumBusinessRequired <= 0.0 then Some(u.profile)
    else if given.Some? && given.value.id <= u.profile then Some(u.profile)
    else if given.Some? && given.value.directSponsorRequired > u.directPartner then Some(u.profile)
    else
      var ratio := RequiredRatio(given);
      if !RatioMet(u, ratio) then Some(u.profile)
      else if given.None? then None
      else match given.value.minimumStarWithRank
        case None => Some(given.value.id)
        case Some(req) =>
          var ds := Descendants(users, order, Pos(order, a), Placement);
          var starsA := StarCount(users, ds, req.rankId, 0);
          var starsB := StarCount(users, ds, req.rankId, 1);
          if StarsMet(u, ratio, req, starsA, starsB) then Some(given.value.id) else Some(u.profile)
  }
}
