/** The leg-count recount (users.service.ts, updateUserTeamAAndBCount): for every account, walks its
    affected-ancestor list as a purchase would and tallies, per ancestor, how often each leg is hit.
    The first sighting of an ancestor sets both counts to 1; later sightings add 1 to the leg the
    next element (or the account itself) sits on. The tally is returned, not stored. */
module Recount {
  import opened Entities
  import opened Tree

  datatype Counts = Counts(teamACount: int, teamBCount: int)

  /** The leg of the record after position `i` of `list`, or of the account itself at the end. */
  function NextNode(users: map<Address, User>, list: seq<Address>, buyer: User, i: nat): int
    requires i < |list| && forall x :: x in list ==> x in users
  {
    if i + 1 < |list| then users[list[i + 1]].node else buyer.node
  }

  /** `data` after the first `k` elements of one account's list. */
  function TallyList(users: map<Address, User>, data: map<Address, Counts>, list: seq<Address>, buyer: User, k: nat): map<Address, Counts>
    requires k <= |list| && forall x :: x in list ==> x in users
  {
    if k == 0 then data
    else
      var d := TallyList(users, data, list, buyer, k - 1);
      var x := list[k - 1];
      if x in d then
        if NextNode(users, list, buyer, k - 1) == 0 then d[x := d[x].(teamACount := d[x].teamACount + 1)]
        else d[x := d[x].(teamBCount := d[x].teamBCount + 1)]
      else d[x := Counts(1, 1)]
  }

  /** The affected list the recount walks for the account at position `j`. */
  function ListOf(users: map<Address, User>, order: seq<Address>, j: nat): (r: seq<Address>)
    requires j < |order| && order[j] in users
    ensures forall x :: x in r ==> x in users
  {
    AffectedSpec(users, users[order[j]]);
    Affected(users, users[order[j]])
  }

  /** The tally after the first `n` accounts of the table. */
  function Tally(users: map<Address, User>, order: seq<Address>, n: nat): map<Address, Counts>
    requires n <= |order| && forall x :: x in order ==> x in users
  {
    if n == 0 then map[]
    else
      var list := ListOf(users, order, n - 1);
      TallyList(users, Tally(users, order, n - 1), list, users[order[n - 1]], |list|)
  }

  /** One more account of the table. */
  lemma TallyNext(users: map<Address, User>, order: seq<Address>, n: nat)
    requires n < |order| && forall x :: x in order ==> x in users
    ensures Tally(users, order, n + 1) ==
              TallyList(users, Tally(users, order, n), ListOf(users, order, n), users[order[n]], |ListOf(users, order, n)|)
  {
  }

  /** One sighting of an ancestor in an affected list: the ancestor, and the leg (`node`) of the
      record after it, or of the account itself when the ancestor is last. */
  datatype Sighting = Sighting(who: Address, leg: int)

  /** The sightings of the first `k` elements of one account's list. */
  function Marks(users: map<Address, User>, list: seq<Address>, buyer: User, k: nat): (r: seq<Sighting>)
    requires k <= |list| && forall x :: x in list ==> x in users
    ensures |r| == k
    ensures forall i :: 0 <= i < k ==> r[i] == Sighting(list[i], NextNode(users, list, buyer, i))
  {
    if k == 0 then [] else Marks(users, list, buyer, k - 1) + [Sighting(list[k - 1], NextNode(users, list, buyer, k - 1))]
  }

  /** Every sighting so far: those of the affected lists of the first `n` accounts, in turn. */
  function Seen(users: map<Address, User>, order: seq<Address>, n: nat): seq<Sighting>
    requires n <= |order| && forall x :: x in order ==> x in users
  {
    if n == 0 then []
    else
      var list := ListOf(users, order, n - 1);
      Seen(users, order, n - 1) + Marks(users, list, users[order[n - 1]], |list|)
  }

  /** How often `x` is sighted in `s`. */
  function Sightings(s: seq<Sighting>, x: Address): nat
  {
    if s == [] then 0 else Sightings(s[..|s| - 1], x) + (if s[|s| - 1].who == x then 1 else 0)
  }

  /** How many sightings of `x` after its first one have the next record on leg A (`onA`), or on
      any other leg (`!onA`). */
  function Later(s: seq<Sighting>, x: Address, onA: bool): nat
  {
    if s == [] then 0
    else
      var p := s[..|s| - 1];
      Later(p, x, onA) + (if s[|s| - 1].who == x && Sightings(p, x) > 0 && (s[|s| - 1].leg == 0) == onA then 1 else 0)
  }

  /** The tally holds exactly the ancestors sighted; each starts at 1 on both legs, and every later
      sighting adds 1 to team A when the next record has node 0 and to team B otherwise. */
  ghost predicate CountsMatch(data: map<Address, Counts>, seen: seq<Sighting>)
  {
    forall x :: (x in data <==> Sightings(seen, x) > 0) &&
                (x in data ==> data[x].teamACount == 1 + Later(seen, x, true) &&
                               data[x].teamBCount == 1 + Later(seen, x, false))
  }

  /** Every sighting after the first is on exactly one of the two legs. */
  lemma {:induction false} LaterSplit(s: seq<Sighting>, x: Address)
    ensures Sightings(s, x) > 0 ==> Later(s, x, true) + Later(s, x, false) + 1 == Sightings(s, x)
    ensures Sightings(s, x) == 0 ==> Later(s, x, true) == 0 && Later(s, x, false) == 0
  {
    if s != [] {
      LaterSplit(s[..|s| - 1], x);
    }
  }

  /** A tally that matches its sightings has both counts at least 1 and, together, one more than the
      number of sightings. */
  lemma CountsSum(data: map<Address, Counts>, seen: seq<Sighting>)
    requires CountsMatch(data, seen)
    ensures forall x :: x in data ==> data[x].teamACount >= 1 && data[x].teamBCount >= 1 &&
                                      data[x].teamACount + data[x].teamBCount == Sightings(seen, x) + 1
  {
    forall x | x in data
      ensures data[x].teamACount + data[x].teamBCount == Sightings(seen, x) + 1
    {
      LaterSplit(seen, x);
    }
  }

  /** One more sighting `m`: a new ancestor starts at (1, 1); a known one gains 1 on team A when the
      next record has node 0, on team B otherwise. */
  lemma SightingStep(d: map<Address, Counts>, s0: seq<Sighting>, m: Sighting, t: map<Address, Counts>)
    requires CountsMatch(d, s0)
    requires t == if m.who !in d then d[m.who := Counts(1, 1)]
                  else if m.leg == 0 then d[m.who := d[m.who].(teamACount := d[m.who].teamACount + 1)]
                  else d[m.who := d[m.who].(teamBCount := d[m.who].teamBCount + 1)]
    ensures CountsMatch(t, s0 + [m])
  {
    var s1 := s0 + [m];
    assert s1[..|s1| - 1] == s0;
    forall y
      ensures (y in t <==> Sightings(s1, y) > 0) &&
              (y in t ==> t[y].teamACount == 1 + Later(s1, y, true) && t[y].teamBCount == 1 + Later(s1, y, false))
    {
      if y == m.who && m.who !in d {
        LaterSplit(s0, y);
      }
    }
  }

  /** One more element of one account's list keeps the counting property. */
  lemma TallyListStep(users: map<Address, User>, data: map<Address, Counts>, seen: seq<Sighting>,
                      list: seq<Address>, buyer: User, k: nat)
    requires 0 < k <= |list| && forall x :: x in list ==> x in users
    requires CountsMatch(TallyList(users, data, list, buyer, k - 1), seen + Marks(users, list, buyer, k - 1))
    ensures CountsMatch(TallyList(users, data, list, buyer, k), seen + Marks(users, list, buyer, k))
  {
    var m := Sighting(list[k - 1], NextNode(users, list, buyer, k - 1));
    assert seen + Marks(users, list, buyer, k) == (seen + Marks(users, list, buyer, k - 1)) + [m];
    SightingStep(TallyList(users, data, list, buyer, k - 1), seen + Marks(users, list, buyer, k - 1), m,
                 TallyList(users, data, list, buyer, k));
  }

  lemma {:induction false} TallyListCounts(users: map<Address, User>, data: map<Address, Counts>, seen: seq<Sighting>,
                                           list: seq<Address>, buyer: User, k: nat)
    requires k <= |list| && forall x :: x in list ==> x in users
    requires CountsMatch(data, seen)
    ensures CountsMatch(TallyList(users, data, list, buyer, k), seen + Marks(users, list, buyer, k))
  {
    if k == 0 {
      assert seen + Marks(users, list, buyer, 0) == seen;
    } else {
      TallyListCounts(users, data, seen, list, buyer, k - 1);
      TallyListStep(users, data, seen, list, buyer, k);
    }
  }

  /** The recount's result satisfies CountsMatch over every sighting of every account's list. */
  lemma {:induction false} TallyCounts(users: map<Address, User>, order: seq<Address>, n: nat)
    requires n <= |order| && forall x :: x in order ==> x in users
    ensures CountsMatch(Tally(users, order, n), Seen(users, order, n))
  {
    if n > 0 {
      TallyCounts(users, order, n - 1);
      var list := ListOf(users, order, n - 1);
      TallyListCounts(users, Tally(users, order, n - 1), Seen(users, order, n - 1), list, users[order[n - 1]], |list|);
    }
  }
}
