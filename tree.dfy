/** The two ancestor structures of an account (placement and referral), how registration
    builds them, the affected-ancestor list of a purchase, and the descendant walk.
    Accounts are kept in a map; `order` lists their addresses in registration (id) order,
    which is the order in which an unordered table query returns them. */
module Tree {
  import opened Entities

  datatype Edge = Placement | Referral

  /** The account's parent along an edge kind. */
  function Link(u: User, e: Edge): Option<Address>
  {
    if e == Placement then u.parent else u.referredBy
  }

  /** The account's ancestor list along an edge kind, root first. */
  function Ancestors(u: User, e: Edge): seq<Address>
  {
    if e == Placement then u.parents else u.sponsorTree
  }

  // ---------------------------------------------------------------------------
  // Registration (users.service.ts, register)

  /** The leg a new account takes: B when the code given is the referrer's second code or team B is asked for. */
  function NodeFor(referrer: User, code: string, team: string): (node: int)
    ensures node == 0 || node == 1
    ensures node == 1 <==> (code == referrer.referralCodeSecond || team == "teamB")
  {
    var byCode := if referrer.referralCodeSecond == code then 1 else 0;
    if team == "teamB" then 1 else byCode
  }

  /** The record register saves for a new account: ancestor lists extended by the parent and the
      referrer, depth one below the parent, default rank 1 and every counter zero.
      `referralCode` and `referralCodeSecond` come from the random code generators. */
  function NewAccount(parent: User, referrer: User, address: Address, code: string, team: string,
                      referralCode: string, referralCodeSecond: string): User
  {
    User(
      accountAddress := address,
      parent := Some(parent.accountAddress),
      referredBy := Some(referrer.accountAddress),
      parents := parent.parents + [parent.accountAddress],
      sponsorTree := referrer.sponsorTree + [referrer.accountAddress],
      node := NodeFor(referrer, code, team),
      treeDepth := parent.treeDepth + 1,
      referralCode := referralCode,
      referralCodeSecond := referralCodeSecond,
      profile := 1,
      directPartner := 0,
      lastBoughtPack := 0,
      lastBoughtPackPrice := 0.0,
      individualIncome := 0.0,
      businessIncome := 0.0,
      businessIncomeFirstTeam := 0.0,
      businessIncomeSecondTeam := 0.0,
      businessIncomeFirstDeltaTeam := 0.0,
      businessIncomeSecondDeltaTeam := 0.0,
      rankBusinessATeamBucket := 0.0,
      rankBusinessBTeamBucket := 0.0,
      teamACount := 0,
      teamBCount := 0,
      directSponsorBonus := 0.0,
      teamMatchingBonus := 0.0,
      directMatchingBonus := 0.0,
      rankBonus := 0.0,
      totalWithdrawableAmount := 0.0)
  }

  // ---------------------------------------------------------------------------
  // detailsBasedOnCode (users.service.ts)

  /** The first account, in table order, owning `code` as either of its referral codes. */
  function FindByCode(users: map<Address, User>, order: seq<Address>, code: string): (r: Option<Address>)
    ensures r.Some? ==> r.value in order && r.value in users
                        && (users[r.value].referralCode == code || users[r.value].referralCodeSecond == code)
    ensures r.None? ==> forall k :: 0 <= k < |order| && order[k] in users ==>
                          users[order[k]].referralCode != code && users[order[k]].referralCodeSecond != code
  {
    if order == [] then None
    else if order[0] in users && (users[order[0]].referralCode == code || users[order[0]].referralCodeSecond == code)
    then Some(order[0])
    else FindByCode(users, order[1..], code)
  }

  /** The owner of a referral code and the team it places into: "A" for the first code, "B" otherwise. */
  function DetailsBasedOnCode(users: map<Address, User>, order: seq<Address>, code: string): (r: Option<(Address, string)>)
    ensures r.None? <==> FindByCode(users, order, code).None?
    ensures r.Some? ==> r.value.0 in users && (r.value.1 == "A" || r.value.1 == "B")
    ensures r.Some? ==> (r.value.1 == "A" <==> users[r.value.0].referralCode == code)
    ensures r.Some? && r.value.1 == "B" ==> users[r.value.0].referralCodeSecond == code
  {
    match FindByCode(users, order, code)
    case None => None
    case Some(a) => Some((a, if users[a].referralCode == code then "A" else "B"))
  }

  // ---------------------------------------------------------------------------
  // Well-formedness of the stored trees

  /** The account at position `j` is a root (no link, empty list, depth 0) or was registered after its
      parent along `e`, and its ancestor list is that parent's list followed by the parent. */
  predicate LinkedAt(users: map<Address, User>, order: seq<Address>, j: nat, e: Edge)
    requires j < |order|
  {
    order[j] in users &&
    var u := users[order[j]];
    match Link(u, e)
    case None => Ancestors(u, e) == [] && (e == Placement ==> u.treeDepth == 0)
    case Some(p) =>
      p in order[..j] && p in users &&
      Ancestors(u, e) == Ancestors(users[p], e) + [p] &&
      (e == Placement ==> u.treeDepth == users[p].treeDepth + 1)
  }

  /** The invariant register establishes: every account is listed once in registration order, is keyed by
      its own address, and both its ancestor lists are built from a parent registered before it. */
  ghost predicate WellFormed(users: map<Address, User>, order: seq<Address>)
  {
    && NoDup(order)
    && (forall a :: a in users <==> a in order)
    && (forall a :: a in users ==> users[a].accountAddress == a)
    && (forall j :: 0 <= j < |order| ==> LinkedAt(users, order, j, Placement) && LinkedAt(users, order, j, Referral))
  }

  /** The fields the tree invariant depends on. */
  function Shape(u: User): (Address, Option<Address>, Option<Address>, seq<Address>, seq<Address>, int)
  {
    (u.accountAddress, u.parent, u.referredBy, u.parents, u.sponsorTree, u.treeDepth)
  }

  /** Changing counters only keeps the trees well formed. */
  lemma WellFormedSameShape(users: map<Address, User>, users': map<Address, User>, order: seq<Address>)
    requires WellFormed(users, order)
    requires users'.Keys == users.Keys
    requires forall a :: a in users ==> Shape(users'[a]) == Shape(users[a])
    ensures WellFormed(users', order)
  {
    forall j | 0 <= j < |order|
      ensures LinkedAt(users', order, j, Placement) && LinkedAt(users', order, j, Referral)
    {
      assert LinkedAt(users, order, j, Placement) && LinkedAt(users, order, j, Referral);
    }
  }

  /** Registering an account whose record is built by NewAccount from two registered accounts keeps the
      trees well formed. */
  lemma WellFormedRegister(users: map<Address, User>, order: seq<Address>, u: User, p: Address, s: Address,
                           code: string, team: string, c1: string, c2: string)
    requires WellFormed(users, order)
    requires p in users && s in users && u.accountAddress !in users
    requires u == NewAccount(users[p], users[s], u.accountAddress, code, team, c1, c2)
    ensures WellFormed(users[u.accountAddress := u], order + [u.accountAddress])
  {
    var a := u.accountAddress;
    var users', order' := users[a := u], order + [a];
    assert order'[..|order|] == order;
    forall j | 0 <= j < |order'|
      ensures LinkedAt(users', order', j, Placement) && LinkedAt(users', order', j, Referral)
    {
      if j < |order| {
        assert LinkedAt(users, order, j, Placement) && LinkedAt(users, order, j, Referral);
        assert order'[..j] == order[..j];
        assert order[j] != a;
      } else {
        assert order'[..j] == order;
        assert p in order && s in order;
      }
    }
  }

  /** The position of a registered account in `order`. */
  function Pos(order: seq<Address>, a: Address): (i: nat)
    requires a in order
    ensures i < |order| && order[i] == a
    ensures forall k :: 0 <= k < i ==> order[k] != a
  {
    if order[0] == a then 0 else 1 + Pos(order[1..], a)
  }

  /** Every ancestor of an account is registered, and the ancestor at index m has, as its own list,
      exactly the first m entries: the stored lists are consistent all the way up. */
  lemma {:induction false} AncestorsPrefixClosed(users: map<Address, User>, order: seq<Address>, j: nat, e: Edge)
    requires WellFormed(users, order) && j < |order|
    ensures order[j] in users
    ensures var anc := Ancestors(users[order[j]], e);
            forall m :: 0 <= m < |anc| ==> anc[m] in users && Ancestors(users[anc[m]], e) == anc[..m]
    decreases j
  {
    assert LinkedAt(users, order, j, e);
    var u := users[order[j]];
    match Link(u, e)
    case None =>
    case Some(p) =>
      var q :| 0 <= q < j && order[..j][q] == p;
      assert order[q] == p;
      AncestorsPrefixClosed(users, order, q, e);
      var anc, up := Ancestors(u, e), Ancestors(users[p], e);
      assert anc == up + [p];
      forall m | 0 <= m < |anc|
        ensures anc[m] in users && Ancestors(users[anc[m]], e) == anc[..m]
      {
        if m < |up| {
          assert anc[m] == up[m];
          assert anc[..m] == up[..m];
        } else {
          assert anc[..m] == up;
        }
      }
  }

  /** No account is among its own ancestors. */
  lemma NotOwnAncestor(users: map<Address, User>, order: seq<Address>, a: Address, e: Edge)
    requires WellFormed(users, order) && a in users
    ensures a !in Ancestors(users[a], e)
  {
    var j := Pos(order, a);
    AncestorsPrefixClosed(users, order, j, e);
    var anc := Ancestors(users[a], e);
    forall m | 0 <= m < |anc| ensures anc[m] != a {
      assert Ancestors(users[anc[m]], e) == anc[..m] && |anc[..m]| < |anc|;
    }
  }

  /** The referrer and the placement parent are listed among the ancestors, as the last entry. */
  lemma LinkIsAncestor(users: map<Address, User>, order: seq<Address>, a: Address, e: Edge)
    requires WellFormed(users, order) && a in users && Link(users[a], e).Some?
    ensures Link(users[a], e).value in Ancestors(users[a], e)
    ensures |Ancestors(users[a], e)| > 0 && Ancestors(users[a], e)[|Ancestors(users[a], e)| - 1] == Link(users[a], e).value
  {
    assert LinkedAt(users, order, Pos(order, a), e);
  }

  /** A placement depth is the length of the placement ancestor list. */
  lemma {:induction false} DepthIsAncestorCount(users: map<Address, User>, order: seq<Address>, j: nat)
    requires WellFormed(users, order) && j < |order|
    ensures order[j] in users && users[order[j]].treeDepth == |users[order[j]].parents|
    decreases j
  {
    assert LinkedAt(users, order, j, Placement);
    var u := users[order[j]];
    match u.parent
    case None =>
    case Some(p) =>
      var q :| 0 <= q < j && order[..j][q] == p;
      assert order[q] == p;
      DepthIsAncestorCount(users, order, q);
  }

  // ---------------------------------------------------------------------------
  // The affected-ancestor list of a purchase (users.service.ts, buyPack step 2)

  /** The elements of `s` in order of first occurrence (a JavaScript Set spread back into an array). */
  function Dedup(s: seq<Address>): (r: seq<Address>)
    ensures NoDup(r)
    ensures forall x :: x in r <==> x in s
  {
    if s == [] then []
    else
      var d := Dedup(s[..|s| - 1]);
      var x := s[|s| - 1];
      assert forall y :: y in s <==> y in s[..|s| - 1] || y == x by {
        assert s == s[..|s| - 1] + [x];
      }
      if x in d then d else d + [x]
  }

  /** The addresses that the table holds (an `In(...)` query drops unknown addresses). */
  function Present(users: map<Address, User>, s: seq<Address>): (r: seq<Address>)
    ensures forall x :: x in r <==> x in s && x in users
    ensures NoDup(s) ==> NoDup(r)
  {
    if s == [] then []
    else
      var rest := Present(users, s[1..]);
      assert forall y :: y in s <==> y == s[0] || y in s[1..] by {
        assert s == [s[0]] + s[1..];
      }
      if s[0] in users then [s[0]] + rest else rest
  }

  function Depth(users: map<Address, User>, a: Address): int
  {
    if a in users then users[a].treeDepth else 0
  }

  predicate SortedByDepth(users: map<Address, User>, s: seq<Address>)
  {
    forall i, j :: 0 <= i < j < |s| ==> Depth(users, s[i]) <= Depth(users, s[j])
  }

  /** Inserts `x` after every element of depth at most its own (keeps ties in arrival order). */
  function InsertByDepth(users: map<Address, User>, x: Address, s: seq<Address>): (r: seq<Address>)
    requires SortedByDepth(users, s)
    ensures SortedByDepth(users, r)
    ensures multiset(r) == multiset(s) + multiset{x}
  {
    if s == [] then [x]
    else if Depth(users, x) < Depth(users, s[0]) then
      SortedCons(users, x, s);
      [x] + s
    else
      SortedTail(users, s);
      var rest := InsertByDepth(users, x, s[1..]);
      InsertAfterHead(users, x, s, rest);
      [s[0]] + rest
  }

  /** The tail of a sorted list is sorted, and no element of it is shallower than the head. */
  lemma SortedTail(users: map<Address, User>, s: seq<Address>)
    requires SortedByDepth(users, s) && s != []
    ensures SortedByDepth(users, s[1..])
    ensures forall k :: 0 <= k < |s[1..]| ==> Depth(users, s[0]) <= Depth(users, s[1..][k])
  {
    forall i, j | 0 <= i < j < |s[1..]| ensures Depth(users, s[1..][i]) <= Depth(users, s[1..][j]) {
      assert s[1..][i] == s[i + 1] && s[1..][j] == s[j + 1];
    }
    forall k | 0 <= k < |s[1..]| ensures Depth(users, s[0]) <= Depth(users, s[1..][k]) {
      assert s[1..][k] == s[k + 1];
    }
  }

  /** Keeping the head in front of the insertion into the tail, when `x` is no shallower than the head. */
  lemma InsertAfterHead(users: map<Address, User>, x: Address, s: seq<Address>, rest: seq<Address>)
    requires s != [] && SortedByDepth(users, s) && Depth(users, s[0]) <= Depth(users, x)
    requires SortedByDepth(users, rest) && multiset(rest) == multiset(s[1..]) + multiset{x}
    ensures SortedByDepth(users, [s[0]] + rest)
    ensures multiset([s[0]] + rest) == multiset(s) + multiset{x}
  {
    SortedTail(users, s);
    assert s == [s[0]] + s[1..];
    DepthBelowAll(users, s[0], x, s[1..], rest);
    SortedCons(users, s[0], rest);
  }

  /** Prefixing a sorted list with an element no deeper than its head keeps it sorted. */
  lemma SortedCons(users: map<Address, User>, y: Address, s: seq<Address>)
    requires SortedByDepth(users, s)
    requires s != [] ==> Depth(users, y) <= Depth(users, s[0])
    ensures SortedByDepth(users, [y] + s)
  {
    var t := [y] + s;
    forall i, j | 0 <= i < j < |t| ensures Depth(users, t[i]) <= Depth(users, t[j]) {
      if i == 0 {
        assert t[j] == s[j - 1];
        if j > 1 { assert Depth(users, s[0]) <= Depth(users, s[j - 1]); }
      } else {
        assert t[i] == s[i - 1] && t[j] == s[j - 1];
      }
    }
  }

  /** `y` is no deeper than the head of `rest` when `rest` is a rearrangement of `t` and `x`, and `y` is
      no deeper than either. */
  lemma DepthBelowAll(users: map<Address, User>, y: Address, x: Address, t: seq<Address>, rest: seq<Address>)
    requires multiset(rest) == multiset(t) + multiset{x}
    requires Depth(users, y) <= Depth(users, x)
    requires forall k :: 0 <= k < |t| ==> Depth(users, y) <= Depth(users, t[k])
    ensures rest != [] ==> Depth(users, y) <= Depth(users, rest[0])
  {
    if rest != [] {
      assert rest[0] in multiset(rest);
      if rest[0] != x {
        assert rest[0] in multiset(t);
        var m :| 0 <= m < |t| && t[m] == rest[0];
      }
    }
  }

  /** A stable insertion sort by `treeDepth`, ascending: the query's `order: { treeDepth: 'ASC' }`. */
  function SortByDepth(users: map<Address, User>, s: seq<Address>): (r: seq<Address>)
    ensures SortedByDepth(users, r)
    ensures multiset(r) == multiset(s)
  {
    if s == [] then []
    else
      assert s == s[..|s| - 1] + [s[|s| - 1]];
      InsertByDepth(users, s[|s| - 1], SortByDepth(users, s[..|s| - 1]))
  }

  /** The buyer's placement and referral ancestors, without duplicates, that the table holds,
      ordered by ascending depth (ties in first-occurrence order). */
  function Affected(users: map<Address, User>, buyer: User): seq<Address>
  {
    SortByDepth(users, Present(users, Dedup(buyer.parents + buyer.sponsorTree)))
  }

  /** The affected list holds each registered ancestor of either kind exactly once, root-most first. */
  lemma AffectedSpec(users: map<Address, User>, buyer: User)
    ensures NoDup(Affected(users, buyer))
    ensures SortedByDepth(users, Affected(users, buyer))
    ensures forall x :: x in Affected(users, buyer) <==>
                          x in users && (x in buyer.parents || x in buyer.sponsorTree)
  {
    var present := Present(users, Dedup(buyer.parents + buyer.sponsorTree));
    var r := Affected(users, buyer);
    NoDupMultiset(present);
    NoDupMultiset(r);
    forall x ensures x in r <==> x in present {
      calc {
        x in r;
        x in multiset(r);
        x in multiset(present);
        x in present;
      }
    }
  }

  /** The registered accounts whose address is in `s`, in table order (an `In(...)` query without
      an ordering clause). */
  function TableOrder(order: seq<Address>, s: seq<Address>): (r: seq<Address>)
    ensures forall x :: x in r <==> x in order && x in s
    ensures NoDup(order) ==> NoDup(r)
  {
    if order == [] then []
    else
      var rest := TableOrder(order[1..], s);
      assert forall y :: y in order <==> y == order[0] || y in order[1..] by {
        assert order == [order[0]] + order[1..];
      }
      if order[0] in s then [order[0]] + rest else rest
  }

  /** The stored records of a list of registered addresses. */
  function Records(users: map<Address, User>, s: seq<Address>): (r: seq<User>)
    requires forall x :: x in s ==> x in users
    ensures |r| == |s|
    ensures forall i :: 0 <= i < |s| ==> r[i] == users[s[i]]
  {
    if s == [] then [] else [users[s[0]]] + Records(users, s[1..])
  }

  // ---------------------------------------------------------------------------
  // Descendants (getChildPartnersUsers in both services)

  predicate LinksTo(users: map<Address, User>, x: Address, a: Address, e: Edge)
  {
    x in users && Link(users[x], e) == Some(a)
  }

  /** The positions from `from` on whose account is a child of `a` along `e`, in table order. */
  function ChildPositions(users: map<Address, User>, order: seq<Address>, a: Address, e: Edge, from: nat): (r: seq<nat>)
    ensures forall k :: 0 <= k < |r| ==> from <= r[k] < |order| && LinksTo(users, order[r[k]], a, e)
    ensures forall j :: from <= j < |order| && LinksTo(users, order[j], a, e) ==> j in r
    decreases |order| - from
  {
    if from >= |order| then []
    else (if LinksTo(users, order[from], a, e) then [from] else []) + ChildPositions(users, order, a, e, from + 1)
  }

  function At(order: seq<Address>, ps: seq<nat>): (r: seq<Address>)
    requires forall k :: 0 <= k < |ps| ==> ps[k] < |order|
    ensures |r| == |ps|
    ensures forall k :: 0 <= k < |ps| ==> r[k] == order[ps[k]]
  {
    if ps == [] then [] else [order[ps[0]]] + At(order, ps[1..])
  }

  /** The children of an account along `e`: every account whose link names it, in table order. */
  function Children(users: map<Address, User>, order: seq<Address>, a: Address, e: Edge): seq<Address>
  {
    At(order, ChildPositions(users, order, a, e, 0))
  }

  /** All transitive descendants of the account at position `i`: its children, then each child's
      descendants in turn. Only children registered after it are followed, which under WellFormed
      is every child (ChildrenAfter). */
  function Descendants(users: map<Address, User>, order: seq<Address>, i: nat, e: Edge): seq<Address>
    requires i < |order|
    decreases |order| - i, 1, 0
  {
    var ks := ChildPositions(users, order, order[i], e, i + 1);
    At(order, ks) + DescendantsOfAll(users, order, ks, i, e)
  }

  function DescendantsOfAll(users: map<Address, User>, order: seq<Address>, ks: seq<nat>, i: nat, e: Edge): seq<Address>
    requires forall k :: 0 <= k < |ks| ==> i < ks[k] < |order|
    decreases |order| - i, 0, |ks|
  {
    if ks == [] then []
    else DescendantsOfAll(users, order, ks[..|ks| - 1], i, e) + Descendants(users, order, ks[|ks| - 1], e)
  }

  /** The walk of the first k + 1 children is the walk of the first k, then the (k+1)-th child's. */
  lemma DescendantsOfAllPrefix(users: map<Address, User>, order: seq<Address>, ks: seq<nat>, i: nat, e: Edge, k: nat)
    requires forall m :: 0 <= m < |ks| ==> i < ks[m] < |order|
    requires k < |ks|
    ensures DescendantsOfAll(users, order, ks[..k + 1], i, e) ==
              DescendantsOfAll(users, order, ks[..k], i, e) + Descendants(users, order, ks[k], e)
  {
    assert ks[..k + 1][..k] == ks[..k];
  }

  /** An account registered at or before `a` is not a child of `a`. */
  lemma NotEarlyChild(users: map<Address, User>, order: seq<Address>, a: Address, e: Edge, j: nat)
    requires WellFormed(users, order) && a in order && j <= Pos(order, a)
    ensures !LinksTo(users, order[j], a, e)
  {
    assert LinkedAt(users, order, j, e);
    assert a !in order[..j];
  }

  /** No account registered at or before `a` is a child of `a`. */
  lemma {:induction false} NoEarlyChildren(users: map<Address, User>, order: seq<Address>, a: Address, e: Edge, from: nat)
    requires WellFormed(users, order) && a in order && from <= Pos(order, a) + 1
    ensures ChildPositions(users, order, a, e, from) == ChildPositions(users, order, a, e, Pos(order, a) + 1)
    decreases Pos(order, a) + 1 - from
  {
    if from <= Pos(order, a) {
      NotEarlyChild(users, order, a, e, from);
      NoEarlyChildren(users, order, a, e, from + 1);
    }
  }

  /** Under WellFormed, the table query for children returns exactly the children the walk follows. */
  lemma ChildrenAfter(users: map<Address, User>, order: seq<Address>, a: Address, e: Edge)
    requires WellFormed(users, order) && a in order
    ensures Children(users, order, a, e) == At(order, ChildPositions(users, order, a, e, Pos(order, a) + 1))
    ensures forall k :: 0 <= k < |ChildPositions(users, order, a, e, 0)| ==>
                          Pos(order, a) < ChildPositions(users, order, a, e, 0)[k]
  {
    NoEarlyChildren(users, order, a, e, 0);
    PositionsFrom(users, order, a, e, Pos(order, a) + 1);
  }

  /** When the child positions from 0 on are those from `from` on, all of them are at least `from`. */
  lemma PositionsFrom(users: map<Address, User>, order: seq<Address>, a: Address, e: Edge, from: nat)
    requires ChildPositions(users, order, a, e, 0) == ChildPositions(users, order, a, e, from)
    ensures forall k :: 0 <= k < |ChildPositions(users, order, a, e, 0)| ==> from <= ChildPositions(users, order, a, e, 0)[k]
  {
  }

  /** An element of the walk of several children is in the walk of one of them. */
  lemma {:induction false} InDescendantsOfAll(users: map<Address, User>, order: seq<Address>, ks: seq<nat>, i: nat, e: Edge, x: Address)
    requires forall k :: 0 <= k < |ks| ==> i < ks[k] < |order|
    ensures x in DescendantsOfAll(users, order, ks, i, e) <==>
              exists m :: 0 <= m < |ks| && x in Descendants(users, order, ks[m], e)
    decreases |ks|
  {
    if ks != [] {
      var init := ks[..|ks| - 1];
      InDescendantsOfAll(users, order, init, i, e, x);
      if x in DescendantsOfAll(users, order, ks, i, e) {
        if x in DescendantsOfAll(users, order, init, i, e) {
          var m :| 0 <= m < |init| && x in Descendants(users, order, init[m], e);
          assert ks[m] == init[m];
        } else {
          assert x in Descendants(users, order, ks[|ks| - 1], e);
        }
      }
      if exists m :: 0 <= m < |ks| && x in Descendants(users, order, ks[m], e) {
        var m :| 0 <= m < |ks| && x in Descendants(users, order, ks[m], e);
        if m < |ks| - 1 {
          assert init[m] == ks[m];
        }
      }
    }
  }

  /** An ancestor of an ancestor is an ancestor. */
  lemma AncestorOfAncestor(users: map<Address, User>, order: seq<Address>, x: Address, y: Address, p: Address, e: Edge)
    requires WellFormed(users, order) && x in users
    requires y in Ancestors(users[x], e)
    requires y in users && p in Ancestors(users[y], e)
    ensures p in Ancestors(users[x], e)
  {
    AncestorsPrefixClosed(users, order, Pos(order, x), e);
    var anc := Ancestors(users[x], e);
    var n :| 0 <= n < |anc| && anc[n] == y;
    assert Ancestors(users[y], e) == anc[..n];
  }

  /** A child of the walked account has it among its ancestors. */
  lemma ChildHasAncestor(users: map<Address, User>, order: seq<Address>, i: nat, e: Edge, x: Address)
    requires WellFormed(users, order) && i < |order|
    requires x in At(order, ChildPositions(users, order, order[i], e, i + 1))
    ensures x in users && order[i] in Ancestors(users[x], e)
  {
    var ks := ChildPositions(users, order, order[i], e, i + 1);
    var m :| 0 <= m < |ks| && At(order, ks)[m] == x;
    assert LinksTo(users, order[ks[m]], order[i], e);
    LinkIsAncestor(users, order, x, e);
  }

  /** Soundness of the walk: every account it lists has the walked account among its ancestors. */
  lemma {:induction false} DescendantsHaveAncestor(users: map<Address, User>, order: seq<Address>, i: nat, e: Edge, x: Address)
    requires WellFormed(users, order) && i < |order|
    requires x in Descendants(users, order, i, e)
    ensures x in users && order[i] in Ancestors(users[x], e)
    decreases |order| - i
  {
    var ks := ChildPositions(users, order, order[i], e, i + 1);
    if x in At(order, ks) {
      ChildHasAncestor(users, order, i, e, x);
    } else {
      InDescendantsOfAll(users, order, ks, i, e, x);
      var m :| 0 <= m < |ks| && x in Descendants(users, order, ks[m], e);
      var c := order[ks[m]];
      DescendantsHaveAncestor(users, order, ks[m], e, x);
      assert LinksTo(users, c, order[i], e);
      LinkIsAncestor(users, order, c, e);
      AncestorOfAncestor(users, order, x, c, order[i], e);
    }
  }

  /** A child is registered after its parent. */
  lemma ChildAfterParent(users: map<Address, User>, order: seq<Address>, s: Address, e: Edge, j: nat)
    requires WellFormed(users, order) && j < |order| && LinksTo(users, order[j], s, e)
    ensures s in order && Pos(order, s) < j
  {
    assert LinkedAt(users, order, j, e);
    var q :| 0 <= q < j && order[..j][q] == s;
    assert order[q] == s;
  }

  /** A child registered after the account at `p` is among its descendants. */
  lemma ChildIsDescendant(users: map<Address, User>, order: seq<Address>, p: nat, e: Edge, j: nat)
    requires p < j < |order| && LinksTo(users, order[j], order[p], e)
    ensures order[j] in Descendants(users, order, p, e)
  {
    var kids := ChildPositions(users, order, order[p], e, p + 1);
    assert j in kids;
    var n :| 0 <= n < |kids| && kids[n] == j;
    assert At(order, kids)[n] == order[j];
  }

  /** The descendants of a followed child are descendants of the walked account. */
  lemma DescendantOfChild(users: map<Address, User>, order: seq<Address>, i: nat, e: Edge, m: nat, x: Address)
    requires i < |order|
    requires m < |ChildPositions(users, order, order[i], e, i + 1)|
    requires x in Descendants(users, order, ChildPositions(users, order, order[i], e, i + 1)[m], e)
    ensures x in Descendants(users, order, i, e)
  {
    var ks := ChildPositions(users, order, order[i], e, i + 1);
    InDescendantsOfAll(users, order, ks, i, e, x);
  }

  /** In a list without repetitions, an element's position is the index it was read from. */
  lemma PosOf(order: seq<Address>, k: nat)
    requires NoDup(order) && k < |order|
    ensures Pos(order, order[k]) == k
  {
  }

  /** A child of one of the walked account's children is listed. */
  lemma GrandchildIsDescendant(users: map<Address, User>, order: seq<Address>, i: nat, e: Edge, s: Address, j: nat)
    requires NoDup(order) && i < |order| && j < |order|
    requires s in At(order, ChildPositions(users, order, order[i], e, i + 1))
    requires LinksTo(users, order[j], s, e) && s in order && Pos(order, s) < j
    ensures order[j] in Descendants(users, order, i, e)
  {
    var ks := ChildPositions(users, order, order[i], e, i + 1);
    var m :| 0 <= m < |ks| && At(order, ks)[m] == s;
    PosOf(order, ks[m]);
    ChildIsDescendant(users, order, ks[m], e, j);
    DescendantOfChild(users, order, i, e, m, order[j]);
  }

  /** A child of a listed descendant is listed too. */
  lemma {:induction false} ChildOfDescendant(users: map<Address, User>, order: seq<Address>, i: nat, e: Edge, s: Address, j: nat)
    requires NoDup(order) && i < |order| && j < |order|
    requires s in Descendants(users, order, i, e)
    requires LinksTo(users, order[j], s, e) && s in order && Pos(order, s) < j
    ensures order[j] in Descendants(users, order, i, e)
    decreases |order| - i
  {
    var ks := ChildPositions(users, order, order[i], e, i + 1);
    if s in At(order, ks) {
      GrandchildIsDescendant(users, order, i, e, s, j);
    } else {
      InDescendantsOfAll(users, order, ks, i, e, s);
      var m :| 0 <= m < |ks| && s in Descendants(users, order, ks[m], e);
      ChildOfDescendant(users, order, ks[m], e, s, j);
      DescendantOfChild(users, order, i, e, m, order[j]);
    }
  }

  /** Completeness of the walk: every account that has the walked account among its ancestors is listed. */
  lemma {:induction false} AncestorIsListed(users: map<Address, User>, order: seq<Address>, i: nat, e: Edge, j: nat)
    requires WellFormed(users, order) && i < |order| && j < |order|
    requires order[j] in users && order[i] in Ancestors(users[order[j]], e)
    ensures order[j] in Descendants(users, order, i, e)
    decreases j
  {
    assert LinkedAt(users, order, j, e);
    var x := users[order[j]];
    var s := Link(x, e).value;
    var q :| 0 <= q < j && order[..j][q] == s;
    assert order[q] == s;
    if s == order[i] {
      assert q == i;
      var ks := ChildPositions(users, order, order[i], e, i + 1);
      assert j in ks;
      var n :| 0 <= n < |ks| && ks[n] == j;
      assert At(order, ks)[n] == order[j];
    } else {
      assert order[i] in Ancestors(users[s], e);
      AncestorIsListed(users, order, i, e, q);
      ChildAfterParent(users, order, s, e, j);
      ChildOfDescendant(users, order, i, e, s, j);
    }
  }

  /** The walk lists exactly the accounts that have the walked account among their ancestors. */
  lemma DescendantsExactly(users: map<Address, User>, order: seq<Address>, i: nat, e: Edge)
    requires WellFormed(users, order) && i < |order|
    ensures forall x :: x in Descendants(users, order, i, e) <==>
                          x in users && order[i] in Ancestors(users[x], e)
  {
    forall x ensures x in Descendants(users, order, i, e) <==> x in users && order[i] in Ancestors(users[x], e) {
      if x in Descendants(users, order, i, e) {
        DescendantsHaveAncestor(users, order, i, e, x);
      }
      if x in users && order[i] in Ancestors(users[x], e) {
        AncestorIsListed(users, order, i, e, Pos(order, x));
      }
    }
  }
}
