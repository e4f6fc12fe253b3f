/** The engine's store and the operations that change it: registration (users.service.ts, register),
    the purchase pipeline (buyPack) and the bonus service's writers, the daily reconciliation, the
    descendant walk and the leg-count recount. Each state change is specified by the pure step
    functions below, whose properties are proved in the modules they build on. */
module Engine {
  import opened Entities
  import opened Tree
  import opened Volume
  import opened Matching
  import opened Direct
  import opened Reconcile
  import opened Recount

  // ---------------------------------------------------------------------------
  // Batch saves

  /** `users` after saving each record under its own address, in list order (a later record for the
      same address wins). */
  function SaveAll(users: map<Address, User>, recs: seq<User>): (r: map<Address, User>)
    ensures forall a :: a in r <==> a in users || a in Addresses(recs)
    ensures forall a :: a in users && a !in Addresses(recs) ==> r[a] == users[a]
    decreases |recs|
  {
    if recs == [] then users
    else SaveAll(users[recs[0].accountAddress := recs[0]], recs[1..])
  }

  /** Every saved address holds one of the records saved for it. */
  lemma {:induction false} SaveAllFrom(users: map<Address, User>, recs: seq<User>, a: Address)
    requires a in Addresses(recs)
    ensures a in SaveAll(users, recs)
    ensures exists i :: 0 <= i < |recs| && recs[i].accountAddress == a && SaveAll(users, recs)[a] == recs[i]
    decreases |recs|
  {
    var first := users[recs[0].accountAddress := recs[0]];
    if a in Addresses(recs[1..]) {
      SaveAllFrom(first, recs[1..], a);
      var i :| 0 <= i < |recs[1..]| && recs[1..][i].accountAddress == a && SaveAll(first, recs[1..])[a] == recs[1..][i];
      assert recs[i + 1] == recs[1..][i];
    } else {
      assert recs[0].accountAddress == a;
    }
  }

  /** A record that no later record replaces is saved as given. */
  lemma {:induction false} SaveAllLastWins(users: map<Address, User>, recs: seq<User>, i: nat)
    requires i < |recs|
    requires recs[i].accountAddress !in Addresses(recs[i + 1..])
    ensures SaveAll(users, recs)[recs[i].accountAddress] == recs[i]
    decreases |recs|
  {
    var first := users[recs[0].accountAddress := recs[0]];
    if i > 0 {
      assert recs[1..][i - 1] == recs[i] && recs[1..][i..] == recs[i + 1..];
      SaveAllLastWins(first, recs[1..], i - 1);
    }
  }

  /** With one record per address, every record is saved as given. */
  lemma SaveAllExact(users: map<Address, User>, recs: seq<User>, i: nat)
    requires NoDup(Addresses(recs)) && i < |recs|
    ensures SaveAll(users, recs)[recs[i].accountAddress] == recs[i]
  {
    var later := Addresses(recs[i + 1..]);
    forall k | 0 <= k < |later| ensures later[k] != recs[i].accountAddress {
      assert later[k] == Addresses(recs)[i + 1 + k] && recs[i].accountAddress == Addresses(recs)[i];
    }
    SaveAllLastWins(users, recs, i);
  }

  /** The store invariant on accounts: well-formed trees and no leg matched beyond its volume. */
  ghost predicate Sound(users: map<Address, User>, order: seq<Address>)
  {
    WellFormed(users, order) && forall a :: a in users ==> WithinVolume(users[a])
  }

  /** Saving records of registered accounts that keep their tree fields and their volume bound keeps
      the store sound. */
  lemma SaveAllSound(users: map<Address, User>, order: seq<Address>, recs: seq<User>)
    requires Sound(users, order)
    requires forall i :: 0 <= i < |recs| ==>
               recs[i].accountAddress in users && Shape(recs[i]) == Shape(users[recs[i].accountAddress]) &&
               WithinVolume(recs[i])
    ensures SaveAll(users, recs).Keys == users.Keys
    ensures Sound(SaveAll(users, recs), order)
  {
    var r := SaveAll(users, recs);
    forall a | a in Addresses(recs) ensures a in users {
      var i :| 0 <= i < |recs| && Addresses(recs)[i] == a;
    }
    forall a | a in users ensures Shape(r[a]) == Shape(users[a]) && WithinVolume(r[a]) {
      if a in Addresses(recs) {
        SaveAllFrom(users, recs, a);
        var i :| 0 <= i < |recs| && recs[i].accountAddress == a && r[a] == recs[i];
      }
    }
    WellFormedSameShape(users, r, order);
  }

  /** Replacing one account by a record with the same tree fields and volume bound keeps the store sound. */
  lemma UpdateOneSound(users: map<Address, User>, order: seq<Address>, a: Address, u: User)
    requires Sound(users, order) && a in users
    requires Shape(u) == Shape(users[a]) && WithinVolume(u)
    ensures Sound(users[a := u], order)
  {
    WellFormedSameShape(users, users[a := u], order);
  }

  // ---------------------------------------------------------------------------
  // The purchase steps as functions of the accounts

  /** Step 1 on the accounts after the buyer's purchase is recorded. */
  function IndividualStep(users: map<Address, User>, a: Address, price: real): map<Address, User>
    requires a in users
  {
    users[a := IndividualIncome(users[a], price)]
  }

  /** Step 2: every affected ancestor credited on one leg. */
  function VolumeStep(users: map<Address, User>, affected: seq<Address>, buyer: User, price: real): map<Address, User>
    requires forall x :: x in affected ==> x in users
  {
    SaveAll(users, SponsorsIncome(Records(users, affected), buyer, price))
  }

  /** The sponsor record the direct bonus reads, when the buyer has a registered referrer. */
  function SponsorOf(users: map<Address, User>, buyer: User): Option<User>
  {
    if buyer.referredBy.Some? && buyer.referredBy.value in users then Some(users[buyer.referredBy.value]) else None
  }

  /** Step 3 on the accounts: the sponsor's direct bonus and withdrawable balance both rise by the bonus. */
  function DirectStep(ranks: seq<Rank>, users: map<Address, User>, buyer: User, price: real): (r: map<Address, User>)
  {
    match DirectBonus(ranks, SponsorOf(users, buyer), price)
    case None => users
    case Some(amount) =>
      var s := buyer.referredBy.value;
      var credited := CreditDirect(users[s], amount);
      users[s := Claim(credited, amount, true)]
  }

  /** Step 3 on the ledger: one claimable direct row, or none. */
  function DirectRows(ranks: seq<Rank>, users: map<Address, User>, buyer: User, bought: nat, price: real): seq<BonusEntry>
  {
    match DirectBonus(ranks, SponsorOf(users, buyer), price)
    case None => []
    case Some(amount) =>
      var s := users[buyer.referredBy.value];
      [BonusRow(amount, buyer.accountAddress, Direct, s, bought, DirectPct(ranks, s.profile), true)]
  }

  /** The direct step's two writes to the referrer (the bonus, then its claim) leave only the second. */
  lemma OverwriteTwice<K, V>(m: map<K, V>, k: K, v: V, w: V)
    ensures m[k := v][k := w] == m[k := w]
  {
  }

  /** When a direct bonus is due, the sponsor is the registered referrer; the direct step raises its
      direct bonus and then credits its withdrawable balance, and the ledger gets one row. */
  lemma DirectStepPays(ranks: seq<Rank>, users: map<Address, User>, buyer: User, bought: nat, price: real, amount: real)
    requires DirectBonus(ranks, SponsorOf(users, buyer), price) == Some(amount)
    ensures buyer.referredBy.Some? && buyer.referredBy.value in users
    ensures var s := buyer.referredBy.value;
            var c := CreditDirect(users[s], amount);
            && DirectStep(ranks, users, buyer, price) == users[s := c][s := Claim(c, amount, true)]
            && DirectRows(ranks, users, buyer, bought, price) ==
                 [BonusRow(amount, buyer.accountAddress, Direct, c, bought, DirectPct(ranks, c.profile), true)]
  {
    var s := buyer.referredBy.value;
    var c := CreditDirect(users[s], amount);
    OverwriteTwice(users, s, c, Claim(c, amount, true));
  }

  /** The direct step rewrites only the referrer's record. */
  lemma DirectStepElsewhere(ranks: seq<Rank>, users: map<Address, User>, buyer: User, price: real, a: Address)
    requires a in users && (buyer.referredBy.Some? ==> buyer.referredBy.value != a)
    ensures DirectStep(ranks, users, buyer, price)[a] == users[a]
  {
  }

  /** Step 4 on the accounts: the matched ancestors' new records. */
  function MatchingStep(ranks: seq<Rank>, users: map<Address, User>, buyer: User, list: seq<Address>): map<Address, User>
    requires forall x :: x in list ==> x in users
  {
    SaveAll(users, Updated(MatchAll(ranks, buyer, Records(users, list))))
  }

  /** Step 4 on the ledger: the team rows, then the override rows. */
  function MatchingRows(ranks: seq<Rank>, users: map<Address, User>, buyer: User, list: seq<Address>, bought: nat): seq<BonusEntry>
    requires forall x :: x in list ==> x in users
  {
    var ms := MatchAll(ranks, buyer, Records(users, list));
    TeamEntries(buyer, bought, ms) + OverrideEntries(buyer, bought, ms)
  }

  /** Volume propagation keeps the store sound when the price is not negative. */
  lemma VolumeStepSound(users: map<Address, User>, order: seq<Address>, affected: seq<Address>, buyer: User, price: real)
    requires Sound(users, order) && price >= 0.0
    requires forall x :: x in affected ==> x in users
    ensures VolumeStep(users, affected, buyer, price).Keys == users.Keys
    ensures Sound(VolumeStep(users, affected, buyer, price), order)
  {
    var recs := Records(users, affected);
    var out := SponsorsIncome(recs, buyer, price);
    forall i | 0 <= i < |out|
      ensures out[i].accountAddress in users && Shape(out[i]) == Shape(users[out[i].accountAddress]) && WithinVolume(out[i])
    {
      var c := out[i];
      assert c == Credit(recs[i], price, IsFirstTeam(recs, buyer, i));
      assert recs[i] == users[affected[i]];
      assert affected[i] in affected;
      assert c.accountAddress == recs[i].accountAddress && c.parent == recs[i].parent && c.referredBy == recs[i].referredBy;
      assert c.parents == recs[i].parents && c.sponsorTree == recs[i].sponsorTree && c.treeDepth == recs[i].treeDepth;
    }
    SaveAllSound(users, order, out);
  }

  /** With each affected ancestor listed once, volume propagation credits exactly the affected
      ancestors, each on the leg of the next record, and leaves every other account as it was. */
  lemma VolumeStepEffect(users: map<Address, User>, affected: seq<Address>, buyer: User, price: real)
    requires NoDup(affected)
    requires forall x :: x in affected ==> x in users && users[x].accountAddress == x
    ensures forall i :: 0 <= i < |affected| ==>
              VolumeStep(users, affected, buyer, price)[affected[i]] ==
                Credit(users[affected[i]], price, IsFirstTeam(Records(users, affected), buyer, i))
    ensures forall a :: a in users && a !in affected ==> VolumeStep(users, affected, buyer, price)[a] == users[a]
  {
    var recs := Records(users, affected);
    var out := SponsorsIncome(recs, buyer, price);
    assert Addresses(out) == affected by {
      forall i | 0 <= i < |affected| ensures Addresses(out)[i] == affected[i] {
        assert affected[i] in affected;
      }
    }
    forall i | 0 <= i < |affected|
      ensures VolumeStep(users, affected, buyer, price)[affected[i]] ==
                Credit(users[affected[i]], price, IsFirstTeam(recs, buyer, i))
    {
      SaveAllExact(users, out, i);
      assert out[i].accountAddress == affected[i];
    }
  }

  /** Matching keeps the store sound. */
  lemma MatchingStepSound(ranks: seq<Rank>, users: map<Address, User>, order: seq<Address>, buyer: User, list: seq<Address>)
    requires Sound(users, order)
    requires forall x :: x in list ==> x in users
    ensures MatchingStep(ranks, users, buyer, list).Keys == users.Keys
    ensures Sound(MatchingStep(ranks, users, buyer, list), order)
  {
    var recs := Records(users, list);
    var ms := MatchAll(ranks, buyer, recs);
    var out := Updated(ms);
    forall i | 0 <= i < |out|
      ensures out[i].accountAddress in users && Shape(out[i]) == Shape(users[out[i].accountAddress]) && WithinVolume(out[i])
    {
      assert ms[i] in ms;
      var k :| 0 <= k < |recs| && MatchSponsor(ranks, buyer, recs[k]) == Some(ms[i]);
      var m := ms[i];
      assert recs[k] == users[list[k]];
      assert list[k] in list;
      assert m.updated.accountAddress == recs[k].accountAddress && m.updated.parent == recs[k].parent;
      assert m.updated.referredBy == recs[k].referredBy && m.updated.parents == recs[k].parents;
      assert m.updated.sponsorTree == recs[k].sponsorTree && m.updated.treeDepth == recs[k].treeDepth;
    }
    SaveAllSound(users, order, out);
  }

  /** Matching rewrites only the listed ancestors. */
  lemma MatchingStepElsewhere(ranks: seq<Rank>, users: map<Address, User>, buyer: User, list: seq<Address>, a: Address)
    requires forall x :: x in list ==> x in users && users[x].accountAddress == x
    requires a in users && a !in list
    ensures MatchingStep(ranks, users, buyer, list)[a] == users[a]
  {
    var recs := Records(users, list);
    var ms := MatchAll(ranks, buyer, recs);
    var out := Updated(ms);
    forall i | 0 <= i < |out| ensures Addresses(out)[i] != a {
      assert ms[i] in ms;
      var k :| 0 <= k < |recs| && MatchSponsor(ranks, buyer, recs[k]) == Some(ms[i]);
      assert recs[k] == users[list[k]] && list[k] in list;
      assert ms[i].updated.accountAddress == list[k];
    }
  }

  /** The direct bonus keeps the store sound. */
  lemma DirectStepSound(ranks: seq<Rank>, users: map<Address, User>, order: seq<Address>, buyer: User, price: real)
    requires Sound(users, order)
    ensures DirectStep(ranks, users, buyer, price).Keys == users.Keys
    ensures Sound(DirectStep(ranks, users, buyer, price), order)
  {
    match DirectBonus(ranks, SponsorOf(users, buyer), price) {
      case None =>
      case Some(amount) =>
        var s := buyer.referredBy.value;
        var credited := CreditDirect(users[s], amount);
        UpdateOneSound(users, order, s, Claim(credited, amount, true));
    }
  }

  /** What the bonus steps of a purchase produce: the accounts afterwards, the business rows and the
      ledger rows. */
  datatype Effect = Effect(users: map<Address, User>, business: seq<BusinessEntry>, rows: seq<BonusEntry>)

  /** The steps of a non-legacy purchase once it is recorded, from the individual income through
      matching. `buyer` is the buyer's record as loaded before the purchase. */
  function Steps(ranks: seq<Rank>, order: seq<Address>, users: map<Address, User>, buyer: User,
                    bought: nat, price: real): (e: Effect)
    requires Sound(users, order) && buyer.accountAddress in users && price >= 0.0
    ensures e.users.Keys == users.Keys
  {
    var a := buyer.accountAddress;
    var u1 := IndividualStep(users, a, price);
    assert Shape(u1[a]) == Shape(users[a]) by {
      assert u1[a].(individualIncome := users[a].individualIncome) == users[a];
    }
    UpdateOneSound(users, order, a, u1[a]);
    assert u1.Keys == users.Keys;
    AffectedSpec(u1, buyer);
    var affected := Affected(u1, buyer);
    VolumeStepSound(u1, order, affected, buyer, price);
    var u2 := VolumeStep(u1, affected, buyer, price);
    DirectStepSound(ranks, u2, order, buyer, price);
    var u3 := DirectStep(ranks, u2, buyer, price);
    var list := TableOrder(order, affected);
    MatchingStepSound(ranks, u3, order, buyer, list);
    assert MatchingStep(ranks, u3, buyer, list).Keys == users.Keys;
    Effect(MatchingStep(ranks, u3, buyer, list),
           BusinessEntries(Records(u1, affected), buyer, price),
           DirectRows(ranks, u2, buyer, bought, price) + MatchingRows(ranks, u3, buyer, list, bought))
  }

  /** The accounts once the purchase of `pack` by `a` is recorded. */
  function Recorded(users: map<Address, User>, a: Address, pack: Pack): (r: map<Address, User>)
    requires a in users
    ensures r.Keys == users.Keys && r[a] == AfterRecording(users[a], pack)
    ensures forall x :: x in users && x != a ==> r[x] == users[x]
  {
    users[a := AfterRecording(users[a], pack)]
  }

  lemma RecordedSound(users: map<Address, User>, order: seq<Address>, a: Address, pack: Pack)
    requires Sound(users, order) && a in users
    ensures Sound(Recorded(users, a, pack), order)
  {
    var u := AfterRecording(users[a], pack);
    assert Shape(u) == Shape(users[a]) && WithinVolume(u) by {
      assert u.(lastBoughtPack := users[a].lastBoughtPack, lastBoughtPackPrice := users[a].lastBoughtPackPrice) == users[a];
    }
    UpdateOneSound(users, order, a, u);
  }

  /** A whole non-legacy purchase of `pack` by `a` as it bears on the accounts and the two ledgers,
      `bought` being the purchase row: recorded, then the bonus steps on the buyer's prior record. */
  function Purchase(ranks: seq<Rank>, order: seq<Address>, users: map<Address, User>, a: Address, pack: Pack, bought: nat): (e: Effect)
    requires Sound(users, order) && a in users && pack.price >= 0.0
    ensures e.users.Keys == users.Keys
  {
    RecordedSound(users, order, a, pack);
    Steps(ranks, order, Recorded(users, a, pack), users[a], bought, pack.price)
  }

  lemma PurchaseIsSteps(ranks: seq<Rank>, order: seq<Address>, users: map<Address, User>, a: Address, pack: Pack, bought: nat)
    requires Sound(users, order) && a in users && pack.price >= 0.0
    ensures Sound(Recorded(users, a, pack), order)
    ensures Purchase(ranks, order, users, a, pack, bought) == Steps(ranks, order, Recorded(users, a, pack), users[a], bought, pack.price)
  {
    RecordedSound(users, order, a, pack);
  }

  /** A purchase touches the buyer's own record only through the recording and the individual income:
      the buyer is never its own ancestor, referrer or matched ancestor. */
  lemma PurchaseBuyerRecord(ranks: seq<Rank>, order: seq<Address>, users: map<Address, User>, a: Address, pack: Pack, bought: nat)
    requires Sound(users, order) && a in users && pack.price >= 0.0
    ensures Purchase(ranks, order, users, a, pack, bought).users[a] ==
              IndividualIncome(AfterRecording(users[a], pack), pack.price)
  {
    var buyer, price := users[a], pack.price;
    NotOwnAncestor(users, order, a, Placement);
    NotOwnAncestor(users, order, a, Referral);
    if buyer.referredBy.Some? {
      LinkIsAncestor(users, order, a, Referral);
    }
    assert buyer.referredBy.Some? ==> buyer.referredBy.value != a;
    RecordedSound(users, order, a, pack);
    var u0 := Recorded(users, a, pack);
    var u1 := IndividualStep(u0, a, price);
    assert Shape(u1[a]) == Shape(u0[a]) by {
      assert u1[a].(individualIncome := u0[a].individualIncome) == u0[a];
    }
    UpdateOneSound(u0, order, a, u1[a]);
    AffectedSpec(u1, buyer);
    var affected := Affected(u1, buyer);
    assert a !in affected;
    VolumeStepEffect(u1, affected, buyer, price);
    VolumeStepSound(u1, order, affected, buyer, price);
    var u2 := VolumeStep(u1, affected, buyer, price);
    assert u2[a] == u1[a];
    DirectStepSound(ranks, u2, order, buyer, price);
    DirectStepElsewhere(ranks, u2, buyer, price, a);
    var u3 := DirectStep(ranks, u2, buyer, price);
    var list := TableOrder(order, affected);
    MatchingStepElsewhere(ranks, u3, buyer, list, a);
    assert Purchase(ranks, order, users, a, pack, bought) == Steps(ranks, order, u0, buyer, bought, price);
  }

  /** One more row of the corrected job, as the job performs it on the accounts `us` and rows `rows`
      it holds after `k` rows. */
  lemma RunStep(users: map<Address, User>, es: seq<BonusEntry>, k: nat, us: map<Address, User>, rows: seq<BonusEntry>)
    requires k < |es| && us == Run(users, es, k).0 && rows == Run(users, es, k).1
    ensures rows[k] == es[k]
    ensures Run(users, es, k + 1).0 ==
              (if Pending(rows[k], Lookup(us, rows[k].user))
               then us[rows[k].user := Pay(us[rows[k].user], Settle(rows[k], Lookup(us, rows[k].user)).credit)]
               else us)
    ensures Run(users, es, k + 1).1 == rows[k := Settle(rows[k], Lookup(us, rows[k].user)).entry]
  {
  }

  /** The descendant walk from the account at position `i`: its children along `e` in table order,
      then each child's own descendants in turn. The children listed are those registered after it,
      which under the tree invariant are all of them (Tree.ChildrenAfter). */
  method WalkFrom(users: map<Address, User>, order: seq<Address>, i: nat, e: Edge) returns (partners: seq<Address>)
    requires i < |order|
    ensures partners == Descendants(users, order, i, e)
    decreases |order| - i, 1
  {
    var cs := ChildPositions(users, order, order[i], e, i + 1);
    var below := WalkChildren(users, order, cs, i, e);
    partners := At(order, cs) + below;
  }

  /** The loop over the children at positions `cs`, each walked in turn. */
  method WalkChildren(users: map<Address, User>, order: seq<Address>, cs: seq<nat>, i: nat, e: Edge) returns (partners: seq<Address>)
    requires forall m :: 0 <= m < |cs| ==> i < cs[m] < |order|
    ensures partners == DescendantsOfAll(users, order, cs, i, e)
    decreases |order| - i, 0
  {
    partners := [];
    var k := 0;
    assert cs[..0] == [];
    while k < |cs|
      invariant 0 <= k <= |cs|
      invariant partners == DescendantsOfAll(users, order, cs[..k], i, e)
    {
      var data := WalkFrom(users, order, cs[k], e);
      DescendantsOfAllPrefix(users, order, cs, i, e, k);
      partners := partners + data;
      k := k + 1;
    }
    assert cs[..k] == cs;
  }

  /** getChildPartnersUsers, in either service: every account below `a` along `e`. */
  method ChildPartners(users: map<Address, User>, order: seq<Address>, a: Address, e: Edge) returns (partners: seq<Address>)
    requires WellFormed(users, order) && a in order
    ensures partners == Descendants(users, order, Pos(order, a), e)
    ensures forall x :: x in partners <==> x in users && a in Ancestors(users[x], e)
  {
    partners := WalkFrom(users, order, Pos(order, a), e);
    DescendantsExactly(users, order, Pos(order, a), e);
  }

  /** The recount: for every account in table order, its affected list walked as a purchase would. */
  method TeamCounts(users: map<Address, User>, order: seq<Address>) returns (data: map<Address, Counts>)
    requires forall x :: x in order ==> x in users
    ensures data == Tally(users, order, |order|)
    ensures CountsMatch(data, Seen(users, order, |order|))
    ensures forall x :: x in data ==> data[x].teamACount + data[x].teamBCount == Sightings(Seen(users, order, |order|), x) + 1
  {
    data := map[];
    var n := 0;
    while n < |order|
      invariant 0 <= n <= |order|
      invariant data == Tally(users, order, n)
    {
      var list := ListOf(users, order, n);
      data := TallyAccount(users, data, list, users[order[n]]);
      TallyNext(users, order, n);
      n := n + 1;
    }
    TallyCounts(users, order, |order|);
    CountsSum(data, Seen(users, order, |order|));
  }

  /** The recount's inner loop over one account's affected list. */
  method TallyAccount(users: map<Address, User>, data0: map<Address, Counts>, list: seq<Address>, buyer: User)
    returns (data: map<Address, Counts>)
    requires forall x :: x in list ==> x in users
    ensures data == TallyList(users, data0, list, buyer, |list|)
  {
    data := data0;
    var k := 0;
    while k < |list|
      invariant 0 <= k <= |list|
      invariant data == TallyList(users, data0, list, buyer, k)
    {
      var x := list[k];
      var next := if k + 1 < |list| then users[list[k + 1]].node else buyer.node;
      if x in data {
        if next == 0 {
          data := data[x := data[x].(teamACount := data[x].teamACount + 1)];
        } else {
          data := data[x := data[x].(teamBCount := data[x].teamBCount + 1)];
        }
      } else {
        data := data[x := Counts(1, 1)];
      }
      k := k + 1;
    }
  }

  /** The job's loop over its first `stop` rows, on the accounts and rows it loaded. */
  method RunRows(users: map<Address, User>, rows: seq<BonusEntry>, stop: nat) returns (us: map<Address, User>, es: seq<BonusEntry>)
    requires stop <= |rows|
    ensures us == Run(users, rows, stop).0 && es == Run(users, rows, stop).1
  {
    us, es := users, rows;
    var i := 0;
    while i < stop
      invariant 0 <= i <= stop
      invariant us == Run(users, rows, i).0 && es == Run(users, rows, i).1
    {
      RunStep(users, rows, i, us, es);
      var e := es[i];
      var u := Lookup(us, e.user);
      var s := Settle(e, u);
      if Pending(e, u) {
        us := us[e.user := Pay(us[e.user], s.credit)];
      }
      es := es[i := s.entry];
      i := i + 1;
    }
  }

  /** The reconciliation changes only balances, so it keeps the store sound. */
  lemma RunSound(users: map<Address, User>, order: seq<Address>, es: seq<BonusEntry>, k: nat)
    requires Sound(users, order) && k <= |es|
    ensures Sound(Run(users, es, k).0, order)
  {
    var r := Run(users, es, k).0;
    forall a | a in users ensures Shape(r[a]) == Shape(users[a]) && WithinVolume(r[a]) {
      assert r[a] == Pay(users[a], CreditSum(users, es, k, a));
    }
    WellFormedSameShape(users, r, order);
  }

  // ---------------------------------------------------------------------------
  // The store

  /** Whether a purchase must be paid from the wallet and the wallet holds too little
      (no balance known for the account does not reject). */
  predicate BalanceShort(wallet: map<Address, real>, a: Address, price: real, legacy: bool, withNft: bool, withBonus: bool)
  {
    !legacy && !withNft && !withBonus && a in wallet && wallet[a] < price
  }

  /** The wallet after the purchase price is deducted. */
  function Debit(wallet: map<Address, real>, a: Address, price: real): map<Address, real>
  {
    if a in wallet then wallet[a := wallet[a] - price] else wallet
  }

  /** The buyer's record once the purchase is recorded: last pack id and price follow the pack, unless
      the same pack was already the last one. */
  function AfterRecording(u: User, pack: Pack): (r: User)
    ensures r.lastBoughtPack == pack.id
    ensures r.lastBoughtPackPrice == (if u.lastBoughtPack != pack.id then pack.price else u.lastBoughtPackPrice)
    ensures r.(lastBoughtPack := u.lastBoughtPack, lastBoughtPackPrice := u.lastBoughtPackPrice) == u
  {
    if u.lastBoughtPack != pack.id then u.(lastBoughtPack := pack.id, lastBoughtPackPrice := pack.price) else u
  }

  /** The referrer once register counts one more direct partner. */
  function AddPartner(u: User): (r: User)
    ensures r.directPartner == u.directPartner + 1
    ensures r.(directPartner := u.directPartner) == u
  {
    u.(directPartner := u.directPartner + 1)
  }

  /** The ledger after the direct rows and then the matching rows is the ledger plus both batches. */
  lemma AppendAssoc<T>(a: seq<T>, b: seq<T>, c: seq<T>)
    ensures a + b + c == a + (b + c)
  {
  }

  class Store {
    var users: map<Address, User>
    var order: seq<Address>          // addresses in registration (table) order
    var ranks: seq<Rank>             // the rank table, in table order
    var packs: map<int, Pack>
    var wallet: map<Address, real>   // the wallet service's balances
    var purchases: seq<PackBought>
    var business: seq<BusinessEntry>
    var bonuses: seq<BonusEntry>

    ghost predicate Valid()
      reads this
    {
      && Sound(users, order)
      && (forall id :: id in packs ==> packs[id].id == id && packs[id].price >= 0.0)
      && (forall i :: 0 <= i < |purchases| ==> purchases[i].packPrice >= 0.0)
    }

    /** A store holding one root account. */
    constructor (root: User, ranks: seq<Rank>, packs: map<int, Pack>, wallet: map<Address, real>)
      requires root.parent == None && root.referredBy == None && root.parents == [] && root.sponsorTree == []
      requires root.treeDepth == 0 && WithinVolume(root)
      requires forall id :: id in packs ==> packs[id].id == id && packs[id].price >= 0.0
      ensures Valid()
      ensures users == map[root.accountAddress := root] && order == [root.accountAddress]
      ensures this.ranks == ranks && this.packs == packs && this.wallet == wallet
      ensures purchases == [] && business == [] && bonuses == []
    {
      users := map[root.accountAddress := root];
      order := [root.accountAddress];
      this.ranks := ranks;
      this.packs := packs;
      this.wallet := wallet;
      purchases := [];
      business := [];
      bonuses := [];
      new;
      assert LinkedAt(users, order, 0, Placement) && LinkedAt(users, order, 0, Referral);
    }

    /** register: a new account under `parent`, referred by `referrer`. `address` is the account the
        wallet service created; `c1` and `c2` are the generated referral codes. */
    method Register(parent: Address, referrer: Option<Address>, address: Address, code: string, team: string,
                    c1: string, c2: string) returns (r: Result<()>)
      requires Valid() && address !in users
      modifies this
      ensures Valid()
      ensures ranks == old(ranks) && packs == old(packs) && wallet == old(wallet)
      ensures purchases == old(purchases) && business == old(business) && bonuses == old(bonuses)
      ensures r.Err? <==> parent !in old(users) || referrer.None? || referrer.value !in old(users)
      ensures r.Err? ==> r.error == ParentOrReferrerNotFound && users == old(users) && order == old(order)
      ensures r.Ok? ==>
                var s := referrer.value;
                var u := NewAccount(old(users)[parent], old(users)[s], address, code, team, c1, c2);
                && order == old(order) + [address]
                && users == old(users)[address := u][s := AddPartner(old(users)[s])]
    {
      if parent !in users || referrer.None? || referrer.value !in users {
        return Err(ParentOrReferrerNotFound);
      }
      var s := referrer.value;
      var referredBy := users[s];
      var u := NewAccount(users[parent], referredBy, address, code, team, c1, c2);
      WellFormedRegister(users, order, u, parent, s, code, team, c1, c2);
      users := users[address := u];
      order := order + [address];
      assert Sound(users, order);
      UpdateOneSound(users, order, s, AddPartner(referredBy));
      users := users[s := AddPartner(referredBy)];
      return Ok(());
    }

    /** updateUserIndividualIncome. */
    method UpdateUserIndividualIncome(a: Address, bought: nat)
      requires Valid() && a in users && bought < |purchases|
      modifies this
      ensures Valid()
      ensures users == IndividualStep(old(users), a, old(purchases)[bought].packPrice)
      ensures unchanged(this`order, this`ranks, this`packs, this`wallet, this`purchases, this`business, this`bonuses)
    {
      var price := purchases[bought].packPrice;
      UpdateOneSound(users, order, a, IndividualIncome(users[a], price));
      users := users[a := IndividualIncome(users[a], price)];
    }

    /** updateSponsorsIncome: the affected ancestors `sponsors` (as the purchase lists them) credited,
        and one business row each. */
    method UpdateSponsorsIncome(sponsors: seq<Address>, buyer: User, bought: nat)
      requires Valid() && bought < |purchases| && forall x :: x in sponsors ==> x in users
      modifies this
      ensures Valid()
      ensures users == VolumeStep(old(users), sponsors, buyer, old(purchases)[bought].packPrice)
      ensures business == old(business) + BusinessEntries(Records(old(users), sponsors), buyer, old(purchases)[bought].packPrice)
      ensures unchanged(this`order, this`ranks, this`packs, this`wallet, this`purchases, this`bonuses)
    {
      var price := purchases[bought].packPrice;
      var records := Records(users, sponsors);
      VolumeStepSound(users, order, sponsors, buyer, price);
      business := business + BusinessEntries(records, buyer, price);
      users := SaveAll(users, SponsorsIncome(records, buyer, price));
    }

    /** makeEntryInBonus: appends a ledger row for `beneficiary` and, when it may be claimed, credits its
        withdrawable balance. */
    method MakeEntryInBonus(amount: real, from: Address, kind: BonusType, beneficiary: Address, bought: nat,
                            percentage: real, canClaim: bool)
      requires Valid() && beneficiary in users
      modifies this
      ensures Valid()
      ensures bonuses == old(bonuses) + [BonusRow(amount, from, kind, old(users)[beneficiary], bought, percentage, canClaim)]
      ensures users == old(users)[beneficiary := Claim(old(users)[beneficiary], amount, canClaim)]
      ensures unchanged(this`order, this`ranks, this`packs, this`wallet, this`purchases, this`business)
    {
      var u := users[beneficiary];
      bonuses := bonuses + [BonusRow(amount, from, kind, u, bought, percentage, canClaim)];
      if canClaim {
        UpdateOneSound(users, order, beneficiary, Claim(u, amount, canClaim));
        users := users[beneficiary := Claim(u, amount, canClaim)];
      }
    }

    /** updateDirectSponsorBonus for the buyer's referrer. */
    method UpdateDirectSponsorBonus(buyer: User, bought: nat)
      requires Valid() && bought < |purchases|
      modifies this
      ensures Valid()
      ensures users == DirectStep(ranks, old(users), buyer, old(purchases)[bought].packPrice)
      ensures bonuses == old(bonuses) + DirectRows(ranks, old(users), buyer, bought, old(purchases)[bought].packPrice)
      ensures unchanged(this`order, this`ranks, this`packs, this`wallet, this`purchases, this`business)
    {
      var price := purchases[bought].packPrice;
      var sponsor := SponsorOf(users, buyer);
      ghost var u0 := users;
      match DirectBonus(ranks, sponsor, price) {
        case None =>
          assert users == DirectStep(ranks, u0, buyer, price);
        case Some(amount) =>
          DirectStepPays(ranks, users, buyer, bought, price, amount);
          var s := buyer.referredBy.value;
          var credited := CreditDirect(users[s], amount);
          UpdateOneSound(users, order, s, credited);
          users := users[s := credited];
          MakeEntryInBonus(amount, buyer.accountAddress, Direct, s, bought, DirectPct(ranks, credited.profile), true);
      }
    }

    /** updateTeamMatchingSponsorBonus over the records of `sponsors`, read afresh. */
    method UpdateTeamMatchingSponsorBonus(buyer: User, sponsors: seq<Address>, bought: nat)
      requires Valid() && forall x :: x in sponsors ==> x in users
      modifies this
      ensures Valid()
      ensures users == MatchingStep(ranks, old(users), buyer, sponsors)
      ensures bonuses == old(bonuses) + MatchingRows(ranks, old(users), buyer, sponsors, bought)
      ensures unchanged(this`order, this`ranks, this`packs, this`wallet, this`purchases, this`business)
    {
      var records := Records(users, sponsors);
      var ms := MatchAll(ranks, buyer, records);
      MatchingStepSound(ranks, users, order, buyer, sponsors);
      bonuses := bonuses + (TeamEntries(buyer, bought, ms) + OverrideEntries(buyer, bought, ms));
      users := SaveAll(users, Updated(ms));
    }
  
    /** buyPack: the guards, the purchase record, the last-pack update and, unless the purchase is a
        legacy import, the wallet debit and the bonus steps in order. The rank step of the source
        returns at once and changes nothing. */
    method BuyPack(a: Address, packId: int, legacy: bool, withNft: bool, withBonus: bool) returns (r: Result<()>)
      requires Valid()
      modifies this
      ensures Valid()
      ensures order == old(order) && ranks == old(ranks) && packs == old(packs)
      ensures r == Err(UserNotFound) <==> a !in old(users)
      ensures r == Err(PackNotFound) <==> a in old(users) && packId !in packs
      ensures a in old(users) && packId in packs ==>
                (r == Err(InsufficientBalance) <==> BalanceShort(old(wallet), a, packs[packId].price, legacy, withNft, withBonus))
      ensures a in old(users) && packId in packs ==>
                (r == Err(SmallerPack) <==>
                   !BalanceShort(old(wallet), a, packs[packId].price, legacy, withNft, withBonus) &&
                   !legacy && old(users)[a].lastBoughtPack > packId)
      ensures r.Ok? <==> a in old(users) && packId in packs &&
                         !BalanceShort(old(wallet), a, packs[packId].price, legacy, withNft, withBonus) &&
                         (legacy || old(users)[a].lastBoughtPack <= packId)
      ensures r.Err? ==> users == old(users) && wallet == old(wallet) && purchases == old(purchases) &&
                         business == old(business) && bonuses == old(bonuses)
      ensures r.Ok? ==>
                var pack := packs[packId];
                && a in old(users) && packId in packs
                && purchases == old(purchases) + [PackBought(a, packId, pack.price, if legacy || withBonus then NftDistributed else Paid)]
                && (legacy ==> users == Recorded(old(users), a, pack) && wallet == old(wallet) &&
                               business == old(business) && bonuses == old(bonuses))
                && (!legacy ==>
                      var e := Purchase(old(ranks), old(order), old(users), a, pack, |old(purchases)|);
                      && wallet == (if withBonus then old(wallet) else Debit(old(wallet), a, pack.price))
                      && users == e.users && business == old(business) + e.business && bonuses == old(bonuses) + e.rows)
    {
      if a !in users { return Err(UserNotFound); }
      if packId !in packs { return Err(PackNotFound); }
      var user := users[a];
      var pack := packs[packId];
      if BalanceShort(wallet, a, pack.price, legacy, withNft, withBonus) { return Err(InsufficientBalance); }
      if !legacy && user.lastBoughtPack > pack.id { return Err(SmallerPack); }
      assert pack.id == packId && pack.price >= 0.0;
      if legacy {
        RecordPurchase(a, pack, NftDistributed);
      } else {
        PaidPurchase(a, packId, withBonus);
      }
      return Ok(());
    }

    /** buyPack past its guards, for a purchase that is not a legacy import: the purchase record, the
        last-pack update, the wallet debit unless bought with bonus, then the bonus steps on the
        buyer's record as loaded before. */
    method PaidPurchase(a: Address, packId: int, withBonus: bool)
      requires Valid() && a in users && packId in packs
      modifies this
      ensures Valid()
      ensures unchanged(this`order, this`ranks, this`packs)
      ensures var pack := packs[packId];
              && purchases == old(purchases) + [PackBought(a, packId, pack.price, if withBonus then NftDistributed else Paid)]
              && wallet == (if withBonus then old(wallet) else Debit(old(wallet), a, pack.price))
              && var e := Purchase(old(ranks), old(order), old(users), a, pack, |old(purchases)|);
                 users == e.users && business == old(business) + e.business && bonuses == old(bonuses) + e.rows
    {
      var user := users[a];
      var pack := packs[packId];
      assert pack.id == packId && pack.price >= 0.0;
      ghost var u0 := users;
      var n0 := |purchases|;
      ghost var w0, p0 := wallet, purchases;
      RecordPurchase(a, pack, if withBonus then NftDistributed else Paid);
      if !withBonus { wallet := Debit(wallet, a, pack.price); }
      assert wallet == (if withBonus then w0 else Debit(w0, a, pack.price));
      assert purchases == p0 + [PackBought(a, packId, pack.price, if withBonus then NftDistributed else Paid)];
      BonusSteps(u0, a, user, pack, n0);
    }

    /** The purchase row appended and the buyer's last pack updated. */
    method RecordPurchase(a: Address, pack: Pack, status: PackStatus)
      requires Valid() && a in users && pack.price >= 0.0
      modifies this
      ensures Valid()
      ensures purchases == old(purchases) + [PackBought(a, pack.id, pack.price, status)]
      ensures users == Recorded(old(users), a, pack)
      ensures unchanged(this`order, this`ranks, this`packs, this`wallet, this`business, this`bonuses)
    {
      var user := users[a];
      RecordedSound(users, order, a, pack);
      purchases := purchases + [PackBought(a, pack.id, pack.price, status)];
      if user.lastBoughtPack != pack.id {
        users := Recorded(users, a, pack);
      } else {
        assert users == Recorded(users, a, pack);
      }
    }

    /** The bonus steps of buyPack in their order, once the purchase of `pack` by `a` is recorded as
        row `bought` over the accounts `before`; `buyer` is the buyer's record as loaded then. */
    method BonusSteps(ghost before: map<Address, User>, a: Address, buyer: User, pack: Pack, bought: nat)
      requires Valid() && Sound(before, order) && a in before && buyer == before[a]
      requires users == Recorded(before, a, pack)
      requires bought < |purchases| && purchases[bought].packPrice == pack.price && pack.price >= 0.0
      modifies this
      ensures Valid()
      ensures var e := Purchase(old(ranks), old(order), before, a, pack, bought);
              users == e.users && business == old(business) + e.business && bonuses == old(bonuses) + e.rows
      ensures unchanged(this`order, this`ranks, this`packs, this`wallet, this`purchases)
    {
      assert buyer.accountAddress == a;
      PurchaseIsSteps(ranks, order, before, a, pack, bought);
      var affected := VolumeSteps(buyer, bought);
      RewardSteps(buyer, bought, affected);
    }

    /** Steps 1 and 2: the buyer's individual income, then the volume of the affected ancestors,
        by ascending depth. */
    method VolumeSteps(buyer: User, bought: nat) returns (affected: seq<Address>)
      requires Valid() && buyer.accountAddress in users && bought < |purchases|
      modifies this
      ensures Valid()
      ensures var u1 := IndividualStep(old(users), buyer.accountAddress, old(purchases)[bought].packPrice);
              && affected == Affected(u1, buyer)
              && (forall x :: x in affected ==> x in u1)
              && users == VolumeStep(u1, affected, buyer, old(purchases)[bought].packPrice)
              && business == old(business) + BusinessEntries(Records(u1, affected), buyer, old(purchases)[bought].packPrice)
      ensures unchanged(this`order, this`ranks, this`packs, this`wallet, this`purchases, this`bonuses)
    {
      UpdateUserIndividualIncome(buyer.accountAddress, bought);
      AffectedSpec(users, buyer);
      affected := Affected(users, buyer);
      UpdateSponsorsIncome(affected, buyer, bought);
    }

    /** Steps 3 and 4: the direct sponsor bonus for the referrer, then matching over `affected`
        read again in table order. */
    method RewardSteps(buyer: User, bought: nat, affected: seq<Address>)
      requires Valid() && bought < |purchases| && forall x :: x in affected ==> x in users
      modifies this
      ensures Valid()
      ensures var price := old(purchases)[bought].packPrice;
              var u3 := DirectStep(old(ranks), old(users), buyer, price);
              var list := TableOrder(old(order), affected);
              && users == MatchingStep(old(ranks), u3, buyer, list)
              && bonuses == old(bonuses) + (DirectRows(old(ranks), old(users), buyer, bought, price) +
                                            MatchingRows(old(ranks), u3, buyer, list, bought))
      ensures unchanged(this`order, this`ranks, this`packs, this`wallet, this`purchases, this`business)
    {
      ghost var bonuses0 := bonuses;
      ghost var direct := DirectRows(ranks, users, buyer, bought, purchases[bought].packPrice);
      DirectStepSound(ranks, users, order, buyer, purchases[bought].packPrice);
      UpdateDirectSponsorBonus(buyer, bought);
      var reread := TableOrder(order, affected);
      assert forall x :: x in reread ==> x in users;
      ghost var matching := MatchingRows(ranks, users, buyer, reread, bought);
      UpdateTeamMatchingSponsorBonus(buyer, reread, bought);
      AppendAssoc(bonuses0, direct, matching);
    }

    /** cronForBinaryIncomeUpdate. The run stops before row `failAt` when a storage call fails there
        (the source's single try/catch); rows from `failAt` on are left as they were. */
    method CronForBinaryIncomeUpdate(failAt: nat)
      requires Valid()
      modifies this
      ensures Valid()
      ensures var k := if failAt < |old(bonuses)| then failAt else |old(bonuses)|;
              users == Run(old(users), old(bonuses), k).0 && bonuses == Run(old(users), old(bonuses), k).1
      ensures unchanged(this`order, this`ranks, this`packs, this`wallet, this`purchases, this`business)
    {
      var stop := if failAt < |bonuses| then failAt else |bonuses|;
      var us, es := RunRows(users, bonuses, stop);
      RunSound(users, order, bonuses, stop);
      users, bonuses := us, es;
    }

    /** getChildPartnersUsers (both services): every account below `a` along `e`. */
    method GetChildPartnersUsers(a: Address, e: Edge) returns (partners: seq<Address>)
      requires Valid() && a in order
      ensures partners == Descendants(users, order, Pos(order, a), e)
      ensures forall x :: x in partners <==> x in users && a in Ancestors(users[x], e)
    {
      partners := ChildPartners(users, order, a, e);
    }

    /** updateUserTeamAAndBCount: the per-ancestor leg tally over every account. */
    method UpdateUserTeamAAndBCount() returns (data: map<Address, Counts>)
      requires Valid()
      ensures data == Tally(users, order, |order|)
      ensures CountsMatch(data, Seen(users, order, |order|))
      ensures forall x :: x in data ==> data[x].teamACount + data[x].teamBCount == Sightings(Seen(users, order, |order|), x) + 1
    {
      data := TeamCounts(users, order);
    }
  }
}
