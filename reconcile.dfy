/** The daily reconciliation of held matching bonuses (bonus.service.ts, cronForBinaryIncomeUpdate).
    A `team` row is capped at the beneficiary's last pack price (the excess is "flushed"), held unless
    both of the beneficiary's legs have a purchase, credited when released, and marked claimable either
    way; a `teamDirect` row is credited in full. The functions without a suffix are the corrected
    behaviour; the `AsWritten` ones keep two defects of the source (see README). */
module Reconcile {
  import opened Entities

  /** The outcome of one row: its new value and what is added to the beneficiary's balance. */
  datatype Settlement = Settlement(entry: BonusEntry, credit: real)

  /** A row the job processes: unclaimed, of a matching kind, for an account that has bought a pack. */
  predicate Pending(e: BonusEntry, u: Option<User>)
  {
    !e.canClaim && u.Some? && u.value.lastBoughtPack != 0 && (e.bonusType == Team || e.bonusType == TeamDirect)
  }

  /** A team row is held unless both legs of the beneficiary have a purchase. */
  predicate Held(u: User)
  {
    !(u.teamACount >= 1 && u.teamBCount >= 1)
  }

  /** The team row capped at the last pack price, with its hold flag set and marked claimable. */
  function CappedTeamRow(e: BonusEntry, u: User): (r: BonusEntry)
    ensures r.canClaim && r.onHold == Some(Held(u))
    ensures e.amount > u.lastBoughtPackPrice ==>
              r.amount == u.lastBoughtPackPrice && r.flushAmount == e.amount - u.lastBoughtPackPrice
    ensures e.amount <= u.lastBoughtPackPrice ==> r.amount == e.amount && r.flushAmount == e.flushAmount
    ensures r.amount <= e.amount && r.amount <= u.lastBoughtPackPrice
    ensures r.(amount := e.amount, flushAmount := e.flushAmount, onHold := e.onHold, canClaim := e.canClaim) == e
  {
    var flush := e.amount - u.lastBoughtPackPrice;
    var capped := if flush > 0.0 then e.(flushAmount := flush, amount := e.amount - flush) else e;
    capped.(onHold := Some(Held(u)), canClaim := true)
  }

  /** Corrected: a released team row pays its capped amount when that amount is positive. */
  function SettleTeam(e: BonusEntry, u: User): (s: Settlement)
    ensures s.entry == CappedTeamRow(e, u)
    ensures s.credit == (if !Held(u) && s.entry.amount > 0.0 then s.entry.amount else 0.0)
    ensures s.credit >= 0.0
    ensures s.credit > 0.0 ==> s.credit <= e.amount && s.credit <= u.lastBoughtPackPrice
  {
    var row := CappedTeamRow(e, u);
    Settlement(row, if !Held(u) && row.amount > 0.0 then row.amount else 0.0)
  }

  /** As written: the credit reads the row's `amount` key, which is only set when something was flushed. */
  function SettleTeamAsWritten(e: BonusEntry, u: User): (s: Settlement)
    ensures s.entry == CappedTeamRow(e, u)
    ensures s.credit > 0.0 <==> !Held(u) && e.amount > u.lastBoughtPackPrice && u.lastBoughtPackPrice > 0.0
    ensures s.credit > 0.0 ==> s.credit == u.lastBoughtPackPrice
  {
    var flush := e.amount - u.lastBoughtPackPrice;
    var setAmount := if flush > 0.0 then Some(e.amount - flush) else None;
    var credit := if !Held(u) && setAmount.Some? && setAmount.value > 0.0 then setAmount.value else 0.0;
    Settlement(CappedTeamRow(e, u), credit)
  }

  /** A teamDirect row pays its whole amount and becomes claimable. */
  function SettleTeamDirect(e: BonusEntry): (s: Settlement)
    ensures s.entry == e.(canClaim := true) && s.credit == e.amount
  {
    Settlement(e.(canClaim := true), e.amount)
  }

  function Lookup(users: map<Address, User>, a: Address): Option<User>
  {
    if a in users then Some(users[a]) else None
  }

  /** One row, corrected. Rows the job does not process are left as they are and pay nothing. */
  function Settle(e: BonusEntry, u: Option<User>): (s: Settlement)
    ensures !Pending(e, u) ==> s == Settlement(e, 0.0)
    ensures Pending(e, u) ==> s.entry.canClaim
    ensures Pending(e, u) && e.bonusType == Team ==> s == SettleTeam(e, u.value)
    ensures Pending(e, u) && e.bonusType == TeamDirect ==> s == SettleTeamDirect(e)
  {
    if !Pending(e, u) then Settlement(e, 0.0)
    else if e.bonusType == Team then SettleTeam(e, u.value)
    else SettleTeamDirect(e)
  }

  /** One row, as written. */
  function SettleAsWritten(e: BonusEntry, u: Option<User>): Settlement
  {
    if !Pending(e, u) then Settlement(e, 0.0)
    else if e.bonusType == Team then SettleTeamAsWritten(e, u.value)
    else SettleTeamDirect(e)
  }

  /** `u` with `amount` added to its withdrawable balance. */
  function Pay(u: User, amount: real): User
  {
    u.(totalWithdrawableAmount := u.totalWithdrawableAmount + amount)
  }

  /** What row `e` pays, judged against the accounts before the run (the job changes only balances,
      which a settlement does not read). */
  function CreditOf(users: map<Address, User>, e: BonusEntry): real
  {
    Settle(e, Lookup(users, e.user)).credit
  }

  /** Total paid to `a` by the first `k` rows. */
  function CreditSum(users: map<Address, User>, es: seq<BonusEntry>, k: nat, a: Address): real
    requires k <= |es|
  {
    if k == 0 then 0.0
    else CreditSum(users, es, k - 1, a) + (if es[k - 1].user == a then CreditOf(users, es[k - 1]) else 0.0)
  }

  /** The corrected job after its first `k` rows: each row settled against the account's current record. */
  function Run(users: map<Address, User>, es: seq<BonusEntry>, k: nat): (r: (map<Address, User>, seq<BonusEntry>))
    requires k <= |es|
    ensures r.0.Keys == users.Keys && |r.1| == |es|
    ensures forall a :: a in users ==>
              r.0[a] == Pay(users[a], CreditSum(users, es, k, a))
    ensures forall i :: 0 <= i < k ==> r.1[i] == Settle(es[i], Lookup(users, es[i].user)).entry
    ensures forall i :: k <= i < |es| ==> r.1[i] == es[i]
  {
    if k == 0 then (users, es)
    else
      var prev := Run(users, es, k - 1);
      var e := prev.1[k - 1];
      assert e == es[k - 1];
      RunBalances(users, es, k, prev.0);
      var s := Settle(e, Lookup(prev.0, e.user));
      var us := if Pending(e, Lookup(prev.0, e.user)) then prev.0[e.user := Pay(prev.0[e.user], s.credit)] else prev.0;
      (us, prev.1[k - 1 := s.entry])
  }

  lemma PayTwice(u: User, x: real, y: real)
    ensures Pay(Pay(u, x), y) == Pay(u, x + y)
  {
  }

  /** Row k of the corrected job, on balances that already hold the first k - 1 rows' credits, settles
      as it would on the balances before the run and adds its credit to the beneficiary's sum. */
  lemma RunBalances(users: map<Address, User>, es: seq<BonusEntry>, k: nat, prev: map<Address, User>)
    requires 1 <= k <= |es| && prev.Keys == users.Keys
    requires forall a :: a in users ==> prev[a] == Pay(users[a], CreditSum(users, es, k - 1, a))
    ensures var e := es[k - 1];
            Pending(e, Lookup(prev, e.user)) == Pending(e, Lookup(users, e.user)) &&
            Settle(e, Lookup(prev, e.user)) == Settle(e, Lookup(users, e.user))
    ensures var e := es[k - 1];
            var us := if Pending(e, Lookup(prev, e.user))
                      then prev[e.user := Pay(prev[e.user], Settle(e, Lookup(prev, e.user)).credit)] else prev;
            forall a :: a in users ==> us[a] == Pay(users[a], CreditSum(users, es, k, a))
  {
    var e := es[k - 1];
    var s := Settle(e, Lookup(users, e.user));
    if e.user in users {
      var u := users[e.user];
      assert prev[e.user].(totalWithdrawableAmount := u.totalWithdrawableAmount) == u;
      PayTwice(u, CreditSum(users, es, k - 1, e.user), s.credit);
    }
  }

  /** As written, row `j` writes its account's balance: a processed `teamDirect` row always does, a
      processed team row when it pays something. */
  predicate WritesTo(users: map<Address, User>, es: seq<BonusEntry>, j: nat, a: Address)
    requires j < |es|
  {
    var e := es[j];
    e.user == a && Pending(e, Lookup(users, a)) &&
    (e.bonusType == TeamDirect || SettleAsWritten(e, Lookup(users, a)).credit > 0.0)
  }

  /** Row `j` is the last of the first `k` rows that writes `a`. */
  predicate LastWriter(users: map<Address, User>, es: seq<BonusEntry>, k: nat, a: Address, j: nat)
    requires k <= |es|
  {
    j < k && WritesTo(users, es, j, a) && forall i :: j < i < k ==> !WritesTo(users, es, i, a)
  }

  /** The job as written, after its first `k` rows: each row pays onto the balance loaded with it
      before the run, so an account ends with the balance it had plus the credit of the last row that
      writes it (the last write wins); team rows use SettleAsWritten. */
  function RunAsWritten(users: map<Address, User>, es: seq<BonusEntry>, k: nat): (r: (map<Address, User>, seq<BonusEntry>))
    requires k <= |es|
    ensures r.0.Keys == users.Keys && |r.1| == |es|
    ensures forall a :: a in users && (forall j :: 0 <= j < k ==> !WritesTo(users, es, j, a)) ==> r.0[a] == users[a]
    ensures forall a, j: nat :: a in users && LastWriter(users, es, k, a, j) ==>
              r.0[a] == Pay(users[a], SettleAsWritten(es[j], Lookup(users, a)).credit)
    ensures forall i :: 0 <= i < k ==> r.1[i] == SettleAsWritten(es[i], Lookup(users, es[i].user)).entry
    ensures forall i :: k <= i < |es| ==> r.1[i] == es[i]
  {
    if k == 0 then (users, es)
    else
      var prev := RunAsWritten(users, es, k - 1);
      var e := es[k - 1];
      var s := SettleAsWritten(e, Lookup(users, e.user));
      var us := if WritesTo(users, es, k - 1, e.user) then prev.0[e.user := Pay(users[e.user], s.credit)] else prev.0;
      LastWriteStep(users, es, k, prev.0, us);
      (us, prev.1[k - 1 := s.entry])
  }

  /** Row k either writes its account, becoming its last writer, or leaves every balance alone. */
  lemma LastWriteStep(users: map<Address, User>, es: seq<BonusEntry>, k: nat, prev: map<Address, User>, us: map<Address, User>)
    requires 1 <= k <= |es| && prev.Keys == users.Keys
    requires forall a :: a in users && (forall j :: 0 <= j < k - 1 ==> !WritesTo(users, es, j, a)) ==> prev[a] == users[a]
    requires forall a, j: nat :: a in users && LastWriter(users, es, k - 1, a, j) ==>
               prev[a] == Pay(users[a], SettleAsWritten(es[j], Lookup(users, a)).credit)
    requires var e := es[k - 1];
             us == if WritesTo(users, es, k - 1, e.user)
                   then prev[e.user := Pay(users[e.user], SettleAsWritten(e, Lookup(users, e.user)).credit)] else prev
    ensures us.Keys == users.Keys
    ensures forall a :: a in users && (forall j :: 0 <= j < k ==> !WritesTo(users, es, j, a)) ==> us[a] == users[a]
    ensures forall a, j: nat :: a in users && LastWriter(users, es, k, a, j) ==>
              us[a] == Pay(users[a], SettleAsWritten(es[j], Lookup(users, a)).credit)
  {
    var e := es[k - 1];
    if WritesTo(users, es, k - 1, e.user) {
      assert e.user in users;
    }
    forall a, j: nat | a in users && LastWriter(users, es, k, a, j)
      ensures us[a] == Pay(users[a], SettleAsWritten(es[j], Lookup(users, a)).credit)
    {
      if j < k - 1 {
        assert !WritesTo(users, es, k - 1, a);
        assert LastWriter(users, es, k - 1, a, j);
      }
    }
  }

  /** Finding: a released team row whose amount is within the last pack price is marked claimable but
      never paid as written, while the corrected job pays it in full. */
  lemma UnflushedTeamRowIsLost(e: BonusEntry, u: User)
    requires Pending(e, Some(u)) && e.bonusType == Team && !Held(u)
    requires 0.0 < e.amount <= u.lastBoughtPackPrice
    ensures SettleAsWritten(e, Some(u)).credit == 0.0 && SettleAsWritten(e, Some(u)).entry.canClaim
    ensures Settle(e, Some(u)).credit == e.amount
  {
  }

  /** Finding: two teamDirect rows for the same account in one run; as written the second write
      replaces the first, so only the second amount reaches the balance. */
  lemma SecondRowOverwritesFirst(users: map<Address, User>, e1: BonusEntry, e2: BonusEntry)
    requires e1.user == e2.user && e1.user in users && users[e1.user].lastBoughtPack != 0
    requires !e1.canClaim && !e2.canClaim && e1.bonusType == TeamDirect && e2.bonusType == TeamDirect
    ensures var a := e1.user;
            RunAsWritten(users, [e1, e2], 2).0[a].totalWithdrawableAmount == users[a].totalWithdrawableAmount + e2.amount
    ensures var a := e1.user;
            Run(users, [e1, e2], 2).0[a].totalWithdrawableAmount == users[a].totalWithdrawableAmount + e1.amount + e2.amount
  {
    var es := [e1, e2];
    var a := e1.user;
    assert CreditOf(users, e1) == e1.amount;
    assert CreditOf(users, e2) == e2.amount;
    assert CreditSum(users, es, 1, a) == e1.amount;
    assert CreditSum(users, es, 2, a) == e1.amount + e2.amount;
  }
}
