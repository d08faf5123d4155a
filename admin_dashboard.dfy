/**
 * The administrator's dashboard: user, voucher and raffle counts, deposit
 * totals, the five most recent vouchers, the five users who deposited most,
 * and the current raffle.
 */
module AdminDashboard {
  import opened Wrappers
  import opened Records
  import Seqs
  import ArraySort

  datatype DashboardStats = DashboardStats(
    totalUsers: nat,
    pendingVouchers: nat,
    approvedVouchers: nat,
    rejectedVouchers: nat,
    activeRaffles: nat,
    totalRevenue: real,
    totalDeposited: real)

  /** Revenue counts approved vouchers only, so it never exceeds what was deposited. */
  lemma RevenueAtMostDeposited(cs: seq<Comprovante>)
    ensures NonNegativeAmounts(cs) ==> 0.0 <= TotalAmount(VouchersWithStatus(cs, Aprovado)) <= TotalAmount(cs)
  {
    if NonNegativeAmounts(cs) {
      ApprovedAtMostTotal(cs);
    }
  }

  /** The figures at the top of the dashboard. */
  function Stats(users: seq<User>, cs: seq<Comprovante>, ss: seq<Sorteio>): (st: DashboardStats)
    ensures st.totalUsers == |RegularUsers(users)| <= |users|
    ensures st.pendingVouchers == |VouchersWithStatus(cs, Pendente)|
    ensures st.approvedVouchers == |VouchersWithStatus(cs, Aprovado)|
    ensures st.rejectedVouchers == |VouchersWithStatus(cs, Rejeitado)|
    ensures st.pendingVouchers + st.approvedVouchers + st.rejectedVouchers == |cs|
    ensures st.activeRaffles == |OpenRaffles(ss)| <= |ss|
    ensures st.activeRaffles == 0 <==> CurrentRaffle(ss).None?
    ensures NonNegativeAmounts(cs) ==> 0.0 <= st.totalRevenue <= st.totalDeposited
  {
    StatusCountsAddUp(cs);
    RevenueAtMostDeposited(cs);
    var open := OpenRaffles(ss);
    assert open != [] ==> open[0] in open;
    DashboardStats(
      |RegularUsers(users)|,
      |VouchersWithStatus(cs, Pendente)|,
      |VouchersWithStatus(cs, Aprovado)|,
      |VouchersWithStatus(cs, Rejeitado)|,
      |open|,
      TotalAmount(VouchersWithStatus(cs, Aprovado)),
      TotalAmount(cs))
  }

  // ---------------------------------------------------------------- recent activity

  /** The five newest vouchers, newest first. */
  function Recent(cs: seq<Comprovante>): (r: seq<Comprovante>)
    ensures |r| <= 5 && (|cs| >= 5 ==> |r| == 5)
    ensures Seqs.SortedDesc(r, SentAt)
    ensures forall c :: c in r ==> c in cs
  {
    var sorted := Seqs.SortDesc(cs, SentAt);
    Seqs.SortDescSameElements(cs, SentAt);
    Seqs.Take(sorted, 5)
  }

  /** A voucher left out of the recent list is no newer than any voucher in it. */
  lemma RecentAreNewest(cs: seq<Comprovante>, c: Comprovante)
    requires c in cs && c !in Recent(cs)
    ensures |Recent(cs)| == 5
    ensures forall d :: d in Recent(cs) ==> SentAt(d) >= SentAt(c)
  {
    var sorted := Seqs.SortDesc(cs, SentAt);
    Seqs.SortDescSameElements(cs, SentAt);
    var k :| 0 <= k < |sorted| && sorted[k] == c;
    Seqs.TakeKeepsTop(sorted, SentAt, 5, k);
  }

  // ---------------------------------------------------------------- top users

  datatype TopUser = TopUser(user: User, totalDeposited: real, totalApproved: real)

  function UserTotals(cs: seq<Comprovante>, u: User): (t: TopUser)
    ensures t.user == u
    ensures NonNegativeAmounts(cs) ==> 0.0 <= t.totalApproved <= t.totalDeposited
  {
    var mine := VouchersOf(cs, u.id);
    RevenueAtMostDeposited(mine);
    TopUser(u, TotalAmount(mine), TotalAmount(VouchersWithStatus(mine, Aprovado)))
  }

  function DepositedKey(t: TopUser): real
  {
    t.totalDeposited
  }

  /** Every non-admin user with their totals, keeping those who deposited something. */
  function Candidates(users: seq<User>, cs: seq<Comprovante>): (r: seq<TopUser>)
    ensures forall t :: t in r <==>
      t.user in users && !t.user.isAdmin && t == UserTotals(cs, t.user) && t.totalDeposited > 0.0
  {
    var regular := RegularUsers(users);
    var totals := seq(|regular|, i requires 0 <= i < |regular| => UserTotals(cs, regular[i]));
    assert forall t :: t in totals <==> t.user in regular && t == UserTotals(cs, t.user) by {
      forall t: TopUser | t.user in regular && t == UserTotals(cs, t.user) ensures t in totals {
        var i :| 0 <= i < |regular| && regular[i] == t.user;
        assert totals[i] == t;
      }
    }
    Seqs.Filter(totals, (t: TopUser) => t.totalDeposited > 0.0)
  }

  /** The ranking: at most five users, largest deposit first. */
  function TopUsers(users: seq<User>, cs: seq<Comprovante>): (r: seq<TopUser>)
    ensures |r| <= 5
    ensures Seqs.SortedDesc(r, DepositedKey)
    ensures forall t :: t in r ==> t in Candidates(users, cs)
  {
    var ranked := Seqs.SortDesc(Candidates(users, cs), DepositedKey);
    Seqs.SortDescSameElements(Candidates(users, cs), DepositedKey);
    Seqs.Take(ranked, 5)
  }

  /** A user who deposited something but is not ranked deposited no more than anyone ranked. */
  lemma TopUsersAreTop(users: seq<User>, cs: seq<Comprovante>, t: TopUser)
    requires t in Candidates(users, cs) && t !in TopUsers(users, cs)
    ensures |TopUsers(users, cs)| == 5
    ensures forall e :: e in TopUsers(users, cs) ==> e.totalDeposited >= t.totalDeposited
  {
    var ranked := Seqs.SortDesc(Candidates(users, cs), DepositedKey);
    Seqs.SortDescSameElements(Candidates(users, cs), DepositedKey);
    var k :| 0 <= k < |ranked| && ranked[k] == t;
    Seqs.TakeKeepsTop(ranked, DepositedKey, 5, k);
  }

  // ---------------------------------------------------------------- loadStats

  /**
   * `loadStats`: the counts and totals over the loaded vouchers, then the
   * loaded array sorted newest first in place, the recent list and the
   * ranking read from that sorted array, and the first open raffle.
   */
  method LoadStats(users: seq<User>, stored: seq<Comprovante>, sorteios: seq<Sorteio>)
    returns (stats: DashboardStats, current: Option<Sorteio>, recent: seq<Comprovante>, topUsers: seq<TopUser>)
    ensures stats == Stats(users, stored, sorteios)
    ensures current == CurrentRaffle(sorteios)
    ensures recent == Recent(stored)
    ensures topUsers == TopUsers(users, Seqs.SortDesc(stored, SentAt))
  {
    var comprovantes := new Comprovante[|stored|](i requires 0 <= i < |stored| => stored[i]);
    assert comprovantes[..] == stored;
    stats := Stats(users, comprovantes[..], sorteios);
    current := CurrentRaffle(sorteios);
    ArraySort.SortDescInPlace(comprovantes, SentAt);
    recent := Seqs.Take(comprovantes[..], 5);
    topUsers := TopUsers(users, comprovantes[..]);
  }
}
