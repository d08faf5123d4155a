/**
 * The user's dashboard: how many vouchers and numbers the user has, how
 * many vouchers wait for review, the approved amount, the current raffle,
 * and the address of its video.
 */
module UserDashboard {
  import opened Wrappers
  import opened Records
  import opened Text
  import Seqs
  import UserHistory
  import RaffleManagement

  datatype DashboardStats = DashboardStats(comprovantes: nat, numeros: nat, pendentes: nat, valorTotal: real)

  // The current raffle the dashboard shows is `Records.CurrentRaffle`, the first open raffle.

  /** `loadStats` for one user: the counts, and the amount of the approved vouchers only. */
  function Stats(cs: seq<Comprovante>, ns: seq<NumeroRifa>, userId: string): (st: DashboardStats)
    ensures st.comprovantes == |VouchersOf(cs, userId)| && st.numeros == |NumbersOf(ns, userId)|
    ensures st.pendentes == |VouchersWithStatus(VouchersOf(cs, userId), Pendente)| <= st.comprovantes
    ensures st.valorTotal == TotalAmount(VouchersWithStatus(VouchersOf(cs, userId), Aprovado))
  {
    var mine := VouchersOf(cs, userId);
    PendingAtMostAll(mine);
    DashboardStats(|mine|, |NumbersOf(ns, userId)|, |VouchersWithStatus(mine, Pendente)|,
                   TotalAmount(VouchersWithStatus(mine, Aprovado)))
  }

  /** Vouchers of other users, and this user's vouchers that are not approved, leave the total unchanged. */
  lemma ValorTotalCountsApprovedOnly(cs: seq<Comprovante>, ns: seq<NumeroRifa>, userId: string, c: Comprovante)
    requires c.id_usuario != userId || c.status != Aprovado
    ensures Stats(cs + [c], ns, userId).valorTotal == Stats(cs, ns, userId).valorTotal
  {
    var mine := VouchersOf(cs, userId);
    var extra := VouchersOf([c], userId);
    Seqs.FilterAppend(cs, [c], (x: Comprovante) => x.id_usuario == userId);
    assert VouchersOf(cs + [c], userId) == mine + extra;
    Seqs.FilterAppend(mine, extra, (x: Comprovante) => x.status == Aprovado);
    Seqs.FilterNone(extra, (x: Comprovante) => x.status == Aprovado);
    assert VouchersWithStatus(mine + extra, Aprovado) == VouchersWithStatus(mine, Aprovado) + [];
    assert VouchersWithStatus(mine, Aprovado) + [] == VouchersWithStatus(mine, Aprovado);
  }

  /** For non-negative amounts the approved total lies between zero and all the user deposited. */
  lemma ValorTotalBounds(cs: seq<Comprovante>, ns: seq<NumeroRifa>, userId: string)
    requires NonNegativeAmounts(cs)
    ensures 0.0 <= Stats(cs, ns, userId).valorTotal <= TotalAmount(VouchersOf(cs, userId))
  {
    ApprovedAtMostTotal(VouchersOf(cs, userId));
  }

  /** The dashboard's video address is the one the history screen reads: no `src="…"` gives `''`. */
  lemma NoSrcGivesEmpty(iframe: string)
    requires !Contains(iframe, RaffleManagement.SrcAttr)
    ensures UserHistory.ExtractVideoUrl(iframe) == []
  {
    forall i: nat ensures !MatchAt(iframe, RaffleManagement.SrcAttr, i) {
      if i <= |iframe| {
        assert !MatchAt(iframe, RaffleManagement.SrcAttr, i);
      }
    }
  }
}
