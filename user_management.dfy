/**
 * The administrator's user list: non-admin users filtered by a search
 * term, each user's figures, and the detail view with the user's vouchers
 * newest first.
 */
module UserManagement {
  import opened Records
  import Seqs
  import opened Text

  /**
   * `filteredUsers`: name or e-mail includes the lower-cased term, or the
   * raw CPF includes the raw term.
   */
  predicate Matches(u: User, searchTerm: string)
  {
    Contains(ToLower(u.nome), ToLower(searchTerm)) ||
    Contains(ToLower(u.email), ToLower(searchTerm)) ||
    Contains(u.cpf, searchTerm)
  }

  function FilteredUsers(allUsers: seq<User>, searchTerm: string): (r: seq<User>)
    ensures forall u :: u in r <==> u in allUsers && !u.isAdmin && Matches(u, searchTerm)
    ensures |r| <= |allUsers|
  {
    Seqs.Filter(RegularUsers(allUsers), (u: User) => Matches(u, searchTerm))
  }

  /** An empty search term keeps every non-admin user, in stored order. */
  lemma EmptyTermKeepsAll(allUsers: seq<User>)
    ensures FilteredUsers(allUsers, []) == RegularUsers(allUsers)
  {
    var regular := RegularUsers(allUsers);
    forall i | 0 <= i < |regular| ensures Matches(regular[i], []) {
      ContainsEmpty(regular[i].cpf);
    }
    Seqs.FilterKeepsAll(regular, (u: User) => Matches(u, []));
  }

  /** The name and e-mail tests ignore the case of the term. */
  lemma NameSearchIgnoresCase(u: User, a: string, b: string)
    requires ToLower(a) == ToLower(b) && !Contains(u.cpf, a) && !Contains(u.cpf, b)
    ensures Matches(u, a) <==> Matches(u, b)
  {
  }

  /** `getUserStats` with the count of pending vouchers. */
  datatype UserStats = UserStats(totalDeposited: real, totalApproved: real, pendingCount: nat,
                                 numbersCount: nat, vouchersCount: nat)

  function GetUserStats(cs: seq<Comprovante>, ns: seq<NumeroRifa>, userId: string): (st: UserStats)
    ensures st.vouchersCount == |VouchersOf(cs, userId)| && st.numbersCount == |NumbersOf(ns, userId)|
    ensures st.pendingCount == |VouchersWithStatus(VouchersOf(cs, userId), Pendente)|
    ensures st.pendingCount <= st.vouchersCount
    ensures st.totalDeposited == TotalAmount(VouchersOf(cs, userId))
    ensures st.totalApproved == TotalAmount(VouchersWithStatus(VouchersOf(cs, userId), Aprovado))
  {
    var userVouchers := VouchersOf(cs, userId);
    PendingAtMostAll(userVouchers);
    UserStats(TotalAmount(userVouchers), TotalAmount(VouchersWithStatus(userVouchers, Aprovado)),
              |VouchersWithStatus(userVouchers, Pendente)|, |NumbersOf(ns, userId)|, |userVouchers|)
  }

  /** For non-negative amounts, what was approved never exceeds what was deposited. */
  lemma ApprovedAtMostDeposited(cs: seq<Comprovante>, ns: seq<NumeroRifa>, userId: string)
    requires NonNegativeAmounts(cs)
    ensures var st := GetUserStats(cs, ns, userId); 0.0 <= st.totalApproved <= st.totalDeposited
  {
    ApprovedAtMostTotal(VouchersOf(cs, userId));
  }

  datatype UserDetails = UserDetails(user: User, vouchers: seq<Comprovante>, numbers: seq<NumeroRifa>, stats: UserStats)

  /** `getUserDetails`: the user's vouchers newest first, their numbers, and their figures. */
  function GetUserDetails(cs: seq<Comprovante>, ns: seq<NumeroRifa>, u: User): (d: UserDetails)
    ensures d.user == u && d.stats == GetUserStats(cs, ns, u.id)
    ensures Seqs.SortedDesc(d.vouchers, SentAt)
    ensures multiset(d.vouchers) == multiset(VouchersOf(cs, u.id))
    ensures forall c :: c in d.vouchers <==> c in cs && c.id_usuario == u.id
    ensures forall n :: n in d.numbers <==> n in ns && n.id_usuario == u.id
  {
    var userVouchers := VouchersOf(cs, u.id);
    Seqs.SortDescSameElements(userVouchers, SentAt);
    UserDetails(u, Seqs.SortDesc(userVouchers, SentAt), NumbersOf(ns, u.id), GetUserStats(cs, ns, u.id))
  }
}
