/**
 * The administrator's player search: a trimmed, lower-cased term matched
 * against the non-admin users' names, e-mails or CPF digits, or against the
 * generated ticket numbers, each hit with the owner's figures.
 */
module PlayerSearch {
  import opened Wrappers
  import opened Records
  import Seqs
  import opened Text

  datatype SearchType = ByName | ByEmail | ByCpf | ByNumber

  /** `getUserStats`: what one user deposited, what of it was approved, and their record counts. */
  datatype UserStats = UserStats(totalDeposited: real, totalApproved: real, numbersCount: nat, vouchersCount: nat)

  /** One row of the results: a matching ticket number, or a matching user. */
  datatype SearchResult =
    | NumberResult(numero: NumeroRifa, owner: Option<User>, sorteio: Option<Sorteio>, stats: UserStats)
    | UserResult(user: User, numbers: seq<NumeroRifa>, stats: UserStats)

  function GetUserStats(cs: seq<Comprovante>, ns: seq<NumeroRifa>, userId: string): (st: UserStats)
    ensures st.vouchersCount == |VouchersOf(cs, userId)| && st.numbersCount == |NumbersOf(ns, userId)|
    ensures st.totalDeposited == TotalAmount(VouchersOf(cs, userId))
    ensures st.totalApproved == TotalAmount(VouchersWithStatus(VouchersOf(cs, userId), Aprovado))
    ensures NonNegativeAmounts(cs) ==> 0.0 <= st.totalApproved <= st.totalDeposited
  {
    var userVouchers := VouchersOf(cs, userId);
    ApprovedAtMostDeposited(cs, userId);
    UserStats(TotalAmount(userVouchers), TotalAmount(VouchersWithStatus(userVouchers, Aprovado)),
              |NumbersOf(ns, userId)|, |userVouchers|)
  }

  /** A user's approved total never exceeds what that user deposited. */
  lemma ApprovedAtMostDeposited(cs: seq<Comprovante>, userId: string)
    ensures NonNegativeAmounts(cs) ==>
      0.0 <= TotalAmount(VouchersWithStatus(VouchersOf(cs, userId), Aprovado)) <= TotalAmount(VouchersOf(cs, userId))
  {
    if NonNegativeAmounts(cs) {
      ApprovedAtMostTotal(VouchersOf(cs, userId));
    }
  }

  /** `searchTerm.toLowerCase().trim()`. */
  function SearchTerm(searchTerm: string): string
  {
    Trim(ToLower(searchTerm))
  }

  /** The per-mode test of one user against the normalised term. */
  predicate UserMatches(u: User, searchType: SearchType, term: string)
  {
    match searchType
    case ByName => Contains(ToLower(u.nome), term)
    case ByEmail => Contains(ToLower(u.email), term)
    case ByCpf => Contains(Digits(u.cpf), Digits(term))
    case ByNumber => false
  }

  function NumberHit(users: seq<User>, ns: seq<NumeroRifa>, ss: seq<Sorteio>, cs: seq<Comprovante>,
                     n: NumeroRifa): (r: SearchResult)
    ensures r.NumberResult? && r.numero == n
    ensures r.owner.Some? ==> r.owner.value in users && r.owner.value.id == n.id_usuario
  {
    NumberResult(n, Seqs.Find(users, (u: User) => u.id == n.id_usuario),
                 Seqs.Find(ss, (s: Sorteio) => s.id == n.id_sorteio), GetUserStats(cs, ns, n.id_usuario))
  }

  function UserHit(ns: seq<NumeroRifa>, cs: seq<Comprovante>, u: User): (r: SearchResult)
    ensures r.UserResult? && r.user == u
    ensures forall n :: n in r.numbers <==> n in ns && n.id_usuario == u.id
  {
    UserResult(u, NumbersOf(ns, u.id), GetUserStats(cs, ns, u.id))
  }

  /** The stored numbers whose text includes the term, in storage order. */
  function NumbersMatching(ns: seq<NumeroRifa>, term: string): (r: seq<NumeroRifa>)
    ensures forall n :: n in r <==> n in ns && Contains(n.numero_gerado, term)
  {
    Seqs.Filter(ns, (n: NumeroRifa) => Contains(n.numero_gerado, term))
  }

  /** The users the mode's test accepts, in order. */
  function UsersMatching(users: seq<User>, searchType: SearchType, term: string): (r: seq<User>)
    ensures forall u :: u in r <==> u in users && UserMatches(u, searchType, term)
  {
    Seqs.Filter(users, (u: User) => UserMatches(u, searchType, term))
  }

  /** Number mode: one number row per matching number, owners looked up among `users`. */
  function NumberResults(users: seq<User>, ns: seq<NumeroRifa>, ss: seq<Sorteio>, cs: seq<Comprovante>,
                         term: string): (r: seq<SearchResult>)
    ensures |r| == |NumbersMatching(ns, term)|
    ensures forall i :: 0 <= i < |r| ==> r[i].NumberResult? && r[i].numero == NumbersMatching(ns, term)[i]
    ensures forall i :: 0 <= i < |r| && r[i].owner.Some? ==> r[i].owner.value in users
  {
    var matching := NumbersMatching(ns, term);
    seq(|matching|, i requires 0 <= i < |matching| => NumberHit(users, ns, ss, cs, matching[i]))
  }

  /** User modes: one user row per matching user. */
  function UserResults(users: seq<User>, ns: seq<NumeroRifa>, cs: seq<Comprovante>,
                       searchType: SearchType, term: string): (r: seq<SearchResult>)
    ensures |r| == |UsersMatching(users, searchType, term)|
    ensures forall i :: 0 <= i < |r| ==> r[i].UserResult? && r[i].user == UsersMatching(users, searchType, term)[i]
  {
    var matching := UsersMatching(users, searchType, term);
    seq(|matching|, i requires 0 <= i < |matching| => UserHit(ns, cs, matching[i]))
  }

  /**
   * `performSearch` over the stored lists. `users` are all stored users;
   * the screen keeps the non-admin ones.
   */
  function PerformSearch(allUsers: seq<User>, ns: seq<NumeroRifa>, ss: seq<Sorteio>, cs: seq<Comprovante>,
                         searchTerm: string, searchType: SearchType): (r: seq<SearchResult>)
    ensures AllSpace(searchTerm) ==> r == []
    ensures searchType == ByNumber ==> forall i :: 0 <= i < |r| ==> r[i].NumberResult?
    ensures searchType != ByNumber ==> forall i :: 0 <= i < |r| ==> r[i].UserResult?
    ensures forall i :: 0 <= i < |r| && r[i].UserResult? ==> !r[i].user.isAdmin
    ensures forall i :: 0 <= i < |r| && r[i].NumberResult? && r[i].owner.Some? ==> !r[i].owner.value.isAdmin
  {
    if AllSpace(searchTerm) then []
    else
      var term := SearchTerm(searchTerm);
      var users := RegularUsers(allUsers);
      if searchType == ByNumber then
        NumberResults(users, ns, ss, cs, term)
      else
        var r := UserResults(users, ns, cs, searchType, term);
        assert forall i :: 0 <= i < |r| ==> r[i].user in UsersMatching(users, searchType, term);
        r
  }

  lemma NumberResultsHits(users: seq<User>, ns: seq<NumeroRifa>, ss: seq<Sorteio>, cs: seq<Comprovante>, term: string)
    ensures var r := NumberResults(users, ns, ss, cs, term);
      forall n :: (exists i :: 0 <= i < |r| && r[i].numero == n) <==> n in ns && Contains(n.numero_gerado, term)
  {
    var r := NumberResults(users, ns, ss, cs, term);
    var matching := NumbersMatching(ns, term);
    forall n | n in matching ensures exists i :: 0 <= i < |r| && r[i].numero == n {
      var i :| 0 <= i < |matching| && matching[i] == n;
      assert r[i].numero == n;
    }
  }

  /** Number mode gives one result per stored number that includes the term, and no other. */
  lemma NumberSearchHits(allUsers: seq<User>, ns: seq<NumeroRifa>, ss: seq<Sorteio>, cs: seq<Comprovante>,
                         searchTerm: string)
    requires !AllSpace(searchTerm)
    ensures var r := PerformSearch(allUsers, ns, ss, cs, searchTerm, ByNumber);
      |r| == |NumbersMatching(ns, SearchTerm(searchTerm))| &&
      forall n :: (exists i :: 0 <= i < |r| && r[i].numero == n) <==>
        n in ns && Contains(n.numero_gerado, SearchTerm(searchTerm))
  {
    NumberResultsHits(RegularUsers(allUsers), ns, ss, cs, SearchTerm(searchTerm));
  }

  lemma UserResultsHits(users: seq<User>, ns: seq<NumeroRifa>, cs: seq<Comprovante>, searchType: SearchType, term: string)
    ensures var r := UserResults(users, ns, cs, searchType, term);
      forall u :: (exists i :: 0 <= i < |r| && r[i].user == u) <==> u in users && UserMatches(u, searchType, term)
  {
    var r := UserResults(users, ns, cs, searchType, term);
    var matching := UsersMatching(users, searchType, term);
    forall u | u in matching ensures exists i :: 0 <= i < |r| && r[i].user == u {
      var i :| 0 <= i < |matching| && matching[i] == u;
      assert r[i].user == u;
    }
  }

  lemma PerformSearchUsers(allUsers: seq<User>, ns: seq<NumeroRifa>, ss: seq<Sorteio>, cs: seq<Comprovante>,
                           searchTerm: string, searchType: SearchType)
    requires !AllSpace(searchTerm) && searchType != ByNumber
    ensures PerformSearch(allUsers, ns, ss, cs, searchTerm, searchType)
            == UserResults(RegularUsers(allUsers), ns, cs, searchType, SearchTerm(searchTerm))
  {
  }

  /** User modes list exactly the non-admin users that pass the mode's test. */
  lemma UserSearchHits(allUsers: seq<User>, ns: seq<NumeroRifa>, ss: seq<Sorteio>, cs: seq<Comprovante>,
                       searchTerm: string, searchType: SearchType)
    requires !AllSpace(searchTerm) && searchType != ByNumber
    ensures var r := PerformSearch(allUsers, ns, ss, cs, searchTerm, searchType);
      forall u :: (exists i :: 0 <= i < |r| && r[i].user == u) <==>
        u in allUsers && !u.isAdmin && UserMatches(u, searchType, SearchTerm(searchTerm))
  {
    var users := RegularUsers(allUsers);
    var term := SearchTerm(searchTerm);
    PerformSearchUsers(allUsers, ns, ss, cs, searchTerm, searchType);
    UserResultsHits(users, ns, cs, searchType, term);
    forall u ensures u in users <==> u in allUsers && !u.isAdmin {
    }
  }

  /** A CPF search whose term has no digit compares against the empty string, so every user matches. */
  lemma CpfTermWithoutDigitsMatchesAll(u: User, searchTerm: string)
    requires forall i :: 0 <= i < |searchTerm| ==> !IsDigit(searchTerm[i])
    ensures UserMatches(u, ByCpf, SearchTerm(searchTerm))
  {
    var lower := ToLower(searchTerm);
    forall i | 0 <= i < |lower| ensures !IsDigit(lower[i]) {
      assert lower[i] == LowerChar(searchTerm[i]);
    }
    var term := SearchTerm(searchTerm);
    forall i | 0 <= i < |term| ensures !IsDigit(term[i]) {
      assert term[i] in term;
      assert term[i] in lower;
    }
    DigitsEmpty(term);
    ContainsEmpty(Digits(u.cpf));
  }

  /** The term is lower-cased first, so terms that differ only in letter case give the same results. */
  lemma SearchIgnoresCase(allUsers: seq<User>, ns: seq<NumeroRifa>, ss: seq<Sorteio>, cs: seq<Comprovante>,
                          a: string, b: string, searchType: SearchType)
    requires ToLower(a) == ToLower(b)
    ensures PerformSearch(allUsers, ns, ss, cs, a, searchType) == PerformSearch(allUsers, ns, ss, cs, b, searchType)
  {
    LowerKeepsSpace(a);
    LowerKeepsSpace(b);
  }
}
