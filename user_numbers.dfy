/**
 * The "my numbers" screen: the logged-in user's numbers, optionally narrowed
 * to one raffle, each with its raffle's badge and whether it won, and the
 * count of the user's vouchers still waiting for review.
 */
module UserNumbers {
  import opened Wrappers
  import opened Records
  import Seqs
  import UserHistory

  /** The selector value that shows every raffle. */
  const AllRaffles: string := "all"

  /**
   * `filteredNumbers`: every number under `'all'`, otherwise the numbers of
   * the raffle whose id was selected.
   */
  function FilteredNumbers(numbers: seq<NumeroRifa>, selected: string): (r: seq<NumeroRifa>)
    ensures selected == AllRaffles ==> r == numbers
    ensures selected != AllRaffles ==> forall n :: n in r <==> n in numbers && n.id_sorteio == selected
    ensures |r| <= |numbers|
  {
    if selected == AllRaffles then numbers else NumbersIn(numbers, selected)
  }

  /** Choosing the same raffle twice narrows nothing further. */
  lemma FilteredNumbersIdempotent(numbers: seq<NumeroRifa>, selected: string)
    ensures FilteredNumbers(FilteredNumbers(numbers, selected), selected) == FilteredNumbers(numbers, selected)
  {
    if selected != AllRaffles {
      var inRaffle := (n: NumeroRifa) => n.id_sorteio == selected;
      Seqs.FilterFilter(numbers, inRaffle, inRaffle, inRaffle);
    }
  }

  /** On the screen's own list, a raffle selection shows the user's numbers in that raffle. */
  lemma ShownNumbers(ns: seq<NumeroRifa>, userId: string, selected: string)
    requires selected != AllRaffles
    ensures forall n :: n in FilteredNumbers(NumbersOf(ns, userId), selected) <==>
      n in ns && n.id_usuario == userId && n.id_sorteio == selected
  {
  }

  /** `sorteios.find(s => s.id === sorteioId)`. */
  function FindRaffle(ss: seq<Sorteio>, sorteioId: string): (r: Option<Sorteio>)
    ensures r.Some? ==> r.value in ss && r.value.id == sorteioId
    ensures r.None? <==> forall s :: s in ss ==> s.id != sorteioId
  {
    Seqs.Find(ss, (s: Sorteio) => s.id == sorteioId)
  }

  /** No two stored raffles share an id. */
  predicate UniqueIds(ss: seq<Sorteio>)
  {
    forall i, j :: 0 <= i < |ss| && 0 <= j < |ss| && ss[i].id == ss[j].id ==> i == j
  }

  /** With unique ids, looking a raffle up by its id finds that raffle. */
  lemma FindRaffleFindsIt(ss: seq<Sorteio>, s: Sorteio)
    requires UniqueIds(ss) && s in ss
    ensures FindRaffle(ss, s.id) == Some(s)
  {
    var k :| 0 <= k < |ss| && ss[k] == s;
    Seqs.FindIsFirst(ss, (x: Sorteio) => x.id == s.id, k);
  }

  datatype Badge = Desconhecido | EmAndamento | Finalizado

  function BadgeText(b: Badge): string
  {
    match b
    case Desconhecido => "Desconhecido"
    case EmAndamento => "Em andamento"
    case Finalizado => "Finalizado"
  }

  function BadgeColor(b: Badge): string
  {
    match b
    case Desconhecido => "gray"
    case EmAndamento => "blue"
    case Finalizado => "green"
  }

  /**
   * `getStatusBadge`: unknown when no raffle has the id, in progress when
   * the first raffle with it is open, finished otherwise.
   */
  function GetStatusBadge(ss: seq<Sorteio>, sorteioId: string): (b: Badge)
    ensures b == Desconhecido <==> forall s :: s in ss ==> s.id != sorteioId
    ensures b == EmAndamento ==> exists s :: s in ss && s.id == sorteioId && s.status == Aberto
    ensures b == Finalizado ==> exists s :: s in ss && s.id == sorteioId && s.status == Encerrado
  {
    match FindRaffle(ss, sorteioId)
    case None => Desconhecido
    case Some(s) =>
      assert s in ss && s.id == sorteioId;
      assert s.status != Aberto ==> s.status == Encerrado;
      if s.status == Aberto then EmAndamento else Finalizado
  }

  /** With unique ids, a stored raffle's badge is decided by its own status. */
  lemma BadgeOfStoredRaffle(ss: seq<Sorteio>, s: Sorteio)
    requires UniqueIds(ss) && s in ss
    ensures GetStatusBadge(ss, s.id) == (if s.status == Aberto then EmAndamento else Finalizado)
  {
    FindRaffleFindsIt(ss, s);
  }

  /** The texts shown are three different words, one per badge. */
  lemma BadgeTextsDiffer(a: Badge, b: Badge)
    ensures BadgeText(a) == BadgeText(b) <==> a == b
  {
    if a != b {
      assert BadgeText(a)[0] != BadgeText(b)[0] || |BadgeText(a)| != |BadgeText(b)|;
    }
  }

  /** `isWinningNumber`: the raffle is found and its drawn numbers include this one. */
  predicate IsWinningNumber(ss: seq<Sorteio>, numero: string, sorteioId: string)
  {
    match FindRaffle(ss, sorteioId)
    case None => false
    case Some(s) => s.numeros_premiados.Some? && numero in s.numeros_premiados.value
  }

  /** With unique ids, a number wins exactly when its raffle's drawn numbers include it. */
  lemma WinningNumberIff(ss: seq<Sorteio>, numero: string, s: Sorteio)
    requires UniqueIds(ss) && s in ss
    ensures IsWinningNumber(ss, numero, s.id) <==>
      s.numeros_premiados.Some? && numero in s.numeros_premiados.value
  {
    FindRaffleFindsIt(ss, s);
  }

  /** A number whose raffle is not stored never wins. */
  lemma UnknownRaffleNeverWins(ss: seq<Sorteio>, numero: string, sorteioId: string)
    requires forall s :: s in ss ==> s.id != sorteioId
    ensures !IsWinningNumber(ss, numero, sorteioId)
  {
  }

  /** For numbers of one stored raffle, the history's winner test and this screen's agree. */
  lemma WinnerTestsAgree(ss: seq<Sorteio>, s: Sorteio, numbers: seq<NumeroRifa>)
    requires UniqueIds(ss) && s in ss
    requires forall n :: n in numbers ==> n.id_sorteio == s.id
    ensures UserHistory.IsWinner(s, numbers) <==>
      exists n :: n in numbers && IsWinningNumber(ss, n.numero_gerado, n.id_sorteio)
  {
    FindRaffleFindsIt(ss, s);
    if UserHistory.IsWinner(s, numbers) {
      var i :| 0 <= i < |numbers| && numbers[i].numero_gerado in s.numeros_premiados.value;
      assert numbers[i] in numbers;
    }
    if exists n :: n in numbers && IsWinningNumber(ss, n.numero_gerado, n.id_sorteio) {
      var n :| n in numbers && IsWinningNumber(ss, n.numero_gerado, n.id_sorteio);
      var i :| 0 <= i < |numbers| && numbers[i] == n;
      assert UserHistory.IsWinner(s, numbers);
    }
  }

  /**
   * The history screen's winner flag agrees with this screen: an entry is
   * a winner exactly when one of its numbers is shown as winning here.
   */
  lemma HistoryWinnerAgrees(ns: seq<NumeroRifa>, ss: seq<Sorteio>, userId: string, e: UserHistory.HistoryEntry)
    requires UniqueIds(ss) && e in UserHistory.History(ns, ss, userId)
    ensures e.isWinner <==> exists n :: n in e.userNumbers && IsWinningNumber(ss, n.numero_gerado, n.id_sorteio)
  {
    UserHistory.HistoryEntryNumbers(ns, ss, userId, e);
    WinnerTestsAgree(ss, e.sorteio, e.userNumbers);
  }

  /** `pendingVouchers`: the user's vouchers still waiting for review. */
  function PendingVouchers(cs: seq<Comprovante>, userId: string): (count: nat)
    ensures count <= |VouchersOf(cs, userId)|
    ensures count == 0 <==> forall c :: c in cs && c.id_usuario == userId ==> c.status != Pendente
  {
    var mine := VouchersOf(cs, userId);
    var pending := VouchersWithStatus(mine, Pendente);
    PendingAtMostAll(mine);
    assert pending != [] ==> pending[0] in pending;
    |pending|
  }
}
