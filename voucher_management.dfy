/**
 * The admin's voucher screen: the status tabs, and approving or rejecting a
 * voucher. Approval also issues the voucher's ticket numbers in the open
 * raffle.
 */
module VoucherManagement {
  import opened Wrappers
  import opened Records
  import Seqs
  import opened Raffle
  import opened Storage

  /** The selected tab: `'all'` or one status. */
  datatype VoucherFilter = All | Only(status: VoucherStatus)

  /** `filteredComprovantes`: every voucher for `'all'`, else those with that status. */
  function FilteredComprovantes(cs: seq<Comprovante>, filter: VoucherFilter): (r: seq<Comprovante>)
    ensures filter.All? ==> r == cs
    ensures filter.Only? ==> forall c :: c in r <==> c in cs && c.status == filter.status
    ensures |r| <= |cs|
  {
    if filter.All? then cs else VouchersWithStatus(cs, filter.status)
  }

  /** The filtered list keeps the vouchers' order: it distributes over concatenation. */
  lemma FilteredKeepsOrder(a: seq<Comprovante>, b: seq<Comprovante>, filter: VoucherFilter)
    ensures FilteredComprovantes(a + b, filter) == FilteredComprovantes(a, filter) + FilteredComprovantes(b, filter)
  {
    if filter.Only? {
      Seqs.FilterAppend(a, b, (c: Comprovante) => c.status == filter.status);
    }
  }

  /** The counts shown on the four tabs. */
  datatype TabCounts = TabCounts(pendentes: nat, aprovados: nat, rejeitados: nat, todos: nat)

  function Tabs(cs: seq<Comprovante>): (t: TabCounts)
    ensures t.pendentes + t.aprovados + t.rejeitados == t.todos
    ensures t.todos == |FilteredComprovantes(cs, All)|
    ensures t.pendentes == |FilteredComprovantes(cs, Only(Pendente))|
    ensures t.aprovados == |FilteredComprovantes(cs, Only(Aprovado))|
    ensures t.rejeitados == |FilteredComprovantes(cs, Only(Rejeitado))|
  {
    StatusCountsAddUp(cs);
    TabCounts(|VouchersWithStatus(cs, Pendente)|, |VouchersWithStatus(cs, Aprovado)|,
              |VouchersWithStatus(cs, Rejeitado)|, |cs|)
  }

  /**
   * `comprovantes.map(c => c.id === comprovante.id ? { ...comprovante, status } : c)`:
   * every voucher with the target's id becomes the target with the new
   * status; every other voucher keeps its value and position.
   */
  function WithStatus(cs: seq<Comprovante>, target: Comprovante, st: VoucherStatus): (r: seq<Comprovante>)
    ensures |r| == |cs|
    ensures forall i :: 0 <= i < |cs| && cs[i].id != target.id ==> r[i] == cs[i]
    ensures forall i :: 0 <= i < |cs| && cs[i].id == target.id ==> r[i] == target.(status := st)
  {
    seq(|cs|, i requires 0 <= i < |cs| => if cs[i].id == target.id then target.(status := st) else cs[i])
  }

  lemma WithStatusCons(cs: seq<Comprovante>, target: Comprovante, st: VoucherStatus)
    requires cs != []
    ensures WithStatus(cs, target, st)
            == [if cs[0].id == target.id then target.(status := st) else cs[0]] + WithStatus(cs[1..], target, st)
  {
  }

  lemma FilterCons(x: Comprovante, rest: seq<Comprovante>, st: VoucherStatus)
    ensures |VouchersWithStatus([x] + rest, st)| == |VouchersWithStatus(rest, st)| + if x.status == st then 1 else 0
  {
    assert ([x] + rest)[0] == x && ([x] + rest)[1..] == rest;
  }

  lemma WithStatusNoMatch(cs: seq<Comprovante>, target: Comprovante, st: VoucherStatus)
    requires forall i :: 0 <= i < |cs| ==> cs[i].id != target.id
    ensures WithStatus(cs, target, st) == cs
  {
  }

  /** With the target only at the head, only the head changes. */
  lemma HeadReplaced(cs: seq<Comprovante>, target: Comprovante, st: VoucherStatus)
    requires cs != [] && cs[0].id == target.id
    requires forall i :: 1 <= i < |cs| ==> cs[i].id != target.id
    ensures WithStatus(cs, target, st) == [target.(status := st)] + cs[1..]
  {
    WithStatusNoMatch(cs[1..], target, st);
    WithStatusCons(cs, target, st);
  }

  /** Replacing the head of a list changes one tab's count by the heads' difference. */
  lemma CountHeadSwap(x: Comprovante, y: Comprovante, rest: seq<Comprovante>, s: VoucherStatus)
    ensures |VouchersWithStatus([y] + rest, s)|
            == |VouchersWithStatus([x] + rest, s)| - (if x.status == s then 1 else 0) + (if y.status == s then 1 else 0)
  {
    FilterCons(x, rest, s);
    FilterCons(y, rest, s);
  }

  /** A common head keeps the difference between two lists' counts. */
  lemma CountConsShift(x: Comprovante, a: seq<Comprovante>, b: seq<Comprovante>, s: VoucherStatus, d: int)
    requires |VouchersWithStatus(a, s)| == |VouchersWithStatus(b, s)| + d
    ensures |VouchersWithStatus([x] + a, s)| == |VouchersWithStatus([x] + b, s)| + d
  {
    FilterCons(x, a, s);
    FilterCons(x, b, s);
  }

  lemma MovesOneAtHead(cs: seq<Comprovante>, target: Comprovante, st: VoucherStatus)
    requires cs != [] && cs[0].id == target.id && cs[0].status != st
    requires forall i :: 1 <= i < |cs| ==> cs[i].id != target.id
    ensures |VouchersWithStatus(WithStatus(cs, target, st), st)| == |VouchersWithStatus(cs, st)| + 1
    ensures |VouchersWithStatus(WithStatus(cs, target, st), cs[0].status)|
            == |VouchersWithStatus(cs, cs[0].status)| - 1
  {
    HeadReplaced(cs, target, st);
    assert cs == [cs[0]] + cs[1..];
    CountHeadSwap(cs[0], target.(status := st), cs[1..], st);
    CountHeadSwap(cs[0], target.(status := st), cs[1..], cs[0].status);
  }

  /**
   * When ids are unique, changing one voucher's status moves it from its old
   * tab to the new one: the new tab gains one and the old tab loses one.
   */
  lemma {:induction false} WithStatusMovesOne(cs: seq<Comprovante>, target: Comprovante, st: VoucherStatus, k: nat)
    requires k < |cs| && cs[k].id == target.id && cs[k].status != st
    requires forall i :: 0 <= i < |cs| && i != k ==> cs[i].id != target.id
    ensures |VouchersWithStatus(WithStatus(cs, target, st), st)| == |VouchersWithStatus(cs, st)| + 1
    ensures |VouchersWithStatus(WithStatus(cs, target, st), cs[k].status)|
            == |VouchersWithStatus(cs, cs[k].status)| - 1
  {
    if k == 0 {
      MovesOneAtHead(cs, target, st);
    } else {
      var old_st := cs[k].status;
      var rest := WithStatus(cs[1..], target, st);
      WithStatusMovesOne(cs[1..], target, st, k - 1);
      WithStatusCons(cs, target, st);
      assert cs == [cs[0]] + cs[1..];
      CountConsShift(cs[0], rest, cs[1..], st, 1);
      CountConsShift(cs[0], rest, cs[1..], old_st, -1);
    }
  }

  /**
   * The approve and reject buttons appear only for a pending voucher. For such
   * a voucher (ids being unique), approving moves it from the pending tab to
   * the approved one. `handleApprove` itself does not re-check the status.
   */
  predicate ActionsOffered(c: Comprovante)
  {
    c.status == Pendente
  }

  lemma ApproveOfferedMovesTab(cs: seq<Comprovante>, k: nat)
    requires k < |cs| && ActionsOffered(cs[k])
    requires forall i :: 0 <= i < |cs| && i != k ==> cs[i].id != cs[k].id
    ensures Tabs(WithStatus(cs, cs[k], Aprovado)).aprovados == Tabs(cs).aprovados + 1
    ensures Tabs(WithStatus(cs, cs[k], Aprovado)).pendentes + 1 == Tabs(cs).pendentes
    ensures Tabs(WithStatus(cs, cs[k], Aprovado)).todos == Tabs(cs).todos
  {
    WithStatusMovesOne(cs, cs[k], Aprovado, k);
  }

  /**
   * `handleApprove`: the voucher becomes approved; its numbers are generated
   * and, when a raffle is open, appended after the existing ones, tagged with
   * the voucher's owner and the first open raffle.
   */
  method HandleApprove(store: LocalStorage, comprovante: Comprovante, rand: nat -> real)
    requires ValidSource(rand)
    modifies store
    ensures store.comprovantes == WithStatus(old(store.comprovantes), comprovante, Aprovado)
    ensures CurrentRaffle(old(store.sorteios)).None? ==> store.numerosRifa == old(store.numerosRifa)
    ensures CurrentRaffle(old(store.sorteios)).Some? ==>
      IssuedAfter(old(store.numerosRifa), store.numerosRifa, comprovante.id_usuario,
                  CurrentRaffle(old(store.sorteios)).value.id,
                  TicketCount(comprovante.valor_informado, old(store.systemConfig)), rand)
    ensures store.users == old(store.users) && store.sorteios == old(store.sorteios)
    ensures store.cupons == old(store.cupons) && store.systemConfig == old(store.systemConfig)
  {
    store.comprovantes := WithStatus(store.comprovantes, comprovante, Aprovado);
    var numbers := GenerateRaffleNumbers(comprovante.valor_informado, store.systemConfig, rand);
    var currentRaffle := CurrentRaffle(store.sorteios);
    if currentRaffle.Some? {
      TagIssues(store.numerosRifa, numbers, comprovante.id_usuario, currentRaffle.value.id, rand);
      store.numerosRifa := store.numerosRifa + Tag(numbers, comprovante.id_usuario, currentRaffle.value.id);
    }
  }

  /** `handleReject`: the voucher becomes rejected; nothing else is written. */
  method HandleReject(store: LocalStorage, comprovante: Comprovante)
    modifies store
    ensures store.comprovantes == WithStatus(old(store.comprovantes), comprovante, Rejeitado)
    ensures store.numerosRifa == old(store.numerosRifa)
    ensures store.users == old(store.users) && store.sorteios == old(store.sorteios)
    ensures store.cupons == old(store.cupons) && store.systemConfig == old(store.systemConfig)
  {
    store.comprovantes := WithStatus(store.comprovantes, comprovante, Rejeitado);
  }
}
