/**
 * The records kept in browser storage, with the field names the components
 * read, and the queries several components share.
 */
module Records {
  import opened Wrappers
  import Seqs

  datatype VoucherStatus = Pendente | Aprovado | Rejeitado
  datatype RaffleStatus = Aberto | Encerrado
  /** `quantidade`: extra numbers; `percentual`: a percentage discount. */
  datatype CouponKind = Quantidade | Percentual

  /** An entry of `users`; a missing `isAdmin` reads as false. */
  datatype User = User(id: string, nome: string, email: string, cpf: string, isAdmin: bool)

  /** An entry of `comprovantes`: a deposit voucher. */
  datatype Comprovante = Comprovante(
    id: string,
    id_usuario: string,
    valor_informado: real,
    valor_lido: Option<real>,
    status: VoucherStatus,
    data_envio: int)

  /** An entry of `numerosRifa`: one ticket number owned by a user in a raffle. */
  datatype NumeroRifa = NumeroRifa(id_usuario: string, id_sorteio: string, numero_gerado: string)

  /** An entry of `sorteios`: a raffle. */
  datatype Sorteio = Sorteio(
    id: string,
    nome: string,
    data_inicio: int,
    data_fim: Option<int>,
    status: RaffleStatus,
    ganhador_id: Option<string>,
    video_link: Option<string>,
    numeros_premiados: Option<seq<string>>)

  /** An entry of `cupons`. */
  datatype Cupom = Cupom(
    id: string,
    codigo: string,
    tipo: CouponKind,
    valor: int,
    ativo: bool,
    data_criacao: int,
    data_expiracao: Option<int>,
    uso_maximo: Option<int>,
    uso_atual: int)

  /** The stored `systemConfig` object; each field may be absent. */
  datatype SystemConfig = SystemConfig(
    minDepositAmount: Option<real>,
    blockValue: Option<real>,
    numbersPerBlock: Option<int>,
    aiValidationEnabled: Option<bool>)

  // ---------------------------------------------------------------- shared queries

  function VouchersWithStatus(cs: seq<Comprovante>, st: VoucherStatus): (r: seq<Comprovante>)
    ensures forall c :: c in r <==> c in cs && c.status == st
  {
    Seqs.Filter(cs, (c: Comprovante) => c.status == st)
  }

  function VouchersOf(cs: seq<Comprovante>, userId: string): (r: seq<Comprovante>)
    ensures forall c :: c in r <==> c in cs && c.id_usuario == userId
  {
    Seqs.Filter(cs, (c: Comprovante) => c.id_usuario == userId)
  }

  function NumbersOf(ns: seq<NumeroRifa>, userId: string): (r: seq<NumeroRifa>)
    ensures forall n :: n in r <==> n in ns && n.id_usuario == userId
  {
    Seqs.Filter(ns, (n: NumeroRifa) => n.id_usuario == userId)
  }

  function NumbersIn(ns: seq<NumeroRifa>, raffleId: string): (r: seq<NumeroRifa>)
    ensures forall n :: n in r <==> n in ns && n.id_sorteio == raffleId
  {
    Seqs.Filter(ns, (n: NumeroRifa) => n.id_sorteio == raffleId)
  }

  /** `users.filter(u => !u.isAdmin)`. */
  function RegularUsers(us: seq<User>): (r: seq<User>)
    ensures forall u :: u in r <==> u in us && !u.isAdmin
  {
    Seqs.Filter(us, (u: User) => !u.isAdmin)
  }

  /** The sort key of `new Date(c.data_envio).getTime()`: when the voucher was sent. */
  function SentAt(c: Comprovante): real
  {
    c.data_envio as real
  }

  /** `cs.reduce((sum, c) => sum + c.valor_informado, 0)`. */
  function TotalAmount(cs: seq<Comprovante>): real
  {
    Seqs.Sum(cs, (c: Comprovante) => c.valor_informado)
  }

  predicate NonNegativeAmounts(cs: seq<Comprovante>)
  {
    forall c :: c in cs ==> c.valor_informado >= 0.0
  }

  /** `sorteios.find(s => s.status === 'aberto')`: the first open raffle, if any. */
  function CurrentRaffle(ss: seq<Sorteio>): (r: Option<Sorteio>)
    ensures r.Some? ==> r.value in ss && r.value.status == Aberto
    ensures r.None? <==> forall s :: s in ss ==> s.status != Aberto
    ensures r.Some? ==> exists k :: 0 <= k < |ss| && ss[k] == r.value && forall j :: 0 <= j < k ==> ss[j].status != Aberto
  {
    Seqs.Find(ss, (s: Sorteio) => s.status == Aberto)
  }

  function OpenRaffles(ss: seq<Sorteio>): (r: seq<Sorteio>)
    ensures forall s :: s in r <==> s in ss && s.status == Aberto
  {
    Seqs.Filter(ss, (s: Sorteio) => s.status == Aberto)
  }

  /**
   * `numbers.map(numero => ({ id_usuario, id_sorteio, numero_gerado: numero }))`:
   * the new number records, one per generated string, in order.
   */
  function Tag(numbers: seq<string>, userId: string, raffleId: string): (r: seq<NumeroRifa>)
    ensures |r| == |numbers|
    ensures forall i :: 0 <= i < |r| ==> r[i].numero_gerado == numbers[i]
    ensures forall n :: n in r ==> n.id_usuario == userId && n.id_sorteio == raffleId
  {
    seq(|numbers|, i requires 0 <= i < |numbers| => NumeroRifa(userId, raffleId, numbers[i]))
  }

  // ---------------------------------------------------------------- shared facts

  /** Every voucher has exactly one of the three statuses, so the per-status counts add up. */
  lemma {:induction false} StatusCountsAddUp(cs: seq<Comprovante>)
    ensures |VouchersWithStatus(cs, Pendente)| + |VouchersWithStatus(cs, Aprovado)|
            + |VouchersWithStatus(cs, Rejeitado)| == |cs|
  {
    if cs != [] {
      StatusCountsAddUp(cs[1..]);
    }
  }

  /** The approved total never exceeds the total of all vouchers when amounts are non-negative. */
  lemma ApprovedAtMostTotal(cs: seq<Comprovante>)
    requires NonNegativeAmounts(cs)
    ensures 0.0 <= TotalAmount(VouchersWithStatus(cs, Aprovado)) <= TotalAmount(cs)
  {
    Seqs.SumFilterAtMost(cs, (c: Comprovante) => c.valor_informado, (c: Comprovante) => c.status == Aprovado);
    Seqs.SumNonNegative(VouchersWithStatus(cs, Aprovado), (c: Comprovante) => c.valor_informado);
  }

  /** The pending vouchers are among all vouchers. */
  lemma PendingAtMostAll(cs: seq<Comprovante>)
    ensures |VouchersWithStatus(cs, Pendente)| <= |cs|
  {
  }
}
