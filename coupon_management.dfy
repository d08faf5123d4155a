/**
 * The admin's coupon screen: creating, editing, switching on and off and
 * deleting coupons, and the status each coupon is shown with.
 */
module CouponManagement {
  import opened Wrappers
  import opened Records
  import Seqs
  import opened Text
  import opened Storage

  // ---------------------------------------------------------------- status

  /** `isExpired`: an expiry date strictly before now; never without one. */
  predicate IsExpired(c: Cupom, now: int)
  {
    match c.data_expiracao
    case None => false
    case Some(t) => t < now
  }

  /** `isMaxUsageReached`: an absent or zero limit is no limit. */
  predicate IsMaxUsageReached(c: Cupom)
  {
    match c.uso_maximo
    case None => false
    case Some(m) => m != 0 && c.uso_atual >= m
  }

  datatype CouponStatus = Inativo | Expirado | Esgotado | Ativo

  /** `getCouponStatus`: switched off, then expired, then used up, else active. */
  function GetCouponStatus(c: Cupom, now: int): (st: CouponStatus)
    ensures st == Inativo <==> !c.ativo
    ensures st == Expirado <==> c.ativo && IsExpired(c, now)
    ensures st == Esgotado <==> c.ativo && !IsExpired(c, now) && IsMaxUsageReached(c)
    ensures st == Ativo <==> c.ativo && !IsExpired(c, now) && !IsMaxUsageReached(c)
  {
    if !c.ativo then Inativo
    else if IsExpired(c, now) then Expirado
    else if IsMaxUsageReached(c) then Esgotado
    else Ativo
  }

  /** A coupon with no expiry and no limit is active exactly when it is switched on. */
  lemma UnlimitedStatus(c: Cupom, now: int)
    requires c.data_expiracao.None? && (c.uso_maximo.None? || c.uso_maximo == Some(0))
    ensures GetCouponStatus(c, now) == if c.ativo then Ativo else Inativo
  {
  }

  /** Once expired, a coupon stays expired as time goes on. */
  lemma ExpiryIsPermanent(c: Cupom, now: int, later: int)
    requires now <= later && IsExpired(c, now)
    ensures IsExpired(c, later)
  {
  }

  // ---------------------------------------------------------------- list edits

  /** `createCoupon` refuses a code that is blank after trimming and a value that is not positive. */
  predicate CanCreate(codigo: string, valor: int)
  {
    Trim(codigo) != [] && valor > 0
  }

  /** The coupon `createCoupon` appends. */
  function NewCoupon(id: string, codigo: string, tipo: CouponKind, valor: int, usoMaximo: Option<int>,
                     expiracao: Option<int>, now: int): (c: Cupom)
    ensures c.codigo == ToUpper(Trim(codigo)) && c.ativo && c.uso_atual == 0
    ensures c.data_criacao == now && c.data_expiracao == expiracao && c.uso_maximo == usoMaximo
  {
    Cupom(id, ToUpper(Trim(codigo)), tipo, valor, true, now, expiracao, usoMaximo, 0)
  }

  /** A new coupon with a positive limit (or none) and no past expiry shows as active. */
  lemma NewCouponIsActive(id: string, codigo: string, tipo: CouponKind, valor: int, usoMaximo: Option<int>,
                          expiracao: Option<int>, now: int)
    requires usoMaximo.None? || usoMaximo.value > 0
    requires expiracao.None? || expiracao.value >= now
    ensures GetCouponStatus(NewCoupon(id, codigo, tipo, valor, usoMaximo, expiracao, now), now) == Ativo
  {
  }

  /** Entering an already normalised code normalises to itself. */
  lemma CodeNormalisationIdempotent(codigo: string)
    ensures ToUpper(Trim(ToUpper(Trim(codigo)))) == ToUpper(Trim(codigo))
  {
    var t := Trim(codigo);
    var u := ToUpper(t);
    assert u == [] || (!IsSpace(u[0]) && !IsSpace(u[|u| - 1])) by {
      if u != [] {
        UpperKeepsSpace(t[0]);
        UpperKeepsSpace(t[|t| - 1]);
      }
    }
    TrimNoSpace(u);
    ToUpperIdempotent(t);
  }

  /** Upper-casing never turns a letter into white space. */
  lemma UpperKeepsSpace(ch: char)
    requires !IsSpace(ch)
    ensures !IsSpace(UpperChar(ch))
  {
  }

  /** `cupons.map(c => c.id === cupom.id ? cupom : c)`. */
  function ReplaceCoupon(cs: seq<Cupom>, cupom: Cupom): (r: seq<Cupom>)
    ensures |r| == |cs|
    ensures forall i :: 0 <= i < |cs| && cs[i].id != cupom.id ==> r[i] == cs[i]
    ensures forall i :: 0 <= i < |cs| && cs[i].id == cupom.id ==> r[i] == cupom
  {
    seq(|cs|, i requires 0 <= i < |cs| => if cs[i].id == cupom.id then cupom else cs[i])
  }

  /** Saving the same edit twice is the same as saving it once. */
  lemma ReplaceCouponIdempotent(cs: seq<Cupom>, cupom: Cupom)
    ensures ReplaceCoupon(ReplaceCoupon(cs, cupom), cupom) == ReplaceCoupon(cs, cupom)
  {
  }

  /** `cupons.filter(c => c.id !== id)`. */
  function WithoutCoupon(cs: seq<Cupom>, id: string): (r: seq<Cupom>)
    ensures forall c :: c in r <==> c in cs && c.id != id
    ensures |r| <= |cs|
  {
    Seqs.Filter(cs, (c: Cupom) => c.id != id)
  }

  /** Deleting keeps the remaining coupons in order: it distributes over concatenation. */
  lemma WithoutCouponKeepsOrder(a: seq<Cupom>, b: seq<Cupom>, id: string)
    ensures WithoutCoupon(a + b, id) == WithoutCoupon(a, id) + WithoutCoupon(b, id)
  {
    Seqs.FilterAppend(a, b, (c: Cupom) => c.id != id);
  }

  /** Deleting an id that no coupon has changes nothing. */
  lemma WithoutAbsentCoupon(cs: seq<Cupom>, id: string)
    requires forall i :: 0 <= i < |cs| ==> cs[i].id != id
    ensures WithoutCoupon(cs, id) == cs
  {
    Seqs.FilterKeepsAll(cs, (c: Cupom) => c.id != id);
  }

  /** `cupons.map(c => c.id === id ? { ...c, ativo: !c.ativo } : c)`. */
  function Toggled(cs: seq<Cupom>, id: string): (r: seq<Cupom>)
    ensures |r| == |cs|
    ensures forall i :: 0 <= i < |cs| && cs[i].id != id ==> r[i] == cs[i]
    ensures forall i :: 0 <= i < |cs| && cs[i].id == id ==> r[i] == cs[i].(ativo := !cs[i].ativo)
  {
    seq(|cs|, i requires 0 <= i < |cs| => if cs[i].id == id then cs[i].(ativo := !cs[i].ativo) else cs[i])
  }

  /** Toggling twice restores the list. */
  lemma ToggleTwice(cs: seq<Cupom>, id: string)
    ensures Toggled(Toggled(cs, id), id) == cs
  {
    var r := Toggled(Toggled(cs, id), id);
    forall i | 0 <= i < |cs| ensures r[i] == cs[i] {
      if cs[i].id == id {
        assert cs[i].(ativo := !cs[i].ativo).(ativo := cs[i].ativo) == cs[i];
      }
    }
  }

  /** Toggling switches a coupon's shown status between Inativo and the one it has when on. */
  lemma ToggleStatus(c: Cupom, now: int)
    ensures c.ativo ==> GetCouponStatus(c.(ativo := false), now) == Inativo
    ensures !c.ativo ==> GetCouponStatus(c.(ativo := true), now) != Inativo
  {
  }

  // ---------------------------------------------------------------- handlers

  /**
   * `createCoupon`: unless refused, the normalised coupon is appended last.
   * `newId` and `now` stand for `Date.now()`.
   */
  method CreateCoupon(store: LocalStorage, codigo: string, tipo: CouponKind, valor: int,
                      usoMaximo: Option<int>, expiracao: Option<int>, newId: string, now: int)
    modifies store
    ensures !CanCreate(codigo, valor) ==> store.cupons == old(store.cupons)
    ensures CanCreate(codigo, valor) ==>
      store.cupons == old(store.cupons) + [NewCoupon(newId, codigo, tipo, valor, usoMaximo, expiracao, now)]
    ensures store.users == old(store.users) && store.comprovantes == old(store.comprovantes)
    ensures store.numerosRifa == old(store.numerosRifa) && store.sorteios == old(store.sorteios)
    ensures store.systemConfig == old(store.systemConfig)
  {
    if Trim(codigo) == [] || valor <= 0 {
      return;
    }
    var cupom := NewCoupon(newId, codigo, tipo, valor, usoMaximo, expiracao, now);
    store.cupons := store.cupons + [cupom];
  }

  /** `updateCoupon`: only the coupons with the edited coupon's id are replaced. */
  method UpdateCoupon(store: LocalStorage, cupom: Cupom)
    modifies store
    ensures store.cupons == ReplaceCoupon(old(store.cupons), cupom)
    ensures store.users == old(store.users) && store.comprovantes == old(store.comprovantes)
    ensures store.numerosRifa == old(store.numerosRifa) && store.sorteios == old(store.sorteios)
    ensures store.systemConfig == old(store.systemConfig)
  {
    store.cupons := ReplaceCoupon(store.cupons, cupom);
  }

  /** `deleteCoupon`: once confirmed, the coupons with that id are removed. */
  method DeleteCoupon(store: LocalStorage, id: string, confirmed: bool)
    modifies store
    ensures !confirmed ==> store.cupons == old(store.cupons)
    ensures confirmed ==> store.cupons == WithoutCoupon(old(store.cupons), id)
    ensures store.users == old(store.users) && store.comprovantes == old(store.comprovantes)
    ensures store.numerosRifa == old(store.numerosRifa) && store.sorteios == old(store.sorteios)
    ensures store.systemConfig == old(store.systemConfig)
  {
    if confirmed {
      store.cupons := WithoutCoupon(store.cupons, id);
    }
  }

  /** `toggleCouponStatus`: the coupons with that id are switched on or off. */
  method ToggleCouponStatus(store: LocalStorage, id: string)
    modifies store
    ensures store.cupons == Toggled(old(store.cupons), id)
    ensures store.users == old(store.users) && store.comprovantes == old(store.comprovantes)
    ensures store.numerosRifa == old(store.numerosRifa) && store.sorteios == old(store.sorteios)
    ensures store.systemConfig == old(store.systemConfig)
  {
    store.cupons := Toggled(store.cupons, id);
  }
}
