/**
 * The user's deposit form: the ticket preview while typing, and submitting a
 * voucher, which the validator may approve on the spot.
 */
module VoucherUpload {
  import opened Wrappers
  import opened Records
  import opened Text
  import opened Raffle
  import opened Storage

  /** The form's copy of the settings, each with `|| default` applied. */
  datatype UploadConfig = UploadConfig(minDepositAmount: real, blockValue: real, numbersPerBlock: int)

  const DefaultMinDeposit: real := 100.0

  /** The settings the form reads when it mounts: absent or zero means the default. */
  function LoadUploadConfig(cfg: SystemConfig): (u: UploadConfig)
    ensures u.minDepositAmount != 0.0 && u.blockValue != 0.0 && u.numbersPerBlock != 0
    ensures cfg.minDepositAmount.None? || cfg.minDepositAmount == Some(0.0) ==> u.minDepositAmount == DefaultMinDeposit
    ensures cfg.minDepositAmount.Some? && cfg.minDepositAmount.value != 0.0 ==> u.minDepositAmount == cfg.minDepositAmount.value
    ensures u.blockValue == BlockValue(cfg) && u.numbersPerBlock == NumbersPerBlock(cfg)
    ensures cfg == SystemConfig(None, None, None, None) ==> u == UploadConfig(100.0, 100.0, 10)
  {
    var minimum := match cfg.minDepositAmount
      case Some(v) => if v != 0.0 then v else DefaultMinDeposit
      case None => DefaultMinDeposit;
    UploadConfig(minimum, BlockValue(cfg), NumbersPerBlock(cfg))
  }

  /** `parseFloat(valor) || 0`: text that is not a number, or zero, counts as 0. */
  function AmountOrZero(valor: string): (v: real)
    ensures ParseFloat(valor).None? ==> v == 0.0
    ensures ParseFloat(valor).Some? ==> v == ParseFloat(valor).value
  {
    ParseFloat(valor).GetOr(0.0)
  }

  /** `calculateNumbers`: the preview shown under the amount field. */
  function CalculateNumbers(valor: string, cfg: SystemConfig): (n: int)
    ensures Digits(valor) == [] ==> n == 0
    ensures n == TicketBound(AmountOrZero(valor), cfg)
  {
    var u := LoadUploadConfig(cfg);
    ZeroQuotient(u.blockValue);
    (AmountOrZero(valor) / u.blockValue).Floor * u.numbersPerBlock
  }

  lemma ZeroQuotient(b: real)
    requires b != 0.0
    ensures (0.0 / b).Floor == 0
  {
  }

  /**
   * For the same stored settings, the preview is the number of numbers an
   * approval generates, whenever the preview is not negative; a negative
   * preview (a negative amount or block value) generates none.
   */
  lemma PreviewMatchesGenerated(valor: string, cfg: SystemConfig)
    requires ParseFloat(valor).Some?
    ensures CalculateNumbers(valor, cfg) >= 0 ==> CalculateNumbers(valor, cfg) == TicketCount(ParseFloat(valor).value, cfg)
    ensures CalculateNumbers(valor, cfg) < 0 ==> TicketCount(ParseFloat(valor).value, cfg) == 0
  {
  }

  /** What the form reports after a submission. */
  datatype UploadMessage =
    | NotSubmitted          // amount, image or user missing: nothing happens
    | Approved(count: nat)  // "Comprovante aprovado! {count} números gerados automaticamente."
    | ManualReview          // "Comprovante enviado para análise manual. ..."

  /**
   * `handleSubmit`. Without an amount, an image or a user it does nothing.
   * Otherwise a pending voucher is built, the validator's reading is stored in
   * it, and it becomes approved exactly when the validator approves; in that
   * case numbers are generated and, when a raffle is open, appended tagged
   * with the user and that raffle. The voucher is appended on both branches.
   * The minimum deposit is not checked here. `newId` and `now` stand for
   * `Date.now()`, `accuracy` for the validator's draw and `rand` for the
   * number generator's draws. The amount field is a number input, so its
   * text is empty or a numeral.
   */
  method HandleSubmit(store: LocalStorage, valor: string, hasImage: bool, user: Option<User>,
                      accuracy: real, rand: nat -> real, now: int, newId: string)
    returns (msg: UploadMessage)
    requires ValidSource(rand)
    requires valor == [] || ParseFloat(valor).Some?
    modifies store
    ensures valor == [] || !hasImage || user.None? ==>
      msg == NotSubmitted &&
      store.comprovantes == old(store.comprovantes) && store.numerosRifa == old(store.numerosRifa)
    ensures valor != [] && hasImage && user.Some? ==>
      var amount := ParseFloat(valor).value;
      var v := SimulateAIValidation(amount, old(store.systemConfig), accuracy);
      store.comprovantes == old(store.comprovantes) +
        [Comprovante(newId, user.value.id, amount, Some(v.valor_lido), if v.aprovado then Aprovado else Pendente, now)] &&
      msg == (if v.aprovado then Approved(TicketCount(amount, old(store.systemConfig))) else ManualReview) &&
      (v.aprovado && CurrentRaffle(old(store.sorteios)).Some? ==>
        IssuedAfter(old(store.numerosRifa), store.numerosRifa, user.value.id,
                    CurrentRaffle(old(store.sorteios)).value.id, TicketCount(amount, old(store.systemConfig)), rand)) &&
      (!v.aprovado || CurrentRaffle(old(store.sorteios)).None? ==> store.numerosRifa == old(store.numerosRifa))
    ensures store.users == old(store.users) && store.sorteios == old(store.sorteios)
    ensures store.cupons == old(store.cupons) && store.systemConfig == old(store.systemConfig)
  {
    if valor == [] || !hasImage || user.None? {
      return NotSubmitted;
    }
    var amount := ParseFloat(valor).value;
    var comprovante := Comprovante(newId, user.value.id, amount, None, Pendente, now);
    var validation := SimulateAIValidation(amount, store.systemConfig, accuracy);
    comprovante := comprovante.(valor_lido := Some(validation.valor_lido));
    if validation.aprovado {
      comprovante := comprovante.(status := Aprovado);
      var numbers := GenerateRaffleNumbers(amount, store.systemConfig, rand);
      var currentRaffle := CurrentRaffle(store.sorteios);
      if currentRaffle.Some? {
        TagIssues(store.numerosRifa, numbers, user.value.id, currentRaffle.value.id, rand);
        store.numerosRifa := store.numerosRifa + Tag(numbers, user.value.id, currentRaffle.value.id);
      }
      msg := Approved(|numbers|);
    } else {
      msg := ManualReview;
    }
    store.comprovantes := store.comprovantes + [comprovante];
  }
}
