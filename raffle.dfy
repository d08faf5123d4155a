/**
 * Ticket allocation and the voucher validator of the raffle utilities:
 * a deposit buys `floor(valor / blockValue) * numbersPerBlock` random
 * five-digit numbers.
 */
module Raffle {
  import opened Wrappers
  import opened Records
  import opened Text

  const DefaultBlockValue: real := 100.0
  const DefaultNumbersPerBlock: int := 10

  /** `config.blockValue || 100`: an absent or zero value falls back to the default. */
  function BlockValue(cfg: SystemConfig): (bv: real)
    ensures bv != 0.0
    ensures cfg.blockValue.None? || cfg.blockValue == Some(0.0) ==> bv == DefaultBlockValue
    ensures cfg.blockValue.Some? && cfg.blockValue.value != 0.0 ==> bv == cfg.blockValue.value
  {
    match cfg.blockValue
    case Some(v) => if v != 0.0 then v else DefaultBlockValue
    case None => DefaultBlockValue
  }

  /** `config.numbersPerBlock || 10`. */
  function NumbersPerBlock(cfg: SystemConfig): (npb: int)
    ensures npb != 0
    ensures cfg.numbersPerBlock.None? || cfg.numbersPerBlock == Some(0) ==> npb == DefaultNumbersPerBlock
    ensures cfg.numbersPerBlock.Some? && cfg.numbersPerBlock.value != 0 ==> npb == cfg.numbersPerBlock.value
  {
    match cfg.numbersPerBlock
    case Some(v) => if v != 0 then v else DefaultNumbersPerBlock
    case None => DefaultNumbersPerBlock
  }

  /** `Math.floor(valor / blockValue) * numbersPerBlock`: the bound of the generating loop. */
  function TicketBound(valor: real, cfg: SystemConfig): int
  {
    (valor / BlockValue(cfg)).Floor * NumbersPerBlock(cfg)
  }

  /** How many numbers a deposit yields: the loop runs zero times for a bound below one. */
  function TicketCount(valor: real, cfg: SystemConfig): (n: nat)
    ensures TicketBound(valor, cfg) >= 0 ==> n == TicketBound(valor, cfg)
    ensures TicketBound(valor, cfg) <= 0 ==> n == 0
  {
    var bound := TicketBound(valor, cfg);
    if bound > 0 then bound else 0
  }

  /** Any amount below one block yields no numbers. */
  lemma BelowOneBlockYieldsNothing(valor: real, cfg: SystemConfig)
    requires 0.0 <= valor < BlockValue(cfg)
    ensures TicketCount(valor, cfg) == 0
  {
    assert 0.0 <= valor / BlockValue(cfg) < 1.0;
  }

  /** With nothing stored, every full 100 buys 10 numbers. */
  lemma DefaultRate(valor: real)
    requires valor >= 0.0
    ensures TicketCount(valor, SystemConfig(None, None, None, None)) == (valor / 100.0).Floor * 10
  {
  }

  lemma FloorMonotone(x: real, y: real)
    requires x <= y
    ensures x.Floor <= y.Floor
  {
  }

  lemma ScaleMonotone(a: int, b: int, k: int)
    requires a <= b && k >= 0
    ensures a * k <= b * k
  {
  }

  /**
   * A larger deposit never yields fewer numbers, for a positive block value
   * and a positive number of numbers per block.
   */
  lemma TicketCountMonotone(v1: real, v2: real, cfg: SystemConfig)
    requires v1 <= v2
    requires BlockValue(cfg) > 0.0 && NumbersPerBlock(cfg) > 0
    ensures TicketCount(v1, cfg) <= TicketCount(v2, cfg)
  {
    var bv := BlockValue(cfg);
    assert v1 / bv <= v2 / bv by {
      assert v2 / bv - v1 / bv == (v2 - v1) / bv;
    }
    FloorMonotone(v1 / bv, v2 / bv);
    ScaleMonotone((v1 / bv).Floor, (v2 / bv).Floor, NumbersPerBlock(cfg));
  }

  // ---------------------------------------------------------------- random numbers

  /** `Math.random()`, one draw per index: every draw lies in [0, 1). */
  ghost predicate ValidSource(rand: nat -> real)
  {
    forall i: nat :: 0.0 <= rand(i) < 1.0
  }

  /** `Math.floor(10000 + r * 90000)`. */
  function DrawNumber(r: real): (n: nat)
    requires 0.0 <= r < 1.0
    ensures 10000 <= n <= 99999
  {
    (10000.0 + r * 90000.0).Floor
  }

  /** Five digits, no leading zero. */
  predicate FiveDigit(s: string)
  {
    |s| == 5 && AllDigits(s) && s[0] != '0'
  }

  /** Every number in [10000, 99999] prints as five digits with no leading zero, and reads back. */
  lemma FiveDigitString(n: nat)
    requires 10000 <= n <= 99999
    ensures FiveDigit(DecimalString(n)) && DigitsValue(DecimalString(n)) == n
  {
    assert Pow10(4) == 10000 && Pow10(5) == 100000;
    DecimalStringLength(n, 4);
    DecimalStringValue(n);
  }

  /** The ticket the i-th draw produces: `Math.floor(10000 + Math.random() * 90000).toString()`. */
  function TicketString(r: real): (s: string)
    requires 0.0 <= r < 1.0
    ensures FiveDigit(s)
    ensures 10000 <= DigitsValue(s) <= 99999
  {
    var n := DrawNumber(r);
    FiveDigitString(n);
    DecimalString(n)
  }

  /**
   * `generateRaffleNumbers(valor)`: the i-th number comes from the i-th draw,
   * and there are exactly TicketCount of them. Collisions are not checked.
   */
  method GenerateRaffleNumbers(valor: real, cfg: SystemConfig, rand: nat -> real) returns (numeros: seq<string>)
    requires ValidSource(rand)
    ensures |numeros| == TicketCount(valor, cfg)
    ensures forall i :: 0 <= i < |numeros| ==> numeros[i] == TicketString(rand(i))
    ensures forall i :: 0 <= i < |numeros| ==> FiveDigit(numeros[i])
  {
    var blocos := (valor / BlockValue(cfg)).Floor;
    var total := blocos * NumbersPerBlock(cfg);
    numeros := [];
    var i := 0;
    while i < total
      invariant 0 <= i && (i <= total || i == 0)
      invariant |numeros| == i
      invariant forall k :: 0 <= k < i ==> numeros[k] == TicketString(rand(k))
    {
      var numero := TicketString(rand(i));
      numeros := numeros + [numero];
      i := i + 1;
    }
    assert total == TicketBound(valor, cfg);
  }

  /**
   * `after` is `before` followed by `count` numbers of `userId` in
   * `raffleId`, the k-th of them from the k-th draw.
   */
  ghost predicate IssuedAfter(before: seq<NumeroRifa>, after: seq<NumeroRifa>, userId: string, raffleId: string,
                              count: nat, rand: nat -> real)
    requires ValidSource(rand)
  {
    before <= after && |after| == |before| + count &&
    forall i :: |before| <= i < |after| ==>
      after[i] == NumeroRifa(userId, raffleId, TicketString(rand(i - |before|)))
  }

  /** Appending generated numbers, tagged with an owner and a raffle, issues them in draw order. */
  lemma TagIssues(before: seq<NumeroRifa>, numbers: seq<string>, userId: string, raffleId: string, rand: nat -> real)
    requires ValidSource(rand)
    requires forall i :: 0 <= i < |numbers| ==> numbers[i] == TicketString(rand(i))
    ensures IssuedAfter(before, before + Tag(numbers, userId, raffleId), userId, raffleId, |numbers|, rand)
  {
    var tagged := Tag(numbers, userId, raffleId);
    var after := before + tagged;
    forall i | |before| <= i < |after|
      ensures after[i] == NumeroRifa(userId, raffleId, TicketString(rand(i - |before|)))
    {
      assert after[i] == tagged[i - |before|] && tagged[i - |before|] in tagged;
    }
  }

  // ---------------------------------------------------------------- validator

  /** What the validator reports: the amount it read and whether it approves. */
  datatype Validation = Validation(valor_lido: real, aprovado: bool)

  /** `config.aiValidationEnabled !== false`: only a stored `false` disables it. */
  predicate AIEnabled(cfg: SystemConfig)
  {
    cfg.aiValidationEnabled != Some(false)
  }

  /**
   * `simulateAIValidation`, with the random draw `accuracy` as an input.
   * Disabled: not approved, and the declared amount is reported back.
   * Enabled: approved with the declared amount when accuracy > 0.1,
   * otherwise not approved with 80% of it.
   */
  function SimulateAIValidation(valor_informado: real, cfg: SystemConfig, accuracy: real): (v: Validation)
    ensures !AIEnabled(cfg) ==> v == Validation(valor_informado, false)
    ensures v.aprovado <==> AIEnabled(cfg) && accuracy > 0.1
    ensures v.aprovado ==> v.valor_lido == valor_informado
    ensures AIEnabled(cfg) && accuracy <= 0.1 ==> v.valor_lido == valor_informado * 0.8
    ensures AIEnabled(cfg) && !v.aprovado && valor_informado > 0.0 ==> v.valor_lido < valor_informado
  {
    if !AIEnabled(cfg) then Validation(valor_informado, false)
    else if accuracy > 0.1 then Validation(valor_informado, true)
    else Validation(valor_informado * 0.8, false)
  }
}
