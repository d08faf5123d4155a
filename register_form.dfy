/**
 * The sign-up form: the CPF field reformatted on every keystroke, and the
 * list of errors built on submit, in field order, before `register` is called.
 */
module RegisterForm {
  import opened Wrappers
  import opened Text
  import opened Auth

  /** What the user typed. */
  datatype RegisterData = RegisterData(nome: string, email: string, cpf: string, senha: string, confirmarSenha: string)

  /** What is handed to `register`. */
  datatype RegisterRequest = RegisterRequest(nome: string, email: string, cpf: string, senha: string)

  datatype RegisterError =
    | NomeObrigatorio | EmailObrigatorio | EmailInvalido | CpfObrigatorio | CpfInvalido
    | SenhaObrigatoria | SenhaCurta | SenhasDiferentes

  /** The message shown for each error. */
  function Message(e: RegisterError): string
  {
    match e
    case NomeObrigatorio => "Nome é obrigatório"
    case EmailObrigatorio => "Email é obrigatório"
    case EmailInvalido => "Email inválido"
    case CpfObrigatorio => "CPF é obrigatório"
    case CpfInvalido => "CPF inválido"
    case SenhaObrigatoria => "Senha é obrigatória"
    case SenhaCurta => "Senha deve ter pelo menos 6 caracteres"
    case SenhasDiferentes => "Senhas não coincidem"
  }

  /** The field an error is about, in the order the form checks them. */
  function Field(e: RegisterError): nat
  {
    match e
    case NomeObrigatorio => 0
    case EmailObrigatorio => 1
    case EmailInvalido => 1
    case CpfObrigatorio => 2
    case CpfInvalido => 2
    case SenhaObrigatoria => 3
    case SenhaCurta => 3
    case SenhasDiferentes => 4
  }

  /** Every field acceptable. */
  predicate FormValid(f: RegisterData)
  {
    Trim(f.nome) != [] && ValidateEmail(f.email) && ValidateCPF(f.cpf) &&
    |f.senha| >= 6 && f.senha == f.confirmarSenha
  }

  /** `handleCPFChange`: the CPF field holds the formatted text. */
  function HandleCPFChange(f: RegisterData, value: string): (g: RegisterData)
    ensures g.cpf == FormatCPF(value) && g == f.(cpf := g.cpf)
    ensures ValidateCPF(g.cpf) <==> |Digits(value)| >= 11
  {
    ValidateFormattedCPF(value);
    f.(cpf := FormatCPF(value))
  }

  /** Feeding the formatted field back through the handler changes nothing. */
  lemma CPFChangeStable(f: RegisterData, value: string)
    ensures var g := HandleCPFChange(f, value); HandleCPFChange(g, g.cpf) == g
  {
    FormatCPFIdempotent(value);
  }

  /** The outcome of each test `handleSubmit` makes, in the order it makes them. */
  datatype Checks = Checks(nomeVazio: bool, emailVazio: bool, emailValido: bool, cpfVazio: bool, cpfValido: bool,
                           senhaVazia: bool, senhaCurta: bool, senhasDiferem: bool)

  function ChecksOf(f: RegisterData): Checks
  {
    Checks(Trim(f.nome) == [], f.email == [], ValidateEmail(f.email), f.cpf == [], ValidateCPF(f.cpf),
           f.senha == [], |f.senha| < 6, f.senha != f.confirmarSenha)
  }

  // The errors each field contributes, in the order `handleSubmit` checks them.

  function NameErrors(c: Checks): (r: seq<RegisterError>)
  {
    if c.nomeVazio then [NomeObrigatorio] else []
  }

  function EmailErrors(c: Checks): (r: seq<RegisterError>)
  {
    if c.emailVazio then [EmailObrigatorio] else if !c.emailValido then [EmailInvalido] else []
  }

  function CpfErrors(c: Checks): (r: seq<RegisterError>)
  {
    if c.cpfVazio then [CpfObrigatorio] else if !c.cpfValido then [CpfInvalido] else []
  }

  function PasswordErrors(c: Checks): (r: seq<RegisterError>)
  {
    if c.senhaVazia then [SenhaObrigatoria] else if c.senhaCurta then [SenhaCurta] else []
  }

  function ConfirmErrors(c: Checks): (r: seq<RegisterError>)
  {
    if c.senhasDiferem then [SenhasDiferentes] else []
  }

  /** The error list for a set of test outcomes, field by field. */
  function ErrorsOf(c: Checks): seq<RegisterError>
  {
    NameErrors(c) + EmailErrors(c) + CpfErrors(c) + PasswordErrors(c) + ConfirmErrors(c)
  }

  /** The error list for a form. */
  function RegisterErrors(f: RegisterData): seq<RegisterError>
  {
    ErrorsOf(ChecksOf(f))
  }

  /** The condition under which `handleSubmit` pushes each error. */
  predicate Pushed(c: Checks, x: RegisterError)
  {
    match x
    case NomeObrigatorio => c.nomeVazio
    case EmailObrigatorio => c.emailVazio
    case EmailInvalido => !c.emailVazio && !c.emailValido
    case CpfObrigatorio => c.cpfVazio
    case CpfInvalido => !c.cpfVazio && !c.cpfValido
    case SenhaObrigatoria => c.senhaVazia
    case SenhaCurta => !c.senhaVazia && c.senhaCurta
    case SenhasDiferentes => c.senhasDiferem
  }

  /** An error is in the list exactly when its condition holds. */
  lemma InErrorsOf(c: Checks, x: RegisterError)
    ensures x in ErrorsOf(c) <==> Pushed(c, x)
  {
    var n, e, k, p, d := NameErrors(c), EmailErrors(c), CpfErrors(c), PasswordErrors(c), ConfirmErrors(c);
    assert x in ErrorsOf(c) <==> x in n || x in e || x in k || x in p || x in d;
    assert x in n <==> x == NomeObrigatorio && c.nomeVazio;
    assert x in e <==> (x == EmailObrigatorio && c.emailVazio) || (x == EmailInvalido && !c.emailVazio && !c.emailValido);
    assert x in k <==> (x == CpfObrigatorio && c.cpfVazio) || (x == CpfInvalido && !c.cpfVazio && !c.cpfValido);
    assert x in p <==> (x == SenhaObrigatoria && c.senhaVazia) || (x == SenhaCurta && !c.senhaVazia && c.senhaCurta);
    assert x in d <==> x == SenhasDiferentes && c.senhasDiferem;
  }

  /** Each error appears exactly under the outcome that pushes it. */
  lemma ErrorsOfByField(c: Checks)
    ensures NomeObrigatorio in ErrorsOf(c) <==> c.nomeVazio
    ensures EmailObrigatorio in ErrorsOf(c) <==> c.emailVazio
    ensures EmailInvalido in ErrorsOf(c) <==> !c.emailVazio && !c.emailValido
    ensures CpfObrigatorio in ErrorsOf(c) <==> c.cpfVazio
    ensures CpfInvalido in ErrorsOf(c) <==> !c.cpfVazio && !c.cpfValido
    ensures SenhaObrigatoria in ErrorsOf(c) <==> c.senhaVazia
    ensures SenhaCurta in ErrorsOf(c) <==> !c.senhaVazia && c.senhaCurta
    ensures SenhasDiferentes in ErrorsOf(c) <==> c.senhasDiferem
  {
    InErrorsOf(c, NomeObrigatorio);
    InErrorsOf(c, EmailObrigatorio);
    InErrorsOf(c, EmailInvalido);
    InErrorsOf(c, CpfObrigatorio);
    InErrorsOf(c, CpfInvalido);
    InErrorsOf(c, SenhaObrigatoria);
    InErrorsOf(c, SenhaCurta);
    InErrorsOf(c, SenhasDiferentes);
  }

  /** There is no error exactly when every field is acceptable. */
  lemma RegisterErrorsEmptyIff(f: RegisterData)
    ensures RegisterErrors(f) == [] <==> FormValid(f)
  {
    if f.cpf == [] {
      assert Digits(f.cpf) == [];
    }
  }

  /** At most one error per field, in field order. */
  lemma RegisterErrorsOrdered(f: RegisterData)
    ensures forall i, j :: 0 <= i < j < |RegisterErrors(f)| ==>
      Field(RegisterErrors(f)[i]) < Field(RegisterErrors(f)[j])
  {
    ErrorsOfOrdered(ChecksOf(f));
  }

  /** At most one error per field, in field order. */
  predicate Ordered(s: seq<RegisterError>)
  {
    forall i, j :: 0 <= i < j < |s| ==> Field(s[i]) < Field(s[j])
  }

  /** Appending at most one error of a later field keeps the list ordered. */
  lemma AppendOrdered(a: seq<RegisterError>, b: seq<RegisterError>, field: nat)
    requires Ordered(a) && forall x :: x in a ==> Field(x) < field
    requires |b| <= 1 && forall y :: y in b ==> Field(y) == field
    ensures Ordered(a + b) && forall x :: x in a + b ==> Field(x) < field + 1
  {
    var s := a + b;
    forall i, j | 0 <= i < j < |s| ensures Field(s[i]) < Field(s[j]) {
      if j >= |a| {
        assert s[j] == b[j - |a|] && b[j - |a|] in b;
        assert s[i] == a[i] && a[i] in a;
      } else {
        assert s[i] == a[i] && s[j] == a[j];
      }
    }
  }

  /** Each field contributes at most one error, about that field. */
  lemma FieldShapes(c: Checks)
    ensures |NameErrors(c)| <= 1 && forall y :: y in NameErrors(c) ==> Field(y) == 0
    ensures |EmailErrors(c)| <= 1 && forall y :: y in EmailErrors(c) ==> Field(y) == 1
    ensures |CpfErrors(c)| <= 1 && forall y :: y in CpfErrors(c) ==> Field(y) == 2
    ensures |PasswordErrors(c)| <= 1 && forall y :: y in PasswordErrors(c) ==> Field(y) == 3
    ensures |ConfirmErrors(c)| <= 1 && forall y :: y in ConfirmErrors(c) ==> Field(y) == 4
  {
  }

  lemma ErrorsOfOrdered(c: Checks)
    ensures Ordered(ErrorsOf(c))
  {
    var n, e, k, p, d := NameErrors(c), EmailErrors(c), CpfErrors(c), PasswordErrors(c), ConfirmErrors(c);
    FieldShapes(c);
    AppendOrdered([], n, 0);
    assert [] + n == n;
    AppendOrdered(n, e, 1);
    AppendOrdered(n + e, k, 2);
    AppendOrdered(n + e + k, p, 3);
    AppendOrdered(n + e + k + p, d, 4);
  }

  /**
   * A missing value and an invalid one give different errors, and the
   * confirmation is compared whatever the password errors.
   */
  lemma RegisterErrorsByField(f: RegisterData)
    ensures NomeObrigatorio in RegisterErrors(f) <==> Trim(f.nome) == []
    ensures EmailObrigatorio in RegisterErrors(f) <==> f.email == []
    ensures EmailInvalido in RegisterErrors(f) <==> f.email != [] && !ValidateEmail(f.email)
    ensures CpfObrigatorio in RegisterErrors(f) <==> f.cpf == []
    ensures CpfInvalido in RegisterErrors(f) <==> f.cpf != [] && !ValidateCPF(f.cpf)
    ensures SenhaObrigatoria in RegisterErrors(f) <==> f.senha == []
    ensures SenhaCurta in RegisterErrors(f) <==> 0 < |f.senha| < 6
    ensures SenhasDiferentes in RegisterErrors(f) <==> f.senha != f.confirmarSenha
  {
    ErrorsOfByField(ChecksOf(f));
  }

  /**
   * `handleSubmit`: the errors are pushed field by field; without errors,
   * `register` gets the trimmed name and the other fields as typed.
   */
  method HandleSubmit(f: RegisterData) returns (errors: seq<RegisterError>, request: Option<RegisterRequest>)
    ensures errors == RegisterErrors(f)
    ensures request.Some? <==> FormValid(f)
    ensures request.Some? ==> request.value == RegisterRequest(Trim(f.nome), f.email, f.cpf, f.senha)
  {
    ghost var c := ChecksOf(f);
    errors := [];
    if Trim(f.nome) == [] {
      errors := errors + [NomeObrigatorio];
    }
    assert errors == NameErrors(c);
    ghost var before := errors;
    if f.email == [] {
      errors := errors + [EmailObrigatorio];
    } else if !ValidateEmail(f.email) {
      errors := errors + [EmailInvalido];
    }
    assert errors == before + EmailErrors(c);
    before := errors;
    if f.cpf == [] {
      errors := errors + [CpfObrigatorio];
    } else if !ValidateCPF(f.cpf) {
      errors := errors + [CpfInvalido];
    }
    assert errors == before + CpfErrors(c);
    before := errors;
    if f.senha == [] {
      errors := errors + [SenhaObrigatoria];
    } else if |f.senha| < 6 {
      errors := errors + [SenhaCurta];
    }
    assert errors == before + PasswordErrors(c);
    before := errors;
    if f.senha != f.confirmarSenha {
      errors := errors + [SenhasDiferentes];
    }
    assert errors == before + ConfirmErrors(c);
    assert errors == RegisterErrors(f);
    RegisterErrorsEmptyIff(f);
    if |errors| > 0 {
      request := None;
    } else {
      request := Some(RegisterRequest(Trim(f.nome), f.email, f.cpf, f.senha));
    }
  }
}
