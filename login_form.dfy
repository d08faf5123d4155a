/** The login form: the list of errors built on submit, before `login` is called. */
module LoginForm {
  import opened Wrappers
  import opened Auth

  datatype LoginData = LoginData(email: string, password: string)

  datatype LoginError = EmailObrigatorio | EmailInvalido | SenhaObrigatoria

  function Message(e: LoginError): string
  {
    match e
    case EmailObrigatorio => "Email é obrigatório"
    case EmailInvalido => "Email inválido"
    case SenhaObrigatoria => "Senha é obrigatória"
  }

  /**
   * `handleSubmit`: an e-mail error (missing or invalid, not both) before a
   * missing-password error. `login` is called, with the fields as typed,
   * only when there is no error.
   */
  method HandleSubmit(f: LoginData) returns (errors: seq<LoginError>, credentials: Option<LoginData>)
    ensures errors == [] <==> ValidateEmail(f.email) && f.password != []
    ensures |errors| <= 2
    ensures |errors| == 2 ==> errors[0] != SenhaObrigatoria && errors[1] == SenhaObrigatoria
    ensures EmailObrigatorio in errors <==> f.email == []
    ensures EmailInvalido in errors <==> f.email != [] && !ValidateEmail(f.email)
    ensures SenhaObrigatoria in errors <==> f.password == []
    ensures credentials.Some? <==> errors == []
    ensures credentials.Some? ==> credentials.value == f
  {
    errors := [];
    if f.email == [] {
      errors := errors + [EmailObrigatorio];
    } else if !ValidateEmail(f.email) {
      errors := errors + [EmailInvalido];
    }
    if f.password == [] {
      errors := errors + [SenhaObrigatoria];
    }
    if |errors| > 0 {
      return errors, None;
    }
    credentials := Some(f);
  }
}
