/**
 * The password dialog (`PasswordModal`): two text fields and the decision of
 * when a submit confirms, and with what. `onConfirm` is modelled by the value
 * the handlers return: the argument it was called with, or nothing when it
 * was not called. Visibility toggles and the markup are not modelled.
 */
module Password {
  import opened Wrappers

  /** `'set'` protects a new session; `'verify'` opens a protected one. */
  datatype Modo = Establecer | Verificar

  /** What `onConfirm` receives; `Confirma(None)` is the call with `null`. */
  datatype Confirmacion = SinConfirmar | Confirma(password: Option<string>)

  /** `canSubmit`, the condition under which the submit button is enabled. */
  predicate PuedeEnviar(modo: Modo, password: string, confirmacion: string)
  {
    if modo == Verificar then |password| > 0
    else |password| == 0 || (|password| > 0 && password == confirmacion)
  }

  /** What `handleSubmit` passes to `onConfirm` for a given state. */
  function Enviar(modo: Modo, password: string, confirmacion: string): (r: Confirmacion)
    ensures r.SinConfirmar? <==> modo == Establecer && password != "" && password != confirmacion
    ensures r.Confirma? && modo == Establecer ==> r.password == (if password == "" then None else Some(password))
    ensures r.Confirma? && modo == Verificar ==> r.password == Some(password)
  {
    if modo == Establecer then
      if password != "" && password != confirmacion then SinConfirmar
      else Confirma(if password != "" then Some(password) else None)
    else Confirma(Some(password))
  }

  /** Whenever the button is enabled, pressing it confirms. */
  lemma PuedeEnviarConfirma(modo: Modo, password: string, confirmacion: string)
    requires PuedeEnviar(modo, password, confirmacion)
    ensures Enviar(modo, password, confirmacion).Confirma?
  {
  }

  /**
   * In set mode the enabled button and a confirming submit coincide; in
   * verify mode `handleSubmit` alone would also confirm an empty password,
   * which only the disabled button prevents.
   */
  lemma EnviarSegunModo(password: string, confirmacion: string)
    ensures PuedeEnviar(Establecer, password, confirmacion) <==> Enviar(Establecer, password, confirmacion).Confirma?
    ensures Enviar(Verificar, "", confirmacion) == Confirma(Some(""))
    ensures !PuedeEnviar(Verificar, "", confirmacion)
  {
  }

  class Dialogo {
    const modo: Modo
    var password: string
    var confirmPassword: string

    constructor (modo: Modo)
      ensures this.modo == modo && password == "" && confirmPassword == ""
    {
      this.modo := modo;
      password := "";
      confirmPassword := "";
    }

    /** The password field's `onChange`. */
    method EscribirPassword(texto: string)
      modifies this
      ensures password == texto && confirmPassword == old(confirmPassword)
    {
      password := texto;
    }

    /** The confirmation field's `onChange`. */
    method EscribirConfirmacion(texto: string)
      modifies this
      ensures confirmPassword == texto && password == old(password)
    {
      confirmPassword := texto;
    }

    predicate CanSubmit()
      reads this
    {
      PuedeEnviar(modo, password, confirmPassword)
    }

    /**
     * `handleSubmit`: a mismatched new password returns early and keeps both
     * fields; every other submit confirms and clears them.
     */
    method HandleSubmit() returns (c: Confirmacion)
      modifies this
      ensures c == Enviar(modo, old(password), old(confirmPassword))
      ensures old(CanSubmit()) ==> c.Confirma?
      ensures c.SinConfirmar? ==> password == old(password) && confirmPassword == old(confirmPassword)
      ensures c.Confirma? ==> password == "" && confirmPassword == ""
    {
      if modo == Establecer {
        if password != "" && password != confirmPassword {
          return SinConfirmar;
        }
        c := Confirma(if password != "" then Some(password) else None);
      } else {
        c := Confirma(Some(password));
      }
      password := "";
      confirmPassword := "";
    }

    /** `handleSkip`: confirms without a password and clears both fields. */
    method HandleSkip() returns (c: Confirmacion)
      modifies this
      ensures c == Confirma(None)
      ensures password == "" && confirmPassword == ""
    {
      c := Confirma(None);
      password := "";
      confirmPassword := "";
    }
  }
}
