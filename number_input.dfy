/**
 * The formatted number field of the main page (`FormattedNumberInput`):
 * keystrokes are filtered to digits, dots and commas, and on leaving the
 * field the Spanish notation (dot for thousands, comma for decimals) is
 * normalised to the notation `parseFloat` reads. `parseFloat` itself is a
 * parameter (`parse`), returning `None` where it would return `NaN`.
 */
module NumberInput {
  import opened Wrappers

  predicate CaracterPermitido(c: char)
  {
    '0' <= c <= '9' || c == '.' || c == ','
  }

  /** `/^[0-9.,]*$/.test(raw)` */
  predicate Aceptable(raw: string)
  {
    forall i | 0 <= i < |raw| :: CaracterPermitido(raw[i])
  }

  /** `handleChange`: the field's text after a keystroke produced `raw`. */
  function Teclear(local: string, raw: string): (r: string)
    ensures Aceptable(raw) ==> r == raw
    ensures !Aceptable(raw) ==> r == local
    ensures Aceptable(local) ==> Aceptable(r)
  {
    if Aceptable(raw) then raw else local
  }

  /** Number of occurrences of `c` in `s`. */
  function Ocurrencias(s: string, c: char): nat
  {
    if s == [] then 0 else Ocurrencias(s[..|s| - 1], c) + (if s[|s| - 1] == c then 1 else 0)
  }

  /** `s.replace(/\./g, '')`: every dot removed, the other characters kept in order. */
  function QuitarPuntos(s: string): (r: string)
    ensures '.' !in r
    ensures |r| == |s| - Ocurrencias(s, '.')
    ensures forall c | c in r :: c in s
  {
    if s == [] then ""
    else
      var init := QuitarPuntos(s[..|s| - 1]);
      assert forall c | c in s[..|s| - 1] :: c in s;
      if s[|s| - 1] == '.' then init else init + [s[|s| - 1]]
  }

  /** Position of the first comma, if any. */
  function IndiceComa(s: string): (r: Option<nat>)
    ensures r.None? <==> ',' !in s
    ensures r.Some? ==> r.value < |s| && s[r.value] == ',' && ',' !in s[..r.value]
  {
    if s == [] then None
    else if s[0] == ',' then Some(0)
    else
      match IndiceComa(s[1..])
      case None =>
        assert s == [s[0]] + s[1..];
        None
      case Some(k) =>
        assert s[..k + 1] == [s[0]] + s[1..][..k];
        Some(k + 1)
  }

  /** `s.replace(',', '.')`: only the first comma becomes a dot. */
  function PrimeraComaAPunto(s: string): (r: string)
    ensures |r| == |s|
    ensures ',' !in s ==> r == s
    ensures forall i | 0 <= i < |s| :: r[i] == (if IndiceComa(s) == Some(i) then '.' else s[i])
  {
    match IndiceComa(s)
    case None => s
    case Some(k) => s[k := '.']
  }

  /** `handleBlur`'s normalisation: drop the thousands dots, then turn the decimal comma into a dot. */
  function Normalizar(s: string): string
  {
    PrimeraComaAPunto(QuitarPuntos(s))
  }

  lemma {:induction false} OcurrenciasCambio(s: string, k: nat, c: char)
    requires k < |s| && s[k] != c
    ensures Ocurrencias(s[k := c], c) == Ocurrencias(s, c) + 1
    decreases |s|
  {
    var n := |s| - 1;
    if k == n {
      assert s[k := c][..n] == s[..n];
    } else {
      assert s[k := c][..n] == s[..n][k := c];
      OcurrenciasCambio(s[..n], k, c);
    }
  }

  /** The normalised text never has more than one dot, so it reads as at most one decimal point. */
  lemma NormalizadoUnPunto(s: string)
    ensures Ocurrencias(Normalizar(s), '.') <= 1
  {
    var q := QuitarPuntos(s);
    SinCaracter(q, '.');
    match IndiceComa(q)
    case None =>
    case Some(k) =>
      OcurrenciasCambio(q, k, '.');
  }

  lemma {:induction false} SinCaracter(s: string, c: char)
    requires c !in s
    ensures Ocurrencias(s, c) == 0
    decreases |s|
  {
    if s != [] {
      assert forall x | x in s[..|s| - 1] :: x in s;
      SinCaracter(s[..|s| - 1], c);
    }
  }

  lemma {:induction false} OcurrenciasConcat(a: string, b: string, c: char)
    ensures Ocurrencias(a + b, c) == Ocurrencias(a, c) + Ocurrencias(b, c)
    decreases |b|
  {
    if b == [] {
      assert a + b == a;
    } else {
      assert (a + b)[..|a + b| - 1] == a + b[..|b| - 1];
      OcurrenciasConcat(a, b[..|b| - 1], c);
    }
  }

  predicate SoloDigitos(s: string)
  {
    forall i | 0 <= i < |s| :: '0' <= s[i] <= '9'
  }

  lemma {:induction false} QuitarPuntosConcat(a: string, b: string)
    ensures QuitarPuntos(a + b) == QuitarPuntos(a) + QuitarPuntos(b)
    decreases |b|
  {
    if b == [] {
      assert a + b == a;
    } else {
      assert (a + b)[..|a + b| - 1] == a + b[..|b| - 1];
      QuitarPuntosConcat(a, b[..|b| - 1]);
    }
  }

  lemma {:induction false} QuitarPuntosDigitos(s: string)
    requires SoloDigitos(s)
    ensures QuitarPuntos(s) == s
    decreases |s|
  {
    if s != [] {
      QuitarPuntosDigitos(s[..|s| - 1]);
      assert s == s[..|s| - 1] + [s[|s| - 1]];
    }
  }

  /**
   * A number written the Spanish way, `entero` with thousands dots and
   * digits only after the comma, normalises to the same digits with a
   * decimal point: "1.234,5" becomes "1234.5".
   */
  lemma NormalizarFormatoEspanol(entero: string, decimales: string)
    requires forall i | 0 <= i < |entero| :: '0' <= entero[i] <= '9' || entero[i] == '.'
    requires SoloDigitos(decimales)
    ensures Normalizar(entero + "," + decimales) == QuitarPuntos(entero) + "." + decimales
    ensures SoloDigitos(QuitarPuntos(entero))
  {
    var q := QuitarPuntos(entero);
    SinComa(entero);
    QuitarPuntosComa(entero, decimales);
    ComaADecimal(q, decimales);
  }

  lemma ComaADecimal(q: string, d: string)
    requires SoloDigitos(q)
    ensures PrimeraComaAPunto(q + "," + d) == q + "." + d
  {
    var s := q + "," + d;
    ComaTrasDigitos(q, d);
    assert s[|q| := '.'] == q + "." + d;
  }

  lemma QuitarPuntosComa(entero: string, decimales: string)
    requires SoloDigitos(decimales)
    ensures QuitarPuntos(entero + "," + decimales) == QuitarPuntos(entero) + "," + decimales
  {
    QuitarPuntosConcat(entero + ",", decimales);
    QuitarPuntosConcat(entero, ",");
    QuitarPuntosDigitos(decimales);
    assert QuitarPuntos(",") == "," by { assert ","[..0] == ""; }
  }

  lemma {:induction false} ComaTrasDigitos(q: string, d: string)
    requires SoloDigitos(q)
    ensures IndiceComa(q + "," + d) == Some(|q|)
    decreases |q|
  {
    if q != [] {
      assert (q + "," + d)[1..] == q[1..] + "," + d;
      ComaTrasDigitos(q[1..], d);
    }
  }

  lemma {:induction false} SinComa(entero: string)
    requires forall i | 0 <= i < |entero| :: '0' <= entero[i] <= '9' || entero[i] == '.'
    ensures SoloDigitos(QuitarPuntos(entero))
    decreases |entero|
  {
    if entero != [] {
      SinComa(entero[..|entero| - 1]);
    }
  }

  /** What leaving the field does: report the parsed number, or restore the displayed value. */
  datatype Salida = Confirmar(valor: real) | Revertir

  /** `handleBlur`: `onChange(parsed)` when `parseFloat` succeeds, otherwise revert. */
  function Desenfocar(local: string, parse: string -> Option<real>): (r: Salida)
    ensures r.Confirmar? <==> parse(Normalizar(local)).Some?
    ensures r.Confirmar? ==> r.valor == parse(Normalizar(local)).value
  {
    match parse(Normalizar(local))
    case Some(x) => Confirmar(x)
    case None => Revertir
  }
}
