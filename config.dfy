/**
 * The advanced legal/fiscal settings dialog (`ConfigModal`). Every handler
 * builds a new settings value from the old one; nothing here feeds the lot
 * allocation, only the report. `parseFloat`/`parseInt` are parameters that
 * return `None` where they would return `NaN`.
 */
module Config {
  import opened Wrappers

  datatype Usufructo = Usufructo(enabled: bool, edadViudo: int, valor: Option<real>)

  /** A lifetime donation to be brought into the estate (`colacion`). */
  datatype Colacion = Colacion(id: string, concepto: string, valor: real, herederoId: Option<int>)

  datatype Ajustes = Ajustes(
    gananciales: bool,
    usufructo: Usufructo,
    colacion: seq<Colacion>,
    margenTolerancia: real,
    comunidadAutonoma: string,
    porcentajeImpuestoEstimado: real)

  // ---------------------------------------------------------------------
  // Region -> estimated expense percentage
  // ---------------------------------------------------------------------

  /**
   * The region selector's handler: start at 10, then three `if`s in a row,
   * each overriding the previous value for its own regions.
   */
  function PorcentajeRegion(ccaa: string): (r: real)
    ensures r == 1.0 <==> ccaa == "mad" || ccaa == "and" || ccaa == "mur" || ccaa == "val"
    ensures r == 5.0 <==> ccaa == "cyl" || ccaa == "gal"
    ensures r == 7.0 <==> ccaa == "cat"
    ensures r == 10.0 <==> !(ccaa in {"mad", "and", "mur", "val", "cyl", "gal", "cat"})
  {
    var pct := 10.0;
    var pct := if ccaa == "mad" || ccaa == "and" || ccaa == "mur" || ccaa == "val" then 1.0 else pct;
    var pct := if ccaa == "cyl" || ccaa == "gal" then 5.0 else pct;
    if ccaa == "cat" then 7.0 else pct
  }

  /** Choosing a region sets the region and its percentage, and nothing else. */
  function SeleccionarRegion(c: Ajustes, ccaa: string): (r: Ajustes)
    ensures r.comunidadAutonoma == ccaa && r.porcentajeImpuestoEstimado == PorcentajeRegion(ccaa)
    ensures r.gananciales == c.gananciales && r.usufructo == c.usufructo && r.colacion == c.colacion
    ensures r.margenTolerancia == c.margenTolerancia
  {
    c.(comunidadAutonoma := ccaa, porcentajeImpuestoEstimado := PorcentajeRegion(ccaa))
  }

  /** Choosing a region twice is the same as choosing the second one. */
  lemma SeleccionarRegionDosVeces(c: Ajustes, a: string, b: string)
    ensures SeleccionarRegion(SeleccionarRegion(c, a), b) == SeleccionarRegion(c, b)
  {
  }

  // ---------------------------------------------------------------------
  // Numeric coercion and the rule of 89
  // ---------------------------------------------------------------------

  /** `parse(text) || 0`: an unparsable entry (NaN) becomes 0; a parsed 0 stays 0. */
  function OCero<T>(parsed: Option<T>, cero: T): (r: T)
    ensures parsed.None? ==> r == cero
    ensures parsed.Some? ==> r == parsed.value
  {
    match parsed
    case None => cero
    case Some(x) => x
  }

  /**
   * The widow(er)'s usufruct percentage, `max(10, min(70, 89 - edad))`:
   * 89 minus the age, never above 70 nor below 10.
   */
  function PorcentajeUsufructo(edad: int): (r: int)
    ensures 10 <= r <= 70
    ensures 19 <= edad <= 79 ==> r == 89 - edad
    ensures edad <= 19 ==> r == 70
    ensures edad >= 79 ==> r == 10
  {
    var m := if 70 < 89 - edad then 70 else 89 - edad;
    if 10 < m then m else 10
  }

  /** An older widow(er) never gets a larger usufruct. */
  lemma UsufructoDecreciente(joven: int, mayor: int)
    requires joven <= mayor
    ensures PorcentajeUsufructo(mayor) <= PorcentajeUsufructo(joven)
  {
  }

  function CambiarPorcentaje(c: Ajustes, texto: string, parseFloat: string -> Option<real>): (r: Ajustes)
    ensures r.porcentajeImpuestoEstimado == OCero(parseFloat(texto), 0.0)
    ensures r == c.(porcentajeImpuestoEstimado := r.porcentajeImpuestoEstimado)
  {
    c.(porcentajeImpuestoEstimado := OCero(parseFloat(texto), 0.0))
  }

  function CambiarEdad(c: Ajustes, texto: string, parseInt: string -> Option<int>): (r: Ajustes)
    ensures r.usufructo.edadViudo == OCero(parseInt(texto), 0)
    ensures r == c.(usufructo := c.usufructo.(edadViudo := r.usufructo.edadViudo))
    ensures parseInt(texto).None? ==> PorcentajeUsufructo(r.usufructo.edadViudo) == 70
  {
    c.(usufructo := c.usufructo.(edadViudo := OCero(parseInt(texto), 0)))
  }

  function CambiarMargen(c: Ajustes, texto: string, parseFloat: string -> Option<real>): (r: Ajustes)
    ensures r.margenTolerancia == OCero(parseFloat(texto), 0.0)
    ensures r == c.(margenTolerancia := r.margenTolerancia)
  {
    c.(margenTolerancia := OCero(parseFloat(texto), 0.0))
  }

  function CambiarGananciales(c: Ajustes, marcado: bool): (r: Ajustes)
    ensures r.gananciales == marcado
    ensures r == c.(gananciales := marcado)
  {
    c.(gananciales := marcado)
  }

  function CambiarUsufructo(c: Ajustes, marcado: bool): (r: Ajustes)
    ensures r.usufructo.enabled == marcado
    ensures r.usufructo.edadViudo == c.usufructo.edadViudo
    ensures r == c.(usufructo := c.usufructo.(enabled := marcado))
  {
    c.(usufructo := c.usufructo.(enabled := marcado))
  }

  // ---------------------------------------------------------------------
  // Lifetime donations
  // ---------------------------------------------------------------------

  /** `addColacion`: a new empty donation at the end; `id` stands for `Date.now()`. */
  function AgregarColacion(c: Ajustes, id: string): (r: Ajustes)
    ensures |r.colacion| == |c.colacion| + 1
    ensures r.colacion[..|c.colacion|] == c.colacion
    ensures r.colacion[|c.colacion|] == Colacion(id, "Donación en vida", 0.0, None)
    ensures r == c.(colacion := r.colacion)
  {
    c.(colacion := c.colacion + [Colacion(id, "Donación en vida", 0.0, None)])
  }

  /** `filter(item => item.id !== id)`. */
  function SinId(s: seq<Colacion>, id: string): (r: seq<Colacion>)
    ensures |r| <= |s|
    ensures forall x :: x in r <==> x in s && x.id != id
  {
    if s == [] then []
    else
      var init := SinId(s[..|s| - 1], id);
      assert forall x | x in s[..|s| - 1] :: x in s;
      assert forall x | x in s :: x in s[..|s| - 1] || x == s[|s| - 1];
      if s[|s| - 1].id == id then init else init + [s[|s| - 1]]
  }

  /** `removeColacion`. */
  function EliminarColacion(c: Ajustes, id: string): (r: Ajustes)
    ensures forall x | x in r.colacion :: x.id != id
    ensures forall x | x in c.colacion && x.id != id :: x in r.colacion
    ensures r == c.(colacion := r.colacion)
  {
    c.(colacion := SinId(c.colacion, id))
  }

  /** Removing keeps the order: it distributes over concatenation. */
  lemma {:induction false} SinIdConcat(a: seq<Colacion>, b: seq<Colacion>, id: string)
    ensures SinId(a + b, id) == SinId(a, id) + SinId(b, id)
    decreases |b|
  {
    if b == [] {
      assert a + b == a;
    } else {
      assert (a + b)[..|a + b| - 1] == a + b[..|b| - 1];
      SinIdConcat(a, b[..|b| - 1], id);
    }
  }

  /** A list without that id is left exactly as it was. */
  lemma {:induction false} SinIdAusente(s: seq<Colacion>, id: string)
    requires forall x | x in s :: x.id != id
    ensures SinId(s, id) == s
    decreases |s|
  {
    if s != [] {
      assert forall x | x in s[..|s| - 1] :: x in s;
      SinIdAusente(s[..|s| - 1], id);
      assert s == s[..|s| - 1] + [s[|s| - 1]];
    }
  }

  /** Removing the same id a second time changes nothing. */
  lemma EliminarIdempotente(c: Ajustes, id: string)
    ensures EliminarColacion(EliminarColacion(c, id), id) == EliminarColacion(c, id)
  {
    SinIdAusente(SinId(c.colacion, id), id);
  }

  /** The fields `updateColacion` is called with, each with its value already coerced. */
  datatype CampoColacion =
    | Concepto(texto: string)
    | HerederoId(heredero: Option<int>)
    | Valor(importe: real)

  /** `{ ...item, [field]: value }`. */
  function CambiarCampo(x: Colacion, campo: CampoColacion): (r: Colacion)
    ensures r.id == x.id
    ensures campo.Concepto? ==> r == x.(concepto := campo.texto)
    ensures campo.HerederoId? ==> r == x.(herederoId := campo.heredero)
    ensures campo.Valor? ==> r == x.(valor := campo.importe)
  {
    match campo
    case Concepto(t) => x.(concepto := t)
    case HerederoId(h) => x.(herederoId := h)
    case Valor(v) => x.(valor := v)
  }

  /** `updateColacion`: the named field of every item with that id, nothing else. */
  function ActualizarColacion(c: Ajustes, id: string, campo: CampoColacion): (r: Ajustes)
    ensures |r.colacion| == |c.colacion|
    ensures forall i | 0 <= i < |c.colacion| ::
      r.colacion[i] == if c.colacion[i].id == id then CambiarCampo(c.colacion[i], campo) else c.colacion[i]
    ensures r == c.(colacion := r.colacion)
  {
    c.(colacion := seq(|c.colacion|, i requires 0 <= i < |c.colacion| =>
      if c.colacion[i].id == id then CambiarCampo(c.colacion[i], campo) else c.colacion[i]))
  }

  /** The amount field as the form sets it: `parseFloat(text) || 0`. */
  function ValorTecleado(texto: string, parseFloat: string -> Option<real>): (r: CampoColacion)
    ensures r.Valor? && (parseFloat(texto).None? ==> r.importe == 0.0)
  {
    Valor(OCero(parseFloat(texto), 0.0))
  }

  /** The heir field as the form sets it: `parseInt(text)`, with no `|| 0`. */
  function HerederoElegido(texto: string, parseInt: string -> Option<int>): (r: CampoColacion)
    ensures r.HerederoId? && r.heredero == parseInt(texto)
  {
    HerederoId(parseInt(texto))
  }

  /** Editing a donation and then removing it is the same as just removing it. */
  lemma {:induction false} EliminarTrasActualizar(c: Ajustes, id: string, campo: CampoColacion)
    ensures EliminarColacion(ActualizarColacion(c, id, campo), id) == EliminarColacion(c, id)
  {
    SinIdActualizado(c.colacion, ActualizarColacion(c, id, campo).colacion, id);
  }

  lemma {:induction false} SinIdActualizado(s: seq<Colacion>, t: seq<Colacion>, id: string)
    requires |s| == |t|
    requires forall i | 0 <= i < |s| :: t[i].id == s[i].id && (s[i].id != id ==> t[i] == s[i])
    ensures SinId(t, id) == SinId(s, id)
    decreases |s|
  {
    if s != [] {
      SinIdActualizado(s[..|s| - 1], t[..|t| - 1], id);
    }
  }

  /** An edit addressed to an id no donation has changes nothing. */
  lemma ActualizarOtroId(c: Ajustes, id: string, campo: CampoColacion)
    requires forall x | x in c.colacion :: x.id != id
    ensures ActualizarColacion(c, id, campo) == c
  {
    var r := ActualizarColacion(c, id, campo);
    assert r.colacion == c.colacion;
  }
}
