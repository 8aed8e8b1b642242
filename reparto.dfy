/**
 * The automatic partition of the estate into one lot per heir (`reparto`):
 * manually assigned assets go to their heir, then the unassigned indivisible
 * assets go whole, largest first, to whichever lot is worth least at that
 * moment, and finally each unassigned divisible asset is cut into pieces that
 * fill the poorest lots up to the ideal share. The compensations say how far
 * each lot ends from that share.
 *
 * The source keeps `lotes` in a local array that it re-sorts in place
 * (`lotes.sort(...)`, a stable sort) before every choice of "the poorest
 * lot"; the model keeps it in a local sequence and reassigns it to the
 * stably sorted sequence, so ties are broken exactly as the source does.
 */
module Reparto {
  import opened Wrappers
  import opened Seqs
  import opened Estate

  /** One entry of a lot: an asset or a piece of one. */
  datatype Item = Item(
    nombre: string, valor: real, fraccion: real, manual: bool,
    gananciales: bool, virtual: bool)

  /** What one heir receives; `valorBienes` is the running total of `activos`. */
  datatype Lote = Lote(id: int, nombreHeredero: string, activos: seq<Item>, valorBienes: real)

  /** How far a lot is from the ideal share: positive means the heir is owed money. */
  datatype Compensacion = Compensacion(heredero: int, nombreHeredero: string, diferencia: real)

  /** Below this the remainder of a divisible asset is no longer handed out. */
  const UMBRAL: real := 0.01

  function Valor(it: Item): real { it.valor }
  function ValorBienes(l: Lote): real { l.valorBienes }
  function IdClave(l: Lote): real { l.id as real }
  function Titular(l: Lote): Heredero { Heredero(l.id, l.nombreHeredero) }
  function DiferenciaDe(c: Compensacion): real { c.diferencia }
  /** The key under which `Sum` adds up a sequence of plain amounts. */
  function Real(x: real): real { x }

  /** Sort key of `(a, b) => b.valorTotal - a.valorTotal`: descending value. */
  function MenosValor(a: ActivoValorado): real { -a.valorTotal }

  function Total(lotes: seq<Lote>): real { Sum(lotes, ValorBienes) }

  predicate LoteValido(l: Lote)
  {
    l.valorBienes == Sum(l.activos, Valor)
  }

  predicate LotesValidos(lotes: seq<Lote>)
  {
    forall i | 0 <= i < |lotes| :: LoteValido(lotes[i])
  }

  /** `herederos.map(h => ({ id, nombreHeredero, activos: [], valorBienes: 0 }))` */
  function LotesIniciales(herederos: seq<Heredero>): (r: seq<Lote>)
    ensures |r| == |herederos|
    ensures Map(r, Titular) == herederos
    ensures LotesValidos(r) && Total(r) == 0.0
  {
    if herederos == [] then []
    else
      var init := LotesIniciales(herederos[..|herederos| - 1]);
      var h := herederos[|herederos| - 1];
      var r := init + [Lote(h.id, h.nombre, [], 0.0)];
      assert r[..|r| - 1] == init;
      assert herederos == herederos[..|herederos| - 1] + [h];
      MapAppend(init, [Lote(h.id, h.nombre, [], 0.0)], Titular);
      r
  }

  /** `lote.activos.push(it); lote.valorBienes += it.valor` */
  function Entregar(l: Lote, it: Item): (r: Lote)
    ensures Titular(r) == Titular(l)
    ensures r.valorBienes == l.valorBienes + it.valor
  {
    Lote(l.id, l.nombreHeredero, l.activos + [it], l.valorBienes + it.valor)
  }

  /** A lot whose total matches its items still does after receiving one more. */
  lemma EntregarValido(l: Lote, it: Item)
    requires LoteValido(l)
    ensures LoteValido(Entregar(l, it))
  {
    SumAppend(l.activos, [it], Valor);
    SumSingle(it, Valor);
  }

  /** `lotes.find(l => l.id === id)`: the position of the first lot of heir `id`. */
  function BuscarLote(lotes: seq<Lote>, id: int): (r: Option<nat>)
    ensures r.None? <==> forall j | 0 <= j < |lotes| :: lotes[j].id != id
    ensures r.Some? ==> r.value < |lotes| && lotes[r.value].id == id
    ensures r.Some? ==> forall j | 0 <= j < r.value :: lotes[j].id != id
  {
    if lotes == [] then None
    else if lotes[0].id == id then Some(0)
    else
      match BuscarLote(lotes[1..], id)
      case None => None
      case Some(k) => Some(k + 1)
  }

  /** The search only looks at the ids, so lots with the same holders give the same answer. */
  lemma BuscarMismosTitulares(a: seq<Lote>, b: seq<Lote>, id: int)
    requires Map(a, Titular) == Map(b, Titular)
    ensures BuscarLote(a, id) == BuscarLote(b, id)
  {
    assert forall j | 0 <= j < |a| :: a[j].id == Titular(a[j]).id == Titular(b[j]).id == b[j].id;
  }

  /** The assets of the manual stage that nobody receives: no heir, or no lot with that heir's id. */
  function Huerfano(lotes: seq<Lote>): ActivoValorado -> bool
  {
    (a: ActivoValorado) => a.activo.asignadoA.None? || BuscarLote(lotes, a.activo.asignadoA.value).None?
  }

  /** The assets of the manual stage that lot `k` receives. */
  function DestinoEs(lotes: seq<Lote>, k: nat): ActivoValorado -> bool
  {
    (a: ActivoValorado) => a.activo.asignadoA.Some? && BuscarLote(lotes, a.activo.asignadoA.value) == Some(k)
  }

  function ItemManual(a: ActivoValorado): Item
  {
    Item(a.activo.nombre, a.valorTotal, 1.0, true, false, false)
  }

  function Asignado(a: ActivoValorado): bool { a.activo.asignadoA.Some? }
  function NoAsignado(a: ActivoValorado): bool { a.activo.asignadoA.None? }
  function EsDivisible(a: ActivoValorado): bool { a.activo.divisible }
  function EsIndivisible(a: ActivoValorado): bool { !a.activo.divisible }

  predicate SobreCuota(cuota: real, l: Lote) { l.valorBienes > cuota }
  function Sobre(cuota: real): Lote -> bool { (l: Lote) => SobreCuota(cuota, l) }
  function Bajo(cuota: real): Lote -> bool { (l: Lote) => l.valorBienes < cuota }

  /** What is left of a divisible asset of value `v` once the loop stops. */
  predicate Residuo(v: real, resto: real)
  {
    (v <= UMBRAL ==> resto == v) && (v > UMBRAL ==> 0.0 <= resto <= UMBRAL)
  }

  /** No two lots differ in value by more than `d`. */
  predicate Equilibrado(lotes: seq<Lote>, d: real)
  {
    forall i, j | 0 <= i < |lotes| && 0 <= j < |lotes| :: lotes[i].valorBienes - lotes[j].valorBienes <= d
  }

  /** Sorting keeps the holders, the validity and the spread of the lots. */
  lemma OrdenarLotes(lotes: seq<Lote>, s: seq<Lote>)
    requires multiset(s) == multiset(lotes)
    ensures multiset(Map(s, Titular)) == multiset(Map(lotes, Titular))
    ensures Total(s) == Total(lotes)
    ensures LotesValidos(lotes) ==> LotesValidos(s)
    ensures forall d :: Equilibrado(lotes, d) ==> Equilibrado(s, d)
    ensures forall c :: Count(s, Sobre(c)) == Count(lotes, Sobre(c))
    ensures forall c :: Count(s, Bajo(c)) == Count(lotes, Bajo(c))
  {
    MapPerm(s, lotes, Titular);
    SumPerm(s, lotes, ValorBienes);
    if LotesValidos(lotes) {
      forall i | 0 <= i < |s| ensures LoteValido(s[i]) {
        var j := PermIndex(lotes, s, i);
      }
    }
    forall d | Equilibrado(lotes, d) ensures Equilibrado(s, d) {
      forall i, j | 0 <= i < |s| && 0 <= j < |s| ensures s[i].valorBienes - s[j].valorBienes <= d {
        var i' := PermIndex(lotes, s, i);
        var j' := PermIndex(lotes, s, j);
      }
    }
    forall c ensures Count(s, Sobre(c)) == Count(lotes, Sobre(c)) {
      CountPerm(s, lotes, Sobre(c));
    }
    forall c ensures Count(s, Bajo(c)) == Count(lotes, Bajo(c)) {
      CountPerm(s, lotes, Bajo(c));
    }
  }

  /** Handing an item to lot `k` keeps the holders and the validity and adds its value to the total. */
  lemma EntregarEn(lotes: seq<Lote>, k: nat, it: Item)
    requires k < |lotes|
    ensures Map(lotes[k := Entregar(lotes[k], it)], Titular) == Map(lotes, Titular)
    ensures Total(lotes[k := Entregar(lotes[k], it)]) == Total(lotes) + it.valor
    ensures LotesValidos(lotes) ==> LotesValidos(lotes[k := Entregar(lotes[k], it)])
  {
    var r := lotes[k := Entregar(lotes[k], it)];
    assert forall j | 0 <= j < |r| :: Titular(r[j]) == Titular(lotes[j]);
    SumUpdate(lotes, k, Entregar(lotes[k], it), ValorBienes);
    if LotesValidos(lotes) {
      EntregarValido(lotes[k], it);
    }
  }

  /** `l2` is lot `l` of the same heir, with possibly more items after the ones `l` had. */
  predicate Crecido(l: Lote, l2: Lote)
  {
    Titular(l2) == Titular(l) && l.activos <= l2.activos
  }

  /**
   * Items are only ever added to lots: every lot of `antes` lives on in a
   * lot of `despues` of the same heir that starts with its items.
   */
  predicate Conserva(antes: seq<Lote>, despues: seq<Lote>)
  {
    forall l | l in antes :: exists l2 | l2 in despues :: Crecido(l, l2)
  }

  lemma ConservaMismos(lotes: seq<Lote>, o: seq<Lote>)
    requires multiset(o) == multiset(lotes)
    ensures Conserva(lotes, o)
  {
    forall l | l in lotes ensures exists l2 | l2 in o :: Crecido(l, l2) {
      assert l in multiset(o);
      assert Crecido(l, l);
    }
  }

  /** Items only added from `a` to `b` and from `b` to `c` are only added from `a` to `c`. */
  lemma ConservaTransitivo(a: seq<Lote>, b: seq<Lote>, c: seq<Lote>)
    requires Conserva(a, b) && Conserva(b, c)
    ensures Conserva(a, c)
  {
    forall l | l in a ensures exists l3 | l3 in c :: Crecido(l, l3) {
      var l2 :| l2 in b && Crecido(l, l2);
      var l3 :| l3 in c && Crecido(l2, l3);
      assert Crecido(l, l3);
    }
  }

  /** Sorting the lots and giving one of them an item only adds to them. */
  lemma ConservaEntregarEn(lotes: seq<Lote>, o: seq<Lote>, k: nat, it: Item)
    requires multiset(o) == multiset(lotes) && k < |o|
    ensures Conserva(lotes, o[k := Entregar(o[k], it)])
  {
    var r := o[k := Entregar(o[k], it)];
    forall l | l in lotes ensures exists l2 | l2 in r :: Crecido(l, l2) {
      assert l in multiset(o);
      var i :| 0 <= i < |o| && o[i] == l;
      assert r[i] in r;
      assert Crecido(l, r[i]);
    }
  }

  /** Sorting the lots and giving each of them an item only adds to them. */
  lemma ConservaRepartido(lotes: seq<Lote>, o: seq<Lote>, it: Item)
    requires multiset(o) == multiset(lotes)
    ensures Conserva(lotes, Repartido(o, it))
  {
    var r := Repartido(o, it);
    forall l | l in lotes ensures exists l2 | l2 in r :: Crecido(l, l2) {
      assert l in multiset(o);
      var i :| 0 <= i < |o| && o[i] == l;
      assert r[i] in r;
      assert Crecido(l, r[i]);
    }
  }

  /** The piece of divisible asset `a` worth `valor`, as the source pushes it. */
  function Porcion(a: ActivoValorado, valor: real): Item
    requires a.valorTotal != 0.0
  {
    Item(a.activo.nombre, valor, valor / a.valorTotal, false, false, false)
  }

  /** The piece the poorest lot `m` receives: its deficit below the share, capped by what is left. */
  function Pieza(cuota: real, m: Lote, restante: real): real
  {
    if cuota - m.valorBienes < restante then cuota - m.valorBienes else restante
  }

  /** Every lot with the same item `it` added to it, in place. */
  function Repartido(lotes: seq<Lote>, it: Item): seq<Lote>
  {
    seq(|lotes|, j requires 0 <= j < |lotes| => Entregar(lotes[j], it))
  }

  /**
   * One turn of the stage-3 loop, as the source does it: sort the lots by
   * value; when the first is below the share it receives the piece
   * `min(deficit, restante)`, otherwise every lot receives an equal slice
   * of the rest. Returns the lots and what is left of the asset.
   */
  function Turno(lotes: seq<Lote>, a: ActivoValorado, cuota: real, restante: real): (seq<Lote>, real)
    requires |lotes| > 0 && UMBRAL < restante <= a.valorTotal
  {
    var o := SortBy(lotes, ValorBienes);
    if cuota - o[0].valorBienes <= 0.0 then
      (Repartido(o, Porcion(a, restante / |o| as real)), 0.0)
    else
      var dar := Pieza(cuota, o[0], restante);
      (o[0 := Entregar(o[0], Porcion(a, dar))], restante - dar)
  }

  /**
   * The whole `while` loop of stage 3 for one divisible asset: turns while
   * more than one cent is left. Returns the lots and the final remainder.
   */
  function Verter(lotes: seq<Lote>, a: ActivoValorado, cuota: real, restante: real): (seq<Lote>, real)
    requires |lotes| > 0 && restante <= a.valorTotal
    decreases if restante > UMBRAL then 1 + Count(lotes, Bajo(cuota)) else 0
  {
    if restante > UMBRAL then
      TurnoPaso(lotes, a, cuota, restante);
      var (r, queda) := Turno(lotes, a, cuota, restante);
      Verter(r, a, cuota, queda)
    else
      (lotes, restante)
  }

  /** A turn of stage 3 only adds pieces to the lots. */
  lemma TurnoConserva(lotes: seq<Lote>, a: ActivoValorado, cuota: real, restante: real)
    requires |lotes| > 0 && UMBRAL < restante <= a.valorTotal
    ensures Conserva(lotes, Turno(lotes, a, cuota, restante).0)
  {
    var o := SortBy(lotes, ValorBienes);
    if cuota - o[0].valorBienes <= 0.0 {
      ConservaRepartido(lotes, o, Porcion(a, restante / |o| as real));
    } else {
      ConservaEntregarEn(lotes, o, 0, Porcion(a, Pieza(cuota, o[0], restante)));
    }
  }

  /** The whole of stage 3 for one asset only adds pieces to the lots. */
  lemma {:induction false} VerterConserva(lotes: seq<Lote>, a: ActivoValorado, cuota: real, restante: real)
    requires |lotes| > 0 && restante <= a.valorTotal
    ensures Conserva(lotes, Verter(lotes, a, cuota, restante).0)
    decreases if restante > UMBRAL then 1 + Count(lotes, Bajo(cuota)) else 0
  {
    if restante > UMBRAL {
      TurnoPaso(lotes, a, cuota, restante);
      var (r, queda) := Turno(lotes, a, cuota, restante);
      TurnoConserva(lotes, a, cuota, restante);
      VerterConserva(r, a, cuota, queda);
      ConservaTransitivo(lotes, r, Verter(r, a, cuota, queda).0);
    } else {
      ConservaMismos(lotes, lotes);
    }
  }

  /** The first of the lots sorted by value is one of least value. */
  lemma Minimo(lotes: seq<Lote>, o: seq<Lote>)
    requires |lotes| > 0 && multiset(o) == multiset(lotes) && Sorted(o, ValorBienes)
    ensures o[0] in lotes
    ensures forall l | l in lotes :: o[0].valorBienes <= l.valorBienes
  {
    assert o[0] in multiset(lotes);
    forall l | l in lotes ensures o[0].valorBienes <= l.valorBienes {
      assert l in multiset(o);
      var j :| 0 <= j < |o| && o[j] == l;
      assert ValorBienes(o[0]) <= ValorBienes(o[j]);
    }
  }

  /**
   * Stage 3 for one divisible asset (page.tsx, the `while` loop): while more
   * than one cent is left, the poorest lot is filled up to the ideal share, or,
   * once no lot is below it, the rest is split evenly among all lots.
   * Everything but the final remainder `residuo` is handed out, and no lot is
   * pushed above the ideal share while another is still below it.
   */
  method RepartirDivisible(lotes: seq<Lote>, a: ActivoValorado, cuota: real)
    returns (r: seq<Lote>, ghost residuo: real)
    requires |lotes| > 0
    ensures |r| == |lotes|
    ensures multiset(Map(r, Titular)) == multiset(Map(lotes, Titular))
    ensures LotesValidos(lotes) ==> LotesValidos(r)
    ensures Total(r) + residuo == Total(lotes) + a.valorTotal
    ensures Residuo(a.valorTotal, residuo)
    ensures a.valorTotal <= UMBRAL ==> r == lotes
    ensures Count(r, Sobre(cuota)) == Count(lotes, Sobre(cuota)) || Count(r, Sobre(cuota)) == |r|
    ensures (r, residuo) == Verter(lotes, a, cuota, a.valorTotal)
    ensures Conserva(lotes, r)
  {
    var v := a.valorTotal;
    var restante := v;
    r := lotes;
    while restante > UMBRAL
      invariant |r| == |lotes|
      invariant restante <= v
      invariant v > UMBRAL ==> 0.0 <= restante
      invariant v <= UMBRAL ==> r == lotes && restante == v
      invariant multiset(Map(r, Titular)) == multiset(Map(lotes, Titular))
      invariant LotesValidos(lotes) ==> LotesValidos(r)
      invariant Total(r) + restante == Total(lotes) + v
      invariant Count(r, Sobre(cuota)) == Count(lotes, Sobre(cuota)) || Count(r, Sobre(cuota)) == |r|
      invariant Verter(r, a, cuota, restante) == Verter(lotes, a, cuota, v)
      decreases if restante > UMBRAL then 1 + Count(r, Bajo(cuota)) else 0
    {
      r, restante := PasoDivisible(r, a, cuota, restante);
    }
    residuo := restante;
    VerterConserva(lotes, a, cuota, v);
  }

  /**
   * The filling branch with `m` as the poorest lot: `m` receives the piece
   * `min(cuota - m.valorBienes, restante)`, which leaves the asset, and no
   * other lot changes.
   */
  predicate Llenado(lotes: seq<Lote>, a: ActivoValorado, cuota: real, restante: real, m: Lote, r: seq<Lote>, queda: real)
    requires a.valorTotal != 0.0
  {
    var dar := Pieza(cuota, m, restante);
    queda == restante - dar
    && multiset(r) == multiset(lotes) - multiset{m} + multiset{Entregar(m, Porcion(a, dar))}
  }

  /** No lot is worth less than `m`. */
  predicate Menor(lotes: seq<Lote>, m: Lote)
  {
    forall l | l in lotes :: m.valorBienes <= l.valorBienes
  }

  /**
   * What a turn promises, for the lots `r` and the remainder `queda` it
   * returns: heirs, validity and the total value are kept, the remainder
   * shrinks, nobody rises above the share while another lot is below it,
   * the poorest lot is the one filled, and when no lot is below the share
   * the whole rest is split.
   */
  predicate TurnoCumple(lotes: seq<Lote>, a: ActivoValorado, cuota: real, restante: real, r: seq<Lote>, queda: real)
    requires a.valorTotal != 0.0
  {
    && |r| == |lotes|
    && 0.0 <= queda < restante
    && multiset(Map(r, Titular)) == multiset(Map(lotes, Titular))
    && (LotesValidos(lotes) ==> LotesValidos(r))
    && Total(r) + queda == Total(lotes) + restante
    && (Count(r, Sobre(cuota)) == Count(lotes, Sobre(cuota)) || Count(r, Sobre(cuota)) == |r|)
    && (queda > 0.0 ==> Count(r, Bajo(cuota)) < Count(lotes, Bajo(cuota)))
    && (exists m {:trigger Menor(lotes, m)} | m in lotes && Menor(lotes, m) ::
          m.valorBienes < cuota ==> Llenado(lotes, a, cuota, restante, m, r, queda))
    && ((forall l | l in lotes :: l.valorBienes >= cuota) ==> queda == 0.0 && Count(r, Sobre(cuota)) == |r|)
  }

  /** Every turn keeps the promises of `TurnoCumple`. */
  lemma TurnoPaso(lotes: seq<Lote>, a: ActivoValorado, cuota: real, restante: real)
    requires |lotes| > 0 && UMBRAL < restante <= a.valorTotal
    ensures TurnoCumple(lotes, a, cuota, restante, Turno(lotes, a, cuota, restante).0, Turno(lotes, a, cuota, restante).1)
  {
    var o := SortBy(lotes, ValorBienes);
    if cuota - o[0].valorBienes <= 0.0 {
      assert Turno(lotes, a, cuota, restante) == (Repartido(o, Porcion(a, restante / |o| as real)), 0.0);
      TurnoParejo(lotes, a, cuota, restante, o);
    } else {
      var dar := Pieza(cuota, o[0], restante);
      assert Turno(lotes, a, cuota, restante) == (o[0 := Entregar(o[0], Porcion(a, dar))], restante - dar);
      TurnoLlena(lotes, a, cuota, restante, o);
    }
  }

  /** The turn once no lot is below the share: every lot gets an equal slice of the rest. */
  lemma TurnoParejo(lotes: seq<Lote>, a: ActivoValorado, cuota: real, restante: real, o: seq<Lote>)
    requires |lotes| > 0 && UMBRAL < restante <= a.valorTotal
    requires multiset(o) == multiset(lotes) && Sorted(o, ValorBienes)
    requires |o| > 0 && cuota - o[0].valorBienes <= 0.0
    ensures TurnoCumple(lotes, a, cuota, restante, Repartido(o, Porcion(a, restante / |o| as real)), 0.0)
  {
    assert multiset(Map(o, Titular)) == multiset(Map(lotes, Titular))
      && Total(o) == Total(lotes) && (LotesValidos(lotes) ==> LotesValidos(o)) by {
      OrdenarLotes(lotes, o);
    }
    Minimo(lotes, o);
    forall i | 0 <= i < |o| ensures o[i].valorBienes >= cuota {
      assert ValorBienes(o[0]) <= ValorBienes(o[i]);
    }
    RepartidoParejo(o, a, cuota, restante);
    assert o[0] in lotes && o[0].valorBienes >= cuota;
    assert |o| == |lotes| by { assert |multiset(o)| == |multiset(lotes)|; }
    assert o[0] in lotes && Menor(lotes, o[0]);
  }

  /** The turn while some lot is below the share: the poorest one is filled. */
  lemma TurnoLlena(lotes: seq<Lote>, a: ActivoValorado, cuota: real, restante: real, o: seq<Lote>)
    requires |lotes| > 0 && UMBRAL < restante <= a.valorTotal
    requires multiset(o) == multiset(lotes) && Sorted(o, ValorBienes)
    requires |o| > 0 && cuota - o[0].valorBienes > 0.0
    ensures TurnoCumple(lotes, a, cuota, restante,
      o[0 := Entregar(o[0], Porcion(a, Pieza(cuota, o[0], restante)))], restante - Pieza(cuota, o[0], restante))
  {
    var dar := Pieza(cuota, o[0], restante);
    var it := Porcion(a, dar);
    var r := o[0 := Entregar(o[0], it)];
    var queda := restante - dar;
    assert Llenado(lotes, a, cuota, restante, o[0], r, queda) by {
      MasPobre(lotes, o, r, it);
    }
    assert multiset(Map(o, Titular)) == multiset(Map(lotes, Titular))
      && Total(o) == Total(lotes) && (LotesValidos(lotes) ==> LotesValidos(o))
      && Count(o, Sobre(cuota)) == Count(lotes, Sobre(cuota))
      && Count(o, Bajo(cuota)) == Count(lotes, Bajo(cuota)) by {
      OrdenarLotes(lotes, o);
    }
    assert Count(r, Sobre(cuota)) == Count(o, Sobre(cuota))
      && (queda > 0.0 ==> Count(r, Bajo(cuota)) < Count(o, Bajo(cuota))) by {
      LlenarPrimero(o, it, cuota);
    }
    assert Map(r, Titular) == Map(o, Titular) && Total(r) == Total(o) + dar
      && (LotesValidos(o) ==> LotesValidos(r)) by {
      EntregarEn(o, 0, it);
    }
    Minimo(lotes, o);
    assert o[0] in lotes && Menor(lotes, o[0]) && o[0].valorBienes < cuota;
    assert |r| == |lotes| by { assert |multiset(o)| == |multiset(lotes)|; }
    assert 0.0 <= queda < restante;
    assert multiset(Map(r, Titular)) == multiset(Map(lotes, Titular));
    assert LotesValidos(lotes) ==> LotesValidos(r);
    assert Total(r) + queda == Total(lotes) + restante;
    assert (Count(r, Sobre(cuota)) == Count(lotes, Sobre(cuota)) || Count(r, Sobre(cuota)) == |r|);
    assert (queda > 0.0 ==> Count(r, Bajo(cuota)) < Count(lotes, Bajo(cuota)));
  }

  /**
   * One turn of the loop of `RepartirDivisible`: sort the lots by value, then
   * either fill the poorest one or split the rest evenly.
   */
  method PasoDivisible(lotes: seq<Lote>, a: ActivoValorado, cuota: real, restante: real)
    returns (r: seq<Lote>, queda: real)
    requires |lotes| > 0 && UMBRAL < restante <= a.valorTotal
    ensures (r, queda) == Turno(lotes, a, cuota, restante)
    ensures TurnoCumple(lotes, a, cuota, restante, r, queda)
  {
    var ordenados := SortBy(lotes, ValorBienes);
    var deficit := cuota - ordenados[0].valorBienes;
    if deficit <= 0.0 {
      // nobody is below the share: everyone gets the same slice of the rest
      assert forall i | 0 <= i < |ordenados| :: ordenados[0].valorBienes <= ordenados[i].valorBienes;
      r := RepartirResto(ordenados, a, cuota, restante);
      queda := 0.0;
    } else {
      // fill the poorest lot, never beyond the share or the remainder
      var aAsignar := Pieza(cuota, ordenados[0], restante);
      r := ordenados[0 := Entregar(ordenados[0], Porcion(a, aAsignar))];
      queda := restante - aAsignar;
    }
    TurnoPaso(lotes, a, cuota, restante);
  }

  /**
   * The even split of the remainder once no lot is below the share: every
   * lot receives `restante / lotes.length`, so every lot ends above the share.
   */
  method RepartirResto(lotes: seq<Lote>, a: ActivoValorado, cuota: real, restante: real)
    returns (r: seq<Lote>)
    requires |lotes| > 0 && 0.0 < restante <= a.valorTotal
    requires forall i | 0 <= i < |lotes| :: lotes[i].valorBienes >= cuota
    ensures |r| == |lotes|
    ensures Map(r, Titular) == Map(lotes, Titular)
    ensures LotesValidos(lotes) ==> LotesValidos(r)
    ensures Total(r) == Total(lotes) + restante
    ensures Count(r, Sobre(cuota)) == |r|
    ensures r == Repartido(lotes, Porcion(a, restante / |lotes| as real))
  {
    r := EntregarATodos(lotes, Porcion(a, restante / |lotes| as real));
    RepartidoParejo(lotes, a, cuota, restante);
  }

  /**
   * The even split, as a function of the lots: heirs and validity are kept,
   * the whole remainder is placed, and every lot ends above the share.
   */
  lemma RepartidoParejo(lotes: seq<Lote>, a: ActivoValorado, cuota: real, restante: real)
    requires |lotes| > 0 && 0.0 < restante <= a.valorTotal
    requires forall i | 0 <= i < |lotes| :: lotes[i].valorBienes >= cuota
    ensures var r := Repartido(lotes, Porcion(a, restante / |lotes| as real));
      && |r| == |lotes|
      && Map(r, Titular) == Map(lotes, Titular)
      && (LotesValidos(lotes) ==> LotesValidos(r))
      && Total(r) == Total(lotes) + restante
      && Count(r, Sobre(cuota)) == |r|
  {
    var porcion := restante / |lotes| as real;
    PartesIguales(restante, |lotes|, porcion);
    var it := Porcion(a, porcion);
    var r := Repartido(lotes, it);
    EntregadosATodos(lotes, r, it);
    assert |lotes| as real * it.valor == restante;
    forall i | 0 <= i < |r| ensures Sobre(cuota)(r[i]) {
      assert r[i].valorBienes == lotes[i].valorBienes + porcion;
    }
    CountTodos(r, Sobre(cuota));
  }


  /** `lotes.forEach(l => { l.activos.push(it); l.valorBienes += it.valor })` */
  method EntregarATodos(lotes: seq<Lote>, it: Item) returns (r: seq<Lote>)
    ensures |r| == |lotes|
    ensures forall j | 0 <= j < |r| :: r[j] == Entregar(lotes[j], it)
    ensures r == Repartido(lotes, it)
  {
    r := lotes;
    var i := 0;
    while i < |r|
      invariant 0 <= i <= |r| && |r| == |lotes|
      invariant forall j | 0 <= j < i :: r[j] == Entregar(lotes[j], it)
      invariant forall j | i <= j < |r| :: r[j] == lotes[j]
    {
      r := r[i := Entregar(r[i], it)];
      i := i + 1;
    }
  }

  /** Lots that each received the same item keep their holders and validity, and the total grows by one item per lot. */
  lemma EntregadosATodos(lotes: seq<Lote>, r: seq<Lote>, it: Item)
    requires |r| == |lotes|
    requires forall j | 0 <= j < |r| :: r[j] == Entregar(lotes[j], it)
    ensures Map(r, Titular) == Map(lotes, Titular)
    ensures LotesValidos(lotes) ==> LotesValidos(r)
    ensures Total(r) == Total(lotes) + |lotes| as real * it.valor
  {
    assert forall j | 0 <= j < |r| :: Titular(r[j]) == Titular(lotes[j]);
    EntregadosValidos(lotes, r, it);
    TotalCrece(lotes, r, it.valor);
  }

  lemma EntregadosValidos(lotes: seq<Lote>, r: seq<Lote>, it: Item)
    requires |r| == |lotes|
    requires forall j | 0 <= j < |r| :: r[j] == Entregar(lotes[j], it)
    ensures LotesValidos(lotes) ==> LotesValidos(r)
  {
    if LotesValidos(lotes) {
      forall j | 0 <= j < |r| ensures LoteValido(r[j]) {
        EntregarValido(lotes[j], it);
      }
    }
  }

  /** Lots that each grew by `v` add up to `v` per lot more than before. */
  lemma {:induction false} TotalCrece(lotes: seq<Lote>, r: seq<Lote>, v: real)
    requires |r| == |lotes|
    requires forall j | 0 <= j < |r| :: r[j].valorBienes == lotes[j].valorBienes + v
    ensures Total(r) == Total(lotes) + |lotes| as real * v
    decreases |r|
  {
    if r != [] {
      var n := |r| - 1;
      TotalCrece(lotes[..n], r[..n], v);
      assert (n + 1) as real * v == n as real * v + v;
    }
  }

  /**
   * One filling step: the poorest lot, `deficit` below the share, receives a
   * piece no larger than that deficit. It does not rise above the share, and
   * when the piece is the whole deficit it reaches the share exactly.
   */
  lemma LlenarPrimero(lotes: seq<Lote>, it: Item, cuota: real)
    requires |lotes| > 0 && lotes[0].valorBienes < cuota
    requires 0.0 <= it.valor <= cuota - lotes[0].valorBienes
    ensures Count(lotes[0 := Entregar(lotes[0], it)], Sobre(cuota)) == Count(lotes, Sobre(cuota))
    ensures it.valor == cuota - lotes[0].valorBienes ==>
      Count(lotes[0 := Entregar(lotes[0], it)], Bajo(cuota)) + 1 == Count(lotes, Bajo(cuota))
  {
    var x := Entregar(lotes[0], it);
    CountUpdate(lotes, 0, x, Sobre(cuota));
    CountUpdate(lotes, 0, x, Bajo(cuota));
  }

  lemma PartesIguales(x: real, n: nat, porcion: real)
    requires n > 0 && porcion == x / n as real
    ensures n as real * porcion == x
    ensures x > 0.0 ==> porcion > 0.0
  {
  }

  /** The manual items lot `k` receives from `asignados`, in order. */
  function Manuales(lotes: seq<Lote>, asignados: seq<ActivoValorado>, k: nat): seq<Item>
  {
    Map(Filter(asignados, DestinoEs(lotes, k)), ItemManual)
  }

  /** The assets of `asignados` that no lot receives, in order. */
  function Huerfanos(lotes: seq<Lote>, asignados: seq<ActivoValorado>): seq<ActivoValorado>
  {
    Filter(asignados, Huerfano(lotes))
  }

  /** Lot by lot, `r` is `antes` plus the manual items of the assets `s`. */
  predicate Recibidos(lotes: seq<Lote>, antes: seq<Lote>, r: seq<Lote>, s: seq<ActivoValorado>)
  {
    |r| == |antes| && forall k | 0 <= k < |r| :: r[k].activos == antes[k].activos + Manuales(lotes, s, k)
  }

  lemma ManualesSnoc(lotes: seq<Lote>, s: seq<ActivoValorado>, a: ActivoValorado, k: nat)
    ensures Manuales(lotes, s + [a], k)
      == Manuales(lotes, s, k) + (if DestinoEs(lotes, k)(a) then [ItemManual(a)] else [])
  {
    var p := DestinoEs(lotes, k);
    assert (s + [a])[..|s|] == s;
    MapAppend(Filter(s, p), if p(a) then [a] else [], ItemManual);
  }

  lemma HuerfanosSnoc(lotes: seq<Lote>, s: seq<ActivoValorado>, a: ActivoValorado)
    ensures Huerfanos(lotes, s + [a]) == Huerfanos(lotes, s) + (if Huerfano(lotes)(a) then [a] else [])
  {
    assert (s + [a])[..|s|] == s;
  }

  lemma RecibidosPaso(lotes: seq<Lote>, antes: seq<Lote>, r: seq<Lote>, s: seq<ActivoValorado>, a: ActivoValorado)
    requires Recibidos(lotes, lotes, antes, s) && |r| == |antes|
    requires forall k | 0 <= k < |r| ::
      r[k].activos == antes[k].activos + (if DestinoEs(lotes, k)(a) then [ItemManual(a)] else [])
    ensures Recibidos(lotes, lotes, r, s + [a])
  {
    forall k | 0 <= k < |r|
      ensures r[k].activos == lotes[k].activos + Manuales(lotes, s + [a], k)
    {
      ManualesSnoc(lotes, s, a, k);
    }
  }

  lemma PendientesPaso(lotes: seq<Lote>, pendientes: seq<ActivoValorado>, s: seq<ActivoValorado>,
                       a: ActivoValorado, p0: seq<ActivoValorado>, p: seq<ActivoValorado>)
    requires p0 == pendientes + Huerfanos(lotes, s)
    requires p == p0 + (if Huerfano(lotes)(a) then [a] else [])
    ensures p == pendientes + Huerfanos(lotes, s + [a])
  {
    HuerfanosSnoc(lotes, s, a);
  }

  /**
   * One turn of stage 1: `lotes.find` the lot of the asset's heir; give it the
   * asset, or add the asset to the pending ones when there is no such lot.
   * `lotes` are the lots as they started, with the same holders as `r`.
   */
  method AsignarManual(lotes: seq<Lote>, r: seq<Lote>, p: seq<ActivoValorado>, a: ActivoValorado)
    returns (r2: seq<Lote>, p2: seq<ActivoValorado>)
    requires Map(r, Titular) == Map(lotes, Titular)
    ensures |r2| == |r| && Map(r2, Titular) == Map(lotes, Titular)
    ensures forall k | 0 <= k < |r2| ::
      r2[k].activos == r[k].activos + (if DestinoEs(lotes, k)(a) then [ItemManual(a)] else [])
    ensures LotesValidos(r) ==> LotesValidos(r2)
    ensures p2 == p + (if Huerfano(lotes)(a) then [a] else [])
    ensures Total(r2) + Sum(p2, ValorDe) == Total(r) + Sum(p, ValorDe) + a.valorTotal
  {
    var lote := if a.activo.asignadoA.Some? then BuscarLote(r, a.activo.asignadoA.value) else None;
    if a.activo.asignadoA.Some? {
      BuscarMismosTitulares(r, lotes, a.activo.asignadoA.value);
    }
    assert Huerfano(lotes)(a) == lote.None?;
    assert forall k: nat :: DestinoEs(lotes, k)(a) == (lote == Some(k));
    if lote.Some? {
      EntregarEn(r, lote.value, ItemManual(a));
      r2, p2 := r[lote.value := Entregar(r[lote.value], ItemManual(a))], p;
    } else {
      SumSnoc(p, a, ValorDe);
      r2, p2 := r, p + [a];
    }
  }

  /** What stage 1 has done once it has gone through the assets `hechos`. */
  predicate Etapa1(lotes: seq<Lote>, pendientes: seq<ActivoValorado>, hechos: seq<ActivoValorado>,
                   r: seq<Lote>, p: seq<ActivoValorado>)
  {
    && |r| == |lotes|
    && Map(r, Titular) == Map(lotes, Titular)
    && Recibidos(lotes, lotes, r, hechos)
    && (LotesValidos(lotes) ==> LotesValidos(r))
    && p == pendientes + Huerfanos(lotes, hechos)
    && Total(r) + Sum(p, ValorDe) == Total(lotes) + Sum(pendientes, ValorDe) + Sum(hechos, ValorDe)
  }

  lemma Etapa1Paso(lotes: seq<Lote>, pendientes: seq<ActivoValorado>, hechos: seq<ActivoValorado>,
                   r: seq<Lote>, p: seq<ActivoValorado>, a: ActivoValorado,
                   r2: seq<Lote>, p2: seq<ActivoValorado>)
    requires Etapa1(lotes, pendientes, hechos, r, p)
    requires |r2| == |r| && Map(r2, Titular) == Map(lotes, Titular)
    requires forall k | 0 <= k < |r2| ::
      r2[k].activos == r[k].activos + (if DestinoEs(lotes, k)(a) then [ItemManual(a)] else [])
    requires LotesValidos(r) ==> LotesValidos(r2)
    requires p2 == p + (if Huerfano(lotes)(a) then [a] else [])
    requires Total(r2) + Sum(p2, ValorDe) == Total(r) + Sum(p, ValorDe) + a.valorTotal
    ensures Etapa1(lotes, pendientes, hechos + [a], r2, p2)
  {
    SumSnoc(hechos, a, ValorDe);
    PendientesPaso(lotes, pendientes, hechos, a, p, p2);
    RecibidosPaso(lotes, r, r2, hechos, a);
  }

  /** One turn of stage 1, carried from the assets `hechos` to `hechos + [a]`. */
  method PasoManual(lotes: seq<Lote>, pendientes: seq<ActivoValorado>, ghost hechos: seq<ActivoValorado>,
                    r: seq<Lote>, p: seq<ActivoValorado>, a: ActivoValorado)
    returns (r2: seq<Lote>, p2: seq<ActivoValorado>)
    requires Etapa1(lotes, pendientes, hechos, r, p)
    ensures Etapa1(lotes, pendientes, hechos + [a], r2, p2)
  {
    r2, p2 := AsignarManual(lotes, r, p, a);
    Etapa1Paso(lotes, pendientes, hechos, r, p, a, r2, p2);
  }

  /**
   * Stage 1, the manual assignments: each asset with an heir goes whole to
   * the first lot of that heir; an asset whose heir has no lot (the heir was
   * deleted) joins the pending assets. Lot `k` ends with exactly the assets
   * whose search lands on it, in order, as manual items of fraction 1.
   */
  method AsignarManuales(lotes: seq<Lote>, asignados: seq<ActivoValorado>, pendientes: seq<ActivoValorado>)
    returns (r: seq<Lote>, p: seq<ActivoValorado>)
    ensures |r| == |lotes|
    ensures Map(r, Titular) == Map(lotes, Titular)
    ensures Recibidos(lotes, lotes, r, asignados)
    ensures LotesValidos(lotes) ==> LotesValidos(r)
    ensures p == pendientes + Huerfanos(lotes, asignados)
    ensures Total(r) + Sum(p, ValorDe) == Total(lotes) + Sum(pendientes, ValorDe) + Sum(asignados, ValorDe)
  {
    r, p := lotes, pendientes;
    var i := 0;
    ghost var hechos: seq<ActivoValorado> := [];
    assert Recibidos(lotes, lotes, r, hechos) by {
      forall k | 0 <= k < |r| ensures r[k].activos == lotes[k].activos + Manuales(lotes, hechos, k) {
        assert Manuales(lotes, hechos, k) == [];
      }
    }
    while i < |asignados|
      invariant 0 <= i <= |asignados| && hechos == asignados[..i]
      invariant Etapa1(lotes, pendientes, hechos, r, p)
    {
      var a := asignados[i];
      r, p := PasoManual(lotes, pendientes, hechos, r, p, a);
      PrefijoSnoc(asignados, i);
      hechos := hechos + [a];
      i := i + 1;
    }
    assert asignados[..i] == asignados;
  }

  function ItemEntero(a: ActivoValorado): Item
  {
    Item(a.activo.nombre, a.valorTotal, 1.0, false, false, false)
  }

  /** Every asset of `activos` is worth between 0 and `d`. */
  predicate Acotados(activos: seq<ActivoValorado>, d: real)
  {
    forall k | 0 <= k < |activos| :: 0.0 <= activos[k].valorTotal <= d
  }

  /**
   * Giving an item worth between 0 and `d` to the poorest of lots that differ
   * by at most `d` leaves them differing by at most `d`.
   */
  lemma AlMasPobre(lotes: seq<Lote>, it: Item, d: real)
    requires |lotes| > 0 && Sorted(lotes, ValorBienes) && Equilibrado(lotes, d)
    requires 0.0 <= it.valor <= d
    ensures Equilibrado(lotes[0 := Entregar(lotes[0], it)], d)
  {
    var r := lotes[0 := Entregar(lotes[0], it)];
    forall i, j | 0 <= i < |r| && 0 <= j < |r| ensures r[i].valorBienes - r[j].valorBienes <= d {
      assert ValorBienes(lotes[0]) <= ValorBienes(lotes[i]);
      assert ValorBienes(lotes[0]) <= ValorBienes(lotes[j]);
    }
  }

  /**
   * Stage 2, the pending indivisible assets, in the order given (largest
   * first): each goes whole to a lot of least value at that moment. When the
   * assets are worth between 0 and `d` and the lots start within `d` of each
   * other, they end within `d` of each other.
   */
  method AsignarIndivisibles(lotes: seq<Lote>, indivisibles: seq<ActivoValorado>)
    returns (r: seq<Lote>)
    requires |lotes| > 0
    ensures |r| == |lotes|
    ensures multiset(Map(r, Titular)) == multiset(Map(lotes, Titular))
    ensures LotesValidos(lotes) ==> LotesValidos(r)
    ensures Total(r) == Total(lotes) + Sum(indivisibles, ValorDe)
    ensures forall d | Equilibrado(lotes, d) && Acotados(indivisibles, d) :: Equilibrado(r, d)
    ensures Conserva(lotes, r)
  {
    r := lotes;
    ConservaMismos(lotes, r);
    for i := 0 to |indivisibles|
      invariant |r| == |lotes|
      invariant multiset(Map(r, Titular)) == multiset(Map(lotes, Titular))
      invariant LotesValidos(lotes) ==> LotesValidos(r)
      invariant Total(r) == Total(lotes) + Sum(indivisibles[..i], ValorDe)
      invariant forall d | Equilibrado(lotes, d) && Acotados(indivisibles, d) :: Equilibrado(r, d)
      invariant Conserva(lotes, r)
    {
      SumPrefix(indivisibles, i, ValorDe);
      ghost var antes := r;
      r := AsignarIndivisible(r, indivisibles[i]);
      ConservaTransitivo(lotes, antes, r);
    }
    assert indivisibles[..|indivisibles|] == indivisibles;
  }

  /**
   * One turn of stage 2: sort the lots by value and give the asset whole to
   * the first, a lot of least value. The other lots are left as they were.
   */
  method AsignarIndivisible(lotes: seq<Lote>, a: ActivoValorado) returns (r: seq<Lote>)
    requires |lotes| > 0
    ensures |r| == |lotes|
    ensures exists m | m in lotes ::
      && (forall l | l in lotes :: m.valorBienes <= l.valorBienes)
      && multiset(r) == multiset(lotes) - multiset{m} + multiset{Entregar(m, ItemEntero(a))}
    ensures multiset(Map(r, Titular)) == multiset(Map(lotes, Titular))
    ensures LotesValidos(lotes) ==> LotesValidos(r)
    ensures Total(r) == Total(lotes) + a.valorTotal
    ensures forall d | Equilibrado(lotes, d) && 0.0 <= a.valorTotal <= d :: Equilibrado(r, d)
    ensures Conserva(lotes, r)
  {
    var ordenados := SortBy(lotes, ValorBienes);
    OrdenarLotes(lotes, ordenados);
    EntregarEn(ordenados, 0, ItemEntero(a));
    forall d | Equilibrado(lotes, d) && 0.0 <= a.valorTotal <= d
      ensures Equilibrado(ordenados[0 := Entregar(ordenados[0], ItemEntero(a))], d)
    {
      AlMasPobre(ordenados, ItemEntero(a), d);
    }
    r := ordenados[0 := Entregar(ordenados[0], ItemEntero(a))];
    MasPobre(lotes, ordenados, r, ItemEntero(a));
    ConservaEntregarEn(lotes, ordenados, 0, ItemEntero(a));
  }

  /** The first of the sorted lots is one of least value, and only it changes. */
  lemma MasPobre(lotes: seq<Lote>, ordenados: seq<Lote>, r: seq<Lote>, it: Item)
    requires |lotes| > 0 && multiset(ordenados) == multiset(lotes) && Sorted(ordenados, ValorBienes)
    requires r == ordenados[0 := Entregar(ordenados[0], it)]
    ensures ordenados[0] in lotes && forall l | l in lotes :: ordenados[0].valorBienes <= l.valorBienes
    ensures multiset(r) == multiset(lotes) - multiset{ordenados[0]} + multiset{Entregar(ordenados[0], it)}
  {
    Minimo(lotes, ordenados);
    assert ordenados == [ordenados[0]] + ordenados[1..];
    assert r == [Entregar(ordenados[0], it)] + ordenados[1..];
  }

  /** `l => ({ heredero: l.id, nombreHeredero: l.nombreHeredero, diferencia: cuota - l.valorBienes })` */
  function Diferencia(cuota: real): Lote -> Compensacion
  {
    (l: Lote) => Compensacion(l.id, l.nombreHeredero, cuota - l.valorBienes)
  }

  /** The differences from the share add up to what the lots lack in total. */
  lemma {:induction false} SumaDiferencias(lotes: seq<Lote>, cuota: real)
    ensures Sum(Map(lotes, Diferencia(cuota)), DiferenciaDe) == |lotes| as real * cuota - Total(lotes)
    decreases |lotes|
  {
    if lotes != [] {
      var init, l := lotes[..|lotes| - 1], lotes[|lotes| - 1];
      assert lotes == init + [l];
      SumaDiferencias(init, cuota);
      MapAppend(init, [l], Diferencia(cuota));
      assert Map([l], Diferencia(cuota)) == [Diferencia(cuota)(l)];
      SumSnoc(Map(init, Diferencia(cuota)), Diferencia(cuota)(l), DiferenciaDe);
    }
  }

  /**
   * Stage 3 over every pending divisible asset, in order. Each leaves a
   * remainder of at most one cent undistributed (or its whole value, when it
   * is worth one cent or less).
   */
  method AsignarDivisibles(lotes: seq<Lote>, divisibles: seq<ActivoValorado>, cuota: real)
    returns (r: seq<Lote>, ghost residuos: seq<real>)
    requires |lotes| > 0
    ensures |r| == |lotes|
    ensures multiset(Map(r, Titular)) == multiset(Map(lotes, Titular))
    ensures LotesValidos(lotes) ==> LotesValidos(r)
    ensures |residuos| == |divisibles|
    ensures forall k | 0 <= k < |residuos| :: Residuo(divisibles[k].valorTotal, residuos[k])
    ensures Total(r) + Sum(residuos, Real) == Total(lotes) + Sum(divisibles, ValorDe)
    ensures Conserva(lotes, r)
  {
    r, residuos := lotes, [];
    ConservaMismos(lotes, r);
    for i := 0 to |divisibles|
      invariant |r| == |lotes|
      invariant multiset(Map(r, Titular)) == multiset(Map(lotes, Titular))
      invariant LotesValidos(lotes) ==> LotesValidos(r)
      invariant |residuos| == i
      invariant forall k | 0 <= k < i :: Residuo(divisibles[k].valorTotal, residuos[k])
      invariant Total(r) + Sum(residuos, Real) == Total(lotes) + Sum(divisibles[..i], ValorDe)
      invariant Conserva(lotes, r)
    {
      ghost var resto;
      SumPrefix(divisibles, i, ValorDe);
      ghost var antes := r;
      r, resto := RepartirDivisible(r, divisibles[i], cuota);
      ConservaTransitivo(lotes, antes, r);
      SumSnoc(residuos, resto, Real);
      residuos := residuos + [resto];
    }
    assert divisibles[..|divisibles|] == divisibles;
  }

  /**
   * Every asset of `activos` assigned to an heir who has a lot is, whole and
   * marked manual, among the items of a lot of that heir.
   */
  predicate ManualesEntregados(herederos: seq<Heredero>, activos: seq<ActivoValorado>, lotes: seq<Lote>)
  {
    forall a | a in activos && a.activo.asignadoA.Some? && (exists h | h in herederos :: h.id == a.activo.asignadoA.value) ::
      exists l | l in lotes :: l.id == a.activo.asignadoA.value && ItemManual(a) in l.activos
  }

  /** After stage 1 each manually assigned asset is in the lot of its heir. */
  lemma ManualesEnEtapa1(herederos: seq<Heredero>, activos: seq<ActivoValorado>, iniciales: seq<Lote>, lotes: seq<Lote>)
    requires Map(iniciales, Titular) == herederos
    requires |lotes| == |iniciales| && Map(lotes, Titular) == Map(iniciales, Titular)
    requires Recibidos(iniciales, iniciales, lotes, Filter(activos, Asignado))
    ensures ManualesEntregados(herederos, activos, lotes)
  {
    FilterMiembro(activos, Asignado);
    forall a | a in activos && a.activo.asignadoA.Some? && (exists h | h in herederos :: h.id == a.activo.asignadoA.value)
      ensures exists l | l in lotes :: l.id == a.activo.asignadoA.value && ItemManual(a) in l.activos
    {
      var id := a.activo.asignadoA.value;
      var h :| h in herederos && h.id == id;
      var j :| 0 <= j < |herederos| && herederos[j] == h;
      assert iniciales[j].id == Titular(iniciales[j]).id == h.id;
      var k := BuscarLote(iniciales, id).value;
      ManualRecibido(iniciales, Filter(activos, Asignado), lotes, a, k);
      assert lotes[k].id == Titular(lotes[k]).id == Titular(iniciales[k]).id == id;
      assert lotes[k] in lotes;
    }
  }

  /** An asset of `asignados` whose search lands on lot `k` is among that lot's items. */
  lemma ManualRecibido(iniciales: seq<Lote>, asignados: seq<ActivoValorado>, lotes: seq<Lote>, a: ActivoValorado, k: nat)
    requires Recibidos(iniciales, iniciales, lotes, asignados) && k < |lotes|
    requires a in asignados && DestinoEs(iniciales, k)(a)
    ensures ItemManual(a) in lotes[k].activos
  {
    var destino := Filter(asignados, DestinoEs(iniciales, k));
    FilterMiembro(asignados, DestinoEs(iniciales, k));
    var i :| 0 <= i < |destino| && destino[i] == a;
    assert Manuales(iniciales, asignados, k)[i] == ItemManual(a);
    assert lotes[k].activos == iniciales[k].activos + Manuales(iniciales, asignados, k);
    assert lotes[k].activos[|iniciales[k].activos| + i] == ItemManual(a);
  }

  /** Lots that only grow keep every manual item where it was. */
  lemma ManualesConservados(herederos: seq<Heredero>, activos: seq<ActivoValorado>, antes: seq<Lote>, despues: seq<Lote>)
    requires ManualesEntregados(herederos, activos, antes) && Conserva(antes, despues)
    ensures ManualesEntregados(herederos, activos, despues)
  {
    forall a | a in activos && a.activo.asignadoA.Some? && (exists h | h in herederos :: h.id == a.activo.asignadoA.value)
      ensures exists l | l in despues :: l.id == a.activo.asignadoA.value && ItemManual(a) in l.activos
    {
      var l :| l in antes && l.id == a.activo.asignadoA.value && ItemManual(a) in l.activos;
      var l2 :| l2 in despues && Crecido(l, l2);
      assert l2.id == Titular(l2).id == Titular(l).id;
      var i :| 0 <= i < |l.activos| && l.activos[i] == ItemManual(a);
      assert l2.activos[i] == ItemManual(a);
    }
  }

  /**
   * Stages 1 to 3 of `reparto`, in the order the source runs them, on the
   * valued assets `totalActivos` and the ideal share `cuota`. The pending
   * assets are exactly those nobody was assigned to (or whose heir has no
   * lot), largest first; the lots hold every asset except the remainders of
   * the divisible ones.
   */
  method RepartirActivos(herederos: seq<Heredero>, totalActivos: seq<ActivoValorado>, cuota: real)
    returns (lotes: seq<Lote>, ghost pendientes: seq<ActivoValorado>, ghost residuos: seq<real>)
    requires |herederos| > 0
    ensures |lotes| == |herederos|
    ensures multiset(Map(lotes, Titular)) == multiset(herederos)
    ensures LotesValidos(lotes)
    ensures Sorted(pendientes, MenosValor)
    ensures multiset(pendientes) == multiset(Huerfanos(LotesIniciales(herederos), totalActivos))
    ensures |residuos| == |Filter(pendientes, EsDivisible)|
    ensures forall k | 0 <= k < |residuos| :: Residuo(Filter(pendientes, EsDivisible)[k].valorTotal, residuos[k])
    ensures Total(lotes) + Sum(residuos, Real) == Sum(totalActivos, ValorDe)
    ensures ManualesEntregados(herederos, totalActivos, lotes)
  {
    lotes := LotesIniciales(herederos);
    ghost var iniciales := lotes;

    var asignados := Filter(totalActivos, Asignado);
    var sinAsignar := Filter(totalActivos, NoAsignado);
    var pend := SortBy(sinAsignar, MenosValor);
    SumFilterSplit(totalActivos, ValorDe, Asignado, NoAsignado);
    SumPerm(pend, sinAsignar, ValorDe);

    // 1. manual assignments
    lotes, pend := AsignarManuales(lotes, asignados, pend);
    ManualesEnEtapa1(herederos, totalActivos, iniciales, lotes);
    ghost var etapa1 := lotes;
    ghost var huerfanos := Huerfanos(iniciales, asignados);
    assert multiset(pend) == multiset(sinAsignar) + multiset(huerfanos);
    FilterUnion(totalActivos, NoAsignado, Asignado, Huerfano(iniciales));
    var ordenados := SortBy(pend, MenosValor);
    SumPerm(ordenados, pend, ValorDe);
    pend := ordenados;

    // 2. indivisible pending assets
    var indivisibles := Filter(pend, EsIndivisible);
    var divisibles := Filter(pend, EsDivisible);
    SumFilterSplit(pend, ValorDe, EsIndivisible, EsDivisible);
    lotes := AsignarIndivisibles(lotes, indivisibles);

    // 3. divisible pending assets
    ghost var etapa2 := lotes;
    lotes, residuos := AsignarDivisibles(lotes, divisibles, cuota);
    ConservaTransitivo(etapa1, etapa2, lotes);
    ManualesConservados(herederos, totalActivos, etapa1, lotes);
    pendientes := pend;
  }

  /**
   * Stages 4 and 5: one compensation per lot, what it must pay (negative) or
   * receive (positive) to reach the share, then the lots sorted by heir id.
   */
  method Liquidar(lotes: seq<Lote>, cuota: real) returns (porId: seq<Lote>, compensaciones: seq<Compensacion>)
    ensures |porId| == |lotes| && |compensaciones| == |lotes|
    ensures multiset(porId) == multiset(lotes)
    ensures multiset(Map(porId, Titular)) == multiset(Map(lotes, Titular))
    ensures Sorted(porId, IdClave)
    ensures LotesValidos(lotes) ==> LotesValidos(porId)
    ensures Total(porId) == Total(lotes)
    ensures multiset(compensaciones) == multiset(Map(porId, Diferencia(cuota)))
    ensures Sum(compensaciones, DiferenciaDe) == |lotes| as real * cuota - Total(lotes)
  {
    // 4. compensations, in the order the lots are in now
    compensaciones := Map(lotes, Diferencia(cuota));
    SumaDiferencias(lotes, cuota);

    // 5. sort by heir id
    porId := SortBy(lotes, IdClave);
    OrdenarLotes(lotes, porId);
    MapPerm(lotes, porId, Diferencia(cuota));
  }

  /**
   * What the heirs pay and what they receive cancel out, up to the remainders
   * the divisible stage could not place.
   */
  lemma CompensacionesSaldan(lotes: seq<Lote>, compensaciones: seq<Compensacion>, residuos: seq<real>,
                             caudal: real, cuota: real)
    requires |lotes| > 0 && cuota == CuotaIdeal(caudal, |lotes|)
    requires Sum(compensaciones, DiferenciaDe) == |lotes| as real * cuota - Total(lotes)
    requires Total(lotes) + Sum(residuos, Real) == caudal
    ensures Sum(compensaciones, DiferenciaDe) == Sum(residuos, Real)
  {
    assert |lotes| as real * cuota == caudal;
    assert |lotes| as real * cuota - Total(lotes) == Sum(residuos, Real);
  }

  /**
   * `reparto`: the lots of the heirs, sorted by heir id, and the
   * compensations, computed before that last sort. The heirs keep one lot
   * each; every lot's value is the sum of its items; the lots hold the whole
   * estate except the remainders of the divisible assets; the
   * compensations add up to exactly those remainders; and no later stage
   * takes a manually assigned asset away from its heir's lot.
   * The heir list is never empty (see `Management.EliminarHeredero`).
   */
  method CalcularReparto(herederos: seq<Heredero>, activos: seq<Activo>)
    returns (lotes: seq<Lote>, compensaciones: seq<Compensacion>,
             ghost pendientes: seq<ActivoValorado>, ghost residuos: seq<real>)
    requires |herederos| > 0
    ensures |lotes| == |herederos| && |compensaciones| == |herederos|
    ensures multiset(Map(lotes, Titular)) == multiset(herederos)
    ensures Sorted(lotes, IdClave)
    ensures LotesValidos(lotes)
    ensures multiset(compensaciones)
      == multiset(Map(lotes, Diferencia(CuotaIdeal(CaudalRelicto(activos), |herederos|))))
    ensures Sorted(pendientes, MenosValor)
    ensures multiset(pendientes) == multiset(Huerfanos(LotesIniciales(herederos), TotalActivos(activos)))
    ensures |residuos| == |Filter(pendientes, EsDivisible)|
    ensures forall k | 0 <= k < |residuos| :: Residuo(Filter(pendientes, EsDivisible)[k].valorTotal, residuos[k])
    ensures Total(lotes) + Sum(residuos, Real) == CaudalRelicto(activos)
    ensures Sum(compensaciones, DiferenciaDe) == Sum(residuos, Real)
    ensures ManualesEntregados(herederos, TotalActivos(activos), lotes)
  {
    var totalActivos := TotalActivos(activos);
    var caudal := CaudalRelicto(activos);
    var cuota := CuotaIdeal(caudal, |herederos|);
    lotes, pendientes, residuos := RepartirActivos(herederos, totalActivos, cuota);

    var porId;
    porId, compensaciones := Liquidar(lotes, cuota);
    CompensacionesSaldan(lotes, compensaciones, residuos, caudal, cuota);
    ConservaMismos(lotes, porId);
    ManualesConservados(herederos, totalActivos, lotes, porId);
    lotes := porId;
  }
}
