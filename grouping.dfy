/**
 * The rows of a lot's table in the PDF report (`groupedActivos` and
 * `groupedForHeight` in `PdfGenerator.generate`): the pieces a lot received
 * are grouped by asset name, one row per name, with the summed value and
 * fraction of the pieces of that name. The record is modelled as a plain
 * dictionary: names that a JavaScript object treats specially (integer-like
 * keys, which `Object.entries` lists first, and names inherited from
 * `Object.prototype`, which the `!groupedActivos[...]` test finds already
 * present) are not distinguished, and the order of the rows is not stated.
 */
module Grouping {
  import opened Wrappers
  import opened Seqs
  import opened Reparto

  // ---------------------------------------------------------------------
  // Grouping a lot's pieces by asset name
  // ---------------------------------------------------------------------

  /** One row of a lot's table: an asset name with the summed value and fraction. */
  datatype Fila = Fila(nombre: string, valor: real, fraccion: real)

  function FilaValor(f: Fila): real { f.valor }
  function Fraccion(it: Item): real { it.fraccion }

  function Llamado(n: string): Item -> bool
  {
    (it: Item) => it.nombre == n
  }

  function NombresFilas(filas: seq<Fila>): set<string>
  {
    set f | f in filas :: f.nombre
  }

  function NombresItems(items: seq<Item>): set<string>
  {
    set it | it in items :: it.nombre
  }

  predicate NombresDistintos(filas: seq<Fila>)
  {
    forall i, j | 0 <= i < j < |filas| :: filas[i].nombre != filas[j].nombre
  }

  /** Where the dictionary keeps the key `n`, if it has it. */
  function Posicion(filas: seq<Fila>, n: string): (r: Option<nat>)
    ensures r.None? <==> n !in NombresFilas(filas)
    ensures r.Some? ==> r.value < |filas| && filas[r.value].nombre == n
  {
    if filas == [] then None
    else if filas[|filas| - 1].nombre == n then Some(|filas| - 1)
    else
      var r := Posicion(filas[..|filas| - 1], n);
      assert forall f | f in filas[..|filas| - 1] :: f in filas;
      assert forall f | f in filas :: f in filas[..|filas| - 1] || f == filas[|filas| - 1];
      r
  }

  /**
   * What the rows say about the items seen so far: distinct names, exactly
   * the names of those items, and each row's sums over the items so named.
   */
  predicate Agrupadas(filas: seq<Fila>, hechos: seq<Item>)
  {
    && NombresDistintos(filas)
    && NombresFilas(filas) == NombresItems(hechos)
    && (forall k | 0 <= k < |filas| ::
          && filas[k].valor == Sum(Filter(hechos, Llamado(filas[k].nombre)), Valor)
          && filas[k].fraccion == Sum(Filter(hechos, Llamado(filas[k].nombre)), Fraccion))
  }

  lemma SumasTrasItem(hechos: seq<Item>, it: Item, n: string)
    ensures Sum(Filter(hechos + [it], Llamado(n)), Valor)
      == Sum(Filter(hechos, Llamado(n)), Valor) + (if it.nombre == n then it.valor else 0.0)
    ensures Sum(Filter(hechos + [it], Llamado(n)), Fraccion)
      == Sum(Filter(hechos, Llamado(n)), Fraccion) + (if it.nombre == n then it.fraccion else 0.0)
  {
    FilterPrefix(hechos + [it], |hechos|, Llamado(n));
    assert (hechos + [it])[..|hechos| + 1] == hechos + [it];
    assert (hechos + [it])[..|hechos|] == hechos;
    if it.nombre == n {
      SumSnoc(Filter(hechos, Llamado(n)), it, Valor);
      SumSnoc(Filter(hechos, Llamado(n)), it, Fraccion);
    } else {
      assert Filter(hechos + [it], Llamado(n)) == Filter(hechos, Llamado(n));
    }
  }

  lemma NombresTrasItem(hechos: seq<Item>, it: Item)
    ensures NombresItems(hechos + [it]) == NombresItems(hechos) + {it.nombre}
  {
    assert forall x | x in hechos + [it] :: x in hechos || x == it;
  }

  /** A first item of a new name opens a row at the end with that item's value and fraction. */
  lemma AgruparNuevo(filas: seq<Fila>, hechos: seq<Item>, it: Item, nuevas: seq<Fila>)
    requires Agrupadas(filas, hechos) && it.nombre !in NombresFilas(filas)
    requires nuevas == filas + [Fila(it.nombre, it.valor, it.fraccion)]
    ensures Agrupadas(nuevas, hechos + [it])
  {
    NombresTrasItem(hechos, it);
    assert forall f | f in nuevas :: f in filas || f == nuevas[|filas|];
    assert NombresFilas(nuevas) == NombresFilas(filas) + {it.nombre};
    forall k | 0 <= k < |nuevas|
      ensures nuevas[k].valor == Sum(Filter(hechos + [it], Llamado(nuevas[k].nombre)), Valor)
      ensures nuevas[k].fraccion == Sum(Filter(hechos + [it], Llamado(nuevas[k].nombre)), Fraccion)
    {
      SumasTrasItem(hechos, it, nuevas[k].nombre);
      if k < |filas| {
        assert filas[k] in filas;
      } else {
        assert it.nombre !in NombresItems(hechos);
        NombreAusente(hechos, it.nombre);
      }
    }
    forall i, j | 0 <= i < j < |nuevas| ensures nuevas[i].nombre != nuevas[j].nombre
    {
      if j == |filas| {
        assert filas[i] in filas;
      }
    }
  }

  lemma {:induction false} NombreAusente(hechos: seq<Item>, n: string)
    requires n !in NombresItems(hechos)
    ensures Filter(hechos, Llamado(n)) == []
    decreases |hechos|
  {
    if hechos != [] {
      var init := hechos[..|hechos| - 1];
      assert hechos[|hechos| - 1] in hechos;
      assert forall x | x in init :: x in hechos;
      NombreAusente(init, n);
    }
  }

  /** A further item of a known name adds its value and fraction to that name's row. */
  lemma AgruparExistente(filas: seq<Fila>, hechos: seq<Item>, it: Item, k: nat, nuevas: seq<Fila>)
    requires Agrupadas(filas, hechos) && k < |filas| && filas[k].nombre == it.nombre
    requires nuevas == filas[k := Fila(it.nombre, filas[k].valor + it.valor, filas[k].fraccion + it.fraccion)]
    ensures Agrupadas(nuevas, hechos + [it])
  {
    assert NombresFilas(nuevas) == NombresItems(hechos + [it]) by {
      NombresTrasItem(hechos, it);
      MismosNombres(filas, nuevas);
      assert filas[k] in filas;
    }
    assert NombresDistintos(nuevas) by {
      forall i, j | 0 <= i < j < |nuevas| ensures nuevas[i].nombre != nuevas[j].nombre
      {
        assert nuevas[i].nombre == filas[i].nombre && nuevas[j].nombre == filas[j].nombre;
      }
    }
    forall m | 0 <= m < |nuevas|
      ensures nuevas[m].valor == Sum(Filter(hechos + [it], Llamado(nuevas[m].nombre)), Valor)
      ensures nuevas[m].fraccion == Sum(Filter(hechos + [it], Llamado(nuevas[m].nombre)), Fraccion)
    {
      if m != k {
        assert filas[m].nombre != it.nombre by {
          if m < k {} else {}
        }
      }
      FilaTrasItem(filas[m], nuevas[m], hechos, it);
    }
  }

  /** A row after one more item: unchanged unless the item bears its name. */
  lemma FilaTrasItem(f: Fila, g: Fila, hechos: seq<Item>, it: Item)
    requires f.valor == Sum(Filter(hechos, Llamado(f.nombre)), Valor)
    requires f.fraccion == Sum(Filter(hechos, Llamado(f.nombre)), Fraccion)
    requires f.nombre == it.nombre ==> g == Fila(f.nombre, f.valor + it.valor, f.fraccion + it.fraccion)
    requires f.nombre != it.nombre ==> g == f
    ensures g.valor == Sum(Filter(hechos + [it], Llamado(g.nombre)), Valor)
    ensures g.fraccion == Sum(Filter(hechos + [it], Llamado(g.nombre)), Fraccion)
  {
    SumasTrasItem(hechos, it, f.nombre);
  }

  lemma MismosNombres(filas: seq<Fila>, nuevas: seq<Fila>)
    requires |filas| == |nuevas| && forall m | 0 <= m < |filas| :: nuevas[m].nombre == filas[m].nombre
    ensures NombresFilas(nuevas) == NombresFilas(filas)
  {
    forall x | x in NombresFilas(nuevas) ensures x in NombresFilas(filas)
    {
      var m :| 0 <= m < |nuevas| && nuevas[m].nombre == x;
      assert filas[m] in filas;
    }
    forall x | x in NombresFilas(filas) ensures x in NombresFilas(nuevas)
    {
      var m :| 0 <= m < |filas| && filas[m].nombre == x;
      assert nuevas[m] in nuevas;
    }
  }

  /** Distinct names: as many rows as names. */
  lemma {:induction false} CardinalNombres(filas: seq<Fila>)
    requires NombresDistintos(filas)
    ensures |NombresFilas(filas)| == |filas|
    decreases |filas|
  {
    if filas != [] {
      var init := filas[..|filas| - 1];
      var ultima := filas[|filas| - 1];
      CardinalNombres(init);
      assert forall f | f in filas :: f in init || f == ultima;
      assert NombresFilas(filas) == NombresFilas(init) + {ultima.nombre};
      assert ultima.nombre !in NombresFilas(init);
    }
  }

  /** One pass of the `forEach`, in either of its two cases. */
  lemma GrupoPaso(antes: seq<Fila>, hechos: seq<Item>, it: Item, k: Option<nat>, filas: seq<Fila>)
    requires Agrupadas(antes, hechos)
    requires k.None? ==> it.nombre !in NombresFilas(antes)
    requires k.None? ==> filas == antes + [Fila(it.nombre, 0.0 + it.valor, 0.0 + it.fraccion)]
    requires k.Some? ==> k.value < |antes| && antes[k.value].nombre == it.nombre
    requires k.Some? ==> filas == antes[k.value := Fila(it.nombre,
      antes[k.value].valor + it.valor, antes[k.value].fraccion + it.fraccion)]
    ensures Agrupadas(filas, hechos + [it])
    ensures Sum(filas, FilaValor) == Sum(antes, FilaValor) + it.valor
  {
    match k
    case None =>
      AgruparNuevo(antes, hechos, it, filas);
      SumSnoc(antes, Fila(it.nombre, it.valor, it.fraccion), FilaValor);
    case Some(p) =>
      AgruparExistente(antes, hechos, it, p, filas);
      SumUpdate(antes, p, filas[p], FilaValor);
  }

  /**
   * The body of the `forEach`: open the entry `{ valor: 0, fraccion: 0 }`
   * if the name is new, then add the piece's value and fraction to it.
   */
  method Acumular(filas: seq<Fila>, ghost hechos: seq<Item>, it: Item) returns (r: seq<Fila>)
    requires Agrupadas(filas, hechos)
    ensures Agrupadas(r, hechos + [it])
    ensures Sum(r, FilaValor) == Sum(filas, FilaValor) + it.valor
  {
    var k := Posicion(filas, it.nombre);
    if k.None? {
      var fila := Fila(it.nombre, 0.0, 0.0);
      fila := fila.(valor := fila.valor + it.valor, fraccion := fila.fraccion + it.fraccion);
      r := filas + [fila];
    } else {
      var p := k.value;
      r := filas[p := filas[p].(valor := filas[p].valor + it.valor, fraccion := filas[p].fraccion + it.fraccion)];
    }
    GrupoPaso(filas, hechos, it, k, r);
  }

  /**
   * `groupedActivos`: the record filled in a `forEach`, read back with
   * `Object.entries` as the lot's table rows. One row per
   * distinct asset name, carrying the sums over the pieces of that name; the
   * rows add up to the lot's whole value, and there are as many rows as the
   * distinct names `groupedForHeight` counts.
   */
  method AgruparPorNombre(items: seq<Item>) returns (filas: seq<Fila>)
    ensures NombresDistintos(filas)
    ensures NombresFilas(filas) == NombresItems(items)
    ensures forall k | 0 <= k < |filas| ::
      && filas[k].valor == Sum(Filter(items, Llamado(filas[k].nombre)), Valor)
      && filas[k].fraccion == Sum(Filter(items, Llamado(filas[k].nombre)), Fraccion)
    ensures Sum(filas, FilaValor) == Sum(items, Valor)
    ensures |filas| == |NombresItems(items)|
  {
    filas := [];
    ghost var hechos: seq<Item> := [];
    var i := 0;
    while i < |items|
      invariant 0 <= i <= |items| && hechos == items[..i]
      invariant Agrupadas(filas, hechos)
      invariant Sum(filas, FilaValor) == Sum(hechos, Valor)
    {
      filas := Acumular(filas, hechos, items[i]);
      SumPrefix(items, i, Valor);
      PrefijoSnoc(items, i);
      hechos := hechos + [items[i]];
      i := i + 1;
    }
    assert items[..i] == items;
    CardinalNombres(filas);
  }
}
