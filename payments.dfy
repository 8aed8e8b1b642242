/**
 * The payment matrix of the PDF report (section 3, "Compensaciones
 * económicas", in `PdfGenerator.generate`): every heir who has to pay
 * (owes more than a cent) pays every heir who is owed more than a cent, in
 * proportion to what each of those is owed. Payments of a cent or less are
 * not listed.
 */
module Payments {
  import opened Seqs
  import opened Reparto

  function Abs(x: real): real { if x < 0.0 then -x else x }

  /** One row of the payment table: `de` pays `a` the amount `importe`. */
  datatype Pago = Pago(de: string, a: string, importe: real)

  function Importe(p: Pago): real { p.importe }

  /** `debenPagar`: heirs whose lot exceeds the share by more than a cent. */
  predicate Paga(c: Compensacion) { c.diferencia < -UMBRAL }

  /** `debenCobrar`: heirs whose lot falls short of the share by more than a cent. */
  predicate Cobra(c: Compensacion) { c.diferencia > UMBRAL }

  /** `totalToReceive`: what the receivers are owed altogether. */
  function TotalACobrar(cobrar: seq<Compensacion>): real
  {
    Sum(cobrar, DiferenciaDe)
  }

  /** `payerAmount * (receiver.diferencia / totalToReceive)`, as a function of the receiver. */
  function Proporcion(importe: real, total: real): Compensacion -> real
    requires total != 0.0
  {
    (r: Compensacion) => importe * (r.diferencia / total)
  }

  /**
   * The inner `forEach` for a payer called `de` who owes each receiver
   * `parte(receiver)`: one row per receiver, in order, when the amount is
   * over a cent.
   */
  function Anotados(de: string, cobrar: seq<Compensacion>, parte: Compensacion -> real): seq<Pago>
  {
    if cobrar == [] then []
    else
      var receptor := cobrar[|cobrar| - 1];
      Anotados(de, cobrar[..|cobrar| - 1], parte)
        + (if parte(receptor) > UMBRAL then [Pago(de, receptor.nombreHeredero, parte(receptor))] else [])
  }

  /** One payer's rows. */
  function PagosDe(pagador: Compensacion, cobrar: seq<Compensacion>, total: real): seq<Pago>
    requires cobrar != [] ==> total != 0.0
  {
    if cobrar == [] then []
    else Anotados(pagador.nombreHeredero, cobrar, Proporcion(Abs(pagador.diferencia), total))
  }

  /** The outer `forEach`: every payer's rows, payer by payer. */
  function Matriz(pagar: seq<Compensacion>, cobrar: seq<Compensacion>, total: real): seq<Pago>
    requires cobrar != [] ==> total != 0.0
  {
    if pagar == [] then []
    else Matriz(pagar[..|pagar| - 1], cobrar, total) + PagosDe(pagar[|pagar| - 1], cobrar, total)
  }

  /** Receivers are owed something, so with any receiver the divisor is positive. */
  lemma {:induction false} TotalACobrarPositivo(cobrar: seq<Compensacion>)
    requires forall c | c in cobrar :: Cobra(c)
    ensures cobrar != [] ==> TotalACobrar(cobrar) > 0.0
    ensures TotalACobrar(cobrar) >= 0.0
    decreases |cobrar|
  {
    if cobrar != [] {
      assert cobrar[|cobrar| - 1] in cobrar;
      assert forall c | c in cobrar[..|cobrar| - 1] :: c in cobrar;
      TotalACobrarPositivo(cobrar[..|cobrar| - 1]);
    }
  }

  /** Payers and receivers are exactly the compensations beyond a cent either way. */
  lemma FiltrosDeRoles(compensaciones: seq<Compensacion>)
    ensures forall c :: c in Filter(compensaciones, Paga) <==> c in compensaciones && c.diferencia < -UMBRAL
    ensures forall c :: c in Filter(compensaciones, Cobra) <==> c in compensaciones && c.diferencia > UMBRAL
    ensures Filter(compensaciones, Cobra) != [] ==> TotalACobrar(Filter(compensaciones, Cobra)) > 0.0
  {
    FilterMiembro(compensaciones, Paga);
    FilterMiembro(compensaciones, Cobra);
    TotalACobrarPositivo(Filter(compensaciones, Cobra));
  }

  /**
   * Before the one-cent filter a payer's shares add up to
   * `importe * (TotalACobrar / total)`: the shares are proportional to what
   * each receiver is owed.
   */
  lemma {:induction false} RepartoProporcional(importe: real, cobrar: seq<Compensacion>, total: real)
    requires total != 0.0
    ensures Sum(cobrar, Proporcion(importe, total)) == importe * (TotalACobrar(cobrar) / total)
    decreases |cobrar|
  {
    if cobrar != [] {
      var init := cobrar[..|cobrar| - 1];
      var x := cobrar[|cobrar| - 1].diferencia;
      RepartoProporcional(importe, init, total);
      calc {
        Sum(cobrar, Proporcion(importe, total));
        Sum(init, Proporcion(importe, total)) + importe * (x / total);
        importe * (TotalACobrar(init) / total) + importe * (x / total);
        { assert TotalACobrar(init) / total + x / total == (TotalACobrar(init) + x) / total; }
        importe * ((TotalACobrar(init) + x) / total);
      }
    }
  }

  /** So with the real total as divisor, a payer's shares add up to exactly the payer's debt. */
  lemma PagadorSalda(pagador: Compensacion, cobrar: seq<Compensacion>)
    requires TotalACobrar(cobrar) != 0.0
    ensures Sum(cobrar, Proporcion(Abs(pagador.diferencia), TotalACobrar(cobrar))) == Abs(pagador.diferencia)
  {
    RepartoProporcional(Abs(pagador.diferencia), cobrar, TotalACobrar(cobrar));
  }

  /** A recorded row names the payer, a receiver and that receiver's share, which is over a cent. */
  lemma {:induction false} AnotadosRoles(de: string, cobrar: seq<Compensacion>, parte: Compensacion -> real, p: Pago)
    requires p in Anotados(de, cobrar, parte)
    ensures p.de == de && p.importe > UMBRAL
    ensures exists r | r in cobrar :: p.a == r.nombreHeredero && p.importe == parte(r)
    decreases |cobrar|
  {
    var init := cobrar[..|cobrar| - 1];
    var receptor := cobrar[|cobrar| - 1];
    assert receptor in cobrar;
    if p in Anotados(de, init, parte) {
      AnotadosRoles(de, init, parte, p);
      var r :| r in init && p.a == r.nombreHeredero && p.importe == parte(r);
      assert r in cobrar;
    }
  }

  /**
   * Every row of the matrix goes from a payer to a receiver, for more than a
   * cent, and is the payer's debt times the receiver's part of the total.
   */
  lemma {:induction false} MatrizRoles(pagar: seq<Compensacion>, cobrar: seq<Compensacion>, total: real, p: Pago)
    requires cobrar != [] ==> total != 0.0
    requires p in Matriz(pagar, cobrar, total)
    ensures p.importe > UMBRAL
    ensures exists q, r | q in pagar && r in cobrar ::
      p.de == q.nombreHeredero && p.a == r.nombreHeredero && p.importe == Proporcion(Abs(q.diferencia), total)(r)
    decreases |pagar|
  {
    var init := pagar[..|pagar| - 1];
    var q := pagar[|pagar| - 1];
    assert q in pagar;
    if p in Matriz(init, cobrar, total) {
      MatrizRoles(init, cobrar, total, p);
      var q', r :| q' in init && r in cobrar &&
        p.de == q'.nombreHeredero && p.a == r.nombreHeredero && p.importe == Proporcion(Abs(q'.diferencia), total)(r);
      assert q' in pagar;
    } else {
      assert cobrar != [];
      AnotadosRoles(q.nombreHeredero, cobrar, Proporcion(Abs(q.diferencia), total), p);
      var r :| r in cobrar && p.a == r.nombreHeredero && p.importe == Proporcion(Abs(q.diferencia), total)(r);
      assert q in pagar && r in cobrar;
    }
  }

  /** With nobody to receive there are no rows (and no division by the zero total). */
  lemma {:induction false} SinReceptores(pagar: seq<Compensacion>, total: real)
    ensures Matriz(pagar, [], total) == []
    decreases |pagar|
  {
    if pagar != [] {
      SinReceptores(pagar[..|pagar| - 1], total);
    }
  }

  /**
   * Dropping the shares of a cent or less loses at most a cent per receiver,
   * and never adds anything when no share is negative.
   */
  lemma {:induction false} AnotadosCotas(de: string, cobrar: seq<Compensacion>, parte: Compensacion -> real)
    requires forall r | r in cobrar :: parte(r) >= 0.0
    ensures Sum(cobrar, parte) - UMBRAL * |cobrar| as real <= Sum(Anotados(de, cobrar, parte), Importe)
    ensures Sum(Anotados(de, cobrar, parte), Importe) <= Sum(cobrar, parte)
    decreases |cobrar|
  {
    if cobrar != [] {
      var init := cobrar[..|cobrar| - 1];
      var receptor := cobrar[|cobrar| - 1];
      assert receptor in cobrar;
      assert forall r | r in init :: r in cobrar;
      AnotadosCotas(de, init, parte);
      if parte(receptor) > UMBRAL {
        SumSnoc(Anotados(de, init, parte), Pago(de, receptor.nombreHeredero, parte(receptor)), Importe);
      } else {
        assert Anotados(de, cobrar, parte) == Anotados(de, init, parte) + [];
        assert Anotados(de, init, parte) + [] == Anotados(de, init, parte);
      }
    }
  }

  /**
   * A payer's recorded payments add up to at most the payer's debt, and fall
   * short of it by at most one cent per receiver.
   */
  lemma PagosAcotados(pagador: Compensacion, cobrar: seq<Compensacion>)
    requires cobrar != [] && forall r | r in cobrar :: Cobra(r)
    ensures TotalACobrar(cobrar) > 0.0
    ensures Abs(pagador.diferencia) - UMBRAL * |cobrar| as real
      <= Sum(PagosDe(pagador, cobrar, TotalACobrar(cobrar)), Importe)
      <= Abs(pagador.diferencia)
  {
    var total := TotalACobrar(cobrar);
    TotalACobrarPositivo(cobrar);
    PagadorSalda(pagador, cobrar);
    var parte := Proporcion(Abs(pagador.diferencia), total);
    forall r | r in cobrar ensures parte(r) >= 0.0
    {
      assert r.diferencia / total > 0.0;
      assert Abs(pagador.diferencia) * (r.diferencia / total) >= 0.0;
    }
    AnotadosCotas(pagador.nombreHeredero, cobrar, parte);
  }

  /** The inner `forEach`: push this payer's payments of more than a cent. */
  method Pagar(matriz: seq<Pago>, payer: Compensacion, debenCobrar: seq<Compensacion>, totalToReceive: real)
    returns (r: seq<Pago>)
    requires debenCobrar != [] ==> totalToReceive != 0.0
    ensures r == matriz + PagosDe(payer, debenCobrar, totalToReceive)
  {
    r := matriz;
    if debenCobrar == [] {
      return;
    }
    var payerAmount := Abs(payer.diferencia);
    var j := 0;
    while j < |debenCobrar|
      invariant 0 <= j <= |debenCobrar|
      invariant r == matriz + Anotados(payer.nombreHeredero, debenCobrar[..j], Proporcion(payerAmount, totalToReceive))
    {
      var receiver := debenCobrar[j];
      var receiverProportion := receiver.diferencia / totalToReceive;
      var payment := payerAmount * receiverProportion;
      assert Proporcion(payerAmount, totalToReceive)(receiver) == payment;
      assert debenCobrar[..j + 1][..j] == debenCobrar[..j];
      assert Anotados(payer.nombreHeredero, debenCobrar[..j + 1], Proporcion(payerAmount, totalToReceive))
        == Anotados(payer.nombreHeredero, debenCobrar[..j], Proporcion(payerAmount, totalToReceive))
          + (if payment > UMBRAL then [Pago(payer.nombreHeredero, receiver.nombreHeredero, payment)] else []);
      if payment > UMBRAL {
        r := r + [Pago(payer.nombreHeredero, receiver.nombreHeredero, payment)];
      }
      j := j + 1;
    }
    assert debenCobrar[..j] == debenCobrar;
  }

  /**
   * Section 3 of the report: the payers, the receivers, and the proportional
   * payments between them, built by two nested loops; the section is only
   * produced when somebody has to pay.
   */
  method MatrizDePagos(compensaciones: seq<Compensacion>) returns (matriz: seq<Pago>)
    ensures var cobrar := Filter(compensaciones, Cobra);
      cobrar != [] ==> TotalACobrar(cobrar) > 0.0
    ensures matriz == Matriz(Filter(compensaciones, Paga), Filter(compensaciones, Cobra),
                              TotalACobrar(Filter(compensaciones, Cobra)))
  {
    var debenPagar := Filter(compensaciones, Paga);
    var debenCobrar := Filter(compensaciones, Cobra);
    FiltrosDeRoles(compensaciones);
    var totalToReceive := TotalACobrar(debenCobrar);
    matriz := [];
    if |debenPagar| > 0 {
      var i := 0;
      while i < |debenPagar|
        invariant 0 <= i <= |debenPagar|
        invariant matriz == Matriz(debenPagar[..i], debenCobrar, totalToReceive)
      {
        matriz := Pagar(matriz, debenPagar[i], debenCobrar, totalToReceive);
        assert debenPagar[..i + 1][..i] == debenPagar[..i];
        i := i + 1;
      }
      assert debenPagar[..i] == debenPagar;
    }
  }
}
