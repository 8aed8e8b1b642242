# Estate partition planner — a verified model

The application helps the heirs of an estate split it. The estate is an
inventory of assets, each priced as a list of sub-items (quantity × unit
value), and a list of heirs. The page values the assets, computes the estate
total (`caudalRelicto`) and the ideal share per heir (`cuotaIdeal`), and
builds one lot per heir (`reparto`):

1. assets assigned by hand go whole to their heir;
2. the unassigned indivisible assets go whole, largest first, to whichever lot
   is worth least at that moment;
3. each unassigned divisible asset is cut into pieces that fill the poorest
   lot up to the share, or, once no lot is below the share, is split evenly
   among all lots;
4. each lot gets a compensation, the share minus what it received, and the
   lots are sorted by heir id.

A PDF report then shows, per lot, a balance label and the lot's pieces
grouped by asset name. It also shows a matrix of proportional payments from
the heirs who received too much to those who received too little, and an
annex of co-owned assets. The report generator can also draw a net-liquidity
block per lot and a usufruct line in a legal annex, but only when it is given
liquidity or fiscal data. The page (src/app/page.tsx:331-345) passes neither,
so from this page those parts are never drawn. `Report.BloqueLiquidez`,
`Report.LiquidezDelReparto` and `Report.LineaUsufructo` model that code as
the generator has it.
A settings dialog edits the legal and fiscal settings (region, expense
percentage, usufruct, lifetime donations). A password dialog protects the
saved session.

The Dafny project models these parts.

| file | module | source |
|---|---|---|
| `wrappers.dfy` | `Wrappers` | `Option` |
| `seqs.dfy` | `Seqs` | generic `Sum`, `Count`, `Filter`, `Map` and a stable insertion sort (`SortBy`), with permutation lemmas |
| `estate.dfy` | `Estate` | valuation of assets, estate total and share |
| `management.dfy` | `Management` | the heir-list and asset edits of the page |
| `number_input.dfy` | `NumberInput` | the formatted number field |
| `reparto.dfy` | `Reparto` | the allocation |
| `grouping.dfy` | `Grouping` | grouping a lot's pieces by asset name |
| `payments.dfy` | `Payments` | the payment matrix |
| `report.dfy` | `Report` | the rest of the report calculations |
| `config.dfy` | `Config` | the settings dialog |
| `password.dfy` | `Password` | the password dialog |

The allocation is imperative in the source: it re-sorts a local array of lots
in place before every choice, pushes pieces onto a lot and adds to its
running total, and runs a `while` loop over the remainder of a divisible
asset. The model keeps the lots in a local sequence. It reassigns that
sequence to its stably sorted version, so ties are broken as the source
breaks them. Each stage is a method with loop invariants, proved against
specification functions (`Total`, `LotesValidos`, `Manuales`, `Huerfanos`,
`Residuo`).

The report's dictionary and `push` loops are methods too. The pure helpers
(valuation, edits, settings, labels) are functions. The password dialog is a
class whose methods update its two fields.

Money is an exact `real`. The thresholds of the source are kept as
constants: 0.01 for the allocation's remainder and for the payment filters,
and 1 for the balance label. `parseFloat` and `parseInt` are parameters that
return `None` where the source gets `NaN`. Fresh ids from `Date.now()` are
parameters too.

## Model

| member | source | states |
|---|---|---|
| `Estate.TotalActivos` | src/app/page.tsx:129-134 | one valued entry per asset, in order, carrying the asset unchanged and its total Σ cantidad × valor_unitario |
| `Estate.CuotaIdeal` | src/app/page.tsx:140 | the share times the number of heirs gives back the estate total |
| `Estate.CaudalConcat` | src/app/page.tsx:136-138 | the estate total is additive over the asset list |
| `Estate.CaudalAgregar` | src/app/page.tsx:136-138 | adding an asset raises the estate total by exactly that asset's value |
| `Estate.ValorNoNegativo` | src/app/page.tsx:132 | sub-items with non-negative quantity and price give an asset value ≥ 0 |
| `Management.MaxId` | src/app/page.tsx:243 | the result bounds every heir id and is the id of some heir |
| `Management.AgregarHeredero` | src/app/page.tsx:242-245 | exactly one heir is appended, the others are kept, the new id exceeds every old id (1 on an empty list, max + 1 otherwise), it is named `Heredero <id>`, and distinct ids stay distinct |
| `Management.EliminarHeredero` | src/app/page.tsx:247-250 | the result is a prefix of the list, exactly one shorter when there was more than one heir, never empty when the list was not, and distinct ids stay distinct |
| `Management.HerederosIniciales` | src/app/page.tsx:85-87 | the page starts with six heirs with distinct ids |
| `Management.EdicionesConservanHerederos` | src/app/page.tsx:242-250 | after any sequence of add/remove clicks the heir list is still non-empty with distinct ids, so the share never divides by zero |
| `Management.AsignarActivo` | src/app/page.tsx:256-259 | only `asignadoA` of the assets with that id changes: to no heir for "" and to the parsed id otherwise |
| `Management.AsignarConservaCaudal` | src/app/page.tsx:256-259 | reassigning an asset does not change the estate total |
| `Management.EliminarActivo` | src/app/page.tsx:261 | no asset with that id remains, every other asset is kept, and a list without that id is unchanged |
| `Management.EliminarActivoConcat` | src/app/page.tsx:261 | removal distributes over concatenation, so the kept assets keep their order and repetitions |
| `Management.EliminarActivoCaudal` | src/app/page.tsx:261 | the estate total drops by exactly the value of the removed assets |
| `Management.CambiarSubPartidas` | src/app/page.tsx:268 | the field is set on exactly the sub-items with that id, all others unchanged |
| `Management.ActualizarSubpartida` | src/app/page.tsx:263-271 | the asset with that id gets its sub-items edited as `CambiarSubPartidas` says (the field set on the sub-items with that id); every other field and every other asset is unchanged |
| `Management.ValorTrasCambio` | src/app/page.tsx:263-271 | the edited asset's value moves by exactly the change of the edited sub-items' amounts |
| `Management.TextoNoCambiaValor` | src/app/page.tsx:263-271 | editing a concept or a unit changes no amount |
| `Management.ActualizarCaudal` | src/app/page.tsx:263-271 | the estate total moves by exactly the summed change of the edited amounts |
| `NumberInput.Teclear` | src/app/page.tsx:34-41 | a keystroke is kept iff the text is over `[0-9.,]`, otherwise the field keeps its text, so the field stays over `[0-9.,]` |
| `NumberInput.QuitarPuntos` | src/app/page.tsx:47 | no dot remains, exactly the dots are removed, and no other character appears |
| `NumberInput.IndiceComa` | src/app/page.tsx:49 | None iff the text has no comma; otherwise the position of its first comma |
| `NumberInput.PrimeraComaAPunto` | src/app/page.tsx:49 | the first comma (as `IndiceComa` finds it) becomes a dot and every other character, later commas included, is kept; a text without comma is unchanged |
| `NumberInput.NormalizadoUnPunto` | src/app/page.tsx:47-49 | the normalised text has at most one dot |
| `NumberInput.NormalizarFormatoEspanol` | src/app/page.tsx:47-49 | a Spanish number `d.ddd,dd` becomes `dddd.dd`: thousands dots gone, decimal comma turned into a point |
| `NumberInput.QuitarPuntosDigitos` | src/app/page.tsx:47 | a digits-only text is unchanged by the removal |
| `NumberInput.QuitarPuntosConcat` | src/app/page.tsx:47 | removing dots distributes over concatenation |
| `NumberInput.Desenfocar` | src/app/page.tsx:43-58 | leaving the field reports the number iff the normalised text parses, and otherwise reverts the text |
| `Reparto.LotesIniciales` | src/app/page.tsx:149-154 | one lot per heir, in the heirs' order, each valid, all together worth 0 |
| `Reparto.Entregar` | src/app/page.tsx:165-166 | receiving a piece keeps the lot's heir and raises its value by the piece's value |
| `Reparto.EntregarValido` | src/app/page.tsx:165-166 | a lot whose value is the sum of its pieces still is after a push paired with its `+=` |
| `Reparto.BuscarLote` | src/app/page.tsx:162 | None iff no lot has that heir id; otherwise the first lot with it |
| `Reparto.BuscarMismosTitulares` | src/app/page.tsx:162 | the search depends only on the lots' heirs, not on what they hold |
| `Reparto.OrdenarLotes` | src/app/page.tsx:178 | re-sorting the lots keeps their heirs, total, validity, spread and the counts above or below the share |
| `Reparto.EntregarEn` | src/app/page.tsx:179-180 | giving a piece to one lot keeps the heirs and validity and adds its value to the total |
| `Reparto.ConservaMismos` | src/app/page.tsx:178 | re-sorting the lots takes no item from any lot |
| `Reparto.ConservaTransitivo` | src/app/page.tsx:176-213 | steps that each only add items, one after the other, only add items |
| `Reparto.ConservaEntregarEn` | src/app/page.tsx:178-180 | sorting and then pushing onto one lot keeps every lot's items, in order, under the same heir |
| `Reparto.ConservaRepartido` | src/app/page.tsx:189-204 | sorting and then pushing onto every lot keeps every lot's items, in order, under the same heir |
| `Reparto.AsignarManual` | src/app/page.tsx:161-171 | one manual asset goes whole to the first lot of its heir, or to the pending list when no lot has that heir; nothing is lost (lots plus pending grow by its value) |
| `Reparto.Etapa1Paso` | src/app/page.tsx:161-171 | the stage-1 invariant carries from the assets already done to one more |
| `Reparto.AsignarManuales` | src/app/page.tsx:160-171 | each lot ends with exactly the manual items (fraction 1) of the assets whose heir it is, in order; the assets of missing heirs are appended to the pending ones; heirs kept, lots valid, value conserved |
| `Reparto.AlMasPobre` | src/app/page.tsx:178-180 | giving an item worth between 0 and d to a lot of least value keeps all lots within d of each other |
| `Reparto.MasPobre` | src/app/page.tsx:178-180 | after the sort, the first lot is one of least value, and only it changes |
| `Reparto.AsignarIndivisible` | src/app/page.tsx:177-181 | the asset goes whole (fraction 1) to exactly one lot, which had the least value among all lots; the other lots are unchanged, the total grows by the asset's value, lots within d stay within d when the asset is worth at most d, and every lot keeps its items (`Conserva`) |
| `Reparto.AsignarIndivisibles` | src/app/page.tsx:176-181 | stage 2 keeps the heirs and validity, adds exactly the indivisibles' value, keeps lots within d when every asset is worth between 0 and d, and only adds items: each lot lives on in a lot of the same heir that starts with its old items |
| `Reparto.LlenarPrimero` | src/app/page.tsx:207-211 | filling the poorest lot with at most its deficit never lifts it above the share, and the whole deficit brings it exactly to the share |
| `Reparto.PartesIguales` | src/app/page.tsx:200 | n equal parts add back to the remainder, and each part is positive when the remainder is |
| `Reparto.RepartirResto` | src/app/page.tsx:193-205 | the even split is each lot with the same piece `restante / lotes.length` added (`Repartido`), keeps heirs and validity, places the whole remainder, and leaves every lot above the share |
| `Reparto.EntregarATodos` | src/app/page.tsx:201-204 | the `forEach` loop gives every lot, in place and in order, the same piece (`Repartido`) |
| `Reparto.EntregadosATodos` | src/app/page.tsx:201-204 | that keeps heirs and validity and raises the total by one piece per lot |
| `Reparto.TotalCrece` | src/app/page.tsx:203 | lots that each grew by v are worth n·v more in total |
| `Reparto.PasoDivisible` | src/app/page.tsx:188-212 | one loop turn (sort, then fill the poorest lot or split the rest) returns exactly `Turno`, and so keeps what `TurnoCumple` lists |
| `Reparto.TurnoPaso` | src/app/page.tsx:188-212 | every turn keeps heirs, validity and the value of lots plus remainder; the remainder drops into [0, restante); lots above the share stay as many or become all of them; while something is left the lots below the share decrease; the lot filled is one of least value and it receives min(deficit, remainder) with no other lot changing; when no lot is below the share the remainder becomes 0 and every lot ends above it |
| `Reparto.TurnoParejo` | src/app/page.tsx:193-205 | the even-split branch of a turn keeps those promises |
| `Reparto.TurnoLlena` | src/app/page.tsx:206-211 | the filling branch of a turn keeps those promises |
| `Reparto.RepartidoParejo` | src/app/page.tsx:200-205 | giving every lot `restante / lotes.length` of the asset keeps heirs and validity, places the whole remainder, and lifts every lot that was at or above the share strictly above it |
| `Reparto.Minimo` | src/app/page.tsx:189 | after sorting by value, the first lot is one of the lots and no lot is worth less |
| `Reparto.TurnoConserva` | src/app/page.tsx:188-212 | a turn of stage 3 takes no item from any lot |
| `Reparto.VerterConserva` | src/app/page.tsx:187-213 | the whole loop for one divisible asset takes no item from any lot |
| `Reparto.RepartirDivisible` | src/app/page.tsx:184-213 | one divisible asset: the loop's result is `Verter`, the turns of `Turno` repeated from the asset's whole value while more than 0.01 is left; its value is placed except a remainder in [0, 0.01] (its whole value when it is worth 0.01 or less, in which case no lot changes); no lot is pushed above the share unless all end above it; heirs kept, lots valid, no item taken from any lot |
| `Reparto.AsignarDivisibles` | src/app/page.tsx:183-214 | stage 3 keeps heirs and validity, lots plus the per-asset remainders add up to the lots plus the divisible assets' value, and only adds pieces: each lot lives on in a lot of the same heir that starts with its old items |
| `Reparto.ManualRecibido` | src/app/page.tsx:161-166 | after stage 1, an assigned asset whose lot search lands on lot k is among lot k's items |
| `Reparto.ManualesEnEtapa1` | src/app/page.tsx:160-171 | after stage 1 every asset assigned to an heir who has a lot is, as a manual item, in a lot of that heir |
| `Reparto.ManualesConservados` | src/app/page.tsx:176-224 | lots that only grow (stages 2 and 3, the final sort by id) keep every manual item in a lot of its heir |
| `Reparto.SumaDiferencias` | src/app/page.tsx:217-221 | the compensations add up to n·share minus the lots' total |
| `Reparto.RepartirActivos` | src/app/page.tsx:147-214 | stages 1-3: one lot per heir, every lot's value is the sum of its pieces, the pending assets are exactly those without a (surviving) heir, largest first, the lots hold the estate total minus one remainder of at most 0.01 per pending divisible asset, and every asset assigned to an heir who has a lot is, whole and marked manual, in a lot of that heir |
| `Reparto.Liquidar` | src/app/page.tsx:216-224 | one compensation per lot, each share minus the lot's value (so value + difference = share), lots sorted by heir id and a permutation of the lots they came from |
| `Reparto.CompensacionesSaldan` | src/app/page.tsx:216-221 | what the heirs pay and receive cancels out up to the remainders left by stage 3 |
| `Reparto.CalcularReparto` | src/app/page.tsx:147-227 | the whole `reparto`: the lots are the heirs (a permutation) sorted by id, each valid, one compensation per lot, the lots hold the estate minus the remainders, the compensations sum to exactly those remainders, and every asset assigned to an heir who has a lot is, whole and marked manual, in a lot of that heir |
| `Seqs.SortByEstable` | src/app/page.tsx:178 | the model's sort is stable, as `Array.prototype.sort` is: elements of equal key (lots of equal value) come out in the order they went in |
| `Grouping.Posicion` | src/utils/PdfGenerator.ts:315 | None iff no row has that name; otherwise a row with that name |
| `Grouping.GrupoPaso` | src/utils/PdfGenerator.ts:314-320 | either case of the loop body keeps the rows grouped and adds the piece's value to the rows' total |
| `Grouping.Acumular` | src/utils/PdfGenerator.ts:315-319 | adding a piece keeps one row per name, each with the sums over its pieces |
| `Grouping.CardinalNombres` | src/utils/PdfGenerator.ts:285-289 | rows with distinct names are as many as the names |
| `Grouping.AgruparPorNombre` | src/utils/PdfGenerator.ts:284-320 | one row per distinct name of the lot's pieces, each with the summed value and fraction of the pieces of that name; the rows add up to the lot's value, and there are as many rows as `groupedForHeight` counts |
| `Payments.TotalACobrarPositivo` | src/utils/PdfGenerator.ts:450 | with any receiver the divisor `totalToReceive` is positive |
| `Payments.FiltrosDeRoles` | src/utils/PdfGenerator.ts:432-433 | payers are exactly the compensations below −0.01 and receivers exactly those above 0.01 |
| `Payments.RepartoProporcional` | src/utils/PdfGenerator.ts:453-457 | before the filter, a payer's shares add up to its debt times the receivers' total over the divisor |
| `Payments.PagadorSalda` | src/utils/PdfGenerator.ts:450-457 | before the filter, each payer pays exactly its debt |
| `Payments.AnotadosRoles` | src/utils/PdfGenerator.ts:455-466 | a recorded row names the payer and one receiver, with that receiver's share, over 0.01 |
| `Payments.MatrizRoles` | src/utils/PdfGenerator.ts:452-467 | every row goes from a payer to a receiver, for more than 0.01, and is the payer's debt times the receiver's part |
| `Payments.SinReceptores` | src/utils/PdfGenerator.ts:452-467 | with no receivers there are no rows and no division |
| `Payments.AnotadosCotas` | src/utils/PdfGenerator.ts:459 | the 0.01 filter loses at most 0.01 per receiver and adds nothing |
| `Payments.PagosAcotados` | src/utils/PdfGenerator.ts:449-467 | a payer's recorded payments are at most its debt and short of it by at most 0.01 per receiver |
| `Payments.Pagar` | src/utils/PdfGenerator.ts:455-466 | the inner loop appends exactly that payer's rows |
| `Payments.MatrizDePagos` | src/utils/PdfGenerator.ts:432-467 | the nested loops build exactly the matrix of proportional payments of the payers to the receivers |
| `Report.EtiquetaBalance` | src/utils/PdfGenerator.ts:305-306 | "Equilibrado" iff the lot is less than 1 from the share; otherwise the signed difference, with '+' iff the lot is above it |
| `Report.BalanceYCompensacion` | src/utils/PdfGenerator.ts:305-306 | the label agrees with the lot's compensation: balanced iff it is under 1 in absolute value, '+' iff the heir has to pay |
| `Report.GastoPorHeredero` | src/utils/PdfGenerator.ts:333 | the expenses split over the heirs, or charged whole when the count is 0 |
| `Report.BuscarCompensacion` | src/utils/PdfGenerator.ts:336 | None iff no compensation is that heir's; otherwise one of that heir's |
| `Report.BuscarPrimero` | src/utils/PdfGenerator.ts:336 | the result is the first compensation of that heir |
| `Report.BloqueLiquidez` | src/utils/PdfGenerator.ts:328-370 | net liquidity = the heir's cash (not marital) − its share of the expenses + its compensation (0 if none); the compensation row only when non-zero; "LIQUIDEZ NETA" iff ≥ 0 |
| `Report.LiquidezDelReparto` | src/utils/PdfGenerator.ts:336-339 | with the allocation's own compensations, each lot's net liquidity is its cash, minus its share of the expenses, plus what it lacks to reach the share |
| `Report.LineaUsufructo` | src/utils/PdfGenerator.ts:625-626 | the line appears iff the usufruct is enabled, with a percentage in [10, 70], 89 − age between ages 19 and 79 |
| `Report.Participantes` | src/utils/PdfGenerator.ts:759-772 | the co-owners are exactly the lots whose non-virtual pieces of that asset have a summed fraction > 0, in lot order, each with that fraction |
| `Report.Anotar` | src/utils/PdfGenerator.ts:755-776 | an asset is appended to the annex exactly when more than one lot co-owns it |
| `Report.AnexoProindiviso` | src/utils/PdfGenerator.ts:753-776 | the annex lists, in inventory order, exactly the assets with more than one co-owner, and `hayProindivisos` holds iff it lists any |
| `Config.PorcentajeRegion` | src/components/ConfigModal.tsx:82-86 | mad, and, mur, val → 1; cyl, gal → 5; cat → 7; any other code → 10 |
| `Config.SeleccionarRegion` | src/components/ConfigModal.tsx:81-88 | choosing a region sets the region and its percentage and nothing else |
| `Config.SeleccionarRegionDosVeces` | src/components/ConfigModal.tsx:81-88 | choosing twice is choosing the second |
| `Config.OCero` | src/components/ConfigModal.tsx:118 | `\|\| 0`: an unparsable entry becomes 0, a parsed one is kept |
| `Config.PorcentajeUsufructo` | src/components/ConfigModal.tsx:197 | the rule of 89, always within [10, 70], 70 up to age 19 and 10 from age 79 |
| `Config.UsufructoDecreciente` | src/components/ConfigModal.tsx:197 | an older widow(er) never gets a larger usufruct |
| `Config.CambiarPorcentaje` | src/components/ConfigModal.tsx:118 | sets only the expense percentage, to the parsed value or 0 |
| `Config.CambiarEdad` | src/components/ConfigModal.tsx:189 | sets only the widow(er)'s age, to the parsed value or 0, so an unparsable age yields 70 % |
| `Config.CambiarMargen` | src/components/ConfigModal.tsx:301 | sets only the tolerance margin, to the parsed value or 0 |
| `Config.CambiarGananciales` | src/components/ConfigModal.tsx:146 | sets only the marital-property flag |
| `Config.CambiarUsufructo` | src/components/ConfigModal.tsx:175 | sets only the usufruct flag, keeping the age |
| `Config.AgregarColacion` | src/components/ConfigModal.tsx:37-40 | exactly one "Donación en vida" worth 0 is appended, the others kept in order, nothing else changes |
| `Config.SinId` | src/components/ConfigModal.tsx:43 | keeps exactly the donations whose id differs |
| `Config.EliminarColacion` | src/components/ConfigModal.tsx:42-44 | no donation with that id remains, every other one is kept, nothing else changes |
| `Config.SinIdConcat` | src/components/ConfigModal.tsx:43 | removal distributes over concatenation, so the order is kept |
| `Config.SinIdAusente` | src/components/ConfigModal.tsx:43 | a list without that id is unchanged |
| `Config.EliminarIdempotente` | src/components/ConfigModal.tsx:42-44 | removing twice is removing once |
| `Config.CambiarCampo` | src/components/ConfigModal.tsx:48-50 | sets exactly the named field and keeps the id |
| `Config.ActualizarColacion` | src/components/ConfigModal.tsx:46-51 | the named field changes on exactly the donations with that id; length and every other donation unchanged |
| `Config.ActualizarOtroId` | src/components/ConfigModal.tsx:46-51 | an edit for an absent id changes nothing |
| `Config.EliminarTrasActualizar` | src/components/ConfigModal.tsx:42-51 | editing a donation and then removing it is just removing it |
| `Config.ValorTecleado` | src/components/ConfigModal.tsx:263 | the amount field coerces an unparsable entry to 0 |
| `Config.HerederoElegido` | src/components/ConfigModal.tsx:247 | the heir field keeps `parseInt`'s result, with no coercion |
| `Password.Enviar` | src/components/PasswordModal.tsx:28-36 | a set-mode submit with a non-empty password differing from the confirmation confirms nothing; otherwise set mode confirms the password or null when empty, and verify mode confirms the password as typed |
| `Password.PuedeEnviarConfirma` | src/components/PasswordModal.tsx:28-52 | whenever the button is enabled, submitting confirms |
| `Password.EnviarSegunModo` | src/components/PasswordModal.tsx:28-52 | in set mode, enabled iff the submit confirms (empty, or equal to the confirmation); in verify mode the button is what keeps an empty password from being confirmed |
| `Password.Dialogo.constructor` | src/components/PasswordModal.tsx:21-22 | both fields start empty |
| `Password.Dialogo.EscribirPassword` | src/components/PasswordModal.tsx:151 | typing sets the password field only |
| `Password.Dialogo.EscribirConfirmacion` | src/components/PasswordModal.tsx:176 | typing sets the confirmation field only |
| `Password.Dialogo.HandleSubmit` | src/components/PasswordModal.tsx:28-41 | confirms what `Enviar` says, always when the button was enabled; a refused submit keeps both fields, a confirming one clears them |
| `Password.Dialogo.HandleSkip` | src/components/PasswordModal.tsx:43-47 | confirms null and clears both fields |

## Left out

- The lot printed in the report carries an `idHeredero` that page.tsx never sets, so the report's `idHeredero !== -1` test always holds. The liquidity block is modelled as always shown when liquidity data is present.
- The heir of a donation (`parseInt` of the selector) is `None` where the source stores `NaN`.
- Reparto.CalcularReparto: states the compensations as the multiset of one per lot. Their order follows the lots' last value sort, and the contract does not state it.
- Stage 3 neither proves nor promises that lots end within any bound of each other. The source does not promise it either: a lot can overshoot the share through the even split.
- Floating point: money is an exact `real`. Rounding drift, `toFixed`, the `%` text and `Intl.NumberFormat` currency formatting are not modelled.
- `parseFloat` and `parseInt` are opaque parameters. `Math.random()` and `Date.now()` ids are parameters.
- The field's display formatting on mount and on a new value (`useEffect`) is not modelled, and neither is `handleFocus`. Only typing and leaving the field are.
- jsPDF drawing, layout, `estHeight` and page breaks, headers and footers, chart widths and saving are not modelled. Of `groupedForHeight`, only its row count is modelled.
- The report computes `totalToPay` and `valorTotalOriginal` but never uses them, so the model leaves them out.
- The legal annex texts other than the usufruct line (donation rows, fiscal advice) are fixed text and amounts printed as given, and are not modelled.
- `agregarActivo`, `updateNombreHeredero`, `eliminarSubPartida` and `toggleDivisible` in page.tsx are simple map/filter edits of the same kind as the asset edits modelled here. They do not feed the allocation beyond the data they edit, and are not part of this model.
- The text summary (`generarResumenLocal`), the AI analysis call (`src/app/api/logic/partition/route.ts`) and the `setTimeout` around it are not part of this model.
- React state and re-rendering are not modelled. Visibility toggles and the markup of both dialogs, and the dialog's `isOpen`, are not modelled either.
- The marital-property flag and the tolerance margin are settings the allocation does not use. They are modelled only as the values the dialog stores.
- Grouping.AgruparPorNombre: treats the report's record as a plain dictionary and states no row order. In the source, `Object.entries` lists integer-like names (such as "2024") first, in ascending order. A piece whose name is inherited from `Object.prototype` (such as "toString" or "constructor") gets no row of its own, because `!groupedActivos[name]` is false. The `+=` then writes onto the inherited member, and the table drops those pieces, while `groupedForHeight` still counts the name. For such names the source's rows do not add up to the lot's value, and their count differs from `groupedForHeight`'s. The model's contract holds only for ordinary names.
