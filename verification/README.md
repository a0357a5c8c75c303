# CondoGest core: expense apportionment, permissions and request gating

A Dafny model of the pure core of CondoGest, a condominium management
system:

- **`Rateio`** (`rateio.dfy`): the expense-apportionment ("rateio") engine.
  A total expense in integer cents is split across the condominium's units
  by one of three policies:
  - the equal split ("igualitario");
  - the split proportional to each unit's ideal fraction ("fracao_ideal");
  - the validation of caller-supplied amounts per unit ("valor_fixo").

  A dispatcher selects the policy by model name. The three policies and the
  dispatcher are total: failures come back as `valido == false` with a list
  of error kinds.
- **`RateioProperties`** (`rateio_properties.dfy`): the engine's properties
  that relate several calls or describe a policy independently of how it
  computes. This covers sum conservation, residual bounds, error
  accumulation, the acceptance condition of the manual policy, and worked
  examples.
- **`Permissions`** (`permissions.dfy`): the six-level role hierarchy, the
  (resource, action) to minimum-role table, and `hasPermission`,
  `getRequiredRole`, `hasMinimumRole` and `getRoleLevel`. Lemmas show that the
  hierarchy is a total order, that permission is inherited upwards, and that
  unmapped pairs are denied.
- **`ApiAuth`** (`api_auth.dfy`): tenant isolation (`validateTenantAccess`)
  and the role gate of `authorizeRequest`. The gate takes the outcome of
  authentication as an input.
- **`Common`** (`common.dfy`): an option type, sums and counts over
  sequences, and `Scaled(n, f)`. `Scaled` is the product `n * f`, written as
  repeated addition so that the proofs about proportional shares stay in
  linear arithmetic. `Common.ScaledIsProduct` proves that it equals the
  product.

Modelling choices:

- **Money** is integer cents. `Math.floor(x * 100) / 100` becomes rounding
  down to the cent. `toFixed(2)` is exact.
- **Fractions** are exact `real`s, and the tolerance is `0.000001`.
- **Manual amounts** are a sequence of (unit id, cents) entries, in
  `Object.entries` order.
- **Errors** are a datatype of kinds carrying the data each message quotes:
  unit labels, sums and differences.
- **JavaScript truthiness** is written out where the code relies on it:
  - `bloco || ''`;
  - `numero || unidadeId`;
  - `numero || 'N/A'`;
  - `!condominio_id`, which is true for an absent id or an empty one.

Behaviours of the code worth knowing:

- **Manual amounts in the dispatcher.** Only their presence is checked
  (`src/lib/rateio.ts:242`). An empty map reaches the manual policy, which
  rejects it with its own error
  (`RateioProperties.DispatcherPassesEmptyManualValues`).
- **No minimum share.** The equal and fraction policies may charge a unit
  nothing: 2 cents over three units gives 0, 0 and 2
  (`RateioProperties.EqualSplitMayChargeZero`).
- **Empty unit list in the fraction policy.** An empty unit list gets two
  errors: no units, and a fraction sum of 0 instead of 1
  (`RateioProperties.FractionSplitOfNoUnits`).

## Model

| member | source | states |
|---|---|---|
| `Rateio.InputErrors` | src/lib/rateio.ts:58-63 | a non-positive total and an empty unit list each add their own error, and both may appear together; there is no error exactly when the total is positive and there are units |
| `Rateio.Settle` | src/lib/rateio.ts:82-89 | the reported total is the sum of the item amounts, the difference is what the total exceeds it by, and the result is valid exactly when the difference is zero (less than one cent) |
| `Rateio.EqualItemsSum` | src/lib/rateio.ts:68-80 | `n` units at `share` with the residual added to the last sum to `share * n + residual` |
| `Rateio.EqualSplit` | src/lib/rateio.ts:52-91 | valid exactly for a positive total over at least one unit, otherwise the shared rejected result (no items, computed total 0, difference = total); when valid: one item per unit in input order copying id, number and block; every item but the last gets the largest share `s` with `s * n <= total`; the last gets `s` plus a residual in `[0, n)`; the amounts sum to the total and the difference is 0 |
| `Rateio.MissingFractionLabels` | src/lib/rateio.ts:111-117 | as many labels as units without a positive fraction (absent or `<= 0`); empty exactly when every unit has a positive fraction |
| `Rateio.MissingFractionLabelsAppend` | src/lib/rateio.ts:111-114 | the labels of two lists of units joined are the labels of the first followed by those of the second, so the labels follow input order |
| `Rateio.MissingFractionLabelsOne` | src/lib/rateio.ts:111-114 | a single unit contributes its `{bloco}{numero}` label exactly when it lacks a positive fraction, so each such unit gives exactly one label |
| `Rateio.MissingFractionLabelsCover` | src/lib/rateio.ts:111-114 | every unit without a positive fraction is named among the labels |
| `Rateio.MissingFractionsCheck` | src/lib/rateio.ts:110-117 | all units missing a fraction are reported in one aggregated error, and there is no error exactly when none is missing |
| `Rateio.FractionSumCheck` | src/lib/rateio.ts:119-127 | an error carrying the sum and its distance from 1 exactly when the fractions (absent ones as 0) sum to more than 1e-6 away from 1 |
| `Rateio.FractionErrors` | src/lib/rateio.ts:103-131 | the errors are the input errors, then the missing-fraction error, then the sum error; there are none exactly when the total is positive, units exist, all have positive fractions and the sum is within the tolerance |
| `Rateio.FlooredItems` | src/lib/rateio.ts:133-139 | one item per unit, in order, copying the unit and echoing its fraction, valued at the floored share of the total |
| `Rateio.AbsorbIntoLast` | src/lib/rateio.ts:145-147 | only the last item changes, by exactly the residual, so the sum grows by the residual |
| `Rateio.FractionItems` | src/lib/rateio.ts:133-147 | one item per unit copying the unit and echoing its fraction; every item but the last carries its floored share, the last its floored share plus the residual; for at least one unit the amounts sum exactly to the total |
| `Rateio.IdealFractionSplit` | src/lib/rateio.ts:97-158 | the errors are exactly the fraction checks' errors; with any error it is the rejected result with no partial items; otherwise the items are the floored-and-adjusted items, summing exactly to the total with difference 0 |
| `Rateio.FindUnit` | src/lib/rateio.ts:183 | absent exactly when no unit has the id; otherwise the first unit with that id |
| `Rateio.MissingFractionLabelsSound` | src/lib/rateio.ts:111-114 | every reported label is the `{bloco}{numero}` label of some unit without a positive fraction, so no label is invented |
| `Rateio.NonPositiveErrors` | src/lib/rateio.ts:180-188 | only non-positive-value errors, and none exactly when every amount is positive |
| `Rateio.NonPositiveErrorsCount` | src/lib/rateio.ts:180-188 | exactly one error per non-positive amount |
| `Rateio.NonPositiveErrorsAppend` | src/lib/rateio.ts:181-188 | the errors for two lists of entries joined are the first list's errors followed by the second's, in entry order |
| `Rateio.NonPositiveErrorsOne` | src/lib/rateio.ts:182-187 | a single entry contributes its one error exactly when its amount is not positive |
| `Rateio.NonPositiveErrorsSound` | src/lib/rateio.ts:180-188 | every non-positive-value error is the error of some entry whose amount is not positive |
| `Rateio.EntryLabel` | src/lib/rateio.ts:184 | an unknown unit is named by its raw id; a numbered unit by its `{bloco}{numero}` label; an unnumbered one by its block followed by the raw id |
| `Rateio.NonPositiveReported` | src/lib/rateio.ts:181-187 | every non-positive amount is reported with its amount and the unit's `{bloco}{numero}` label, or the raw id when the unit is unknown, or its block followed by the raw id when the unit has no number |
| `Rateio.UnknownErrors` | src/lib/rateio.ts:190-196 | only unknown-unit errors, each naming an id that is not a unit's, and none exactly when every id names a unit |
| `Rateio.UnknownErrorsCount` | src/lib/rateio.ts:190-196 | exactly one error per entry whose id names no unit |
| `Rateio.UnknownReported` | src/lib/rateio.ts:192-195 | every id that names no unit is reported |
| `Rateio.UnknownErrorsAppend` | src/lib/rateio.ts:191-196 | the unknown-id errors for two lists of entries joined are the first list's errors followed by the second's, in entry order |
| `Rateio.UnknownErrorsOne` | src/lib/rateio.ts:192-195 | a single entry contributes an error naming its id exactly when the id names no unit |
| `Rateio.UnknownErrorsSound` | src/lib/rateio.ts:190-196 | every unknown-unit error names the id of some supplied entry |
| `Rateio.ManualItemFields` | src/lib/rateio.ts:208-216 | an item echoes the entry's id and amount, takes the unit's block, and shows the unit's number, or "N/A" when the unit is unknown or its number is empty |
| `Rateio.ManualItems` | src/lib/rateio.ts:208-216 | one item per entry, in entry order, echoing the amount, with the looked-up number (or "N/A") and block |
| `Rateio.SumMismatchErrors` | src/lib/rateio.ts:198-206 | an error quoting computed sum, total and absolute difference exactly when they are more than one cent apart |
| `Rateio.ManualErrors` | src/lib/rateio.ts:171-206 | the errors are the total error, the non-positive-amount errors, the unknown-id errors and the sum error, in that order; there are none exactly when the total is positive, every amount is positive, every id names a unit and the amounts meet the total within one cent |
| `Rateio.ValidateManual` | src/lib/rateio.ts:164-225 | no amounts: rejected at once with the total error (if any) and "no values"; otherwise the computed total is the plain sum of the amounts and the difference is what the total exceeds it by, the items are the entries' items and sum to the computed total, the errors are the manual checks' errors, and the result is valid exactly when there is no error |
| `Rateio.CalculateRateio` | src/lib/rateio.ts:230-262 | each known model returns its policy's result unchanged; fixed amounts without manual values and an unknown model each give a rejected result with one error (the latter naming the model); valid exactly when the error list is empty |
| `Common.ScaledIsProduct` | src/lib/rateio.ts:137 | the proportional amount used for a share is exactly the total times the fraction |
| `RateioProperties.EqualSplitHundredOverThree` | src/lib/rateio.ts:68-80 | R$ 100,00 over three units gives 33,33, 33,33 and 33,34 |
| `RateioProperties.EqualSplitMayChargeZero` | src/lib/rateio.ts:68-80 | 2 cents over three units gives 0, 0 and 2: no minimum of one cent per unit |
| `RateioProperties.EqualSplitReportsBothInputErrors` | src/lib/rateio.ts:58-66 | a non-positive total with no units is rejected with both errors, total first |
| `RateioProperties.FlooredSharesBounds` | src/lib/rateio.ts:133-142 | the floored shares sum to at most the exact proportional amount and fall short of it by less than one cent per unit |
| `RateioProperties.FractionResidualBounds` | src/lib/rateio.ts:119-147 | for accepted fractions the residual given to the last unit is within `total * 1e-6` below 0 and below `total * 1e-6 + n`; with fractions summing exactly to 1 it lies in `[0, n)` |
| `RateioProperties.FractionResidualSmallTotal` | src/lib/rateio.ts:119-147 | below a million cents an accepted fraction split leaves a residual between 0 and `n` cents |
| `RateioProperties.FractionSplitItems` | src/lib/rateio.ts:133-147 | in an accepted fraction split every item but the last keeps its floored share and the last gets its floored share plus the residual |
| `RateioProperties.FractionInputErrorKinds` | src/lib/rateio.ts:103-108 | the fraction policy reports a non-positive total exactly when it is, and no units exactly when the list is empty |
| `RateioProperties.FractionMissingErrorKind` | src/lib/rateio.ts:110-117 | the aggregated missing-fraction error is present exactly when some unit lacks a positive fraction |
| `RateioProperties.FractionSumErrorKind` | src/lib/rateio.ts:119-127 | the sum error is present exactly when the fraction sum is more than 1e-6 away from 1 |
| `RateioProperties.FractionSplitOfNoUnits` | src/lib/rateio.ts:106-131 | an empty unit list fails both the unit check and the fraction-sum check (the sum of no fractions is 0) |
| `RateioProperties.FractionSplitRejectsNinetyPercent` | src/lib/rateio.ts:119-131 | fractions 0,5 and 0,4 are rejected with a sum error quoting 0,9 and a distance of 0,1, and no items |
| `RateioProperties.FractionSplitThirds` | src/lib/rateio.ts:133-147 | three thirds of R$ 100,00 floor to 33,33 each and the last unit absorbs the remaining cent |
| `RateioProperties.ManualValidIff` | src/lib/rateio.ts:171-224 | a manual split is valid exactly when the total is positive, amounts are given, all are positive, all ids name units, and they meet the total within one cent |
| `RateioProperties.ManualOneErrorPerNonPositive` | src/lib/rateio.ts:180-188 | the result holds exactly one non-positive-value error per non-positive amount |
| `RateioProperties.ManualOneErrorPerUnknownId` | src/lib/rateio.ts:190-196 | the result holds exactly one unknown-unit error per unknown id |
| `RateioProperties.ManualUnknownUnitInvalidates` | src/lib/rateio.ts:190-224 | an unknown id makes the result invalid and is reported, whatever the amounts add up to |
| `RateioProperties.ManualShortfall` | src/lib/rateio.ts:198-224 | R$ 480,00 assigned against R$ 500,00 gives the echoed items, computed total 48000, difference 2000 and a single sum error |
| `RateioProperties.ManualUnknownUnitExample` | src/lib/rateio.ts:190-216 | an entry naming no unit yields one "not found" error and an item numbered "N/A" with no block |
| `RateioProperties.ManualAcceptedNearTotal` | src/lib/rateio.ts:198-224 | an accepted manual apportionment's items meet the total within one cent |
| `RateioProperties.AcceptedDispatchIsKnown` | src/lib/rateio.ts:234-262 | only an equal split, a fraction split or a fixed-amount request with its amounts present can be accepted; a missing amount map and an unknown model are always rejected |
| `RateioProperties.ComputedDispatchConserves` | src/lib/rateio.ts:235-239 | an accepted equal or fraction request's items sum exactly to the total, with difference 0 |
| `RateioProperties.ManualDispatchNearTotal` | src/lib/rateio.ts:241-251 | an accepted fixed-amount request's items meet the total within one cent |
| `RateioProperties.RateioSumInvariant` | src/lib/rateio.ts:230-262 | every accepted apportionment's items sum to the total within one cent, and exactly (difference 0) for the equal and fraction policies |
| `RateioProperties.DispatcherPassesEmptyManualValues` | src/lib/rateio.ts:241-251 | absent manual values give the single "requires manual values" error; an empty set of values is passed through to the manual policy |
| `RateioProperties.DispatcherRejectsUnknownModel` | src/lib/rateio.ts:253-260 | an unrecognised model gives a rejected result naming it |
| `Permissions.RoleLevel` | src/lib/permissions.ts:133-135 | every role's level lies between PRESTADOR's 10 and ADMIN_SAAS's 100 (the exact order is stated by the hierarchy lemmas) |
| `Permissions.RequiredRole` | src/lib/permissions.ts:116-121 | none (`null`) exactly when the pair has no entry in the table, otherwise the entry |
| `Permissions.HasMinimumRole` | src/lib/permissions.ts:126-128 | comparing levels is comparing positions in the hierarchy PRESTADOR < MORADOR < CONSELHEIRO < SINDICO < ADMIN_CONDOMINIO < ADMIN_SAAS |
| `Permissions.HasPermission` | src/lib/permissions.ts:103-111 | granted exactly when the pair is mapped and the role reaches the mapped role |
| `Permissions.LevelsStrictlyOrdered` | src/lib/permissions.ts:91-98 | levels strictly increase along the hierarchy |
| `Permissions.RoleLevelInjective` | src/lib/permissions.ts:91-98 | distinct roles have distinct levels |
| `Permissions.MinimumRoleIsTotalOrder` | src/lib/permissions.ts:126-128 | reaching a minimum role is reflexive, antisymmetric, transitive and total |
| `Permissions.HierarchyExtremes` | src/lib/permissions.ts:91-98 | ADMIN_SAAS reaches every role, every role reaches PRESTADOR, and only ADMIN_SAAS reaches ADMIN_SAAS |
| `Permissions.PermissionIsMinimumRole` | src/lib/permissions.ts:108-110 | an unmapped pair is denied; a mapped one is granted exactly when the role reaches the required role |
| `Permissions.UnmappedPairsDenied` | src/lib/permissions.ts:27-89 | dashboard/create and relatorios/delete have no entry and are denied to every role |
| `Permissions.PermissionMonotone` | src/lib/permissions.ts:110 | a role at least as high as one holding a permission holds it too |
| `Permissions.AdminSaasHoldsEveryMapped` | src/lib/permissions.ts:108-110 | ADMIN_SAAS holds exactly the mapped permissions |
| `Permissions.PrestadorOnlyWorksCards` | src/lib/permissions.ts:68-73 | PRESTADOR holds exactly creating and updating cards |
| `Permissions.OnlyAdminSaasDeletesUsers` | src/lib/permissions.ts:56-61 | deleting a user is granted to ADMIN_SAAS alone |
| `Permissions.EveryResourceViewable` | src/lib/permissions.ts:27-89 | every resource has an entry and every entry maps viewing |
| `ApiAuth.AuthorizeRequest` | src/lib/api-auth.ts:84-98 | an authentication failure is returned unchanged; a user below the minimum gets 403 with an access-denied error naming the minimum while keeping the user; otherwise the authentication result is returned unchanged; success exactly when authenticated and the role reaches the minimum |
| `ApiAuth.ValidateTenantAccess` | src/lib/api-auth.ts:104-128 | status 200 with no error exactly when the user is ADMIN_SAAS or bound to the requested condominium; otherwise 403, "no condominium" for an unbound user and "foreign condominium" for a mismatch |
| `ApiAuth.TenantIsolation` | src/lib/api-auth.ts:113-127 | a user other than ADMIN_SAAS is admitted to at most one condominium, the one they are bound to |
| `ApiAuth.AdminSaasReachesEveryTenant` | src/lib/api-auth.ts:108-111 | ADMIN_SAAS is admitted to every condominium, bound or not |
| `ApiAuth.AuthorizedUserReachesMinimum` | src/lib/api-auth.ts:89-97 | a granted request carries a user whose role reaches the minimum |
| `ApiAuth.AuthorizeMonotone` | src/lib/api-auth.ts:89 | a request admitted at some minimum is admitted at every lower minimum |
| `ApiAuth.AuthorizeIdempotent` | src/lib/api-auth.ts:84-98 | gating a gated result again at the same level changes nothing |
| `ApiAuth.AuthorizeMatchesPermission` | src/lib/api-auth.ts:89 | gating on the role the table requires for a pair admits exactly the users holding that permission |

## Left out

- **Authentication itself.** `authenticateRequest` (Supabase session and profile queries), `errorResponse`, `successResponse` and `parseRequestBody` are I/O. `ApiAuth.AuthorizeRequest` takes the authentication outcome as a parameter instead, and requires it to carry an error or a user, as `authenticateRequest` always does; the source dereferences `auth.user!` there.
- **Floating point.** Binary float drift and `toFixed` string round-trips are not modelled. Amounts are exact cents and fractions exact reals; a float-only effect (a fraction sum that is 1 in reals but not in doubles) is not represented. Non-finite amounts are left out too: the model's `valido` exactly when `erros` is empty holds only for finite numbers. In the code, a NaN or infinite total passes the equal and fraction policies' checks and yields `valido = false` with no error, and the manual policy accepts a NaN total or amount as valid, because every comparison with NaN is false.
- **Error messages.** Their Portuguese wording and number formatting are not modelled; errors are kinds with their payloads.
- **Unused `RateioInput` fields.** `despesa_id`, `data_vencimento`, `categoria_id` and `observacoes` are not read by the engine.
- **Unit fields.** A `Unidade` is reduced to id, block, number and ideal fraction; a fraction of `NaN` is not represented.
- **Duplicate ids.** Manual values come from an object, so their ids are distinct; the model accepts any entry sequence and does not assume distinctness.
- **User interface, route handlers, session middleware, validation schemas, formatting utilities, constants and scripts.** These are rendering, HTTP, library or database code outside the pure core.
- `Permissions.RoleLevel`: its own contract only bounds the level to [10, 100]; the order and distinctness of the levels are stated by `Permissions.LevelsStrictlyOrdered`, `Permissions.RoleLevelInjective` and `Permissions.HasMinimumRole`; the values themselves (100, 80, 60, 40, 20, 10) are only the table in its body.
