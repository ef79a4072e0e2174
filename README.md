# Landslide risk from rainfall: a verified model

This project models the AWS Lambda handler that scores landslide risk for
Alaskan places (`lambda_function.py`). For each place named in the invocation
event, the handler does the following:

- takes the rainfall of the last three hours;
- computes a logistic landslide probability and buckets it into a risk level
  (0 low, 1 moderate, 2 high);
- compares the probability with the latest probability stored for the same
  place;
- is meant to append one row to the `precip_risk` table. The row also holds
  24-hour, 2-day and 3-day windows extrapolated from the 3-hour rainfall, an
  expiry three hours ahead and the place's external identifier. As written,
  the first INSERT raises and no row is stored (see "## Findings"); the model
  proves both the code as written and the corrected statement.

Modules:

- `Wrappers` (`wrappers.dfy`): `Option` and `Result`.
- `Landslide` (`landslide.dfy`): the linear predictor, the logistic shape
  `e / (1 + e)`, the probability and the risk level. `exp` is a parameter.
  Its positivity is assumed throughout. Three lemmas assume more:
  `ProbabilityIncreasing` and `LandslideRiskMonotone` that it is strictly
  increasing, `ProbabilityAtMidpoint` that `exp(0) = 1`, and
  `LogisticIsSigmoid` that `exp(-z) = 1 / exp(z)`. All arithmetic is on
  exact reals.
- `Events` (`events.dfy`): the duck-typed event as a datatype, the parsing of
  the places to run, and the static place registry.
- `PrecipRisk` (`precip_risk.dfy`): the table rows and the latest-row history
  query. It also holds the INSERT statement with its parameters and the
  driver's arity checks. `PrecipRiskTable` is a class whose `rows` sequence
  only grows. `RecordPlaces` is the handler's loop, a method proved against
  the specification function `TableAfter` (a `Replay` of the row
  computation over the places). `LambdaHandler` is the whole
  invocation.

Two points of the model that a reader may expect otherwise:

- The logistic is often written `1 / (1 + exp(-z))`. The code computes
  `exp(z) / (1 + exp(z))`, and `Landslide.LogisticIsSigmoid` proves the two
  equal whenever `exp(-z) = 1 / exp(z)`.
- Each row's history lookup reads the table as it stands just before that
  row's INSERT, so it also sees rows inserted earlier in the same
  invocation. The SELECT (line 58) and the INSERT (line 114) run on the same
  cursor and connection, and a session sees its own writes.

## Model

| member | source | states |
|---|---|---|
| `Landslide.Logistic` | lambda_function.py:17 | for every positive `e = exp(z)`, `e / (1 + e)` lies strictly between 0 and 1 |
| `Landslide.LandslideProbability` | lambda_function.py:13-17 | the probability for any rainfall lies strictly in (0, 1), with `z = -13.7821 + 0.4294 * rainfall` |
| `Landslide.LogisticStrictlyIncreasing` | lambda_function.py:17 | `e / (1 + e)` is strictly increasing in `e` |
| `Landslide.LogisticIsSigmoid` | lambda_function.py:17 | `e / (1 + e)` equals the sigmoid `1 / (1 + exp(-z))` when `exp(-z) = 1 / e` |
| `Landslide.ProbabilityIncreasing` | lambda_function.py:13-17 | with an increasing `exp`, strictly more rain gives a strictly higher probability (the coefficient is positive) |
| `Landslide.ProbabilityAtMidpoint` | lambda_function.py:14-17 | z is zero at 137821/4294 mm (about 32.1 mm), where the probability is exactly one half when `exp(0) = 1` |
| `Landslide.RiskLevel` | lambda_function.py:22-27 | the level is always 0, 1 or 2: 0 exactly when prob <= 0.01, 1 exactly when 0.01 < prob <= 0.7, 2 exactly when prob > 0.7 |
| `Landslide.LandslideRisk` | lambda_function.py:20-27 | the risk of a rainfall is 0, 1 or 2, and is 0 or 2 exactly when its probability is at most 0.01 or above 0.7 |
| `Landslide.RiskLevelMonotone` | lambda_function.py:22-27 | the risk level never decreases as the probability grows |
| `Landslide.LandslideRiskMonotone` | lambda_function.py:20-27 | with an increasing `exp`, the risk level never decreases as the rainfall grows |
| `Events.GetPlacesFromEvent` | lambda_function.py:35-41 | a truthy `place_name` gives `[place_name]`; otherwise a `places` list is returned unchanged; a non-dict event or one with neither usable key gives `[]` |
| `Events.PlaceNameTakesPrecedence` | lambda_function.py:37-40 | a truthy `place_name` wins whatever the `places` entry holds |
| `Events.PlacesComeFromEvent` | lambda_function.py:35-41 | every returned place is the event's `place_name` or an element of its `places` list, and the event is a dict |
| `Events.GetPlaceId` | lambda_function.py:44-46 | "Craig" maps to "AK91", "Kasaan" to "AK182" (both directions), and every other name to None |
| `PrecipRisk.LatestRow` | lambda_function.py:52-59 | no index exactly when the place has no row; otherwise an index of a row of that place with the largest `ts` |
| `PrecipRisk.LatestProb` | lambda_function.py:52-64 | no probability exactly when the place has no row; otherwise the `risk_prob` of a latest row of the place |
| `PrecipRisk.IsRiskElevatedFromPrevious` | lambda_function.py:49-65 | false when the place has no row; true only if the current probability exceeds that of a latest row; false only if no row exists or it does not exceed it |
| `PrecipRisk.ElevatedAgainstLatest` | lambda_function.py:52-65 | when the place's timestamps are distinct, elevated is exactly `current > risk_prob` of the latest row, so an equal probability gives false |
| `PrecipRisk.ElevatedExamples` | lambda_function.py:61-65 | a stored 0.2 is exceeded by 0.3 but not by 0.1 or 0.2, and a place without rows is never elevated |
| `PrecipRisk.Parameters` | lambda_function.py:114-133 | the parameter tuple has one value per target column (16) |
| `PrecipRisk.ExecuteInsert` | lambda_function.py:104-134 | the INSERT succeeds exactly when the placeholders match both the columns and the parameters and the values fit the columns, storing the decoded row; with a wrong placeholder count it fails with an expression-count error |
| `PrecipRisk.DecodeParameters` | lambda_function.py:114-133 | a row's parameter tuple decodes back to the same row |
| `PrecipRisk.ExecuteParameters` | lambda_function.py:104-134 | with one placeholder per column the INSERT stores exactly the row given; any other placeholder count fails |
| `PrecipRisk.InsertAsWrittenFails` | lambda_function.py:104-113 | the statement as written (16 columns, 17 placeholders) fails for every row |
| `PrecipRisk.ComputeRow` | lambda_function.py:85-102 | the row is consistent: prob and risk follow the model from the stored rainfall, inches = mm / 25.4, windows are 8x/16x/24x with their risks, expiry is ts + 3 h, the place id comes from the registry, and the elevated flag is the history comparison against the table before the insert |
| `PrecipRisk.Replay` | lambda_function.py:84-134 | recording n places one after the other grows the table by exactly n rows |
| `PrecipRisk.ReplayPrefix` | lambda_function.py:84-134 | recording a prefix of the places gives a prefix of the final table |
| `PrecipRisk.ReplayStep` | lambda_function.py:84-134 | each loop iteration appends exactly the next place's row, computed from the table as it stands |
| `PrecipRisk.ReplayAt` | lambda_function.py:84-134 | the k-th new row is computed against the table as it stood just before it |
| `PrecipRisk.ReplayAppends` | lambda_function.py:84-134 | the rows already stored are untouched, and exactly one row per place is appended, in list order |
| `PrecipRisk.RecordedRow` | lambda_function.py:84-134 | the k-th row the handler appends is the row computed for the k-th place against the earlier rows: consistent, with that place's name and rainfall and the invocation's time |
| `PrecipRisk.PrecipRiskTable.Execute` | lambda_function.py:114-134 | an INSERT under autocommit either stores its row at the end of the table or raises and stores nothing |
| `PrecipRisk.RecordPlaces` | lambda_function.py:84-134 | with a well-formed INSERT the table ends as `TableAfter` of the places; with a malformed one nothing is stored and the first insert raises |
| `PrecipRisk.LambdaHandler` | lambda_function.py:68-140 | returns status "ok" with `places_processed` equal to the parsed list; appends exactly one consistent row per parsed place, in order, leaving existing rows untouched |
| `PrecipRisk.LambdaHandlerAsWritten` | lambda_function.py:68-140 | with the INSERT as written, an event naming any place raises before storing a row; an event naming none returns "ok" with an empty list |

## Left out

- The pg8000 connection, its autocommit flag, the cursor and `conn.close()` (lines 78-83, 141-142). These are database I/O. The table is an in-memory sequence of rows, and every INSERT is stored at once.
- Environment-variable configuration (lines 7-10). This is process configuration, not logic.
- The clock, the time zone and formatting (lines 71-73, 121, 139). `now` is an integer number of seconds and the hour label is an input. The response carries `now` instead of its ISO-8601 text. Expiry is `now + 10800` seconds (`ExpirySeconds`), which matches the source: adding `timedelta(hours=3)` to a pytz-aware datetime (line 75) keeps its UTC offset, so the stored expiry is exactly three hours after `now`.
- The rainfall stub `get_rainfall_last_3h` (lines 30-32). Rainfall is a function of the place given to the invocation; the stub's constant 1.5 is one such function.
- Floating point (lines 17, 92-99). `math.exp` is a parameter assumed positive. Division and multiplication are exact over the reals, and rounding is not modelled.
- Overflow of `math.exp`: it raises `OverflowError` once z exceeds about 709.78. Line 100 computes `landslide_risk(rainfall_mm * 24)`, so the handler raises before its INSERT for any 3-hour rainfall above about 70.2 mm. The model returns a row there.
- Landslide.Logistic: the strict bounds in (0, 1), and the strict monotonicity of `LogisticStrictlyIncreasing`, `ProbabilityIncreasing` and `LandslideRiskMonotone`, hold for the real-valued model only. In floating point, `e / (1 + e)` rounds to exactly 1.0 once z exceeds about 37.
- Landslide.RiskLevel: the implicit `None` that `landslide_risk` returns for a NaN probability (line 26 has no else branch) cannot arise over the reals.
- Events.GetPlacesFromEvent: a truthy `place_name` that is not a string, and `places` lists holding non-strings, are not modelled. Places are strings, and a falsy non-string `place_name` is the `FalsyPlaceName` case.
- PrecipRisk.LatestRow: SQL leaves the order of rows with equal `ts` unspecified (lines 55-56). The function takes the one stored last. Its contract, and those of `LatestProb` and `IsRiskElevatedFromPrevious`, promise only "some row with the largest `ts`".
- Storage errors other than the statement's arity mismatch (a lost connection, a constraint violation) are not modelled.
- `get_place_id` is annotated as returning `int` but returns a string or None (line 44). The model returns `Option<string>`.
- The `__main__` demo block (lines 145-147).

## Findings

| source | as written | input that shows it | evidently intended | confidence | as-written member | corrected member |
|---|---|---|---|---|---|---|
| lambda_function.py:104-113 | the INSERT names 16 target columns but writes 17 `%s` placeholders, and line 114 passes a 16-value tuple, so every insert raises (PostgreSQL rejects an INSERT with more expressions than target columns) | any event naming a place, e.g. `{"places": ["Kasaan", "Craig"]}`: the first insert raises and no row is stored | one placeholder per column (16), so each place's row is stored | high; not executed | `PrecipRisk.LambdaHandlerAsWritten` | `PrecipRisk.LambdaHandler` |
