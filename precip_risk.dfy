/** The `precip_risk` table and the handler of lambda_function.py: the
    history lookup, the INSERT statement, and the loop that records one row
    per place.

    The table is an append-only sequence of rows held by a `PrecipRiskTable`
    object; the connection, the cursor and autocommit are not modelled. The
    clock, the hour label, the rainfall source and `exp` are inputs of the
    invocation. Timestamps are whole seconds. */
module PrecipRisk {
  import opened Wrappers
  import opened Landslide
  import opened Events

  /** Millimetres per inch. */
  const MmPerInch: real := 25.4
  /** Rows expire three hours (10800 seconds) after they are written. */
  const ExpirySeconds: int := 3 * 3600

  /** One row of `precip_risk`. */
  datatype Row = Row(
    ts: int,
    placeName: string,
    precip: real,
    precipInches: real,
    hour: string,
    riskProb: real,
    riskLevel: int,
    riskIsElevated: bool,
    precip24hr: real,
    risk24hr: int,
    precip2days: real,
    risk2days: int,
    precip3days: real,
    risk3days: int,
    expiresAt: int,
    placeId: Option<string>)

  /** What one invocation takes from outside: the current time, its hour
      label, the rainfall of the last three hours per place, and `exp`. */
  datatype Invocation = Invocation(now: int, hour: string, rainfall: string -> real, exp: real -> real)

  /** An invocation whose `exp` is positive everywhere. */
  type ValidInvocation = inv: Invocation | PositiveExp(inv.exp)
    witness Invocation(0, "", (_: string) => 0.0, (_: real) => 1.0)

  datatype Response = Response(status: string, placesProcessed: seq<string>, timestamp: int)

  // ---------------------------------------------------------------------
  // History lookup: SELECT risk_prob ... WHERE place_name = ? ORDER BY ts DESC LIMIT 1

  /** Row i is a row of `placeName` with the largest timestamp among them. */
  ghost predicate IsLatestFor(rows: seq<Row>, placeName: string, i: int)
  {
    0 <= i < |rows| && rows[i].placeName == placeName &&
    forall j :: 0 <= j < |rows| && rows[j].placeName == placeName ==> rows[j].ts <= rows[i].ts
  }

  ghost predicate NoRowFor(rows: seq<Row>, placeName: string)
  {
    forall i :: 0 <= i < |rows| ==> rows[i].placeName != placeName
  }

  /** The index of a latest row of `placeName`; among rows with the same
      timestamp the one stored last is taken. */
  function LatestRow(rows: seq<Row>, placeName: string): (r: Option<nat>)
    ensures r.None? <==> NoRowFor(rows, placeName)
    ensures r.Some? ==> IsLatestFor(rows, placeName, r.value)
    decreases |rows|
  {
    if |rows| == 0 then None
    else
      var init := rows[..|rows| - 1];
      var prev := LatestRow(init, placeName);
      var last := rows[|rows| - 1];
      if last.placeName != placeName then prev
      else if prev.Some? && init[prev.value].ts > last.ts then prev
      else Some(|rows| - 1)
  }

  /** The `risk_prob` of the latest row of `placeName`, if there is one. */
  function LatestProb(rows: seq<Row>, placeName: string): (prev: Option<real>)
    ensures prev.None? <==> NoRowFor(rows, placeName)
    ensures prev.Some? ==> exists i :: IsLatestFor(rows, placeName, i) && prev.value == rows[i].riskProb
  {
    match LatestRow(rows, placeName)
    case None => None
    case Some(i) => Some(rows[i].riskProb)
  }

  /** Whether `currentProb` exceeds the probability last stored for the place. */
  function IsRiskElevatedFromPrevious(rows: seq<Row>, placeName: string, currentProb: real): (elevated: bool)
    ensures NoRowFor(rows, placeName) ==> !elevated
    ensures elevated ==> exists i :: IsLatestFor(rows, placeName, i) && currentProb > rows[i].riskProb
    ensures !elevated && !NoRowFor(rows, placeName) ==>
              exists i :: IsLatestFor(rows, placeName, i) && currentProb <= rows[i].riskProb
  {
    match LatestProb(rows, placeName)
    case None => false
    case Some(previousProb) => currentProb > previousProb
  }

  /** The rows of `placeName` carry pairwise distinct timestamps. */
  ghost predicate DistinctTimestamps(rows: seq<Row>, placeName: string)
  {
    forall i, j :: 0 <= i < j < |rows| && rows[i].placeName == placeName && rows[j].placeName == placeName ==>
      rows[i].ts != rows[j].ts
  }

  /** When timestamps do not tie, the comparison is against THE latest row. */
  lemma ElevatedAgainstLatest(rows: seq<Row>, placeName: string, currentProb: real, i: int)
    requires DistinctTimestamps(rows, placeName)
    requires IsLatestFor(rows, placeName, i)
    ensures IsRiskElevatedFromPrevious(rows, placeName, currentProb) == (currentProb > rows[i].riskProb)
  {
    var j := LatestRow(rows, placeName).value;
    assert rows[j].ts == rows[i].ts;
  }

  /** A place whose last stored probability is 0.2 is elevated at 0.3 and
      not at 0.1 or at 0.2; a place with no stored row is never elevated. */
  lemma ElevatedExamples(row: Row, other: string)
    requires row.placeName != other && row.riskProb == 0.2
    ensures IsRiskElevatedFromPrevious([row], row.placeName, 0.3)
    ensures !IsRiskElevatedFromPrevious([row], row.placeName, 0.1)
    ensures !IsRiskElevatedFromPrevious([row], row.placeName, 0.2)
    ensures !IsRiskElevatedFromPrevious([row], other, 0.3)
  {
    assert LatestRow([row], row.placeName) == Some(0) by {
      assert [row][..0] == [];
    }
  }

  // ---------------------------------------------------------------------
  // The INSERT statement

  /** Values passed to the database driver. */
  datatype SqlValue = SqlTimestamp(t: int) | SqlText(s: string) | SqlReal(r: real) | SqlInt(i: int) | SqlBool(b: bool) | SqlNull

  datatype SqlError =
    | ExpressionCountMismatch(columns: nat, expressions: nat)
    | BindCountMismatch(placeholders: nat, supplied: nat)
    | TypeMismatch

  /** The target columns of the INSERT, in order. */
  const InsertColumns: seq<string> := [
    "ts", "place_name", "precip", "precip_inches", "hour",
    "risk_prob", "risk_level", "risk_is_elevated_from_previous",
    "precip24hr", "risk24hr", "precip2days", "risk2days", "precip3days", "risk3days", "expires_at", "place_id"]

  /** `INSERT INTO precip_risk (<InsertColumns>) VALUES (<placeholders> times %s)`. */
  datatype InsertStatement = InsertStatement(placeholders: nat)

  /** The statement as the handler writes it: seventeen placeholders. */
  const InsertAsWritten: InsertStatement := InsertStatement(17)

  /** One placeholder per target column. */
  const InsertCorrected: InsertStatement := InsertStatement(|InsertColumns|)

  /** The parameter tuple of a row, in column order. */
  function Parameters(row: Row): (params: seq<SqlValue>)
    ensures |params| == |InsertColumns|
  {
    [SqlTimestamp(row.ts), SqlText(row.placeName), SqlReal(row.precip), SqlReal(row.precipInches), SqlText(row.hour),
     SqlReal(row.riskProb), SqlInt(row.riskLevel), SqlBool(row.riskIsElevated),
     SqlReal(row.precip24hr), SqlInt(row.risk24hr), SqlReal(row.precip2days), SqlInt(row.risk2days),
     SqlReal(row.precip3days), SqlInt(row.risk3days), SqlTimestamp(row.expiresAt),
     match row.placeId case Some(id) => SqlText(id) case None => SqlNull]
  }

  /** The row a parameter tuple stores, when every value fits its column. */
  function DecodeRow(p: seq<SqlValue>): Option<Row>
  {
    if |p| == 16 && p[0].SqlTimestamp? && p[1].SqlText? && p[2].SqlReal? && p[3].SqlReal? && p[4].SqlText?
       && p[5].SqlReal? && p[6].SqlInt? && p[7].SqlBool? && p[8].SqlReal? && p[9].SqlInt?
       && p[10].SqlReal? && p[11].SqlInt? && p[12].SqlReal? && p[13].SqlInt? && p[14].SqlTimestamp?
       && (p[15].SqlText? || p[15].SqlNull?)
    then
      Some(Row(p[0].t, p[1].s, p[2].r, p[3].r, p[4].s, p[5].r, p[6].i, p[7].b, p[8].r, p[9].i,
               p[10].r, p[11].i, p[12].r, p[13].i, p[14].t,
               if p[15].SqlText? then Some(p[15].s) else None))
    else None
  }

  /** Executing the INSERT: the statement must have as many value
      expressions as target columns, and as many parameters as placeholders. */
  function ExecuteInsert(stmt: InsertStatement, params: seq<SqlValue>): (r: Result<Row, SqlError>)
    ensures r.Success? <==> stmt.placeholders == |InsertColumns| == |params| && DecodeRow(params).Some?
    ensures r.Success? ==> DecodeRow(params) == Some(r.value)
    ensures stmt.placeholders != |InsertColumns| ==> r == Failure(ExpressionCountMismatch(|InsertColumns|, stmt.placeholders))
  {
    if stmt.placeholders != |InsertColumns| then Failure(ExpressionCountMismatch(|InsertColumns|, stmt.placeholders))
    else if |params| != stmt.placeholders then Failure(BindCountMismatch(stmt.placeholders, |params|))
    else
      match DecodeRow(params)
      case Some(row) => Success(row)
      case None => Failure(TypeMismatch)
  }

  /** A row's parameter tuple decodes back to the row. */
  lemma DecodeParameters(row: Row)
    ensures DecodeRow(Parameters(row)) == Some(row)
  {
  }

  /** The INSERT stores exactly the row given when it has one placeholder
      per column, and fails otherwise. */
  lemma ExecuteParameters(stmt: InsertStatement, row: Row)
    ensures ExecuteInsert(stmt, Parameters(row))
         == if stmt.placeholders == |InsertColumns| then Success(row)
            else Failure(ExpressionCountMismatch(|InsertColumns|, stmt.placeholders))
  {
    DecodeParameters(row);
  }

  /** As written, the INSERT fails whatever row it is given. */
  lemma InsertAsWrittenFails(row: Row)
    ensures ExecuteInsert(InsertAsWritten, Parameters(row)) == Failure(ExpressionCountMismatch(16, 17))
  {
  }

  // ---------------------------------------------------------------------
  // The rows the handler computes

  /** The invariant of every recorded row: probability and risk levels follow
      the logistic model from the stored rainfall, the derived rainfall
      windows and the expiry follow from the row's own fields, and the place
      identifier comes from the registry. */
  ghost predicate ConsistentRow(exp: real -> real, row: Row)
    requires PositiveExp(exp)
  {
    && row.riskProb == LandslideProbability(exp, row.precip)
    && row.riskLevel == RiskLevel(row.riskProb)
    && row.precipInches == row.precip / MmPerInch
    && row.precip24hr == 8.0 * row.precip && row.risk24hr == LandslideRisk(exp, row.precip24hr)
    && row.precip2days == 16.0 * row.precip && row.risk2days == LandslideRisk(exp, row.precip2days)
    && row.precip3days == 24.0 * row.precip && row.risk3days == LandslideRisk(exp, row.precip3days)
    && row.expiresAt == row.ts + ExpirySeconds
    && row.placeId == GetPlaceId(row.placeName)
  }

  /** `row` is a consistent row recorded for `placeName` at time `now`. */
  ghost predicate RecordedFor(exp: real -> real, row: Row, placeName: string, now: int)
    requires PositiveExp(exp)
  {
    ConsistentRow(exp, row) && row.placeName == placeName && row.ts == now
  }

  /** The row recorded for `placeName` when the table holds `rows`. */
  function ComputeRow(rows: seq<Row>, placeName: string, inv: ValidInvocation): (row: Row)
    ensures ConsistentRow(inv.exp, row)
    ensures row.placeName == placeName && row.ts == inv.now && row.hour == inv.hour
    ensures row.precip == inv.rainfall(placeName)
    ensures row.riskIsElevated == IsRiskElevatedFromPrevious(rows, placeName, row.riskProb)
  {
    var rainfallMm := inv.rainfall(placeName);
    var prob := LandslideProbability(inv.exp, rainfallMm);
    var precip24hr := rainfallMm * 8.0;
    var precip2days := rainfallMm * 16.0;
    var precip3days := rainfallMm * 24.0;
    Row(
      ts := inv.now,
      placeName := placeName,
      precip := rainfallMm,
      precipInches := rainfallMm / MmPerInch,
      hour := inv.hour,
      riskProb := prob,
      riskLevel := LandslideRisk(inv.exp, rainfallMm),
      riskIsElevated := IsRiskElevatedFromPrevious(rows, placeName, prob),
      precip24hr := precip24hr,
      risk24hr := LandslideRisk(inv.exp, precip24hr),
      precip2days := precip2days,
      risk2days := LandslideRisk(inv.exp, precip2days),
      precip3days := precip3days,
      risk3days := LandslideRisk(inv.exp, precip3days),
      expiresAt := inv.now + ExpirySeconds,
      placeId := GetPlaceId(placeName))
  }

  /** The rows appended by recording `places` one after the other, starting
      from `rows0`, where `step` gives the row for a place from the table as
      it stands. */
  function Replay(rows0: seq<Row>, places: seq<string>, step: (seq<Row>, string) -> Row): (rows: seq<Row>)
    ensures |rows| == |rows0| + |places|
    decreases |places|
  {
    if places == [] then rows0
    else
      var before := Replay(rows0, places[..|places| - 1], step);
      before + [step(before, places[|places| - 1])]
  }

  /** Replaying a prefix of the places gives a prefix of the final table. */
  lemma {:induction false} ReplayPrefix(rows0: seq<Row>, places: seq<string>, step: (seq<Row>, string) -> Row, k: nat)
    requires k <= |places|
    ensures Replay(rows0, places, step)[..|rows0| + k] == Replay(rows0, places[..k], step)
    decreases |places|
  {
    if k < |places| {
      var init := places[..|places| - 1];
      ReplayPrefix(rows0, init, step, k);
      assert init[..k] == places[..k];
      var before := Replay(rows0, init, step);
      var after := Replay(rows0, places, step);
      assert after[..|rows0| + k] == before[..|rows0| + k];
    } else {
      assert places[..k] == places;
    }
  }

  /** Replaying one more place appends its row. */
  lemma ReplayStep(rows0: seq<Row>, places: seq<string>, step: (seq<Row>, string) -> Row, i: nat)
    requires i < |places|
    ensures Replay(rows0, places[..i + 1], step)
         == Replay(rows0, places[..i], step) + [step(Replay(rows0, places[..i], step), places[i])]
  {
    assert places[..i + 1][..i] == places[..i];
  }

  /** The row replayed for the k-th place is the step applied to the table as
      it stood just before it. */
  lemma ReplayAt(rows0: seq<Row>, places: seq<string>, step: (seq<Row>, string) -> Row, k: nat)
    requires k < |places|
    ensures Replay(rows0, places, step)[|rows0| + k]
         == step(Replay(rows0, places, step)[..|rows0| + k], places[k])
  {
    var after := Replay(rows0, places, step);
    ReplayPrefix(rows0, places, step, k);
    ReplayPrefix(rows0, places, step, k + 1);
    ReplayStep(rows0, places, step, k);
    assert after[|rows0| + k] == after[..|rows0| + k + 1][|rows0| + k];
  }

  /** Replaying appends exactly one row per place, in order, and leaves the
      rows already stored untouched. */
  lemma ReplayAppends(rows0: seq<Row>, places: seq<string>, step: (seq<Row>, string) -> Row)
    ensures Replay(rows0, places, step)[..|rows0|] == rows0
    ensures forall k :: 0 <= k < |places| ==>
              Replay(rows0, places, step)[|rows0| + k]
              == step(Replay(rows0, places, step)[..|rows0| + k], places[k])
  {
    ReplayPrefix(rows0, places, step, 0);
    forall k | 0 <= k < |places| {
      ReplayAt(rows0, places, step, k);
    }
  }

  /** The handler's step: the row it records for a place. */
  function RecordStep(inv: ValidInvocation): (seq<Row>, string) -> Row
  {
    (rows: seq<Row>, placeName: string) => ComputeRow(rows, placeName, inv)
  }

  /** The table after the handler has recorded `places`, in order, starting
      from `rows0`. Each row's history lookup sees the rows recorded before it. */
  function TableAfter(rows0: seq<Row>, places: seq<string>, inv: ValidInvocation): seq<Row>
  {
    Replay(rows0, places, RecordStep(inv))
  }

  /** The k-th row the handler records is consistent, stamped with the
      invocation's time, named after its place and computed from the table
      as it stood just before it. */
  lemma RecordedRow(rows0: seq<Row>, places: seq<string>, inv: ValidInvocation, k: nat)
    requires k < |places|
    ensures |TableAfter(rows0, places, inv)| == |rows0| + |places|
    ensures TableAfter(rows0, places, inv)[|rows0| + k]
         == ComputeRow(TableAfter(rows0, places, inv)[..|rows0| + k], places[k], inv)
    ensures RecordedFor(inv.exp, TableAfter(rows0, places, inv)[|rows0| + k], places[k], inv.now)
    ensures TableAfter(rows0, places, inv)[|rows0| + k].precip == inv.rainfall(places[k])
  {
    ReplayAt(rows0, places, RecordStep(inv), k);
  }

  // ---------------------------------------------------------------------
  // The table and the handler

  /** The `precip_risk` table as seen through the handler's cursor. */
  class PrecipRiskTable {
    var rows: seq<Row>

    constructor (existing: seq<Row>)
      ensures rows == existing
    {
      rows := existing;
    }

    /** `cur.execute(INSERT ..., params)` with autocommit: the row is stored
        at once, or the driver raises and nothing is stored. */
    method Execute(stmt: InsertStatement, params: seq<SqlValue>) returns (r: Result<Row, SqlError>)
      modifies this
      ensures r == ExecuteInsert(stmt, params)
      ensures rows == if r.Success? then old(rows) + [r.value] else old(rows)
    {
      r := ExecuteInsert(stmt, params);
      if r.Success? {
        rows := rows + [r.value];
      }
    }
  }

  /** The loop of the handler: one INSERT per place, in order, stopping at
      the first error the driver raises. */
  method RecordPlaces(table: PrecipRiskTable, stmt: InsertStatement, places: seq<string>, inv: ValidInvocation)
    returns (failure: Option<SqlError>)
    modifies table
    ensures stmt.placeholders == |InsertColumns| ==>
              failure.None? && table.rows == TableAfter(old(table.rows), places, inv)
    ensures stmt.placeholders != |InsertColumns| ==>
              table.rows == old(table.rows) &&
              failure == (if places == [] then None else Some(ExpressionCountMismatch(|InsertColumns|, stmt.placeholders)))
  {
    ghost var rows0 := table.rows;
    var i := 0;
    while i < |places|
      invariant 0 <= i <= |places|
      invariant table.rows == TableAfter(rows0, places[..i], inv)
      invariant stmt.placeholders != |InsertColumns| ==> i == 0
    {
      var row := ComputeRow(table.rows, places[i], inv);
      ExecuteParameters(stmt, row);
      var r := table.Execute(stmt, Parameters(row));
      if r.Failure? {
        return Some(r.error);
      }
      ReplayStep(rows0, places, RecordStep(inv), i);
      i := i + 1;
    }
    assert places[..i] == places;
    return None;
  }

  /** The handler with the INSERT corrected to one placeholder per column. */
  method LambdaHandler(event: Event, table: PrecipRiskTable, inv: ValidInvocation) returns (response: Response)
    modifies table
    ensures response == Response("ok", GetPlacesFromEvent(event), inv.now)
    ensures table.rows == TableAfter(old(table.rows), GetPlacesFromEvent(event), inv)
    ensures |table.rows| == |old(table.rows)| + |GetPlacesFromEvent(event)|
    ensures table.rows[..|old(table.rows)|] == old(table.rows)
    ensures forall k :: 0 <= k < |GetPlacesFromEvent(event)| ==>
              RecordedFor(inv.exp, table.rows[|old(table.rows)| + k], GetPlacesFromEvent(event)[k], inv.now)
  {
    var places := GetPlacesFromEvent(event);
    var failure := RecordPlaces(table, InsertCorrected, places, inv);
    ReplayPrefix(old(table.rows), places, RecordStep(inv), 0);
    forall k | 0 <= k < |places|
      ensures RecordedFor(inv.exp, table.rows[|old(table.rows)| + k], places[k], inv.now)
    {
      RecordedRow(old(table.rows), places, inv, k);
    }
    response := Response("ok", places, inv.now);
  }

  /** The handler as written: any place to record makes the INSERT raise,
      before any row is stored. */
  method LambdaHandlerAsWritten(event: Event, table: PrecipRiskTable, inv: ValidInvocation)
    returns (r: Result<Response, SqlError>)
    modifies table
    ensures table.rows == old(table.rows)
    ensures GetPlacesFromEvent(event) == [] ==> r == Success(Response("ok", [], inv.now))
    ensures GetPlacesFromEvent(event) != [] ==> r == Failure(ExpressionCountMismatch(16, 17))
  {
    var places := GetPlacesFromEvent(event);
    var failure := RecordPlaces(table, InsertAsWritten, places, inv);
    if failure.Some? {
      return Failure(failure.value);
    }
    return Success(Response("ok", places, inv.now));
  }
}
