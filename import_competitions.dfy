/**
 * The `import_competitions` management command: every CSV row, in file
 * order, becomes a competition with an upper-cased type, a numeric minimum
 * wage budget (0 when the cell is missing or not a number) and a slug. A row
 * that raises is reported and skipped, and the batch goes on.
 *
 * Two things make a row raise: a missing `competition_type` (`NaN.upper()`),
 * and a name the store already holds (competition names are unique, so the
 * save is refused).
 */
module ImportCompetitions {
  import opened Wrappers
  import opened Text
  import opened Records

  datatype CompetitionRow = CompetitionRow(
    league: string,
    competitionType: Cell,
    country: string,
    imageLink: string,
    leagueRep: int,
    tier: int,
    minimumWageBudgets: Cell)

  datatype RowError = MissingType | DuplicateName

  /** `pd.to_numeric(cell, errors='coerce')`, with NaN replaced by 0. */
  function MinWageBudget(cell: Cell): (r: real)
    ensures cell.Text? && ParseDecimal(cell.s).Some? ==> r == ParseDecimal(cell.s).value
    ensures cell.Missing? || ParseDecimal(cell.s).None? ==> r == 0.0
  {
    match cell
    case Missing => 0.0
    case Text(s) => match ParseDecimal(s) case Some(v) => v case None => 0.0
  }

  /** A budget cell holding a whole number in decimal is stored as that number. */
  lemma MinWageOfWholeNumber(n: int)
    ensures MinWageBudget(Text(IntToString(n))) == n as real
  {
    ParseIntRoundTrip(n);
    ParseDecimalExtendsParseInt(IntToString(n));
  }

  /** The competition a row with a present type describes. */
  function Build(row: CompetitionRow, slugify: string -> string): Competition
    requires row.competitionType.Text?
  {
    Competition(
      row.league, slugify(row.league), row.country, row.tier, Upper(row.competitionType.s),
      row.leagueRep, Some(MinWageBudget(row.minimumWageBudgets)), Some(row.imageLink))
  }

  /** What one row does against the competitions saved so far. */
  function RowOutcome(comps: map<string, Competition>, row: CompetitionRow, slugify: string -> string): (r: Result<Competition, RowError>)
    ensures r.Err? <==> row.competitionType.Missing? || row.league in comps
    ensures r.Ok? ==> r.value.name == row.league && row.league !in comps
    ensures r.Ok? ==> r.value.slug == slugify(r.value.name) && r.value.competitionType == Upper(row.competitionType.s)
    ensures r.Ok? ==> r.value.minWageBudget == Some(MinWageBudget(row.minimumWageBudgets))
  {
    if row.competitionType.Missing? then Err(MissingType)
    else if row.league in comps then Err(DuplicateName)
    else Ok(Build(row, slugify))
  }

  /** The competitions after processing `rows` in file order. */
  function ApplyRows(comps: map<string, Competition>, rows: seq<CompetitionRow>, slugify: string -> string): map<string, Competition>
    decreases |rows|
  {
    if rows == [] then comps
    else
      var prev := ApplyRows(comps, rows[..|rows| - 1], slugify);
      match RowOutcome(prev, rows[|rows| - 1], slugify)
      case Ok(c) => prev[c.name := c]
      case Err(_) => prev
  }

  /** The indices of the rows that were reported as errors, in file order. */
  function FailedRows(comps: map<string, Competition>, rows: seq<CompetitionRow>, slugify: string -> string): seq<nat>
    decreases |rows|
  {
    if rows == [] then []
    else
      var prefix := rows[..|rows| - 1];
      FailedRows(comps, prefix, slugify)
        + (if RowOutcome(ApplyRows(comps, prefix, slugify), rows[|rows| - 1], slugify).Err? then [|rows| - 1] else [])
  }

  /** Saved competitions are never overwritten, and each saved row adds exactly one name. */
  lemma {:induction false} ApplyRowsGrows(comps: map<string, Competition>, rows: seq<CompetitionRow>, slugify: string -> string)
    ensures forall n :: n in comps ==> n in ApplyRows(comps, rows, slugify) && ApplyRows(comps, rows, slugify)[n] == comps[n]
    ensures |ApplyRows(comps, rows, slugify)| + |FailedRows(comps, rows, slugify)| == |comps| + |rows|
    ensures (forall n :: n in comps ==> comps[n].name == n) ==>
              forall n :: n in ApplyRows(comps, rows, slugify) ==> ApplyRows(comps, rows, slugify)[n].name == n
    decreases |rows|
  {
    if rows != [] {
      var prefix := rows[..|rows| - 1];
      ApplyRowsGrows(comps, prefix, slugify);
      var prev := ApplyRows(comps, prefix, slugify);
      match RowOutcome(prev, rows[|rows| - 1], slugify)
      case Ok(c) =>
        assert c.name !in prev;
        assert |prev[c.name := c]| == |prev| + 1;
      case Err(_) =>
    }
  }

  /** The error indices are strictly increasing and name rows of the input. */
  lemma {:induction false} FailedRowsInOrder(comps: map<string, Competition>, rows: seq<CompetitionRow>, slugify: string -> string)
    ensures forall k :: 0 <= k < |FailedRows(comps, rows, slugify)| ==> FailedRows(comps, rows, slugify)[k] < |rows|
    ensures forall a, b :: 0 <= a < b < |FailedRows(comps, rows, slugify)| ==>
              FailedRows(comps, rows, slugify)[a] < FailedRows(comps, rows, slugify)[b]
    decreases |rows|
  {
    if rows != [] {
      FailedRowsInOrder(comps, rows[..|rows| - 1], slugify);
    }
  }

  /** A name is in the store after the import exactly when it was before or some row with a present type carries it. */
  lemma {:induction false} ApplyRowsKeys(comps: map<string, Competition>, rows: seq<CompetitionRow>, slugify: string -> string, n: string)
    ensures n in ApplyRows(comps, rows, slugify) <==>
              n in comps || exists j :: 0 <= j < |rows| && rows[j].league == n && rows[j].competitionType.Text?
    decreases |rows|
  {
    if rows != [] {
      var prefix := rows[..|rows| - 1];
      ApplyRowsKeys(comps, prefix, slugify, n);
      var last := rows[|rows| - 1];
      if exists j :: 0 <= j < |prefix| && prefix[j].league == n && prefix[j].competitionType.Text? {
        var j :| 0 <= j < |prefix| && prefix[j].league == n && prefix[j].competitionType.Text?;
        assert rows[j] == prefix[j];
      }
      if exists j :: 0 <= j < |rows| && rows[j].league == n && rows[j].competitionType.Text? {
        var j :| 0 <= j < |rows| && rows[j].league == n && rows[j].competitionType.Text?;
        if j < |prefix| { assert prefix[j] == rows[j]; }
      }
    }
  }

  /** For a new name, the first row that carries it with a present type is the one stored: later rows with that name fail. */
  lemma {:induction false} FirstRowWins(comps: map<string, Competition>, rows: seq<CompetitionRow>, slugify: string -> string, i: nat)
    requires i < |rows| && rows[i].competitionType.Text? && rows[i].league !in comps
    requires forall j :: 0 <= j < i ==> rows[j].league != rows[i].league || rows[j].competitionType.Missing?
    ensures rows[i].league in ApplyRows(comps, rows, slugify)
    ensures ApplyRows(comps, rows, slugify)[rows[i].league] == Build(rows[i], slugify)
    decreases |rows|
  {
    var prefix := rows[..|rows| - 1];
    var n := rows[i].league;
    if i == |rows| - 1 {
      forall j | 0 <= j < |prefix| ensures !(prefix[j].league == n && prefix[j].competitionType.Text?) {
        assert prefix[j] == rows[j];
      }
      ApplyRowsKeys(comps, prefix, slugify, n);
    } else {
      assert prefix[i] == rows[i];
      forall j | 0 <= j < i ensures prefix[j].league != prefix[i].league || prefix[j].competitionType.Missing? {
        assert prefix[j] == rows[j];
      }
      FirstRowWins(comps, prefix, slugify, i);
    }
  }

  /** One more row: the fold and the error list extend by that row's outcome. */
  lemma ApplyRowsStep(comps: map<string, Competition>, rows: seq<CompetitionRow>, slugify: string -> string, i: nat)
    requires i < |rows|
    ensures var prev := ApplyRows(comps, rows[..i], slugify);
            var outcome := RowOutcome(prev, rows[i], slugify);
            && ApplyRows(comps, rows[..i + 1], slugify) == (if outcome.Ok? then prev[outcome.value.name := outcome.value] else prev)
            && FailedRows(comps, rows[..i + 1], slugify) == FailedRows(comps, rows[..i], slugify) + (if outcome.Err? then [i] else [])
  {
    assert rows[..i + 1][..i] == rows[..i];
  }

  /** The rows in file order: the competitions and the error list follow the fold. */
  method CompetitionRowLoop(store: Store, rows: seq<CompetitionRow>, slugify: string -> string)
    returns (competitionsCreated: nat, failed: seq<nat>)
    modifies store`competitions
    ensures store.competitions == ApplyRows(old(store.competitions), rows, slugify)
    ensures failed == FailedRows(old(store.competitions), rows, slugify)
    ensures competitionsCreated + |failed| == |rows|
  {
    ghost var initial := store.competitions;
    competitionsCreated, failed := 0, [];
    var i := 0;
    while i < |rows|
      invariant 0 <= i <= |rows|
      invariant store.competitions == ApplyRows(initial, rows[..i], slugify)
      invariant failed == FailedRows(initial, rows[..i], slugify)
      invariant competitionsCreated + |failed| == i
    {
      var row := rows[i];
      ApplyRowsStep(initial, rows, slugify, i);
      var minWage := MinWageBudget(row.minimumWageBudgets);
      if row.competitionType.Missing? {
        failed := failed + [i];
      } else {
        var competition := Competition(
          row.league, "", row.country, row.tier, Upper(row.competitionType.s),
          row.leagueRep, Some(minWage), Some(row.imageLink));
        competition := competition.(slug := slugify(competition.name));
        if competition.name in store.competitions {
          failed := failed + [i];
        } else {
          assert competition == Build(row, slugify);
          store.competitions := store.competitions[competition.name := competition];
          competitionsCreated := competitionsCreated + 1;
        }
      }
      i := i + 1;
    }
    assert rows[..i] == rows;
  }
  /**
   * Runs the command over `rows`. Returns `competitions_created` and the
   * indices of the rows whose error was reported.
   */
  method ImportCompetitions(store: Store, rows: seq<CompetitionRow>, slugify: string -> string)
    returns (competitionsCreated: nat, failed: seq<nat>)
    requires store.Valid()
    modifies store`competitions
    ensures store.Valid()
    ensures store.competitions == ApplyRows(old(store.competitions), rows, slugify)
    ensures failed == FailedRows(old(store.competitions), rows, slugify)
    ensures competitionsCreated + |failed| == |rows|
    ensures competitionsCreated == |store.competitions| - |old(store.competitions)|
  {
    ghost var initial := store.competitions;
    assert CompetitionsKeyedBy(initial) && ClubsKeyedBy(store.clubs, initial);
    ApplyRowsGrows(initial, rows, slugify);
    competitionsCreated, failed := CompetitionRowLoop(store, rows, slugify);
  }

}
