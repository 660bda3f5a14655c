/**
 * The `import_players` management command. Each CSV row, in file order, is
 * either written (created or updated, keyed by `player_id`) or counted as an
 * error: when its club is unknown, when its birth date reads in neither
 * format, or when `Player ID`, `Age` or `Overall` is not an integer. Wages
 * fall back to 100 when unreadable or zero, potential is set to overall, and
 * the contract is a one-year placeholder starting on the day of the import.
 */
module ImportPlayers {
  import opened Wrappers
  import opened Text
  import opened Dates
  import opened Records

  /** A `csv.DictReader` row: every cell is the text the file holds. */
  datatype PlayerRow = PlayerRow(
    playerId: string,
    name: string,
    club: string,
    primary: string,
    secondary: string,
    tertiary: string,
    nationality: string,
    birthDate: string,
    age: string,
    facePic: string,
    wageEur: string,
    wageUsd: string,
    wageGbp: string,
    overall: string)

  const ImportSource: string := "FC25_CSV_IMPORT"
  const DefaultWage: real := 100.0
  /** The placeholder contract length, in days. */
  const ContractDays: int := 365

  datatype RowError = ClubMissing | BadBirthDate | BadNumber

  // ------------------------------------------------------------ positions

  /** The non-empty entries of `s`, in order: the reference the position list is checked against. */
  function NonEmpty(s: seq<string>): (r: seq<string>)
    ensures |r| <= |s|
    ensures forall p :: p in r ==> p != "" && p in s
    decreases |s|
  {
    if s == [] then []
    else (if s[0] != "" then [s[0]] else []) + NonEmpty(s[1..])
  }

  /** Primary, secondary and tertiary, each appended when present. */
  function Positions(row: PlayerRow): seq<string> {
    var ps := if row.primary != "" then [row.primary] else [];
    var ps := if row.secondary != "" then ps + [row.secondary] else ps;
    if row.tertiary != "" then ps + [row.tertiary] else ps
  }

  /** The position list is the three columns with the blank ones dropped, order kept; so at most three, none blank. */
  lemma PositionsAreNonBlankColumns(row: PlayerRow)
    ensures Positions(row) == NonEmpty([row.primary, row.secondary, row.tertiary])
    ensures |Positions(row)| <= 3 && forall p :: p in Positions(row) ==> p != ""
  {
    var s := [row.primary, row.secondary, row.tertiary];
    assert s[1..] == [row.secondary, row.tertiary];
    assert s[1..][1..] == [row.tertiary];
    assert s[1..][1..][1..] == [];
    assert NonEmpty(s[1..][1..]) == (if row.tertiary != "" then [row.tertiary] else []);
    assert NonEmpty(s[1..]) == (if row.secondary != "" then [row.secondary] else []) + NonEmpty(s[1..][1..]);
  }

  // ---------------------------------------------------------------- wages

  function Abs(x: real): (r: real)
    ensures r >= 0.0 && (r == x || r == -x)
  {
    if x < 0.0 then -x else x
  }

  /** `float(cell)`; then the absolute value, or 100 when the cell does not convert or holds zero. */
  function CoerceWage(cell: string): (r: real)
    ensures r > 0.0
    ensures ParseDecimal(cell).Some? && ParseDecimal(cell).value != 0.0 ==> r == Abs(ParseDecimal(cell).value)
    ensures ParseDecimal(cell).None? || ParseDecimal(cell).value == 0.0 ==> r == DefaultWage
  {
    match ParseDecimal(cell)
    case None => DefaultWage
    case Some(v) => if v != 0.0 then Abs(v) else DefaultWage
  }

  /** A wage written in whole units is kept as its magnitude; zero becomes the default. */
  lemma CoerceWageOfWhole(n: int)
    ensures n != 0 ==> CoerceWage(IntToString(n)) == Abs(n as real)
    ensures n == 0 ==> CoerceWage(IntToString(n)) == DefaultWage
  {
    ParseIntRoundTrip(n);
    ParseDecimalExtendsParseInt(IntToString(n));
  }

  /** The sign a wage is written with never matters. */
  lemma CoerceWageIgnoresSign(u: string)
    requires |u| > 0 && u[0] != '-' && u[0] != '+'
    ensures CoerceWage("-" + u) == CoerceWage(u)
    ensures CoerceWage("+" + u) == CoerceWage(u)
  {
    assert ("-" + u)[1..] == u;
    assert ("+" + u)[1..] == u;
  }

  // ----------------------------------------------------------------- rows

  /** What one row writes, given the clubs, the day of the import and the slug function. */
  function RowOutcome(clubs: map<string, Club>, row: PlayerRow, today: int, slugify: string -> string): (r: Result<Player, RowError>)
    ensures r.Ok? ==> r.value.club == row.club && row.club in clubs
  {
    if row.club !in clubs then Err(ClubMissing)
    else match ParseBirthDate(row.birthDate)
      case None => Err(BadBirthDate)
      case Some(birth) =>
        var id, age, overall := ParseInt(row.playerId), ParseInt(row.age), ParseInt(row.overall);
        if id.None? || age.None? || overall.None? then Err(BadNumber)
        else
          Ok(Player(
            id.value, row.name, slugify(row.name + "-" + row.playerId), Positions(row), row.nationality,
            birth, birth.year, age.value, row.facePic, row.club,
            CoerceWage(row.wageEur), CoerceWage(row.wageUsd), CoerceWage(row.wageGbp),
            today, today + ContractDays, false, overall.value, overall.value, ImportSource))
  }

  /**
   * A row fails exactly when its club is unknown, its birth date reads in
   * neither format, or one of its integer cells does not convert, and the
   * checks run in that order. A written player carries the row's converted
   * values, potential equal to overall, a one-year contract from `today`
   * that is not a loan, each wage coerced from its own cell, and the non-blank
   * positions in order.
   */
  lemma RowOutcomeSpec(clubs: map<string, Club>, row: PlayerRow, today: int, slugify: string -> string)
    ensures var r := RowOutcome(clubs, row, today, slugify);
      && (r.Err? <==>
            row.club !in clubs || ParseBirthDate(row.birthDate).None?
            || ParseInt(row.playerId).None? || ParseInt(row.age).None? || ParseInt(row.overall).None?)
      && (r == Err(ClubMissing) <==> row.club !in clubs)
      && (r == Err(BadBirthDate) <==> row.club in clubs && ParseBirthDate(row.birthDate).None?)
      && (r.Ok? ==>
            var p := r.value;
            && Some(p.playerId) == ParseInt(row.playerId)
            && Some(p.birthDate) == ParseBirthDate(row.birthDate) && p.birthYear == p.birthDate.year
            && Some(p.age) == ParseInt(row.age) && Some(p.overall) == ParseInt(row.overall)
            && p.potential == p.overall
            && p.contractStart == today && p.contractEnd == today + ContractDays && !p.contractLoan
            && p.wageEur == CoerceWage(row.wageEur) && p.wageUsd == CoerceWage(row.wageUsd) && p.wageGbp == CoerceWage(row.wageGbp)
            && p.wageEur > 0.0 && p.wageUsd > 0.0 && p.wageGbp > 0.0
            && p.name == row.name && p.nationality == row.nationality && p.facePicUrl == row.facePic && p.club == row.club
            && p.positions == NonEmpty([row.primary, row.secondary, row.tertiary])
            && p.slug == slugify(row.name + "-" + row.playerId)
            && p.importSource == ImportSource)
  {
    PositionsAreNonBlankColumns(row);
  }

  /** The outcome of every row, in file order. */
  function Outcomes(clubs: map<string, Club>, rows: seq<PlayerRow>, today: int, slugify: string -> string): (outs: seq<Result<Player, RowError>>)
    ensures |outs| == |rows|
    ensures forall i :: 0 <= i < |rows| ==> outs[i] == RowOutcome(clubs, rows[i], today, slugify)
  {
    seq(|rows|, i requires 0 <= i < |rows| => RowOutcome(clubs, rows[i], today, slugify))
  }

  /** The outcome writes a player under id `k`. */
  predicate WritesId(out: Result<Player, RowError>, k: int) {
    out.Ok? && out.value.playerId == k
  }

  /** The players after `update_or_create` of every written outcome, in order. */
  function Upsert(players: map<int, Player>, outs: seq<Result<Player, RowError>>): map<int, Player>
    decreases |outs|
  {
    if outs == [] then players
    else
      var prev := Upsert(players, outs[..|outs| - 1]);
      match outs[|outs| - 1]
      case Ok(p) => prev[p.playerId := p]
      case Err(_) => prev
  }

  /** The number of written outcomes. */
  function SuccessCount(outs: seq<Result<Player, RowError>>): (n: nat)
    ensures n <= |outs|
    decreases |outs|
  {
    if outs == [] then 0
    else SuccessCount(outs[..|outs| - 1]) + (if outs[|outs| - 1].Ok? then 1 else 0)
  }

  /**
   * Upserting is overlaying: the outcomes do not depend on the players
   * already stored, and they replace them key by key.
   */
  lemma {:induction false} UpsertIsOverlay(players: map<int, Player>, outs: seq<Result<Player, RowError>>)
    ensures Upsert(players, outs) == players + Upsert(map[], outs)
    decreases |outs|
  {
    if outs != [] {
      var prefix := outs[..|outs| - 1];
      UpsertIsOverlay(players, prefix);
      var written := Upsert(map[], prefix);
      match outs[|outs| - 1]
      case Ok(p) =>
        assert (players + written)[p.playerId := p] == players + written[p.playerId := p];
      case Err(_) =>
    }
  }

  /** Running the same file twice on the same day leaves the players as one run does. */
  lemma ImportTwiceIsImportOnce(players: map<int, Player>, clubs: map<string, Club>, rows: seq<PlayerRow>, today: int, slugify: string -> string)
    ensures var outs := Outcomes(clubs, rows, today, slugify);
            Upsert(Upsert(players, outs), outs) == Upsert(players, outs)
  {
    var outs := Outcomes(clubs, rows, today, slugify);
    UpsertIsOverlay(players, outs);
    UpsertIsOverlay(Upsert(players, outs), outs);
    var written := Upsert(map[], outs);
    assert (players + written) + written == players + written;
  }

  /** The day of the run decides only the contract dates: whether a row fails, and every other field, do not depend on it. */
  lemma RowOutcomeOtherDay(clubs: map<string, Club>, row: PlayerRow, t1: int, t2: int, slugify: string -> string)
    ensures var r1 := RowOutcome(clubs, row, t1, slugify); var r2 := RowOutcome(clubs, row, t2, slugify);
            && r1.Ok? == r2.Ok?
            && (r1.Ok? ==> r2.value == r1.value.(contractStart := t2, contractEnd := t2 + ContractDays))
  {
  }

  /**
   * Running the same file again on a later day rewrites each written player
   * wholesale (its contract dates now those of the later day) and creates no
   * record that one run did not: the stored ids are those of one run.
   */
  lemma ImportAgainLater(players: map<int, Player>, clubs: map<string, Club>, rows: seq<PlayerRow>, t1: int, t2: int, slugify: string -> string)
    ensures var first := Upsert(players, Outcomes(clubs, rows, t1, slugify));
            var again := Upsert(first, Outcomes(clubs, rows, t2, slugify));
            && again == Upsert(players, Outcomes(clubs, rows, t2, slugify))
            && again.Keys == first.Keys
  {
    var o1 := Outcomes(clubs, rows, t1, slugify);
    var o2 := Outcomes(clubs, rows, t2, slugify);
    forall j | 0 <= j < |rows| ensures forall k :: WritesId(o1[j], k) <==> WritesId(o2[j], k) {
      RowOutcomeOtherDay(clubs, rows[j], t1, t2, slugify);
    }
    var w1 := Upsert(map[], o1);
    var w2 := Upsert(map[], o2);
    forall k ensures k in w1 <==> k in w2 {
      UpsertKeys(map[], o1, k);
      UpsertKeys(map[], o2, k);
    }
    UpsertIsOverlay(players, o1);
    UpsertIsOverlay(players, o2);
    UpsertIsOverlay(players + w1, o2);
    assert (players + w1) + w2 == players + w2;
  }

  /** An id is stored after the import exactly when it was before or some outcome writes it. */
  lemma {:induction false} UpsertKeys(players: map<int, Player>, outs: seq<Result<Player, RowError>>, k: int)
    ensures k in Upsert(players, outs) <==> k in players || exists j :: 0 <= j < |outs| && WritesId(outs[j], k)
    decreases |outs|
  {
    if outs != [] {
      var prefix := outs[..|outs| - 1];
      UpsertKeys(players, prefix, k);
      if exists j :: 0 <= j < |prefix| && WritesId(prefix[j], k) {
        var j :| 0 <= j < |prefix| && WritesId(prefix[j], k);
        assert outs[j] == prefix[j];
      }
      if exists j :: 0 <= j < |outs| && WritesId(outs[j], k) {
        var j :| 0 <= j < |outs| && WritesId(outs[j], k);
        if j < |prefix| { assert prefix[j] == outs[j]; }
      }
    }
  }

  /** The last outcome writing an id decides the stored record: last import wins. */
  lemma {:induction false} LastImportWins(players: map<int, Player>, outs: seq<Result<Player, RowError>>, i: nat)
    requires i < |outs| && outs[i].Ok?
    requires forall j :: i < j < |outs| ==> !WritesId(outs[j], outs[i].value.playerId)
    ensures outs[i].value.playerId in Upsert(players, outs)
    ensures Upsert(players, outs)[outs[i].value.playerId] == outs[i].value
    decreases |outs|
  {
    if i < |outs| - 1 {
      var prefix := outs[..|outs| - 1];
      assert prefix[i] == outs[i];
      forall j | i < j < |prefix| ensures !WritesId(prefix[j], prefix[i].value.playerId) {
        assert prefix[j] == outs[j];
      }
      LastImportWins(players, prefix, i);
      assert !WritesId(outs[|outs| - 1], outs[i].value.playerId);
    }
  }

  /** Ids no outcome writes keep their stored record. */
  lemma {:induction false} UntouchedPlayersKept(players: map<int, Player>, outs: seq<Result<Player, RowError>>, k: int)
    requires k in players
    requires forall j :: 0 <= j < |outs| ==> !WritesId(outs[j], k)
    ensures k in Upsert(players, outs) && Upsert(players, outs)[k] == players[k]
    decreases |outs|
  {
    if outs != [] {
      var prefix := outs[..|outs| - 1];
      forall j | 0 <= j < |prefix| ensures !WritesId(prefix[j], k) {
        assert prefix[j] == outs[j];
      }
      UntouchedPlayersKept(players, prefix, k);
    }
  }

  /** Every stored player stays under its own id and at an existing club; stored ids are never dropped. */
  lemma {:induction false} UpsertKeyed(players: map<int, Player>, clubs: map<string, Club>, outs: seq<Result<Player, RowError>>)
    requires forall k :: k in players ==> players[k].playerId == k && players[k].club in clubs
    requires forall j :: 0 <= j < |outs| && outs[j].Ok? ==> outs[j].value.club in clubs
    ensures Upsert(players, outs).Keys >= players.Keys
    ensures forall k :: k in Upsert(players, outs) ==> Upsert(players, outs)[k].playerId == k && Upsert(players, outs)[k].club in clubs
    decreases |outs|
  {
    if outs != [] {
      var prefix := outs[..|outs| - 1];
      forall j | 0 <= j < |prefix| && prefix[j].Ok? ensures prefix[j].value.club in clubs {
        assert prefix[j] == outs[j];
      }
      UpsertKeyed(players, clubs, prefix);
    }
  }

  /** One more outcome: the fold and the count extend by it. */
  lemma UpsertStep(players: map<int, Player>, outs: seq<Result<Player, RowError>>, i: nat)
    requires i < |outs|
    ensures Upsert(players, outs[..i + 1]) == (if outs[i].Ok? then Upsert(players, outs[..i])[outs[i].value.playerId := outs[i].value] else Upsert(players, outs[..i]))
    ensures SuccessCount(outs[..i + 1]) == SuccessCount(outs[..i]) + (if outs[i].Ok? then 1 else 0)
  {
    assert outs[..i + 1][..i] == outs[..i];
  }

  // --------------------------------------------------------------- method

  /** One row of the command: a player is created or updated exactly when the row's outcome is a player. */
  method ImportRow(store: Store, row: PlayerRow, today: int, slugify: string -> string) returns (ok: bool)
    modifies store`players
    ensures var outcome := RowOutcome(store.clubs, row, today, slugify);
            && ok == outcome.Ok?
            && store.players == (if ok then old(store.players)[outcome.value.playerId := outcome.value] else old(store.players))
  {
    if row.club !in store.clubs {
      return false;
    }
    var positions := [];
    if row.primary != "" { positions := positions + [row.primary]; }
    if row.secondary != "" { positions := positions + [row.secondary]; }
    if row.tertiary != "" { positions := positions + [row.tertiary]; }
    assert positions == Positions(row);
    var birthDate := ParseWith(row.birthDate, false);
    if birthDate.None? {
      birthDate := ParseWith(row.birthDate, true);
    }
    assert birthDate == ParseBirthDate(row.birthDate);
    if birthDate.None? {
      return false;
    }
    var birthYear := birthDate.value.year;
    var contractStart := today;
    var contractEnd := contractStart + ContractDays;
    var wageEur := CoerceWage(row.wageEur);
    var wageUsd := CoerceWage(row.wageUsd);
    var wageGbp := CoerceWage(row.wageGbp);
    var id, age, overall := ParseInt(row.playerId), ParseInt(row.age), ParseInt(row.overall);
    if id.None? || age.None? || overall.None? {
      return false;
    }
    var player := Player(
      id.value, row.name, slugify(row.name + "-" + row.playerId), positions, row.nationality,
      birthDate.value, birthYear, age.value, row.facePic, row.club, wageEur, wageUsd, wageGbp,
      contractStart, contractEnd, false, overall.value, overall.value, ImportSource);
    assert RowOutcome(store.clubs, row, today, slugify) == Ok(player);
    store.players := store.players[player.playerId := player];
    return true;
  }

  /** The rows in file order: the players follow the fold over the row outcomes. */
  method PlayerRowLoop(store: Store, rows: seq<PlayerRow>, today: int, slugify: string -> string)
    returns (successCount: nat, errorCount: nat)
    modifies store`players
    ensures store.players == Upsert(old(store.players), Outcomes(store.clubs, rows, today, slugify))
    ensures successCount == SuccessCount(Outcomes(store.clubs, rows, today, slugify))
    ensures successCount + errorCount == |rows|
  {
    ghost var initial := store.players;
    ghost var outs := Outcomes(store.clubs, rows, today, slugify);
    successCount, errorCount := 0, 0;
    var i := 0;
    while i < |rows|
      invariant 0 <= i <= |rows|
      invariant store.players == Upsert(initial, outs[..i])
      invariant successCount == SuccessCount(outs[..i])
      invariant successCount + errorCount == i
    {
      UpsertStep(initial, outs, i);
      var ok := ImportRow(store, rows[i], today, slugify);
      if ok {
        successCount := successCount + 1;
      } else {
        errorCount := errorCount + 1;
      }
      i := i + 1;
    }
    assert outs[..i] == outs;
  }

  /**
   * Runs the command over `rows` on day `today`. Returns the success and
   * error counts it reports at the end.
   */
  method ImportPlayers(store: Store, rows: seq<PlayerRow>, today: int, slugify: string -> string)
    returns (successCount: nat, errorCount: nat)
    requires store.Valid()
    modifies store`players
    ensures store.Valid()
    ensures store.players == Upsert(old(store.players), Outcomes(store.clubs, rows, today, slugify))
    ensures successCount == SuccessCount(Outcomes(store.clubs, rows, today, slugify))
    ensures successCount + errorCount == |rows|
  {
    ghost var outs := Outcomes(store.clubs, rows, today, slugify);
    assert PlayersKeyedBy(store.players, store.clubs);
    UpsertKeyed(store.players, store.clubs, outs);
    successCount, errorCount := PlayerRowLoop(store, rows, today, slugify);
  }
}
