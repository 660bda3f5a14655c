/**
 * The `import_clubs` management command. With `--create-competitions`, a
 * pre-pass over the distinct (League ID, League, Country, League Rep) tuples
 * creates every league the store lacks, typed 'LEAGUE'. Then each row, in
 * file order, is skipped with a warning when its league is unknown, counted
 * as skipped when its club already exists, and otherwise becomes a new club
 * in that league, with scouting regions that fall back to the country and an
 * international competition only when the column holds a value.
 */
module ImportClubs {
  import opened Wrappers
  import opened Records

  datatype ClubRow = ClubRow(
    leagueId: int,
    league: string,
    country: string,
    leagueRep: int,
    club: string,
    clubLogoSmall: string,
    clubLogoBig: string,
    overall: int,
    att: int,
    mid: int,
    def: int,
    domPrestige: int,
    intlPrestige: int,
    scoutRegion: Cell,
    youthScoutingRegion: Cell,
    intlComp: Cell)

  // ------------------------------------------------------------ pre-pass

  datatype LeagueTuple = LeagueTuple(leagueId: int, league: string, country: string, leagueRep: int)

  function LeagueTuples(rows: seq<ClubRow>): (ts: seq<LeagueTuple>)
    ensures |ts| == |rows|
    ensures forall i :: 0 <= i < |rows| ==> ts[i] == LeagueTuple(rows[i].leagueId, rows[i].league, rows[i].country, rows[i].leagueRep)
  {
    seq(|rows|, i requires 0 <= i < |rows| => LeagueTuple(rows[i].leagueId, rows[i].league, rows[i].country, rows[i].leagueRep))
  }

  /** The index of the first occurrence of `x` in `s`. */
  function FirstIndex<T(==)>(s: seq<T>, x: T): (i: nat)
    requires x in s
    ensures i < |s| && s[i] == x
    ensures forall k :: 0 <= k < i ==> s[k] != x
  {
    if s[0] == x then 0 else 1 + FirstIndex(s[1..], x)
  }

  /** An occurrence with none before it is the first occurrence. */
  lemma FirstIndexAt<T>(s: seq<T>, x: T, j: nat)
    requires j < |s| && s[j] == x
    requires forall k :: 0 <= k < j ==> s[k] != x
    ensures FirstIndex(s, x) == j
  {
  }

  /** Appending leaves the first occurrence of everything already present where it was. */
  lemma FirstIndexExtend<T>(s: seq<T>, last: T)
    ensures forall x :: x in s ==> FirstIndex(s + [last], x) == FirstIndex(s, x)
  {
    forall x | x in s {
      FirstIndexAt(s + [last], x, FirstIndex(s, x));
    }
  }

  /**
   * `drop_duplicates()`: the first occurrence of every tuple, in the order of
   * those first occurrences.
   */
  function Dedup(ts: seq<LeagueTuple>): (d: seq<LeagueTuple>)
    ensures forall t :: t in d <==> t in ts
    ensures forall i, j :: 0 <= i < j < |d| ==> d[i] != d[j]
    ensures forall i, j :: 0 <= i < j < |d| ==> FirstIndex(ts, d[i]) < FirstIndex(ts, d[j])
    decreases |ts|
  {
    if ts == [] then []
    else
      var prefix := ts[..|ts| - 1];
      var last := ts[|ts| - 1];
      assert ts == prefix + [last];
      var d := Dedup(prefix);
      FirstIndexExtend(prefix, last);
      if last in d then d
      else
        FirstIndexAt(ts, last, |prefix|);
        d + [last]
  }

  function LeagueNames(ts: seq<LeagueTuple>): set<string> {
    set t | t in ts :: t.league
  }

  /** The competition the pre-pass creates for a missing league. */
  function NewLeague(t: LeagueTuple, slugify: string -> string): Competition {
    Competition(t.league, slugify(t.league), t.country, t.leagueId, "LEAGUE", t.leagueRep, None, None)
  }

  /** The competitions after the pre-pass over `ts`, in order. */
  function PrePass(comps: map<string, Competition>, ts: seq<LeagueTuple>, slugify: string -> string): map<string, Competition>
    decreases |ts|
  {
    if ts == [] then comps
    else
      var prev := PrePass(comps, ts[..|ts| - 1], slugify);
      var t := ts[|ts| - 1];
      if t.league in prev then prev else prev[t.league := NewLeague(t, slugify)]
  }

  /**
   * The pre-pass adds exactly the league names the store lacked, leaves the
   * existing competitions alone, and types every new one 'LEAGUE'.
   */
  lemma {:induction false} PrePassProps(comps: map<string, Competition>, ts: seq<LeagueTuple>, slugify: string -> string)
    ensures PrePass(comps, ts, slugify).Keys == comps.Keys + LeagueNames(ts)
    ensures forall n :: n in comps ==> PrePass(comps, ts, slugify)[n] == comps[n]
    ensures forall n :: n in PrePass(comps, ts, slugify) && n !in comps ==>
              var c := PrePass(comps, ts, slugify)[n];
              c.name == n && c.competitionType == "LEAGUE" && c.slug == slugify(n)
    decreases |ts|
  {
    if ts != [] {
      var prefix := ts[..|ts| - 1];
      var t := ts[|ts| - 1];
      PrePassProps(comps, prefix, slugify);
      assert ts == prefix + [t];
      assert LeagueNames(ts) == LeagueNames(prefix) + {t.league};
    }
  }

  /** The pre-pass over the distinct tuples of `rows`, summed up: the new names, their count, and name-keying kept. */
  lemma PrePassSummary(comps: map<string, Competition>, rows: seq<ClubRow>, slugify: string -> string)
    ensures var r := PrePass(comps, Dedup(LeagueTuples(rows)), slugify);
      && r.Keys == comps.Keys + LeagueNames(LeagueTuples(rows))
      && |r| - |comps| == |LeagueNames(LeagueTuples(rows)) - comps.Keys|
      && (CompetitionsKeyedBy(comps) ==> CompetitionsKeyedBy(r))
  {
    var ts := Dedup(LeagueTuples(rows));
    PrePassProps(comps, ts, slugify);
    assert LeagueNames(ts) == LeagueNames(LeagueTuples(rows));
    var r := PrePass(comps, ts, slugify);
    AddedNamesCounted(comps.Keys, LeagueNames(LeagueTuples(rows)), r.Keys);
  }

  /**
   * A league the store lacks is created from the first tuple that names it:
   * later tuples with the same league name find it present and are skipped.
   */
  lemma {:induction false} PrePassFirstWins(comps: map<string, Competition>, d: seq<LeagueTuple>, slugify: string -> string, i: nat)
    requires i < |d| && d[i].league !in comps
    requires forall k :: 0 <= k < i ==> d[k].league != d[i].league
    ensures d[i].league in PrePass(comps, d, slugify)
    ensures PrePass(comps, d, slugify)[d[i].league] == NewLeague(d[i], slugify)
    decreases |d|
  {
    var prefix := d[..|d| - 1];
    if i == |d| - 1 {
      PrePassProps(comps, prefix, slugify);
      forall t | t in prefix ensures t.league != d[i].league {
        var k :| 0 <= k < |prefix| && prefix[k] == t;
      }
    } else {
      assert prefix[i] == d[i];
      PrePassFirstWins(comps, prefix, slugify, i);
    }
  }

  /**
   * After the pre-pass over the distinct tuples of `rows`, a league the store
   * lacked holds the id, country and reputation of the first row naming it.
   */
  lemma FirstLeagueTupleWins(comps: map<string, Competition>, rows: seq<ClubRow>, slugify: string -> string, j: nat)
    requires j < |rows| && rows[j].league !in comps
    requires forall k :: 0 <= k < j ==> rows[k].league != rows[j].league
    ensures rows[j].league in PrePass(comps, Dedup(LeagueTuples(rows)), slugify)
    ensures PrePass(comps, Dedup(LeagueTuples(rows)), slugify)[rows[j].league] == NewLeague(LeagueTuples(rows)[j], slugify)
  {
    var ts := LeagueTuples(rows);
    var d := Dedup(ts);
    var t := ts[j];
    FirstIndexAt(ts, t, j);
    assert t in d;
    var i :| 0 <= i < |d| && d[i] == t;
    forall k | 0 <= k < i ensures d[k].league != t.league {
      var m := FirstIndex(ts, d[k]);
      assert m < j;
      assert ts[m].league == rows[m].league;
    }
    PrePassFirstWins(comps, d, slugify, i);
  }

  lemma AddedNamesCounted(before: set<string>, names: set<string>, now: set<string>)
    requires now == before + names
    ensures |now| - |before| == |names - before|
  {
    var added := names - before;
    assert now == before + added;
    assert before * added == {};
  }

  /** One more tuple: the pre-pass extends by that tuple's league when it is new. */
  lemma PrePassStep(comps: map<string, Competition>, ts: seq<LeagueTuple>, slugify: string -> string, i: nat)
    requires i < |ts|
    ensures var prev := PrePass(comps, ts[..i], slugify);
            PrePass(comps, ts[..i + 1], slugify) == if ts[i].league in prev then prev else prev[ts[i].league := NewLeague(ts[i], slugify)]
  {
    assert ts[..i + 1][..i] == ts[..i];
  }

  // ------------------------------------------------------------ club rows

  /** The state the row loop threads: the clubs, their id index, the next id, and the two counters. */
  datatype ClubState = ClubState(clubs: map<string, Club>, clubIds: map<nat, string>, nextId: nat, created: nat, skipped: nat)

  /** A column's value when present, else the club's country. */
  function RegionOr(cell: Cell, country: string): (r: string)
    ensures cell.Text? ==> r == cell.s
    ensures cell.Missing? ==> r == country
  {
    match cell
    case Text(s) => s
    case Missing => country
  }

  /** The club a row describes, with the id its save receives. */
  function MakeClub(row: ClubRow, id: nat, slugify: string -> string): (c: Club)
    ensures c.id == id && c.name == row.club && c.league == row.league && c.slug == slugify(row.club)
    ensures c.scoutRegion == (if row.scoutRegion.Text? then row.scoutRegion.s else row.country)
    ensures c.youthScoutingRegion == (if row.youthScoutingRegion.Text? then row.youthScoutingRegion.s else row.country)
    ensures c.internationalCompetition.Some? <==> row.intlComp.Text?
    ensures row.intlComp.Text? ==> c.internationalCompetition == Some(row.intlComp.s)
  {
    Club(
      id, row.club, slugify(row.club), row.league, row.country, row.clubLogoSmall, row.clubLogoBig,
      row.overall, row.att, row.mid, row.def, row.domPrestige, row.intlPrestige, row.leagueRep,
      RegionOr(row.scoutRegion, row.country), RegionOr(row.youthScoutingRegion, row.country),
      if row.intlComp.Text? then Some(row.intlComp.s) else None)
  }

  /** One row: unknown league changes nothing, an existing club bumps `clubs_skipped`, otherwise one save and `clubs_created` + 1. */
  function ClubStep(comps: map<string, Competition>, st: ClubState, row: ClubRow, slugify: string -> string): (r: ClubState)
    ensures row.league !in comps ==> r == st
    ensures row.league in comps && row.club in st.clubs ==> r == st.(skipped := st.skipped + 1)
    ensures row.league in comps && row.club !in st.clubs ==>
              && r.clubs == st.clubs[row.club := MakeClub(row, st.nextId, slugify)]
              && r.created == st.created + 1 && r.skipped == st.skipped
  {
    if row.league !in comps then st
    else if row.club in st.clubs then st.(skipped := st.skipped + 1)
    else
      st.(clubs := st.clubs[row.club := MakeClub(row, st.nextId, slugify)],
          clubIds := st.clubIds[st.nextId := row.club],
          nextId := st.nextId + 1,
          created := st.created + 1)
  }

  function ClubRows(comps: map<string, Competition>, st: ClubState, rows: seq<ClubRow>, slugify: string -> string): ClubState
    decreases |rows|
  {
    if rows == [] then st else ClubStep(comps, ClubRows(comps, st, rows[..|rows| - 1], slugify), rows[|rows| - 1], slugify)
  }

  /** The number of rows whose league the store does not hold. */
  function MissingLeagueCount(comps: map<string, Competition>, rows: seq<ClubRow>): nat
    decreases |rows|
  {
    if rows == [] then 0
    else MissingLeagueCount(comps, rows[..|rows| - 1]) + (if rows[|rows| - 1].league !in comps then 1 else 0)
  }

  /** One step keeps the id index exact and every club in a known league. */
  lemma ClubStepKeepsInvariants(comps: map<string, Competition>, st: ClubState, row: ClubRow, slugify: string -> string)
    requires ClubIndexOf(st.clubs, st.clubIds, st.nextId) && ClubsKeyedBy(st.clubs, comps)
    ensures ClubIndexOf(ClubStep(comps, st, row, slugify).clubs, ClubStep(comps, st, row, slugify).clubIds, ClubStep(comps, st, row, slugify).nextId)
    ensures ClubsKeyedBy(ClubStep(comps, st, row, slugify).clubs, comps)
  {
    if row.league in comps && row.club !in st.clubs {
      assert forall i :: i in st.clubIds ==> i < st.nextId;
    }
  }

  /**
   * Over all rows: every row is created, skipped or has a missing league;
   * existing clubs are untouched; every creation adds one name.
   */
  lemma {:induction false} ClubRowsCounts(comps: map<string, Competition>, st: ClubState, rows: seq<ClubRow>, slugify: string -> string)
    ensures var r := ClubRows(comps, st, rows, slugify);
      && r.created + r.skipped + MissingLeagueCount(comps, rows) == st.created + st.skipped + |rows|
      && r.created >= st.created
      && |r.clubs| == |st.clubs| + (r.created - st.created)
      && (forall n :: n in st.clubs ==> n in r.clubs && r.clubs[n] == st.clubs[n])
    decreases |rows|
  {
    if rows != [] {
      ClubRowsCounts(comps, st, rows[..|rows| - 1], slugify);
    }
  }

  /** Over all rows: the id index stays exact, every club stays in a known league, and every new club carries its slug. */
  lemma {:induction false} ClubRowsInvariants(comps: map<string, Competition>, st: ClubState, rows: seq<ClubRow>, slugify: string -> string)
    requires ClubIndexOf(st.clubs, st.clubIds, st.nextId) && ClubsKeyedBy(st.clubs, comps)
    ensures var r := ClubRows(comps, st, rows, slugify);
      && ClubIndexOf(r.clubs, r.clubIds, r.nextId)
      && ClubsKeyedBy(r.clubs, comps)
      && (forall n :: n in r.clubs && n !in st.clubs ==> r.clubs[n].slug == slugify(n))
    decreases |rows|
  {
    if rows != [] {
      var prefix := rows[..|rows| - 1];
      ClubRowsInvariants(comps, st, prefix, slugify);
      ClubStepKeepsInvariants(comps, ClubRows(comps, st, prefix, slugify), rows[|rows| - 1], slugify);
    }
  }

  /** A club name is in the store after the loop exactly when it was before or some row with a known league carries it. */
  lemma {:induction false} ClubRowsKeys(comps: map<string, Competition>, st: ClubState, rows: seq<ClubRow>, slugify: string -> string, n: string)
    ensures n in ClubRows(comps, st, rows, slugify).clubs <==>
              n in st.clubs || exists j :: 0 <= j < |rows| && rows[j].club == n && rows[j].league in comps
    decreases |rows|
  {
    if rows != [] {
      var prefix := rows[..|rows| - 1];
      ClubRowsKeys(comps, st, prefix, slugify, n);
      if exists j :: 0 <= j < |prefix| && prefix[j].club == n && prefix[j].league in comps {
        var j :| 0 <= j < |prefix| && prefix[j].club == n && prefix[j].league in comps;
        assert rows[j] == prefix[j];
      }
      if exists j :: 0 <= j < |rows| && rows[j].club == n && rows[j].league in comps {
        var j :| 0 <= j < |rows| && rows[j].club == n && rows[j].league in comps;
        if j < |prefix| { assert prefix[j] == rows[j]; }
      }
    }
  }

  /** A new club is built from the first row that names it with a known league; later rows with that name are skipped. */
  lemma {:induction false} FirstClubRowWins(comps: map<string, Competition>, st: ClubState, rows: seq<ClubRow>, slugify: string -> string, i: nat)
    requires i < |rows| && rows[i].league in comps && rows[i].club !in st.clubs
    requires forall j :: 0 <= j < i ==> rows[j].club != rows[i].club || rows[j].league !in comps
    ensures rows[i].club in ClubRows(comps, st, rows, slugify).clubs
    ensures var c := ClubRows(comps, st, rows, slugify).clubs[rows[i].club];
            c == MakeClub(rows[i], c.id, slugify) && c.league == rows[i].league
    decreases |rows|
  {
    var prefix := rows[..|rows| - 1];
    var n := rows[i].club;
    if i == |rows| - 1 {
      forall j | 0 <= j < |prefix| ensures !(prefix[j].club == n && prefix[j].league in comps) {
        assert prefix[j] == rows[j];
      }
      ClubRowsKeys(comps, st, prefix, slugify, n);
    } else {
      assert prefix[i] == rows[i];
      forall j | 0 <= j < i ensures prefix[j].club != prefix[i].club || prefix[j].league !in comps {
        assert prefix[j] == rows[j];
      }
      FirstClubRowWins(comps, st, prefix, slugify, i);
    }
  }

  // -------------------------------------------------------------- methods

  /** The pre-pass loop over distinct league tuples: each league not yet stored is created once. */
  method LeagueLoop(store: Store, leagues: seq<LeagueTuple>, slugify: string -> string) returns (competitionsCreated: nat)
    modifies store`competitions
    ensures store.competitions == PrePass(old(store.competitions), leagues, slugify)
    ensures competitionsCreated == |store.competitions| - |old(store.competitions)|
  {
    ghost var initial := store.competitions;
    competitionsCreated := 0;
    var i := 0;
    while i < |leagues|
      invariant 0 <= i <= |leagues|
      invariant store.competitions == PrePass(initial, leagues[..i], slugify)
      invariant competitionsCreated == |store.competitions| - |initial|
      invariant initial.Keys <= store.competitions.Keys
    {
      var row := leagues[i];
      PrePassStep(initial, leagues, slugify, i);
      if row.league !in store.competitions {
        var comp := NewLeague(row, slugify);
        store.competitions := store.competitions[comp.name := comp];
        competitionsCreated := competitionsCreated + 1;
      }
      i := i + 1;
    }
    assert leagues[..i] == leagues;
  }

  /** The `--create-competitions` pre-pass; returns `competitions_created`. */
  method CreateMissingCompetitions(store: Store, rows: seq<ClubRow>, slugify: string -> string)
    returns (competitionsCreated: nat)
    requires store.Valid()
    modifies store`competitions
    ensures store.Valid()
    ensures store.competitions == PrePass(old(store.competitions), Dedup(LeagueTuples(rows)), slugify)
    ensures store.competitions.Keys == old(store.competitions).Keys + LeagueNames(LeagueTuples(rows))
    ensures competitionsCreated == |LeagueNames(LeagueTuples(rows)) - old(store.competitions).Keys|
  {
    assert CompetitionsKeyedBy(store.competitions) && ClubsKeyedBy(store.clubs, store.competitions);
    PrePassSummary(store.competitions, rows, slugify);
    var uniqueLeagues := Dedup(LeagueTuples(rows));
    competitionsCreated := LeagueLoop(store, uniqueLeagues, slugify);
  }

  /** One row of the main loop, with the counters so far. */
  method ImportClubRow(store: Store, row: ClubRow, slugify: string -> string, created: nat, skipped: nat)
    returns (created': nat, skipped': nat)
    modifies store`clubs, store`clubIds, store`nextClubId
    ensures ClubState(store.clubs, store.clubIds, store.nextClubId, created', skipped')
         == ClubStep(store.competitions, ClubState(old(store.clubs), old(store.clubIds), old(store.nextClubId), created, skipped), row, slugify)
  {
    created', skipped' := created, skipped;
    if row.league !in store.competitions {
      // warning: competition not found, club skipped without counting
    } else if row.club in store.clubs {
      skipped' := skipped + 1;
    } else {
      var scoutRegion := RegionOr(row.scoutRegion, row.country);
      var youthRegion := RegionOr(row.youthScoutingRegion, row.country);
      var club := Club(
        0, row.club, "", row.league, row.country, row.clubLogoSmall, row.clubLogoBig,
        row.overall, row.att, row.mid, row.def, row.domPrestige, row.intlPrestige, row.leagueRep,
        scoutRegion, youthRegion, None);
      if row.intlComp.Text? {
        club := club.(internationalCompetition := Some(row.intlComp.s));
      }
      club := club.(slug := slugify(club.name));
      club := club.(id := store.nextClubId);
      assert club == MakeClub(row, store.nextClubId, slugify);
      store.clubs := store.clubs[club.name := club];
      store.clubIds := store.clubIds[club.id := club.name];
      store.nextClubId := store.nextClubId + 1;
      created' := created + 1;
    }
  }

  /** The rows in file order: the clubs, their index and the counters follow the fold. */
  method ClubRowLoop(store: Store, rows: seq<ClubRow>, slugify: string -> string)
    returns (clubsCreated: nat, clubsSkipped: nat)
    modifies store`clubs, store`clubIds, store`nextClubId
    ensures ClubState(store.clubs, store.clubIds, store.nextClubId, clubsCreated, clubsSkipped)
         == ClubRows(store.competitions, ClubState(old(store.clubs), old(store.clubIds), old(store.nextClubId), 0, 0), rows, slugify)
  {
    ghost var init := ClubState(store.clubs, store.clubIds, store.nextClubId, 0, 0);
    clubsCreated, clubsSkipped := 0, 0;
    var i := 0;
    while i < |rows|
      invariant 0 <= i <= |rows|
      invariant ClubState(store.clubs, store.clubIds, store.nextClubId, clubsCreated, clubsSkipped)
             == ClubRows(store.competitions, init, rows[..i], slugify)
    {
      assert rows[..i + 1][..i] == rows[..i];
      clubsCreated, clubsSkipped := ImportClubRow(store, rows[i], slugify, clubsCreated, clubsSkipped);
      i := i + 1;
    }
    assert rows[..i] == rows;
  }

  /** The main row loop; returns `clubs_created` and `clubs_skipped`. */
  method ImportClubRows(store: Store, rows: seq<ClubRow>, slugify: string -> string)
    returns (clubsCreated: nat, clubsSkipped: nat)
    requires store.Valid()
    modifies store`clubs, store`clubIds, store`nextClubId
    ensures store.Valid()
    ensures ClubState(store.clubs, store.clubIds, store.nextClubId, clubsCreated, clubsSkipped)
         == ClubRows(store.competitions, ClubState(old(store.clubs), old(store.clubIds), old(store.nextClubId), 0, 0), rows, slugify)
    ensures clubsCreated + clubsSkipped + MissingLeagueCount(store.competitions, rows) == |rows|
    ensures forall n :: n in old(store.clubs) ==> n in store.clubs && store.clubs[n] == old(store.clubs)[n]
  {
    ghost var init := ClubState(store.clubs, store.clubIds, store.nextClubId, 0, 0);
    ghost var result := ClubRows(store.competitions, init, rows, slugify);
    assert ClubIndexOf(init.clubs, init.clubIds, init.nextId) && ClubsKeyedBy(init.clubs, store.competitions);
    assert PlayersKeyedBy(store.players, init.clubs);
    assert ReferencesOf(store.stories, store.seasons, store.stats, store.players, init.clubs, store.nextStoryId, store.nextSeasonId);
    ClubRowsCounts(store.competitions, init, rows, slugify);
    ClubRowsInvariants(store.competitions, init, rows, slugify);
    MoreClubsKeepReferences(init.clubs, result.clubs, store.players, store.stories, store.seasons, store.stats, store.nextStoryId, store.nextSeasonId);
    clubsCreated, clubsSkipped := ClubRowLoop(store, rows, slugify);
  }

  /**
   * The whole command: the optional pre-pass, then the row loop against
   * the competitions it leaves.
   */
  method ImportClubs(store: Store, rows: seq<ClubRow>, createCompetitions: bool, slugify: string -> string)
    returns (clubsCreated: nat, clubsSkipped: nat, competitionsCreated: nat)
    requires store.Valid()
    modifies store`competitions, store`clubs, store`clubIds, store`nextClubId
    ensures store.Valid()
    ensures store.competitions ==
              if createCompetitions then PrePass(old(store.competitions), Dedup(LeagueTuples(rows)), slugify)
              else old(store.competitions)
    ensures competitionsCreated ==
              if createCompetitions then |LeagueNames(LeagueTuples(rows)) - old(store.competitions).Keys| else 0
    ensures ClubState(store.clubs, store.clubIds, store.nextClubId, clubsCreated, clubsSkipped)
         == ClubRows(store.competitions, ClubState(old(store.clubs), old(store.clubIds), old(store.nextClubId), 0, 0), rows, slugify)
    ensures clubsCreated + clubsSkipped + MissingLeagueCount(store.competitions, rows) == |rows|
  {
    competitionsCreated := 0;
    if createCompetitions {
      competitionsCreated := CreateMissingCompetitions(store, rows, slugify);
    }
    clubsCreated, clubsSkipped := ImportClubRows(store, rows, slugify);
  }
}
