/**
 * The record store the importers and the views share: one map per entity,
 * keyed by the entity's natural key (competitions and clubs by name, players
 * by `player_id`) or by its surrogate id (stories, seasons), and player
 * statistics by their composite key (story, season, player).
 */
module Records {
  import opened Wrappers
  import opened Dates

  /** A cell as pandas reads it: Missing is NaN (an empty cell, or a column the file lacks). */
  datatype Cell = Missing | Text(s: string)

  /** A competition; `minWageBudget` and `logoUrl` are None where the field keeps the model's default. */
  datatype Competition = Competition(
    name: string,
    slug: string,
    country: string,
    tier: int,
    competitionType: string,
    leagueRep: int,
    minWageBudget: Option<real>,
    logoUrl: Option<string>)

  /** A club; `league` is the name of its competition, `internationalCompetition` None where it was never set. */
  datatype Club = Club(
    id: nat,
    name: string,
    slug: string,
    league: string,
    country: string,
    logoSmallUrl: string,
    logoBigUrl: string,
    overall: int,
    attRating: int,
    midRating: int,
    defRating: int,
    domPrestige: int,
    intlPrestige: int,
    leagueRep: int,
    scoutRegion: string,
    youthScoutingRegion: string,
    internationalCompetition: Option<string>)

  /** A player; `club` is its club's name, contract dates are day numbers. */
  datatype Player = Player(
    playerId: int,
    name: string,
    slug: string,
    positions: seq<string>,
    nationality: string,
    birthDate: Date,
    birthYear: int,
    age: int,
    facePicUrl: string,
    club: string,
    wageEur: real,
    wageUsd: real,
    wageGbp: real,
    contractStart: int,
    contractEnd: int,
    contractLoan: bool,
    overall: int,
    potential: int,
    importSource: string)

  /** An authenticated user; two users are the same user when their ids agree. */
  datatype User = User(id: nat, username: string)

  datatype Story = Story(
    owner: User,
    club: string,
    name: string,
    formation: string,
    challenge: string,
    background: string,
    isPublic: bool,
    updatedAt: int)

  datatype Season = Season(story: nat, seasonNumber: int, name: string, isCurrent: bool)

  datatype StatKey = StatKey(story: nat, season: nat, player: int)

  datatype PlayerStats = PlayerStats(
    overallRating: int,
    appearances: int,
    goals: int,
    assists: int,
    cleanSheets: int,
    redCards: int,
    yellowCards: int,
    averageRating: real)

  /** Every competition sits under its own name. */
  ghost predicate CompetitionsKeyedBy(competitions: map<string, Competition>) {
    forall n :: n in competitions ==> competitions[n].name == n
  }

  /** Every club sits under its own name and its league exists. */
  ghost predicate ClubsKeyedBy(clubs: map<string, Club>, competitions: map<string, Competition>) {
    forall n :: n in clubs ==> clubs[n].name == n && clubs[n].league in competitions
  }

  /** `clubIds` is exactly the inverse of the clubs' ids, and every id is below the next one to hand out. */
  ghost predicate ClubIndexOf(clubs: map<string, Club>, clubIds: map<nat, string>, nextClubId: nat) {
    && (forall n :: n in clubs ==> clubs[n].id < nextClubId && clubs[n].id in clubIds && clubIds[clubs[n].id] == n)
    && (forall i :: i in clubIds ==> clubIds[i] in clubs && clubs[clubIds[i]].id == i)
  }

  /** Every player sits under its own `player_id` and its club exists. */
  ghost predicate PlayersKeyedBy(players: map<int, Player>, clubs: map<string, Club>) {
    forall k :: k in players ==> players[k].playerId == k && players[k].club in clubs
  }

  /** Stories point at clubs, seasons at stories, statistics at a season of their own story and at a player; ids stay below the next ones. */
  ghost predicate ReferencesOf(
    stories: map<nat, Story>, seasons: map<nat, Season>, stats: map<StatKey, PlayerStats>,
    players: map<int, Player>, clubs: map<string, Club>, nextStoryId: nat, nextSeasonId: nat)
  {
    && (forall s :: s in stories ==> s < nextStoryId && stories[s].club in clubs)
    && (forall s :: s in seasons ==> s < nextSeasonId && seasons[s].story in stories)
    && (forall k :: k in stats ==>
          k.story in stories && k.season in seasons && seasons[k.season].story == k.story && k.player in players)
  }

  /** At most one season of a story is its current season. */
  ghost predicate OneCurrentSeasonOf(seasons: map<nat, Season>) {
    forall a, b :: a in seasons && b in seasons && a != b && seasons[a].story == seasons[b].story && seasons[a].isCurrent
      ==> !seasons[b].isCurrent
  }

  /** Clubs are only ever added: players and stories that pointed at a club still do. */
  lemma MoreClubsKeepReferences(
    clubs: map<string, Club>, clubs': map<string, Club>, players: map<int, Player>,
    stories: map<nat, Story>, seasons: map<nat, Season>, stats: map<StatKey, PlayerStats>, nextStoryId: nat, nextSeasonId: nat)
    requires clubs.Keys <= clubs'.Keys
    requires PlayersKeyedBy(players, clubs) && ReferencesOf(stories, seasons, stats, players, clubs, nextStoryId, nextSeasonId)
    ensures PlayersKeyedBy(players, clubs') && ReferencesOf(stories, seasons, stats, players, clubs', nextStoryId, nextSeasonId)
  {
  }

  class Store {
    var competitions: map<string, Competition>
    var clubs: map<string, Club>
    /** The clubs by id: the index through which `Club.objects.get(id=...)` finds a club. */
    var clubIds: map<nat, string>
    var players: map<int, Player>
    var stories: map<nat, Story>
    var seasons: map<nat, Season>
    var stats: map<StatKey, PlayerStats>
    var nextClubId: nat
    var nextStoryId: nat
    var nextSeasonId: nat

    ghost predicate CompetitionsKeyed()
      reads this`competitions
    {
      CompetitionsKeyedBy(competitions)
    }

    ghost predicate ClubsKeyed()
      reads this`clubs, this`competitions
    {
      ClubsKeyedBy(clubs, competitions)
    }

    ghost predicate PlayersKeyed()
      reads this`players, this`clubs
    {
      PlayersKeyedBy(players, clubs)
    }

    ghost predicate ClubIndex()
      reads this`clubs, this`clubIds, this`nextClubId
    {
      ClubIndexOf(clubs, clubIds, nextClubId)
    }

    /** Stories point at clubs, seasons at stories, statistics at a season of their own story and at a player. */
    ghost predicate References()
      reads this`stories, this`seasons, this`stats, this`players, this`clubs, this`nextStoryId, this`nextSeasonId
    {
      ReferencesOf(stories, seasons, stats, players, clubs, nextStoryId, nextSeasonId)
    }

    ghost predicate OneCurrentSeason()
      reads this`seasons
    {
      OneCurrentSeasonOf(seasons)
    }

    ghost predicate Valid()
      reads this
    {
      CompetitionsKeyed() && ClubsKeyed() && PlayersKeyed() && ClubIndex() && References() && OneCurrentSeason()
    }

    constructor ()
      ensures Valid()
      ensures competitions == map[] && clubs == map[] && clubIds == map[] && players == map[]
      ensures stories == map[] && seasons == map[] && stats == map[]
    {
      competitions, clubs, clubIds, players := map[], map[], map[], map[];
      stories, seasons, stats := map[], map[], map[];
      nextClubId, nextStoryId, nextSeasonId := 0, 0, 0;
    }
  }
}
