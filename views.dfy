/**
 * The state operations behind the story views, with the HTTP layer taken
 * off: a request is its method, its form fields and the authenticated user;
 * a response is a `Result` whose error names the status the view answers
 * with. `save_story` and `add_player_stats` change the store; the detail,
 * club-player and season-statistics queries and `my_stories` only read it.
 */
module Views {
  import opened Wrappers
  import opened Ordering
  import opened Records

  /** The visibility a new story gets when the view does not set one: private. */
  const DefaultIsPublic: bool := false
  const InitialSeasonNumber: int := 1
  const InitialSeasonName: string := "24/25"

  /**
   * NotFound is a 404, Forbidden a 403, ClubNotFound the "Club not found"
   * answer, SaveFailed "Failed to save story", InvalidRequest "Invalid
   * request", and SeasonNotFound / PlayerNotFound the lookups that raise
   * `DoesNotExist` in `add_player_stats`.
   */
  datatype ViewError = NotFound | Forbidden | ClubNotFound | SaveFailed | InvalidRequest | SeasonNotFound | PlayerNotFound

  /** A form field is truthy: submitted and not empty. */
  predicate Present(field: Option<string>) {
    field.Some? && field.value != ""
  }

  // ----------------------------------------------------------------- authorisation

  /** Owner or public: who may read a story and its season statistics. */
  predicate CanView(story: Story, user: User) {
    story.owner.id == user.id || story.isPublic
  }

  // --------------------------------------------------------------- save_story

  /** The POST fields of `save_story`; `clubId` is None when `club_id` is absent or empty. */
  datatype StoryForm = StoryForm(
    club: Option<string>,
    clubId: Option<nat>,
    formation: Option<string>,
    challenge: Option<string>,
    background: Option<string>)

  /** The club `save_story` uses: the one with id `club_id` if there is one, else the one named `club`. */
  function ResolveClub(clubs: map<string, Club>, clubIds: map<nat, string>, form: StoryForm): (r: Option<string>)
    ensures r.Some? ==> r.value in clubs
    ensures form.clubId.Some? && form.clubId.value in clubIds && clubIds[form.clubId.value] in clubs ==>
              r == Some(clubIds[form.clubId.value])
    ensures r.Some? && (form.clubId.None? || form.clubId.value !in clubIds) ==> Some(r.value) == form.club
    ensures (&& !(form.clubId.Some? && form.clubId.value in clubIds && clubIds[form.clubId.value] in clubs)
             && Present(form.club) && form.club.value in clubs) ==> r == form.club
    ensures r.None? <==>
              !(form.clubId.Some? && form.clubId.value in clubIds && clubIds[form.clubId.value] in clubs)
              && !(Present(form.club) && form.club.value in clubs)
  {
    var byId := if form.clubId.Some? && form.clubId.value in clubIds && clubIds[form.clubId.value] in clubs
                then Some(clubIds[form.clubId.value]) else None;
    if byId.None? && Present(form.club) && form.club.value in clubs then form.club else byId
  }

  /** The story name `save_story` gives. */
  function StoryName(username: string, club: string): string {
    username + "'s " + club + " Career"
  }

  /** What `save_story` answers: the club of the story to create, or the error. */
  function SaveStoryOutcome(clubs: map<string, Club>, clubIds: map<nat, string>, isPost: bool, form: StoryForm): (r: Result<string, ViewError>)
    ensures r.Ok? <==>
              isPost && ResolveClub(clubs, clubIds, form).Some?
              && Present(form.formation) && Present(form.challenge) && Present(form.background)
    ensures r == Err(ClubNotFound) <==> isPost && ResolveClub(clubs, clubIds, form).None?
    ensures r.Err? ==> r.error == ClubNotFound || r.error == SaveFailed
    ensures r.Ok? ==> Some(r.value) == ResolveClub(clubs, clubIds, form) && r.value in clubs
  {
    if !isPost then Err(SaveFailed)
    else match ResolveClub(clubs, clubIds, form)
      case None => Err(ClubNotFound)
      case Some(club) =>
        if Present(form.formation) && Present(form.challenge) && Present(form.background) then Ok(club)
        else Err(SaveFailed)
  }

  /** A club reachable by its id wins over one named in the form. */
  lemma ClubIdBeatsName(clubs: map<string, Club>, clubIds: map<nat, string>, form: StoryForm, id: nat)
    requires form.clubId == Some(id) && id in clubIds && clubIds[id] in clubs
    requires Present(form.club) && form.club.value in clubs && form.club.value != clubIds[id]
    ensures ResolveClub(clubs, clubIds, form) == Some(clubIds[id]) != form.club
  {
  }

  /** The story `save_story` creates. */
  function NewStory(user: User, club: string, form: StoryForm, now: int): Story
    requires Present(form.formation) && Present(form.challenge) && Present(form.background)
  {
    Story(user, club, StoryName(user.username, club), form.formation.value, form.challenge.value, form.background.value, DefaultIsPublic, now)
  }

  /**
   * Adding a story under the next story id and its first, current season
   * under the next season id keeps every reference valid and at most one
   * current season per story; that season is the new story's only one.
   */
  lemma NewStoryKeepsInvariants(
    stories: map<nat, Story>, seasons: map<nat, Season>, stats: map<StatKey, PlayerStats>,
    players: map<int, Player>, clubs: map<string, Club>, nextStoryId: nat, nextSeasonId: nat, story: Story)
    requires ReferencesOf(stories, seasons, stats, players, clubs, nextStoryId, nextSeasonId) && OneCurrentSeasonOf(seasons)
    requires story.club in clubs
    ensures nextStoryId !in stories && nextSeasonId !in seasons
    ensures var seasons' := seasons[nextSeasonId := Season(nextStoryId, InitialSeasonNumber, InitialSeasonName, true)];
      && ReferencesOf(stories[nextStoryId := story], seasons', stats, players, clubs, nextStoryId + 1, nextSeasonId + 1)
      && OneCurrentSeasonOf(seasons')
      && forall s :: s in seasons' && seasons'[s].story == nextStoryId ==> s == nextSeasonId
  {
    assert forall s :: s in seasons ==> seasons[s].story != nextStoryId;
  }

  /** The two `objects.create` calls of a successful `save_story`: the story, then its first season. */
  method CreateStory(store: Store, user: User, club: string, form: StoryForm, now: int) returns (storyId: nat)
    requires store.References() && store.OneCurrentSeason()
    requires club in store.clubs
    requires Present(form.formation) && Present(form.challenge) && Present(form.background)
    modifies store`stories, store`seasons, store`nextStoryId, store`nextSeasonId
    ensures store.References() && store.OneCurrentSeason()
    ensures storyId == old(store.nextStoryId) && storyId !in old(store.stories)
    ensures store.stories == old(store.stories)[storyId := NewStory(user, club, form, now)]
    ensures old(store.nextSeasonId) !in old(store.seasons)
    ensures store.seasons == old(store.seasons)[old(store.nextSeasonId) := Season(storyId, InitialSeasonNumber, InitialSeasonName, true)]
    ensures store.nextStoryId == old(store.nextStoryId) + 1 && store.nextSeasonId == old(store.nextSeasonId) + 1
    ensures forall s :: s in store.seasons && store.seasons[s].story == storyId ==> s == old(store.nextSeasonId)
  {
    storyId := store.nextStoryId;
    var story := Story(
      user, club, StoryName(user.username, club),
      form.formation.value, form.challenge.value, form.background.value, DefaultIsPublic, now);
    assert store.References() && store.OneCurrentSeason();
    NewStoryKeepsInvariants(
      store.stories, store.seasons, store.stats, store.players, store.clubs, store.nextStoryId, store.nextSeasonId, story);
    store.stories := store.stories[storyId := story];
    store.nextStoryId := store.nextStoryId + 1;
    var seasonId := store.nextSeasonId;
    store.seasons := store.seasons[seasonId := Season(storyId, InitialSeasonNumber, InitialSeasonName, true)];
    store.nextSeasonId := store.nextSeasonId + 1;
  }

  /**
   * `save_story`: on success a new story for `user` at the resolved club, and
   * its first season "24/25", numbered 1 and current. Every failure changes
   * nothing. `now` is the request time stamped on the story.
   */
  method SaveStory(store: Store, user: User, isPost: bool, form: StoryForm, now: int) returns (r: Result<nat, ViewError>)
    requires store.Valid()
    modifies store`stories, store`seasons, store`nextStoryId, store`nextSeasonId
    ensures store.Valid()
    ensures var outcome := SaveStoryOutcome(store.clubs, store.clubIds, isPost, form);
      && (outcome.Err? ==>
            && r == Err(outcome.error)
            && store.stories == old(store.stories) && store.seasons == old(store.seasons)
            && store.nextStoryId == old(store.nextStoryId) && store.nextSeasonId == old(store.nextSeasonId))
      && (outcome.Ok? ==>
            && r == Ok(old(store.nextStoryId))
            && old(store.nextStoryId) !in old(store.stories)
            && store.stories == old(store.stories)[r.value := NewStory(user, outcome.value, form, now)]
            && old(store.nextSeasonId) !in old(store.seasons)
            && store.seasons == old(store.seasons)[old(store.nextSeasonId) := Season(r.value, InitialSeasonNumber, InitialSeasonName, true)]
            && store.nextStoryId == old(store.nextStoryId) + 1 && store.nextSeasonId == old(store.nextSeasonId) + 1
            && forall s :: s in store.seasons && store.seasons[s].story == r.value ==> s == old(store.nextSeasonId))
  {
    if !isPost {
      return Err(SaveFailed);
    }
    var club: Option<string> := None;
    if form.clubId.Some? {
      if form.clubId.value in store.clubIds && store.clubIds[form.clubId.value] in store.clubs {
        club := Some(store.clubIds[form.clubId.value]);
      }
    }
    if club.None? && Present(form.club) {
      if form.club.value in store.clubs {
        club := form.club;
      }
    }
    assert club == ResolveClub(store.clubs, store.clubIds, form);
    if club.None? {
      return Err(ClubNotFound);
    }
    if Present(form.formation) && Present(form.challenge) && Present(form.background) {
      var storyId := CreateStory(store, user, club.value, form, now);
      return Ok(storyId);
    }
    return Err(SaveFailed);
  }

  // --------------------------------------------------------- add_player_stats

  /** The statistics fields of the form; None where the field was not submitted. */
  datatype StatsForm = StatsForm(
    overallRating: Option<int>,
    appearances: Option<int>,
    goals: Option<int>,
    assists: Option<int>,
    cleanSheets: Option<int>,
    redCards: Option<int>,
    yellowCards: Option<int>,
    averageRating: Option<real>)

  function OrElse<T>(field: Option<T>, default: T): (r: T)
    ensures field.Some? ==> r == field.value
    ensures field.None? ==> r == default
  {
    if field.Some? then field.value else default
  }

  const NoFields: StatsForm := StatsForm(None, None, None, None, None, None, None, None)
  const ZeroStats: PlayerStats := PlayerStats(0, 0, 0, 0, 0, 0, 0, 0.0)

  /** The record `get_or_create` makes: each field as submitted, 0 (0.0 for the average) when absent. */
  function CreatedStats(form: StatsForm): PlayerStats {
    PlayerStats(
      OrElse(form.overallRating, 0), OrElse(form.appearances, 0), OrElse(form.goals, 0), OrElse(form.assists, 0),
      OrElse(form.cleanSheets, 0), OrElse(form.redCards, 0), OrElse(form.yellowCards, 0), OrElse(form.averageRating, 0.0))
  }

  /** The record after the field-by-field update: each field as submitted, else as it was. */
  function UpdatedStats(stats: PlayerStats, form: StatsForm): PlayerStats {
    PlayerStats(
      OrElse(form.overallRating, stats.overallRating), OrElse(form.appearances, stats.appearances),
      OrElse(form.goals, stats.goals), OrElse(form.assists, stats.assists),
      OrElse(form.cleanSheets, stats.cleanSheets), OrElse(form.redCards, stats.redCards),
      OrElse(form.yellowCards, stats.yellowCards), OrElse(form.averageRating, stats.averageRating))
  }

  /** Creating is updating an all-zero record. */
  lemma CreateIsUpdateOfZero(form: StatsForm)
    ensures CreatedStats(form) == UpdatedStats(ZeroStats, form)
  {
  }

  /** A form with no statistics leaves a record as it was, and creates the all-zero record. */
  lemma NoFieldsChangeNothing(stats: PlayerStats)
    ensures UpdatedStats(stats, NoFields) == stats
    ensures CreatedStats(NoFields) == ZeroStats
  {
  }

  /** Submitting the same form twice is submitting it once. */
  lemma UpdateIsIdempotent(stats: PlayerStats, form: StatsForm)
    ensures UpdatedStats(UpdatedStats(stats, form), form) == UpdatedStats(stats, form)
  {
  }

  /** A form that submits every field decides the record whatever was stored before. */
  lemma FullFormOverwrites(stats: PlayerStats, form: StatsForm)
    requires form.overallRating.Some? && form.appearances.Some? && form.goals.Some? && form.assists.Some?
    requires form.cleanSheets.Some? && form.redCards.Some? && form.yellowCards.Some? && form.averageRating.Some?
    ensures UpdatedStats(stats, form) == CreatedStats(form)
  {
  }

  /** The statistics record `add_player_stats` writes, or the error it answers with, in the order the view checks. */
  function StatsTarget(
    stories: map<nat, Story>, seasons: map<nat, Season>, players: map<int, Player>,
    user: User, storyId: nat, isPost: bool, seasonId: Option<nat>, playerId: Option<int>): (r: Result<StatKey, ViewError>)
    ensures r == Err(NotFound) <==> storyId !in stories
    ensures r == Err(Forbidden) <==> storyId in stories && stories[storyId].owner.id != user.id
    ensures r.Ok? <==>
              && storyId in stories && stories[storyId].owner.id == user.id && isPost
              && seasonId.Some? && seasonId.value in seasons && seasons[seasonId.value].story == storyId
              && playerId.Some? && playerId.value in players
    ensures r.Ok? ==> r.value == StatKey(storyId, seasonId.value, playerId.value)
  {
    if storyId !in stories then Err(NotFound)
    else if stories[storyId].owner.id != user.id then Err(Forbidden)
    else if !isPost then Err(InvalidRequest)
    else if seasonId.None? || seasonId.value !in seasons || seasons[seasonId.value].story != storyId then Err(SeasonNotFound)
    else if playerId.None? || playerId.value !in players then Err(PlayerNotFound)
    else Ok(StatKey(storyId, seasonId.value, playerId.value))
  }

  /** Whoever may write a story's statistics may also read them. */
  lemma WriterCanView(stories: map<nat, Story>, seasons: map<nat, Season>, players: map<int, Player>,
                      user: User, storyId: nat, isPost: bool, seasonId: Option<nat>, playerId: Option<int>)
    requires StatsTarget(stories, seasons, players, user, storyId, isPost, seasonId, playerId).Ok?
    ensures CanView(stories[storyId], user)
  {
  }

  /**
   * `add_player_stats`: the one record of (story, season, player) is created
   * from the form or updated field by field; every refusal changes nothing.
   */
  method AddPlayerStats(store: Store, user: User, storyId: nat, isPost: bool, seasonId: Option<nat>, playerId: Option<int>, form: StatsForm)
    returns (r: Result<StatKey, ViewError>)
    requires store.Valid()
    modifies store`stats
    ensures store.Valid()
    ensures r == StatsTarget(store.stories, store.seasons, store.players, user, storyId, isPost, seasonId, playerId)
    ensures r.Err? ==> store.stats == old(store.stats)
    ensures r.Ok? ==>
              store.stats == old(store.stats)[r.value :=
                if r.value in old(store.stats) then UpdatedStats(old(store.stats)[r.value], form) else CreatedStats(form)]
  {
    if storyId !in store.stories {
      return Err(NotFound);
    }
    if store.stories[storyId].owner.id != user.id {
      return Err(Forbidden);
    }
    if !isPost {
      return Err(InvalidRequest);
    }
    if seasonId.None? || seasonId.value !in store.seasons || store.seasons[seasonId.value].story != storyId {
      return Err(SeasonNotFound);
    }
    if playerId.None? || playerId.value !in store.players {
      return Err(PlayerNotFound);
    }
    var key := StatKey(storyId, seasonId.value, playerId.value);
    var stats: PlayerStats;
    if key !in store.stats {
      stats := PlayerStats(
        OrElse(form.overallRating, 0), OrElse(form.appearances, 0), OrElse(form.goals, 0), OrElse(form.assists, 0),
        OrElse(form.cleanSheets, 0), OrElse(form.redCards, 0), OrElse(form.yellowCards, 0), OrElse(form.averageRating, 0.0));
    } else {
      stats := store.stats[key];
      stats := stats.(overallRating := OrElse(form.overallRating, stats.overallRating));
      stats := stats.(appearances := OrElse(form.appearances, stats.appearances));
      stats := stats.(goals := OrElse(form.goals, stats.goals));
      stats := stats.(assists := OrElse(form.assists, stats.assists));
      stats := stats.(cleanSheets := OrElse(form.cleanSheets, stats.cleanSheets));
      stats := stats.(redCards := OrElse(form.redCards, stats.redCards));
      stats := stats.(yellowCards := OrElse(form.yellowCards, stats.yellowCards));
      stats := stats.(averageRating := OrElse(form.averageRating, stats.averageRating));
    }
    store.stats := store.stats[key := stats];
    return Ok(key);
  }

  // ------------------------------------------------------------- story_detail

  function SeasonsOf(seasons: map<nat, Season>, story: nat): (r: set<nat>)
    ensures forall s :: s in r <==> s in seasons && seasons[s].story == story
  {
    set s | s in seasons && seasons[s].story == story
  }

  /** A finite, non-empty set of seasons has one with the highest number. */
  lemma {:induction false} HighestSeasonExists(seasons: map<nat, Season>, own: set<nat>)
    requires own != {} && own <= seasons.Keys
    ensures exists m :: m in own && forall s :: s in own ==> seasons[s].seasonNumber <= seasons[m].seasonNumber
    decreases |own|
  {
    var x :| x in own;
    var rest := own - {x};
    if rest != {} {
      HighestSeasonExists(seasons, rest);
      var m :| m in rest && forall s :: s in rest ==> seasons[s].seasonNumber <= seasons[m].seasonNumber;
      if seasons[x].seasonNumber <= seasons[m].seasonNumber {
        assert m in own && forall s :: s in own ==> seasons[s].seasonNumber <= seasons[m].seasonNumber;
      } else {
        assert x in own && forall s :: s in own ==> seasons[s].seasonNumber <= seasons[x].seasonNumber;
      }
    } else {
      assert own == {x};
    }
  }

  /** The season `story_detail` shows: the story's current season, else its highest-numbered one, else none. */
  ghost function DisplayedSeason(seasons: map<nat, Season>, story: nat): (r: Option<nat>)
    ensures r.None? <==> SeasonsOf(seasons, story) == {}
    ensures r.Some? ==> r.value in seasons && seasons[r.value].story == story
    ensures (exists s :: s in SeasonsOf(seasons, story) && seasons[s].isCurrent) ==> r.Some? && seasons[r.value].isCurrent
    ensures r.Some? && !seasons[r.value].isCurrent ==>
              forall s :: s in SeasonsOf(seasons, story) ==> !seasons[s].isCurrent && seasons[s].seasonNumber <= seasons[r.value].seasonNumber
  {
    var own := SeasonsOf(seasons, story);
    if exists s :: s in own && seasons[s].isCurrent then
      var c :| c in own && seasons[c].isCurrent;
      Some(c)
    else if own == {} then None
    else
      HighestSeasonExists(seasons, own);
      var m :| m in own && forall s :: s in own ==> seasons[s].seasonNumber <= seasons[m].seasonNumber;
      Some(m)
  }

  /** With at most one current season per story, a current season is exactly the one displayed. */
  lemma DisplayedIsTheCurrentSeason(seasons: map<nat, Season>, story: nat, s: nat)
    requires OneCurrentSeasonOf(seasons)
    requires s in seasons && seasons[s].story == story && seasons[s].isCurrent
    ensures DisplayedSeason(seasons, story) == Some(s)
  {
    assert s in SeasonsOf(seasons, story);
  }

  /** The statistics of one season of one story: `PlayerStats.objects.filter(story=..., season=...)`. */
  function StatsOf(stats: map<StatKey, PlayerStats>, story: nat, season: nat): (r: map<StatKey, PlayerStats>)
    ensures forall k :: k in r <==> k in stats && k.story == story && k.season == season
    ensures forall k :: k in r ==> r[k] == stats[k]
  {
    map k | k in stats && k.story == story && k.season == season :: stats[k]
  }

  datatype StoryView = StoryView(story: Story, currentSeason: Option<nat>, seasons: set<nat>, playerStats: map<StatKey, PlayerStats>)

  /** `story_detail`: 404 for an unknown story, 403 unless owner or public, else the story with its displayed season's statistics. */
  ghost function StoryDetail(stories: map<nat, Story>, seasons: map<nat, Season>, stats: map<StatKey, PlayerStats>, user: User, storyId: nat)
    : (r: Result<StoryView, ViewError>)
    ensures r == Err(NotFound) <==> storyId !in stories
    ensures r == Err(Forbidden) <==> storyId in stories && !CanView(stories[storyId], user)
    ensures r.Ok? <==> storyId in stories && CanView(stories[storyId], user)
    ensures r.Ok? ==>
              && r.value.story == stories[storyId]
              && r.value.seasons == SeasonsOf(seasons, storyId)
              && r.value.currentSeason == DisplayedSeason(seasons, storyId)
              && (r.value.currentSeason.None? ==> r.value.playerStats == map[])
              && (r.value.currentSeason.Some? ==> r.value.playerStats == StatsOf(stats, storyId, r.value.currentSeason.value))
  {
    if storyId !in stories then Err(NotFound)
    else if !CanView(stories[storyId], user) then Err(Forbidden)
    else
      var current := DisplayedSeason(seasons, storyId);
      Ok(StoryView(
        stories[storyId], current, SeasonsOf(seasons, storyId),
        if current.Some? then StatsOf(stats, storyId, current.value) else map[]))
  }

  // -------------------------------------------------- api_season_player_stats

  /** `api_season_player_stats`: 404 for an unknown season, 403 unless owner or public, else that season's statistics. */
  function SeasonPlayerStats(stories: map<nat, Story>, seasons: map<nat, Season>, stats: map<StatKey, PlayerStats>, user: User, seasonId: nat)
    : (r: Result<map<StatKey, PlayerStats>, ViewError>)
    requires forall s :: s in seasons ==> seasons[s].story in stories
    ensures r == Err(NotFound) <==> seasonId !in seasons
    ensures r.Ok? <==> seasonId in seasons && CanView(stories[seasons[seasonId].story], user)
    ensures r.Err? ==> r.error == NotFound || r.error == Forbidden
    ensures r.Ok? ==> forall k :: k in r.value <==> k in stats && k.season == seasonId
    ensures r.Ok? ==> forall k :: k in r.value ==> r.value[k] == stats[k]
  {
    if seasonId !in seasons then Err(NotFound)
    else if !CanView(stories[seasons[seasonId].story], user) then Err(Forbidden)
    else Ok(map k | k in stats && k.season == seasonId :: stats[k])
  }

  /**
   * The 403 of both read views: a request is refused exactly when the user
   * is not the story's owner and the story is not public.
   */
  lemma ReadForbiddenExactly(stories: map<nat, Story>, seasons: map<nat, Season>, stats: map<StatKey, PlayerStats>, user: User, storyId: nat, seasonId: nat)
    requires forall s :: s in seasons ==> seasons[s].story in stories
    ensures storyId in stories ==>
              (StoryDetail(stories, seasons, stats, user, storyId) == Err(Forbidden) <==>
                 stories[storyId].owner.id != user.id && !stories[storyId].isPublic)
    ensures seasonId in seasons ==>
              (SeasonPlayerStats(stories, seasons, stats, user, seasonId) == Err(Forbidden) <==>
                 stories[seasons[seasonId].story].owner.id != user.id && !stories[seasons[seasonId].story].isPublic)
  {
  }

  /**
   * The two read views agree: for the season `story_detail` displays, the
   * season-statistics endpoint answers with exactly the statistics it shows.
   */
  lemma DetailAgreesWithSeasonStats(store: Store, user: User, storyId: nat)
    requires store.Valid()
    requires StoryDetail(store.stories, store.seasons, store.stats, user, storyId).Ok?
    requires StoryDetail(store.stories, store.seasons, store.stats, user, storyId).value.currentSeason.Some?
    ensures var view := StoryDetail(store.stories, store.seasons, store.stats, user, storyId).value;
            SeasonPlayerStats(store.stories, store.seasons, store.stats, user, view.currentSeason.value) == Ok(view.playerStats)
  {
    var view := StoryDetail(store.stories, store.seasons, store.stats, user, storyId).value;
    var season := view.currentSeason.value;
    assert store.References();
    var fromSeason := SeasonPlayerStats(store.stories, store.seasons, store.stats, user, season).value;
    assert fromSeason == view.playerStats;
  }

  // --------------------------------------------------------- api_club_players

  datatype PlayerSummary = PlayerSummary(playerId: int, name: string, overall: int, positions: seq<string>)

  function Summary(p: Player): PlayerSummary {
    PlayerSummary(p.playerId, p.name, p.overall, p.positions)
  }

  /** The players of `club`, every one once, in descending order of overall. */
  method RankClub(players: map<int, Player>, club: string) returns (summaries: seq<PlayerSummary>)
    requires forall k :: k in players ==> players[k].playerId == k
    ensures forall i, j :: 0 <= i < j < |summaries| ==> summaries[i].overall >= summaries[j].overall
    ensures forall i :: 0 <= i < |summaries| ==>
              summaries[i].playerId in players && players[summaries[i].playerId].club == club
              && summaries[i] == Summary(players[summaries[i].playerId])
    ensures forall k :: k in players && players[k].club == club ==> Summary(players[k]) in summaries
    ensures |summaries| == |set k | k in players && players[k].club == club|
  {
    var ids := set k | k in players && players[k].club == club;
    var overall := map k | k in ids :: players[k].overall;
    var ranked := SortDesc(RankedItems(overall, ids));
    RankedItemsListed(overall, ids, ranked);
    summaries := seq(|ranked|, i requires 0 <= i < |ranked| => Summary(players[ranked[i].item]));
    forall k | k in players && players[k].club == club ensures Summary(players[k]) in summaries {
      assert k in ids;
      var i :| 0 <= i < |ranked| && ranked[i].item == k;
      assert summaries[i] == Summary(players[k]);
    }
    forall i | 0 <= i < |summaries| ensures summaries[i].playerId == ranked[i].item {
      assert players[ranked[i].item].playerId == ranked[i].item;
    }
  }

  /**
   * `api_club_players`: 404 for an unknown club id, else every player of that
   * club once, in descending order of overall.
   */
  method ClubPlayers(store: Store, clubId: nat) returns (r: Result<seq<PlayerSummary>, ViewError>)
    requires store.Valid()
    ensures r.Err? <==> clubId !in store.clubIds
    ensures r.Err? ==> r.error == NotFound
    ensures r.Ok? ==>
              var club := store.clubIds[clubId];
              && (forall i, j :: 0 <= i < j < |r.value| ==> r.value[i].overall >= r.value[j].overall)
              && (forall i :: 0 <= i < |r.value| ==>
                    r.value[i].playerId in store.players && store.players[r.value[i].playerId].club == club
                    && r.value[i] == Summary(store.players[r.value[i].playerId]))
              && (forall k :: k in store.players && store.players[k].club == club ==> Summary(store.players[k]) in r.value)
              && |r.value| == |set k | k in store.players && store.players[k].club == club|
  {
    if clubId !in store.clubIds {
      return Err(NotFound);
    }
    assert store.PlayersKeyed();
    var summaries := RankClub(store.players, store.clubIds[clubId]);
    return Ok(summaries);
  }

  // -------------------------------------------------------------- my_stories

  /** One entry of the `my_stories` page. */
  datatype StorySummary = StorySummary(story: nat, currentSeason: Option<nat>, totalSeasons: nat, clubLogo: Option<string>)

  /** What the page shows for story `id`: a current season if it has one, its number of seasons, and its club's small logo. */
  ghost predicate IsSummaryOf(stories: map<nat, Story>, seasons: map<nat, Season>, clubs: map<string, Club>, id: nat, entry: StorySummary) {
    && id in stories && entry.story == id
    && entry.totalSeasons == |SeasonsOf(seasons, id)|
    && (entry.currentSeason.None? <==> forall s :: s in SeasonsOf(seasons, id) ==> !seasons[s].isCurrent)
    && (entry.currentSeason.Some? ==> entry.currentSeason.value in SeasonsOf(seasons, id) && seasons[entry.currentSeason.value].isCurrent)
    && entry.clubLogo == (if stories[id].club in clubs then Some(clubs[stories[id].club].logoSmallUrl) else None)
  }

  /** Where a story has a current season, the page and the detail view agree on it. */
  lemma SummaryAgreesWithDetail(store: Store, id: nat, entry: StorySummary)
    requires store.Valid()
    requires IsSummaryOf(store.stories, store.seasons, store.clubs, id, entry) && entry.currentSeason.Some?
    ensures entry.currentSeason == DisplayedSeason(store.seasons, id)
  {
    assert store.OneCurrentSeason();
    DisplayedIsTheCurrentSeason(store.seasons, id, entry.currentSeason.value);
  }

  /** The entry of `my_stories` for one story of the store. */
  method SummarizeStory(store: Store, id: nat) returns (entry: StorySummary)
    requires id in store.stories
    ensures IsSummaryOf(store.stories, store.seasons, store.clubs, id, entry)
  {
    var story := store.stories[id];
    var current := set s | s in store.seasons && store.seasons[s].story == id && store.seasons[s].isCurrent;
    var currentSeason: Option<nat> := None;
    if |current| > 0 {
      var c :| c in current;
      currentSeason := Some(c);
    }
    var totalSeasons := |set s | s in store.seasons && store.seasons[s].story == id|;
    var clubLogo: Option<string> := if story.club in store.clubs then Some(store.clubs[story.club].logoSmallUrl) else None;
    entry := StorySummary(id, currentSeason, totalSeasons, clubLogo);
    assert SeasonsOf(store.seasons, id) == set s | s in store.seasons && store.seasons[s].story == id;
    assert |current| == 0 ==> forall s :: s in SeasonsOf(store.seasons, id) ==> !store.seasons[s].isCurrent by {
      forall s | s in SeasonsOf(store.seasons, id) && store.seasons[s].isCurrent ensures s in current { }
    }
  }

  /**
   * `my_stories`: the user's stories, most recently updated first, each with
   * its summary, and the number of entries.
   */
  method MyStories(store: Store, user: User) returns (entries: seq<StorySummary>, totalStories: nat)
    ensures totalStories == |entries|
    ensures forall i :: 0 <= i < |entries| ==>
              && IsSummaryOf(store.stories, store.seasons, store.clubs, entries[i].story, entries[i])
              && entries[i].story in store.stories && store.stories[entries[i].story].owner.id == user.id
    ensures forall i, j :: 0 <= i < j < |entries| ==>
              entries[i].story in store.stories && entries[j].story in store.stories
              && store.stories[entries[i].story].updatedAt >= store.stories[entries[j].story].updatedAt
    ensures forall s :: s in store.stories && store.stories[s].owner.id == user.id ==>
              exists i :: 0 <= i < |entries| && entries[i].story == s
    ensures |entries| == |set s | s in store.stories && store.stories[s].owner.id == user.id|
  {
    var mine := set s | s in store.stories && store.stories[s].owner.id == user.id;
    var updatedAt := map s | s in mine :: store.stories[s].updatedAt;
    var ordered := SortDesc(RankedItems(updatedAt, mine));
    RankedItemsListed(updatedAt, mine, ordered);
    entries := [];
    var i := 0;
    while i < |ordered|
      invariant 0 <= i <= |ordered|
      invariant |entries| == i
      invariant forall k :: 0 <= k < i ==> entries[k].story == ordered[k].item
      invariant forall k :: 0 <= k < i ==> IsSummaryOf(store.stories, store.seasons, store.clubs, entries[k].story, entries[k])
    {
      var entry := SummarizeStory(store, ordered[i].item);
      entries := entries + [entry];
      i := i + 1;
    }
    totalStories := |entries|;
    forall s | s in store.stories && store.stories[s].owner.id == user.id ensures exists k :: 0 <= k < |entries| && entries[k].story == s {
      assert s in mine;
      var k :| 0 <= k < |ordered| && ordered[k].item == s;
      assert entries[k].story == s;
    }
  }

}
