# CMStoryTracker core, modelled in Dafny

CMStoryTracker is a Django site for "career mode" stories: a user picks a
football club, writes a story around it, and records player statistics
season by season. This project models the two pieces of the site that carry
logic of their own, and proves properties of the model.

- **The three CSV import commands.**
  - `import_competitions` builds competitions from rows. It upper-cases the type, coerces the minimum wage budget to a number and isolates errors per row.
  - `import_clubs` has an optional `--create-competitions` pre-pass. It skips a club whose league is unknown and counts an already-known club as skipped. Scouting regions fall back to the country.
  - `import_players` skips players of unknown clubs. It builds the position list and tries two birth-date formats. It coerces wages to positive values, defaulting to 100, and upserts by `player_id`.
- **The story views, with HTTP removed.**
  - `save_story` resolves the club by id, then by name, and creates a story and its first season.
  - `add_player_stats` checks ownership, then gets or creates the statistics record and updates it field by field.
  - `story_detail` and `api_season_player_stats` check owner-or-public access. `story_detail` also picks the displayed season.
  - `api_club_players` returns a club's players by descending overall.
  - `my_stories` lists the user's stories, most recently updated first.

The database is a `Records.Store` object with one map per table:
- competitions and clubs by name
- a club id index
- players by `player_id`
- stories and seasons by id
- statistics by (story, season, player)

`Store.Valid()` collects the integrity rules that the schema and the views maintain. Each record is filed under its own key. Every foreign key resolves. Ids stay below the next id to hand out. A story has at most one current season.

Every command and every state-changing view is a method with `modifies` on the fields it writes. Each is proved against a pure function of the old state:
- `ApplyRows`, `ClubRows` and `PrePass` for the imports
- `Upsert` over `Outcomes` for the players
- `SaveStoryOutcome` and `StatsTarget` for the two views

The lemmas about those functions state what the source promises.

Files:
- `wrappers.dfy`: Option and Result.
- `text.dfy`: splitting, digit strings, `int()`, `float()` and `str.upper()`.
- `dates.dfy`: the two `strptime` formats.
- `ordering.dfy`: descending order by a rank, and insertion sort.
- `records.dfy`: the entities and the store.
- One file per command: `import_competitions.dfy`, `import_clubs.dfy` and `import_players.dfy`.
- `views.dfy`: the views.

The clock and `slugify` are parameters:
- `today` is the contract start, as a day number.
- `now` is a story's update time.
- `slugify` is the function the importers and views apply.

The CSV reader is replaced by a sequence of row records. In pandas rows, the columns that may be empty are `Cell = Missing | Text(...)`, where Missing stands for NaN. For competitions these are the type and the minimum wage budget. For clubs they are the two scouting regions and the international competition. Every other column is a plain value. `csv.DictReader` rows hold strings.

## Model

| member | source | states |
|---|---|---|
| ImportCompetitions.MinWageBudget | storytracker/management/commands/import_competitions.py:24-25 | a numeric cell gives its value; a missing or non-numeric cell gives 0 |
| ImportCompetitions.MinWageOfWholeNumber | storytracker/management/commands/import_competitions.py:24-25 | a cell spelling a whole number n in decimal gives exactly n |
| ImportCompetitions.RowOutcome | storytracker/management/commands/import_competitions.py:27-41 | a row fails exactly when its type is missing (`NaN.upper()` raises) or its name is already stored (unique name); otherwise the competition carries the row's name, the upper-cased type, `slugify(name)` and the coerced budget |
| ImportCompetitions.ApplyRowsGrows | storytracker/management/commands/import_competitions.py:21-51 | stored competitions are never overwritten; saved plus failed rows equal existing plus all rows; every competition stays filed under its name |
| ImportCompetitions.FailedRowsInOrder | storytracker/management/commands/import_competitions.py:21-51 | the reported errors name rows of the input, in strictly increasing file order |
| ImportCompetitions.ApplyRowsKeys | storytracker/management/commands/import_competitions.py:21-51 | after the import a name is stored exactly when it was before or some row with a present type carries it |
| ImportCompetitions.FirstRowWins | storytracker/management/commands/import_competitions.py:21-51 | for a new name, the first row carrying it with a present type is the stored competition |
| ImportCompetitions.ApplyRowsStep | storytracker/management/commands/import_competitions.py:21-51 | one more row extends the store and the error list by exactly that row's outcome |
| ImportCompetitions.ImportCompetitions | storytracker/management/commands/import_competitions.py:12-55 | the command leaves the store valid, stores exactly `ApplyRows` of the old store, reports exactly `FailedRows`, and `competitions_created` plus errors equals the rows and equals the growth of the store |
| ImportCompetitions.CompetitionRowLoop | storytracker/management/commands/import_competitions.py:21-51 | the row loop follows the fold row by row, building the competition, setting its slug and saving it |
| Text.UpperIdempotent | storytracker/management/commands/import_competitions.py:29 | upper-casing is idempotent and leaves no lower-case ASCII letter |
| Text.ParseIntRoundTrip | storytracker/management/commands/import_players.py:82 | every integer written in decimal converts back to itself under `int()` |
| Text.ParseDecimalExtendsParseInt | storytracker/management/commands/import_players.py:63 | a cell `int()` accepts converts under `float()` to the same number |
| ImportClubs.Dedup | storytracker/management/commands/import_clubs.py:27 | `drop_duplicates()` keeps every tuple, leaves no duplicate, and lists the tuples in the order of their first occurrence in the file |
| ImportClubs.PrePassFirstWins | storytracker/management/commands/import_clubs.py:28-40 | a missing league is created from the first tuple that names it; later tuples with that name find it stored |
| ImportClubs.FirstLeagueTupleWins | storytracker/management/commands/import_clubs.py:26-40 | after the pre-pass, a league the store lacked holds the League ID, country and League Rep of the first row of the file naming it |
| ImportClubs.PrePassProps | storytracker/management/commands/import_clubs.py:26-44 | the pre-pass adds exactly the league names the store lacked, leaves existing competitions alone, and gives each new one its name, type 'LEAGUE' and `slugify(name)` |
| ImportClubs.PrePassSummary | storytracker/management/commands/import_clubs.py:26-44 | after the pre-pass the names are the old ones plus every league of the file; the number created is the number of league names not stored before; name keying is kept |
| ImportClubs.PrePassStep | storytracker/management/commands/import_clubs.py:30-41 | one more tuple creates its league exactly when that name is not yet stored |
| ImportClubs.CreateMissingCompetitions | storytracker/management/commands/import_clubs.py:26-48 | the store stays valid and becomes the pre-pass of the distinct tuples; `competitions_created` is the number of new league names |
| ImportClubs.LeagueLoop | storytracker/management/commands/import_clubs.py:28-41 | the pre-pass loop follows the fold and counts exactly the competitions it adds |
| ImportClubs.RegionOr | storytracker/management/commands/import_clubs.py:71-72 | a scouting region is the column's value when present, else the country |
| ImportClubs.MakeClub | storytracker/management/commands/import_clubs.py:71-97 | a new club carries the row's name, the league found by name and `slugify(name)`; each scouting region is the column when present, else the country; the international competition is set exactly when its column holds a value |
| ImportClubs.ClubStep | storytracker/management/commands/import_clubs.py:54-101 | an unknown league changes nothing and neither counter; an existing club bumps `clubs_skipped` and is untouched; otherwise the club is built from the row and `clubs_created` goes up by one |
| ImportClubs.ClubStepKeepsInvariants | storytracker/management/commands/import_clubs.py:75-101 | a created club keeps the id index exact and every club in a known league |
| ImportClubs.ClubRowsCounts | storytracker/management/commands/import_clubs.py:51-101 | every row is created, skipped or has an unknown league; existing clubs are untouched; each creation adds exactly one club |
| ImportClubs.ClubRowsInvariants | storytracker/management/commands/import_clubs.py:75-101 | over all rows the id index stays exact, every club's league exists, and every new club's slug is `slugify(name)` |
| ImportClubs.ClubRowsKeys | storytracker/management/commands/import_clubs.py:51-101 | after the loop a club name is stored exactly when it was before or some row with a known league names it |
| ImportClubs.FirstClubRowWins | storytracker/management/commands/import_clubs.py:62-101 | a new club is built from the first row naming it with a known league, and its league is that row's league |
| ImportClubs.ImportClubRow | storytracker/management/commands/import_clubs.py:52-101 | one row changes the clubs, the index, the next id and the counters exactly as `ClubStep` says; the international competition is set only when the column holds a value |
| ImportClubs.ClubRowLoop | storytracker/management/commands/import_clubs.py:51-110 | the row loop follows `ClubRows` row by row |
| ImportClubs.ImportClubRows | storytracker/management/commands/import_clubs.py:51-110 | the main loop keeps the store valid, ends in `ClubRows` of the old clubs, its counters plus the unknown-league rows equal the rows, and existing clubs are unchanged |
| ImportClubs.ImportClubs | storytracker/management/commands/import_clubs.py:13-118 | the optional pre-pass and then the main loop against the competitions it left, with the three counters |
| ImportPlayers.PositionsAreNonBlankColumns | storytracker/management/commands/import_players.py:34-40 | positions are Primary, Secondary, Tertiary in that order with blanks left out: at most three, none empty |
| ImportPlayers.CoerceWage | storytracker/management/commands/import_players.py:62-78 | a wage is always positive: 100 when the cell is not a number or is 0, else its absolute value |
| ImportPlayers.CoerceWageOfWhole | storytracker/management/commands/import_players.py:62-66 | a non-zero whole-number wage is stored as its magnitude |
| ImportPlayers.CoerceWageIgnoresSign | storytracker/management/commands/import_players.py:62-66 | a negated wage cell coerces to the same wage |
| Dates.ParseWith | storytracker/management/commands/import_players.py:44-48 | a parsed date exists in the calendar; the two-digit format pivots into 1969..2068 |
| Dates.ParseBirthDate | storytracker/management/commands/import_players.py:43-52 | the `%m/%d/%y` result when that parses, else the `%m/%d/%Y` result |
| Dates.ShortRoundTrip | storytracker/management/commands/import_players.py:44 | a date in the pivot window written m/d/yy reads back as itself |
| Dates.LongRoundTrip | storytracker/management/commands/import_players.py:44-48 | a date written m/d/yyyy fails the first format and reads back by the second |
| ImportPlayers.RowOutcomeSpec | storytracker/management/commands/import_players.py:25-104 | a row errs exactly when its club is missing, its birth date fails both formats, or an `int()` fails; on success the player has the row's id and club, `birth_year` is the parsed year, `potential == overall`, contract end = start + 365 days, not on loan, each wage coerced from its own cell (hence positive), the row's name, nationality and picture, the non-blank positions, the slug of "name-id" and source "FC25_CSV_IMPORT" |
| ImportPlayers.UpsertIsOverlay | storytracker/management/commands/import_players.py:81-104 | the import overlays the written players on the old store |
| ImportPlayers.ImportTwiceIsImportOnce | storytracker/management/commands/import_players.py:81-104 | importing the same file a second time on the same day changes nothing more |
| ImportPlayers.RowOutcomeOtherDay | storytracker/management/commands/import_players.py:57-59 | the day of the run decides only `contract_start` and `contract_end`; whether a row fails and every other field do not depend on it |
| ImportPlayers.ImportAgainLater | storytracker/management/commands/import_players.py:57-104 | a second run of the same file on any later day gives the players one run on that day gives (each written player rewritten, contract dates of the later day) and creates no duplicate records |
| ImportPlayers.UpsertKeys | storytracker/management/commands/import_players.py:81-104 | after the import an id is stored exactly when it was before or some successful row writes it |
| ImportPlayers.LastImportWins | storytracker/management/commands/import_players.py:81-104 | the last successful row with an id decides all fields of that player |
| ImportPlayers.UntouchedPlayersKept | storytracker/management/commands/import_players.py:81-104 | players no row writes keep their record |
| ImportPlayers.UpsertKeyed | storytracker/management/commands/import_players.py:81-104 | players stay filed under their own id at an existing club; no stored id is dropped |
| ImportPlayers.UpsertStep | storytracker/management/commands/import_players.py:81-108 | one more row extends the players and the success count by that row's outcome |
| ImportPlayers.SuccessCount | storytracker/management/commands/import_players.py:108 | successes never exceed the rows |
| ImportPlayers.ImportRow | storytracker/management/commands/import_players.py:23-108 | one row writes the player `update_or_create` builds, exactly when the row's outcome is a player; a missing club or a bad date writes nothing |
| ImportPlayers.PlayerRowLoop | storytracker/management/commands/import_players.py:22-114 | the loop follows the upsert fold; each row bumps exactly one counter |
| ImportPlayers.ImportPlayers | storytracker/management/commands/import_players.py:13-114 | the command keeps the store valid, writes exactly the upsert of the outcomes, counts the successful rows, and `success_count + error_count` equals the rows |
| Views.ResolveClub | storytracker/views.py:132-142 | a club reachable by `club_id` is the one used; otherwise the club named `club` when one exists; no club exactly when neither resolves |
| Views.ClubIdBeatsName | storytracker/views.py:133-142 | when both resolve to different clubs, the id wins |
| Views.SaveStoryOutcome | storytracker/views.py:125-174 | success exactly for a POST whose club resolves and whose formation, challenge and background are present; "Club not found" exactly when the club does not resolve; every other failure is "Failed to save story" |
| Views.NewStoryKeepsInvariants | storytracker/views.py:148-165 | adding the story and its first current season keeps every reference valid and one current season per story; that season is the story's only one |
| Views.CreateStory | storytracker/views.py:150-165 | exactly one new story for the user at the club, named "<username>'s <club> Career", and exactly one season "24/25", number 1, current |
| Views.SaveStory | storytracker/views.py:114-174 | the store stays valid; on failure nothing changes and the error is the one `SaveStoryOutcome` gives; on success the new story and its first season are exactly as created |
| Views.CreateIsUpdateOfZero | storytracker/views.py:260-285 | creating a record is updating the all-zero record |
| Views.NoFieldsChangeNothing | storytracker/views.py:260-285 | a form without statistics leaves a record as it was and creates the all-zero record |
| Views.UpdateIsIdempotent | storytracker/views.py:276-286 | submitting the same form twice is submitting it once |
| Views.FullFormOverwrites | storytracker/views.py:276-286 | a form with every field decides the record whatever was stored |
| Views.StatsTarget | storytracker/views.py:245-291 | 404 exactly for an unknown story, 403 exactly for a non-owner, success exactly for an owner's POST naming a season of that story and an existing player, and then the record key (story, season, player) |
| Views.WriterCanView | storytracker/views.py:248-249 | whoever may write a story's statistics may read them |
| Views.AddPlayerStats | storytracker/views.py:240-293 | the store stays valid; every refusal leaves the statistics unchanged; on success exactly one record for the key, created from the form with 0 defaults or updated field by field |
| Views.HighestSeasonExists | storytracker/views.py:226 | a story with seasons has one with the highest `season_number` |
| Views.DisplayedSeason | storytracker/views.py:226 | none exactly when the story has no season; a current season when one exists; otherwise one with the highest number |
| Views.DisplayedIsTheCurrentSeason | storytracker/views.py:226 | with at most one current season per story, the current one is exactly the displayed one |
| Views.StoryDetail | storytracker/views.py:214-238 | 404 exactly for an unknown story, 403 exactly when neither owner nor public, else the story, its seasons, the displayed season and exactly that season's statistics of the story (none without a season) |
| Views.SeasonPlayerStats | storytracker/views.py:310-335 | 404 exactly for an unknown season, 403 when the season's story is neither the user's nor public, else exactly the statistics records of that season, each as stored |
| Views.ReadForbiddenExactly | storytracker/views.py:221-222 | both `story_detail` and, by the same test at lines 316-317, `api_season_player_stats` answer 403 exactly when the user is not the owner and the story is not public |
| Views.DetailAgreesWithSeasonStats | storytracker/views.py:226-229 | for the displayed season, the season-statistics endpoint returns exactly the statistics `story_detail` shows |
| Views.RankClub | storytracker/views.py:299-306 | the club's players, each once and each a summary of a stored player of that club, ordered by overall descending |
| Views.ClubPlayers | storytracker/views.py:295-308 | 404 exactly for an unknown club id, else the `RankClub` answer for that club |
| Ordering.InsertDescSorted | storytracker/views.py:299 | insertion keeps a sequence sorted by descending rank |
| Ordering.SortDesc | storytracker/views.py:188 | `order_by('-field')`: sorted descending and a permutation of the items |
| Ordering.RankedItemsListed | storytracker/views.py:188 | a sorted listing of ranked keys lists every key exactly once, with its rank |
| Views.SummarizeStory | storytracker/views.py:193-205 | one entry: its current season if any, its number of seasons, its club's small logo |
| Views.SummaryAgreesWithDetail | storytracker/views.py:194 | where a story has a current season, `my_stories` and `story_detail` show the same one |
| Views.MyStories | storytracker/views.py:176-212 | the user's stories, each exactly once, most recently updated first, each with its summary; `total_stories` is their number |

## Left out

- Reading files, pandas and `csv.DictReader`, every stdout message, and the file-read failure path. The rows are a sequence of row records.
- A `DictReader` row shorter than the header, whose cells are `None`, is not modelled: player cells are always strings.
- `int()` and `float()` are modelled on plain ASCII decimal text only: an optional sign, digits, and for `float()` one optional point. Surrounding whitespace, underscores, exponents, `inf` and `nan` are not modelled. `Dates.ParseWith` likewise accepts only ASCII digits, where `strptime`'s `\d` also matches other Unicode decimal digits.
- ImportPlayers.CoerceWage: states a wage only for the plain decimal cells described above. `float()` also accepts `nan`, `inf` and whitespace-padded numbers. For `nan` the source stores NaN, which is not positive, so "always positive" does not hold there. For `" 5000"` the source stores 5000, where the model stores the default 100.
- `float()` results are exact rationals (`real`), with no floating-point rounding.
- `str.upper()` is modelled on ASCII letters only.
- `strptime` is modelled on the fields `%m`, `%d`, `%y` and `%Y` separated by '/'. Other directives and locale effects are not modelled.
- `slugify`, the clock and `datetime.now` are parameters; one `today` applies to a whole player import.
- Schema failures other than the ones named are not modelled. `models.py` is not part of this model, so a `save()` that a field constraint would refuse always succeeds. The modelled failures are a missing type and a duplicate competition name in `import_competitions`.
- A story's slug (made by the model's `save`) is not modelled: stories and seasons are addressed by id.
- The Django surrogate primary key of a player is not modelled. `add_player_stats` and `api_club_players` identify a player by `player_id`.
- Non-numeric `club_id`, `season_id` or `player_id` form values, which raise in the ORM, are not modelled. Statistics form fields arrive already converted: `StatsForm` holds numbers, not strings.
- `DefaultIsPublic` assumes that a new story is private by default; `models.py` is not part of this model.
- `Views.DisplayedSeason` assumes `get_current_season()` returns the story's season flagged current. Among seasons sharing the highest number, only "one of them" is stated, as the query fixes no tie order.
- `Ordering.SortDesc` states no order among equal ranks; the database gives none either.
- `my_stories`' club logo is the club's small logo when the story's club exists; the `hasattr` check is always true for a stored club.
- `generate_story`, `index`, the authentication views, `urls.py` and `story_detail.js` are not part of this model; `@login_required` is replaced by the given user.
- Concurrency and transactions: each command and view runs alone against the store.
