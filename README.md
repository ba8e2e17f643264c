# Movie dialogue API — a Dafny model

The system is a small web API over a corpus of film scripts: movies,
their characters, the conversations between two characters, and the lines
spoken in each conversation. Four endpoint modules read and extend that
corpus:

- `conversations.py`: `GET /conversations/{id}` lists a conversation's
  lines; `POST /movies/{movie_id}/conversations/` validates a new
  conversation between two characters of a movie, allocates the next
  conversation id and consecutive line ids, stores the rows and bumps the
  per-character line counter.
- `characters.py`: `GET /characters/{id}` returns a character with the
  characters it talks to, ranked by lines spoken together;
  `GET /characters/` filters characters by name, joins movie title and
  line count, sorts and paginates.
- `lines.py`: `GET /lines/{id}` returns a line with its speaker and the
  other participant; `GET /lines/` filters lines by text and speaker name,
  sorts and paginates (the module also carries a copy of
  `get_conversation`).
- `movies.py`: `GET /movies/{id}` returns a movie with its five most
  talkative characters; `GET /movies/` filters by title, sorts and
  paginates.

The store is four Python dicts keyed by id whose iteration order is
insertion order; the model keeps each table as the sequence of its records
(`Store.Corpus`) and a lookup returns the first record with that id
(`Store.Find`). The store object the endpoints share is the class
`Store.Database`, whose fields are the four tables and the per-character
line counter. Each endpoint is a specification function on a snapshot of
the store (`ConversationView`, `Plan`, `CharacterView`, `CharacterListing`,
`LineView`, `LineListing`, `MovieView`, `MovieListing`), with lemmas
stating what its answer means. Every endpoint with a loop is also a method
that runs that loop over the `Database` and is proved to answer what its
function says (`GetConversation`, `GetCharacter`, `ListCharacters`,
`ListLines`, `GetMovie`, `ListMovies`). `AddConversation` is proved to
answer what `Plan` says, to append exactly the planned rows on success,
and to leave the store unchanged on failure. `get_lines` has no loop, so
`LineView` alone models it.

A valid store (`Store.Database.Valid`) satisfies two invariants:

- `Store.WellFormed`: ids are unique, conversation and line ids ascend,
  and every line is filed under a stored conversation.
- `Store.Coherent`: every line is in its conversation's movie and is
  spoken by one of that conversation's two participants, and both
  participants are characters of that movie.

Both invariants are taken as given for the loaded tables, and
`add_conversation` is proved to preserve them. `Coherent` is what makes
`get_movie` list only characters of the queried movie
(`Movies.TopCharactersInMovie`). The endpoint code itself never checks
this: it counts lines by the line's own `movie_id`.

An `HTTPException` is an `Err` of `Outcomes.Failure`: 404 is `NotFound`,
422 is `Unprocessable`. A `KeyError` or `IndexError` that escapes an
endpoint (an answer of 500) is `InternalError`. A loop that appends a
row per record and may raise is `Sequences.Collect` over a per-record
`Step` (skip, keep a row, or raise). `sorted(..., key=...)` is the stable
insertion sort `Sorting.SortBy`; `reverse=True` is the order `Greater`.
Python's string comparison is `Text.StrLess`, which is proved a strict
total order. `s[offset:offset + limit]` is `Sequences.Slice`, including
Python's handling of negative bounds.

Modules: `Outcomes`, `Text` (ASCII `str.upper`, `str.find`, string order),
`Numerals` (`str(int)`, decimal ids), `Sequences`, `Sorting`, `Grouping`
(dicts filled by a loop), `Store`, then one module per endpoint file:
`Conversations`, `Characters`, `Lines`, `Movies`.

Where the code and its docstrings disagree, the model follows the code:

- `lines` with `sort=conversation` is documented as sorting "numerically",
  but the code sorts the stored id strings, so the model compares strings.
- `get_character` answers 404 with the message "movie not found.".
- `add_conversation`'s "different movies" check can never fire
  (`Conversations.DifferentMoviesNeverFires`).
- The same check that compares the two character records rejects equal
  ids, because records with distinct ids differ
  (`Conversations.SameCharacterIffSameId`).

## Model

| member | source | states |
|---|---|---|
| `Text.Upper` | src/api/characters.py:128 | `str.upper` on ASCII: same length, each lower-case ASCII letter replaced by its capital, every other character kept as it is |
| `Text.UpperIdempotent` | src/api/lines.py:119 | upper-casing an upper-cased string changes nothing |
| `Text.ContainsIff` | src/api/characters.py:128 | `find(t) > -1` holds exactly when `t` occurs at some position of `s` |
| `Text.ContainsEmpty` | src/api/movies.py:98 | the empty filter occurs in every string, so the default `name=""` matches everything |
| `Text.StrLessTransitive` | src/api/characters.py:139 | Python's string order is transitive |
| `Text.StrLessTotal` | src/api/characters.py:139 | two different strings are always ordered one way or the other |
| `Numerals.ToDecimalParses` | src/api/conversations.py:103-104 | `int(str(n)) == n` for an allocated id, and the string is all digits |
| `Numerals.IntStrInjective` | src/api/conversations.py:86-87 | `str(a) == str(b)` exactly when `a == b`, so the lookups by `str(character_id)` tell ids apart |
| `Sequences.FilterSpec` | src/api/movies.py:97-107 | a filtering loop keeps exactly the elements that pass the test |
| `Sequences.Dedup` | src/api/characters.py:48-49 | the keys of a dict filled by a loop: each element once, every element present |
| `Sequences.CollectSpec` | src/api/lines.py:118-127 | an appending loop that may raise raises exactly when some record raises; otherwise its rows are those of the kept records, in order |
| `Sequences.CollectHasRow` | src/api/characters.py:127-136 | every kept record's row is in the result |
| `Sequences.CollectRowFrom` | src/api/characters.py:127-136 | every row of the result comes from a kept record |
| `Sequences.SliceBound` | src/api/characters.py:145 | Python's normalisation of a slice bound: negative counts from the end, then clamped to the length |
| `Sequences.SliceWindow` | src/api/characters.py:145 | with non-negative offset and limit the page is the window starting at the offset, at most `limit` long, empty past the end |
| `Sequences.PaginationLaw` | src/api/lines.py:136 | the tail of a page of size a+b is the page of size b at offset+a |
| `Sorting.SortBy` | src/api/characters.py:72 | `sorted` returns a permutation of its input |
| `Sorting.SortBySorted` | src/api/characters.py:139 | `sorted` returns its input ordered by the key |
| `Sorting.SortByStable` | src/api/movies.py:49 | records with equal keys keep their input order |
| `Sorting.SortBySum` | src/api/characters.py:72 | sorting keeps the sum of any per-record value |
| `Sorting.SortByDistinct` | src/api/movies.py:49 | sorting keeps ids distinct |
| `Sorting.GreaterIsStrictOrder` | src/api/characters.py:143 | `reverse=True` on numbers sorts by a strict order (highest first) |
| `Sorting.StrLessIsStrictOrder` | src/api/movies.py:110 | Python's string order is irreflexive and transitive, and of any two different strings one ranks before the other |
| `Grouping.KeysMembers` | src/api/characters.py:40-51 | a key of the dict is exactly the key of some record |
| `Grouping.OrderedGroupsSpec` | src/api/characters.py:40-51 | the dict of lists built by the loop: keys in first-occurrence order, each key's list the records with that key in table order |
| `Grouping.OrderedTallySpec` | src/api/characters.py:117-123 | the counting dict built by the loop: keys in first-occurrence order, each value the number of records with that key |
| `Grouping.GroupSum` | src/api/characters.py:55-62 | summing each group and then all groups gives the sum over every grouped record |
| `Store.FindUnique` | src/api/conversations.py:26 | with distinct ids, `d.get(id)` is the one record with that id |
| `Store.PutAppends` | src/api/conversations.py:123 | assigning a fresh key appends the record |
| `Store.PutReplaces` | src/api/conversations.py:133 | assigning an existing key replaces that record in place |
| `Store.NextIdAboveAll` | src/api/conversations.py:103-104 | `int(list(d)[-1]) + 1` is above every stored id when ids ascend, and one above the largest |
| `Store.FreshId` | src/api/conversations.py:103-104 | an id above every stored id names no stored record |
| `Store.AscendingAppend` | src/api/conversations.py:133 | appending an id above the last keeps the ids ascending |
| `Store.AscendingConcat` | src/api/conversations.py:122-123 | appending ascending ids above the stored ones keeps the table ascending |
| `Store.Bump` | src/api/conversations.py:124 | `counts[k] += 1` raises exactly the entry for `k` by one |
| `Store.BumpAgrees` | src/api/conversations.py:124 | counting one more line's speaker keeps the counter equal to each character's line count |
| `Store.FindExtended` | src/api/conversations.py:133 | appending records does not change what an id already on file finds |
| `Store.Database.Load` | src/database.py:3-25 | the loaded store holds the given tables, which are well formed and coherent, and the counter holds each character's line count |
| `Conversations.ConversationView` | src/api/conversations.py:26-46 | 404 exactly when the conversation id is not stored; a success reports that id |
| `Conversations.ConversationListsItsLines` | src/api/conversations.py:30-40 | a found conversation lists exactly its own lines in table order, each with its id, its text and its speaker's stored name |
| `Conversations.ConversationViewCrash` | src/api/conversations.py:37-44 | an answer of 500 exactly when the conversation exists but one of its lines has an unknown speaker or its movie is not stored |
| `Conversations.GetConversation` | src/api/conversations.py:26-46 | the loop over the line table answers what `ConversationView` says |
| `Conversations.FailedCheck` | src/api/conversations.py:86-107 | the first failing check, in the code's order |
| `Conversations.NewLinesAt` | src/api/conversations.py:105-119 | the j-th new line is built from the j-th requested line |
| `Conversations.RowsLines` | src/api/conversations.py:100-119 | the stored rows' lines, position by position, are the new lines |
| `Conversations.Plan` | src/api/conversations.py:86-119 | the write goes ahead exactly when every check passes, and then with the allocated rows; otherwise the failure of the first failing check |
| `Conversations.WriterNotFound` | src/api/conversations.py:86-90 | 404 exactly when one of the two characters is not stored |
| `Conversations.WriterUnprocessable` | src/api/conversations.py:91-107 | 422 exactly when both characters exist and they are the same, one is not in the movie, there are no lines, or (with both tables non-empty) a line's speaker is neither participant |
| `Conversations.WriterInternalError` | src/api/conversations.py:103-104 | 500 exactly when every request check passes but an id table is empty, so `list(d)[-1]` raises |
| `Conversations.DifferentMoviesNeverFires` | src/api/conversations.py:95-96 | the "different movies" check never fails once both characters are in the requested movie |
| `Conversations.SameCharacterIffSameId` | src/api/conversations.py:91-92 | the two stored records are equal exactly when the two requested ids are |
| `Conversations.RowsAllocation` | src/api/conversations.py:102-131 | the new conversation id is one above the largest stored; the lines take consecutive ids from one above the largest stored, `line_sort` 1..k in request order, the requested speakers and texts, the movie and the new conversation's id |
| `Conversations.RowsFresh` | src/api/conversations.py:103-119 | the new conversation id and line ids name no stored record, and the new line ids differ from each other |
| `Conversations.RowsConsistent` | src/api/conversations.py:86-107 | a write that passes the checks joins two different stored characters of the movie, and every new line is spoken by one of them |
| `Conversations.RowsAscending` | src/api/conversations.py:122-123 | the line table stays ascending after the new lines are appended |
| `Conversations.AddedLinesFiled` | src/api/conversations.py:122-133 | after the write every line belongs to a stored conversation |
| `Conversations.AddedWellFormed` | src/api/conversations.py:121-133 | adding the rows keeps the store's invariants |
| `Conversations.StoredLinesCoherent` | src/api/conversations.py:133 | the stored lines keep their meaning when a conversation is appended |
| `Conversations.NewLinesFiled` | src/api/conversations.py:105-117 | each new line is filed under the new conversation, in its movie, and spoken by one of its two participants |
| `Conversations.NewLinesCoherent` | src/api/conversations.py:122-123 | lines filed under a found conversation, in its movie, spoken by a participant, both characters of that movie, are coherent |
| `Conversations.CoherentAfter` | src/api/conversations.py:122-133 | appending a conversation and lines filed under it, spoken by its participants who are characters of its movie, keeps the corpus coherent |
| `Conversations.NewConversationFound` | src/api/conversations.py:86-103 | the new conversation is found under its id once appended, and both its participants are characters of the requested movie |
| `Conversations.AddedCoherent` | src/api/conversations.py:86-133 | a write that passes the checks keeps the corpus coherent |
| `Conversations.StoredLinesElsewhere` | src/api/conversations.py:103 | no stored line belongs to the new conversation |
| `Conversations.AddedConversationLines` | src/api/conversations.py:122-133 | after the write the lines filed under the new conversation are exactly the new lines |
| `Conversations.AddedReadable` | src/api/conversations.py:122-133 | after the write, reading the new conversation raises on no line |
| `Conversations.AddThenGetStatus` | src/api/conversations.py:141-143 | after a successful write, reading the returned id does not answer 404; it succeeds exactly when the movie is stored and then reports that id |
| `Conversations.AddThenGetLines` | src/api/conversations.py:105-123 | reading the new conversation lists the submitted lines in order, with the new line ids, texts and each participating speaker's name |
| `Conversations.SpeakerCountMatches` | src/api/conversations.py:124 | lines built one per request have, per character, as many lines as requests naming that character |
| `Conversations.CounterDelta` | src/api/conversations.py:122-124 | the counter rises, for each character, by the number of submitted lines that character speaks, and no other entry moves |
| `Conversations.BuildLines` | src/api/conversations.py:100-119 | the loop fails exactly when some line's speaker is neither participant; otherwise it builds the new lines |
| `Conversations.StoreRows` | src/api/conversations.py:121-133 | the new store is the old one with the lines and the conversation appended, and the counter still holds each character's line count, each entry raised by the new lines that character speaks |
| `Conversations.CheckRequest` | src/api/conversations.py:86-104 | the request checks answer the failure of the first failing check, or else the two stored characters, with both id tables non-empty |
| `Conversations.PlannedMismatch` | src/api/conversations.py:105-107 | a speaker mismatch found by the loop makes the write answer 422 |
| `Conversations.PlannedRows` | src/api/conversations.py:100-133 | when the loop succeeds every check passes and its lines are the planned rows |
| `Conversations.StoreConversation` | src/api/conversations.py:121-133 | the writes of a request that passed every check append exactly the planned rows, raise each character's counter by its new lines, and keep the store valid |
| `Conversations.AddConversation` | src/api/conversations.py:86-143 | the endpoint answers what `Plan` says; on success the store holds exactly the planned rows appended and returns the new id; on failure nothing changes; the store stays valid |
| `Characters.Gender` | src/api/characters.py:34-36 | the gender is absent exactly when the stored one is empty, and otherwise the stored one |
| `Characters.CharacterView` | src/api/characters.py:30-80 | 404 exactly when the character id is not stored; a success reports that id |
| `Characters.PartnerRowsSpec` | src/api/characters.py:55-71 | one row per partner in first-conversation order, with its id, stored name, gender and lines together |
| `Characters.PartnerRowIds` | src/api/characters.py:55-71 | the rows' ids are the partners, in order |
| `Characters.CharacterFields` | src/api/characters.py:74-80 | a success reports the stored name, gender and movie title |
| `Characters.PartnersIff` | src/api/characters.py:40-51 | someone is a partner exactly when some conversation pairs them with the character |
| `Characters.PartnerRowsCrash` | src/api/characters.py:55-67 | collecting the partner rows raises exactly when some partner is not a stored character |
| `Characters.CharacterViewCrash` | src/api/characters.py:55-77 | for a stored character, 500 exactly when a partner is not stored or the character's movie is not stored |
| `Characters.PartnerListed` | src/api/characters.py:40-71 | everyone the character shares a conversation with is listed |
| `Characters.PartnerFromConversation` | src/api/characters.py:40-71 | everyone listed shares a conversation with the character |
| `Characters.PartnerNotSelf` | src/api/characters.py:40-46 | the character is not its own partner when no conversation pairs it with itself |
| `Characters.PartnersDistinct` | src/api/characters.py:48-51 | no partner is listed twice |
| `Characters.LinesTogetherSummed` | src/api/characters.py:60-62 | each partner's lines together is the sum of the line counts of the conversations they share |
| `Characters.LinesTogetherTotal` | src/api/characters.py:53-72 | the lines together add up to the total line count of the character's conversations |
| `Characters.TopConversationsOrdered` | src/api/characters.py:72 | the partners are sorted by lines together, highest first, stably, and are a permutation of the collected rows |
| `Characters.NoConversationsNoPartners` | src/api/characters.py:38-72 | a stored character of a stored movie with no conversations has no partners |
| `Characters.GroupByPartner` | src/api/characters.py:38-51 | the loop builds the partners' dict of conversations |
| `Characters.GroupedByPartner` | src/api/characters.py:38-51 | that dict's keys are the partners and each holds the conversations shared with that partner |
| `Characters.CountLines` | src/api/characters.py:60-62 | the loop adds up the line counts of a partner's conversations |
| `Characters.CollectPartners` | src/api/characters.py:53-71 | the loop over the partners builds the partner rows, or raises as `PartnerRows` says |
| `Characters.GetCharacter` | src/api/characters.py:30-80 | the endpoint answers what `CharacterView` says |
| `Characters.SpeakerTallySpec` | src/api/characters.py:117-123 | a character is a key of the counting dict exactly when it speaks a line, and its value is its line count |
| `Characters.TallySpeakers` | src/api/characters.py:117-123 | the loop builds the counting dict |
| `Characters.SortCharacters` | src/api/characters.py:138-143 | each sort option returns a permutation of the rows |
| `Characters.SortCharactersOrdered` | src/api/characters.py:138-143 | by name or movie title in string order, or by line count highest first; stably |
| `Characters.CharacterListing` | src/api/characters.py:117-145 | the listing fails, with a 500, exactly when building the rows raises |
| `Characters.ListedCharacter` | src/api/characters.py:127-136 | every listed row is a character whose name contains the upper-cased filter, with its movie's title and its line count |
| `Characters.MatchListed` | src/api/characters.py:127-136 | every character whose name contains the upper-cased filter is listed |
| `Characters.CharacterRowsCrash` | src/api/characters.py:127-136 | building the rows raises exactly when a matching character's movie is not stored or it speaks no line |
| `Characters.EmptyFilterListsAll` | src/api/characters.py:90-136 | with the default empty filter, every character is listed, in table order |
| `Characters.CharacterListingPage` | src/api/characters.py:138-145 | the answer is the sorted rows' window at the offset, at most `limit` long |
| `Characters.DefaultCharacterListing` | src/api/characters.py:88-145 | the call with every default, when it does not raise, answers the first 50 rows in name order, out of one row per stored character |
| `Characters.ListCharacters` | src/api/characters.py:117-145 | the endpoint answers what `CharacterListing` says |
| `Lines.Recipient` | src/api/lines.py:29-32 | the recipient is a participant: the second one when the speaker is the first, otherwise the first |
| `Lines.RecipientIsOther` | src/api/lines.py:29-32 | when the speaker is one of two distinct participants, the recipient is the other one |
| `Lines.LineView` | src/api/lines.py:25-41 | 404 exactly when the line id is not stored; a success reports that id |
| `Lines.LineFields` | src/api/lines.py:34-41 | a success reports the line's conversation, its movie's title, its speaker's and recipient's names and its text |
| `Lines.LineViewCrash` | src/api/lines.py:29-39 | for a stored line, 500 exactly when its conversation, its movie, its speaker or its recipient is not stored |
| `Lines.SortLines` | src/api/lines.py:129-134 | each sort option returns a permutation of the rows |
| `Lines.SortLinesOrdered` | src/api/lines.py:129-134 | the rows are ordered by the option's key in string order, stably |
| `Lines.LineListing` | src/api/lines.py:116-136 | the listing fails, with a 500, exactly when building the rows raises |
| `Lines.ListedLine` | src/api/lines.py:118-127 | every listed row is a line whose upper-cased text contains the upper-cased text filter and whose speaker's name contains the upper-cased name filter, with its movie's title |
| `Lines.MatchListed` | src/api/lines.py:118-127 | every line that passes both filters is listed |
| `Lines.LineRowsCrash` | src/api/lines.py:118-127 | building the rows raises exactly when a line that passes the text filter has an unknown speaker, or a line that passes both has an unknown movie |
| `Lines.EmptyFiltersSkipNone` | src/api/lines.py:119 | with both filters empty, no line is skipped |
| `Lines.EmptyFiltersListAll` | src/api/lines.py:116-127 | with both filters empty, every line is listed, in table order |
| `Lines.LineListingPage` | src/api/lines.py:129-136 | the answer is the sorted rows' window at the offset, at most `limit` long |
| `Lines.DefaultLineListing` | src/api/lines.py:86-136 | the call with every default, when it does not raise, answers the first 50 rows in movie-title order, out of one row per stored line |
| `Lines.ListLines` | src/api/lines.py:116-136 | the endpoint answers what `LineListing` says |
| `Movies.MovieTallySpec` | src/api/movies.py:30-37 | the counting dict's keys are the movie's speakers in first-line order, each with its number of lines in the movie |
| `Movies.TallyMovieLines` | src/api/movies.py:30-37 | the loop builds the counting dict |
| `Movies.CastRowsSpec` | src/api/movies.py:41-48 | one row per speaker of the movie, in first-line order, with its stored name and line count |
| `Movies.CastRowsCrash` | src/api/movies.py:41-48 | building the rows raises exactly when a speaker of the movie is not a stored character |
| `Movies.RankedCast` | src/api/movies.py:49 | the ranking is a permutation of the rows |
| `Movies.RankedCastSpec` | src/api/movies.py:41-49 | the ranking is sorted by line count, highest first, stable, without repeats, and each entry is a stored character with at least one line in the movie |
| `Movies.SpeakerRanked` | src/api/movies.py:32-49 | everyone who speaks in the movie is ranked |
| `Movies.MovieView` | src/api/movies.py:26-55 | 404 exactly when the movie id is not stored; a success reports that id and at most five characters |
| `Movies.TopCharacters` | src/api/movies.py:49-50 | the answer is the first five ranked characters, and no omitted character has more lines than a listed one |
| `Movies.SpeakerInCast` | src/api/movies.py:32-37 | in a coherent corpus, whoever speaks in a movie is a stored character of that movie |
| `Movies.RankedInMovie` | src/api/movies.py:41-49 | in a coherent corpus, every ranked character is a stored character of the queried movie |
| `Movies.TopCharactersInMovie` | src/api/movies.py:26-55 | in a coherent corpus, every character `get_movie` lists belongs to the queried movie |
| `Movies.GetMovie` | src/api/movies.py:26-55 | the endpoint answers what `MovieView` says |
| `Movies.MovieRowsSpec` | src/api/movies.py:95-107 | the rows are, in order, those of the movies whose upper-cased title contains the upper-cased filter |
| `Movies.MovieListedIff` | src/api/movies.py:97-98 | a movie is listed exactly when its title matches the filter |
| `Movies.MovieRowFrom` | src/api/movies.py:97-107 | every row is that of a matching movie |
| `Movies.EmptyFilterListsAllMovies` | src/api/movies.py:67-107 | with the default empty filter every movie is listed, in table order |
| `Movies.SortMovies` | src/api/movies.py:109-114 | each sort option returns a permutation of the rows |
| `Movies.SortMoviesOrdered` | src/api/movies.py:109-114 | by title or year in string order, or by rating highest first; stably |
| `Movies.MovieListingPage` | src/api/movies.py:109-116 | the answer is the sorted rows' window at the offset, at most `limit` long |
| `Movies.DefaultMovieListing` | src/api/movies.py:65-116 | the call with every default answers the first 50 movies in title order, out of a sorting of every stored movie, each present |
| `Movies.ListMovies` | src/api/movies.py:95-116 | the endpoint answers what `MovieListing` says |

## Left out

- File uploads (`db.upload`) and the post-time log row are I/O and are not modelled (src/api/conversations.py:121, 132, 135-139); the clock is not modelled.
- Reading and parsing the CSV files (src/database.py) is not modelled: `Store.Database.Load` takes the parsed tables as a `Corpus`, assumed `WellFormed` (distinct ids, ascending numeric conversation and line ids, every line filed under a stored conversation) and `Coherent` (each line in its conversation's movie, spoken by a participant, and both participants characters of that movie).
- The web framework (routing, query parameter parsing, pydantic request validation, JSON encoding) is not modelled; a request arrives already parsed, and `HTTPException` messages are not kept, only their status.
- Concurrent writes (the race described at src/api/conversations.py:76-84) are not modelled: each method runs alone on the store.
- `int(...)` in responses is output formatting: ids are kept as the stored strings. `Movies.MovieRowOf` keeps `imdb_rating` and `imdb_votes` as integers read from the store, so `float(...)`/`int(...)` parsing and the rating's fraction are not modelled.
- `str.upper` is modelled on ASCII letters only (`Text.Upper`); Unicode case mapping is not modelled.
- `db.line_counts` is not defined by src/database.py. `Store.Database.lineCounts` models it as a counter keyed by character id, with a missing key counting 0, kept equal to each character's line count from load (conversations.py:124 uses it this way). A `KeyError` on a first line of a new speaker is therefore not modelled.
- `Characters.LinesTogether`: characters.py:62 reads `db.line_counts` by conversation id; the model counts the conversation's lines directly (`Store.ConversationLineCount`), so a `KeyError` there is not modelled.
- `Lines.SortKey`: the `conversation` sort re-reads the line as `db.lines[str(x['line_id'])]`; the model uses the row's own conversation id, which is the same line for canonical decimal ids. An id with leading zeros, for which the re-read raises, is not modelled.
- The tests under test/ are not modelled.
