/** src/api/conversations.py: reading one conversation, and the writer that
    adds a conversation and its lines to a movie. */
module Conversations {
  import opened Outcomes
  import opened Sequences
  import opened Numerals
  import opened Store

  // ---------------------------------------------------------------------
  // GET /conversations/{conversation_id}

  /** Ids are reported as the stored strings (the `int(...)` of the
      response is left to formatting). */
  datatype LineEntry = LineEntry(lineId: string, character: string, text: string)
  datatype ConversationDetail = ConversationDetail(conversationId: string, movie: string,
                                                   lines: seq<LineEntry>)

  /** One pass of the loop over `db.lines`: a line of another conversation
      is skipped; a line of this one is listed under its speaker's name, and
      the lookup of an unknown speaker raises. */
  function EntryStep(characters: seq<Character>, id: string): Line -> Step<LineEntry> {
    (l: Line) =>
      if l.conversationId != id then Skip
      else match Find(characters, CharacterKey, l.characterId)
        case None => Crash
        case Some(speaker) => Keep(LineEntry(l.id, speaker.name, l.text))
  }

  /** The lines of a conversation, in table order. */
  function ConversationLines(lines: seq<Line>, id: string): seq<Line> {
    Filter(lines, InConversation(id))
  }

  /** What `get_conversation(id)` answers for a snapshot of the store. */
  function ConversationView(c: Corpus, id: string): (r: Result<ConversationDetail>)
    ensures r == Err(NotFound) <==> Find(c.conversations, ConversationKey, id).None?
    ensures r.Ok? ==> r.value.conversationId == id
  {
    match Find(c.conversations, ConversationKey, id)
    case None => Err(NotFound)
    case Some(conversation) =>
      match Collect(c.lines, EntryStep(c.characters, id))
      case None => Err(InternalError)
      case Some(entries) =>
        match Find(c.movies, MovieKey, conversation.movieId)
        case None => Err(InternalError)
        case Some(movie) => Ok(ConversationDetail(id, movie.title, entries))
  }

  /** A found conversation lists exactly its own lines, in table order,
      each with its id and under its speaker's stored name. */
  lemma ConversationListsItsLines(c: Corpus, id: string)
    requires ConversationView(c, id).Ok?
    ensures var entries := ConversationView(c, id).value.lines;
            var own := ConversationLines(c.lines, id);
            && |entries| == |own|
            && forall j :: 0 <= j < |own| ==>
                 && entries[j].lineId == own[j].id
                 && entries[j].text == own[j].text
                 && Find(c.characters, CharacterKey, own[j].characterId).Some?
                 && entries[j].character == Find(c.characters, CharacterKey, own[j].characterId).value.name
  {
    var step := EntryStep(c.characters, id);
    assert Collect(c.lines, step).Some?;
    CollectSpec(c.lines, step);
    FilterCongruent(c.lines, IsKept(step), InConversation(id));
  }

  /** The lookup fails with a server error exactly when the conversation
      exists but one of its lines has an unknown speaker or its movie is
      not stored. */
  lemma ConversationViewCrash(c: Corpus, id: string)
    ensures ConversationView(c, id) == Err(InternalError) <==>
            && Find(c.conversations, ConversationKey, id).Some?
            && ((exists i :: 0 <= i < |c.lines| && c.lines[i].conversationId == id
                             && Find(c.characters, CharacterKey, c.lines[i].characterId).None?)
                || Find(c.movies, MovieKey, Find(c.conversations, ConversationKey, id).value.movieId).None?)
  {
    var step := EntryStep(c.characters, id);
    CollectSpec(c.lines, step);
    if Find(c.conversations, ConversationKey, id).Some? {
      assert (exists i :: 0 <= i < |c.lines| && step(c.lines[i]).Crash?) <==>
             (exists i :: 0 <= i < |c.lines| && c.lines[i].conversationId == id
                          && Find(c.characters, CharacterKey, c.lines[i].characterId).None?);
    }
  }

  /** `get_conversation` (and its copy in lines.py): the loop over the line
      table, then the movie lookup. */
  method GetConversation(db: Database, id: string) returns (r: Result<ConversationDetail>)
    ensures r == ConversationView(db.Snapshot(), id)
  {
    ghost var c := db.Snapshot();
    var conversation := Find(db.conversations, ConversationKey, id);
    if conversation.None? {
      return Err(NotFound);
    }
    var entries: seq<LineEntry> := [];
    for i := 0 to |db.lines|
      invariant Collect(db.lines[..i], EntryStep(c.characters, id)) == Some(entries)
    {
      var line := db.lines[i];
      CollectSnoc(db.lines, EntryStep(c.characters, id), i);
      if line.conversationId == id {
        var speaker := Find(db.characters, CharacterKey, line.characterId);
        if speaker.None? {
          assert EntryStep(c.characters, id)(db.lines[i]).Crash?;
          CollectCrash(db.lines, EntryStep(c.characters, id));
          return Err(InternalError);
        }
        entries := entries + [LineEntry(line.id, speaker.value.name, line.text)];
      }
    }
    assert db.lines[..|db.lines|] == db.lines;
    var movie := Find(db.movies, MovieKey, conversation.value.movieId);
    if movie.None? {
      return Err(InternalError);
    }
    return Ok(ConversationDetail(id, movie.value.title, entries));
  }

  // ---------------------------------------------------------------------
  // POST /movies/{movie_id}/conversations/

  datatype LineRequest = LineRequest(characterId: int, text: string)
  datatype ConversationRequest = ConversationRequest(character1: int, character2: int,
                                                     lines: seq<LineRequest>)

  /** The writer's checks, in the order it makes them. `NoConversations`
      and `NoLines` are the `IndexError` of `list(d)[-1]` on an empty
      table. */
  datatype Check =
    | MissingCharacter
    | SameCharacter
    | WrongMovie
    | DifferentMovies
    | EmptyConversation
    | NoConversations
    | NoLines
    | SpeakerMismatch

  function CheckFailure(check: Check): Failure {
    match check
    case MissingCharacter => NotFound
    case NoConversations => InternalError
    case NoLines => InternalError
    case _ => Unprocessable
  }

  /** A requested line is spoken by one of the two characters. */
  predicate SpeakerOk(l: LineRequest, character1: Character, character2: Character) {
    IntStr(l.characterId) == character1.id || IntStr(l.characterId) == character2.id
  }

  /** Every requested line is spoken by one of the two characters. */
  predicate SpeakersOk(req: ConversationRequest, character1: Character, character2: Character) {
    forall j {:trigger SpeakerOk(req.lines[j], character1, character2)} :: 0 <= j < |req.lines| ==> SpeakerOk(req.lines[j], character1, character2)
  }

  function Speaks(character1: Character, character2: Character): LineRequest -> bool {
    l => SpeakerOk(l, character1, character2)
  }

  /** Everything the writer demands before it writes: two stored, distinct
      characters of the requested movie, at least one line, non-empty
      conversation and line tables, and every line spoken by one of the
      two. */
  predicate PassesChecks(c: Corpus, movieId: int, req: ConversationRequest) {
    var ch1 := Find(c.characters, CharacterKey, IntStr(req.character1));
    var ch2 := Find(c.characters, CharacterKey, IntStr(req.character2));
    && ch1.Some? && ch2.Some?
    && ch1.value != ch2.value
    && ch1.value.movieId == IntStr(movieId) && ch2.value.movieId == IntStr(movieId)
    && |req.lines| > 0
    && |c.conversations| > 0 && |c.lines| > 0
    && SpeakersOk(req, ch1.value, ch2.value)
  }

  /** The first check that fails, if any; none fails exactly when the
      request passes them all. */
  function FailedCheck(c: Corpus, movieId: int, req: ConversationRequest): (r: Option<Check>)
    ensures r.None? <==> PassesChecks(c, movieId, req)
  {
    var ch1 := Find(c.characters, CharacterKey, IntStr(req.character1));
    var ch2 := Find(c.characters, CharacterKey, IntStr(req.character2));
    if ch1.None? || ch2.None? then Some(MissingCharacter)
    else if ch1.value == ch2.value then Some(SameCharacter)
    else if ch1.value.movieId != IntStr(movieId) || ch2.value.movieId != IntStr(movieId) then Some(WrongMovie)
    else if ch1.value.movieId != ch2.value.movieId then Some(DifferentMovies)
    else if |req.lines| == 0 then Some(EmptyConversation)
    else if |c.conversations| == 0 then Some(NoConversations)
    else if |c.lines| == 0 then Some(NoLines)
    else if !SpeakersOk(req, ch1.value, ch2.value) then Some(SpeakerMismatch)
    else None
  }

  /** The rows a successful write adds: the new conversation (and the
      number it is returned as) and its lines. */
  datatype Insertion = Insertion(conversationId: nat, conversation: Conversation, lines: seq<Line>)

  /** The tables the writer allocates ids from are non-empty and ascending. */
  ghost predicate Allocatable(c: Corpus) {
    && IdsAscending(c.conversations, ConversationKey) && IdsAscending(c.lines, LineKey)
    && |c.conversations| > 0 && |c.lines| > 0
  }

  /** The record the writer builds for one requested line. */
  function LineRow(l: LineRequest, lineId: nat, sort: int, movieId: int, conversationId: nat): Line {
    Line(ToDecimal(lineId), IntStr(l.characterId), IntStr(movieId), ToDecimal(conversationId), sort, l.text)
  }

  /** The `j`-th new line (0-based): id `firstLineId + j`, `line_sort`
      `j + 1`. */
  function NewLine(req: ConversationRequest, movieId: int, conversationId: nat, firstLineId: nat, j: nat): Line
    requires j < |req.lines|
  {
    LineRow(req.lines[j], firstLineId + j, j + 1, movieId, conversationId)
  }

  /** The first `k` new lines, in request order. */
  function LinesUpTo(req: ConversationRequest, movieId: int, conversationId: nat, firstLineId: nat, k: nat): (r: seq<Line>)
    requires k <= |req.lines|
    ensures |r| == k
  {
    if k == 0 then []
    else LinesUpTo(req, movieId, conversationId, firstLineId, k - 1) + [NewLine(req, movieId, conversationId, firstLineId, k - 1)]
  }

  /** One more requested line adds its row, with the next id and
      `line_sort`, at the end. */
  lemma LinesUpToSnoc(req: ConversationRequest, movieId: int, conversationId: nat, firstLineId: nat,
                      i: nat, lineId: nat, sort: int)
    requires i < |req.lines| && lineId == firstLineId + i && sort == i + 1
    ensures LinesUpTo(req, movieId, conversationId, firstLineId, i + 1) ==
            LinesUpTo(req, movieId, conversationId, firstLineId, i) + [LineRow(req.lines[i], lineId, sort, movieId, conversationId)]
  {
  }

  /** A line per requested line: consecutive ids from `firstLineId` and
      `line_sort` from 1, in request order. */
  function NewLines(req: ConversationRequest, movieId: int, conversationId: nat, firstLineId: nat): (r: seq<Line>)
    ensures |r| == |req.lines|
  {
    LinesUpTo(req, movieId, conversationId, firstLineId, |req.lines|)
  }

  lemma {:induction false} LinesUpToAt(req: ConversationRequest, movieId: int, conversationId: nat, firstLineId: nat, k: nat)
    requires k <= |req.lines|
    ensures forall j :: 0 <= j < k ==>
              LinesUpTo(req, movieId, conversationId, firstLineId, k)[j] == NewLine(req, movieId, conversationId, firstLineId, j)
  {
    if k > 0 {
      LinesUpToAt(req, movieId, conversationId, firstLineId, k - 1);
    }
  }

  /** The `j`-th new line is the one built for the `j`-th requested line. */
  lemma NewLinesAt(req: ConversationRequest, movieId: int, conversationId: nat, firstLineId: nat)
    ensures forall j :: 0 <= j < |req.lines| ==>
              NewLines(req, movieId, conversationId, firstLineId)[j] == NewLine(req, movieId, conversationId, firstLineId, j)
  {
    LinesUpToAt(req, movieId, conversationId, firstLineId, |req.lines|);
  }

  /** The rows the writer builds: ids one past the last stored ones, and a
      line per requested line. */
  function Rows(c: Corpus, movieId: int, req: ConversationRequest): Insertion
    requires Allocatable(c)
  {
    var conversationId := NextId(c.conversations, ConversationKey);
    var firstLineId := NextId(c.lines, LineKey);
    Insertion(conversationId,
              Conversation(ToDecimal(conversationId), IntStr(req.character1), IntStr(req.character2), IntStr(movieId)),
              NewLines(req, movieId, conversationId, firstLineId))
  }

  /** The rows' lines, position by position. */
  lemma RowsLines(c: Corpus, movieId: int, req: ConversationRequest)
    requires Allocatable(c)
    ensures forall j :: 0 <= j < |req.lines| ==>
              Rows(c, movieId, req).lines[j] ==
              NewLine(req, movieId, NextId(c.conversations, ConversationKey), NextId(c.lines, LineKey), j)
  {
    NewLinesAt(req, movieId, NextId(c.conversations, ConversationKey), NextId(c.lines, LineKey));
  }

  /** What `add_conversation` decides for a snapshot of the store: the
      failure of the first failing check, or the rows to add; it writes
      exactly when every check passes. */
  function Plan(c: Corpus, movieId: int, req: ConversationRequest): (r: Result<Insertion>)
    requires IdsAscending(c.conversations, ConversationKey) && IdsAscending(c.lines, LineKey)
    ensures r.Ok? <==> PassesChecks(c, movieId, req)
    ensures r.Ok? ==> Allocatable(c) && r.value == Rows(c, movieId, req)
    ensures r.Err? ==> FailedCheck(c, movieId, req).Some? &&
                       r.error == CheckFailure(FailedCheck(c, movieId, req).value)
  {
    match FailedCheck(c, movieId, req)
    case Some(check) => Err(CheckFailure(check))
    case None => Ok(Rows(c, movieId, req))
  }

  /** The store after the rows are added. */
  function Added(c: Corpus, ins: Insertion): Corpus {
    Corpus(c.movies, c.characters, c.conversations + [ins.conversation], c.lines + ins.lines)
  }

  /** "character not found" comes first: the write answers 404 exactly when
      one of the two characters is not stored, whatever else is wrong. */
  lemma WriterNotFound(c: Corpus, movieId: int, req: ConversationRequest)
    requires IdsAscending(c.conversations, ConversationKey) && IdsAscending(c.lines, LineKey)
    ensures Plan(c, movieId, req) == Err(NotFound) <==>
            Find(c.characters, CharacterKey, IntStr(req.character1)).None? ||
            Find(c.characters, CharacterKey, IntStr(req.character2)).None?
  {
    var f := FailedCheck(c, movieId, req);
    assert Plan(c, movieId, req) == if f.None? then Ok(Rows(c, movieId, req)) else Err(CheckFailure(f.value));
    assert f.Some? ==> (CheckFailure(f.value) == NotFound <==> f.value == MissingCharacter);
  }

  /** The 422 answers: both characters exist and they are the same
      character, or one is not in the movie, or there are no lines, or (with
      both tables non-empty) a line is spoken by someone else. */
  lemma WriterUnprocessable(c: Corpus, movieId: int, req: ConversationRequest)
    requires IdsAscending(c.conversations, ConversationKey) && IdsAscending(c.lines, LineKey)
    ensures var ch1 := Find(c.characters, CharacterKey, IntStr(req.character1));
            var ch2 := Find(c.characters, CharacterKey, IntStr(req.character2));
            Plan(c, movieId, req) == Err(Unprocessable) <==>
              && ch1.Some? && ch2.Some?
              && (|| req.character1 == req.character2
                  || ch1.value.movieId != IntStr(movieId) || ch2.value.movieId != IntStr(movieId)
                  || |req.lines| == 0
                  || (|c.conversations| > 0 && |c.lines| > 0 && !SpeakersOk(req, ch1.value, ch2.value)))
  {
    var ch1 := Find(c.characters, CharacterKey, IntStr(req.character1));
    var ch2 := Find(c.characters, CharacterKey, IntStr(req.character2));
    var f := FailedCheck(c, movieId, req);
    assert Plan(c, movieId, req) == if f.None? then Ok(Rows(c, movieId, req)) else Err(CheckFailure(f.value));
    if ch1.Some? && ch2.Some? {
      SameCharacterIffSameId(c, req);
      DifferentMoviesNeverFires(c, movieId, req);
    }
  }

  /** The 500 answers: every request check passes but an id table is empty,
      so reading its last id raises `IndexError`. */
  lemma WriterInternalError(c: Corpus, movieId: int, req: ConversationRequest)
    requires IdsAscending(c.conversations, ConversationKey) && IdsAscending(c.lines, LineKey)
    ensures var ch1 := Find(c.characters, CharacterKey, IntStr(req.character1));
            var ch2 := Find(c.characters, CharacterKey, IntStr(req.character2));
            Plan(c, movieId, req) == Err(InternalError) <==>
              && ch1.Some? && ch2.Some? && ch1.value != ch2.value
              && ch1.value.movieId == IntStr(movieId) && ch2.value.movieId == IntStr(movieId)
              && |req.lines| > 0
              && (|c.conversations| == 0 || |c.lines| == 0)
  {
    var f := FailedCheck(c, movieId, req);
    assert Plan(c, movieId, req) == if f.None? then Ok(Rows(c, movieId, req)) else Err(CheckFailure(f.value));
    DifferentMoviesNeverFires(c, movieId, req);
  }

  /** The "different movies" check never fires: once both characters are in
      the requested movie they are in the same one. */
  lemma DifferentMoviesNeverFires(c: Corpus, movieId: int, req: ConversationRequest)
    ensures FailedCheck(c, movieId, req) != Some(DifferentMovies)
  {
    var ch1 := Find(c.characters, CharacterKey, IntStr(req.character1));
    var ch2 := Find(c.characters, CharacterKey, IntStr(req.character2));
    if ch1.Some? && ch2.Some? && ch1.value.movieId == IntStr(movieId) && ch2.value.movieId == IntStr(movieId) {
      assert ch1.value.movieId == ch2.value.movieId;
    }
  }

  /** The source compares the two stored records; they are equal exactly
      when the two requested ids are. */
  lemma SameCharacterIffSameId(c: Corpus, req: ConversationRequest)
    requires Find(c.characters, CharacterKey, IntStr(req.character1)).Some?
    requires Find(c.characters, CharacterKey, IntStr(req.character2)).Some?
    ensures Find(c.characters, CharacterKey, IntStr(req.character1)).value ==
            Find(c.characters, CharacterKey, IntStr(req.character2)).value
            <==> req.character1 == req.character2
  {
    IntStrInjective(req.character1, req.character2);
  }

  /** The allocation: the new conversation number is one more than the
      largest stored conversation id; the new lines take consecutive ids
      from one more than the largest stored line id, `line_sort` 1..k in
      request order, the requested speakers and texts, the requested movie
      and the new conversation's id. */
  lemma RowsAllocation(c: Corpus, movieId: int, req: ConversationRequest)
    requires Allocatable(c)
    ensures var ins := Rows(c, movieId, req);
            && (forall i :: 0 <= i < |c.conversations| ==> ParseDecimal(c.conversations[i].id) < ins.conversationId)
            && (exists i :: 0 <= i < |c.conversations| && ParseDecimal(c.conversations[i].id) + 1 == ins.conversationId)
            && ins.conversation == Conversation(ToDecimal(ins.conversationId), IntStr(req.character1),
                                                IntStr(req.character2), IntStr(movieId))
            && |ins.lines| == |req.lines|
            && var first := NextId(c.lines, LineKey);
               && (forall i :: 0 <= i < |c.lines| ==> ParseDecimal(c.lines[i].id) < first)
               && (exists i :: 0 <= i < |c.lines| && ParseDecimal(c.lines[i].id) + 1 == first)
               && forall j :: 0 <= j < |req.lines| ==>
                    && ins.lines[j].id == ToDecimal(first + j)
                    && ins.lines[j].lineSort == j + 1
                    && ins.lines[j].characterId == IntStr(req.lines[j].characterId)
                    && ins.lines[j].text == req.lines[j].text
                    && ins.lines[j].movieId == ins.conversation.movieId
                    && ins.lines[j].conversationId == ins.conversation.id
  {
    RowsLines(c, movieId, req);
    NextIdAboveAll(c.conversations, ConversationKey);
    NextIdAboveAll(c.lines, LineKey);
  }

  /** New ids are never reused: the new conversation id and the new line
      ids name no stored record, and the new line ids differ from each
      other. */
  lemma RowsFresh(c: Corpus, movieId: int, req: ConversationRequest)
    requires Allocatable(c)
    ensures var ins := Rows(c, movieId, req);
            && (forall i :: 0 <= i < |c.conversations| ==> c.conversations[i].id != ins.conversation.id)
            && (forall i, j :: 0 <= i < |c.lines| && 0 <= j < |ins.lines| ==> c.lines[i].id != ins.lines[j].id)
            && (forall j, k :: 0 <= j < k < |ins.lines| ==> ins.lines[j].id != ins.lines[k].id)
  {
    var ins := Rows(c, movieId, req);
    var first := NextId(c.lines, LineKey);
    RowsLines(c, movieId, req);
    NextIdAboveAll(c.conversations, ConversationKey);
    NextIdAboveAll(c.lines, LineKey);
    FreshId(c.conversations, ConversationKey, ins.conversationId);
    forall j | 0 <= j < |ins.lines|
      ensures IsDigits(ins.lines[j].id) && ParseDecimal(ins.lines[j].id) == first + j
    {
      assert ins.lines[j].id == ToDecimal(first + j);
      ToDecimalParses(first + j);
    }
  }

  /** The rows of a write that passes the checks keep the corpus's meaning:
      the two participants differ and are stored characters of the
      requested movie, and each new line is spoken by one of them. */
  lemma RowsConsistent(c: Corpus, movieId: int, req: ConversationRequest)
    requires Allocatable(c) && PassesChecks(c, movieId, req)
    ensures var ins := Rows(c, movieId, req);
            && ins.conversation.character1 != ins.conversation.character2
            && (exists ch :: ch in c.characters && ch.id == ins.conversation.character1
                             && ch.movieId == ins.conversation.movieId)
            && (exists ch :: ch in c.characters && ch.id == ins.conversation.character2
                             && ch.movieId == ins.conversation.movieId)
            && forall j :: 0 <= j < |ins.lines| ==>
                 && (ins.lines[j].characterId == ins.conversation.character1 ||
                     ins.lines[j].characterId == ins.conversation.character2)
                 && Find(c.characters, CharacterKey, ins.lines[j].characterId).Some?
  {
    var ins := Rows(c, movieId, req);
    var ch1 := Find(c.characters, CharacterKey, IntStr(req.character1)).value;
    var ch2 := Find(c.characters, CharacterKey, IntStr(req.character2)).value;
    RowsLines(c, movieId, req);
    SameCharacterIffSameId(c, req);
    IntStrInjective(req.character1, req.character2);
    forall j | 0 <= j < |ins.lines|
      ensures && (ins.lines[j].characterId == ins.conversation.character1 ||
                  ins.lines[j].characterId == ins.conversation.character2)
              && Find(c.characters, CharacterKey, ins.lines[j].characterId).Some?
    {
      assert SpeakerOk(req.lines[j], ch1, ch2);
    }
  }

  lemma FindInPrefix<T>(table: seq<T>, key: T -> string, x: T, id: string)
    requires Find(table, key, id).Some?
    ensures Find(table + [x], key, id).Some?
  {
    var i :| 0 <= i < |table| && key(table[i]) == id;
    assert key((table + [x])[i]) == id;
  }

  lemma FindAppended<T>(table: seq<T>, key: T -> string, x: T)
    ensures Find(table + [x], key, key(x)).Some?
  {
    assert key((table + [x])[|table|]) == key(x);
  }

  /** The new lines carry consecutive ids above every stored line id. */
  lemma RowsAscending(c: Corpus, movieId: int, req: ConversationRequest)
    requires Allocatable(c)
    ensures IdsAscending(c.lines + Rows(c, movieId, req).lines, LineKey)
  {
    var ins := Rows(c, movieId, req);
    var first := NextId(c.lines, LineKey);
    RowsLines(c, movieId, req);
    NextIdAboveAll(c.lines, LineKey);
    forall j | 0 <= j < |ins.lines|
      ensures IsDigits(ins.lines[j].id) && ParseDecimal(ins.lines[j].id) == first + j
    {
      assert ins.lines[j].id == ToDecimal(first + j);
      ToDecimalParses(first + j);
    }
    AscendingConcat(c.lines, ins.lines, LineKey);
  }

  /** After the write every line still belongs to a stored conversation:
      the old lines to old ones, the new lines to the new one. */
  lemma AddedLinesFiled(c: Corpus, ins: Insertion)
    requires forall i :: 0 <= i < |c.lines| ==>
               Find(c.conversations, ConversationKey, c.lines[i].conversationId).Some?
    requires forall j :: 0 <= j < |ins.lines| ==> ins.lines[j].conversationId == ins.conversation.id
    ensures var added := Added(c, ins);
            forall i :: 0 <= i < |added.lines| ==>
              Find(added.conversations, ConversationKey, added.lines[i].conversationId).Some?
  {
    var added := Added(c, ins);
    forall i | 0 <= i < |added.lines|
      ensures Find(added.conversations, ConversationKey, added.lines[i].conversationId).Some?
    {
      if i < |c.lines| {
        assert added.lines[i] == c.lines[i];
        FindInPrefix(c.conversations, ConversationKey, ins.conversation, c.lines[i].conversationId);
      } else {
        assert added.lines[i] == ins.lines[i - |c.lines|];
        FindAppended(c.conversations, ConversationKey, ins.conversation);
      }
    }
  }

  /** Adding the rows keeps the store's invariants. */
  lemma AddedWellFormed(c: Corpus, movieId: int, req: ConversationRequest)
    requires WellFormed(c) && Allocatable(c)
    ensures WellFormed(Added(c, Rows(c, movieId, req)))
  {
    var ins := Rows(c, movieId, req);
    RowsLines(c, movieId, req);
    NextIdAboveAll(c.conversations, ConversationKey);
    ToDecimalParses(ins.conversationId);
    AscendingAppend(c.conversations, ConversationKey, ins.conversation);
    RowsAscending(c, movieId, req);
    AddedLinesFiled(c, ins);
  }

  /** The stored lines keep their meaning when a conversation is
      appended. */
  lemma StoredLinesCoherent(c: Corpus, added: Corpus, conversation: Conversation)
    requires Coherent(c)
    requires added.characters == c.characters && added.conversations == c.conversations + [conversation]
    ensures forall i :: 0 <= i < |c.lines| ==> LineCoherent(added, c.lines[i])
  {
    forall i | 0 <= i < |c.lines| ensures LineCoherent(added, c.lines[i]) {
      assert LineCoherent(c, c.lines[i]);
      FindExtended(c.conversations, [conversation], ConversationKey, c.lines[i].conversationId);
    }
  }

  /** Each new line is filed under the new conversation, in its movie, and
      spoken by one of its two participants. */
  lemma NewLinesFiled(c: Corpus, movieId: int, req: ConversationRequest)
    requires Allocatable(c) && PassesChecks(c, movieId, req)
    ensures var ins := Rows(c, movieId, req);
            forall j :: 0 <= j < |ins.lines| ==>
              && ins.lines[j].conversationId == ins.conversation.id
              && ins.lines[j].movieId == ins.conversation.movieId
              && (ins.lines[j].characterId == ins.conversation.character1 ||
                  ins.lines[j].characterId == ins.conversation.character2)
  {
    var ins := Rows(c, movieId, req);
    var ch1 := Find(c.characters, CharacterKey, IntStr(req.character1)).value;
    var ch2 := Find(c.characters, CharacterKey, IntStr(req.character2)).value;
    RowsLines(c, movieId, req);
    forall j | 0 <= j < |ins.lines|
      ensures && ins.lines[j].conversationId == ins.conversation.id
              && ins.lines[j].movieId == ins.conversation.movieId
              && (ins.lines[j].characterId == ins.conversation.character1 ||
                  ins.lines[j].characterId == ins.conversation.character2)
    {
      assert SpeakerOk(req.lines[j], ch1, ch2);
    }
  }

  /** Lines filed under a found conversation, in its movie, spoken by one
      of its participants, both characters of that movie, mean what they
      should. */
  lemma NewLinesCoherent(added: Corpus, conversation: Conversation, lines: seq<Line>)
    requires Find(added.conversations, ConversationKey, conversation.id) == Some(conversation)
    requires InCast(added, conversation.character1, conversation.movieId)
    requires InCast(added, conversation.character2, conversation.movieId)
    requires forall j :: 0 <= j < |lines| ==>
               && lines[j].conversationId == conversation.id
               && lines[j].movieId == conversation.movieId
               && (lines[j].characterId == conversation.character1 || lines[j].characterId == conversation.character2)
    ensures forall j :: 0 <= j < |lines| ==> LineCoherent(added, lines[j])
  {
  }

  /** Appending a conversation and lines filed under it, in its movie and
      spoken by its participants, who are characters of that movie, keeps
      every line's meaning. */
  lemma CoherentAfter(c: Corpus, ins: Insertion)
    requires Coherent(c)
    requires Find(c.conversations + [ins.conversation], ConversationKey, ins.conversation.id) == Some(ins.conversation)
    requires InCast(c, ins.conversation.character1, ins.conversation.movieId)
    requires InCast(c, ins.conversation.character2, ins.conversation.movieId)
    requires forall j :: 0 <= j < |ins.lines| ==>
               && ins.lines[j].conversationId == ins.conversation.id
               && ins.lines[j].movieId == ins.conversation.movieId
               && (ins.lines[j].characterId == ins.conversation.character1 ||
                   ins.lines[j].characterId == ins.conversation.character2)
    ensures Coherent(Added(c, ins))
  {
    var added := Added(c, ins);
    StoredLinesCoherent(c, added, ins.conversation);
    NewLinesCoherent(added, ins.conversation, ins.lines);
    forall i | 0 <= i < |added.lines| ensures LineCoherent(added, added.lines[i]) {
      if i >= |c.lines| {
        assert added.lines[i] == ins.lines[i - |c.lines|];
      } else {
        assert added.lines[i] == c.lines[i];
      }
    }
  }

  /** The new conversation is found under its id once appended, and both
      its participants are characters of its movie. */
  lemma NewConversationFound(c: Corpus, movieId: int, req: ConversationRequest)
    requires WellFormed(c) && PassesChecks(c, movieId, req)
    ensures var conversation := Rows(c, movieId, req).conversation;
            && Find(c.conversations + [conversation], ConversationKey, conversation.id) == Some(conversation)
            && InCast(c, conversation.character1, conversation.movieId)
            && InCast(c, conversation.character2, conversation.movieId)
  {
    var ins := Rows(c, movieId, req);
    NextIdAboveAll(c.conversations, ConversationKey);
    FreshId(c.conversations, ConversationKey, ins.conversationId);
    FindLast(c.conversations, ConversationKey, ins.conversation);
  }

  /** Adding the rows keeps every line's meaning: the stored lines keep
      their conversations, and each new line is spoken in the new
      conversation's movie by one of its two participants, both characters
      of that movie. */
  lemma AddedCoherent(c: Corpus, movieId: int, req: ConversationRequest)
    requires WellFormed(c) && Coherent(c) && PassesChecks(c, movieId, req)
    ensures Coherent(Added(c, Rows(c, movieId, req)))
  {
    NewConversationFound(c, movieId, req);
    NewLinesFiled(c, movieId, req);
    CoherentAfter(c, Rows(c, movieId, req));
  }

  /** No stored line belongs to the new conversation: its id is fresh and
      every stored line names a stored conversation. */
  lemma StoredLinesElsewhere(c: Corpus, movieId: int, req: ConversationRequest)
    requires WellFormed(c) && Allocatable(c)
    ensures forall i :: 0 <= i < |c.lines| ==> c.lines[i].conversationId != Rows(c, movieId, req).conversation.id
  {
    var id := Rows(c, movieId, req).conversation.id;
    RowsFresh(c, movieId, req);
    forall i | 0 <= i < |c.lines| ensures c.lines[i].conversationId != id {
      var k :| 0 <= k < |c.conversations| && c.conversations[k].id == c.lines[i].conversationId;
    }
  }

  lemma {:induction false} FindLast<T>(table: seq<T>, key: T -> string, x: T)
    requires forall i :: 0 <= i < |table| ==> key(table[i]) != key(x)
    ensures Find(table + [x], key, key(x)) == Some(x)
  {
    if table != [] {
      assert (table + [x])[1..] == table[1..] + [x];
      FindLast(table[1..], key, x);
    }
  }

  /** After the write, the lines filed under the new conversation are
      exactly the new lines: no stored line had its id. */
  lemma AddedConversationLines(c: Corpus, movieId: int, req: ConversationRequest)
    requires WellFormed(c) && Allocatable(c)
    ensures var ins := Rows(c, movieId, req);
            ConversationLines(c.lines + ins.lines, ins.conversation.id) == ins.lines
  {
    var ins := Rows(c, movieId, req);
    var id := ins.conversation.id;
    RowsLines(c, movieId, req);
    StoredLinesElsewhere(c, movieId, req);
    FilterNone(c.lines, InConversation(id));
    FilterAll(ins.lines, InConversation(id));
    FilterAppend(c.lines, ins.lines, InConversation(id));
  }

  /** Reading a conversation raises on no line when the lines of other
      conversations come first and every further line's speaker is
      stored. */
  lemma NoCrashAfterAppend(lines: seq<Line>, extra: seq<Line>, characters: seq<Character>, id: string)
    requires forall i :: 0 <= i < |lines| ==> lines[i].conversationId != id
    requires forall j :: 0 <= j < |extra| ==> Find(characters, CharacterKey, extra[j].characterId).Some?
    ensures Collect(lines + extra, EntryStep(characters, id)).Some?
  {
    var all := lines + extra;
    var step := EntryStep(characters, id);
    CollectSpec(all, step);
    forall i | 0 <= i < |all| ensures !step(all[i]).Crash? {
      if i < |lines| {
        assert all[i] == lines[i];
      } else {
        assert all[i] == extra[i - |lines|];
      }
    }
  }

  /** After the write, no line of the store makes reading the new
      conversation raise: stored lines belong to other conversations, and
      the new lines have stored speakers. */
  lemma AddedReadable(c: Corpus, movieId: int, req: ConversationRequest)
    requires WellFormed(c) && PassesChecks(c, movieId, req)
    ensures var ins := Rows(c, movieId, req);
            Collect(c.lines + ins.lines, EntryStep(c.characters, ins.conversation.id)).Some?
  {
    var ins := Rows(c, movieId, req);
    StoredLinesElsewhere(c, movieId, req);
    RowsConsistent(c, movieId, req);
    NoCrashAfterAppend(c.lines, ins.lines, c.characters, ins.conversation.id);
  }

  /** Round trip, status: after a successful write, reading the new
      conversation does not answer 404; it succeeds exactly when the movie
      is stored, and then it reports the id the write returned. */
  lemma AddThenGetStatus(c: Corpus, movieId: int, req: ConversationRequest)
    requires WellFormed(c) && PassesChecks(c, movieId, req)
    ensures var ins := Rows(c, movieId, req);
            var view := ConversationView(Added(c, ins), ins.conversation.id);
            && view != Err(NotFound)
            && (view.Ok? <==> Find(c.movies, MovieKey, IntStr(movieId)).Some?)
            && (view.Ok? ==> view.value.conversationId == ToDecimal(ins.conversationId))
  {
    var ins := Rows(c, movieId, req);
    var added := Added(c, ins);
    var id := ins.conversation.id;
    RowsFresh(c, movieId, req);
    FindLast(c.conversations, ConversationKey, ins.conversation);
    assert Find(added.conversations, ConversationKey, id) == Some(ins.conversation);
    AddedReadable(c, movieId, req);
  }

  /** Round trip, contents: when reading the new conversation succeeds, it
      lists the submitted lines in submission order, with the new line
      numbers, each under the name of its (participating) speaker. */
  lemma AddThenGetLines(c: Corpus, movieId: int, req: ConversationRequest)
    requires WellFormed(c) && PassesChecks(c, movieId, req)
    requires ConversationView(Added(c, Rows(c, movieId, req)), Rows(c, movieId, req).conversation.id).Ok?
    ensures var ins := Rows(c, movieId, req);
            var entries := ConversationView(Added(c, ins), ins.conversation.id).value.lines;
            && |entries| == |req.lines|
            && forall j :: 0 <= j < |req.lines| ==>
                 && entries[j].text == req.lines[j].text
                 && entries[j].lineId == ToDecimal(NextId(c.lines, LineKey) + j)
                 && (IntStr(req.lines[j].characterId) == IntStr(req.character1) ||
                     IntStr(req.lines[j].characterId) == IntStr(req.character2))
                 && Find(c.characters, CharacterKey, IntStr(req.lines[j].characterId)).Some?
                 && entries[j].character == Find(c.characters, CharacterKey, IntStr(req.lines[j].characterId)).value.name
  {
    var ins := Rows(c, movieId, req);
    var added := Added(c, ins);
    AddedConversationLines(c, movieId, req);
    ConversationListsItsLines(added, ins.conversation.id);
    RowsAllocation(c, movieId, req);
    RowsConsistent(c, movieId, req);
  }

  /** Who says a requested line. */
  function RequestedBy(characterId: string): LineRequest -> bool {
    (l: LineRequest) => IntStr(l.characterId) == characterId
  }

  lemma {:induction false} SpeakerCountMatches(ls: seq<Line>, rs: seq<LineRequest>, k: string)
    requires |ls| == |rs|
    requires forall j :: 0 <= j < |ls| ==> ls[j].characterId == IntStr(rs[j].characterId)
    ensures SpeakerCount(ls, k) == Count(rs, RequestedBy(k))
  {
    if ls != [] {
      var n := |ls| - 1;
      SpeakerCountMatches(ls[..n], rs[..n], k);
    }
  }

  /** The per-character counter rises, for each character, by the number of
      submitted lines that character speaks; no other entry moves. */
  lemma CounterDelta(c: Corpus, movieId: int, req: ConversationRequest, k: string)
    requires Allocatable(c) && PassesChecks(c, movieId, req)
    ensures var ins := Rows(c, movieId, req);
            && SpeakerCount(c.lines + ins.lines, k) == SpeakerCount(c.lines, k) + Count(req.lines, RequestedBy(k))
            && (k != ins.conversation.character1 && k != ins.conversation.character2 ==>
                  SpeakerCount(c.lines + ins.lines, k) == SpeakerCount(c.lines, k))
  {
    var ins := Rows(c, movieId, req);
    RowsLines(c, movieId, req);
    SpeakerCountMatches(ins.lines, req.lines, k);
    CountAppend(c.lines, ins.lines, SpokenBy(k));
    RowsConsistent(c, movieId, req);
    if k != ins.conversation.character1 && k != ins.conversation.character2 {
      FilterNone(ins.lines, SpokenBy(k));
    }
  }

  /** The loop of `add_conversation` that builds the new lines: it raises
      (422) at the first line spoken by neither character, and otherwise
      yields the new lines. */
  method BuildLines(req: ConversationRequest, movieId: int, conversationId: nat, firstLineId: nat,
                    character1: Character, character2: Character) returns (r: Option<seq<Line>>)
    ensures r.None? <==> !SpeakersOk(req, character1, character2)
    ensures r.Some? ==> r.value == NewLines(req, movieId, conversationId, firstLineId)
  {
    var sort := 1;
    var lineId: nat := firstLineId;
    var lines: seq<Line> := [];
    for i := 0 to |req.lines|
      invariant sort == i + 1 && lineId == firstLineId + i
      invariant lines == LinesUpTo(req, movieId, conversationId, firstLineId, i)
      invariant AllUpTo(req.lines, Speaks(character1, character2), i)
    {
      var line := req.lines[i];
      if !SpeakerOk(line, character1, character2) {
        return None;
      }
      LinesUpToSnoc(req, movieId, conversationId, firstLineId, i, lineId, sort);
      lines := lines + [LineRow(line, lineId, sort, movieId, conversationId)];
      sort := sort + 1;
      lineId := lineId + 1;
    }
    AllUpToAll(req.lines, Speaks(character1, character2), |req.lines|);
    return Some(lines);
  }

  /** The next new line's id is fresh against the stored lines and the new
      lines already filed. */
  lemma FreshLine(lines: seq<Line>, newLines: seq<Line>, i: nat)
    requires i < |newLines|
    requires forall k, j :: 0 <= k < |lines| && 0 <= j < |newLines| ==> lines[k].id != newLines[j].id
    requires forall j, k :: 0 <= j < k < |newLines| ==> newLines[j].id != newLines[k].id
    ensures var filed := lines + newLines[..i];
            && (forall k :: 0 <= k < |filed| ==> filed[k].id != newLines[i].id)
            && lines + newLines[..i + 1] == filed + [newLines[i]]
  {
    var filed := lines + newLines[..i];
    forall k | 0 <= k < |filed| ensures filed[k].id != newLines[i].id {
      if k >= |lines| {
        assert filed[k] == newLines[k - |lines|];
      }
    }
    assert newLines[..i + 1] == newLines[..i] + [newLines[i]];
  }

  /** The writes of `add_conversation`: each new line is filed under its
      (fresh) id and counted for its speaker, then the conversation is
      filed under its (fresh) id. */
  method StoreRows(db: Database, newLines: seq<Line>, conversation: Conversation)
    requires CountsAgree(db.lineCounts, db.lines)
    requires forall i, j :: 0 <= i < |db.lines| && 0 <= j < |newLines| ==> db.lines[i].id != newLines[j].id
    requires forall j, k :: 0 <= j < k < |newLines| ==> newLines[j].id != newLines[k].id
    requires forall i :: 0 <= i < |db.conversations| ==> db.conversations[i].id != conversation.id
    modifies db
    ensures db.Snapshot() == Corpus(old(db.movies), old(db.characters),
                                    old(db.conversations) + [conversation], old(db.lines) + newLines)
    ensures CountsAgree(db.lineCounts, db.lines)
    ensures forall k :: Tally(db.lineCounts, k) == Tally(old(db.lineCounts), k) + SpeakerCount(newLines, k)
  {
    ghost var c := db.Snapshot();
    for i := 0 to |newLines|
      invariant db.movies == c.movies && db.characters == c.characters
      invariant db.conversations == c.conversations
      invariant db.lines == c.lines + newLines[..i]
      invariant CountsAgree(db.lineCounts, db.lines)
    {
      var line := newLines[i];
      FreshLine(c.lines, newLines, i);
      PutAppends(db.lines, LineKey, line);
      BumpAgrees(db.lineCounts, db.lines, line);
      db.lines := Put(db.lines, LineKey, line);
      db.lineCounts := Bump(db.lineCounts, line.characterId);
    }
    assert newLines[..|newLines|] == newLines;
    PutAppends(db.conversations, ConversationKey, conversation);
    db.conversations := Put(db.conversations, ConversationKey, conversation);
    forall k ensures Tally(db.lineCounts, k) == Tally(old(db.lineCounts), k) + SpeakerCount(newLines, k) {
      CountAppend(c.lines, newLines, SpokenBy(k));
    }
  }

  /** The checks the writer makes before it allocates anything, in the
      order it makes them; on success, the two participants. */
  method CheckRequest(db: Database, movieId: int, req: ConversationRequest)
    returns (r: Result<(Character, Character)>)
    ensures var f := FailedCheck(db.Snapshot(), movieId, req);
            r.Err? <==> f.Some? && f.value != SpeakerMismatch
    ensures r.Err? ==> r.error == CheckFailure(FailedCheck(db.Snapshot(), movieId, req).value)
    ensures r.Ok? ==>
              && Find(db.characters, CharacterKey, IntStr(req.character1)) == Some(r.value.0)
              && Find(db.characters, CharacterKey, IntStr(req.character2)) == Some(r.value.1)
              && |db.conversations| > 0 && |db.lines| > 0
  {
    ghost var c := db.Snapshot();
    var ch1 := Find(db.characters, CharacterKey, IntStr(req.character1));
    var ch2 := Find(db.characters, CharacterKey, IntStr(req.character2));
    if ch1.None? || ch2.None? {
      assert FailedCheck(c, movieId, req) == Some(MissingCharacter);
      return Err(NotFound);
    }
    var character1, character2 := ch1.value, ch2.value;
    if character1 == character2 {
      assert FailedCheck(c, movieId, req) == Some(SameCharacter);
      return Err(Unprocessable);
    }
    if character1.movieId != IntStr(movieId) || character2.movieId != IntStr(movieId) {
      assert FailedCheck(c, movieId, req) == Some(WrongMovie);
      return Err(Unprocessable);
    }
    if character1.movieId != character2.movieId {
      assert false;
      return Err(Unprocessable);
    }
    if |req.lines| == 0 {
      assert FailedCheck(c, movieId, req) == Some(EmptyConversation);
      return Err(Unprocessable);
    }
    if |db.conversations| == 0 {
      assert FailedCheck(c, movieId, req) == Some(NoConversations);
      return Err(InternalError);
    }
    if |db.lines| == 0 {
      assert FailedCheck(c, movieId, req) == Some(NoLines);
      return Err(InternalError);
    }
    return Ok((character1, character2));
  }

  /** Once the request checks before the speaker check have passed, with
      the two characters found, a speaker mismatch is the planned 422. */
  lemma PlannedMismatch(c: Corpus, movieId: int, req: ConversationRequest, character1: Character, character2: Character)
    requires IdsAscending(c.conversations, ConversationKey) && IdsAscending(c.lines, LineKey)
    requires FailedCheck(c, movieId, req) == None || FailedCheck(c, movieId, req) == Some(SpeakerMismatch)
    requires Find(c.characters, CharacterKey, IntStr(req.character1)) == Some(character1)
    requires Find(c.characters, CharacterKey, IntStr(req.character2)) == Some(character2)
    requires !SpeakersOk(req, character1, character2)
    ensures Plan(c, movieId, req) == Err(Unprocessable)
  {
    assert FailedCheck(c, movieId, req) == Some(SpeakerMismatch);
  }

  /** Otherwise the write planned is the conversation and lines numbered
      from the next ids. */
  lemma PlannedRows(c: Corpus, movieId: int, req: ConversationRequest, character1: Character, character2: Character)
    requires IdsAscending(c.conversations, ConversationKey) && IdsAscending(c.lines, LineKey)
    requires FailedCheck(c, movieId, req) == None || FailedCheck(c, movieId, req) == Some(SpeakerMismatch)
    requires Find(c.characters, CharacterKey, IntStr(req.character1)) == Some(character1)
    requires Find(c.characters, CharacterKey, IntStr(req.character2)) == Some(character2)
    requires SpeakersOk(req, character1, character2)
    ensures PassesChecks(c, movieId, req)
    ensures var conversationId := NextId(c.conversations, ConversationKey);
            var ins := Rows(c, movieId, req);
            && Plan(c, movieId, req) == Ok(ins)
            && ins.conversationId == conversationId
            && ins.lines == NewLines(req, movieId, conversationId, NextId(c.lines, LineKey))
            && ins.conversation == Conversation(ToDecimal(conversationId), IntStr(req.character1),
                                                IntStr(req.character2), IntStr(movieId))
  {
    assert PassesChecks(c, movieId, req);
  }

  /** The writes of a request that passed every check: the planned rows
      are appended, and the store stays valid. */
  method StoreConversation(db: Database, movieId: int, req: ConversationRequest,
                           conversationId: nat, newLines: seq<Line>)
    requires db.Valid() && PassesChecks(db.Snapshot(), movieId, req)
    requires conversationId == Rows(db.Snapshot(), movieId, req).conversationId
    requires newLines == Rows(db.Snapshot(), movieId, req).lines
    modifies db
    ensures db.Valid()
    ensures db.Snapshot() == Added(old(db.Snapshot()), Rows(old(db.Snapshot()), movieId, req))
    ensures forall k :: Tally(db.lineCounts, k) == Tally(old(db.lineCounts), k) + SpeakerCount(newLines, k)
  {
    ghost var c := db.Snapshot();
    RowsFresh(c, movieId, req);
    AddedWellFormed(c, movieId, req);
    AddedCoherent(c, movieId, req);
    var conversation := Conversation(ToDecimal(conversationId), IntStr(req.character1),
                                      IntStr(req.character2), IntStr(movieId));
    StoreRows(db, newLines, conversation);
  }

  /** `add_conversation`: the checks, the allocation and the line loop,
      then the writes, which touch the store only after every check has
      passed. */
  method AddConversation(db: Database, movieId: int, req: ConversationRequest) returns (r: Result<nat>)
    requires db.Valid()
    modifies db
    ensures db.Valid()
    ensures match Plan(old(db.Snapshot()), movieId, req)
            case Err(e) =>
              r == Err(e) && db.Snapshot() == old(db.Snapshot()) && db.lineCounts == old(db.lineCounts)
            case Ok(ins) =>
              && r == Ok(ins.conversationId)
              && db.Snapshot() == Added(old(db.Snapshot()), ins)
              && forall k :: Tally(db.lineCounts, k) == Tally(old(db.lineCounts), k) + SpeakerCount(ins.lines, k)
  {
    ghost var c := db.Snapshot();
    var checked := CheckRequest(db, movieId, req);
    if checked.Err? {
      return Err(checked.error);
    }
    var (character1, character2) := checked.value;
    var conversationId := NextId(db.conversations, ConversationKey);
    var firstLineId := NextId(db.lines, LineKey);
    var built := BuildLines(req, movieId, conversationId, firstLineId, character1, character2);
    if built.None? {
      PlannedMismatch(c, movieId, req, character1, character2);
      return Err(Unprocessable);
    }
    var newLines := built.value;
    PlannedRows(c, movieId, req, character1, character2);
    StoreConversation(db, movieId, req, conversationId, newLines);
    return Ok(conversationId);
  }
}
