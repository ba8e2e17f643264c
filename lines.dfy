/** src/api/lines.py: one line with its speaker and the character it is
    said to, and the filtered, sorted, paginated line listing. Its copy of
    `get_conversation` is `Conversations.GetConversation`. */
module Lines {
  import opened Outcomes
  import opened Sequences
  import opened Text
  import opened Sorting
  import opened Store

  // ---------------------------------------------------------------------
  // GET /lines/{line_id}

  datatype LineDetail = LineDetail(lineId: string, conversationId: string, movie: string,
                                   character: string, recipient: string, text: string)

  /** The character a line is said to: the second participant when the
      speaker is the first, the first otherwise. */
  function Recipient(conv: Conversation, speaker: string): (r: string)
    ensures r == conv.character1 || r == conv.character2
    ensures speaker == conv.character1 ==> r == conv.character2
    ensures speaker != conv.character1 ==> r == conv.character1
  {
    if conv.character1 == speaker then conv.character2 else conv.character1
  }

  /** A participant of a conversation between two different characters is
      answered by the other one, never by itself. */
  lemma RecipientIsOther(conv: Conversation, speaker: string)
    requires speaker == conv.character1 || speaker == conv.character2
    requires conv.character1 != conv.character2
    ensures Recipient(conv, speaker) != speaker
    ensures {Recipient(conv, speaker), speaker} == {conv.character1, conv.character2}
  {
  }

  /** What `get_lines(line_id)` answers for a snapshot of the store: each
      of the lookups of the line's conversation, movie, speaker and
      recipient raises when the record is missing. */
  function LineView(c: Corpus, lineId: string): (r: Result<LineDetail>)
    ensures r == Err(NotFound) <==> Find(c.lines, LineKey, lineId).None?
    ensures r.Ok? ==> r.value.lineId == lineId
  {
    match Find(c.lines, LineKey, lineId)
    case None => Err(NotFound)
    case Some(line) =>
      match Find(c.conversations, ConversationKey, line.conversationId)
      case None => Err(InternalError)
      case Some(conv) =>
        var recipientId := Recipient(conv, line.characterId);
        match Find(c.movies, MovieKey, line.movieId)
        case None => Err(InternalError)
        case Some(movie) =>
          match Find(c.characters, CharacterKey, line.characterId)
          case None => Err(InternalError)
          case Some(speaker) =>
            match Find(c.characters, CharacterKey, recipientId)
            case None => Err(InternalError)
            case Some(recipient) =>
              Ok(LineDetail(lineId, line.conversationId, movie.title, speaker.name, recipient.name, line.text))
  }

  /** The reported fields come from the line's own conversation, movie and
      speaker, and the recipient is the other participant of that
      conversation. */
  lemma LineFields(c: Corpus, lineId: string)
    requires LineView(c, lineId).Ok?
    ensures var line := Find(c.lines, LineKey, lineId).value;
            var view := LineView(c, lineId).value;
            && Find(c.conversations, ConversationKey, line.conversationId).Some?
            && Find(c.movies, MovieKey, line.movieId).Some?
            && Find(c.characters, CharacterKey, line.characterId).Some?
            && view.conversationId == line.conversationId
            && view.movie == Find(c.movies, MovieKey, line.movieId).value.title
            && view.character == Find(c.characters, CharacterKey, line.characterId).value.name
            && view.text == line.text
            && var conv := Find(c.conversations, ConversationKey, line.conversationId).value;
               && Find(c.characters, CharacterKey, Recipient(conv, line.characterId)).Some?
               && view.recipient == Find(c.characters, CharacterKey, Recipient(conv, line.characterId)).value.name
  {
  }

  /** A stored line's lookup fails with a server error exactly when one of
      the records it refers to is missing. */
  lemma LineViewCrash(c: Corpus, lineId: string)
    requires Find(c.lines, LineKey, lineId).Some?
    ensures var line := Find(c.lines, LineKey, lineId).value;
            var conv := Find(c.conversations, ConversationKey, line.conversationId);
            LineView(c, lineId) == Err(InternalError) <==>
            || conv.None?
            || Find(c.movies, MovieKey, line.movieId).None?
            || Find(c.characters, CharacterKey, line.characterId).None?
            || Find(c.characters, CharacterKey, Recipient(conv.value, line.characterId)).None?
  {
  }

  // ---------------------------------------------------------------------
  // GET /lines/

  datatype LineSort = ByCharacter | ByMovieTitle | ByConversation

  /** The default sort option. */
  const DefaultLineSort := ByMovieTitle

  /** A row of the listing; `conversationId` is the value the
      `conversation` sort key reads from the stored line. */
  datatype LineRow = LineRow(lineId: string, movieTitle: string, character: string, text: string,
                             conversationId: string)

  /** The test of the loop: the upper-cased text contains the upper-cased
      text filter, and then the speaker's stored name contains the
      upper-cased name filter. */
  predicate Matches(l: Line, speaker: Character, text: string, name: string) {
    Contains(Upper(l.text), Upper(text)) && Contains(speaker.name, Upper(name))
  }

  /** One pass of the loop over the lines: the speaker is looked up only
      once the text filter passes, and the lookups of a missing speaker or
      movie raise. */
  function LineStep(c: Corpus, text: string, name: string): Line -> Step<LineRow> {
    (l: Line) =>
      if !Contains(Upper(l.text), Upper(text)) then Skip
      else match Find(c.characters, CharacterKey, l.characterId)
        case None => Crash
        case Some(speaker) =>
          if !Contains(speaker.name, Upper(name)) then Skip
          else match Find(c.movies, MovieKey, l.movieId)
            case None => Crash
            case Some(movie) => Keep(LineRow(l.id, movie.title, speaker.name, l.text, l.conversationId))
  }

  /** The rows before sorting, in table order. */
  function LineRows(c: Corpus, text: string, name: string): Option<seq<LineRow>> {
    Collect(c.lines, LineStep(c, text, name))
  }

  function RowConversation(r: LineRow): string {
    r.conversationId
  }

  function RowMovie(r: LineRow): string {
    r.movieTitle
  }

  function RowCharacter(r: LineRow): string {
    r.character
  }

  /** The key of each sort option; the conversation ids are compared as
      strings. */
  function SortKey(sort: LineSort): LineRow -> string {
    match sort
    case ByConversation => RowConversation
    case ByMovieTitle => RowMovie
    case ByCharacter => RowCharacter
  }

  /** The three `sorted` calls. */
  function SortLines(rows: seq<LineRow>, sort: LineSort): (r: seq<LineRow>)
    ensures multiset(r) == multiset(rows)
  {
    SortBy(rows, SortKey(sort), StrLess)
  }

  /** Sorting orders the rows by the chosen key, ties in table order. */
  lemma SortLinesOrdered(rows: seq<LineRow>, sort: LineSort)
    ensures SortedBy(SortLines(rows, sort), SortKey(sort), StrLess)
    ensures StableFor(SortLines(rows, sort), rows, SortKey(sort))
  {
    StrLessIsStrictOrder();
    SortBySorted(rows, SortKey(sort), StrLess);
    SortByStable(rows, SortKey(sort), StrLess);
  }

  /** What `lines(text, name, limit, offset, sort)` answers for a snapshot
      of the store. */
  function LineListing(c: Corpus, text: string, name: string, limit: int, offset: int, sort: LineSort)
    : (r: Result<seq<LineRow>>)
    ensures r.Err? <==> LineRows(c, text, name).None?
    ensures r.Err? ==> r.error == InternalError
  {
    match LineRows(c, text, name)
    case None => Err(InternalError)
    case Some(rows) => Ok(Slice(SortLines(rows, sort), offset, offset + limit))
  }

  /** Every row is a stored line that passes both filters, shown with its
      movie's title and its speaker's stored name. */
  lemma ListedLine(c: Corpus, text: string, name: string, j: nat)
    requires LineRows(c, text, name).Some? && j < |LineRows(c, text, name).value|
    ensures var row := LineRows(c, text, name).value[j];
            exists l :: l in c.lines
                        && Find(c.characters, CharacterKey, l.characterId).Some?
                        && Find(c.movies, MovieKey, l.movieId).Some?
                        && Matches(l, Find(c.characters, CharacterKey, l.characterId).value, text, name)
                        && row == LineRow(l.id, Find(c.movies, MovieKey, l.movieId).value.title,
                                          Find(c.characters, CharacterKey, l.characterId).value.name,
                                          l.text, l.conversationId)
  {
    CollectRowFrom(c.lines, LineStep(c, text, name), j);
  }

  /** Every stored line that passes both filters is listed. */
  lemma MatchListed(c: Corpus, text: string, name: string, l: Line)
    requires LineRows(c, text, name).Some? && l in c.lines
    requires Find(c.characters, CharacterKey, l.characterId).Some?
    requires Matches(l, Find(c.characters, CharacterKey, l.characterId).value, text, name)
    ensures exists j :: 0 <= j < |LineRows(c, text, name).value| && LineRows(c, text, name).value[j].lineId == l.id
  {
    var step := LineStep(c, text, name);
    CollectCrash(c.lines, step);
    var i :| 0 <= i < |c.lines| && c.lines[i] == l;
    CollectHasRow(c.lines, step, l);
  }

  /** The listing fails exactly when a line that passes the text filter has
      no stored speaker, or one that passes both filters has no stored
      movie. */
  lemma LineRowsCrash(c: Corpus, text: string, name: string)
    ensures LineRows(c, text, name).None? <==>
            exists l :: l in c.lines && Contains(Upper(l.text), Upper(text))
                        && (|| Find(c.characters, CharacterKey, l.characterId).None?
                            || (&& Contains(Find(c.characters, CharacterKey, l.characterId).value.name, Upper(name))
                                && Find(c.movies, MovieKey, l.movieId).None?))
  {
    var step := LineStep(c, text, name);
    CollectCrash(c.lines, step);
    if l :| l in c.lines && Contains(Upper(l.text), Upper(text))
            && (|| Find(c.characters, CharacterKey, l.characterId).None?
                || (&& Contains(Find(c.characters, CharacterKey, l.characterId).value.name, Upper(name))
                    && Find(c.movies, MovieKey, l.movieId).None?)) {
      var i :| 0 <= i < |c.lines| && c.lines[i] == l;
      assert step(c.lines[i]).Crash?;
    }
  }

  /** Empty filters pass over no line. */
  lemma EmptyFiltersSkipNone(c: Corpus, l: Line)
    ensures !LineStep(c, "", "")(l).Skip?
  {
    assert Upper("") == "";
    ContainsEmpty(Upper(l.text));
    if Find(c.characters, CharacterKey, l.characterId).Some? {
      ContainsEmpty(Find(c.characters, CharacterKey, l.characterId).value.name);
    }
  }

  /** With both filters empty every line is listed, in table order before
      the sort. */
  lemma EmptyFiltersListAll(c: Corpus)
    requires LineRows(c, "", "").Some?
    ensures |LineRows(c, "", "").value| == |c.lines|
    ensures forall j :: 0 <= j < |c.lines| ==> LineRows(c, "", "").value[j].lineId == c.lines[j].id
  {
    var step := LineStep(c, "", "");
    CollectCrash(c.lines, step);
    forall i | 0 <= i < |c.lines| ensures step(c.lines[i]).Keep? {
      EmptyFiltersSkipNone(c, c.lines[i]);
    }
    FilterAll(c.lines, IsKept(step));
    CollectSpec(c.lines, step);
  }

  /** The answer is the page `[offset, offset + limit)` of the sorted rows:
      in the order of the chosen key, ties in table order, no row gained or
      lost by sorting, at most `limit` of them, and none once `offset`
      passes the end. */
  lemma LineListingPage(c: Corpus, text: string, name: string, limit: int, offset: int, sort: LineSort)
    requires LineRows(c, text, name).Some? && offset >= 0 && limit >= 0
    ensures var rows := LineRows(c, text, name).value;
            var sorted := SortLines(rows, sort);
            var page := LineListing(c, text, name, limit, offset, sort).value;
            && SortedBy(sorted, SortKey(sort), StrLess)
            && StableFor(sorted, rows, SortKey(sort))
            && multiset(sorted) == multiset(rows)
            && page == sorted[Min(offset, |sorted|)..Min(offset + limit, |sorted|)]
            && |page| <= limit
            && (offset >= |rows| ==> page == [])
  {
    var rows := LineRows(c, text, name).value;
    var sorted := SortLines(rows, sort);
    SortLinesOrdered(rows, sort);
    assert |sorted| == |multiset(sorted)| == |multiset(rows)| == |rows|;
    SliceWindow(sorted, offset, limit);
  }

  /** The call with every default (no filters, `limit=50`, `offset=0`,
      sorted by movie title), when it does not raise, answers the first 50
      rows in title order, out of one row per stored line. */
  lemma DefaultLineListing(c: Corpus)
    requires LineRows(c, "", "").Some?
    ensures var sorted := SortLines(LineRows(c, "", "").value, DefaultLineSort);
            && SortedBy(sorted, RowMovie, StrLess)
            && |sorted| == |c.lines|
            && (forall i :: 0 <= i < |c.lines| ==> exists j :: 0 <= j < |sorted| && sorted[j].lineId == c.lines[i].id)
            && LineListing(c, "", "", DefaultLimit, DefaultOffset, DefaultLineSort).value
               == sorted[..Min(DefaultLimit, |c.lines|)]
  {
    var rows := LineRows(c, "", "").value;
    var sorted := SortLines(rows, DefaultLineSort);
    EmptyFiltersListAll(c);
    LineListingPage(c, "", "", DefaultLimit, DefaultOffset, DefaultLineSort);
    forall i | 0 <= i < |c.lines| ensures exists j :: 0 <= j < |sorted| && sorted[j].lineId == c.lines[i].id {
      assert rows[i] in multiset(sorted);
      var j :| 0 <= j < |sorted| && sorted[j] == rows[i];
    }
  }

  /** `lines`: the filtering loop, the sort, and the slice. */
  method ListLines(db: Database, text: string, name: string, limit: int, offset: int, sort: LineSort)
    returns (r: Result<seq<LineRow>>)
    ensures r == LineListing(db.Snapshot(), text, name, limit, offset, sort)
  {
    ghost var c := db.Snapshot();
    var rows: seq<LineRow> := [];
    for i := 0 to |db.lines|
      invariant Collect(db.lines[..i], LineStep(c, text, name)) == Some(rows)
    {
      var line := db.lines[i];
      CollectSnoc(db.lines, LineStep(c, text, name), i);
      if Contains(Upper(line.text), Upper(text)) {
        var speaker := Find(db.characters, CharacterKey, line.characterId);
        if speaker.None? {
          assert LineStep(c, text, name)(db.lines[i]).Crash?;
          CollectCrash(db.lines, LineStep(c, text, name));
          return Err(InternalError);
        }
        if Contains(speaker.value.name, Upper(name)) {
          var movie := Find(db.movies, MovieKey, line.movieId);
          if movie.None? {
            assert LineStep(c, text, name)(db.lines[i]).Crash?;
            CollectCrash(db.lines, LineStep(c, text, name));
            return Err(InternalError);
          }
          rows := rows + [LineRow(line.id, movie.value.title, speaker.value.name, line.text, line.conversationId)];
        }
      }
    }
    assert db.lines[..|db.lines|] == db.lines;
    var sorted := SortLines(rows, sort);
    return Ok(Slice(sorted, offset, offset + limit));
  }
}
