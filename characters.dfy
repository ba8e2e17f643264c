/** src/api/characters.py: one character with the characters it talks to
    most, and the filtered, sorted, paginated character listing. */
module Characters {
  import opened Outcomes
  import opened Sequences
  import opened Text
  import opened Sorting
  import opened Store
  import opened Grouping

  // ---------------------------------------------------------------------
  // GET /characters/{id}

  /** An entry of `top_conversations`. */
  datatype PartnerRow = PartnerRow(characterId: string, character: string, gender: Option<string>,
                                   linesTogether: int)
  datatype CharacterDetail = CharacterDetail(characterId: string, character: string, movie: string,
                                             gender: Option<string>, topConversations: seq<PartnerRow>)

  /** A stored gender, with the empty string reported as no gender. */
  function Gender(g: string): (r: Option<string>)
    ensures r.None? <==> g == ""
    ensures r.Some? ==> r.value == g
  {
    if g != "" then Some(g) else None
  }

  /** The other participant of a conversation `id` takes part in, checked
      as `character1` first; nothing for a conversation without `id`. */
  function PartnerOf(id: string): Conversation -> Option<string> {
    (conv: Conversation) =>
      if conv.character1 == id then Some(conv.character2)
      else if conv.character2 == id then Some(conv.character1)
      else None
  }

  /** The number of lines of a conversation. */
  function ConversationSize(lines: seq<Line>): Conversation -> int {
    (conv: Conversation) => ConversationLineCount(lines, conv.id)
  }

  /** The conversations `id` has with `partner`, in table order. */
  function Shared(c: Corpus, id: string, partner: string): seq<Conversation> {
    Filter(c.conversations, HasKey(PartnerOf(id), partner))
  }

  /** The partners of `id`, in the order their first shared conversation
      turns up. */
  function Partners(c: Corpus, id: string): seq<string> {
    Dedup(Keys(c.conversations, PartnerOf(id)))
  }

  /** The lines of all the conversations `id` has with `partner`. */
  function LinesTogether(c: Corpus, id: string, partner: string): int {
    GroupTotal(c.conversations, PartnerOf(id), ConversationSize(c.lines))(partner)
  }

  /** One pass of the loop over the partners: the lookup of a partner that
      is not a stored character raises. */
  function PartnerStep(c: Corpus, id: string): string -> Step<PartnerRow> {
    (partner: string) =>
      match Find(c.characters, CharacterKey, partner)
      case None => Crash
      case Some(ch) => Keep(PartnerRow(partner, ch.name, Gender(ch.gender), LinesTogether(c, id, partner)))
  }

  /** The partner rows before sorting. */
  function PartnerRows(c: Corpus, id: string): Option<seq<PartnerRow>> {
    Collect(Partners(c, id), PartnerStep(c, id))
  }

  function LinesKey(r: PartnerRow): int {
    r.linesTogether
  }

  /** What `get_character(id)` answers for a snapshot of the store. */
  function CharacterView(c: Corpus, id: string): (r: Result<CharacterDetail>)
    ensures r == Err(NotFound) <==> Find(c.characters, CharacterKey, id).None?
    ensures r.Ok? ==> r.value.characterId == id
  {
    match Find(c.characters, CharacterKey, id)
    case None => Err(NotFound)
    case Some(ch) =>
      match PartnerRows(c, id)
      case None => Err(InternalError)
      case Some(rows) =>
        match Find(c.movies, MovieKey, ch.movieId)
        case None => Err(InternalError)
        case Some(movie) =>
          Ok(CharacterDetail(id, ch.name, movie.title, Gender(ch.gender), SortBy(rows, LinesKey, Greater)))
  }

  /** Without a raise, there is one row per partner, in discovery order,
      carrying the partner's stored name and normalised gender and the
      lines of the conversations shared with it. */
  lemma PartnerRowsSpec(c: Corpus, id: string)
    requires PartnerRows(c, id).Some?
    ensures var rows, partners := PartnerRows(c, id).value, Partners(c, id);
            && |rows| == |partners|
            && forall j :: 0 <= j < |rows| ==>
                 && Find(c.characters, CharacterKey, partners[j]).Some?
                 && rows[j] == PartnerRow(partners[j], Find(c.characters, CharacterKey, partners[j]).value.name,
                                          Gender(Find(c.characters, CharacterKey, partners[j]).value.gender),
                                          LinesTogether(c, id, partners[j]))
  {
    var step := PartnerStep(c, id);
    var partners := Partners(c, id);
    CollectSpec(partners, step);
    FilterAll(partners, IsKept(step));
  }

  /** Without a raise, the rows carry the partners' ids in discovery
      order. */
  lemma PartnerRowIds(c: Corpus, id: string)
    requires PartnerRows(c, id).Some?
    ensures |PartnerRows(c, id).value| == |Partners(c, id)|
    ensures forall j :: 0 <= j < |Partners(c, id)| ==> PartnerRows(c, id).value[j].characterId == Partners(c, id)[j]
  {
    PartnerRowsSpec(c, id);
  }

  /** The character's own fields: its stored name, its movie's title, and
      its gender with the empty string reported as none. */
  lemma CharacterFields(c: Corpus, id: string)
    requires CharacterView(c, id).Ok?
    ensures var ch := Find(c.characters, CharacterKey, id).value;
            var view := CharacterView(c, id).value;
            && view.character == ch.name
            && Find(c.movies, MovieKey, ch.movieId).Some?
            && view.movie == Find(c.movies, MovieKey, ch.movieId).value.title
            && (view.gender.None? <==> ch.gender == "")
            && (view.gender.Some? ==> view.gender.value == ch.gender)
  {
  }

  /** A character is a partner exactly when it is the other participant
      of some stored conversation. */
  lemma PartnersIff(c: Corpus, id: string, p: string)
    ensures p in Partners(c, id) <==> exists conv :: conv in c.conversations && PartnerOf(id)(conv) == Some(p)
  {
    KeysMembers(c.conversations, PartnerOf(id), p);
  }

  /** The loop over the partners raises exactly when some conversation of
      the character has a partner that is not a stored character. */
  lemma PartnerRowsCrash(c: Corpus, id: string)
    ensures PartnerRows(c, id).None? <==>
            exists conv :: conv in c.conversations && PartnerOf(id)(conv).Some?
                           && Find(c.characters, CharacterKey, PartnerOf(id)(conv).value).None?
  {
    var step := PartnerStep(c, id);
    var partners := Partners(c, id);
    CollectCrash(partners, step);
    if i :| 0 <= i < |partners| && step(partners[i]).Crash? {
      PartnersIff(c, id, partners[i]);
    }
    if conv :| conv in c.conversations && PartnerOf(id)(conv).Some?
               && Find(c.characters, CharacterKey, PartnerOf(id)(conv).value).None? {
      var p := PartnerOf(id)(conv).value;
      PartnersIff(c, id, p);
      var i :| 0 <= i < |partners| && partners[i] == p;
      assert step(partners[i]).Crash?;
    }
  }

  /** A stored character's lookup fails with a server error exactly when
      some partner is not a stored character or the character's movie is
      not stored. */
  lemma CharacterViewCrash(c: Corpus, id: string)
    requires Find(c.characters, CharacterKey, id).Some?
    ensures CharacterView(c, id) == Err(InternalError) <==>
            || (exists conv :: conv in c.conversations && PartnerOf(id)(conv).Some?
                               && Find(c.characters, CharacterKey, PartnerOf(id)(conv).value).None?)
            || Find(c.movies, MovieKey, Find(c.characters, CharacterKey, id).value.movieId).None?
  {
    PartnerRowsCrash(c, id);
  }

  /** Each conversation the character takes part in is counted for a
      listed partner, the other participant. */
  lemma PartnerListed(c: Corpus, id: string, conv: Conversation)
    requires CharacterView(c, id).Ok?
    requires conv in c.conversations && PartnerOf(id)(conv).Some?
    ensures var top := CharacterView(c, id).value.topConversations;
            exists j :: 0 <= j < |top| && top[j].characterId == PartnerOf(id)(conv).value
  {
    var rows := PartnerRows(c, id).value;
    var partners := Partners(c, id);
    var top := CharacterView(c, id).value.topConversations;
    PartnerRowIds(c, id);
    var p := PartnerOf(id)(conv).value;
    PartnersIff(c, id, p);
    var i :| 0 <= i < |partners| && partners[i] == p;
    assert rows[i] in multiset(top);
    var j :| 0 <= j < |top| && top[j] == rows[i];
  }

  /** A partner is listed only when it shares a stored conversation with
      the character. */
  lemma PartnerFromConversation(c: Corpus, id: string, j: nat)
    requires CharacterView(c, id).Ok? && j < |CharacterView(c, id).value.topConversations|
    ensures var p := CharacterView(c, id).value.topConversations[j].characterId;
            exists conv :: conv in c.conversations && PartnerOf(id)(conv) == Some(p)
  {
    var rows := PartnerRows(c, id).value;
    var top := CharacterView(c, id).value.topConversations;
    PartnerRowIds(c, id);
    assert top[j] in multiset(rows);
    var i :| 0 <= i < |rows| && rows[i] == top[j];
    PartnersIff(c, id, Partners(c, id)[i]);
  }

  /** When every conversation of the character is between two different
      characters, the character is never its own partner. */
  lemma PartnerNotSelf(c: Corpus, id: string, j: nat)
    requires CharacterView(c, id).Ok? && j < |CharacterView(c, id).value.topConversations|
    requires forall conv :: conv in c.conversations && PartnerOf(id)(conv).Some? ==> conv.character1 != conv.character2
    ensures CharacterView(c, id).value.topConversations[j].characterId != id
  {
    PartnerFromConversation(c, id, j);
  }

  /** No partner is listed twice. */
  lemma PartnersDistinct(c: Corpus, id: string)
    requires CharacterView(c, id).Ok?
    ensures DistinctBy(CharacterView(c, id).value.topConversations, (r: PartnerRow) => r.characterId)
  {
    var rows := PartnerRows(c, id).value;
    PartnerRowIds(c, id);
    SortByDistinct(rows, LinesKey, Greater, (r: PartnerRow) => r.characterId);
  }

  /** `number_of_lines_together` is the number of lines of the
      conversations shared with that partner. */
  lemma LinesTogetherSummed(c: Corpus, id: string)
    requires CharacterView(c, id).Ok?
    ensures var top := CharacterView(c, id).value.topConversations;
            forall j :: 0 <= j < |top| ==>
              top[j].linesTogether == SumBy(Shared(c, id, top[j].characterId), ConversationSize(c.lines))
  {
    var rows := PartnerRows(c, id).value;
    var top := CharacterView(c, id).value.topConversations;
    PartnerRowsSpec(c, id);
    forall j | 0 <= j < |top|
      ensures top[j].linesTogether == SumBy(Shared(c, id, top[j].characterId), ConversationSize(c.lines))
    {
      assert top[j] in multiset(rows);
    }
  }

  /** Over all partners the counts add up to the lines of every
      conversation the character takes part in: none is counted twice or
      missed. */
  lemma LinesTogetherTotal(c: Corpus, id: string)
    requires CharacterView(c, id).Ok?
    ensures SumBy(CharacterView(c, id).value.topConversations, LinesKey) ==
            SumBy(Filter(c.conversations, Keyed(PartnerOf(id))), ConversationSize(c.lines))
  {
    var rows := PartnerRows(c, id).value;
    var partners := Partners(c, id);
    PartnerRowsSpec(c, id);
    SortBySum(rows, LinesKey, Greater, LinesKey);
    SumByPointwise(rows, partners, LinesKey, GroupTotal(c.conversations, PartnerOf(id), ConversationSize(c.lines)));
    GroupSum(c.conversations, PartnerOf(id), ConversationSize(c.lines));
  }

  /** The partners are listed by lines together, most first, partners with
      equal counts in the order they were discovered. */
  lemma TopConversationsOrdered(c: Corpus, id: string)
    requires CharacterView(c, id).Ok?
    ensures var top := CharacterView(c, id).value.topConversations;
            && SortedBy(top, LinesKey, Greater)
            && StableFor(top, PartnerRows(c, id).value, LinesKey)
            && multiset(top) == multiset(PartnerRows(c, id).value)
  {
    GreaterIsStrictOrder();
    SortBySorted(PartnerRows(c, id).value, LinesKey, Greater);
    SortByStable(PartnerRows(c, id).value, LinesKey, Greater);
  }

  /** A character in no conversation has an empty list, not an error. */
  lemma NoConversationsNoPartners(c: Corpus, id: string)
    requires Find(c.characters, CharacterKey, id).Some?
    requires Find(c.movies, MovieKey, Find(c.characters, CharacterKey, id).value.movieId).Some?
    requires forall conv :: conv in c.conversations ==> conv.character1 != id && conv.character2 != id
    ensures CharacterView(c, id).Ok? && CharacterView(c, id).value.topConversations == []
  {
    var keys := Keys(c.conversations, PartnerOf(id));
    if keys != [] {
      KeysMembers(c.conversations, PartnerOf(id), keys[0]);
    }
  }

  /** The first loop of `get_character`: each conversation the character
      takes part in is appended to the list kept under the other
      participant. */
  method GroupByPartner(db: Database, id: string) returns (partners: seq<string>, groups: map<string, seq<Conversation>>)
    ensures (partners, groups) == OrderedGroups(db.conversations, PartnerOf(id))
  {
    partners, groups := [], map[];
    for i := 0 to |db.conversations|
      invariant (partners, groups) == OrderedGroups(db.conversations[..i], PartnerOf(id))
    {
      var conv := db.conversations[i];
      assert db.conversations[..i + 1][..i] == db.conversations[..i];
      var recipient;
      if conv.character1 == id {
        recipient := conv.character2;
      } else if conv.character2 == id {
        recipient := conv.character1;
      } else {
        continue;
      }
      if recipient !in groups {
        groups := groups[recipient := [conv]];
        partners := partners + [recipient];
      } else {
        groups := groups[recipient := groups[recipient] + [conv]];
      }
    }
    assert db.conversations[..|db.conversations|] == db.conversations;
  }

  /** The inner loop: the lines of a partner's conversations, added up. */
  method CountLines(db: Database, group: seq<Conversation>) returns (count: int)
    ensures count == SumBy(group, ConversationSize(db.lines))
  {
    count := 0;
    for j := 0 to |group|
      invariant count == SumBy(group[..j], ConversationSize(db.lines))
    {
      assert group[..j + 1][..j] == group[..j];
      count := count + ConversationLineCount(db.lines, group[j].id);
    }
    assert group[..|group|] == group;
  }

  /** The dict of the first loop holds, under each partner, the
      conversations shared with it. */
  lemma GroupedByPartner(c: Corpus, id: string, partners: seq<string>, groups: map<string, seq<Conversation>>)
    requires (partners, groups) == OrderedGroups(c.conversations, PartnerOf(id))
    ensures partners == Partners(c, id)
    ensures forall k :: 0 <= k < |partners| ==> partners[k] in groups && groups[partners[k]] == Shared(c, id, partners[k])
  {
    OrderedGroupsSpec(c.conversations, PartnerOf(id));
  }

  /** The second loop: one row per partner, in discovery order. */
  method CollectPartners(db: Database, id: string, partners: seq<string>, groups: map<string, seq<Conversation>>)
    returns (rows: Option<seq<PartnerRow>>)
    requires (partners, groups) == OrderedGroups(db.conversations, PartnerOf(id))
    ensures rows == PartnerRows(db.Snapshot(), id)
  {
    ghost var c := db.Snapshot();
    GroupedByPartner(c, id, partners, groups);
    var collected: seq<PartnerRow> := [];
    for k := 0 to |partners|
      invariant Collect(partners[..k], PartnerStep(c, id)) == Some(collected)
    {
      var recipientId := partners[k];
      CollectSnoc(partners, PartnerStep(c, id), k);
      var recipient := Find(db.characters, CharacterKey, recipientId);
      if recipient.None? {
        CollectCrash(partners, PartnerStep(c, id));
        return None;
      }
      var recipientGender: Option<string> := None;
      if recipient.value.gender != "" {
        recipientGender := Some(recipient.value.gender);
      }
      var count := CountLines(db, groups[recipientId]);
      collected := collected + [PartnerRow(recipientId, recipient.value.name, recipientGender, count)];
    }
    assert partners[..|partners|] == partners;
    return Some(collected);
  }

  /** `get_character`: the character lookup, the two loops, the sort, and
      the movie lookup. */
  method GetCharacter(db: Database, id: string) returns (r: Result<CharacterDetail>)
    ensures r == CharacterView(db.Snapshot(), id)
  {
    var character := Find(db.characters, CharacterKey, id);
    if character.None? {
      return Err(NotFound);
    }
    var gender: Option<string> := None;
    if character.value.gender != "" {
      gender := Some(character.value.gender);
    }
    var partners, groups := GroupByPartner(db, id);
    var rows := CollectPartners(db, id, partners, groups);
    if rows.None? {
      return Err(InternalError);
    }
    var top := SortBy(rows.value, LinesKey, Greater);
    var movie := Find(db.movies, MovieKey, character.value.movieId);
    if movie.None? {
      return Err(InternalError);
    }
    return Ok(CharacterDetail(id, character.value.name, movie.value.title, gender, top));
  }

  // ---------------------------------------------------------------------
  // GET /characters/

  datatype CharacterSort = ByCharacter | ByMovie | ByNumberOfLines

  /** The default sort option. */
  const DefaultCharacterSort := ByCharacter

  datatype CharacterRow = CharacterRow(characterId: string, character: string, movie: string,
                                       numberOfLines: int)

  /** Every line is counted for its speaker. */
  function Speaker(l: Line): Option<string> {
    Some(l.characterId)
  }

  /** The `line_counts` dict the first loop of `list_characters` builds. */
  function SpeakerTally(lines: seq<Line>): map<string, nat> {
    OrderedTally(lines, Speaker).1
  }

  /** The dict has an entry exactly for the characters that speak a line,
      and the entry is the number of lines they speak. */
  lemma SpeakerTallySpec(lines: seq<Line>, k: string)
    ensures k in SpeakerTally(lines) <==> SpeakerCount(lines, k) > 0
    ensures k in SpeakerTally(lines) ==> SpeakerTally(lines)[k] == SpeakerCount(lines, k)
  {
    forall x | x in lines ensures HasKey(Speaker, k)(x) == SpokenBy(k)(x) {
      assert HasKey(Speaker, k)(x) == (Speaker(x) == Some(k));
      assert Speaker(x) == Some(x.characterId);
    }
    FilterCongruent(lines, HasKey(Speaker, k), SpokenBy(k));
    OrderedTallySpec(lines, Speaker);
    KeysHaveRecords(lines, Speaker, k);
  }

  /** One pass of the loop over the characters: a name without the
      upper-cased filter is passed over; the movie lookup and the count
      lookup of a character without lines raise. */
  function ListStep(c: Corpus, counts: map<string, nat>, name: string): Character -> Step<CharacterRow> {
    (ch: Character) =>
      if !Contains(ch.name, Upper(name)) then Skip
      else match Find(c.movies, MovieKey, ch.movieId)
        case None => Crash
        case Some(movie) =>
          if ch.id in counts then Keep(CharacterRow(ch.id, ch.name, movie.title, counts[ch.id])) else Crash
  }

  /** The rows before sorting, in table order. */
  function CharacterRows(c: Corpus, name: string): Option<seq<CharacterRow>> {
    Collect(c.characters, ListStep(c, SpeakerTally(c.lines), name))
  }

  function RowName(r: CharacterRow): string {
    r.character
  }

  function RowMovie(r: CharacterRow): string {
    r.movie
  }

  function RowLines(r: CharacterRow): int {
    r.numberOfLines
  }

  /** The three `sorted` calls: by name, by movie title, or by number of
      lines with `reverse=True`. */
  function SortCharacters(rows: seq<CharacterRow>, sort: CharacterSort): (r: seq<CharacterRow>)
    ensures multiset(r) == multiset(rows)
  {
    match sort
    case ByCharacter => SortBy(rows, RowName, StrLess)
    case ByMovie => SortBy(rows, RowMovie, StrLess)
    case ByNumberOfLines => SortBy(rows, RowLines, Greater)
  }

  /** `sorted` rows are in the order of the chosen key, ties as they
      were. */
  ghost predicate CharactersOrdered(sorted: seq<CharacterRow>, rows: seq<CharacterRow>, sort: CharacterSort) {
    match sort
    case ByCharacter => SortedBy(sorted, RowName, StrLess) && StableFor(sorted, rows, RowName)
    case ByMovie => SortedBy(sorted, RowMovie, StrLess) && StableFor(sorted, rows, RowMovie)
    case ByNumberOfLines => SortedBy(sorted, RowLines, Greater) && StableFor(sorted, rows, RowLines)
  }

  lemma SortCharactersOrdered(rows: seq<CharacterRow>, sort: CharacterSort)
    ensures CharactersOrdered(SortCharacters(rows, sort), rows, sort)
  {
    StrLessIsStrictOrder();
    GreaterIsStrictOrder();
    match sort
    case ByCharacter =>
      SortBySorted(rows, RowName, StrLess);
      SortByStable(rows, RowName, StrLess);
    case ByMovie =>
      SortBySorted(rows, RowMovie, StrLess);
      SortByStable(rows, RowMovie, StrLess);
    case ByNumberOfLines =>
      SortBySorted(rows, RowLines, Greater);
      SortByStable(rows, RowLines, Greater);
  }

  /** What `list_characters(name, limit, offset, sort)` answers for a
      snapshot of the store. */
  function CharacterListing(c: Corpus, name: string, limit: int, offset: int, sort: CharacterSort)
    : (r: Result<seq<CharacterRow>>)
    ensures r.Err? <==> CharacterRows(c, name).None?
    ensures r.Err? ==> r.error == InternalError
  {
    match CharacterRows(c, name)
    case None => Err(InternalError)
    case Some(rows) => Ok(Slice(SortCharacters(rows, sort), offset, offset + limit))
  }

  /** Every row is a stored character whose name contains the upper-cased
      filter, with its movie's title and the number of lines it speaks,
      which is at least one. */
  lemma ListedCharacter(c: Corpus, name: string, j: nat)
    requires CharacterRows(c, name).Some? && j < |CharacterRows(c, name).value|
    ensures var row := CharacterRows(c, name).value[j];
            exists ch :: ch in c.characters && Contains(ch.name, Upper(name))
                         && Find(c.movies, MovieKey, ch.movieId).Some?
                         && row == CharacterRow(ch.id, ch.name, Find(c.movies, MovieKey, ch.movieId).value.title,
                                                SpeakerCount(c.lines, ch.id))
                         && SpeakerCount(c.lines, ch.id) >= 1
  {
    CollectRowFrom(c.characters, ListStep(c, SpeakerTally(c.lines), name), j);
    var ch :| ch in c.characters && ListStep(c, SpeakerTally(c.lines), name)(ch) == Keep(CharacterRows(c, name).value[j]);
    SpeakerTallySpec(c.lines, ch.id);
  }

  /** Every stored character whose name contains the upper-cased filter is
      listed. */
  lemma MatchListed(c: Corpus, name: string, ch: Character)
    requires CharacterRows(c, name).Some?
    requires ch in c.characters && Contains(ch.name, Upper(name))
    ensures exists j :: 0 <= j < |CharacterRows(c, name).value| && CharacterRows(c, name).value[j].characterId == ch.id
  {
    var step := ListStep(c, SpeakerTally(c.lines), name);
    CollectCrash(c.characters, step);
    var i :| 0 <= i < |c.characters| && c.characters[i] == ch;
    CollectHasRow(c.characters, step, ch);
  }

  /** The listing fails exactly when a character that passes the filter has
      no stored movie or speaks no line. */
  lemma CharacterRowsCrash(c: Corpus, name: string)
    ensures CharacterRows(c, name).None? <==>
            exists ch :: ch in c.characters && Contains(ch.name, Upper(name))
                         && (Find(c.movies, MovieKey, ch.movieId).None? || SpeakerCount(c.lines, ch.id) == 0)
  {
    var step := ListStep(c, SpeakerTally(c.lines), name);
    CollectCrash(c.characters, step);
    if i :| 0 <= i < |c.characters| && step(c.characters[i]).Crash? {
      SpeakerTallySpec(c.lines, c.characters[i].id);
    }
    if ch :| ch in c.characters && Contains(ch.name, Upper(name))
             && (Find(c.movies, MovieKey, ch.movieId).None? || SpeakerCount(c.lines, ch.id) == 0) {
      SpeakerTallySpec(c.lines, ch.id);
      var i :| 0 <= i < |c.characters| && c.characters[i] == ch;
      assert step(c.characters[i]).Crash?;
    }
  }

  /** An empty filter lists every character, in table order before the
      sort. */
  lemma EmptyFilterListsAll(c: Corpus)
    requires CharacterRows(c, "").Some?
    ensures |CharacterRows(c, "").value| == |c.characters|
    ensures forall j :: 0 <= j < |c.characters| ==> CharacterRows(c, "").value[j].characterId == c.characters[j].id
  {
    var step := ListStep(c, SpeakerTally(c.lines), "");
    CollectSpec(c.characters, step);
    assert Upper("") == "";
    forall i | 0 <= i < |c.characters| ensures step(c.characters[i]).Keep? {
      ContainsEmpty(c.characters[i].name);
    }
    FilterAll(c.characters, IsKept(step));
  }

  /** The answer is the page `[offset, offset + limit)` of the sorted rows:
      the rows in the order of the chosen key, ties in table order, no row
      gained or lost by sorting, at most `limit` of them, and none once
      `offset` passes the end. */
  lemma CharacterListingPage(c: Corpus, name: string, limit: int, offset: int, sort: CharacterSort)
    requires CharacterRows(c, name).Some? && offset >= 0 && limit >= 0
    ensures var rows := CharacterRows(c, name).value;
            var sorted := SortCharacters(rows, sort);
            var page := CharacterListing(c, name, limit, offset, sort).value;
            && CharactersOrdered(sorted, rows, sort)
            && multiset(sorted) == multiset(rows)
            && page == sorted[Min(offset, |sorted|)..Min(offset + limit, |sorted|)]
            && |page| <= limit
            && (offset >= |rows| ==> page == [])
  {
    var rows := CharacterRows(c, name).value;
    var sorted := SortCharacters(rows, sort);
    SortCharactersOrdered(rows, sort);
    assert |sorted| == |multiset(sorted)| == |multiset(rows)| == |rows|;
    SliceWindow(sorted, offset, limit);
  }

  /** The call with every default (`name=""`, `limit=50`, `offset=0`,
      sorted by name), when it does not raise, answers the first 50 rows in
      name order, out of one row per stored character. */
  lemma DefaultCharacterListing(c: Corpus)
    requires CharacterRows(c, "").Some?
    ensures var sorted := SortCharacters(CharacterRows(c, "").value, DefaultCharacterSort);
            && SortedBy(sorted, RowName, StrLess)
            && |sorted| == |c.characters|
            && (forall i :: 0 <= i < |c.characters| ==> exists j :: 0 <= j < |sorted| && sorted[j].characterId == c.characters[i].id)
            && CharacterListing(c, "", DefaultLimit, DefaultOffset, DefaultCharacterSort).value
               == sorted[..Min(DefaultLimit, |c.characters|)]
  {
    var rows := CharacterRows(c, "").value;
    var sorted := SortCharacters(rows, DefaultCharacterSort);
    EmptyFilterListsAll(c);
    CharacterListingPage(c, "", DefaultLimit, DefaultOffset, DefaultCharacterSort);
    forall i | 0 <= i < |c.characters| ensures exists j :: 0 <= j < |sorted| && sorted[j].characterId == c.characters[i].id {
      assert rows[i] in multiset(sorted);
      var j :| 0 <= j < |sorted| && sorted[j] == rows[i];
    }
  }

  /** The first loop of `list_characters`: one count per speaker, set to 1
      on its first line and raised by 1 on each later one. */
  method TallySpeakers(db: Database) returns (counts: map<string, nat>)
    ensures counts == SpeakerTally(db.lines)
  {
    counts := map[];
    for i := 0 to |db.lines|
      invariant counts == OrderedTally(db.lines[..i], Speaker).1
    {
      var speaker := db.lines[i].characterId;
      assert db.lines[..i + 1][..i] == db.lines[..i];
      if speaker !in counts {
        counts := counts[speaker := 1];
      } else {
        counts := counts[speaker := counts[speaker] + 1];
      }
    }
    assert db.lines[..|db.lines|] == db.lines;
  }

  /** `list_characters`: the count, the filtering loop, the sort, and the
      slice. */
  method ListCharacters(db: Database, name: string, limit: int, offset: int, sort: CharacterSort)
    returns (r: Result<seq<CharacterRow>>)
    ensures r == CharacterListing(db.Snapshot(), name, limit, offset, sort)
  {
    ghost var c := db.Snapshot();
    var counts := TallySpeakers(db);
    var rows: seq<CharacterRow> := [];
    for i := 0 to |db.characters|
      invariant Collect(db.characters[..i], ListStep(c, counts, name)) == Some(rows)
    {
      var ch := db.characters[i];
      CollectSnoc(db.characters, ListStep(c, counts, name), i);
      if Contains(ch.name, Upper(name)) {
        var movie := Find(db.movies, MovieKey, ch.movieId);
        if movie.None? || ch.id !in counts {
          assert ListStep(c, counts, name)(db.characters[i]).Crash?;
          CollectCrash(db.characters, ListStep(c, counts, name));
          return Err(InternalError);
        }
        rows := rows + [CharacterRow(ch.id, ch.name, movie.value.title, counts[ch.id])];
      }
    }
    assert db.characters[..|db.characters|] == db.characters;
    var sorted := SortCharacters(rows, sort);
    return Ok(Slice(sorted, offset, offset + limit));
  }
}
