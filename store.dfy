/** The corpus store: four tables of records, each a Python dict from id to
    record whose iteration order is insertion order, so each is modelled as
    the sequence of its records in that order. */
module Store {
  import opened Outcomes
  import opened Sequences
  import opened Numerals

  datatype Movie = Movie(id: string, title: string, year: string, rating: int, votes: int)
  datatype Character = Character(id: string, name: string, movieId: string, gender: string)
  datatype Conversation = Conversation(id: string, character1: string, character2: string, movieId: string)
  datatype Line = Line(id: string, characterId: string, movieId: string, conversationId: string,
                       lineSort: int, text: string)

  /** A snapshot of the four tables. */
  datatype Corpus = Corpus(movies: seq<Movie>, characters: seq<Character>,
                           conversations: seq<Conversation>, lines: seq<Line>)

  function MovieKey(m: Movie): string { m.id }
  function CharacterKey(c: Character): string { c.id }
  function ConversationKey(c: Conversation): string { c.id }
  function LineKey(l: Line): string { l.id }

  /** `d.get(id)` on a table: the record filed under `id`, if any. */
  function Find<T>(table: seq<T>, key: T -> string, id: string): (r: Option<T>)
    ensures r.None? <==> forall i :: 0 <= i < |table| ==> key(table[i]) != id
    ensures r.Some? ==> r.value in table && key(r.value) == id
  {
    if table == [] then None
    else if key(table[0]) == id then Some(table[0])
    else Find(table[1..], key, id)
  }

  /** With unique keys, the record at any position is the one found under
      its key. */
  lemma {:induction false} FindUnique<T>(table: seq<T>, key: T -> string, i: nat)
    requires DistinctBy(table, key) && i < |table|
    ensures Find(table, key, key(table[i])) == Some(table[i])
  {
    if i > 0 {
      FindUnique(table[1..], key, i - 1);
    }
  }

  /** `d[key(x)] = x`: overwrites the record filed under that key where it
      stands, or appends `x` when the key is new. */
  function Put<T>(table: seq<T>, key: T -> string, x: T): seq<T> {
    if table == [] then [x]
    else if key(table[0]) == key(x) then [x] + table[1..]
    else [table[0]] + Put(table[1..], key, x)
  }

  /** A new key goes at the end. */
  lemma {:induction false} PutAppends<T>(table: seq<T>, key: T -> string, x: T)
    requires forall i :: 0 <= i < |table| ==> key(table[i]) != key(x)
    ensures Put(table, key, x) == table + [x]
  {
    if table != [] {
      PutAppends(table[1..], key, x);
      assert table == [table[0]] + table[1..];
    }
  }

  /** A key already filed keeps its place: the record at its first
      position is replaced and nothing else moves. */
  lemma {:induction false} PutReplaces<T>(table: seq<T>, key: T -> string, x: T, i: nat)
    requires i < |table| && key(table[i]) == key(x)
    requires forall k :: 0 <= k < i ==> key(table[k]) != key(x)
    ensures Put(table, key, x) == table[i := x]
  {
    if i > 0 {
      PutReplaces(table[1..], key, x, i - 1);
      assert table[i := x] == [table[0]] + table[1..][i - 1 := x];
    }
  }

  /** The ids of a table the writer allocates from: digit strings whose
      numeric values rise strictly in table order. */
  ghost predicate IdsAscending<T>(table: seq<T>, key: T -> string) {
    && (forall i :: 0 <= i < |table| ==> IsDigits(key(table[i])))
    && (forall i, j :: 0 <= i < j < |table| ==> ParseDecimal(key(table[i])) < ParseDecimal(key(table[j])))
  }

  /** `int(list(d)[-1]) + 1`: one more than the id of the last record. */
  function NextId<T>(table: seq<T>, key: T -> string): nat
    requires |table| > 0 && IsDigits(key(table[|table| - 1]))
  {
    ParseDecimal(key(table[|table| - 1])) + 1
  }

  /** In an ascending table the last id is the largest, so the next id is
      one more than the maximum and above every stored id. */
  lemma NextIdAboveAll<T>(table: seq<T>, key: T -> string)
    requires IdsAscending(table, key) && |table| > 0
    ensures forall i :: 0 <= i < |table| ==> ParseDecimal(key(table[i])) < NextId(table, key)
    ensures exists i :: 0 <= i < |table| && ParseDecimal(key(table[i])) + 1 == NextId(table, key)
  {
    var last := |table| - 1;
    assert ParseDecimal(key(table[last])) + 1 == NextId(table, key);
  }

  /** A number above every stored id names no stored record. */
  lemma FreshId<T>(table: seq<T>, key: T -> string, n: nat)
    requires IdsAscending(table, key)
    requires forall i :: 0 <= i < |table| ==> ParseDecimal(key(table[i])) < n
    ensures forall i :: 0 <= i < |table| ==> key(table[i]) != ToDecimal(n)
  {
    ToDecimalParses(n);
  }

  lemma AscendingAppend<T>(table: seq<T>, key: T -> string, x: T)
    requires IdsAscending(table, key) && IsDigits(key(x))
    requires forall i :: 0 <= i < |table| ==> ParseDecimal(key(table[i])) < ParseDecimal(key(x))
    ensures IdsAscending(table + [x], key)
  {
  }

  /** Two ascending tables, every id of the first below every id of the
      second, make an ascending table. */
  lemma AscendingConcat<T>(t: seq<T>, u: seq<T>, key: T -> string)
    requires IdsAscending(t, key) && IdsAscending(u, key)
    requires forall i, j :: 0 <= i < |t| && 0 <= j < |u| ==> ParseDecimal(key(t[i])) < ParseDecimal(key(u[j]))
    ensures IdsAscending(t + u, key)
  {
    forall i, j | 0 <= i < j < |t + u|
      ensures ParseDecimal(key((t + u)[i])) < ParseDecimal(key((t + u)[j]))
    {
      if j >= |t| {
        assert (t + u)[j] == u[j - |t|];
        if i >= |t| {
          assert (t + u)[i] == u[i - |t|];
        }
      }
    }
  }

  function SpokenBy(characterId: string): Line -> bool {
    (l: Line) => l.characterId == characterId
  }

  function InConversation(conversationId: string): Line -> bool {
    (l: Line) => l.conversationId == conversationId
  }

  /** The number of lines a character speaks. */
  function SpeakerCount(lines: seq<Line>, characterId: string): nat {
    Count(lines, SpokenBy(characterId))
  }

  /** The number of lines of a conversation, whoever speaks them. */
  function ConversationLineCount(lines: seq<Line>, conversationId: string): nat {
    Count(lines, InConversation(conversationId))
  }

  /** The tables' invariants: dict keys are unique, the tables the writer
      allocates from have ascending numeric ids, and every line belongs to a
      stored conversation. */
  ghost predicate WellFormed(c: Corpus) {
    && DistinctBy(c.movies, MovieKey)
    && DistinctBy(c.characters, CharacterKey)
    && IdsAscending(c.conversations, ConversationKey)
    && IdsAscending(c.lines, LineKey)
    && forall i :: 0 <= i < |c.lines| ==>
         Find(c.conversations, ConversationKey, c.lines[i].conversationId).Some?
  }

  /** The character filed under `characterId` is stored and belongs to the
      movie. */
  ghost predicate InCast(c: Corpus, characterId: string, movieId: string) {
    && Find(c.characters, CharacterKey, characterId).Some?
    && Find(c.characters, CharacterKey, characterId).value.movieId == movieId
  }

  /** What a line means: it is filed under a stored conversation, in that
      conversation's movie, spoken by one of its two participants, and both
      participants are characters of that movie. */
  ghost predicate LineCoherent(c: Corpus, l: Line) {
    match Find(c.conversations, ConversationKey, l.conversationId)
    case None => false
    case Some(conv) =>
      && l.movieId == conv.movieId
      && (l.characterId == conv.character1 || l.characterId == conv.character2)
      && InCast(c, conv.character1, conv.movieId)
      && InCast(c, conv.character2, conv.movieId)
  }

  /** Every line of the corpus means what it should. */
  ghost predicate Coherent(c: Corpus) {
    forall i :: 0 <= i < |c.lines| ==> LineCoherent(c, c.lines[i])
  }

  /** Appending records does not change what an id already on file finds. */
  lemma {:induction false} FindExtended<T>(table: seq<T>, extra: seq<T>, key: T -> string, id: string)
    requires Find(table, key, id).Some?
    ensures Find(table + extra, key, id) == Find(table, key, id)
  {
    if key(table[0]) != id {
      assert (table + extra)[1..] == table[1..] + extra;
      FindExtended(table[1..], extra, key, id);
    }
  }

  /** A counter's entry (a missing key counts 0). */
  function Tally(counts: map<string, nat>, k: string): nat {
    if k in counts then counts[k] else 0
  }

  /** `counts[k] += 1`. */
  function Bump(counts: map<string, nat>, k: string): (r: map<string, nat>)
    ensures Tally(r, k) == Tally(counts, k) + 1
    ensures forall k' :: k' != k ==> Tally(r, k') == Tally(counts, k')
  {
    counts[k := Tally(counts, k) + 1]
  }

  /** The per-character counter holds each character's line count. */
  ghost predicate CountsAgree(counts: map<string, nat>, lines: seq<Line>) {
    forall k :: Tally(counts, k) == SpeakerCount(lines, k)
  }

  /** Counting the speaker of one more line keeps the counter in step. */
  lemma BumpAgrees(counts: map<string, nat>, lines: seq<Line>, l: Line)
    requires CountsAgree(counts, lines)
    ensures CountsAgree(Bump(counts, l.characterId), lines + [l])
  {
    forall k ensures Tally(Bump(counts, l.characterId), k) == SpeakerCount(lines + [l], k) {
      CountAppend(lines, [l], SpokenBy(k));
      assert Filter([l], SpokenBy(k)) == if l.characterId == k then [l] else [];
    }
  }

  /** The store the endpoints share: the four tables and the per-character
      line counter kept beside them. */
  class Database {
    var movies: seq<Movie>
    var characters: seq<Character>
    var conversations: seq<Conversation>
    var lines: seq<Line>
    var lineCounts: map<string, nat>

    function Snapshot(): Corpus
      reads this
    {
      Corpus(movies, characters, conversations, lines)
    }

    ghost predicate Valid()
      reads this
    {
      WellFormed(Snapshot()) && Coherent(Snapshot()) && CountsAgree(lineCounts, lines)
    }

    /** Loads the four tables and counts each character's lines. */
    constructor Load(c: Corpus)
      requires WellFormed(c) && Coherent(c)
      ensures Valid() && Snapshot() == c
    {
      var counts: map<string, nat> := map[];
      for i := 0 to |c.lines|
        invariant CountsAgree(counts, c.lines[..i])
      {
        assert c.lines[..i + 1] == c.lines[..i] + [c.lines[i]];
        BumpAgrees(counts, c.lines[..i], c.lines[i]);
        counts := Bump(counts, c.lines[i].characterId);
      }
      assert c.lines[..|c.lines|] == c.lines;
      movies, characters, conversations, lines := c.movies, c.characters, c.conversations, c.lines;
      lineCounts := counts;
    }
  }
}
