// When a whole second pass is a no-op, updated_at included, and when it is not.

module Rerun {
  import opened Ordering
  import opened Domain
  import opened Merge
  import opened Series
  import opened SeriesProofs
  import opened Catalogue
  import opened CatalogueProofs
  import opened Reload
  import opened History
  import opened Confluence

  type Names = map<SeriesKey, SeriesName>

  /**
   * Sources spell a series consistently: one display name for each key, and the same one for a
   * series a source has named as for the inferred series it folds in.
   */
  predicate Spells(names: Names, x: Mention) {
    && x.key in names && names[x.key] == x.said.name
    && (forall k :: k in names && x.Absorbs(k) ==> names[k] == x.said.name)
  }

  predicate RowsSpelled(names: Names, s: Shelf) {
    forall k :: k in s.series ==> k in names && s.series[k].name == names[k]
  }

  function SaidIn(ms: seq<Mention>): set<SeriesName> {
    set x | x in ms :: x.said.name
  }

  // ----- shelving adds the names said, and takes none away

  lemma UpsertRowNames(names: Names, s: Shelf, p: Mention, c: BookId)
    requires PlacesHaveRows(s) && RowsSpelled(names, s) && Spells(names, p)
    ensures var t := UpsertRow(s, p);
      PlacesHaveRows(t) && RowsSpelled(names, t) && NamesOn(t, c) == NamesOn(s, c) && p.key in t.series
  {
    var t := UpsertRow(s, p);
    forall l | l in s.places ensures s.series[l.series].name == t.series[l.series].name {
      assert l.series in s.series;
    }
  }

  lemma AbsorbNames(names: Names, s: Shelf, p: Mention, c: BookId)
    requires PlacesHaveRows(s) && RowsSpelled(names, s) && Spells(names, p)
    requires p.key.FromSource? && p.key in s.series
    ensures var t := Absorb(s, p.key, p.said.normalised);
      PlacesHaveRows(t) && RowsSpelled(names, t) && NamesOn(t, c) == NamesOn(s, c) && p.key in t.series
  {
    var inferred := Named(p.said.normalised);
    var t := Absorb(s, p.key, p.said.normalised);
    if inferred in s.series {
      assert p.Absorbs(inferred);
      forall n | n in NamesOn(s, c) ensures n in NamesOn(t, c) {
        var l :| l in s.places && l.book == c && l.series in s.series && s.series[l.series].name == n;
        var m := if l.series == inferred then Link(c, p.key) else l;
        assert m in t.places && t.series[m.series].name == n;
      }
      forall n | n in NamesOn(t, c) ensures n in NamesOn(s, c) {
        var l :| l in t.places && l.book == c && l.series in t.series && t.series[l.series].name == n;
        if l !in s.places {
          assert Link(c, inferred) in s.places;
        }
      }
    }
  }

  lemma LinkNames(names: Names, s: Shelf, b: BookId, p: Mention, c: BookId)
    requires PlacesHaveRows(s) && RowsSpelled(names, s) && Spells(names, p) && p.key in s.series
    ensures var t := LinkBook(s, b, p);
      && PlacesHaveRows(t) && RowsSpelled(names, t)
      && NamesOn(t, c) == NamesOn(s, c) + if c == b then {p.said.name} else {}
  {
    var t := LinkBook(s, b, p);
    forall n | n in NamesOn(s, c) ensures n in NamesOn(t, c) {
      var l :| l in s.places && l.book == c && l.series in s.series && s.series[l.series].name == n;
      assert l in t.places;
    }
    if c == b {
      assert Link(b, p.key) in t.places;
    }
  }

  lemma ShelveOneNames(names: Names, s: Shelf, b: BookId, p: Mention, c: BookId)
    requires PlacesHaveRows(s) && RowsSpelled(names, s) && Spells(names, p)
    ensures var t := ShelveOne(s, b, p);
      && PlacesHaveRows(t) && RowsSpelled(names, t)
      && NamesOn(t, c) == NamesOn(s, c) + if c == b then {p.said.name} else {}
  {
    hide UpsertRow, Absorb, LinkBook, NamesOn, RowsSpelled, PlacesHaveRows, Spells;
    UpsertRowNames(names, s, p, c);
    var u := UpsertRow(s, p);
    if p.key.FromSource? {
      AbsorbNames(names, u, p, c);
    }
    LinkNames(names, UpsertSeries(s, p), b, p, c);
  }

  lemma {:induction false} ShelveNames(names: Names, s: Shelf, b: BookId, ps: seq<Mention>, c: BookId)
    requires PlacesHaveRows(s) && RowsSpelled(names, s)
    requires forall p :: p in ps ==> Spells(names, p)
    ensures var t := Shelve(s, b, ps);
      && PlacesHaveRows(t) && RowsSpelled(names, t)
      && NamesOn(t, c) == NamesOn(s, c) + if c == b then SaidIn(ps) else {}
  {
    hide ShelveOne, NamesOn, RowsSpelled, PlacesHaveRows, Spells;
    if ps != [] {
      var init, p := ps[..|ps|-1], ps[|ps|-1];
      assert ps == init + [p];
      assert SaidIn(ps) == SaidIn(init) + {p.said.name};
      ShelveNames(names, s, b, init, c);
      ShelveOneNames(names, Shelve(s, b, init), b, p, c);
    }
  }

  /** One pick a series says all that was said of it. */
  lemma PicksSayEverything(names: Names, ms: seq<Mention>)
    requires forall x :: x in ms ==> Spells(names, x)
    ensures SaidIn(Best(ms)) == SaidIn(ms)
    ensures forall p :: p in Best(ms) ==> Spells(names, p)
  {
    BestIsOnePerSeries(ms);
    forall n | n in SaidIn(ms) ensures n in SaidIn(Best(ms)) {
      var x :| x in ms && x.said.name == n;
      var p :| p in Best(ms) && p.key == x.key;
    }
  }

  /** Attaching a book's series leaves it under the names said of it, and every other book as it was. */
  lemma SyncNames(names: Names, s: Shelf, b: BookId, known: set<Key>, ms: seq<Mention>, c: BookId)
    requires PlacesHaveRows(s) && RowsSpelled(names, s)
    requires forall x :: x in ms ==> Spells(names, x)
    requires Sync(s, b, known, ms).Done?
    ensures var t := Sync(s, b, known, ms).value;
      RowsSpelled(names, t) && NamesOn(t, c) == NamesOn(s, c) + if c == b then SaidIn(ms) else {}
  {
    hide Shelve, Best, Attribute, Spells;
    PicksSayEverything(names, ms);
    ShelveNames(names, s, b, Best(ms), c);
    AttributeKeepsRows(Shelve(s, b, Best(ms)), b, known, ms);
  }

  // ----- what a catalogue of consistently spelled records keeps

  predicate SpellsAll(names: Names, c: CleanBook) {
    forall x :: x in MentionsOf(c) ==> Spells(names, x)
  }

  predicate SpelledPayload(names: Names, k: Key, p: Payload) {
    Replay(k.source, p).Some? ==> SpellsAll(names, Replay(k.source, p).value)
  }

  /** A book is on the series its provenance names, and is searched by exactly those names. */
  ghost predicate Told(t: Tables, b: BookId)
    requires b in t.books
  {
    && NamesOn(t.shelf, b) == SaidIn(Mentions(Candidates(t.sources, b)))
    && t.books[b].seriesText == Projection(NamesOn(t.shelf, b))
  }

  ghost predicate Telling(names: Names, t: Tables) {
    && (forall k :: k in t.sources ==> SpelledPayload(names, k, t.sources[k].payload))
    && RowsSpelled(names, t.shelf)
    && (forall b :: b in t.books ==> Told(t, b))
  }

  lemma {:induction false} MentionsAre(cs: seq<CleanBook>, x: Mention)
    ensures x in Mentions(cs) <==> exists c :: c in cs && x in MentionsOf(c)
  {
    if cs != [] {
      MentionsAre(cs[1..], x);
      assert forall c :: c in cs <==> c == cs[0] || c in cs[1..];
    }
  }

  lemma CandidatesSpell(names: Names, sources: map<Key, SourceRow>, b: BookId)
    requires forall k :: k in sources ==> SpelledPayload(names, k, sources[k].payload)
    ensures forall x :: x in Mentions(Candidates(sources, b)) ==> Spells(names, x)
  {
    KeyIsTotalOrder();
    forall x | x in Mentions(Candidates(sources, b)) ensures Spells(names, x) {
      MentionsAre(Candidates(sources, b), x);
      var c :| c in Candidates(sources, b) && x in MentionsOf(c);
      var k :| k in Arrange(AttachedTo(sources, b), KeyLe) && Replay(k.source, sources[k].payload) == Some(c);
      assert SpellsAll(names, c);
    }
  }

  /** More provenance names no fewer series. */
  lemma SaidGrows(s: map<Key, SourceRow>, u: map<Key, SourceRow>, b: BookId)
    requires AttachedTo(s, b) <= AttachedTo(u, b)
    requires forall k :: k in AttachedTo(s, b) ==> s[k].payload == u[k].payload
    ensures SaidIn(Mentions(Candidates(s, b))) <= SaidIn(Mentions(Candidates(u, b)))
  {
    KeyIsTotalOrder();
    forall x | x in Mentions(Candidates(s, b)) ensures x in Mentions(Candidates(u, b)) {
      MentionsAre(Candidates(s, b), x);
      MentionsAre(Candidates(u, b), x);
      var c :| c in Candidates(s, b) && x in MentionsOf(c);
      var k :| k in Arrange(AttachedTo(s, b), KeyLe) && Replay(k.source, s[k].payload) == Some(c);
      assert k in Arrange(AttachedTo(u, b), KeyLe);
      assert c in Candidates(u, b);
    }
  }

  // ----- a record with a new key

  ghost predicate SpelledRecord(names: Names, r: Record) {
    SpelledPayload(names, r.Key(), r.payload)
  }

  /** What a load leaves, seen from the series tables it found. */
  ghost predicate Shelved(t: Tables, mid: Tables, u: Tables, b: BookId) {
    && b in mid.books && b in u.books
    && mid.shelf == t.shelf
    && Settled(mid, u, b) && FreshlySynced(mid.shelf, u, b)
  }

  lemma NewKeyShelves(t: Tables, r: Record)
    requires Inv(t) && Mapped(r) && r.Key() !in t.sources
    ensures LoadOne(t, r).Ok?
    ensures Shelved(t, Filed(t, r), LoadOne(t, r).value.tables, FindHome(t, r).book)
    ensures FiledNew(t, r, FindHome(t, r), Filed(t, r))
    ensures PlacesHaveRows(t.shelf)
  {
    LoadOneRuns(t, r);
    LoadOneSettles(t, r);
    FiledIsRecomputable(t, r);
    ReadySyncsFreshly(Filed(t, r), FindHome(t, r).book);
    FilingNew(t, r);
    SoundPlaces(t);
  }

  lemma OffTheShelf(t: Tables, b: BookId)
    requires Sound(t) && b !in t.books
    ensures NamesOn(t.shelf, b) == {} && AttachedTo(t.sources, b) == {}
  {
  }

  lemma OtherBookTold(names: Names, t: Tables, r: Record, h: Home, mid: Tables, u: Tables, c: BookId)
    requires FiledNew(t, r, h, mid) && Shelved(t, mid, u, h.book) && r.Key() !in t.sources
    requires c in u.books && c != h.book && c in t.books && Told(t, c)
    requires NamesOn(u.shelf, c) == NamesOn(t.shelf, c)
    ensures Told(u, c)
  {
    hide Synced, Sync, Projection;
    assert AttachedTo(u.sources, c) == AttachedTo(t.sources, c);
    CandidatesFrame(t.sources, c, u.sources, c);
  }

  lemma OwnBookTold(t: Tables, r: Record, h: Home, mid: Tables, u: Tables)
    requires FiledNew(t, r, h, mid) && Shelved(t, mid, u, h.book) && r.Key() !in t.sources
    requires h.book in t.books ==> Told(t, h.book)
    requires h.book !in t.books ==> NamesOn(t.shelf, h.book) == {}
    requires NamesOn(u.shelf, h.book) == NamesOn(t.shelf, h.book) + SaidIn(Mentions(Candidates(u.sources, h.book)))
    ensures Told(u, h.book)
  {
    hide Synced, Sync, Projection, Candidates, Mentions, NamesOn;
    if h.book in t.books {
      SaidGrows(t.sources, u.sources, h.book);
    }
  }

  lemma NewKeyTells(names: Names, t: Tables, r: Record)
    requires Inv(t) && Telling(names, t) && Mapped(r) && SpelledRecord(names, r) && r.Key() !in t.sources
    ensures LoadOne(t, r).Ok? && Telling(names, LoadOne(t, r).value.tables)
  {
    NewKeyShelves(t, r);
    SoundParts(t);
    NewKeyToldFrom(names, t, r, FindHome(t, r), Filed(t, r), LoadOne(t, r).value.tables);
  }

  lemma NewKeyToldFrom(names: Names, t: Tables, r: Record, h: Home, mid: Tables, u: Tables)
    requires Sound(t) && Telling(names, t) && SpelledRecord(names, r) && r.Key() !in t.sources
    requires PlacesHaveRows(t.shelf)
    requires FiledNew(t, r, h, mid) && Shelved(t, mid, u, h.book)
    ensures Telling(names, u)
  {
    hide Synced, Sync, Projection, Sound, Told, SpelledPayload, Candidates;
    var ms := Mentions(Candidates(u.sources, h.book));
    CandidatesSpell(names, u.sources, h.book);
    SyncNames(names, t.shelf, h.book, u.sources.Keys, ms, h.book);
    forall c | c in u.books ensures Told(u, c) {
      SyncNames(names, t.shelf, h.book, u.sources.Keys, ms, c);
      if c == h.book {
        if c !in t.books {
          OffTheShelf(t, c);
        }
        OwnBookTold(t, r, h, mid, u);
      } else {
        OtherBookTold(names, t, r, h, mid, u, c);
      }
    }
  }

  // ----- a record already there

  lemma ReloadTells(names: Names, t: Tables, r: Record)
    requires Inv(t) && Telling(names, t) && Mapped(r) && Homed(t, r)
    ensures LoadOne(t, r).Ok?
    ensures var u := LoadOne(t, r).value.tables;
      u == t.(shelf := u.shelf) && Telling(names, u)
    ensures LoadOne(t, r).value.counts == UNCHANGED
  {
    ReloadMovesOnlySeries(t, r);
    SoundParts(t);
    SoundPlaces(t);
    ReloadToldFrom(names, t, LoadOne(t, r).value.tables, BookOf(t, r));
  }

  lemma ReloadToldFrom(names: Names, t: Tables, u: Tables, b: BookId)
    requires Telling(names, t) && PlacesHaveRows(t.shelf) && OnlySeriesMoved(t, u, b)
    ensures u == t.(shelf := u.shelf) && Telling(names, u)
  {
    hide Sync, Projection, SpelledPayload, Candidates;
    var ms := Mentions(Candidates(t.sources, b));
    CandidatesSpell(names, t.sources, b);
    assert Told(t, b);
    SyncNames(names, t.shelf, b, t.sources.Keys, ms, b);
    assert NamesOn(u.shelf, b) == NamesOn(t.shelf, b);
    assert t.books[b := t.books[b]] == t.books;
    forall c | c in u.books ensures Told(u, c) {
      assert Told(t, c);
      SyncNames(names, t.shelf, b, t.sources.Keys, ms, c);
    }
  }

  // ----- whole passes

  ghost predicate AllSpelled(names: Names, rs: seq<Record>) {
    forall r :: r in rs ==> SpelledRecord(names, r)
  }

  lemma {:induction false} FirstPassTells(names: Names, t: Tables, rs: seq<Record>)
    requires Inv(t) && Telling(names, t) && AllRecordsMapped(rs) && Fresh(t, rs) && AllSpelled(names, rs)
    ensures LoadAll(t, rs).Ok? && Inv(LoadAll(t, rs).value.tables) && Telling(names, LoadAll(t, rs).value.tables)
  {
    SoundParts(t);
    hide LoadOne, Telling, Inv, Sound, Mapped, SpelledRecord;
    if rs == [] {
      NothingLoaded(t);
    } else {
      var init, r := rs[..|rs|-1], rs[|rs|-1];
      assert rs == init + [r];
      KeysOfPrefix(rs);
      FirstPassTells(names, t, init);
      var a := LoadAll(t, init).value;
      SoundParts(a.tables);
      LoadAllConserves(t, init);
      StillNew(t, init, r, a);
      LoadAllStep(t, init, r);
      LoadOneKeepsEverything(a.tables, r);
      NewKeyTells(names, a.tables, r);
    }
  }

  /** What a pass over records already there may leave: the series tables aside, nothing moved. */
  ghost predicate Untouched(names: Names, t: Tables, done: Loaded, n: nat) {
    && Inv(done.tables) && Telling(names, done.tables)
    && done.tables == t.(shelf := done.tables.shelf)
    && done.counts == Counts(0, 0, n, n, 0)
  }

  lemma HomedStill(t: Tables, u: Tables, r: Record)
    requires u == t.(shelf := u.shelf) && Homed(t, r)
    ensures Homed(u, r)
  {
  }

  lemma ReloadLeaves(names: Names, t: Tables, before: Loaded, n: nat, r: Record)
    requires Sound(before.tables) && Untouched(names, t, before, n) && Homed(t, r) && Mapped(r)
    ensures Then(before, r).Ok? && Untouched(names, t, Then(before, r).value, n + 1)
  {
    UntouchedParts(names, t, before, n);
    hide *;
    HomedStill(t, before.tables, r);
    SoundParts(before.tables);
    ReloadTells(names, before.tables, r);
    LoadOneKeepsEverything(before.tables, r);
    OneMoreUntouched(before.counts, n);
    ThenTouchesNothing(names, t, before, n, r);
  }

  lemma ThenTouchesNothing(names: Names, t: Tables, before: Loaded, n: nat, r: Record)
    requires References(before.tables) && Sound(before.tables) && LoadOne(before.tables, r).Ok?
    requires before.tables == t.(shelf := before.tables.shelf)
    requires before.counts.Plus(UNCHANGED) == Counts(0, 0, n + 1, n + 1, 0)
    requires var last := LoadOne(before.tables, r).value;
      && last.tables == before.tables.(shelf := last.tables.shelf) && last.counts == UNCHANGED
      && Inv(last.tables) && Telling(names, last.tables)
    ensures Then(before, r).Ok? && Untouched(names, t, Then(before, r).value, n + 1)
  {
    hide LoadOne, Telling, Inv, Sound, References;
  }

  lemma NothingTouched(names: Names, t: Tables)
    requires Inv(t) && Telling(names, t)
    ensures Untouched(names, t, Loaded(t, ZERO), 0)
  {
    hide Inv, Telling;
  }

  lemma SecondPassStep(names: Names, t: Tables, init: seq<Record>, r: Record)
    requires Sound(t) && LoadAll(t, init).Ok? && Untouched(names, t, LoadAll(t, init).value, |init|)
    requires Homed(t, r) && Mapped(r)
    ensures LoadAll(t, init + [r]).Ok? && Untouched(names, t, LoadAll(t, init + [r]).value, |init| + 1)
  {
    hide *;
    LoadAllStep(t, init, r);
    ReloadLeaves(names, t, LoadAll(t, init).value, |init|, r);
  }

  lemma {:induction false} SecondPassLeaves(names: Names, t: Tables, rs: seq<Record>)
    requires Inv(t) && Telling(names, t) && AllRecordsMapped(rs) && AllHomed(t, rs)
    ensures LoadAll(t, rs).Ok? && Untouched(names, t, LoadAll(t, rs).value, |rs|)
  {
    SoundParts(t);
    hide *;
    if rs == [] {
      NothingLoaded(t);
      NothingTouched(names, t);
    } else {
      PrefixIsHomed(t, rs);
      SecondPassLeaves(names, t, rs[..|rs|-1]);
      SecondPassStep(names, t, rs[..|rs|-1], rs[|rs|-1]);
    }
  }

  lemma EmptyTells(names: Names)
    ensures Inv(EMPTY_TABLES) && Telling(names, EMPTY_TABLES)
  {
  }

  lemma AnythingIsFresh(rs: seq<Record>)
    requires DistinctKeys(rs)
    ensures Fresh(EMPTY_TABLES, rs)
  {
  }

  lemma UntouchedParts(names: Names, t: Tables, done: Loaded, n: nat)
    requires Untouched(names, t, done, n)
    ensures done.tables == t.(shelf := done.tables.shelf) && done.counts == Counts(0, 0, n, n, 0)
    ensures Inv(done.tables) && Telling(names, done.tables)
  {
    hide Inv, Telling;
  }

  /**
   * Run the same records twice into an empty catalogue. When sources spell series consistently,
   * the second run is a no-op: every table but the series ones is exactly as the first run left
   * it, every book's updated_at included.
   */
  lemma SecondRunIsANoOp(names: Names, rs: seq<Record>)
    requires AllRecordsMapped(rs) && DistinctKeys(rs) && AllSpelled(names, rs)
    ensures Sound(EMPTY_TABLES) && LoadAll(EMPTY_TABLES, rs).Ok?
    ensures var once := LoadAll(EMPTY_TABLES, rs).value.tables; var again := LoadAll(once, rs);
      && again.Ok?
      && again.value.tables == once.(shelf := again.value.tables.shelf)
      && again.value.counts == Counts(0, 0, |rs|, |rs|, 0)
  {
    EmptyTells(names);
    AnythingIsFresh(rs);
    SoundParts(EMPTY_TABLES);
    hide *;
    FirstPassTells(names, EMPTY_TABLES, rs);
    NewKeysGather(EMPTY_TABLES, rs);
    var once := LoadAll(EMPTY_TABLES, rs).value.tables;
    SoundParts(once);
    GatheredIsHomed(EMPTY_TABLES, rs, once);
    SecondPassLeaves(names, once, rs);
    UntouchedParts(names, once, LoadAll(once, rs).value, |rs|);
  }

  // ----- a whole second pass, exactly

  /** Time only moves on, and a row whose updated_at did not move is as it was. */
  ghost predicate Aged(t: Tables, u: Tables) {
    && u.books.Keys == t.books.Keys
    && forall b :: b in t.books ==>
         && t.books[b].touched <= u.books[b].touched
         && (u.books[b].touched == t.books[b].touched ==> u.books[b] == t.books[b])
  }

  /** The series tables once each record's book has had its series attached, one after the other. */
  function ShelfAfter(t: Tables, rs: seq<Record>): Shelf {
    if rs == [] then t.shelf else
      var before, r := ShelfAfter(t, rs[..|rs|-1]), rs[|rs|-1];
      if r.Key() !in t.sources then before else
        var b := t.sources[r.Key()].book;
        match Sync(before, b, t.sources.Keys, Mentions(Candidates(t.sources, b)))
        case Done(shelf) => shelf
        case ForeignKeyViolation => before
  }

  /** The stored text of a record's book is that of the series it is on once its turn has come. */
  predicate TextStands(t: Tables, shelf: Shelf, r: Record) {
    && r.Key() in t.sources && t.sources[r.Key()].book in t.books
    && t.books[t.sources[r.Key()].book].seriesText == Projection(NamesOn(shelf, t.sources[r.Key()].book))
  }

  predicate EveryTextStands(t: Tables, rs: seq<Record>) {
    rs == [] || (EveryTextStands(t, rs[..|rs|-1]) && TextStands(t, ShelfAfter(t, rs), rs[|rs|-1]))
  }

  lemma ReloadAges(t: Tables, r: Record)
    requires Inv(t) && Mapped(r) && Homed(t, r)
    ensures References(t) && LoadOne(t, r).Ok? && r.Key() in t.sources
    ensures var u := LoadOne(t, r).value.tables;
      && OnlySeriesMoved(t, u, BookOf(t, r)) && Aged(t, u)
      && (u.books == t.books <==> TextStands(t, u.shelf, r))
  {
    hide *;
    SoundParts(t);
    HomedIsStored(t, r);
    ReloadMovesOnlySeries(t, r);
    OnlySeriesAges(t, LoadOne(t, r).value.tables, r);
  }

  lemma HomedIsStored(t: Tables, r: Record)
    requires Homed(t, r)
    ensures r.Key() in t.sources
  {
  }

  lemma OnlySeriesAges(t: Tables, u: Tables, r: Record)
    requires r.Key() in t.sources && OnlySeriesMoved(t, u, BookOf(t, r))
    ensures Aged(t, u) && (u.books == t.books <==> TextStands(t, u.shelf, r))
  {
    hide Sync, Projection, NamesOn;
    var b := BookOf(t, r);
    if TextStands(t, u.shelf, r) {
      assert t.books[b := t.books[b]] == t.books;
    } else {
      assert u.books[b] != t.books[b];
    }
  }

  lemma AgedStep(t: Tables, s: Tables, u: Tables)
    requires Aged(t, s) && Aged(s, u)
    ensures Aged(t, u)
    ensures u.books == t.books <==> s.books == t.books && u.books == s.books
  {
    if u.books == t.books {
      forall b | b in t.books ensures s.books[b] == t.books[b] {
        assert t.books[b].touched <= s.books[b].touched <= u.books[b].touched;
      }
      assert s.books == t.books;
    }
  }

  lemma NothingAges(t: Tables)
    ensures Aged(t, t) && EveryTextStands(t, []) && ShelfAfter(t, []) == t.shelf
  {
  }

  lemma ShelfStep(t: Tables, init: seq<Record>, s: Tables, r: Record, u: Tables)
    requires SameCatalogue(t, s) && s.shelf == ShelfAfter(t, init)
    requires r.Key() in s.sources && OnlySeriesMoved(s, u, BookOf(s, r))
    ensures u.shelf == ShelfAfter(t, init + [r])
    ensures s.books == t.books ==> (TextStands(s, u.shelf, r) <==> TextStands(t, u.shelf, r))
    ensures EveryTextStands(t, init + [r]) <==> EveryTextStands(t, init) && TextStands(t, u.shelf, r)
  {
    hide Sync, Projection, NamesOn, Candidates, Mentions;
    assert (init + [r])[..|init|] == init;
  }

  /**
   * A pass over records a catalogue already holds leaves every book, updated_at included, as it
   * was exactly when, attaching the stored series of each record's book in turn to the series
   * tables as they stand, each finds its book's stored text to be that of the series it is on.
   */
  lemma {:induction false} PassMovesNoBookExactlyWhen(t: Tables, rs: seq<Record>)
    requires Inv(t) && AllRecordsMapped(rs) && AllHomed(t, rs)
    ensures Sound(t) && LoadAll(t, rs).Ok? && Aged(t, LoadAll(t, rs).value.tables)
    ensures LoadAll(t, rs).value.tables.shelf == ShelfAfter(t, rs)
    ensures LoadAll(t, rs).value.tables.books == t.books <==> EveryTextStands(t, rs)
  {
    hide *;
    SoundParts(t);
    if rs == [] {
      NothingLoaded(t);
      NothingAges(t);
    } else {
      var init, r := rs[..|rs|-1], rs[|rs|-1];
      PrefixIsHomed(t, rs);
      PassMovesNoBookExactlyWhen(t, init);
      ReloadAll(t, init);
      var s := LoadAll(t, init).value;
      ReloadedParts(t, s, |init|);
      HomedElsewhere(t, s.tables, r);
      ReloadAges(s.tables, r);
      var u := LoadOne(s.tables, r).value.tables;
      LoadAllStep(t, init, r);
      ThenTables(s, r);
      AgedStep(t, s.tables, u);
      ShelfStep(t, init, s.tables, r, u);
    }
  }

  lemma ReloadedParts(t: Tables, done: Loaded, n: nat)
    requires Reloaded(t, done, n)
    ensures Inv(done.tables) && Sound(done.tables) && SameCatalogue(t, done.tables)
  {
    hide SameCatalogue;
  }

  lemma ThenTables(before: Loaded, r: Record)
    requires Sound(before.tables) && LoadOne(before.tables, r).Ok?
    ensures Then(before, r).Ok? && Then(before, r).value.tables == LoadOne(before.tables, r).value.tables
  {
    hide LoadOne, Sound;
  }

  /** For a second run into a catalogue begun empty: every book is unmoved exactly when every text stands. */
  lemma SecondRunMovesNoBookExactlyWhen(rs: seq<Record>)
    requires AllRecordsMapped(rs) && DistinctKeys(rs)
    ensures Sound(EMPTY_TABLES) && LoadAll(EMPTY_TABLES, rs).Ok?
    ensures var once := LoadAll(EMPTY_TABLES, rs).value.tables;
      && LoadAll(once, rs).Ok?
      && (LoadAll(once, rs).value.tables.books == once.books <==> EveryTextStands(once, rs))
  {
    hide *;
    EmptyTells(map[]);
    AnythingIsFresh(rs);
    SoundParts(EMPTY_TABLES);
    NewKeysGather(EMPTY_TABLES, rs);
    var once := LoadAll(EMPTY_TABLES, rs).value.tables;
    SoundParts(once);
    GatheredIsHomed(EMPTY_TABLES, rs, once);
    PassMovesNoBookExactlyWhen(once, rs);
  }
}
