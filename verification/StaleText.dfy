// A second run that is not a no-op: absorption leaves another book's search text behind.

module StaleText {
  import opened Ordering
  import opened Domain
  import opened Merge
  import opened Series
  import opened SeriesProofs
  import opened Catalogue
  import opened CatalogueProofs
  import opened Reload
  import opened History
  import opened Confluence
  import opened Rerun

  // ----- three syncs

  /** A guess read out of a title: the series is known by name alone. */
  predicate Inferred(x: Mention, n: string) {
    x.key == Named(n) && x.said.normalised == n && !x.said.HasId()
  }

  /** A source names the same series by its own id. */
  predicate Confirmed(x: Mention, n: string) {
    x.key.FromSource? && x.said.normalised == n
  }

  lemma ShelveAlone(s: Shelf, b: BookId, x: Mention)
    ensures Best([x]) == [x] && Shelve(s, b, [x]) == ShelveOne(s, b, x)
  {
    assert [x][..0] == [];
    assert !HasKey([], x.key);
  }

  lemma SyncAlone(s: Shelf, b: BookId, known: set<Key>, x: Mention)
    requires Sync(s, b, known, [x]).Done?
    ensures var t := Sync(s, b, known, [x]).value;
      t.series == ShelveOne(s, b, x).series && t.places == ShelveOne(s, b, x).places
  {
    ShelveAlone(s, b, x);
    AttributeKeepsRows(Shelve(s, b, [x]), b, known, [x]);
  }

  lemma GuessShelved(b: BookId, n: string, x: Mention, s: Shelf)
    requires Inferred(x, n)
    requires s.series == ShelveOne(EMPTY_SHELF, b, x).series && s.places == ShelveOne(EMPTY_SHELF, b, x).places
    ensures s.series == map[Named(n) := x.Row()] && s.places.Keys == {Link(b, Named(n))}
  {
  }

  lemma GuessAbsorbed(a: BookId, b: BookId, n: string, g: Mention, x: Mention, s: Shelf, t: Shelf)
    requires Confirmed(x, n) && a != b
    requires s.series == map[Named(n) := g.Row()] && s.places.Keys == {Link(a, Named(n))}
    requires t.series == ShelveOne(s, b, x).series && t.places == ShelveOne(s, b, x).places
    ensures t.series == map[x.key := x.Row()] && t.places.Keys == {Link(a, x.key), Link(b, x.key)}
  {
  }

  lemma GuessReturns(a: BookId, b: BookId, n: string, g: Mention, x: Mention, t: Shelf, u: Shelf)
    requires Inferred(g, n) && Confirmed(x, n) && a != b
    requires t.series == map[x.key := x.Row()] && t.places.Keys == {Link(a, x.key), Link(b, x.key)}
    requires u.series == ShelveOne(t, a, g).series && u.places == ShelveOne(t, a, g).places
    ensures u.series == map[x.key := x.Row(), Named(n) := g.Row()]
    ensures u.places.Keys == {Link(a, x.key), Link(b, x.key), Link(a, Named(n))}
  {
  }

  lemma NamesThen(a: BookId, b: BookId, n: string, g: Mention, x: Mention, s: Shelf, u: Shelf)
    requires Confirmed(x, n) && a != b
    requires s.series == map[Named(n) := g.Row()] && s.places.Keys == {Link(a, Named(n))}
    requires u.series == map[x.key := x.Row(), Named(n) := g.Row()]
    requires u.places.Keys == {Link(a, x.key), Link(b, x.key), Link(a, Named(n))}
    ensures NamesOn(s, a) == {g.said.name}
    ensures NamesOn(u, a) == {g.said.name, x.said.name}
  {
    assert Link(a, Named(n)) in s.places;
    assert Link(a, Named(n)) in u.places && Link(a, x.key) in u.places;
  }

  // ----- two records

  /** A record whose payload reads back with a single mention of a series. */
  predicate SaysOnly(r: Record, x: Mention) {
    && Mapped(r)
    && MentionsOf(Replay(r.book.source, r.payload).value) == [x]
  }

  lemma OnlyCandidate(sources: map<Key, SourceRow>, b: BookId, r: Record, x: Mention)
    requires AttachedTo(sources, b) == {r.Key()} && sources[r.Key()].payload == r.payload
    requires SaysOnly(r, x)
    ensures Mentions(Candidates(sources, b)) == [x]
  {
    SoleCandidate(sources, b, r.Key());
    var c := Replay(r.book.source, r.payload).value;
    assert [c][1..] == [];
    assert Mentions([]) == [];
    assert [x] + [] == [x];
  }

  /** Loading a record under a new key and a new identity starts a book of its own. */
  ghost predicate StartsBook(t: Tables, r: Record, u: Tables, b: BookId) {
    && b !in t.books && u.books.Keys == t.books.Keys + {b}
    && (forall c :: c in t.books ==> u.books[c] == t.books[c])
    && u.sources == t.sources[r.Key() := SourceRow(b, r.payload)]
    && FreshlySynced(t.shelf, u, b)
  }

  lemma NewIdentityStartsBook(t: Tables, r: Record)
    requires Inv(t) && Mapped(r) && r.Key() !in t.sources
    requires forall c :: c in t.books ==> t.books[c].identity != r.book.identity
    ensures LoadOne(t, r).Ok? && Inv(LoadOne(t, r).value.tables)
    ensures StartsBook(t, r, LoadOne(t, r).value.tables, FindHome(t, r).book)
  {
    NewKeyShelves(t, r);
    LoadOneKeepsEverything(t, r);
    StartedFrom(t, r, FindHome(t, r), Filed(t, r), LoadOne(t, r).value.tables);
  }

  lemma StartedFrom(t: Tables, r: Record, h: Home, mid: Tables, u: Tables)
    requires FiledNew(t, r, h, mid) && Shelved(t, mid, u, h.book)
    requires forall c :: c in t.books ==> t.books[c].identity != r.book.identity
    ensures StartsBook(t, r, u, h.book)
  {
    hide Synced, FreshlySynced;
  }

  /** What the two loads leave: the first book on the confirmed row, still searched by the guess. */
  ghost predicate Stale(t: Tables, a: BookId, b: BookId, g: Mention, x: Mention, n: string) {
    && a != b && a in t.books && b in t.books
    && Mentions(Candidates(t.sources, a)) == [g]
    && t.shelf.series == map[x.key := x.Row()]
    && t.shelf.places.Keys == {Link(a, x.key), Link(b, x.key)}
    && t.books[a].seriesText == Projection({g.said.name})
  }

  lemma FirstLoad(p: Record, g: Mention, n: string, t: Tables, a: BookId)
    requires SaysOnly(p, g) && Inferred(g, n)
    requires StartsBook(EMPTY_TABLES, p, t, a)
    ensures t.shelf.series == map[Named(n) := g.Row()] && t.shelf.places.Keys == {Link(a, Named(n))}
    ensures t.books[a].seriesText == Projection({g.said.name})
    ensures Mentions(Candidates(t.sources, a)) == [g]
  {
    hide Projection, Sync;
    StartedShelf(EMPTY_TABLES, p, g, t, a);
    GuessShelved(a, n, g, t.shelf);
    assert Link(a, Named(n)) in t.shelf.places;
    assert NamesOn(t.shelf, a) == {g.said.name};
  }

  lemma StartedShelf(t: Tables, r: Record, x: Mention, u: Tables, b: BookId)
    requires SaysOnly(r, x) && StartsBook(t, r, u, b) && r.Key() !in t.sources
    requires References(t)
    ensures u.shelf.series == ShelveOne(t.shelf, b, x).series && u.shelf.places == ShelveOne(t.shelf, b, x).places
    ensures Mentions(Candidates(u.sources, b)) == [x]
  {
    hide Projection, Sync;
    assert AttachedTo(u.sources, b) == {r.Key()};
    OnlyCandidate(u.sources, b, r, x);
    SyncAlone(t.shelf, b, u.sources.Keys, x);
  }

  lemma StartedElsewhere(t: Tables, r: Record, u: Tables, b: BookId, a: BookId)
    requires StartsBook(t, r, u, b) && a in t.books && r.Key() !in t.sources
    ensures u.books[a] == t.books[a] && a != b
    ensures Candidates(u.sources, a) == Candidates(t.sources, a)
  {
    hide FreshlySynced;
    assert AttachedTo(u.sources, a) == AttachedTo(t.sources, a);
    CandidatesFrame(t.sources, a, u.sources, a);
  }

  lemma SecondLoad(g: Mention, q: Record, x: Mention, n: string, s: Tables, a: BookId, t: Tables, b: BookId)
    requires SaysOnly(q, x) && Confirmed(x, n) && q.Key() !in s.sources && References(s) && a in s.books
    requires StartsBook(s, q, t, b)
    requires Mentions(Candidates(s.sources, a)) == [g]
    requires s.shelf.series == map[Named(n) := g.Row()] && s.shelf.places.Keys == {Link(a, Named(n))}
    requires s.books[a].seriesText == Projection({g.said.name})
    ensures Stale(t, a, b, g, x, n)
  {
    hide Projection, FreshlySynced, References, SaysOnly, Mentions, Candidates;
    StartedShelf(s, q, x, t, b);
    StartedElsewhere(s, q, t, b, a);
    GuessAbsorbed(a, b, n, g, x, s.shelf, t.shelf);
  }

  /** Reloading the first record puts its book back on a row of its own, and rewrites its text. */
  lemma ReloadRewrites(t: Tables, a: BookId, b: BookId, g: Mention, x: Mention, n: string, u: Tables)
    requires Stale(t, a, b, g, x, n) && Inferred(g, n) && Confirmed(x, n)
    requires OnlySeriesMoved(t, u, a)
    requires Projection({g.said.name}) != Projection({g.said.name, x.said.name})
    ensures a in u.books && u.books[a].touched == t.books[a].touched + 1
  {
    hide Projection, Sync;
    SyncAlone(t.shelf, a, t.sources.Keys, g);
    GuessReturns(a, b, n, g, x, t.shelf, u.shelf);
    var s := Shelf(map[Named(n) := g.Row()], map[Link(a, Named(n)) := Place(None, false)], map[], map[]);
    NamesThen(a, b, n, g, x, s, u.shelf);
  }

  /**
   * A guess and then a confirmation of the same series, in a spelling that changes the search
   * text: run both again and the first book's updated_at moves, although nothing was said that
   * had not been said before.
   */
  lemma SecondRunMovesUpdatedAt(p: Record, g: Mention, q: Record, x: Mention, n: string)
    requires SaysOnly(p, g) && SaysOnly(q, x) && Inferred(g, n) && Confirmed(x, n)
    requires p.Key() != q.Key() && p.book.identity != q.book.identity
    requires Projection({g.said.name}) != Projection({g.said.name, x.said.name})
    ensures Sound(EMPTY_TABLES) && LoadAll(EMPTY_TABLES, [p, q]).Ok?
    ensures var once := LoadAll(EMPTY_TABLES, [p, q]).value.tables; var again := LoadAll(once, [p, q]);
      again.Ok? && again.value.tables.books != once.books
  {
    EmptyTells(map[]);
    SoundParts(EMPTY_TABLES);
    assert DistinctKeys([p, q]) && AllRecordsMapped([p, q]);
    AnythingIsFresh([p, q]);
    var once, a, b := BothLoaded(p, g, q, x, n);
    hide *;
    NewKeysGather(EMPTY_TABLES, [p, q]);
    SoundParts(once);
    GatheredIsHomed(EMPTY_TABLES, [p, q], once);
    BothHomed(once, p, q);
    DifferentBooks(once, a, b, g, x, n);
    BothReloaded(p, g, q, x, n, once, a, b);
  }

  lemma BothHomed(t: Tables, p: Record, q: Record)
    requires AllHomed(t, [p, q])
    ensures Homed(t, p) && Homed(t, q)
  {
    hide Homed;
    assert p in [p, q] && q in [p, q];
  }

  lemma DifferentBooks(t: Tables, a: BookId, b: BookId, g: Mention, x: Mention, n: string)
    requires Stale(t, a, b, g, x, n)
    ensures a != b
  {
  }

  lemma TwoLoads(t: Tables, p: Record, q: Record)
    requires Sound(t) && LoadOne(t, p).Ok? && Sound(LoadOne(t, p).value.tables)
    requires LoadOne(LoadOne(t, p).value.tables, q).Ok?
    ensures LoadAll(t, [p, q]).Ok?
    ensures LoadAll(t, [p, q]).value.tables == LoadOne(LoadOne(t, p).value.tables, q).value.tables
  {
    hide LoadOne, Sound, LoadAll;
    NothingLoaded(t);
    LoadAllStep(t, [], p);
    LoadAllStep(t, [p], q);
    assert [] + [p] == [p] && [p] + [q] == [p, q];
  }

  /** After the first load: one book, on the guessed series. */
  ghost predicate Guessed(s: Tables, p: Record, a: BookId, g: Mention, n: string) {
    && s.books.Keys == {a} && s.books[a].identity == p.book.identity
    && s.sources.Keys == {p.Key()} && s.sources[p.Key()].book == a
    && Mentions(Candidates(s.sources, a)) == [g]
    && s.shelf.series == map[Named(n) := g.Row()] && s.shelf.places.Keys == {Link(a, Named(n))}
    && s.books[a].seriesText == Projection({g.said.name})
  }

  lemma GuessLoaded(p: Record, g: Mention, n: string) returns (s: Tables, a: BookId)
    requires SaysOnly(p, g) && Inferred(g, n)
    ensures Inv(EMPTY_TABLES) && References(EMPTY_TABLES) && LoadOne(EMPTY_TABLES, p).Ok?
    ensures s == LoadOne(EMPTY_TABLES, p).value.tables
    ensures Inv(s) && Guessed(s, p, a, g, n)
  {
    EmptyTells(map[]);
    SoundParts(EMPTY_TABLES);
    SaysOnlyIsMapped(p, g);
    hide *;
    NothingStored(p);
    NewIdentityStartsBook(EMPTY_TABLES, p);
    NewKeyJoins(EMPTY_TABLES, p);
    s := LoadOne(EMPTY_TABLES, p).value.tables;
    a := FindHome(EMPTY_TABLES, p).book;
    FirstLoad(p, g, n, s, a);
    GuessIs(p, g, n, s, a);
  }

  lemma NothingStored(p: Record)
    ensures p.Key() !in EMPTY_TABLES.sources && EMPTY_TABLES.books == map[] && References(EMPTY_TABLES)
  {
  }

  lemma GuessIs(p: Record, g: Mention, n: string, s: Tables, a: BookId)
    requires StartsBook(EMPTY_TABLES, p, s, a) && Joined(EMPTY_TABLES, p, s)
    requires Mentions(Candidates(s.sources, a)) == [g]
    requires s.shelf.series == map[Named(n) := g.Row()] && s.shelf.places.Keys == {Link(a, Named(n))}
    requires s.books[a].seriesText == Projection({g.said.name})
    ensures Guessed(s, p, a, g, n)
  {
    hide FreshlySynced, Candidates, Mentions, Projection, Credits;
    assert FiledUnder(s, p);
  }

  lemma ConfirmationLoaded(s: Tables, p: Record, a: BookId, g: Mention, q: Record, x: Mention, n: string)
    returns (t: Tables, b: BookId)
    requires Inv(s) && Guessed(s, p, a, g, n)
    requires SaysOnly(q, x) && Confirmed(x, n) && p.Key() != q.Key() && p.book.identity != q.book.identity
    ensures References(s) && LoadOne(s, q).Ok? && t == LoadOne(s, q).value.tables
    ensures Inv(t) && Stale(t, a, b, g, x, n)
    ensures p.Key() in t.sources && t.sources[p.Key()].book == a
    ensures q.Key() in t.sources && t.sources[q.Key()].book == b
  {
    SoundParts(s);
    SaysOnlyIsMapped(q, x);
    GuessedParts(s, p, a, g, q, n);
    hide *;
    NewIdentityStartsBook(s, q);
    t := LoadOne(s, q).value.tables;
    b := FindHome(s, q).book;
    SecondLoad(g, q, x, n, s, a, t, b);
    StartedSources(s, p, q, t, b);
  }

  lemma GuessedParts(s: Tables, p: Record, a: BookId, g: Mention, q: Record, n: string)
    requires Guessed(s, p, a, g, n) && p.Key() != q.Key() && p.book.identity != q.book.identity
    ensures q.Key() !in s.sources && a in s.books && p.Key() in s.sources && s.sources[p.Key()].book == a
    ensures forall c :: c in s.books ==> s.books[c].identity != q.book.identity
    ensures Mentions(Candidates(s.sources, a)) == [g]
    ensures s.shelf.series == map[Named(n) := g.Row()] && s.shelf.places.Keys == {Link(a, Named(n))}
    ensures s.books[a].seriesText == Projection({g.said.name})
  {
    hide Candidates, Mentions, Projection;
  }

  lemma StartedSources(s: Tables, p: Record, q: Record, t: Tables, b: BookId)
    requires StartsBook(s, q, t, b) && p.Key() in s.sources && p.Key() != q.Key()
    ensures p.Key() in t.sources && t.sources[p.Key()].book == s.sources[p.Key()].book
    ensures q.Key() in t.sources && t.sources[q.Key()].book == b
  {
    hide FreshlySynced;
  }

  lemma BothLoaded(p: Record, g: Mention, q: Record, x: Mention, n: string) returns (once: Tables, a: BookId, b: BookId)
    requires SaysOnly(p, g) && SaysOnly(q, x) && Inferred(g, n) && Confirmed(x, n)
    requires p.Key() != q.Key() && p.book.identity != q.book.identity
    ensures Sound(EMPTY_TABLES) && LoadAll(EMPTY_TABLES, [p, q]).Ok?
    ensures once == LoadAll(EMPTY_TABLES, [p, q]).value.tables
    ensures Inv(once) && Stale(once, a, b, g, x, n)
    ensures p.Key() in once.sources && once.sources[p.Key()].book == a
    ensures q.Key() in once.sources && once.sources[q.Key()].book == b
  {
    hide *;
    var s: Tables;
    s, a := GuessLoaded(p, g, n);
    SoundParts(EMPTY_TABLES);
    SoundParts(s);
    once, b := ConfirmationLoaded(s, p, a, g, q, x, n);
    TwoLoads(EMPTY_TABLES, p, q);
  }

  lemma SaysOnlyIsMapped(r: Record, x: Mention)
    requires SaysOnly(r, x)
    ensures Mapped(r)
  {
  }

  lemma FirstReloaded(p: Record, g: Mention, x: Mention, n: string, once: Tables, a: BookId, b: BookId)
    requires Mapped(p) && Inferred(g, n) && Confirmed(x, n)
    requires Inv(once) && Homed(once, p) && Stale(once, a, b, g, x, n)
    requires once.sources[p.Key()].book == a
    requires Projection({g.said.name}) != Projection({g.said.name, x.said.name})
    ensures References(once) && LoadOne(once, p).Ok?
    ensures var u := LoadOne(once, p).value.tables;
      Inv(u) && SameCatalogue(once, u) && a in once.books && a in u.books && u.books[a].touched != once.books[a].touched
  {
    SoundParts(once);
    ReloadMovesOnlySeries(once, p);
    LoadOneKeepsEverything(once, p);
    hide Inv, LoadOne, Sound, References, Inferred, Confirmed, Projection, Mapped, Sync;
    ReloadRewrites(once, a, b, g, x, n, LoadOne(once, p).value.tables);
    OnlySeriesIsSameCatalogue(once, LoadOne(once, p).value.tables, a);
  }

  /** A reload touches no other book. */
  lemma OthersUntouched(u: Tables, q: Record, a: BookId)
    requires Inv(u) && Homed(u, q) && Mapped(q) && u.sources[q.Key()].book != a && a in u.books
    ensures References(u) && LoadOne(u, q).Ok? && a in LoadOne(u, q).value.tables.books
    ensures LoadOne(u, q).value.tables.books[a] == u.books[a]
  {
    hide Inv, LoadOne, Sound, References, Mapped, Sync;
    SoundParts(u);
    ReloadMovesOnlySeries(u, q);
  }

  lemma BothReloaded(p: Record, g: Mention, q: Record, x: Mention, n: string, once: Tables, a: BookId, b: BookId)
    requires SaysOnly(p, g) && SaysOnly(q, x) && Inferred(g, n) && Confirmed(x, n)
    requires Inv(once) && Homed(once, p) && Homed(once, q) && Stale(once, a, b, g, x, n) && a != b
    requires once.sources[p.Key()].book == a && once.sources[q.Key()].book == b
    requires Projection({g.said.name}) != Projection({g.said.name, x.said.name})
    ensures Sound(once) && LoadAll(once, [p, q]).Ok? && LoadAll(once, [p, q]).value.tables.books != once.books
  {
    SaysOnlyIsMapped(p, g);
    SaysOnlyIsMapped(q, x);
    FirstReloaded(p, g, x, n, once, a, b);
    var u := LoadOne(once, p).value.tables;
    SoundParts(once);
    SoundParts(u);
    HomedElsewhere(once, u, q);
    SameSources(once, u, q);
    hide *;
    OthersUntouched(u, q, a);
    TwoLoads(once, p, q);
  }

  lemma SameSources(t: Tables, u: Tables, q: Record)
    requires SameCatalogue(t, u) && q.Key() in t.sources
    ensures q.Key() in u.sources && u.sources[q.Key()].book == t.sources[q.Key()].book
  {
  }

  // ----- a pair that does it

  lemma OneFold(names: set<SeriesName>, fold: string)
    requires Folds(names) == {fold}
    ensures Projection(names) in Displays(names, fold)
    ensures forall d :: d in Displays(names, fold) ==> LexLe(Projection(names), d)
  {
    LexIsTotalOrder();
    var q := Arrange(Folds(names), LexLe);
    assert Least(Folds(names), LexLe) == fold;
    assert Folds(names) - {fold} == {};
    assert q == [fold] + Arrange(Folds(names) - {fold}, LexLe);
    assert q == [fold];
  }

  /** "expanse" was guessed; "Expanse" is confirmed. */
  lemma SpellingMatters()
    ensures var lower, upper := SeriesName("expanse", Some("expanse")), SeriesName("Expanse", Some("expanse"));
      Projection({lower}) == "expanse" && Projection({lower, upper}) == "Expanse"
  {
    var lower, upper := SeriesName("expanse", Some("expanse")), SeriesName("Expanse", Some("expanse"));
    CapitalsFirst();
    hide *;
    LeastDisplay(lower, lower, "expanse");
    LeastDisplay(lower, upper, "expanse");
    assert {lower, lower} == {lower};
  }

  lemma CapitalsFirst()
    ensures LexLe("Expanse", "expanse") && !LexLe("expanse", "Expanse") && LexLe("expanse", "expanse")
  {
    LexIsTotalOrder();
    assert "Expanse"[0] < "expanse"[0];
  }

  /** Of two names with one comparison form, the text holds the lesser display. */
  lemma LeastDisplay(a: SeriesName, b: SeriesName, fold: string)
    requires a.folded == b.folded == Some(fold) && LexLe(b.display, a.display)
    requires b.display == a.display || !LexLe(a.display, b.display)
    ensures Projection({a, b}) == b.display
  {
    assert a.folded.value in Folds({a, b});
    OneFold({a, b}, fold);
    hide Projection, LexLe;
    assert b in {a, b} && b.display in Displays({a, b}, fold);
  }

  /** A Goodreads book whose title names a series: the series is guessed from the title. */
  function Guess(): Record {
    var m := Membership(SeriesName("expanse", Some("expanse")), "expanse", None, Some(1.0), false);
    var book: CleanBook := BookFacts(
      Goodreads, "8855321", Fallback("a"), None,
      map[Title := Text("Leviathan Wakes"), NormalisedTitle := Text("leviathan wakes")],
      [], [], [m]);
    Record(book, Payload("8855321", map[Goodreads := book]))
  }

  /** Another, whose page links the series. */
  function Confirmation(): Record {
    var m := Membership(SeriesName("Expanse", Some("expanse")), "expanse", Some("56399"), Some(2.0), true);
    var book: CleanBook := BookFacts(
      Goodreads, "12591698", Fallback("b"), None,
      map[Title := Text("Caliban's War"), NormalisedTitle := Text("caliban's war")], [], [], [m]);
    Record(book, Payload("12591698", map[Goodreads := book]))
  }

  /** Two Goodreads records, run twice: the documented no-op is not one. */
  lemma SecondRunIsNotAlwaysANoOp()
    ensures var rs := [Guess(), Confirmation()];
      && AllRecordsMapped(rs) && DistinctKeys(rs)
      && Sound(EMPTY_TABLES) && LoadAll(EMPTY_TABLES, rs).Ok?
      && var once := LoadAll(EMPTY_TABLES, rs).value.tables;
      && LoadAll(once, rs).Ok? && LoadAll(once, rs).value.tables.books != once.books
  {
    SpellingMatters();
    var p, q := Guess(), Confirmation();
    var g := Mention(p.Key(), p.book.series[0].Key(Goodreads), p.book.series[0]);
    var x := Mention(q.Key(), q.book.series[0].Key(Goodreads), q.book.series[0]);
    ThePair(p, g, q, x);
    hide *;
    SecondRunMovesUpdatedAt(p, g, q, x, "expanse");
  }

  lemma ThePair(p: Record, g: Mention, q: Record, x: Mention)
    requires p == Guess() && g == Mention(p.Key(), p.book.series[0].Key(Goodreads), p.book.series[0])
    requires q == Confirmation() && x == Mention(q.Key(), q.book.series[0].Key(Goodreads), q.book.series[0])
    ensures SaysOnly(p, g) && SaysOnly(q, x) && Inferred(g, "expanse") && Confirmed(x, "expanse")
    ensures p.Key() != q.Key() && p.book.identity != q.book.identity
    ensures g.said.name == SeriesName("expanse", Some("expanse")) && x.said.name == SeriesName("Expanse", Some("expanse"))
    ensures AllRecordsMapped([p, q]) && DistinctKeys([p, q])
  {
  }
}
