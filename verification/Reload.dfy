// Loading again what is already there.

module Reload {
  import opened Ordering
  import opened Domain
  import opened Merge
  import opened Series
  import opened SeriesProofs
  import opened Catalogue
  import opened CatalogueProofs

  predicate SameRow(a: BookRow, b: BookRow) {
    && a.identity == b.identity && a.isbn13 == b.isbn13
    && a.columns == b.columns && a.contentHash == b.contentHash
  }

  /** Equal in every table but the series ones, and in every book column but the search text. */
  ghost predicate SameCatalogue(t: Tables, u: Tables) {
    && u.books.Keys == t.books.Keys
    && (forall b :: b in t.books ==> SameRow(t.books[b], u.books[b]))
    && u.nextId == t.nextId && u.sources == t.sources
    && u.authors == t.authors && u.bookAuthors == t.bookAuthors
    && u.subjects == t.subjects && u.bookSubjects == t.bookSubjects
  }

  const UNCHANGED := Counts(0, 0, 1, 1, 0)

  function BookOf(t: Tables, r: Record): BookId
    requires r.Key() in t.sources
  {
    t.sources[r.Key()].book
  }

  lemma HomedStaysHome(t: Tables, r: Record)
    requires References(t) && Homed(t, r)
    ensures FindHome(t, r) == Home(t, BookOf(t, r), 0, 0)
    ensures Filed(t, r) == t
  {
    assert t.sources[r.Key() := SourceRow(BookOf(t, r), r.payload)] == t.sources;
  }

  lemma AuthorsAlreadyLinked(t: Tables, b: BookId, cs: seq<CleanBook>)
    requires forall l :: l in t.bookAuthors ==> l.name in t.authors
    requires forall n :: n in Credits(cs) ==> NameLink(b, n) in t.bookAuthors
    ensures SyncAuthors(t, b, cs) == t
  {
    var credits := Credits(cs);
    var links := set n | n in credits :: NameLink(b, n);
    assert (map n | n in credits :: credits[n].0) + t.authors == t.authors;
    assert (map l | l in links :: credits[l.name].1) + t.bookAuthors == t.bookAuthors;
  }

  lemma SubjectsAlreadyLinked(t: Tables, b: BookId, subjects: seq<Subject>)
    requires forall l :: l in t.bookSubjects ==> l.name in t.subjects
    requires forall n :: n in SubjectNames(subjects) ==> NameLink(b, n) in t.bookSubjects
    ensures SyncSubjects(t, b, subjects) == t
  {
    var names := SubjectNames(subjects);
    assert names + t.subjects == t.subjects;
    assert t.bookSubjects + (set n | n in names :: NameLink(b, n)) == t.bookSubjects;
  }

  /** Linking a book that already says what its provenance says writes nothing. */
  lemma LinkedAlready(t: Tables, b: BookId, merged: CleanBook, cs: seq<CleanBook>)
    requires References(t) && b in t.books && Synced(t, b)
    requires cs == Candidates(t.sources, b) && MergedUnder(t.books[b].identity, cs) == Ok(merged)
    ensures Linked(t, b, merged, cs) == t
    ensures RewriteCounts(t.books[b], merged, cs) == ZERO.(untouched := 1)
  {
    assert t.books[b := t.books[b]] == t.books;
    AuthorsAlreadyLinked(t, b, cs);
    SubjectsAlreadyLinked(t, b, merged.subjects);
  }

  /** What a reload may still do: attach series, and refresh the text they are searched by. */
  ghost predicate OnlySeriesMoved(t: Tables, u: Tables, b: BookId) {
    && b in t.books
    && Sync(t.shelf, b, t.sources.Keys, Mentions(Candidates(t.sources, b))) == Done(u.shelf)
    && u == t.(shelf := u.shelf,
               books := t.books[b := RefreshText(t.books[b], Projection(NamesOn(u.shelf, b)))])
  }

  lemma SyncedRecompute(t: Tables, b: BookId)
    requires Sound(t) && AllMapped(t.sources) && b in t.books
    requires AttachedTo(t.sources, b) != {} && Synced(t, b)
    ensures Recompute(t, b).Ok?
    ensures Recompute(t, b).value.counts == ZERO.(untouched := 1)
    ensures OnlySeriesMoved(t, Recompute(t, b).value.tables, b)
  {
    var cs := Candidates(t.sources, b);
    RecomputeRuns(t, b);
    var merged := MergedUnder(t.books[b].identity, cs).value;
    LinkedAlready(t, b, merged, cs);
    SeriesStep(t, b, cs, Recompute(t, b).value.tables);
  }

  lemma SeriesStep(t: Tables, b: BookId, cs: seq<CleanBook>, u: Tables)
    requires b in t.books && cs == Candidates(t.sources, b)
    requires SyncSeries(t, b, cs) == Ok(u)
    ensures OnlySeriesMoved(t, u, b)
  {
  }

  /** Reloading a record the catalogue already holds goes no further than its book's series. */
  lemma ReloadMovesOnlySeries(t: Tables, r: Record)
    requires Inv(t) && Mapped(r) && Homed(t, r)
    ensures LoadOne(t, r).Ok?
    ensures LoadOne(t, r).value.counts == UNCHANGED
    ensures OnlySeriesMoved(t, LoadOne(t, r).value.tables, BookOf(t, r))
  {
    ReloadIsRecompute(t, r);
    HomedIsAttached(t, r);
    SyncedRecompute(t, BookOf(t, r));
  }

  lemma HomedIsAttached(t: Tables, r: Record)
    requires Inv(t) && Homed(t, r)
    ensures BookOf(t, r) in t.books && AttachedTo(t.sources, BookOf(t, r)) != {} && Synced(t, BookOf(t, r))
  {
    assert r.Key() in AttachedTo(t.sources, BookOf(t, r));
  }

  lemma ReloadIsRecompute(t: Tables, r: Record)
    requires Sound(t) && AllMapped(t.sources) && Mapped(r) && Homed(t, r)
    ensures LoadOne(t, r).Ok? && Recompute(t, BookOf(t, r)).Ok?
    ensures LoadOne(t, r).value.tables == Recompute(t, BookOf(t, r)).value.tables
    ensures LoadOne(t, r).value.counts == Recompute(t, BookOf(t, r)).value.counts.Plus(Counts(0, 0, 0, 1, 0))
  {
    HomedStaysHome(t, r);
    LoadOneRuns(t, r);
  }

  lemma OnlySeriesIsSameCatalogue(t: Tables, u: Tables, b: BookId)
    requires OnlySeriesMoved(t, u, b)
    ensures SameCatalogue(t, u)
  {
  }

  /**
   * A load changes no catalogue row exactly when the record's provenance row already holds this
   * payload and the record's ISBN, if it has one, is already its book's.
   */
  lemma LoadChangesNothingExactlyWhen(t: Tables, r: Record)
    requires Inv(t) && Mapped(r)
    ensures LoadOne(t, r).Ok?
    ensures SameCatalogue(t, LoadOne(t, r).value.tables) <==>
      && r.Key() in t.sources
      && t.sources[r.Key()].payload == r.payload
      && (r.book.isbn13.Some? ==> t.books[t.sources[r.Key()].book].isbn13 == r.book.isbn13)
  {
    LoadOneKeepsEverything(t, r);
    if Homed(t, r) {
      ReloadMovesOnlySeries(t, r);
      OnlySeriesIsSameCatalogue(t, LoadOne(t, r).value.tables, BookOf(t, r));
    }
  }

  /**
   * Whether a reload moves the book's updated_at is decided by the search text alone: it stays
   * exactly when the stored text is that of the series the reload leaves the book on.
   */
  lemma ReloadTouchesExactlyWhen(t: Tables, r: Record)
    requires Inv(t) && Mapped(r) && Homed(t, r)
    ensures LoadOne(t, r).Ok?
    ensures var b := BookOf(t, r); var u := LoadOne(t, r).value.tables;
      && b in u.books
      && (u.books == t.books <==> t.books[b].seriesText == Projection(NamesAfter(t, b)))
      && (u.books[b].touched == t.books[b].touched <==> t.books[b].seriesText == Projection(NamesAfter(t, b)))
  {
    ReloadMovesOnlySeries(t, r);
    TextDecides(t, LoadOne(t, r).value.tables, BookOf(t, r));
  }

  lemma TextDecides(t: Tables, u: Tables, b: BookId)
    requires Sound(t) && OnlySeriesMoved(t, u, b)
    ensures b in u.books
    ensures u.books == t.books <==> t.books[b].seriesText == Projection(NamesAfter(t, b))
    ensures u.books[b].touched == t.books[b].touched <==> t.books[b].seriesText == Projection(NamesAfter(t, b))
  {
    NamesAfterSync(t, b, u.shelf);
    if t.books[b].seriesText == Projection(NamesOn(u.shelf, b)) {
      assert t.books[b := t.books[b]] == t.books;
    } else {
      assert u.books[b] != t.books[b];
    }
  }

  /** The names of the series a book will be on once its candidates' series are attached. */
  function NamesAfter(t: Tables, b: BookId): set<SeriesName> {
    var ps := Best(Mentions(Candidates(t.sources, b)));
    var keys := (set l | l in t.shelf.places && l.book == b :: l.series) + (set p | p in ps :: p.key);
    set k | k in keys
        && OnAfter(ps, k, Link(b, k) in t.shelf.places)
        && RowAfter(ps, k, Lookup(t.shelf.series, k)).Some?
      :: RowAfter(ps, k, Lookup(t.shelf.series, k)).value.name
  }

  lemma {:induction false} OffUnlessNamed(ps: seq<Mention>, k: SeriesKey)
    requires !HasKey(ps, k)
    ensures !OnAfter(ps, k, false)
  {
    if ps != [] {
      assert ps == ps[..|ps|-1] + [ps[|ps|-1]];
      OffUnlessNamed(ps[..|ps|-1], k);
    }
  }

  lemma NamesAfterSync(t: Tables, b: BookId, shelf: Shelf)
    requires Sound(t)
    requires Sync(t.shelf, b, t.sources.Keys, Mentions(Candidates(t.sources, b))) == Done(shelf)
    ensures NamesOn(shelf, b) == NamesAfter(t, b)
  {
    var ms := Mentions(Candidates(t.sources, b));
    var ps := Best(ms);
    AttributeKeepsRows(Shelve(t.shelf, b, ps), b, t.sources.Keys, ms);
    forall k
      ensures Lookup(shelf.series, k) == RowAfter(ps, k, Lookup(t.shelf.series, k))
      ensures Link(b, k) in shelf.places <==> OnAfter(ps, k, Link(b, k) in t.shelf.places)
      ensures Link(b, k) in shelf.places ==> Link(b, k) in t.shelf.places || HasKey(ps, k)
    {
      ShelveRow(t.shelf, b, ps, k);
      if Link(b, k) !in t.shelf.places && !HasKey(ps, k) {
        OffUnlessNamed(ps, k);
      }
    }
    forall n | n in NamesOn(shelf, b) ensures n in NamesAfter(t, b) {
      var l :| l in shelf.places && l.book == b && l.series in shelf.series && shelf.series[l.series].name == n;
      var k := l.series;
      assert l == Link(b, k);
      assert RowAfter(ps, k, Lookup(t.shelf.series, k)) == Some(shelf.series[k]);
    }
    forall n | n in NamesAfter(t, b) ensures n in NamesOn(shelf, b) {
      var k :| OnAfter(ps, k, Link(b, k) in t.shelf.places)
        && RowAfter(ps, k, Lookup(t.shelf.series, k)).Some?
        && RowAfter(ps, k, Lookup(t.shelf.series, k)).value.name == n;
      assert Link(b, k) in shelf.places && shelf.series[k].name == n;
    }
  }

  /**
   * Loading a record twice in a row is loading it once: the second load counts as unchanged,
   * and every book (its updated_at included), provenance row, author, subject, link and series
   * row is as the first left it.
   */
  lemma LoadTwiceIsLoadOnce(t: Tables, r: Record)
    requires Inv(t) && Mapped(r)
    ensures LoadOne(t, r).Ok? && References(LoadOne(t, r).value.tables)
    ensures var once := LoadOne(t, r).value.tables; var again := LoadOne(once, r);
      && again.Ok?
      && again.value.counts == UNCHANGED
      && again.value.tables == once.(shelf := again.value.tables.shelf)
      && again.value.tables.shelf.series == once.shelf.series
  {
    LoadOneKeepsEverything(t, r);
    var once := LoadOne(t, r).value.tables;
    ReloadMovesOnlySeries(once, r);
    var before := LoadedFrom(t, r);
    SecondSync(before, once, LoadOne(once, r).value.tables, BookOf(once, r));
  }

  lemma SecondSync(before: Shelf, once: Tables, again: Tables, b: BookId)
    requires PlacesHaveRows(before)
    requires OnlySeriesMoved(once, again, b)
    requires FreshlySynced(before, once, b)
    ensures again == once.(shelf := again.shelf)
    ensures again.shelf.series == once.shelf.series
  {
    SyncTwice(before, b, once.sources.Keys, Mentions(Candidates(once.sources, b)));
    assert once.books[b := once.books[b]] == once.books;
  }

  /** The book's series have just been attached, to the series tables `before`. */
  ghost predicate FreshlySynced(before: Shelf, u: Tables, b: BookId) {
    && b in u.books
    && Sync(before, b, u.sources.Keys, Mentions(Candidates(u.sources, b))) == Done(u.shelf)
    && u.books[b].seriesText == Projection(NamesOn(u.shelf, b))
  }

  lemma RecomputeSyncsFreshly(t: Tables, b: BookId)
    requires Sound(t) && AllMapped(t.sources) && b in t.books
    requires AttachedTo(t.sources, b) != {}
    ensures Recompute(t, b).Ok? && FreshlySynced(t.shelf, Recompute(t, b).value.tables, b)
  {
    RecomputeRuns(t, b);
    var cs := Candidates(t.sources, b);
    var merged := MergedUnder(t.books[b].identity, cs).value;
    LinkedSettles(t, b, merged, cs);
    SyncedFreshly(t, Linked(t, b, merged, cs), b, cs, Recompute(t, b).value.tables);
  }

  lemma SyncedFreshly(t: Tables, mid: Tables, b: BookId, cs: seq<CleanBook>, u: Tables)
    requires mid.sources == t.sources && mid.shelf == t.shelf && b in mid.books
    requires cs == Candidates(t.sources, b)
    requires SyncSeries(mid, b, cs) == Ok(u)
    ensures FreshlySynced(t.shelf, u, b)
  {
  }

  lemma FiledIsRecomputable(t: Tables, r: Record)
    requires Sound(t) && AllMapped(t.sources) && Mapped(r)
    ensures var b := FindHome(t, r).book; var mid := Filed(t, r);
      Sound(mid) && AllMapped(mid.sources) && b in mid.books && AttachedTo(mid.sources, b) != {}
  {
    FiledIsRight(t, r);
    FiledIsReady(t, r, FindHome(t, r), Filed(t, r));
  }

  lemma ReadySyncsFreshly(mid: Tables, b: BookId)
    requires Sound(mid) && AllMapped(mid.sources) && b in mid.books && AttachedTo(mid.sources, b) != {}
    ensures Recompute(mid, b).Ok?
    ensures PlacesHaveRows(mid.shelf)
    ensures FreshlySynced(mid.shelf, Recompute(mid, b).value.tables, b)
  {
    RecomputeSyncsFreshly(mid, b);
    SoundPlaces(mid);
  }

  lemma SoundPlaces(t: Tables)
    requires Sound(t)
    ensures PlacesHaveRows(t.shelf)
  {
  }

  lemma LandsAtHome(t: Tables, r: Record)
    requires Inv(t) && Mapped(r)
    ensures LoadOne(t, r).Ok?
    ensures r.Key() in LoadOne(t, r).value.tables.sources
    ensures BookOf(LoadOne(t, r).value.tables, r) == FindHome(t, r).book
  {
    LoadOneSettles(t, r);
    FiledIsRight(t, r);
  }

  /** The series tables a load attaches its book's series to. */
  lemma LoadedFrom(t: Tables, r: Record) returns (before: Shelf)
    requires Inv(t) && Mapped(r)
    ensures LoadOne(t, r).Ok?
    ensures r.Key() in LoadOne(t, r).value.tables.sources
    ensures PlacesHaveRows(before)
    ensures FreshlySynced(before, LoadOne(t, r).value.tables, BookOf(LoadOne(t, r).value.tables, r))
  {
    LoadOneRuns(t, r);
    FiledIsRecomputable(t, r);
    ReadySyncsFreshly(Filed(t, r), FindHome(t, r).book);
    LandsAtHome(t, r);
    before := Filed(t, r).shelf;
  }
}
