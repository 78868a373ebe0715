// Loading a batch again: exactly when the second time changes nothing.

module Redelivery {
  import opened Ordering
  import opened Domain
  import opened Merge
  import opened Series
  import opened Catalogue
  import opened CatalogueProofs
  import opened Reload
  import opened History
  import opened Confluence

  predicate Owned(books: map<BookId, BookRow>, isbn: string) {
    exists i :: i in books && books[i].isbn13 == Some(isbn)
  }

  predicate OnOneBook(sources: map<Key, SourceRow>, j: Key, k: Key) {
    j in sources && k in sources && sources[j].book == sources[k].book
  }

  // ----- where a load moves provenance, and what ISBN it leaves

  /** Finding a record's book keeps together what is together, and moves nothing without an ISBN. */
  ghost predicate HomeMoves(t: Tables, r: Record, h: Home) {
    && (forall j, k :: OnOneBook(t.sources, j, k) ==> OnOneBook(h.tables.sources, j, k))
    && (r.book.isbn13.None? ==>
          && h.tables.sources == t.sources
          && forall c :: c in t.books ==> c in h.tables.books && h.tables.books[c] == t.books[c])
  }

  lemma HomeMovesRight(t: Tables, r: Record)
    requires Sound(t)
    ensures HomeMoves(t, r, FindHome(t, r))
  {
  }

  ghost predicate SameIsbn(t: Tables, u: Tables, c: BookId) {
    c in t.books && c in u.books && u.books[c].isbn13 == t.books[c].isbn13
  }

  /** What one load does to the grouping of provenance and to ISBNs. */
  ghost predicate Moves(t: Tables, r: Record, u: Tables) {
    && r.Key() in u.sources && u.sources[r.Key()].book in u.books
    && (r.book.isbn13.Some? ==> u.books[u.sources[r.Key()].book].isbn13 == r.book.isbn13)
    && (forall j, k :: OnOneBook(t.sources, j, k) ==> OnOneBook(u.sources, j, k))
    && (r.book.isbn13.None? ==>
          && (forall k :: k in t.sources ==> k in u.sources && u.sources[k].book == t.sources[k].book)
          && (forall c :: c in t.books ==> SameIsbn(t, u, c)))
    && (forall c :: c in u.books && c != u.sources[r.Key()].book ==>
          SameIsbn(t, u, c) && AttachedTo(u.sources, c) == AttachedTo(t.sources, c))
  }

  lemma LoadMoves(t: Tables, r: Record)
    requires Inv(t) && Mapped(r)
    ensures LoadOne(t, r).Ok? && Moves(t, r, LoadOne(t, r).value.tables)
  {
    LoadOneSettles(t, r);
    LoadOneKeepsEverything(t, r);
    FiledIsRight(t, r);
    FindHomeIsRight(t, r);
    FindHomeIsSound(t, r);
    HomeMovesRight(t, r);
    SoundParts(LoadOne(t, r).value.tables);
    hide LoadOne, FindHome, Inv, Synced, Mapped;
    MovesFollow(t, r, FindHome(t, r), Filed(t, r), LoadOne(t, r).value.tables);
  }

  lemma SettledIsbn(mid: Tables, u: Tables, b: BookId, c: BookId)
    requires Settled(mid, u, b) && Identified(mid.books) && Identified(u.books) && c in mid.books
    ensures SameIsbn(mid, u, c)
  {
    hide Synced;
    assert u.books[c].identity == mid.books[c].identity;
  }

  lemma OthersUnmoved(t: Tables, r: Record, h: Home, mid: Tables, u: Tables)
    requires FiledFrame(t, r, h, mid) && Settled(mid, u, h.book)
    ensures forall c :: c in u.books && c != h.book ==>
      SameIsbn(t, u, c) && AttachedTo(u.sources, c) == AttachedTo(t.sources, c)
  {
    hide Synced;
    forall c | c in u.books && c != h.book
      ensures SameIsbn(t, u, c) && AttachedTo(u.sources, c) == AttachedTo(t.sources, c)
    {
      assert Kept(t, mid, c);
    }
  }

  lemma NoIsbnMovesNothing(t: Tables, r: Record, h: Home, mid: Tables, u: Tables)
    requires mid == UpsertSource(h.tables, h.book, r) && HomeMoves(t, r, h) && RightHome(t, r, h)
    requires Settled(mid, u, h.book) && Identified(mid.books) && Identified(u.books)
    requires r.book.isbn13.None?
    ensures forall k :: k in t.sources ==> k in u.sources && u.sources[k].book == t.sources[k].book
    ensures forall c :: c in t.books ==> SameIsbn(t, u, c)
  {
    forall c | c in t.books ensures SameIsbn(t, u, c) {
      SettledIsbn(mid, u, h.book, c);
    }
  }

  lemma Together(t: Tables, r: Record, h: Home, mid: Tables)
    requires mid == UpsertSource(h.tables, h.book, r)
    requires RightHome(t, r, h) && HomeMoves(t, r, h) && HomeFrame(t, h)
    ensures forall j, k :: OnOneBook(t.sources, j, k) ==> OnOneBook(mid.sources, j, k)
  {
    forall j, k | OnOneBook(t.sources, j, k) ensures OnOneBook(mid.sources, j, k) {
      assert OnOneBook(h.tables.sources, j, k);
    }
  }

  lemma FiledHome(t: Tables, r: Record, h: Home, mid: Tables, u: Tables)
    requires mid == UpsertSource(h.tables, h.book, r) && RightHome(t, r, h)
    requires Settled(mid, u, h.book) && Identified(mid.books) && Identified(u.books)
    ensures u.sources == mid.sources && r.Key() in u.sources && u.sources[r.Key()].book == h.book && h.book in u.books
    ensures r.book.isbn13.Some? ==> u.books[h.book].isbn13 == r.book.isbn13
  {
    hide Synced;
    SettledIsbn(mid, u, h.book, h.book);
  }

  lemma MovesFollow(t: Tables, r: Record, h: Home, mid: Tables, u: Tables)
    requires mid == UpsertSource(h.tables, h.book, r)
    requires RightHome(t, r, h) && HomeFrame(t, h) && HomeMoves(t, r, h) && FiledFrame(t, r, h, mid)
    requires Settled(mid, u, h.book) && Identified(mid.books) && Identified(u.books)
    ensures Moves(t, r, u)
  {
    hide Synced, HomeMoves, HomeFrame, FiledFrame, RightHome, Identified, SameIsbn, AttachedTo, UpsertSource, Settled,
      OnOneBook;
    OthersUnmoved(t, r, h, mid, u);
    Together(t, r, h, mid);
    FiledHome(t, r, h, mid, u);
    if r.book.isbn13.None? {
      NoIsbnMovesNothing(t, r, h, mid, u);
    }
  }

  // ----- which loads count as a change

  const UPDATED := Counts(0, 1, 0, 1, 0)

  lemma UnownedIsNobodys(books: map<BookId, BookRow>, isbn: string)
    ensures Owned(books, isbn) <==> OwnerOf(books, isbn).Some?
  {
  }

  lemma PromotedFiling(t: Tables, r: Record)
    requires Inv(t) && r.Key() in t.sources && r.book.isbn13.Some? && !Owned(t.books, r.book.isbn13.value)
    ensures var h := FindHome(t, r); var b := t.sources[r.Key()].book;
      && b in t.books && h.book == b && h.inserted == 0 && h.merges == 0
      && b in Filed(t, r).books && Filed(t, r).books[b].contentHash == t.books[b].contentHash
      && Filed(t, r).books[b].identity == r.book.identity
      && t.books[b].contentHash.Digest? && t.books[b].contentHash.isbn13 != r.book.isbn13
  {
    var b := t.sources[r.Key()].book;
    assert Synced(t, b);
  }

  /** A stored record whose ISBN nobody owns promotes its book, and counts as an update. */
  lemma PromotionCounts(t: Tables, r: Record)
    requires Inv(t) && Mapped(r) && r.Key() in t.sources
    requires r.book.isbn13.Some? && !Owned(t.books, r.book.isbn13.value)
    ensures LoadOne(t, r).Ok? && LoadOne(t, r).value.counts == UPDATED
  {
    SoundParts(t);
    AllAreMapped(t);
    PromotedFiling(t, r);
    FiledIsRecomputable(t, r);
    LoadOneRuns(t, r);
    hide *;
    var b, mid := FindHome(t, r).book, Filed(t, r);
    RecomputeRuns(mid, b);
    var cs := Candidates(mid.sources, b);
    RewrittenForIsbn(mid.books[b], MergedUnder(mid.books[b].identity, cs).value, cs, r.book);
  }

  lemma AllAreMapped(t: Tables)
    requires Inv(t)
    ensures AllMapped(t.sources)
  {
  }

  lemma RewrittenForIsbn(row: BookRow, merged: CleanBook, cs: seq<CleanBook>, book: CleanBook)
    requires row.contentHash.Digest? && row.contentHash.isbn13 != book.isbn13
    requires row.identity == book.identity && merged.isbn13 == IsbnOf(row.identity)
    ensures RewriteCounts(row, merged, cs).Plus(Counts(0, 0, 0, 1, 0)) == UPDATED
  {
    hide Columns;
    assert Agrees(book.identity, book.isbn13);
  }

  lemma UpdateIsAChange()
    ensures UPDATED.Changed() == 1
  {
  }

  /** A load of a stored record that inserts and updates nothing gives no book an ISBN nobody had. */
  lemma QuietLoadOwnsNothingNew(t: Tables, r: Record, u: Loaded, isbn: string)
    requires References(t) && LoadOne(t, r) == Ok(u) && u.counts.Changed() == 0
    requires Inv(t) && Mapped(r) && r.Key() in t.sources
    ensures Owned(u.tables.books, isbn) ==> Owned(t.books, isbn)
  {
    hide *;
    LoadMoves(t, r);
    if r.book.isbn13.Some? && !Owned(t.books, r.book.isbn13.value) {
      PromotionCounts(t, r);
      UpdateIsAChange();
    } else {
      KnownBooksStay(t, r);
      OwnedOnlyBefore(t, r, u.tables, isbn);
    }
  }

  lemma KnownBooksStay(t: Tables, r: Record)
    requires Inv(t) && Mapped(r) && r.Key() in t.sources
    ensures LoadOne(t, r).Ok?
    ensures forall c :: c in LoadOne(t, r).value.tables.books ==> c in t.books
  {
    SoundParts(t);
    KnownHome(t, r);
    LoadOneSettles(t, r);
    FiledIsRight(t, r);
    hide LoadOne, FindHome, Filed, Inv, Sound, Synced, Kept;
  }

  lemma KnownHome(t: Tables, r: Record)
    requires References(t) && r.Key() in t.sources
    ensures FindHome(t, r).tables.books.Keys <= t.books.Keys
  {
  }

  lemma OwnedOnlyBefore(t: Tables, r: Record, u: Tables, isbn: string)
    requires Moves(t, r, u) && forall c :: c in u.books ==> c in t.books
    requires r.book.isbn13.Some? ==> Owned(t.books, r.book.isbn13.value)
    ensures Owned(u.books, isbn) ==> Owned(t.books, isbn)
  {
    hide OnOneBook, AttachedTo;
    if Owned(u.books, isbn) {
      var c :| c in u.books && u.books[c].isbn13 == Some(isbn);
      if c == u.sources[r.Key()].book && r.book.isbn13.Some? {
        assert isbn == r.book.isbn13.value;
      } else {
        assert SameIsbn(t, u, c);
      }
    }
  }

  // ----- what a batch leaves behind

  ghost predicate Known(u: Tables, rs: seq<Record>) {
    forall r :: r in rs ==> r.Key() in u.sources
  }

  /** The `b`th record is the last with an ISBN to be filed on the `a`th one's book. */
  ghost predicate Backs(u: Tables, rs: seq<Record>, a: nat, b: nat) {
    && a <= b < |rs| && rs[b].book.isbn13.Some?
    && OnOneBook(u.sources, rs[a].Key(), rs[b].Key())
    && u.sources[rs[a].Key()].book in u.books
    && u.books[u.sources[rs[a].Key()].book].isbn13 == rs[b].book.isbn13
  }

  /** A record with an ISBN sits on a book that has it, or has that of a record loaded after it. */
  ghost predicate Backed(u: Tables, rs: seq<Record>) {
    forall a: nat :: a < |rs| && rs[a].book.isbn13.Some? ==> exists b: nat :: Backs(u, rs, a, b)
  }

  lemma BackedStep(t: Tables, init: seq<Record>, r: Record, u: Tables, a: nat)
    requires Backed(t, init) && Moves(t, r, u)
    requires References(t) && References(u)
    requires a <= |init| && (init + [r])[a].book.isbn13.Some?
    ensures exists b: nat :: Backs(u, init + [r], a, b)
  {
    var rs, n := init + [r], |init|;
    assert rs[n] == r;
    MovesHome(t, r, u);
    hide Moves, References;
    if a < n {
      assert rs[a] == init[a];
      var b: nat :| Backs(t, init, a, b);
      assert rs[b] == init[b];
      BackingStays(t, r, u, init[a], init[b]);
      if u.sources[init[a].Key()].book == u.sources[r.Key()].book && r.book.isbn13.Some? {
        assert Backs(u, rs, a, n);
      } else {
        assert Backs(u, rs, a, b);
      }
    } else {
      assert Backs(u, rs, n, n);
    }
  }

  lemma MovesHome(t: Tables, r: Record, u: Tables)
    requires Moves(t, r, u)
    ensures r.Key() in u.sources && u.sources[r.Key()].book in u.books
    ensures r.book.isbn13.Some? ==> u.books[u.sources[r.Key()].book].isbn13 == r.book.isbn13
  {
  }

  lemma BackingStays(t: Tables, r: Record, u: Tables, p: Record, q: Record)
    requires Moves(t, r, u) && References(t) && References(u)
    requires OnOneBook(t.sources, p.Key(), q.Key())
    requires t.books[t.sources[p.Key()].book].isbn13 == q.book.isbn13
    ensures OnOneBook(u.sources, p.Key(), q.Key()) && u.sources[p.Key()].book in u.books
    ensures u.sources[p.Key()].book != u.sources[r.Key()].book || r.book.isbn13.None? ==>
      u.books[u.sources[p.Key()].book].isbn13 == q.book.isbn13
  {
    hide ForeignKeys;
    assert OnOneBook(u.sources, p.Key(), q.Key());
    var c := u.sources[p.Key()].book;
    if c != u.sources[r.Key()].book {
      assert p.Key() in AttachedTo(u.sources, c);
      assert SameIsbn(t, u, c);
    } else if r.book.isbn13.None? {
      assert SameIsbn(t, u, t.sources[p.Key()].book);
    }
  }

  /** What a catalogue holds of a batch that has just been loaded. */
  ghost predicate Delivered(u: Tables, rs: seq<Record>) {
    Inv(u) && Known(u, rs) && Backed(u, rs)
  }

  lemma KnownStep(t: Tables, init: seq<Record>, r: Record, u: Tables)
    requires Known(t, init) && u.sources.Keys == t.sources.Keys + {r.Key()}
    ensures Known(u, init + [r])
  {
  }

  lemma DeliveredStep(t: Tables, init: seq<Record>, r: Record)
    requires Delivered(t, init) && Mapped(r)
    ensures References(t) && LoadOne(t, r).Ok? && Delivered(LoadOne(t, r).value.tables, init + [r])
  {
    hide Inv, LoadOne, Mapped, Moves, Homed, Known, References, Backs, Sound;
    SoundParts(t);
    LoadMoves(t, r);
    LoadOneKeepsEverything(t, r);
    var u := LoadOne(t, r).value.tables;
    SoundParts(u);
    KnownStep(t, init, r, u);
    forall a: nat | a < |init + [r]| && (init + [r])[a].book.isbn13.Some? ensures exists b: nat :: Backs(u, init + [r], a, b) {
      BackedStep(t, init, r, u, a);
    }
  }

  lemma NothingDelivered(t: Tables)
    requires Inv(t)
    ensures Delivered(t, [])
  {
    hide Inv;
  }

  lemma {:induction false} PassDelivers(t: Tables, rs: seq<Record>)
    requires Inv(t) && AllRecordsMapped(rs)
    ensures Sound(t) && LoadAll(t, rs).Ok? && Delivered(LoadAll(t, rs).value.tables, rs)
  {
    SoundParts(t);
    hide *;
    if rs == [] {
      NothingLoaded(t);
      NothingDelivered(t);
    } else {
      var init, r := rs[..|rs|-1], rs[|rs|-1];
      PrefixIsMapped(rs);
      PassDelivers(t, init);
      DeliveredStep(LoadAll(t, init).value.tables, init, r);
      LoadAllStep(t, init, r);
      ThenIs(LoadAll(t, init).value, r);
    }
  }

  lemma ThenIs(before: Loaded, r: Record)
    requires Sound(before.tables) && LoadOne(before.tables, r).Ok?
    ensures Then(before, r) == Ok(Loaded(LoadOne(before.tables, r).value.tables,
                                         before.counts.Plus(LoadOne(before.tables, r).value.counts)))
  {
    hide LoadOne, Sound;
  }

  // ----- when every record is on a book with its ISBN

  /** No two records of the batch that sit on one book carry different ISBNs. */
  ghost predicate OneIsbnABook(u: Tables, rs: seq<Record>) {
    forall p, q :: p in rs && q in rs && p.book.isbn13.Some? && q.book.isbn13.Some?
        && OnOneBook(u.sources, p.Key(), q.Key())
      ==> p.book.isbn13 == q.book.isbn13
  }

  /** The record's row is on a book that has the record's ISBN, if it has one. */
  ghost predicate InPlace(t: Tables, r: Record) {
    && r.Key() in t.sources
    && t.sources[r.Key()].book in t.books
    && (r.book.isbn13.Some? ==> t.books[t.sources[r.Key()].book].isbn13 == r.book.isbn13)
  }

  ghost predicate AllInPlace(t: Tables, rs: seq<Record>) {
    forall r :: r in rs ==> InPlace(t, r)
  }

  lemma OneIsbnIsInPlace(u: Tables, rs: seq<Record>, r: Record)
    requires References(u) && Known(u, rs) && Backed(u, rs) && OneIsbnABook(u, rs) && r in rs
    ensures InPlace(u, r)
  {
    hide ForeignKeys;
    if r.book.isbn13.Some? {
      var a: nat :| a < |rs| && rs[a] == r;
      var b: nat :| Backs(u, rs, a, b);
      assert rs[b] in rs;
    }
  }

  lemma InPlaceAlike(u: Tables, p: Record, q: Record)
    requires InPlace(u, p) && InPlace(u, q) && OnOneBook(u.sources, p.Key(), q.Key())
    requires p.book.isbn13.Some? && q.book.isbn13.Some?
    ensures p.book.isbn13 == q.book.isbn13
  {
  }

  lemma InPlaceExactlyWhenOneIsbn(u: Tables, rs: seq<Record>)
    requires References(u) && Known(u, rs) && Backed(u, rs)
    ensures AllInPlace(u, rs) <==> OneIsbnABook(u, rs)
  {
    hide References, InPlace, OnOneBook, Known, Backed;
    if OneIsbnABook(u, rs) {
      forall r | r in rs ensures InPlace(u, r) {
        OneIsbnIsInPlace(u, rs, r);
      }
    }
    if AllInPlace(u, rs) {
      forall p, q | p in rs && q in rs && p.book.isbn13.Some? && q.book.isbn13.Some?
          && OnOneBook(u.sources, p.Key(), q.Key())
        ensures p.book.isbn13 == q.book.isbn13
      {
        InPlaceAlike(u, p, q);
      }
    }
  }

  // ----- loading a record that is in place

  /** The fingerprint a book would have from these payloads. */
  function Says(identity: IdentityKey, sources: map<Key, SourceRow>, b: BookId): ContentHash {
    var cs := Candidates(sources, b);
    match MergedUnder(identity, cs)
    case Err(_) => Unset
    case Ok(merged) => Digest(merged.isbn13, Columns(merged, cs))
  }

  /** The provenance once a record's payload has replaced the one stored under its key. */
  function Restore(sources: map<Key, SourceRow>, r: Record): map<Key, SourceRow> {
    if r.Key() in sources then sources[r.Key() := sources[r.Key()].(payload := r.payload)] else sources
  }

  /** Nothing has moved: the same books with the same ISBNs, and the same rows on each. */
  ghost predicate SamePlaces(t: Tables, u: Tables) {
    && u.books.Keys == t.books.Keys
    && (forall b :: b in t.books ==> u.books[b].identity == t.books[b].identity && u.books[b].isbn13 == t.books[b].isbn13)
    && u.sources.Keys == t.sources.Keys
    && (forall k :: k in t.sources ==> u.sources[k].book == t.sources[k].book)
  }

  const UNMOVED := Counts(0, 0, 1, 1, 0)

  lemma InPlaceFiling(t: Tables, r: Record)
    requires References(t) && InPlace(t, r)
    ensures FindHome(t, r) == Home(t, t.sources[r.Key()].book, 0, 0)
    ensures Filed(t, r) == t.(sources := Restore(t.sources, r))
  {
  }

  lemma SyncedSays(t: Tables, b: BookId)
    requires b in t.books && Synced(t, b)
    ensures t.books[b].contentHash == Says(t.books[b].identity, t.sources, b) && t.books[b].contentHash.Digest?
  {
  }

  lemma CountsBySaying(row: BookRow, sources: map<Key, SourceRow>, b: BookId, merged: CleanBook)
    requires row.contentHash.Digest? && MergedUnder(row.identity, Candidates(sources, b)) == Ok(merged)
    ensures RewriteCounts(row, merged, Candidates(sources, b)).Plus(Counts(0, 0, 0, 1, 0)) ==
      if Says(row.identity, sources, b) == row.contentHash then UNMOVED else UPDATED
  {
    hide Candidates, MergedUnder, Columns;
  }

  /** A record in place moves nothing; it counts as an update exactly when its payload alters what its book says. */
  lemma InPlaceLoad(t: Tables, r: Record)
    requires Inv(t) && Mapped(r) && InPlace(t, r)
    ensures References(t) && LoadOne(t, r).Ok?
    ensures var u := LoadOne(t, r).value.tables; SamePlaces(t, u) && u.sources == Restore(t.sources, r)
    ensures var b := t.sources[r.Key()].book; var identity := t.books[b].identity;
      LoadOne(t, r).value.counts ==
        if Says(identity, Restore(t.sources, r), b) == Says(identity, t.sources, b) then UNMOVED else UPDATED
  {
    hide *;
    SoundParts(t);
    InPlaceParts(t, r);
    var b := t.sources[r.Key()].book;
    InvIsSynced(t, b);
    SyncedSays(t, b);
    AllAreMapped(t);
    InPlaceFiling(t, r);
    FiledIsRecomputable(t, r);
    LoadOneRuns(t, r);
    LoadOneSettles(t, r);
    RecomputeRuns(Filed(t, r), b);
    var cs := Candidates(Filed(t, r).sources, b);
    CountsBySaying(t.books[b], Filed(t, r).sources, b, MergedUnder(t.books[b].identity, cs).value);
    SoundParts(t);
    LoadOneKeepsEverything(t, r);
    SoundParts(LoadOne(t, r).value.tables);
    SettledInPlace(t, r, LoadOne(t, r).value.tables, b);
  }

  lemma InPlaceParts(t: Tables, r: Record)
    requires InPlace(t, r)
    ensures r.Key() in t.sources && t.sources[r.Key()].book in t.books
  {
  }

  lemma SettledInPlace(t: Tables, r: Record, u: Tables, b: BookId)
    requires Settled(t.(sources := Restore(t.sources, r)), u, b) && Identified(t.books) && Identified(u.books)
    ensures SamePlaces(t, u) && u.sources == Restore(t.sources, r)
  {
    var mid := t.(sources := Restore(t.sources, r));
    forall c | c in t.books ensures u.books[c].identity == t.books[c].identity && u.books[c].isbn13 == t.books[c].isbn13 {
      SettledIsbn(mid, u, b, c);
    }
  }

  // ----- a pass of records in place

  /** Provenance after the records' payloads have replaced those stored, one after the other. */
  function Restored(sources: map<Key, SourceRow>, rs: seq<Record>): map<Key, SourceRow> {
    if rs == [] then sources else Restore(Restored(sources, rs[..|rs|-1]), rs[|rs|-1])
  }

  /** Whether a record's payload, at its turn, alters what its book says. */
  predicate Alters(u: Tables, sources: map<Key, SourceRow>, r: Record) {
    && r.Key() in u.sources && u.sources[r.Key()].book in u.books
    && var b := u.sources[r.Key()].book;
    Says(u.books[b].identity, Restore(sources, r), b) != Says(u.books[b].identity, sources, b)
  }

  /** How many of a batch's payloads, each at its turn, alter what their book says. */
  function Alterations(u: Tables, rs: seq<Record>): (n: nat)
    ensures n <= |rs|
  {
    if rs == [] then 0 else
      Alterations(u, rs[..|rs|-1]) + if Alters(u, Restored(u.sources, rs[..|rs|-1]), rs[|rs|-1]) then 1 else 0
  }

  lemma SamePlacesTwice(t: Tables, s: Tables, u: Tables)
    requires SamePlaces(t, s) && SamePlaces(s, u)
    ensures SamePlaces(t, u)
  {
  }

  lemma StillInPlace(t: Tables, s: Tables, r: Record)
    requires SamePlaces(t, s) && InPlace(t, r)
    ensures InPlace(s, r) && s.sources[r.Key()].book == t.sources[r.Key()].book
    ensures s.books[s.sources[r.Key()].book].identity == t.books[t.sources[r.Key()].book].identity
  {
  }

  ghost predicate Replaced(u: Tables, rs: seq<Record>, done: Loaded) {
    && Inv(done.tables) && SamePlaces(u, done.tables)
    && done.tables.sources == Restored(u.sources, rs)
    && done.counts == Counts(0, Alterations(u, rs), |rs| - Alterations(u, rs), |rs|, 0)
  }

  lemma ReplacedStep(u: Tables, init: seq<Record>, r: Record, before: Loaded, last: Loaded)
    requires Replaced(u, init, before)
    requires Inv(last.tables) && SamePlaces(before.tables, last.tables)
    requires last.tables.sources == Restore(before.tables.sources, r)
    requires last.counts == if Alters(u, before.tables.sources, r) then UPDATED else UNMOVED
    ensures Replaced(u, init + [r], Loaded(last.tables, before.counts.Plus(last.counts)))
  {
    hide *;
    ReplacedState(u, init, before);
    SamePlacesTwice(u, before.tables, last.tables);
    OneMoreRestored(u, init, r);
    AlteredOnceMore(Alterations(u, init), |init|, Alters(u, before.tables.sources, r), before.counts, last.counts);
    IsReplaced(u, init + [r], Loaded(last.tables, before.counts.Plus(last.counts)));
  }

  lemma ReplacedState(u: Tables, rs: seq<Record>, done: Loaded)
    requires Replaced(u, rs, done)
    ensures SamePlaces(u, done.tables) && done.tables.sources == Restored(u.sources, rs)
    ensures done.counts == Counts(0, Alterations(u, rs), |rs| - Alterations(u, rs), |rs|, 0)
  {
    hide Inv, SamePlaces;
  }

  lemma IsReplaced(u: Tables, rs: seq<Record>, done: Loaded)
    requires Inv(done.tables) && SamePlaces(u, done.tables) && done.tables.sources == Restored(u.sources, rs)
    requires done.counts == Counts(0, Alterations(u, rs), |rs| - Alterations(u, rs), |rs|, 0)
    ensures Replaced(u, rs, done)
  {
    hide Inv, SamePlaces;
  }

  lemma OneMoreRestored(u: Tables, init: seq<Record>, r: Record)
    ensures Restored(u.sources, init + [r]) == Restore(Restored(u.sources, init), r)
    ensures Alterations(u, init + [r]) ==
      Alterations(u, init) + if Alters(u, Restored(u.sources, init), r) then 1 else 0
  {
    hide Alters, Restore;
    assert (init + [r])[..|init|] == init;
  }

  lemma AlteredOnceMore(k: nat, n: nat, alters: bool, before: Counts, last: Counts)
    requires k <= n && before == Counts(0, k, n - k, n, 0) && last == if alters then UPDATED else UNMOVED
    ensures var m := k + if alters then 1 else 0; before.Plus(last) == Counts(0, m, n + 1 - m, n + 1, 0)
  {
  }

  lemma AltersHere(u: Tables, s: Tables, r: Record)
    requires SamePlaces(u, s) && InPlace(u, r)
    ensures InPlace(s, r)
    ensures var b := s.sources[r.Key()].book;
      Alters(u, s.sources, r) <==> Says(s.books[b].identity, Restore(s.sources, r), b) != Says(s.books[b].identity, s.sources, b)
  {
    hide Says;
    StillInPlace(u, s, r);
  }

  lemma NothingReplaced(u: Tables)
    requires Inv(u)
    ensures Replaced(u, [], Loaded(u, ZERO))
  {
    hide Inv;
  }

  lemma ReplacedParts(u: Tables, rs: seq<Record>, done: Loaded)
    requires Replaced(u, rs, done)
    ensures Inv(done.tables) && SamePlaces(u, done.tables) && Sound(done.tables)
    ensures done.counts == Counts(0, Alterations(u, rs), |rs| - Alterations(u, rs), |rs|, 0)
  {
    hide Alterations, SamePlaces;
  }

  lemma PrefixInPlace(u: Tables, rs: seq<Record>)
    requires AllInPlace(u, rs) && rs != []
    ensures AllInPlace(u, rs[..|rs|-1]) && InPlace(u, rs[|rs|-1])
  {
    hide InPlace;
    KeysOfPrefix(rs);
  }

  /** Such a pass moves nothing and counts as updates exactly the payloads that alter what their books say. */
  lemma {:induction false} PassInPlace(u: Tables, rs: seq<Record>)
    requires Inv(u) && AllRecordsMapped(rs) && AllInPlace(u, rs)
    ensures Sound(u) && LoadAll(u, rs).Ok? && Replaced(u, rs, LoadAll(u, rs).value)
  {
    hide *;
    SoundParts(u);
    if rs == [] {
      NothingLoaded(u);
      NothingReplaced(u);
    } else {
      var init, r := rs[..|rs|-1], rs[|rs|-1];
      PrefixIsMapped(rs);
      PrefixInPlace(u, rs);
      PassInPlace(u, init);
      var before := LoadAll(u, init).value;
      ReplacedParts(u, init, before);
      AltersHere(u, before.tables, r);
      InPlaceLoad(before.tables, r);
      LoadOneKeepsEverything(before.tables, r);
      ReplacedStep(u, init, r, before, LoadOne(before.tables, r).value);
      LoadAllStep(u, init, r);
      ThenIs(before, r);
    }
  }

  // ----- the second pass

  lemma SlicesMapped(rs: seq<Record>, k: nat)
    requires AllRecordsMapped(rs) && k <= |rs|
    ensures AllRecordsMapped(rs[..k]) && rs[..k] + rs[k..] == rs
    ensures k < |rs| ==> Mapped(rs[k]) && rs[..k] + [rs[k]] == rs[..k + 1]
  {
    hide Mapped;
    assert k < |rs| ==> rs[k] in rs;
    assert forall r :: r in rs[..k] ==> r in rs;
  }

  lemma ChangesAddUp(a: Loaded, b: Loaded)
    ensures a.counts.Plus(b.counts).Changed() == a.counts.Changed() + b.counts.Changed()
  {
  }

  lemma PrefixIsQuiet(t: Tables, rs: seq<Record>, k: nat)
    requires Inv(t) && Sound(t) && AllRecordsMapped(rs) && LoadAll(t, rs).Ok? && LoadAll(t, rs).value.counts.Changed() == 0
    requires k <= |rs|
    ensures LoadAll(t, rs[..k]).Ok? && LoadAll(t, rs[..k]).value.counts.Changed() == 0
    ensures Inv(LoadAll(t, rs[..k]).value.tables)
    ensures t.sources.Keys <= LoadAll(t, rs[..k]).value.tables.sources.Keys
  {
    hide Inv, Sound, LoadAll, Mapped, Counts.Changed, Counts.Plus;
    SlicesMapped(rs, k);
    LoadAllKeepsEverything(t, rs[..k]);
    LoadAllInParts(t, rs[..k], rs[k..]);
    var a := LoadAll(t, rs[..k]).value;
    if LoadAll(a.tables, rs[k..]).Ok? {
      ChangesAddUp(a, LoadAll(a.tables, rs[k..]).value);
    }
  }

  /** The load that follows a prefix of a pass that inserts and updates nothing does neither. */
  lemma QuietSoFar(t: Tables, rs: seq<Record>, k: nat)
    requires Inv(t) && Sound(t) && AllRecordsMapped(rs) && LoadAll(t, rs).Ok? && LoadAll(t, rs).value.counts.Changed() == 0
    requires k < |rs|
    ensures LoadAll(t, rs[..k]).Ok?
    ensures var s := LoadAll(t, rs[..k]).value.tables;
      && Inv(s) && t.sources.Keys <= s.sources.Keys && Mapped(rs[k])
      && LoadOne(s, rs[k]).Ok? && LoadOne(s, rs[k]).value.counts.Changed() == 0
      && LoadAll(t, rs[..k + 1]).Ok? && LoadAll(t, rs[..k + 1]).value.tables == LoadOne(s, rs[k]).value.tables
  {
    hide *;
    SlicesMapped(rs, k);
    PrefixIsQuiet(t, rs, k);
    PrefixIsQuiet(t, rs, k + 1);
    var s := LoadAll(t, rs[..k]).value;
    SoundParts(s.tables);
    LoadOneKeepsEverything(s.tables, rs[k]);
    LoadAllStep(t, rs[..k], rs[k]);
    ThenIs(s, rs[k]);
    ChangesAddUp(s, LoadOne(s.tables, rs[k]).value);
  }

  lemma {:induction false} StaysUnowned(t: Tables, rs: seq<Record>, a: nat, k: nat, isbn: string)
    requires Inv(t) && Sound(t) && AllRecordsMapped(rs) && LoadAll(t, rs).Ok? && LoadAll(t, rs).value.counts.Changed() == 0
    requires Known(t, rs) && a <= k <= |rs| && LoadAll(t, rs[..a]).Ok? && LoadAll(t, rs[..k]).Ok?
    requires !Owned(LoadAll(t, rs[..a]).value.tables.books, isbn)
    ensures !Owned(LoadAll(t, rs[..k]).value.tables.books, isbn)
    decreases k
  {
    hide Inv, Sound, LoadAll, LoadOne, Owned, Mapped, AllRecordsMapped;
    if a < k {
      QuietSoFar(t, rs, k - 1);
      StaysUnowned(t, rs, a, k - 1, isbn);
      var s := LoadAll(t, rs[..k - 1]).value.tables;
      SoundParts(s);
      assert rs[k - 1] in rs;
      QuietLoadOwnsNothingNew(s, rs[k - 1], LoadOne(s, rs[k - 1]).value, isbn);
    }
  }

  lemma MergedFiling(t: Tables, r: Record, isbn: string)
    requires Sound(t) && r.Key() in t.sources && r.book.isbn13.Some? && Owned(t.books, r.book.isbn13.value)
    requires t.books[t.sources[r.Key()].book].isbn13 == Some(isbn) && Some(isbn) != r.book.isbn13
    ensures FindHome(t, r).book in FindHome(t, r).tables.books
    ensures !Owned(FindHome(t, r).tables.books, isbn)
  {
    var b := t.sources[r.Key()].book;
    var h := FindHome(t, r);
    assert h.tables.books == t.books - {b};
    forall i | i in t.books && t.books[i].isbn13 == Some(isbn) ensures i == b {
      assert t.books[i].isbn13 == IsbnOf(t.books[i].identity) && t.books[b].isbn13 == IsbnOf(t.books[b].identity);
    }
  }

  /** A stored record whose ISBN another book owns takes its book, and that book's ISBN, away. */
  lemma MergedIsbnGoes(t: Tables, r: Record, isbn: string)
    requires Inv(t) && Mapped(r) && r.Key() in t.sources && References(t)
    requires r.book.isbn13.Some? && Owned(t.books, r.book.isbn13.value)
    requires t.books[t.sources[r.Key()].book].isbn13 == Some(isbn) && Some(isbn) != r.book.isbn13
    ensures LoadOne(t, r).Ok? && !Owned(LoadOne(t, r).value.tables.books, isbn)
  {
    SoundParts(t);
    MergedFiling(t, r, isbn);
    LoadOneSettles(t, r);
    FiledIsRight(t, r);
    LoadOneIsSound(t, r);
    hide FindHome, LoadOne, Inv, Mapped, Synced;
    SettledOwnsAlike(Filed(t, r), LoadOne(t, r).value.tables, FindHome(t, r).book, isbn);
  }

  lemma SettledOwnsAlike(mid: Tables, u: Tables, b: BookId, isbn: string)
    requires Settled(mid, u, b) && Identified(mid.books) && Identified(u.books)
    ensures Owned(u.books, isbn) ==> Owned(mid.books, isbn)
  {
    if Owned(u.books, isbn) {
      var c :| c in u.books && u.books[c].isbn13 == Some(isbn);
      SettledIsbn(mid, u, b, c);
    }
  }

  /** The first record that is not in place. */
  lemma {:induction false} FirstAstray(u: Tables, rs: seq<Record>) returns (a: nat)
    requires !AllInPlace(u, rs)
    ensures a < |rs| && !InPlace(u, rs[a]) && AllInPlace(u, rs[..a])
  {
    hide InPlace;
    var r :| r in rs && !InPlace(u, r);
    if AllInPlace(u, rs[..|rs|-1]) {
      a := |rs| - 1;
      assert rs == rs[..a] + [rs[a]];
    } else {
      a := FirstAstray(u, rs[..|rs|-1]);
      assert rs[..|rs|-1][..a] == rs[..a];
    }
  }

  lemma AstrayIsbn(u: Tables, rs: seq<Record>, a: nat)
    requires References(u) && Known(u, rs) && Backed(u, rs) && a < |rs| && !InPlace(u, rs[a])
    ensures rs[a].book.isbn13.Some? && rs[a].Key() in u.sources
    ensures exists b: nat :: a < b < |rs| && Backs(u, rs, a, b) && rs[b].book.isbn13 != rs[a].book.isbn13
  {
    hide ForeignKeys;
    assert rs[a] in rs;
    var b: nat :| Backs(u, rs, a, b);
  }

  lemma SameHome(u: Tables, s: Tables, k: Key)
    requires SamePlaces(u, s) && k in u.sources && u.sources[k].book in u.books
    ensures k in s.sources && s.sources[k].book in s.books && s.sources[k].book == u.sources[k].book
    ensures s.books[s.sources[k].book].isbn13 == u.books[u.sources[k].book].isbn13
  {
  }

  lemma BackIsKnown(u: Tables, rs: seq<Record>, a: nat, b: nat)
    requires Backs(u, rs, a, b) && Known(u, rs)
    ensures a < |rs| && b < |rs| && rs[b].book.isbn13.Some? && rs[a].Key() in u.sources && rs[b].Key() in u.sources
    ensures u.sources[rs[a].Key()].book in u.books
    ensures u.books[u.sources[rs[a].Key()].book].isbn13 == rs[b].book.isbn13
  {
  }

  lemma SameAfterPrefix(u: Tables, rs: seq<Record>, a: nat)
    requires Inv(u) && AllRecordsMapped(rs) && a <= |rs| && AllInPlace(u, rs[..a])
    ensures Sound(u) && LoadAll(u, rs[..a]).Ok? && SamePlaces(u, LoadAll(u, rs[..a]).value.tables)
  {
    hide *;
    SlicesMapped(rs, a);
    PassInPlace(u, rs[..a]);
    ReplacedParts(u, rs[..a], LoadAll(u, rs[..a]).value);
  }

  /** The first record astray is merged elsewhere, and the ISBN its book had is nobody's. */
  lemma AstrayMerges(u: Tables, rs: seq<Record>, a: nat, b: nat)
    requires Delivered(u, rs) && Sound(u) && AllRecordsMapped(rs)
    requires LoadAll(u, rs).Ok? && LoadAll(u, rs).value.counts.Changed() == 0
    requires a < b < |rs| && Backs(u, rs, a, b) && rs[a].book.isbn13.Some? && rs[b].book.isbn13 != rs[a].book.isbn13
    requires AllInPlace(u, rs[..a]) && rs[b].book.isbn13.Some?
    ensures LoadAll(u, rs[..a + 1]).Ok? && !Owned(LoadAll(u, rs[..a + 1]).value.tables.books, rs[b].book.isbn13.value)
  {
    hide *;
    var r, isbn := rs[a], rs[b].book.isbn13.value;
    DeliveredParts(u, rs);
    BackIsKnown(u, rs, a, b);
    QuietSoFar(u, rs, a);
    SameAfterPrefix(u, rs, a);
    var s := LoadAll(u, rs[..a]).value.tables;
    SoundParts(s);
    SameHome(u, s, r.Key());
    if Owned(s.books, r.book.isbn13.value) {
      MergedIsbnGoes(s, r, isbn);
    } else {
      PromotionCounts(s, r);
      UpdateIsAChange();
    }
  }

  lemma DeliveredParts(u: Tables, rs: seq<Record>)
    requires Delivered(u, rs)
    ensures Inv(u) && Known(u, rs) && Backed(u, rs) && References(u) && Sound(u)
  {
  }

  /** A batch with a record astray is counted: it is promoted, or the ISBN it leaves unowned is promoted to later. */
  lemma AstrayIsCounted(u: Tables, rs: seq<Record>, a: nat, b: nat)
    requires Delivered(u, rs) && Sound(u) && AllRecordsMapped(rs) && LoadAll(u, rs).Ok?
    requires a < b < |rs| && Backs(u, rs, a, b) && rs[a].book.isbn13.Some? && rs[b].book.isbn13 != rs[a].book.isbn13
    requires AllInPlace(u, rs[..a])
    ensures LoadAll(u, rs).value.counts.Changed() > 0
  {
    hide *;
    if LoadAll(u, rs).value.counts.Changed() == 0 {
      DeliveredParts(u, rs);
      BackIsKnown(u, rs, a, b);
      AstrayMerges(u, rs, a, b);
      QuietSoFar(u, rs, b);
      StaysUnowned(u, rs, a + 1, b, rs[b].book.isbn13.value);
      PromotionCounts(LoadAll(u, rs[..b]).value.tables, rs[b]);
      UpdateIsAChange();
    }
  }

  lemma AstrayPassIsCounted(u: Tables, rs: seq<Record>)
    requires Delivered(u, rs) && Sound(u) && AllRecordsMapped(rs) && LoadAll(u, rs).Ok? && !AllInPlace(u, rs)
    ensures LoadAll(u, rs).value.counts.Changed() > 0
  {
    hide *;
    DeliveredParts(u, rs);
    var a := FirstAstray(u, rs);
    AstrayIsbn(u, rs, a);
    var b: nat :| a < b < |rs| && Backs(u, rs, a, b) && rs[b].book.isbn13 != rs[a].book.isbn13;
    AstrayIsCounted(u, rs, a, b);
  }

  lemma AlteredCounts(n: nat, altered: nat)
    requires altered <= n
    ensures Counts(0, altered, n - altered, n, 0).Changed() == altered
  {
  }

  /**
   * Load any batch, keys repeated or not, into any catalogue, and load it again. When no two of
   * its records left on one book carry different ISBNs, the second pass merges nothing and counts
   * as updates exactly the payloads that, each at its turn, alter what their book says. Otherwise
   * it counts an update.
   */
  lemma SecondPassCounts(t: Tables, rs: seq<Record>)
    requires Inv(t) && AllRecordsMapped(rs)
    ensures Sound(t) && LoadAll(t, rs).Ok?
    ensures var once := LoadAll(t, rs).value.tables; var again := LoadAll(once, rs);
      && again.Ok?
      && (OneIsbnABook(once, rs) ==>
            again.value.counts == Counts(0, Alterations(once, rs), |rs| - Alterations(once, rs), |rs|, 0))
      && (!OneIsbnABook(once, rs) ==> again.value.counts.Changed() > 0)
      && (again.value.counts.Changed() == 0 <==> OneIsbnABook(once, rs) && Alterations(once, rs) == 0)
  {
    hide *;
    PassDelivers(t, rs);
    var once := LoadAll(t, rs).value.tables;
    DeliveredParts(once, rs);
    InPlaceExactlyWhenOneIsbn(once, rs);
    LoadAllKeepsEverything(once, rs);
    AlteredCounts(|rs|, Alterations(once, rs));
    if AllInPlace(once, rs) {
      PassInPlace(once, rs);
      ReplacedParts(once, rs, LoadAll(once, rs).value);
    } else {
      AstrayPassIsCounted(once, rs);
    }
  }

  // ----- one payload a key

  /** Records under one key came with one payload. */
  ghost predicate OnePayloadAKey(rs: seq<Record>) {
    forall p, q :: p in rs && q in rs && p.Key() == q.Key() ==> p.payload == q.payload
  }

  ghost predicate Stored(u: Tables, rs: seq<Record>) {
    forall r :: r in rs ==> r.Key() in u.sources && u.sources[r.Key()].payload == r.payload
  }

  lemma StoredStep(t: Tables, init: seq<Record>, r: Record, u: Tables)
    requires Stored(t, init) && OnePayloadAKey(init + [r]) && Homed(u, r)
    requires u.sources.Keys == t.sources.Keys + {r.Key()}
    requires forall k :: k in t.sources && k != r.Key() ==> u.sources[k].payload == t.sources[k].payload
    ensures Stored(u, init + [r])
  {
    var rs := init + [r];
    forall q | q in rs ensures q.Key() in u.sources && u.sources[q.Key()].payload == q.payload {
      assert r in rs;
      assert q == r || q in init;
    }
  }

  lemma OnePayloadInit(rs: seq<Record>)
    requires OnePayloadAKey(rs) && rs != []
    ensures OnePayloadAKey(rs[..|rs|-1])
  {
    KeysOfPrefix(rs);
  }

  lemma NothingStored(t: Tables)
    ensures Stored(t, [])
  {
  }

  lemma {:induction false} PassStores(t: Tables, rs: seq<Record>)
    requires Inv(t) && AllRecordsMapped(rs) && OnePayloadAKey(rs)
    ensures Sound(t) && LoadAll(t, rs).Ok? && Inv(LoadAll(t, rs).value.tables) && Stored(LoadAll(t, rs).value.tables, rs)
  {
    hide *;
    SoundParts(t);
    if rs == [] {
      NothingLoaded(t);
      NothingStored(t);
    } else {
      var init, r := rs[..|rs|-1], rs[|rs|-1];
      PrefixIsMapped(rs);
      OnePayloadInit(rs);
      PassStores(t, init);
      var before := LoadAll(t, init).value;
      SoundParts(before.tables);
      LoadOneKeepsEverything(before.tables, r);
      StoredStep(before.tables, init, r, LoadOne(before.tables, r).value.tables);
      LoadAllStep(t, init, r);
      ThenIs(before, r);
    }
  }

  lemma HomedIsStoredInPlace(u: Tables, rs: seq<Record>)
    ensures AllHomed(u, rs) <==> AllInPlace(u, rs) && Stored(u, rs)
  {
    forall r | r in rs ensures Homed(u, r) <==> InPlace(u, r) && r.Key() in u.sources && u.sources[r.Key()].payload == r.payload {
    }
  }

  lemma RestoredIsStored(u: Tables, rs: seq<Record>, r: Record)
    requires Stored(u, rs) && r in rs
    ensures Restore(u.sources, r) == u.sources
  {
    assert u.sources[r.Key() := u.sources[r.Key()]] == u.sources;
  }

  lemma {:induction false} StoredAltersNothing(u: Tables, rs: seq<Record>)
    requires Stored(u, rs)
    ensures Restored(u.sources, rs) == u.sources && Alterations(u, rs) == 0
  {
    hide Says;
    if rs != [] {
      KeysOfPrefix(rs);
      StoredAltersNothing(u, rs[..|rs|-1]);
      RestoredIsStored(u, rs, rs[|rs|-1]);
    }
  }

  /**
   * When records under one key came with one payload, the second pass inserts and updates
   * nothing exactly when no two records left on one book carry different ISBNs; every record
   * then counts as unchanged, and every catalogue row is as it was.
   */
  lemma SecondPassIsQuietExactlyWhen(t: Tables, rs: seq<Record>)
    requires Inv(t) && AllRecordsMapped(rs) && OnePayloadAKey(rs)
    ensures Sound(t) && LoadAll(t, rs).Ok?
    ensures var once := LoadAll(t, rs).value.tables; var again := LoadAll(once, rs);
      && again.Ok?
      && (again.value.counts.Changed() == 0 <==> OneIsbnABook(once, rs))
      && (again.value.counts == Counts(0, 0, |rs|, |rs|, 0) <==> OneIsbnABook(once, rs))
      && (OneIsbnABook(once, rs) ==> SameCatalogue(once, again.value.tables))
  {
    hide *;
    SecondPassCounts(t, rs);
    PassStores(t, rs);
    PassDelivers(t, rs);
    var once := LoadAll(t, rs).value.tables;
    StoredAltersNothing(once, rs);
    AlteredCounts(|rs|, 0);
    DeliveredParts(once, rs);
    InPlaceExactlyWhenOneIsbn(once, rs);
    HomedIsStoredInPlace(once, rs);
    if OneIsbnABook(once, rs) {
      ReloadAll(once, rs);
      ReloadedSame(once, LoadAll(once, rs).value, |rs|);
    }
  }

  lemma ReloadedSame(t: Tables, done: Loaded, n: nat)
    requires Reloaded(t, done, n)
    ensures SameCatalogue(t, done.tables) && Inv(done.tables)
  {
    hide SameCatalogue, Inv;
  }

  // ----- when no step of the second pass changes a row

  ghost predicate StepsLeaveRows(u: Tables, rs: seq<Record>)
    requires Sound(u)
  {
    forall k: nat :: k <= |rs| ==> RowsAfter(u, rs, k)
  }

  ghost predicate RowsAfter(u: Tables, rs: seq<Record>, k: nat)
    requires Sound(u)
  {
    k <= |rs| && LoadAll(u, rs[..k]).Ok? && SameCatalogue(u, LoadAll(u, rs[..k]).value.tables)
  }

  lemma HomedLeavesRows(u: Tables, rs: seq<Record>, k: nat)
    requires Inv(u) && AllRecordsMapped(rs) && AllHomed(u, rs) && k <= |rs|
    ensures Sound(u) && RowsAfter(u, rs, k)
  {
    hide *;
    SlicesMapped(rs, k);
    SliceHomed(u, rs, k);
    SoundParts(u);
    ReloadAll(u, rs[..k]);
    ReloadedSame(u, LoadAll(u, rs[..k]).value, k);
    RowsAre(u, rs, k);
  }

  lemma SliceHomed(u: Tables, rs: seq<Record>, k: nat)
    requires AllHomed(u, rs) && k <= |rs|
    ensures AllHomed(u, rs[..k])
  {
    hide Homed;
  }

  lemma RowsAre(u: Tables, rs: seq<Record>, k: nat)
    requires Sound(u) && k <= |rs|
    ensures RowsAfter(u, rs, k) <==> LoadAll(u, rs[..k]).Ok? && SameCatalogue(u, LoadAll(u, rs[..k]).value.tables)
  {
    hide LoadAll, SameCatalogue, Sound;
  }

  lemma SameCatalogueBetween(t: Tables, s: Tables, u: Tables)
    requires SameCatalogue(t, s) && SameCatalogue(t, u)
    ensures SameCatalogue(s, u)
  {
  }

  lemma HomedBefore(t: Tables, s: Tables, r: Record)
    requires SameCatalogue(t, s) && References(s)
    requires r.Key() in s.sources && s.sources[r.Key()].payload == r.payload
    requires r.book.isbn13.Some? ==> s.books[s.sources[r.Key()].book].isbn13 == r.book.isbn13
    ensures Homed(t, r)
  {
    hide ForeignKeys;
  }

  lemma UnmovedIsHomed(u: Tables, rs: seq<Record>, k: nat)
    requires Inv(u) && Sound(u) && AllRecordsMapped(rs) && k < |rs| && RowsAfter(u, rs, k) && RowsAfter(u, rs, k + 1)
    ensures Homed(u, rs[k])
  {
    hide *;
    RowsAre(u, rs, k);
    RowsAre(u, rs, k + 1);
    SlicesMapped(rs, k);
    LoadAllKeepsEverything(u, rs[..k]);
    var s := LoadAll(u, rs[..k]).value;
    SoundParts(s.tables);
    LoadChangesNothingExactlyWhen(s.tables, rs[k]);
    LoadAllStep(u, rs[..k], rs[k]);
    ThenIs(s, rs[k]);
    SameCatalogueBetween(u, s.tables, LoadOne(s.tables, rs[k]).value.tables);
    HomedBefore(u, s.tables, rs[k]);
  }

  lemma StoredIsOnePayload(u: Tables, rs: seq<Record>)
    requires Stored(u, rs)
    ensures OnePayloadAKey(rs)
  {
  }

  lemma RowsLeft(u: Tables, rs: seq<Record>)
    requires Inv(u) && AllRecordsMapped(rs)
    ensures Sound(u) && (StepsLeaveRows(u, rs) <==> AllHomed(u, rs))
  {
    SoundParts(u);
    hide Inv, Sound, AllRecordsMapped, RowsAfter, Homed;
    if StepsLeaveRows(u, rs) {
      forall r | r in rs ensures Homed(u, r) {
        var k: nat :| k < |rs| && rs[k] == r;
        UnmovedIsHomed(u, rs, k);
      }
    }
    if AllHomed(u, rs) {
      forall k: nat | k <= |rs| ensures RowsAfter(u, rs, k) {
        HomedLeavesRows(u, rs, k);
      }
    }
  }

  /**
   * For any batch: no step of the second pass changes a catalogue row exactly when no two records
   * of one key carry different payloads and no two left on one book carry different ISBNs.
   */
  lemma NoStepMovesARowExactlyWhen(t: Tables, rs: seq<Record>)
    requires Inv(t) && AllRecordsMapped(rs)
    ensures Sound(t) && LoadAll(t, rs).Ok?
    ensures var once := LoadAll(t, rs).value.tables;
      StepsLeaveRows(once, rs) <==> OnePayloadAKey(rs) && OneIsbnABook(once, rs)
  {
    hide *;
    PassDelivers(t, rs);
    var once := LoadAll(t, rs).value.tables;
    DeliveredParts(once, rs);
    InPlaceExactlyWhenOneIsbn(once, rs);
    HomedIsStoredInPlace(once, rs);
    RowsLeft(once, rs);
    if OnePayloadAKey(rs) {
      PassStores(t, rs);
    }
    if Stored(once, rs) {
      StoredIsOnePayload(once, rs);
    }
  }

  // ----- redelivery

  /**
   * A crash after `xs + ys` with only `xs` committed delivers `ys` again. Whatever was there
   * before, it counts no change exactly when no two records of `ys` left on one book carry
   * different ISBNs and none of its payloads, at its turn, alters what its book says; and no step
   * of it changes a catalogue row exactly when no two carry different ISBNs on one book or
   * different payloads under one key.
   */
  lemma RedeliveryIsHarmlessExactlyWhen(t: Tables, xs: seq<Record>, ys: seq<Record>)
    requires Inv(t) && AllRecordsMapped(xs) && AllRecordsMapped(ys)
    ensures Sound(t) && LoadAll(t, xs + ys).Ok?
    ensures var written := LoadAll(t, xs + ys).value.tables; var again := LoadAll(written, ys);
      && again.Ok?
      && (again.value.counts.Changed() == 0 <==> OneIsbnABook(written, ys) && Alterations(written, ys) == 0)
      && (OnePayloadAKey(ys) ==> (again.value.counts.Changed() == 0 <==> OneIsbnABook(written, ys)))
      && (StepsLeaveRows(written, ys) <==> OnePayloadAKey(ys) && OneIsbnABook(written, ys))
  {
    hide *;
    SoundParts(t);
    LoadAllKeepsEverything(t, xs);
    var before := LoadAll(t, xs).value;
    SecondPassCounts(before.tables, ys);
    NoStepMovesARowExactlyWhen(before.tables, ys);
    if OnePayloadAKey(ys) {
      SecondPassIsQuietExactlyWhen(before.tables, ys);
    }
    LoadAllInParts(t, xs, ys);
    AfterTables(before, LoadAll(before.tables, ys).value);
  }

  lemma AfterTables(a: Loaded, b: Loaded)
    ensures After(a, Ok(b)).Ok? && After(a, Ok(b)).value.tables == b.tables
  {
  }

  // ----- records under new keys

  /** A record delivered twice is the same record twice. */
  ghost predicate OneRecordAKey(rs: seq<Record>) {
    forall p, q :: p in rs && q in rs && p.Key() == q.Key() ==> p == q
  }

  ghost predicate NewKeys(t: Tables, rs: seq<Record>) {
    forall r :: r in rs ==> r.Key() !in t.sources
  }

  ghost predicate AllFiled(u: Tables, rs: seq<Record>) {
    forall r :: r in rs ==> FiledUnder(u, r)
  }

  lemma FiledIsHomed(u: Tables, r: Record)
    requires FiledUnder(u, r) && Identified(u.books)
    ensures Homed(u, r)
  {
    assert Agrees(r.book.identity, r.book.isbn13);
  }

  lemma FiledSame(t: Tables, u: Tables, q: Record)
    requires SameCatalogue(t, u) && FiledUnder(t, q)
    ensures FiledUnder(u, q)
  {
  }

  lemma FiledAgain(a: Tables, rs: seq<Record>, r: Record)
    requires Inv(a) && Mapped(r) && AllFiled(a, rs) && r in rs
    ensures References(a) && LoadOne(a, r).Ok? && AllFiled(LoadOne(a, r).value.tables, rs)
  {
    SoundParts(a);
    hide Inv, Mapped, LoadOne, FiledUnder, Sound, References, Identified, SameCatalogue;
    FiledIsHomed(a, r);
    ReloadOnce(a, r);
    forall p | p in rs ensures FiledUnder(LoadOne(a, r).value.tables, p) {
      FiledSame(a, LoadOne(a, r).value.tables, p);
    }
  }

  lemma FiledAnew(a: Tables, rs: seq<Record>, r: Record)
    requires Inv(a) && Mapped(r) && AllFiled(a, rs) && r.Key() !in a.sources
    ensures References(a) && LoadOne(a, r).Ok? && AllFiled(LoadOne(a, r).value.tables, rs + [r])
  {
    hide *;
    SoundParts(a);
    NewKeyJoins(a, r);
    JoinedFiles(a, r, LoadOne(a, r).value.tables);
    FiledInExtension(a, LoadOne(a, r).value.tables, rs, r);
  }

  lemma FiledInExtension(a: Tables, u: Tables, rs: seq<Record>, r: Record)
    requires Extends(a, u) && AllFiled(a, rs) && FiledUnder(u, r)
    ensures AllFiled(u, rs + [r])
  {
    hide FiledUnder, Extends;
    forall p | p in rs + [r] ensures FiledUnder(u, p) {
      if p in rs {
        FiledStays(a, u, p);
      }
    }
  }

  lemma SeenBefore(rs: seq<Record>, r: Record)
    requires OneRecordAKey(rs + [r]) && r.Key() in Keys(rs)
    ensures r in rs
  {
    var q := RecordWith(rs, r.Key());
    assert q in rs + [r] && r in rs + [r];
  }

  lemma AllFiledMore(u: Tables, rs: seq<Record>, r: Record)
    requires AllFiled(u, rs) && r in rs
    ensures AllFiled(u, rs + [r])
  {
    hide FiledUnder;
  }

  lemma AllFiledStep(t: Tables, a: Tables, init: seq<Record>, r: Record)
    requires Inv(a) && Mapped(r) && AllFiled(a, init) && OneRecordAKey(init + [r])
    requires a.sources.Keys == t.sources.Keys + Keys(init) && r.Key() !in t.sources
    ensures References(a) && LoadOne(a, r).Ok? && AllFiled(LoadOne(a, r).value.tables, init + [r])
  {
    hide *;
    if r.Key() in a.sources {
      SeenBefore(init, r);
      FiledAgain(a, init, r);
      AllFiledMore(LoadOne(a, r).value.tables, init, r);
    } else {
      FiledAnew(a, init, r);
    }
  }

  lemma JoinedFiles(a: Tables, r: Record, u: Tables)
    requires Joined(a, r, u)
    ensures Extends(a, u) && FiledUnder(u, r)
  {
  }

  lemma NewKeyInit(t: Tables, rs: seq<Record>)
    requires NewKeys(t, rs) && OneRecordAKey(rs) && rs != []
    ensures NewKeys(t, rs[..|rs|-1]) && OneRecordAKey(rs[..|rs|-1]) && rs[|rs|-1].Key() !in t.sources
  {
    KeysOfPrefix(rs);
  }

  lemma NothingFiled(u: Tables)
    ensures AllFiled(u, [])
  {
  }

  lemma {:induction false} NewKeysAreFiled(t: Tables, rs: seq<Record>)
    requires Inv(t) && AllRecordsMapped(rs) && NewKeys(t, rs) && OneRecordAKey(rs)
    ensures Sound(t) && LoadAll(t, rs).Ok? && Inv(LoadAll(t, rs).value.tables) && AllFiled(LoadAll(t, rs).value.tables, rs)
  {
    hide *;
    SoundParts(t);
    LoadAllKeepsEverything(t, rs);
    if rs == [] {
      NothingLoaded(t);
      NothingFiled(t);
    } else {
      var init, r := rs[..|rs|-1], rs[|rs|-1];
      PrefixIsMapped(rs);
      NewKeyInit(t, rs);
      NewKeysAreFiled(t, init);
      LoadAllKeepsEverything(t, init);
      var before := LoadAll(t, init).value;
      AllFiledStep(t, before.tables, init, r);
      LoadAllStep(t, init, r);
      ThenIs(before, r);
    }
  }

  /** Records under keys the catalogue had never seen, each as often as it likes, share an ISBN on every book. */
  lemma NewKeysShareAnIsbn(t: Tables, rs: seq<Record>)
    requires Inv(t) && AllRecordsMapped(rs) && NewKeys(t, rs) && OneRecordAKey(rs)
    ensures Sound(t) && LoadAll(t, rs).Ok?
    ensures OneIsbnABook(LoadAll(t, rs).value.tables, rs) && OnePayloadAKey(rs)
  {
    NewKeysAreFiled(t, rs);
    var u := LoadAll(t, rs).value.tables;
    SoundParts(u);
    hide LoadAll, Inv, Sound, Mapped, FiledUnder, Homed, InPlace;
    forall r | r in rs ensures Homed(u, r) {
      FiledIsHomed(u, r);
    }
    HomedIsStoredInPlace(u, rs);
    forall p, q | p in rs && q in rs && p.book.isbn13.Some? && q.book.isbn13.Some?
        && OnOneBook(u.sources, p.Key(), q.Key())
      ensures p.book.isbn13 == q.book.isbn13
    {
      InPlaceAlike(u, p, q);
    }
  }

  // ----- two records that never settle

  /** Two stored records share a book, and carry different ISBNs that no other book owns. */
  ghost predicate Swings(t: Tables, p: Record, q: Record) {
    && Inv(t) && Mapped(p) && Mapped(q) && p.Key() != q.Key()
    && OnOneBook(t.sources, p.Key(), q.Key()) && t.sources[p.Key()].book in t.books
    && p.book.isbn13.Some? && q.book.isbn13.Some? && p.book.isbn13 != q.book.isbn13
    && t.books[t.sources[p.Key()].book].isbn13 != p.book.isbn13
    && (forall c :: c in t.books && c != t.sources[p.Key()].book ==>
          t.books[c].isbn13 != p.book.isbn13 && t.books[c].isbn13 != q.book.isbn13)
  }

  /** Loading the first gives the book its ISBN, so that nobody owns the second's. */
  lemma SwingHalf(t: Tables, p: Record, q: Record)
    requires Swings(t, p, q)
    ensures References(t) && LoadOne(t, p).Ok? && LoadOne(t, p).value.counts == UPDATED
    ensures Swings(LoadOne(t, p).value.tables, q, p)
  {
    SwingsParts(t, p, q);
    hide *;
    PromotionCounts(t, p);
    PromotedHome(t, p);
    LoadMoves(t, p);
    KnownBooksStay(t, p);
    LoadOneKeepsEverything(t, p);
    SwingFollows(t, p, q, LoadOne(t, p).value.tables);
  }

  lemma SwingsParts(t: Tables, p: Record, q: Record)
    requires Swings(t, p, q)
    ensures Inv(t) && References(t) && Sound(t) && Mapped(p) && p.Key() in t.sources
    ensures p.book.isbn13.Some? && !Owned(t.books, p.book.isbn13.value)
  {
  }

  lemma SwingFollows(t: Tables, p: Record, q: Record, u: Tables)
    requires Swings(t, p, q) && Inv(u) && Moves(t, p, u)
    requires p.Key() in u.sources && u.sources[p.Key()].book == t.sources[p.Key()].book
    ensures Swings(u, q, p)
  {
    hide Inv, Mapped, AttachedTo;
    assert OnOneBook(u.sources, p.Key(), q.Key());
    forall c | c in u.books && c != u.sources[p.Key()].book
      ensures u.books[c].isbn13 != p.book.isbn13 && u.books[c].isbn13 != q.book.isbn13
    {
      assert SameIsbn(t, u, c);
    }
  }

  lemma PromotedHome(t: Tables, r: Record)
    requires Inv(t) && Mapped(r) && r.Key() in t.sources
    requires r.book.isbn13.Some? && !Owned(t.books, r.book.isbn13.value)
    ensures References(t) && LoadOne(t, r).Ok?
    ensures r.Key() in LoadOne(t, r).value.tables.sources
    ensures LoadOne(t, r).value.tables.sources[r.Key()].book == t.sources[r.Key()].book
  {
    SoundParts(t);
    PromotedFiling(t, r);
    LandsAtHome(t, r);
  }

  lemma UpdatedTwice(c: Counts, n: nat)
    requires c == Counts(0, n, 0, n, 0)
    ensures c.Plus(UPDATED).Plus(UPDATED) == Counts(0, n + 2, 0, n + 2, 0)
  {
  }

  function Again<T>(xs: seq<T>, n: nat): seq<T> {
    if n == 0 then [] else Again(xs, n - 1) + xs
  }

  /** However often the two are redelivered, each delivery updates the book twice more. */
  lemma {:induction false} SwingsForever(t: Tables, p: Record, q: Record, n: nat)
    requires Swings(t, p, q)
    ensures Sound(t) && LoadAll(t, Again([p, q], n)).Ok?
    ensures LoadAll(t, Again([p, q], n)).value.counts == Counts(0, 2 * n, 0, 2 * n, 0)
    ensures Swings(LoadAll(t, Again([p, q], n)).value.tables, p, q)
  {
    hide *;
    SwingsParts(t, p, q);
    if n == 0 {
      NoneAgain([p, q]);
      NothingLoaded(t);
    } else {
      SwingsForever(t, p, q, n - 1);
      var xs := Again([p, q], n - 1);
      var before := LoadAll(t, xs).value;
      SwingHalf(before.tables, p, q);
      var u := LoadOne(before.tables, p).value;
      SwingHalf(u.tables, q, p);
      SwingsParts(u.tables, q, p);
      TwoMore(t, xs, p, q);
      OnceMore([p, q], n);
      UpdatedTwice(before.counts, 2 * (n - 1));
    }
  }

  lemma NoneAgain(xs: seq<Record>)
    ensures Again(xs, 0) == [] && ZERO == Counts(0, 0, 0, 0, 0)
  {
  }

  lemma OnceMore(xs: seq<Record>, n: nat)
    requires n > 0
    ensures Again(xs, n) == Again(xs, n - 1) + xs
  {
  }

  lemma TwoMore(t: Tables, xs: seq<Record>, p: Record, q: Record)
    requires Sound(t) && LoadAll(t, xs).Ok? && LoadOne(LoadAll(t, xs).value.tables, p).Ok?
    requires Sound(LoadOne(LoadAll(t, xs).value.tables, p).value.tables)
    requires LoadOne(LoadOne(LoadAll(t, xs).value.tables, p).value.tables, q).Ok?
    ensures LoadAll(t, xs + [p, q]).Ok?
    ensures var a := LoadAll(t, xs).value; var b := LoadOne(a.tables, p).value; var c := LoadOne(b.tables, q).value;
      LoadAll(t, xs + [p, q]).value == Loaded(c.tables, a.counts.Plus(b.counts).Plus(c.counts))
  {
    hide LoadOne, Sound, LoadAll;
    LoadAllStep(t, xs, p);
    LoadAllStep(t, xs + [p], q);
    assert xs + [p] + [q] == xs + [p, q];
  }

  function Book(source: Source, id: string, identity: IdentityKey): CleanBook {
    BookFacts(source, id, identity, IsbnOf(identity),
              map[Title := Text("The Expanse"), NormalisedTitle := Text("the expanse")], [], [], [])
  }

  function Whole(source: Source, id: string, identity: IdentityKey): Record {
    var book := Book(source, id, identity);
    Record(book, Payload(id, map[source := book]))
  }

  /** Two sources put one book on a title; both then supply an ISBN, and not the same one. */
  lemma RedeliveryCanCount(n: nat)
    ensures var first := [Whole(Goodreads, "1", Fallback("a")), Whole(OpenLibrary, "2", Fallback("a"))];
      var batch := [Whole(Goodreads, "1", Isbn("9780306406157")), Whole(OpenLibrary, "2", Isbn("9780261103573"))];
      && Sound(EMPTY_TABLES) && LoadAll(EMPTY_TABLES, first).Ok?
      && var t := LoadAll(EMPTY_TABLES, first).value.tables;
      && LoadAll(t, batch).Ok? && LoadAll(LoadAll(t, batch).value.tables, Again(batch, n)).Ok?
      && LoadAll(LoadAll(t, batch).value.tables, Again(batch, n)).value.counts == Counts(0, 2 * n, 0, 2 * n, 0)
  {
    var p0, q0 := Whole(Goodreads, "1", Fallback("a")), Whole(OpenLibrary, "2", Fallback("a"));
    var p, q := Whole(Goodreads, "1", Isbn("9780306406157")), Whole(OpenLibrary, "2", Isbn("9780261103573"));
    Shared(p0, q0, p, q);
    hide *;
    SharedSwings(p0, q0, p, q);
    var t := LoadAll(EMPTY_TABLES, [p0, q0]).value.tables;
    SwingsForever(t, p, q, 1);
    OnceIsAgain(p, q);
    SwingsForever(LoadAll(t, [p, q]).value.tables, p, q, n);
  }

  lemma OnceIsAgain(p: Record, q: Record)
    ensures Again([p, q], 1) == [p, q]
  {
    assert Again([p, q], 0) == [];
  }

  /** The same two keys, first on one title and then with an ISBN each. */
  predicate Split(p0: Record, q0: Record, p: Record, q: Record) {
    && Mapped(p0) && Mapped(q0) && Mapped(p) && Mapped(q)
    && p0.Key() == p.Key() && q0.Key() == q.Key() && p.Key() != q.Key()
    && p0.book.identity == q0.book.identity && p0.book.identity.Fallback?
    && p.book.isbn13.Some? && q.book.isbn13.Some? && p.book.isbn13 != q.book.isbn13
  }

  lemma Shared(p0: Record, q0: Record, p: Record, q: Record)
    requires p0 == Whole(Goodreads, "1", Fallback("a")) && q0 == Whole(OpenLibrary, "2", Fallback("a"))
    requires p == Whole(Goodreads, "1", Isbn("9780306406157")) && q == Whole(OpenLibrary, "2", Isbn("9780261103573"))
    ensures Split(p0, q0, p, q)
  {
  }

  lemma SharedSwings(p0: Record, q0: Record, p: Record, q: Record)
    requires Split(p0, q0, p, q)
    ensures Sound(EMPTY_TABLES) && LoadAll(EMPTY_TABLES, [p0, q0]).Ok?
    ensures Swings(LoadAll(EMPTY_TABLES, [p0, q0]).value.tables, p, q)
  {
    hide *;
    NothingYet(p0, q0, p, q);
    NewKeysGather(EMPTY_TABLES, [p0, q0]);
    SoundParts(EMPTY_TABLES);
    var t := LoadAll(EMPTY_TABLES, [p0, q0]).value.tables;
    SoundParts(t);
    GatheredSwings(p0, q0, p, q, t);
  }

  lemma NothingYet(p0: Record, q0: Record, p: Record, q: Record)
    requires Split(p0, q0, p, q)
    ensures Inv(EMPTY_TABLES) && Fresh(EMPTY_TABLES, [p0, q0]) && AllRecordsMapped([p0, q0])
  {
    hide Mapped;
  }

  lemma GatheredSwings(p0: Record, q0: Record, p: Record, q: Record, t: Tables)
    requires Split(p0, q0, p, q) && Gathered(EMPTY_TABLES, [p0, q0], t) && Identified(t.books) && Inv(t)
    ensures Swings(t, p, q)
  {
    hide AuthorsAccounted, Inv, Mapped;
    assert p0 in [p0, q0] && q0 in [p0, q0];
    assert FiledUnder(t, p0) && FiledUnder(t, q0);
    forall c | c in t.books ensures t.books[c].identity == p0.book.identity && t.books[c].isbn13.None? {
      var r :| r in [p0, q0] && t.books[c].identity == r.book.identity;
    }
  }

  // ----- two payloads under one key

  /** A book with one payload has that payload's title. */
  lemma SaysTitle(identity: IdentityKey, sources: map<Key, SourceRow>, b: BookId, c: CleanBook)
    requires Candidates(sources, b) == [c] && Title in c.fields
    ensures var said := Says(identity, sources, b);
      said.Digest? && Title in said.columns && said.columns[Title] == c.fields[Title]
  {
    hide *;
    MergeUnderIdentity(identity, [c]);
    SoleTitle(identity, c);
    SaysMerged(identity, sources, b, MergedUnder(identity, [c]).value);
    TitleIsAColumn(MergedUnder(identity, [c]).value, [c]);
  }

  lemma SoleTitle(identity: IdentityKey, c: CleanBook)
    requires Title in c.fields && MergedUnder(identity, [c]).Ok?
    ensures Title in MergedUnder(identity, [c]).value.fields
    ensures MergedUnder(identity, [c]).value.fields[Title] == c.fields[Title]
  {
    hide MergeCandidates;
    MergedFieldHasTheBestAnswer(RekeyAll([c], identity), None, Title);
    assert RekeyAll([c], identity)[0] == Rekey(c, identity);
    assert RekeyAll([c], identity)[0] in RekeyAll([c], identity);
  }

  lemma SaysMerged(identity: IdentityKey, sources: map<Key, SourceRow>, b: BookId, merged: CleanBook)
    requires MergedUnder(identity, Candidates(sources, b)) == Ok(merged)
    ensures Says(identity, sources, b) == Digest(merged.isbn13, Columns(merged, Candidates(sources, b)))
  {
    hide MergedUnder, Candidates, Columns;
  }

  lemma TitleIsAColumn(merged: CleanBook, cs: seq<CleanBook>)
    requires Title in merged.fields
    ensures Title in Columns(merged, cs) && Columns(merged, cs)[Title] == merged.fields[Title]
  {
    hide Downloads;
  }

  /** Two deliveries of one source's record, with different titles. */
  predicate Retitled(p: Record, q: Record) {
    && Mapped(p) && Mapped(q) && p.Key() == q.Key() && p.book.isbn13.None? && q.book.isbn13.None?
    && Title in Replay(p.book.source, p.payload).value.fields
    && Title in Replay(q.book.source, q.payload).value.fields
    && Replay(p.book.source, p.payload).value.fields[Title] != Replay(q.book.source, q.payload).value.fields[Title]
  }

  /** A catalogue of one row, holding the second. */
  ghost predicate HoldsOnly(u: Tables, q: Record) {
    && Inv(u) && u.sources.Keys == {q.Key()} && u.sources[q.Key()].payload == q.payload
    && u.sources[q.Key()].book in u.books
  }

  lemma SaysItsTitle(identity: IdentityKey, sources: map<Key, SourceRow>, b: BookId, r: Record)
    requires Mapped(r) && sources == map[r.Key() := SourceRow(b, r.payload)]
    requires Title in Replay(r.book.source, r.payload).value.fields
    ensures var said := Says(identity, sources, b);
      && said.Digest? && Title in said.columns
      && said.columns[Title] == Replay(r.book.source, r.payload).value.fields[Title]
  {
    assert AttachedTo(sources, b) == {r.Key()};
    SoleCandidate(sources, b, r.Key());
    SaysTitle(identity, sources, b, Replay(r.book.source, r.payload).value);
  }

  lemma BothAlter(u: Tables, p: Record, q: Record)
    requires Retitled(p, q) && HoldsOnly(u, q)
    ensures Alterations(u, [p, q]) == 2 && OneIsbnABook(u, [p, q])
  {
    hide Inv, Says, Mapped;
    var b := u.sources[q.Key()].book;
    var id := u.books[b].identity;
    var held, back := map[q.Key() := SourceRow(b, q.payload)], map[p.Key() := SourceRow(b, p.payload)];
    assert u.sources == held && Restore(held, p) == back && Restore(back, q) == held;
    SaysItsTitle(id, held, b, q);
    SaysItsTitle(id, back, b, p);
    assert [p, q][..1] == [p] && [p][..0] == [];
    assert Restored(u.sources, []) == held && Restored(u.sources, [p]) == back;
    assert Alters(u, held, p) && Alters(u, back, q);
    assert Alterations(u, [p]) == 1;
  }

  lemma LoadedTwice(p: Record, q: Record)
    requires Mapped(p) && Mapped(q) && p.Key() == q.Key()
    ensures Inv(EMPTY_TABLES) && Sound(EMPTY_TABLES) && LoadAll(EMPTY_TABLES, [p, q]).Ok?
    ensures HoldsOnly(LoadAll(EMPTY_TABLES, [p, q]).value.tables, q)
  {
    hide *;
    EmptyIsInv();
    SoundParts(EMPTY_TABLES);
    PairMapped(p, q);
    LoadAllKeepsEverything(EMPTY_TABLES, [p]);
    LoadAllKeepsEverything(EMPTY_TABLES, [p, q]);
    var before := LoadAll(EMPTY_TABLES, [p]).value;
    SoundParts(before.tables);
    LoadOneKeepsEverything(before.tables, q);
    LoadAllStep(EMPTY_TABLES, [p], q);
    ThenIs(before, q);
    assert [p] + [q] == [p, q];
    OneKeyHeld(p, q, LoadOne(before.tables, q).value.tables);
  }

  lemma OneKeyHeld(p: Record, q: Record, u: Tables)
    requires p.Key() == q.Key() && Inv(u) && Homed(u, q) && u.sources.Keys == EMPTY_TABLES.sources.Keys + Keys([p, q])
    ensures HoldsOnly(u, q)
  {
    hide Inv;
    assert q in [p, q];
    assert Keys([p, q]) == {q.Key()};
  }

  lemma EmptyIsInv()
    ensures Inv(EMPTY_TABLES)
  {
  }

  lemma PairMapped(p: Record, q: Record)
    requires Mapped(p) && Mapped(q)
    ensures AllRecordsMapped([p]) && AllRecordsMapped([p, q])
  {
    hide Mapped;
  }

  /** One source's record delivered with two titles, redelivered: both count again, though no book has two ISBNs. */
  lemma RetitlingCounts(p: Record, q: Record)
    requires Retitled(p, q)
    ensures Sound(EMPTY_TABLES) && LoadAll(EMPTY_TABLES, [p, q]).Ok?
    ensures var once := LoadAll(EMPTY_TABLES, [p, q]).value.tables;
      && OneIsbnABook(once, [p, q])
      && LoadAll(once, [p, q]).Ok? && LoadAll(once, [p, q]).value.counts == Counts(0, 2, 0, 2, 0)
  {
    RetitledMapped(p, q);
    hide *;
    LoadedTwice(p, q);
    var once := LoadAll(EMPTY_TABLES, [p, q]).value.tables;
    BothAlter(once, p, q);
    PairMapped(p, q);
    SecondPassCounts(EMPTY_TABLES, [p, q]);
  }

  lemma RetitledMapped(p: Record, q: Record)
    requires Retitled(p, q)
    ensures Mapped(p) && Mapped(q) && p.Key() == q.Key()
  {
  }

  function Titled(title: string): Record {
    var book: CleanBook := BookFacts(
      Goodreads, "1", Fallback("a"), None, map[Title := Text(title), NormalisedTitle := Text("the expanse")], [], [], []);
    Record(book, Payload(title, map[Goodreads := book]))
  }

  /** Such a pair exists: one Goodreads id, no ISBN, and titles that differ in one letter. */
  lemma RetitlingExists()
    ensures Retitled(Titled("The Expanse"), Titled("The expanse"))
    ensures !OnePayloadAKey([Titled("The Expanse"), Titled("The expanse")])
  {
    var p, q := Titled("The Expanse"), Titled("The expanse");
    assert p in [p, q] && q in [p, q];
    assert "The Expanse"[4] != "The expanse"[4];
  }
}
