// The catalogue's tables, and what loading one record does to them.

module Catalogue {
  import opened Ordering
  import opened Domain
  import opened Merge
  import opened Series

  /** The fingerprint of the canonical columns; Unset is the stub's placeholder. */
  datatype ContentHash = Unset | Digest(isbn13: Option<string>, columns: map<Field, Value>)

  datatype BookRow = BookRow(
    identity: IdentityKey, isbn13: Option<string>, columns: map<Field, Value>,
    contentHash: ContentHash, seriesText: string,
    touched: nat)  // how many times updated_at has been written

  datatype SourceRow = SourceRow(book: BookId, payload: Payload)

  /** A book's link to an author or a subject, by the comparison form of its name. */
  datatype NameLink = NameLink(book: BookId, name: string)

  datatype Tables = Tables(
    books: map<BookId, BookRow>, nextId: BookId,
    sources: map<Key, SourceRow>,
    authors: map<string, string>, bookAuthors: map<NameLink, nat>,
    subjects: map<string, string>, bookSubjects: set<NameLink>,
    shelf: Shelf)

  const EMPTY_TABLES := Tables(map[], 0, map[], map[], map[], map[], {}, EMPTY_SHELF)

  datatype Counts = Counts(inserted: nat, updated: nat, untouched: nat, linked: nat, merges: nat)
  {
    function RecordsLoaded(): nat {
      inserted + updated + untouched
    }

    /** What a run's tally counts: only what changed the catalogue. */
    function Changed(): nat {
      inserted + updated
    }

    function Plus(other: Counts): Counts {
      Counts(inserted + other.inserted, updated + other.updated, untouched + other.untouched,
             linked + other.linked, merges + other.merges)
    }
  }

  const ZERO := Counts(0, 0, 0, 0, 0)

  datatype LoadError = CannotMerge(error: MergeError) | MissingReference

  datatype Loaded = Loaded(tables: Tables, counts: Counts)

  // ----- what the schema enforces

  /** Foreign keys among books, provenance, authors, subjects and series. */
  ghost predicate References(t: Tables) {
    && (forall k :: k in t.sources ==> t.sources[k].book in t.books)
    && (forall l :: l in t.bookAuthors ==> l.book in t.books && l.name in t.authors)
    && (forall l :: l in t.bookSubjects ==> l.book in t.books && l.name in t.subjects)
    && ForeignKeys(t.shelf, t.books.Keys, t.sources.Keys)
  }

  /** Identity keys are unique, and a row's ISBN is the one its identity names. */
  ghost predicate Identified(books: map<BookId, BookRow>) {
    && (forall i, j :: i in books && j in books && books[i].identity == books[j].identity ==> i == j)
    && (forall i :: i in books ==> Agrees(books[i].identity, books[i].isbn13))
  }

  ghost predicate Sound(t: Tables) {
    && References(t)
    && Identified(t.books)
    && (forall i :: i in t.books ==> i < t.nextId)
    && Keyed(t.shelf)
  }

  // ----- provenance and its replay

  function AttachedTo(sources: map<Key, SourceRow>, b: BookId): set<Key> {
    set k | k in sources && sources[k].book == b
  }

  function ReplayAll(sources: map<Key, SourceRow>, keys: seq<Key>): (cs: seq<CleanBook>)
    requires forall k :: k in keys ==> k in sources
    ensures forall c :: c in cs <==> exists k :: k in keys && Replay(k.source, sources[k].payload) == Some(c)
  {
    if keys == [] then [] else
      var rest := ReplayAll(sources, keys[1..]);
      assert forall k :: k in keys <==> k == keys[0] || k in keys[1..];
      match Replay(keys[0].source, sources[keys[0]].payload)
      case None => rest
      case Some(c) => [c] + rest
  }

  /** Every stored payload attached to a book, replayed, in the order the database returns them. */
  function Candidates(sources: map<Key, SourceRow>, b: BookId): seq<CleanBook> {
    KeyIsTotalOrder();
    ReplayAll(sources, Arrange(AttachedTo(sources, b), KeyLe))
  }

  // ----- finding the book

  ghost function OwnerOf(books: map<BookId, BookRow>, isbn: string): Option<BookId> {
    if exists i :: i in books && books[i].isbn13 == Some(isbn) then
      var i :| i in books && books[i].isbn13 == Some(isbn);
      Some(i)
    else None
  }

  ghost function BookWith(books: map<BookId, BookRow>, identity: IdentityKey): Option<BookId> {
    if exists i :: i in books && books[i].identity == identity then
      var i :| i in books && books[i].identity == identity;
      Some(i)
    else None
  }

  /** The tables, the record's book, and the insert or merge it took to get there. */
  datatype Home = Home(tables: Tables, book: BookId, inserted: nat, merges: nat)

  function Stub(r: Record): BookRow {
    BookRow(r.book.identity, r.book.isbn13,
            map f | f in r.book.fields && f == Title :: r.book.fields[f], Unset, "", 0)
  }

  ghost function FindOrCreate(t: Tables, r: Record): Home {
    match BookWith(t.books, r.book.identity)
    case Some(i) => Home(t, i, 0, 0)
    case None => Home(t.(books := t.books[t.nextId := Stub(r)], nextId := t.nextId + 1), t.nextId, 1, 0)
  }

  function Resettle(sources: map<Key, SourceRow>, survivor: BookId, orphan: BookId): map<Key, SourceRow> {
    map k | k in sources :: if sources[k].book == orphan then sources[k].(book := survivor) else sources[k]
  }

  /** Author links move without their position, and only where the survivor has none. */
  function MoveAuthors(links: map<NameLink, nat>, survivor: BookId, orphan: BookId): map<NameLink, nat> {
    var landed := set l | l in links && l.book == orphan :: NameLink(survivor, l.name);
    map l | l in links.Keys + landed && l.book != orphan :: if l in links then links[l] else 0
  }

  function MoveSubjects(links: set<NameLink>, survivor: BookId, orphan: BookId): set<NameLink> {
    set l | l in links :: if l.book == orphan then NameLink(survivor, l.name) else l
  }

  /** Deleting a book takes its series links, and with them the accounts that refer to them. */
  function DropBook(s: Shelf, b: BookId): Shelf {
    s.(places := map l | l in s.places && l.book != b :: s.places[l],
       accounts := map a | a in s.accounts && s.accounts[a].book != b :: s.accounts[a])
  }

  function MergeBooks(t: Tables, survivor: BookId, orphan: BookId): Tables
    requires survivor != orphan
  {
    t.(books := t.books - {orphan},
       sources := Resettle(t.sources, survivor, orphan),
       bookAuthors := MoveAuthors(t.bookAuthors, survivor, orphan),
       bookSubjects := MoveSubjects(t.bookSubjects, survivor, orphan),
       shelf := DropBook(t.shelf, orphan))
  }

  /** A source that has started supplying an ISBN: promote its book in place, or merge it. */
  ghost function Reconcile(t: Tables, b: BookId, r: Record): Home
    requires b in t.books && r.book.isbn13.Some?
  {
    if t.books[b].isbn13 == r.book.isbn13 then Home(t, b, 0, 0)
    else match OwnerOf(t.books, r.book.isbn13.value)
      case None =>
        Home(t.(books := t.books[b := t.books[b].(isbn13 := r.book.isbn13, identity := r.book.identity)]), b, 0, 0)
      case Some(owner) => Home(MergeBooks(t, owner, b), owner, 0, 1)
  }

  ghost function FindHome(t: Tables, r: Record): Home
    requires References(t)
  {
    if r.Key() in t.sources then
      var b := t.sources[r.Key()].book;
      if r.book.isbn13.Some? then Reconcile(t, b, r) else Home(t, b, 0, 0)
    else FindOrCreate(t, r)
  }

  function UpsertSource(t: Tables, b: BookId, r: Record): Tables {
    t.(sources := t.sources[r.Key() := SourceRow(b, r.payload)])
  }

  // ----- canonical recomputation

  const CANONICAL_FIELDS: set<Field> := {
    Title, Subtitle, PublishedYear, Publisher, PageCount, DownloadCount,
    GoodreadsAverageRating, Language, Description, CoverUrl}

  /** Only Gutendex counts downloads; nobody else's number is promoted. */
  function Downloads(cs: seq<CleanBook>): Option<Value> {
    if cs == [] then None
    else if cs[0].source == Gutendex then
      (if DownloadCount in cs[0].fields then Some(cs[0].fields[DownloadCount]) else None)
    else Downloads(cs[1..])
  }

  function Columns(merged: CleanBook, cs: seq<CleanBook>): map<Field, Value> {
    var own := map f | f in merged.fields && f in CANONICAL_FIELDS && f != DownloadCount :: merged.fields[f];
    if Downloads(cs).Some? then own[DownloadCount := Downloads(cs).value] else own
  }

  /** The book's stored identity arbitrates between sources that disagree. */
  function MergedUnder(identity: IdentityKey, cs: seq<CleanBook>): Result<CleanBook, MergeError> {
    MergeCandidates(RekeyAll(cs, identity), None)
  }

  /** A first credit for each author any candidate names, with its position in that credit list. */
  function CreditsFrom(authors: seq<Author>, position: nat): map<string, (string, nat)> {
    if authors == [] then map[] else
      var rest := CreditsFrom(authors[1..], position + 1);
      match authors[0].normalised
      case None => rest
      case Some(n) => rest[n := (authors[0].name, position)]
  }

  function Credits(cs: seq<CleanBook>): map<string, (string, nat)> {
    if cs == [] then map[] else Credits(cs[1..]) + CreditsFrom(cs[0].authors, 0)
  }

  function SyncAuthors(t: Tables, b: BookId, cs: seq<CleanBook>): Tables {
    var credits := Credits(cs);
    var links := set n | n in credits :: NameLink(b, n);
    t.(authors := (map n | n in credits :: credits[n].0) + t.authors,
       bookAuthors := (map l | l in links :: credits[l.name].1) + t.bookAuthors)
  }

  function SubjectNames(subjects: seq<Subject>): map<string, string> {
    if subjects == [] then map[] else
      var rest := SubjectNames(subjects[1..]);
      match subjects[0].normalised
      case None => rest
      case Some(n) => rest[n := subjects[0].name]
  }

  function SyncSubjects(t: Tables, b: BookId, subjects: seq<Subject>): Tables {
    var names := SubjectNames(subjects);
    t.(subjects := names + t.subjects,
       bookSubjects := t.bookSubjects + set n | n in names :: NameLink(b, n))
  }

  /** The search projection, written only when it differs. */
  function RefreshText(row: BookRow, text: string): BookRow {
    if row.seriesText == text then row else row.(seriesText := text, touched := row.touched + 1)
  }

  function SyncSeries(t: Tables, b: BookId, cs: seq<CleanBook>): Result<Tables, LoadError>
    requires b in t.books
  {
    match Sync(t.shelf, b, t.sources.Keys, Mentions(cs))
    case ForeignKeyViolation => Err(MissingReference)
    case Done(shelf) =>
      Ok(t.(shelf := shelf,
            books := t.books[b := RefreshText(t.books[b], Projection(NamesOn(shelf, b)))]))
  }

  function Rewrite(row: BookRow, merged: CleanBook, cs: seq<CleanBook>): BookRow {
    var digest := Digest(merged.isbn13, Columns(merged, cs));
    if row.contentHash == digest then row
    else row.(isbn13 := merged.isbn13, columns := digest.columns, contentHash := digest, touched := row.touched + 1)
  }

  function RewriteCounts(row: BookRow, merged: CleanBook, cs: seq<CleanBook>): Counts {
    if row.contentHash == Digest(merged.isbn13, Columns(merged, cs)) then ZERO.(untouched := 1)
    else if row.contentHash != Unset then ZERO.(updated := 1)
    else ZERO
  }

  function Recompute(t: Tables, b: BookId): Result<Loaded, LoadError>
    requires b in t.books
  {
    var cs := Candidates(t.sources, b);
    if cs == [] then Ok(Loaded(t, ZERO))
    else match MergedUnder(t.books[b].identity, cs)
      case Err(e) => Err(CannotMerge(e))
      case Ok(merged) =>
        var written := t.(books := t.books[b := Rewrite(t.books[b], merged, cs)]);
        var linked := SyncSubjects(SyncAuthors(written, b, cs), b, merged.subjects);
        match SyncSeries(linked, b, cs)
        case Err(e) => Err(e)
        case Ok(done) => Ok(Loaded(done, RewriteCounts(t.books[b], merged, cs)))
  }

  lemma HomeIsABook(t: Tables, r: Record)
    requires References(t)
    ensures FindHome(t, r).book in FindHome(t, r).tables.books
  {
  }

  ghost function LoadOne(t: Tables, r: Record): Result<Loaded, LoadError>
    requires References(t)
  {
    var home := FindHome(t, r);
    HomeIsABook(t, r);
    match Recompute(UpsertSource(home.tables, home.book, r), home.book)
    case Err(e) => Err(e)
    case Ok(done) =>
      Ok(Loaded(done.tables, done.counts.Plus(Counts(home.inserted, 0, 0, 1, home.merges))))
  }
}
