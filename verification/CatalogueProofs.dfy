// What every load keeps: keys, references, canonical columns, provenance, and the counts.

module CatalogueProofs {
  import opened Ordering
  import opened Domain
  import opened Merge
  import opened Series
  import opened SeriesProofs
  import opened Catalogue

  // ----- replay reads only what is attached

  lemma {:induction false} ReplayFrame(s: map<Key, SourceRow>, t: map<Key, SourceRow>, keys: seq<Key>)
    requires forall k :: k in keys ==> k in s && k in t && s[k].payload == t[k].payload
    ensures ReplayAll(s, keys) == ReplayAll(t, keys)
  {
    if keys != [] {
      ReplayFrame(s, t, keys[1..]);
    }
  }

  lemma CandidatesFrame(s: map<Key, SourceRow>, b: BookId, t: map<Key, SourceRow>, c: BookId)
    requires AttachedTo(s, b) == AttachedTo(t, c)
    requires forall k :: k in AttachedTo(s, b) ==> s[k].payload == t[k].payload
    ensures Candidates(s, b) == Candidates(t, c)
  {
    KeyIsTotalOrder();
    ReplayFrame(s, t, Arrange(AttachedTo(s, b), KeyLe));
  }

  lemma ArrangeOne(k: Key)
    ensures TotalOrder(KeyLe) && Arrange({k}, KeyLe) == [k]
  {
    KeyIsTotalOrder();
    var q := Arrange({k}, KeyLe);
    assert k in q;
    assert forall i :: 0 <= i < |q| ==> q[i] in q && q[i] == k;
  }

  /** A book with one row has one candidate. */
  lemma SoleCandidate(sources: map<Key, SourceRow>, b: BookId, k: Key)
    requires AttachedTo(sources, b) == {k} && Replay(k.source, sources[k].payload).Some?
    ensures Candidates(sources, b) == [Replay(k.source, sources[k].payload).value]
  {
    ArrangeOne(k);
    assert [k][1..] == [];
    assert ReplayAll(sources, []) == [];
    assert ReplayAll(sources, [k]) == [Replay(k.source, sources[k].payload).value];
  }

  /** The merge inside a recomputation never refuses: the stored identity makes them agree. */
  lemma MergeUnderIdentity(identity: IdentityKey, cs: seq<CleanBook>)
    requires cs != []
    ensures MergedUnder(identity, cs).Ok?
    ensures MergedUnder(identity, cs).value.identity == identity
    ensures MergedUnder(identity, cs).value.isbn13 == IsbnOf(identity)
  {
    var rs := RekeyAll(cs, identity);
    forall c | c in rs ensures c.identity == identity && c.isbn13 == IsbnOf(identity) {
      var i :| 0 <= i < |rs| && rs[i] == c;
      assert c == Rekey(cs[i], identity);
    }
    MergeRefusesExactlyWhen(rs);
    assert rs[0] in rs;
    if identity.Isbn? {
      assert rs[0].isbn13.value in Isbns(rs);
      assert OnlyOf(Isbns(rs)) == Some(identity.isbn);
    } else {
      assert Isbns(rs) == {};
    }
  }

  // ----- soundness of each step

  lemma DropBookKeepsForeignKeys(s: Shelf, b: BookId, books: set<BookId>, known: set<Key>)
    requires ForeignKeys(s, books, known)
    ensures ForeignKeys(DropBook(s, b), books - {b}, known)
  {
  }

  lemma MergeBooksIsSound(t: Tables, survivor: BookId, orphan: BookId)
    requires Sound(t)
    requires survivor in t.books && orphan in t.books && survivor != orphan
    ensures Sound(MergeBooks(t, survivor, orphan))
  {
    DropBookKeepsForeignKeys(t.shelf, orphan, t.books.Keys, t.sources.Keys);
    var m := MergeBooks(t, survivor, orphan);
    assert m.books.Keys == t.books.Keys - {orphan};
    assert m.sources.Keys == t.sources.Keys;
  }

  lemma ForeignKeysGrow(s: Shelf, books: set<BookId>, known: set<Key>, books': set<BookId>, known': set<Key>)
    requires ForeignKeys(s, books, known) && books <= books' && known <= known'
    ensures ForeignKeys(s, books', known')
  {
  }

  /** Finding a record's book moves nothing but that book, and the one merged into it. */
  ghost predicate HomeFrame(t: Tables, h: Home) {
    && h.book in h.tables.books
    && h.tables.sources.Keys == t.sources.Keys
    && (forall k :: k in t.sources ==> h.tables.sources[k].payload == t.sources[k].payload)
    && (forall c :: c in h.tables.books && c != h.book ==> Kept(t, h.tables, c))
    && |h.tables.books| + h.merges == |t.books| + h.inserted
  }

  ghost predicate Kept(t: Tables, u: Tables, c: BookId) {
    && c in t.books && c in u.books && u.books[c] == t.books[c]
    && AttachedTo(u.sources, c) == AttachedTo(t.sources, c)
    && (forall n :: NameLink(c, n) in t.bookAuthors ==> NameLink(c, n) in u.bookAuthors)
    && (forall n :: NameLink(c, n) in t.bookSubjects ==> NameLink(c, n) in u.bookSubjects)
  }

  lemma MergeKeeps(t: Tables, survivor: BookId, orphan: BookId, c: BookId)
    requires survivor != orphan && c in t.books && c != survivor && c != orphan
    ensures Kept(t, MergeBooks(t, survivor, orphan), c)
  {
    hide DropBook;
    var m := MergeBooks(t, survivor, orphan);
    assert AttachedTo(m.sources, c) == AttachedTo(t.sources, c);
    forall n | NameLink(c, n) in t.bookSubjects ensures NameLink(c, n) in m.bookSubjects {
      assert NameLink(c, n) == if NameLink(c, n).book == orphan then NameLink(survivor, n) else NameLink(c, n);
    }
  }

  lemma MergeHome(t: Tables, survivor: BookId, orphan: BookId)
    requires Sound(t)
    requires survivor in t.books && orphan in t.books && survivor != orphan
    ensures HomeFrame(t, Home(MergeBooks(t, survivor, orphan), survivor, 0, 1))
  {
    hide Kept, References, Identified, Keyed, DropBook, MoveAuthors, MoveSubjects;
    var m := MergeBooks(t, survivor, orphan);
    assert t.books.Keys == m.books.Keys + {orphan};
    assert |t.books.Keys| == |m.books.Keys| + 1;
    forall c | c in m.books && c != survivor ensures Kept(t, m, c) {
      MergeKeeps(t, survivor, orphan, c);
    }
  }

  lemma PromoteHome(t: Tables, b: BookId, book: CleanBook)
    requires Sound(t) && b in t.books
    requires book.isbn13.Some? && OwnerOf(t.books, book.isbn13.value).None?
    ensures var u := t.(books := t.books[b := t.books[b].(isbn13 := book.isbn13, identity := book.identity)]);
      Sound(u) && HomeFrame(t, Home(u, b, 0, 0))
  {
    var u := t.(books := t.books[b := t.books[b].(isbn13 := book.isbn13, identity := book.identity)]);
    PromotionIsIdentified(t.books, b, book);
    assert u.books.Keys == t.books.Keys;
    assert |u.books.Keys| == |t.books.Keys|;
  }

  lemma ReconcileHome(t: Tables, b: BookId, r: Record)
    requires Sound(t) && b in t.books && r.book.isbn13.Some?
    ensures var h := Reconcile(t, b, r); Sound(h.tables) && HomeFrame(t, h)
  {
    if t.books[b].isbn13 != r.book.isbn13 {
      var owner := OwnerOf(t.books, r.book.isbn13.value);
      if owner.Some? {
        MergeBooksIsSound(t, owner.value, b);
        MergeHome(t, owner.value, b);
      } else {
        PromoteHome(t, b, r.book);
      }
    }
  }

  lemma AddBookIsIdentified(books: map<BookId, BookRow>, id: BookId, row: BookRow)
    requires Identified(books) && id !in books && Agrees(row.identity, row.isbn13)
    requires forall i :: i in books ==> books[i].identity != row.identity
    ensures Identified(books[id := row])
  {
  }

  function WithBook(t: Tables, row: BookRow): Tables {
    t.(books := t.books[t.nextId := row], nextId := t.nextId + 1)
  }

  lemma AddBookIsSound(t: Tables, row: BookRow)
    requires Sound(t) && Agrees(row.identity, row.isbn13)
    requires forall i :: i in t.books ==> t.books[i].identity != row.identity
    ensures Sound(WithBook(t, row))
  {
    var u := WithBook(t, row);
    AddBookIsIdentified(t.books, t.nextId, row);
    assert u.books.Keys == t.books.Keys + {t.nextId};
    ForeignKeysGrow(t.shelf, t.books.Keys, t.sources.Keys, u.books.Keys, t.sources.Keys);
  }

  lemma AddBookHome(t: Tables, row: BookRow)
    requires t.nextId !in t.books
    ensures HomeFrame(t, Home(WithBook(t, row), t.nextId, 1, 0))
  {
    var u := WithBook(t, row);
    assert u.books.Keys == t.books.Keys + {t.nextId};
    assert |u.books.Keys| == |t.books.Keys| + 1;
  }

  lemma CreateHome(t: Tables, r: Record)
    requires Sound(t)
    ensures var h := FindOrCreate(t, r); Sound(h.tables) && HomeFrame(t, h)
  {
    if BookWith(t.books, r.book.identity).None? {
      AddBookIsSound(t, Stub(r));
      AddBookHome(t, Stub(r));
    }
  }

  lemma FindHomeIsSound(t: Tables, r: Record)
    requires Sound(t)
    ensures Sound(FindHome(t, r).tables)
    ensures HomeFrame(t, FindHome(t, r))
  {
    if r.Key() in t.sources {
      var b := t.sources[r.Key()].book;
      if r.book.isbn13.Some? {
        ReconcileHome(t, b, r);
      } else {
        assert HomeFrame(t, Home(t, b, 0, 0));
      }
    } else {
      CreateHome(t, r);
    }
  }

  /** Promoting to an ISBN nobody owns violates neither unique key. */
  lemma PromotionIsIdentified(books: map<BookId, BookRow>, b: BookId, book: CleanBook)
    requires Identified(books) && b in books
    requires book.isbn13.Some? && OwnerOf(books, book.isbn13.value).None?
    ensures Identified(books[b := books[b].(isbn13 := book.isbn13, identity := book.identity)])
  {
    forall i | i in books ensures books[i].identity != book.identity {
      assert books[i].isbn13 == IsbnOf(books[i].identity);
      assert books[i].isbn13 != Some(book.isbn13.value);
    }
  }

  lemma UpsertIsSound(t: Tables, b: BookId, r: Record)
    requires Sound(t) && b in t.books
    ensures Sound(UpsertSource(t, b, r))
  {
    ForeignKeysGrow(t.shelf, t.books.Keys, t.sources.Keys, t.books.Keys, UpsertSource(t, b, r).sources.Keys);
  }

  lemma MentionsAreWellKeyed(cs: seq<CleanBook>)
    ensures forall p :: p in Best(Mentions(cs)) ==> WellKeyed(p)
  {
    BestIsOnePerSeries(Mentions(cs));
  }

  lemma AttributeKeepsKeyed(s: Shelf, b: BookId, known: set<Key>, ms: seq<Mention>)
    requires Keyed(s) && Attribute(s, b, known, ms).Done?
    ensures Keyed(Attribute(s, b, known, ms).value)
  {
    AttributeKeepsRows(s, b, known, ms);
  }

  /** The tables between the rewrite of a book and the attachment of its series. */
  function Linked(t: Tables, b: BookId, merged: CleanBook, cs: seq<CleanBook>): Tables
    requires b in t.books
  {
    var written := t.(books := t.books[b := Rewrite(t.books[b], merged, cs)]);
    SyncSubjects(SyncAuthors(written, b, cs), b, merged.subjects)
  }

  lemma LinkedIsSound(t: Tables, b: BookId, merged: CleanBook, cs: seq<CleanBook>)
    requires Sound(t) && b in t.books
    requires merged.isbn13 == IsbnOf(t.books[b].identity)
    ensures Sound(Linked(t, b, merged, cs))
  {
    var u := Linked(t, b, merged, cs);
    assert u.books.Keys == t.books.Keys;
  }

  lemma SyncSeriesIsSound(t: Tables, b: BookId, cs: seq<CleanBook>)
    requires Sound(t) && b in t.books
    requires SyncSeries(t, b, cs).Ok?
    ensures Sound(SyncSeries(t, b, cs).value)
  {
    var u := SyncSeries(t, b, cs).value;
    SyncKeepsForeignKeys(t.shelf, b, t.sources.Keys, Mentions(cs), t.books.Keys);
    MentionsAreWellKeyed(cs);
    ShelveKeepsKeyed(t.shelf, b, Best(Mentions(cs)));
    AttributeKeepsKeyed(Shelve(t.shelf, b, Best(Mentions(cs))), b, t.sources.Keys, Mentions(cs));
    assert u.books.Keys == t.books.Keys;
  }

  lemma RecomputeIsSound(t: Tables, b: BookId)
    requires Sound(t) && b in t.books
    requires Recompute(t, b).Ok?
    ensures Sound(Recompute(t, b).value.tables)
  {
    var cs := Candidates(t.sources, b);
    if cs != [] {
      MergeUnderIdentity(t.books[b].identity, cs);
      var merged := MergedUnder(t.books[b].identity, cs).value;
      LinkedIsSound(t, b, merged, cs);
      SyncSeriesIsSound(Linked(t, b, merged, cs), b, cs);
    }
  }

  /** Any load that commits, of any record, leaves keys unique and references whole. */
  lemma LoadOneIsSound(t: Tables, r: Record)
    requires Sound(t) && LoadOne(t, r).Ok?
    ensures Sound(LoadOne(t, r).value.tables)
  {
    FindHomeIsSound(t, r);
    var h := FindHome(t, r);
    UpsertIsSound(h.tables, h.book, r);
    RecomputeIsSound(UpsertSource(h.tables, h.book, r), h.book);
  }

  // ----- what a recomputation settles

  /** The book says what its attached payloads, merged under its own identity, say. */
  ghost predicate Synced(t: Tables, b: BookId)
    requires b in t.books
  {
    var cs := Candidates(t.sources, b);
    && cs != []
    && var merged := MergedUnder(t.books[b].identity, cs);
    && merged.Ok?
    && t.books[b].isbn13 == merged.value.isbn13
    && t.books[b].columns == Columns(merged.value, cs)
    && t.books[b].contentHash == Digest(merged.value.isbn13, Columns(merged.value, cs))
    && (forall n :: n in Credits(cs) ==> NameLink(b, n) in t.bookAuthors)
    && (forall n :: n in SubjectNames(merged.value.subjects) ==> NameLink(b, n) in t.bookSubjects)
  }

  /** A payload its provider's mapper reads back as the record it was stored for. */
  predicate Maps(k: Key, p: Payload) {
    && Replay(k.source, p).Some?
    && KeyOf(Replay(k.source, p).value) == k
    && forall m :: m in Replay(k.source, p).value.series && m.HasId() ==> m.confirmed
  }

  predicate Mapped(r: Record) {
    Maps(r.Key(), r.payload)
  }

  ghost predicate AllMapped(sources: map<Key, SourceRow>) {
    forall k :: k in sources ==> Maps(k, sources[k].payload)
  }

  /** What holds between transactions in every catalogue built from mapped records. */
  ghost predicate Inv(t: Tables) {
    && Sound(t)
    && AllMapped(t.sources)
    && forall b :: b in t.books ==> Synced(t, b)
  }

  lemma MappedCandidates(sources: map<Key, SourceRow>, b: BookId)
    requires AllMapped(sources)
    ensures forall k :: k in AttachedTo(sources, b) ==> Replay(k.source, sources[k].payload).value in Candidates(sources, b)
    ensures forall c :: c in Candidates(sources, b) ==>
      KeyOf(c) in AttachedTo(sources, b) && forall m :: m in c.series && m.HasId() ==> m.confirmed
  {
    KeyIsTotalOrder();
    var keys := Arrange(AttachedTo(sources, b), KeyLe);
    forall c | c in Candidates(sources, b)
      ensures KeyOf(c) in AttachedTo(sources, b) && forall m :: m in c.series && m.HasId() ==> m.confirmed
    {
      var k :| k in keys && Replay(k.source, sources[k].payload) == Some(c);
      assert Maps(k, sources[k].payload);
    }
    forall k | k in AttachedTo(sources, b)
      ensures Replay(k.source, sources[k].payload).value in Candidates(sources, b)
    {
      assert k in keys && Maps(k, sources[k].payload);
    }
  }

  lemma SyncAuthorsLinks(t: Tables, b: BookId, cs: seq<CleanBook>)
    ensures var u := SyncAuthors(t, b, cs);
      && t.bookAuthors.Keys <= u.bookAuthors.Keys
      && (forall n :: n in Credits(cs) ==> NameLink(b, n) in u.bookAuthors)
  {
  }

  lemma SyncSubjectsLinks(t: Tables, b: BookId, subjects: seq<Subject>)
    ensures var u := SyncSubjects(t, b, subjects);
      && t.bookSubjects <= u.bookSubjects
      && (forall n :: n in SubjectNames(subjects) ==> NameLink(b, n) in u.bookSubjects)
  {
  }

  /** Two tables that differ only where attaching series may write. */
  ghost predicate SameButText(t: Tables, u: Tables, b: BookId)
    requires b in t.books
  {
    && u == t.(shelf := u.shelf, books := u.books)
    && u.books.Keys == t.books.Keys
    && (forall c :: c in t.books && c != b ==> u.books[c] == t.books[c])
    && u.books[b] == t.books[b].(seriesText := u.books[b].seriesText, touched := u.books[b].touched)
  }

  /** A recomputation with replayable provenance merges, links, and attaches series. */
  lemma RecomputeRuns(t: Tables, b: BookId)
    requires Sound(t) && b in t.books && AllMapped(t.sources)
    requires AttachedTo(t.sources, b) != {}
    ensures var cs := Candidates(t.sources, b); var merged := MergedUnder(t.books[b].identity, cs);
      && cs != [] && merged.Ok?
      && merged.value.isbn13 == IsbnOf(t.books[b].identity)
      && Recompute(t, b).Ok?
      && Recompute(t, b).value.counts == RewriteCounts(t.books[b], merged.value, cs)
      && SyncSeries(Linked(t, b, merged.value, cs), b, cs).Ok?
      && Recompute(t, b).value.tables == SyncSeries(Linked(t, b, merged.value, cs), b, cs).value
      && SameButText(Linked(t, b, merged.value, cs), Recompute(t, b).value.tables, b)
  {
    var cs := Candidates(t.sources, b);
    MappedCandidates(t.sources, b);
    var k :| k in AttachedTo(t.sources, b);
    assert Replay(k.source, t.sources[k].payload).value in cs;
    MergeUnderIdentity(t.books[b].identity, cs);
    var merged := MergedUnder(t.books[b].identity, cs).value;
    var mid := Linked(t, b, merged, cs);
    LinkedIsSound(t, b, merged, cs);
    SeriesSyncs(mid, b, cs);
  }

  lemma SeriesSyncs(t: Tables, b: BookId, cs: seq<CleanBook>)
    requires Sound(t) && b in t.books
    requires forall c :: c in cs ==> KeyOf(c) in t.sources && forall m :: m in c.series && m.HasId() ==> m.confirmed
    ensures SyncSeries(t, b, cs).Ok?
    ensures SameButText(t, SyncSeries(t, b, cs).value, b)
  {
    forall x | x in Mentions(cs) ensures x.who in t.sources.Keys && Evidenced(x) {
      var c :| c in cs && x.who == KeyOf(c) && x.said in c.series;
    }
    EvidencedSyncCompletes(t.shelf, b, t.sources.Keys, Mentions(cs));
  }

  /** A row's fingerprint is a stub's placeholder, or covers the columns it has. */
  ghost predicate Fingerprinted(row: BookRow) {
    row.contentHash != Unset ==> row.contentHash.columns == row.columns
  }

  /** Rewriting a row from a merge makes the row say what the merge says. */
  lemma RewriteSettles(row: BookRow, merged: CleanBook, cs: seq<CleanBook>)
    requires Fingerprinted(row) && row.isbn13 == merged.isbn13
    ensures var w := Rewrite(row, merged, cs);
      && w.isbn13 == merged.isbn13 && w.columns == Columns(merged, cs)
      && w.contentHash == Digest(merged.isbn13, Columns(merged, cs))
      && w.identity == row.identity && w.seriesText == row.seriesText
  {
  }

  lemma LinkedSettles(t: Tables, b: BookId, merged: CleanBook, cs: seq<CleanBook>)
    requires b in t.books
    ensures var u := Linked(t, b, merged, cs);
      && u.sources == t.sources && u.nextId == t.nextId && u.shelf == t.shelf
      && u.books == t.books[b := Rewrite(t.books[b], merged, cs)]
      && t.bookAuthors.Keys <= u.bookAuthors.Keys
      && t.bookSubjects <= u.bookSubjects
      && (forall n :: n in Credits(cs) ==> NameLink(b, n) in u.bookAuthors)
      && (forall n :: n in SubjectNames(merged.subjects) ==> NameLink(b, n) in u.bookSubjects)
  {
    var written := t.(books := t.books[b := Rewrite(t.books[b], merged, cs)]);
    SyncAuthorsLinks(written, b, cs);
    SyncSubjectsLinks(SyncAuthors(written, b, cs), b, merged.subjects);
  }

  /** After a recomputation only the book has changed, and it says what its provenance says. */
  ghost predicate Settled(t: Tables, u: Tables, b: BookId) {
    && b in t.books
    && u.sources == t.sources && u.nextId == t.nextId
    && u.books.Keys == t.books.Keys
    && (forall c :: c in t.books && c != b ==> u.books[c] == t.books[c])
    && u.books[b].identity == t.books[b].identity
    && t.bookAuthors.Keys <= u.bookAuthors.Keys
    && t.bookSubjects <= u.bookSubjects
    && Synced(u, b)
  }

  lemma LinkedThenText(t: Tables, mid: Tables, u: Tables, b: BookId, merged: CleanBook, cs: seq<CleanBook>)
    requires b in t.books && mid == Linked(t, b, merged, cs)
    requires cs == Candidates(t.sources, b) && cs != []
    requires MergedUnder(t.books[b].identity, cs) == Ok(merged)
    requires Fingerprinted(t.books[b]) && t.books[b].isbn13 == merged.isbn13
    requires b in mid.books && SameButText(mid, u, b)
    ensures Settled(t, u, b)
  {
    RewriteSettles(t.books[b], merged, cs);
    LinkedSettles(t, b, merged, cs);
  }

  /** Everything a recomputation does, for a book with replayable provenance. */
  lemma RecomputeSettles(t: Tables, b: BookId)
    requires Sound(t) && b in t.books && AllMapped(t.sources)
    requires AttachedTo(t.sources, b) != {}
    requires Fingerprinted(t.books[b])
    ensures Recompute(t, b).Ok?
    ensures Settled(t, Recompute(t, b).value.tables, b)
  {
    RecomputeRuns(t, b);
    var cs := Candidates(t.sources, b);
    var merged := MergedUnder(t.books[b].identity, cs).value;
    LinkedThenText(t, Linked(t, b, merged, cs), Recompute(t, b).value.tables, b, merged, cs);
  }

  // ----- loading one record

  lemma SyncedFrame(t: Tables, u: Tables, c: BookId)
    requires c in t.books && Synced(t, c)
    requires Kept(t, u, c)
    requires forall k :: k in AttachedTo(t.sources, c) ==> k in u.sources && t.sources[k].payload == u.sources[k].payload
    ensures Synced(u, c)
  {
    CandidatesFrame(t.sources, c, u.sources, c);
  }

  /** The record just loaded is what its provenance row says, on the book it found. */
  ghost predicate Homed(t: Tables, r: Record) {
    && r.Key() in t.sources
    && t.sources[r.Key()].payload == r.payload
    && t.sources[r.Key()].book in t.books
    && (r.book.isbn13.Some? ==> t.books[t.sources[r.Key()].book].isbn13 == r.book.isbn13)
  }

  predicate SameContent(a: BookRow, b: BookRow) {
    a.contentHash == b.contentHash && a.columns == b.columns
  }

  /** A known key keeps its book, or follows it into the book it is merged with. */
  ghost predicate RightHome(t: Tables, r: Record, h: Home) {
    && h.book in h.tables.books
    && (r.Key() in t.sources ==> r.Key() in h.tables.sources && h.tables.sources[r.Key()].book == h.book)
    && (r.Key() !in t.sources ==> h.tables.books[h.book].identity == r.book.identity)
    && (r.book.isbn13.Some? ==> h.tables.books[h.book].isbn13 == r.book.isbn13)
    && h.inserted <= 1
    && (h.inserted == 0 ==> h.book in t.books && SameContent(t.books[h.book], h.tables.books[h.book]))
    && (h.inserted == 1 ==> h.tables.books[h.book].contentHash == Unset)
  }

  lemma ReconcileIsRight(t: Tables, b: BookId, r: Record)
    requires Sound(t) && r.book.isbn13.Some?
    requires r.Key() in t.sources && b == t.sources[r.Key()].book
    ensures RightHome(t, r, Reconcile(t, b, r))
  {
    hide MoveAuthors, MoveSubjects, DropBook, ForeignKeys, Keyed, Identified;
  }

  lemma FindOrCreateIsRight(t: Tables, r: Record)
    requires Sound(t) && r.Key() !in t.sources
    ensures RightHome(t, r, FindOrCreate(t, r))
  {
  }

  lemma FindHomeIsRight(t: Tables, r: Record)
    requires Sound(t)
    ensures RightHome(t, r, FindHome(t, r))
  {
    if r.Key() in t.sources {
      if r.book.isbn13.Some? {
        ReconcileIsRight(t, t.sources[r.Key()].book, r);
      }
    } else {
      FindOrCreateIsRight(t, r);
    }
  }

  /** The tables once the record's provenance row is written, before the recomputation. */
  ghost function Filed(t: Tables, r: Record): Tables
    requires References(t)
  {
    var h := FindHome(t, r);
    UpsertSource(h.tables, h.book, r)
  }

  ghost predicate FiledFrame(t: Tables, r: Record, h: Home, mid: Tables) {
    && h.book in mid.books
    && mid.books == h.tables.books
    && mid.sources.Keys == t.sources.Keys + {r.Key()}
    && mid.sources[r.Key()] == SourceRow(h.book, r.payload)
    && (forall k :: k in t.sources && k != r.Key() ==> mid.sources[k].payload == t.sources[k].payload)
    && (forall c :: c in mid.books && c != h.book ==> Kept(t, mid, c) && r.Key() !in AttachedTo(t.sources, c))
    && |mid.books| + h.merges == |t.books| + h.inserted
  }

  lemma FilingKeeps(t: Tables, h: Home, r: Record, c: BookId)
    requires Kept(t, h.tables, c) && c != h.book
    requires r.Key() in t.sources ==> r.Key() in h.tables.sources && h.tables.sources[r.Key()].book == h.book
    requires h.tables.sources.Keys == t.sources.Keys
    ensures Kept(t, UpsertSource(h.tables, h.book, r), c)
    ensures r.Key() !in AttachedTo(t.sources, c)
  {
    var mid := UpsertSource(h.tables, h.book, r);
    assert r.Key() !in AttachedTo(h.tables.sources, c);
    assert AttachedTo(mid.sources, c) == AttachedTo(h.tables.sources, c);
  }

  lemma OthersKeptByFiling(t: Tables, r: Record, h: Home)
    requires HomeFrame(t, h) && RightHome(t, r, h)
    ensures forall c :: c in h.tables.books && c != h.book ==>
      Kept(t, UpsertSource(h.tables, h.book, r), c) && r.Key() !in AttachedTo(t.sources, c)
  {
    forall c | c in h.tables.books && c != h.book
      ensures Kept(t, UpsertSource(h.tables, h.book, r), c)
      ensures r.Key() !in AttachedTo(t.sources, c)
    {
      FilingKeeps(t, h, r, c);
    }
  }

  lemma FilingFrame(t: Tables, r: Record, h: Home)
    requires HomeFrame(t, h) && RightHome(t, r, h)
    ensures FiledFrame(t, r, h, UpsertSource(h.tables, h.book, r))
  {
    OthersKeptByFiling(t, r, h);
    hide Kept, AttachedTo, RightHome;
  }

  lemma FiledIsRight(t: Tables, r: Record)
    requires Sound(t)
    ensures Sound(Filed(t, r)) && FiledFrame(t, r, FindHome(t, r), Filed(t, r))
  {
    var h := FindHome(t, r);
    FindHomeIsSound(t, r);
    FindHomeIsRight(t, r);
    UpsertIsSound(h.tables, h.book, r);
    FilingFrame(t, r, h);
  }

  lemma FiledIsReady(t: Tables, r: Record, h: Home, mid: Tables)
    requires AllMapped(t.sources) && Mapped(r)
    requires FiledFrame(t, r, h, mid)
    ensures AllMapped(mid.sources) && r.Key() in AttachedTo(mid.sources, h.book)
  {
  }

  /** A load is the filing of the record followed by the recomputation of its book. */
  lemma LoadOneRuns(t: Tables, r: Record)
    requires Sound(t) && AllMapped(t.sources) && Mapped(r)
    ensures var h := FindHome(t, r); var mid := Filed(t, r);
      && h.book in mid.books
      && Recompute(mid, h.book).Ok? && LoadOne(t, r).Ok?
      && LoadOne(t, r).value.tables == Recompute(mid, h.book).value.tables
      && LoadOne(t, r).value.counts == Recompute(mid, h.book).value.counts.Plus(Counts(h.inserted, 0, 0, 1, h.merges))
  {
    FiledIsRight(t, r);
    FiledIsReady(t, r, FindHome(t, r), Filed(t, r));
    RecomputeRuns(Filed(t, r), FindHome(t, r).book);
  }

  lemma SettlingKeeps(t: Tables, mid: Tables, u: Tables, b: BookId, c: BookId)
    requires Kept(t, mid, c) && Settled(mid, u, b) && c != b
    ensures Kept(t, u, c)
  {
  }

  lemma OthersStaySynced(t: Tables, r: Record, h: Home, mid: Tables, u: Tables)
    requires FiledFrame(t, r, h, mid) && Settled(mid, u, h.book)
    requires forall b :: b in t.books ==> Synced(t, b)
    ensures forall c :: c in u.books ==> Synced(u, c)
  {
    hide Synced;
    forall c | c in u.books ensures Synced(u, c) {
      if c != h.book {
        OtherStaysSynced(t, r, h, mid, u, c);
      }
    }
  }

  lemma OtherStaysSynced(t: Tables, r: Record, h: Home, mid: Tables, u: Tables, c: BookId)
    requires FiledFrame(t, r, h, mid) && Settled(mid, u, h.book)
    requires c in u.books && c != h.book && c in t.books && Synced(t, c)
    ensures Synced(u, c)
  {
    hide Synced;
    SettlingKeeps(t, mid, u, h.book, c);
    SyncedFrame(t, u, c);
  }

  lemma FiledIsFingerprinted(t: Tables, r: Record)
    requires Inv(t)
    ensures FindHome(t, r).book in Filed(t, r).books && Fingerprinted(Filed(t, r).books[FindHome(t, r).book])
    ensures FindHome(t, r).inserted == 0 <==> Filed(t, r).books[FindHome(t, r).book].contentHash != Unset
    ensures FindHome(t, r).inserted <= 1
  {
    FiledIsRight(t, r);
    FindHomeIsRight(t, r);
    var h := FindHome(t, r);
    if h.inserted == 0 {
      assert Synced(t, h.book);
    }
  }

  lemma LoadOneSettles(t: Tables, r: Record)
    requires Inv(t) && Mapped(r)
    ensures LoadOne(t, r).Ok?
    ensures Settled(Filed(t, r), LoadOne(t, r).value.tables, FindHome(t, r).book)
  {
    LoadOneRuns(t, r);
    FiledIsRight(t, r);
    FiledIsReady(t, r, FindHome(t, r), Filed(t, r));
    FiledIsFingerprinted(t, r);
    RecomputeSettles(Filed(t, r), FindHome(t, r).book);
  }

  /**
   * A mapped record loads into any catalogue of mapped records: the load commits, every book
   * still says what its provenance says, no provenance row is lost, the number of books moves
   * by what was inserted less what was merged, and the record is counted exactly once.
   */
  lemma LoadOneKeepsEverything(t: Tables, r: Record)
    requires Inv(t) && Mapped(r)
    ensures LoadOne(t, r).Ok?
    ensures var done := LoadOne(t, r).value;
      && Inv(done.tables)
      && Homed(done.tables, r)
      && done.tables.sources.Keys == t.sources.Keys + {r.Key()}
      && (forall k :: k in t.sources && k != r.Key() ==> done.tables.sources[k].payload == t.sources[k].payload)
      && |done.tables.books| + done.counts.merges == |t.books| + done.counts.inserted
      && done.counts.RecordsLoaded() == 1
  {
    var h, mid := FindHome(t, r), Filed(t, r);
    LoadOneSettles(t, r);
    LoadOneIsSound(t, r);
    FiledIsRight(t, r);
    FiledIsReady(t, r, h, mid);
    FindHomeIsRight(t, r);
    var u := LoadOne(t, r).value.tables;
    OthersStaySynced(t, r, h, mid, u);
    assert |u.books.Keys| == |mid.books.Keys|;
    HomedFollows(t, r, h, mid, u);
    CountedOnce(t, r);
  }

  lemma HomedFollows(t: Tables, r: Record, h: Home, mid: Tables, u: Tables)
    requires FiledFrame(t, r, h, mid) && Settled(mid, u, h.book) && RightHome(t, r, h)
    requires Identified(mid.books) && Identified(u.books)
    ensures Homed(u, r)
  {
  }

  lemma CountedOnce(t: Tables, r: Record)
    requires Inv(t) && Mapped(r)
    ensures LoadOne(t, r).Ok?
    ensures var counts := LoadOne(t, r).value.counts;
      counts.RecordsLoaded() == 1 && counts.inserted == FindHome(t, r).inserted && counts.merges == FindHome(t, r).merges
  {
    var h, mid := FindHome(t, r), Filed(t, r);
    LoadOneRuns(t, r);
    FiledIsRight(t, r);
    FiledIsReady(t, r, h, mid);
    FiledIsFingerprinted(t, r);
    RecomputeCounts(mid, h.book);
    CountUp(Recompute(mid, h.book).value.counts, h.inserted, h.merges);
  }

  lemma CountUp(n: Counts, inserted: nat, merges: nat)
    requires n.inserted == 0 && n.merges == 0 && inserted <= 1
    requires n.updated + n.untouched == 1 - inserted
    ensures var done := n.Plus(Counts(inserted, 0, 0, 1, merges));
      done.RecordsLoaded() == 1 && done.inserted == inserted && done.merges == merges
  {
  }

  lemma RecomputeCounts(t: Tables, b: BookId)
    requires Sound(t) && b in t.books && AllMapped(t.sources)
    requires AttachedTo(t.sources, b) != {}
    ensures Recompute(t, b).Ok?
    ensures var n := Recompute(t, b).value.counts;
      && n.inserted == 0 && n.merges == 0 && n.linked == 0
      && n.updated + n.untouched == (if t.books[b].contentHash == Unset then 0 else 1)
  {
    RecomputeRuns(t, b);
  }

  // ----- what the columns and links say

  /** Only Gutendex counts downloads: the column holds a Gutendex count or nothing. */
  lemma {:induction false} DownloadsAreGutendex(cs: seq<CleanBook>)
    ensures Downloads(cs).Some? ==>
      exists c :: c in cs && c.source == Gutendex && DownloadCount in c.fields && c.fields[DownloadCount] == Downloads(cs).value
    ensures (forall c :: c in cs && c.source == Gutendex ==> DownloadCount in c.fields) ==>
      (Downloads(cs).Some? <==> exists c :: c in cs && c.source == Gutendex)
  {
    if cs != [] {
      assert cs[0] in cs && forall c :: c in cs <==> c == cs[0] || c in cs[1..];
      if cs[0].source != Gutendex {
        DownloadsAreGutendex(cs[1..]);
      }
    }
  }

  /** The first candidate to name an author, and the first credit in it, decide name and position. */
  predicate FirstCredit(cs: seq<CleanBook>, n: string, i: nat, j: nat) {
    && i < |cs| && j < |cs[i].authors| && cs[i].authors[j].normalised == Some(n)
    && (forall k :: 0 <= k < j ==> cs[i].authors[k].normalised != Some(n))
    && (forall h, k :: 0 <= h < i && 0 <= k < |cs[h].authors| ==> cs[h].authors[k].normalised != Some(n))
  }

  lemma {:induction false} CreditIsTheFirst(cs: seq<CleanBook>, n: string, i: nat, j: nat)
    requires FirstCredit(cs, n, i, j)
    ensures n in Credits(cs) && Credits(cs)[n] == (cs[i].authors[j].name, j)
  {
    if i == 0 {
      FirstInList(cs[0].authors, 0, n, j);
    } else {
      assert FirstCredit(cs[1..], n, i - 1, j) by {
        assert forall h :: 0 <= h < i - 1 ==> cs[1..][h] == cs[h + 1];
        assert cs[1..][i - 1] == cs[i];
      }
      CreditIsTheFirst(cs[1..], n, i - 1, j);
      NotInList(cs[0].authors, 0, n);
    }
  }

  lemma {:induction false} FirstInList(authors: seq<Author>, position: nat, n: string, j: nat)
    requires j < |authors| && authors[j].normalised == Some(n)
    requires forall k :: 0 <= k < j ==> authors[k].normalised != Some(n)
    ensures n in CreditsFrom(authors, position)
    ensures CreditsFrom(authors, position)[n] == (authors[j].name, position + j)
  {
    if j > 0 {
      assert authors[1..][j - 1] == authors[j];
      FirstInList(authors[1..], position + 1, n, j - 1);
    }
  }

  lemma {:induction false} NotInList(authors: seq<Author>, position: nat, n: string)
    requires forall k :: 0 <= k < |authors| ==> authors[k].normalised != Some(n)
    ensures n !in CreditsFrom(authors, position)
  {
    if authors != [] {
      assert forall k :: 0 <= k < |authors| - 1 ==> authors[1..][k] == authors[k + 1];
      NotInList(authors[1..], position + 1, n);
    }
  }
}
