// What a book's row and its links hold, column by column, in terms of the records stored for it.

module BookRows {
  import opened Ordering
  import opened Domain
  import opened Merge
  import opened Ranking
  import opened Series
  import opened Catalogue
  import opened CatalogueProofs

  // ----- the records stored for a book, and their order

  /** One of the records stored for the book, as its payload reads. */
  ghost predicate Attached(t: Tables, b: BookId, c: CleanBook) {
    exists k :: k in t.sources && t.sources[k].book == b && Replay(k.source, t.sources[k].payload) == Some(c)
  }

  lemma CandidatesAreAttached(t: Tables, b: BookId, c: CleanBook)
    ensures c in Candidates(t.sources, b) <==> Attached(t, b, c)
  {
    KeyIsTotalOrder();
    var keys := Arrange(AttachedTo(t.sources, b), KeyLe);
    assert forall k :: k in keys <==> k in t.sources && t.sources[k].book == b;
  }

  /** Goodreads, Google Books, Gutendex, Open Library, as their names sort; then by id. */
  ghost predicate Earlier(k: Key, l: Key) {
    || (k.source == Goodreads && l.source in {GoogleBooks, Gutendex, OpenLibrary})
    || (k.source == GoogleBooks && l.source in {Gutendex, OpenLibrary})
    || (k.source == Gutendex && l.source == OpenLibrary)
    || (k.source == l.source && Smaller(k.sourceId, l.sourceId))
  }

  lemma KeyLeMeans(k: Key, l: Key)
    requires KeyLe(k, l) && k != l
    ensures Earlier(k, l)
  {
    SmallerMeans(k.sourceId, l.sourceId);
    if k.source == l.source && LexLe(l.sourceId, k.sourceId) {
      LexAntisymmetric(k.sourceId, l.sourceId);
    }
  }

  ghost predicate InOrder(cs: seq<CleanBook>) {
    forall i, j :: 0 <= i < j < |cs| ==> Earlier(KeyOf(cs[i]), KeyOf(cs[j]))
  }

  lemma {:induction false} ReplayInOrder(sources: map<Key, SourceRow>, keys: seq<Key>)
    requires forall k :: k in keys ==> k in sources && Maps(k, sources[k].payload)
    requires Ascending(keys, KeyLe)
    ensures InOrder(ReplayAll(sources, keys))
    ensures forall c :: c in ReplayAll(sources, keys) ==> KeyOf(c) in keys
  {
    if keys != [] {
      var rest := ReplayAll(sources, keys[1..]);
      ReplayInOrder(sources, keys[1..]);
      assert keys[0] in keys;
      var first := Replay(keys[0].source, sources[keys[0]].payload).value;
      forall j | 0 <= j < |rest| ensures Earlier(KeyOf(first), KeyOf(rest[j])) {
        assert rest[j] in rest;
        var m :| 0 < m < |keys| && keys[m] == KeyOf(rest[j]);
        KeyLeMeans(keys[0], keys[m]);
      }
    }
  }

  /** A book's stored records replay in order of source name and id. */
  lemma CandidatesInOrder(t: Tables, b: BookId)
    requires AllMapped(t.sources)
    ensures InOrder(Candidates(t.sources, b))
  {
    KeyIsTotalOrder();
    var keys := Arrange(AttachedTo(t.sources, b), KeyLe);
    forall k | k in keys ensures k in t.sources && Maps(k, t.sources[k].payload) {
      assert k in AttachedTo(t.sources, b);
    }
    ReplayInOrder(t.sources, keys);
  }

  // ----- the columns

  /** The record whose answer a field takes: of those stored for the book, none with an answer outdoes it. */
  ghost predicate Answers(t: Tables, b: BookId, f: Field, c: CleanBook) {
    && Attached(t, b, c) && f in c.fields
    && forall d :: Attached(t, b, d) && f in d.fields ==> !Outdoes(d, c)
  }

  /** The Gutendex record stored for the book, under the smallest id. */
  ghost predicate CountsDownloads(t: Tables, b: BookId, c: CleanBook) {
    && Attached(t, b, c) && c.source == Gutendex
    && forall d :: Attached(t, b, d) && d.source == Gutendex ==> !Smaller(d.sourceId, c.sourceId)
  }

  /** A column is null only when every record stored for the book lacks it, and otherwise holds the foremost's answer. */
  ghost predicate HoldsAnswer(t: Tables, b: BookId, f: Field)
    requires b in t.books
  {
    var columns := t.books[b].columns;
    && (f in columns <==> exists c :: Attached(t, b, c) && f in c.fields)
    && (f in columns ==> exists c :: Answers(t, b, f, c) && columns[f] == c.fields[f])
  }

  ghost predicate HoldsDownloads(t: Tables, b: BookId)
    requires b in t.books
  {
    var columns := t.books[b].columns;
    && (DownloadCount in columns <==> exists c :: CountsDownloads(t, b, c) && DownloadCount in c.fields)
    && (forall c :: CountsDownloads(t, b, c) && DownloadCount in c.fields ==>
          DownloadCount in columns && columns[DownloadCount] == c.fields[DownloadCount])
  }

  /**
   * Column by column, what the row of a book holds. Nine columns hold the answer of the foremost
   * record that has one, downloads the count of the first Gutendex record, and there is no other.
   */
  ghost predicate RowSays(t: Tables, b: BookId)
    requires b in t.books
  {
    && HoldsAnswer(t, b, Title) && HoldsAnswer(t, b, Subtitle) && HoldsAnswer(t, b, PublishedYear)
    && HoldsAnswer(t, b, Publisher) && HoldsAnswer(t, b, PageCount) && HoldsAnswer(t, b, GoodreadsAverageRating)
    && HoldsAnswer(t, b, Language) && HoldsAnswer(t, b, Description) && HoldsAnswer(t, b, CoverUrl)
    && HoldsDownloads(t, b)
    && NormalisedTitle !in t.books[b].columns && NormalisedFirstAuthor !in t.books[b].columns
    && t.books[b].isbn13 == match t.books[b].identity case Isbn(isbn) => Some(isbn) case Fallback(_) => None
  }

  lemma RekeyedSays(c: CleanBook, identity: IdentityKey)
    ensures var r := Rekey(c, identity);
      && r.fields == c.fields && r.authors == c.authors && r.subjects == c.subjects && r.series == c.series
      && r.source == c.source && r.sourceId == c.sourceId && Filled(r) == Filled(c)
  {
  }

  lemma RekeyedOutdoes(d: CleanBook, c: CleanBook, identity: IdentityKey)
    ensures Outdoes(Rekey(d, identity), Rekey(c, identity)) <==> Outdoes(d, c)
  {
    RekeyedSays(c, identity);
    RekeyedSays(d, identity);
    hide Rekey, Filled;
  }

  lemma RekeyedForemost(cs: seq<CleanBook>, identity: IdentityKey, f: Field, w: CleanBook) returns (c: CleanBook)
    requires Foremost(RekeyAll(cs, identity), (d: CleanBook) => f in d.fields, w)
    ensures Foremost(cs, (d: CleanBook) => f in d.fields, c) && f in c.fields && c.fields == w.fields
  {
    hide Rekey, Outdoes;
    var rs := RekeyAll(cs, identity);
    var i :| 0 <= i < |rs| && rs[i] == w;
    c := cs[i];
    RekeyedSays(c, identity);
    forall d | d in cs && f in d.fields ensures !Outdoes(d, c) {
      var j :| 0 <= j < |cs| && cs[j] == d;
      RekeyedSays(d, identity);
      assert rs[j] in rs;
      RekeyedOutdoes(d, c, identity);
    }
  }

  lemma RekeyedHave(cs: seq<CleanBook>, identity: IdentityKey, f: Field)
    ensures (exists c :: c in RekeyAll(cs, identity) && f in c.fields) <==> exists c :: c in cs && f in c.fields
  {
    hide Rekey;
    var rs := RekeyAll(cs, identity);
    forall i | 0 <= i < |cs| ensures rs[i].fields == cs[i].fields && rs[i] in rs && cs[i] in cs {
      RekeyedSays(cs[i], identity);
    }
    if c :| c in rs && f in c.fields {
      var i :| 0 <= i < |rs| && rs[i] == c;
      assert cs[i] in cs && f in cs[i].fields;
    }
    if c :| c in cs && f in c.fields {
      var i :| 0 <= i < |cs| && cs[i] == c;
      assert rs[i] in rs && f in rs[i].fields;
    }
  }

  lemma ForemostUnderIdentity(cs: seq<CleanBook>, identity: IdentityKey, f: Field)
    requires MergedUnder(identity, cs).Ok?
    ensures var r := MergedUnder(identity, cs).value;
      && (f in r.fields <==> exists c :: c in cs && f in c.fields)
      && (f in r.fields ==> exists c ::
            Foremost(cs, (d: CleanBook) => f in d.fields, c) && f in c.fields && r.fields[f] == c.fields[f])
  {
    var rs := RekeyAll(cs, identity);
    assert MergedUnder(identity, cs) == MergeCandidates(rs, None);
    hide *;
    MergedFieldIsTheForemosts(rs, None, f);
    RekeyedHave(cs, identity, f);
    var r := MergedUnder(identity, cs).value;
    if f in r.fields {
      var w :| Foremost(rs, (d: CleanBook) => f in d.fields, w) && r.fields[f] == w.fields[f];
      var c := RekeyedForemost(cs, identity, f, w);
    }
  }

  lemma MergedColumn(t: Tables, b: BookId, f: Field)
    requires b in t.books && Synced(t, b)
    requires f in {Title, Subtitle, PublishedYear, Publisher, PageCount, GoodreadsAverageRating, Language, Description,
                   CoverUrl}
    ensures var merged := MergedUnder(t.books[b].identity, Candidates(t.sources, b));
      && merged.Ok?
      && (f in t.books[b].columns <==> f in merged.value.fields)
      && (f in t.books[b].columns ==> t.books[b].columns[f] == merged.value.fields[f])
  {
    hide Candidates, MergedUnder, Downloads;
  }

  lemma ColumnIs(t: Tables, b: BookId, f: Field)
    requires b in t.books && Synced(t, b)
    requires f in {Title, Subtitle, PublishedYear, Publisher, PageCount, GoodreadsAverageRating, Language, Description,
                   CoverUrl}
    ensures HoldsAnswer(t, b, f)
  {
    hide *;
    var cs := Candidates(t.sources, b);
    MergedColumn(t, b, f);
    ForemostUnderIdentity(cs, t.books[b].identity, f);
    forall c ensures c in cs <==> Attached(t, b, c) {
      CandidatesAreAttached(t, b, c);
    }
    if f in t.books[b].columns {
      var c :| Foremost(cs, (d: CleanBook) => f in d.fields, c) && f in c.fields && t.books[b].columns[f] == c.fields[f];
      ForemostAnswers(t, b, f, cs, c);
    }
    AnswerHeld(t, b, f);
  }

  lemma AnswerHeld(t: Tables, b: BookId, f: Field)
    requires b in t.books
    requires f in t.books[b].columns <==> exists c :: Attached(t, b, c) && f in c.fields
    requires f in t.books[b].columns ==>
      exists c :: Answers(t, b, f, c) && f in c.fields && t.books[b].columns[f] == c.fields[f]
    ensures HoldsAnswer(t, b, f)
  {
    hide Attached, Answers;
  }

  lemma ForemostAnswers(t: Tables, b: BookId, f: Field, cs: seq<CleanBook>, c: CleanBook)
    requires Foremost(cs, (d: CleanBook) => f in d.fields, c) && forall d :: d in cs <==> Attached(t, b, d)
    ensures f in c.fields && Answers(t, b, f, c)
  {
    hide Attached, Outdoes;
  }

  lemma {:induction false} DownloadsAreTheFirsts(cs: seq<CleanBook>, i: nat)
    requires i < |cs| && cs[i].source == Gutendex && forall j :: 0 <= j < i ==> cs[j].source != Gutendex
    ensures Downloads(cs) == if DownloadCount in cs[i].fields then Some(cs[i].fields[DownloadCount]) else None
  {
    if i > 0 {
      assert cs[1..][i - 1] == cs[i];
      DownloadsAreTheFirsts(cs[1..], i - 1);
    }
  }

  lemma SmallestIsFirst(t: Tables, b: BookId, cs: seq<CleanBook>, c: CleanBook) returns (i: nat)
    requires CountsDownloads(t, b, c) && InOrder(cs) && forall d :: d in cs <==> Attached(t, b, d)
    ensures i < |cs| && cs[i] == c && forall j :: 0 <= j < i ==> cs[j].source != Gutendex
  {
    hide Attached, Smaller;
    i :| i < |cs| && cs[i] == c;
    forall j | 0 <= j < i ensures cs[j].source != Gutendex {
      assert cs[j] in cs && Earlier(KeyOf(cs[j]), KeyOf(cs[i]));
    }
  }

  lemma FirstGutendex(t: Tables, b: BookId, cs: seq<CleanBook>) returns (c: CleanBook)
    requires InOrder(cs) && (forall d :: d in cs <==> Attached(t, b, d))
    requires exists d :: d in cs && d.source == Gutendex
    ensures CountsDownloads(t, b, c)
  {
    hide Attached;
    var i: nat := 0;
    while cs[i].source != Gutendex
      invariant i < |cs| && forall j :: 0 <= j < i ==> cs[j].source != Gutendex
      decreases |cs| - i
    {
      var d :| d in cs && d.source == Gutendex;
      i := i + 1;
    }
    c := cs[i];
    forall d | Attached(t, b, d) && d.source == Gutendex ensures !Smaller(d.sourceId, c.sourceId) {
      var j :| 0 <= j < |cs| && cs[j] == d;
      if j > i {
        assert Earlier(KeyOf(cs[i]), KeyOf(cs[j]));
        NotBoth(c.sourceId, d.sourceId);
      } else {
        SmallerMeans(c.sourceId, c.sourceId);
        LexTotal(c.sourceId, c.sourceId);
      }
    }
  }

  lemma NotBoth(s: string, t: string)
    ensures !(Smaller(s, t) && Smaller(t, s))
  {
    SmallerMeans(s, t);
    SmallerMeans(t, s);
    LexTotal(s, t);
  }

  lemma DownloadsColumn(t: Tables, b: BookId)
    requires b in t.books && Synced(t, b)
    ensures var downloads, columns := Downloads(Candidates(t.sources, b)), t.books[b].columns;
      && (DownloadCount in columns <==> downloads.Some?)
      && (downloads.Some? ==> columns[DownloadCount] == downloads.value)
  {
    hide Candidates, MergedUnder, Downloads;
  }

  lemma FirstsDownloads(t: Tables, b: BookId, cs: seq<CleanBook>, c: CleanBook)
    requires InOrder(cs) && (forall d :: d in cs <==> Attached(t, b, d)) && CountsDownloads(t, b, c)
    ensures Downloads(cs) == if DownloadCount in c.fields then Some(c.fields[DownloadCount]) else None
  {
    var i := SmallestIsFirst(t, b, cs, c);
    DownloadsAreTheFirsts(cs, i);
  }

  lemma DownloadsAreCounted(t: Tables, b: BookId, cs: seq<CleanBook>)
    requires InOrder(cs) && forall d :: d in cs <==> Attached(t, b, d)
    ensures forall c :: CountsDownloads(t, b, c) ==>
      Downloads(cs) == if DownloadCount in c.fields then Some(c.fields[DownloadCount]) else None
    ensures Downloads(cs).Some? ==> exists c :: CountsDownloads(t, b, c)
  {
    hide *;
    DownloadsAreGutendex(cs);
    forall c | CountsDownloads(t, b, c)
      ensures Downloads(cs) == if DownloadCount in c.fields then Some(c.fields[DownloadCount]) else None
    {
      FirstsDownloads(t, b, cs, c);
    }
    if Downloads(cs).Some? {
      var c := FirstGutendex(t, b, cs);
    }
  }

  lemma CountedHeld(t: Tables, b: BookId, downloads: Option<Value>)
    requires b in t.books
    requires forall c :: CountsDownloads(t, b, c) ==>
      downloads == if DownloadCount in c.fields then Some(c.fields[DownloadCount]) else None
    requires downloads.Some? ==> exists c :: CountsDownloads(t, b, c)
    requires DownloadCount in t.books[b].columns <==> downloads.Some?
    requires downloads.Some? ==> t.books[b].columns[DownloadCount] == downloads.value
    ensures HoldsDownloads(t, b)
  {
    hide CountsDownloads;
  }

  lemma DownloadColumnIs(t: Tables, b: BookId)
    requires b in t.books && Synced(t, b) && AllMapped(t.sources)
    ensures HoldsDownloads(t, b)
  {
    hide *;
    var cs := Candidates(t.sources, b);
    DownloadsColumn(t, b);
    CandidatesInOrder(t, b);
    forall c ensures c in cs <==> Attached(t, b, c) {
      CandidatesAreAttached(t, b, c);
    }
    DownloadsAreCounted(t, b, cs);
    CountedHeld(t, b, Downloads(cs));
  }

  lemma RowIs(t: Tables, b: BookId)
    requires Inv(t) && b in t.books
    ensures RowSays(t, b)
  {
    InvParts(t, b);
    hide *;
    DownloadColumnIs(t, b);
    ColumnIs(t, b, Title);
    ColumnIs(t, b, Subtitle);
    ColumnIs(t, b, PublishedYear);
    ColumnIs(t, b, Publisher);
    ColumnIs(t, b, PageCount);
    ColumnIs(t, b, GoodreadsAverageRating);
    ColumnIs(t, b, Language);
    ColumnIs(t, b, Description);
    ColumnIs(t, b, CoverUrl);
    IdentityColumnIs(t, b);
    NoOtherColumn(t, b);
    ThatIsTheRow(t, b);
  }

  lemma InvParts(t: Tables, b: BookId)
    requires Inv(t) && b in t.books
    ensures Sound(t) && AllMapped(t.sources) && Synced(t, b)
  {
    hide Sound, Synced;
  }

  lemma ThatIsTheRow(t: Tables, b: BookId)
    requires b in t.books
    requires HoldsAnswer(t, b, Title) && HoldsAnswer(t, b, Subtitle) && HoldsAnswer(t, b, PublishedYear)
    requires HoldsAnswer(t, b, Publisher) && HoldsAnswer(t, b, PageCount) && HoldsAnswer(t, b, GoodreadsAverageRating)
    requires HoldsAnswer(t, b, Language) && HoldsAnswer(t, b, Description) && HoldsAnswer(t, b, CoverUrl)
    requires HoldsDownloads(t, b)
    requires NormalisedTitle !in t.books[b].columns && NormalisedFirstAuthor !in t.books[b].columns
    requires t.books[b].isbn13 == match t.books[b].identity case Isbn(isbn) => Some(isbn) case Fallback(_) => None
    ensures RowSays(t, b)
  {
    hide HoldsAnswer, HoldsDownloads;
  }

  lemma IdentityColumnIs(t: Tables, b: BookId)
    requires Sound(t) && b in t.books
    ensures t.books[b].isbn13 == match t.books[b].identity case Isbn(isbn) => Some(isbn) case Fallback(_) => None
  {
  }

  lemma NoOtherColumn(t: Tables, b: BookId)
    requires b in t.books && Synced(t, b)
    ensures NormalisedTitle !in t.books[b].columns && NormalisedFirstAuthor !in t.books[b].columns
  {
    hide Candidates, MergedUnder, Downloads;
  }

  /** After any load of a mapped record, every book's row holds what the records stored for it say, column by column. */
  lemma LoadedRowsSay(t: Tables, r: Record)
    requires Inv(t) && Mapped(r)
    ensures LoadOne(t, r).Ok?
    ensures var u := LoadOne(t, r).value.tables;
      Attached(u, u.sources[r.Key()].book, Replay(r.book.source, r.payload).value)
    ensures forall b :: b in LoadOne(t, r).value.tables.books ==> RowSays(LoadOne(t, r).value.tables, b)
  {
    LoadOneKeepsEverything(t, r);
    var u := LoadOne(t, r).value.tables;
    forall b | b in u.books ensures RowSays(u, b) {
      RowIs(u, b);
    }
    hide LoadOne, Inv, RowSays;
  }

  // ----- authors

  lemma {:induction false} CreditIsSomewhere(cs: seq<CleanBook>, n: string) returns (i: nat, j: nat)
    requires n in Credits(cs)
    ensures FirstCredit(cs, n, i, j)
  {
    if InList(cs[0].authors, n) {
      i := 0;
      j := FirstIn(cs[0].authors, n);
    } else {
      NotInList(cs[0].authors, 0, n);
      i, j := CreditIsSomewhere(cs[1..], n);
      assert forall h :: 0 <= h < |cs| - 1 ==> cs[1..][h] == cs[h + 1];
      i := i + 1;
    }
  }

  predicate InList(authors: seq<Author>, n: string) {
    exists j :: 0 <= j < |authors| && authors[j].normalised == Some(n)
  }

  lemma FirstIn(authors: seq<Author>, n: string) returns (j: nat)
    requires InList(authors, n)
    ensures j < |authors| && authors[j].normalised == Some(n)
    ensures forall k :: 0 <= k < j ==> authors[k].normalised != Some(n)
  {
    j := 0;
    while authors[j].normalised != Some(n)
      invariant j < |authors| && forall k :: 0 <= k < j ==> authors[k].normalised != Some(n)
      decreases |authors| - j
    {
      j := j + 1;
    }
  }

  /**
   * What attaching authors leaves under one name: a link and an author row there already are
   * kept; new ones take the position and the name of the first credit among the candidates.
   */
  ghost predicate AuthorWritten(t: Tables, u: Tables, b: BookId, cs: seq<CleanBook>, n: string) {
    var l := NameLink(b, n);
    && (l in u.bookAuthors <==> l in t.bookAuthors || exists i: nat, j: nat :: FirstCredit(cs, n, i, j))
    && (n in u.authors <==> n in t.authors || exists i: nat, j: nat :: FirstCredit(cs, n, i, j))
    && (l in t.bookAuthors ==> u.bookAuthors[l] == t.bookAuthors[l])
    && (n in t.authors ==> u.authors[n] == t.authors[n])
    && (forall i: nat, j: nat :: FirstCredit(cs, n, i, j) ==>
          && (l !in t.bookAuthors ==> u.bookAuthors[l] == j)
          && (n !in t.authors ==> u.authors[n] == cs[i].authors[j].name))
    && (forall c :: c != b ==> Lookup(u.bookAuthors, NameLink(c, n)) == Lookup(t.bookAuthors, NameLink(c, n)))
  }

  lemma AuthorIsWritten(t: Tables, b: BookId, cs: seq<CleanBook>, n: string)
    ensures AuthorWritten(t, SyncAuthors(t, b, cs), b, cs, n)
  {
    if n in Credits(cs) {
      var i, j := CreditIsSomewhere(cs, n);
    }
    forall i: nat, j: nat | FirstCredit(cs, n, i, j) ensures n in Credits(cs) && Credits(cs)[n] == (cs[i].authors[j].name, j) {
      CreditIsTheFirst(cs, n, i, j);
    }
    SyncedAuthor(t, b, cs, n);
    hide Credits, FirstCredit, SyncAuthors;
  }

  lemma SyncedAuthor(t: Tables, b: BookId, cs: seq<CleanBook>, n: string)
    ensures var u, l := SyncAuthors(t, b, cs), NameLink(b, n);
      && Lookup(u.bookAuthors, l) == (if l in t.bookAuthors then Some(t.bookAuthors[l])
                                      else if n in Credits(cs) then Some(Credits(cs)[n].1) else None)
      && Lookup(u.authors, n) == (if n in t.authors then Some(t.authors[n])
                                  else if n in Credits(cs) then Some(Credits(cs)[n].0) else None)
      && (forall c :: c != b ==> Lookup(u.bookAuthors, NameLink(c, n)) == Lookup(t.bookAuthors, NameLink(c, n)))
  {
    hide Credits;
  }

  // ----- subjects

  predicate FirstSubject(list: seq<Subject>, n: string, j: nat) {
    && j < |list| && list[j].normalised == Some(n)
    && forall k :: 0 <= k < j ==> list[k].normalised != Some(n)
  }

  lemma {:induction false} SubjectIsTheFirst(list: seq<Subject>, n: string)
    ensures n in SubjectNames(list) <==> exists j: nat :: FirstSubject(list, n, j)
    ensures forall j: nat :: FirstSubject(list, n, j) ==> SubjectNames(list)[n] == list[j].name
  {
    if list != [] {
      var rest := list[1..];
      SubjectIsTheFirst(rest, n);
      if list[0].normalised == Some(n) {
        assert FirstSubject(list, n, 0);
      } else {
        forall j: nat ensures FirstSubject(rest, n, j) <==> FirstSubject(list, n, j + 1) {
          LaterSubject(list, n, j);
        }
        if j: nat :| FirstSubject(rest, n, j) {
          assert FirstSubject(list, n, j + 1);
        }
        forall j: nat | FirstSubject(list, n, j) ensures n in SubjectNames(list) && SubjectNames(list)[n] == list[j].name {
          assert FirstSubject(rest, n, j - 1);
        }
      }
    }
  }

  lemma LaterSubject(list: seq<Subject>, n: string, j: nat)
    requires list != [] && list[0].normalised != Some(n)
    ensures FirstSubject(list[1..], n, j) <==> FirstSubject(list, n, j + 1)
  {
    assert forall k :: 0 <= k < |list| - 1 ==> list[1..][k] == list[k + 1];
    if FirstSubject(list, n, j + 1) {
      forall k | 0 <= k < j ensures list[1..][k].normalised != Some(n) {
        assert list[k + 1].normalised != Some(n);
      }
    }
  }

  /** What attaching a list of subjects leaves under one name: what there was is kept, and the first form is new. */
  ghost predicate SubjectWritten(t: Tables, u: Tables, b: BookId, list: seq<Subject>, n: string) {
    && (NameLink(b, n) in u.bookSubjects <==>
          NameLink(b, n) in t.bookSubjects || exists j: nat :: FirstSubject(list, n, j))
    && (n in u.subjects <==> n in t.subjects || exists j: nat :: FirstSubject(list, n, j))
    && (n in t.subjects ==> u.subjects[n] == t.subjects[n])
    && (forall j: nat :: FirstSubject(list, n, j) && n !in t.subjects ==> u.subjects[n] == list[j].name)
    && (forall c :: c != b ==> (NameLink(c, n) in u.bookSubjects <==> NameLink(c, n) in t.bookSubjects))
  }

  lemma SubjectIsWritten(t: Tables, b: BookId, list: seq<Subject>, n: string)
    ensures SubjectWritten(t, SyncSubjects(t, b, list), b, list, n)
  {
    SubjectIsTheFirst(list, n);
    hide SubjectNames, FirstSubject;
  }

  /** The list a book's subjects come from: the foremost candidate's with any, whole. */
  ghost predicate SubjectsFrom(cs: seq<CleanBook>, list: seq<Subject>) {
    && (list == [] <==> forall c :: c in cs ==> c.subjects == [])
    && (list != [] ==> exists c :: Foremost(cs, (d: CleanBook) => d.subjects != [], c) && list == c.subjects)
  }

  lemma SubjectsUnderIdentity(cs: seq<CleanBook>, identity: IdentityKey)
    requires MergedUnder(identity, cs).Ok?
    ensures SubjectsFrom(cs, MergedUnder(identity, cs).value.subjects)
  {
    var rs := RekeyAll(cs, identity);
    assert MergedUnder(identity, cs) == MergeCandidates(rs, None);
    hide *;
    MergedListsAreTheForemosts(rs, None);
    var list := MergedUnder(identity, cs).value.subjects;
    RekeyedSubjects(cs, identity);
    if list != [] {
      var w :| Foremost(rs, (d: CleanBook) => d.subjects != [], w) && list == w.subjects;
      var c := RekeyedForemostSubjects(cs, identity, w);
    }
    ThatIsTheList(cs, list);
  }

  lemma ThatIsTheList(cs: seq<CleanBook>, list: seq<Subject>)
    requires list == [] <==> forall c :: c in cs ==> c.subjects == []
    requires list != [] ==> exists c :: Foremost(cs, (d: CleanBook) => d.subjects != [], c) && list == c.subjects
    ensures SubjectsFrom(cs, list)
  {
    hide Foremost;
  }

  lemma RekeyedSubjects(cs: seq<CleanBook>, identity: IdentityKey)
    ensures (exists c :: c in RekeyAll(cs, identity) && c.subjects != []) <==> exists c :: c in cs && c.subjects != []
  {
    hide Rekey;
    var rs := RekeyAll(cs, identity);
    forall i | 0 <= i < |cs| ensures rs[i].subjects == cs[i].subjects && rs[i] in rs && cs[i] in cs {
      RekeyedSays(cs[i], identity);
    }
    if c :| c in rs && c.subjects != [] {
      var i :| 0 <= i < |rs| && rs[i] == c;
      assert cs[i] in cs && cs[i].subjects != [];
    }
    if c :| c in cs && c.subjects != [] {
      var i :| 0 <= i < |cs| && cs[i] == c;
      assert rs[i] in rs && rs[i].subjects != [];
    }
  }

  lemma RekeyedForemostSubjects(cs: seq<CleanBook>, identity: IdentityKey, w: CleanBook) returns (c: CleanBook)
    requires Foremost(RekeyAll(cs, identity), (d: CleanBook) => d.subjects != [], w)
    ensures Foremost(cs, (d: CleanBook) => d.subjects != [], c) && c.subjects == w.subjects
  {
    hide Rekey, Outdoes;
    var rs := RekeyAll(cs, identity);
    var i :| 0 <= i < |rs| && rs[i] == w;
    c := cs[i];
    RekeyedSays(c, identity);
    forall d | d in cs && d.subjects != [] ensures !Outdoes(d, c) {
      var j :| 0 <= j < |cs| && cs[j] == d;
      RekeyedSays(d, identity);
      assert rs[j] in rs;
      RekeyedOutdoes(d, c, identity);
    }
  }

  // ----- through a load

  /** What a load writes of the authors and subjects of the record's book, from all its candidates. */
  ghost predicate LinksWritten(mid: Tables, u: Tables, b: BookId) {
    var cs := Candidates(u.sources, b);
    && (forall n :: AuthorWritten(mid, u, b, cs, n))
    && exists list :: SubjectsFrom(cs, list) && forall n :: SubjectWritten(mid, u, b, list, n)
  }

  lemma LinkedWrites(t: Tables, b: BookId, merged: CleanBook, cs: seq<CleanBook>, n: string)
    requires b in t.books
    ensures AuthorWritten(t, Linked(t, b, merged, cs), b, cs, n)
    ensures SubjectWritten(t, Linked(t, b, merged, cs), b, merged.subjects, n)
  {
    var written := t.(books := t.books[b := Rewrite(t.books[b], merged, cs)]);
    assert Linked(t, b, merged, cs) == SyncSubjects(SyncAuthors(written, b, cs), b, merged.subjects);
    hide *;
    var credited := SyncAuthors(written, b, cs);
    AuthorIsWritten(written, b, cs, n);
    SubjectIsWritten(credited, b, merged.subjects, n);
    OnlyAuthors(written, b, cs);
    OnlySubjects(credited, b, merged.subjects);
    AuthorAlike(written, credited, t, Linked(t, b, merged, cs), b, cs, n);
    SubjectAlike(credited, Linked(t, b, merged, cs), t, Linked(t, b, merged, cs), b, merged.subjects, n);
  }

  lemma AuthorAlike(t: Tables, u: Tables, v: Tables, w: Tables, b: BookId, cs: seq<CleanBook>, n: string)
    requires AuthorWritten(t, u, b, cs, n)
    requires v.authors == t.authors && v.bookAuthors == t.bookAuthors && w.authors == u.authors && w.bookAuthors == u.bookAuthors
    ensures AuthorWritten(v, w, b, cs, n)
  {
    hide FirstCredit;
  }

  lemma SubjectAlike(t: Tables, u: Tables, v: Tables, w: Tables, b: BookId, list: seq<Subject>, n: string)
    requires SubjectWritten(t, u, b, list, n)
    requires v.subjects == t.subjects && v.bookSubjects == t.bookSubjects
    requires w.subjects == u.subjects && w.bookSubjects == u.bookSubjects
    ensures SubjectWritten(v, w, b, list, n)
  {
    hide FirstSubject;
  }

  lemma OnlyAuthors(t: Tables, b: BookId, cs: seq<CleanBook>)
    ensures SyncAuthors(t, b, cs).subjects == t.subjects && SyncAuthors(t, b, cs).bookSubjects == t.bookSubjects
  {
  }

  lemma OnlySubjects(t: Tables, b: BookId, list: seq<Subject>)
    ensures SyncSubjects(t, b, list).authors == t.authors && SyncSubjects(t, b, list).bookAuthors == t.bookAuthors
  {
  }

  lemma RecomputeWritesLinks(t: Tables, b: BookId)
    requires Sound(t) && b in t.books && AllMapped(t.sources) && AttachedTo(t.sources, b) != {}
    ensures Recompute(t, b).Ok? && LinksWritten(t, Recompute(t, b).value.tables, b)
  {
    RecomputeRuns(t, b);
    var cs := Candidates(t.sources, b);
    var merged := MergedUnder(t.books[b].identity, cs).value;
    var mid, u := Linked(t, b, merged, cs), Recompute(t, b).value.tables;
    assert u.sources == mid.sources == t.sources;
    hide *;
    SubjectsUnderIdentity(cs, t.books[b].identity);
    forall n ensures AuthorWritten(t, u, b, cs, n) && SubjectWritten(t, u, b, merged.subjects, n) {
      LinkedWrites(t, b, merged, cs, n);
      AuthorAlike(t, mid, t, u, b, cs, n);
      SubjectAlike(t, mid, t, u, b, merged.subjects, n);
    }
    ThoseAreTheLinks(t, u, b, merged.subjects);
  }

  lemma ThoseAreTheLinks(mid: Tables, u: Tables, b: BookId, list: seq<Subject>)
    requires forall n :: AuthorWritten(mid, u, b, Candidates(u.sources, b), n)
    requires SubjectsFrom(Candidates(u.sources, b), list) && forall n :: SubjectWritten(mid, u, b, list, n)
    ensures LinksWritten(mid, u, b)
  {
    hide AuthorWritten, SubjectWritten, SubjectsFrom, Candidates;
  }

  /**
   * A load attaches to the record's book every author some stored record credits, and every
   * subject of the foremost record with any. Nothing attached is lost, and what is new has the
   * first credit's position and the first form of the name.
   */
  lemma LoadWritesLinks(t: Tables, r: Record)
    requires Inv(t) && Mapped(r)
    ensures References(t) && LoadOne(t, r).Ok?
    ensures LinksWritten(Filed(t, r), LoadOne(t, r).value.tables, FindHome(t, r).book)
  {
    hide Synced, LinksWritten, Recompute;
    LoadOneRuns(t, r);
    FiledIsRight(t, r);
    FiledIsReady(t, r, FindHome(t, r), Filed(t, r));
    hide FindHome, Filed;
    RecomputeWritesLinks(Filed(t, r), FindHome(t, r).book);
  }

  // ----- two books becoming one

  /**
   * What merging two books does to every link: the orphan's authors and subjects go to the
   * survivor, an author's place in the credits kept only where the survivor had it; the
   * orphan's series links and accounts go with it.
   */
  lemma MergeMovesLinks(t: Tables, survivor: BookId, orphan: BookId, b: BookId, n: string)
    requires survivor != orphan
    ensures var u := MergeBooks(t, survivor, orphan); var l := NameLink(b, n); var moved := NameLink(orphan, n);
      && (b == orphan ==> l !in u.bookAuthors && l !in u.bookSubjects)
      && (b == survivor ==>
            && Lookup(u.bookAuthors, l) == (if l in t.bookAuthors then Some(t.bookAuthors[l])
                                            else if moved in t.bookAuthors then Some(0) else None)
            && (l in u.bookSubjects <==> l in t.bookSubjects || moved in t.bookSubjects))
      && (b != survivor && b != orphan ==>
            && Lookup(u.bookAuthors, l) == Lookup(t.bookAuthors, l)
            && (l in u.bookSubjects <==> l in t.bookSubjects))
  {
    var links := MoveSubjects(t.bookSubjects, survivor, orphan);
    var l, moved := NameLink(b, n), NameLink(orphan, n);
    if l in links {
      var m :| m in t.bookSubjects && l == if m.book == orphan then NameLink(survivor, m.name) else m;
      assert m == l || (m == moved && b == survivor);
    }
    if l in t.bookSubjects && b != orphan {
      assert l in links;
    }
    if moved in t.bookSubjects {
      assert NameLink(survivor, n) in links;
    }
  }

  lemma MergeMovesRows(t: Tables, survivor: BookId, orphan: BookId)
    requires survivor != orphan
    ensures var u := MergeBooks(t, survivor, orphan);
      && (forall b :: b != orphan ==> Lookup(u.books, b) == Lookup(t.books, b)) && orphan !in u.books
      && u.authors == t.authors && u.subjects == t.subjects && u.shelf.series == t.shelf.series
      && u.shelf.sources == t.shelf.sources
      && (forall k :: k in u.sources <==> k in t.sources)
      && (forall k :: k in t.sources ==>
            && u.sources[k].payload == t.sources[k].payload
            && u.sources[k].book == if t.sources[k].book == orphan then survivor else t.sources[k].book)
      && (forall l :: Lookup(u.shelf.places, l) == if l.book == orphan then None else Lookup(t.shelf.places, l))
      && (forall a :: a in u.shelf.accounts <==> a in t.shelf.accounts && t.shelf.accounts[a].book != orphan)
      && (forall a :: a in u.shelf.accounts ==> u.shelf.accounts[a] == t.shelf.accounts[a])
  {
  }

  // ----- counting, and updated_at

  /**
   * What a load counts and when it moves `updated_at`: once for a fingerprint that differs from
   * the stored one, once for a search text that does. A stub's first fingerprint is no update.
   */
  lemma LoadCounts(t: Tables, r: Record)
    requires Inv(t) && Mapped(r)
    ensures References(t) && LoadOne(t, r).Ok?
    ensures var mid, done, b := Filed(t, r), LoadOne(t, r).value, FindHome(t, r).book;
      && b in mid.books && b in done.tables.books
      && var was, now := mid.books[b], done.tables.books[b];
      && now.touched == was.touched + (if now.contentHash != was.contentHash then 1 else 0)
                                    + (if now.seriesText != was.seriesText then 1 else 0)
      && done.counts.updated == (if was.contentHash != Unset && now.contentHash != was.contentHash then 1 else 0)
      && done.counts.untouched == (if now.contentHash == was.contentHash then 1 else 0)
      && done.counts.inserted == FindHome(t, r).inserted && done.counts.merges == FindHome(t, r).merges
      && done.counts.linked == 1
  {
    hide *;
    FiledThenRecomputed(t, r);
    RecomputeMoves(Filed(t, r), FindHome(t, r).book);
    CountsOf(Recompute(Filed(t, r), FindHome(t, r).book).value.counts, FindHome(t, r));
  }

  lemma FiledThenRecomputed(t: Tables, r: Record)
    requires Inv(t) && Mapped(r)
    ensures References(t) && Sound(Filed(t, r)) && AllMapped(Filed(t, r).sources)
    ensures FindHome(t, r).book in Filed(t, r).books && AttachedTo(Filed(t, r).sources, FindHome(t, r).book) != {}
    ensures Recompute(Filed(t, r), FindHome(t, r).book).Ok? && LoadOne(t, r).Ok?
    ensures LoadOne(t, r).value.tables == Recompute(Filed(t, r), FindHome(t, r).book).value.tables
    ensures LoadOne(t, r).value.counts == Recompute(Filed(t, r), FindHome(t, r).book).value.counts.Plus(
      Catalogue.Counts(FindHome(t, r).inserted, 0, 0, 1, FindHome(t, r).merges))
  {
    hide Synced, Recompute, LoadOne, FindHome;
    LoadOneRuns(t, r);
    FiledIsRight(t, r);
    FiledIsReady(t, r, FindHome(t, r), Filed(t, r));
  }

  lemma CountsOf(n: Catalogue.Counts, h: Home)
    requires n.inserted == n.linked == n.merges == 0
    ensures var done := n.Plus(Catalogue.Counts(h.inserted, 0, 0, 1, h.merges));
      && done.updated == n.updated && done.untouched == n.untouched
      && done.inserted == h.inserted && done.merges == h.merges && done.linked == 1
  {
  }

  lemma RecomputeMoves(t: Tables, b: BookId)
    requires Sound(t) && b in t.books && AllMapped(t.sources) && AttachedTo(t.sources, b) != {}
    ensures Recompute(t, b).Ok? && b in Recompute(t, b).value.tables.books
    ensures var done := Recompute(t, b).value; var was, now := t.books[b], done.tables.books[b];
      && now.touched == was.touched + (if now.contentHash != was.contentHash then 1 else 0)
                                    + (if now.seriesText != was.seriesText then 1 else 0)
      && done.counts.updated == (if was.contentHash != Unset && now.contentHash != was.contentHash then 1 else 0)
      && done.counts.untouched == (if now.contentHash == was.contentHash then 1 else 0)
      && done.counts.inserted == done.counts.merges == done.counts.linked == 0
  {
    hide Sound, AllMapped, Sync, Recompute;
    RecomputeRuns(t, b);
    RecomputeCounts(t, b);
    var cs := Candidates(t.sources, b);
    var merged := MergedUnder(t.books[b].identity, cs).value;
    TextMoves(Linked(t, b, merged, cs), b, cs);
    RewriteMoves(t.books[b], merged, cs);
    LinkedRow(t, b, merged, cs);
    hide SyncSeries, Linked, Candidates, MergedUnder, Rewrite, RewriteCounts;
  }

  lemma LinkedRow(t: Tables, b: BookId, merged: CleanBook, cs: seq<CleanBook>)
    requires b in t.books
    ensures b in Linked(t, b, merged, cs).books && Linked(t, b, merged, cs).books[b] == Rewrite(t.books[b], merged, cs)
  {
  }

  lemma RewriteMoves(row: BookRow, merged: CleanBook, cs: seq<CleanBook>)
    ensures var w, n := Rewrite(row, merged, cs), RewriteCounts(row, merged, cs);
      && w.touched == row.touched + (if w.contentHash != row.contentHash then 1 else 0) && w.seriesText == row.seriesText
      && n.updated == (if row.contentHash != Unset && w.contentHash != row.contentHash then 1 else 0)
      && n.untouched == (if w.contentHash == row.contentHash then 1 else 0)
  {
    hide Columns;
  }

  lemma TextMoves(t: Tables, b: BookId, cs: seq<CleanBook>)
    requires b in t.books && SyncSeries(t, b, cs).Ok?
    ensures var u := SyncSeries(t, b, cs).value;
      && b in u.books && u.books[b].contentHash == t.books[b].contentHash
      && u.books[b].touched == t.books[b].touched + (if u.books[b].seriesText != t.books[b].seriesText then 1 else 0)
      && u.books[b].seriesText == Projection(NamesOn(u.shelf, b))
  {
    hide Sync, Projection, NamesOn, Mentions;
  }

  // ----- a record no mapper can read

  /** A new record that does not replay leaves a stub: its identity and title, no fingerprint, and no links. */
  lemma UnreadableIsAStub(t: Tables, r: Record)
    requires Sound(t) && r.Key() !in t.sources && Replay(r.book.source, r.payload).None?
    requires forall b :: b in t.books ==> t.books[b].identity != r.book.identity
    ensures LoadOne(t, r).Ok?
    ensures LoadOne(t, r).value.tables == t.(
      books := t.books[t.nextId := StubRow(r)], nextId := t.nextId + 1,
      sources := t.sources[r.Key() := SourceRow(t.nextId, r.payload)])
  {
    hide *;
    StubHome(t, r);
    var mid := Filed(t, r);
    NoneReplays(mid.sources, t.nextId, r.Key());
    NothingToMerge(t, r, mid);
  }

  function StubRow(r: Record): BookRow {
    BookRow(r.book.identity, r.book.isbn13,
            if Title in r.book.fields then map[Title := r.book.fields[Title]] else map[], Unset, "", 0)
  }

  lemma StubHome(t: Tables, r: Record)
    requires Sound(t) && r.Key() !in t.sources
    requires forall b :: b in t.books ==> t.books[b].identity != r.book.identity
    ensures References(t) && FindHome(t, r).book == t.nextId && FindHome(t, r).inserted == 1 && FindHome(t, r).merges == 0
    ensures Filed(t, r) == t.(books := t.books[t.nextId := StubRow(r)], nextId := t.nextId + 1,
                              sources := t.sources[r.Key() := SourceRow(t.nextId, r.payload)])
    ensures AttachedTo(Filed(t, r).sources, t.nextId) == {r.Key()}
    ensures r.Key() in Filed(t, r).sources && Filed(t, r).sources[r.Key()].payload == r.payload
    ensures r.Key().source == r.book.source
  {
    hide Identified, ForeignKeys, Keyed;
    assert Stub(r) == StubRow(r);
    assert t.nextId !in t.books;
  }

  lemma NothingToMerge(t: Tables, r: Record, mid: Tables)
    requires References(t) && mid == Filed(t, r) && FindHome(t, r).book in mid.books
    requires Candidates(mid.sources, FindHome(t, r).book) == []
    ensures LoadOne(t, r).Ok? && LoadOne(t, r).value.tables == mid
  {
    hide FindHome, Candidates, References;
  }

  lemma NoneReplays(sources: map<Key, SourceRow>, b: BookId, k: Key)
    requires AttachedTo(sources, b) == {k} && k in sources && Replay(k.source, sources[k].payload).None?
    ensures Candidates(sources, b) == []
  {
    ArrangeOne(k);
    assert [k][1..] == [];
    assert ReplayAll(sources, []) == [];
  }
}
