// Whole histories of loads: conservation, order, repetition.

module History {
  import opened Ordering
  import opened Domain
  import opened Merge
  import opened Series
  import opened SeriesProofs
  import opened Catalogue
  import opened CatalogueProofs
  import opened Reload

  /** Records loaded one after the other. */
  ghost function LoadAll(t: Tables, rs: seq<Record>): (r: Result<Loaded, LoadError>)
    requires Sound(t)
    ensures r.Ok? ==> Sound(r.value.tables)
  {
    if rs == [] then Ok(Loaded(t, ZERO))
    else match LoadAll(t, rs[..|rs|-1])
      case Err(e) => Err(e)
      case Ok(before) =>
        match LoadOne(before.tables, rs[|rs|-1])
        case Err(e) => Err(e)
        case Ok(last) =>
          LoadOneIsSound(before.tables, rs[|rs|-1]);
          Ok(Loaded(last.tables, before.counts.Plus(last.counts)))
  }

  ghost predicate AllRecordsMapped(rs: seq<Record>) {
    forall r :: r in rs ==> Mapped(r)
  }

  function Keys(rs: seq<Record>): set<Key> {
    set r | r in rs :: r.Key()
  }

  lemma KeysOfPrefix(rs: seq<Record>)
    requires rs != []
    ensures Keys(rs) == Keys(rs[..|rs|-1]) + {rs[|rs|-1].Key()}
    ensures rs[|rs|-1] in rs
    ensures forall r :: r in rs[..|rs|-1] ==> r in rs
  {
    assert rs == rs[..|rs|-1] + [rs[|rs|-1]];
  }

  ghost function Then(before: Loaded, r: Record): Result<Loaded, LoadError>
    requires Sound(before.tables)
  {
    match LoadOne(before.tables, r)
    case Err(e) => Err(e)
    case Ok(last) => Ok(Loaded(last.tables, before.counts.Plus(last.counts)))
  }

  lemma LoadAllStep(t: Tables, init: seq<Record>, r: Record)
    requires Sound(t)
    ensures LoadAll(t, init).Ok? ==> LoadAll(t, init + [r]) == Then(LoadAll(t, init).value, r)
    ensures LoadAll(t, init).Err? ==> LoadAll(t, init + [r]) == LoadAll(t, init)
  {
    assert (init + [r])[..|init|] == init;
  }

  lemma PlusAssociates(a: Counts, b: Counts, c: Counts)
    ensures a.Plus(b.Plus(c)) == a.Plus(b).Plus(c)
  {
  }

  ghost function After(a: Loaded, b: Result<Loaded, LoadError>): Result<Loaded, LoadError> {
    if b.Ok? then Ok(Loaded(b.value.tables, a.counts.Plus(b.value.counts))) else b
  }

  lemma ThenAfter(a: Loaded, b: Loaded, r: Record)
    requires Sound(b.tables)
    ensures Then(Loaded(b.tables, a.counts.Plus(b.counts)), r) == After(a, Then(b, r))
  {
    var last := LoadOne(b.tables, r);
    if last.Ok? {
      PlusAssociates(a.counts, b.counts, last.value.counts);
    }
  }

  /** Loading two lists is loading their concatenation. */
  lemma {:induction false} LoadAllInParts(t: Tables, xs: seq<Record>, ys: seq<Record>)
    requires Sound(t) && LoadAll(t, xs).Ok?
    ensures LoadAll(t, xs + ys) == After(LoadAll(t, xs).value, LoadAll(LoadAll(t, xs).value.tables, ys))
  {
    hide LoadAll, LoadOne, Then, Sound;
    var a := LoadAll(t, xs).value;
    if ys == [] {
      assert xs + ys == xs;
      NothingLoaded(a.tables);
    } else {
      var init, y := ys[..|ys|-1], ys[|ys|-1];
      LoadAllInParts(t, xs, init);
      LoadAllStep(t, xs + init, y);
      LoadAllStep(a.tables, init, y);
      assert init + [y] == ys && (xs + init) + [y] == xs + ys;
      if LoadAll(a.tables, init).Ok? {
        ThenAfter(a, LoadAll(a.tables, init).value, y);
      }
    }
  }

  ghost predicate Conserved(t: Tables, done: Loaded, keys: set<Key>, n: nat) {
    && Inv(done.tables)
    && done.tables.sources.Keys == t.sources.Keys + keys
    && |done.tables.books| + done.counts.merges == |t.books| + done.counts.inserted
    && done.counts.RecordsLoaded() == n
  }

  lemma ThenConserves(t: Tables, before: Loaded, keys: set<Key>, n: nat, r: Record)
    requires Conserved(t, before, keys, n) && Mapped(r)
    ensures Then(before, r).Ok?
    ensures Conserved(t, Then(before, r).value, keys + {r.Key()}, n + 1)
  {
    hide LoadOne, Sound, Synced, AllMapped, Maps;
    LoadOneKeepsEverything(before.tables, r);
  }

  lemma NothingLoaded(t: Tables)
    requires Sound(t)
    ensures LoadAll(t, []) == Ok(Loaded(t, ZERO))
  {
    hide LoadOne, Then, Sound;
  }

  lemma NothingConserved(t: Tables)
    requires Inv(t)
    ensures Conserved(t, Loaded(t, ZERO), Keys([]), 0)
  {
    hide Inv, Sound;
    assert Keys([]) == {};
  }

  lemma {:induction false} LoadAllConserves(t: Tables, rs: seq<Record>)
    requires Inv(t) && AllRecordsMapped(rs)
    ensures LoadAll(t, rs).Ok? && Conserved(t, LoadAll(t, rs).value, Keys(rs), |rs|)
  {
    InvIsSound(t);
    hide *;
    if rs == [] {
      NothingLoaded(t);
      NothingConserved(t);
    } else {
      var init, r := rs[..|rs|-1], rs[|rs|-1];
      KeysOfPrefix(rs);
      PrefixIsMapped(rs);
      LoadAllConserves(t, init);
      LoadAllStep(t, init, r);
      ThenConserves(t, LoadAll(t, init).value, Keys(init), |init|, r);
    }
  }

  lemma PrefixIsMapped(rs: seq<Record>)
    requires AllRecordsMapped(rs) && rs != []
    ensures AllRecordsMapped(rs[..|rs|-1]) && Mapped(rs[|rs|-1])
    ensures rs[..|rs|-1] + [rs[|rs|-1]] == rs
  {
    hide Mapped;
    KeysOfPrefix(rs);
  }

  /**
   * However many mapped records are loaded, in whatever order and however often repeated, every
   * load commits; no provenance row is lost; the number of books is what was inserted less what
   * was merged; and inserted, updated and unchanged add up to the records loaded.
   */
  lemma LoadAllKeepsEverything(t: Tables, rs: seq<Record>)
    requires Inv(t) && AllRecordsMapped(rs)
    ensures LoadAll(t, rs).Ok?
    ensures var done := LoadAll(t, rs).value;
      && Inv(done.tables)
      && done.tables.sources.Keys == t.sources.Keys + Keys(rs)
      && |done.tables.books| + done.counts.merges == |t.books| + done.counts.inserted
      && done.counts.RecordsLoaded() == |rs|
  {
    hide LoadAll, Sound;
    LoadAllConserves(t, rs);
  }

  // ----- records whose keys are new

  ghost predicate DistinctKeys(rs: seq<Record>) {
    forall i, j :: 0 <= i < j < |rs| ==> rs[i].Key() != rs[j].Key()
  }

  ghost predicate Fresh(t: Tables, rs: seq<Record>) {
    && DistinctKeys(rs)
    && forall r :: r in rs ==> r.Key() !in t.sources
  }

  /** What is where: the record's row holds its payload, on the book with its identity. */
  ghost predicate FiledUnder(u: Tables, r: Record) {
    && r.Key() in u.sources
    && u.sources[r.Key()].payload == r.payload
    && u.sources[r.Key()].book in u.books
    && u.books[u.sources[r.Key()].book].identity == r.book.identity
  }

  /** Loading new keys adds; it moves no existing row to another book or identity. */
  ghost predicate Extends(t: Tables, u: Tables) {
    && (forall k :: k in t.sources ==> k in u.sources && u.sources[k] == t.sources[k])
    && (forall b :: b in t.books ==> b in u.books && u.books[b].identity == t.books[b].identity)
  }

  /** Every author link is an old one, or a credit in the book's provenance. */
  ghost predicate AuthorsAccounted(t0: Tables, u: Tables) {
    forall b :: b in u.books ==> AuthorsAccountedOn(t0, u, b)
  }

  ghost predicate AuthorsAccountedOn(t0: Tables, u: Tables, b: BookId) {
    forall n :: NameLink(b, n) in u.bookAuthors <==>
      (b in t0.books && NameLink(b, n) in t0.bookAuthors) || n in Credits(Candidates(u.sources, b))
  }

  lemma {:induction false} CreditsFromNames(authors: seq<Author>, position: nat)
    ensures forall n :: n in CreditsFrom(authors, position) <==> exists a :: a in authors && a.normalised == Some(n)
  {
    if authors != [] {
      CreditsFromNames(authors[1..], position + 1);
      assert forall a :: a in authors <==> a == authors[0] || a in authors[1..];
    }
  }

  /** The authors credited are those any candidate names. */
  lemma {:induction false} CreditsNames(cs: seq<CleanBook>, n: string)
    ensures n in Credits(cs) <==> exists c :: c in cs && NamesAuthor(c, n)
  {
    if cs != [] {
      CreditsNames(cs[1..], n);
      CreditsFromNames(cs[0].authors, 0);
      if exists c :: c in cs && NamesAuthor(c, n) {
        var c :| c in cs && NamesAuthor(c, n);
        assert c == cs[0] || c in cs[1..];
      }
      assert n in CreditsFrom(cs[0].authors, 0) <==> NamesAuthor(cs[0], n);
      assert forall c :: c in cs[1..] ==> c in cs;
    }
  }

  predicate NamesAuthor(c: CleanBook, n: string) {
    exists a :: a in c.authors && a.normalised == Some(n)
  }

  /** More provenance credits no fewer authors. */
  lemma CreditsGrow(s: map<Key, SourceRow>, u: map<Key, SourceRow>, b: BookId, n: string)
    requires AttachedTo(s, b) <= AttachedTo(u, b)
    requires forall k :: k in AttachedTo(s, b) ==> s[k].payload == u[k].payload
    requires n in Credits(Candidates(s, b))
    ensures n in Credits(Candidates(u, b))
  {
    CreditsNames(Candidates(s, b), n);
    CreditsNames(Candidates(u, b), n);
    KeyIsTotalOrder();
    var c :| c in Candidates(s, b) && NamesAuthor(c, n);
    var k :| k in Arrange(AttachedTo(s, b), KeyLe) && Replay(k.source, s[k].payload) == Some(c);
    assert k in Arrange(AttachedTo(u, b), KeyLe);
    assert c in Candidates(u, b);
  }

  // ----- what one new record does

  lemma RecomputeLinks(t: Tables, b: BookId)
    requires Sound(t) && AllMapped(t.sources) && b in t.books
    requires AttachedTo(t.sources, b) != {}
    ensures Recompute(t, b).Ok?
    ensures forall l :: l in Recompute(t, b).value.tables.bookAuthors <==>
      l in t.bookAuthors || (l.book == b && l.name in Credits(Candidates(t.sources, b)))
  {
    hide Sound, AllMapped, Synced;
    RecomputeRuns(t, b);
    var cs := Candidates(t.sources, b);
    LinkedLinks(t, b, MergedUnder(t.books[b].identity, cs).value, cs);
  }

  lemma LinkedLinks(t: Tables, b: BookId, merged: CleanBook, cs: seq<CleanBook>)
    requires b in t.books
    ensures forall l :: l in Linked(t, b, merged, cs).bookAuthors <==>
      l in t.bookAuthors || (l.book == b && l.name in Credits(cs))
  {
    forall l: NameLink | l.book == b && l.name in Credits(cs) ensures l in Linked(t, b, merged, cs).bookAuthors {
      assert l == NameLink(b, l.name);
    }
  }

  /** A record with a new key joins the book that has its identity, or starts it. */
  ghost predicate Joined(t: Tables, r: Record, u: Tables) {
    && Extends(t, u)
    && FiledUnder(u, r)
    && u.sources.Keys == t.sources.Keys + {r.Key()}
    && (forall b :: b in u.books ==> b in t.books || u.books[b].identity == r.book.identity)
    && (forall l :: l in u.bookAuthors <==>
          || l in t.bookAuthors
          || (l.book == u.sources[r.Key()].book && l.name in Credits(Candidates(u.sources, l.book))))
  }

  lemma NewKeyJoins(t: Tables, r: Record)
    requires Inv(t) && Mapped(r) && r.Key() !in t.sources
    ensures LoadOne(t, r).Ok?
    ensures Joined(t, r, LoadOne(t, r).value.tables)
    ensures LoadOne(t, r).value.counts.merges == 0
  {
    hide Synced, Recompute, Sync, Maps;
    LoadOneRuns(t, r);
    LoadOneSettles(t, r);
    FiledIsRecomputable(t, r);
    CountedOnce(t, r);
    RecomputeLinks(Filed(t, r), FindHome(t, r).book);
    FilingNew(t, r);
    JoinedFollows(t, r, FindHome(t, r), Filed(t, r), LoadOne(t, r).value.tables);
  }

  ghost predicate FiledNew(t: Tables, r: Record, h: Home, mid: Tables) {
    && h.book in mid.books
    && mid.books[h.book].identity == r.book.identity
    && mid.sources == t.sources[r.Key() := SourceRow(h.book, r.payload)]
    && mid.bookAuthors == t.bookAuthors
    && (forall b :: b in t.books ==> b in mid.books && mid.books[b] == t.books[b])
    && (forall b :: b in mid.books ==> b in t.books || b == h.book)
    && h.merges == 0
  }

  lemma FilingNew(t: Tables, r: Record)
    requires Sound(t) && r.Key() !in t.sources
    ensures FiledNew(t, r, FindHome(t, r), Filed(t, r))
  {
  }

  lemma JoinedFollows(t: Tables, r: Record, h: Home, mid: Tables, u: Tables)
    requires r.Key() !in t.sources
    requires FiledNew(t, r, h, mid) && Settled(mid, u, h.book)
    requires forall l :: l in u.bookAuthors <==>
      l in mid.bookAuthors || (l.book == h.book && l.name in Credits(Candidates(mid.sources, h.book)))
    ensures Joined(t, r, u)
  {
  }

  // ----- loading records with new keys

  /** Where a list of records with new keys ends up, whatever their order. */
  ghost predicate Gathered(t: Tables, rs: seq<Record>, u: Tables) {
    && Extends(t, u)
    && (forall r :: r in rs ==> FiledUnder(u, r))
    && u.sources.Keys == t.sources.Keys + Keys(rs)
    && (forall b :: b in u.books ==> b in t.books || exists r :: r in rs && u.books[b].identity == r.book.identity)
    && AuthorsAccounted(t, u)
  }

  lemma CreditsAtHome(a: Tables, r: Record, u: Tables, b: BookId, n: string)
    requires Joined(a, r, u) && r.Key() !in a.sources
    ensures n in Credits(Candidates(a.sources, b)) ==> n in Credits(Candidates(u.sources, b))
    ensures b != u.sources[r.Key()].book ==> Candidates(a.sources, b) == Candidates(u.sources, b)
  {
    hide Credits, Candidates, FiledUnder;
    assert forall k :: k in a.sources ==> u.sources[k] == a.sources[k];
    assert AttachedTo(a.sources, b) <= AttachedTo(u.sources, b);
    if n in Credits(Candidates(a.sources, b)) {
      CreditsGrow(a.sources, u.sources, b, n);
    }
    if b != u.sources[r.Key()].book {
      assert AttachedTo(a.sources, b) == AttachedTo(u.sources, b);
      CandidatesFrame(a.sources, b, u.sources, b);
    }
  }

  lemma AuthorsStayAccounted(t: Tables, a: Tables, r: Record, u: Tables, b: BookId)
    requires AuthorsAccounted(t, a) && Joined(a, r, u) && r.Key() !in a.sources
    requires Extends(t, a) && References(a)
    requires b in u.books
    ensures AuthorsAccountedOn(t, u, b)
  {
    forall n ensures NameLink(b, n) in u.bookAuthors <==>
      (b in t.books && NameLink(b, n) in t.bookAuthors) || n in Credits(Candidates(u.sources, b))
    {
      AuthorStaysAccounted(t, a, r, u, b, n);
    }
  }

  lemma AuthorStaysAccounted(t: Tables, a: Tables, r: Record, u: Tables, b: BookId, n: string)
    requires AuthorsAccounted(t, a) && Joined(a, r, u) && r.Key() !in a.sources
    requires Extends(t, a) && References(a)
    requires b in u.books
    ensures NameLink(b, n) in u.bookAuthors <==>
      (b in t.books && NameLink(b, n) in t.bookAuthors) || n in Credits(Candidates(u.sources, b))
  {
    CreditsAtHome(a, r, u, b, n);
    if b in a.books {
      assert AuthorsAccountedOn(t, a, b);
      hide Credits, Candidates, ForeignKeys, FiledUnder;
    } else {
      NoneAttached(a, u, r, b);
      hide Candidates, ForeignKeys, FiledUnder;
      assert NameLink(b, n) !in a.bookAuthors;
    }
  }

  /** A book that is new and is not the record's has nothing attached. */
  lemma NoneAttached(a: Tables, u: Tables, r: Record, b: BookId)
    requires Joined(a, r, u) && References(a) && b !in a.books
    ensures b != u.sources[r.Key()].book ==> Candidates(u.sources, b) == []
  {
    if b != u.sources[r.Key()].book {
      forall k | k in u.sources ensures u.sources[k].book != b {
        if k != r.Key() { assert k in a.sources; }
      }
      assert AttachedTo(u.sources, b) == {};
      KeyIsTotalOrder();
      assert Arrange(AttachedTo(u.sources, b), KeyLe) == [];
    }
  }

  lemma ExtendsTwice(t: Tables, a: Tables, u: Tables)
    requires Extends(t, a) && Extends(a, u)
    ensures Extends(t, u)
  {
  }

  lemma FiledStays(a: Tables, u: Tables, q: Record)
    requires Extends(a, u) && FiledUnder(a, q)
    ensures FiledUnder(u, q)
  {
  }

  lemma BooksAccounted(t: Tables, init: seq<Record>, a: Tables, r: Record, u: Tables, b: BookId)
    requires Gathered(t, init, a) && Joined(a, r, u)
    requires b in u.books && b !in t.books
    ensures exists q :: q in init + [r] && u.books[b].identity == q.book.identity
  {
    hide AuthorsAccounted;
    if b in a.books {
      var q :| q in init && a.books[b].identity == q.book.identity;
      assert q in init + [r];
    } else {
      assert r in init + [r];
    }
  }

  lemma GatheredStep(t: Tables, init: seq<Record>, a: Tables, r: Record, u: Tables)
    requires Gathered(t, init, a) && Joined(a, r, u) && References(a)
    requires r.Key() !in a.sources
    ensures Gathered(t, init + [r], u)
  {
    hide References, AuthorsAccountedOn, FiledUnder, Extends;
    var rs := init + [r];
    assert Keys(rs) == Keys(init) + {r.Key()} by {
      assert rs[..|rs|-1] == init;
      KeysOfPrefix(rs);
    }
    ExtendsTwice(t, a, u);
    forall b | b in u.books ensures AuthorsAccountedOn(t, u, b) {
      AuthorsStayAccounted(t, a, r, u, b);
    }
    forall q | q in rs ensures FiledUnder(u, q) {
      if q in init {
        FiledStays(a, u, q);
      }
    }
    forall b | b in u.books && b !in t.books ensures exists q :: q in rs && u.books[b].identity == q.book.identity {
      BooksAccounted(t, init, a, r, u, b);
    }
  }

  lemma NothingGathered(t: Tables)
    requires Inv(t)
    ensures Gathered(t, [], t)
  {
    hide Identified, Keyed, ForeignKeys, AllMapped, Credits, Candidates;
    forall b | b in t.books ensures AuthorsAccountedOn(t, t, b) {
      assert Synced(t, b);
    }
  }

  /** New keys gather, merge nothing, and leave what was there where it was. */
  lemma {:induction false} NewKeysGather(t: Tables, rs: seq<Record>)
    requires Inv(t) && AllRecordsMapped(rs) && Fresh(t, rs)
    ensures LoadAll(t, rs).Ok?
    ensures Inv(LoadAll(t, rs).value.tables)
    ensures Gathered(t, rs, LoadAll(t, rs).value.tables)
    ensures LoadAll(t, rs).value.counts.merges == 0
  {
    hide LoadOne, Gathered, Joined, Inv, Sound, Mapped;
    if rs == [] {
      assert Sound(t) by { InvIsSound(t); }
      NothingLoaded(t);
      NothingGathered(t);
    } else {
      var init, r := rs[..|rs|-1], rs[|rs|-1];
      assert rs == init + [r];
      KeysOfPrefix(rs);
      NewKeysGather(t, init);
      InvIsSound(t);
      var a := LoadAll(t, init).value;
      InvIsSound(a.tables);
      LoadAllConserves(t, init);
      StillNew(t, init, r, a);
      LoadAllStep(t, init, r);
      LoadOneKeepsEverything(a.tables, r);
      NewKeyJoins(a.tables, r);
      GatheredStep(t, init, a.tables, r, LoadOne(a.tables, r).value.tables);
    }
  }

  lemma InvIsSound(t: Tables)
    requires Inv(t)
    ensures Sound(t) && References(t)
  {
  }

  lemma StillNew(t: Tables, init: seq<Record>, r: Record, a: Loaded)
    requires Fresh(t, init + [r])
    requires Conserved(t, a, Keys(init), |init|)
    ensures r.Key() !in a.tables.sources
  {
    hide Inv;
    var rs := init + [r];
    assert rs[|init|] == r && r in rs;
    forall q | q in init ensures q.Key() != r.Key() {
      var i :| 0 <= i < |init| && init[i] == q;
      assert rs[i] == q;
    }
  }
}
