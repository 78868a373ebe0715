// Order, repetition and redelivery: what whole lists of records leave behind.

module Confluence {
  import opened Ordering
  import opened Domain
  import opened Merge
  import opened Series
  import opened SeriesProofs
  import opened Catalogue
  import opened CatalogueProofs
  import opened Reload
  import opened History

  // ----- order

  /** The same book in two catalogues, whatever number each gave it. */
  ghost predicate SameBook(u: Tables, b: BookId, v: Tables, c: BookId) {
    && b in u.books && c in v.books
    && SameRow(u.books[b], v.books[c])
    && AttachedTo(u.sources, b) == AttachedTo(v.sources, c)
    && (forall n :: NameLink(b, n) in u.bookAuthors <==> NameLink(c, n) in v.bookAuthors)
  }

  /** Every book of either catalogue is a book of the other, and the provenance is the same. */
  ghost predicate SameContents(u: Tables, v: Tables) {
    && u.sources.Keys == v.sources.Keys
    && (forall k :: k in u.sources ==> u.sources[k].payload == v.sources[k].payload)
    && (forall b :: b in u.books ==> exists c :: c in v.books && SameBook(u, b, v, c))
    && (forall c :: c in v.books ==> exists b :: b in u.books && SameBook(u, b, v, c))
  }

  ghost predicate SameRecords(rs: seq<Record>, qs: seq<Record>) {
    forall r :: r in rs <==> r in qs
  }

  lemma CounterpartExists(t: Tables, rs: seq<Record>, u: Tables, qs: seq<Record>, v: Tables, b: BookId)
    returns (c: BookId)
    requires Gathered(t, rs, u) && Gathered(t, qs, v) && SameRecords(rs, qs)
    requires b in u.books
    ensures c in v.books && v.books[c].identity == u.books[b].identity
  {
    if b in t.books {
      c := b;
    } else {
      var r :| r in rs && u.books[b].identity == r.book.identity;
      assert FiledUnder(v, r);
      c := v.sources[r.Key()].book;
    }
  }

  lemma RecordWith(rs: seq<Record>, k: Key) returns (r: Record)
    requires k in Keys(rs)
    ensures r in rs && r.Key() == k
  {
    r :| r in rs && r.Key() == k;
  }

  lemma AttachedCarriesOver(t: Tables, rs: seq<Record>, u: Tables, qs: seq<Record>, v: Tables, b: BookId, c: BookId, k: Key)
    requires Gathered(t, rs, u) && Gathered(t, qs, v) && SameRecords(rs, qs)
    requires References(t) && Identified(v.books)
    requires b in u.books && c in v.books && v.books[c].identity == u.books[b].identity
    requires k in AttachedTo(u.sources, b)
    ensures k in AttachedTo(v.sources, c)
    ensures u.sources[k].payload == v.sources[k].payload
  {
    hide AuthorsAccounted;
    if k in t.sources {
      assert u.sources[k] == t.sources[k] && v.sources[k] == t.sources[k];
      assert b in t.books;
      assert v.books[b].identity == t.books[b].identity == v.books[c].identity;
    } else {
      var r := RecordWith(rs, k);
      assert FiledUnder(u, r) && FiledUnder(v, r);
    }
  }

  lemma SameProvenance(t: Tables, rs: seq<Record>, u: Tables, qs: seq<Record>, v: Tables, b: BookId, c: BookId)
    requires Gathered(t, rs, u) && Gathered(t, qs, v) && SameRecords(rs, qs)
    requires References(t) && Identified(u.books) && Identified(v.books)
    requires b in u.books && c in v.books && v.books[c].identity == u.books[b].identity
    ensures AttachedTo(u.sources, b) == AttachedTo(v.sources, c)
    ensures Candidates(u.sources, b) == Candidates(v.sources, c)
  {
    hide Gathered, Identified, References;
    forall k ensures k in AttachedTo(u.sources, b) <==> k in AttachedTo(v.sources, c) {
      if k in AttachedTo(u.sources, b) {
        AttachedCarriesOver(t, rs, u, qs, v, b, c, k);
      }
      if k in AttachedTo(v.sources, c) {
        AttachedCarriesOver(t, qs, v, rs, u, c, b, k);
      }
    }
    forall k | k in AttachedTo(u.sources, b) ensures u.sources[k].payload == v.sources[k].payload {
      AttachedCarriesOver(t, rs, u, qs, v, b, c, k);
    }
    CandidatesFrame(u.sources, b, v.sources, c);
  }

  lemma SyncedAlike(u: Tables, b: BookId, v: Tables, c: BookId)
    requires b in u.books && c in v.books && Synced(u, b) && Synced(v, c)
    requires u.books[b].identity == v.books[c].identity
    requires Candidates(u.sources, b) == Candidates(v.sources, c)
    ensures SameRow(u.books[b], v.books[c])
  {
  }

  lemma OldBooksMatch(t: Tables, rs: seq<Record>, u: Tables, qs: seq<Record>, v: Tables, b: BookId, c: BookId)
    requires Gathered(t, rs, u) && Gathered(t, qs, v)
    requires Identified(v.books)
    requires b in u.books && c in v.books && v.books[c].identity == u.books[b].identity
    ensures b in t.books ==> c == b
  {
    hide AuthorsAccounted, FiledUnder;
  }

  lemma SameAuthors(t: Tables, rs: seq<Record>, u: Tables, qs: seq<Record>, v: Tables, b: BookId, c: BookId, n: string)
    requires Gathered(t, rs, u) && Gathered(t, qs, v)
    requires Identified(u.books) && Identified(v.books)
    requires b in u.books && c in v.books && v.books[c].identity == u.books[b].identity
    requires Candidates(u.sources, b) == Candidates(v.sources, c)
    ensures NameLink(b, n) in u.bookAuthors <==> NameLink(c, n) in v.bookAuthors
  {
    OldBooksMatch(t, rs, u, qs, v, b, c);
    OldBooksMatch(t, qs, v, rs, u, c, b);
    hide Identified, Extends, FiledUnder;
    assert AuthorsAccountedOn(t, u, b) && AuthorsAccountedOn(t, v, c);
  }

  lemma CounterpartMatches(t: Tables, rs: seq<Record>, u: Tables, qs: seq<Record>, v: Tables, b: BookId, c: BookId)
    requires Gathered(t, rs, u) && Gathered(t, qs, v) && SameRecords(rs, qs)
    requires References(t) && Identified(u.books) && Identified(v.books)
    requires b in u.books && c in v.books && v.books[c].identity == u.books[b].identity
    requires Synced(u, b) && Synced(v, c)
    ensures SameBook(u, b, v, c) && SameBook(v, c, u, b)
  {
    hide Gathered, Identified, References, Synced, SameRecords;
    SameProvenance(t, rs, u, qs, v, b, c);
    SyncedAlike(u, b, v, c);
    forall n ensures NameLink(b, n) in u.bookAuthors <==> NameLink(c, n) in v.bookAuthors {
      SameAuthors(t, rs, u, qs, v, b, c, n);
    }
  }

  lemma BooksMatch(t: Tables, rs: seq<Record>, u: Tables, qs: seq<Record>, v: Tables, b: BookId)
    requires Gathered(t, rs, u) && Gathered(t, qs, v) && SameRecords(rs, qs)
    requires Inv(t) && Inv(u) && Inv(v)
    requires b in u.books
    ensures exists c :: c in v.books && SameBook(u, b, v, c) && SameBook(v, c, u, b)
  {
    hide Gathered, SameRecords, SameBook, Inv, Synced;
    SoundParts(t);
    SoundParts(u);
    SoundParts(v);
    var c := CounterpartExists(t, rs, u, qs, v, b);
    InvIsSynced(u, b);
    InvIsSynced(v, c);
    CounterpartMatches(t, rs, u, qs, v, b, c);
  }

  lemma InvIsSynced(t: Tables, b: BookId)
    requires Inv(t) && b in t.books
    ensures Synced(t, b)
  {
  }

  lemma SoundParts(t: Tables)
    requires Inv(t)
    ensures Sound(t) && References(t) && Identified(t.books)
  {
  }

  lemma GatheredAlike(t: Tables, rs: seq<Record>, u: Tables, qs: seq<Record>, v: Tables)
    requires Gathered(t, rs, u) && Gathered(t, qs, v) && SameRecords(rs, qs)
    requires Inv(t) && Inv(u) && Inv(v)
    ensures SameContents(u, v)
  {
    hide Gathered, SameBook, Inv;
    forall b | b in u.books ensures exists c :: c in v.books && SameBook(u, b, v, c) {
      BooksMatch(t, rs, u, qs, v, b);
    }
    forall c | c in v.books ensures exists b :: b in u.books && SameBook(u, b, v, c) {
      BooksMatch(t, qs, v, rs, u, c);
    }
    SamePayloads(t, rs, u, qs, v);
  }

  /**
   * Records with new keys may be loaded in any order, into any catalogue: the books, their
   * canonical columns, their provenance and their authors come out the same.
   */
  lemma LoadOrderDoesNotMatter(t: Tables, rs: seq<Record>, qs: seq<Record>)
    requires Inv(t) && AllRecordsMapped(rs) && Fresh(t, rs)
    requires multiset(rs) == multiset(qs)
    ensures LoadAll(t, rs).Ok? && LoadAll(t, qs).Ok?
    ensures SameContents(LoadAll(t, rs).value.tables, LoadAll(t, qs).value.tables)
  {
    SoundParts(t);
    hide LoadAll, Inv, Gathered, SameContents, Mapped;
    SameElements(rs, qs);
    FreshInAnyOrder(t, rs, qs);
    hide Fresh;
    NewKeysGather(t, rs);
    NewKeysGather(t, qs);
    GatheredAlike(t, rs, LoadAll(t, rs).value.tables, qs, LoadAll(t, qs).value.tables);
  }

  lemma SamePayloads(t: Tables, rs: seq<Record>, u: Tables, qs: seq<Record>, v: Tables)
    requires Gathered(t, rs, u) && Gathered(t, qs, v) && SameRecords(rs, qs)
    ensures u.sources.Keys == v.sources.Keys
    ensures forall k :: k in u.sources ==> u.sources[k].payload == v.sources[k].payload
  {
    hide AuthorsAccounted;
    forall k | k in u.sources ensures k in v.sources && u.sources[k].payload == v.sources[k].payload {
      if k !in t.sources {
        var r := RecordWith(rs, k);
        assert FiledUnder(u, r) && FiledUnder(v, r);
      }
    }
    forall k | k in v.sources ensures k in u.sources {
      if k !in t.sources {
        var r := RecordWith(qs, k);
        assert FiledUnder(u, r);
      }
    }
  }

  lemma FreshInAnyOrder(t: Tables, rs: seq<Record>, qs: seq<Record>)
    requires Fresh(t, rs) && multiset(rs) == multiset(qs)
    ensures Fresh(t, qs)
  {
    SameElements(rs, qs);
    forall i, j | 0 <= i < j < |qs| ensures qs[i].Key() != qs[j].Key() {
      if qs[i].Key() == qs[j].Key() {
        SameKeySameRecord(rs, qs[i], qs[j]);
        TwiceInMultiset(qs, i, j);
        OnceWhenDistinct(rs, qs[i]);
        assert false;
      }
    }
  }

  lemma SameKeySameRecord(rs: seq<Record>, p: Record, q: Record)
    requires DistinctKeys(rs) && p in rs && q in rs && p.Key() == q.Key()
    ensures p == q
  {
    var i :| 0 <= i < |rs| && rs[i] == p;
    var j :| 0 <= j < |rs| && rs[j] == q;
  }

  lemma TwiceInMultiset<T>(q: seq<T>, i: nat, j: nat)
    requires i < j < |q| && q[i] == q[j]
    ensures multiset(q)[q[i]] >= 2
  {
    assert q == q[..i] + [q[i]] + q[i+1..j] + [q[j]] + q[j+1..];
  }

  lemma {:induction false} OnceWhenDistinct(rs: seq<Record>, r: Record)
    requires DistinctKeys(rs)
    ensures multiset(rs)[r] <= 1
  {
    if rs != [] {
      assert rs == [rs[0]] + rs[1..];
      OnceWhenDistinct(rs[1..], r);
      if r == rs[0] {
        assert r !in rs[1..];
        assert multiset(rs[1..])[r] == 0;
      }
    }
  }

  // ----- repetition

  ghost predicate AllHomed(t: Tables, rs: seq<Record>) {
    forall r :: r in rs ==> Homed(t, r)
  }

  lemma SameCatalogueTwice(t: Tables, u: Tables, v: Tables)
    requires SameCatalogue(t, u) && SameCatalogue(u, v)
    ensures SameCatalogue(t, v)
  {
  }

  lemma HomedElsewhere(t: Tables, u: Tables, r: Record)
    requires SameCatalogue(t, u) && Homed(t, r)
    ensures Homed(u, r)
  {
  }

  ghost predicate Reloaded(t: Tables, done: Loaded, n: nat) {
    && Inv(done.tables)
    && SameCatalogue(t, done.tables)
    && done.counts == Counts(0, 0, n, n, 0)
  }

  lemma ReloadOnce(t: Tables, r: Record)
    requires Inv(t) && Mapped(r) && Homed(t, r)
    ensures LoadOne(t, r).Ok?
    ensures Inv(LoadOne(t, r).value.tables)
    ensures SameCatalogue(t, LoadOne(t, r).value.tables)
    ensures LoadOne(t, r).value.counts == UNCHANGED
  {
    LoadOneKeepsEverything(t, r);
    ReloadMovesOnlySeries(t, r);
    hide LoadOne, Inv, Sound, Mapped, Homed;
    OnlySeriesIsSameCatalogue(t, LoadOne(t, r).value.tables, BookOf(t, r));
  }

  lemma ReloadStep(t: Tables, before: Loaded, n: nat, r: Record)
    requires Sound(before.tables)
    requires Reloaded(t, before, n) && Homed(t, r) && Mapped(r)
    ensures Then(before, r).Ok? && Reloaded(t, Then(before, r).value, n + 1)
  {
    SoundParts(before.tables);
    HomedElsewhere(t, before.tables, r);
    hide LoadOne, Inv, Sound, References, Mapped, Homed, SameCatalogue;
    ReloadOnce(before.tables, r);
    SameCatalogueTwice(t, before.tables, LoadOne(before.tables, r).value.tables);
    OneMoreUntouched(before.counts, n);
  }

  lemma OneMoreUntouched(c: Counts, n: nat)
    requires c == Counts(0, 0, n, n, 0)
    ensures c.Plus(UNCHANGED) == Counts(0, 0, n + 1, n + 1, 0)
  {
  }

  lemma NothingReloaded(t: Tables)
    requires Inv(t)
    ensures Reloaded(t, Loaded(t, ZERO), 0)
  {
    hide Inv;
  }

  lemma ReloadAllStep(t: Tables, init: seq<Record>, r: Record)
    requires Sound(t) && LoadAll(t, init).Ok? && Reloaded(t, LoadAll(t, init).value, |init|)
    requires Homed(t, r) && Mapped(r)
    ensures LoadAll(t, init + [r]).Ok? && Reloaded(t, LoadAll(t, init + [r]).value, |init| + 1)
  {
    hide *;
    LoadAllStep(t, init, r);
    ReloadStep(t, LoadAll(t, init).value, |init|, r);
  }

  lemma PrefixIsHomed(t: Tables, rs: seq<Record>)
    requires AllRecordsMapped(rs) && AllHomed(t, rs) && rs != []
    ensures AllRecordsMapped(rs[..|rs|-1]) && AllHomed(t, rs[..|rs|-1])
    ensures Mapped(rs[|rs|-1]) && Homed(t, rs[|rs|-1])
    ensures rs[..|rs|-1] + [rs[|rs|-1]] == rs
  {
    hide Mapped, Homed;
    KeysOfPrefix(rs);
  }

  /** Reloading records a catalogue already holds changes no catalogue row, and counts none. */
  lemma {:induction false} ReloadAll(t: Tables, rs: seq<Record>)
    requires Inv(t) && AllRecordsMapped(rs) && AllHomed(t, rs)
    ensures LoadAll(t, rs).Ok?
    ensures Reloaded(t, LoadAll(t, rs).value, |rs|)
  {
    SoundParts(t);
    hide *;
    if rs == [] {
      NothingLoaded(t);
      NothingReloaded(t);
    } else {
      PrefixIsHomed(t, rs);
      ReloadAll(t, rs[..|rs|-1]);
      ReloadAllStep(t, rs[..|rs|-1], rs[|rs|-1]);
    }
  }

  lemma GatheredIsHomed(t: Tables, rs: seq<Record>, u: Tables)
    requires Gathered(t, rs, u) && Identified(u.books)
    ensures AllHomed(u, rs)
  {
    hide AuthorsAccounted;
    forall r | r in rs ensures Homed(u, r) {
      assert FiledUnder(u, r);
      assert Agrees(r.book.identity, r.book.isbn13);
    }
  }

  /**
   * A second pass over records whose keys were new to the first inserts, updates and merges
   * nothing, and leaves every book column but the search text, every provenance row, author,
   * subject and link as the first pass left it.
   */
  lemma SecondPassChangesNothing(t: Tables, rs: seq<Record>)
    requires Inv(t) && AllRecordsMapped(rs) && Fresh(t, rs)
    ensures LoadAll(t, rs).Ok?
    ensures var once := LoadAll(t, rs).value.tables; var again := LoadAll(once, rs);
      again.Ok? && SameCatalogue(once, again.value.tables) && again.value.counts == Counts(0, 0, |rs|, |rs|, 0)
  {
    hide LoadAll, Gathered;
    NewKeysGather(t, rs);
    var once := LoadAll(t, rs).value.tables;
    SoundParts(once);
    GatheredIsHomed(t, rs, once);
    ReloadAll(once, rs);
  }

  // ----- several observations of one candidate

  /** The records unification hands the loader, each with its own document. */
  function Unified(cs: seq<CleanBook>, identity: IdentityKey, payloads: seq<Payload>): (rs: seq<Record>)
    requires |payloads| == |cs|
    ensures |rs| == |cs|
    ensures forall i :: 0 <= i < |cs| ==> rs[i] == Record(Rekey(cs[i], identity), payloads[i])
  {
    seq(|cs|, i requires 0 <= i < |cs| => Record(Rekey(cs[i], identity), payloads[i]))
  }

  lemma OneBookAtMost(t: Tables, rs: seq<Record>, u: Tables, identity: IdentityKey)
    requires Gathered(t, rs, u) && Identified(u.books) && rs != []
    requires forall r :: r in rs ==> r.book.identity == identity
    ensures forall r, q :: r in rs && q in rs ==>
      r.Key() in u.sources && q.Key() in u.sources && u.sources[r.Key()].book == u.sources[q.Key()].book
    ensures |u.books| <= |t.books| + 1
  {
    hide AuthorsAccounted;
    forall r, q | r in rs && q in rs
      ensures r.Key() in u.sources && q.Key() in u.sources && u.sources[r.Key()].book == u.sources[q.Key()].book
    {
      assert FiledUnder(u, r) && FiledUnder(u, q);
    }
    assert rs[0] in rs && FiledUnder(u, rs[0]);
    var home := u.sources[rs[0].Key()].book;
    assert u.books.Keys <= t.books.Keys + {home};
    SubsetSize(u.books.Keys, t.books.Keys + {home});
  }

  /**
   * Observations the resolver knows to be one candidate, put on one identity and loaded under
   * new keys, all attach to one book and add at most one; each keeps its own provenance row.
   */
  lemma UnifyThenLoad(t: Tables, cs: seq<CleanBook>, payloads: seq<Payload>)
    requires Inv(t) && cs != [] && |payloads| == |cs|
    requires UnifiedIdentity(cs).Some?
    requires var rs := Unified(cs, UnifiedIdentity(cs).value, payloads); AllRecordsMapped(rs) && Fresh(t, rs)
    ensures var rs := Unified(cs, UnifiedIdentity(cs).value, payloads);
      && LoadAll(t, rs).Ok?
      && var u := LoadAll(t, rs).value.tables;
      && |u.books| <= |t.books| + 1
      && (forall i, j :: 0 <= i < |cs| && 0 <= j < |cs| ==>
            && KeyOf(cs[i]) in u.sources && KeyOf(cs[j]) in u.sources
            && u.sources[KeyOf(cs[i])].payload == payloads[i]
            && u.sources[KeyOf(cs[i])].book == u.sources[KeyOf(cs[j])].book)
  {
    hide LoadAll, Gathered, Mapped, UnifiedIdentity;
    var identity := UnifiedIdentity(cs).value;
    var rs := Unified(cs, identity, payloads);
    NewKeysGather(t, rs);
    var u := LoadAll(t, rs).value.tables;
    SoundParts(u);
    OneBookAtMost(t, rs, u, identity);
    forall i, j | 0 <= i < |cs| && 0 <= j < |cs|
      ensures KeyOf(cs[i]) in u.sources && KeyOf(cs[j]) in u.sources
      ensures u.sources[KeyOf(cs[i])].payload == payloads[i]
      ensures u.sources[KeyOf(cs[i])].book == u.sources[KeyOf(cs[j])].book
    {
      assert rs[i] in rs && rs[j] in rs;
      GatheredFiles(t, rs, u, rs[i]);
    }
  }

  lemma GatheredFiles(t: Tables, rs: seq<Record>, u: Tables, r: Record)
    requires Gathered(t, rs, u) && r in rs
    ensures FiledUnder(u, r)
  {
  }
}
