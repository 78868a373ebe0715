// What attaching series keeps, what it repeats without effect, and when it fails.

module SeriesProofs {
  import opened Ordering
  import opened Domain
  import opened Series

  // ----- one row, followed through a list of picks

  /** What one pick does to the row of series `k`: refresh it, create it, fold it away, or nothing. */
  function RowStep(p: Mention, k: SeriesKey, cur: Option<SeriesRow>): Option<SeriesRow> {
    if p.key == k then
      Some(if cur.Some? then cur.value.(normalised := p.said.normalised) else p.Row())
    else if p.Absorbs(k) then None
    else cur
  }

  function RowAfter(ps: seq<Mention>, k: SeriesKey, cur: Option<SeriesRow>): Option<SeriesRow> {
    if ps == [] then cur else RowStep(ps[|ps|-1], k, RowAfter(ps[..|ps|-1], k, cur))
  }

  /** Whether the book being shelved is on series `k`, followed the same way. */
  function OnStep(p: Mention, k: SeriesKey, cur: bool): bool {
    p.key == k || (!p.Absorbs(k) && cur)
  }

  function OnAfter(ps: seq<Mention>, k: SeriesKey, cur: bool): bool {
    if ps == [] then cur else OnStep(ps[|ps|-1], k, OnAfter(ps[..|ps|-1], k, cur))
  }

  /** References from places to rows, without which a fold could leave a place behind. */
  ghost predicate PlacesHaveRows(s: Shelf) {
    forall l :: l in s.places ==> l.series in s.series
  }

  lemma ShelveOneRow(s: Shelf, b: BookId, p: Mention, k: SeriesKey)
    requires PlacesHaveRows(s)
    ensures Lookup(ShelveOne(s, b, p).series, k) == RowStep(p, k, Lookup(s.series, k))
    ensures (Link(b, k) in ShelveOne(s, b, p).places) == OnStep(p, k, Link(b, k) in s.places)
    ensures PlacesHaveRows(ShelveOne(s, b, p))
  {
  }

  lemma {:induction false} ShelveRow(s: Shelf, b: BookId, ps: seq<Mention>, k: SeriesKey)
    requires PlacesHaveRows(s)
    ensures Lookup(Shelve(s, b, ps).series, k) == RowAfter(ps, k, Lookup(s.series, k))
    ensures (Link(b, k) in Shelve(s, b, ps).places) == OnAfter(ps, k, Link(b, k) in s.places)
    ensures PlacesHaveRows(Shelve(s, b, ps))
  {
    if ps != [] {
      var init, p := ps[..|ps|-1], ps[|ps|-1];
      ShelveRow(s, b, init, k);
      ShelveOneRow(Shelve(s, b, init), b, p, k);
    }
  }

  // ----- shelving twice

  lemma {:induction false} WithoutMention(ps: seq<Mention>, k: SeriesKey, cur: Option<SeriesRow>)
    requires !HasKey(ps, k)
    ensures RowAfter(ps, k, cur) == if (exists p :: p in ps && p.Absorbs(k)) then None else cur
  {
    if ps != [] {
      var init, p := ps[..|ps|-1], ps[|ps|-1];
      assert ps == init + [p];
      assert forall q :: q in ps <==> q in init || q == p;
      WithoutMention(init, k, cur);
    }
  }

  /** The second time through the picks finds every row as the first time left it. */
  lemma {:induction false} RowAfterTwice(ps: seq<Mention>, k: SeriesKey, cur: Option<SeriesRow>)
    requires UniqueKeys(ps)
    ensures RowAfter(ps, k, RowAfter(ps, k, cur)) == RowAfter(ps, k, cur)
  {
    if ps != [] {
      var init, p := ps[..|ps|-1], ps[|ps|-1];
      if p.key == k {
        forall q | q in init ensures q.key != k { }
        WithoutMention(init, k, cur);
        WithoutMention(init, k, RowAfter(ps, k, cur));
      } else if !p.Absorbs(k) {
        RowAfterTwice(init, k, cur);
      }
    }
  }

  lemma {:induction false} OnAfterTwice(ps: seq<Mention>, k: SeriesKey, cur: bool)
    ensures OnAfter(ps, k, OnAfter(ps, k, cur)) == OnAfter(ps, k, cur)
    ensures OnAfter(ps, k, true) == OnAfter(ps, k, false) || (forall c: bool :: OnAfter(ps, k, c) == c)
  {
    if ps != [] {
      OnAfterTwice(ps[..|ps|-1], k, cur);
    }
  }

  lemma AttributeKeepsRows(s: Shelf, b: BookId, known: set<Key>, ms: seq<Mention>)
    requires Attribute(s, b, known, ms).Done?
    ensures Attribute(s, b, known, ms).value.series == s.series
    ensures Attribute(s, b, known, ms).value.places == s.places
  {
  }

  /**
   * Attaching the same accounts again leaves every series row and every one of the book's
   * links, and so the text the book is found by. (Positions may still be learnt: an inferred
   * row that is folded away again hands over its position a second time.)
   */
  lemma SyncTwice(s: Shelf, b: BookId, known: set<Key>, ms: seq<Mention>)
    requires PlacesHaveRows(s)
    requires Sync(s, b, known, ms).Done?
    requires Sync(Sync(s, b, known, ms).value, b, known, ms).Done?
    ensures var once := Sync(s, b, known, ms).value; var twice := Sync(once, b, known, ms).value;
      && twice.series == once.series
      && (forall k :: Link(b, k) in twice.places <==> Link(b, k) in once.places)
      && Projection(NamesOn(twice, b)) == Projection(NamesOn(once, b))
  {
    var once := Sync(s, b, known, ms).value;
    var twice := Sync(once, b, known, ms).value;
    var ps := Best(ms);
    BestIsOnePerSeries(ms);
    AttributeKeepsRows(Shelve(s, b, ps), b, known, ms);
    AttributeKeepsRows(Shelve(once, b, ps), b, known, ms);
    ShelveRow(s, b, ps, Named(""));
    forall k
      ensures Lookup(twice.series, k) == Lookup(once.series, k)
      ensures Link(b, k) in twice.places <==> Link(b, k) in once.places
    {
      ShelveRow(s, b, ps, k);
      ShelveRow(once, b, ps, k);
      RowAfterTwice(ps, k, Lookup(s.series, k));
      OnAfterTwice(ps, k, Link(b, k) in s.places);
    }
    SameRows(twice.series, once.series);
    SameNames(twice, once, b);
  }

  lemma SameRows(m: map<SeriesKey, SeriesRow>, n: map<SeriesKey, SeriesRow>)
    requires forall k :: Lookup(m, k) == Lookup(n, k)
    ensures m == n
  {
    assert forall k :: k in m <==> Lookup(m, k).Some?;
    assert forall k :: k in n <==> Lookup(n, k).Some?;
    assert forall k :: k in m ==> Lookup(m, k).value == m[k];
    assert forall k :: k in n ==> Lookup(n, k).value == n[k];
  }

  lemma SameNames(s: Shelf, t: Shelf, b: BookId)
    requires s.series == t.series
    requires forall k :: Link(b, k) in s.places <==> Link(b, k) in t.places
    ensures NamesOn(s, b) == NamesOn(t, b)
  {
    forall l: Link | l.book == b ensures l in s.places <==> l in t.places {
      assert l == Link(b, l.series);
    }
  }

  // ----- what folding an inferred series keeps

  lemma AbsorbKeepsForeignKeys(s: Shelf, survivor: SeriesKey, n: string, books: set<BookId>, known: set<Key>)
    requires survivor.FromSource? && survivor in s.series
    requires ForeignKeys(s, books, known)
    ensures ForeignKeys(Absorb(s, survivor, n), books, known)
  {
    var t := Absorb(s, survivor, n);
    if Named(n) in s.series {
      forall a | a in t.accounts
        ensures Link(t.accounts[a].book, t.accounts[a].series) in t.places
        ensures SourceSeries(a.source, a.seriesId) in t.sources
      {
        assert Link(s.accounts[a].book, s.accounts[a].series) in s.places;
      }
    }
  }

  /** Better-informed: a known position stays known, a confirmation stays. */
  predicate AtLeast(after: Place, before: Place) {
    && (before.position.Some? ==> after.position.Some?)
    && (before.confirmed ==> after.confirmed)
  }

  /**
   * Folding the inferred row away loses no book's membership, blanks no position, withdraws no
   * confirmation and drops no provenance row; nothing is left pointing at the folded row.
   */
  lemma AbsorbLosesNothing(s: Shelf, survivor: SeriesKey, n: string)
    requires survivor.FromSource? && survivor in s.series
    requires PlacesHaveRows(s)
    requires Named(n) in s.series
    ensures var t := Absorb(s, survivor, n);
      && t.series == s.series - {Named(n)}
      && (forall l :: l in s.places && l.series != Named(n) ==>
            && l in t.places && AtLeast(t.places[l], s.places[l])
            && (s.places[l].position.Some? ==> t.places[l].position == s.places[l].position))
      && (forall l :: l in s.places && l.series == Named(n) ==>
            Link(l.book, survivor) in t.places && AtLeast(t.places[Link(l.book, survivor)], s.places[l]))
      && (forall l :: l in t.places ==> l in s.places || (l.series == survivor && Link(l.book, Named(n)) in s.places))
      && t.sources.Keys == s.sources.Keys && t.accounts.Keys == s.accounts.Keys
      && (forall r :: r in t.sources ==> t.sources[r] != Named(n))
      && (forall a :: a in t.accounts ==>
            t.accounts[a] == s.accounts[a].(series := if s.accounts[a].series == Named(n) then survivor
                                                      else s.accounts[a].series))
      && (forall l :: l in t.places ==> l.series != Named(n))
  {
  }

  lemma ShelveOneKeepsForeignKeys(s: Shelf, b: BookId, p: Mention, books: set<BookId>, known: set<Key>)
    requires ForeignKeys(s, books, known) && b in books
    ensures ForeignKeys(ShelveOne(s, b, p), books, known)
  {
    var t := UpsertRow(s, p);
    assert ForeignKeys(t, books, known);
    if p.key.FromSource? {
      AbsorbKeepsForeignKeys(t, p.key, p.said.normalised, books, known);
    }
  }

  lemma {:induction false} ShelveKeepsForeignKeys(s: Shelf, b: BookId, ps: seq<Mention>, books: set<BookId>, known: set<Key>)
    requires ForeignKeys(s, books, known) && b in books
    ensures ForeignKeys(Shelve(s, b, ps), books, known)
  {
    if ps != [] {
      ShelveKeepsForeignKeys(s, b, ps[..|ps|-1], books, known);
      ShelveOneKeepsForeignKeys(Shelve(s, b, ps[..|ps|-1]), b, ps[|ps|-1], books, known);
    }
  }

  lemma {:induction false} AttributeKeepsForeignKeys(s: Shelf, b: BookId, known: set<Key>, ms: seq<Mention>, books: set<BookId>)
    requires ForeignKeys(s, books, known)
    requires Attribute(s, b, known, ms).Done?
    ensures ForeignKeys(Attribute(s, b, known, ms).value, books, known)
  {
    if ms != [] {
      AttributeKeepsForeignKeys(s, b, known, ms[..|ms|-1], books);
      var t, x := Attribute(s, b, known, ms[..|ms|-1]).value, ms[|ms|-1];
      if x.said.HasId() {
        assert AccountKeyOf(x).seriesId == SourceSeriesOf(x).id;
        assert Key(AccountKeyOf(x).source, AccountKeyOf(x).bookSourceId) == x.who;
      }
    }
  }

  /** Whatever sources say, a sync that completes leaves every reference intact. */
  lemma SyncKeepsForeignKeys(s: Shelf, b: BookId, known: set<Key>, ms: seq<Mention>, books: set<BookId>)
    requires ForeignKeys(s, books, known) && b in books
    requires Sync(s, b, known, ms).Done?
    ensures ForeignKeys(Sync(s, b, known, ms).value, books, known)
  {
    ShelveKeepsForeignKeys(s, b, Best(ms), books, known);
    AttributeKeepsForeignKeys(Shelve(s, b, Best(ms)), b, known, ms, books);
  }

  lemma {:induction false} ShelveKeepsKeyed(s: Shelf, b: BookId, ps: seq<Mention>)
    requires Keyed(s) && forall p :: p in ps ==> WellKeyed(p)
    ensures Keyed(Shelve(s, b, ps))
  {
    if ps != [] {
      assert ps[|ps|-1] in ps;
      ShelveKeepsKeyed(s, b, ps[..|ps|-1]);
    }
  }

  /** Wherever a membership was, its book is still on that series or on the one that took it in, no less informed. */
  ghost predicate StillTold(before: Place, t: Shelf, b: BookId) {
    exists l :: l in t.places && l.book == b && AtLeast(t.places[l], before)
  }

  lemma ShelveOneLosesNothing(s: Shelf, b: BookId, p: Mention, l: Link) returns (m: Link)
    requires PlacesHaveRows(s) && l in s.places
    ensures var t := ShelveOne(s, b, p); m in t.places && m.book == l.book && AtLeast(t.places[m], s.places[l])
    ensures m == l || (p.Absorbs(l.series) && m.series == p.key)
  {
    m := if p.Absorbs(l.series) then Link(l.book, p.key) else l;
    var u := UpsertRow(s, p);
    if p.key.FromSource? && Named(p.said.normalised) in u.series {
      AbsorbLosesNothing(u, p.key, p.said.normalised);
    }
  }

  lemma {:induction false} ShelveLosesNothing(s: Shelf, b: BookId, ps: seq<Mention>, l: Link) returns (m: Link)
    requires PlacesHaveRows(s) && l in s.places
    ensures PlacesHaveRows(Shelve(s, b, ps))
    ensures var t := Shelve(s, b, ps); m in t.places && m.book == l.book && AtLeast(t.places[m], s.places[l])
  {
    ShelveRow(s, b, ps, Named(""));
    if ps == [] {
      m := l;
    } else {
      var init := ps[..|ps|-1];
      var before := ShelveLosesNothing(s, b, init, l);
      m := ShelveOneLosesNothing(Shelve(s, b, init), b, ps[|ps|-1], before);
    }
  }

  /**
   * Attaching one book's series takes no book off the shelf: every membership there was is still
   * there, or on the series that took its own in, with any known position still known and any
   * confirmation kept.
   */
  lemma SyncLosesNothing(s: Shelf, b: BookId, known: set<Key>, ms: seq<Mention>, l: Link)
    requires PlacesHaveRows(s) && l in s.places && Sync(s, b, known, ms).Done?
    ensures StillTold(s.places[l], Sync(s, b, known, ms).value, l.book)
  {
    var m := ShelveLosesNothing(s, b, Best(ms), l);
    AttributeKeepsRows(Shelve(s, b, Best(ms)), b, known, ms);
    assert m in Sync(s, b, known, ms).value.places;
  }

  // ----- when attaching fails

  /** A later pick folds away the row an earlier one was shelved on. */
  ghost predicate FoldedLater(ps: seq<Mention>, k: SeriesKey) {
    exists i, j :: 0 <= i < j < |ps| && ps[i].key == k && ps[j].Absorbs(k)
  }

  lemma {:induction false} RowMissingExactlyWhen(ps: seq<Mention>, k: SeriesKey, cur: Option<SeriesRow>)
    requires UniqueKeys(ps) && HasKey(ps, k)
    ensures RowAfter(ps, k, cur).None? <==> FoldedLater(ps, k)
  {
    var init, p := ps[..|ps|-1], ps[|ps|-1];
    if p.key != k {
      var q :| q in ps && q.key == k;
      var i :| 0 <= i < |ps| && ps[i] == q;
      assert init[i] == q;
      RowMissingExactlyWhen(init, k, cur);
      FoldedByTheLast(ps, k, i);
    }
  }

  lemma FoldedByTheLast(ps: seq<Mention>, k: SeriesKey, i: nat)
    requires i < |ps| - 1 && ps[i].key == k && ps[|ps|-1].key != k
    ensures FoldedLater(ps, k) <==> FoldedLater(ps[..|ps|-1], k) || ps[|ps|-1].Absorbs(k)
  {
    var init, p := ps[..|ps|-1], ps[|ps|-1];
    if FoldedLater(init, k) {
      var a, c :| 0 <= a < c < |init| && init[a].key == k && init[c].Absorbs(k);
      assert ps[a].key == k && ps[c].Absorbs(k);
    }
    if p.Absorbs(k) {
      assert ps[i].key == k && ps[|ps|-1].Absorbs(k);
    } else if FoldedLater(ps, k) {
      var a, c :| 0 <= a < c < |ps| && ps[a].key == k && ps[c].Absorbs(k);
      assert init[a].key == k && init[c].Absorbs(k);
    }
  }

  lemma {:induction false} OnMatchesRow(ps: seq<Mention>, k: SeriesKey, cur: Option<SeriesRow>, on: bool)
    requires HasKey(ps, k)
    ensures OnAfter(ps, k, on) <==> RowAfter(ps, k, cur).Some?
  {
    var init, p := ps[..|ps|-1], ps[|ps|-1];
    if p.key != k && !p.Absorbs(k) {
      var q :| q in ps && q.key == k;
      assert ps == init + [p];
      assert q in init;
      OnMatchesRow(init, k, cur, on);
    }
  }

  /** Attribution refuses a mention exactly when the row it names is gone. */
  lemma {:induction false} AttributeFailsExactlyWhen(s: Shelf, b: BookId, known: set<Key>, ms: seq<Mention>)
    requires forall x :: x in ms ==> x.who in known
    requires forall x :: x in ms ==> (x.key in s.series <==> Link(b, x.key) in s.places)
    ensures Attribute(s, b, known, ms).ForeignKeyViolation? <==>
      exists x :: x in ms && x.said.HasId() && x.key !in s.series
  {
    if ms != [] {
      var init, x := ms[..|ms|-1], ms[|ms|-1];
      assert ms == init + [x];
      assert forall y :: y in ms <==> y in init || y == x;
      AttributeFailsExactlyWhen(s, b, known, init);
      if Attribute(s, b, known, init).Done? {
        AttributeKeepsRows(s, b, known, init);
      }
    }
  }

  /**
   * Attaching series aborts exactly when some source gave its own id for a series it did not
   * confirm, and a confirmed series of the same name comes later among the picks: the inferred
   * row is folded away while its id is still to be recorded.
   */
  lemma SyncFailsExactlyWhen(s: Shelf, b: BookId, known: set<Key>, ms: seq<Mention>)
    requires PlacesHaveRows(s)
    requires forall x :: x in ms ==> x.who in known
    ensures Sync(s, b, known, ms).ForeignKeyViolation? <==>
      exists x :: x in ms && x.said.HasId() && FoldedLater(Best(ms), x.key)
  {
    var ps := Best(ms);
    BestIsOnePerSeries(ms);
    var t := Shelve(s, b, ps);
    forall x | x in ms
      ensures x.key in t.series <==> Link(b, x.key) in t.places
      ensures x.key !in t.series <==> FoldedLater(ps, x.key)
    {
      ShelveRow(s, b, ps, x.key);
      OnMatchesRow(ps, x.key, Lookup(s.series, x.key), Link(b, x.key) in s.places);
      RowMissingExactlyWhen(ps, x.key, Lookup(s.series, x.key));
    }
    AttributeFailsExactlyWhen(t, b, known, ms);
  }

  /** Two accounts of one book that abort: an id nobody confirmed, then a confirmed series of that name. */
  lemma SyncCanFail(known: set<Key>)
    requires known == {Key(Goodreads, "1"), Key(OpenLibrary, "1")}
    ensures var name := SeriesName("The Expanse", Some("the expanse"));
      var guessed := Membership(name, "the expanse", Some("7"), None, false);
      var confirmed := Membership(name, "the expanse", Some("56399"), None, true);
      var ms := [Mention(Key(Goodreads, "1"), guessed.Key(Goodreads), guessed),
                 Mention(Key(OpenLibrary, "1"), confirmed.Key(OpenLibrary), confirmed)];
      Sync(EMPTY_SHELF, 0, known, ms).ForeignKeyViolation?
  {
    var name := SeriesName("The Expanse", Some("the expanse"));
    var guessed := Membership(name, "the expanse", Some("7"), None, false);
    var confirmed := Membership(name, "the expanse", Some("56399"), None, true);
    var x := Mention(Key(Goodreads, "1"), guessed.Key(Goodreads), guessed);
    var y := Mention(Key(OpenLibrary, "1"), confirmed.Key(OpenLibrary), confirmed);
    BestOfTwo(x, y);
    assert [x, y][0].key == x.key && [x, y][1].Absorbs(x.key);
    assert x in [x, y] && x.said.HasId() && FoldedLater(Best([x, y]), x.key);
    SyncFailsExactlyWhen(EMPTY_SHELF, 0, known, [x, y]);
  }

  lemma BestOfTwo(x: Mention, y: Mention)
    requires x.key != y.key
    ensures Best([x, y]) == [x, y]
  {
    assert [x, y][..1] == [x] && [x][..0] == [];
    assert Best([x]) == [x];
  }

  /** Every id a source gives is confirmed: what each provider's mapper produces. */
  predicate Evidenced(x: Mention) {
    x.said.HasId() ==> x.said.confirmed
  }

  lemma EvidencedSyncCompletes(s: Shelf, b: BookId, known: set<Key>, ms: seq<Mention>)
    requires PlacesHaveRows(s)
    requires forall x :: x in ms ==> x.who in known && Evidenced(x) && WellKeyed(x)
    ensures Sync(s, b, known, ms).Done?
  {
    SyncFailsExactlyWhen(s, b, known, ms);
  }
}
