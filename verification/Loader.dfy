// The loader as it runs: statements issued one at a time against tables.

module Loader {
  import opened Ordering
  import opened Domain
  import opened Merge
  import opened Series
  import opened SeriesProofs
  import opened Catalogue
  import opened CatalogueProofs
  import opened History

  const DEFAULT_BATCH_SIZE: nat := 1000
  const DEADLOCK_RETRIES: nat := 4

  /** What one load pass did. */
  class LoadResult {
    var inserted: nat
    var updated: nat
    var untouched: nat
    var linked: nat
    var merges: nat

    constructor ()
      ensures Counted() == ZERO
    {
      inserted, updated, untouched, linked, merges := 0, 0, 0, 0, 0;
    }

    function Counted(): Counts
      reads this
    {
      Counts(inserted, updated, untouched, linked, merges)
    }

    method Add(other: LoadResult)
      requires other != this
      modifies this
      ensures Counted() == old(Counted()).Plus(other.Counted())
    {
      inserted := inserted + other.inserted;
      updated := updated + other.updated;
      untouched := untouched + other.untouched;
      linked := linked + other.linked;
      merges := merges + other.merges;
    }
  }

  // ----- the statements that fold one series row into another

  function Landed(s: Shelf, survivor: SeriesKey, inferred: SeriesKey): Shelf {
    var landed := set l | l in s.places && l.series == inferred :: Link(l.book, survivor);
    s.(places := map l | l in s.places.Keys + landed ::
         if l in landed then MovedPlace(s.places, survivor, inferred, l) else s.places[l])
  }

  function AccountsMoved(s: Shelf, survivor: SeriesKey, inferred: SeriesKey): Shelf {
    s.(accounts := map a | a in s.accounts ::
         if s.accounts[a].series == inferred then s.accounts[a].(series := survivor) else s.accounts[a])
  }

  function SourcesMoved(s: Shelf, survivor: SeriesKey, inferred: SeriesKey): Shelf {
    s.(sources := map r | r in s.sources :: if s.sources[r] == inferred then survivor else s.sources[r])
  }

  function PlacesDeleted(s: Shelf, k: SeriesKey): Shelf {
    s.(places := map l | l in s.places && l.series != k :: s.places[l],
       accounts := map a | a in s.accounts && s.accounts[a].series != k :: s.accounts[a])
  }

  predicate OfSeries(s: Shelf, a: AccountKey, k: SeriesKey) {
    var r := SourceSeries(a.source, a.seriesId);
    (a in s.accounts && s.accounts[a].series == k) || (r in s.sources && s.sources[r] == k)
  }

  function SeriesDeleted(s: Shelf, k: SeriesKey): Shelf {
    Shelf(s.series - {k},
          map l | l in s.places && l.series != k :: s.places[l],
          map r | r in s.sources && s.sources[r] != k :: s.sources[r],
          map a | a in s.accounts && !OfSeries(s, a, k) :: s.accounts[a])
  }

  lemma LandedKeepsForeignKeys(s: Shelf, survivor: SeriesKey, inferred: SeriesKey, books: set<BookId>, known: set<Key>)
    requires ForeignKeys(s, books, known) && survivor in s.series && survivor != inferred
    ensures ForeignKeys(Landed(s, survivor, inferred), books, known)
  {
  }

  /** Accounts can move once the memberships they refer to have landed. */
  lemma AccountsMovedKeepsForeignKeys(s: Shelf, survivor: SeriesKey, inferred: SeriesKey, books: set<BookId>, known: set<Key>)
    requires ForeignKeys(s, books, known) && survivor in s.series && survivor != inferred
    requires forall l :: l in s.places && l.series == inferred ==> Link(l.book, survivor) in s.places
    ensures ForeignKeys(AccountsMoved(s, survivor, inferred), books, known)
  {
    var t := AccountsMoved(s, survivor, inferred);
    forall a | a in t.accounts ensures Link(t.accounts[a].book, t.accounts[a].series) in t.places {
      assert Link(s.accounts[a].book, s.accounts[a].series) in s.places;
    }
  }

  lemma SourcesMovedKeepsForeignKeys(s: Shelf, survivor: SeriesKey, inferred: SeriesKey, books: set<BookId>, known: set<Key>)
    requires ForeignKeys(s, books, known) && survivor in s.series
    ensures ForeignKeys(SourcesMoved(s, survivor, inferred), books, known)
  {
  }

  predicate NoAccountOn(s: Shelf, k: SeriesKey) {
    forall a :: a in s.accounts ==> s.accounts[a].series != k
  }

  predicate NothingOn(s: Shelf, k: SeriesKey) {
    && NoAccountOn(s, k)
    && (forall l :: l in s.places ==> l.series != k)
    && (forall r :: r in s.sources ==> s.sources[r] != k)
  }

  lemma PlacesDeletedKeepsForeignKeys(s: Shelf, k: SeriesKey, books: set<BookId>, known: set<Key>)
    requires ForeignKeys(s, books, known) && NoAccountOn(s, k)
    ensures ForeignKeys(PlacesDeleted(s, k), books, known) && PlacesDeleted(s, k).accounts == s.accounts
  {
  }

  lemma EmptySeriesDeleted(s: Shelf, k: SeriesKey, books: set<BookId>, known: set<Key>)
    requires ForeignKeys(s, books, known) && NothingOn(s, k)
    ensures SeriesDeleted(s, k) == s.(series := s.series - {k})
    ensures ForeignKeys(SeriesDeleted(s, k), books, known)
  {
    var t := SeriesDeleted(s, k);
    assert t.places == s.places && t.sources == s.sources;
    assert t.accounts == s.accounts;
  }

  /** The two deletions come last, find nothing to take, and leave the fold. */
  lemma AbsorbedInSteps(s: Shelf, survivor: SeriesKey, inferred: SeriesKey, books: set<BookId>, known: set<Key>)
    requires ForeignKeys(s, books, known) && survivor.FromSource? && survivor in s.series
    requires inferred.Named? && inferred in s.series
    ensures var landed := Landed(s, survivor, inferred);
      && survivor in landed.series
      && forall l :: l in landed.places && l.series == inferred ==> Link(l.book, survivor) in landed.places
    ensures survivor in AccountsMoved(Landed(s, survivor, inferred), survivor, inferred).series
    ensures var moved := SourcesMoved(AccountsMoved(Landed(s, survivor, inferred), survivor, inferred), survivor, inferred);
      && NoAccountOn(moved, inferred)
      && NothingOn(PlacesDeleted(moved, inferred), inferred)
      && SeriesDeleted(PlacesDeleted(moved, inferred), inferred) == Absorb(s, survivor, inferred.normalised)
  {
    var moved := SourcesMoved(AccountsMoved(Landed(s, survivor, inferred), survivor, inferred), survivor, inferred);
    MovedIsAbsorbed(s, survivor, inferred, moved);
  }

  lemma MovedIsAbsorbed(s: Shelf, survivor: SeriesKey, inferred: SeriesKey, moved: Shelf)
    requires survivor.FromSource? && inferred.Named? && inferred in s.series
    requires moved == SourcesMoved(AccountsMoved(Landed(s, survivor, inferred), survivor, inferred), survivor, inferred)
    ensures PlacesDeleted(moved, inferred).accounts == moved.accounts
    ensures PlacesDeleted(moved, inferred) == Absorb(s, survivor, inferred.normalised).(series := s.series)
    ensures SeriesDeleted(PlacesDeleted(moved, inferred), inferred) == Absorb(s, survivor, inferred.normalised)
  {
    var t := Absorb(s, survivor, inferred.normalised);
    var u := PlacesDeleted(moved, inferred);
    assert u.places == t.places;
    assert u.accounts == t.accounts;
    assert u.sources == t.sources;
    assert SeriesDeleted(u, inferred).accounts == u.accounts;
  }

  /** The four series tables, and the statements that change them. */
  class SeriesTables {
    var series: map<SeriesKey, SeriesRow>
    var places: map<Link, Place>
    var sources: map<SourceSeries, SeriesKey>
    var accounts: map<AccountKey, Account>

    constructor ()
      ensures State() == EMPTY_SHELF
    {
      series, places, sources, accounts := map[], map[], map[], map[];
    }

    function State(): Shelf
      reads this
    {
      Shelf(series, places, sources, accounts)
    }

    method Restore(s: Shelf)
      modifies this
      ensures State() == s
    {
      series, places, sources, accounts := s.series, s.places, s.sources, s.accounts;
    }

    /** Deleting memberships would take the accounts that refer to them; here none does. */
    method DeletePlacesOf(k: SeriesKey, ghost books: set<BookId>, ghost known: set<Key>)
      requires ForeignKeys(State(), books, known) && NoAccountOn(State(), k)
      modifies this`places, this`accounts
      ensures State() == PlacesDeleted(old(State()), k) && accounts == old(accounts)
      ensures ForeignKeys(State(), books, known)
    {
      PlacesDeletedKeepsForeignKeys(State(), k, books, known);
      places := map l | l in places && l.series != k :: places[l];
      accounts := map a | a in accounts && accounts[a].series != k :: accounts[a];
    }

    /** Deleting a series row would take all that refers to it; here nothing does. */
    method DeleteSeries(k: SeriesKey, ghost books: set<BookId>, ghost known: set<Key>)
      requires ForeignKeys(State(), books, known) && NothingOn(State(), k)
      modifies this
      ensures State() == SeriesDeleted(old(State()), k)
      ensures State() == old(State()).(series := old(series) - {k})
      ensures ForeignKeys(State(), books, known)
    {
      EmptySeriesDeleted(State(), k, books, known);
      accounts := map a | a in accounts && accounts[a].series != k
        && (SourceSeries(a.source, a.seriesId) in sources ==> sources[SourceSeries(a.source, a.seriesId)] != k)
        :: accounts[a];
      places := map l | l in places && l.series != k :: places[l];
      sources := map r | r in sources && sources[r] != k :: sources[r];
      series := series - {k};
    }

    /** Deleting a book takes its memberships, and the accounts that refer to them. */
    method DeleteBook(b: BookId)
      modifies this
      ensures State() == DropBook(old(State()), b)
    {
      places := map l | l in places && l.book != b :: places[l];
      accounts := map a | a in accounts && accounts[a].book != b :: accounts[a];
    }

    /** Memberships are merged, not skipped: a book on both rows may know its position on only one. */
    method LandMemberships(survivor: SeriesKey, inferred: SeriesKey, ghost books: set<BookId>, ghost known: set<Key>)
      requires ForeignKeys(State(), books, known) && survivor in series && survivor != inferred
      modifies this`places
      ensures State() == Landed(old(State()), survivor, inferred)
      ensures ForeignKeys(State(), books, known)
    {
      LandedKeepsForeignKeys(State(), survivor, inferred, books, known);
      var landed := set l | l in places && l.series == inferred :: Link(l.book, survivor);
      places := map l | l in places.Keys + landed ::
        if l in landed then MovedPlace(places, survivor, inferred, l) else places[l];
    }

    method MoveAccounts(survivor: SeriesKey, inferred: SeriesKey, ghost books: set<BookId>, ghost known: set<Key>)
      requires ForeignKeys(State(), books, known) && survivor in series && survivor != inferred
      requires forall l :: l in places && l.series == inferred ==> Link(l.book, survivor) in places
      modifies this`accounts
      ensures State() == AccountsMoved(old(State()), survivor, inferred)
      ensures ForeignKeys(State(), books, known)
    {
      AccountsMovedKeepsForeignKeys(State(), survivor, inferred, books, known);
      accounts := map a | a in accounts ::
        if accounts[a].series == inferred then accounts[a].(series := survivor) else accounts[a];
    }

    method MoveSources(survivor: SeriesKey, inferred: SeriesKey, ghost books: set<BookId>, ghost known: set<Key>)
      requires ForeignKeys(State(), books, known) && survivor in series
      modifies this`sources
      ensures State() == SourcesMoved(old(State()), survivor, inferred)
      ensures ForeignKeys(State(), books, known)
    {
      SourcesMovedKeepsForeignKeys(State(), survivor, inferred, books, known);
      sources := map r | r in sources :: if sources[r] == inferred then survivor else sources[r];
    }

    /**
     * Fold a name-derived series into the one a source has now named. Every reference holds after
     * each statement, so nothing is taken by a cascade: memberships land before the accounts that
     * refer to them move, and the row goes when nothing is left on it.
     */
    method AbsorbInferredSeries(survivor: SeriesKey, normalised: string, ghost books: set<BookId>, ghost known: set<Key>)
      requires survivor.FromSource? && survivor in series
      requires Keyed(State()) && ForeignKeys(State(), books, known)
      modifies this
      ensures State() == Absorb(old(State()), survivor, normalised)
      ensures ForeignKeys(State(), books, known)
    {
      ghost var before := State();
      var inferred :=
        if k :| k in series && k.Named? && series[k].normalised == normalised then Some(k) else None;
      assert inferred.Some? ==> inferred.value == Named(normalised);
      if inferred.None? {
        assert Named(normalised) !in series;
        return;
      }
      hide Keyed, ForeignKeys, Landed, AccountsMoved, SourcesMoved, PlacesDeleted, SeriesDeleted, Absorb, NoAccountOn,
        NothingOn;
      AbsorbedInSteps(before, survivor, inferred.value, books, known);
      LandMemberships(survivor, inferred.value, books, known);
      MoveAccounts(survivor, inferred.value, books, known);
      MoveSources(survivor, inferred.value, books, known);
      DeletePlacesOf(inferred.value, books, known);
      DeleteSeries(inferred.value, books, known);
    }

    /** Insert the row, or refresh its comparison form; a confirmed id also folds in the inferred row. */
    method UpsertSeries(p: Mention, ghost books: set<BookId>, ghost known: set<Key>)
      requires WellKeyed(p)
      requires Keyed(State()) && ForeignKeys(State(), books, known)
      modifies this
      ensures State() == Series.UpsertSeries(old(State()), p)
    {
      var row := if p.key in series then series[p.key].(normalised := p.said.normalised) else p.Row();
      series := series[p.key := row];
      if p.said.confirmed && p.said.HasId() {
        AbsorbInferredSeries(p.key, p.said.normalised, books, known);
      }
    }

    method LinkSeries(b: BookId, p: Mention)
      modifies this`places
      ensures State() == LinkBook(old(State()), b, p)
    {
      var l := Link(b, p.key);
      if l in places {
        places := places[l := Place(Coalesce(p.said.position, places[l].position),
                                    places[l].confirmed || p.said.confirmed)];
      } else {
        places := places[l := Place(p.said.position, p.said.confirmed)];
      }
    }

    /** The source's own series row, which the account refers to. */
    method RecordSeriesSource(x: Mention) returns (ok: bool)
      modifies this`sources
      ensures ok <==> x.key in series
      ensures ok ==> sources == old(sources)[SourceSeriesOf(x) := x.key]
    {
      ok := x.key in series;
      if ok {
        sources := sources[SourceSeriesOf(x) := x.key];
      }
    }

    /** One source's account of one book in one series, never merged with another's. */
    method LinkSeriesSource(b: BookId, x: Mention, known: set<Key>) returns (ok: bool)
      requires SourceSeriesOf(x) in sources
      modifies this`accounts
      ensures ok <==> x.who in known && Link(b, x.key) in places
      ensures ok ==> accounts == old(accounts)[AccountKeyOf(x) := AccountOf(b, x)]
    {
      ok := x.who in known && Link(b, x.key) in places;
      if ok {
        accounts := accounts[AccountKeyOf(x) := AccountOf(b, x)];
      }
    }

    /** One merged opinion per series, then every source's own account. */
    method SyncSeries(b: BookId, candidates: seq<CleanBook>, known: set<Key>, ghost books: set<BookId>)
      returns (ok: bool)
      requires Keyed(State()) && ForeignKeys(State(), books, known) && b in books
      modifies this
      ensures ok <==> Sync(old(State()), b, known, Mentions(candidates)).Done?
      ensures ok ==> Sync(old(State()), b, known, Mentions(candidates)) == Done(State())
    {
      var ms, best := CollapseToBest(candidates);
      hide ForeignKeys, Keyed, Best, Shelve, Attribute, Mentions;
      assert forall p :: p in best ==> WellKeyed(p) by { MentionsAreWellKeyed(candidates); }
      ShelveAll(b, best, books, known);
      ok := AttributeAll(b, ms, known);
    }

    method CollapseToBest(candidates: seq<CleanBook>) returns (ms: seq<Mention>, best: seq<Mention>)
      ensures ms == Mentions(candidates) && best == Best(ms)
    {
      ms, best := [], [];
      for i := 0 to |candidates|
        invariant ms + Mentions(candidates[i..]) == Mentions(candidates)
        invariant best == Best(ms)
      {
        ghost var before := ms;
        ms, best := ConsiderAll(ms, best, candidates[i]);
        MentionsStep(before, candidates, i);
      }
      assert candidates[|candidates|..] == [];
    }

    method ConsiderAll(ms: seq<Mention>, best: seq<Mention>, c: CleanBook)
      returns (ms': seq<Mention>, best': seq<Mention>)
      requires best == Best(ms)
      ensures ms' == ms + MentionsOf(c) && best' == Best(ms')
    {
      hide Best, Consider;
      ms', best' := ms, best;
      ghost var all := MentionsOf(c);
      for j := 0 to |c.series|
        invariant ms' == ms + all[..j]
        invariant best' == Best(ms')
      {
        var x := Mention(KeyOf(c), c.series[j].Key(c.source), c.series[j]);
        assert x == all[j] && all[..j + 1] == all[..j] + [x];
        BestStep(ms', x);
        ms', best' := ms' + [x], Consider(best', x);
      }
      assert all[..|c.series|] == all;
    }

    method ShelveAll(b: BookId, best: seq<Mention>, ghost books: set<BookId>, ghost known: set<Key>)
      requires Keyed(State()) && ForeignKeys(State(), books, known) && b in books
      requires forall p :: p in best ==> WellKeyed(p)
      modifies this
      ensures State() == Shelve(old(State()), b, best)
    {
      ghost var before := State();
      for i := 0 to |best|
        invariant State() == Shelve(before, b, best[..i])
      {
        assert best[..i+1][..i] == best[..i];
        ShelveKeepsForeignKeys(before, b, best[..i], books, known);
        ShelveKeepsKeyed(before, b, best[..i]);
        UpsertSeries(best[i], books, known);
        LinkSeries(b, best[i]);
      }
      assert best[..|best|] == best;
    }

    method AttributeAll(b: BookId, ms: seq<Mention>, known: set<Key>) returns (ok: bool)
      modifies this
      ensures ok <==> Attribute(old(State()), b, known, ms).Done?
      ensures ok ==> Attribute(old(State()), b, known, ms) == Done(State())
    {
      ghost var before := State();
      for i := 0 to |ms|
        invariant Attribute(before, b, known, ms[..i]) == Done(State())
      {
        assert ms[..i+1][..i] == ms[..i];
        var x := ms[i];
        if x.said.HasId() {
          var recorded := RecordSeriesSource(x);
          if !recorded {
            ViolationSpreads(before, b, known, ms, i + 1);
            return false;
          }
          var linked := LinkSeriesSource(b, x, known);
          if !linked {
            ViolationSpreads(before, b, known, ms, i + 1);
            return false;
          }
        }
      }
      assert ms[..|ms|] == ms;
      ok := true;
    }
  }

  lemma BestStep(ms: seq<Mention>, x: Mention)
    ensures Best(ms + [x]) == Consider(Best(ms), x)
  {
    assert (ms + [x])[..|ms|] == ms;
  }

  lemma MentionsStep(before: seq<Mention>, cs: seq<CleanBook>, i: nat)
    requires i < |cs|
    ensures before + MentionsOf(cs[i]) + Mentions(cs[i+1..]) == before + Mentions(cs[i..])
  {
    assert cs[i..][1..] == cs[i+1..];
  }

  lemma {:induction false} ViolationSpreads(s: Shelf, b: BookId, known: set<Key>, ms: seq<Mention>, i: nat)
    requires i <= |ms| && Attribute(s, b, known, ms[..i]).ForeignKeyViolation?
    ensures Attribute(s, b, known, ms).ForeignKeyViolation?
    decreases |ms| - i
  {
    if i == |ms| {
      assert ms[..i] == ms;
    } else {
      assert ms[..i+1][..i] == ms[..i];
      ViolationSpreads(s, b, known, ms, i + 1);
    }
  }

  // ----- uniqueness turns a lookup into the lookup

  lemma OwnerIsUnique(books: map<BookId, BookRow>, isbn: string, i: BookId)
    requires Identified(books) && i in books && books[i].isbn13 == Some(isbn)
    ensures OwnerOf(books, isbn) == Some(i)
  {
    var j := OwnerOf(books, isbn).value;
    assert books[i].isbn13 == IsbnOf(books[i].identity) && books[j].isbn13 == IsbnOf(books[j].identity);
    assert books[i].identity == books[j].identity;
  }

  lemma BookIsUnique(books: map<BookId, BookRow>, identity: IdentityKey, i: BookId)
    requires Identified(books) && i in books && books[i].identity == identity
    ensures BookWith(books, identity) == Some(i)
  {
  }

  // ----- a loop over candidates, against the maps it builds

  lemma ReplayStep(sources: map<Key, SourceRow>, keys: seq<Key>, i: nat)
    requires i < |keys| && forall k :: k in keys ==> k in sources
    ensures ReplayAll(sources, keys[i..]) ==
      (match Replay(keys[i].source, sources[keys[i]].payload)
       case None => ReplayAll(sources, keys[i+1..])
       case Some(c) => [c] + ReplayAll(sources, keys[i+1..]))
  {
    assert keys[i..][1..] == keys[i+1..];
  }

  lemma CreditsStep(cs: seq<CleanBook>, i: nat)
    requires i < |cs|
    ensures Credits(cs[i..]) == Credits(cs[i+1..]) + CreditsFrom(cs[i].authors, 0)
  {
    assert cs[i..][1..] == cs[i+1..];
  }

  lemma CreditsFromStep(authors: seq<Author>, j: nat)
    requires j < |authors|
    ensures CreditsFrom(authors[j..], j) ==
      (match authors[j].normalised
       case None => CreditsFrom(authors[j+1..], j + 1)
       case Some(n) => CreditsFrom(authors[j+1..], j + 1)[n := (authors[j].name, j)])
  {
    assert authors[j..][1..] == authors[j+1..];
  }

  lemma SubjectNamesStep(subjects: seq<Subject>, j: nat)
    requires j < |subjects|
    ensures SubjectNames(subjects[j..]) ==
      (match subjects[j].normalised
       case None => SubjectNames(subjects[j+1..])
       case Some(n) => SubjectNames(subjects[j+1..])[n := subjects[j].name])
  {
    assert subjects[j..][1..] == subjects[j+1..];
  }

  function SetDefault<K, V>(m: map<K, V>, k: K, v: V): map<K, V> {
    if k in m then m else m[k := v]
  }

  lemma SetDefaultUnder<K, V>(later: map<K, V>, seen: map<K, V>, k: K, v: V)
    ensures later[k := v] + seen == later + SetDefault(seen, k, v)
  {
  }

  lemma PlusAssociative<K, V>(a: map<K, V>, b: map<K, V>, c: map<K, V>)
    ensures (a + b) + c == a + (b + c)
  {
  }

  method CollectCredits(candidates: seq<CleanBook>) returns (seen: map<string, (string, nat)>)
    ensures seen == Credits(candidates)
  {
    seen := map[];
    assert candidates[0..] == candidates;
    for i := 0 to |candidates|
      invariant Credits(candidates[i..]) + seen == Credits(candidates)
    {
      CreditsStep(candidates, i);
      ghost var rest := Credits(candidates[i+1..]);
      PlusAssociative(rest, CreditsFrom(candidates[i].authors, 0), seen);
      seen := CreditAuthors(candidates[i].authors, seen);
    }
    assert candidates[|candidates|..] == [];
  }

  method CreditAuthors(authors: seq<Author>, seen: map<string, (string, nat)>) returns (seen': map<string, (string, nat)>)
    ensures seen' == CreditsFrom(authors, 0) + seen
  {
    seen' := seen;
    assert authors[0..] == authors;
    for j := 0 to |authors|
      invariant CreditsFrom(authors[j..], j) + seen' == CreditsFrom(authors, 0) + seen
    {
      CreditsFromStep(authors, j);
      if authors[j].normalised.Some? {
        var n := authors[j].normalised.value;
        SetDefaultUnder(CreditsFrom(authors[j+1..], j + 1), seen', n, (authors[j].name, j));
        seen' := SetDefault(seen', n, (authors[j].name, j));
      }
    }
    assert authors[|authors|..] == [];
  }

  method CollectSubjects(subjects: seq<Subject>) returns (wanted: map<string, string>)
    ensures wanted == SubjectNames(subjects)
  {
    wanted := map[];
    assert subjects[0..] == subjects;
    for j := 0 to |subjects|
      invariant SubjectNames(subjects[j..]) + wanted == SubjectNames(subjects)
    {
      SubjectNamesStep(subjects, j);
      if subjects[j].normalised.Some? {
        var n := subjects[j].normalised.value;
        SetDefaultUnder(SubjectNames(subjects[j+1..]), wanted, n, subjects[j].name);
        wanted := SetDefault(wanted, n, subjects[j].name);
      }
    }
    assert subjects[|subjects|..] == [];
  }

  /** Rows the mapper or canonicalisation rejects are passed over. */
  method ReplayRows(sources: map<Key, SourceRow>, keys: seq<Key>) returns (candidates: seq<CleanBook>)
    requires forall k :: k in keys ==> k in sources
    ensures candidates == ReplayAll(sources, keys)
  {
    candidates := [];
    assert keys[0..] == keys && ReplayAll(sources, []) == [];
    hide ReplayAll;
    ghost var rest := ReplayAll(sources, keys);
    for i := 0 to |keys|
      invariant rest == ReplayAll(sources, keys[i..])
      invariant candidates + rest == ReplayAll(sources, keys)
    {
      ReplayStep(sources, keys, i);
      rest := ReplayAll(sources, keys[i+1..]);
      var read := Replay(keys[i].source, sources[keys[i]].payload);
      if read.Some? {
        assert candidates + ([read.value] + rest) == (candidates + [read.value]) + rest;
        candidates := candidates + [read.value];
      }
    }
    assert keys[|keys|..] == [];
  }

  // ----- transactions

  datatype BatchError = Deadlocked | Failed(error: LoadError)

  /** The deadlock that strikes an attempt, if one does, and how many records had run by then. */
  function StruckAt(deadlocks: seq<Option<nat>>, attempt: nat): Option<nat> {
    if attempt < |deadlocks| then deadlocks[attempt] else None
  }

  /** Some attempt of the first five is left alone. */
  predicate Spared(deadlocks: seq<Option<nat>>) {
    exists k :: 0 <= k < 5 && StruckAt(deadlocks, k).None?
  }

  ghost predicate Committed(before: Tables, batch: seq<Record>, after: Tables, counted: Counts)
    requires Sound(before)
  {
    LoadAll(before, batch) == Ok(Loaded(after, counted))
  }

  lemma {:induction false} ErrorSpreads(t: Tables, rs: seq<Record>, i: nat)
    requires Sound(t) && i <= |rs| && LoadAll(t, rs[..i]).Err?
    ensures LoadAll(t, rs) == LoadAll(t, rs[..i])
    decreases |rs| - i
  {
    if i == |rs| {
      assert rs[..i] == rs;
    } else {
      assert rs[..i] + [rs[i]] == rs[..i+1];
      LoadAllStep(t, rs[..i], rs[i]);
      ErrorSpreads(t, rs, i + 1);
    }
  }

  // ----- the loader

  class CatalogueLoader {
    const batchSize: nat
    var books: map<BookId, BookRow>
    var nextId: BookId
    var sources: map<Key, SourceRow>
    var authors: map<string, string>
    var bookAuthors: map<NameLink, nat>
    var subjects: map<string, string>
    var bookSubjects: set<NameLink>
    const shelf: SeriesTables

    constructor (size: nat)
      requires size > 0
      ensures State() == EMPTY_TABLES && Sound(State())
      ensures batchSize == if size < 1000 then size else 1000
      ensures fresh(shelf)
    {
      batchSize := if size < DEFAULT_BATCH_SIZE then size else DEFAULT_BATCH_SIZE;
      books, nextId, sources := map[], 0, map[];
      authors, bookAuthors, subjects, bookSubjects := map[], map[], map[], {};
      shelf := new SeriesTables();
    }

    function State(): Tables
      reads this, shelf
    {
      Tables(books, nextId, sources, authors, bookAuthors, subjects, bookSubjects, shelf.State())
    }

    /** ROLLBACK: every table is as the transaction found it. */
    method Rollback(t: Tables)
      modifies this, shelf
      ensures State() == t
    {
      books, nextId, sources := t.books, t.nextId, t.sources;
      authors, bookAuthors, subjects, bookSubjects := t.authors, t.bookAuthors, t.subjects, t.bookSubjects;
      shelf.Restore(t.shelf);
    }

    // -- finding the book

    method FindOrCreateBook(r: Record, result: LoadResult) returns (b: BookId)
      requires Sound(State())
      modifies this, result
      ensures var home := FindOrCreate(old(State()), r);
        && State() == home.tables && b == home.book
        && result.Counted() == old(result.Counted()).Plus(Counts(home.inserted, 0, 0, 0, 0))
    {
      if i :| i in books && books[i].identity == r.book.identity {
        BookIsUnique(books, r.book.identity, i);
        return i;
      }
      b := nextId;
      books := books[b := Stub(r)];
      nextId := nextId + 1;
      result.inserted := result.inserted + 1;
    }

    // -- ISBN promotion and merge

    /** A source has started supplying an ISBN: promote the book in place, or merge it. */
    method ReconcileIsbn(b: BookId, r: Record, result: LoadResult) returns (survivor: BookId)
      requires Sound(State()) && b in books && r.book.isbn13.Some?
      modifies this, shelf, result
      ensures var home := Reconcile(old(State()), b, r);
        && State() == home.tables && survivor == home.book && home.inserted == 0
        && result.Counted() == old(result.Counted()).Plus(Counts(0, 0, 0, 0, home.merges))
    {
      if books[b].isbn13 == r.book.isbn13 {
        return b;
      }
      if owner :| owner in books && books[owner].isbn13 == r.book.isbn13 {
        OwnerIsUnique(books, r.book.isbn13.value, owner);
        survivor := MergeInto(owner, b, result);
      } else {
        books := books[b := books[b].(isbn13 := r.book.isbn13, identity := r.book.identity)];
        survivor := b;
      }
    }

    /** Deleting a book takes its provenance, its links and its series with it. */
    method DeleteBook(b: BookId)
      modifies this, shelf
      ensures State() == Deleted(old(State()), b)
    {
      books := books - {b};
      sources := map k | k in sources && sources[k].book != b :: sources[k];
      bookAuthors := map l | l in bookAuthors && l.book != b :: bookAuthors[l];
      bookSubjects := set l | l in bookSubjects && l.book != b;
      shelf.DeleteBook(b);
    }

    method MoveProvenance(survivor: BookId, orphan: BookId)
      modifies this`sources
      ensures sources == Resettle(old(sources), survivor, orphan)
    {
      sources := map k | k in sources :: if sources[k].book == orphan then sources[k].(book := survivor) else sources[k];
    }

    /** Insert the orphan's links for the survivor, leaving those it shares; then delete the orphan's. */
    method MoveAuthorLinks(survivor: BookId, orphan: BookId)
      requires survivor != orphan
      modifies this`bookAuthors
      ensures bookAuthors == MoveAuthors(old(bookAuthors), survivor, orphan)
    {
      var landed := set l | l in bookAuthors && l.book == orphan :: NameLink(survivor, l.name);
      bookAuthors := (map l | l in landed :: 0) + bookAuthors;
      bookAuthors := map l | l in bookAuthors && l.book != orphan :: bookAuthors[l];
    }

    method MoveSubjectLinks(survivor: BookId, orphan: BookId)
      requires survivor != orphan
      modifies this`bookSubjects
      ensures bookSubjects == MoveSubjects(old(bookSubjects), survivor, orphan)
    {
      ghost var before := bookSubjects;
      bookSubjects := bookSubjects + set l | l in bookSubjects && l.book == orphan :: NameLink(survivor, l.name);
      bookSubjects := set l | l in bookSubjects && l.book != orphan;
      forall l | l in MoveSubjects(before, survivor, orphan) ensures l in bookSubjects {
        var m :| m in before && l == if m.book == orphan then NameLink(survivor, m.name) else m;
      }
    }

    /** Links move before anything is deleted: deleting first would take the provenance. */
    method MergeInto(survivor: BookId, orphan: BookId, result: LoadResult) returns (kept: BookId)
      requires survivor != orphan
      modifies this, shelf, result
      ensures State() == MergeBooks(old(State()), survivor, orphan)
      ensures result.Counted() == old(result.Counted()).(merges := old(result.merges) + 1)
      ensures kept == survivor
    {
      hide Resettle, MoveAuthors, MoveSubjects, DropBook, Deleted, MergeBooks;
      ghost var before := State();
      MoveProvenance(survivor, orphan);
      MoveAuthorLinks(survivor, orphan);
      MoveSubjectLinks(survivor, orphan);
      MovedBeforeDeleting(before, State(), survivor, orphan);
      DeleteBook(orphan);
      result.merges := result.merges + 1;
      kept := survivor;
    }

    // -- provenance

    method UpsertSource(b: BookId, r: Record, result: LoadResult)
      modifies this`sources, result
      ensures State() == Catalogue.UpsertSource(old(State()), b, r)
      ensures result.Counted() == old(result.Counted()).(linked := old(result.linked) + 1)
    {
      sources := sources[r.Key() := SourceRow(b, r.payload)];
      result.linked := result.linked + 1;
    }

    /** Every stored payload attached to the book, replayed. */
    method Replay(b: BookId) returns (candidates: seq<CleanBook>)
      ensures candidates == Candidates(sources, b)
    {
      KeyIsTotalOrder();
      candidates := ReplayRows(sources, Arrange(AttachedTo(sources, b), KeyLe));
    }

    // -- canonical recomputation

    method SyncAuthors(b: BookId, candidates: seq<CleanBook>)
      modifies this`authors, this`bookAuthors
      ensures State() == Catalogue.SyncAuthors(old(State()), b, candidates)
    {
      var seen := CollectCredits(candidates);
      hide Credits;
      if seen != map[] {
        authors := (map n | n in seen :: seen[n].0) + authors;
        var links := set n | n in seen :: NameLink(b, n);
        bookAuthors := (map l | l in links :: seen[l.name].1) + bookAuthors;
      }
    }

    method SyncSubjects(b: BookId, names: seq<Subject>)
      modifies this`subjects, this`bookSubjects
      ensures State() == Catalogue.SyncSubjects(old(State()), b, names)
    {
      var wanted := CollectSubjects(names);
      if wanted != map[] {
        subjects := wanted + subjects;
        bookSubjects := bookSubjects + set n | n in wanted :: NameLink(b, n);
      }
    }

    method RefreshSeriesSearchText(b: BookId)
      requires b in books
      modifies this`books
      ensures books == old(books)[b := RefreshText(old(books)[b], Projection(NamesOn(shelf.State(), b)))]
    {
      var projection := Projection(NamesOn(shelf.State(), b));
      if projection != books[b].seriesText {
        books := books[b := books[b].(seriesText := projection, touched := books[b].touched + 1)];
      } else {
        assert books[b := books[b]] == books;
      }
    }

    method SyncSeries(b: BookId, candidates: seq<CleanBook>) returns (ok: bool)
      requires Sound(State()) && b in books
      modifies this`books, shelf
      ensures ok <==> Catalogue.SyncSeries(old(State()), b, candidates).Ok?
      ensures ok ==> Catalogue.SyncSeries(old(State()), b, candidates) == Ok(State())
      ensures !ok ==> Catalogue.SyncSeries(old(State()), b, candidates) == Err(MissingReference)
    {
      ok := shelf.SyncSeries(b, candidates, sources.Keys, books.Keys);
      if ok {
        hide Sync, Projection, NamesOn;
        RefreshSeriesSearchText(b);
      }
    }

    /** Write the canonical columns only if their fingerprint changed. */
    method WriteCanonical(b: BookId, merged: CleanBook, candidates: seq<CleanBook>, result: LoadResult)
      requires b in books
      modifies this`books, result
      ensures books == old(books)[b := Rewrite(old(books)[b], merged, candidates)]
      ensures result.Counted() == old(result.Counted()).Plus(RewriteCounts(old(books)[b], merged, candidates))
    {
      hide Columns;
      var row := books[b];
      var values := Columns(merged, candidates);
      var digest := Digest(merged.isbn13, values);
      if row.contentHash == digest {
        result.untouched := result.untouched + 1;
        assert books[b := row] == books;
      } else {
        books := books[b := row.(isbn13 := merged.isbn13, columns := values, contentHash := digest,
                                 touched := row.touched + 1)];
        // FindOrCreateBook has counted a stub already
        if row.contentHash != Unset {
          result.updated := result.updated + 1;
        }
      }
    }

    method Recompute(b: BookId, result: LoadResult) returns (error: Option<LoadError>)
      requires Sound(State()) && b in books
      modifies this, shelf, result
      ensures error.Some? ==> Catalogue.Recompute(old(State()), b) == Err(error.value)
      ensures error.None? ==> Catalogue.Recompute(old(State()), b).Ok?
      ensures error.None? ==> var done := Catalogue.Recompute(old(State()), b).value;
        State() == done.tables && result.Counted() == old(result.Counted()).Plus(done.counts)
    {
      hide Sound;
      ghost var before := State();
      var candidates := Replay(b);
      if candidates == [] {
        return None;
      }
      var merged := MergeByLoops(RekeyAll(candidates, books[b].identity), None);
      if merged.Err? {
        return Some(CannotMerge(merged.error));
      }
      RecomputeUnfolds(before, b, candidates, merged.value);
      hide Sound, Catalogue.Recompute, Candidates, MergedUnder, Catalogue.SyncSeries, Rewrite, RewriteCounts,
        Catalogue.SyncAuthors, Catalogue.SyncSubjects;
      WriteCanonical(b, merged.value, candidates, result);
      SyncAuthors(b, candidates);
      SyncSubjects(b, merged.value.subjects);
      assert State() == Linked(before, b, merged.value, candidates);
      var ok := SyncSeries(b, candidates);
      error := if ok then None else Some(MissingReference);
    }

    // -- one record

    /** On an error the tables are left part-written; only the transaction around it repairs that. */
    method LoadOne(r: Record, result: LoadResult) returns (error: Option<LoadError>)
      requires Sound(State())
      modifies this, shelf, result
      ensures error.Some? ==> Catalogue.LoadOne(old(State()), r) == Err(error.value)
      ensures error.None? ==> Catalogue.LoadOne(old(State()), r).Ok?
      ensures error.None? ==> var done := Catalogue.LoadOne(old(State()), r).value;
        Sound(State()) && State() == done.tables && result.Counted() == old(result.Counted()).Plus(done.counts)
    {
      ghost var before, counted := State(), result.Counted();
      LoadOneUnfolds(before, r);
      hide *;
      var b := FileRecord(r, result);
      error := Recompute(b, result);
      ghost var home, last := FindHome(before, r), Catalogue.Recompute(Filed(before, r), b);
      if error.None? {
        PlusRegroups(counted, Counts(home.inserted, 0, 0, 1, home.merges), last.value.counts);
      }
    }

    /** The record's provenance row, on the book it belongs to. */
    method FileRecord(r: Record, result: LoadResult) returns (b: BookId)
      requires Sound(State())
      modifies this, shelf, result
      ensures State() == Filed(old(State()), r) && Sound(State()) && b in books
      ensures var home := FindHome(old(State()), r);
        && b == home.book
        && result.Counted() == old(result.Counted()).Plus(Counts(home.inserted, 0, 0, 1, home.merges))
    {
      FiledIsSound(State(), r);
      hide FindHome, Sound;
      b := FindBook(r, result);
      UpsertSource(b, r, result);
    }

    /** A provenance row that already points somewhere is honoured. */
    method FindBook(r: Record, result: LoadResult) returns (b: BookId)
      requires Sound(State())
      modifies this, shelf, result
      ensures var home := FindHome(old(State()), r);
        && State() == home.tables && b == home.book
        && result.Counted() == old(result.Counted()).Plus(Counts(home.inserted, 0, 0, 0, home.merges))
    {
      if r.Key() in sources {
        b := sources[r.Key()].book;
        if r.book.isbn13.Some? {
          b := ReconcileIsbn(b, r, result);
        }
      } else {
        b := FindOrCreateBook(r, result);
      }
    }

    // -- one batch, one transaction

    method RunNext(batch: seq<Record>, i: nat, attempted: LoadResult, ghost before: Tables) returns (error: Option<LoadError>)
      requires i < |batch| && Sound(before) && Sound(State())
      requires Committed(before, batch[..i], State(), attempted.Counted())
      modifies this, shelf, attempted
      ensures error.None? ==> Sound(State()) && Committed(before, batch[..i+1], State(), attempted.Counted())
      ensures error.Some? ==> LoadAll(before, batch) == Err(error.value)
    {
      NextLoads(before, batch, i, State(), attempted.Counted());
      hide *;
      error := LoadOne(batch[i], attempted);
    }

    /** Run a batch's statements; a deadlock, if one is to strike, strikes before that many have run. */
    method RunTransaction(batch: seq<Record>, attempted: LoadResult, deadlock: Option<nat>) returns (failure: Option<BatchError>)
      requires Sound(State()) && attempted.Counted() == ZERO
      modifies this, shelf, attempted
      ensures failure.None? ==> Sound(State()) && Committed(old(State()), batch, State(), attempted.Counted())
      ensures failure.Some? && failure.value.Failed? ==> LoadAll(old(State()), batch) == Err(failure.value.error)
      ensures failure == Some(Deadlocked) ==> deadlock.Some?
      ensures deadlock.Some? ==> failure.Some?
    {
      ghost var before := State();
      NothingLoaded(before);
      for i := 0 to |batch|
        invariant Sound(State())
        invariant deadlock.Some? ==> i <= deadlock.value || i == 0
        invariant Committed(before, batch[..i], State(), attempted.Counted())
      {
        if deadlock.Some? && deadlock.value <= i {
          return Some(Deadlocked);
        }
        hide *;
        var error := RunNext(batch, i, attempted, before);
        if error.Some? {
          return Some(Failed(error.value));
        }
      }
      assert batch[..|batch|] == batch;
      failure := if deadlock.Some? then Some(Deadlocked) else None;
    }

    /**
     * Counts are added to the total only once the transaction commits; a batch that loses a
     * deadlock is rolled back and replayed, up to four times.
     */
    method LoadBatch(batch: seq<Record>, total: LoadResult, deadlocks: seq<Option<nat>>) returns (failure: Option<BatchError>)
      requires Sound(State())
      modifies this, shelf, total
      ensures Sound(State())
      ensures failure.None? ==> LoadAll(old(State()), batch).Ok?
      ensures failure.None? ==> var done := LoadAll(old(State()), batch).value;
        State() == done.tables && total.Counted() == old(total.Counted()).Plus(done.counts)
      ensures failure.Some? ==> State() == old(State()) && total.Counted() == old(total.Counted())
      ensures failure.Some? && failure.value.Failed? ==> LoadAll(old(State()), batch) == Err(failure.value.error)
      ensures failure == Some(Deadlocked) ==> !Spared(deadlocks)
      ensures LoadAll(old(State()), batch).Ok? && Spared(deadlocks) ==> failure.None?
      ensures !Spared(deadlocks) ==> failure.Some?
    {
      hide LoadAll, Sound;
      var began := State();
      failure := Some(Deadlocked);
      for attempt := 0 to DEADLOCK_RETRIES + 1
        invariant State() == began && total.Counted() == old(total.Counted())
        invariant failure == Some(Deadlocked)
        invariant forall k :: 0 <= k < attempt ==> StruckAt(deadlocks, k).Some?
      {
        var attempted := new LoadResult();
        failure := RunTransaction(batch, attempted, StruckAt(deadlocks, attempt));
        if failure.None? {
          total.Add(attempted);
          return;
        }
        Rollback(began);
        if failure != Some(Deadlocked) {
          return;
        }
      }
    }

    // -- a whole load

    /**
     * Batches of at most the configured size, a transaction each. Whatever fails, the batches
     * before it stay committed and nothing of it does.
     */
    method Load(records: seq<Record>, deadlocks: seq<seq<Option<nat>>>)
      returns (total: LoadResult, loaded: nat, failure: Option<BatchError>)
      requires Sound(State()) && 0 < batchSize
      modifies this, shelf
      ensures fresh(total)
      ensures Sound(State())
      ensures loaded <= |records| && (failure.None? <==> loaded == |records|)
      ensures LoadAll(old(State()), records[..loaded]) == Ok(Loaded(State(), total.Counted()))
      ensures failure.Some? && failure.value.Failed? ==> LoadAll(old(State()), records).Err?
      ensures LoadAll(old(State()), records).Ok? && (forall d :: d in deadlocks ==> Spared(d)) ==> failure.None?
    {
      hide LoadAll, Sound;
      ghost var before := State();
      NothingLoaded(before);
      total := new LoadResult();
      loaded, failure := 0, None;
      var n := 0;
      while loaded < |records|
        invariant fresh(total) && Sound(State()) && loaded <= |records| && failure.None?
        invariant LoadAll(before, records[..loaded]) == Ok(Loaded(State(), total.Counted()))
        decreases |records| - loaded
      {
        var next := if loaded + batchSize < |records| then loaded + batchSize else |records|;
        var batch := records[loaded..next];
        BatchJoins(before, records, loaded, next, Loaded(State(), total.Counted()));
        assert Spared([]) by { assert StruckAt([], 0).None?; }
        failure := LoadBatch(batch, total, if n < |deadlocks| then deadlocks[n] else []);
        if failure.Some? {
          return;
        }
        loaded, n := next, n + 1;
      }
    }
  }

  lemma NextLoads(t: Tables, rs: seq<Record>, i: nat, now: Tables, counted: Counts)
    requires Sound(t) && i < |rs| && Sound(now) && Committed(t, rs[..i], now, counted)
    ensures References(now)
    ensures var last := LoadOne(now, rs[i]);
      && (last.Ok? ==> Committed(t, rs[..i+1], last.value.tables, counted.Plus(last.value.counts)))
      && (last.Err? ==> LoadAll(t, rs) == Err(last.error))
  {
    hide LoadAll, LoadOne;
    assert rs[..i] + [rs[i]] == rs[..i+1];
    LoadAllStep(t, rs[..i], rs[i]);
    if LoadOne(now, rs[i]).Err? {
      ErrorSpreads(t, rs, i + 1);
    }
  }

  lemma BatchJoins(t: Tables, rs: seq<Record>, i: nat, j: nat, a: Loaded)
    requires Sound(t) && i <= j <= |rs| && LoadAll(t, rs[..i]) == Ok(a) && Sound(a.tables)
    ensures var last := LoadAll(a.tables, rs[i..j]);
      && (last.Ok? ==> LoadAll(t, rs[..j]) == Ok(Loaded(last.value.tables, a.counts.Plus(last.value.counts))))
      && (last.Err? ==> LoadAll(t, rs).Err?)
  {
    hide LoadAll, Sound;
    LoadAllInParts(t, rs[..i], rs[i..j]);
    assert rs[..i] + rs[i..j] == rs[..j];
    if LoadAll(t, rs[..j]).Err? {
      ErrorSpreads(t, rs, j);
    }
  }

  /** Between the rewrite and the attachment of series, and what is left to do from there. */
  lemma RecomputeUnfolds(t: Tables, b: BookId, cs: seq<CleanBook>, merged: CleanBook)
    requires Sound(t) && b in t.books
    requires cs == Candidates(t.sources, b) && cs != []
    requires MergedUnder(t.books[b].identity, cs) == Ok(merged)
    ensures var mid := Linked(t, b, merged, cs);
      && Sound(mid) && b in mid.books
      && (Catalogue.SyncSeries(mid, b, cs).Err? ==>
            Recompute(t, b) == Err(Catalogue.SyncSeries(mid, b, cs).error))
      && (Catalogue.SyncSeries(mid, b, cs).Ok? ==>
            Recompute(t, b) == Ok(Loaded(Catalogue.SyncSeries(mid, b, cs).value,
                                         RewriteCounts(t.books[b], merged, cs))))
  {
    MergeUnderIdentity(t.books[b].identity, cs);
    LinkedIsSound(t, b, merged, cs);
  }

  lemma FiledIsSound(t: Tables, r: Record)
    requires Sound(t)
    ensures Sound(Filed(t, r)) && FindHome(t, r).book in Filed(t, r).books
  {
    FindHomeIsSound(t, r);
    UpsertIsSound(FindHome(t, r).tables, FindHome(t, r).book, r);
  }

  lemma LoadOneUnfolds(t: Tables, r: Record)
    requires Sound(t)
    ensures FindHome(t, r).book in Filed(t, r).books
    ensures var h := FindHome(t, r); var last := Recompute(Filed(t, r), h.book);
      && (last.Err? ==> LoadOne(t, r) == Err(last.error))
      && (last.Ok? ==>
            && LoadOne(t, r) == Ok(Loaded(last.value.tables,
                                          last.value.counts.Plus(Counts(h.inserted, 0, 0, 1, h.merges))))
            && Sound(last.value.tables))
  {
    FiledIsSound(t, r);
    HomeIsABook(t, r);
    if Recompute(Filed(t, r), FindHome(t, r).book).Ok? {
      RecomputeIsSound(Filed(t, r), FindHome(t, r).book);
    }
    LoadOneIsRecompute(t, r);
  }

  lemma PlusRegroups(a: Counts, b: Counts, c: Counts)
    ensures a.Plus(b).Plus(c) == a.Plus(c.Plus(b))
  {
  }

  lemma LoadOneIsRecompute(t: Tables, r: Record)
    requires References(t) && FindHome(t, r).book in Filed(t, r).books
    ensures var h := FindHome(t, r); var last := Recompute(Filed(t, r), h.book);
      && (last.Err? ==> LoadOne(t, r) == Err(last.error))
      && (last.Ok? ==> LoadOne(t, r) == Ok(Loaded(last.value.tables,
                                                  last.value.counts.Plus(Counts(h.inserted, 0, 0, 1, h.merges)))))
  {
    hide FindHome, Recompute, References;
  }

  function Deleted(t: Tables, b: BookId): Tables {
    t.(books := t.books - {b},
       sources := map k | k in t.sources && t.sources[k].book != b :: t.sources[k],
       bookAuthors := map l | l in t.bookAuthors && l.book != b :: t.bookAuthors[l],
       bookSubjects := (set l | l in t.bookSubjects && l.book != b),
       shelf := DropBook(t.shelf, b))
  }

  /** Once the links have moved, the cascade finds nothing of the orphan's to take. */
  lemma MovedBeforeDeleting(before: Tables, moved: Tables, survivor: BookId, orphan: BookId)
    requires survivor != orphan
    requires moved == before.(sources := moved.sources, bookAuthors := moved.bookAuthors, bookSubjects := moved.bookSubjects)
    requires moved.sources == Resettle(before.sources, survivor, orphan)
    requires moved.bookAuthors == MoveAuthors(before.bookAuthors, survivor, orphan)
    requires moved.bookSubjects == MoveSubjects(before.bookSubjects, survivor, orphan)
    ensures Deleted(moved, orphan) == MergeBooks(before, survivor, orphan)
  {
    var d, m := Deleted(moved, orphan), MergeBooks(before, survivor, orphan);
    assert d.sources == m.sources;
    assert d.bookAuthors == m.bookAuthors;
    assert d.bookSubjects == m.bookSubjects;
  }
}
