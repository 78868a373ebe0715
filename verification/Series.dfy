// Series rows, the books on them, and who said so.

module Series {
  import opened Ordering
  import opened Domain

  type BookId = nat

  datatype SeriesRow = SeriesRow(name: SeriesName, normalised: string)

  datatype Link = Link(book: BookId, series: SeriesKey)

  /** What the merged opinion says about one book in one series. */
  datatype Place = Place(position: Option<real>, confirmed: bool)

  datatype SourceSeries = SourceSeries(source: Source, id: string)

  datatype AccountKey = AccountKey(source: Source, bookSourceId: string, seriesId: string)

  /** One source's own, unmerged account of one book in one series. */
  datatype Account = Account(book: BookId, series: SeriesKey, position: Option<real>, confirmed: bool)

  /** The four series tables. A row is addressed by its unique identity key. */
  datatype Shelf = Shelf(
    series: map<SeriesKey, SeriesRow>,
    places: map<Link, Place>,
    sources: map<SourceSeries, SeriesKey>,
    accounts: map<AccountKey, Account>)

  const EMPTY_SHELF := Shelf(map[], map[], map[], map[])

  /** A name-derived row keeps the name it was derived from. */
  ghost predicate Keyed(s: Shelf) {
    forall k :: k in s.series && k.Named? ==> s.series[k].normalised == k.normalised
  }

  ghost predicate ForeignKeys(s: Shelf, books: set<BookId>, known: set<Key>) {
    && (forall l :: l in s.places ==> l.book in books && l.series in s.series)
    && (forall r :: r in s.sources ==> s.sources[r] in s.series)
    && (forall a :: a in s.accounts ==>
          && Key(a.source, a.bookSourceId) in known
          && SourceSeries(a.source, a.seriesId) in s.sources
          && Link(s.accounts[a].book, s.accounts[a].series) in s.places)
  }

  function Coalesce<T>(first: Option<T>, second: Option<T>): Option<T> {
    if first.Some? then first else second
  }

  // ----- what the candidates say

  /** One membership as one record states it. */
  datatype Mention = Mention(who: Key, key: SeriesKey, said: Membership)
  {
    /** Only a series named by a source's own confirmed id folds the inferred row into itself. */
    predicate Absorbs(k: SeriesKey) {
      key.FromSource? && k == Named(said.normalised)
    }

    function Row(): SeriesRow {
      SeriesRow(said.name, said.normalised)
    }
  }

  predicate WellKeyed(x: Mention) {
    x.key == x.said.Key(x.who.source)
  }

  function MentionsOf(c: CleanBook): (ms: seq<Mention>)
    ensures |ms| == |c.series|
    ensures forall i :: 0 <= i < |ms| ==> ms[i] == Mention(KeyOf(c), c.series[i].Key(c.source), c.series[i])
  {
    seq(|c.series|, i requires 0 <= i < |c.series| =>
      Mention(KeyOf(c), c.series[i].Key(c.source), c.series[i]))
  }

  function Mentions(cs: seq<CleanBook>): (ms: seq<Mention>)
    ensures forall x :: x in ms ==> WellKeyed(x) && exists c :: c in cs && x.who == KeyOf(c) && x.said in c.series
  {
    if cs == [] then [] else
      var rest := Mentions(cs[1..]);
      var ms := MentionsOf(cs[0]) + rest;
      assert forall x :: x in ms ==> x in MentionsOf(cs[0]) || x in rest;
      ms
  }

  // ----- one opinion per series

  predicate HasKey(ps: seq<Mention>, k: SeriesKey) {
    exists p :: p in ps && p.key == k
  }

  function IndexOf(ps: seq<Mention>, k: SeriesKey): (i: nat)
    requires HasKey(ps, k)
    ensures i < |ps| && ps[i].key == k
  {
    if ps[0].key == k then 0 else
      assert forall p :: p in ps ==> p == ps[0] || p in ps[1..];
      1 + IndexOf(ps[1..], k)
  }

  function Consider(best: seq<Mention>, x: Mention): seq<Mention> {
    if !HasKey(best, x.key) then best + [x]
    else
      var i := IndexOf(best, x.key);
      if x.said.confirmed && !best[i].said.confirmed then best[i := x] else best
  }

  /** The first mention of each series, unless a later one is the first to be confirmed. */
  function Best(ms: seq<Mention>): seq<Mention> {
    if ms == [] then [] else Consider(Best(ms[..|ms|-1]), ms[|ms|-1])
  }

  ghost predicate UniqueKeys(ps: seq<Mention>) {
    forall i, j :: 0 <= i < j < |ps| ==> ps[i].key != ps[j].key
  }

  lemma {:induction false} BestIsOnePerSeries(ms: seq<Mention>)
    ensures UniqueKeys(Best(ms))
    ensures forall p :: p in Best(ms) ==> p in ms
    ensures forall x :: x in ms ==> HasKey(Best(ms), x.key)
  {
    if ms != [] {
      var init, x := ms[..|ms|-1], ms[|ms|-1];
      BestIsOnePerSeries(init);
      assert ms == init + [x];
      var best := Best(init);
      var r := Consider(best, x);
      if HasKey(best, x.key) {
        var i := IndexOf(best, x.key);
        if r != best {
          forall y | y in ms ensures HasKey(r, y.key) {
            if y.key == x.key {
              assert r[i] == x && x in r;
            } else {
              var j :| 0 <= j < |best| && best[j].key == y.key;
              assert r[j] == best[j] && r[j] in r;
            }
          }
        }
      } else {
        assert x in r;
        forall y | y in ms ensures HasKey(r, y.key) {
          if y != x {
            var p :| p in best && p.key == y.key;
            assert p in r;
          }
        }
      }
    }
  }

  /** The first mention of its series to be confirmed, or the first of all when none is. */
  ghost predicate Chosen(ms: seq<Mention>, i: nat) {
    && i < |ms|
    && (forall j :: 0 <= j < i && ms[j].key == ms[i].key ==> ms[i].said.confirmed && !ms[j].said.confirmed)
    && (!ms[i].said.confirmed ==> forall j :: 0 <= j < |ms| && ms[j].key == ms[i].key ==> !ms[j].said.confirmed)
  }

  /** Evidence replaces a guess, and nothing else replaces anything. */
  lemma {:induction false} BestPrefersEvidence(ms: seq<Mention>, p: Mention)
    requires p in Best(ms)
    ensures exists i: nat :: Chosen(ms, i) && ms[i] == p
    decreases |ms|, 0
  {
    var init, x := ms[..|ms|-1], ms[|ms|-1];
    var best := Best(init);
    BestIsOnePerSeries(init);
    if p == x && (!HasKey(best, x.key) || (x.said.confirmed && !best[IndexOf(best, x.key)].said.confirmed)) {
      LastIsChosen(ms);
    } else {
      KeptPick(best, x, p);
      BestPrefersEvidence(init, p);
      var i: nat :| Chosen(init, i) && init[i] == p;
      StillChosen(ms, i);
    }
  }

  lemma KeptPick(best: seq<Mention>, x: Mention, p: Mention)
    requires p in Consider(best, x) && UniqueKeys(best)
    requires p != x || (HasKey(best, x.key) && !(x.said.confirmed && !best[IndexOf(best, x.key)].said.confirmed))
    ensures p in best
    ensures p.key == x.key ==> p.said.confirmed || !x.said.confirmed
  {
    var i: nat :| i < |Consider(best, x)| && Consider(best, x)[i] == p;
    if HasKey(best, x.key) {
      var k := IndexOf(best, x.key);
      if p.key == x.key {
        assert p in best;
      }
    }
  }

  lemma {:induction false} LastIsChosen(ms: seq<Mention>)
    requires ms != []
    requires var best := Best(ms[..|ms|-1]); var x := ms[|ms|-1];
      !HasKey(best, x.key) || (x.said.confirmed && !best[IndexOf(best, x.key)].said.confirmed)
    ensures Chosen(ms, |ms| - 1)
    decreases |ms| - 1, 2
  {
    var init, x := ms[..|ms|-1], ms[|ms|-1];
    BestIsOnePerSeries(init);
    forall j | 0 <= j < |init| && init[j].key == x.key
      ensures x.said.confirmed && !init[j].said.confirmed
    {
      assert HasKey(Best(init), init[j].key);
      NoEvidenceYet(init, x.key, init[j]);
    }
  }

  /** An unconfirmed pick means no mention of its series so far is confirmed. */
  lemma {:induction false} NoEvidenceYet(ms: seq<Mention>, k: SeriesKey, y: Mention)
    requires HasKey(Best(ms), k) && !Best(ms)[IndexOf(Best(ms), k)].said.confirmed
    requires y in ms && y.key == k
    ensures !y.said.confirmed
    decreases |ms|, 1
  {
    var p := Best(ms)[IndexOf(Best(ms), k)];
    BestPrefersEvidence(ms, p);
    var i: nat :| Chosen(ms, i) && ms[i] == p;
  }

  lemma StillChosen(ms: seq<Mention>, i: nat)
    requires ms != [] && Chosen(ms[..|ms|-1], i)
    requires ms[|ms|-1].key == ms[i].key ==> ms[i].said.confirmed || !ms[|ms|-1].said.confirmed
    ensures Chosen(ms, i)
  {
    var init := ms[..|ms|-1];
    assert forall j :: 0 <= j < |init| ==> init[j] == ms[j];
  }

  // ----- shelving one pick

  /** The canonical row, whoever reported it; a repeat only refreshes its comparison form. */
  function UpsertRow(s: Shelf, p: Mention): Shelf {
    s.(series := s.series[p.key :=
      if p.key in s.series then s.series[p.key].(normalised := p.said.normalised) else p.Row()])
  }

  /** A membership on both rows keeps the position either knows and the confirmation either has. */
  function Join(kept: Place, moved: Place): Place {
    Place(Coalesce(kept.position, moved.position), kept.confirmed || moved.confirmed)
  }

  function MovedPlace(places: map<Link, Place>, survivor: SeriesKey, inferred: SeriesKey, l: Link): Place
    requires l in places || (l.series == survivor && Link(l.book, inferred) in places)
  {
    var from := Link(l.book, inferred);
    if l.series == survivor && from in places then
      (if l in places then Join(places[l], places[from]) else places[from])
    else places[l]
  }

  /** Fold the inferred row, if there is one, into the row a source has now named. */
  function Absorb(s: Shelf, survivor: SeriesKey, normalised: string): Shelf
    requires survivor.FromSource?
  {
    var inferred := Named(normalised);
    if inferred !in s.series then s else
      var landed := set l | l in s.places && l.series == inferred :: Link(l.book, survivor);
      Shelf(
        s.series - {inferred},
        map l | l in s.places.Keys + landed && l.series != inferred ::
          MovedPlace(s.places, survivor, inferred, l),
        map r | r in s.sources :: if s.sources[r] == inferred then survivor else s.sources[r],
        map a | a in s.accounts ::
          if s.accounts[a].series == inferred then s.accounts[a].(series := survivor) else s.accounts[a])
  }

  function UpsertSeries(s: Shelf, p: Mention): Shelf {
    var t := UpsertRow(s, p);
    if p.key.FromSource? then Absorb(t, p.key, p.said.normalised) else t
  }

  /** A null position cannot blank a known one, and confirmation is never withdrawn. */
  function Placed(was: Option<Place>, said: Membership): Place {
    if was.None? then Place(said.position, said.confirmed)
    else Place(Coalesce(said.position, was.value.position), was.value.confirmed || said.confirmed)
  }

  function Lookup<K(==), V>(m: map<K, V>, k: K): Option<V> {
    if k in m then Some(m[k]) else None
  }

  function LinkBook(s: Shelf, b: BookId, p: Mention): Shelf {
    var l := Link(b, p.key);
    s.(places := s.places[l := Placed(Lookup(s.places, l), p.said)])
  }

  function ShelveOne(s: Shelf, b: BookId, p: Mention): Shelf {
    LinkBook(UpsertSeries(s, p), b, p)
  }

  function Shelve(s: Shelf, b: BookId, ps: seq<Mention>): Shelf {
    if ps == [] then s else ShelveOne(Shelve(s, b, ps[..|ps|-1]), b, ps[|ps|-1])
  }

  // ----- recording who said what

  datatype Outcome<+T> = Done(value: T) | ForeignKeyViolation

  function AccountKeyOf(x: Mention): AccountKey {
    AccountKey(x.who.source, x.who.sourceId, if x.said.HasId() then x.said.sourceSeriesId.value else "")
  }

  function SourceSeriesOf(x: Mention): SourceSeries {
    SourceSeries(x.who.source, if x.said.HasId() then x.said.sourceSeriesId.value else "")
  }

  function AccountOf(b: BookId, x: Mention): Account {
    Account(b, x.key, x.said.position, x.said.confirmed)
  }

  /** A mention without the source's own series id leaves no provenance. */
  function AttributeOne(s: Shelf, b: BookId, known: set<Key>, x: Mention): Outcome<Shelf> {
    if !x.said.HasId() then Done(s)
    else if x.key !in s.series then ForeignKeyViolation
    else if x.who !in known || Link(b, x.key) !in s.places then ForeignKeyViolation
    else Done(s.(sources := s.sources[SourceSeriesOf(x) := x.key],
                 accounts := s.accounts[AccountKeyOf(x) := AccountOf(b, x)]))
  }

  function Attribute(s: Shelf, b: BookId, known: set<Key>, ms: seq<Mention>): Outcome<Shelf> {
    if ms == [] then Done(s)
    else match Attribute(s, b, known, ms[..|ms|-1])
      case ForeignKeyViolation => ForeignKeyViolation
      case Done(t) => AttributeOne(t, b, known, ms[|ms|-1])
  }

  /** One book's series: shelve the picks, then record what each source said. */
  function Sync(s: Shelf, b: BookId, known: set<Key>, ms: seq<Mention>): Outcome<Shelf> {
    Attribute(Shelve(s, b, Best(ms)), b, known, ms)
  }

  // ----- the search projection

  function NamesOn(s: Shelf, b: BookId): set<SeriesName> {
    set l | l in s.places && l.book == b && l.series in s.series :: s.series[l.series].name
  }

  function Folds(names: set<SeriesName>): set<string> {
    set n | n in names && n.folded.Some? :: n.folded.value
  }

  function Displays(names: set<SeriesName>, fold: string): set<string> {
    set n | n in names && n.folded == Some(fold) :: n.display
  }

  function Render(names: set<SeriesName>, folds: seq<string>): string
    requires forall f :: f in folds ==> f in Folds(names)
  {
    if folds == [] then "" else
      LexIsTotalOrder();
      assert Displays(names, folds[0]) != {} by {
        assert folds[0] in Folds(names);
        var n :| n in names && n.folded == Some(folds[0]);
        assert n.display in Displays(names, folds[0]);
      }
      var first := Least(Displays(names, folds[0]), LexLe);
      if |folds| == 1 then first else first + " " + Render(names, folds[1..])
  }

  /** One term per comparison form, the least display of it, in order of the forms. */
  function Projection(names: set<SeriesName>): string {
    LexIsTotalOrder();
    Render(names, Arrange(Folds(names), LexLe))
  }
}
