// What the series tables hold once a book's series are attached, pick by pick and account by account.

module Shelving {
  import opened Ordering
  import opened Domain
  import opened Series
  import opened SeriesProofs
  import opened Ranking

  // ----- every membership is mentioned

  /** The series a membership belongs to: the source's own id when confirmed, otherwise the name. */
  ghost predicate Names(source: Source, m: Membership, k: SeriesKey) {
    match m.sourceSeriesId
    case None => k == Named(m.normalised)
    case Some(id) => k == if m.confirmed && id != "" then FromSource(source, id) else Named(m.normalised)
  }

  lemma {:induction false} MentionsJoin(xs: seq<CleanBook>, ys: seq<CleanBook>)
    ensures Mentions(xs + ys) == Mentions(xs) + Mentions(ys)
  {
    if xs == [] {
      assert xs + ys == ys;
    } else {
      assert (xs + ys)[1..] == xs[1..] + ys;
      MentionsJoin(xs[1..], ys);
    }
  }

  /** Candidate by candidate, every membership is mentioned in turn, under its source's name for the book. */
  lemma EveryMembershipIsMentioned(before: seq<CleanBook>, c: CleanBook, after: seq<CleanBook>, i: nat)
    requires i < |c.series|
    ensures var ms := Mentions(before + [c] + after); var at := |Mentions(before)| + i;
      && at < |ms| && ms[at].who == Key(c.source, c.sourceId) && ms[at].said == c.series[i]
      && Names(c.source, c.series[i], ms[at].key)
      && |ms| == |Mentions(before)| + |c.series| + |Mentions(after)|
  {
    MentionsJoin(before + [c], after);
    MentionsJoin(before, [c]);
    MentionsOfOne(c);
    hide Mentions;
    var own := MentionsOf(c);
    assert Mentions(before + [c] + after) == Mentions(before) + own + Mentions(after);
    assert own[i] == Mention(KeyOf(c), c.series[i].Key(c.source), c.series[i]);
  }

  lemma MentionsOfOne(c: CleanBook)
    ensures Mentions([c]) == MentionsOf(c)
  {
    assert [c][1..] == [];
  }

  // ----- one fold

  /**
   * A place holds the position stated, else the one it had, else the one brought to it; and is
   * confirmed if any of the three is.
   */
  ghost predicate Informed(place: Place, position: Option<real>, confirmed: bool, had: Option<Place>, brought: Option<Place>) {
    && (position.Some? ==> place.position == position)
    && (position.None? && had.Some? && had.value.position.Some? ==> place.position == had.value.position)
    && (position.None? && !(had.Some? && had.value.position.Some?) ==>
          place.position == if brought.Some? then brought.value.position else None)
    && (place.confirmed <==>
          confirmed || (had.Some? && had.value.confirmed) || (brought.Some? && brought.value.confirmed))
  }

  /** Where every membership goes when an inferred row is folded, and what it then says. */
  lemma AbsorbedPlaces(s: Shelf, survivor: SeriesKey, n: string, l: Link)
    requires survivor.FromSource? && PlacesHaveRows(s)
    ensures var t := Absorb(s, survivor, n); var from := Link(l.book, Named(n));
      && Named(n) !in t.series && (l.series == Named(n) ==> l !in t.places)
      && (l.series == survivor ==>
            && (l in t.places <==> l in s.places || from in s.places)
            && (l in t.places ==> Informed(t.places[l], None, false, Lookup(s.places, l), Lookup(s.places, from))))
      && (l.series != survivor && l.series != Named(n) ==> Lookup(t.places, l) == Lookup(s.places, l))
      && (forall k :: k != Named(n) ==> Lookup(t.series, k) == Lookup(s.series, k))
  {
  }

  // ----- one pick

  predicate FoldsAway(p: Mention, k: SeriesKey) {
    p.key.FromSource? && k == Named(p.said.normalised)
  }

  ghost function Brought(s: Shelf, b: BookId, p: Mention): Option<Place> {
    if p.key.FromSource? then Lookup(s.places, Link(b, Named(p.said.normalised))) else None
  }

  lemma ShelvedPlace(s: Shelf, b: BookId, p: Mention)
    requires PlacesHaveRows(s)
    ensures var t := ShelveOne(s, b, p); var l := Link(b, p.key);
      && l in t.places
      && Informed(t.places[l], p.said.position, p.said.confirmed, Lookup(s.places, l), Brought(s, b, p))
      && p.key in t.series
      && t.series[p.key] == SeriesRow(if p.key in s.series then s.series[p.key].name else p.said.name, p.said.normalised)
  {
    var u := UpsertRow(s, p);
    if p.key.FromSource? {
      AbsorbedPlaces(u, p.key, p.said.normalised, Link(b, p.key));
    }
    hide Absorb;
  }

  /** A pick leaves alone a series that is neither its own nor the one it folds. */
  lemma OthersStand(s: Shelf, b: BookId, p: Mention, c: BookId, k: SeriesKey)
    requires PlacesHaveRows(s) && p.key != k && !FoldsAway(p, k)
    ensures var t := ShelveOne(s, b, p);
      Lookup(t.places, Link(c, k)) == Lookup(s.places, Link(c, k)) && Lookup(t.series, k) == Lookup(s.series, k)
  {
    var u := UpsertRow(s, p);
    if p.key.FromSource? {
      AbsorbedPlaces(u, p.key, p.said.normalised, Link(c, k));
    }
    hide Absorb;
  }

  /** Another book gains or keeps a place on the pick's series only by the fold. */
  lemma OthersFolded(s: Shelf, b: BookId, p: Mention, c: BookId)
    requires PlacesHaveRows(s) && c != b
    ensures var t := ShelveOne(s, b, p); var l := Link(c, p.key);
      && (l in t.places <==> l in s.places || Brought(s, c, p).Some?)
      && (l in t.places ==> Informed(t.places[l], None, false, Lookup(s.places, l), Brought(s, c, p)))
  {
    var u := UpsertRow(s, p);
    if p.key.FromSource? {
      AbsorbedPlaces(u, p.key, p.said.normalised, Link(c, p.key));
    }
    hide Absorb;
  }

  lemma FoldedIsGone(s: Shelf, b: BookId, p: Mention, k: SeriesKey)
    requires PlacesHaveRows(s) && FoldsAway(p, k)
    ensures k !in ShelveOne(s, b, p).series && forall c :: Link(c, k) !in ShelveOne(s, b, p).places
  {
    forall c ensures Link(c, k) !in ShelveOne(s, b, p).places {
      AbsorbedPlaces(UpsertRow(s, p), p.key, p.said.normalised, Link(c, k));
    }
    AbsorbedPlaces(UpsertRow(s, p), p.key, p.said.normalised, Link(b, k));
    hide Absorb;
  }

  // ----- all of a book's picks

  lemma {:induction false} StandsThrough(s: Shelf, b: BookId, ps: seq<Mention>, i: nat, c: BookId, k: SeriesKey)
    requires PlacesHaveRows(s) && i <= |ps|
    requires forall j :: i <= j < |ps| ==> ps[j].key != k && !FoldsAway(ps[j], k)
    ensures Lookup(Shelve(s, b, ps).places, Link(c, k)) == Lookup(Shelve(s, b, ps[..i]).places, Link(c, k))
    ensures Lookup(Shelve(s, b, ps).series, k) == Lookup(Shelve(s, b, ps[..i]).series, k)
  {
    if i == |ps| {
      assert ps[..i] == ps;
    } else {
      var init := ps[..|ps|-1];
      assert init[..i] == ps[..i];
      StandsThrough(s, b, init, i, c, k);
      ShelveRow(s, b, init, k);
      OthersStand(Shelve(s, b, init), b, ps[|ps|-1], c, k);
    }
  }

  lemma ShelveNext(s: Shelf, b: BookId, ps: seq<Mention>, i: nat)
    requires i < |ps|
    ensures Shelve(s, b, ps[..i + 1]) == ShelveOne(Shelve(s, b, ps[..i]), b, ps[i])
  {
    assert ps[..i + 1][..i] == ps[..i];
  }

  lemma NothingShelved(s: Shelf, b: BookId, ps: seq<Mention>)
    ensures Shelve(s, b, ps[..0]) == s
  {
  }

  /** What a book has on a series before its `i`th pick, when no earlier pick is of that series. */
  lemma PlaceBefore(s: Shelf, b: BookId, ps: seq<Mention>, i: nat, k: SeriesKey)
    requires PlacesHaveRows(s) && i <= |ps| && forall j :: 0 <= j < i ==> ps[j].key != k
    ensures Lookup(Shelve(s, b, ps[..i]).places, Link(b, k)) ==
      if exists j :: 0 <= j < i && FoldsAway(ps[j], k) then None else Lookup(s.places, Link(b, k))
    ensures Lookup(Shelve(s, b, ps[..i]).series, k) ==
      if exists j :: 0 <= j < i && FoldsAway(ps[j], k) then None else Lookup(s.series, k)
    decreases i
  {
    hide Shelve, ShelveOne;
    if i == 0 {
      NothingShelved(s, b, ps);
    } else {
      var init, p := ps[..i - 1], ps[i - 1];
      PlaceBefore(s, b, ps, i - 1, k);
      ShelveNext(s, b, ps, i - 1);
      ShelveRow(s, b, init, k);
      if FoldsAway(p, k) {
        FoldedIsGone(Shelve(s, b, init), b, p, k);
      } else {
        OthersStand(Shelve(s, b, init), b, p, b, k);
      }
    }
  }

  /**
   * Once a book's picks are shelved, its place on each series that no later pick folds away
   * exists, holds exactly the position the pick states, and failing that the one it had or the
   * one brought by a fold; and it is confirmed exactly when one of these is. The series row keeps
   * its first name and takes the pick's comparison form.
   */
  lemma PickLands(s: Shelf, b: BookId, ps: seq<Mention>, i: nat)
    requires PlacesHaveRows(s) && UniqueKeys(ps) && i < |ps|
    requires forall j :: i < j < |ps| ==> !FoldsAway(ps[j], ps[i].key)
    ensures var t, mid := Shelve(s, b, ps), Shelve(s, b, ps[..i]); var p := ps[i]; var l := Link(b, p.key);
      && l in t.places
      && Informed(t.places[l], p.said.position, p.said.confirmed, Lookup(mid.places, l), Brought(mid, b, p))
      && p.key in t.series
      && t.series[p.key] == SeriesRow(if p.key in mid.series then mid.series[p.key].name else p.said.name, p.said.normalised)
  {
    var p := ps[i];
    ShelveRow(s, b, ps[..i], p.key);
    ShelveNext(s, b, ps, i);
    ShelvedPlace(Shelve(s, b, ps[..i]), b, p);
    StandsThrough(s, b, ps, i + 1, b, p.key);
  }

  ghost predicate FoldedBetween(ps: seq<Mention>, i: nat, j: nat, k: SeriesKey) {
    exists m :: i <= m < j <= |ps| && FoldsAway(ps[m], k)
  }

  /** What the book had on a series to begin with, unless a pick before the `i`th has folded the series. */
  ghost function Had(s: Shelf, b: BookId, ps: seq<Mention>, i: nat, k: SeriesKey): Option<Place> {
    if FoldedBetween(ps, 0, i, k) then None else Lookup(s.places, Link(b, k))
  }

  /** What a pick of an inferred series makes of what the book had on it. */
  ghost predicate MadeOf(s: Shelf, b: BookId, ps: seq<Mention>, j: nat, brought: Option<Place>)
    requires j < |ps|
  {
    && brought.Some?
    && Informed(brought.value, ps[j].said.position, ps[j].said.confirmed, Had(s, b, ps, j, ps[j].key), None)
  }

  /**
   * What the `i`th pick's fold brings: what the book had on the inferred series, or what an
   * earlier pick made of that; nothing when the series has already been folded.
   */
  ghost predicate Carried(s: Shelf, b: BookId, ps: seq<Mention>, i: nat, brought: Option<Place>)
    requires i < |ps|
  {
    if !ps[i].key.FromSource? then brought == None else
      var k := Named(ps[i].said.normalised);
      && ((forall j :: 0 <= j < i ==> ps[j].key != k) ==> brought == Had(s, b, ps, i, k))
      && (forall j :: 0 <= j < i && ps[j].key == k ==>
            if FoldedBetween(ps, j + 1, i, k) then brought == None
            else MadeOf(s, b, ps, j, brought))
  }

  lemma HadIs(s: Shelf, b: BookId, ps: seq<Mention>, i: nat, k: SeriesKey)
    requires PlacesHaveRows(s) && i <= |ps| && forall j :: 0 <= j < i ==> ps[j].key != k
    ensures Lookup(Shelve(s, b, ps[..i]).places, Link(b, k)) == Had(s, b, ps, i, k)
  {
    PlaceBefore(s, b, ps, i, k);
    assert FoldedBetween(ps, 0, i, k) <==> exists j :: 0 <= j < i && FoldsAway(ps[j], k);
  }

  lemma {:induction false} GoneOnceFolded(s: Shelf, b: BookId, ps: seq<Mention>, j: nat, i: nat, k: SeriesKey)
    requires PlacesHaveRows(s) && j <= i <= |ps| && FoldedBetween(ps, j, i, k)
    requires forall m :: j <= m < i ==> ps[m].key != k
    ensures Link(b, k) !in Shelve(s, b, ps[..i]).places
    decreases i
  {
    hide Shelve, ShelveOne;
    var init, p := ps[..i - 1], ps[i - 1];
    ShelveNext(s, b, ps, i - 1);
    ShelveRow(s, b, init, k);
    if FoldsAway(p, k) {
      FoldedIsGone(Shelve(s, b, init), b, p, k);
    } else {
      var m :| j <= m < i && FoldsAway(ps[m], k);
      assert FoldedBetween(ps, j, i - 1, k);
      GoneOnceFolded(s, b, ps, j, i - 1, k);
      OthersStand(Shelve(s, b, init), b, p, b, k);
    }
  }

  lemma CarriedIs(s: Shelf, b: BookId, ps: seq<Mention>, i: nat)
    requires PlacesHaveRows(s) && UniqueKeys(ps) && i < |ps|
    ensures Carried(s, b, ps, i, Brought(Shelve(s, b, ps[..i]), b, ps[i]))
  {
    hide Shelve, Informed;
    if ps[i].key.FromSource? {
      var k := Named(ps[i].said.normalised);
      if forall j :: 0 <= j < i ==> ps[j].key != k {
        HadIs(s, b, ps, i, k);
      }
      forall j | 0 <= j < i && ps[j].key == k
        ensures var brought := Lookup(Shelve(s, b, ps[..i]).places, Link(b, k));
          if FoldedBetween(ps, j + 1, i, k) then brought == None
          else MadeOf(s, b, ps, j, brought)
      {
        CarriedFrom(s, b, ps, i, j);
      }
    }
  }

  lemma CarriedFrom(s: Shelf, b: BookId, ps: seq<Mention>, i: nat, j: nat)
    requires PlacesHaveRows(s) && UniqueKeys(ps) && j < i < |ps| && ps[j].key.Named?
    ensures var k := ps[j].key; var brought := Lookup(Shelve(s, b, ps[..i]).places, Link(b, k));
      if FoldedBetween(ps, j + 1, i, k) then brought == None
      else MadeOf(s, b, ps, j, brought)
  {
    hide Shelve, Informed;
    var k := ps[j].key;
    if FoldedBetween(ps, j + 1, i, k) {
      GoneOnceFolded(s, b, ps, j + 1, i, k);
    } else {
      var some := ps[..i];
      assert some[..j] == ps[..j] && some[j] == ps[j];
      forall m | j < m < |some| ensures !FoldsAway(some[m], k) {
        assert some[m] == ps[m];
      }
      PickLands(s, b, some, j);
      HadIs(s, b, ps, j, k);
    }
  }

  /**
   * Attaching a book's series leaves it on every series picked and not folded away by a later
   * pick. Its place holds the position the pick states; failing that the one it had, and failing
   * that the one carried over by a fold. It is confirmed exactly when one of these is.
   */
  lemma SyncPlacesEachPick(s: Shelf, b: BookId, known: set<Key>, ms: seq<Mention>, i: nat)
    requires PlacesHaveRows(s) && Sync(s, b, known, ms).Done? && i < |Best(ms)|
    requires !FoldedBetween(Best(ms), i + 1, |Best(ms)|, Best(ms)[i].key)
    ensures var u, ps := Sync(s, b, known, ms).value, Best(ms); var p, l := ps[i], Link(b, ps[i].key);
      && l in u.places
      && (p.said.position.Some? ==> u.places[l].position == p.said.position)
      && exists brought ::
           && Carried(s, b, ps, i, brought)
           && Informed(u.places[l], p.said.position, p.said.confirmed, Had(s, b, ps, i, p.key), brought)
  {
    var ps := Best(ms);
    BestIsOnePerSeries(ms);
    AttributeKeepsRows(Shelve(s, b, ps), b, known, ms);
    forall j | i < j < |ps| ensures !FoldsAway(ps[j], ps[i].key) {
    }
    PickLands(s, b, ps, i);
    CarriedIs(s, b, ps, i);
    HadIs(s, b, ps, i, ps[i].key);
    hide Shelve, Attribute, Carried, Best;
  }

  /** And it is on no other series than before: one it was on, was picked, or is a fold's. */
  lemma SyncLeavesOthers(s: Shelf, b: BookId, known: set<Key>, ms: seq<Mention>, c: BookId, k: SeriesKey)
    requires PlacesHaveRows(s) && Sync(s, b, known, ms).Done?
    requires forall p :: p in Best(ms) ==> p.key != k && !FoldsAway(p, k)
    ensures var u := Sync(s, b, known, ms).value;
      Lookup(u.places, Link(c, k)) == Lookup(s.places, Link(c, k)) && Lookup(u.series, k) == Lookup(s.series, k)
  {
    var ps := Best(ms);
    AttributeKeepsRows(Shelve(s, b, ps), b, known, ms);
    forall j | 0 <= j < |ps| ensures ps[j].key != k && !FoldsAway(ps[j], k) {
      assert ps[j] in ps;
    }
    StandsThrough(s, b, ps, 0, c, k);
  }

  /** The row of each series picked and not folded later: its first name, its latest comparison form. */
  lemma SyncKeepsFirstName(s: Shelf, b: BookId, known: set<Key>, ms: seq<Mention>, i: nat)
    requires PlacesHaveRows(s) && Sync(s, b, known, ms).Done? && i < |Best(ms)|
    requires !FoldedBetween(Best(ms), i + 1, |Best(ms)|, Best(ms)[i].key)
    ensures var u, ps := Sync(s, b, known, ms).value, Best(ms); var p := ps[i];
      && p.key in u.series && u.series[p.key].normalised == p.said.normalised
      && u.series[p.key].name ==
           if p.key in s.series && !FoldedBetween(ps, 0, i, p.key) then s.series[p.key].name else p.said.name
  {
    var ps := Best(ms);
    BestIsOnePerSeries(ms);
    AttributeKeepsRows(Shelve(s, b, ps), b, known, ms);
    forall j | i < j < |ps| ensures !FoldsAway(ps[j], ps[i].key) {
    }
    PickLands(s, b, ps, i);
    PlaceBefore(s, b, ps, i, ps[i].key);
    assert FoldedBetween(ps, 0, i, ps[i].key) <==> exists j :: 0 <= j < i && FoldsAway(ps[j], ps[i].key);
    hide Shelve, Attribute, Best, Informed;
  }

  // ----- every source's own account

  /** A later mention in which the same source speaks of the same book and series id. */
  ghost predicate Respoken(ms: seq<Mention>, i: nat, id: string)
    requires i < |ms|
  {
    exists j :: i < j < |ms| && ms[j].who == ms[i].who && ms[j].said.sourceSeriesId == Some(id)
  }

  ghost predicate Renamed(ms: seq<Mention>, i: nat, id: string)
    requires i < |ms|
  {
    exists j :: i < j < |ms| && ms[j].who.source == ms[i].who.source && ms[j].said.sourceSeriesId == Some(id)
  }

  /** Each source's account of the book stands beside the merged opinion, as that source gave it. */
  lemma {:induction false} AccountsStand(s: Shelf, b: BookId, known: set<Key>, ms: seq<Mention>, i: nat, id: string)
    requires Attribute(s, b, known, ms).Done? && i < |ms| && ms[i].said.sourceSeriesId == Some(id) && id != ""
    ensures var u, x := Attribute(s, b, known, ms).value, ms[i]; var a := AccountKey(x.who.source, x.who.sourceId, id);
      && (!Respoken(ms, i, id) ==>
            a in u.accounts && u.accounts[a] == Account(b, x.key, x.said.position, x.said.confirmed))
      && (!Renamed(ms, i, id) ==>
            SourceSeries(x.who.source, id) in u.sources && u.sources[SourceSeries(x.who.source, id)] == x.key)
  {
    var init, y := ms[..|ms|-1], ms[|ms|-1];
    if i < |init| {
      AccountsStand(s, b, known, init, i, id);
      if Respoken(init, i, id) {
        var j :| i < j < |init| && init[j].who == init[i].who && init[j].said.sourceSeriesId == Some(id);
        assert ms[j] == init[j];
      }
      if Renamed(init, i, id) {
        var j :| i < j < |init| && init[j].who.source == init[i].who.source && init[j].said.sourceSeriesId == Some(id);
        assert ms[j] == init[j];
      }
    }
  }

  /** Nobody else's account is touched. */
  lemma {:induction false} OtherAccountsStand(s: Shelf, b: BookId, known: set<Key>, ms: seq<Mention>, a: AccountKey)
    requires Attribute(s, b, known, ms).Done?
    requires a.seriesId == "" || forall x :: x in ms ==>
      !(x.who == Key(a.source, a.bookSourceId) && x.said.sourceSeriesId == Some(a.seriesId))
    ensures Lookup(Attribute(s, b, known, ms).value.accounts, a) == Lookup(s.accounts, a)
  {
    if ms != [] {
      assert ms[|ms|-1] in ms;
      OtherAccountsStand(s, b, known, ms[..|ms|-1], a);
    }
  }

  lemma {:induction false} ShelvingKeepsAccounts(s: Shelf, b: BookId, ps: seq<Mention>, a: AccountKey)
    ensures var t := Shelve(s, b, ps);
      && (a in t.accounts <==> a in s.accounts)
      && (a in s.accounts ==>
            && t.accounts[a].book == s.accounts[a].book && t.accounts[a].position == s.accounts[a].position
            && t.accounts[a].confirmed == s.accounts[a].confirmed)
  {
    if ps != [] {
      ShelvingKeepsAccounts(s, b, ps[..|ps|-1], a);
    }
  }

  /**
   * After a sync, the last account each source gave of this book under a series id is recorded
   * exactly as given, and every other account still says what it said.
   */
  lemma SyncRecordsAccounts(s: Shelf, b: BookId, known: set<Key>, ms: seq<Mention>)
    requires Sync(s, b, known, ms).Done?
    ensures var u := Sync(s, b, known, ms).value;
      && (forall i: nat, id :: i < |ms| && ms[i].said.sourceSeriesId == Some(id) && id != "" && !Respoken(ms, i, id) ==>
            var a := AccountKey(ms[i].who.source, ms[i].who.sourceId, id);
            a in u.accounts && u.accounts[a] == Account(b, ms[i].key, ms[i].said.position, ms[i].said.confirmed))
      && (forall a :: a in s.accounts
            && (a.seriesId == "" || forall x :: x in ms ==>
                  !(x.who == Key(a.source, a.bookSourceId) && x.said.sourceSeriesId == Some(a.seriesId)))
            ==> && a in u.accounts && u.accounts[a].book == s.accounts[a].book
                && u.accounts[a].position == s.accounts[a].position && u.accounts[a].confirmed == s.accounts[a].confirmed)
  {
    var t := Shelve(s, b, Best(ms));
    var u := Sync(s, b, known, ms).value;
    forall i: nat, id | i < |ms| && ms[i].said.sourceSeriesId == Some(id) && id != "" && !Respoken(ms, i, id)
      ensures var a := AccountKey(ms[i].who.source, ms[i].who.sourceId, id);
        a in u.accounts && u.accounts[a] == Account(b, ms[i].key, ms[i].said.position, ms[i].said.confirmed)
    {
      AccountsStand(t, b, known, ms, i, id);
    }
    forall a | a in s.accounts
      && (a.seriesId == "" || forall x :: x in ms ==>
            !(x.who == Key(a.source, a.bookSourceId) && x.said.sourceSeriesId == Some(a.seriesId)))
      ensures a in u.accounts && u.accounts[a].book == s.accounts[a].book
        && u.accounts[a].position == s.accounts[a].position && u.accounts[a].confirmed == s.accounts[a].confirmed
    {
      ShelvingKeepsAccounts(s, b, Best(ms), a);
      OtherAccountsStand(t, b, known, ms, a);
    }
  }

  // ----- the text a book is found by

  function Spaced(terms: seq<string>): string {
    if terms == [] then "" else if |terms| == 1 then terms[0] else terms[0] + " " + Spaced(terms[1..])
  }

  /** Some series the book is on has this name. */
  ghost predicate IsNamed(s: Shelf, b: BookId, n: SeriesName) {
    exists k :: Link(b, k) in s.places && k in s.series && s.series[k].name == n
  }

  ghost predicate LeastDisplay(s: Shelf, b: BookId, fold: string, display: string) {
    && IsNamed(s, b, SeriesName(display, Some(fold)))
    && forall n :: IsNamed(s, b, n) && n.folded == Some(fold) ==> !Smaller(n.display, display)
  }

  /** One term for each comparison form among the book's series, in order of the forms, its least display. */
  ghost predicate Terms(s: Shelf, b: BookId, forms: seq<string>, terms: seq<string>) {
    && |forms| == |terms|
    && (forall n :: IsNamed(s, b, n) && n.folded.Some? ==> n.folded.value in forms)
    && (forall i, j :: 0 <= i < j < |forms| ==> Smaller(forms[i], forms[j]))
    && (forall i :: 0 <= i < |forms| ==> LeastDisplay(s, b, forms[i], terms[i]))
  }

  lemma NamesOnIs(s: Shelf, b: BookId, n: SeriesName)
    ensures n in NamesOn(s, b) <==> IsNamed(s, b, n)
  {
    if n in NamesOn(s, b) {
      var l :| l in s.places && l.book == b && l.series in s.series && s.series[l.series].name == n;
      assert l == Link(b, l.series);
    }
  }

  lemma {:induction false} RenderJoins(names: set<SeriesName>, folds: seq<string>) returns (terms: seq<string>)
    requires forall f :: f in folds ==> f in Series.Folds(names)
    ensures |terms| == |folds| && Render(names, folds) == Spaced(terms)
    ensures forall i :: 0 <= i < |terms| ==> SeriesName(terms[i], Some(folds[i])) in names
    ensures forall i, n :: 0 <= i < |terms| && n in names && n.folded == Some(folds[i]) ==> LexLe(terms[i], n.display)
  {
    LexIsTotalOrder();
    if folds == [] {
      terms := [];
    } else {
      var rest := RenderJoins(names, folds[1..]);
      assert Displays(names, folds[0]) != {} by {
        assert folds[0] in Series.Folds(names);
        var n :| n in names && n.folded == Some(folds[0]);
        assert n.display in Displays(names, folds[0]);
      }
      var first := Least(Displays(names, folds[0]), LexLe);
      terms := [first] + rest;
      var n :| n in names && n.folded == Some(folds[0]) && n.display == first;
      assert n == SeriesName(first, Some(folds[0]));
      forall m | m in names && m.folded == Some(folds[0]) ensures LexLe(first, m.display) {
        assert m.display in Displays(names, folds[0]);
      }
      assert folds[0] in folds;
      assert terms[1..] == rest;
    }
  }

  /** The search text is those terms, a space apart. */
  lemma TextJoinsEveryForm(s: Shelf, b: BookId) returns (forms: seq<string>, terms: seq<string>)
    ensures Terms(s, b, forms, terms) && Projection(NamesOn(s, b)) == Spaced(terms)
  {
    LexIsTotalOrder();
    var names := NamesOn(s, b);
    forms := Arrange(Series.Folds(names), LexLe);
    terms := RenderJoins(names, forms);
    hide Render, Spaced;
    forall n ensures n in names <==> IsNamed(s, b, n) {
      NamesOnIs(s, b, n);
    }
    hide NamesOn, IsNamed;
    forall i, j | 0 <= i < j < |forms| ensures Smaller(forms[i], forms[j]) {
      SmallerMeans(forms[i], forms[j]);
    }
    forall i, n | 0 <= i < |forms| && IsNamed(s, b, n) && n.folded == Some(forms[i]) ensures !Smaller(n.display, terms[i]) {
      SmallerMeans(n.display, terms[i]);
    }
  }
}
