// What it means for a record to come first, said without the sort key.

module Ranking {
  import opened Ordering
  import opened Domain
  import opened Merge

  // ----- the parts of the order, written out

  /** `s` is a proper prefix of `t`, or has the smaller character where they first differ. */
  ghost predicate Smaller(s: string, t: string) {
    exists i: nat :: SmallerAt(s, t, i)
  }

  predicate SmallerAt(s: string, t: string, i: nat) {
    && i <= |s| && i < |t| && s[..i] == t[..i]
    && (i < |s| ==> s[i] < t[i])
  }

  lemma {:induction false} SmallerMeans(s: string, t: string)
    ensures Smaller(s, t) <==> !LexLe(t, s)
  {
    if s != [] && t != [] && s[0] == t[0] {
      SmallerMeans(s[1..], t[1..]);
      SmallerTails(s, t);
    } else if t == [] {
    } else if s == [] || s[0] < t[0] {
      assert SmallerAt(s, t, 0);
    } else {
      forall i: nat ensures !SmallerAt(s, t, i) {
        FirstsAgree(s, t, i);
      }
    }
  }

  lemma FirstsAgree(s: string, t: string, i: nat)
    requires s != [] && t != []
    ensures SmallerAt(s, t, i) && i > 0 ==> s[0] == t[0]
  {
    assert SmallerAt(s, t, i) && i > 0 ==> s[..i][0] == s[0] && t[..i][0] == t[0];
  }

  lemma SmallerTails(s: string, t: string)
    requires s != [] && t != [] && s[0] == t[0]
    ensures Smaller(s, t) <==> Smaller(s[1..], t[1..])
  {
    if i: nat :| SmallerAt(s, t, i) {
      assert i > 0;
      assert s[1..][..i - 1] == s[..i][1..] && t[1..][..i - 1] == t[..i][1..];
      assert SmallerAt(s[1..], t[1..], i - 1);
    }
    if i: nat :| SmallerAt(s[1..], t[1..], i) {
      assert s[..i + 1] == [s[0]] + s[1..][..i] && t[..i + 1] == [t[0]] + t[1..][..i];
      assert SmallerAt(s, t, i + 1);
    }
  }

  /** Goodreads before Google Books before Open Library before Gutendex. */
  predicate Preferred(a: Source, b: Source) {
    || (a == Goodreads && b in {GoogleBooks, OpenLibrary, Gutendex})
    || (a == GoogleBooks && b in {OpenLibrary, Gutendex})
    || (a == OpenLibrary && b == Gutendex)
  }

  /** The fields that hold something: not null, not empty, not zero. */
  function FilledFields(c: BookFacts): set<Field> {
    set f | f in c.fields && c.fields[f] != Text("") && c.fields[f] != Number(0) && c.fields[f] != Exact(0.0)
  }

  function Filled(c: BookFacts): nat {
    |FilledFields(c)|
    + (if c.authors != [] then 1 else 0) + (if c.subjects != [] then 1 else 0) + (if c.series != [] then 1 else 0)
  }

  /** More is filled in; or as much, by a preferred source, or by the same source under a smaller id. */
  ghost predicate Outdoes(d: BookFacts, c: BookFacts) {
    || Filled(d) > Filled(c)
    || (Filled(d) == Filled(c)
        && (Preferred(d.source, c.source) || (d.source == c.source && Smaller(d.sourceId, c.sourceId))))
  }

  // ----- the sort key says the same

  function FilledAmong(c: BookFacts, fs: seq<Field>): set<Field> {
    set f | f in fs && f in FilledFields(c)
  }

  lemma FilledStep(c: BookFacts, fs: seq<Field>)
    requires fs != [] && fs[0] !in fs[1..]
    ensures |FilledAmong(c, fs)| == |FilledAmong(c, fs[1..])| + if fs[0] in FilledFields(c) then 1 else 0
  {
    hide FilledFields;
    assert forall f :: f in fs <==> f == fs[0] || f in fs[1..];
    assert FilledAmong(c, fs) == FilledAmong(c, fs[1..]) + if fs[0] in FilledFields(c) then {fs[0]} else {};
  }

  lemma TruthyIsFilled(c: BookFacts, f: Field)
    ensures f in FilledFields(c) <==> f in c.fields && c.fields[f].Truthy()
  {
  }

  lemma {:induction false} CountsFilled(c: BookFacts, fs: seq<Field>)
    requires forall i, j :: 0 <= i < j < |fs| ==> fs[i] != fs[j]
    ensures CountTruthy(c, fs) == |FilledAmong(c, fs)|
  {
    if fs != [] {
      hide FilledAmong, FilledFields;
      CountsFilled(c, fs[1..]);
      FilledStep(c, fs);
      TruthyIsFilled(c, fs[0]);
    }
  }

  lemma CompletenessIsFilled(c: BookFacts)
    ensures Completeness(c) == Filled(c)
  {
    CountsFilled(c, MERGEABLE_FIELDS);
    EveryFieldIsMergeable();
    assert FilledAmong(c, MERGEABLE_FIELDS) == FilledFields(c);
  }

  lemma RankMeans(c: CleanBook, d: CleanBook)
    ensures RankLe(c, d) <==> !Outdoes(d, c)
  {
    CompletenessIsFilled(c);
    CompletenessIsFilled(d);
    hide Completeness, Filled;
    SmallerMeans(d.sourceId, c.sourceId);
    assert Preferred(d.source, c.source) <==> Priority(d.source) < Priority(c.source);
  }

  // ----- what the merged record takes from whom

  /** One of the records that qualify, which no other that qualifies outdoes. */
  ghost predicate Foremost(cs: seq<CleanBook>, qualifies: CleanBook -> bool, c: CleanBook) {
    c in cs && qualifies(c) && forall d :: d in cs && qualifies(d) ==> !Outdoes(d, c)
  }

  lemma FirstIsForemost(cs: seq<CleanBook>, qualifies: CleanBook -> bool)
    ensures var first := FirstThat(ByRank(cs), qualifies);
      && (first.None? <==> forall c :: c in cs ==> !qualifies(c))
      && (first.Some? ==> Foremost(cs, qualifies, first.value))
  {
    var first := FirstThat(ByRank(cs), qualifies);
    if first.Some? {
      forall d | d in cs && qualifies(d) ensures !Outdoes(d, first.value) {
        FirstOutranks(ByRank(cs), qualifies, d);
        RankMeans(first.value, d);
      }
    }
  }

  /**
   * Field by field, the merged record holds what the foremost of the candidates with an answer
   * answered, and a field nobody answered is null.
   */
  lemma MergedFieldIsTheForemosts(cs: seq<CleanBook>, target: Option<IdentityKey>, f: Field)
    requires MergeCandidates(cs, target).Ok?
    ensures var r := MergeCandidates(cs, target).value;
      && (f in r.fields <==> exists c :: c in cs && f in c.fields)
      && (f in r.fields ==> exists c ::
            Foremost(cs, (d: CleanBook) => f in d.fields, c) && r.fields[f] == c.fields[f])
  {
    FirstIsForemost(cs, (d: CleanBook) => f in d.fields);
    ResolveTakesFirst(ByRank(cs), f);
  }

  /** The record itself is the foremost candidate's: its source and source id. */
  lemma MergedRecordIsTheForemosts(cs: seq<CleanBook>, target: Option<IdentityKey>)
    requires MergeCandidates(cs, target).Ok?
    ensures var r := MergeCandidates(cs, target).value;
      exists c: CleanBook :: Foremost(cs, _ => true, c) && KeyOf(r) == KeyOf(c)
  {
    WinnerIsForemost(cs);
    assert KeyOf(MergeCandidates(cs, target).value) == KeyOf(ByRank(cs)[0]);
  }

  lemma WinnerIsForemost(cs: seq<CleanBook>)
    requires cs != []
    ensures Foremost(cs, _ => true, ByRank(cs)[0])
  {
    FirstIsForemost(cs, _ => true);
    hide Outdoes, RankLe;
  }

  /** Each list is the foremost's among those with one; a confirmed series outranks a guessed one. */
  lemma MergedListsAreTheForemosts(cs: seq<CleanBook>, target: Option<IdentityKey>)
    requires MergeCandidates(cs, target).Ok?
    ensures var r := MergeCandidates(cs, target).value;
      && (r.authors != [] <==> exists c :: c in cs && c.authors != [])
      && (r.authors != [] ==> exists c :: Foremost(cs, (d: CleanBook) => d.authors != [], c) && r.authors == c.authors)
      && (r.subjects != [] <==> exists c :: c in cs && c.subjects != [])
      && (r.subjects != [] ==>
            exists c :: Foremost(cs, (d: CleanBook) => d.subjects != [], c) && r.subjects == c.subjects)
  {
    ListIsTheForemosts(cs, HasAuthors, (d: CleanBook) => d.authors != []);
    ListIsTheForemosts(cs, HasSubjects, (d: CleanBook) => d.subjects != []);
    assert ByRank(cs)[0] in cs;
  }

  lemma ListIsTheForemosts(cs: seq<CleanBook>, has: CleanBook -> bool, qualifies: CleanBook -> bool)
    requires forall c :: has(c) <==> qualifies(c)
    ensures var first := FirstThat(ByRank(cs), has);
      && (first.None? <==> forall c :: c in cs ==> !qualifies(c))
      && (first.Some? ==> Foremost(cs, qualifies, first.value))
  {
    FirstIsForemost(cs, has);
  }

  predicate Confirms(c: CleanBook) {
    exists i :: 0 <= i < |c.series| && c.series[i].confirmed
  }

  lemma MergedSeriesIsTheForemosts(cs: seq<CleanBook>, target: Option<IdentityKey>)
    requires MergeCandidates(cs, target).Ok?
    ensures var r := MergeCandidates(cs, target).value;
      && (r.series != [] <==> exists c :: c in cs && c.series != [])
      && ((exists c :: c in cs && Confirms(c)) ==> exists c :: Foremost(cs, Confirms, c) && r.series == c.series)
      && (r.series != [] && !(exists c :: c in cs && Confirms(c)) ==>
            exists c :: Foremost(cs, (d: CleanBook) => d.series != [], c) && r.series == c.series)
  {
    forall c: CleanBook ensures HasConfirmed(c) <==> Confirms(c) {
      if m :| m in c.series && m.confirmed { }
    }
    ListIsTheForemosts(cs, HasConfirmed, Confirms);
    ListIsTheForemosts(cs, HasSeries, (d: CleanBook) => d.series != []);
    assert ByRank(cs)[0] in cs;
  }

  // ----- under which identity

  /** The ISBN some candidate carries, else the target, else the identity they all share. */
  lemma MergedIdentityIs(cs: seq<CleanBook>, target: Option<IdentityKey>)
    ensures MergeCandidates(cs, target).Ok? <==>
      && cs != []
      && (forall c, d :: c in cs && d in cs && c.isbn13.Some? && d.isbn13.Some? ==> c.isbn13 == d.isbn13)
      && (forall c :: c in cs && c.isbn13.Some? && target.Some? && target.value.Isbn? ==> c.isbn13.value == target.value.isbn)
      && (target.None? && (forall c :: c in cs ==> c.isbn13.None?) ==>
            forall c, d :: c in cs && d in cs ==> c.identity == d.identity)
    ensures MergeCandidates(cs, target).Ok? ==> var r := MergeCandidates(cs, target).value;
      && (forall c :: c in cs && c.isbn13.Some? ==> r.identity == Isbn(c.isbn13.value))
      && ((forall c :: c in cs ==> c.isbn13.None?) ==>
            r.identity == if target.Some? then target.value else cs[0].identity)
  {
    AtMostOneIsbn(cs);
    AtMostOneIdentity(cs);
    OnlyIsbn(cs);
    MergedHasFinalIdentity(cs, target);
    hide MergeCandidates, Isbns, Identities, OnlyOf;
  }

  lemma MergedHasFinalIdentity(cs: seq<CleanBook>, target: Option<IdentityKey>)
    ensures MergeCandidates(cs, target).Ok? <==> FinalIdentity(cs, target).Ok?
    ensures MergeCandidates(cs, target).Ok? ==>
      MergeCandidates(cs, target).value.identity == FinalIdentity(cs, target).value
  {
    hide FinalIdentity;
  }

  lemma OnlyIsbn(cs: seq<CleanBook>)
    ensures |Isbns(cs)| <= 1 ==> forall c :: c in cs && c.isbn13.Some? ==> c.isbn13 == OnlyOf(Isbns(cs))
    ensures OnlyOf(Isbns(cs)).None? ==> forall c :: c in cs ==> c.isbn13.None?
    ensures OnlyOf(Isbns(cs)).Some? ==> exists c :: c in cs && c.isbn13 == OnlyOf(Isbns(cs))
  {
    forall c | c in cs && c.isbn13.Some? ensures c.isbn13.value in Isbns(cs) {
    }
    if |Isbns(cs)| <= 1 {
      forall c | c in cs && c.isbn13.Some? ensures c.isbn13 == OnlyOf(Isbns(cs)) {
        AtMostOne(Isbns(cs), c.isbn13.value, OnlyOf(Isbns(cs)).value);
      }
    }
  }

  /** The ISBN some observation carries, else the identity of the foremost observation. */
  lemma UnifiedIdentityIs(cs: seq<CleanBook>)
    requires cs != []
    ensures UnifiedIdentity(cs).Some? ==>
      && (forall c :: c in cs && c.isbn13.Some? ==> UnifiedIdentity(cs).value == Isbn(c.isbn13.value))
      && ((forall c :: c in cs ==> c.isbn13.None?) ==>
            exists c :: Foremost(cs, _ => true, c) && UnifiedIdentity(cs).value == c.identity)
  {
    AtMostOneIsbn(cs);
    WinnerIsForemost(cs);
    hide Outdoes;
    if |Isbns(cs)| <= 1 {
      forall c | c in cs && c.isbn13.Some? ensures UnifiedIdentity(cs) == Some(Isbn(c.isbn13.value)) {
        assert c.isbn13.value in Isbns(cs);
        AtMostOne(Isbns(cs), c.isbn13.value, OnlyOf(Isbns(cs)).value);
      }
    }
  }

  /** Unifying changes what a record is known as, and nothing it says. */
  lemma UnifyingKeepsFacts(cs: seq<CleanBook>, i: nat)
    requires UnifyIdentity(cs).Some? && i < |cs|
    ensures var r := UnifyIdentity(cs).value;
      && |r| == |cs|
      && r[i].source == cs[i].source && r[i].sourceId == cs[i].sourceId && r[i].fields == cs[i].fields
      && r[i].authors == cs[i].authors && r[i].subjects == cs[i].subjects && r[i].series == cs[i].series
      && Some(r[i].identity) == UnifiedIdentity(cs)
  {
    hide UnifiedIdentity;
  }
}
