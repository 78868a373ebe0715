// Which answer wins when several sources describe one book, and the identity they share.

module Merge {
  import opened Ordering
  import opened Domain

  datatype Result<+T, +E> = Ok(value: T) | Err(error: E)

  datatype MergeError = NoCandidates | ConflictingIsbns | TargetConflict | UnrelatedFallbacks

  // ----- rank

  function CountTruthy(b: BookFacts, fs: seq<Field>): nat {
    if fs == [] then 0 else
      (if fs[0] in b.fields && b.fields[fs[0]].Truthy() then 1 else 0) + CountTruthy(b, fs[1..])
  }

  function Completeness(b: BookFacts): nat {
    CountTruthy(b, MERGEABLE_FIELDS)
    + (if b.authors != [] then 1 else 0)
    + (if b.subjects != [] then 1 else 0)
    + (if b.series != [] then 1 else 0)
  }

  /** Most complete first, then source priority, then source id. */
  predicate RankLe(a: CleanBook, b: CleanBook) {
    || Completeness(a) > Completeness(b)
    || (Completeness(a) == Completeness(b)
        && (|| Priority(a.source) < Priority(b.source)
            || (a.source == b.source && LexLe(a.sourceId, b.sourceId))))
  }

  lemma RankTotal(a: CleanBook, b: CleanBook)
    ensures RankLe(a, b) || RankLe(b, a)
  {
    LexTotal(a.sourceId, b.sourceId);
  }

  lemma RankTransitive(a: CleanBook, b: CleanBook, c: CleanBook)
    requires RankLe(a, b) && RankLe(b, c)
    ensures RankLe(a, c)
  {
    if a.source == b.source == c.source && LexLe(a.sourceId, b.sourceId) && LexLe(b.sourceId, c.sourceId) {
      LexTransitive(a.sourceId, b.sourceId, c.sourceId);
    }
  }

  /** Records that tie in rank are two accounts by the same source of the same thing. */
  lemma RankAntisymmetric(a: CleanBook, b: CleanBook)
    requires RankLe(a, b) && RankLe(b, a)
    ensures KeyOf(a) == KeyOf(b)
  {
    LexAntisymmetric(a.sourceId, b.sourceId);
  }

  ghost predicate Distinct(cs: seq<CleanBook>) {
    forall i, j :: 0 <= i < j < |cs| ==> KeyOf(cs[i]) != KeyOf(cs[j])
  }

  lemma RankIsPreorder()
    ensures Preorder(RankLe)
  {
    forall x: CleanBook, y: CleanBook ensures RankLe(x, y) || RankLe(y, x) { RankTotal(x, y); }
    forall x: CleanBook, y: CleanBook, z: CleanBook | RankLe(x, y) && RankLe(y, z) ensures RankLe(x, z) {
      RankTransitive(x, y, z);
    }
  }

  function ByRank(cs: seq<CleanBook>): (ordered: seq<CleanBook>)
    ensures |ordered| == |cs|
    ensures forall c :: c in ordered <==> c in cs
    ensures SortedBy(ordered, RankLe)
  {
    RankIsPreorder();
    SortSorts(cs, RankLe);
    SameElements(cs, Sort(cs, RankLe));
    Sort(cs, RankLe)
  }

  lemma ByRankIsOrderFree(p: seq<CleanBook>, q: seq<CleanBook>)
    requires multiset(p) == multiset(q)
    requires Distinct(p)
    ensures ByRank(p) == ByRank(q)
  {
    RankIsPreorder();
    forall x, y | x in p && y in p && RankLe(x, y) && RankLe(y, x) ensures x == y {
      RankAntisymmetric(x, y);
    }
    SortIsOrderFree(p, q, RankLe);
  }

  // ----- choosing

  /** The first record that satisfies `keep`, or None. */
  function FirstThat(cs: seq<CleanBook>, keep: CleanBook -> bool): (r: Option<CleanBook>)
    ensures r.Some? ==> r.value in cs && keep(r.value)
    ensures r.None? ==> forall c :: c in cs ==> !keep(c)
  {
    if cs == [] then None
    else if keep(cs[0]) then Some(cs[0])
    else FirstThat(cs[1..], keep)
  }

  /** In rank order, the first that satisfies `keep` outranks every other that does. */
  lemma {:induction false} FirstOutranks(cs: seq<CleanBook>, keep: CleanBook -> bool, c: CleanBook)
    requires SortedBy(cs, RankLe) && c in cs && keep(c)
    ensures FirstThat(cs, keep).Some? && RankLe(FirstThat(cs, keep).value, c)
  {
    if keep(cs[0]) {
      RankTotal(c, c);
    } else {
      assert c in cs[1..];
      FirstOutranks(cs[1..], keep, c);
    }
  }

  /** Field by field, the value of the first record that has one. */
  function Resolve(ordered: seq<CleanBook>): (r: map<Field, Value>)
    ensures forall f :: f in r <==> exists c :: c in ordered && f in c.fields
  {
    if ordered == [] then map[] else
      var rest := Resolve(ordered[1..]);
      assert forall c :: c in ordered <==> c == ordered[0] || c in ordered[1..];
      rest + ordered[0].fields
  }

  lemma {:induction false} ResolveTakesFirst(ordered: seq<CleanBook>, f: Field)
    ensures f in Resolve(ordered) <==> FirstThat(ordered, (c: CleanBook) => f in c.fields).Some?
    ensures f in Resolve(ordered) ==>
      Resolve(ordered)[f] == FirstThat(ordered, (c: CleanBook) => f in c.fields).value.fields[f]
  {
    if ordered != [] && f !in ordered[0].fields {
      ResolveTakesFirst(ordered[1..], f);
    }
  }

  function Isbns(cs: seq<CleanBook>): set<string> {
    set c | c in cs && c.isbn13.Some? :: c.isbn13.value
  }

  function Identities(cs: seq<CleanBook>): set<IdentityKey> {
    set c | c in cs :: c.identity
  }

  function OnlyOf(s: set<string>): (r: Option<string>)
    ensures r.None? <==> s == {}
    ensures r.Some? ==> r.value in s
  {
    LexIsTotalOrder();
    if s == {} then None else Some(Least(s, LexLe))
  }

  /** The identity the merged record carries, or why there is none. */
  function FinalIdentity(cs: seq<CleanBook>, target: Option<IdentityKey>): Result<IdentityKey, MergeError> {
    if cs == [] then Err(NoCandidates)
    else if |Isbns(cs)| > 1 then Err(ConflictingIsbns)
    else
      var candidateIsbn := OnlyOf(Isbns(cs));
      var targetIsbn := if target.Some? then IsbnOf(target.value) else None;
      if candidateIsbn.Some? && targetIsbn.Some? && candidateIsbn != targetIsbn then Err(TargetConflict)
      else if candidateIsbn.Some? then Ok(Isbn(candidateIsbn.value))
      else if targetIsbn.Some? then Ok(Isbn(targetIsbn.value))
      else if target.Some? then Ok(target.value)
      else if |Identities(cs)| > 1 then Err(UnrelatedFallbacks)
      else Ok(cs[0].identity)
  }

  function OrElse(r: Option<CleanBook>, otherwise: CleanBook): CleanBook {
    if r.Some? then r.value else otherwise
  }

  predicate HasAuthors(b: CleanBook) {
    b.authors != []
  }

  predicate HasSubjects(b: CleanBook) {
    b.subjects != []
  }

  predicate HasSeries(b: CleanBook) {
    b.series != []
  }

  predicate HasConfirmed(b: CleanBook) {
    exists m :: m in b.series && m.confirmed
  }

  function Blend(ordered: seq<CleanBook>, identity: IdentityKey): CleanBook
    requires ordered != []
  {
    var winner := ordered[0];
    BookFacts(
      winner.source, winner.sourceId, identity, IsbnOf(identity), Resolve(ordered),
      OrElse(FirstThat(ordered, HasAuthors), winner).authors,
      OrElse(FirstThat(ordered, HasSubjects), winner).subjects,
      OrElse(FirstThat(ordered, HasConfirmed),
             OrElse(FirstThat(ordered, HasSeries), winner)).series)
  }

  function MergeCandidates(cs: seq<CleanBook>, target: Option<IdentityKey>): Result<CleanBook, MergeError> {
    match FinalIdentity(cs, target)
    case Err(e) => Err(e)
    case Ok(identity) =>
      Ok(Blend(ByRank(cs), identity))
  }

  lemma ResolveStep(ordered: seq<CleanBook>, j: nat)
    requires j < |ordered|
    ensures Resolve(ordered[j..]) == Resolve(ordered[j+1..]) + ordered[j].fields
  {
    assert ordered[j..][1..] == ordered[j+1..];
  }

  /** The first value any ranked record has for a field. */
  method FirstValue(ordered: seq<CleanBook>, field: Field) returns (value: Option<Value>)
    ensures value == ValueOf(Resolve(ordered), field)
  {
    assert ordered[0..] == ordered && Resolve([]) == map[];
    hide Resolve;
    for j := 0 to |ordered|
      invariant ValueOf(Resolve(ordered[j..]), field) == ValueOf(Resolve(ordered), field)
    {
      ResolveStep(ordered, j);
      if field in ordered[j].fields {
        return Some(ordered[j].fields[field]);
      }
    }
    assert ordered[|ordered|..] == [];
    value := None;
  }

  function ValueOf(fields: map<Field, Value>, f: Field): Option<Value> {
    if f in fields then Some(fields[f]) else None
  }

  /** Field by field over the ranked records: the first value wins. */
  method ResolveByLoops(ordered: seq<CleanBook>, fs: seq<Field>) returns (resolved: map<Field, Value>)
    ensures forall f :: f in resolved <==> f in fs && f in Resolve(ordered)
    ensures forall f :: f in resolved ==> resolved[f] == Resolve(ordered)[f]
  {
    hide Resolve;
    resolved := map[];
    for i := 0 to |fs|
      invariant forall f :: f in resolved <==> f in Resolve(ordered) && f in fs[..i]
      invariant forall f :: f in resolved ==> resolved[f] == Resolve(ordered)[f]
    {
      var value := FirstValue(ordered, fs[i]);
      assert fs[..i+1] == fs[..i] + [fs[i]];
      if value.Some? {
        resolved := resolved[fs[i] := value.value];
      }
    }
    assert fs[..|fs|] == fs;
  }

  method ResolveEveryField(ordered: seq<CleanBook>) returns (resolved: map<Field, Value>)
    ensures resolved == Resolve(ordered)
  {
    resolved := ResolveByLoops(ordered, MERGEABLE_FIELDS);
    EveryFieldIsMergeable();
  }

  /** The merge as the loops compute it. */
  method MergeByLoops(cs: seq<CleanBook>, target: Option<IdentityKey>)
    returns (r: Result<CleanBook, MergeError>)
    ensures r == MergeCandidates(cs, target)
  {
    var finalIdentity := FinalIdentity(cs, target);
    if finalIdentity.Err? {
      return Err(finalIdentity.error);
    }
    var ordered := ByRank(cs);
    var winner := ordered[0];
    var resolved := ResolveEveryField(ordered);
    assert winner.fields + resolved == resolved;
    var richestAuthors := OrElse(FirstThat(ordered, HasAuthors), winner);
    var richestSubjects := OrElse(FirstThat(ordered, HasSubjects), winner);
    var richestSeries := OrElse(
      FirstThat(ordered, HasConfirmed),
      OrElse(FirstThat(ordered, HasSeries), winner));
    r := Ok(BookFacts(
      winner.source, winner.sourceId, finalIdentity.value, IsbnOf(finalIdentity.value),
      winner.fields + resolved, richestAuthors.authors, richestSubjects.subjects, richestSeries.series));
  }

  lemma EveryFieldIsMergeable()
    ensures forall f: Field :: f in MERGEABLE_FIELDS
  {
    forall f: Field ensures f in MERGEABLE_FIELDS {
      match f {
        case Title => assert MERGEABLE_FIELDS[0] == f;
        case NormalisedTitle => assert MERGEABLE_FIELDS[1] == f;
        case Subtitle => assert MERGEABLE_FIELDS[2] == f;
        case PublishedYear => assert MERGEABLE_FIELDS[3] == f;
        case PageCount => assert MERGEABLE_FIELDS[4] == f;
        case Language => assert MERGEABLE_FIELDS[5] == f;
        case Publisher => assert MERGEABLE_FIELDS[6] == f;
        case Description => assert MERGEABLE_FIELDS[7] == f;
        case CoverUrl => assert MERGEABLE_FIELDS[8] == f;
        case DownloadCount => assert MERGEABLE_FIELDS[9] == f;
        case GoodreadsAverageRating => assert MERGEABLE_FIELDS[10] == f;
        case NormalisedFirstAuthor => assert MERGEABLE_FIELDS[11] == f;
      }
    }
  }

  // ----- what the merge promises

  /** The merged record does not depend on the order its candidates arrive in. */
  lemma MergeIsOrderFree(p: seq<CleanBook>, q: seq<CleanBook>, target: Option<IdentityKey>)
    requires multiset(p) == multiset(q)
    requires Distinct(p)
    ensures MergeCandidates(p, target) == MergeCandidates(q, target)
  {
    SameElements(p, q);
    ByRankIsOrderFree(p, q);
    assert Isbns(p) == Isbns(q);
    assert Identities(p) == Identities(q);
    if p != [] && |Identities(p)| <= 1 {
      assert p[0].identity in Identities(p) && q[0].identity in Identities(p);
      AtMostOne(Identities(p), p[0].identity, q[0].identity);
    }
  }

  lemma AtMostOne<T>(s: set<T>, a: T, b: T)
    requires |s| <= 1 && a in s && b in s
    ensures a == b
  {
    if a != b {
      assert |s - {a}| >= 1 by { assert b in s - {a}; }
    }
  }

  /**
   * A field is null in the result only when every candidate lacks it, and otherwise holds the
   * answer of a candidate that outranks every other candidate with an answer.
   */
  lemma MergedFieldHasTheBestAnswer(cs: seq<CleanBook>, target: Option<IdentityKey>, f: Field)
    requires MergeCandidates(cs, target).Ok?
    ensures var r := MergeCandidates(cs, target).value;
      && (f in r.fields <==> exists c :: c in cs && f in c.fields)
      && (f in r.fields ==>
            exists c :: && c in cs && f in c.fields && r.fields[f] == c.fields[f]
                        && forall d :: d in cs && f in d.fields ==> RankLe(c, d))
  {
    var ordered := ByRank(cs);
    ResolveTakesFirst(ordered, f);
    var has := (c: CleanBook) => f in c.fields;
    if f in Resolve(ordered) {
      var best := FirstThat(ordered, has).value;
      forall d | d in cs && f in d.fields ensures RankLe(best, d) {
        FirstOutranks(ordered, has, d);
      }
    }
  }

  /** The candidate that satisfies `keep` and outranks every other that does. */
  ghost predicate BestOf(cs: seq<CleanBook>, keep: CleanBook -> bool, c: CleanBook) {
    c in cs && keep(c) && forall d :: d in cs && keep(d) ==> RankLe(c, d)
  }

  lemma FirstIsBest(cs: seq<CleanBook>, keep: CleanBook -> bool)
    requires cs != []
    ensures var first := FirstThat(ByRank(cs), keep);
      && (first.None? <==> forall c :: c in cs ==> !keep(c))
      && (first.Some? ==> BestOf(cs, keep, first.value))
  {
    var ordered := ByRank(cs);
    if FirstThat(ordered, keep).Some? {
      forall d | d in cs && keep(d) ensures RankLe(FirstThat(ordered, keep).value, d) {
        FirstOutranks(ordered, keep, d);
      }
    }
  }

  /** Evidence beats rank: the best-ranked confirmed list, and only then the best-ranked list. */
  lemma MergedSeriesKeepsEvidence(cs: seq<CleanBook>, target: Option<IdentityKey>)
    requires MergeCandidates(cs, target).Ok?
    ensures var r := MergeCandidates(cs, target).value;
      && (HasConfirmed(r) <==> exists c :: c in cs && HasConfirmed(c))
      && (r.series == [] <==> forall c :: c in cs ==> c.series == [])
      && (HasConfirmed(r) ==> exists c :: BestOf(cs, HasConfirmed, c) && r.series == c.series)
      && (!HasConfirmed(r) && r.series != [] ==> exists c :: BestOf(cs, HasSeries, c) && r.series == c.series)
  {
    var ordered := ByRank(cs);
    assert ordered[0] in cs;
    FirstIsBest(cs, HasConfirmed);
    FirstIsBest(cs, HasSeries);
  }

  /** Credits and subjects each come whole from the best-ranked record that has any. */
  lemma MergedListsComeWhole(cs: seq<CleanBook>, target: Option<IdentityKey>)
    requires MergeCandidates(cs, target).Ok?
    ensures var r := MergeCandidates(cs, target).value;
      && (r.authors == [] <==> forall c :: c in cs ==> c.authors == [])
      && (r.authors != [] ==> exists c :: BestOf(cs, HasAuthors, c) && r.authors == c.authors)
      && (r.subjects == [] <==> forall c :: c in cs ==> c.subjects == [])
      && (r.subjects != [] ==> exists c :: BestOf(cs, HasSubjects, c) && r.subjects == c.subjects)
  {
    var ordered := ByRank(cs);
    assert ordered[0] in cs;
    FirstIsBest(cs, HasAuthors);
    FirstIsBest(cs, HasSubjects);
  }

  lemma AtMostOneIsbn(cs: seq<CleanBook>)
    ensures |Isbns(cs)| <= 1 <==>
      forall c, d :: c in cs && d in cs && c.isbn13.Some? && d.isbn13.Some? ==> c.isbn13 == d.isbn13
    ensures Isbns(cs) == {} <==> forall c :: c in cs ==> c.isbn13.None?
  {
    if |Isbns(cs)| <= 1 {
      forall c, d | c in cs && d in cs && c.isbn13.Some? && d.isbn13.Some? ensures c.isbn13 == d.isbn13 {
        AtMostOne(Isbns(cs), c.isbn13.value, d.isbn13.value);
      }
    } else {
      var a, b := TwoOf(Isbns(cs));
      var c :| c in cs && c.isbn13 == Some(a);
      var d :| d in cs && d.isbn13 == Some(b);
      assert c.isbn13 != d.isbn13;
    }
    forall c | c in cs && c.isbn13.Some? ensures Isbns(cs) != {} {
      assert c.isbn13.value in Isbns(cs);
    }
  }

  lemma AtMostOneIdentity(cs: seq<CleanBook>)
    ensures |Identities(cs)| <= 1 <==> forall c, d :: c in cs && d in cs ==> c.identity == d.identity
  {
    if |Identities(cs)| <= 1 {
      forall c, d | c in cs && d in cs ensures c.identity == d.identity {
        AtMostOne(Identities(cs), c.identity, d.identity);
      }
    } else {
      var a, b := TwoOf(Identities(cs));
      var c :| c in cs && c.identity == a;
      var d :| d in cs && d.identity == b;
      assert c.identity != d.identity;
    }
  }

  /** The merge refuses exactly the candidates that do not describe one book. */
  lemma MergeRefusesExactlyWhen(cs: seq<CleanBook>)
    ensures MergeCandidates(cs, None).Ok? <==>
      && cs != []
      && (forall c, d :: c in cs && d in cs && c.isbn13.Some? && d.isbn13.Some? ==> c.isbn13 == d.isbn13)
      && ((forall c :: c in cs ==> c.isbn13.None?) ==>
            forall c, d :: c in cs && d in cs ==> c.identity == d.identity)
  {
    AtMostOneIsbn(cs);
    AtMostOneIdentity(cs);
    hide Isbns, Identities, Blend, ByRank;
  }

  lemma TwoOf<T>(s: set<T>) returns (a: T, b: T)
    requires |s| > 1
    ensures a in s && b in s && a != b
  {
    a :| a in s;
    assert |s - {a}| >= 1;
    b :| b in s - {a};
  }

  // ----- putting one candidate's observations on one identity

  function Rekey(c: CleanBook, identity: IdentityKey): (r: CleanBook)
    ensures KeyOf(r) == KeyOf(c) && r.identity == identity
  {
    if c.identity == identity then c else c.(identity := identity, isbn13 := IsbnOf(identity))
  }

  function RekeyAll(cs: seq<CleanBook>, identity: IdentityKey): (r: seq<CleanBook>)
    ensures |r| == |cs|
    ensures forall i :: 0 <= i < |cs| ==> r[i] == Rekey(cs[i], identity)
  {
    seq(|cs|, i requires 0 <= i < |cs| => Rekey(cs[i], identity))
  }

  /** The identity several observations of one candidate are put on; None when their ISBNs conflict. */
  function UnifiedIdentity(cs: seq<CleanBook>): Option<IdentityKey>
    requires cs != []
  {
    if |Isbns(cs)| > 1 then None
    else if Isbns(cs) != {} then Some(Isbn(OnlyOf(Isbns(cs)).value))
    else
      Some(ByRank(cs)[0].identity)
  }

  function UnifyIdentity(cs: seq<CleanBook>): Option<seq<CleanBook>> {
    if cs == [] then Some([])
    else match UnifiedIdentity(cs)
      case None => None
      case Some(identity) => Some(RekeyAll(cs, identity))
  }

  /** Unification is refused exactly when two observations carry different ISBNs. */
  lemma UnifyRefusesExactlyWhen(cs: seq<CleanBook>)
    ensures UnifyIdentity(cs).None? <==>
      exists c, d :: c in cs && d in cs && c.isbn13.Some? && d.isbn13.Some? && c.isbn13 != d.isbn13
  {
    if |Isbns(cs)| > 1 {
      var a, b := TwoOf(Isbns(cs));
      var c :| c in cs && c.isbn13 == Some(a);
      var d :| d in cs && d.isbn13 == Some(b);
    } else {
      forall c, d | c in cs && d in cs && c.isbn13.Some? && d.isbn13.Some? ensures c.isbn13 == d.isbn13 {
        AtMostOne(Isbns(cs), c.isbn13.value, d.isbn13.value);
      }
    }
  }

  /** The identity chosen is one of the observations' own, the same for any order of them. */
  lemma UnifyIsOrderFree(p: seq<CleanBook>, q: seq<CleanBook>)
    requires p != [] && multiset(p) == multiset(q)
    requires Distinct(p)
    ensures q != [] && UnifiedIdentity(p) == UnifiedIdentity(q)
    ensures UnifiedIdentity(p).Some? ==> exists c :: c in p && c.identity == UnifiedIdentity(p).value
  {
    SameElements(p, q);
    ByRankIsOrderFree(p, q);
    assert Isbns(p) == Isbns(q);
    if UnifiedIdentity(p).Some? {
      if Isbns(p) != {} {
        var c :| c in p && c.isbn13 == OnlyOf(Isbns(p));
      } else {
        assert ByRank(p)[0] in p;
      }
    }
  }
}
