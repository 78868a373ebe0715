// The validated records that reach the merge and load stages.

module Domain {
  import opened Ordering

  datatype Source = Goodreads | GoogleBooks | OpenLibrary | Gutendex

  /** The canonical identity: an ISBN, or a digest of title, author and year. */
  datatype IdentityKey = Isbn(isbn: string) | Fallback(digest: string)

  datatype Value = Text(text: string) | Number(number: int) | Exact(amount: real)
  {
    /** Whether the source language counts the value as true. */
    predicate Truthy() {
      match this
      case Text(s) => s != ""
      case Number(n) => n != 0
      case Exact(r) => r != 0.0
    }
  }

  datatype Field =
    | Title | NormalisedTitle | Subtitle | PublishedYear | PageCount | Language | Publisher
    | Description | CoverUrl | DownloadCount | GoodreadsAverageRating | NormalisedFirstAuthor

  const MERGEABLE_FIELDS: seq<Field> := [
    Title, NormalisedTitle, Subtitle, PublishedYear, PageCount, Language, Publisher,
    Description, CoverUrl, DownloadCount, GoodreadsAverageRating, NormalisedFirstAuthor]

  /** An author credit; `normalised` is its comparison form, absent when the name folds away. */
  datatype Author = Author(name: string, normalised: Option<string>)

  /** A subject heading, with its comparison form. */
  datatype Subject = Subject(name: string, normalised: Option<string>)

  /** A display name, with its comparison form. */
  datatype SeriesName = SeriesName(display: string, folded: Option<string>)

  /** SHA-256 is treated as injective, so a name-derived key is the normalised name itself. */
  datatype SeriesKey = Named(normalised: string) | FromSource(source: Source, id: string)

  datatype Membership = Membership(
    name: SeriesName, normalised: string, sourceSeriesId: Option<string>,
    position: Option<real>, confirmed: bool)
  {
    predicate HasId() {
      sourceSeriesId.Some? && sourceSeriesId.value != ""
    }

    /** The canonical identity of the series: a confirmed source id, else the name. */
    function Key(source: Source): SeriesKey {
      if confirmed && HasId() then FromSource(source, sourceSeriesId.value) else Named(normalised)
    }
  }

  datatype BookFacts = BookFacts(
    source: Source, sourceId: string,
    identity: IdentityKey, isbn13: Option<string>,
    fields: map<Field, Value>,
    authors: seq<Author>, subjects: seq<Subject>, series: seq<Membership>)

  /** The validator that ties an identity key to its ISBN. */
  predicate Agrees(identity: IdentityKey, isbn13: Option<string>) {
    isbn13 == IsbnOf(identity)
  }

  function IsbnOf(identity: IdentityKey): Option<string> {
    if identity.Isbn? then Some(identity.isbn) else None
  }

  /** A record that passed validation; an absent field is a null one. */
  type CleanBook = b: BookFacts | Agrees(b.identity, b.isbn13)
    witness BookFacts(Goodreads, "", Fallback(""), None, map[], [], [], [])

  /** The ingestion identity, which never changes. */
  datatype Key = Key(source: Source, sourceId: string)

  function KeyOf(b: BookFacts): Key {
    Key(b.source, b.sourceId)
  }

  function Priority(source: Source): nat {
    match source
    case Goodreads => 0
    case GoogleBooks => 1
    case OpenLibrary => 2
    case Gutendex => 3
  }

  /** Alphabetical, as the database orders the provider's name. */
  function Alphabetical(source: Source): nat {
    match source
    case Goodreads => 0
    case GoogleBooks => 1
    case Gutendex => 2
    case OpenLibrary => 3
  }

  predicate KeyLe(a: Key, b: Key) {
    || Alphabetical(a.source) < Alphabetical(b.source)
    || (a.source == b.source && LexLe(a.sourceId, b.sourceId))
  }

  lemma KeyIsTotalOrder()
    ensures TotalOrder(KeyLe)
  {
    LexIsTotalOrder();
    forall x: Key, y: Key ensures KeyLe(x, y) || KeyLe(y, x) { LexTotal(x.sourceId, y.sourceId); }
    forall x: Key, y: Key | KeyLe(x, y) && KeyLe(y, x) ensures x == y {
      LexAntisymmetric(x.sourceId, y.sourceId);
    }
    forall x: Key, y: Key, z: Key | KeyLe(x, y) && KeyLe(y, z) ensures KeyLe(x, z) {
      if x.source == y.source == z.source {
        LexTransitive(x.sourceId, y.sourceId, z.sourceId);
      }
    }
  }

  /**
   * A stored document. What a provider's mapper and canonicalisation make of it is recorded
   * beside it, for every provider that can read it, so replay is an arbitrary pure function.
   */
  datatype Payload = Payload(document: string, readings: map<Source, CleanBook>)

  /** `map_payload` followed by `canonicalise`; None when either rejects the document. */
  function Replay(source: Source, payload: Payload): Option<CleanBook> {
    if source in payload.readings then Some(payload.readings[source]) else None
  }

  /** What the loader is handed: a clean record and the document it came from. */
  datatype Record = Record(book: CleanBook, payload: Payload)
  {
    function Key(): Key {
      KeyOf(book)
    }
  }
}
