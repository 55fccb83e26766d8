/**
  The rows of the publications database (publications, stars, questions), the
  blockchain status enumeration and the exceptions the endpoints raise.
  Nullable columns are `Option`s; `None` stands for SQL NULL.
 */
module Models {
  import opened Wrappers

  /** The blockchain confirmation state of a publication. */
  datatype BlockChainStatus = CONFIRMED | DENIED | PENDING | UNSET | ERROR

  /** The string value of each enumeration member (the value queries compare against). */
  function StatusValue(s: BlockChainStatus): (r: string)
  {
    match s
    case CONFIRMED => "CONFIRMED"
    case DENIED => "DENIED"
    case PENDING => "PENDING"
    case UNSET => "UNSET"
    case ERROR => "ERROR"
  }

  /** The enumeration member whose value is `v`, if any. */
  function StatusNamed(v: string): (r: Option<BlockChainStatus>)
    ensures r.Some? ==> StatusValue(r.value) == v
  {
    if v == "CONFIRMED" then Some(CONFIRMED)
    else if v == "DENIED" then Some(DENIED)
    else if v == "PENDING" then Some(PENDING)
    else if v == "UNSET" then Some(UNSET)
    else if v == "ERROR" then Some(ERROR)
    else None
  }

  /** Every member's value names it back, so the values are pairwise distinct. */
  lemma StatusValueRoundTrip(s: BlockChainStatus)
    ensures StatusNamed(StatusValue(s)) == Some(s)
  {
    match s
    case CONFIRMED =>
    case DENIED =>
      assert "DENIED" != "CONFIRMED";
    case PENDING =>
      assert "PENDING" != "CONFIRMED" && "PENDING" != "DENIED";
    case UNSET =>
      assert "UNSET" != "CONFIRMED" && "UNSET" != "DENIED" && "UNSET" != "PENDING";
    case ERROR =>
      assert "ERROR" != "CONFIRMED" && "ERROR" != "DENIED" && "ERROR" != "PENDING" && "ERROR" != "UNSET";
  }

  /** A stored location, in the coordinate order the service writes it (latitude first). */
  datatype Point = Point(latitude: real, longitude: real)

  /** A row of the publication table. */
  datatype Publication = Publication(
    id: int,
    userId: int,                 // NOT NULL
    title: Option<string>,
    description: Option<string>,
    rooms: Option<int>,
    beds: Option<int>,
    bathrooms: Option<int>,
    pricePerNight: Option<real>,
    images: seq<string>,         // URLs of the publication's image rows
    loc: Point,
    blocked: Option<bool>,       // nullable column
    blockchainStatus: BlockChainStatus,
    blockchainId: Option<int>,
    blockchainTransactionHash: Option<string>)

  /**
    The CHECK constraints of the publication table. As in SQL, a NULL value passes a
    CHECK; the price must be strictly positive although its constraint is named
    "nonnegative".
   */
  predicate SatisfiesChecks(p: Publication)
  {
    && (p.rooms.Some? ==> p.rooms.value >= 0)
    && (p.beds.Some? ==> p.beds.value >= 0)
    && (p.bathrooms.Some? ==> p.bathrooms.value >= 0)
    && (p.pricePerNight.Some? ==> p.pricePerNight.value > 0.0)
  }

  /** Python truthiness of the nullable `blocked` column: NULL counts as not blocked. */
  predicate IsBlocked(p: Publication)
  {
    p.blocked == Some(true)
  }

  /** A row of the star table: a user starring a publication at some time. */
  datatype Star = Star(userId: int, publicationId: int, createdAt: int)

  /** A row of the question table. Times are abstract clock readings. */
  datatype Question = Question(
    id: int,
    question: string,
    reply: Option<string>,
    createdAt: int,
    repliedAt: Option<int>,
    userId: int,
    publicationId: int)

  /**
    The exceptions of the service: the three custom ones, the 400 that request parsing
    raises for a value it cannot convert, the AttributeError of calling `apply` on a
    value that is not a filter, the TypeError of a keyword argument given twice, the
    integrity error of a violated table constraint (a CHECK, NOT NULL, primary key or
    foreign key), and the statement error of a value the column's type cannot hold.
   */
  datatype Error =
    | DistanceFilterMissingParameters
    | BlockedPublication
    | PublicationDoesNotExist
    | BadRequest
    | AttributeError
    | TypeError
    | IntegrityError
    | StatementError

  /**
    The HTTP status each exception is rendered with. The namespaces' handlers are
    shared by the API, so BlockedPublication gets the questions namespace's 400;
    exceptions without a handler get the generic handler's 500.
   */
  function StatusOf(e: Error): (code: int)
    ensures 400 <= code < 600
    ensures code < 500 <==> !(e.AttributeError? || e.TypeError? || e.IntegrityError? || e.StatementError?)
  {
    match e
    case DistanceFilterMissingParameters => 400
    case BlockedPublication => 400
    case PublicationDoesNotExist => 404
    case BadRequest => 400
    case AttributeError => 500
    case TypeError => 500
    case IntegrityError => 500
    case StatementError => 500
  }

  /** What an endpoint does: return a status code, or raise an exception. */
  datatype Response = Returned(code: int) | Raised(error: Error)
}
