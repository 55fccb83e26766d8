/**
  The single-publication endpoints, the star endpoints and the question endpoints as
  transitions of the database's abstract state: each takes the state before the
  request and gives the response and the state after it. A transaction that fails
  leaves the state as it was, except for the question id sequence, whose drawn values
  are not given back.
 */
module Store {
  import opened Wrappers
  import opened Models
  import opened QuestionController

  /** The contents of the database. */
  datatype Contents = Contents(
    publications: map<int, Publication>,
    stars: seq<Star>,
    questions: seq<Question>,
    nextQuestionId: int)

  /**
    The table invariants: each publication is stored under its id and satisfies the
    CHECK constraints; question ids are unique (the primary key); star and question
    rows reference an existing publication (their foreign keys).
   */
  predicate Valid(s: Contents)
  {
    && (forall id :: id in s.publications ==> s.publications[id].id == id && SatisfiesChecks(s.publications[id]))
    && (forall i, j :: 0 <= i < j < |s.questions| ==> s.questions[i].id != s.questions[j].id)
    && (forall i :: 0 <= i < |s.questions| ==> s.questions[i].publicationId in s.publications)
    && (forall i :: 0 <= i < |s.stars| ==> s.stars[i].publicationId in s.publications)
  }

  // ---------------------------------------------------------------------------
  // Publications
  // ---------------------------------------------------------------------------

  /** `GET /<id>`: the publication, unless it is missing (404) or blocked (403). The
      state is not changed. */
  function GetPublication(s: Contents, id: int): (r: (Response, Option<Publication>))
    ensures r.0 == Raised(PublicationDoesNotExist) <==> id !in s.publications
    ensures r.0 == Returned(403) <==> id in s.publications && IsBlocked(s.publications[id])
    ensures r.0 == Returned(200) <==> r.1.Some?
    ensures r.1.Some? ==> id in s.publications && r.1.value == s.publications[id] && !IsBlocked(r.1.value)
  {
    if id !in s.publications then (Raised(PublicationDoesNotExist), None)
    else if IsBlocked(s.publications[id]) then (Returned(403), None)
    else (Returned(200), Some(s.publications[id]))
  }

  /**
    Keys of a request body that name a column of the publication table but that the
    endpoint's expected model does not declare. Validation does not reject undeclared
    keys, and `update_from_dict(**data)` writes every key it is handed. `None` is an
    absent key and `Some(None)` a JSON null.
   */
  datatype PutExtra = PutExtra(
    id: Option<int>,
    blocked: Option<Option<bool>>,
    blockchainStatus: Option<string>,
    blockchainId: Option<Option<int>>,
    blockchainTransactionHash: Option<Option<string>>)

  /** A `PUT` body with no undeclared key. */
  const NoPutExtra := PutExtra(None, None, None, None, None)

  /** The payload of `PUT /<id>`. An absent `user_id` is `None`; the other declared
      fields are always given (their JSON values may be null). */
  datatype Listing = Listing(
    userId: Option<int>,
    title: Option<string>,
    description: Option<string>,
    rooms: Option<int>,
    beds: Option<int>,
    bathrooms: Option<int>,
    pricePerNight: Option<real>,
    images: seq<string>,
    loc: Point,
    extra: PutExtra)

  /** The publication with the payload's keys written over it. A status string that
      names no member of the enumeration cannot be stored. */
  function Replaced(p: Publication, l: Listing): (r: Result<Publication, Error>)
    ensures r.Failure? <==> l.extra.blockchainStatus.Some? && StatusNamed(l.extra.blockchainStatus.value).None?
    ensures r.Failure? ==> r.error == StatementError
    ensures r.Success? ==>
      && r.value.userId == (if l.userId.Some? then l.userId.value else p.userId)
      && r.value.title == l.title && r.value.description == l.description
      && r.value.images == l.images && r.value.loc == l.loc
      && r.value.rooms == l.rooms && r.value.beds == l.beds && r.value.bathrooms == l.bathrooms
      && r.value.pricePerNight == l.pricePerNight
    ensures r.Success? ==>
      && r.value.id == (if l.extra.id.Some? then l.extra.id.value else p.id)
      && r.value.blocked == (if l.extra.blocked.Some? then l.extra.blocked.value else p.blocked)
      && (l.extra.blockchainStatus.Some? ==> StatusValue(r.value.blockchainStatus) == l.extra.blockchainStatus.value)
      && (l.extra.blockchainStatus.None? ==> r.value.blockchainStatus == p.blockchainStatus)
      && r.value.blockchainId == (if l.extra.blockchainId.Some? then l.extra.blockchainId.value else p.blockchainId)
      && r.value.blockchainTransactionHash ==
           (if l.extra.blockchainTransactionHash.Some? then l.extra.blockchainTransactionHash.value
            else p.blockchainTransactionHash)
  {
    var x := l.extra;
    var status := if x.blockchainStatus.Some? then StatusNamed(x.blockchainStatus.value) else Some(p.blockchainStatus);
    if status.None? then Failure(StatementError)
    else
      Success(p.(
        id := if x.id.Some? then x.id.value else p.id,
        userId := if l.userId.Some? then l.userId.value else p.userId,
        title := l.title, description := l.description,
        rooms := l.rooms, beds := l.beds, bathrooms := l.bathrooms,
        pricePerNight := l.pricePerNight, images := l.images, loc := l.loc,
        blocked := if x.blocked.Some? then x.blocked.value else p.blocked,
        blockchainStatus := status.value,
        blockchainId := if x.blockchainId.Some? then x.blockchainId.value else p.blockchainId,
        blockchainTransactionHash :=
          if x.blockchainTransactionHash.Some? then x.blockchainTransactionHash.value else p.blockchainTransactionHash))
  }

  /**
    Whether the row read from under `id` can be committed as `p`: it satisfies the
    CHECK constraints and, when the body gave it a new key, that key is free and no
    star or question row still refers to the old one (their foreign keys).
   */
  predicate Storable(s: Contents, id: int, p: Publication)
  {
    && SatisfiesChecks(p)
    && (p.id != id ==>
         && p.id !in s.publications
         && (forall i :: 0 <= i < |s.stars| ==> s.stars[i].publicationId != id)
         && (forall i :: 0 <= i < |s.questions| ==> s.questions[i].publicationId != id))
  }

  /** The publication table once the row read from under `id` is committed as `p`:
      the row is found under its own key, and every other row is kept. */
  function Stored(publications: map<int, Publication>, id: int, p: Publication): (r: map<int, Publication>)
    requires id in publications
    ensures r.Keys == publications.Keys - {id} + {p.id}
    ensures r[p.id] == p
    ensures forall k :: k in publications && k != id && k != p.id ==> r[k] == publications[k]
  {
    if p.id == id then publications[id := p] else (publications - {id})[p.id := p]
  }

  /**
    `PUT /<id>`: missing gives 404 and blocked gives 403, with no change; a body that
    cannot be stored, or whose commit violates a constraint, fails and changes nothing;
    otherwise the row is replaced and nothing else changes.
   */
  function PutPublication(s: Contents, id: int, l: Listing): (r: (Response, Contents))
    ensures id !in s.publications ==> r == (Raised(PublicationDoesNotExist), s)
    ensures id in s.publications && IsBlocked(s.publications[id]) ==> r == (Returned(403), s)
    ensures id in s.publications && !IsBlocked(s.publications[id]) && Replaced(s.publications[id], l).Failure? ==>
      r == (Raised(StatementError), s)
    ensures (id in s.publications && !IsBlocked(s.publications[id]) && Replaced(s.publications[id], l).Success? &&
             !Storable(s, id, Replaced(s.publications[id], l).value)) ==> r == (Raised(IntegrityError), s)
    ensures r.0 == Returned(200) <==>
      && id in s.publications && !IsBlocked(s.publications[id]) && Replaced(s.publications[id], l).Success?
      && Storable(s, id, Replaced(s.publications[id], l).value)
    ensures r.0 == Returned(200) ==>
      r.1 == s.(publications := Stored(s.publications, id, Replaced(s.publications[id], l).value))
    ensures r.0 != Returned(200) ==> r.1 == s
  {
    if id !in s.publications then (Raised(PublicationDoesNotExist), s)
    else if IsBlocked(s.publications[id]) then (Returned(403), s)
    else
      match Replaced(s.publications[id], l)
      case Failure(e) => (Raised(e), s)
      case Success(updated) =>
        if !Storable(s, id, updated) then (Raised(IntegrityError), s)
        else (Returned(200), s.(publications := Stored(s.publications, id, updated)))
  }

  /** Keys of a `PATCH` body beyond the three declared blockchain fields. */
  datatype PatchExtra = PatchExtra(
    id: Option<int>,
    userId: Option<Option<int>>,
    title: Option<Option<string>>,
    description: Option<Option<string>>,
    rooms: Option<Option<int>>,
    beds: Option<Option<int>>,
    bathrooms: Option<Option<int>>,
    pricePerNight: Option<Option<real>>,
    blocked: Option<Option<bool>>)

  /** A `PATCH` body with no undeclared key. */
  const NoPatchExtra := PatchExtra(None, None, None, None, None, None, None, None, None)

  /** The payload of `PATCH /<id>`: the declared blockchain fields, each optional,
      and the undeclared keys. */
  datatype BlockchainPatch = BlockchainPatch(
    status: Option<BlockChainStatus>,
    transactionHash: Option<string>,
    blockchainId: Option<int>,
    extra: PatchExtra)

  /** Writes `v` when the key is given. */
  function Given<T>(key: Option<T>, v: T): (r: T)
    ensures key.Some? ==> r == key.value
    ensures key.None? ==> r == v
  {
    if key.Some? then key.value else v
  }

  /** The publication with the body's keys written over it. A null `user_id` violates
      the column's NOT NULL constraint. */
  function Patched(p: Publication, b: BlockchainPatch): (r: Result<Publication, Error>)
    ensures r.Failure? <==> b.extra.userId == Some(None)
    ensures r.Failure? ==> r.error == IntegrityError
    ensures r.Success? ==>
      && r.value.blockchainStatus == (if b.status.Some? then b.status.value else p.blockchainStatus)
      && r.value.blockchainTransactionHash == (if b.transactionHash.Some? then b.transactionHash else p.blockchainTransactionHash)
      && r.value.blockchainId == (if b.blockchainId.Some? then b.blockchainId else p.blockchainId)
      && r.value.images == p.images && r.value.loc == p.loc
    ensures r.Success? ==>
      && r.value.id == (if b.extra.id.Some? then b.extra.id.value else p.id)
      && r.value.userId == (if b.extra.userId.Some? then b.extra.userId.value.value else p.userId)
      && r.value.title == (if b.extra.title.Some? then b.extra.title.value else p.title)
      && r.value.description == (if b.extra.description.Some? then b.extra.description.value else p.description)
      && r.value.rooms == (if b.extra.rooms.Some? then b.extra.rooms.value else p.rooms)
      && r.value.beds == (if b.extra.beds.Some? then b.extra.beds.value else p.beds)
      && r.value.bathrooms == (if b.extra.bathrooms.Some? then b.extra.bathrooms.value else p.bathrooms)
      && r.value.pricePerNight == (if b.extra.pricePerNight.Some? then b.extra.pricePerNight.value else p.pricePerNight)
      && r.value.blocked == (if b.extra.blocked.Some? then b.extra.blocked.value else p.blocked)
  {
    var x := b.extra;
    if x.userId == Some(None) then Failure(IntegrityError)
    else
      Success(p.(
        id := Given(x.id, p.id),
        userId := if x.userId.Some? then x.userId.value.value else p.userId,
        title := Given(x.title, p.title),
        description := Given(x.description, p.description),
        rooms := Given(x.rooms, p.rooms),
        beds := Given(x.beds, p.beds),
        bathrooms := Given(x.bathrooms, p.bathrooms),
        pricePerNight := Given(x.pricePerNight, p.pricePerNight),
        blocked := Given(x.blocked, p.blocked),
        blockchainStatus := Given(b.status, p.blockchainStatus),
        blockchainTransactionHash := if b.transactionHash.Some? then b.transactionHash else p.blockchainTransactionHash,
        blockchainId := if b.blockchainId.Some? then b.blockchainId else p.blockchainId))
  }

  /** `PATCH /<id>`: missing raises PublicationDoesNotExist and blocked raises
      BlockedPublication; a body whose commit violates a constraint fails; otherwise
      the body's keys are written. A failure changes nothing. */
  function PatchPublication(s: Contents, id: int, b: BlockchainPatch): (r: (Response, Contents))
    ensures r.0 == Raised(PublicationDoesNotExist) <==> id !in s.publications
    ensures r.0 == Raised(BlockedPublication) <==> id in s.publications && IsBlocked(s.publications[id])
    ensures r.0 == Returned(200) <==>
      && id in s.publications && !IsBlocked(s.publications[id]) && Patched(s.publications[id], b).Success?
      && Storable(s, id, Patched(s.publications[id], b).value)
    ensures id in s.publications && !IsBlocked(s.publications[id]) && r.0 != Returned(200) ==>
      r.0 == Raised(IntegrityError)
    ensures r.0 == Returned(200) ==>
      r.1 == s.(publications := Stored(s.publications, id, Patched(s.publications[id], b).value))
    ensures r.0 != Returned(200) ==> r.1 == s
  {
    if id !in s.publications then (Raised(PublicationDoesNotExist), s)
    else if IsBlocked(s.publications[id]) then (Raised(BlockedPublication), s)
    else
      match Patched(s.publications[id], b)
      case Failure(e) => (Raised(e), s)
      case Success(updated) =>
        if !Storable(s, id, updated) then (Raised(IntegrityError), s)
        else (Returned(200), s.(publications := Stored(s.publications, id, updated)))
  }

  /** `DELETE /<id>` blocks: missing raises PublicationDoesNotExist, already blocked
      raises BlockedPublication, both with no change; otherwise only `blocked`
      becomes true. */
  function BlockPublication(s: Contents, id: int): (r: (Response, Contents))
    ensures r.0 == Raised(PublicationDoesNotExist) <==> id !in s.publications
    ensures r.0 == Raised(BlockedPublication) <==> id in s.publications && IsBlocked(s.publications[id])
    ensures r.0 == Returned(200) <==> id in s.publications && !IsBlocked(s.publications[id])
    ensures r.0 == Returned(200) ==>
      r.1 == s.(publications := s.publications[id := s.publications[id].(blocked := Some(true))])
    ensures r.0 != Returned(200) ==> r.1 == s
  {
    if id !in s.publications then (Raised(PublicationDoesNotExist), s)
    else if IsBlocked(s.publications[id]) then (Raised(BlockedPublication), s)
    else (Returned(200), s.(publications := s.publications[id := s.publications[id].(blocked := Some(true))]))
  }

  // ---------------------------------------------------------------------------
  // Stars
  // ---------------------------------------------------------------------------

  /** `POST /<id>/star`: the publication is looked up before the user id is parsed
      (a missing user id is a 400); a new row is appended, with no check that the
      user had not starred the publication already. */
  function StarPublication(s: Contents, id: int, userId: Option<int>, now: int): (r: (Response, Contents))
    ensures r.0 == Raised(PublicationDoesNotExist) <==> id !in s.publications
    ensures r.0 == Raised(BlockedPublication) <==> id in s.publications && IsBlocked(s.publications[id])
    ensures r.0 == Returned(200) <==> ValidatePublication(s.publications, id).None? && userId.Some?
    ensures r.0 == Returned(200) ==> r.1 == s.(stars := s.stars + [Star(userId.value, id, now)])
    ensures r.0 != Returned(200) ==> r.1 == s
  {
    match ValidatePublication(s.publications, id)
    case Some(e) => (Raised(e), s)
    case None =>
      if userId.None? then (Raised(BadRequest), s)
      else (Returned(200), s.(stars := s.stars + [Star(userId.value, id, now)]))
  }

  /** The first star row of publication `id` by user `userId` (`.first()`). */
  function FirstStar(stars: seq<Star>, id: int, userId: int): (r: Option<nat>)
    ensures r.Some? ==> r.value < |stars| && stars[r.value].publicationId == id && stars[r.value].userId == userId
    ensures r.Some? ==> forall j :: 0 <= j < r.value ==> !(stars[j].publicationId == id && stars[j].userId == userId)
    ensures r.None? ==> forall j :: 0 <= j < |stars| ==> !(stars[j].publicationId == id && stars[j].userId == userId)
  {
    if |stars| == 0 then None
    else if stars[0].publicationId == id && stars[0].userId == userId then Some(0)
    else
      match FirstStar(stars[1..], id, userId)
      case None => None
      case Some(k) => Some(k + 1)
  }

  /** `DELETE /<id>/star`: the user id is parsed first (missing gives 400); without a
      matching row the response is 400 and nothing changes; otherwise exactly one
      matching row, the first, is removed. The publication is not looked up. */
  function UnstarPublication(s: Contents, id: int, userId: Option<int>): (r: (Response, Contents))
    ensures userId.None? ==> r == (Raised(BadRequest), s)
    ensures userId.Some? && FirstStar(s.stars, id, userId.value).None? ==> r == (Returned(400), s)
    ensures r.0 == Returned(200) <==> userId.Some? && FirstStar(s.stars, id, userId.value).Some?
    ensures r.0 == Returned(200) ==>
      && r.1.publications == s.publications && r.1.questions == s.questions
      && r.1.nextQuestionId == s.nextQuestionId && |r.1.stars| + 1 == |s.stars|
      && exists k :: 0 <= k < |s.stars| && s.stars[k].publicationId == id && s.stars[k].userId == userId.value &&
           multiset(r.1.stars) + multiset{s.stars[k]} == multiset(s.stars)
  {
    if userId.None? then (Raised(BadRequest), s)
    else
      match FirstStar(s.stars, id, userId.value)
      case None => (Returned(400), s)
      case Some(k) =>
        assert s.stars == s.stars[..k] + [s.stars[k]] + s.stars[k + 1..];
        (Returned(200), s.(stars := s.stars[..k] + s.stars[k + 1..]))
  }

  /** `GET /<id>/star`: the star rows of the publication, in table order, narrowed to
      the user when `user_id` is given. A row listed twice in the table is listed
      twice. */
  function Starrings(stars: seq<Star>, id: int, userId: Option<int>): (r: seq<Star>)
    ensures forall x :: x in r <==> x in stars && x.publicationId == id && (userId.Some? ==> x.userId == userId.value)
    ensures forall x :: multiset(r)[x] ==
                        (if x.publicationId == id && (userId.Some? ==> x.userId == userId.value) then multiset(stars)[x] else 0)
    ensures |r| <= |stars|
  {
    if |stars| == 0 then []
    else
      var keep := stars[0].publicationId == id && (userId.Some? ==> stars[0].userId == userId.value);
      assert stars == [stars[0]] + stars[1..];
      (if keep then [stars[0]] else []) + Starrings(stars[1..], id, userId)
  }

  // ---------------------------------------------------------------------------
  // Questions
  // ---------------------------------------------------------------------------

  /**
    Keys of a question body that name a column of the question table but that the
    expected model does not declare. The body is handed whole to the row's constructor
    next to the path's `publication_id` keyword, so an `id` or a `reply` is written as
    given, and a `publication_id` key makes the call fail with a TypeError. A null
    `id` or `reply` is the same as an absent one.
   */
  datatype QuestionExtra = QuestionExtra(id: Option<int>, reply: Option<string>, publicationId: bool)

  /** A body holding only the declared keys. */
  const NoQuestionExtra := QuestionExtra(None, None, false)

  /** Every question id lies below the sequence: it holds while no body gives an id. */
  predicate SequenceAhead(s: Contents)
  {
    forall i :: 0 <= i < |s.questions| ==> s.questions[i].id < s.nextQuestionId
  }

  /** Some question row has the given id. */
  predicate QuestionIdTaken(questions: seq<Question>, questionId: int)
  {
    exists i :: 0 <= i < |questions| && questions[i].id == questionId
  }

  /** The id of a new question: the body's, or else the next value of the sequence. */
  function NewQuestionId(s: Contents, extra: QuestionExtra): int
  {
    if extra.id.Some? then extra.id.value else s.nextQuestionId
  }

  /** The id sequence after an insert: it is drawn from only when the body gives no
      id, and a drawn value is not given back when the transaction fails. */
  function SequenceAfter(s: Contents, extra: QuestionExtra): int
  {
    if extra.id.Some? then s.nextQuestionId else s.nextQuestionId + 1
  }

  /** `POST /<id>/questions`: after the guard, one question row is added with the
      given text and user and the path's publication, with the body's id and reply if
      it gives them and otherwise the next id and no reply. A `publication_id` key is
      a TypeError, and an id that is already taken an IntegrityError. */
  function CreateQuestion(s: Contents, id: int, text: string, userId: int, extra: QuestionExtra, now: int): (r: (Response, Contents))
    ensures ValidatePublication(s.publications, id).Some? ==>
      r == (Raised(ValidatePublication(s.publications, id).value), s)
    ensures ValidatePublication(s.publications, id).None? && extra.publicationId ==> r == (Raised(TypeError), s)
    ensures r.0 == Returned(200) <==>
      ValidatePublication(s.publications, id).None? && !extra.publicationId &&
      !QuestionIdTaken(s.questions, NewQuestionId(s, extra))
    ensures r.0 == Raised(IntegrityError) <==>
      ValidatePublication(s.publications, id).None? && !extra.publicationId &&
      QuestionIdTaken(s.questions, NewQuestionId(s, extra))
    ensures r.0 == Raised(IntegrityError) ==> r.1 == s.(nextQuestionId := SequenceAfter(s, extra))
    ensures r.0 == Returned(200) ==> r.1 == s.(
      questions := s.questions + [Question(NewQuestionId(s, extra), text, extra.reply, now, None, userId, id)],
      nextQuestionId := SequenceAfter(s, extra))
  {
    match ValidatePublication(s.publications, id)
    case Some(e) => (Raised(e), s)
    case None =>
      if extra.publicationId then (Raised(TypeError), s)
      else
        var questionId := NewQuestionId(s, extra);
        if QuestionIdTaken(s.questions, questionId) then
          (Raised(IntegrityError), s.(nextQuestionId := SequenceAfter(s, extra)))
        else
          (Returned(200), s.(questions := s.questions + [Question(questionId, text, extra.reply, now, None, userId, id)],
                             nextQuestionId := SequenceAfter(s, extra)))
  }

  /** The first question with the given id on the given publication. */
  function FindQuestion(questions: seq<Question>, publicationId: int, questionId: int): (r: Option<nat>)
    ensures r.Some? ==>
      r.value < |questions| && questions[r.value].id == questionId && questions[r.value].publicationId == publicationId
    ensures r.Some? ==> forall j :: 0 <= j < r.value ==>
      !(questions[j].id == questionId && questions[j].publicationId == publicationId)
    ensures r.None? ==> forall j :: 0 <= j < |questions| ==>
      !(questions[j].id == questionId && questions[j].publicationId == publicationId)
  {
    if |questions| == 0 then None
    else if questions[0].id == questionId && questions[0].publicationId == publicationId then Some(0)
    else
      match FindQuestion(questions[1..], publicationId, questionId)
      case None => None
      case Some(k) => Some(k + 1)
  }

  /** `PATCH /<id>/questions/<qid>`: the guard runs before the lookup; a question that
      is not on that publication gives 404 with no change; otherwise its reply and
      reply time are set and every other field and question is kept. */
  function ReplyQuestion(s: Contents, publicationId: int, questionId: int, reply: string, now: int): (r: (Response, Contents))
    ensures ValidatePublication(s.publications, publicationId).Some? ==>
      r == (Raised(ValidatePublication(s.publications, publicationId).value), s)
    ensures (ValidatePublication(s.publications, publicationId).None? &&
             FindQuestion(s.questions, publicationId, questionId).None?) ==> r == (Returned(404), s)
    ensures r.0 == Returned(200) <==>
      (ValidatePublication(s.publications, publicationId).None? && FindQuestion(s.questions, publicationId, questionId).Some?)
    ensures r.0 == Returned(200) ==>
      var k := FindQuestion(s.questions, publicationId, questionId).value;
      && r.1 == s.(questions := s.questions[k := s.questions[k].(reply := Some(reply), repliedAt := Some(now))])
  {
    match ValidatePublication(s.publications, publicationId)
    case Some(e) => (Raised(e), s)
    case None =>
      match FindQuestion(s.questions, publicationId, questionId)
      case None => (Returned(404), s)
      case Some(k) =>
        (Returned(200), s.(questions := s.questions[k := s.questions[k].(reply := Some(reply), repliedAt := Some(now))]))
  }
}
