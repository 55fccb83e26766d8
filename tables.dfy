/**
  The service's database session: the publication table keyed by its primary key,
  the star rows and the question rows in insertion order, and the question id
  sequence. Each endpoint is a method that updates the tables in place; its contract
  ties the response and the new contents to the transition it implements.
 */
module Tables {
  import opened Wrappers
  import opened Models
  import opened QuestionController
  import opened Store
  import opened StoreProperties

  class Database {
    var publications: map<int, Publication>
    var stars: seq<Star>
    var questions: seq<Question>
    /** The next value of the question id sequence. */
    var nextQuestionId: int

    /** The contents of the tables. */
    function State(): (r: Contents)
      reads this
    {
      Contents(publications, stars, questions, nextQuestionId)
    }

    ghost predicate Valid()
      reads this
    {
      Store.Valid(State())
    }

    /** An empty database. */
    constructor ()
      ensures Valid()
      ensures State() == Contents(map[], [], [], 1)
    {
      publications := map[];
      stars := [];
      questions := [];
      nextQuestionId := 1;
    }

    method Get(id: int) returns (r: Response, p: Option<Publication>)
      ensures (r, p) == GetPublication(State(), id)
    {
      if id !in publications {
        return Raised(PublicationDoesNotExist), None;
      }
      var publication := publications[id];
      if IsBlocked(publication) {
        return Returned(403), None;
      }
      return Returned(200), Some(publication);
    }

    /** The old image rows are dropped and one row per payload image is added; every
        key of the body is written over the row, which is committed under its (possibly
        new) key; a failed commit is rolled back. */
    method Put(id: int, l: Listing) returns (r: Response)
      requires Valid()
      modifies this
      ensures Valid()
      ensures (r, State()) == PutPublication(old(State()), id, l)
    {
      PutPreservesValid(State(), id, l);
      if id !in publications {
        return Raised(PublicationDoesNotExist);
      }
      var publication := publications[id];
      if IsBlocked(publication) {
        return Returned(403);
      }
      var images: seq<string> := [];
      var i := 0;
      while i < |l.images|
        invariant 0 <= i <= |l.images| && images == l.images[..i]
      {
        images := images + [l.images[i]];
        i := i + 1;
      }
      assert images == l.images;
      var updated := publication.(
        userId := if l.userId.Some? then l.userId.value else publication.userId,
        title := l.title, description := l.description,
        rooms := l.rooms, beds := l.beds, bathrooms := l.bathrooms,
        pricePerNight := l.pricePerNight, images := images, loc := l.loc);
      if l.extra.id.Some? {
        updated := updated.(id := l.extra.id.value);
      }
      if l.extra.blocked.Some? {
        updated := updated.(blocked := l.extra.blocked.value);
      }
      if l.extra.blockchainStatus.Some? {
        var status := StatusNamed(l.extra.blockchainStatus.value);
        if status.None? {
          return Raised(StatementError);
        }
        updated := updated.(blockchainStatus := status.value);
      }
      if l.extra.blockchainId.Some? {
        updated := updated.(blockchainId := l.extra.blockchainId.value);
      }
      if l.extra.blockchainTransactionHash.Some? {
        updated := updated.(blockchainTransactionHash := l.extra.blockchainTransactionHash.value);
      }
      assert updated == Replaced(publication, l).value;
      if !Storable(State(), id, updated) {
        return Raised(IntegrityError);
      }
      publications := Stored(publications, id, updated);
      return Returned(200);
    }

    method Patch(id: int, b: BlockchainPatch) returns (r: Response)
      requires Valid()
      modifies this
      ensures Valid()
      ensures (r, State()) == PatchPublication(old(State()), id, b)
    {
      PatchPreservesValid(State(), id, b);
      if id !in publications {
        return Raised(PublicationDoesNotExist);
      }
      var publication := publications[id];
      if IsBlocked(publication) {
        return Raised(BlockedPublication);
      }
      var x := b.extra;
      if x.userId == Some(None) {
        return Raised(IntegrityError);
      }
      var updated := publication.(
        id := Given(x.id, publication.id),
        userId := if x.userId.Some? then x.userId.value.value else publication.userId,
        title := Given(x.title, publication.title),
        description := Given(x.description, publication.description),
        rooms := Given(x.rooms, publication.rooms),
        beds := Given(x.beds, publication.beds),
        bathrooms := Given(x.bathrooms, publication.bathrooms),
        pricePerNight := Given(x.pricePerNight, publication.pricePerNight),
        blocked := Given(x.blocked, publication.blocked));
      if b.status.Some? {
        updated := updated.(blockchainStatus := b.status.value);
      }
      if b.transactionHash.Some? {
        updated := updated.(blockchainTransactionHash := b.transactionHash);
      }
      if b.blockchainId.Some? {
        updated := updated.(blockchainId := b.blockchainId);
      }
      assert updated == Patched(publication, b).value;
      if !Storable(State(), id, updated) {
        return Raised(IntegrityError);
      }
      publications := Stored(publications, id, updated);
      return Returned(200);
    }

    /** `DELETE /<id>`: sets the blocked flag. */
    method Block(id: int) returns (r: Response)
      requires Valid()
      modifies this
      ensures Valid()
      ensures (r, State()) == BlockPublication(old(State()), id)
    {
      BlockPreservesValid(State(), id);
      if id !in publications {
        return Raised(PublicationDoesNotExist);
      }
      var publication := publications[id];
      if IsBlocked(publication) {
        return Raised(BlockedPublication);
      }
      publications := publications[id := publication.(blocked := Some(true))];
      return Returned(200);
    }

    method Star(id: int, userId: Option<int>, now: int) returns (r: Response)
      requires Valid()
      modifies this
      ensures Valid()
      ensures (r, State()) == StarPublication(old(State()), id, userId, now)
    {
      StarPreservesValid(State(), id, userId, now);
      if id !in publications {
        return Raised(PublicationDoesNotExist);
      }
      if IsBlocked(publications[id]) {
        return Raised(BlockedPublication);
      }
      if userId.None? {
        return Raised(BadRequest);
      }
      stars := stars + [Models.Star(userId.value, id, now)];
      return Returned(200);
    }

    method Unstar(id: int, userId: Option<int>) returns (r: Response)
      requires Valid()
      modifies this
      ensures Valid()
      ensures (r, State()) == UnstarPublication(old(State()), id, userId)
    {
      UnstarPreservesValid(State(), id, userId);
      if userId.None? {
        return Raised(BadRequest);
      }
      var found := FirstStar(stars, id, userId.value);
      if found.None? {
        return Returned(400);
      }
      var k := found.value;
      stars := stars[..k] + stars[k + 1..];
      return Returned(200);
    }

    method AddQuestion(id: int, text: string, userId: int, extra: QuestionExtra, now: int) returns (r: Response)
      requires Valid()
      modifies this
      ensures Valid()
      ensures (r, State()) == CreateQuestion(old(State()), id, text, userId, extra, now)
    {
      CreateQuestionPreservesValid(State(), id, text, userId, extra, now);
      var invalid := ValidatePublication(publications, id);
      if invalid.Some? {
        return Raised(invalid.value);
      }
      if extra.publicationId {
        return Raised(TypeError);
      }
      var questionId := nextQuestionId;
      if extra.id.Some? {
        questionId := extra.id.value;
      } else {
        nextQuestionId := nextQuestionId + 1;
      }
      if QuestionIdTaken(questions, questionId) {
        return Raised(IntegrityError);
      }
      questions := questions + [Question(questionId, text, extra.reply, now, None, userId, id)];
      return Returned(200);
    }

    method Reply(publicationId: int, questionId: int, reply: string, now: int) returns (r: Response)
      requires Valid()
      modifies this
      ensures Valid()
      ensures (r, State()) == ReplyQuestion(old(State()), publicationId, questionId, reply, now)
    {
      ReplyQuestionPreservesValid(State(), publicationId, questionId, reply, now);
      var invalid := ValidatePublication(publications, publicationId);
      if invalid.Some? {
        return Raised(invalid.value);
      }
      var found := FindQuestion(questions, publicationId, questionId);
      if found.None? {
        return Returned(404);
      }
      var k := found.value;
      questions := questions[k := questions[k].(reply := Some(reply), repliedAt := Some(now))];
      return Returned(200);
    }
  }
}
