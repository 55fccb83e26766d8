/**
  Properties of the endpoint transitions: each keeps the table invariants, a blocked
  publication is refused by every guarded endpoint, unstarring undoes a star up to
  which of the user's equal rows is removed, and a new question can be replied to.
 */
module StoreProperties {
  import opened Wrappers
  import opened Models
  import opened QuestionController
  import opened Store

  // ---------------------------------------------------------------------------
  // The table invariants are kept
  // ---------------------------------------------------------------------------

  /** Committing a storable row keeps the invariants, also when the row moves to a
      new key. */
  lemma StoredPreservesValid(s: Contents, id: int, p: Publication)
    requires Valid(s) && id in s.publications && Storable(s, id, p)
    ensures Valid(s.(publications := Stored(s.publications, id, p)))
  {
    var t := s.(publications := Stored(s.publications, id, p));
    forall i | 0 <= i < |t.stars|
      ensures t.stars[i].publicationId in t.publications
    {
      assert s.stars[i].publicationId in s.publications;
    }
    forall i | 0 <= i < |t.questions|
      ensures t.questions[i].publicationId in t.publications
    {
      assert s.questions[i].publicationId in s.publications;
    }
  }

  lemma PutPreservesValid(s: Contents, id: int, l: Listing)
    requires Valid(s)
    ensures Valid(PutPublication(s, id, l).1)
  {
    if PutPublication(s, id, l).0 == Returned(200) {
      StoredPreservesValid(s, id, Replaced(s.publications[id], l).value);
    }
  }

  lemma PatchPreservesValid(s: Contents, id: int, b: BlockchainPatch)
    requires Valid(s)
    ensures Valid(PatchPublication(s, id, b).1)
  {
    if PatchPublication(s, id, b).0 == Returned(200) {
      StoredPreservesValid(s, id, Patched(s.publications[id], b).value);
    }
  }

  lemma BlockPreservesValid(s: Contents, id: int)
    requires Valid(s)
    ensures Valid(BlockPublication(s, id).1)
  {
    var t := BlockPublication(s, id).1;
    assert t.publications.Keys == s.publications.Keys;
  }

  lemma StarPreservesValid(s: Contents, id: int, userId: Option<int>, now: int)
    requires Valid(s)
    ensures Valid(StarPublication(s, id, userId, now).1)
  {
  }

  lemma UnstarPreservesValid(s: Contents, id: int, userId: Option<int>)
    requires Valid(s)
    ensures Valid(UnstarPublication(s, id, userId).1)
  {
    var t := UnstarPublication(s, id, userId).1;
    forall i | 0 <= i < |t.stars|
      ensures t.stars[i].publicationId in t.publications
    {
      assert t.stars[i] in multiset(t.stars);
      assert t.stars[i] in s.stars;
    }
  }

  lemma CreateQuestionPreservesValid(s: Contents, id: int, text: string, userId: int, extra: QuestionExtra, now: int)
    requires Valid(s)
    ensures Valid(CreateQuestion(s, id, text, userId, extra, now).1)
  {
  }

  /** While every question id lies below the sequence, a body without an id never
      meets the primary key: its question is created whenever the guard passes and
      no `publication_id` is given, and the sequence stays ahead. */
  lemma DefaultIdIsFree(s: Contents, id: int, text: string, userId: int, reply: Option<string>, now: int)
    requires SequenceAhead(s)
    ensures var r := CreateQuestion(s, id, text, userId, QuestionExtra(None, reply, false), now);
      && (r.0 == Returned(200) <==> ValidatePublication(s.publications, id).None?)
      && SequenceAhead(r.1)
  {
    var questionId := NewQuestionId(s, QuestionExtra(None, reply, false));
    assert !QuestionIdTaken(s.questions, questionId);
  }

  lemma ReplyQuestionPreservesValid(s: Contents, publicationId: int, questionId: int, reply: string, now: int)
    requires Valid(s)
    ensures Valid(ReplyQuestion(s, publicationId, questionId, reply, now).1)
  {
  }

  // ---------------------------------------------------------------------------
  // Guards
  // ---------------------------------------------------------------------------

  /** The GET guard and the question guard agree: a publication is served exactly
      when the question guard lets it through, and both report a missing one. */
  lemma GuardsAgree(s: Contents, id: int)
    ensures GetPublication(s, id).0 == Returned(200) <==> ValidatePublication(s.publications, id).None?
    ensures GetPublication(s, id).0 == Raised(PublicationDoesNotExist) <==>
      ValidatePublication(s.publications, id) == Some(PublicationDoesNotExist)
  {
  }

  /** After a successful block, every guarded endpoint refuses the publication and
      leaves the state as it is: GET and PUT answer 403; blocking again, patching,
      starring and the question endpoints raise BlockedPublication. */
  lemma BlockedIsRefused(s: Contents, id: int, l: Listing, b: BlockchainPatch, userId: int, now: int,
                         text: string, extra: QuestionExtra, questionId: int)
    requires BlockPublication(s, id).0 == Returned(200)
    ensures var t := BlockPublication(s, id).1;
      && GetPublication(t, id) == (Returned(403), None)
      && PutPublication(t, id, l) == (Returned(403), t)
      && BlockPublication(t, id) == (Raised(BlockedPublication), t)
      && PatchPublication(t, id, b) == (Raised(BlockedPublication), t)
      && StarPublication(t, id, Some(userId), now) == (Raised(BlockedPublication), t)
      && CreateQuestion(t, id, text, userId, extra, now) == (Raised(BlockedPublication), t)
      && ReplyQuestion(t, id, questionId, text, now) == (Raised(BlockedPublication), t)
  {
    var t := BlockPublication(s, id).1;
    assert IsBlocked(t.publications[id]);
  }

  // ---------------------------------------------------------------------------
  // Request bodies
  // ---------------------------------------------------------------------------

  /** A `PUT` body with only the declared keys replaces the listing's fields and
      keeps the key, the blocked flag and the blockchain fields; it fails only on a
      CHECK constraint. */
  lemma PutDeclaredKeysOnly(s: Contents, id: int, l: Listing)
    requires Valid(s) && id in s.publications && !IsBlocked(s.publications[id]) && l.extra == NoPutExtra
    ensures var p := s.publications[id];
      var q := p.(userId := if l.userId.Some? then l.userId.value else p.userId,
                    title := l.title, description := l.description,
                    rooms := l.rooms, beds := l.beds, bathrooms := l.bathrooms,
                    pricePerNight := l.pricePerNight, images := l.images, loc := l.loc);
      && (PutPublication(s, id, l).0 == Returned(200) <==> SatisfiesChecks(q))
      && (PutPublication(s, id, l).0 == Returned(200) ==>
            PutPublication(s, id, l).1 == s.(publications := s.publications[id := q]))
  {
    var p := s.publications[id];
    var r := Replaced(p, l);
    assert r.Success?;
    assert r.value == p.(userId := if l.userId.Some? then l.userId.value else p.userId,
                         title := l.title, description := l.description,
                         rooms := l.rooms, beds := l.beds, bathrooms := l.bathrooms,
                         pricePerNight := l.pricePerNight, images := l.images, loc := l.loc);
  }

  /** A `PATCH` body with only the declared keys always succeeds on a stored,
      unblocked publication, and changes nothing but its blockchain fields. */
  lemma PatchDeclaredKeysOnly(s: Contents, id: int, b: BlockchainPatch)
    requires Valid(s) && id in s.publications && !IsBlocked(s.publications[id]) && b.extra == NoPatchExtra
    ensures PatchPublication(s, id, b).0 == Returned(200)
    ensures var p := s.publications[id];
      var t := PatchPublication(s, id, b).1;
      && t.publications.Keys == s.publications.Keys
      && t.stars == s.stars && t.questions == s.questions && t.nextQuestionId == s.nextQuestionId
      && (forall k :: k in s.publications && k != id ==> t.publications[k] == s.publications[k])
      && t.publications[id].(blockchainStatus := p.blockchainStatus, blockchainId := p.blockchainId,
                             blockchainTransactionHash := p.blockchainTransactionHash) == p
  {
    var p := s.publications[id];
    var q := Patched(p, b).value;
    assert q.rooms == p.rooms && q.beds == p.beds && q.bathrooms == p.bathrooms && q.pricePerNight == p.pricePerNight;
    assert SatisfiesChecks(q);
  }

  /** An undeclared `blocked: true` in a `PATCH` body blocks the publication, which
      the endpoint for blocking is otherwise the only way to do. */
  lemma PatchBodyBlocks(s: Contents, id: int, b: BlockchainPatch)
    requires b.extra.blocked == Some(Some(true)) && PatchPublication(s, id, b).0 == Returned(200)
    ensures var n := Patched(s.publications[id], b).value.id;
      GetPublication(PatchPublication(s, id, b).1, n) == (Returned(403), None)
  {
  }

  /** The same holds of an undeclared `blocked: true` in a `PUT` body. */
  lemma PutBodyBlocks(s: Contents, id: int, l: Listing)
    requires l.extra.blocked == Some(Some(true)) && PutPublication(s, id, l).0 == Returned(200)
    ensures var n := Replaced(s.publications[id], l).value.id;
      GetPublication(PutPublication(s, id, l).1, n) == (Returned(403), None)
  {
  }

  /** A `PATCH` body giving only a new `id` moves the row to that key: it succeeds
      exactly when the key is free and no star or question row refers to the old
      key, and then the old key is no longer found. */
  lemma PatchNewKey(s: Contents, id: int, b: BlockchainPatch, n: int)
    requires Valid(s) && id in s.publications && !IsBlocked(s.publications[id]) && n != id
    requires b == BlockchainPatch(None, None, None, NoPatchExtra.(id := Some(n)))
    ensures PatchPublication(s, id, b).0 == Returned(200) <==>
      && n !in s.publications
      && (forall i :: 0 <= i < |s.stars| ==> s.stars[i].publicationId != id)
      && (forall i :: 0 <= i < |s.questions| ==> s.questions[i].publicationId != id)
    ensures PatchPublication(s, id, b).0 == Returned(200) ==>
      var t := PatchPublication(s, id, b).1;
      && GetPublication(t, id).0 == Raised(PublicationDoesNotExist)
      && GetPublication(t, n) == (Returned(200), Some(s.publications[id].(id := n)))
  {
    var p := s.publications[id];
    var q := Patched(p, b).value;
    assert q == p.(id := n);
    assert SatisfiesChecks(q);
  }

  // ---------------------------------------------------------------------------
  // Stars
  // ---------------------------------------------------------------------------

  /** Starring and then unstarring as the same user succeeds and restores the table's
      size and every row of other pairs of publication and user; which of the user's
      rows goes is the first one. */
  lemma {:induction false} StarThenUnstar(s: Contents, id: int, u: int, now: int)
    requires StarPublication(s, id, Some(u), now).0 == Returned(200)
    ensures var t := StarPublication(s, id, Some(u), now).1;
      && UnstarPublication(t, id, Some(u)).0 == Returned(200)
      && |UnstarPublication(t, id, Some(u)).1.stars| == |s.stars|
      && forall x: Star :: !(x.publicationId == id && x.userId == u) ==>
           multiset(UnstarPublication(t, id, Some(u)).1.stars)[x] == multiset(s.stars)[x]
  {
    var t := StarPublication(s, id, Some(u), now).1;
    var added := Star(u, id, now);
    assert t.stars == s.stars + [added];
    assert t.stars[|t.stars| - 1] == added;
    assert FirstStar(t.stars, id, u).Some?;
    var after := UnstarPublication(t, id, Some(u)).1;
    var k :| 0 <= k < |t.stars| && t.stars[k].publicationId == id && t.stars[k].userId == u &&
      multiset(after.stars) + multiset{t.stars[k]} == multiset(t.stars);
    assert multiset(t.stars) == multiset(s.stars) + multiset{added};
    forall x: Star | !(x.publicationId == id && x.userId == u)
      ensures multiset(after.stars)[x] == multiset(s.stars)[x]
    {
      assert x != t.stars[k] && x != added;
      assert multiset{t.stars[k]}[x] == 0 && multiset{added}[x] == 0;
      assert (multiset(after.stars) + multiset{t.stars[k]})[x] == multiset(after.stars)[x];
      assert (multiset(s.stars) + multiset{added})[x] == multiset(s.stars)[x];
    }
  }

  /** Unstarring without a matching row is refused with 400, however often. */
  lemma UnstarWithoutStar(s: Contents, id: int, u: int)
    requires forall k :: 0 <= k < |s.stars| ==> !(s.stars[k].publicationId == id && s.stars[k].userId == u)
    ensures UnstarPublication(s, id, Some(u)) == (Returned(400), s)
  {
    assert FirstStar(s.stars, id, u).None?;
  }

  // ---------------------------------------------------------------------------
  // Questions
  // ---------------------------------------------------------------------------

  /** A body that takes the sequence's next value as its id makes the next question
      without an id fail on the primary key; that failure still draws the value, so
      the question after it is created. */
  lemma ExplicitIdCollidesOnce(s: Contents, id: int, text: string, userId: int, now: int)
    requires SequenceAhead(s) && ValidatePublication(s.publications, id).None?
    ensures var first := CreateQuestion(s, id, text, userId, QuestionExtra(Some(s.nextQuestionId), None, false), now);
      var second := CreateQuestion(first.1, id, text, userId, NoQuestionExtra, now);
      var third := CreateQuestion(second.1, id, text, userId, NoQuestionExtra, now);
      && first.0 == Returned(200)
      && second.0 == Raised(IntegrityError)
      && third.0 == Returned(200)
  {
    var first := CreateQuestion(s, id, text, userId, QuestionExtra(Some(s.nextQuestionId), None, false), now);
    assert !QuestionIdTaken(s.questions, s.nextQuestionId);
    assert first.1.questions[|s.questions|].id == s.nextQuestionId;
    var second := CreateQuestion(first.1, id, text, userId, NoQuestionExtra, now);
    assert second.1.nextQuestionId == s.nextQuestionId + 1;
    assert !QuestionIdTaken(second.1.questions, s.nextQuestionId + 1);
  }

  /** A question just created on a publication is found by its id on that publication,
      and replying to it sets exactly its reply and reply time. */
  lemma {:induction false} CreateThenReply(s: Contents, id: int, text: string, userId: int, extra: QuestionExtra,
                                           now: int, reply: string, later: int)
    requires Valid(s) && CreateQuestion(s, id, text, userId, extra, now).0 == Returned(200)
    ensures var t := CreateQuestion(s, id, text, userId, extra, now).1;
      var questionId := NewQuestionId(s, extra);
      && FindQuestion(t.questions, id, questionId) == Some(|s.questions|)
      && ReplyQuestion(t, id, questionId, reply, later).0 == Returned(200)
      && ReplyQuestion(t, id, questionId, reply, later).1.questions ==
           s.questions + [Question(questionId, text, Some(reply), now, Some(later), userId, id)]
  {
    var t := CreateQuestion(s, id, text, userId, extra, now).1;
    var questionId := NewQuestionId(s, extra);
    var q := Question(questionId, text, extra.reply, now, None, userId, id);
    assert t.questions == s.questions + [q];
    assert t.questions[|s.questions|] == q;
    assert forall j :: 0 <= j < |s.questions| ==> t.questions[j] == s.questions[j];
    var found := FindQuestion(t.questions, id, questionId);
    assert !QuestionIdTaken(s.questions, questionId);
    assert forall j :: 0 <= j < |s.questions| ==> t.questions[j].id != questionId;
    assert found == Some(|s.questions|);
    assert t.questions[|s.questions| := q.(reply := Some(reply), repliedAt := Some(later))] ==
      s.questions + [Question(questionId, text, Some(reply), now, Some(later), userId, id)];
  }

  /** A reply changes nothing but the reply and reply time of the one question it
      finds. */
  lemma ReplyTouchesOneQuestion(s: Contents, publicationId: int, questionId: int, reply: string, now: int)
    requires ReplyQuestion(s, publicationId, questionId, reply, now).0 == Returned(200)
    ensures var t := ReplyQuestion(s, publicationId, questionId, reply, now).1;
      var k := FindQuestion(s.questions, publicationId, questionId).value;
      && |t.questions| == |s.questions|
      && t.publications == s.publications && t.stars == s.stars && t.nextQuestionId == s.nextQuestionId
      && (forall j :: 0 <= j < |s.questions| && j != k ==> t.questions[j] == s.questions[j])
      && t.questions[k].reply == Some(reply) && t.questions[k].repliedAt == Some(now)
      && t.questions[k].(reply := s.questions[k].reply, repliedAt := s.questions[k].repliedAt) == s.questions[k]
  {
  }
}
