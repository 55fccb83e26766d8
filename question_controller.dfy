/** The publication guard of the question endpoints. */
module QuestionController {
  import opened Wrappers
  import opened Models

  /**
    `validate_publication`: the exception the guard raises, or `None` when it returns
    normally. Existence is checked first, so a missing id never yields
    BlockedPublication; a NULL blocked column counts as not blocked.
   */
  function ValidatePublication(publications: map<int, Publication>, id: int): (r: Option<Error>)
    ensures r == Some(PublicationDoesNotExist) <==> id !in publications
    ensures r == Some(BlockedPublication) <==> id in publications && IsBlocked(publications[id])
    ensures r == None <==> id in publications && !IsBlocked(publications[id])
  {
    if id !in publications then Some(PublicationDoesNotExist)
    else if IsBlocked(publications[id]) then Some(BlockedPublication)
    else None
  }
}
