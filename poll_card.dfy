/** The poll card in the listings: its shortened description. */
module PollCard {

  const DESCRIPTION_LIMIT: nat := 100

  /** A description over 100 characters is cut to its first 100 followed by "..."; a shorter one is shown whole. */
  function ShortDescription(description: string): (r: string)
    ensures |description| <= DESCRIPTION_LIMIT ==> r == description
    ensures |description| > DESCRIPTION_LIMIT ==>
              |r| == DESCRIPTION_LIMIT + 3 && r[..DESCRIPTION_LIMIT] == description[..DESCRIPTION_LIMIT]
              && r[DESCRIPTION_LIMIT..] == "..."
    ensures |r| <= DESCRIPTION_LIMIT + 3
  {
    if |description| > DESCRIPTION_LIMIT then description[..DESCRIPTION_LIMIT] + "..." else description
  }

  /**
   * Shortening is idempotent: a cut description is 103 characters long, so
   * shortening it again cuts it at the same place and adds the same "...".
   */
  lemma ShortDescriptionIdempotent(description: string)
    ensures ShortDescription(ShortDescription(description)) == ShortDescription(description)
  {
    if |description| > DESCRIPTION_LIMIT {
      var once := ShortDescription(description);
      assert once[..DESCRIPTION_LIMIT] == description[..DESCRIPTION_LIMIT];
    }
  }
}
