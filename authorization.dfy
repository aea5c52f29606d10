/**
 * The authorization gate: whether a commenter, classified by the platform's
 * `author_association` of the comment, may command the bot.  The full list of
 * admitted associations is a parameter; what is known of it is that `MEMBER`
 * is admitted and `NONE` is not.
 */
module Authorization {
  const Member: string := "MEMBER"
  const NoAssociation: string := "NONE"

  /** The gate admits a commenter exactly when their association is on the allow-list. */
  predicate Authorized(association: string, allowList: set<string>) {
    association in allowList
  }

  /** The allow-lists consistent with what is known of the gate. */
  predicate KnownPolicy(allowList: set<string>) {
    Member in allowList && NoAssociation !in allowList
  }
}
