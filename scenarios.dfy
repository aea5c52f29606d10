/**
 * The four dispatch scenarios the bot's behaviour is pinned down by, each run
 * against a fresh recording client.  URLs are opaque: every scenario holds
 * for any comment and pull-request URL.
 */
module CommandScenarios {
  import opened Wrappers
  import opened CommandMatcher
  import opened MatcherExamples
  import opened Authorization
  import opened GitHubApi
  import opened Commands

  const RandomCommand: string := "@algorithms-keeper random"

  lemma MatchRandomCommand()
    ensures Match(RandomCommand) == Some("random")
  {
    LowerMentionIsMention();
    assert AllOf(" ", IsWhitespace) && AllOf("random", IsWordChar);
    assert RandomCommand == "" + LowerMention + " " + "random" + "";
    MatchOfMention("", LowerMention, " ", "random", "");
  }

  lemma ReviewIsRecognized()
    ensures Recognize("review") == Some(Review)
  {
  }

  lemma RandomIsNotRecognized()
    ensures Recognize("random") == None
  {
    assert LowerAscii("random"[2]) != "review"[2];
  }

  /** Dispatches `e` against a fresh recording client with the given answer
      tables and returns what the client recorded. */
  method Run(e: Event, allowList: set<string>, answers: Answers)
    returns (outcome: Outcome, calls: Calls)
    ensures Trace(outcome, calls) == DispatchTrace(e, allowList, answers)
  {
    var gh := new MockGitHubAPI(answers);
    outcome := Dispatch(e, allowList, gh);
    calls := gh.Recorded();
  }

  /** A commenter with no association to the repository: nothing is called. */
  method CommentByNonMember(allowList: set<string>) returns (outcome: Outcome, calls: Calls)
    requires KnownPolicy(allowList)
    ensures outcome == Dropped(Unauthorized)
    ensures calls == NoCalls
  {
    var e := Event(IssueComment, Created, "1", Comment(None, NoAssociation, None), None);
    outcome, calls := Run(e, allowList, Answers({}, map[], map[]));
  }

  /** A member's review command on a plain issue: one `-1` reaction, nothing else. */
  method CommentOnIssue(allowList: set<string>, commentUrl: string) returns (outcome: Outcome, calls: Calls)
    requires KnownPolicy(allowList)
    ensures outcome == Handled
    ensures calls == Calls([ReactionsUrl(commentUrl)], [ReactionContent("-1")], [], [], [])
  {
    var e := Event(IssueComment, Created, "1", Comment(Some(commentUrl), Member, Some(ReviewCommand)), Some(Issue(None)));
    assert RouteEvent(e, allowList) == Invoke(Review) by {
      MatchReviewCommand();
      ReviewIsRecognized();
    }
    outcome, calls := Run(e, allowList, Answers({ReactionsUrl(commentUrl)}, map[], map[]));
  }

  /** A member's command that no handler is registered for: nothing is called. */
  method CommentWithRandomCommand(allowList: set<string>) returns (outcome: Outcome, calls: Calls)
    requires KnownPolicy(allowList)
    ensures outcome == Dropped(UnknownCommand)
    ensures calls == NoCalls
  {
    var e := Event(IssueComment, Created, "1", Comment(None, Member, Some(RandomCommand)), None);
    assert RouteEvent(e, allowList) == Drop(UnknownCommand) by {
      MatchRandomCommand();
      RandomIsNotRecognized();
    }
    outcome, calls := Run(e, allowList, Answers({}, map[], map[]));
  }

  /** A member's review command on a pull request: one `+1` reaction, one
      fetch of the pull request, one listing of its files, no deletion. */
  method ReviewCommandOnPullRequest(allowList: set<string>, commentUrl: string, pullUrl: string,
                                    htmlPullUrl: string, user: string)
    returns (outcome: Outcome, calls: Calls)
    requires KnownPolicy(allowList)
    ensures outcome == Handled
    ensures calls == Calls([ReactionsUrl(commentUrl)], [ReactionContent("+1")], [pullUrl], [FilesUrl(pullUrl)], [])
  {
    var e := Event(IssueComment, Created, "1", Comment(Some(commentUrl), Member, Some(ReviewCommand)),
                   Some(Issue(Some(PullRequestRef(pullUrl)))));
    var answers := Answers({ReactionsUrl(commentUrl)},
                           map[pullUrl := PullRequest(pullUrl, htmlPullUrl, user, [], false)],
                           map[FilesUrl(pullUrl) := []]);
    assert RouteEvent(e, allowList) == Invoke(Review) by {
      MatchReviewCommand();
      ReviewIsRecognized();
    }
    ReviewTraceOnPullRequest(e, answers, commentUrl, pullUrl);
    outcome, calls := Run(e, allowList, answers);
  }
}
