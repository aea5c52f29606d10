/**
 * Routing of an `issue_comment` event with action `created`: the router drops
 * the event unless the commenter passes the authorization gate, the comment
 * holds a command and the command is one a handler is registered for; the
 * `review` handler then acknowledges the comment with a reaction and, on a
 * pull request, fetches the pull request and its changed files.
 */
module Commands {
  import opened Wrappers
  import opened CommandMatcher
  import opened Authorization
  import opened GitHubApi

  /** The comment of the payload; keys the payload may lack are optional. */
  datatype Comment = Comment(url: Option<string>, authorAssociation: string, body: Option<string>)

  /** The `issue.pull_request` reference, present when the issue is a pull request. */
  datatype PullRequestRef = PullRequestRef(url: string)

  datatype Issue = Issue(pullRequest: Option<PullRequestRef>)

  /** An inbound webhook event: its name, its action, its delivery id and the
      parts of its payload the router and handlers read. */
  datatype Event = Event(event: string, action: string, deliveryId: string, comment: Comment, issue: Option<Issue>)

  /** The commands a handler is registered for. */
  datatype Command = Review

  datatype DropReason = NotRegistered | Unauthorized | NoCommand | UnknownCommand

  datatype Failure = MissingKey(key: string) | NoResponse(url: string)

  /** What the router decides before any handler runs. */
  datatype Route = Drop(reason: DropReason) | Malformed(failure: Failure) | Invoke(command: Command)

  /** How one dispatch ends. */
  datatype Outcome = Dropped(reason: DropReason) | Handled | Failed(failure: Failure)

  /** How one dispatch ends, with the calls it makes on the client. */
  datatype Trace = Trace(outcome: Outcome, calls: Calls)

  const IssueComment: string := "issue_comment"
  const Created: string := "created"

  /** The command a keyword names, compared without regard to case. */
  function Recognize(keyword: string): Option<Command> {
    if EqualsIgnoringCase(keyword, "review") then Some(Review) else None
  }

  /** Filter on the event, then the gate, then the matcher, then the registry. */
  function RouteEvent(e: Event, allowList: set<string>): Route {
    if e.event != IssueComment || e.action != Created then Drop(NotRegistered)
    else if !Authorized(e.comment.authorAssociation, allowList) then Drop(Unauthorized)
    else if e.comment.body.None? then Malformed(MissingKey("comment.body"))
    else match Match(e.comment.body.value)
      case None => Drop(NoCommand)
      case Some(keyword) =>
        match Recognize(keyword)
        case None => Drop(UnknownCommand)
        case Some(command) => Invoke(command)
  }

  /** The calls the review handler makes, given the client's answer tables. */
  function ReviewTrace(e: Event, answers: Answers): Trace {
    if e.comment.url.None? then Trace(Failed(MissingKey("comment.url")), NoCalls)
    else if e.issue.None? then Trace(Failed(MissingKey("issue")), NoCalls)
    else
      var reactions := ReactionsUrl(e.comment.url.value);
      match e.issue.value.pullRequest
      case None =>
        var ack := PostCall(reactions, ReactionContent("-1"));
        if reactions !in answers.post then Trace(Failed(NoResponse(reactions)), ack)
        else Trace(Handled, ack)
      case Some(pr) =>
        var ack := PostCall(reactions, ReactionContent("+1"));
        if reactions !in answers.post then Trace(Failed(NoResponse(reactions)), ack)
        else if pr.url !in answers.getitem then
          Trace(Failed(NoResponse(pr.url)), ack.Then(GetItemCall(pr.url)))
        else
          var files := FilesUrl(pr.url);
          var fetched := ack.Then(GetItemCall(pr.url)).Then(GetIterCall(files));
          if files !in answers.getiter then Trace(Failed(NoResponse(files)), fetched)
          else Trace(Handled, fetched)
  }

  /** One dispatch, end to end. */
  function DispatchTrace(e: Event, allowList: set<string>, answers: Answers): Trace {
    match RouteEvent(e, allowList)
    case Drop(reason) => Trace(Dropped(reason), NoCalls)
    case Malformed(failure) => Trace(Failed(failure), NoCalls)
    case Invoke(Review) => ReviewTrace(e, answers)
  }

  /** The review handler. */
  method HandleReview(e: Event, gh: MockGitHubAPI) returns (outcome: Outcome)
    modifies gh
    ensures var t := ReviewTrace(e, gh.answers);
      outcome == t.outcome && gh.Recorded() == old(gh.Recorded()).Then(t.calls)
  {
    if e.comment.url.None? {
      return Failed(MissingKey("comment.url"));
    }
    if e.issue.None? {
      return Failed(MissingKey("issue"));
    }
    var reactions := ReactionsUrl(e.comment.url.value);
    match e.issue.value.pullRequest {
      case None =>
        var answered := gh.Post(reactions, ReactionContent("-1"));
        if !answered {
          return Failed(NoResponse(reactions));
        }
        outcome := Handled;
      case Some(pr) =>
        var answered := gh.Post(reactions, ReactionContent("+1"));
        if !answered {
          return Failed(NoResponse(reactions));
        }
        var pull := gh.GetItem(pr.url);
        if pull.None? {
          return Failed(NoResponse(pr.url));
        }
        var files := gh.GetIter(FilesUrl(pr.url));
        if files.None? {
          return Failed(NoResponse(FilesUrl(pr.url)));
        }
        outcome := Handled;
    }
  }

  /** The router's entry point: one inbound event, handled to completion. */
  method Dispatch(e: Event, allowList: set<string>, gh: MockGitHubAPI) returns (outcome: Outcome)
    modifies gh
    ensures var t := DispatchTrace(e, allowList, gh.answers);
      outcome == t.outcome && gh.Recorded() == old(gh.Recorded()).Then(t.calls)
  {
    var route := RouteEvent(e, allowList);
    match route {
      case Drop(reason) =>
        outcome := Dropped(reason);
      case Malformed(failure) =>
        outcome := Failed(failure);
      case Invoke(Review) =>
        outcome := HandleReview(e, gh);
    }
  }

  /** Dispatching the same event twice makes the same calls twice over: no
      state carries from one dispatch to the next. */
  method DispatchTwice(e: Event, allowList: set<string>, gh: MockGitHubAPI) returns (first: Outcome, second: Outcome)
    modifies gh
    ensures first == second
    ensures var c := DispatchTrace(e, allowList, gh.answers).calls;
      gh.Recorded() == old(gh.Recorded()).Then(c).Then(c)
  {
    first := Dispatch(e, allowList, gh);
    second := Dispatch(e, allowList, gh);
  }

  // ---------------------------------------------------------------------------
  // What a dispatch does, for every event

  /** The event is a new issue comment by an admitted commenter whose first
      command is a keyword naming `command`. */
  ghost predicate Commanded(e: Event, allowList: set<string>, command: Command) {
    && e.event == IssueComment && e.action == Created
    && Authorized(e.comment.authorAssociation, allowList)
    && e.comment.body.Some?
    && exists keyword :: FirstCommand(e.comment.body.value, keyword) && Recognize(keyword) == Some(command)
  }

  /** A handler is invoked exactly for the events that command it. */
  lemma InvokedIffCommanded(e: Event, allowList: set<string>)
    ensures RouteEvent(e, allowList) == Invoke(Review) <==> Commanded(e, allowList, Review)
  {
    if RouteEvent(e, allowList) == Invoke(Review) {
      var keyword := Match(e.comment.body.value).value;
      MatchIsFirstCommand(e.comment.body.value, keyword);
    }
    if Commanded(e, allowList, Review) {
      var keyword :| FirstCommand(e.comment.body.value, keyword) && Recognize(keyword) == Some(Review);
      MatchIsFirstCommand(e.comment.body.value, keyword);
    }
  }

  /** No call at all is made for an event that does not command the bot:
      the wrong event, an unadmitted commenter, no command or an unknown one. */
  lemma CallsOnlyWhenCommanded(e: Event, allowList: set<string>,
                               answers: Answers)
    requires DispatchTrace(e, allowList, answers).calls != NoCalls
    ensures Commanded(e, allowList, Review)
  {
    InvokedIffCommanded(e, allowList);
  }

  /** A commenter the gate does not admit causes no call, whatever the event. */
  lemma UnauthorizedIsSilent(e: Event, allowList: set<string>,
                             answers: Answers)
    requires !Authorized(e.comment.authorAssociation, allowList)
    ensures DispatchTrace(e, allowList, answers).calls == NoCalls
    ensures DispatchTrace(e, allowList, answers).outcome.Dropped?
  {
  }

  /** A comment whose first command names no registered handler causes no call. */
  lemma UnknownCommandIsSilent(e: Event, allowList: set<string>,
                               answers: Answers, keyword: string)
    requires e.comment.body.Some? && FirstCommand(e.comment.body.value, keyword)
    requires Recognize(keyword).None?
    ensures DispatchTrace(e, allowList, answers).calls == NoCalls
  {
    MatchIsFirstCommand(e.comment.body.value, keyword);
  }

  /** No dispatch ever deletes anything. */
  lemma NeverDeletes(e: Event, allowList: set<string>,
                     answers: Answers)
    ensures DispatchTrace(e, allowList, answers).calls.deleteUrl == []
  {
  }

  lemma ReviewTraceAcknowledges(e: Event, answers: Answers)
    requires e.comment.url.Some? && e.issue.Some?
    ensures var calls := ReviewTrace(e, answers).calls;
      && calls.postUrl == [ReactionsUrl(e.comment.url.value)]
      && calls.postData == [ReactionContent(if e.issue.value.pullRequest.None? then "-1" else "+1")]
  {
    var commentUrl := e.comment.url.value;
    match e.issue.value.pullRequest {
      case None =>
      case Some(pr) =>
        var ack := PostCall(ReactionsUrl(commentUrl), ReactionContent("+1"));
        assert ack.Then(GetItemCall(pr.url)).postUrl == [ReactionsUrl(commentUrl)];
        assert ack.Then(GetItemCall(pr.url)).postData == [ReactionContent("+1")];
    }
  }

  /** A review command is acknowledged by exactly one reaction on the comment:
      `-1` on a plain issue, `+1` on a pull request. */
  lemma ReviewIsAcknowledged(e: Event, allowList: set<string>,
                             answers: Answers)
    requires Commanded(e, allowList, Review)
    requires e.comment.url.Some? && e.issue.Some?
    ensures var calls := DispatchTrace(e, allowList, answers).calls;
      && calls.postUrl == [ReactionsUrl(e.comment.url.value)]
      && calls.postData == [ReactionContent(if e.issue.value.pullRequest.None? then "-1" else "+1")]
  {
    assert RouteEvent(e, allowList) == Invoke(Review) by {
      InvokedIffCommanded(e, allowList);
    }
    ReviewTraceAcknowledges(e, answers);
  }

  /** On a plain issue the review command only reacts with `-1`; the dispatch
      is handled when the client answers that post and fails otherwise. */
  lemma ReviewOnPlainIssue(e: Event, allowList: set<string>,
                           answers: Answers)
    requires Commanded(e, allowList, Review)
    requires e.comment.url.Some? && e.issue == Some(Issue(None))
    ensures var reactions := ReactionsUrl(e.comment.url.value);
      DispatchTrace(e, allowList, answers) ==
        Trace(if reactions in answers.post then Handled else Failed(NoResponse(reactions)),
              Calls([reactions], [ReactionContent("-1")], [], [], []))
  {
    InvokedIffCommanded(e, allowList);
  }

  lemma ReviewTraceOnPullRequest(e: Event, answers: Answers,
                                 commentUrl: string, pullUrl: string)
    requires e.comment.url == Some(commentUrl) && e.issue == Some(Issue(Some(PullRequestRef(pullUrl))))
    requires ReactionsUrl(commentUrl) in answers.post
    requires pullUrl in answers.getitem && FilesUrl(pullUrl) in answers.getiter
    ensures ReviewTrace(e, answers) ==
      Trace(Handled, Calls([ReactionsUrl(commentUrl)], [ReactionContent("+1")], [pullUrl], [FilesUrl(pullUrl)], []))
  {
    var ack := PostCall(ReactionsUrl(commentUrl), ReactionContent("+1"));
    var fetched := ack.Then(GetItemCall(pullUrl)).Then(GetIterCall(FilesUrl(pullUrl)));
    assert fetched.postUrl == [ReactionsUrl(commentUrl)];
    assert fetched.getitemUrl == [pullUrl];
    assert fetched.getiterUrl == [FilesUrl(pullUrl)];
  }

  /** On a pull request the review command reacts with `+1`, fetches the pull
      request once and lists its changed files once. */
  lemma ReviewOnPullRequest(e: Event, allowList: set<string>,
                            answers: Answers, pullUrl: string)
    requires Commanded(e, allowList, Review)
    requires e.comment.url.Some? && e.issue == Some(Issue(Some(PullRequestRef(pullUrl))))
    requires ReactionsUrl(e.comment.url.value) in answers.post
    requires pullUrl in answers.getitem && FilesUrl(pullUrl) in answers.getiter
    ensures DispatchTrace(e, allowList, answers) ==
      Trace(Handled, Calls([ReactionsUrl(e.comment.url.value)], [ReactionContent("+1")], [pullUrl], [FilesUrl(pullUrl)], []))
  {
    ReviewTraceOnPullRequest(e, answers, e.comment.url.value, pullUrl);
    assert DispatchTrace(e, allowList, answers) == ReviewTrace(e, answers) by {
      InvokedIffCommanded(e, allowList);
    }
  }
}
