# algorithms-keeper: command recognition and dispatch

A model of how the algorithms-keeper bot handles commands written in GitHub issue
comments. It covers three things:

- **Command matcher** (`matcher.dfy`, module `CommandMatcher`). The pattern is the
  mention `@algorithms-keeper`, whose letters may be in any case. One or more
  whitespace characters follow it, then a run of word characters. That run is
  captured, exactly as written, as the command keyword. The pattern may start
  anywhere in the comment, and the leftmost match wins. `Match` is a
  left-to-right scan. `Occurrence` and `FirstCommand` give an independent
  definition by positions in the text, and the two are proved equivalent.
  `matcher_examples.dfy` checks the nine comment texts that pin the pattern down.
- **Authorization gate** (`authorization.dfy`). A commenter is let through when the
  comment's `author_association` is on an allow-list. The allow-list is a
  parameter. All that is assumed about it (`KnownPolicy`) is that `MEMBER` is on
  it and `NONE` is not.
- **Router and `review` handler** (`commands.dfy`). These handle an `issue_comment`
  event with action `created`:
  - The event is dropped, with no call at all, when the commenter is not let
    through, when the comment holds no command, or when no handler is registered
    for the keyword.
  - Otherwise `review` posts one reaction to the comment's reactions URL. It posts
    `-1` when the issue has no `pull_request` reference.
  - When the issue does have one, it posts `+1`, fetches the pull request once and
    lists its changed files once.
  - Nothing is ever deleted.

  The API client is the recording test double `GitHubApi.MockGitHubAPI`. It is a
  class whose five sequence fields record the calls: URLs posted to, bodies
  posted, URLs fetched, collections listed and URLs deleted. It answers posts,
  fetches and listings from three tables it is given. `Dispatch` is a method
  that acts on that client. Its postcondition gives the exact recorded trace as
  `DispatchTrace`, and the lemmas state what that trace is. `scenarios.dfy`
  replays the four dispatch tests.

The implementation module (`commands.py`, with `COMMAND_RE` and `router`) and the
test helpers (`tests/utils.py`) are not part of this model. The behaviour modelled
is what `tests/test_commands.py` asserts about them.

## Model

| member | source | states |
|---|---|---|
| CommandMatcher.SearchFrom | tests/test_commands.py:40-41 | the scan returns nothing exactly when no position from `i` on matches; otherwise it returns the capture of the leftmost matching position |
| CommandMatcher.MatchAtIsOccurrence | tests/test_commands.py:30-41 | at a given index, the scanner captures `kw` exactly when a mention, one or more whitespace characters and the whole word run `kw` start there |
| CommandMatcher.MatchIsFirstCommand | tests/test_commands.py:26-41 | `Match(text) == Some(kw)` holds exactly when `kw` is captured by an occurrence and no occurrence starts further left (first match wins) |
| CommandMatcher.NoMatchIffNoOccurrence | tests/test_commands.py:17-27 | the matcher finds nothing exactly when the text contains no occurrence of the pattern |
| CommandMatcher.KeywordShape | tests/test_commands.py:30-41 | a returned keyword is non-empty, made of word characters, copied from the text right after a whitespace character, and is not cut short before a further word character |
| CommandMatcher.MatchOfMention | tests/test_commands.py:33-41 | for any noise without `@`, a mention in any letter case, any non-empty whitespace, any keyword and any rest that does not continue the keyword, the result is that keyword as written, whatever mentions the rest holds |
| CommandMatcher.MatchNeedsSeparatedMention | tests/test_commands.py:17-27 | when no mention is directly followed by whitespace (misspelt handle, wrong separator, keyword glued on), there is no match |
| CommandMatcher.NoMatchWithoutAt | tests/test_commands.py:20-27 | a text without `@` has no match, even when it names the handle |
| MatcherExamples.NoMatchForHandleWithoutAt | tests/test_commands.py:20 | `algorithms-keeper test` has no match |
| MatcherExamples.NoMatchForMissingSegment | tests/test_commands.py:21 | `@algorithm-keeper test` has no match |
| MatcherExamples.NoMatchForWrongSeparator | tests/test_commands.py:22 | `@algorithms_keeper test` has no match |
| MatcherExamples.NoMatchForGluedKeyword | tests/test_commands.py:23 | `@algorithms-keepertest test` has no match |
| MatcherExamples.MatchTestCommand | tests/test_commands.py:33 | `@algorithms-keeper test` yields `test` |
| MatcherExamples.MatchReviewCommand | tests/test_commands.py:34 | `@algorithms-keeper review` yields `review` |
| MatcherExamples.MatchSpacedReview | tests/test_commands.py:35 | extra whitespace before and after the keyword is accepted and not captured |
| MatcherExamples.ReviewInNoiseSpelledOut | tests/test_commands.py:36 | the noisy comment used below is the test's string |
| MatcherExamples.MatchReviewInNoise | tests/test_commands.py:36 | `random @algorithms-keeper     review   random` yields `review` |
| MatcherExamples.MatchUpperCaseReview | tests/test_commands.py:37 | `@Algorithms-Keeper   REVIEW  ` yields `REVIEW`: the handle's case is ignored and the keyword's case is kept |
| Commands.InvokedIffCommanded | tests/test_commands.py:44-92 | the review handler is invoked exactly when the event is a new issue comment, the commenter is let through, and the first command in the body is a keyword naming `review` |
| Commands.CallsOnlyWhenCommanded | tests/test_commands.py:44-92 | a dispatch that makes any call at all was commanded in that sense |
| Commands.UnauthorizedIsSilent | tests/test_commands.py:45-52 | a commenter not on the allow-list causes no call, whatever the event, and the event is dropped |
| Commands.UnknownCommandIsSilent | tests/test_commands.py:78-92 | a first command naming no registered handler causes no call |
| Commands.NeverDeletes | tests/test_commands.py:44-127 | no dispatch records a delete |
| Commands.ReviewIsAcknowledged | tests/test_commands.py:55-127 | a review command posts exactly one reaction to the comment's reactions URL: `-1` on a plain issue and `+1` on a pull request |
| Commands.ReviewOnPlainIssue | tests/test_commands.py:56-74 | on an issue without `pull_request`, the whole trace is one `-1` post to the reactions URL; the dispatch is handled when the client answers that post and fails with no response otherwise |
| Commands.ReviewOnPullRequest | tests/test_commands.py:96-127 | on a pull request whose post, fetch and listing the client answers, the whole trace is one `+1` post, one fetch of the pull-request URL and one listing of its files URL, with no delete, and the dispatch is handled |
| Commands.HandleReview | tests/test_commands.py:55-127 | the review handler appends exactly the calls of `ReviewTrace` to the client's record |
| Commands.Dispatch | tests/test_commands.py:47-49 | a dispatch appends exactly the calls of `DispatchTrace` to the client's record and returns its outcome |
| Commands.DispatchTwice | tests/test_commands.py:47-49 | dispatching one event twice gives the same outcome and records the same calls twice |
| GitHubApi.MockGitHubAPI.constructor | tests/test_commands.py:107-118 | a fresh client has recorded nothing and answers posts, fetches and listings from the tables it is given |
| GitHubApi.MockGitHubAPI.Post | tests/test_commands.py:67-72 | a post appends its URL and body to the record and nothing else, and reports whether the post table answers that URL |
| GitHubApi.MockGitHubAPI.GetItem | tests/test_commands.py:123-124 | a fetch appends its URL and answers from the table |
| GitHubApi.MockGitHubAPI.GetIter | tests/test_commands.py:125-126 | a listing appends its URL and answers from the table |
| GitHubApi.MockGitHubAPI.Delete | tests/test_commands.py:74 | a delete appends its URL to the delete record |
| CommandScenarios.Run | tests/test_commands.py:48-49 | dispatching against a fresh client records exactly the trace `DispatchTrace` gives |
| CommandScenarios.CommentByNonMember | tests/test_commands.py:44-52 | a `NONE` commenter's event is dropped as unauthorized, and nothing is recorded |
| CommandScenarios.CommentOnIssue | tests/test_commands.py:55-74 | a member's `review` on a plain issue records exactly one `-1` post to the reactions URL |
| CommandScenarios.CommentWithRandomCommand | tests/test_commands.py:77-92 | a member's `random` command is dropped as unknown, and nothing is recorded |
| CommandScenarios.ReviewCommandOnPullRequest | tests/test_commands.py:95-127 | a member's `review` on a pull request records one `+1` post, one fetch of the pull request and one listing of its files, and no delete |
| CommandScenarios.MatchRandomCommand | tests/test_commands.py:83 | `@algorithms-keeper random` yields `random` |
| CommandScenarios.RandomIsNotRecognized | tests/test_commands.py:77-92 | `random` names no registered handler |
| CommandScenarios.ReviewIsRecognized | tests/test_commands.py:62 | `review` names the review handler |

## Left out

- Asynchrony is left out. `async`/`await` and the event loop are not modelled: each test awaits the dispatch to completion, so dispatch is a sequential method.
- The construction of `gidgethub.sansio.Event` and the pytest machinery (`parametrize`, `asyncio`) are left out. An event is the `Event` datatype. It holds the payload keys that are read, and the keys a payload may lack are `Option`s.
- Only ASCII characters are classified. Whitespace is code points 9-13, 28-31 and 32. Word characters are `A-Z`, `a-z`, `0-9` and `_`. The handle's case is folded over ASCII letters only. A regular expression compiled for Unicode text would also accept non-ASCII whitespace and letters, and would fold `ſ` to `s` and the Kelvin sign to `k`.
- Nothing is required before the `@`. The tests only need the mention to be found anywhere in the text, so `x@algorithms-keeper review` also matches in this model. The tests do not decide whether a boundary is required before `@`.
- The keyword's character class is taken to be word characters. The tests would also accept letters only, because every keyword they use is made of letters.
- The allow-list of associations is a parameter. GitHub's `author_association` also has `OWNER`, `COLLABORATOR`, `CONTRIBUTOR` and further values. The tests pin down only `MEMBER` (let through) and `NONE` (refused), so only those two facts are assumed.
- Only `review` is registered as a command. The tests show no other handler. `Recognize` compares the keyword with `review` without regard to case; the tests leave this open.
- A payload key that a step must read but is missing (`comment.body`, `comment.url`, `issue`) ends the dispatch with `Failed(MissingKey(..))`, and no call is made. A post, fetch or listing that the client's table cannot answer ends it with `Failed(NoResponse(..))`, after that call has been recorded. These failure outcomes are a modelling choice: the tests never send a payload with a key missing or call an unlisted URL, so what happens then is not pinned down. So is the order in which the handler reads `comment.url` and `issue`.
- `ReactionsUrl` and `FilesUrl` follow the GitHub REST layout (`/reactions` and `/files` appended). No property depends on the suffix. The files URL is derived from `issue.pull_request.url`; the test's fetched pull request has that same URL.
- The review analysis of the fetched pull request and its files is left out. So are the metadata fields `html_url`, `user`, `labels` and `draft`, which are carried as opaque data. The handler fetches the files and does not walk them.
- Real HTTP calls, webhook signature checks and retries are left out, because they are I/O and foreign library code.
