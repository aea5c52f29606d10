/**
 * The platform API as the command handlers see it, and the recording test
 * double that stands in for it: every call is appended to one of five lists
 * (URLs posted to, bodies posted, URLs fetched as single resources, URLs
 * fetched as collections, URLs deleted), and fetches answer from fixed tables.
 */
module GitHubApi {
  import opened Wrappers

  /** The JSON body `{"content": c}` of a reaction post. */
  datatype PostBody = ReactionContent(content: string)

  /** Pull-request metadata as a fetch of its URL returns it.  Only the review
      analysis reads these fields, and that analysis is not part of this model. */
  datatype PullRequest = PullRequest(url: string, htmlUrl: string, userLogin: string, labels: seq<string>, draft: bool)

  /** One entry of a pull request's changed-file list, opaque here. */
  datatype PullFile = PullFile(filename: string)

  /** What the recording client answers: the URLs its post table holds an
      answer for, and what fetches of single resources and of collections
      return, by URL. */
  datatype Answers = Answers(post: set<string>, getitem: map<string, PullRequest>, getiter: map<string, seq<PullFile>>)

  /** The calls a client has recorded, list by list, oldest first. */
  datatype Calls = Calls(
    postUrl: seq<string>,
    postData: seq<PostBody>,
    getitemUrl: seq<string>,
    getiterUrl: seq<string>,
    deleteUrl: seq<string>)
  {
    /** These calls followed by `later`. */
    function Then(later: Calls): Calls {
      Calls(postUrl + later.postUrl, postData + later.postData, getitemUrl + later.getitemUrl,
            getiterUrl + later.getiterUrl, deleteUrl + later.deleteUrl)
    }
  }

  const NoCalls: Calls := Calls([], [], [], [], [])

  function PostCall(url: string, body: PostBody): Calls { Calls([url], [body], [], [], []) }
  function GetItemCall(url: string): Calls { Calls([], [], [url], [], []) }
  function GetIterCall(url: string): Calls { Calls([], [], [], [url], []) }
  function DeleteCall(url: string): Calls { Calls([], [], [], [], [url]) }

  /** Where reactions to a comment are posted: the comment's URL with `/reactions` appended. */
  function ReactionsUrl(commentUrl: string): string { commentUrl + "/reactions" }

  /** Where a pull request's changed files are listed: its URL with `/files` appended. */
  function FilesUrl(pullUrl: string): string { pullUrl + "/files" }

  /** The recording client used in place of the network client. */
  class MockGitHubAPI {
    /** The answer tables the client was built with. */
    const answers: Answers

    var postUrl: seq<string>
    var postData: seq<PostBody>
    var getitemUrl: seq<string>
    var getiterUrl: seq<string>
    var deleteUrl: seq<string>

    /** Everything recorded so far. */
    function Recorded(): Calls
      reads this
    {
      Calls(postUrl, postData, getitemUrl, getiterUrl, deleteUrl)
    }

    constructor (answers: Answers)
      ensures this.answers == answers
      ensures Recorded() == NoCalls
    {
      this.answers := answers;
      postUrl, postData, getitemUrl, getiterUrl, deleteUrl := [], [], [], [], [];
    }

    /** Posts `body` to `url`; `answered` is false when the post table has no answer for `url`. */
    method Post(url: string, body: PostBody) returns (answered: bool)
      modifies this
      ensures Recorded() == old(Recorded()).Then(PostCall(url, body))
      ensures answered <==> url in answers.post
    {
      postUrl := postUrl + [url];
      postData := postData + [body];
      answered := url in answers.post;
    }

    /** Fetches one resource; `None` when the table has no answer for `url`. */
    method GetItem(url: string) returns (r: Option<PullRequest>)
      modifies this
      ensures Recorded() == old(Recorded()).Then(GetItemCall(url))
      ensures r == if url in answers.getitem then Some(answers.getitem[url]) else None
    {
      getitemUrl := getitemUrl + [url];
      r := if url in answers.getitem then Some(answers.getitem[url]) else None;
    }

    /** Fetches a collection; `None` when the table has no answer for `url`. */
    method GetIter(url: string) returns (r: Option<seq<PullFile>>)
      modifies this
      ensures Recorded() == old(Recorded()).Then(GetIterCall(url))
      ensures r == if url in answers.getiter then Some(answers.getiter[url]) else None
    {
      getiterUrl := getiterUrl + [url];
      r := if url in answers.getiter then Some(answers.getiter[url]) else None;
    }

    method Delete(url: string)
      modifies this
      ensures Recorded() == old(Recorded()).Then(DeleteCall(url))
    {
      deleteUrl := deleteUrl + [url];
    }
  }
}
