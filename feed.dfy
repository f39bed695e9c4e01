/**
 * The feed page's state (src/component/Feed.js): the fetched feed list and
 * the detail dialog with its local, never-sent comment list and the comment
 * draft.
 */
module FeedPage {
  import opened Wrappers
  import JsString

  /** One feed item as the list endpoint returns it; the page only displays these fields. */
  datatype FeedItem = FeedItem(
    id: int, title: string, content: string, imageUrl: string, likes: int, comments: int)

  /** A comment in the dialog's local list. */
  datatype Comment = Comment(id: string, text: string)

  /** The author every locally added comment carries. */
  const CurrentUser: string := "currentUser"

  class FeedView {
    var feeds: seq<FeedItem>
    var open: bool
    var selectedFeed: Option<FeedItem>
    var comments: seq<Comment>
    var newComment: string

    /** The dialog is open exactly when a feed item is selected. */
    ghost predicate Valid()
      reads this
    {
      open <==> selectedFeed.Some?
    }

    constructor ()
      ensures Valid()
      ensures feeds == [] && !open && selectedFeed == None && comments == [] && newComment == ""
    {
      feeds, open, selectedFeed, comments, newComment := [], false, None, [], "";
    }

    /** `fetchFeeds`: a successful reply replaces the list; a failed or thrown call keeps it. */
    method FetchFeeds(reply: Response<seq<FeedItem>>)
      requires Valid()
      modifies this`feeds
      ensures Valid()
      ensures feeds == (if reply.Succeeded? then reply.data else old(feeds))
    {
      match reply
      case Succeeded(list) =>
        feeds := list;
      case Unsuccessful =>
      case Threw =>
    }

    /** `handleClickOpen`: opens the dialog on `feed` with an empty comment list and an empty draft. */
    method HandleClickOpen(feed: FeedItem)
      requires Valid()
      modifies this`selectedFeed, this`open, this`comments, this`newComment
      ensures Valid()
      ensures open && selectedFeed == Some(feed)
      ensures comments == [] && newComment == ""
      ensures feeds == old(feeds)
    {
      selectedFeed := Some(feed);
      open := true;
      comments := [];
      newComment := "";
    }

    /** `handleClose`: closes the dialog and drops the comments; the draft survives. */
    method HandleClose()
      requires Valid()
      modifies this`open, this`selectedFeed, this`comments
      ensures Valid()
      ensures !open && selectedFeed == None && comments == []
      ensures newComment == old(newComment) && feeds == old(feeds)
    {
      open := false;
      selectedFeed := None;
      comments := [];
    }

    /**
     * `handleAddComment`: a blank draft changes nothing; any other draft is
     * appended, untrimmed, as one comment by the current user, and the draft
     * is cleared.
     */
    method HandleAddComment()
      requires Valid()
      modifies this`comments, this`newComment
      ensures Valid()
      ensures JsString.IsBlank(old(newComment)) ==>
        comments == old(comments) && newComment == old(newComment)
      ensures !JsString.IsBlank(old(newComment)) ==>
        && comments == old(comments) + [Comment(CurrentUser, old(newComment))]
        && newComment == ""
      ensures open == old(open) && selectedFeed == old(selectedFeed) && feeds == old(feeds)
    {
      if JsString.Trim(newComment) != "" {
        comments := comments + [Comment(CurrentUser, newComment)];
        newComment := "";
      }
    }

    /** The draft field's `onChange`. */
    method EditDraft(text: string)
      requires Valid()
      modifies this`newComment
      ensures Valid()
      ensures newComment == text
      ensures open == old(open) && selectedFeed == old(selectedFeed)
      ensures comments == old(comments) && feeds == old(feeds)
    {
      newComment := text;
    }
  }
}
