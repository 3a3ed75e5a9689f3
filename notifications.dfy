/**
 * Which notifications a change to a puzzle document produces: the comment
 * and reply notifications found by diffing the comment forest, the
 * `featured` notification, and the `newpuzzle` fan-out to followers
 * (app/lib/notifications.ts).
 */
module Notifications {
  import opened Wrappers

  type UserId = string
  type CommentId = string

  /**
   * A comment on a puzzle: its id `i`, author `a`, author display name `n`
   * and replies `r`. An absent `r` is the empty list: the differ treats the
   * two alike.
   */
  datatype Comment = Comment(id: CommentId, author: UserId, name: string, replies: seq<Comment>)

  /**
   * The fields of a puzzle document that the notification logic reads:
   * author `a`, title `t`, private flag `pv`, featured flag `f`, daily-mini
   * date `dmd` (the empty string when unset) and top-level comments `cs`.
   */
  datatype Puzzle = Puzzle(
    author: UserId,
    title: string,
    pv: bool,
    featured: bool,
    dailyMiniDate: string,
    comments: seq<Comment>)

  /** The four kinds of notification record the core emits. */
  datatype Notification =
    | CommentNote(recipient: UserId, puzzleId: string, puzzleTitle: string, commentId: CommentId, commenterName: string)
    | ReplyNote(recipient: UserId, puzzleId: string, puzzleTitle: string, commentId: CommentId, commenterName: string)
    | FeaturedNote(recipient: UserId, puzzleId: string, puzzleTitle: string, featuredAs: Option<string>)
    | NewPuzzleNote(recipient: UserId, puzzleId: string, puzzleTitle: string)

  /** The followers document of a puzzle author, as the lookup finds it. */
  datatype FollowersDoc =
    | NoFollowersDoc
    | MalformedFollowersDoc
    | FollowersDoc(f: Option<seq<UserId>>)

  // Notification constructors. They address a comment notification to the
  // puzzle author, a reply notification to the parent comment's author, a
  // featured notification to the puzzle author and a new-puzzle notification
  // to one follower.

  function CommentNotification(c: Comment, puzzle: Puzzle, puzzleId: string): Notification
  {
    CommentNote(puzzle.author, puzzleId, puzzle.title, c.id, c.name)
  }

  function ReplyNotification(c: Comment, parent: Comment, puzzle: Puzzle, puzzleId: string): Notification
  {
    ReplyNote(parent.author, puzzleId, puzzle.title, c.id, c.name)
  }

  function FeaturedNotification(puzzle: Puzzle, puzzleId: string, featuredAs: Option<string>): Notification
  {
    FeaturedNote(puzzle.author, puzzleId, puzzle.title, featuredAs)
  }

  function NewPuzzleNotification(puzzle: Puzzle, puzzleId: string, follower: UserId): Notification
  {
    NewPuzzleNote(follower, puzzleId, puzzle.title)
  }

  /** The label of the featured notification sent when a puzzle becomes a daily mini. */
  function DailyMiniLabel(dmd: string): string
  {
    "the daily mini for " + dmd
  }

  // ---------------------------------------------------------------------
  // The comment forest
  // ---------------------------------------------------------------------

  /** The first comment of `cs` whose id is `id`, as `Array.prototype.find` returns it. */
  function FindById(cs: seq<Comment>, id: CommentId): (r: Option<Comment>)
    ensures r.None? <==> forall k :: 0 <= k < |cs| ==> cs[k].id != id
    ensures r.Some? ==> exists k :: 0 <= k < |cs| && cs[k] == r.value && r.value.id == id &&
                                   forall j :: 0 <= j < k ==> cs[j].id != id
  {
    if cs == [] then None
    else if cs[0].id == id then Some(cs[0])
    else
      FindById(cs[1..], id)
  }

  /** Every comment of the forest `cs`, replies at any depth included. */
  ghost function Nodes(cs: seq<Comment>): set<Comment>
  {
    if cs == [] then {} else NodeAndDescendants(cs[0]) + Nodes(cs[1..])
  }

  /** `c` together with every reply under it. */
  ghost function NodeAndDescendants(c: Comment): set<Comment>
  {
    {c} + Nodes(c.replies)
  }

  /** The number of comments in the forest `cs`. */
  function ForestSize(cs: seq<Comment>): nat
  {
    if cs == [] then 0 else Size(cs[0]) + ForestSize(cs[1..])
  }

  /** The number of comments in the thread rooted at `c`. */
  function Size(c: Comment): nat
  {
    1 + ForestSize(c.replies)
  }

  /** No two siblings share an id, at any level of the forest. */
  ghost predicate UniqueSiblingIds(cs: seq<Comment>)
  {
    (forall i, j :: 0 <= i < j < |cs| ==> cs[i].id != cs[j].id) &&
    (cs != [] ==> ThreadUnique(cs[0]) && UniqueSiblingIds(cs[1..]))
  }

  ghost predicate ThreadUnique(c: Comment)
  {
    UniqueSiblingIds(c.replies)
  }

  // ---------------------------------------------------------------------
  // checkComments
  // ---------------------------------------------------------------------

  /**
   * What a brand-new comment `c` (one with no same-id sibling before) yields:
   * a comment notification to the puzzle author unless `c` is by the puzzle
   * author, then a reply notification to the parent's author when there is a
   * parent, `c` is not by the parent's author and the parent's author is not
   * the puzzle author.
   */
  function NewCommentNotes(c: Comment, puzzle: Puzzle, puzzleId: string, parent: Option<Comment>): (r: seq<Notification>)
    ensures |r| <= 2
    ensures CommentNotification(c, puzzle, puzzleId) in r <==> c.author != puzzle.author
    ensures parent.Some? ==>
              (ReplyNotification(c, parent.value, puzzle, puzzleId) in r <==>
                 c.author != parent.value.author && parent.value.author != puzzle.author)
    ensures forall n :: n in r ==>
              n == CommentNotification(c, puzzle, puzzleId) ||
              (parent.Some? && n == ReplyNotification(c, parent.value, puzzle, puzzleId))
    ensures forall n :: n in r ==> n.recipient != c.author
    ensures parent.None? ==> forall n :: n in r ==> !n.ReplyNote?
    ensures |r| == 2 ==> r[0].CommentNote? && r[1].ReplyNote?
  {
    (if c.author != puzzle.author then [CommentNotification(c, puzzle, puzzleId)] else []) +
    (if parent.Some? && c.author != parent.value.author && parent.value.author != puzzle.author
     then [ReplyNotification(c, parent.value, puzzle, puzzleId)]
     else [])
  }

  /**
   * The notifications `checkComments(after, before, puzzle, parent)` returns:
   * the notifications of each comment of `after`, in order.
   */
  function CommentDiff(after: seq<Comment>, before: seq<Comment>, puzzle: Puzzle, puzzleId: string, parent: Option<Comment>): seq<Notification>
  {
    if after == [] then []
    else NodeNotes(after[0], before, puzzle, puzzleId, parent) + CommentDiff(after[1..], before, puzzle, puzzleId, parent)
  }

  /**
   * The notifications of one comment `c` of `after`, given the sibling list
   * `before` at the same level: those of a brand-new comment, or, for a
   * comment found in `before`, the diff of its replies against the replies
   * of the comment found. The replies of a brand-new comment are not visited.
   */
  function NodeNotes(c: Comment, before: seq<Comment>, puzzle: Puzzle, puzzleId: string, parent: Option<Comment>): seq<Notification>
  {
    match FindById(before, c.id)
    case None => NewCommentNotes(c, puzzle, puzzleId, parent)
    case Some(b) => CommentDiff(c.replies, b.replies, puzzle, puzzleId, Some(c))
  }

  /**
   * checkComments: walks `after` in order, looks each comment up among the
   * siblings `before`, and accumulates the notifications.
   */
  method CheckComments(after: seq<Comment>, before: seq<Comment>, puzzle: Puzzle, puzzleId: string, parent: Option<Comment>)
    returns (notifications: seq<Notification>)
    ensures notifications == CommentDiff(after, before, puzzle, puzzleId, parent)
  {
    notifications := [];
    var i := 0;
    while i < |after|
      invariant 0 <= i <= |after|
      invariant notifications + CommentDiff(after[i..], before, puzzle, puzzleId, parent)
                == CommentDiff(after, before, puzzle, puzzleId, parent)
    {
      var comment := after[i];
      assert after[i..][1..] == after[i + 1..];
      assert CommentDiff(after[i..], before, puzzle, puzzleId, parent)
             == NodeNotes(comment, before, puzzle, puzzleId, parent) + CommentDiff(after[i + 1..], before, puzzle, puzzleId, parent);
      var produced: seq<Notification> := [];
      var beforeComment := FindById(before, comment.id);
      if beforeComment.None? {
        if comment.author != puzzle.author {
          produced := produced + [CommentNotification(comment, puzzle, puzzleId)];
        }
        if parent.Some? && comment.author != parent.value.author && parent.value.author != puzzle.author {
          produced := produced + [ReplyNotification(comment, parent.value, puzzle, puzzleId)];
        }
        assert produced == NewCommentNotes(comment, puzzle, puzzleId, parent);
      } else if comment.replies != [] {
        produced := CheckComments(comment.replies, beforeComment.value.replies, puzzle, puzzleId, Some(comment));
      } else {
        assert CommentDiff(comment.replies, beforeComment.value.replies, puzzle, puzzleId, Some(comment)) == [];
      }
      assert produced == NodeNotes(comment, before, puzzle, puzzleId, parent);
      notifications := notifications + produced;
      i := i + 1;
    }
    assert after[i..] == [];
  }

  // ---------------------------------------------------------------------
  // Properties of the comment diff
  // ---------------------------------------------------------------------

  /**
   * `n` is a comment or reply notification about a comment of `nodes` that
   * is not addressed to that comment's author; comment notifications go to
   * the puzzle author and reply notifications never do.
   */
  ghost predicate Accountable(n: Notification, nodes: set<Comment>, puzzle: Puzzle)
  {
    (n.CommentNote? || n.ReplyNote?) &&
    (n.CommentNote? ==> n.recipient == puzzle.author) &&
    (n.ReplyNote? ==> n.recipient != puzzle.author) &&
    exists c :: c in nodes && c.id == n.commentId && c.name == n.commenterName && c.author != n.recipient
  }

  /** Accountability carries over to a larger set of comments. */
  lemma AccountableMono(n: Notification, small: set<Comment>, large: set<Comment>, puzzle: Puzzle)
    requires Accountable(n, small, puzzle)
    requires small <= large
    ensures Accountable(n, large, puzzle)
  {
    var c :| c in small && c.id == n.commentId && c.name == n.commenterName && c.author != n.recipient;
    assert c in large;
  }

  /**
   * Every notification of the diff is about some comment of `after` and is
   * never addressed to that comment's own author (no self-notification);
   * comment notifications go to the puzzle author, reply notifications
   * never do.
   */
  lemma {:induction false} DiffAccountable(after: seq<Comment>, before: seq<Comment>, puzzle: Puzzle, puzzleId: string, parent: Option<Comment>)
    ensures forall n :: n in CommentDiff(after, before, puzzle, puzzleId, parent) ==> Accountable(n, Nodes(after), puzzle)
  {
    if after != [] {
      NodeAccountable(after[0], before, puzzle, puzzleId, parent);
      DiffAccountable(after[1..], before, puzzle, puzzleId, parent);
      forall n | n in CommentDiff(after, before, puzzle, puzzleId, parent)
        ensures Accountable(n, Nodes(after), puzzle)
      {
        if n in NodeNotes(after[0], before, puzzle, puzzleId, parent) {
          AccountableMono(n, NodeAndDescendants(after[0]), Nodes(after), puzzle);
        } else {
          AccountableMono(n, Nodes(after[1..]), Nodes(after), puzzle);
        }
      }
    }
  }

  /** The one-comment case of DiffAccountable, over the thread rooted at `c`. */
  lemma {:induction false} NodeAccountable(c: Comment, before: seq<Comment>, puzzle: Puzzle, puzzleId: string, parent: Option<Comment>)
    ensures forall n :: n in NodeNotes(c, before, puzzle, puzzleId, parent) ==> Accountable(n, NodeAndDescendants(c), puzzle)
  {
    match FindById(before, c.id)
    case None =>
      assert c in NodeAndDescendants(c);
    case Some(b) =>
      DiffAccountable(c.replies, b.replies, puzzle, puzzleId, Some(c));
      forall n | n in NodeNotes(c, before, puzzle, puzzleId, parent)
        ensures Accountable(n, NodeAndDescendants(c), puzzle)
      {
        AccountableMono(n, Nodes(c.replies), NodeAndDescendants(c), puzzle);
      }
  }

  /**
   * A comment that already existed yields no notification of its own: every
   * notification it accounts for is about a comment strictly below it.
   */
  lemma ExistingCommentSilent(c: Comment, before: seq<Comment>, puzzle: Puzzle, puzzleId: string, parent: Option<Comment>)
    requires FindById(before, c.id).Some?
    ensures forall n :: n in NodeNotes(c, before, puzzle, puzzleId, parent) ==> Accountable(n, Nodes(c.replies), puzzle)
  {
    DiffAccountable(c.replies, FindById(before, c.id).value.replies, puzzle, puzzleId, Some(c));
  }

  /**
   * The replies carried by a brand-new comment never influence the result:
   * the walk does not descend below a new comment.
   */
  lemma NewCommentRepliesIgnored(c: Comment, replies: seq<Comment>, before: seq<Comment>, puzzle: Puzzle, puzzleId: string, parent: Option<Comment>)
    requires FindById(before, c.id).None?
    ensures NodeNotes(c.(replies := replies), before, puzzle, puzzleId, parent) == NodeNotes(c, before, puzzle, puzzleId, parent)
    ensures |NodeNotes(c, before, puzzle, puzzleId, parent)| <= 2
  {
  }

  /** The diff of a concatenation is the concatenation of the diffs: output follows sibling order. */
  lemma {:induction false} DiffAppend(a: seq<Comment>, b: seq<Comment>, before: seq<Comment>, puzzle: Puzzle, puzzleId: string, parent: Option<Comment>)
    ensures CommentDiff(a + b, before, puzzle, puzzleId, parent)
            == CommentDiff(a, before, puzzle, puzzleId, parent) + CommentDiff(b, before, puzzle, puzzleId, parent)
  {
    if a == [] {
      assert a + b == b;
    } else {
      assert (a + b)[0] == a[0];
      assert (a + b)[1..] == a[1..] + b;
      DiffAppend(a[1..], b, before, puzzle, puzzleId, parent);
    }
  }

  /** At most two notifications per comment of `after`. */
  lemma {:induction false} DiffBound(after: seq<Comment>, before: seq<Comment>, puzzle: Puzzle, puzzleId: string, parent: Option<Comment>)
    ensures |CommentDiff(after, before, puzzle, puzzleId, parent)| <= 2 * ForestSize(after)
  {
    if after != [] {
      NodeBound(after[0], before, puzzle, puzzleId, parent);
      DiffBound(after[1..], before, puzzle, puzzleId, parent);
    }
  }

  /** The one-comment case of DiffBound. */
  lemma {:induction false} NodeBound(c: Comment, before: seq<Comment>, puzzle: Puzzle, puzzleId: string, parent: Option<Comment>)
    ensures |NodeNotes(c, before, puzzle, puzzleId, parent)| <= 2 * Size(c)
  {
    match FindById(before, c.id)
    case None =>
    case Some(b) =>
      DiffBound(c.replies, b.replies, puzzle, puzzleId, Some(c));
  }

  /**
   * Diffing a comment forest against itself yields nothing (provided
   * siblings have distinct ids): re-processing an unchanged comment tree
   * sends no notification.
   */
  lemma UnchangedForestSilent(cs: seq<Comment>, puzzle: Puzzle, puzzleId: string, parent: Option<Comment>)
    requires UniqueSiblingIds(cs)
    ensures CommentDiff(cs, cs, puzzle, puzzleId, parent) == []
  {
    DiffOfPresent(cs, cs, puzzle, puzzleId, parent);
  }

  /** Comments all present, unchanged, in a sibling list with distinct ids yield nothing. */
  lemma {:induction false} DiffOfPresent(s: seq<Comment>, full: seq<Comment>, puzzle: Puzzle, puzzleId: string, parent: Option<Comment>)
    requires UniqueSiblingIds(full)
    requires forall k :: 0 <= k < |s| ==> s[k] in full
    ensures CommentDiff(s, full, puzzle, puzzleId, parent) == []
  {
    if s != [] {
      ThreadOfPresent(s[0], full, puzzle, puzzleId, parent);
      DiffOfPresent(s[1..], full, puzzle, puzzleId, parent);
    }
  }

  /** The one-comment case of DiffOfPresent. */
  lemma {:induction false} ThreadOfPresent(c: Comment, full: seq<Comment>, puzzle: Puzzle, puzzleId: string, parent: Option<Comment>)
    requires UniqueSiblingIds(full)
    requires c in full
    ensures NodeNotes(c, full, puzzle, puzzleId, parent) == []
  {
    var i :| 0 <= i < |full| && full[i] == c;
    var found := FindById(full, c.id);
    var k :| 0 <= k < |full| && full[k] == found.value && found.value.id == c.id &&
             forall j :: 0 <= j < k ==> full[j].id != c.id;
    UniqueAt(full, i);
    UniqueAt(full, k);
    assert k == i;
    forall j | 0 <= j < |c.replies| ensures c.replies[j] in c.replies { }
    DiffOfPresent(c.replies, c.replies, puzzle, puzzleId, Some(c));
  }

  /** Distinct sibling ids hold of every thread in a forest with distinct sibling ids. */
  lemma {:induction false} UniqueAt(cs: seq<Comment>, i: nat)
    requires UniqueSiblingIds(cs)
    requires i < |cs|
    ensures ThreadUnique(cs[i])
    ensures forall j :: 0 <= j < |cs| && cs[j].id == cs[i].id ==> j == i
  {
    if i > 0 {
      UniqueAt(cs[1..], i - 1);
    }
  }

  // ---------------------------------------------------------------------
  // notificationsForPuzzleCreation and notificationsForPuzzleChange
  // ---------------------------------------------------------------------

  /** One new-puzzle notification per follower, in the followers' order. */
  function FanOut(puzzle: Puzzle, puzzleId: string, followers: seq<UserId>): (r: seq<Notification>)
    ensures |r| == |followers|
    ensures forall i :: 0 <= i < |r| ==>
              (r[i].NewPuzzleNote? && r[i].recipient == followers[i] &&
               r[i].puzzleId == puzzleId && r[i].puzzleTitle == puzzle.title)
  {
    if followers == [] then []
    else [NewPuzzleNotification(puzzle, puzzleId, followers[0])] + FanOut(puzzle, puzzleId, followers[1..])
  }

  /**
   * notificationsForPuzzleCreation: nothing for a private puzzle or when the
   * followers document is missing, malformed or without a follower list;
   * otherwise the fan-out to the followers.
   */
  function NotificationsForPuzzleCreation(puzzle: Puzzle, puzzleId: string, followers: FollowersDoc): (r: seq<Notification>)
    ensures puzzle.pv || !followers.FollowersDoc? || followers.f.None? ==> r == []
    ensures !puzzle.pv && followers.FollowersDoc? && followers.f.Some? ==>
              |r| == |followers.f.value| &&
              forall i :: 0 <= i < |r| ==> r[i] == NewPuzzleNotification(puzzle, puzzleId, followers.f.value[i])
  {
    if puzzle.pv then []
    else
      match followers
      case NoFollowersDoc => []
      case MalformedFollowersDoc => []
      case FollowersDoc(f) =>
        match f
        case None => []
        case Some(fs) => FanOut(puzzle, puzzleId, fs)
  }

  /**
   * The featured notification of a change: without label when the puzzle
   * has just been featured; otherwise with the daily-mini label when a
   * daily-mini date has just been set; otherwise none.
   */
  function FeaturedNotes(before: Puzzle, after: Puzzle, puzzleId: string): (r: seq<Notification>)
    ensures |r| <= 1
    ensures r != [] <==> (after.featured && !before.featured) || (after.dailyMiniDate != "" && before.dailyMiniDate == "")
    ensures forall n :: n in r ==> n.FeaturedNote? && n == FeaturedNotification(after, puzzleId, n.featuredAs)
    ensures r != [] ==> (r[0].featuredAs.None? <==> after.featured && !before.featured)
    ensures r != [] && r[0].featuredAs.Some? ==> r[0].featuredAs.value == DailyMiniLabel(after.dailyMiniDate)
  {
    if after.featured && !before.featured then [FeaturedNotification(after, puzzleId, None)]
    else if after.dailyMiniDate != "" && before.dailyMiniDate == "" then
      [FeaturedNotification(after, puzzleId, Some(DailyMiniLabel(after.dailyMiniDate)))]
    else []
  }

  /** The change is a publication: no previous version, or a private puzzle made public. */
  predicate IsCreation(before: Option<Puzzle>, after: Puzzle)
  {
    before.None? || (before.value.pv && !after.pv)
  }

  /**
   * notificationsForPuzzleChange: on a publication, only the follower
   * fan-out; otherwise the comment diff from the top level, followed by at
   * most one featured notification.
   */
  method NotificationsForPuzzleChange(before: Option<Puzzle>, after: Puzzle, puzzleId: string, followers: FollowersDoc)
    returns (notifications: seq<Notification>)
    ensures IsCreation(before, after) ==> notifications == NotificationsForPuzzleCreation(after, puzzleId, followers)
    ensures IsCreation(before, after) ==> forall n :: n in notifications ==> n.NewPuzzleNote?
    ensures !IsCreation(before, after) ==>
              notifications == CommentDiff(after.comments, before.value.comments, after, puzzleId, None)
                               + FeaturedNotes(before.value, after, puzzleId)
    ensures !IsCreation(before, after) ==> forall n :: n in notifications ==> !n.NewPuzzleNote?
    ensures !IsCreation(before, after) ==>
              forall i :: 0 <= i < |notifications| && notifications[i].FeaturedNote? ==> i == |notifications| - 1
    ensures !IsCreation(before, after) && after.comments == [] ==> |notifications| <= 1
  {
    if before.None? || (before.value.pv && !after.pv) {
      notifications := NotificationsForPuzzleCreation(after, puzzleId, followers);
      return;
    }
    notifications := [];
    if after.comments != [] {
      var fromComments := CheckComments(after.comments, before.value.comments, after, puzzleId, None);
      notifications := notifications + fromComments;
    }
    DiffAccountable(after.comments, before.value.comments, after, puzzleId, None);
    ghost var commentPart := notifications;
    assert forall n :: n in commentPart ==> n.CommentNote? || n.ReplyNote?;
    if after.featured && !before.value.featured {
      notifications := notifications + [FeaturedNotification(after, puzzleId, None)];
    } else if after.dailyMiniDate != "" && before.value.dailyMiniDate == "" {
      notifications := notifications + [FeaturedNotification(after, puzzleId, Some(DailyMiniLabel(after.dailyMiniDate)))];
    }
    assert forall i :: 0 <= i < |commentPart| ==> commentPart[i] in commentPart;
  }
}
