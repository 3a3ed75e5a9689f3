/**
 * The comment scenarios of app/__tests__/notifications.test.ts, each run
 * through NotificationsForPuzzleChange. Each promises the exact list the
 * code computes; its length is the count the test asserts. `base` is the
 * mocked puzzle, without comments, by the default commenter; before and
 * after differ only in their comments, so the change is never a publication.
 */
module NotificationScenarios {
  import opened Wrappers
  import opened Notifications

  const PuzzleAuthor: UserId := "fSEwJorvqOMK5UhNMHa4mu48izl1"
  const DefaultId: CommentId := "LwgoVx0BAskM4wVJyoLj"
  const PuzzleId := "puzzle-id-here"

  /** The mocked puzzle the tests start from. */
  predicate IsBase(base: Puzzle)
  {
    base.author == PuzzleAuthor && base.comments == []
  }

  /** A comment on one's own puzzle notifies nobody. */
  method OwnCommentScenario(base: Puzzle, followers: FollowersDoc) returns (notes: seq<Notification>)
    requires IsBase(base)
    ensures notes == []
  {
    var after := base.(comments := [Comment(DefaultId, PuzzleAuthor, "Mike D", [])]);
    notes := NotificationsForPuzzleChange(Some(base), after, PuzzleId, followers);
  }

  /** A new comment by somebody else notifies the puzzle author once. */
  method OtherCommentScenario(base: Puzzle, followers: FollowersDoc) returns (notes: seq<Notification>)
    requires IsBase(base)
    ensures notes == [CommentNote(PuzzleAuthor, PuzzleId, base.title, DefaultId, "Mike D")]
  {
    var after := base.(comments := [Comment(DefaultId, "dummy-author-id", "Mike D", [])]);
    notes := NotificationsForPuzzleChange(Some(base), after, PuzzleId, followers);
  }

  /** Of three new comments, the two by others notify the puzzle author, in order. */
  method MultipleCommentsScenario(base: Puzzle, followers: FollowersDoc) returns (notes: seq<Notification>)
    requires IsBase(base)
    ensures notes == [CommentNote(PuzzleAuthor, PuzzleId, base.title, "bar", "Jim"),
                      CommentNote(PuzzleAuthor, PuzzleId, base.title, "bam", "Tom")]
  {
    var foo := Comment("foo", PuzzleAuthor, "Mike D", []);
    var bar := Comment("bar", "dummy-author-id", "Jim", []);
    var bam := Comment("bam", "another-author", "Tom", []);
    var after := base.(comments := [foo, bar, bam]);
    assert [foo, bar, bam][1..] == [bar, bam];
    assert [bar, bam][1..] == [bam];
    assert [bam][1..] == [];
    assert CommentDiff([bam], [], after, PuzzleId, None)
           == [CommentNote(PuzzleAuthor, PuzzleId, base.title, "bam", "Tom")];
    assert CommentDiff([bar, bam], [], after, PuzzleId, None)
           == [CommentNote(PuzzleAuthor, PuzzleId, base.title, "bar", "Jim")] + CommentDiff([bam], [], after, PuzzleId, None);
    assert NodeNotes(foo, [], after, PuzzleId, None) == [];
    notes := NotificationsForPuzzleChange(Some(base), after, PuzzleId, followers);
  }

  /** A reply to the puzzle author's own comment yields only the comment notification. */
  method ReplyToOwnCommentScenario(base: Puzzle, followers: FollowersDoc) returns (notes: seq<Notification>)
    requires IsBase(base)
    ensures notes == [CommentNote(PuzzleAuthor, PuzzleId, base.title, "bar", "Jim")]
  {
    var before := base.(comments := [Comment(DefaultId, PuzzleAuthor, "Mike D", [])]);
    var bar := Comment("bar", "dummy-author-id", "Jim", []);
    var top := Comment(DefaultId, PuzzleAuthor, "Mike D", [bar]);
    var after := base.(comments := [top]);
    assert CommentDiff([bar], [], after, PuzzleId, Some(top))
           == [CommentNote(PuzzleAuthor, PuzzleId, base.title, "bar", "Jim")];
    assert NodeNotes(top, before.comments, after, PuzzleId, None)
           == CommentDiff([bar], [], after, PuzzleId, Some(top));
    notes := NotificationsForPuzzleChange(Some(before), after, PuzzleId, followers);
  }

  /** The puzzle author's reply notifies only the parent comment's author. */
  method AuthorRepliesScenario(base: Puzzle, followers: FollowersDoc) returns (notes: seq<Notification>)
    requires IsBase(base)
    ensures notes == [ReplyNote("dummy-author-id", PuzzleId, base.title, "baz", "Mike D")]
  {
    var before := base.(comments := [Comment(DefaultId, "dummy-author-id", "Mike D", [])]);
    var baz := Comment("baz", PuzzleAuthor, "Mike D", []);
    var top := Comment(DefaultId, "dummy-author-id", "Mike D", [baz]);
    var after := base.(comments := [top]);
    assert CommentDiff([baz], [], after, PuzzleId, Some(top))
           == [ReplyNote("dummy-author-id", PuzzleId, base.title, "baz", "Mike D")];
    assert NodeNotes(top, before.comments, after, PuzzleId, None)
           == CommentDiff([baz], [], after, PuzzleId, Some(top));
    notes := NotificationsForPuzzleChange(Some(before), after, PuzzleId, followers);
  }

  /** A third party's reply notifies the puzzle author, then the parent comment's author. */
  method ThirdPartyReplyScenario(base: Puzzle, followers: FollowersDoc) returns (notes: seq<Notification>)
    requires IsBase(base)
    ensures notes == [CommentNote(PuzzleAuthor, PuzzleId, base.title, "baz", "Mike D"),
                      ReplyNote("dummy-author-id", PuzzleId, base.title, "baz", "Mike D")]
  {
    var before := base.(comments := [Comment(DefaultId, "dummy-author-id", "Mike D", [])]);
    var baz := Comment("baz", "rando", "Mike D", []);
    var top := Comment(DefaultId, "dummy-author-id", "Mike D", [baz]);
    var after := base.(comments := [top]);
    assert CommentDiff([baz], [], after, PuzzleId, Some(top))
           == [CommentNote(PuzzleAuthor, PuzzleId, base.title, "baz", "Mike D"),
               ReplyNote("dummy-author-id", PuzzleId, base.title, "baz", "Mike D")];
    assert NodeNotes(top, before.comments, after, PuzzleId, None)
           == CommentDiff([baz], [], after, PuzzleId, Some(top));
    notes := NotificationsForPuzzleChange(Some(before), after, PuzzleId, followers);
  }

  // The comments of the mixed scenario.
  const OldBaz := Comment("baz", "rando", "Mike D", [])
  const OldTop := Comment(DefaultId, PuzzleAuthor, "Mike D", [OldBaz])
  const Bam := Comment("bam", "blaster", "BLAST", [])
  const Whamo := Comment("whamo", PuzzleAuthor, "Mike D", [])
  const Test := Comment("test", "blaster", "Mike D", [])
  const Baz := Comment("baz", "rando", "Mike D", [Whamo, Test])
  const Foobar := Comment("foobar", "another-rando", "Mike D", [])
  const Top := Comment(DefaultId, PuzzleAuthor, "Mike D", [Baz, Foobar])

  /** The two new replies under the existing reply `baz`. */
  lemma MixedDeepReplies(p: Puzzle)
    requires p.author == PuzzleAuthor
    ensures CommentDiff(Baz.replies, OldBaz.replies, p, PuzzleId, Some(Baz))
            == [ReplyNote("rando", PuzzleId, p.title, "whamo", "Mike D"),
                CommentNote(PuzzleAuthor, PuzzleId, p.title, "test", "Mike D"),
                ReplyNote("rando", PuzzleId, p.title, "test", "Mike D")]
  {
    assert [Whamo, Test][1..] == [Test];
    assert [Test][1..] == [];
    assert CommentDiff([Test], [], p, PuzzleId, Some(Baz))
           == [CommentNote(PuzzleAuthor, PuzzleId, p.title, "test", "Mike D"),
               ReplyNote("rando", PuzzleId, p.title, "test", "Mike D")];
    assert NodeNotes(Whamo, [], p, PuzzleId, Some(Baz))
           == [ReplyNote("rando", PuzzleId, p.title, "whamo", "Mike D")];
  }

  /** The existing top-level comment: the replies below `baz`, then the new sibling `foobar`. */
  lemma MixedTopThread(p: Puzzle)
    requires p.author == PuzzleAuthor
    ensures NodeNotes(Top, [OldTop], p, PuzzleId, None)
            == [ReplyNote("rando", PuzzleId, p.title, "whamo", "Mike D"),
                CommentNote(PuzzleAuthor, PuzzleId, p.title, "test", "Mike D"),
                ReplyNote("rando", PuzzleId, p.title, "test", "Mike D"),
                CommentNote(PuzzleAuthor, PuzzleId, p.title, "foobar", "Mike D")]
  {
    MixedDeepReplies(p);
    assert [Baz, Foobar][1..] == [Foobar];
    assert [Foobar][1..] == [];
    assert [OldBaz][1..] == [];
    assert FindById([OldBaz], "baz") == Some(OldBaz);
    assert NodeNotes(Baz, [OldBaz], p, PuzzleId, Some(Top))
           == CommentDiff(Baz.replies, OldBaz.replies, p, PuzzleId, Some(Baz));
    assert NodeNotes(Foobar, [OldBaz], p, PuzzleId, Some(Top))
           == [CommentNote(PuzzleAuthor, PuzzleId, p.title, "foobar", "Mike D")];
    assert CommentDiff([Foobar], [OldBaz], p, PuzzleId, Some(Top))
           == NodeNotes(Foobar, [OldBaz], p, PuzzleId, Some(Top));
    assert FindById([OldTop], DefaultId) == Some(OldTop);
  }

  /** New comments and nested replies at several levels: exactly five notifications, depth first. */
  method MixedScenario(base: Puzzle, followers: FollowersDoc) returns (notes: seq<Notification>)
    requires IsBase(base)
    ensures notes == [CommentNote(PuzzleAuthor, PuzzleId, base.title, "bam", "BLAST"),
                      ReplyNote("rando", PuzzleId, base.title, "whamo", "Mike D"),
                      CommentNote(PuzzleAuthor, PuzzleId, base.title, "test", "Mike D"),
                      ReplyNote("rando", PuzzleId, base.title, "test", "Mike D"),
                      CommentNote(PuzzleAuthor, PuzzleId, base.title, "foobar", "Mike D")]
    ensures |notes| == 5
  {
    var before := base.(comments := [OldTop]);
    var after := base.(comments := [Bam, Top]);
    MixedTopThread(after);
    assert [Bam, Top][1..] == [Top];
    assert [Top][1..] == [];
    assert CommentDiff([Top], [OldTop], after, PuzzleId, None) == NodeNotes(Top, [OldTop], after, PuzzleId, None);
    notes := NotificationsForPuzzleChange(Some(before), after, PuzzleId, followers);
  }
}
