# Crosshare puzzle notifications and page-cursor index, in Dafny

This project models two pieces of the Crosshare crossword site's server code.

**Notifications for a puzzle change** (`app/lib/notifications.ts`, module
`Notifications`). A puzzle document holds a forest of comments. When it
changes, `notificationsForPuzzleChange` works out who must be told. It has two
paths:

- **Publication.** There is no previous version, or a private puzzle has just
  become public. The only output is one `newpuzzle` notification per follower
  of the author, and only when the followers document exists, validates and
  has a follower list.
- **Any other change.** `checkComments` compares the comment forest with the
  previous one, level by level:
  - A comment with no same-id sibling before is brand new. It notifies the
    puzzle author, unless the puzzle author wrote it.
  - A brand-new comment also notifies its parent comment's author with a
    reply notification. This happens only when it has a parent, its author is
    not the parent's author, and the parent's author is not the puzzle author.
  - The walk does not descend below a brand-new comment.
  - An existing comment notifies nobody itself; the walk goes on into its
    replies.
  - After the comments comes at most one `featured` notification: with no
    label when the puzzle has just been featured, otherwise labelled
    "the daily mini for <date>" when a daily-mini date has just been set.

`CheckComments` and `NotificationsForPuzzleChange` are methods that
accumulate their result the way the source does. `CommentDiff` and
`NodeNotes` are the functions that specify them. The lemmas about those
functions cover:

- no self-notification;
- where each notification is addressed;
- silence for existing comments;
- the bound of two notifications per comment;
- sibling order;
- silence when nothing changed.

The seven comment scenarios of `app/__tests__/notifications.test.ts` are
methods of module `NotificationScenarios`. Each one calls
`NotificationsForPuzzleChange` and promises the exact list the code computes
for the test's input. The length of that list is the count the test asserts.

**Paging through puzzles** (`app/lib/paginatedPuzzles.ts`, module
`Pagination`). `paginatedPuzzles` serves page `page` of a query, newest
`pvu` first. For each query it keeps an index document whose list `p` holds
page starts: page 0 starts now and page k starts at `p[k-1]`. The class
`IndexCollection` holds those documents. Its method `PaginatedPuzzles` does
the following:

- It throws when a query field comes without a value.
- It builds the document id.
- It throws on an index document that fails validation, and treats a missing
  one as `p = []`.
- It returns an empty last page when the page's start was never recorded.
- Otherwise it queries `pageSize + 1` puzzles from the page start down. When
  the extra puzzle exists and has a `pvu`, it records that `pvu` as the next
  page's start in `p[page]` and writes the document back.

The store's query is a function parameter `runQuery`, and the clock is a
parameter `now`.

## Model

| member | source | states |
|---|---|---|
| `Notifications.FindById` | app/lib/notifications.ts:23-25 | the result is the first sibling with the requested id, and it is absent exactly when no sibling has that id |
| `Notifications.NewCommentNotes` | app/lib/notifications.ts:26-34 | a brand-new comment yields at most two notifications. The comment notification to the puzzle author is present iff the commenter is not the puzzle author. The reply notification to the parent's author is present iff commenter ≠ parent author and parent author ≠ puzzle author. Nothing is addressed to the commenter, a top-level comment never yields a reply notification, and when both are present the comment notification comes first |
| `Notifications.CommentDiff` | app/lib/notifications.ts:15-42 | no contract of its own: it is the result `checkComments` returns. `CheckComments` is proved to compute it; `DiffAccountable`, `DiffAppend`, `DiffBound` and `UnchangedForestSilent` state its properties |
| `Notifications.NodeNotes` | app/lib/notifications.ts:23-39 | no contract of its own: the notifications of one comment of `after`. `ExistingCommentSilent` and `NewCommentRepliesIgnored` state its two cases; the contract of `NewCommentNotes` states what a brand-new comment yields |
| `Notifications.CheckComments` | app/lib/notifications.ts:15-42 | the loop with its recursive calls returns exactly `CommentDiff(after, before, puzzle, puzzleId, parent)` |
| `Notifications.DiffAccountable` | app/lib/notifications.ts:21-41 | every notification of the diff is a comment or reply notification about some comment of `after` and is never addressed to that comment's own author. Comment notifications go to the puzzle author; reply notifications never do |
| `Notifications.ExistingCommentSilent` | app/lib/notifications.ts:23-39 | a comment found among the previous siblings yields nothing about itself; everything it accounts for concerns comments strictly below it |
| `Notifications.NewCommentRepliesIgnored` | app/lib/notifications.ts:26-39 | the replies carried by a brand-new comment have no influence on the result, which has at most two notifications |
| `Notifications.DiffAppend` | app/lib/notifications.ts:22-40 | the diff of `a + b` is the diff of `a` followed by the diff of `b`: the output follows the sibling order of `after` |
| `Notifications.DiffBound` | app/lib/notifications.ts:21-41 | the diff has at most twice as many notifications as `after` has comments |
| `Notifications.UnchangedForestSilent` | app/lib/notifications.ts:22-39 | a forest with distinct sibling ids, compared with itself, yields no notification |
| `Notifications.FanOut` | app/lib/notifications.ts:71-73 | one `newpuzzle` notification per follower, addressed to that follower, in the followers' order |
| `Notifications.NotificationsForPuzzleCreation` | app/lib/notifications.ts:44-74 | nothing for a private puzzle or when the followers document is missing, invalid or without a follower list; otherwise exactly the per-follower fan-out |
| `Notifications.FeaturedNotes` | app/lib/notifications.ts:92-98 | at most one notification, present iff the puzzle was just featured or a daily-mini date was just set. It has no label iff it was just featured (featured wins), otherwise the label "the daily mini for <dmd>". It is addressed to the puzzle author |
| `Notifications.IsCreation` | app/lib/notifications.ts:82 | no contract of its own: a change is a publication iff there is no previous version or a private puzzle (`pv` set) has been made public. The contract of `NotificationsForPuzzleChange` states what each side of this test yields |
| `Notifications.NotificationsForPuzzleChange` | app/lib/notifications.ts:76-101 | on publication (no previous version, or private made public) the result is exactly the follower fan-out and holds only `newpuzzle` notifications. Otherwise it is the top-level comment diff followed by the featured notification, holds no `newpuzzle` notification, has any featured notification only in last place, and has at most one notification when the puzzle has no comments |
| `NotificationScenarios.OwnCommentScenario` | app/__tests__/notifications.test.ts:27-34 | a comment on one's own puzzle produces no notification |
| `NotificationScenarios.OtherCommentScenario` | app/__tests__/notifications.test.ts:89-98 | a new comment by someone else produces exactly one comment notification to the puzzle author |
| `NotificationScenarios.MultipleCommentsScenario` | app/__tests__/notifications.test.ts:100-113 | of three new comments, the two not by the author produce the two comment notifications, in order |
| `NotificationScenarios.ReplyToOwnCommentScenario` | app/__tests__/notifications.test.ts:115-128 | a reply to the puzzle author's comment produces only the comment notification |
| `NotificationScenarios.AuthorRepliesScenario` | app/__tests__/notifications.test.ts:130-143 | the puzzle author's reply produces only a reply notification to the parent's author |
| `NotificationScenarios.ThirdPartyReplyScenario` | app/__tests__/notifications.test.ts:145-158 | a third party's reply produces the comment notification and then the reply notification |
| `NotificationScenarios.MixedScenario` | app/__tests__/notifications.test.ts:160-186 | the mixed scenario produces exactly these five notifications, depth first |
| `Pagination.Decimal` | app/lib/paginatedPuzzles.ts:29-31 | the page size prints as a non-empty string of decimal digits, of length one iff it is below ten; `DecimalValue` states that those digits denote the page size |
| `Pagination.DecimalValue` | app/lib/paginatedPuzzles.ts:29-31 | the digits printed for the page size, read most significant first, denote the page size itself |
| `Pagination.DecimalInjective` | app/lib/paginatedPuzzles.ts:29-31 | distinct page sizes print differently |
| `Pagination.IndexKey` | app/lib/paginatedPuzzles.ts:29-34 | no contract of its own: the index document id. `IndexKeyShape` states its shape, and `IndexKeySeparatesPageSizes` and `IndexKeySeparatesOperators` that it separates page sizes and operators |
| `Pagination.IndexKeyShape` | app/lib/paginatedPuzzles.ts:29-34 | the index id starts with `public-` without a field and with `<field>-<value>-` otherwise. It ends with `-<pageSize>`, followed by `-<op>` exactly when the operator is not `==` |
| `Pagination.IndexKeySeparatesPageSizes` | app/lib/paginatedPuzzles.ts:29-34 | the same query with two page sizes uses two different index documents |
| `Pagination.IndexKeySeparatesOperators` | app/lib/paginatedPuzzles.ts:29-34 | the same field, value and page size with two operators use two different index documents |
| `Pagination.LoadIndex` | app/lib/paginatedPuzzles.ts:35-49 | a missing index document gives the empty list of page starts; one that fails validation gives the error; a valid one gives its list |
| `Pagination.PageStart` | app/lib/paginatedPuzzles.ts:51-59 | page 0 starts now. Page k > 0 starts at `p[k-1]` and has no start iff that entry does not exist. A page with a start never lies past the end of `p` |
| `Pagination.BuildQuery` | app/lib/paginatedPuzzles.ts:61-69 | no contract of its own: the query filters on the field only when one is given, keeps `pvu` at most the page start and asks for `pageSize + 1` rows. The contract of `IndexCollection.PaginatedPuzzles` states that exactly this query is run |
| `Pagination.Take` | app/lib/paginatedPuzzles.ts:87-91 | the page is the first min(pageSize, number of results) results, in order |
| `Pagination.HasMore` | app/lib/paginatedPuzzles.ts:79-81 | a next page is reported only for a full page: when it holds, `Take` keeps exactly `pageSize` rows |
| `Pagination.SetSlot` | app/lib/paginatedPuzzles.ts:83 | recording the next start sets slot `page` only. It overwrites an existing slot or appends at the end, so the list stays gap-free |
| `Pagination.NextStartBelowPage` | app/lib/paginatedPuzzles.ts:51-83 | when the query answers in its stated order, recording the extra row's `pvu` in slot `page` leaves this page's start unchanged and makes page `page + 1` start at that `pvu`, which is no later than this page's start and no later than any puzzle shown on this page |
| `Pagination.IndexCollection.PaginatedPuzzles` | app/lib/paginatedPuzzles.ts:19-93 | it throws on a field without a value (nothing written) and on an invalid index document (nothing written). An unknown page start gives `([], false)` with nothing written. Otherwise the result is the first `pageSize` query results, and `hasMore` holds iff a `(pageSize+1)`th result with a `pvu` exists. Exactly then `p[page]` is set to that `pvu` and the document is written back; otherwise no document changes |

## Left out

- Firestore access is not modelled. The followers lookup is the input `FollowersDoc`: absent, failing validation, or with an optional list `f`. The index documents are the map of `IndexCollection`. The puzzle query is the function `runQuery`. Query filtering, ordering and limits are the store's business; only `NextStartBelowPage` assumes the stated order.
- The io-ts/fp-ts validation, `PathReporter` error text and `console` logging are not modelled. Validation appears only as the "fails validation" cases.
- The promise/`async` structure is not modelled. The tests call `notificationsForPuzzleChange` without awaiting it; the scenarios model what the comment path computes.
- The notification constructors live in `notificationTypes`, which is not part of this model. A notification here carries only its kind, recipient, puzzle id and title, comment id and commenter name, or featured label. The deterministic notification id (for a comment notification `<recipient>-comment-<commentId>`), the creation time and the read/emailed flags are left out.
- `toLinkablePuzzle` and `puzzleFromDB` are not part of this model. A page holds the query rows themselves.
- The millisecond conversion of timestamps is not modelled. A timestamp is an integer, and truncation to milliseconds is ignored.
- `page` and `pageSize` are natural numbers. JavaScript would also accept negative or fractional numbers, and those are not modelled.
- Decimal: page sizes are unbounded natural numbers printed as plain digits. JavaScript numbers are doubles: from 10^21 up a template literal prints the exponent form (`1e+21`), and above 2^53 the page size in the key and `pageSize + 1` in the query lose precision. Neither is modelled.
- IndexCollection.PaginatedPuzzles: the read of the index document, the awaited query and the write-back are one atomic step here. In the code they are separated by awaits, and the whole `index` object is written back. Two concurrent requests on one index document can therefore lose a slot update. For example, with `p = [a]`, a page-0 request that read `[a]` before a page-1 request wrote `[a, b]` later writes `[a']` and drops `b`. "Sets slot `page` only" holds of the document as read, not necessarily of the stored one.
- A missing query field and the empty field are one case (both are falsy). A missing comment `r` or puzzle `cs` is the empty list: the source treats both alike, since diffing an empty list yields nothing.
- The puzzle's `pvu` is never consulted by the notification code, so the puzzle model has no such field.
- Index ids are proved distinct only across page sizes and operators. A field or value containing `-` can make two queries share an index document: field `a-b` with value `c`, and field `a` with value `b-c`, both give `a-b-c-<pageSize>`.
- The puzzle-update coordinator (`handlePuzzleUpdate`: deletion cascade, index maintenance on visibility changes) and the visibility classifier are not part of this model.
