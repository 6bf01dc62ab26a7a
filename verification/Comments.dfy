/** Comments, threaded one level deep. Roots are paged newest first; the replies of a whole
    page are fetched in one query and grouped under their roots. */
module Comments {
  import opened Wrappers
  import opened Keyset

  type Time = int
  type CommentId = nat
  type BlogId = nat
  type UserId = nat

  /** A root has no parent; the source's `depth` is 0 exactly then. */
  datatype Comment = Comment(
    blog: BlogId,
    user: UserId,
    parent: Option<CommentId>,
    createdAt: Time,
    body: string,
    deletedAt: Option<Time>)

  type Table = map<CommentId, Comment>

  /** What the foreign keys may name. */
  datatype Refs = Refs(blogs: set<BlogId>, users: set<UserId>)

  /** `Unhandled` is a violation that the statement does not translate. */
  datatype Error = CommentAlreadyExists | CommentDepthInvalid | CommentNotFound | RequestInvalid | Unhandled

  const BODY_LENGTH := 10000

  function TrimLeft(s: string): string {
    if s != "" && s[0] == ' ' then TrimLeft(s[1..]) else s
  }

  function TrimRight(s: string): string {
    if s != "" && s[|s| - 1] == ' ' then TrimRight(s[..|s| - 1]) else s
  }

  /** The check on `body`, of which blanks at the ends do not count. */
  predicate BodyFits(body: string) {
    1 <= |TrimRight(TrimLeft(body))| <= BODY_LENGTH
  }

  /** A body of nothing but blanks passes the length check of the request but not this one. */
  lemma {:induction false} BlankBodyDoesNotFit(body: string)
    requires forall i :: 0 <= i < |body| ==> body[i] == ' '
    ensures !BodyFits(body)
  {
    if body != "" {
      BlankBodyDoesNotFit(body[1..]);
    }
  }

  datatype Statement =
    | CreateRoot(id: CommentId, blog: BlogId, user: UserId, body: string, at: Time)
    | CreateReply(id: CommentId, blog: BlogId, user: UserId, parent: CommentId, body: string, at: Time)
    | UpdateBody(id: CommentId, user: UserId, body: string)
    | SoftDelete(id: CommentId, user: UserId, at: Time, asAdmin: bool)

  predicate IsRoot(t: Table, id: CommentId, blog: BlogId) {
    id in t && t[id].blog == blog && t[id].parent.None?
  }

  predicate IsLiveRoot(t: Table, id: CommentId, blog: BlogId) {
    IsRoot(t, id, blog) && t[id].deletedAt.None?
  }

  predicate IsLiveReply(t: Table, id: CommentId, root: CommentId) {
    id in t && t[id].parent == Some(root) && t[id].deletedAt.None?
  }

  predicate RepliesToOneOf(c: Comment, roots: set<CommentId>) {
    c.deletedAt.None? && c.parent.Some? && c.parent.value in roots
  }

  predicate HasRoot(t: Table, blog: BlogId, user: UserId) {
    exists id :: id in t && IsLiveRoot(t, id, blog) && t[id].user == user
  }

  /** New comments come under new ids. */
  predicate IdIsNew(t: Table, s: Statement) {
    s.CreateRoot? || s.CreateReply? ==> s.id !in t
  }

  /** The constraints on `comments` decide, inside the statement: the checks first, then the
      unique index, then the foreign keys. */
  function Execute(refs: Refs, t: Table, s: Statement): Result<Table, Error> {
    match s
    case CreateRoot(id, blog, user, body, at) =>
      if !BodyFits(body) then Failure(RequestInvalid)
      else if HasRoot(t, blog, user) then Failure(CommentAlreadyExists)
      else if blog !in refs.blogs || user !in refs.users then Failure(RequestInvalid)
      else Success(t[id := Comment(blog, user, None, at, body, None)])
    case CreateReply(id, blog, user, parent, body, at) =>
      if !BodyFits(body) || blog !in refs.blogs || user !in refs.users then Failure(RequestInvalid)
      else if !IsRoot(t, parent, blog) then Failure(CommentDepthInvalid)
      else Success(t[id := Comment(blog, user, Some(parent), at, body, None)])
    case UpdateBody(id, user, body) =>
      if id !in t || t[id].user != user || t[id].deletedAt.Some? then Failure(CommentNotFound)
      else if !BodyFits(body) then Failure(Unhandled)
      else Success(t[id := t[id].(body := body)])
    case SoftDelete(id, user, at, asAdmin) =>
      if id !in t || t[id].deletedAt.Some? || !(asAdmin || t[id].user == user) then Failure(CommentNotFound)
      else if user !in refs.users then Failure(Unhandled)
      else Success(t[id := t[id].(deletedAt := Some(at))])
  }

  /** When each statement goes through, and the one row it then writes. */
  lemma StatementMeans(refs: Refs, t: Table, s: Statement)
    ensures var r := Execute(refs, t, s);
            match s
            case CreateRoot(id, blog, user, body, at) =>
              && (r.Success? <==>
                    && BodyFits(body) && blog in refs.blogs && user in refs.users
                    && forall x :: x in t && t[x].blog == blog && t[x].user == user && t[x].parent.None? ==>
                         t[x].deletedAt.Some?)
              && (r.Success? ==> r.value == t[id := Comment(blog, user, None, at, body, None)])
            case CreateReply(id, blog, user, parent, body, at) =>
              && (r.Success? <==>
                    && BodyFits(body) && blog in refs.blogs && user in refs.users
                    && parent in t && t[parent].blog == blog && t[parent].parent.None?)
              && (r.Success? ==> r.value == t[id := Comment(blog, user, Some(parent), at, body, None)])
            case UpdateBody(id, user, body) =>
              && (r.Success? <==> id in t && t[id].user == user && t[id].deletedAt.None? && BodyFits(body))
              && (r.Success? ==> r.value == t[id := t[id].(body := body)])
            case SoftDelete(id, user, at, asAdmin) =>
              && (r.Success? <==>
                    id in t && t[id].deletedAt.None? && (t[id].user == user || asAdmin) && user in refs.users)
              && (r.Success? ==> r.value == t[id := t[id].(deletedAt := Some(at))])
  {
    if s.CreateRoot? && HasRoot(t, s.blog, s.user) {
      var x :| x in t && IsLiveRoot(t, x, s.blog) && t[x].user == s.user;
      assert t[x].parent.None? && t[x].deletedAt.None?;
    }
  }

  lemma {:induction false} TrimLeftMeans(s: string) returns (blanks: string)
    ensures s == blanks + TrimLeft(s) && (forall i :: 0 <= i < |blanks| ==> blanks[i] == ' ')
    ensures TrimLeft(s) != "" ==> TrimLeft(s)[0] != ' '
  {
    blanks := "";
    if s != "" && s[0] == ' ' {
      var rest := TrimLeftMeans(s[1..]);
      blanks := " " + rest;
    }
  }

  lemma {:induction false} TrimRightMeans(s: string) returns (blanks: string)
    ensures s == TrimRight(s) + blanks && (forall i :: 0 <= i < |blanks| ==> blanks[i] == ' ')
    ensures TrimRight(s) != "" ==> TrimRight(s)[|TrimRight(s)| - 1] != ' ' && TrimRight(s)[0] == s[0]
    decreases |s|
  {
    blanks := "";
    if s != "" && s[|s| - 1] == ' ' {
      var rest := TrimRightMeans(s[..|s| - 1]);
      blanks := rest + " ";
    }
  }

  /** A body fits if what is left between the blanks at its ends has 1 to 10000 characters. */
  lemma BodyFitsExactly(body: string) returns (left: string, core: string, right: string)
    ensures body == left + core + right
    ensures forall i :: 0 <= i < |left| ==> left[i] == ' '
    ensures forall i :: 0 <= i < |right| ==> right[i] == ' '
    ensures core != "" ==> core[0] != ' ' && core[|core| - 1] != ' '
    ensures BodyFits(body) <==> 1 <= |core| <= 10000
  {
    left := TrimLeftMeans(body);
    right := TrimRightMeans(TrimLeft(body));
    core := TrimRight(TrimLeft(body));
  }

  datatype Thread = Thread(root: CommentId, replies: seq<CommentId>)

  datatype ThreadPage = ThreadPage(threads: seq<Thread>, next: Option<Key>, hasMore: bool)

  function KeyOf(t: Table, id: CommentId): Key {
    Key(if id in t then t[id].createdAt else 0, id)
  }

  function RootKeys(t: Table, blog: BlogId): set<Key> {
    set id | id in t && IsLiveRoot(t, id, blog) :: KeyOf(t, id)
  }

  /** The listing of an article has each of its live roots once, under its creation time. */
  lemma RootKeysMean(t: Table, blog: BlogId, k: Key)
    ensures k in RootKeys(t, blog) <==>
              && k.id in t && t[k.id].blog == blog && t[k.id].parent.None? && t[k.id].deletedAt.None?
              && t[k.id].createdAt == k.at
  {
    if k.id in t && t[k.id].createdAt == k.at {
      assert k == KeyOf(t, k.id);
    }
  }

  /** `ids` are rows in `ORDER BY created_at`, none twice. */
  predicate InOrder(t: Table, ids: seq<CommentId>) {
    && (forall i :: 0 <= i < |ids| ==> ids[i] in t)
    && (forall i, j :: 0 <= i < j < |ids| ==> ids[i] != ids[j] && t[ids[i]].createdAt <= t[ids[j]].createdAt)
  }

  /** A thread holds exactly the live replies of its root, oldest first. */
  ghost predicate IsThread(t: Table, thread: Thread) {
    && InOrder(t, thread.replies)
    && forall id :: id in thread.replies <==> IsLiveReply(t, id, thread.root)
  }

  function RootsOf(t: Table, threads: seq<Thread>): seq<Key> {
    seq(|threads|, i requires 0 <= i < |threads| => KeyOf(t, threads[i].root))
  }

  ghost predicate IsThreadPage(t: Table, blog: BlogId, cursor: Option<Key>, limit: nat, p: ThreadPage) {
    && IsPage(RootKeys(t, blog), cursor, limit, Page(RootsOf(t, p.threads), p.next, p.hasMore))
    && forall i :: 0 <= i < |p.threads| ==> IsThread(t, p.threads[i])
  }

  /** The replies of `ids` under `parent`, in the order they come. */
  function Under(t: Table, ids: seq<CommentId>, parent: CommentId): seq<CommentId> {
    if ids == [] then []
    else
      var last := ids[|ids| - 1];
      var before := Under(t, ids[..|ids| - 1], parent);
      if last in t && t[last].parent == Some(parent) then before + [last] else before
  }

  lemma {:induction false} UnderKeepsOrder(t: Table, ids: seq<CommentId>, parent: CommentId)
    requires InOrder(t, ids)
    ensures InOrder(t, Under(t, ids, parent))
    ensures forall id :: id in Under(t, ids, parent) <==> id in ids && t[id].parent == Some(parent)
    decreases |ids|
  {
    if ids != [] {
      var n := |ids| - 1;
      var before := Under(t, ids[..n], parent);
      UnderKeepsOrder(t, ids[..n], parent);
      forall i | 0 <= i < |before| ensures before[i] != ids[n] && t[before[i]].createdAt <= t[ids[n]].createdAt {
        assert before[i] in ids[..n];
        var j :| 0 <= j < n && ids[..n][j] == before[i];
        assert ids[j] == before[i];
      }
      assert forall id :: id in ids <==> id in ids[..n] || id == ids[n];
    }
  }

  /** What a page of threads shows: live roots of the article, newest first, each with exactly
      its live replies, oldest first and none twice, and the cursor of the last root. */
  lemma ThreadPageMeans(t: Table, blog: BlogId, cursor: Option<Key>, limit: nat, p: ThreadPage)
    requires IsThreadPage(t, blog, cursor, limit, p)
    ensures |p.threads| <= limit
    ensures forall i :: 0 <= i < |p.threads| ==>
              var id := p.threads[i].root;
              id in t && t[id].blog == blog && t[id].parent.None? && t[id].deletedAt.None?
    ensures forall i, j :: 0 <= i < j < |p.threads| ==>
              t[p.threads[j].root].createdAt <= t[p.threads[i].root].createdAt
    ensures forall i, id :: 0 <= i < |p.threads| ==>
              (id in p.threads[i].replies <==>
                 id in t && t[id].parent == Some(p.threads[i].root) && t[id].deletedAt.None?)
    ensures forall i, a, b :: 0 <= i < |p.threads| && 0 <= a < b < |p.threads[i].replies| ==>
              var x, y := p.threads[i].replies[a], p.threads[i].replies[b];
              x != y && x in t && y in t && t[x].createdAt <= t[y].createdAt
    ensures p.next.Some? ==>
              && p.threads != []
              && var last := p.threads[|p.threads| - 1].root; p.next == Some(Key(t[last].createdAt, last))
  {
    var keys := RootsOf(t, p.threads);
    assert |keys| == |p.threads|;
    forall i | 0 <= i < |keys|
      ensures IsLiveRoot(t, p.threads[i].root, blog) && keys[i].at == t[p.threads[i].root].createdAt
    {
      assert keys[i] in After(RootKeys(t, blog), cursor);
      RootKeysMean(t, blog, keys[i]);
    }
    forall i, j | 0 <= i < j < |keys| ensures keys[j].at <= keys[i].at {
      assert Older(keys[j], keys[i]);
    }
    forall i | 0 <= i < |p.threads| ensures IsThread(t, p.threads[i]) {}
  }

  /** Grouping the replies to a set of roots gives each of the roots its thread. */
  lemma GroupIsThread(t: Table, ids: seq<CommentId>, roots: set<CommentId>, root: CommentId)
    requires InOrder(t, ids) && forall id :: id in ids <==> id in t && RepliesToOneOf(t[id], roots)
    requires root in roots
    ensures IsThread(t, Thread(root, Under(t, ids, root)))
  {
    UnderKeepsOrder(t, ids, root);
  }

  class CommentTable {
    var rows: Table

    constructor ()
      ensures rows == map[]
    {
      rows := map[];
    }

    method Run(refs: Refs, s: Statement) returns (refused: Option<Error>)
      requires IdIsNew(rows, s)
      modifies this
      ensures match Execute(refs, old(rows), s)
              case Success(t) => refused == None && rows == t
              case Failure(error) => refused == Some(error) && rows == old(rows)
      ensures refused == None ==>
                match s
                case CreateRoot(id, blog, user, body, at) =>
                  rows == old(rows)[id := Comment(blog, user, None, at, body, None)]
                case CreateReply(id, blog, user, parent, body, at) =>
                  && parent in old(rows) && old(rows)[parent].blog == blog && old(rows)[parent].parent.None?
                  && rows == old(rows)[id := Comment(blog, user, Some(parent), at, body, None)]
                case UpdateBody(id, user, body) =>
                  && id in old(rows) && old(rows)[id].user == user && old(rows)[id].deletedAt.None?
                  && rows == old(rows)[id := old(rows)[id].(body := body)]
                case SoftDelete(id, user, at, asAdmin) =>
                  && id in old(rows) && old(rows)[id].deletedAt.None? && (asAdmin || old(rows)[id].user == user)
                  && rows == old(rows)[id := old(rows)[id].(deletedAt := Some(at))]
    {
      refused := None;
      match s
      case CreateRoot(id, blog, user, body, at) =>
        if !BodyFits(body) {
          return Some(RequestInvalid);
        }
        if exists x :: x in rows && IsLiveRoot(rows, x, blog) && rows[x].user == user {
          return Some(CommentAlreadyExists);
        }
        if blog !in refs.blogs || user !in refs.users {
          return Some(RequestInvalid);
        }
        rows := rows[id := Comment(blog, user, None, at, body, None)];
      case CreateReply(id, blog, user, parent, body, at) =>
        if !BodyFits(body) || blog !in refs.blogs || user !in refs.users {
          return Some(RequestInvalid);
        }
        if parent !in rows || rows[parent].blog != blog || rows[parent].parent.Some? {
          return Some(CommentDepthInvalid);
        }
        rows := rows[id := Comment(blog, user, Some(parent), at, body, None)];
      case UpdateBody(id, user, body) =>
        if id in rows && rows[id].user == user && rows[id].deletedAt.None? {
          if !BodyFits(body) {
            return Some(Unhandled);
          }
          rows := rows[id := rows[id].(body := body)];
        } else {
          return Some(CommentNotFound);
        }
      case SoftDelete(id, user, at, asAdmin) =>
        if id in rows && rows[id].deletedAt.None? && (asAdmin || rows[id].user == user) {
          if user !in refs.users {
            return Some(Unhandled);
          }
          rows := rows[id := rows[id].(deletedAt := Some(at))];
        } else {
          return Some(CommentNotFound);
        }
    }

    /** One query for the replies of every root of a page; rows with equal times come in
        any order. */
    method RepliesTo(roots: set<CommentId>) returns (ids: seq<CommentId>)
      ensures InOrder(rows, ids)
      ensures forall id :: id in ids <==> id in rows && RepliesToOneOf(rows[id], roots)
    {
      var rest := set id | id in rows && RepliesToOneOf(rows[id], roots);
      ghost var all := rest;
      ids := [];
      while rest != {}
        invariant rest <= all && InOrder(rows, ids)
        invariant forall id :: id in all <==> id in rest || id in ids
        invariant forall id, i :: id in rest && 0 <= i < |ids| ==>
                    ids[i] != id && rows[ids[i]].createdAt <= rows[id].createdAt
        decreases |rest|
      {
        var first := OldestOf(rest);
        ids := ids + [first];
        rest := rest - {first};
      }
    }

    method OldestOf(s: set<CommentId>) returns (first: CommentId)
      requires s != {} && s <= rows.Keys
      ensures first in s && forall id :: id in s ==> rows[first].createdAt <= rows[id].createdAt
    {
      first :| first in s;
      var rest := s - {first};
      while rest != {}
        invariant rest <= s && first in s
        invariant forall id :: id in s && id !in rest ==> rows[first].createdAt <= rows[id].createdAt
        decreases |rest|
      {
        var id :| id in rest;
        if rows[id].createdAt < rows[first].createdAt {
          first := id;
        }
        rest := rest - {id};
      }
    }

    method GroupByParent(replies: seq<CommentId>) returns (byParent: map<CommentId, seq<CommentId>>)
      requires forall i :: 0 <= i < |replies| ==> replies[i] in rows && rows[replies[i]].parent.Some?
      ensures forall p :: (if p in byParent then byParent[p] else []) == Under(rows, replies, p)
    {
      byParent := map[];
      for n := 0 to |replies|
        invariant forall p :: (if p in byParent then byParent[p] else []) == Under(rows, replies[..n], p)
      {
        var parent := rows[replies[n]].parent.value;
        var soFar := if parent in byParent then byParent[parent] else [];
        assert replies[..n + 1][..n] == replies[..n];
        byParent := byParent[parent := soFar + [replies[n]]];
      }
      assert replies[..|replies|] == replies;
    }

    method ListThreads(blog: BlogId, cursor: Option<Key>, limit: nat) returns (p: ThreadPage)
      ensures limit >= 1 ==> IsThreadPage(rows, blog, cursor, limit, p)
      ensures limit == 0 ==> p == ThreadPage([], None, false)
    {
      var roots := set id | id in rows && rows[id].blog == blog && rows[id].parent.None? && rows[id].deletedAt.None?;
      var keys := set id | id in roots :: KeyOf(rows, id);
      assert keys == RootKeys(rows, blog);
      var page := FetchPage(keys, cursor, limit);
      if page.items == [] {
        p := ThreadPage([], None, false);
        assert RootsOf(rows, p.threads) == page.items;
        return;
      }
      var threads := ThreadsFor(page.items);
      p := ThreadPage(threads, page.next, page.hasMore);
      assert RootsOf(rows, threads) == page.items by {
        forall i | 0 <= i < |threads| ensures KeyOf(rows, threads[i].root) == page.items[i] {
          assert page.items[i] in After(keys, cursor);
        }
      }
    }

    /** The threads of a page of roots: two queries, not one per root. */
    method ThreadsFor(roots: seq<Key>) returns (threads: seq<Thread>)
      ensures |threads| == |roots|
      ensures forall i :: 0 <= i < |roots| ==> threads[i].root == roots[i].id && IsThread(rows, threads[i])
    {
      var ids := set k | k in roots :: k.id;
      var replies := RepliesTo(ids);
      var byParent := GroupByParent(replies);
      threads := [];
      for n := 0 to |roots|
        invariant |threads| == n
        invariant forall i :: 0 <= i < n ==> threads[i] == ThreadIn(byParent, roots[i].id)
      {
        threads := threads + [ThreadIn(byParent, roots[n].id)];
      }
      forall i | 0 <= i < |roots| ensures IsThread(rows, threads[i]) {
        assert roots[i] in roots;
        GroupIsThread(rows, replies, ids, roots[i].id);
      }
    }
  }

  function ThreadIn(byParent: map<CommentId, seq<CommentId>>, root: CommentId): Thread {
    Thread(root, if root in byParent then byParent[root] else [])
  }

  // ------------------------------------------------------------------- runs

  /** One committed statement, or nothing. */
  ghost predicate Next(t: Table, t': Table) {
    t' == t || exists refs, s :: IdIsNew(t, s) && Execute(refs, t, s) == Success(t')
  }

  /** Every table a run passes through, from the empty one. */
  ghost predicate IsTrace(trace: seq<Table>) {
    && |trace| >= 1 && trace[0] == map[]
    && forall i :: 0 < i < |trace| ==> Next(trace[i - 1], trace[i])
  }

  ghost predicate FlatWithinArticle(t: Table) {
    forall id :: id in t && t[id].parent.Some? ==> IsRoot(t, t[id].parent.value, t[id].blog)
  }

  ghost predicate OneRootEach(t: Table) {
    forall a, b, blog :: IsLiveRoot(t, a, blog) && IsLiveRoot(t, b, blog) && t[a].user == t[b].user ==> a == b
  }

  /** Rows stay, keep their key and place, and a deleted one stays deleted. */
  ghost predicate Kept(t: Table, t': Table) {
    forall id :: id in t ==>
      && id in t' && t'[id].blog == t[id].blog && t'[id].parent == t[id].parent && t'[id].createdAt == t[id].createdAt
      && (t[id].deletedAt.Some? ==> t'[id].deletedAt == t[id].deletedAt)
  }

  lemma NextKeepsRows(t: Table, t': Table)
    requires Next(t, t')
    ensures Kept(t, t')
  {
  }

  lemma NextKeepsShape(t: Table, t': Table)
    requires Next(t, t') && FlatWithinArticle(t) && OneRootEach(t)
    ensures FlatWithinArticle(t') && OneRootEach(t')
  {
    if t' != t {
      var refs, s :| IdIsNew(t, s) && Execute(refs, t, s) == Success(t');
      forall a, b, blog | IsLiveRoot(t', a, blog) && IsLiveRoot(t', b, blog) && t'[a].user == t'[b].user
        ensures a == b
      {
        assert a != s.id || !s.CreateRoot? ==> IsLiveRoot(t, a, blog);
        assert b != s.id || !s.CreateRoot? ==> IsLiveRoot(t, b, blog);
      }
    }
  }

  lemma KeptIsTransitive(a: Table, b: Table, c: Table)
    requires Kept(a, b) && Kept(b, c)
    ensures Kept(a, c)
  {
  }

  lemma {:induction false} TraceKeeps(trace: seq<Table>, i: nat, j: nat)
    requires IsTrace(trace) && i <= j < |trace|
    ensures Kept(trace[i], trace[j])
    decreases j - i
  {
    if i < j {
      TraceKeeps(trace, i, j - 1);
      assert Next(trace[j - 1], trace[j]);
      NextKeepsRows(trace[j - 1], trace[j]);
      KeptIsTransitive(trace[i], trace[j - 1], trace[j]);
    }
  }

  /** In every reachable table threads are one level deep and within one article, and a
      user has at most one live root on an article. */
  lemma {:induction false} ThreadsAreFlatAndRootsUnique(trace: seq<Table>, i: nat)
    requires IsTrace(trace) && i < |trace|
    ensures FlatWithinArticle(trace[i]) && OneRootEach(trace[i])
  {
    if i > 0 {
      ThreadsAreFlatAndRootsUnique(trace, i - 1);
      assert Next(trace[i - 1], trace[i]);
      NextKeepsShape(trace[i - 1], trace[i]);
    }
  }

  ghost predicate Moments(trace: seq<Table>, moments: seq<nat>) {
    && |moments| >= 1
    && (forall i :: 0 <= i < |moments| ==> moments[i] < |trace|)
    && (forall i, j :: 0 <= i <= j < |moments| ==> moments[i] <= moments[j])
  }

  /** What the fetches at the given moments of a run see. */
  ghost function Seen(trace: seq<Table>, moments: seq<nat>, blog: BlogId): seq<set<Key>>
    requires Moments(trace, moments)
  {
    seq(|moments|, i requires 0 <= i < |moments| => RootKeys(trace[moments[i]], blog))
  }

  lemma CommentKeysAdvance(trace: seq<Table>, moments: seq<nat>, blog: BlogId)
    requires IsTrace(trace) && Moments(trace, moments)
    ensures KeysOnlyAdvance(Seen(trace, moments, blog))
  {
    var sets := Seen(trace, moments, blog);
    forall i, j, k: Key, l: Key | 0 <= i <= j < |sets| && k in sets[i] && l in sets[j] && k.id == l.id
      ensures k.at <= l.at
    {
      TraceKeeps(trace, moments[i], moments[j]);
    }
  }

  lemma LiveAtBothEndsIsSeenThroughout(trace: seq<Table>, moments: seq<nat>, blog: BlogId, id: CommentId, i: nat)
    requires IsTrace(trace) && Moments(trace, moments) && i < |moments|
    requires IsLiveRoot(trace[moments[0]], id, blog) && IsLiveRoot(trace[moments[|moments| - 1]], id, blog)
    ensures KeyOf(trace[moments[0]], id) in Seen(trace, moments, blog)[i]
  {
    TraceKeeps(trace, moments[0], moments[i]);
    TraceKeeps(trace, moments[i], moments[|moments| - 1]);
    assert IsLiveRoot(trace[moments[i]], id, blog);
  }

  /** However comments come, change and go between fetches: newest first, no root twice,
      each of them live at the fetch that returned it, and every root that is live at the
      first and at the last fetch among them. */
  lemma ThreadScanIsExact(trace: seq<Table>, moments: seq<nat>, blog: BlogId, limit: nat, pages: seq<Page>)
    requires IsTrace(trace) && Moments(trace, moments)
    requires limit >= 1 && IsScan(Seen(trace, moments, blog), None, limit, pages)
    ensures Descending(Items(pages))
    ensures forall a, b :: 0 <= a < b < |Items(pages)| ==> Items(pages)[a].id != Items(pages)[b].id
    ensures var first, last := trace[moments[0]], trace[moments[|moments| - 1]];
            forall id :: IsLiveRoot(first, id, blog) && IsLiveRoot(last, id, blog) ==> KeyOf(first, id) in Items(pages)
    ensures forall k :: k in Items(pages) ==>
              exists i :: 0 <= i < |moments| && k in pages[i].items && IsLiveRoot(trace[moments[i]], k.id, blog)
  {
    var sets := Seen(trace, moments, blog);
    CommentKeysAdvance(trace, moments, blog);
    ScanDescends(sets, None, limit, pages);
    forall a, b | 0 <= a < b < |Items(pages)| ensures Items(pages)[a].id != Items(pages)[b].id {
      ScanRepeatsNoRow(sets, None, limit, pages, a, b);
    }
    forall id | IsLiveRoot(trace[moments[0]], id, blog) && IsLiveRoot(trace[moments[|moments| - 1]], id, blog)
      ensures KeyOf(trace[moments[0]], id) in Items(pages)
    {
      forall i | 0 <= i < |sets| ensures KeyOf(trace[moments[0]], id) in sets[i] {
        LiveAtBothEndsIsSeenThroughout(trace, moments, blog, id, i);
      }
      ScanMissesNothing(sets, None, limit, pages, KeyOf(trace[moments[0]], id));
    }
    forall k | k in Items(pages)
      ensures exists i :: 0 <= i < |moments| && k in pages[i].items && IsLiveRoot(trace[moments[i]], k.id, blog)
    {
      var i := ScanInventsNothing(sets, None, limit, pages, k);
    }
  }
}
