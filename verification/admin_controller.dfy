/** The user-administration handlers (api/src/controllers/admin.controller.js):
    a paged, filtered listing, a field-by-field update with a role gate,
    activation and deactivation, and a delete that removes the record
    before it runs its own checks. */
module AdminController {
  import opened Common
  import opened ErrorHandler
  import opened Text
  import opened UserModel

  const UserNotFoundMessage := "User not found"
  const RoleGateMessage := "Only admins and managers can update roles"
  const InvalidRoleMessage := "Invalid role. Use: admin, manager, user"
  const UpdatedMessage := "updated"
  /** Both activation and deactivation answer with this message. */
  const ActivityMessage := "deactivated"
  const SelfDeleteMessage := "You are not authorized to delete this user"
  const DeleteRoleMessage := "Invalid role"
  const DeletedMessage := "deleted"

  /** The roles the controller itself lets change roles and delete. */
  const StaffRoles: seq<string> := ["admin", "manager"]

  // --- listing: paging arithmetic --------------------------------------------

  const DefaultPage := 1
  const DefaultLimit := 10
  const MaxLimit := 50

  /** `Math.max(page, 1)`, page 1 when none is given. */
  function PageNumber(page: Option<int>): (p: int)
    ensures p >= 1
    ensures page.Some? && page.value >= 1 ==> p == page.value
    ensures page.None? || page.value < 1 ==> p == 1
  {
    if page.Some? && page.value >= 1 then page.value else DefaultPage
  }

  /** `Math.min(Math.max(limit, 1), 50)`, 10 when none is given. */
  function PageSize(limit: Option<int>): (l: int)
    ensures 1 <= l <= MaxLimit
    ensures limit.Some? && 1 <= limit.value <= MaxLimit ==> l == limit.value
    ensures limit.Some? && limit.value < 1 ==> l == 1
    ensures limit.Some? && limit.value > MaxLimit ==> l == MaxLimit
    ensures limit.None? ==> l == DefaultLimit
  {
    if limit.None? then DefaultLimit
    else if limit.value < 1 then 1
    else if limit.value > MaxLimit then MaxLimit
    else limit.value
  }

  /** `Math.ceil(total / limit)`: the pages of `limit` items that `total`
      items fill, counted a page at a time. */
  function PageCount(total: nat, limit: int): (n: nat)
    requires limit >= 1
    ensures n <= total
    ensures n == 0 <==> total == 0
    decreases total
  {
    if total == 0 then 0
    else if total <= limit then 1
    else 1 + PageCount(total - limit, limit)
  }

  /** The page count is the ceiling of total / limit: the pages cover every
      item, the last page is not empty, and there are no pages exactly when
      there are no items. */
  lemma {:induction false} PageCountIsCeiling(total: nat, limit: int)
    requires limit >= 1
    ensures var n := PageCount(total, limit);
      && total <= n * limit
      && (n == 0 || (n - 1) * limit < total)
      && (n == 0 <==> total == 0)
    decreases total
  {
    if total > limit {
      PageCountIsCeiling(total - limit, limit);
      var m := PageCount(total - limit, limit);
      assert (m + 1) * limit == m * limit + limit;
    }
  }

  // --- listing: filter, order, window -----------------------------------------

  /** The `$regex` filter with option "i" on name or email, taken as a
      literal case-insensitive substring match; the empty query matches
      every user. */
  predicate Matches(u: User, q: string)
    ensures q == "" ==> Matches(u, q)
    ensures Matches(u, q) ==> q == "" || |q| <= |u.name| || |q| <= |u.email|
  {
    q == "" || ContainsIgnoringCase(u.name, q) || ContainsIgnoringCase(u.email, q)
  }

  /** The match ignores the case of the query. */
  lemma QueryCaseIgnored(u: User, q: string)
    ensures Matches(u, q) <==> Matches(u, ToLower(q))
  {
    ToLowerIdempotent(q);
  }

  /** `find(filter)` over the collection in its natural order. */
  function FilterUsers(docs: seq<(UserId, User)>, q: string): (r: seq<(UserId, User)>)
    ensures |r| <= |docs|
    ensures forall x :: x in r <==> x in docs && Matches(x.1, q)
    ensures multiset(r) <= multiset(docs)
  {
    if docs == [] then []
    else
      var rest := FilterUsers(docs[1..], q);
      assert docs == [docs[0]] + docs[1..];
      if Matches(docs[0].1, q) then [docs[0]] + rest else rest
  }

  /** Newest first. */
  predicate NewestFirst(s: seq<(UserId, User)>) {
    forall i, j :: 0 <= i < j < |s| ==> s[i].1.createdAt >= s[j].1.createdAt
  }

  /** Puts `x` into a newest-first sequence, ahead of every user created at
      the same time. */
  function InsertByAge(x: (UserId, User), s: seq<(UserId, User)>): (r: seq<(UserId, User)>)
    requires NewestFirst(s)
    ensures NewestFirst(r)
    ensures |r| == |s| + 1
    ensures r[0] == x || (s != [] && r[0] == s[0])
  {
    if s == [] || x.1.createdAt >= s[0].1.createdAt then
      PrependNewest(x, s);
      [x] + s
    else
      NewestFirstTail(s);
      var rest := InsertByAge(x, s[1..]);
      assert s == [s[0]] + s[1..];
      assert rest[0].1.createdAt <= s[0].1.createdAt by {
        if rest[0] != x {
          assert rest[0] == s[1];
        }
      }
      PrependNewest(s[0], rest);
      [s[0]] + rest
  }

  /** Insertion adds `x` and loses no one. */
  lemma {:induction false} InsertByAgePermutes(x: (UserId, User), s: seq<(UserId, User)>)
    requires NewestFirst(s)
    ensures multiset(InsertByAge(x, s)) == multiset(s) + multiset{x}
  {
    if s != [] && x.1.createdAt < s[0].1.createdAt {
      NewestFirstTail(s);
      InsertByAgePermutes(x, s[1..]);
      assert s == [s[0]] + s[1..];
    }
  }

  /** Dropping the newest user keeps the rest newest first. */
  lemma NewestFirstTail(s: seq<(UserId, User)>)
    requires NewestFirst(s) && s != []
    ensures NewestFirst(s[1..])
  {
    forall i, j | 0 <= i < j < |s| - 1 ensures s[1..][i].1.createdAt >= s[1..][j].1.createdAt {
      assert s[1..][i] == s[i + 1] && s[1..][j] == s[j + 1];
    }
  }

  /** A user no older than the head of a newest-first sequence may go in
      front of it. */
  lemma PrependNewest(y: (UserId, User), s: seq<(UserId, User)>)
    requires NewestFirst(s)
    requires s != [] ==> y.1.createdAt >= s[0].1.createdAt
    ensures NewestFirst([y] + s)
  {
    var r := [y] + s;
    forall i, j | 0 <= i < j < |r| ensures r[i].1.createdAt >= r[j].1.createdAt {
      if i == 0 {
        assert r[j] == s[j - 1];
        assert s[0].1.createdAt >= s[j - 1].1.createdAt;
      }
    }
  }

  /** `.sort({ createdAt: -1 })`: newest first, the same users. The
      database leaves the order of users created at the same instant open;
      here they keep their natural order. */
  function SortNewestFirst(s: seq<(UserId, User)>): (r: seq<(UserId, User)>)
    ensures NewestFirst(r)
    ensures multiset(r) == multiset(s)
    ensures |r| == |s|
  {
    if s == [] then []
    else
      assert s == [s[0]] + s[1..];
      InsertByAgePermutes(s[0], SortNewestFirst(s[1..]));
      InsertByAge(s[0], SortNewestFirst(s[1..]))
  }

  /** `.skip(skip).limit(limit)`. */
  function Window<T>(s: seq<T>, skip: nat, limit: nat): (r: seq<T>)
    ensures |r| <= limit
    ensures skip >= |s| ==> r == []
    ensures forall k :: 0 <= k < |r| ==> skip + k < |s| && r[k] == s[skip + k]
    ensures skip < |s| ==> |r| == Min(|s| - skip, limit)
  {
    if skip >= |s| then []
    else if |s| - skip < limit then s[skip..]
    else s[skip..skip + limit]
  }

  /** Within the window's bounds and the sequence's, offset `k` of the
      window is element `skip + k`. */
  lemma WindowItem<T>(s: seq<T>, skip: nat, limit: nat, k: nat)
    requires k < limit && skip + k < |s|
    ensures k < |Window(s, skip, limit)| && Window(s, skip, limit)[k] == s[skip + k]
  {
  }

  /** The selected fields of each user. */
  function PublicViews(s: seq<(UserId, User)>): (r: seq<Document>)
    ensures |r| == |s|
    ensures forall k :: 0 <= k < |s| ==> r[k] == PublicView(s[k].0, s[k].1)
  {
    if s == [] then [] else [PublicView(s[0].0, s[0].1)] + PublicViews(s[1..])
  }

  /** `(page - 1) * limit`: how many listed users come before the page. */
  function Skip(page: int, limit: int): (skip: nat)
    requires page >= 1 && limit >= 1
  {
    MulNonNegative(page - 1, limit);
    (page - 1) * limit
  }

  lemma MulNonNegative(a: int, b: int)
    requires a >= 0 && b >= 0
    ensures a * b >= 0
  {
  }

  /** Page 1 skips no one, and every later page skips at least one user per
      earlier page. */
  lemma SkipCountsEarlierPages(page: int, limit: int)
    requires page >= 1 && limit >= 1
    ensures Skip(page, limit) == 0 <==> page == 1
    ensures Skip(page, limit) >= page - 1
  {
    MulNonNegative(page - 1, limit - 1);
    assert (page - 1) * limit == (page - 1) * (limit - 1) + (page - 1);
  }

  /** One more page skips `limit` more users. */
  lemma SkipShift(page: int, limit: int)
    requires page >= 1 && limit >= 1
    ensures Skip(page + 1, limit) == Skip(page, limit) + limit
  {
    assert page * limit == (page - 1) * limit + limit;
  }

  /** A later page skips at least as many users. */
  lemma {:induction false} SkipMonotonic(a: int, b: int, limit: int)
    requires 1 <= a <= b && limit >= 1
    ensures Skip(a, limit) <= Skip(b, limit)
    decreases b
  {
    if a < b {
      SkipMonotonic(a, b - 1, limit);
      SkipShift(b - 1, limit);
    }
  }

  /** The empty query filters nothing out. */
  lemma {:induction false} EmptyQueryKeepsEveryone(docs: seq<(UserId, User)>)
    ensures FilterUsers(docs, "") == docs
  {
    if docs != [] {
      EmptyQueryKeepsEveryone(docs[1..]);
      assert docs == [docs[0]] + docs[1..];
    }
  }

  // --- listing: the collection as `find` walks it ----------------------------

  /** `docs` is the user collection in the order `find` walks it: every
      stored user once, as an (id, record) pair, and nothing else. */
  ghost predicate Enumerates(docs: seq<(UserId, User)>, users: map<UserId, User>) {
    && (forall i, j :: 0 <= i < j < |docs| ==> docs[i].0 != docs[j].0)
    && (forall x :: x in docs ==> x.0 in users && users[x.0] == x.1)
    && (forall id :: id in users ==> (id, users[id]) in docs)
  }

  /** The stored users whose name or email matches the query. */
  function MatchingUsers(users: map<UserId, User>, q: string): (m: map<UserId, User>)
    ensures forall id :: id in m <==> id in users && Matches(users[id], q)
    ensures forall id :: id in m ==> m[id] == users[id]
  {
    map id | id in users && Matches(users[id], q) :: users[id]
  }

  /** An enumeration has one entry per stored user. */
  lemma {:induction false} EnumerationSize(docs: seq<(UserId, User)>, users: map<UserId, User>)
    requires Enumerates(docs, users)
    ensures |docs| == |users|
    decreases |docs|
  {
    if docs == [] {
      assert users.Keys == {};
    } else {
      var rest := users - {docs[0].0};
      EnumerationTail(docs, users);
      EnumerationSize(docs[1..], rest);
      assert rest.Keys == users.Keys - {docs[0].0};
    }
  }

  /** Without its first entry, an enumeration enumerates the rest of the
      store. */
  lemma EnumerationTail(docs: seq<(UserId, User)>, users: map<UserId, User>)
    requires Enumerates(docs, users) && docs != []
    ensures Enumerates(docs[1..], users - {docs[0].0})
  {
    var k, tail, rest := docs[0].0, docs[1..], users - {docs[0].0};
    forall x | x in tail ensures x.0 in rest && rest[x.0] == x.1 {
      var j :| 0 <= j < |tail| && tail[j] == x;
      assert docs[j + 1] == x;
    }
    forall id | id in rest ensures (id, rest[id]) in tail {
      TailHoldsOthers(docs, (id, users[id]));
    }
  }

  /** An entry of a sequence other than its first is in its tail. */
  lemma TailHoldsOthers<T>(s: seq<T>, x: T)
    requires x in s && s != [] && x != s[0]
    ensures x in s[1..]
  {
    assert s == [s[0]] + s[1..];
  }

  /** A sequence without repeated entries holds each of them once. */
  lemma {:induction false} DistinctIsCountedOnce<T>(s: seq<T>)
    requires forall i, j :: 0 <= i < j < |s| ==> s[i] != s[j]
    ensures forall x :: x in s ==> multiset(s)[x] == 1
    decreases |s|
  {
    if s != [] {
      DistinctIsCountedOnce(s[1..]);
      assert s == [s[0]] + s[1..];
      assert s[0] !in s[1..];
    }
  }

  /** An enumeration holds each stored user exactly once. */
  lemma EnumerationCounts(docs: seq<(UserId, User)>, users: map<UserId, User>)
    requires Enumerates(docs, users)
    ensures forall id :: id in users ==> multiset(docs)[(id, users[id])] == 1
  {
    DistinctIsCountedOnce(docs);
  }

  /** Two equal entries at different positions count twice. */
  lemma TwiceCounted<T>(s: seq<T>, i: nat, j: nat)
    requires i < j < |s|
    ensures s[i] == s[j] ==> multiset(s)[s[i]] >= 2
  {
    assert s == s[..j] + s[j..];
    assert s[i] == s[..j][i] && s[j] == s[j..][0];
  }

  /** A sequence that holds nothing twice has no repeated entry. */
  lemma CountedOnceIsDistinct<T>(s: seq<T>)
    requires forall x :: multiset(s)[x] <= 1
    ensures forall i, j :: 0 <= i < j < |s| ==> s[i] != s[j]
  {
    forall i, j | 0 <= i < j < |s| ensures s[i] != s[j] {
      TwiceCounted(s, i, j);
    }
  }

  /** The entries of an enumeration that belong to a part of the store,
      each at most as often as before, enumerate that part. */
  lemma {:induction false} PartOfEnumeration(docs: seq<(UserId, User)>, users: map<UserId, User>,
                                             r: seq<(UserId, User)>, part: map<UserId, User>)
    requires Enumerates(docs, users)
    requires forall id :: id in part ==> id in users && part[id] == users[id]
    requires forall x :: x in r <==> x in docs && x.0 in part
    requires multiset(r) <= multiset(docs)
    ensures Enumerates(r, part)
  {
    EnumerationCounts(docs, users);
    forall x ensures multiset(r)[x] <= 1 {
      if x in docs {
        assert x == (x.0, users[x.0]);
      }
    }
    CountedOnceIsDistinct(r);
    forall i, j | 0 <= i < j < |r| ensures r[i].0 != r[j].0 {
      assert r[i] in docs && r[j] in docs;
    }
  }

  /** Over an enumeration of the store, a selection of the entries that
      match `q`, each at most as often as before, has one entry per
      matching stored user and holds each of them once. */
  lemma MatchingSelectionCounts(docs: seq<(UserId, User)>, users: map<UserId, User>, r: seq<(UserId, User)>, q: string)
    requires Enumerates(docs, users)
    requires forall x :: x in r <==> x in docs && Matches(x.1, q)
    requires multiset(r) <= multiset(docs)
    ensures |r| == |MatchingUsers(users, q)|
    ensures forall id :: id in users && Matches(users[id], q) ==> multiset(r)[(id, users[id])] == 1
  {
    var m := MatchingUsers(users, q);
    forall x ensures x in r <==> x in docs && x.0 in m {
      if x in docs {
        assert x.1 == users[x.0];
      }
    }
    PartOfEnumeration(docs, users, r, m);
    EnumerationSize(r, m);
    EnumerationCounts(r, m);
  }

  /** Over an enumeration of the store, the listing holds as many users as
      the store holds matching ones, and each matching stored user once. */
  lemma ListedCountsStoredMatches(docs: seq<(UserId, User)>, users: map<UserId, User>, q: Option<string>)
    requires Enumerates(docs, users)
    ensures |Listed(docs, q)| == |MatchingUsers(users, Trim(q.GetOr("")))|
    ensures forall id :: id in users && Matches(users[id], Trim(q.GetOr(""))) ==>
      multiset(Listed(docs, q))[(id, users[id])] == 1
  {
    MatchingSelectionCounts(docs, users, Listed(docs, q), Trim(q.GetOr("")));
  }

  /** A missing or blank `q` lists the whole store: `total` is the number of
      stored users, and every stored user appears exactly once. */
  lemma BlankQueryListsEveryone(docs: seq<(UserId, User)>, users: map<UserId, User>, q: Option<string>)
    requires Enumerates(docs, users)
    requires Trim(q.GetOr("")) == ""
    ensures multiset(Listed(docs, q)) == multiset(docs)
    ensures |Listed(docs, q)| == |users|
    ensures forall id :: id in users ==> multiset(Listed(docs, q))[(id, users[id])] == 1
  {
    EmptyQueryKeepsEveryone(docs);
    EnumerationSize(docs, users);
    EnumerationCounts(docs, users);
  }

  /** The listing reply. */
  datatype UserPage = UserPage(page: int, limit: int, total: int, totalPages: int, items: seq<Document>)

  /** The users the listing shows, before paging: the matching users, newest
      first. */
  function Listed(docs: seq<(UserId, User)>, q: Option<string>): (r: seq<(UserId, User)>)
    ensures NewestFirst(r)
    ensures forall x :: x in r <==> x in docs && Matches(x.1, Trim(q.GetOr("")))
    ensures multiset(r) <= multiset(docs)
  {
    var filtered := FilterUsers(docs, Trim(q.GetOr("")));
    var sorted := SortNewestFirst(filtered);
    assert forall x :: x in sorted <==> x in multiset(sorted);
    sorted
  }

  /** `listUsers` over the collection's users in natural order: the page
      and size after clamping, the total of matching users and the number
      of pages they fill, and as items the requested page of the matching
      users, newest first, showing only the public fields. */
  function ListUsers(docs: seq<(UserId, User)>, page: Option<int>, limit: Option<int>, q: Option<string>): (r: UserPage)
    ensures r.page == PageNumber(page) && r.limit == PageSize(limit)
    ensures r.total == |Listed(docs, q)| && r.totalPages == PageCount(r.total, r.limit)
    ensures r.items == PageItems(Listed(docs, q), r.page, r.limit)
    ensures |r.items| <= r.limit
    ensures forall k :: 0 <= k < |r.items| ==> "passwordHash" !in r.items[k]
  {
    var listed, p, l := Listed(docs, q), PageNumber(page), PageSize(limit);
    UserPage(p, l, |listed|, PageCount(|listed|, l), PageItems(listed, p, l))
  }

  /** `.skip((p - 1) * l).limit(l)` over the matching users `listed`, in
      public view: the users after the earlier pages, at most `l` of them. */
  function PageItems(listed: seq<(UserId, User)>, p: int, l: int): (items: seq<Document>)
    requires p >= 1 && l >= 1
    ensures |items| <= l
    ensures Skip(p, l) < |listed| ==> |items| == Min(|listed| - Skip(p, l), l)
    ensures Skip(p, l) >= |listed| ==> items == []
    ensures forall k :: 0 <= k < |items| ==>
      Skip(p, l) + k < |listed|
      && items[k] == PublicView(listed[Skip(p, l) + k].0, listed[Skip(p, l) + k].1)
      && "passwordHash" !in items[k]
  {
    PublicViews(Window(listed, Skip(p, l), l))
  }

  function Min(a: int, b: int): int {
    if a < b then a else b
  }

  /** Item `i % limit` of page `i / limit + 1` is listed user `i`. */
  lemma PageOfIndex(i: nat, limit: int)
    requires limit >= 1
    ensures i / limit >= 0 && 0 <= i % limit < limit
    ensures Skip(i / limit + 1, limit) + i % limit == i
  {
    assert (i / limit) * limit + i % limit == i;
  }

  /** Offset k of page p shows the matching user at Skip(p, limit) + k,
      whenever there is one. */
  lemma ItemOnPage(listed: seq<(UserId, User)>, p: int, limit: int, k: nat)
    requires p >= 1 && limit >= 1 && k < limit
    requires Skip(p, limit) + k < |listed|
    ensures var items := PageItems(listed, p, limit);
      && k < |items|
      && items[k] == PublicView(listed[Skip(p, limit) + k].0, listed[Skip(p, limit) + k].1)
  {
    WindowItem(listed, Skip(p, limit), limit, k);
  }

  /** Over any matching users, user i is item i % limit of page
      i / limit + 1. */
  lemma IndexOnItsPage(listed: seq<(UserId, User)>, limit: int, i: nat)
    requires limit >= 1 && i < |listed|
    ensures var items := PageItems(listed, i / limit + 1, limit);
      && i % limit < |items|
      && items[i % limit] == PublicView(listed[i].0, listed[i].1)
  {
    PageOfIndex(i, limit);
    ItemOnPage(listed, i / limit + 1, limit, i % limit);
  }

  /** Paging loses no one: the i-th listed user (newest first) is item
      i % limit of page i / limit + 1. */
  lemma {:induction false} EveryListedUserHasAPage(docs: seq<(UserId, User)>, limit: int, q: Option<string>, i: nat)
    requires 1 <= limit <= MaxLimit
    requires i < |Listed(docs, q)|
    ensures var r := ListUsers(docs, Some(i / limit + 1), Some(limit), q);
      && i % limit < |r.items|
      && r.items[i % limit] == PublicView(Listed(docs, q)[i].0, Listed(docs, q)[i].1)
  {
    PageOfIndex(i, limit);
    IndexOnItsPage(Listed(docs, q), limit, i);
    RequestedPageItems(docs, i / limit + 1, limit, q);
  }

  /** A page and size within bounds are taken as requested. */
  lemma RequestedPageItems(docs: seq<(UserId, User)>, p: int, limit: int, q: Option<string>)
    requires p >= 1 && 1 <= limit <= MaxLimit
    ensures ListUsers(docs, Some(p), Some(limit), q).items == PageItems(Listed(docs, q), p, limit)
  {
    var r := ListUsers(docs, Some(p), Some(limit), q);
    assert r.page == p && r.limit == limit;
  }

  /** A page has items exactly when its number is at most the page count. */
  lemma {:induction false} PageIsEmptyPastTheLast(docs: seq<(UserId, User)>, page: Option<int>, limit: Option<int>,
                                                  q: Option<string>)
    ensures var r := ListUsers(docs, page, limit, q);
      |r.items| > 0 <==> r.page <= r.totalPages
  {
    PageHasItems(Listed(docs, q), PageNumber(page), PageSize(limit));
  }

  /** Over any matching users, a page has items exactly when its number is
      at most the page count. */
  lemma PageHasItems(listed: seq<(UserId, User)>, p: int, l: int)
    requires p >= 1 && l >= 1
    ensures |PageItems(listed, p, l)| > 0 <==> p <= PageCount(|listed|, l)
  {
    PageBeforeCount(|listed|, p, l);
  }

  /** The arithmetic behind it: a page starts before the end of the list
      exactly when its number is at most the page count. */
  lemma PageBeforeCount(total: nat, page: int, limit: int)
    requires page >= 1 && limit >= 1
    ensures Skip(page, limit) < total <==> page <= PageCount(total, limit)
  {
    var n := PageCount(total, limit);
    PageCountIsCeiling(total, limit);
    if page <= n {
      SkipMonotonic(page, n, limit);
    } else {
      SkipMonotonic(n + 1, page, limit);
    }
  }

  // --- update ---------------------------------------------------------------

  /** The three body keys `updateUser` reads; the name is taken to be a
      string, role and isActive may be any JSON value. */
  datatype UserUpdateBody = UserUpdateBody(name: Option<string>, role: Option<Json>, isActive: Option<Json>)

  /** The `update` object: the fields to set. */
  datatype UserPatch = UserPatch(name: Option<string>, role: Option<Role>, isActive: Option<bool>)

  predicate IsStaff(role: Option<string>) {
    role.Some? && role.value in StaffRoles
  }

  /** Building `update` field by field: the name as sent; a role only from
      an admin or manager (403 otherwise) and only one of the three names
      (400 otherwise); isActive coerced with `!!`. Nothing is looked up. */
  function CollectUpdate(actorRole: Option<string>, body: UserUpdateBody): (r: Result<UserPatch, Reply<Document>>)
    ensures r.Err? ==> body.role.Some?
    ensures body.role.Some? && !IsStaff(actorRole) ==> r == Err(Message(StatusForbidden, RoleGateMessage))
    ensures body.role.Some? && IsStaff(actorRole) && !(body.role.value.JStr? && ParseRole(body.role.value.s).Some?) ==>
      r == Err(Message(StatusBadRequest, InvalidRoleMessage))
    ensures r.Ok? ==> && r.value.name == body.name
                      && (r.value.role.Some? <==> body.role.Some?)
                      && (r.value.role.Some? ==> body.role.value == JStr(RoleName(r.value.role.value)))
                      && r.value.isActive == (if body.isActive.Some? then Some(Truthy(body.isActive.value)) else None)
  {
    if body.role.None? then
      Ok(UserPatch(body.name, None, if body.isActive.Some? then Some(Truthy(body.isActive.value)) else None))
    else if !IsStaff(actorRole) then Err(Message(StatusForbidden, RoleGateMessage))
    else if !(body.role.value.JStr? && ParseRole(body.role.value.s).Some?) then Err(Message(StatusBadRequest, InvalidRoleMessage))
    else
      Ok(UserPatch(body.name, ParseRole(body.role.value.s),
                   if body.isActive.Some? then Some(Truthy(body.isActive.value)) else None))
  }

  /** `$set` with the collected fields: those change, nothing else does. */
  function ApplyUserPatch(u: User, p: UserPatch): (r: User)
    ensures r.name == p.name.GetOr(u.name) && r.role == p.role.GetOr(u.role) && r.isActive == p.isActive.GetOr(u.isActive)
    ensures r.email == u.email && r.passwordHash == u.passwordHash && r.createdAt == u.createdAt
  {
    u.(name := p.name.GetOr(u.name), role := p.role.GetOr(u.role), isActive := p.isActive.GetOr(u.isActive))
  }

  /** `"id name email role isActive createdAt"`: the update's selection,
      which names the `id` virtual rather than `_id`. */
  const UpdateSelection: set<string> := {"id", "name", "email", "role", "isActive", "createdAt"}

  /** Since an inclusive selection always keeps `_id` and a stored user has
      no `id` path, the update's selection is the public view. */
  lemma UpdateSelectionIsPublic(id: UserId, u: User)
    ensures Select(ToDocument(id, u), UpdateSelection) == PublicView(id, u)
  {
    var a := Select(ToDocument(id, u), UpdateSelection);
    var b := PublicView(id, u);
    assert a.Keys == b.Keys by {
      forall k ensures k in a <==> k in b {
        assert k in UpdateSelection ==> k == "id" || k in StoredFields;
      }
    }
  }

  /** `updateUser`: the role checks come before the lookup, so they win
      over 404; on success only the collected fields change. */
  function UpdateUser(users: map<UserId, User>, id: UserId, actor: ReqUser, body: UserUpdateBody): (o: Outcome<Document>)
    ensures CollectUpdate(actor.role, body).Err? ==> o == Outcome(CollectUpdate(actor.role, body).error, users)
    ensures CollectUpdate(actor.role, body).Ok? && id !in users ==>
      o == Outcome(Message(StatusNotFound, UserNotFoundMessage), users)
    ensures CollectUpdate(actor.role, body).Ok? && id in users ==>
      var u := ApplyUserPatch(users[id], CollectUpdate(actor.role, body).value);
      && o.users == users[id := u]
      && o.reply == Send(StatusOk, UpdatedMessage, PublicView(id, u))
    ensures o.users.Keys == users.Keys
    ensures ValidUsers(users) ==> ValidUsers(o.users)
  {
    match CollectUpdate(actor.role, body)
    case Err(reply) => Outcome(reply, users)
    case Ok(patch) =>
      if id !in users then Outcome(Message(StatusNotFound, UserNotFoundMessage), users)
      else
        var u := ApplyUserPatch(users[id], patch);
        UpdateSelectionIsPublic(id, u);
        SameEmailKeepsValid(users, id, u);
        Outcome(Send(StatusOk, UpdatedMessage, Select(ToDocument(id, u), UpdateSelection)), users[id := u])
  }

  // --- activation -----------------------------------------------------------

  /** `deactivateUser` (active false) and `activateUser` (active true):
      404 for an unknown id; otherwise only isActive changes. Both answer
      "deactivated". */
  function SetActive(users: map<UserId, User>, id: UserId, active: bool): (o: Outcome<Document>)
    ensures id !in users ==> o == Outcome(Message(StatusNotFound, UserNotFoundMessage), users)
    ensures id in users ==>
      && o.users == users[id := users[id].(isActive := active)]
      && o.reply == Send(StatusOk, ActivityMessage, PublicView(id, users[id].(isActive := active)))
    ensures o.users.Keys == users.Keys
    ensures ValidUsers(users) ==> ValidUsers(o.users)
  {
    if id !in users then Outcome(Message(StatusNotFound, UserNotFoundMessage), users)
    else
      var u := users[id].(isActive := active);
      SameEmailKeepsValid(users, id, u);
      Outcome(Send(StatusOk, ActivityMessage, PublicView(id, u)), users[id := u])
  }

  // --- delete ---------------------------------------------------------------

  /** `deleteUser`: the record is removed first, whenever it exists; only
      then come the self-delete check (403) and the actor's role check
      (400), so those errors are sent after the removal. */
  function DeleteUser(users: map<UserId, User>, id: UserId, actor: ReqUser): (o: Outcome<Document>)
    ensures id !in users ==> o == Outcome(Message(StatusNotFound, UserNotFoundMessage), users)
    ensures id in users ==> o.users == users - {id}
    ensures id in users && actor.id == Some(id) ==> o.reply == Message(StatusForbidden, SelfDeleteMessage)
    ensures id in users && actor.id != Some(id) && !IsStaff(actor.role) ==> o.reply == Message(StatusBadRequest, DeleteRoleMessage)
    ensures id in users && actor.id != Some(id) && IsStaff(actor.role) ==>
      o.reply == Send(StatusOk, DeletedMessage, ToDocument(id, users[id]))
    ensures ValidUsers(users) ==> ValidUsers(o.users)
  {
    if id !in users then Outcome(Message(StatusNotFound, UserNotFoundMessage), users)
    else
      var removed := users - {id};
      if actor.id == Some(id) then Outcome(Message(StatusForbidden, SelfDeleteMessage), removed)
      else if !IsStaff(actor.role) then Outcome(Message(StatusBadRequest, DeleteRoleMessage), removed)
      else Outcome(Send(StatusOk, DeletedMessage, ToDocument(id, users[id])), removed)
  }

  /** An actor who tries to delete themself is refused, yet their record is
      gone. */
  lemma SelfDeleteStillRemoves(users: map<UserId, User>, id: UserId, actor: ReqUser)
    requires id in users && actor.id == Some(id)
    ensures var o := DeleteUser(users, id, actor);
      o.reply.status == StatusForbidden && id !in o.users && FindById(o.users, actor.id).None?
  {
  }

  // --- in place ---------------------------------------------------------------

  /** The in-place update: `update` is built one field at a time, then
      written with `findByIdAndUpdate`. */
  method UpdateUserInPlace(store: UserStore, id: UserId, actor: ReqUser, body: UserUpdateBody)
    returns (reply: Reply<Document>)
    requires store.Valid()
    modifies store
    ensures store.Valid()
    ensures Outcome(reply, store.users) == UpdateUser(old(store.users), id, actor, body)
  {
    var update := UserPatch(None, None, None);
    if body.name.Some? {
      update := update.(name := body.name);
    }
    if body.role.Some? {
      if !IsStaff(actor.role) {
        reply := Message(StatusForbidden, RoleGateMessage);
        return;
      }
      var role := if body.role.value.JStr? then ParseRole(body.role.value.s) else None;
      if role.None? {
        reply := Message(StatusBadRequest, InvalidRoleMessage);
        return;
      }
      update := update.(role := role);
    }
    if body.isActive.Some? {
      update := update.(isActive := Some(Truthy(body.isActive.value)));
    }
    assert CollectUpdate(actor.role, body) == Ok(update);
    if id !in store.users {
      reply := Message(StatusNotFound, UserNotFoundMessage);
      return;
    }
    var user := ApplyUserPatch(store.users[id], update);
    SameEmailKeepsValid(store.users, id, user);
    store.users := store.users[id := user];
    UpdateSelectionIsPublic(id, user);
    reply := Send(StatusOk, UpdatedMessage, Select(ToDocument(id, user), UpdateSelection));
  }

  /** The in-place activation and deactivation. */
  method SetActiveInPlace(store: UserStore, id: UserId, active: bool) returns (reply: Reply<Document>)
    requires store.Valid()
    modifies store
    ensures store.Valid()
    ensures Outcome(reply, store.users) == SetActive(old(store.users), id, active)
  {
    if id !in store.users {
      reply := Message(StatusNotFound, UserNotFoundMessage);
      return;
    }
    var user := store.users[id].(isActive := active);
    SameEmailKeepsValid(store.users, id, user);
    store.users := store.users[id := user];
    reply := Send(StatusOk, ActivityMessage, PublicView(id, user));
  }

  /** The in-place delete: `findByIdAndDelete`, then the checks. */
  method DeleteUserInPlace(store: UserStore, id: UserId, actor: ReqUser) returns (reply: Reply<Document>)
    requires store.Valid()
    modifies store
    ensures store.Valid()
    ensures Outcome(reply, store.users) == DeleteUser(old(store.users), id, actor)
  {
    if id !in store.users {
      reply := Message(StatusNotFound, UserNotFoundMessage);
      return;
    }
    var user := store.users[id];
    store.users := store.users - {id};
    if actor.id == Some(id) {
      reply := Message(StatusForbidden, SelfDeleteMessage);
      return;
    }
    if !IsStaff(actor.role) {
      reply := Message(StatusBadRequest, DeleteRoleMessage);
      return;
    }
    reply := Send(StatusOk, DeletedMessage, ToDocument(id, user));
  }
}
