/** Values shared by every handler of the backend: optional values, JSON bodies,
    roles, HTTP statuses, and the filter / order / paginate pipeline that every
    list endpoint repeats. */
module Common {

  datatype Option<T> = None | Some(value: T)

  /** Every stored row is identified by a number (the database uses UUIDs; only
      equality between identifiers matters to the handlers). */
  type Id = nat

  /** A JSON value as request and response bodies carry it (numbers are integers). */
  datatype Json =
    | JNull
    | JBool(b: bool)
    | JNum(n: int)
    | JStr(s: string)
    | JArr(items: seq<Json>)
    | JObj(fields: map<string, Json>)

  /** JavaScript truthiness of a JSON value, as in `if (body.id)`. */
  predicate Truthy(v: Json) {
    match v
    case JNull => false
    case JBool(b) => b
    case JNum(n) => n != 0
    case JStr(s) => s != ""
    case _ => true
  }

  /** The four user roles of the users table. */
  datatype Role = Admin | Ngo | Woman | Donor

  /** The HTTP status a handler answers with. */
  datatype Status = Ok | Created | BadRequest | Unauthorized | Forbidden | NotFound | ServerError
  {
    function Code(): int {
      match this
      case Ok => 200
      case Created => 201
      case BadRequest => 400
      case Unauthorized => 401
      case Forbidden => 403
      case NotFound => 404
      case ServerError => 500
    }
  }

  /** A handler's answer about one record: the record, or an error status and
      its message. */
  datatype Reply<T> = Shown(value: T) | Denied(status: Status, message: string)

  function Min(a: int, b: int): int { if a <= b then a else b }

  // ---------------------------------------------------------------------------
  // Filtering and counting

  /** The elements of `s` that satisfy `p`, in their original order. */
  function Filter<T>(s: seq<T>, p: T -> bool): (r: seq<T>)
    ensures |r| <= |s|
    ensures forall x :: x in r ==> x in s && p(x)
    ensures forall x :: x in s && p(x) ==> x in r
    ensures multiset(r) <= multiset(s)
  {
    if s == [] then []
    else
      assert s == [s[0]] + s[1..];
      if p(s[0]) then [s[0]] + Filter(s[1..], p)
      else Filter(s[1..], p)
  }

  /** Filtering distributes over concatenation. */
  lemma {:induction false} FilterAppend<T>(a: seq<T>, b: seq<T>, p: T -> bool)
    ensures Filter(a + b, p) == Filter(a, p) + Filter(b, p)
  {
    if a == [] {
      assert a + b == b;
    } else {
      assert (a + b)[1..] == a[1..] + b;
      FilterAppend(a[1..], b, p);
    }
  }

  /** Filtering keeps order, so a relation that holds between every earlier
      and later element still holds afterwards. */
  lemma {:induction false} FilterPairwise<T>(s: seq<T>, p: T -> bool, rel: (T, T) -> bool)
    requires forall i, j :: 0 <= i < j < |s| ==> rel(s[i], s[j])
    ensures forall i, j :: 0 <= i < j < |Filter(s, p)| ==> rel(Filter(s, p)[i], Filter(s, p)[j])
  {
    if s != [] {
      var u := s[1..];
      forall i, j | 0 <= i < j < |u| ensures rel(u[i], u[j]) {
        assert u[i] == s[i + 1] && u[j] == s[j + 1];
      }
      FilterPairwise(u, p, rel);
      FilterCons(s, p);
      var t := Filter(u, p);
      if p(s[0]) {
        forall y | y in t ensures rel(s[0], y) {
          var k :| 0 <= k < |u| && u[k] == y;
          assert u[k] == s[k + 1];
        }
        ConsPairwise(s[0], t, rel);
      }
    }
  }

  lemma ConsPairwise<T>(x: T, t: seq<T>, rel: (T, T) -> bool)
    requires forall i, j :: 0 <= i < j < |t| ==> rel(t[i], t[j])
    requires forall y :: y in t ==> rel(x, y)
    ensures forall i, j :: 0 <= i < j < |[x] + t| ==> rel(([x] + t)[i], ([x] + t)[j])
  {
    var f := [x] + t;
    forall i, j | 0 <= i < j < |f| ensures rel(f[i], f[j]) {
      assert f[j] == t[j - 1] && t[j - 1] in t;
      if i > 0 {
        assert f[i] == t[i - 1];
      }
    }
  }

  /** The number of elements of `s` that satisfy `p` (an SQL `COUNT(*) WHERE`). */
  function Count<T>(s: seq<T>, p: T -> bool): (n: nat)
    ensures n == |Filter(s, p)|
    ensures n <= |s|
    ensures n == 0 <==> forall i :: 0 <= i < |s| ==> !p(s[i])
  {
    if s == [] then 0
    else (if p(s[0]) then 1 else 0) + Count(s[1..], p)
  }

  lemma CountCons<T>(s: seq<T>, p: T -> bool)
    requires s != []
    ensures Count(s, p) == (if p(s[0]) then 1 else 0) + Count(s[1..], p)
  {
  }

  /** A narrower condition never counts more rows. */
  lemma {:induction false} CountMonotone<T>(s: seq<T>, p: T -> bool, q: T -> bool)
    requires forall x :: p(x) ==> q(x)
    ensures Count(s, p) <= Count(s, q)
  {
    if s != [] {
      CountMonotone(s[1..], p, q);
    }
  }

  /** The index of the first element satisfying `p` (what `findOne` returns). */
  function FirstIndex<T>(s: seq<T>, p: T -> bool): (r: Option<nat>)
    ensures r.Some? ==> r.value < |s| && p(s[r.value])
    ensures r.Some? ==> forall k :: 0 <= k < r.value ==> !p(s[k])
    ensures r.None? ==> forall k :: 0 <= k < |s| ==> !p(s[k])
  {
    if s == [] then None
    else if p(s[0]) then Some(0)
    else
      match FirstIndex(s[1..], p)
      case None => None
      case Some(k) => Some(k + 1)
  }

  // ---------------------------------------------------------------------------
  // Ordering: `ORDER BY key DESC`, and JavaScript's stable `Array.prototype.sort`

  ghost predicate SortedDesc<T>(s: seq<T>, key: T -> int) {
    forall i, j :: 0 <= i < j < |s| ==> key(s[i]) >= key(s[j])
  }

  /** Inserts `x` in front of the first element whose key is not larger. */
  function Insert<T>(x: T, s: seq<T>, key: T -> int): (r: seq<T>)
    requires SortedDesc(s, key)
    ensures SortedDesc(r, key)
    ensures multiset(r) == multiset(s) + multiset{x}
    ensures |r| == |s| + 1
    ensures r[0] == x || (s != [] && r[0] == s[0])
  {
    if s == [] || key(x) >= key(s[0]) then [x] + s
    else
      var rest := Insert(x, s[1..], key);
      assert multiset(s) == multiset{s[0]} + multiset(s[1..]) by {
        assert s == [s[0]] + s[1..];
      }
      assert key(s[0]) >= key(rest[0]);
      [s[0]] + rest
  }

  /** A stable sort, descending by `key`: equal keys keep their input order. */
  function SortDesc<T>(s: seq<T>, key: T -> int): (r: seq<T>)
    ensures SortedDesc(r, key)
    ensures multiset(r) == multiset(s)
    ensures |r| == |s|
  {
    if s == [] then []
    else
      assert s == [s[0]] + s[1..];
      Insert(s[0], SortDesc(s[1..], key), key)
  }

  /** `key` ranks flagged elements 1 and the others 0, so that sorting by it
      descending puts the flagged ones first. */
  ghost predicate FlagKey<T(!new)>(key: T -> int, flag: T -> bool) {
    forall y :: key(y) == if flag(y) then 1 else 0
  }

  lemma FlaggedThenUnflaggedSorted<T(!new)>(a: seq<T>, b: seq<T>, key: T -> int, flag: T -> bool)
    requires FlagKey(key, flag)
    requires forall y :: y in a ==> flag(y)
    requires forall y :: y in b ==> !flag(y)
    ensures SortedDesc(a + b, key)
  {
    forall i, j | 0 <= i < j < |a + b| ensures key((a + b)[i]) >= key((a + b)[j]) {
      if i < |a| {
        assert (a + b)[i] in a;
      } else {
        assert (a + b)[i] in b && (a + b)[j] in b;
      }
    }
  }

  /** Inserting an unflagged element into "all flagged, then all unflagged" puts
      it in front of the unflagged ones. */
  lemma InsertUnflagged<T(!new)>(x: T, a: seq<T>, b: seq<T>, key: T -> int, flag: T -> bool)
    requires FlagKey(key, flag)
    requires forall y :: y in a ==> flag(y)
    requires forall y :: y in b ==> !flag(y)
    requires !flag(x)
    ensures SortedDesc(a + b, key)
    ensures Insert(x, a + b, key) == a + ([x] + b)
  {
    FlaggedThenUnflaggedSorted(a, b, key, flag);
    forall y | y in a ensures key(y) > key(x) {
      assert key(y) == 1 && key(x) == 0;
    }
    if b != [] {
      assert b[0] in b;
      assert key(b[0]) == 0 && key(x) == 0;
    }
    InsertAfterPrefix(x, a, b, key);
  }

  /** `Insert` passes over a prefix of larger keys and stops in front of `b`. */
  lemma {:induction false} InsertAfterPrefix<T>(x: T, a: seq<T>, b: seq<T>, key: T -> int)
    requires SortedDesc(a + b, key)
    requires forall y :: y in a ==> key(y) > key(x)
    requires b == [] || key(x) >= key(b[0])
    ensures Insert(x, a + b, key) == a + ([x] + b)
  {
    if a == [] {
      assert a + b == b;
      InsertFront(x, b, key);
    } else {
      var rest := a[1..] + b;
      assert SortedDesc(rest, key) && Insert(x, a + b, key) == [a[0]] + Insert(x, rest, key) by {
        assert (a + b)[1..] == rest && (a + b)[0] == a[0];
        assert a[0] in a;
        InsertPast(x, a + b, key);
      }
      assert Insert(x, rest, key) == a[1..] + ([x] + b) by {
        assert forall y :: y in a[1..] ==> y in a;
        InsertAfterPrefix(x, a[1..], b, key);
      }
      HeadThenTail(a, [x] + b);
    }
  }

  lemma HeadThenTail<T>(a: seq<T>, c: seq<T>)
    requires a != []
    ensures [a[0]] + (a[1..] + c) == a + c
  {
    assert a == [a[0]] + a[1..];
  }

  /** `Insert` puts `x` in front when its key is not smaller than the first. */
  lemma InsertFront<T>(x: T, s: seq<T>, key: T -> int)
    requires SortedDesc(s, key) && (s == [] || key(x) >= key(s[0]))
    ensures Insert(x, s, key) == [x] + s
  {
  }

  /** Otherwise `Insert` keeps the first element in front and goes on past it. */
  lemma InsertPast<T>(x: T, s: seq<T>, key: T -> int)
    requires SortedDesc(s, key) && s != [] && key(x) < key(s[0])
    ensures SortedDesc(s[1..], key)
    ensures Insert(x, s, key) == [s[0]] + Insert(x, s[1..], key)
  {
  }

  /** Sorting by a flag is a stable partition: the flagged elements first and the
      others after them, each group in its input order. */
  lemma {:induction false} SortByFlagIsStablePartition<T(!new)>(s: seq<T>, key: T -> int, flag: T -> bool, notFlag: T -> bool)
    requires FlagKey(key, flag)
    requires forall y :: notFlag(y) == !flag(y)
    ensures SortDesc(s, key) == Filter(s, flag) + Filter(s, notFlag)
  {
    if s != [] {
      SortByFlagIsStablePartition(s[1..], key, flag, notFlag);
      PartitionStep(s, key, flag, notFlag);
    }
  }

  lemma PartitionStep<T(!new)>(s: seq<T>, key: T -> int, flag: T -> bool, notFlag: T -> bool)
    requires FlagKey(key, flag)
    requires forall y :: notFlag(y) == !flag(y)
    requires s != []
    requires SortDesc(s[1..], key) == Filter(s[1..], flag) + Filter(s[1..], notFlag)
    ensures SortDesc(s, key) == Filter(s, flag) + Filter(s, notFlag)
  {
    var a, b := Filter(s[1..], flag), Filter(s[1..], notFlag);
    assert SortDesc(s, key) == Insert(s[0], a + b, key);
    if flag(s[0]) {
      FilterCons(s, flag);
      FilterCons(s, notFlag);
      InsertFlagged(s[0], a, b, key, flag);
    } else {
      FilterCons(s, flag);
      FilterCons(s, notFlag);
      InsertUnflagged(s[0], a, b, key, flag);
    }
  }

  lemma FilterCons<T>(s: seq<T>, p: T -> bool)
    requires s != []
    ensures Filter(s, p) == if p(s[0]) then [s[0]] + Filter(s[1..], p) else Filter(s[1..], p)
  {
  }

  /** Inserting a flagged element into "all flagged, then all unflagged" puts it
      in front of everything. */
  lemma InsertFlagged<T(!new)>(x: T, a: seq<T>, b: seq<T>, key: T -> int, flag: T -> bool)
    requires FlagKey(key, flag)
    requires forall y :: y in a ==> flag(y)
    requires forall y :: y in b ==> !flag(y)
    requires flag(x)
    ensures SortedDesc(a + b, key)
    ensures Insert(x, a + b, key) == [x] + a + b
  {
    FlaggedThenUnflaggedSorted(a, b, key, flag);
    if a + b != [] {
      assert key(x) == 1;
      assert (a + b)[0] in a + b;
    }
    assert [x] + (a + b) == [x] + a + b;
  }

  // ---------------------------------------------------------------------------
  // Pagination: `offset = (page - 1) * limit`, `pages = Math.ceil(count / limit)`

  /** The number of rows skipped before page `page` (pages count from 1). */
  function PageOffset(page: nat, limit: nat): nat
    requires page >= 1
  {
    (page - 1) * limit
  }

  /** `Math.ceil(total / limit)`: the fewest pages of `limit` rows that hold
      `total` rows. */
  function PageCount(total: nat, limit: nat): (pages: nat)
    requires limit >= 1
    ensures pages * limit >= total
    ensures pages >= 1 ==> (pages - 1) * limit < total
    decreases total
  {
    if total == 0 then 0
    else if total <= limit then 1
    else 1 + PageCount(total - limit, limit)
  }

  /** The rows of page `page`: at most `limit` of them, from the offset on. */
  function Paginate<T>(rows: seq<T>, page: nat, limit: nat): (r: seq<T>)
    requires page >= 1 && limit >= 1
    ensures |r| <= limit
    ensures |r| == if PageOffset(page, limit) >= |rows| then 0
                   else Min(limit, |rows| - PageOffset(page, limit))
    ensures forall k :: 0 <= k < |r| ==> r[k] == rows[PageOffset(page, limit) + k]
  {
    var offset := PageOffset(page, limit);
    if offset >= |rows| then []
    else rows[offset .. offset + Min(limit, |rows| - offset)]
  }

  /** A page is non-empty exactly when its number is within the page count. */
  lemma {:induction false} PageNonEmptyIffWithinCount<T>(rows: seq<T>, page: nat, limit: nat)
    requires page >= 1 && limit >= 1
    ensures Paginate(rows, page, limit) != [] <==> page <= PageCount(|rows|, limit)
  {
    var pages := PageCount(|rows|, limit);
    var offset := PageOffset(page, limit);
    if page <= pages {
      assert offset <= (pages - 1) * limit by {
        MulMonotone(page - 1, pages - 1, limit);
      }
      assert offset < |rows|;
    } else {
      assert offset >= pages * limit by {
        MulMonotone(pages, page - 1, limit);
      }
      assert offset >= |rows|;
    }
  }

  lemma MulMonotone(a: nat, b: nat, c: nat)
    requires a <= b
    ensures a * c <= b * c
  {
  }

  /** The pagination block of every list response. */
  datatype Page<T> = Page(items: seq<T>, total: nat, page: nat, limit: nat, pages: nat)

  function PageOf<T>(matches: seq<T>, page: nat, limit: nat): (p: Page<T>)
    requires page >= 1 && limit >= 1
    ensures p.total == |matches| && p.page == page && p.limit == limit
    ensures p.pages == PageCount(|matches|, limit)
    ensures p.items == Paginate(matches, page, limit)
  {
    Page(Paginate(matches, page, limit), |matches|, page, limit, PageCount(|matches|, limit))
  }

  /** Every matching row, ordered by `key` descending (ties in table order):
      the whole result set that the pages are cut from. */
  function Ranked<T>(rows: seq<T>, keep: T -> bool, key: T -> int): (r: seq<T>)
    ensures SortedDesc(r, key)
    ensures multiset(r) == multiset(Filter(rows, keep))
    ensures |r| == |Filter(rows, keep)|
  {
    SortDesc(Filter(rows, keep), key)
  }

  /** The pages partition the ranked rows: the row of rank `k` (from 0) is
      item `k % limit` of page `k / limit + 1`. */
  lemma RowOnItsPage<T>(ranked: seq<T>, k: nat, limit: nat)
    requires limit >= 1 && k < |ranked|
    ensures k % limit < |Paginate(ranked, k / limit + 1, limit)|
    ensures Paginate(ranked, k / limit + 1, limit)[k % limit] == ranked[k]
  {
    var offset := PageOffset(k / limit + 1, limit);
    assert offset + k % limit == k;
  }

  /** The result of a list query: filter, order by `key` descending, paginate. */
  function ListQuery<T>(rows: seq<T>, keep: T -> bool, key: T -> int, page: nat, limit: nat): (p: Page<T>)
    requires page >= 1 && limit >= 1
    ensures p.page == page && p.limit == limit
    ensures p.items == Paginate(Ranked(rows, keep, key), page, limit)
    ensures p.total == |Filter(rows, keep)|
    ensures p.pages == PageCount(p.total, limit)
    ensures |p.items| <= limit
    ensures forall x :: x in p.items ==> x in rows && keep(x)
    ensures SortedDesc(p.items, key)
  {
    var ordered := Ranked(rows, keep, key);
    var p := PageOf(ordered, page, limit);
    assert forall x :: x in p.items ==> x in ordered by {
      forall x | x in p.items ensures x in ordered {
        var k :| 0 <= k < |p.items| && p.items[k] == x;
      }
    }
    assert forall x :: x in ordered ==> x in Filter(rows, keep) by {
      forall x | x in ordered ensures x in Filter(rows, keep) {
        assert x in multiset(ordered);
      }
    }
    p
  }
}
