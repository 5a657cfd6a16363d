/**
 * Table scans, ORDER BY and LIMIT/OFFSET as the SQL queries of the read
 * handlers use them.
 *
 * A scan visits the rows of a table in ascending id order (`RowIds`).
 * Every ordered read sorts its rows by one or two integer keys,
 * highest first (`SortBy`; an ascending ORDER BY is expressed with a
 * negated key), and then cuts a page out of the result with SQLite's
 * LIMIT/OFFSET rules (`Window`, `Paginate`).
 */
module Ranking {
  import opened Tables

  // ---------------------------------------------------------------------
  // Scans
  // ---------------------------------------------------------------------

  /** A non-empty set of ids has a least element. */
  lemma {:induction false} Least(keys: set<int>) returns (m: int)
    requires keys != {}
    decreases |keys|
    ensures m in keys && forall k :: k in keys ==> m <= k
  {
    Occupied(keys);
    var x :| x in keys;
    var rest := keys - {x};
    if rest == {} {
      m := x;
      forall k | k in keys ensures m <= k {
        assert k !in rest;
      }
    } else {
      var least := Least(rest);
      m := if x < least then x else least;
      forall k | k in keys ensures m <= k {
        if k != x {
          assert k in rest;
        }
      }
    }
  }

  /** The same, for use where only the existence of the least id is needed. */
  lemma HasLeast(keys: set<int>)
    requires keys != {}
    ensures exists m :: m in keys && forall k :: k in keys ==> m <= k
  {
    var m := Least(keys);
  }

  /** The ids of a table in ascending order: a scan in rowid order. */
  function RowIds(keys: set<int>): (ids: seq<int>)
    decreases |keys|
    ensures forall k :: k in ids <==> k in keys
    ensures forall i, j :: 0 <= i < j < |ids| ==> ids[i] < ids[j]
    ensures |ids| == |keys|
  {
    if keys == {} then []
    else
      HasLeast(keys);
      var m :| m in keys && forall k :: k in keys ==> m <= k;
      var rest := RowIds(keys - {m});
      ConsScan(keys, m, rest);
      [m] + rest
  }

  /** The least id followed by the scan of the others is the scan of all of them. */
  lemma ConsScan(keys: set<int>, m: int, rest: seq<int>)
    requires m in keys && forall k :: k in keys ==> m <= k
    requires forall k :: k in rest <==> k in keys - {m}
    requires forall i, j :: 0 <= i < j < |rest| ==> rest[i] < rest[j]
    requires |rest| == |keys - {m}|
    ensures forall k :: k in [m] + rest <==> k in keys
    ensures forall i, j :: 0 <= i < j < |[m] + rest| ==> ([m] + rest)[i] < ([m] + rest)[j]
    ensures |[m] + rest| == |keys|
  {
    var ids := [m] + rest;
    forall i, j | 0 <= i < j < |ids| ensures ids[i] < ids[j] {
      assert ids[j] == rest[j - 1];
      if i > 0 {
        assert ids[i] == rest[i - 1];
      } else {
        assert rest[j - 1] in keys - {m};
      }
    }
  }

  // ---------------------------------------------------------------------
  // ORDER BY
  // ---------------------------------------------------------------------

  /** `a` may be listed before `b` under ORDER BY major DESC, minor DESC. */
  predicate Before<T>(a: T, b: T, major: T -> int, minor: T -> int)
  {
    major(a) > major(b) || (major(a) == major(b) && minor(a) >= minor(b))
  }

  /** Every row may be listed before every row after it. */
  predicate Ordered<T>(s: seq<T>, major: T -> int, minor: T -> int)
  {
    forall i, j :: 0 <= i < j < |s| ==> Before(s[i], s[j], major, minor)
  }

  /** Inserts `x` in front of the first row it may precede. */
  function Insert<T>(x: T, s: seq<T>, major: T -> int, minor: T -> int): (r: seq<T>)
    requires Ordered(s, major, minor)
    ensures Ordered(r, major, minor)
    ensures multiset(r) == multiset(s) + multiset{x}
  {
    if s == [] then [x]
    else if Before(x, s[0], major, minor) then
      OrderedCons(x, s, major, minor);
      [x] + s
    else
      var rest := Insert(x, s[1..], major, minor);
      assert s == [s[0]] + s[1..];
      HeadPrecedesInsert(x, s, rest, major, minor);
      OrderedCons(s[0], rest, major, minor);
      [s[0]] + rest
  }

  /** A head that may precede the whole of an ordered tail gives an ordered list. */
  lemma OrderedCons<T>(x: T, s: seq<T>, major: T -> int, minor: T -> int)
    requires Ordered(s, major, minor)
    requires s != [] ==> Before(x, s[0], major, minor)
    ensures Ordered([x] + s, major, minor)
  {
    var r := [x] + s;
    forall i, j | 0 <= i < j < |r| ensures Before(r[i], r[j], major, minor) {
      if i == 0 {
        assert r[j] == s[j - 1];
        assert Before(s[0], s[j - 1], major, minor) || j == 1;
      } else {
        assert r[i] == s[i - 1] && r[j] == s[j - 1];
      }
    }
  }

  /** When `x` does not go first, the old head still leads what `Insert` builds behind it. */
  lemma HeadPrecedesInsert<T>(x: T, s: seq<T>, rest: seq<T>, major: T -> int, minor: T -> int)
    requires Ordered(s, major, minor) && s != [] && !Before(x, s[0], major, minor)
    requires multiset(rest) == multiset(s[1..]) + multiset{x}
    ensures rest != [] ==> Before(s[0], rest[0], major, minor)
  {
    if rest != [] {
      assert rest[0] in multiset(rest);
      if rest[0] != x {
        assert rest[0] in multiset(s[1..]);
        var k :| 0 <= k < |s[1..]| && s[1..][k] == rest[0];
        assert s[k + 1] == rest[0];
      }
    }
  }

  /**
   * The rows in the order ORDER BY major DESC, minor DESC lists them: the
   * same rows, each as often as in the input.
   */
  function SortBy<T>(s: seq<T>, major: T -> int, minor: T -> int): (r: seq<T>)
    ensures Ordered(r, major, minor)
    ensures multiset(r) == multiset(s)
    ensures |r| == |s|
    ensures forall i :: 0 <= i < |r| ==> r[i] in s
    ensures forall i :: 0 <= i < |s| ==> s[i] in r
  {
    if s == [] then []
    else
      assert s == [s[0]] + s[1..];
      var r := Insert(s[0], SortBy(s[1..], major, minor), major, minor);
      SameRows(r, s);
      r
  }

  /** Two lists with the same multiset of rows have the same length and the same members. */
  lemma SameRows<T>(r: seq<T>, s: seq<T>)
    requires multiset(r) == multiset(s)
    ensures |r| == |s|
    ensures forall i :: 0 <= i < |r| ==> r[i] in s
    ensures forall i :: 0 <= i < |s| ==> s[i] in r
  {
    assert |multiset(r)| == |r| && |multiset(s)| == |s|;
    forall i | 0 <= i < |r| ensures r[i] in s {
      assert r[i] in multiset(r);
    }
    forall i | 0 <= i < |s| ensures s[i] in r {
      assert s[i] in multiset(s);
    }
  }

  /** Row `a` may be listed before row `b`: keys computed from each row's id and contents. */
  predicate RowBefore<V>(m: map<int, V>, a: int, b: int, major: (int, V) -> int, minor: (int, V) -> int)
    requires a in m && b in m
  {
    major(a, m[a]) > major(b, m[b]) || (major(a, m[a]) == major(b, m[b]) && minor(a, m[a]) >= minor(b, m[b]))
  }

  /**
   * The ids of the rows of `m` in the order ORDER BY major DESC, minor DESC
   * lists them: every row exactly once.
   */
  function OrderIds<V>(m: map<int, V>, major: (int, V) -> int, minor: (int, V) -> int): (ids: seq<int>)
    ensures |ids| == |m.Keys|
    ensures forall i :: 0 <= i < |ids| ==> ids[i] in m
    ensures forall k :: k in m ==> k in ids
    ensures forall i, j :: 0 <= i < j < |ids| ==> ids[i] != ids[j]
    ensures forall i, j :: 0 <= i < j < |ids| ==> RowBefore(m, ids[i], ids[j], major, minor)
    ensures forall i, j :: 0 <= i < j < |ids| ==> major(ids[i], m[ids[i]]) >= major(ids[j], m[ids[j]])
  {
    var scan := RowIds(m.Keys);
    var majorOf := (k: int) => if k in m then major(k, m[k]) else 0;
    var minorOf := (k: int) => if k in m then minor(k, m[k]) else 0;
    var ids := SortBy(scan, majorOf, minorOf);
    OrderedIds(m, scan, ids, major, minor);
    ids
  }

  /** The keys of a map of times, newest first (ORDER BY created_at DESC), ties by the larger key. */
  function NewestFirst(times: map<int, int>): (ids: seq<int>)
    ensures |ids| == |times.Keys|
    ensures forall i :: 0 <= i < |ids| ==> ids[i] in times
    ensures forall k :: k in times ==> k in ids
    ensures forall i, j :: 0 <= i < j < |ids| ==> ids[i] != ids[j]
    ensures forall i, j :: 0 <= i < j < |ids| ==> times[ids[i]] >= times[ids[j]]
  {
    OrderIds(times, (k: int, at: int) => at, (k: int, at: int) => k)
  }

  /** The facts `OrderIds` states, from those of `RowIds` and `SortBy`. */
  lemma OrderedIds<V>(m: map<int, V>, scan: seq<int>, ids: seq<int>, major: (int, V) -> int, minor: (int, V) -> int)
    requires forall k :: k in scan <==> k in m
    requires forall i, j :: 0 <= i < j < |scan| ==> scan[i] < scan[j]
    requires |scan| == |m.Keys|
    requires multiset(ids) == multiset(scan)
    requires Ordered(ids, (k: int) => if k in m then major(k, m[k]) else 0, (k: int) => if k in m then minor(k, m[k]) else 0)
    ensures |ids| == |m.Keys|
    ensures forall i :: 0 <= i < |ids| ==> ids[i] in m
    ensures forall k :: k in m ==> k in ids
    ensures forall i, j :: 0 <= i < j < |ids| ==> ids[i] != ids[j]
    ensures forall i, j :: 0 <= i < j < |ids| ==> RowBefore(m, ids[i], ids[j], major, minor)
    ensures forall i, j :: 0 <= i < j < |ids| ==> major(ids[i], m[ids[i]]) >= major(ids[j], m[ids[j]])
  {
    SameRows(ids, scan);
    forall i, j | 0 <= i < j < |ids| ensures ids[i] != ids[j] {
      Distinct(scan, ids[i]);
      if ids[i] == ids[j] {
        CountedTwice(ids, i, j);
        assert false;
      }
    }
  }

  /** A value at two positions of a list occurs in it at least twice. */
  lemma CountedTwice(s: seq<int>, i: int, j: int)
    requires 0 <= i < j < |s| && s[i] == s[j]
    ensures multiset(s)[s[i]] >= 2
  {
    assert s == s[..i] + [s[i]] + s[i + 1..j] + [s[j]] + s[j + 1..];
  }

  /** An ascending list holds each id at most once. */
  lemma {:induction false} Distinct(s: seq<int>, x: int)
    requires forall i, j :: 0 <= i < j < |s| ==> s[i] < s[j]
    ensures multiset(s)[x] <= 1
  {
    if s != [] {
      assert s == [s[0]] + s[1..];
      Distinct(s[1..], x);
      if s[0] == x {
        assert x !in s[1..];
      }
    }
  }

  // ---------------------------------------------------------------------
  // LIMIT / OFFSET and pagination
  // ---------------------------------------------------------------------

  /** Where an OFFSET clause starts reading: SQLite treats a negative offset as 0. */
  function Start(offset: int, n: nat): (k: nat)
    ensures k <= n
    ensures 0 <= offset <= n ==> k == offset
    ensures offset < 0 ==> k == 0
    ensures n < offset ==> k == n
  {
    if offset < 0 then 0 else if offset > n then n else offset
  }

  /** LIMIT `limit` OFFSET `offset` over `s`: a negative limit means no limit. */
  function Window<T>(s: seq<T>, offset: int, limit: int): (r: seq<T>)
    ensures 0 <= limit ==> |r| <= limit
    ensures Start(offset, |s|) + |r| <= |s|
    ensures forall i :: 0 <= i < |r| ==> r[i] == s[Start(offset, |s|) + i]
    ensures limit < 0 ==> Start(offset, |s|) + |r| == |s|
    ensures 0 <= limit && Start(offset, |s|) + limit <= |s| ==> |r| == limit
    ensures 0 <= limit && |s| < Start(offset, |s|) + limit ==> Start(offset, |s|) + |r| == |s|
  {
    var k := Start(offset, |s|);
    if limit < 0 || k + limit > |s| then s[k..] else s[k..k + limit]
  }

  /** LIMIT `limit` with no OFFSET: the first `limit` rows, or all of them when there are fewer. */
  lemma FirstRows<T>(s: seq<T>, limit: nat)
    ensures var r := Window(s, 0, limit);
            && |r| == (if |s| < limit then |s| else limit)
            && forall i :: 0 <= i < |r| ==> r[i] == s[i]
  {
    assert Start(0, |s|) == 0;
  }

  /** A window of a sequence ordered by `before` is ordered by `before`. */
  lemma WindowKeepsOrder<T>(s: seq<T>, offset: int, limit: int, before: (T, T) -> bool)
    requires forall i, j :: 0 <= i < j < |s| ==> before(s[i], s[j])
    ensures var w := Window(s, offset, limit);
            forall i, j :: 0 <= i < j < |w| ==> before(w[i], w[j])
  {
    SliceKeepsOrder(s, Window(s, offset, limit), Start(offset, |s|), before);
  }

  /** A run of consecutive elements of an ordered sequence is ordered. */
  lemma SliceKeepsOrder<T>(s: seq<T>, w: seq<T>, k: nat, before: (T, T) -> bool)
    requires k + |w| <= |s|
    requires forall i :: 0 <= i < |w| ==> w[i] == s[k + i]
    requires forall i, j :: 0 <= i < j < |s| ==> before(s[i], s[j])
    ensures forall i, j :: 0 <= i < j < |w| ==> before(w[i], w[j])
  {
    forall i, j | 0 <= i < j < |w| ensures before(w[i], w[j]) {
      assert w[i] == s[k + i] && w[j] == s[k + j];
    }
  }

  /** Two pages read back to back are the page that spans both: no row is skipped or repeated. */
  lemma {:induction false} WindowsTile<T>(s: seq<T>, offset: nat, a: nat, b: nat)
    ensures Window(s, offset, a) + Window(s, offset + a, b) == Window(s, offset, a + b)
  {
    var w1, w2, w := Window(s, offset, a), Window(s, offset + a, b), Window(s, offset, a + b);
    if offset + a <= |s| {
      assert Start(offset + a, |s|) == offset + a;
      assert |w1| == a;
      assert |w1 + w2| == |w|;
      forall i | 0 <= i < |w| ensures (w1 + w2)[i] == w[i] {
        if i < a {
          assert (w1 + w2)[i] == w1[i];
        } else {
          assert (w1 + w2)[i] == w2[i - a];
        }
      }
    } else {
      assert Start(offset + a, |s|) == |s|;
      assert |w2| == 0;
      assert w1 + w2 == w1;
    }
  }

  /**
   * `Math.ceil(total / limit)`, the page count every paginated response
   * reports. The limit is never 0 when it is computed (0 falls back to the
   * default); a negative limit yields a non-positive count.
   */
  function PageCount(total: nat, limit: int): (pages: int)
    requires limit != 0
    ensures 0 < limit ==> 0 <= pages
    ensures 0 < limit && 0 < total ==> (pages - 1) * limit < total <= pages * limit
    ensures 0 < limit && total == 0 ==> pages == 0
    ensures limit < 0 ==> pages * limit <= total < (pages - 1) * limit
  {
    if limit > 0 then (total + limit - 1) / limit else -(total / -limit)
  }

  /** `parseInt(x) || fallback`: NaN (`None`) and 0 both give the fallback. */
  function Fallback(x: Option<int>, fallback: int): (r: int)
    ensures x.Some? && x.value != 0 ==> r == x.value
    ensures x.None? || x.value == 0 ==> r == fallback
  {
    if x.Some? && x.value != 0 then x.value else fallback
  }

  /**
   * A query-string parameter that a validator checks: absent, or given as
   * text. `text` is what `parseInt` makes of it (`None` for NaN); `isInt`
   * is whether the whole text is an integer literal, as the validator's
   * `isInt` decides. `parseInt` reads a prefix, so "2.5" and "12abc" parse
   * to 2 and 12 although they are not integers; for an integer literal the
   * parse is its value.
   */
  datatype Param = Absent | Given(text: Option<int>, isInt: bool)

  /** The parsed value: `parseInt` of an absent or non-numeric parameter is NaN. */
  function Parsed(p: Param): (r: Option<int>)
    ensures p.Absent? ==> r.None?
    ensures p.Given? ==> r == p.text
  {
    if p.Absent? then None else p.text
  }

  /** `optional().isInt()`: absent, or an integer literal. */
  predicate IsIntParam(p: Param)
  {
    p.Given? ==> p.isInt && p.text.Some?
  }

  /** `optional().isInt({ min: lo })`: absent, or an integer literal no smaller than `lo`. */
  predicate AtLeast(p: Param, lo: int)
  {
    IsIntParam(p) && (p.Given? ==> lo <= p.text.value)
  }

  /** `optional().isInt({ min: lo, max: hi })`: absent, or an integer literal from `lo` to `hi`. */
  predicate Between(p: Param, lo: int, hi: int)
  {
    AtLeast(p, lo) && (p.Given? ==> p.text.value <= hi)
  }

  /** A paginated response: one page of rows and the `pagination` object beside it. */
  datatype Page<T> = Page(rows: seq<T>, page: int, limit: int, total: nat, totalPages: int)

  /**
   * Page `page` of `all` with `limit` rows per page: OFFSET (page - 1) * limit,
   * total = the number of matching rows, totalPages = ceil(total / limit).
   */
  function Paginate<T>(all: seq<T>, page: int, limit: int): (r: Page<T>)
    requires limit != 0
    ensures r.page == page && r.limit == limit && r.total == |all|
    ensures r.rows == Window(all, (page - 1) * limit, limit)
    ensures 0 < limit ==> |r.rows| <= limit
    ensures 0 < limit && 1 <= page < r.totalPages ==> |r.rows| == limit
    ensures 0 < limit && 1 <= page && r.totalPages < page ==> r.rows == []
    ensures 0 < limit && 1 <= page && page == r.totalPages ==> 0 < |r.rows| && (page - 1) * limit + |r.rows| == |all|
  {
    var pages := PageCount(|all|, limit);
    PageBounds(|all|, page, limit);
    Page(Window(all, (page - 1) * limit, limit), page, limit, |all|, pages)
  }

  /** Where page `page` starts, compared with the number of rows and the page count. */
  lemma PageBounds(total: nat, page: int, limit: int)
    requires limit != 0
    ensures var pages, off := PageCount(total, limit), (page - 1) * limit;
            && (0 < limit && 1 <= page ==> 0 <= off && off + limit == page * limit)
            && (0 < limit && 1 <= page == pages ==> off < total <= off + limit)
            && (0 < limit && 1 <= page && pages < page ==> total <= off)
            && (0 < limit && 1 <= page < pages ==> off + limit < total)
  {
    var pages, off := PageCount(total, limit), (page - 1) * limit;
    if 0 < limit && 1 <= page {
      Scale(0, page - 1, limit);
      if pages < page {
        Scale(pages, page - 1, limit);
      }
      if page < pages {
        Scale(page, pages - 1, limit);
      }
    }
  }

  /** Multiplying both sides of `a <= b` by a non-negative `c`. */
  lemma Scale(a: int, b: int, c: int)
    requires a <= b && 0 <= c
    ensures a * c <= b * c
  {
    assert b * c - a * c == (b - a) * c;
  }

  /** The rows of pages 1 to `n`, read one after another. */
  function PagesUpTo<T>(all: seq<T>, limit: int, n: nat): seq<T>
    requires 0 < limit
  {
    if n == 0 then [] else PagesUpTo(all, limit, n - 1) + Paginate(all, n, limit).rows
  }

  /** Reading pages 1 to `n` in turn gives the first `n * limit` rows, in order. */
  lemma {:induction false} PagesUpToWindow<T>(all: seq<T>, limit: int, n: nat)
    requires 0 < limit
    ensures PagesUpTo(all, limit, n) == Window(all, 0, n * limit)
  {
    if n == 0 {
      assert Window(all, 0, 0) == [];
    } else {
      var off: nat := NextOffset(n, limit);
      PagesUpToWindow(all, limit, n - 1);
      var page := Paginate(all, n, limit).rows;
      assert page == Window(all, off, limit);
      assert PagesUpTo(all, limit, n) == Window(all, 0, off) + page;
      WindowsTile(all, 0, off, limit);
    }
  }

  /** Page `n` starts where page `n - 1` ends. */
  lemma NextOffset(n: nat, limit: int) returns (off: int)
    requires 0 < n && 0 < limit
    ensures off == (n - 1) * limit && 0 <= off && off + limit == n * limit
  {
    off := (n - 1) * limit;
    Scale(0, n - 1, limit);
  }

  /**
   * Reading every page from 1 to `totalPages` yields each matching row
   * exactly once, in the query's order.
   */
  lemma PagesCoverAll<T>(all: seq<T>, limit: int)
    requires 0 < limit
    ensures PagesUpTo(all, limit, PageCount(|all|, limit)) == all
  {
    var n := PageCount(|all|, limit);
    PagesUpToWindow(all, limit, n);
    assert |all| <= n * limit;
    assert Window(all, 0, n * limit) == all;
  }
}
