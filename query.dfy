/** GET /leituras in backend/app/main.py: the clamp of the `limit` argument
    and `select(Leitura).order_by(Leitura.timestamp.desc()).limit(limit)`. */
module Query {
  import opened PyValues
  import opened Schema

  const DEFAULT_LIMIT: int := 100
  const MAX_LIMIT: int := 1000

  function Min(a: int, b: int): int {
    if a <= b then a else b
  }

  function Max(a: int, b: int): int {
    if a <= b then b else a
  }

  /** `int(request.args.get("limit", 100))`, then `max(1, min(limit, 1000))`;
      when int() raises, 100. */
  function ClampLimit(lib: Library, arg: Option<string>): (limit: int)
    ensures 1 <= limit <= MAX_LIMIT
    ensures arg.None? ==> limit == DEFAULT_LIMIT
    ensures arg.Some? && lib.intOfText(arg.value).None? ==> limit == DEFAULT_LIMIT
    ensures arg.Some? && lib.intOfText(arg.value).Some? ==>
              var n := lib.intOfText(arg.value).value;
              && (1 <= n <= MAX_LIMIT ==> limit == n)
              && (MAX_LIMIT < n ==> limit == MAX_LIMIT)
              && (n < 1 ==> limit == 1)
  {
    var parsed := if arg.None? then Some(DEFAULT_LIMIT) else lib.intOfText(arg.value);
    match parsed
    case None => DEFAULT_LIMIT
    case Some(n) => Max(1, Min(n, MAX_LIMIT))
  }

  /** The ORDER BY column. The SQLite DateTime type keeps the wall-clock
      reading and drops the offset, so rows compare by wall clock. */
  function SortKey(r: Leitura): int {
    r.timestamp.wall
  }

  predicate NewestFirst(s: seq<Leitura>) {
    forall i, j :: 0 <= i < j < |s| ==> SortKey(s[j]) <= SortKey(s[i])
  }

  /** One insertion step: the row goes in front of the first row that is
      not newer than it. */
  function InsertNewestFirst(r: Leitura, s: seq<Leitura>): (u: seq<Leitura>)
    requires NewestFirst(s)
    ensures NewestFirst(u)
    ensures multiset(u) == multiset(s) + multiset{r}
    ensures |u| == |s| + 1 && (u[0] == r || (|s| > 0 && u[0] == s[0]))
    decreases |s|
  {
    if |s| == 0 || SortKey(s[0]) <= SortKey(r) then
      ConsNewestFirst(r, s);
      [r] + s
    else
      var rest := InsertNewestFirst(r, s[1..]);
      assert SortKey(rest[0]) <= SortKey(s[0]) by {
        if rest[0] != r {
          assert rest[0] == s[1];
        }
      }
      ConsNewestFirst(s[0], rest);
      assert s == [s[0]] + s[1..];
      [s[0]] + rest
  }

  lemma ConsNewestFirst(x: Leitura, s: seq<Leitura>)
    requires NewestFirst(s)
    requires |s| > 0 ==> SortKey(s[0]) <= SortKey(x)
    ensures NewestFirst([x] + s)
  {
  }

  /** The rows ordered by timestamp, newest first (ties in insertion order). */
  function OrderByTimestampDesc(rows: seq<Leitura>): (s: seq<Leitura>)
    ensures NewestFirst(s)
    ensures multiset(s) == multiset(rows)
    decreases |rows|
  {
    if |rows| == 0 then []
    else
      assert rows == [rows[0]] + rows[1..];
      InsertNewestFirst(rows[0], OrderByTimestampDesc(rows[1..]))
  }

  lemma PrefixNewestFirst(s: seq<Leitura>, n: int)
    requires NewestFirst(s)
    requires 0 <= n <= |s|
    ensures NewestFirst(s[..n])
  {
  }

  /** What a cut after n leaves out is the rest of the list. */
  lemma CutLeavesRest(s: seq<Leitura>, n: int)
    requires 0 <= n <= |s|
    ensures multiset(s[..n]) <= multiset(s)
    ensures multiset(s) - multiset(s[..n]) == multiset(s[n..])
  {
    assert s == s[..n] + s[n..];
  }

  /** Every row after position n is no newer than any row before it. */
  lemma RestIsOlder(s: seq<Leitura>, n: int)
    requires NewestFirst(s)
    requires 0 <= n <= |s|
    ensures forall x, i :: x in multiset(s[n..]) && 0 <= i < n ==> SortKey(x) <= SortKey(s[i])
  {
  }

  /** Cutting a list ordered newest first after n rows keeps the n newest. */
  lemma TakeNewest(s: seq<Leitura>, n: int)
    requires NewestFirst(s)
    requires 0 <= n <= |s|
    ensures NewestFirst(s[..n])
    ensures multiset(s[..n]) <= multiset(s)
    ensures forall x, i :: x in multiset(s) - multiset(s[..n]) && 0 <= i < n ==> SortKey(x) <= SortKey(s[..n][i])
  {
    PrefixNewestFirst(s, n);
    CutLeavesRest(s, n);
    RestIsOlder(s, n);
    assert forall i :: 0 <= i < n ==> s[..n][i] == s[i];
  }

  /** The rows get_leituras returns: at most `limit` of them, newest first,
      all from the table, and none left out is newer than one returned. */
  function Recent(rows: seq<Leitura>, limit: nat): (r: seq<Leitura>)
    ensures |r| == Min(limit, |rows|)
    ensures NewestFirst(r)
    ensures multiset(r) <= multiset(rows)
    ensures forall x, i :: x in multiset(rows) - multiset(r) && 0 <= i < |r| ==> SortKey(x) <= SortKey(r[i])
  {
    var s := OrderByTimestampDesc(rows);
    assert |s| == |rows| by {
      assert |multiset(s)| == |multiset(rows)|;
    }
    TakeNewest(s, Min(limit, |rows|));
    s[..Min(limit, |rows|)]
  }

  /** Rows rank by the wall-clock reading alone: of two rows, the one with the
      later reading comes first, whatever instant either one denotes (a
      reading taken at 07:00 UTC and written as 10:00+03:00 ranks above one
      taken at 09:00 UTC). */
  lemma NewestByWallClock(a: Leitura, b: Leitura)
    requires SortKey(b) < SortKey(a)
    ensures Recent([b, a], 1) == [a]
    ensures Recent([a, b], 1) == [a]
  {
    assert multiset([b, a]) == multiset{a, b} == multiset([a, b]);
    TopOfTwo(a, b, Recent([b, a], 1));
    TopOfTwo(a, b, Recent([a, b], 1));
  }

  /** The one row kept out of {a, b}, when no row left out outranks it. */
  lemma TopOfTwo(a: Leitura, b: Leitura, r: seq<Leitura>)
    requires SortKey(b) < SortKey(a)
    requires |r| == 1 && multiset(r) <= multiset{a, b}
    requires forall x, i :: x in multiset{a, b} - multiset(r) && 0 <= i < |r| ==> SortKey(x) <= SortKey(r[i])
    ensures r == [a]
  {
    assert r[0] in multiset(r);
  }

  /** get_leituras. */
  method GetLeituras(store: Store, lib: Library, limitArg: Option<string>) returns (rows: seq<Leitura>)
    ensures rows == Recent(store.rows, ClampLimit(lib, limitArg))
    ensures 1 <= |rows| <= MAX_LIMIT || (|rows| == 0 && store.rows == [])
    ensures NewestFirst(rows) && multiset(rows) <= multiset(store.rows)
  {
    var limit := ClampLimit(lib, limitArg);
    rows := Recent(store.rows, limit);
  }
}
