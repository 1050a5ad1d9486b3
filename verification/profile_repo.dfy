/**
 * The device-profile store: a table of profile rows in insertion order, with the listing
 * (owner filter, newest first, page window) and the four writes (insert, selective merge, full
 * save, delete) the ORM performs on it. The database's unique constraints are the table's
 * invariant: a write that would break them is refused with SQLSTATE 23505 and changes nothing.
 */
module ProfileRepo {
  import opened Wrappers
  import opened Uuids
  import opened Entity
  import opened AppErr
  import Strconv

  const DefaultPageSize := 20
  const MaxPageSize := 100

  /** The error the driver reports for a write breaking the primary key or `idx_user_name`. */
  const UniqueViolation: Error :=
    PgError("ERROR", "duplicate key value violates unique constraint", "23505")

  /** The error PostgreSQL reports when a text is compared with a `uuid` column and is not one. */
  const InvalidUuidText: Error :=
    PgError("ERROR", "invalid input syntax for type uuid", "22P02")

  /** The error `uuid.Parse` returns; its exact wording is not modelled. */
  const UuidParseError: Error := Plain("invalid UUID")

  // ---------------------------------------------------------------- table constraints

  /** The primary key and the `(user_id, name)` unique index both hold on `rows`. */
  predicate Constraints(rows: seq<DeviceProfile>) {
    forall i, j | 0 <= i < j < |rows| :: rows[i].id != rows[j].id && UniqueKey(rows[i]) != UniqueKey(rows[j])
  }

  predicate IdFree(rows: seq<DeviceProfile>, id: Uuid) {
    forall i | 0 <= i < |rows| :: rows[i].id != id
  }

  predicate KeyFree(rows: seq<DeviceProfile>, key: (Uuid, string)) {
    forall i | 0 <= i < |rows| :: UniqueKey(rows[i]) != key
  }

  /** Appending a row keeps the constraints exactly when its id and its key are both unused. */
  lemma {:induction false} AppendConstraints(rows: seq<DeviceProfile>, p: DeviceProfile)
    requires Constraints(rows)
    ensures Constraints(rows + [p]) <==> IdFree(rows, p.id) && KeyFree(rows, UniqueKey(p))
  {
    var t := rows + [p];
    if Constraints(t) {
      forall i | 0 <= i < |rows| ensures rows[i].id != p.id && UniqueKey(rows[i]) != UniqueKey(p) {
        assert t[i] == rows[i] && t[|rows|] == p;
      }
    }
  }

  /** The position of the row with id `id`, if there is one. */
  function IndexOfId(rows: seq<DeviceProfile>, id: Uuid): (r: Option<nat>)
    ensures r.Some? ==> r.value < |rows| && rows[r.value].id == id
    ensures r.None? <==> IdFree(rows, id)
  {
    if |rows| == 0 then None
    else if rows[|rows| - 1].id == id then Some(|rows| - 1)
    else
      var r := IndexOfId(rows[..|rows| - 1], id);
      assert forall i | 0 <= i < |rows| - 1 :: rows[..|rows| - 1][i] == rows[i];
      r
  }

  // ---------------------------------------------------------------- listing

  /** The page actually used: pages start at 1. */
  function EffectivePage(page: int): (p: int)
    ensures p >= 1
    ensures page >= 1 ==> p == page
    ensures page < 1 ==> p == 1
  {
    if page < 1 then 1 else page
  }

  /** The page size actually used: 20 when none is given, never more than 100. */
  function EffectiveSize(size: int): (n: int)
    ensures 1 <= n <= MaxPageSize
    ensures 1 <= size <= MaxPageSize ==> n == size
    ensures size <= 0 ==> n == DefaultPageSize
    ensures size > MaxPageSize ==> n == MaxPageSize
  {
    if size <= 0 then DefaultPageSize else if size > MaxPageSize then MaxPageSize else size
  }

  /** How many rows the page skips, computed without overflow. */
  function Offset(page: int, size: int): nat
    requires page >= 1 && size >= 1
  {
    (page - 1) * size
  }

  /** The rows owned by `uid`, in table order. */
  function OwnedBy(rows: seq<DeviceProfile>, uid: Uuid): (r: seq<DeviceProfile>)
    ensures |r| <= |rows|
    ensures forall p :: p in r <==> p in rows && p.userId == uid
    ensures multiset(r) <= multiset(rows)
  {
    if rows == [] then []
    else
      assert rows == [rows[0]] + rows[1..];
      (if rows[0].userId == uid then [rows[0]] else []) + OwnedBy(rows[1..], uid)
  }

  /** `ORDER BY created_at DESC`. */
  predicate NewestFirstOrder(s: seq<DeviceProfile>) {
    forall i, j | 0 <= i < j < |s| :: s[i].createdAt >= s[j].createdAt
  }

  /** Places `p` before the first row no newer than it. */
  function InsertByAge(p: DeviceProfile, s: seq<DeviceProfile>): (r: seq<DeviceProfile>)
    ensures multiset(r) == multiset(s) + multiset{p}
  {
    if s == [] || s[0].createdAt <= p.createdAt then [p] + s
    else
      assert s == [s[0]] + s[1..];
      [s[0]] + InsertByAge(p, s[1..])
  }

  /** No row of `s` is newer than `t`. */
  predicate NoNewerThan(s: seq<DeviceProfile>, t: Timestamp) {
    forall i | 0 <= i < |s| :: s[i].createdAt <= t
  }

  /** Inserting a row no newer than `t` among rows no newer than `t` gives rows no newer than `t`. */
  lemma {:induction false} InsertByAgeBound(p: DeviceProfile, s: seq<DeviceProfile>, t: Timestamp)
    requires NoNewerThan(s, t) && p.createdAt <= t
    ensures NoNewerThan(InsertByAge(p, s), t)
  {
    if s == [] || s[0].createdAt <= p.createdAt {
      var r := [p] + s;
      forall i | 0 <= i < |r| ensures r[i].createdAt <= t {
        if i > 0 { assert r[i] == s[i - 1]; }
      }
    } else {
      var tail := s[1..];
      assert NoNewerThan(tail, t) by {
        forall i | 0 <= i < |tail| ensures tail[i].createdAt <= t { assert tail[i] == s[i + 1]; }
      }
      InsertByAgeBound(p, tail, t);
      var rest := InsertByAge(p, tail);
      var r := [s[0]] + rest;
      forall i | 0 <= i < |r| ensures r[i].createdAt <= t {
        if i > 0 { assert r[i] == rest[i - 1]; }
      }
    }
  }

  /** A row at least as new as every row of a newest-first sequence can go in front of it. */
  lemma ConsOrder(x: DeviceProfile, r: seq<DeviceProfile>)
    requires NewestFirstOrder(r) && NoNewerThan(r, x.createdAt)
    ensures NewestFirstOrder([x] + r)
  {
    var c := [x] + r;
    forall i, j | 0 <= i < j < |c| ensures c[i].createdAt >= c[j].createdAt {
      assert c[j] == r[j - 1];
      if i > 0 { assert c[i] == r[i - 1]; }
    }
  }

  /** Inserting into a newest-first sequence keeps it newest first. */
  lemma {:induction false} InsertByAgeOrder(p: DeviceProfile, s: seq<DeviceProfile>)
    requires NewestFirstOrder(s)
    ensures NewestFirstOrder(InsertByAge(p, s))
  {
    if s == [] || s[0].createdAt <= p.createdAt {
      assert NoNewerThan(s, p.createdAt) by {
        forall i | 0 <= i < |s| ensures s[i].createdAt <= p.createdAt {
          if i > 0 { assert s[0].createdAt >= s[i].createdAt; }
        }
      }
      ConsOrder(p, s);
    } else {
      var tail := s[1..];
      assert NewestFirstOrder(tail) by {
        forall i, j | 0 <= i < j < |tail| ensures tail[i].createdAt >= tail[j].createdAt {
          assert tail[i] == s[i + 1] && tail[j] == s[j + 1];
        }
      }
      assert NoNewerThan(tail, s[0].createdAt) by {
        forall i | 0 <= i < |tail| ensures tail[i].createdAt <= s[0].createdAt { assert tail[i] == s[i + 1]; }
      }
      InsertByAgeOrder(p, tail);
      InsertByAgeBound(p, tail, s[0].createdAt);
      ConsOrder(s[0], InsertByAge(p, tail));
    }
  }

  /**
   * The rows ordered newest first. Rows with equal creation times keep their table order; the
   * database leaves that order unspecified, so this is one of the orders it may return.
   */
  function NewestFirst(s: seq<DeviceProfile>): (r: seq<DeviceProfile>)
    ensures multiset(r) == multiset(s)
  {
    if s == [] then []
    else
      assert s == [s[0]] + s[1..];
      InsertByAge(s[0], NewestFirst(s[1..]))
  }

  /** `NewestFirst` orders by creation time, newest first, and is a permutation of its input. */
  lemma {:induction false} NewestFirstSorts(s: seq<DeviceProfile>)
    ensures NewestFirstOrder(NewestFirst(s))
    ensures multiset(NewestFirst(s)) == multiset(s)
    ensures |NewestFirst(s)| == |s|
  {
    if s != [] {
      NewestFirstSorts(s[1..]);
      InsertByAgeOrder(s[0], NewestFirst(s[1..]));
    }
    assert |multiset(NewestFirst(s))| == |multiset(s)|;
  }

  /** `LIMIT size OFFSET offset` on an already ordered result. */
  function Window<T>(s: seq<T>, offset: nat, size: nat): seq<T> {
    var from := if offset < |s| then offset else |s|;
    var to := if offset + size < |s| then offset + size else |s|;
    s[from..to]
  }

  /** A window holds at most `size` elements, each taken from `s`, and is empty past the end. */
  lemma WindowShape<T>(s: seq<T>, offset: nat, size: nat)
    ensures |Window(s, offset, size)| <= size
    ensures multiset(Window(s, offset, size)) <= multiset(s)
    ensures offset >= |s| ==> Window(s, offset, size) == []
  {
    var from := if offset < |s| then offset else |s|;
    var to := if offset + size < |s| then offset + size else |s|;
    assert s == s[..from] + s[from..to] + s[to..];
  }

  /** A window of a newest-first sequence is newest first. */
  lemma WindowKeepsOrder(s: seq<DeviceProfile>, offset: nat, size: nat)
    requires NewestFirstOrder(s)
    ensures NewestFirstOrder(Window(s, offset, size))
  {
    var from := if offset < |s| then offset else |s|;
    var w := Window(s, offset, size);
    forall i, j | 0 <= i < j < |w| ensures w[i].createdAt >= w[j].createdAt {
      assert w[i] == s[from + i] && w[j] == s[from + j];
    }
  }

  /** Two adjacent windows of the same size make one window of twice the size. */
  lemma AdjacentWindows<T>(s: seq<T>, offset: nat, size: nat)
    ensures Window(s, offset, size) + Window(s, offset + size, size) == Window(s, offset, 2 * size)
  {
    var a := if offset < |s| then offset else |s|;
    var b := if offset + size < |s| then offset + size else |s|;
    var c := if offset + 2 * size < |s| then offset + 2 * size else |s|;
    assert s[a..b] + s[b..c] == s[a..c];
  }

  /** The page of `uid`'s profiles the store returns for `page` and `size`. */
  function ListPage(rows: seq<DeviceProfile>, uid: Uuid, page: int, size: int): seq<DeviceProfile> {
    var n := EffectiveSize(size);
    Window(NewestFirst(OwnedBy(rows, uid)), Offset(EffectivePage(page), n), n)
  }

  /** `ListDeviceProfiles` as a value: an unparseable user id fails before any query. */
  function ListResult(rows: seq<DeviceProfile>, userId: string, page: int, size: int): Result<seq<DeviceProfile>, Error> {
    match Parse(userId)
    case None => Err(UuidParseError)
    case Some(uid) => Ok(ListPage(rows, uid, page, size))
  }

  /**
   * A page holds at most the effective size, only rows of the owner, newest first, each at most
   * as often as the owner's rows hold it.
   */
  lemma {:induction false} ListPageShape(rows: seq<DeviceProfile>, uid: Uuid, page: int, size: int)
    ensures |ListPage(rows, uid, page, size)| <= EffectiveSize(size) <= MaxPageSize
    ensures forall p | p in ListPage(rows, uid, page, size) :: p in rows && p.userId == uid
    ensures NewestFirstOrder(ListPage(rows, uid, page, size))
    ensures multiset(ListPage(rows, uid, page, size)) <= multiset(OwnedBy(rows, uid))
  {
    var n := EffectiveSize(size);
    var sorted := NewestFirst(OwnedBy(rows, uid));
    var off := Offset(EffectivePage(page), n);
    var w := ListPage(rows, uid, page, size);
    assert w == Window(sorted, off, n);
    NewestFirstSorts(OwnedBy(rows, uid));
    WindowShape(sorted, off, n);
    WindowKeepsOrder(sorted, off, n);
    forall p | p in w ensures p in rows && p.userId == uid {
      assert p in multiset(w);
    }
  }

  /** A page that starts at or past the owner's last profile is empty, whatever the page number. */
  lemma {:induction false} ListPagePastEnd(rows: seq<DeviceProfile>, uid: Uuid, page: int, size: int)
    requires Offset(EffectivePage(page), EffectiveSize(size)) >= |OwnedBy(rows, uid)|
    ensures ListPage(rows, uid, page, size) == []
  {
    var n := EffectiveSize(size);
    NewestFirstSorts(OwnedBy(rows, uid));
    WindowShape(NewestFirst(OwnedBy(rows, uid)), Offset(EffectivePage(page), n), n);
  }

  lemma OffsetNextPage(page: int, size: int)
    requires page >= 1 && size >= 1
    ensures Offset(page + 1, size) == Offset(page, size) + size
  {
    assert page * size == (page - 1) * size + size;
  }

  /** Page `p` followed by page `p + 1` is the window of twice the size starting at page `p`. */
  lemma {:induction false} ConsecutivePages(rows: seq<DeviceProfile>, uid: Uuid, page: int, size: int)
    requires page >= 1 && 1 <= size <= MaxPageSize
    ensures ListPage(rows, uid, page, size) + ListPage(rows, uid, page + 1, size)
      == Window(NewestFirst(OwnedBy(rows, uid)), Offset(page, size), 2 * size)
  {
    var s := NewestFirst(OwnedBy(rows, uid));
    var off := Offset(page, size);
    OffsetNextPage(page, size);
    assert ListPage(rows, uid, page, size) == Window(s, off, size);
    assert ListPage(rows, uid, page + 1, size) == Window(s, off + size, size);
    AdjacentWindows(s, off, size);
  }

  // ---------------------------------------------------------------- offset overflow

  const TwoTo63: int := 0x8000_0000_0000_0000
  const TwoTo64: int := 0x1_0000_0000_0000_0000

  /** The two's-complement wrap of a 64-bit signed multiplication result. */
  function Wrap64(x: int): (r: int)
    ensures Strconv.IsInt64(r)
    ensures (r - x) % TwoTo64 == 0
  {
    var m := x % TwoTo64;
    if m >= TwoTo63 then m - TwoTo64 else m
  }

  /**
   * The offset as the source computes it: `(page - 1) * pageSize` in Go's 64-bit `int`, where
   * the ORM drops an offset that is not positive.
   */
  function OffsetAsWritten(page: int, size: int): (r: nat)
    requires Strconv.IsInt64(page) && page >= 1 && 1 <= size <= MaxPageSize
  {
    var o := Wrap64((page - 1) * size);
    if o > 0 then o else 0
  }

  /** The page the source returns, with the wrapped offset. */
  function ListPageAsWritten(rows: seq<DeviceProfile>, uid: Uuid, page: int, size: int): seq<DeviceProfile>
    requires Strconv.IsInt64(page)
  {
    var n := EffectiveSize(size);
    Window(NewestFirst(OwnedBy(rows, uid)), OffsetAsWritten(EffectivePage(page), n), n)
  }

  /** Below the overflow both offsets agree, so the corrected listing changes no reachable page. */
  lemma OffsetAgreesWithoutOverflow(page: int, size: int)
    requires Strconv.IsInt64(page) && page >= 1 && 1 <= size <= MaxPageSize
    requires (page - 1) * size < TwoTo63
    ensures OffsetAsWritten(page, size) == Offset(page, size)
  {
  }

  /**
   * Page 2^62 + 1 with size 4 skips 2^64 rows, which wraps to 0: a client asking for a page far
   * past the end gets the first page back instead of an empty list.
   */
  lemma {:induction false} OffsetWrapReturnsFirstPage(rows: seq<DeviceProfile>, uid: Uuid)
    requires 1 <= |OwnedBy(rows, uid)| && |rows| <= TwoTo64
    ensures var page := 0x4000_0000_0000_0001;
      && OffsetAsWritten(page, 4) == 0
      && ListPageAsWritten(rows, uid, page, 4) == ListPage(rows, uid, 1, 4)
      && ListPageAsWritten(rows, uid, page, 4) != []
      && ListPage(rows, uid, page, 4) == []
  {
    var page := 0x4000_0000_0000_0001;
    assert (page - 1) * 4 == TwoTo64;
    assert Wrap64(TwoTo64) == 0;
    var s := NewestFirst(OwnedBy(rows, uid));
    NewestFirstSorts(OwnedBy(rows, uid));
    assert ListPageAsWritten(rows, uid, page, 4) == Window(s, 0, 4);
    assert Window(s, 0, 4)[0] == s[0];
    ListPagePastEnd(rows, uid, page, 4);
  }

  // ---------------------------------------------------------------- writes as values

  /** A write's effect: the entity as the caller holds it afterwards, the error, and the new table. */
  datatype Write = Write(saved: DeviceProfile, err: Option<Error>, rows: seq<DeviceProfile>)

  /** An `INSERT`: refused with a unique violation when the id or the `(user_id, name)` key is taken. */
  function Insert(rows: seq<DeviceProfile>, p: DeviceProfile): Write {
    if IdFree(rows, p.id) && KeyFree(rows, UniqueKey(p)) then Write(p, None, rows + [p])
    else Write(p, Some(UniqueViolation), rows)
  }

  /** The row `CreateDeviceProfile` inserts: a zero id is generated, a nil header map becomes `{}`, zero timestamps become now. */
  function Inserted(dp: DeviceProfile, freshId: Uuid, now: Timestamp): (p: DeviceProfile)
    requires freshId != Nil
    ensures p.id != Nil && (dp.id != Nil ==> p.id == dp.id)
    ensures dp.id == Nil ==> p.id == freshId
    ensures dp.customHeaders.Some? ==> p.customHeaders == dp.customHeaders
    ensures dp.customHeaders.None? ==> p.customHeaders == Some(map[])
    ensures dp.createdAt == 0 ==> p.createdAt == now
    ensures dp.createdAt != 0 ==> p.createdAt == dp.createdAt
    ensures dp.updatedAt == 0 ==> p.updatedAt == now
    ensures dp.updatedAt != 0 ==> p.updatedAt == dp.updatedAt
    ensures p == dp.(id := p.id, customHeaders := p.customHeaders, createdAt := p.createdAt, updatedAt := p.updatedAt)
  {
    dp.(id := if dp.id == Nil then freshId else dp.id,
        customHeaders := if dp.customHeaders.None? then Some(map[]) else dp.customHeaders,
        createdAt := if dp.createdAt == 0 then now else dp.createdAt,
        updatedAt := if dp.updatedAt == 0 then now else dp.updatedAt)
  }

  /** `CreateDeviceProfile` on a table; `freshId` is the id the database would generate and `now` its clock. */
  function Create(rows: seq<DeviceProfile>, dp: DeviceProfile, freshId: Uuid, now: Timestamp): Write
    requires freshId != Nil
  {
    Insert(rows, Inserted(dp, freshId, now))
  }

  /**
   * `UpdateDeviceProfile`, the ORM's `Save`: with an id some row has, every column of that row
   * takes the given value (nil and empty ones included) and the update time becomes now. With an
   * id no row has, the failed update has already stamped the update time and `Save` inserts. With
   * a zero id, `Save` is a plain insert, which fills in only zero timestamps.
   */
  function Save(rows: seq<DeviceProfile>, dp: DeviceProfile, freshId: Uuid, now: Timestamp): Write
    requires freshId != Nil
  {
    if dp.id != Nil && !IdFree(rows, dp.id) then
      var s := dp.(updatedAt := now);
      var t := ReplaceById(rows, s);
      if Constraints(t) then Write(s, None, t) else Write(s, Some(UniqueViolation), rows)
    else
      Insert(rows, dp.(id := if dp.id == Nil then freshId else dp.id,
                       createdAt := if dp.createdAt == 0 then now else dp.createdAt,
                       updatedAt := if dp.id == Nil && dp.updatedAt != 0 then dp.updatedAt else now))
  }

  /**
   * `Updates(dp)` on one row: each field the patch sets (non-nil, non-empty, non-zero) replaces
   * the row's, the others stay, and the update time becomes now.
   */
  function Merge(row: DeviceProfile, patch: DeviceProfile, now: Timestamp): DeviceProfile {
    row.(templateId := if patch.templateId.Some? then patch.templateId else row.templateId,
         name := if patch.name != "" then patch.name else row.name,
         deviceType := if patch.deviceType != "" then patch.deviceType else row.deviceType,
         width := if patch.width.Some? then patch.width else row.width,
         height := if patch.height.Some? then patch.height else row.height,
         userAgent := if patch.userAgent.Some? then patch.userAgent else row.userAgent,
         countryCode := if patch.countryCode.Some? then patch.countryCode else row.countryCode,
         customHeaders := if patch.customHeaders.Some? then patch.customHeaders else row.customHeaders,
         createdAt := if patch.createdAt != 0 then patch.createdAt else row.createdAt,
         updatedAt := now)
  }

  /** The row matched by `WHERE id = ? AND user_id = ?`. */
  predicate MatchesIdAndOwner(row: DeviceProfile, patch: DeviceProfile) {
    row.id == patch.id && row.userId == patch.userId
  }

  function SelectiveUpdate(rows: seq<DeviceProfile>, patch: DeviceProfile, now: Timestamp): seq<DeviceProfile> {
    seq(|rows|, i requires 0 <= i < |rows| =>
      if MatchesIdAndOwner(rows[i], patch) then Merge(rows[i], patch, now) else rows[i])
  }

  /** `UpdateDeviceProfileSelective` on a table: refused with a unique violation when the merge clashes. */
  function Patch(rows: seq<DeviceProfile>, patch: DeviceProfile, now: Timestamp): Write {
    var t := SelectiveUpdate(rows, patch, now);
    if Constraints(t) then Write(patch, None, t) else Write(patch, Some(UniqueViolation), rows)
  }

  /** Replaces the row with `p`'s id by `p`. */
  function ReplaceById(rows: seq<DeviceProfile>, p: DeviceProfile): seq<DeviceProfile> {
    seq(|rows|, i requires 0 <= i < |rows| => if rows[i].id == p.id then p else rows[i])
  }

  /** Keeps every row whose id is not `id`, in table order. */
  function WithoutId(rows: seq<DeviceProfile>, id: Uuid): (r: seq<DeviceProfile>)
    ensures forall p :: p in r <==> p in rows && p.id != id
    ensures Constraints(rows) ==> Constraints(r)
  {
    if rows == [] then []
    else
      var rest := WithoutId(rows[1..], id);
      assert rows == [rows[0]] + rows[1..];
      TailConstraints(rows);
      if rows[0].id == id then rest
      else
        ConsConstraints(rows, rest);
        [rows[0]] + rest
  }

  /** `DeleteDeviceProfile` on a table: an id that is not a UUID fails before any query. */
  function Delete(rows: seq<DeviceProfile>, id: string): (Option<Error>, seq<DeviceProfile>) {
    match Parse(id)
    case None => (Some(UuidParseError), rows)
    case Some(pid) => (None, WithoutId(rows, pid))
  }

  lemma TailConstraints(rows: seq<DeviceProfile>)
    requires |rows| >= 1
    ensures Constraints(rows) ==> Constraints(rows[1..])
  {
    if Constraints(rows) {
      forall i, j | 0 <= i < j < |rows| - 1
        ensures rows[1..][i].id != rows[1..][j].id && UniqueKey(rows[1..][i]) != UniqueKey(rows[1..][j])
      {
        assert rows[1..][i] == rows[i + 1] && rows[1..][j] == rows[j + 1];
      }
    }
  }

  /** Putting back the head of a constrained table in front of rows taken from its tail keeps the constraints. */
  lemma ConsConstraints(rows: seq<DeviceProfile>, rest: seq<DeviceProfile>)
    requires |rows| >= 1
    requires forall p | p in rest :: p in rows[1..]
    requires Constraints(rows) ==> Constraints(rest)
    ensures Constraints(rows) ==> Constraints([rows[0]] + rest)
  {
    if Constraints(rows) {
      var t := [rows[0]] + rest;
      forall i, j | 0 <= i < j < |t| ensures t[i].id != t[j].id && UniqueKey(t[i]) != UniqueKey(t[j]) {
        if i == 0 {
          assert t[j] == rest[j - 1] && rest[j - 1] in rest;
          var k :| 0 <= k < |rows[1..]| && rows[1..][k] == t[j];
          assert rows[k + 1] == t[j];
        } else {
          assert t[i] == rest[i - 1] && t[j] == rest[j - 1];
        }
      }
    }
  }

  /** Every stored id is a real (non-nil) UUID. */
  predicate IdsSet(rows: seq<DeviceProfile>) {
    forall i | 0 <= i < |rows| :: rows[i].id != Nil
  }

  // ---------------------------------------------------------------- properties of the writes

  /**
   * An insert succeeds exactly when its id and its `(user_id, name)` are both unused; it then
   * appends the row, and otherwise changes nothing. Either way the constraints still hold.
   */
  lemma {:induction false} InsertKeepsConstraints(rows: seq<DeviceProfile>, p: DeviceProfile)
    requires Constraints(rows) && IdsSet(rows) && p.id != Nil
    ensures Insert(rows, p).err.None? <==> IdFree(rows, p.id) && KeyFree(rows, UniqueKey(p))
    ensures Insert(rows, p).err.None? ==> Insert(rows, p).rows == rows + [p]
    ensures Insert(rows, p).err.Some? ==> Insert(rows, p).rows == rows
    ensures Constraints(Insert(rows, p).rows) && IdsSet(Insert(rows, p).rows)
  {
    AppendConstraints(rows, p);
  }

  /**
   * Creating a profile whose owner already has a profile of that name is a unique violation
   * and leaves the table as it was.
   */
  lemma {:induction false} CreateDuplicateNameFails(rows: seq<DeviceProfile>, dp: DeviceProfile, freshId: Uuid, now: Timestamp, i: nat)
    requires freshId != Nil && i < |rows|
    requires rows[i].userId == dp.userId && rows[i].name == dp.name
    ensures Create(rows, dp, freshId, now).err == Some(AppErr.PgError("ERROR", "duplicate key value violates unique constraint", "23505"))
    ensures Create(rows, dp, freshId, now).rows == rows
  {
    var p := Inserted(dp, freshId, now);
    assert UniqueKey(rows[i]) == UniqueKey(p);
  }

  /**
   * A successful create stores the given profile with only its id, its nil header map and its
   * zero timestamps filled in; a failed one stores nothing.
   */
  lemma {:induction false} CreateStoresProfile(rows: seq<DeviceProfile>, dp: DeviceProfile, freshId: Uuid, now: Timestamp)
    requires Constraints(rows) && IdsSet(rows)
    requires freshId != Nil && IdFree(rows, freshId)
    ensures var w := Create(rows, dp, freshId, now);
      && w.saved == Inserted(dp, freshId, now)
      && (dp.customHeaders.None? ==> w.saved.customHeaders == Some(map[]))
      && w.saved.userId == dp.userId && w.saved.name == dp.name && w.saved.templateId == dp.templateId
      && (w.err.None? <==> (dp.id == Nil || IdFree(rows, dp.id)) && KeyFree(rows, UniqueKey(dp)))
      && (w.err.None? ==> w.rows == rows + [w.saved])
      && (w.err.Some? ==> w.rows == rows)
      && Constraints(w.rows) && IdsSet(w.rows)
  {
    InsertKeepsConstraints(rows, Inserted(dp, freshId, now));
  }

  /**
   * A save with a zero id is the insert a create makes, except that a nil header map stays nil:
   * the generated id, and the clock for each zero timestamp only.
   */
  lemma {:induction false} SaveWithoutIdInserts(rows: seq<DeviceProfile>, dp: DeviceProfile, freshId: Uuid, now: Timestamp)
    requires freshId != Nil && dp.id == Nil
    ensures Save(rows, dp, freshId, now) == Insert(rows, Inserted(dp, freshId, now).(customHeaders := dp.customHeaders))
    ensures dp.updatedAt != 0 ==> Save(rows, dp, freshId, now).saved.updatedAt == dp.updatedAt
  {
    var p := Inserted(dp, freshId, now);
    assert p.(customHeaders := dp.customHeaders) == dp.(id := freshId, createdAt := p.createdAt, updatedAt := p.updatedAt);
  }

  /**
   * A save of an existing id replaces that row whoever owns it: the row takes every field of the
   * given profile, owner included, and every other row is unchanged.
   */
  lemma {:induction false} SaveReplacesWholeRow(rows: seq<DeviceProfile>, dp: DeviceProfile, freshId: Uuid, now: Timestamp, i: nat)
    requires Constraints(rows) && freshId != Nil
    requires i < |rows| && rows[i].id == dp.id && dp.id != Nil
    ensures var w := Save(rows, dp, freshId, now);
      && w.saved == dp.(updatedAt := now)
      && (w.err.None? ==>
            w.rows[i] == w.saved && |w.rows| == |rows| && forall j | 0 <= j < |rows| && j != i :: w.rows[j] == rows[j])
      && (w.err.Some? ==> w.rows == rows)
  {
    var w := Save(rows, dp, freshId, now);
    assert !IdFree(rows, dp.id);
    if w.err.None? {
      forall j | 0 <= j < |rows| && j != i ensures w.rows[j] == rows[j] {
        assert rows[j].id != rows[i].id;
      }
    }
  }

  /** A full save keeps the table's constraints and leaves no row with a nil id. */
  lemma {:induction false} SaveKeepsConstraints(rows: seq<DeviceProfile>, dp: DeviceProfile, freshId: Uuid, now: Timestamp)
    requires Constraints(rows) && IdsSet(rows)
    requires freshId != Nil && IdFree(rows, freshId)
    ensures Constraints(Save(rows, dp, freshId, now).rows) && IdsSet(Save(rows, dp, freshId, now).rows)
  {
    if dp.id != Nil && !IdFree(rows, dp.id) {
      var t := ReplaceById(rows, dp.(updatedAt := now));
      assert IdsSet(t) by {
        forall i | 0 <= i < |t| ensures t[i].id != Nil {
          assert t[i] == rows[i] || t[i].id == dp.id;
        }
      }
    } else {
      InsertKeepsConstraints(rows, dp.(id := if dp.id == Nil then freshId else dp.id,
                                       createdAt := if dp.createdAt == 0 then now else dp.createdAt,
                                       updatedAt := if dp.id == Nil && dp.updatedAt != 0 then dp.updatedAt else now));
    }
  }

  /** A selective update keeps the table's constraints and leaves no row with a nil id. */
  lemma {:induction false} PatchKeepsConstraints(rows: seq<DeviceProfile>, patch: DeviceProfile, now: Timestamp)
    requires Constraints(rows) && IdsSet(rows)
    ensures Constraints(Patch(rows, patch, now).rows) && IdsSet(Patch(rows, patch, now).rows)
  {
    var s := SelectiveUpdate(rows, patch, now);
    assert IdsSet(s) by {
      forall i | 0 <= i < |s| ensures s[i].id != Nil {
        assert s[i].id == rows[i].id;
      }
    }
  }

  /** A delete keeps the table's constraints and leaves no row with a nil id. */
  lemma {:induction false} DeleteKeepsConstraints(rows: seq<DeviceProfile>, id: string)
    requires Constraints(rows) && IdsSet(rows)
    ensures Constraints(Delete(rows, id).1) && IdsSet(Delete(rows, id).1)
  {
    match Parse(id)
    case None =>
    case Some(pid) =>
      var r := WithoutId(rows, pid);
      forall i | 0 <= i < |r| ensures r[i].id != Nil {
        assert r[i] in r;
        var k :| 0 <= k < |rows| && rows[k] == r[i];
      }
  }

  /** The selective update changes no id and no owner, and only the row matching both. */
  lemma {:induction false} PatchTouchesOnlyMatch(rows: seq<DeviceProfile>, patch: DeviceProfile, now: Timestamp)
    ensures |Patch(rows, patch, now).rows| == |rows|
    ensures forall i | 0 <= i < |rows| ::
      && Patch(rows, patch, now).rows[i].id == rows[i].id
      && Patch(rows, patch, now).rows[i].userId == rows[i].userId
      && (!MatchesIdAndOwner(rows[i], patch) ==> Patch(rows, patch, now).rows[i] == rows[i])
  {
    var s := SelectiveUpdate(rows, patch, now);
    assert forall i | 0 <= i < |rows| :: s[i].id == rows[i].id && s[i].userId == rows[i].userId;
  }

  /** Merging the same patch twice at the same time is the same as merging it once. */
  lemma MergeIdempotent(row: DeviceProfile, patch: DeviceProfile, now: Timestamp)
    ensures Merge(Merge(row, patch, now), patch, now) == Merge(row, patch, now)
  {
  }

  /** A patch that sets nothing leaves the row as it was apart from the update time. */
  lemma MergeEmptyPatch(row: DeviceProfile, patch: DeviceProfile, now: Timestamp)
    requires patch.templateId.None? && patch.name == "" && patch.deviceType == ""
    requires patch.width.None? && patch.height.None? && patch.userAgent.None?
    requires patch.countryCode.None? && patch.customHeaders.None? && patch.createdAt == 0
    ensures Merge(row, patch, now) == row.(updatedAt := now)
  {
  }

  /** After a delete no row has the id, every other row is still there, and an unknown id is no error. */
  lemma {:induction false} DeleteRemovesOnlyThatId(rows: seq<DeviceProfile>, id: string)
    requires Parse(id).Some?
    ensures Delete(rows, id).0.None?
    ensures IdFree(Delete(rows, id).1, Parse(id).value)
    ensures forall p | p in rows && p.id != Parse(id).value :: p in Delete(rows, id).1
    ensures IdFree(rows, Parse(id).value) ==> multiset(Delete(rows, id).1) == multiset(rows)
  {
    var pid := Parse(id).value;
    var r := WithoutId(rows, pid);
    forall i | 0 <= i < |r| ensures r[i].id != pid {
      assert r[i] in r;
    }
    if IdFree(rows, pid) {
      WithoutAbsentId(rows, pid);
    }
  }

  lemma {:induction false} WithoutAbsentId(rows: seq<DeviceProfile>, id: Uuid)
    requires IdFree(rows, id)
    ensures WithoutId(rows, id) == rows
  {
    if rows != [] {
      assert IdFree(rows[1..], id) by {
        forall i | 0 <= i < |rows| - 1 ensures rows[1..][i].id != id {
          assert rows[1..][i] == rows[i + 1];
        }
      }
      WithoutAbsentId(rows[1..], id);
      assert rows == [rows[0]] + rows[1..];
    }
  }

  // ---------------------------------------------------------------- the store

  class ProfileStore {
    /** The `device_profile` table, in insertion order. */
    var rows: seq<DeviceProfile>

    /** The database's constraints hold, and every stored id is a real (non-nil) UUID. */
    predicate Valid()
      reads this
    {
      Constraints(rows) && IdsSet(rows)
    }

    constructor()
      ensures rows == [] && Valid()
    {
      rows := [];
    }

    /**
     * `ListDeviceProfiles`: the owner's profiles, newest first, one page of them. A page number
     * below 1 means the first page; a size of 0 or less means 20 and one above 100 means 100.
     */
    method ListDeviceProfiles(userId: string, page: int, pageSize: int) returns (r: Result<seq<DeviceProfile>, Error>)
      ensures r == ListResult(rows, userId, page, pageSize)
      ensures r.Ok? ==> |r.value| <= MaxPageSize
      ensures r.Ok? ==> forall p | p in r.value :: p in rows && p.userId == Parse(userId).value
    {
      var parsed := Parse(userId);
      if parsed.None? {
        return Err(UuidParseError);
      }
      var uid := parsed.value;
      var p := page;
      var n := pageSize;
      if p < 1 {
        p := 1;
      }
      if n <= 0 {
        n := DefaultPageSize;
      }
      if n > MaxPageSize {
        n := MaxPageSize;
      }
      var offset := (p - 1) * n;
      assert p == EffectivePage(page) && n == EffectiveSize(pageSize);
      assert offset == Offset(p, n);
      r := Ok(Window(NewestFirst(OwnedBy(rows, uid)), offset, n));
      assert r.value == ListPage(rows, uid, page, pageSize);
      ListPageShape(rows, uid, page, pageSize);
    }

    /**
     * `CreateDeviceProfile`: fills in the defaults and inserts. `freshId` is the id the
     * database would generate, and `now` its clock.
     */
    method CreateDeviceProfile(dp: DeviceProfile, freshId: Uuid, now: Timestamp) returns (saved: DeviceProfile, err: Option<Error>)
      requires Valid()
      requires freshId != Nil && IdFree(rows, freshId)
      modifies this
      ensures Valid()
      ensures Write(saved, err, rows) == Create(old(rows), dp, freshId, now)
    {
      var p := dp;
      if p.customHeaders.None? {
        p := p.(customHeaders := Some(map[]));
      }
      saved := p.(id := if p.id == Nil then freshId else p.id,
                  createdAt := if p.createdAt == 0 then now else p.createdAt,
                  updatedAt := if p.updatedAt == 0 then now else p.updatedAt);
      InsertKeepsConstraints(rows, saved);
      if IdFree(rows, saved.id) && KeyFree(rows, UniqueKey(saved)) {
        rows := rows + [saved];
        err := None;
      } else {
        err := Some(UniqueViolation);
      }
    }

    /** `UpdateDeviceProfileSelective`: merges the patch into the row with the patch's id and owner. */
    method UpdateDeviceProfileSelective(patch: DeviceProfile, now: Timestamp) returns (err: Option<Error>)
      requires Valid()
      modifies this
      ensures Valid()
      ensures err == Patch(old(rows), patch, now).err && rows == Patch(old(rows), patch, now).rows
    {
      PatchKeepsConstraints(rows, patch, now);
      var candidate := SelectiveUpdate(rows, patch, now);
      if Constraints(candidate) {
        rows := candidate;
        err := None;
      } else {
        err := Some(UniqueViolation);
      }
    }

    /**
     * `GetDeviceProfileByID`: the row with that id, whoever owns it. Text that is not a UUID is
     * refused by the database; an id no row has is the ORM's record-not-found.
     */
    method GetDeviceProfileByID(id: string) returns (r: Result<DeviceProfile, Error>)
      ensures Parse(id).None? ==> r == Err(InvalidUuidText)
      ensures Parse(id).Some? ==> (r.Ok? <==> !IdFree(rows, Parse(id).value))
      ensures Parse(id).Some? && r.Err? ==> r.error == RecordNotFound
      ensures r.Ok? ==> r.value in rows && r.value.id == Parse(id).value
    {
      var parsed := Parse(id);
      if parsed.None? {
        return Err(InvalidUuidText);
      }
      var k := IndexOfId(rows, parsed.value);
      if k.None? {
        return Err(RecordNotFound);
      }
      r := Ok(rows[k.value]);
    }

    /** `UpdateDeviceProfile`: the ORM's `Save` (see `Save`). */
    method UpdateDeviceProfile(dp: DeviceProfile, freshId: Uuid, now: Timestamp) returns (saved: DeviceProfile, err: Option<Error>)
      requires Valid()
      requires freshId != Nil && IdFree(rows, freshId)
      modifies this
      ensures Valid()
      ensures Write(saved, err, rows) == Save(old(rows), dp, freshId, now)
    {
      SaveKeepsConstraints(rows, dp, freshId, now);
      if dp.id != Nil && !IdFree(rows, dp.id) {
        saved := dp.(updatedAt := now);
        var candidate := ReplaceById(rows, saved);
        if Constraints(candidate) {
          rows := candidate;
          err := None;
        } else {
          err := Some(UniqueViolation);
        }
      } else {
        saved := dp.(id := if dp.id == Nil then freshId else dp.id,
                     createdAt := if dp.createdAt == 0 then now else dp.createdAt,
                     updatedAt := if dp.id == Nil && dp.updatedAt != 0 then dp.updatedAt else now);
        if IdFree(rows, saved.id) && KeyFree(rows, UniqueKey(saved)) {
          rows := rows + [saved];
          err := None;
        } else {
          err := Some(UniqueViolation);
        }
      }
    }

    /** `DeleteDeviceProfile`: removes the row with that id, whoever owns it. */
    method DeleteDeviceProfile(id: string) returns (err: Option<Error>)
      requires Valid()
      modifies this
      ensures Valid()
      ensures (err, rows) == Delete(old(rows), id)
    {
      DeleteKeepsConstraints(rows, id);
      var parsed := Parse(id);
      if parsed.None? {
        return Some(UuidParseError);
      }
      rows := WithoutId(rows, parsed.value);
      err := None;
    }
  }
}
