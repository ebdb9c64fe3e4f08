/// The append-only audit trail and paging backwards through it by cursor.
module AuditPaging {
  import opened Protocol

  datatype AuditRecord = AuditRecord(id: nat, at: int, actorKind: string, action: string, targetId: Option<Id>)

  const MAX_AUDIT_PAGE: nat := 500

  /// The page size a query really gets.
  function Clamp(limit: nat): nat {
    if limit < 1 then 1 else if limit > MAX_AUDIT_PAGE then MAX_AUDIT_PAGE else limit
  }

  predicate Matches(row: AuditRecord, before: Option<nat>, target: Option<Id>) {
    && (before.None? || row.id < before.value)
    && (target.None? || row.targetId == target)
  }

  /// The newest matching rows, newest first, at most `limit` of them.
  function Newest(rows: seq<AuditRecord>, before: Option<nat>, target: Option<Id>, limit: nat): seq<AuditRecord> {
    if rows == [] || limit == 0 then []
    else
      var front, last := rows[..|rows| - 1], rows[|rows| - 1];
      if Matches(last, before, target)
      then [last] + Newest(front, before, target, limit - 1)
      else Newest(front, before, target, limit)
  }

  function ListAudit(rows: seq<AuditRecord>, limit: nat, before: Option<nat>, target: Option<Id>): seq<AuditRecord> {
    Newest(rows, before, target, Clamp(limit))
  }

  /// Rows are numbered in the order they were written.
  ghost predicate Ascending(rows: seq<AuditRecord>) {
    forall i, j :: 0 <= i < j < |rows| ==> rows[i].id < rows[j].id
  }

  ghost predicate Descending(rows: seq<AuditRecord>) {
    forall i, j :: 0 <= i < j < |rows| ==> rows[i].id > rows[j].id
  }

  /// Older than the cursor, if there is one, and about the target, if one was named.
  ghost predicate IsAskedFor(row: AuditRecord, before: Option<nat>, target: Option<Id>) {
    && (match before
        case None => true
        case Some(cursor) => row.id < cursor)
    && (match target
        case None => true
        case Some(id) => row.targetId == Some(id))
  }

  ghost function PageSize(limit: nat): nat {
    if limit == 0 then 1 else if limit <= 500 then limit else 500
  }

  class AuditLog {
    var rows: seq<AuditRecord>
    var nextId: nat

    ghost predicate Valid()
      reads this
    {
      Ascending(rows) && forall i :: 0 <= i < |rows| ==> rows[i].id < nextId
    }

    constructor ()
      ensures Valid() && rows == []
    {
      rows, nextId := [], 1;
    }

    /// Appends one event under the next number; nothing is ever changed or removed.
    method WriteAudit(at: int, actorKind: string, action: string, targetId: Option<Id>)
      requires Valid()
      modifies this
      ensures Valid() && rows == old(rows) + [AuditRecord(old(nextId), at, actorKind, action, targetId)]
      ensures forall i :: 0 <= i < |old(rows)| ==> old(rows)[i].id < old(nextId)
    {
      rows := rows + [AuditRecord(nextId, at, actorKind, action, targetId)];
      nextId := nextId + 1;
    }

    /// A page is in descending order. With a cursor it holds older events only, and with a target only
    /// events of exactly that target; an event that meets both conditions is missing from it only if the
    /// page is full of newer ones. A size is taken to be at least 1 and at most 500.
    function List(limit: nat, before: Option<nat>, target: Option<Id>): (page: seq<AuditRecord>)
      requires Valid()
      reads this
      ensures Descending(page) && |page| <= PageSize(limit)
      ensures forall row :: row in page ==> row in rows && IsAskedFor(row, before, target)
      ensures forall row :: row in rows && IsAskedFor(row, before, target) && row !in page ==>
                |page| == PageSize(limit) && forall listed :: listed in page ==> listed.id > row.id
    {
      PageIsNewest(rows, before, target, Clamp(limit));
      ListAudit(rows, limit, before, target)
    }
  }

  lemma NewerFirst(row: AuditRecord, rest: seq<AuditRecord>)
    requires Descending(rest) && forall r :: r in rest ==> r.id < row.id
    ensures Descending([row] + rest)
  {
    forall i, j | 0 <= i < j < |[row] + rest|
      ensures ([row] + rest)[i].id > ([row] + rest)[j].id
    {
      assert ([row] + rest)[j] == rest[j - 1] && rest[j - 1] in rest;
    }
  }

  // ---------- everything older than a cursor ----------

  /// Every matching row older than the cursor, newest first.
  function Older(rows: seq<AuditRecord>, before: Option<nat>, target: Option<Id>): seq<AuditRecord> {
    if rows == [] then []
    else
      var front, last := rows[..|rows| - 1], rows[|rows| - 1];
      if Matches(last, before, target) then [last] + Older(front, before, target) else Older(front, before, target)
  }

  /// It is every matching row exactly once, in descending order.
  lemma {:induction false} OlderIsExact(rows: seq<AuditRecord>, before: Option<nat>, target: Option<Id>)
    requires Ascending(rows)
    ensures var older := Older(rows, before, target);
            && Descending(older)
            && (forall row :: row in older <==> row in rows && IsAskedFor(row, before, target))
  {
    if rows != [] {
      var front, last := rows[..|rows| - 1], rows[|rows| - 1];
      assert rows == front + [last];
      OlderIsExact(front, before, target);
      NewerFirst(last, Older(front, before, target));
    }
  }

  lemma {:induction false} NewestIsPrefix(rows: seq<AuditRecord>, before: Option<nat>, target: Option<Id>, limit: nat)
    ensures var older := Older(rows, before, target);
            Newest(rows, before, target, limit) == if |older| < limit then older else older[..limit]
    decreases |rows|
  {
    if rows != [] && limit > 0 {
      var front, last := rows[..|rows| - 1], rows[|rows| - 1];
      var rest := Older(front, before, target);
      if Matches(last, before, target) {
        NewestIsPrefix(front, before, target, limit - 1);
        assert |rest| >= limit - 1 ==> ([last] + rest)[..limit] == [last] + rest[..limit - 1];
      } else {
        NewestIsPrefix(front, before, target, limit);
      }
    }
  }

  lemma FrontIsNewer(older: seq<AuditRecord>, page: seq<AuditRecord>, listed: AuditRecord, row: AuditRecord)
    requires Descending(older) && page <= older
    requires listed in page && row in older && row !in page
    ensures listed.id > row.id
  {
    var i :| 0 <= i < |page| && page[i] == listed;
    var j :| 0 <= j < |older| && older[j] == row;
    assert page == older[..|page|];
    if j < |page| {
      assert false;
    }
  }

  lemma PageIsNewest(rows: seq<AuditRecord>, before: Option<nat>, target: Option<Id>, limit: nat)
    requires Ascending(rows)
    ensures var page := Newest(rows, before, target, limit);
            && |page| <= limit && Descending(page)
            && (forall row :: row in page ==> row in rows && IsAskedFor(row, before, target))
            && (forall row :: row in rows && IsAskedFor(row, before, target) && row !in page ==>
                  |page| == limit && forall listed :: listed in page ==> listed.id > row.id)
  {
    var page, older := Newest(rows, before, target, limit), Older(rows, before, target);
    NewestIsPrefix(rows, before, target, limit);
    OlderIsExact(rows, before, target);
    assert forall i :: 0 <= i < |page| ==> page[i] == older[i];
    forall row, listed | row in older && row !in page && listed in page
      ensures listed.id > row.id
    {
      FrontIsNewer(older, page, listed, row);
    }
    if |page| == |older| {
      assert page == older;
    }
  }

  /// Cursors that lie past every row make no difference.
  lemma {:induction false} CursorPastAll(rows: seq<AuditRecord>, cursor: nat, before: Option<nat>, target: Option<Id>)
    requires forall i :: 0 <= i < |rows| ==> rows[i].id < cursor && (before.Some? ==> rows[i].id < before.value)
    ensures Older(rows, Some(cursor), target) == Older(rows, before, target)
  {
    if rows != [] {
      CursorPastAll(rows[..|rows| - 1], cursor, before, target);
    }
  }

  /// Moving the cursor to a row of the list leaves exactly what follows that row.
  lemma {:induction false} CursorCuts(rows: seq<AuditRecord>, before: Option<nat>, target: Option<Id>, k: nat)
    requires Ascending(rows) && k < |Older(rows, before, target)|
    ensures Older(rows, Some(Older(rows, before, target)[k].id), target) == Older(rows, before, target)[k + 1..]
  {
    var front, last := rows[..|rows| - 1], rows[|rows| - 1];
    if !Matches(last, before, target) {
      CursorCuts(front, before, target, k);
      LastIsNewer(rows, before, target, k);
    } else if k == 0 {
      CursorPastAll(front, last.id, before, target);
    } else {
      CursorCuts(front, before, target, k - 1);
      LastIsNewer(rows, before, target, k - 1);
      TailOfLonger(last, Older(front, before, target), k);
    }
  }

  lemma TailOfLonger(last: AuditRecord, older: seq<AuditRecord>, k: nat)
    requires 0 < k <= |older|
    ensures ([last] + older)[k] == older[k - 1] && ([last] + older)[k + 1..] == older[k..]
  {}

  /// The last row is newer than whatever the rows before it put on the list.
  lemma LastIsNewer(rows: seq<AuditRecord>, before: Option<nat>, target: Option<Id>, k: nat)
    requires Ascending(rows) && rows != [] && k < |Older(rows[..|rows| - 1], before, target)|
    ensures rows[|rows| - 1].id > Older(rows[..|rows| - 1], before, target)[k].id
  {
    var front := rows[..|rows| - 1];
    OlderIsExact(front, before, target);
    assert Older(front, before, target)[k] in front;
  }

  /// Events written after the cursor's row do not show up behind the cursor.
  lemma {:induction false} AppendsStayAhead(rows: seq<AuditRecord>, later: seq<AuditRecord>, cursor: nat,
                                            target: Option<Id>)
    requires rows <= later && Ascending(later)
    requires rows != [] && cursor <= rows[|rows| - 1].id
    ensures Older(later, Some(cursor), target) == Older(rows, Some(cursor), target)
    decreases |later|
  {
    if |later| == |rows| {
      assert later == rows;
    } else {
      AppendsStayAhead(rows, later[..|later| - 1], cursor, target);
    }
  }

  // ---------- paging while the log grows ----------

  /// Reads page after page, each from the log as it is at that moment, moving the cursor to the last
  /// event read, for as long as a page is as long as it was asked to be.
  function Pages(logs: seq<seq<AuditRecord>>, limit: nat, before: Option<nat>, target: Option<Id>): seq<AuditRecord>
    decreases |logs|
  {
    if logs == [] then []
    else
      var page := ListAudit(logs[0], limit, before, target);
      if page == [] || |page| != limit then page
      else page + Pages(logs[1..], limit, Some(page[|page| - 1].id), target)
  }

  /// The log at successive moments: only ever appended to.
  ghost predicate Grows(logs: seq<seq<AuditRecord>>) {
    && (forall i :: 0 <= i < |logs| ==> Ascending(logs[i]))
    && (forall i, j :: 0 <= i <= j < |logs| ==> logs[i] <= logs[j])
  }

  /// A page is the front of what is older than the cursor, also when events were written meanwhile.
  lemma PageIsFront(first: seq<AuditRecord>, log: seq<AuditRecord>, limit: nat, before: Option<nat>, target: Option<Id>)
    requires Ascending(log) && first <= log
    requires if before.None? then first == log else first != [] && before.value <= first[|first| - 1].id
    ensures var size, older := Clamp(limit), Older(first, before, target);
            ListAudit(log, limit, before, target) == if |older| < size then older else older[..size]
  {
    if before.Some? {
      AppendsStayAhead(first, log, before.value, target);
    }
    NewestIsPrefix(log, before, target, Clamp(limit));
  }

  /// The cursor a full page ends with, and what is left behind it.
  lemma CursorOfPage(first: seq<AuditRecord>, before: Option<nat>, target: Option<Id>, size: nat)
    requires Ascending(first) && 0 < size <= |Older(first, before, target)|
    ensures var older := Older(first, before, target);
            && first != [] && older[size - 1].id <= first[|first| - 1].id
            && Older(first, Some(older[size - 1].id), target) == older[size..]
  {
    var older := Older(first, before, target);
    OlderIsExact(first, before, target);
    assert older[size - 1] in older;
    CursorCuts(first, before, target, size - 1);
  }

  /// How many pages of one size it takes to read `total` events: the last one comes back short.
  function PagesFor(total: nat, size: nat): nat
    requires size > 0
  {
    if total < size then 1 else 1 + PagesFor(total - size, size)
  }

  lemma GrowsOn(logs: seq<seq<AuditRecord>>)
    requires Grows(logs) && |logs| > 1
    ensures Grows(logs[1..]) && logs[0] <= logs[1]
  {}

  /// The front of a list and, if that is a full page, what follows make up the list.
  lemma PageThenRest(logs: seq<seq<AuditRecord>>, limit: nat, before: Option<nat>, target: Option<Id>,
                     older: seq<AuditRecord>)
    requires logs != [] && 0 < limit == Clamp(limit)
    requires ListAudit(logs[0], limit, before, target) == if |older| < limit then older else older[..limit]
    requires |older| >= limit ==>
               Pages(logs[1..], limit, Some(older[limit - 1].id), target) == older[limit..]
    ensures Pages(logs, limit, before, target) == older
  {
    if |older| >= limit {
      assert older[..limit][limit - 1] == older[limit - 1];
      assert older[..limit] + older[limit..] == older;
    }
  }

  lemma {:induction false} PagesFrom(first: seq<AuditRecord>, logs: seq<seq<AuditRecord>>, limit: nat,
                                     before: Option<nat>, target: Option<Id>)
    requires Grows(logs) && logs != [] && first <= logs[0] && 0 < limit <= MAX_AUDIT_PAGE
    requires if before.None? then first == logs[0] else first != [] && before.value <= first[|first| - 1].id
    requires PagesFor(|Older(first, before, target)|, limit) <= |logs|
    ensures Pages(logs, limit, before, target) == Older(first, before, target)
    decreases |logs|
  {
    var older := Older(first, before, target);
    PageIsFront(first, logs[0], limit, before, target);
    if |older| >= limit {
      CursorOfPage(first, before, target, limit);
      GrowsOn(logs);
      PagesFrom(first, logs[1..], limit, Some(older[limit - 1].id), target);
    }
    PageThenRest(logs, limit, before, target, older);
  }

  /// A size the query does not grant stops the reading after one page.
  lemma UngrantedSizeStops(logs: seq<seq<AuditRecord>>, limit: nat, target: Option<Id>)
    requires Grows(logs) && logs != [] && Clamp(limit) != limit
    ensures var size, older := Clamp(limit), Older(logs[0], None, target);
            Pages(logs, limit, None, target) == if |older| < size then older else older[..size]
  {
    PageIsFront(logs[0], logs[0], limit, None, target);
  }

  lemma FrontMissesTheRest(older: seq<AuditRecord>, size: nat)
    requires Descending(older) && size < |older|
    ensures older[size] !in older[..size]
  {}

  ghost predicate ReadsExactly(read: seq<AuditRecord>, rows: seq<AuditRecord>, target: Option<Id>) {
    forall row :: row in read <==> row in rows && (target.Some? ==> row.targetId == target)
  }

  /// Paging with the last id as the cursor comes to its end after `PagesFor` pages, in descending order,
  /// whatever is written between pages. It yields every matching event that existed at the first page,
  /// exactly once and nothing else, if and only if the size asked for is one the query grants or all
  /// of them fit into the one page it gives.
  lemma PagingIsCompleteIff(logs: seq<seq<AuditRecord>>, limit: nat, target: Option<Id>)
    requires Grows(logs) && logs != []
    requires PagesFor(|Older(logs[0], None, target)|, PageSize(limit)) <= |logs|
    ensures Descending(Pages(logs, limit, None, target))
    ensures ReadsExactly(Pages(logs, limit, None, target), logs[0], target)
            <==> 0 < limit <= 500 || |Older(logs[0], None, target)| <= PageSize(limit)
  {
    var size, older := Clamp(limit), Older(logs[0], None, target);
    OlderIsExact(logs[0], None, target);
    if 0 < limit <= MAX_AUDIT_PAGE {
      PagesFrom(logs[0], logs, limit, None, target);
    } else {
      UngrantedSizeStops(logs, limit, target);
      if |older| > size {
        FrontMissesTheRest(older, size);
        assert older[size] in older;
      } else {
        assert older[..|older|] == older;
      }
    }
  }
}
