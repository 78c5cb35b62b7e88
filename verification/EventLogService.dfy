/**
 * The log service object over its table. The insert and the ordered, limited query are what the
 * database does for it; numbers come from a sequence, one for each attempted insert.
 */
module EventLogService {
  import opened EventLog

  /** A falling enumeration splits at any number. */
  lemma SplitDescending(s: set<nat>, above: seq<nat>, n: nat)
    requires Falling(above) && SameItems(above, set k | k in s && n <= k)
    ensures Descending(s) == above + Descending(set k | k in s && k < n)
  {
    var low := set k | k in s && k < n;
    DescendingIsSorted(low);
    var joined := above + Descending(low);
    forall i, j | 0 <= i < j < |joined| ensures joined[i] > joined[j] {
      if i < |above| <= j {
        assert above[i] in above && Descending(low)[j - |above|] in Descending(low);
      }
    }
    FallingIsUnique(joined, s);
  }

  class Service {
    var rows: map<nat, Event>
    var nextSeq: nat

    ghost predicate Valid()
      reads this
    {
      forall n | n in rows :: n < nextSeq
    }

    constructor ()
      ensures Valid() && rows == map[]
    {
      rows, nextSeq := map[], 1;
    }

    method RecordIfAudited(event: Event)
      requires Valid()
      modifies this
      ensures Valid() && rows == Record(old(rows), old(nextSeq), event)
      ensures old(nextSeq) <= nextSeq
    {
      if !IsAudited(event.eventType) {
        return;
      }
      InsertOrIgnore(event);
    }

    method InsertOrIgnore(event: Event)
      requires Valid()
      modifies this
      ensures Valid() && nextSeq == old(nextSeq) + 1
      ensures rows == if Holds(old(rows), event.eventId) then old(rows) else old(rows)[old(nextSeq) := event]
    {
      var number := nextSeq;
      nextSeq := nextSeq + 1;
      var left := rows.Keys;
      while left != {}
        invariant rows == old(rows) && nextSeq == number + 1 && left <= rows.Keys
        invariant forall n | n in rows && n !in left :: rows[n].eventId != event.eventId
        decreases |left|
      {
        var n :| n in left;
        left := left - {n};
        if rows[n].eventId == event.eventId {
          return;
        }
      }
      rows := rows[number := event];
    }

    /** The newest rows, at most so many. */
    method GetMany(q: Query, before: Option<nat>, take: nat) returns (found: seq<nat>)
      requires Valid()
      ensures var all := Descending(Selected(rows, q, before));
        found == if |all| > take then all[..take] else all
    {
      var n: nat := nextSeq;
      found := [];
      ghost var s := Selected(rows, q, before);
      while n > 0 && |found| < take
        invariant n <= nextSeq && |found| <= take
        invariant Falling(found) && SameItems(found, set k | k in s && n <= k)
        decreases n
      {
        n := n - 1;
        if n in rows && Matches(q, rows[n]) && (before.None? || n < before.value) {
          assert forall i | 0 <= i < |found| :: found[i] in found;
          found := found + [n];
        }
      }
      SplitDescending(s, found, n);
      ghost var all, low := Descending(s), set k | k in s && k < n;
      assert n == 0 ==> low == {};
      assert all[..|found|] == found;
    }

    method FindPage(q: Query, limit: nat, before: Option<nat>) returns (page: Page)
      requires Valid() && limit >= 1
      ensures page == Find(rows, q, limit, before)
    {
      var found := GetMany(q, before, limit + 1);
      var hasMore := |found| > limit;
      var items := if hasMore then found[..limit] else found;
      page := Page(items, if hasMore then Some(items[|items| - 1]) else None);
    }
  }
}
