/** The deadline index of a socket's acknowledgement worker: a map from ack id to
    deadline together with an ordered set of (deadline, id) pairs, both changed under
    one lock.  The ordered set is modelled by the strictly increasing sequence of its
    elements, so that its `begin()` is position 0. */
module AckScheduler {
  type Time = int

  datatype Entry = Entry(deadline: Time, id: int)

  /** The lexicographic order of `std::pair<time_point, int>`. */
  predicate Less(a: Entry, b: Entry) {
    a.deadline < b.deadline || (a.deadline == b.deadline && a.id < b.id)
  }

  predicate Sorted(s: seq<Entry>) {
    forall i, j :: 0 <= i < j < |s| ==> Less(s[i], s[j])
  }

  predicate SamePairs(ordered: seq<Entry>, deadlines: map<int, Time>) {
    && (forall e :: e in ordered ==> e.id in deadlines && deadlines[e.id] == e.deadline)
    && (forall id :: id in deadlines ==> Entry(deadlines[id], id) in ordered)
  }

  /** `id` is the entry a linear search of the plain map would choose. */
  predicate IsLeast(deadlines: map<int, Time>, id: int) {
    && id in deadlines
    && forall k :: k in deadlines ==> !Less(Entry(deadlines[k], k), Entry(deadlines[id], id))
  }

  /** Position of the first element that is not below `e`. */
  function LowerBound(s: seq<Entry>, e: Entry): (n: nat)
    ensures n <= |s|
    ensures forall i :: 0 <= i < n ==> Less(s[i], e)
    ensures n < |s| ==> !Less(s[n], e)
  {
    if s == [] || !Less(s[0], e) then 0 else 1 + LowerBound(s[1..], e)
  }

  function Insert(s: seq<Entry>, e: Entry): seq<Entry> {
    var n := LowerBound(s, e);
    if n < |s| && s[n] == e then s else s[..n] + [e] + s[n..]
  }

  function Erase(s: seq<Entry>, e: Entry): seq<Entry> {
    var n := LowerBound(s, e);
    if n < |s| && s[n] == e then s[..n] + s[n + 1..] else s
  }

  /** Splitting a sorted sequence at the lower bound: smaller elements, then larger ones. */
  lemma AboveLowerBound(s: seq<Entry>, e: Entry)
    requires Sorted(s)
    ensures
      var n := LowerBound(s, e);
      forall j :: n <= j < |s| && s[j] != e ==> Less(e, s[j])
  {
    var n := LowerBound(s, e);
    forall j | n <= j < |s| && s[j] != e
      ensures Less(e, s[j])
    {
      if n < j {
        assert Less(s[n], s[j]);
      }
    }
  }

  lemma InsertMembers(s: seq<Entry>, e: Entry, x: Entry)
    ensures x in Insert(s, e) <==> x in s || x == e
  {
    var n := LowerBound(s, e);
    assert s == s[..n] + s[n..];
    assert x in s <==> x in s[..n] || x in s[n..];
  }

  lemma InsertSorted(s: seq<Entry>, e: Entry)
    requires Sorted(s)
    ensures Sorted(Insert(s, e))
  {
    AboveLowerBound(s, e);
    var n := LowerBound(s, e);
    if !(n < |s| && s[n] == e) {
      var r := Insert(s, e);
      forall i, j | 0 <= i < j < |r|
        ensures Less(r[i], r[j])
      {
        assert r[i] == if i < n then s[i] else if i == n then e else s[i - 1];
        assert r[j] == if j < n then s[j] else if j == n then e else s[j - 1];
      }
    }
  }

  lemma InsertCorrect(s: seq<Entry>, e: Entry)
    requires Sorted(s)
    ensures Sorted(Insert(s, e))
    ensures forall x :: x in Insert(s, e) <==> x in s || x == e
  {
    InsertSorted(s, e);
    forall x
      ensures x in Insert(s, e) <==> x in s || x == e
    {
      InsertMembers(s, e, x);
    }
  }

  lemma LessStrict(a: Entry, b: Entry, c: Entry)
    ensures !Less(a, a)
    ensures Less(a, b) && Less(b, c) ==> Less(a, c)
    ensures Less(a, b) || Less(b, a) || a == b
  {
  }

  /** In a sorted sequence `e` can only be at its lower bound. */
  lemma OnlyAtLowerBound(s: seq<Entry>, e: Entry, i: nat)
    requires Sorted(s) && i < |s| && i != LowerBound(s, e)
    ensures s[i] != e
  {
    hide Less;
    var n := LowerBound(s, e);
    LessStrict(e, e, e);
    if i > n {
      LessStrict(s[n], e, s[i]);
      LessStrict(e, s[n], s[i]);
    }
  }

  lemma EraseMembers(s: seq<Entry>, e: Entry, x: Entry)
    requires Sorted(s)
    ensures x in Erase(s, e) <==> x in s && x != e
  {
    hide Less, Sorted;
    var n := LowerBound(s, e);
    forall i | 0 <= i < |s| && i != n
      ensures s[i] != e
    {
      OnlyAtLowerBound(s, e, i);
    }
    if n < |s| && s[n] == e {
      var r := s[..n] + s[n + 1..];
      assert forall i :: 0 <= i < |r| ==> r[i] == if i < n then s[i] else s[i + 1];
      if x in s && x != e {
        var i :| 0 <= i < |s| && s[i] == x;
        assert r[if i < n then i else i - 1] == x;
      }
    }
  }

  lemma EraseSorted(s: seq<Entry>, e: Entry)
    requires Sorted(s)
    ensures Sorted(Erase(s, e))
  {
    var n := LowerBound(s, e);
    if n < |s| && s[n] == e {
      var r := s[..n] + s[n + 1..];
      assert forall i :: 0 <= i < |r| ==> r[i] == if i < n then s[i] else s[i + 1];
    }
  }

  lemma EraseCorrect(s: seq<Entry>, e: Entry)
    requires Sorted(s)
    ensures Sorted(Erase(s, e))
    ensures forall x :: x in Erase(s, e) <==> x in s && x != e
  {
    EraseSorted(s, e);
    forall x
      ensures x in Erase(s, e) <==> x in s && x != e
    {
      EraseMembers(s, e, x);
    }
  }

  /** The head of the ordered set is the least deadline of the map. */
  lemma HeadIsLeast(ordered: seq<Entry>, deadlines: map<int, Time>)
    requires Sorted(ordered) && SamePairs(ordered, deadlines) && ordered != []
    ensures IsLeast(deadlines, ordered[0].id) && deadlines[ordered[0].id] == ordered[0].deadline
  {
    forall k | k in deadlines
      ensures !Less(Entry(deadlines[k], k), ordered[0])
    {
      var i :| 0 <= i < |ordered| && ordered[i] == Entry(deadlines[k], k);
    }
    assert ordered[0] in ordered;
  }

  lemma HasHead(ordered: seq<Entry>, deadlines: map<int, Time>)
    requires SamePairs(ordered, deadlines) && deadlines != map[]
    ensures ordered != []
  {
    HasEntry(deadlines);
    var some :| some in deadlines;
    assert Entry(deadlines[some], some) in ordered;
  }

  lemma HeadIsEarliest(ordered: seq<Entry>, deadlines: map<int, Time>)
    requires Sorted(ordered) && SamePairs(ordered, deadlines) && ordered != []
    ensures forall id :: id in deadlines ==> ordered[0].deadline <= deadlines[id]
  {
    HeadIsLeast(ordered, deadlines);
    assert forall k :: k in deadlines ==> !Less(Entry(deadlines[k], k), ordered[0]);
  }

  lemma TailMembers(ordered: seq<Entry>)
    requires Sorted(ordered) && ordered != []
    ensures Sorted(ordered[1..])
    ensures forall e :: e in ordered[1..] <==> e in ordered && e != ordered[0]
  {
    var rest := ordered[1..];
    assert ordered == [ordered[0]] + rest;
    forall i | 0 <= i < |rest|
      ensures rest[i] == ordered[i + 1] && rest[i] != ordered[0]
    {
      assert Less(ordered[0], ordered[i + 1]);
    }
  }

  lemma HeadRemoved(ordered: seq<Entry>, deadlines: map<int, Time>)
    requires Sorted(ordered) && SamePairs(ordered, deadlines) && ordered != []
    ensures Sorted(ordered[1..]) && SamePairs(ordered[1..], deadlines - {ordered[0].id})
  {
    TailMembers(ordered);
    hide Sorted, Less;
    assert ordered[0] in ordered;
  }

  lemma HasEntry(m: map<int, Time>)
    ensures m == map[] || exists k :: k in m
  {
    assert (forall k :: k !in m) ==> m == map[];
  }

  /** Every nonempty map has a least entry, and only one. */
  lemma {:induction false} LeastExists(deadlines: map<int, Time>) returns (id: int)
    requires deadlines != map[]
    ensures IsLeast(deadlines, id)
    ensures forall other :: IsLeast(deadlines, other) ==> other == id
    decreases |deadlines|
  {
    HasEntry(deadlines);
    var k :| k in deadlines;
    var rest := deadlines - {k};
    assert rest.Keys == deadlines.Keys - {k};
    if rest == map[] {
      assert deadlines.Keys == {k} + rest.Keys;
      id := k;
    } else {
      assert |rest.Keys| < |deadlines.Keys|;
      var m := LeastExists(rest);
      id := if Less(Entry(deadlines[m], m), Entry(deadlines[k], k)) then m else k;
      forall j | j in deadlines
        ensures !Less(Entry(deadlines[j], j), Entry(deadlines[id], id))
      {
        if j != k {
          assert j in rest && rest[j] == deadlines[j] && rest[m] == deadlines[m];
        }
      }
    }
  }

  /** `add` for any arguments: `emplace` leaves an existing map entry alone but still
      adds the pair, so the two containers stay in step exactly when the id is new or is
      given the deadline it already has. */
  lemma AddKeepsIndexIff(ordered: seq<Entry>, deadlines: map<int, Time>, id: int, deadline: Time)
    requires Sorted(ordered) && SamePairs(ordered, deadlines)
    ensures
      var emplaced := if id in deadlines then deadlines else deadlines[id := deadline];
      SamePairs(Insert(ordered, Entry(deadline, id)), emplaced)
      <==> (id !in deadlines || deadlines[id] == deadline)
  {
    InsertCorrect(ordered, Entry(deadline, id));
    assert Entry(deadline, id) in Insert(ordered, Entry(deadline, id));
  }

  /** What one pass of the worker loop decides while it holds the lock. */
  datatype Look = SleepForever | SleepUntil(wake: Time) | Claim(id: int)

  /** The ids whose deadline has been reached. */
  function Due(deadlines: map<int, Time>, now: Time): set<int> {
    set id | id in deadlines && deadlines[id] <= now
  }

  /** The ids appear in increasing order of their (deadline, id) pairs. */
  predicate InOrder(deadlines: map<int, Time>, ids: seq<int>) {
    && (forall id :: id in ids ==> id in deadlines)
    && forall i, j :: 0 <= i < j < |ids| ==>
         Less(Entry(deadlines[ids[i]], ids[i]), Entry(deadlines[ids[j]], ids[j]))
  }

  /** `rest` is what is left of `deadlines` after taking `ids`, and all of it is later. */
  predicate Ahead(deadlines: map<int, Time>, ids: seq<int>, rest: map<int, Time>) {
    && rest == deadlines - (set id | id in ids)
    && forall id, k :: id in ids && id in deadlines && k in rest ==>
         Less(Entry(deadlines[id], id), Entry(deadlines[k], k))
  }

  lemma StartClaims(was: map<int, Time>)
    ensures Ahead(was, [], was) && InOrder(was, [])
  {
    assert was - {} == was;
  }

  lemma ClaimOne(was: map<int, Time>, claimed: seq<int>, before: map<int, Time>, id: int, now: Time)
    requires Ahead(was, claimed, before) && InOrder(was, claimed) && IsLeast(before, id) && before[id] <= now
    ensures Ahead(was, claimed + [id], before - {id}) && InOrder(was, claimed + [id])
    ensures id in Due(was, now)
  {
    forall k | k in before - {id}
      ensures Less(Entry(was[id], id), Entry(was[k], k))
    {
      assert !Less(Entry(before[k], k), Entry(before[id], id));
    }
  }

  /** When nothing left is due, what was taken is exactly what was due. */
  lemma AllDueClaimed(was: map<int, Time>, claimed: seq<int>, rest: map<int, Time>, now: Time)
    requires Ahead(was, claimed, rest)
    requires forall id :: id in claimed ==> id in Due(was, now)
    requires forall id :: id in rest ==> now < rest[id]
    ensures rest == was - Due(was, now)
    ensures forall id :: id in claimed <==> id in Due(was, now)
  {
    forall id | id in Due(was, now)
      ensures id in claimed
    {
      assert id in rest || id in claimed;
    }
    var taken := set id | id in claimed;
    assert forall id :: id in taken <==> id in Due(was, now);
    assert taken == Due(was, now);
  }

  class Scheduler {
    var deadlines: map<int, Time>
    var ordered: seq<Entry>

    ghost predicate Valid()
      reads this
    {
      Sorted(ordered) && SamePairs(ordered, deadlines)
    }

    constructor ()
      ensures Valid() && deadlines == map[]
    {
      deadlines := map[];
      ordered := [];
    }

    /** `emplace` into both containers: for an id that is already there with another deadline
        the map keeps the old one and the two fall out of step. */
    method Add(id: int, deadline: Time)
      requires Valid()
      modifies this
      ensures Valid() <==> (id !in old(deadlines) || old(deadlines)[id] == deadline)
      ensures deadlines == if id in old(deadlines) then old(deadlines) else old(deadlines)[id := deadline]
      ensures forall e :: e in ordered <==> e in old(ordered) || e == Entry(deadline, id)
    {
      AddKeepsIndexIff(ordered, deadlines, id, deadline);
      InsertCorrect(ordered, Entry(deadline, id));
      if id !in deadlines {
        deadlines := deadlines[id := deadline];
      }
      ordered := Insert(ordered, Entry(deadline, id));
    }

    /** A missing id counts as expired. */
    method Expired(id: int, now: Time) returns (expired: bool)
      ensures expired <==> (id in deadlines ==> deadlines[id] <= now)
    {
      expired := if id !in deadlines then true else deadlines[id] <= now;
    }

    method Remove(id: int, now: Time) returns (expired: bool)
      requires Valid()
      modifies this
      ensures Valid() && deadlines == old(deadlines) - {id}
      ensures expired <==> (id in old(deadlines) ==> old(deadlines)[id] <= now)
    {
      if id !in deadlines {
        assert deadlines - {id} == deadlines;
        return true;
      }
      expired := deadlines[id] <= now;
      EraseCorrect(ordered, Entry(deadlines[id], id));
      ordered := Erase(ordered, Entry(deadlines[id], id));
      deadlines := deadlines - {id};
    }

    method Clear()
      modifies this
      ensures Valid() && deadlines == map[]
    {
      deadlines := map[];
      ordered := [];
    }

    /** One pass of the worker loop.  Only the head of the ordered set is inspected, yet
        the answer is the one a search of the whole map would give. */
    method LookOnce(now: Time) returns (look: Look)
      requires Valid()
      modifies this
      ensures Valid()
      ensures look.SleepForever? <==> old(deadlines) == map[]
      ensures look.SleepUntil? ==>
                && deadlines == old(deadlines) && now < look.wake
                && (exists id :: id in deadlines && deadlines[id] == look.wake)
                && forall id :: id in deadlines ==> look.wake <= deadlines[id]
      ensures look.Claim? ==>
                && IsLeast(old(deadlines), look.id) && old(deadlines)[look.id] <= now
                && deadlines == old(deadlines) - {look.id}
      ensures look.SleepForever? ==> deadlines == old(deadlines)
    {
      if deadlines == map[] {
        return SleepForever;
      }
      HasHead(ordered, deadlines);
      HeadIsLeast(ordered, deadlines);
      HeadIsEarliest(ordered, deadlines);
      hide Sorted, SamePairs;
      var next := ordered[0];
      if next.deadline > now {
        return SleepUntil(next.deadline);
      }
      HeadRemoved(ordered, deadlines);
      ordered := ordered[1..];
      deadlines := deadlines - {next.id};
      return Claim(next.id);
    }

    /** The worker loop until it goes to sleep, with a clock that moves on between its passes:
        it claims exactly the entries that are due at its last look, in increasing order of
        (deadline, id), and leaves the others. */
    method ClaimAllDue(clock: nat -> Time) returns (claimed: seq<int>, looks: nat)
      requires Valid() && forall i: nat, j: nat :: i <= j ==> clock(i) <= clock(j)
      modifies this
      ensures Valid() && deadlines == old(deadlines) - Due(old(deadlines), clock(looks))
      ensures forall id :: id in claimed <==> id in Due(old(deadlines), clock(looks))
      ensures InOrder(old(deadlines), claimed) && looks == |claimed|
    {
      hide Sorted, SamePairs, Less, InOrder, Ahead;
      ghost var was := deadlines;
      claimed, looks := [], 0;
      StartClaims(was);
      while true
        invariant Valid() && Ahead(was, claimed, deadlines) && InOrder(was, claimed) && looks == |claimed|
        invariant forall id :: id in claimed ==> id in Due(was, clock(looks))
        decreases |deadlines.Keys|
      {
        ghost var before := deadlines;
        var look := LookOnce(clock(looks));
        if !look.Claim? {
          AllDueClaimed(was, claimed, deadlines, clock(looks));
          break;
        }
        assert deadlines.Keys == before.Keys - {look.id};
        ClaimOne(was, claimed, before, look.id, clock(looks));
        claimed, looks := claimed + [look.id], looks + 1;
      }
    }
  }
}
