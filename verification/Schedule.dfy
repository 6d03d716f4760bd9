/** The daily schedule of modes: entries that do not conflict, and the lookup of the latest one. */
module Schedule {
  import opened Options

  const MAX_ENTRIES := 32
  const NUM_INTERSECTIONS := 6
  const INTERSECTION_ALL := 255
  const MINUTES_PER_DAY := 1440

  datatype Mode = Fixed | Sensor | OtherMode

  datatype Entry = Entry(minute: nat, target: nat, mode: Mode)
  {
    predicate Valid() {
      && minute < MINUTES_PER_DAY && (target < NUM_INTERSECTIONS || target == INTERSECTION_ALL)
      && (mode.Fixed? || mode.Sensor?)
    }

    predicate AppliesTo(t: nat) {
      target == INTERSECTION_ALL || target == t
    }

    /** The minutes since this entry was last due, up to a day ago. */
    function Elapsed(now: nat): nat {
      (now + MINUTES_PER_DAY - minute) % MINUTES_PER_DAY
    }
  }

  predicate Conflict(a: Entry, b: Entry) {
    a.minute == b.minute && (a.target == b.target || a.target == INTERSECTION_ALL || b.target == INTERSECTION_ALL)
  }

  /** What the entries of a schedule satisfy: valid, and no two for the same minute and intersection. */
  predicate Consistent(entries: seq<Entry>) {
    && (forall i :: 0 <= i < |entries| ==> entries[i].Valid())
    && (forall i, j {:trigger Conflict(entries[i], entries[j])} ::
          0 <= i < |entries| && 0 <= j < |entries| && i != j ==> !Conflict(entries[i], entries[j]))
  }

  /** Entry i is the one in force: no entry for the intersection was due later. */
  predicate InForce(entries: seq<Entry>, i: int, target: nat, now: nat) {
    && 0 <= i < |entries| && entries[i].AppliesTo(target)
    && forall j :: 0 <= j < |entries| && entries[j].AppliesTo(target) ==> entries[i].Elapsed(now) <= entries[j].Elapsed(now)
  }

  lemma ElapsedTells(a: Entry, b: Entry, now: nat)
    requires a.Valid() && b.Valid() && now < MINUTES_PER_DAY && a.Elapsed(now) == b.Elapsed(now)
    ensures a.minute == b.minute
  {
  }

  /** The entry is for this intersection or for all of them. */
  predicate Concerns(e: Entry, target: nat) {
    e.target == target || e.target == 255
  }

  /** At one minute some intersection would have both in force. */
  predicate Clashes(a: Entry, b: Entry) {
    a.minute == b.minute && exists t: nat :: t < 6 && Concerns(a, t) && Concerns(b, t)
  }

  /** Two entries conflict exactly when they clash. */
  lemma ConflictIsATie(a: Entry, b: Entry)
    requires a.Valid() && b.Valid()
    ensures Conflict(a, b) <==> Clashes(a, b)
  {
    assert Concerns(a, 0) || Concerns(a, a.target);
    assert Concerns(b, 0) || Concerns(b, b.target);
  }

  /** Minutes since a time of day, up to a day ago. */
  function Ago(minute: nat, now: nat): int {
    if minute <= now then now - minute else now + 1440 - minute
  }

  predicate DueLast(entries: seq<Entry>, i: nat, target: nat, now: nat)
    requires i < |entries|
  {
    && Concerns(entries[i], target)
    && forall j :: 0 <= j < |entries| && Concerns(entries[j], target) ==> Ago(entries[i].minute, now) <= Ago(entries[j].minute, now)
  }

  /** What is said for an intersection at a minute: the mode of the entry for it that was due last, if it has any. */
  ghost predicate Says(entries: seq<Entry>, target: nat, now: nat, r: Option<Mode>) {
    && (r.None? <==> forall i :: 0 <= i < |entries| ==> !Concerns(entries[i], target))
    && (r.Some? ==> exists i :: 0 <= i < |entries| && entries[i].mode == r.value && DueLast(entries, i, target, now))
  }

  lemma InForceSays(entries: seq<Entry>, i: nat, target: nat, now: nat)
    requires Consistent(entries) && now < MINUTES_PER_DAY && InForce(entries, i, target, now)
    ensures Says(entries, target, now, Some(entries[i].mode))
  {
    assert Concerns(entries[i], target);
    forall j | 0 <= j < |entries| && Concerns(entries[j], target)
      ensures Ago(entries[i].minute, now) <= Ago(entries[j].minute, now)
    {
      assert entries[j].AppliesTo(target) && entries[i].Valid() && entries[j].Valid();
    }
  }

  /** At most one entry is in force for an intersection at any minute. */
  lemma OneInForce(entries: seq<Entry>, i: nat, j: nat, target: nat, now: nat)
    requires Consistent(entries) && now < MINUTES_PER_DAY
    requires InForce(entries, i, target, now) && InForce(entries, j, target, now)
    ensures i == j
  {
    var a, b := entries[i], entries[j];
    ElapsedTells(a, b, now);
    assert i == j || !Conflict(a, b);
  }

  /** What the schedule says for an intersection at a minute. */
  ghost function Lookup(entries: seq<Entry>, target: nat, now: nat): Option<Mode>
    requires Consistent(entries)
  {
    if i :| InForce(entries, i, target, now) then Some(entries[i].mode) else None
  }

  /** The order of the entries does not matter. */
  lemma OrderDoesNotMatter(a: seq<Entry>, b: seq<Entry>, target: nat, now: nat)
    requires Consistent(a) && Consistent(b) && multiset(a) == multiset(b) && now < MINUTES_PER_DAY
    ensures Lookup(a, target, now) == Lookup(b, target, now)
  {
    if i :| InForce(a, i, target, now) {
      InForceElsewhere(a, b, i, target, now);
    } else if j :| InForce(b, j, target, now) {
      InForceElsewhere(b, a, j, target, now);
    }
  }

  /** An entry in force is in force in every order, and gives the lookup its mode. */
  lemma InForceElsewhere(a: seq<Entry>, b: seq<Entry>, i: int, target: nat, now: nat)
    requires Consistent(a) && Consistent(b) && multiset(a) == multiset(b) && now < MINUTES_PER_DAY
    requires InForce(a, i, target, now)
    ensures Lookup(a, target, now) == Lookup(b, target, now) == Some(a[i].mode)
  {
    assert a[i] in multiset(b);
    var j :| 0 <= j < |b| && b[j] == a[i];
    forall k | 0 <= k < |b| && b[k].AppliesTo(target)
      ensures b[j].Elapsed(now) <= b[k].Elapsed(now)
    {
      assert b[k] in multiset(a);
    }
    assert InForce(b, j, target, now);
    LookupIs(a, i, target, now);
    LookupIs(b, j, target, now);
  }

  lemma LookupIs(entries: seq<Entry>, i: nat, target: nat, now: nat)
    requires Consistent(entries) && now < MINUTES_PER_DAY && InForce(entries, i, target, now)
    ensures Lookup(entries, target, now) == Some(entries[i].mode)
  {
    forall j: nat | InForce(entries, j, target, now)
      ensures i == j
    {
      OneInForce(entries, i, j, target, now);
    }
  }

  lemma NobodyInForce(entries: seq<Entry>, target: nat, now: nat)
    requires Consistent(entries) && forall i :: 0 <= i < |entries| ==> !entries[i].AppliesTo(target)
    ensures Lookup(entries, target, now) == None
  {
  }

  class DailySchedule {
    const entries: array<Entry>
    var count: nat

    ghost predicate Valid()
      reads this, entries
    {
      entries.Length == MAX_ENTRIES && count <= MAX_ENTRIES && Consistent(entries[..count])
    }

    constructor ()
      ensures Valid() && fresh(entries) && count == 0
    {
      entries := new Entry[MAX_ENTRIES](_ => Entry(0, 0, Fixed));
      count := 0;
    }

    /** Adds an entry that is valid, fits and conflicts with none; any other leaves the schedule alone. */
    method Add(e: Entry) returns (ok: bool)
      requires Valid()
      modifies this, entries
      ensures Valid()
      ensures ok <==>
              && e.minute < 1440 && (e.target < 6 || e.target == 255) && !e.mode.OtherMode? && old(count) < 32
              && forall i :: 0 <= i < old(count) ==> !Clashes(old(entries[..count])[i], e)
      ensures entries[..count] == if ok then old(entries[..count]) + [e] else old(entries[..count])
    {
      if !e.Valid() || count >= MAX_ENTRIES {
        return false;
      }
      forall k | 0 <= k < count
        ensures Conflict(entries[..count][k], e) <==> Clashes(entries[..count][k], e)
      {
        ConflictIsATie(entries[..count][k], e);
      }
      var i := 0;
      while i < count
        invariant i <= count && forall k :: 0 <= k < i ==> !Conflict(entries[..count][k], e)
      {
        if Conflict(entries[i], e) {
          assert entries[..count][i] == entries[i];
          return false;
        }
        i := i + 1;
      }
      entries[count] := e;
      count := count + 1;
      ghost var before := old(entries[..count]);
      assert entries[..count] == before + [e];
      forall j, k | 0 <= j < count && 0 <= k < count && j != k
        ensures !Conflict(entries[..count][j], entries[..count][k])
      {
        assert j < count - 1 && k < count - 1 ==> !Conflict(before[j], before[k]);
      }
      return true;
    }

    /** Keeps the nearest entry seen so far, going once through the schedule. */
    method ModeAt(target: nat, now: nat) returns (r: Option<Mode>)
      requires Valid()
      ensures r == if target < NUM_INTERSECTIONS && now < MINUTES_PER_DAY then Lookup(entries[..count], target, now) else None
      ensures target < 6 && now < 1440 ==> Says(entries[..count], target, now, r)
    {
      if target >= NUM_INTERSECTIONS || now >= MINUTES_PER_DAY {
        return None;
      }
      ghost var all := entries[..count];
      var nearest, selected, i := MINUTES_PER_DAY, Fixed, 0;
      ghost var best := 0;
      while i < count
        invariant i <= count && nearest <= MINUTES_PER_DAY
        invariant nearest == MINUTES_PER_DAY ==> forall k :: 0 <= k < i ==> !all[k].AppliesTo(target)
        invariant nearest < MINUTES_PER_DAY ==>
                    && best < i && all[best].AppliesTo(target) && selected == all[best].mode
                    && all[best].Elapsed(now) == nearest
        invariant forall k :: 0 <= k < i && all[k].AppliesTo(target) ==> nearest <= all[k].Elapsed(now)
      {
        assert entries[i] == all[i];
        if entries[i].AppliesTo(target) && entries[i].Elapsed(now) < nearest {
          nearest, selected, best := entries[i].Elapsed(now), entries[i].mode, i;
        }
        i := i + 1;
      }
      if nearest == MINUTES_PER_DAY {
        NobodyInForce(all, target, now);
        return None;
      }
      LookupIs(all, best, target, now);
      InForceSays(all, best, target, now);
      return Some(selected);
    }
  }
}
