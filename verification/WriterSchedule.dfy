/** Deadline arithmetic of the scheduler: what one pass over the expired deadlines leaves behind,
    and that the order in which a Go map hands out its keys does not matter. */
module WriterSchedule {
  import opened Options
  import opened WriterTypes
  import opened WriterRegistry

  /** The first instant after `now` on the grid of `deadline` with the given interval. */
  function NextDeadline(deadline: int, interval: nat, now: int): int
    requires interval > 0
  {
    if deadline > now then deadline else deadline + ((now - deadline) / interval + 1) * interval
  }

  /** One key of the scheduler's loop. */
  function FireOne(r: Registry, operation: Operation, newId: Option<RunId>, now: int): Registry {
    if operation !in r.deadlines || r.deadlines[operation] > now then r
    else
      var (next, reply) := Enqueue(r, operation, newId, now);
      if reply.Refused? && reply.code != NoCode then next
      else
        var interval := Interval(next.settings, operation);
        if interval == 0 then next.(deadlines := next.deadlines - {operation})
        else next.(deadlines := next.deadlines[operation := NextDeadline(r.deadlines[operation], interval, now)])
  }

  function Fire(r: Registry, order: seq<Operation>, ids: Operation -> Option<RunId>, now: int): Registry
    decreases |order|
  {
    if order == [] then r else Fire(FireOne(r, order[0], ids(order[0]), now), order[1..], ids, now)
  }

  /** The operation is due and neither the blocker nor a failing identifier source holds it back. */
  predicate Admits(r: Registry, operation: Operation, newId: Option<RunId>, now: int) {
    && operation in r.deadlines && r.deadlines[operation] <= now
    && !(IsConfigWrite(operation) && r.blocker.Some?)
    && (operation in r.active || newId.Some?)
  }

  function Advanced(r: Registry, operation: Operation, newId: Option<RunId>, now: int): int
    requires operation in r.deadlines && Interval(r.settings, operation) > 0
  {
    if Admits(r, operation, newId, now) then NextDeadline(r.deadlines[operation], Interval(r.settings, operation), now)
    else r.deadlines[operation]
  }

  lemma NextDeadlineOnGrid(deadline: int, interval: nat, now: int)
    requires interval > 0
    ensures var next := NextDeadline(deadline, interval, now);
      && next > now
      && (deadline <= now ==> next - interval <= now)
      && exists k: nat :: next == deadline + k * interval
  {
    if deadline <= now {
      var k := (now - deadline) / interval;
      assert k * interval <= now - deadline < (k + 1) * interval by {
        assert now - deadline == k * interval + (now - deadline) % interval;
        assert (k + 1) * interval == k * interval + interval;
      }
    } else {
      assert NextDeadline(deadline, interval, now) == deadline + 0 * interval;
    }
  }

  lemma MultipleAtLeast(a: int, b: int, interval: nat)
    requires a <= b
    ensures a * interval <= b * interval
  {
    assert (b - a) * interval >= 0;
    assert b * interval == a * interval + (b - a) * interval;
  }

  lemma SmallMultiple(d: int, interval: int)
    requires interval > 0 && -interval < d * interval < interval
    ensures d == 0
  {
    if d > 0 {
      MultipleAtLeast(1, d, interval);
    } else if d < 0 {
      MultipleAtLeast(d, -1, interval);
    }
  }

  lemma QuotientUnique(x: nat, interval: nat, q: nat)
    requires interval > 0 && q * interval <= x < q * interval + interval
    ensures x / interval == q
  {
    var p := x / interval;
    assert x == p * interval + x % interval;
    assert (p - q) * interval == p * interval - q * interval;
    SmallMultiple(p - q, interval);
  }

  /** The loop of the source, which adds the interval until the deadline is in the future, stops there. */
  lemma GridPointUnique(deadline: int, interval: nat, now: int, next: int, k: nat)
    requires interval > 0 && deadline <= now
    requires next == deadline + k * interval && next > now && next - interval <= now
    ensures NextDeadline(deadline, interval, now) == next
  {
    if k > 0 {
      assert (k - 1) * interval == k * interval - interval;
      QuotientUnique(now - deadline, interval, k - 1);
    }
  }

  lemma DeadlinesOnly(r: Registry, deadlines: map<Operation, int>)
    requires Invariant(r) && deadlines.Keys == r.deadlines.Keys
    ensures Invariant(r.(deadlines := deadlines))
  {
    forall op ensures op in deadlines <==> op in r.deadlines {
      assert op in deadlines.Keys <==> op in r.deadlines.Keys;
    }
  }

  /** What one key does: it admits at most its own operation and moves at most its own deadline. */
  lemma FireOneEffect(r: Registry, operation: Operation, newId: Option<RunId>, now: int)
    requires DeadlinesMatch(r.deadlines, r.settings, r.configured)
    requires BlockerRecorded(r.blocker, r.record, r.statuses)
    ensures var next := FireOne(r, operation, newId, now);
      && next.deadlines == (if operation in r.deadlines then r.deadlines[operation := Advanced(r, operation, newId, now)] else r.deadlines)
      && next.active == (if Admits(r, operation, newId, now) && operation !in r.active
                         then r.active[operation := newId.value] else r.active)
      && next.statuses == (if Admits(r, operation, newId, now) && operation !in r.active
                           then r.statuses[newId.value := NewRun(r, newId.value, operation, now)] else r.statuses)
      && next.deadlines.Keys == r.deadlines.Keys
      && next.blocker == r.blocker && next.record == r.record && next.running == r.running
      && next.settings == r.settings && next.configured == r.configured
      && (next == r || next == Enqueue(r, operation, newId, now).0.(deadlines := next.deadlines))
  {
    assert operation in r.deadlines ==> Interval(r.settings, operation) > 0;
  }

  lemma FireOneInvariant(r: Registry, operation: Operation, newId: Option<RunId>, now: int)
    requires Invariant(r)
    requires newId.Some? ==> newId.value !in r.statuses
    ensures var next := FireOne(r, operation, newId, now);
      Invariant(next) && next.blocker == r.blocker && next.record == r.record && next.running == r.running
  {
    FireOneEffect(r, operation, newId, now);
    EnqueueInvariant(r, operation, newId, now);
    DeadlinesOnly(Enqueue(r, operation, newId, now).0, FireOne(r, operation, newId, now).deadlines);
  }

  ghost predicate Distinct(order: seq<Operation>) {
    forall i, j :: 0 <= i < j < |order| ==> order[i] != order[j]
  }

  /** The identifiers the pass may draw are new and differ from each other. */
  ghost predicate NewIds(r: Registry, order: seq<Operation>, ids: Operation -> Option<RunId>) {
    && (forall op :: op in order && ids(op).Some? ==> ids(op).value !in r.statuses)
    && (forall op, other :: op in order && other in order && op != other && ids(op).Some? ==> ids(op) != ids(other))
  }

  lemma {:induction false} FireInvariant(r: Registry, order: seq<Operation>, ids: Operation -> Option<RunId>, now: int)
    requires Invariant(r) && Distinct(order) && NewIds(r, order, ids)
    ensures Invariant(Fire(r, order, ids, now))
    ensures Fire(r, order, ids, now).blocker == r.blocker && Fire(r, order, ids, now).record == r.record
    ensures Fire(r, order, ids, now).running == r.running
    decreases |order|
  {
    if order != [] {
      var mid := FireOne(r, order[0], ids(order[0]), now);
      FireOneInvariant(r, order[0], ids(order[0]), now);
      NewIdsAfter(r, order, ids, now);
      FireInvariant(mid, order[1..], ids, now);
    }
  }

  lemma NewIdsAfter(r: Registry, order: seq<Operation>, ids: Operation -> Option<RunId>, now: int)
    requires DeadlinesMatch(r.deadlines, r.settings, r.configured) && BlockerRecorded(r.blocker, r.record, r.statuses)
    requires order != [] && Distinct(order) && NewIds(r, order, ids)
    ensures Distinct(order[1..]) && NewIds(FireOne(r, order[0], ids(order[0]), now), order[1..], ids)
  {
    FireOneEffect(r, order[0], ids(order[0]), now);
    assert forall op :: op in order[1..] ==> op in order && op != order[0];
  }

  /** Once each key has had its turn, the deadlines and the active runs are what the state before the
      pass says they must be, whatever the order: a due and admitted deadline moves to the next point
      of its own grid, a held one stays, and exactly the admitted operations are active. */
  lemma {:induction false} FireIsOrderFree(r: Registry, order: seq<Operation>, ids: Operation -> Option<RunId>, now: int)
    requires DeadlinesMatch(r.deadlines, r.settings, r.configured) && BlockerRecorded(r.blocker, r.record, r.statuses)
    requires Distinct(order) && NewIds(r, order, ids)
    ensures var next := Fire(r, order, ids, now);
      && next.deadlines.Keys == r.deadlines.Keys
      && (forall op :: op in r.deadlines ==>
           next.deadlines[op] == (if op in order then Advanced(r, op, ids(op), now) else r.deadlines[op]))
      && (forall op :: op in next.active <==> op in r.active || (op in order && Admits(r, op, ids(op), now)))
      && (forall op :: op in next.active ==> next.active[op] == (if op in r.active then r.active[op] else ids(op).value))
    decreases |order|
  {
    if order != [] {
      var first, rest := order[0], order[1..];
      var mid := FireOne(r, first, ids(first), now);
      FireOneEffect(r, first, ids(first), now);
      NewIdsAfter(r, order, ids, now);
      OthersUndisturbed(r, mid, first, ids, now);
      assert forall op :: op in order <==> op == first || op in rest;
      assert first !in rest;
      FireIsOrderFree(mid, rest, ids, now);
    }
  }

  /** A turn changes neither the deadline nor the admission of any other operation. */
  lemma OthersUndisturbed(r: Registry, mid: Registry, first: Operation, ids: Operation -> Option<RunId>, now: int)
    requires DeadlinesMatch(r.deadlines, r.settings, r.configured) && BlockerRecorded(r.blocker, r.record, r.statuses)
    requires mid == FireOne(r, first, ids(first), now)
    requires ids(first).Some? ==> ids(first).value !in r.statuses
    ensures DeadlinesMatch(mid.deadlines, mid.settings, mid.configured) && BlockerRecorded(mid.blocker, mid.record, mid.statuses)
    ensures forall op :: op != first ==> Admits(mid, op, ids(op), now) == Admits(r, op, ids(op), now)
    ensures forall op :: op in r.deadlines && op != first ==> Advanced(mid, op, ids(op), now) == Advanced(r, op, ids(op), now)
  {
    FireOneEffect(r, first, ids(first), now);
    forall op ensures op in mid.deadlines <==> op in r.deadlines {
      assert op in mid.deadlines.Keys <==> op in r.deadlines.Keys;
    }
  }

  /** Two passes that visit every deadline, each in its own order, leave the same deadlines and the same active runs. */
  lemma FireSameInEveryOrder(r: Registry, one: seq<Operation>, two: seq<Operation>, ids: Operation -> Option<RunId>, now: int)
    requires DeadlinesMatch(r.deadlines, r.settings, r.configured) && BlockerRecorded(r.blocker, r.record, r.statuses)
    requires Distinct(one) && Distinct(two) && NewIds(r, one, ids) && NewIds(r, two, ids)
    requires forall op :: op in r.deadlines ==> op in one && op in two
    ensures Fire(r, one, ids, now).deadlines == Fire(r, two, ids, now).deadlines
    ensures Fire(r, one, ids, now).active == Fire(r, two, ids, now).active
  {
    FireIsOrderFree(r, one, ids, now);
    FireIsOrderFree(r, two, ids, now);
    assert Fire(r, one, ids, now).active.Keys == Fire(r, two, ids, now).active.Keys;
  }
}
