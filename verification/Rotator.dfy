/** The rotator as the Go code writes it: methods that issue one store statement after another.
    Each method is proved against the table it must leave, failed statements included, and that
    effect is then shown to be a run of the protocol's own steps, so everything proved about
    interleaved runs holds of the methods. */
module Rotator {
  import opened Clock
  import opened Wrappers
  import opened KeyProtocol

  /** Which store statements of one rotation succeed. */
  datatype Io = Io(list: bool, retire: bool, promote: bool, insert: bool, cleanup: bool)

  /** `rows` lists every row of the table once, in any order. */
  ghost predicate Lists(rows: seq<(Kid, Row)>, t: Table) {
    && (forall i | 0 <= i < |rows| :: rows[i].0 in t && t[rows[i].0] == rows[i].1)
    && (forall i, j | 0 <= i < j < |rows| :: rows[i].0 != rows[j].0)
    && (forall kid | kid in t :: exists i :: 0 <= i < |rows| && rows[i].0 == kid)
  }

  predicate Due(c: Config, t: Table, now: Instant, active: Option<Kid>, next: Option<Kid>) {
    active.Some? && next.Some? && next.value in t && OlderThan(t[next.value].createdAt, c.overlap, now)
  }

  datatype Outcome = Outcome(table: Table, ok: bool)

  predicate AllOk(io: Io) {
    io.list && io.retire && io.promote && io.insert && io.cleanup
  }

  /** Neither a failed statement nor a restart. */
  predicate Smooth(steps: seq<Step>) {
    Abort !in steps && Restart !in steps
  }

  /** The promotion phase: both status updates, or what is left of them after a failure. */
  function PromotionOutcome(c: Config, t: Table, io: Io, now: Instant, active: Option<Kid>, next: Option<Kid>): Outcome {
    if !Due(c, t, now, active, next) then Outcome(t, true)
    else if !io.retire then Outcome(t, false)
    else
      var t1 := WithStatus(t, active.value, Retiring, RetiresAt(c, now));
      if !io.promote then Outcome(t1, false)
      else Outcome(WithStatus(t1, next.value, Active, t[next.value].retiresAt), true)
  }

  /** Whether a rotation that got past the promotion phase generates a key. */
  predicate Generates(c: Config, t: Table, now: Instant, active: Option<Kid>, next: Option<Kid>) {
    if Due(c, t, now, active, next)
    then OlderThan(t[next.value].createdAt, c.rotationInterval, now)
    else active.Some? && next.None? && active.value in t &&
         OlderThan(t[active.value].createdAt, c.rotationInterval, now)
  }

  /** What one rotation does to the table: at most one promotion, at most one new key, then the
      expired retiring keys gone; a failed statement ends it with the work done so far in place. */
  function RotateOutcome(c: Config, t: Table, io: Io, now: Instant, insertAt: Instant, cleanAt: Instant,
                         kid: Kid, active: Option<Kid>, next: Option<Kid>): Outcome
  {
    if !io.list then Outcome(t, false)
    else
      var p := PromotionOutcome(c, t, io, now, active, next);
      if !p.ok then p
      else if Generates(c, t, now, active, next) && !io.insert then Outcome(p.table, false)
      else
        var t2 := if Generates(c, t, now, active, next)
                  then p.table[kid := Row(Unix(insertAt), FreshRetiresAt(c, now), Next)] else p.table;
        if !io.cleanup then Outcome(t2, false) else Outcome(Cleaned(t2, cleanAt), true)
  }

  /** What boot does to the table: nothing when a key is active, one new active key when none is, and
      nothing when the lookup, the key generation or the insert fails. */
  function EnsureOutcome(c: Config, t: Table, lookup: bool, insert: bool, now: Instant, insertAt: Instant,
                         kid: Kid, found: Option<Kid>): Outcome
  {
    if !lookup then Outcome(t, false)
    else if found.Some? then Outcome(t, true)
    else if !insert then Outcome(t, false)
    else Outcome(t[kid := Row(Unix(insertAt), FreshRetiresAt(c, now), Active)], true)
  }

  class Rotator {
    const c: Config
    var table: Table

    constructor (c: Config, table: Table)
      ensures this.c == c && this.table == table
    {
      this.c := c;
      this.table := table;
    }

    method ListSigningKeys(io: bool) returns (ok: bool, rows: seq<(Kid, Row)>)
      ensures ok == io
      ensures ok ==> Lists(rows, table)
    {
      ok, rows := io, [];
      if !io { return; }
      var rest := table.Keys;
      while rest != {}
        invariant rest <= table.Keys
        invariant forall i | 0 <= i < |rows| :: rows[i].0 in table && table[rows[i].0] == rows[i].1
        invariant forall i, j | 0 <= i < j < |rows| :: rows[i].0 != rows[j].0
        invariant forall i | 0 <= i < |rows| :: rows[i].0 !in rest
        invariant forall kid | kid in table && kid !in rest :: exists i :: 0 <= i < |rows| && rows[i].0 == kid
      {
        var kid :| kid in rest;
        ghost var before := rows;
        rows := rows + [(kid, table[kid])];
        forall other | other in table && other !in rest - {kid}
          ensures exists i :: 0 <= i < |rows| && rows[i].0 == other
        {
          if other == kid {
            assert rows[|before|].0 == other;
          } else {
            var i :| 0 <= i < |before| && before[i].0 == other;
            assert rows[i].0 == other;
          }
        }
        rest := rest - {kid};
      }
    }

    /** `SELECT … WHERE status='active' LIMIT 1` */
    method GetActiveSigningKey(io: bool) returns (ok: bool, found: Option<Kid>)
      ensures ok == io
      ensures ok ==> Picks(table, Active, found)
    {
      found := None;
      var rows;
      ok, rows := ListSigningKeys(io);
      if !ok { return; }
      for i := 0 to |rows|
        invariant forall j | 0 <= j < i :: rows[j].1.status != Active
      {
        if rows[i].1.status == Active { return ok, Some(rows[i].0); }
      }
    }

    /** `rotate`'s scan of the listed rows into `active` and `next`. */
    method Scan(rows: seq<(Kid, Row)>) returns (active: Option<Kid>, next: Option<Kid>)
      requires Lists(rows, table)
      ensures Picks(table, Active, active) && Picks(table, Next, next)
    {
      active, next := None, None;
      for i := 0 to |rows|
        invariant active.Some? ==> active.value in table && table[active.value].status == Active
        invariant next.Some? ==> next.value in table && table[next.value].status == Next
        invariant active.None? ==> forall j | 0 <= j < i :: rows[j].1.status != Active
        invariant next.None? ==> forall j | 0 <= j < i :: rows[j].1.status != Next
      {
        match rows[i].1.status
        case Active => active := Some(rows[i].0);
        case Next => next := Some(rows[i].0);
        case Retiring =>
      }
    }

    /** `Ensure`; `insert` is whether a key could be generated and stored. */
    method Ensure(lookup: bool, insert: bool, now: Instant, insertAt: Instant, kid: Kid)
      returns (ok: bool, ghost active: Option<Kid>)
      modifies this
      ensures lookup ==> Picks(old(table), Active, active)
      ensures Outcome(table, ok) == EnsureOutcome(c, old(table), lookup, insert, now, insertAt, kid, active)
      ensures ok ==> exists k :: k in table && table[k].status == Active
      ensures lookup && insert ==> ok
    {
      var looked, found := GetActiveSigningKey(lookup);
      active := found;
      if !looked { return false, active; }
      if found.Some? { return true, active; }
      if !insert { return false, active; }
      table := table[kid := Row(Unix(insertAt), FreshRetiresAt(c, now), Active)];
      assert table[kid].status == Active;
      ok := true;
    }

    /** One rotation, statement by statement. */
    method Rotate(io: Io, now: Instant, insertAt: Instant, cleanAt: Instant, kid: Kid)
      returns (ok: bool, ghost active: Option<Kid>, ghost next: Option<Kid>)
      modifies this
      ensures io.list ==> Picks(old(table), Active, active) && Picks(old(table), Next, next)
      ensures Outcome(table, ok) == RotateOutcome(c, old(table), io, now, insertAt, cleanAt, kid, active, next)
      ensures AllOk(io) ==> ok
    {
      active, next := None, None;
      var listed, rows := ListSigningKeys(io.list);
      if !listed { return false, active, next; }
      var current, waiting := Scan(rows);
      active, next := current, waiting;
      var currentRow := if current.Some? then Some(table[current.value]) else None;
      if current.Some? && waiting.Some? {
        var waitingRow := table[waiting.value];
        if OlderThan(waitingRow.createdAt, c.overlap, now) {
          if !io.retire { return false, active, next; }
          table := WithStatus(table, current.value, Retiring, RetiresAt(c, now));
          if !io.promote { return false, active, next; }
          table := WithStatus(table, waiting.value, Active, waitingRow.retiresAt);
          current, currentRow, waiting := waiting, Some(waitingRow), None;
        }
      }
      if current.Some? && waiting.None? {
        if OlderThan(currentRow.value.createdAt, c.rotationInterval, now) {
          if !io.insert { return false, active, next; }
          table := table[kid := Row(Unix(insertAt), FreshRetiresAt(c, now), Next)];
        }
      }
      if !io.cleanup { return false, active, next; }
      table := Cleaned(table, cleanAt);
      ok := true;
    }
  }

  // ---------- What a rotation without failures achieves ----------

  /** The key a rotation leaves active: the waiting one once it is older than the overlap. */
  function Heir(c: Config, t: Table, now: Instant, active: Kid, next: Option<Kid>): Kid {
    if next.Some? && next.value in t && OlderThan(t[next.value].createdAt, c.overlap, now) then next.value else active
  }

  /** When no statement fails, a rotation of a table with an active key succeeds and leaves exactly one
      active key: the waiting key if that one was older than the overlap, otherwise the former one. A
      former active key is retiring then, with the deadline of this rotation, unless already cleaned up. */
  lemma RotationPromotes(c: Config, t: Table, io: Io, now: Instant, insertAt: Instant, cleanAt: Instant,
                         kid: Kid, active: Kid, next: Option<Kid>)
    requires AllOk(io) && kid !in t && Picks(t, Active, Some(active)) && Picks(t, Next, next)
    requires forall k | k in t && t[k].status == Active :: k == active
    ensures var o, heir := RotateOutcome(c, t, io, now, insertAt, cleanAt, kid, Some(active), next),
                           Heir(c, t, now, active, next);
      && o.ok && heir in o.table
      && (forall k | k in o.table :: o.table[k].status == Active <==> k == heir)
      && (heir != active && active in o.table ==>
            o.table[active].status == Retiring && o.table[active].retiresAt == RetiresAt(c, now))
  {}

  /** It leaves a waiting key exactly when one was waiting and stays, or when the key then active is older
      than the rotation interval, and in that case the new key is the only one waiting. */
  lemma RotationGenerates(c: Config, t: Table, io: Io, now: Instant, insertAt: Instant, cleanAt: Instant,
                          kid: Kid, active: Kid, next: Option<Kid>)
    requires AllOk(io) && kid !in t && Picks(t, Active, Some(active)) && Picks(t, Next, next)
    requires forall k | k in t && t[k].status == Next :: next == Some(k)
    ensures var o, heir := RotateOutcome(c, t, io, now, insertAt, cleanAt, kid, Some(active), next),
                           Heir(c, t, now, active, next);
      var waits := next.Some? && heir != next.value;
      forall k :: (k in o.table && o.table[k].status == Next) <==>
        if waits then Some(k) == next
        else k == kid && OlderThan(t[heir].createdAt, c.rotationInterval, now)
  {}

  /** Keys not involved keep their rows, except that expired retiring ones go; none of those remain. */
  lemma RotationSparesOthers(c: Config, t: Table, io: Io, now: Instant, insertAt: Instant, cleanAt: Instant,
                             kid: Kid, active: Option<Kid>, next: Option<Kid>)
    requires AllOk(io) && kid !in t && Picks(t, Active, active) && Picks(t, Next, next)
    ensures var o := RotateOutcome(c, t, io, now, insertAt, cleanAt, kid, active, next);
      && (forall k | k in o.table :: !Expired(o.table[k], cleanAt))
      && (forall k | k in t && Some(k) != active && Some(k) != next ::
            if Expired(t[k], cleanAt) then k !in o.table else k in o.table && o.table[k] == t[k])
      && (active.None? ==> o.table == Cleaned(t, cleanAt))
  {}

  // ---------- The methods' effects are runs of the protocol ----------

  /** The promotion phase as protocol steps, from the statement that lists the keys. */
  lemma PromotionRun(c: Config, s: State, io: Io, active: Option<Kid>, next: Option<Kid>)
    returns (took: seq<Step>)
    requires s.pc.DoList? && Picks(s.table, Active, active) && Picks(s.table, Next, next)
    ensures Runs(c, s, took) && (AllOk(io) ==> Smooth(took))
    ensures var p, s' := PromotionOutcome(c, s.table, io, s.pc.now, active, next), After(c, s, took);
      && s'.table == p.table && s'.clock == s.clock && s'.used == s.used
      && s'.pc == if !p.ok then Idle
                  else if Generates(c, s.table, s.pc.now, active, next) then DoInsert(s.pc.now) else DoCleanup
  {
    took := [];
    Extend(c, s, took, List(active, next));
    took := took + [List(active, next)];
    if Due(c, s.table, s.pc.now, active, next) {
      if !io.retire {
        Extend(c, s, took, Abort);
        took := took + [Abort];
        return;
      }
      Extend(c, s, took, Retire);
      took := took + [Retire];
      var last := if io.promote then Promote else Abort;
      Extend(c, s, took, last);
      took := took + [last];
    }
  }

  lemma FinishRun(c: Config, s: State, io: Io, insertAt: Instant, cleanAt: Instant, kid: Kid)
    returns (took: seq<Step>)
    requires s.pc.DoInsert? || s.pc.DoCleanup?
    requires s.clock <= insertAt <= cleanAt && kid !in s.used
    ensures Runs(c, s, took) && After(c, s, took).pc.Idle? && (AllOk(io) ==> Smooth(took))
    ensures After(c, s, took).table ==
      if s.pc.DoInsert? && !io.insert then s.table
      else
        var t2 := if s.pc.DoInsert?
                  then s.table[kid := Row(Unix(insertAt), FreshRetiresAt(c, s.pc.now), Next)] else s.table;
        if io.cleanup then Cleaned(t2, cleanAt) else t2
  {
    took := [];
    Extend(c, s, took, Tick(insertAt));
    took := took + [Tick(insertAt)];
    if s.pc.DoInsert? {
      var step := if io.insert then Insert(kid) else Abort;
      Extend(c, s, took, step);
      took := took + [step];
      if !io.insert { return; }
    }
    Extend(c, s, took, Tick(cleanAt));
    took := took + [Tick(cleanAt)];
    var last := if io.cleanup then Cleanup else Abort;
    Extend(c, s, took, last);
    took := took + [last];
  }

  /** Whatever `Rotate` does to the table, failures included, is an uninterrupted run of the
      protocol from an idle rotator back to an idle rotator; without failures, one without an abort. */
  lemma RotateIsARun(c: Config, s: State, io: Io, now: Instant, insertAt: Instant, cleanAt: Instant,
                     kid: Kid, active: Option<Kid>, next: Option<Kid>)
    returns (took: seq<Step>)
    requires s.pc.Idle? && s.clock <= now <= insertAt <= cleanAt && kid !in s.used
    requires Picks(s.table, Active, active) && Picks(s.table, Next, next)
    ensures Runs(c, s, took) && After(c, s, took).pc.Idle? && (AllOk(io) ==> Smooth(took))
    ensures After(c, s, took).table ==
      RotateOutcome(c, s.table, io, now, insertAt, cleanAt, kid, active, next).table
  {
    var start := s.(clock := now, pc := DoList(now));
    assert After(c, s, [Tick(now), RotateBegin]) == start && Runs(c, s, [Tick(now), RotateBegin]) by {
      TwoSteps(c, s, Tick(now), RotateBegin);
    }
    var rest;
    if !io.list {
      Extend(c, start, [], Abort);
      rest := [] + [Abort];
    } else {
      rest := PromotionRun(c, start, io, active, next);
      var mid := After(c, start, rest);
      if !mid.pc.Idle? {
        var last := FinishRun(c, mid, io, insertAt, cleanAt, kid);
        RunsThen(c, start, rest, last);
        rest := rest + last;
      }
    }
    RunsThen(c, s, [Tick(now), RotateBegin], rest);
    took := [Tick(now), RotateBegin] + rest;
  }

  /** Whatever `Ensure` does to the table is a run of the protocol from boot: to an idle rotator, or, when
      it fails and the process exits, back to boot. */
  lemma EnsureIsARun(c: Config, s: State, lookup: bool, insert: bool, now: Instant, insertAt: Instant,
                     kid: Kid, found: Option<Kid>)
    returns (took: seq<Step>)
    requires s.pc.Boot? && s.clock <= now <= insertAt && kid !in s.used && Picks(s.table, Active, found)
    ensures Runs(c, s, took) && (lookup && insert ==> Smooth(took))
    ensures var o, s' := EnsureOutcome(c, s.table, lookup, insert, now, insertAt, kid, found), After(c, s, took);
      s'.table == o.table && s'.pc == if o.ok then Idle else Boot
  {
    took := [];
    if !lookup { return; }
    Extend(c, s, took, EnsureRead(found));
    took := took + [EnsureRead(found)];
    if found.Some? { return; }
    if !insert {
      Extend(c, s, took, Restart);
      took := took + [Restart];
      return;
    }
    Extend(c, s, took, Tick(insertAt));
    took := took + [Tick(insertAt)];
    Extend(c, s, took, EnsureInsert(kid, now));
    took := took + [EnsureInsert(kid, now)];
  }
}
