/** The inductive invariant of the signing-key protocol, kept by every step of every interleaving. */
module KeyInvariant {
  import opened Clock
  import opened KeyProtocol

  ghost predicate NoneIs(t: Table, status: Status) {
    forall kid | kid in t :: t[kid].status != status
  }

  ghost predicate AtMostOne(t: Table, status: Status) {
    forall a, b | a in t && b in t && t[a].status == status && t[b].status == status :: a == b
  }

  /** What the rotator may rely on at each program point, whatever the other actors do. */
  ghost predicate PcOk(c: Config, s: State) {
    match s.pc
    case Boot => true
    case EnsureMissing => NoneIs(s.table, Active)
    case Idle => true
    case DoList(now) => now <= s.clock
    case DoRetire(now, outgoing, incoming, row) =>
      && now <= s.clock
      && outgoing in s.table && s.table[outgoing].status == Active
      && incoming in s.table && s.table[incoming] == row && row.status == Next
      && OlderThan(row.createdAt, c.overlap, now)
    case DoPromote(now, outgoing, incoming, row) =>
      && now <= s.clock
      && NoneIs(s.table, Active)
      && outgoing in s.retiredAt && s.retiredAt[outgoing] == now
      && incoming in s.table && s.table[incoming] == row && row.status == Next
      && OlderThan(row.createdAt, c.overlap, now)
    case DoInsert(now) => now <= s.clock && NoneIs(s.table, Next)
    case DoCleanup => true
  }

  /** A key is retiring exactly when some rotation retired it, and its row leaves the table only
      once the retirement deadline of that rotation has passed. */
  ghost predicate RetirementOk(c: Config, s: State) {
    RetiringOk(c, s) && DeletedOk(c, s)
  }

  ghost predicate RetiringOk(c: Config, s: State) {
    && s.table.Keys <= s.used
    && s.retiredAt.Keys <= s.used
    && (forall kid | kid in s.table :: s.table[kid].status == Retiring <==> kid in s.retiredAt)
    && (forall kid | kid in s.table && kid in s.retiredAt ::
          s.table[kid].retiresAt == RetiresAt(c, s.retiredAt[kid]))
  }

  ghost predicate DeletedOk(c: Config, s: State) {
    forall kid | kid in s.used && kid !in s.table ::
      kid in s.retiredAt && RetiresAt(c, s.retiredAt[kid]) <= Unix(s.clock)
  }

  /** Tokens are signed, and about to be signed, only by keys that have been active. */
  ghost predicate SignersOk(s: State) {
    && (forall tok | tok in s.tokens ::
          tok.signedAt <= s.clock && tok.kid in s.used &&
          (tok.kid in s.table ==> s.table[tok.kid].status != Next))
    && (forall r | r in s.pending ::
          s.pending[r] in s.used && (s.pending[r] in s.table ==> s.table[s.pending[r]].status != Next))
  }

  ghost predicate StampsOk(s: State) {
    && s.insertedAt.Keys == s.used && s.bornNext <= s.used
    && (forall kid | kid in s.table :: kid in s.insertedAt && s.table[kid].createdAt == Unix(s.insertedAt[kid]))
  }

  /** A key that entered as `next` and no longer is was promoted after more than the overlap. */
  ghost predicate BirthsOk(c: Config, s: State) {
    && (forall kid | kid in s.table && s.table[kid].status == Next :: kid in s.bornNext)
    && (forall kid | kid in s.table && kid in s.bornNext && s.table[kid].status != Next ::
          kid in s.promotedAt && s.promotedAt[kid] <= s.clock &&
          OlderThan(s.table[kid].createdAt, c.overlap, s.promotedAt[kid]))
  }

  ghost predicate Spaced(c: Config, ps: seq<Promotion>) {
    forall i | 0 <= i < |ps| - 1 ::
      Unix(ps[i].reading) + Unix(c.overlap) <= Unix(ps[i + 1].reading)
  }

  /** Completed rotations are spaced by the overlap. */
  ghost predicate PromotionsOk(c: Config, s: State) {
    && Spaced(c, s.promotions)
    && (forall i | 0 <= i < |s.promotions| ::
          s.promotions[i].reading <= s.clock && s.promotions[i].outgoing in s.retiredAt &&
          s.retiredAt[s.promotions[i].outgoing] == s.promotions[i].reading)
  }

  /** Any key now waiting as `next` was created after the last completed rotation. */
  ghost predicate WaitingOk(s: State) {
    s.promotions != [] ==>
      forall kid | kid in s.table && s.table[kid].status == Next ::
        Unix(s.promotions[|s.promotions| - 1].reading) <= s.table[kid].createdAt
  }

  ghost predicate UniqueOk(s: State) {
    AtMostOne(s.table, Active) && AtMostOne(s.table, Next)
  }

  ghost predicate Inv(c: Config, s: State) {
    && UniqueOk(s)
    && PcOk(c, s)
    && RetirementOk(c, s)
    && SignersOk(s)
    && StampsOk(s)
    && BirthsOk(c, s)
    && PromotionsOk(c, s)
    && WaitingOk(s)
  }

  lemma StepKeepsUnique(c: Config, s: State, step: Step)
    requires UniqueOk(s) && PcOk(c, s) && Enabled(c, s, step)
    ensures UniqueOk(Apply(c, s, step))
  {}

  lemma StepKeepsPc(c: Config, s: State, step: Step)
    requires UniqueOk(s) && PcOk(c, s) && Enabled(c, s, step)
    ensures PcOk(c, Apply(c, s, step))
  {}

  lemma StepKeepsRetiring(c: Config, s: State, step: Step)
    requires PcOk(c, s) && RetiringOk(c, s) && Enabled(c, s, step)
    ensures RetiringOk(c, Apply(c, s, step))
  {}

  lemma StepKeepsDeleted(c: Config, s: State, step: Step)
    requires PcOk(c, s) && RetiringOk(c, s) && DeletedOk(c, s) && Enabled(c, s, step)
    ensures DeletedOk(c, Apply(c, s, step))
  {
    if step.Tick? { UnixMonotone(s.clock, step.t); }
  }

  lemma StepKeepsSigners(c: Config, s: State, step: Step)
    requires s.table.Keys <= s.used && SignersOk(s) && Enabled(c, s, step)
    ensures SignersOk(Apply(c, s, step))
  {}

  lemma StepKeepsStamps(c: Config, s: State, step: Step)
    requires s.table.Keys <= s.used && StampsOk(s) && Enabled(c, s, step)
    ensures StampsOk(Apply(c, s, step))
  {}

  lemma StepKeepsBirths(c: Config, s: State, step: Step)
    requires PcOk(c, s) && s.table.Keys <= s.used && s.bornNext <= s.used
    requires BirthsOk(c, s) && Enabled(c, s, step)
    ensures BirthsOk(c, Apply(c, s, step))
  {}

  lemma StepKeepsPromotions(c: Config, s: State, step: Step)
    requires PcOk(c, s) && PromotionsOk(c, s) && WaitingOk(s) && Enabled(c, s, step)
    requires forall kid | kid in s.table && kid in s.retiredAt :: s.table[kid].status == Retiring
    ensures PromotionsOk(c, Apply(c, s, step))
  {
    if step.Promote? {
      var row, now := s.pc.incomingRow, s.pc.now;
      UnixMonotone(Seconds(row.createdAt) + c.overlap, now);
      UnixShift(c.overlap, Seconds(row.createdAt) + c.overlap, row.createdAt);
    }
  }

  lemma StepKeepsWaiting(c: Config, s: State, step: Step)
    requires UniqueOk(s) && PcOk(c, s) && PromotionsOk(c, s) && WaitingOk(s) && Enabled(c, s, step)
    ensures WaitingOk(Apply(c, s, step))
  {
    if step.Insert? && s.promotions != [] {
      UnixMonotone(s.promotions[|s.promotions| - 1].reading, s.clock);
    }
  }

  lemma StepKeepsInv(c: Config, s: State, step: Step)
    requires Inv(c, s) && Enabled(c, s, step)
    ensures Inv(c, Apply(c, s, step))
  {
    StepKeepsUnique(c, s, step);
    StepKeepsPc(c, s, step);
    StepKeepsRetiring(c, s, step);
    StepKeepsDeleted(c, s, step);
    StepKeepsSigners(c, s, step);
    StepKeepsStamps(c, s, step);
    StepKeepsBirths(c, s, step);
    StepKeepsPromotions(c, s, step);
    StepKeepsWaiting(c, s, step);
  }

  lemma {:induction false} RunKeepsInv(c: Config, s: State, steps: seq<Step>)
    requires Inv(c, s) && Runs(c, s, steps)
    ensures Inv(c, After(c, s, steps))
    decreases |steps|
  {
    if steps != [] {
      StepKeepsInv(c, s, steps[0]);
      RunKeepsInv(c, Apply(c, s, steps[0]), steps[1..]);
    }
  }
}
