/** The life of the sidecar's signing keys as one protocol.

    Four actors share the `signing_keys` table: `Ensure` at boot, the rotator goroutine,
    the janitor goroutine, and any number of requests minting tokens. Each store statement is
    one step, so the steps below interleave exactly as the goroutines do. A rotation is a
    program counter naming the store statement it will issue next, together with the clock
    reading and the listed rows it carries from its earlier statements. */
module KeyProtocol {
  import opened Clock
  import opened Wrappers

  type Kid = string

  datatype Status = Next | Active | Retiring

  /** A `signing_keys` row; `createdAt` and `retiresAt` are whole seconds. */
  datatype Row = Row(createdAt: int, retiresAt: int, status: Status)

  type Table = map<Kid, Row>

  datatype Config = Config(rotationInterval: Duration, overlap: Duration, accessTTL: Duration)

  // ---------- Store statements ----------

  /** `UPDATE signing_keys SET status=?, retires_at=? WHERE kid=?` */
  function WithStatus(t: Table, kid: Kid, status: Status, retiresAt: int): Table {
    if kid in t then t[kid := t[kid].(status := status, retiresAt := retiresAt)] else t
  }

  predicate Expired(row: Row, now: Instant) {
    row.status == Retiring && row.retiresAt <= Unix(now)
  }

  /** `DELETE FROM signing_keys WHERE status='retiring' AND retires_at <= now` */
  function Cleaned(t: Table, now: Instant): Table {
    map kid | kid in t && !Expired(t[kid], now) :: t[kid]
  }

  /** What a query for one row of the given status may return. */
  ghost predicate Picks(t: Table, status: Status, choice: Option<Kid>) {
    match choice
    case Some(kid) => kid in t && t[kid].status == status
    case None => forall kid | kid in t :: t[kid].status != status
  }

  // ---------- State ----------

  /** The statement the boot sequence or the rotator issues next. */
  datatype Pc =
    | Boot
    | EnsureMissing
    | Idle
    | DoList(now: Instant)
    | DoRetire(now: Instant, outgoing: Kid, incoming: Kid, incomingRow: Row)
    | DoPromote(now: Instant, outgoing: Kid, incoming: Kid, incomingRow: Row)
    | DoInsert(now: Instant)
    | DoCleanup

  datatype Token = Token(kid: Kid, signedAt: Instant)

  /** One completed rotation: `outgoing` was set retiring, then `incoming` active, under one clock reading. */
  datatype Promotion = Promotion(outgoing: Kid, incoming: Kid, reading: Instant)

  /** The shared store, the two kinds of in-flight work, and history: which kids were ever used,
      when each was inserted, with which rotation reading it was retired or promoted, and every
      token signed so far. */
  datatype State = State(
    clock: Instant,
    table: Table,
    pc: Pc,
    pending: map<int, Kid>,
    tokens: set<Token>,
    used: set<Kid>,
    bornNext: set<Kid>,
    insertedAt: map<Kid, Instant>,
    retiredAt: map<Kid, Instant>,
    promotedAt: map<Kid, Instant>,
    promotions: seq<Promotion>)

  function Initial(clock: Instant): State {
    State(clock, map[], Boot, map[], {}, {}, {}, map[], map[], map[], [])
  }

  // ---------- Steps ----------

  datatype Step =
    | Tick(t: Instant)
    | Restart
    | EnsureRead(found: Option<Kid>)
    | EnsureInsert(kid: Kid, reading: Instant)
    | RotateBegin
    | List(active: Option<Kid>, next: Option<Kid>)
    | Retire
    | Promote
    | Insert(kid: Kid)
    | Cleanup
    | Abort
    | JanitorCleanup
    | MintRead(request: int, kid: Kid)
    | MintSign(request: int)

  /** `created.Add(d).Before(now)` */
  predicate OlderThan(createdAt: int, d: Duration, now: Instant) {
    Seconds(createdAt) + d < now
  }

  function GenerateOrClean(c: Config, now: Instant, activeCreated: Option<int>, hasNext: bool): Pc {
    if activeCreated.Some? && !hasNext && OlderThan(activeCreated.value, c.rotationInterval, now)
    then DoInsert(now) else DoCleanup
  }

  function CreatedAt(t: Table, choice: Option<Kid>): Option<int> {
    if choice.Some? && choice.value in t then Some(t[choice.value].createdAt) else None
  }

  /** Where `rotate` goes once it has scanned the listed rows. */
  function Plan(c: Config, t: Table, now: Instant, active: Option<Kid>, next: Option<Kid>): Pc
    requires next.Some? ==> next.value in t
  {
    if active.Some? && next.Some? && OlderThan(t[next.value].createdAt, c.overlap, now)
    then DoRetire(now, active.value, next.value, t[next.value])
    else GenerateOrClean(c, now, CreatedAt(t, active), next.Some?)
  }

  function RetiresAt(c: Config, now: Instant): int {
    Unix(now + c.accessTTL + Seconds(3600))
  }

  function FreshRetiresAt(c: Config, now: Instant): int {
    Unix(now + c.rotationInterval + c.accessTTL + Seconds(48 * 3600))
  }

  predicate Serving(s: State) {
    !s.pc.Boot? && !s.pc.EnsureMissing?
  }

  ghost predicate Enabled(c: Config, s: State, step: Step) {
    match step
    case Tick(t) => s.clock <= t
    case Restart => true
    case EnsureRead(found) => s.pc.Boot? && Picks(s.table, Active, found)
    case EnsureInsert(kid, reading) => s.pc.EnsureMissing? && kid !in s.used && reading <= s.clock
    case RotateBegin => s.pc.Idle?
    case List(active, next) => s.pc.DoList? && Picks(s.table, Active, active) && Picks(s.table, Next, next)
    case Retire => s.pc.DoRetire?
    case Promote => s.pc.DoPromote?
    case Insert(kid) => s.pc.DoInsert? && kid !in s.used
    case Cleanup => s.pc.DoCleanup?
    case Abort => Serving(s) && !s.pc.Idle?
    case JanitorCleanup => true
    case MintRead(request, kid) =>
      Serving(s) && request !in s.pending && kid in s.table && s.table[kid].status == Active
    case MintSign(request) => request in s.pending
  }

  function AddKey(s: State, kid: Kid, row: Row): State {
    s.(table := s.table[kid := row], used := s.used + {kid}, insertedAt := s.insertedAt[kid := s.clock])
  }

  ghost function Apply(c: Config, s: State, step: Step): State
    requires Enabled(c, s, step)
  {
    match step
    case Tick(t) => s.(clock := t)
    case Restart => s.(pc := Boot, pending := map[])
    case EnsureRead(found) => s.(pc := if found.Some? then Idle else EnsureMissing)
    case EnsureInsert(kid, reading) =>
      AddKey(s, kid, Row(Unix(s.clock), FreshRetiresAt(c, reading), Active)).(pc := Idle)
    case RotateBegin => s.(pc := DoList(s.clock))
    case List(active, next) => s.(pc := Plan(c, s.table, s.pc.now, active, next))
    case Retire =>
      s.(table := WithStatus(s.table, s.pc.outgoing, Retiring, RetiresAt(c, s.pc.now)),
         pc := DoPromote(s.pc.now, s.pc.outgoing, s.pc.incoming, s.pc.incomingRow),
         retiredAt := s.retiredAt[s.pc.outgoing := s.pc.now])
    case Promote =>
      s.(table := WithStatus(s.table, s.pc.incoming, Active, s.pc.incomingRow.retiresAt),
         pc := GenerateOrClean(c, s.pc.now, Some(s.pc.incomingRow.createdAt), false),
         promotedAt := s.promotedAt[s.pc.incoming := s.pc.now],
         promotions := s.promotions + [Promotion(s.pc.outgoing, s.pc.incoming, s.pc.now)])
    case Insert(kid) =>
      AddKey(s, kid, Row(Unix(s.clock), FreshRetiresAt(c, s.pc.now), Next))
      .(pc := DoCleanup, bornNext := s.bornNext + {kid})
    case Cleanup => s.(table := Cleaned(s.table, s.clock), pc := Idle)
    case Abort => s.(pc := Idle)
    case JanitorCleanup => s.(table := Cleaned(s.table, s.clock))
    case MintRead(request, kid) => s.(pending := s.pending[request := kid])
    case MintSign(request) =>
      s.(tokens := s.tokens + {Token(s.pending[request], s.clock)}, pending := s.pending - {request})
  }

  /** `steps` can be taken one after the other from `s`. */
  ghost predicate Runs(c: Config, s: State, steps: seq<Step>)
    decreases |steps|
  {
    steps == [] || (Enabled(c, s, steps[0]) && Runs(c, Apply(c, s, steps[0]), steps[1..]))
  }

  ghost function After(c: Config, s: State, steps: seq<Step>): State
    requires Runs(c, s, steps)
    decreases |steps|
  {
    if steps == [] then s else After(c, Apply(c, s, steps[0]), steps[1..])
  }

  lemma {:induction false} RunsThen(c: Config, s: State, steps: seq<Step>, more: seq<Step>)
    requires Runs(c, s, steps) && Runs(c, After(c, s, steps), more)
    ensures Runs(c, s, steps + more)
    ensures After(c, s, steps + more) == After(c, After(c, s, steps), more)
    decreases |steps|
  {
    if steps == [] {
      assert steps + more == more;
    } else {
      RunsThen(c, Apply(c, s, steps[0]), steps[1..], more);
      assert (steps + more)[1..] == steps[1..] + more;
    }
  }

  lemma OneStep(c: Config, s: State, step: Step)
    requires Enabled(c, s, step)
    ensures Runs(c, s, [step]) && After(c, s, [step]) == Apply(c, s, step)
  {
    assert [step][1..] == [];
    assert Runs(c, Apply(c, s, step), []) && After(c, Apply(c, s, step), []) == Apply(c, s, step);
  }

  lemma Extend(c: Config, s: State, steps: seq<Step>, step: Step)
    requires Runs(c, s, steps) && Enabled(c, After(c, s, steps), step)
    ensures Runs(c, s, steps + [step])
    ensures After(c, s, steps + [step]) == Apply(c, After(c, s, steps), step)
  {
    OneStep(c, After(c, s, steps), step);
    RunsThen(c, s, steps, [step]);
  }

  lemma TwoSteps(c: Config, s: State, first: Step, second: Step)
    requires Enabled(c, s, first) && Enabled(c, Apply(c, s, first), second)
    ensures Runs(c, s, [first, second])
    ensures After(c, s, [first, second]) == Apply(c, Apply(c, s, first), second)
  {
    OneStep(c, s, first);
    Extend(c, s, [first], second);
    assert [first] + [second] == [first, second];
  }
}
