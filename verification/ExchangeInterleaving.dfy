/** Token exchanges that run at the same time, one store statement per step.

    Each exchange looks its row up, deletes it, checks it, mints and inserts; between any two of its
    statements the others, the janitor, a revoke or a callback may act. */
module ExchangeInterleaving {
  import opened Clock
  import opened Wrappers
  import opened GrantTypes
  import opened GrantSpec
  import opened GrantRuns

  datatype Row = CodeRow(code: Code) | RefreshRow(refresh: Refresh)

  type ExchangeOp = op: Op | op.ExchangeCode? || op.ExchangeRefresh?
    witness ExchangeCode(Io(true, true, true, true, true), Credentials("", "", None), "", "", "", false, None)

  /** Where an exchange is. `at` is the number of the step that looked the row up. */
  datatype Pc =
    | Begun
    | Found(row: Row, at: nat)
    | Cleared(row: Row, at: nat)
    | Accepted(next: Refresh, at: nat)
    | Minted(next: Refresh, at: nat)
    | Served(at: nat)
    | Refused

  datatype Exchange = Exchange(op: ExchangeOp, client: string, pc: Pc)

  /** `made` are the keys ever stored, `deleted` the step of the completed delete of each row. */
  datatype Store = Store(
    rows: map<Artefact, Row>, exchanges: map<nat, Exchange>, made: set<Artefact>,
    deleted: map<Artefact, nat>, steps: nat)

  datatype Action =
    | Begin(id: nat, op: ExchangeOp, client: string)
    | Lookup(id: nat)
    | Delete(id: nat)
    | Check(id: nat, now: Instant)
    | Mint(id: nat, now: Instant)
    | Insert(id: nat)
    | Remove(key: Artefact)
    | Put(key: Artefact, row: Row)

  function KeyOf(env: Env, op: ExchangeOp): Artefact {
    match op
    case ExchangeCode(_, _, code, _, _, _, _) => CodeOf(code)
    case ExchangeRefresh(_, _, token, _, _, _, _, _) => RefreshOf(env.hash(token))
  }

  /** The parameters the exchange needs before it looks anything up. */
  predicate Presented(op: ExchangeOp) {
    match op
    case ExchangeCode(_, _, code, uri, verifier, _, _) => code != "" && uri != "" && verifier != ""
    case ExchangeRefresh(_, _, token, _, _, _, _, _) => token != ""
  }

  /** The key of the refresh token drawn for an exchange. */
  function NewKey(env: Env, op: ExchangeOp): Artefact {
    RefreshOf(NewHash(env, op.refresh))
  }

  /** The checks after the delete, up to minting: the row to store next when they pass. */
  function Checked(env: Env, x: Exchange, row: Row, now: Instant): Option<Refresh> {
    match (x.op, row)
    case (ExchangeCode(_, _, _, uri, verifier, _, _), CodeRow(c)) =>
      if CodeAccepts(env, c, x.client, uri, verifier, now)
      then Some(Refresh(c.sub, c.resource, c.clientID, c.claims, c.upstreamEnc, c.scopes, c.expiresAt))
      else None
    case (ExchangeRefresh(_, _, _, call, nonce, _, _, _), RefreshRow(r)) =>
      if !RefreshAccepts(r, x.client, now) then None
      else (match UpstreamRefreshed(env, r.upstreamEnc, call, nonce)
            case None => None
            case Some(enc) => Some(r.(upstreamEnc := enc)))
    case _ => None
  }

  /** The statements add up to the handlers: with the row found, minting follows exactly when the
      handler's verdict is to make that next row. */
  lemma StatementsMatchHandlers(env: Env, x: Exchange, row: Row, now: Instant)
    requires Presented(x.op) && x.op.io.lookup
    ensures x.op.ExchangeCode? && row.CodeRow? ==>
      var v := CodeVerdict(env, Some(row.code), now, x.op, x.client);
      && (v.Make? <==> Checked(env, x, row, now).Some? && x.op.minted && x.op.refresh.Some?)
      && (v.Make? ==> v.row == Checked(env, x, row, now).value.(expiresAt := Unix(now + env.refreshTTL)))
    ensures x.op.ExchangeRefresh? && row.RefreshRow? ==>
      var v := RefreshVerdict(env, Some(row.refresh), now, x.op, x.client);
      && (v.Make? <==> Checked(env, x, row, now).Some? && x.op.minted && x.op.refresh.Some?)
      && (v.Make? ==> v.row == Checked(env, x, row, now).value.(expiresAt := Unix(now + x.op.elapsed + env.refreshTTL)))
  {}

  predicate Enabled(env: Env, s: Store, a: Action) {
    match a
    case Begin(id, _, _) => id !in s.exchanges
    case Lookup(id) => id in s.exchanges && s.exchanges[id].pc.Begun?
    case Delete(id) => id in s.exchanges && s.exchanges[id].pc.Found?
    case Check(id, _) => id in s.exchanges && s.exchanges[id].pc.Cleared?
    case Mint(id, _) => id in s.exchanges && s.exchanges[id].pc.Accepted?
    case Insert(id) =>
      id in s.exchanges && s.exchanges[id].pc.Minted? && NewKey(env, s.exchanges[id].op) !in s.made
    case Remove(_) => true
    case Put(key, _) => key !in s.made
  }

  function Goes(s: Store, id: nat, pc: Pc): Store
    requires id in s.exchanges
  {
    s.(exchanges := s.exchanges[id := s.exchanges[id].(pc := pc)])
  }

  /** A completed `DELETE` of a key; it counts as a delete of the row when there is one. */
  function Deleted(s: Store, key: Artefact): Store {
    if key in s.rows then s.(rows := s.rows - {key}, deleted := s.deleted[key := s.steps]) else s
  }

  function Added(s: Store, key: Artefact, row: Row): Store {
    s.(rows := s.rows[key := row], made := s.made + {key})
  }

  function Effect(env: Env, s: Store, a: Action): Store
    requires Enabled(env, s, a)
  {
    match a
    case Begin(id, op, client) => s.(exchanges := s.exchanges[id := Exchange(op, client, Begun)])
    case Lookup(id) =>
      var x := s.exchanges[id];
      var key := KeyOf(env, x.op);
      Goes(s, id, if Presented(x.op) && x.op.io.lookup && key in s.rows then Found(s.rows[key], s.steps) else Refused)
    case Delete(id) =>
      var x := s.exchanges[id];
      Goes(if x.op.io.delete then Deleted(s, KeyOf(env, x.op)) else s, id, Cleared(x.pc.row, x.pc.at))
    case Check(id, now) =>
      var x := s.exchanges[id];
      var next := Checked(env, x, x.pc.row, now);
      Goes(s, id, if next.Some? then Accepted(next.value, x.pc.at) else Refused)
    case Mint(id, now) =>
      var x := s.exchanges[id];
      Goes(s, id, if x.op.minted && x.op.refresh.Some?
                  then Pc.Minted(x.pc.next.(expiresAt := Unix(now + env.refreshTTL)), x.pc.at) else Refused)
    case Insert(id) =>
      var x := s.exchanges[id];
      if x.op.io.insert then Goes(Added(s, NewKey(env, x.op), RefreshRow(x.pc.next)), id, Served(x.pc.at))
      else Goes(s, id, Refused)
    case Remove(key) => Deleted(s, key)
    case Put(key, row) => Added(s, key, row)
  }

  function Step(env: Env, s: Store, a: Action): Store
    requires Enabled(env, s, a)
  {
    Effect(env, s, a).(steps := s.steps + 1)
  }

  predicate Runs(env: Env, s: Store, acts: seq<Action>)
    decreases |acts|
  {
    acts == [] || (Enabled(env, s, acts[0]) && Runs(env, Step(env, s, acts[0]), acts[1..]))
  }

  function AfterRun(env: Env, s: Store, acts: seq<Action>): Store
    requires Runs(env, s, acts)
    decreases |acts|
  {
    if acts == [] then s else AfterRun(env, Step(env, s, acts[0]), acts[1..])
  }

  const EMPTY: Store := Store(map[], map[], {}, map[], 0)

  // ---------- Lookup before delete ----------

  /** The step of an exchange's successful lookup, if it has one and was not refused. */
  function LookedUp(pc: Pc): Option<nat> {
    match pc
    case Begun => None
    case Refused => None
    case Served(at) => Some(at)
    case _ => Some(pc.at)
  }

  /** A deleted row is gone for good: its key was drawn once and is never stored again. */
  ghost predicate GoneForGood(s: Store) {
    && s.rows.Keys <= s.made && s.deleted.Keys <= s.made
    && forall k | k in s.deleted :: k !in s.rows && s.deleted[k] < s.steps
  }

  ghost predicate InTime(env: Env, s: Store, x: Exchange) {
    LookedUp(x.pc).Some? ==>
      var at, key := LookedUp(x.pc).value, KeyOf(env, x.op);
      at < s.steps && key in s.made && (key in s.deleted ==> at < s.deleted[key])
  }

  ghost predicate Inv(env: Env, s: Store) {
    GoneForGood(s) && forall id | id in s.exchanges :: InTime(env, s, s.exchanges[id])
  }

  lemma StepKeepsGone(env: Env, s: Store, a: Action)
    requires GoneForGood(s) && Enabled(env, s, a)
    ensures GoneForGood(Step(env, s, a))
  {}

  predicate Acts(a: Action, id: nat) {
    match a
    case Begin(i, _, _) => i == id
    case Lookup(i) => i == id
    case Delete(i) => i == id
    case Check(i, _) => i == id
    case Mint(i, _) => i == id
    case Insert(i) => i == id
    case _ => false
  }

  lemma BystanderInTime(env: Env, s: Store, a: Action, id: nat)
    requires GoneForGood(s) && Enabled(env, s, a) && id in s.exchanges && !Acts(a, id) && InTime(env, s, s.exchanges[id])
    ensures var s' := Step(env, s, a); id in s'.exchanges && InTime(env, s', s'.exchanges[id])
  {}

  lemma ActorInTime(env: Env, s: Store, a: Action, id: nat)
    requires GoneForGood(s) && Enabled(env, s, a) && Acts(a, id) && (id in s.exchanges ==> InTime(env, s, s.exchanges[id]))
    ensures var s' := Step(env, s, a); id in s'.exchanges && InTime(env, s', s'.exchanges[id])
  {}

  lemma StepKeepsInTime(env: Env, s: Store, a: Action, id: nat)
    requires Inv(env, s) && Enabled(env, s, a) && id in Step(env, s, a).exchanges
    ensures InTime(env, Step(env, s, a), Step(env, s, a).exchanges[id])
  {
    if Acts(a, id) { ActorInTime(env, s, a, id); } else { BystanderInTime(env, s, a, id); }
  }

  lemma {:induction false} RunKeepsInv(env: Env, s: Store, acts: seq<Action>)
    requires Inv(env, s) && Runs(env, s, acts)
    ensures Inv(env, AfterRun(env, s, acts))
    decreases |acts|
  {
    if acts != [] {
      var s' := Step(env, s, acts[0]);
      StepKeepsGone(env, s, acts[0]);
      forall id | id in s'.exchanges ensures InTime(env, s', s'.exchanges[id]) {
        StepKeepsInTime(env, s, acts[0], id);
      }
      RunKeepsInv(env, s', acts[1..]);
    }
  }

  /** In every interleaving, an exchange that has minted did its lookup before the row's delete completed. */
  lemma MintersLookedUpFirst(env: Env, acts: seq<Action>, id: nat)
    requires Runs(env, EMPTY, acts)
    requires var s := AfterRun(env, EMPTY, acts);
      id in s.exchanges && (s.exchanges[id].pc.Minted? || s.exchanges[id].pc.Served?)
    ensures var s := AfterRun(env, EMPTY, acts);
      var key := KeyOf(env, s.exchanges[id].op);
      key in s.deleted ==> s.exchanges[id].pc.at < s.deleted[key]
  {
    RunKeepsInv(env, EMPTY, acts);
    assert InTime(env, AfterRun(env, EMPTY, acts), AfterRun(env, EMPTY, acts).exchanges[id]);
  }

  // ---------- Too late is never served ----------

  /** An exchange that had not looked up when the row was deleted. */
  ghost predicate TooLate(env: Env, s: Store, id: nat) {
    && GoneForGood(s) && id in s.exchanges && KeyOf(env, s.exchanges[id].op) in s.deleted
    && (s.exchanges[id].pc.Begun? || s.exchanges[id].pc.Refused?)
  }

  lemma StepKeepsTooLate(env: Env, s: Store, a: Action, id: nat)
    requires TooLate(env, s, id) && Enabled(env, s, a)
    ensures TooLate(env, Step(env, s, a), id)
  {
    StepKeepsGone(env, s, a);
  }

  lemma {:induction false} StaysTooLate(env: Env, s: Store, acts: seq<Action>, id: nat)
    requires TooLate(env, s, id) && Runs(env, s, acts)
    ensures TooLate(env, AfterRun(env, s, acts), id)
    decreases |acts|
  {
    if acts != [] {
      StepKeepsTooLate(env, s, acts[0], id);
      StaysTooLate(env, Step(env, s, acts[0]), acts[1..], id);
    }
  }

  /** An exchange whose lookup comes after the completed delete never mints, in any continuation. */
  lemma LateLookupNeverMints(env: Env, acts: seq<Action>, later: seq<Action>, id: nat)
    requires Runs(env, EMPTY, acts) && Runs(env, AfterRun(env, EMPTY, acts), later)
    requires var s := AfterRun(env, EMPTY, acts);
      id in s.exchanges && s.exchanges[id].pc.Begun? && KeyOf(env, s.exchanges[id].op) in s.deleted
    ensures var s' := AfterRun(env, AfterRun(env, EMPTY, acts), later);
      id in s'.exchanges && (s'.exchanges[id].pc.Begun? || s'.exchanges[id].pc.Refused?)
  {
    RunKeepsInv(env, EMPTY, acts);
    StaysTooLate(env, AfterRun(env, EMPTY, acts), later, id);
  }

  // ---------- Every early lookup can be served ----------

  /** All of an exchange's own statements succeed and its row passes the checks. */
  ghost predicate Servable(env: Env, s: Store, id: nat, now: Instant) {
    && id in s.exchanges && s.exchanges[id].pc.Found?
    && var x := s.exchanges[id];
    && Checked(env, x, x.pc.row, now).Some? && x.op.minted && x.op.refresh.Some? && x.op.io.insert
    && NewKey(env, x.op) !in s.made
  }

  function Finish(id: nat, now: Instant): seq<Action> {
    [Delete(id), Check(id, now), Mint(id, now), Insert(id)]
  }

  lemma Cons(env: Env, s: Store, a: Action, rest: seq<Action>)
    requires Enabled(env, s, a) && Runs(env, Step(env, s, a), rest)
    ensures Runs(env, s, [a] + rest) && AfterRun(env, s, [a] + rest) == AfterRun(env, Step(env, s, a), rest)
  {
    assert ([a] + rest)[1..] == rest;
  }

  lemma FinishSteps(env: Env, s: Store, id: nat, now: Instant) returns (s1: Store, s2: Store, s3: Store, s4: Store)
    requires Servable(env, s, id, now)
    ensures Enabled(env, s, Delete(id)) && s1 == Step(env, s, Delete(id))
    ensures Enabled(env, s1, Check(id, now)) && s2 == Step(env, s1, Check(id, now))
    ensures Enabled(env, s2, Mint(id, now)) && s3 == Step(env, s2, Mint(id, now))
    ensures Enabled(env, s3, Insert(id)) && s4 == Step(env, s3, Insert(id))
    ensures id in s4.exchanges && s4.exchanges[id].pc == Served(s.exchanges[id].pc.at)
    ensures s4.made == s.made + {NewKey(env, s.exchanges[id].op)}
    ensures s4.exchanges == s.exchanges[id := s4.exchanges[id]]
  {
    s1 := Step(env, s, Delete(id));
    s2 := Step(env, s1, Check(id, now));
    s3 := Step(env, s2, Mint(id, now));
    s4 := Step(env, s3, Insert(id));
  }

  lemma FinishServes(env: Env, s: Store, id: nat, now: Instant)
    requires Servable(env, s, id, now)
    ensures Runs(env, s, Finish(id, now))
    ensures var s' := AfterRun(env, s, Finish(id, now));
      && id in s'.exchanges && s'.exchanges[id].pc == Served(s.exchanges[id].pc.at)
      && s'.made == s.made + {NewKey(env, s.exchanges[id].op)}
      && s'.exchanges == s.exchanges[id := s'.exchanges[id]]
  {
    var s1, s2, s3, s4 := FinishSteps(env, s, id, now);
    Cons(env, s3, Insert(id), []);
    Cons(env, s2, Mint(id, now), [Insert(id)]);
    Cons(env, s1, Check(id, now), [Mint(id, now), Insert(id)]);
    Cons(env, s, Delete(id), [Check(id, now), Mint(id, now), Insert(id)]);
    assert [Insert(id)] + [] == [Insert(id)];
    assert [Mint(id, now)] + [Insert(id)] == [Mint(id, now), Insert(id)];
    assert [Check(id, now)] + [Mint(id, now), Insert(id)] == [Check(id, now), Mint(id, now), Insert(id)];
    assert [Delete(id)] + [Check(id, now), Mint(id, now), Insert(id)] == Finish(id, now);
  }

  lemma {:induction false} RunsThen(env: Env, s: Store, acts: seq<Action>, more: seq<Action>)
    requires Runs(env, s, acts) && Runs(env, AfterRun(env, s, acts), more)
    ensures Runs(env, s, acts + more)
    ensures AfterRun(env, s, acts + more) == AfterRun(env, AfterRun(env, s, acts), more)
    decreases |acts|
  {
    if acts == [] {
      assert acts + more == more;
    } else {
      RunsThen(env, Step(env, s, acts[0]), acts[1..], more);
      assert (acts + more)[1..] == acts[1..] + more;
    }
  }

  /** Two exchanges that both looked up before the delete can both finish. */
  lemma BothFinish(env: Env, s: Store, a: nat, b: nat, now: Instant)
    requires a != b && Servable(env, s, a, now) && Servable(env, s, b, now)
    requires NewKey(env, s.exchanges[a].op) != NewKey(env, s.exchanges[b].op)
    ensures Runs(env, s, Finish(a, now) + Finish(b, now))
    ensures var s' := AfterRun(env, s, Finish(a, now) + Finish(b, now));
      a in s'.exchanges && b in s'.exchanges && s'.exchanges[a].pc.Served? && s'.exchanges[b].pc.Served?
  {
    FinishServes(env, s, a, now);
    FinishServes(env, AfterRun(env, s, Finish(a, now)), b, now);
    RunsThen(env, s, Finish(a, now), Finish(b, now));
  }

  /** A code is stored, two exchanges of it begin, and both look it up. */
  function Race(code: string, row: Code, x: ExchangeOp, y: ExchangeOp, client: string): seq<Action> {
    [Put(CodeOf(code), CodeRow(row)), Begin(0, x, client), Begin(1, y, client), Lookup(0), Lookup(1)]
  }

  /** An exchange of this code in which nothing but another exchange can stand in the way. */
  ghost predicate Good(env: Env, code: string, row: Code, x: ExchangeOp, client: string, now: Instant) {
    && x.ExchangeCode? && x.code == code && Presented(x) && x.io.lookup && x.minted && x.refresh.Some? && x.io.insert
    && CodeAccepts(env, row, client, x.redirectURI, x.verifier, now)
  }

  lemma RaceBegins(env: Env, code: string, row: Code, x: ExchangeOp, y: ExchangeOp, client: string) returns (s: Store)
    ensures var acts := [Put(CodeOf(code), CodeRow(row)), Begin(0, x, client), Begin(1, y, client)];
      Runs(env, EMPTY, acts) && s == AfterRun(env, EMPTY, acts)
    ensures s.rows == map[CodeOf(code) := CodeRow(row)] && s.made == {CodeOf(code)}
    ensures s.exchanges == map[0 := Exchange(x, client, Begun), 1 := Exchange(y, client, Begun)]
  {
    var put, one, two := Put(CodeOf(code), CodeRow(row)), Begin(0, x, client), Begin(1, y, client);
    var s1 := Step(env, EMPTY, put);
    var s2 := Step(env, s1, one);
    s := Step(env, s2, two);
    Cons(env, s2, two, []);
    Cons(env, s1, one, [two]);
    Cons(env, EMPTY, put, [one, two]);
    assert [two] + [] == [two] && [one] + [two] == [one, two] && [put] + [one, two] == [put, one, two];
  }

  lemma RaceLooksUp(env: Env, s: Store, code: string, row: Code, x: ExchangeOp, y: ExchangeOp, client: string, now: Instant)
    returns (s': Store)
    requires Good(env, code, row, x, client, now) && Good(env, code, row, y, client, now)
    requires s.rows == map[CodeOf(code) := CodeRow(row)] && s.made == {CodeOf(code)}
    requires s.exchanges == map[0 := Exchange(x, client, Begun), 1 := Exchange(y, client, Begun)]
    ensures Runs(env, s, [Lookup(0), Lookup(1)]) && s' == AfterRun(env, s, [Lookup(0), Lookup(1)])
    ensures Servable(env, s', 0, now) && Servable(env, s', 1, now)
    ensures s'.exchanges[0].op == x && s'.exchanges[1].op == y
  {
    var mid := Step(env, s, Lookup(0));
    s' := Step(env, mid, Lookup(1));
    Cons(env, mid, Lookup(1), []);
    Cons(env, s, Lookup(0), [Lookup(1)]);
    assert [Lookup(1)] + [] == [Lookup(1)] && [Lookup(0)] + [Lookup(1)] == [Lookup(0), Lookup(1)];
  }

  /** At most one redemption holds of serial runs only: for every code row and every two exchanges that
      meet its conditions, there is a run from the empty store in which the one code is redeemed twice. */
  lemma BothServed(env: Env, code: string, row: Code, x: ExchangeOp, y: ExchangeOp, client: string, now: Instant)
    requires Good(env, code, row, x, client, now) && Good(env, code, row, y, client, now)
    requires NewKey(env, x) != NewKey(env, y)
    ensures var acts := Race(code, row, x, y, client) + (Finish(0, now) + Finish(1, now));
      Runs(env, EMPTY, acts) &&
      var s := AfterRun(env, EMPTY, acts);
      && 0 in s.exchanges && 1 in s.exchanges && s.exchanges[0].pc.Served? && s.exchanges[1].pc.Served?
  {
    var s3 := RaceBegins(env, code, row, x, y, client);
    var s5 := RaceLooksUp(env, s3, code, row, x, y, client, now);
    var begun := [Put(CodeOf(code), CodeRow(row)), Begin(0, x, client), Begin(1, y, client)];
    RunsThen(env, EMPTY, begun, [Lookup(0), Lookup(1)]);
    assert begun + [Lookup(0), Lookup(1)] == Race(code, row, x, y, client);
    BothFinish(env, s5, 0, 1, now);
    RunsThen(env, EMPTY, Race(code, row, x, y, client), Finish(0, now) + Finish(1, now));
  }
}
