/** A concrete run showing that the published-set bound needs the rotation to be untorn: a crash
    between the two status updates leaves two retiring keys where the bound allows one. */
module KeyWitness {
  import opened Clock
  import opened Wrappers
  import opened KeyProtocol
  import opened KeyTheorems

  /** The default configuration: rotate every 30 days, overlap 24 h, tokens live 1 h. */
  const DEFAULTS: Config := Config(Seconds(2592000), Seconds(86400), Seconds(3600))

  const BORN: int := 2592001
  const DUE: int := 2678402

  /** First boot: `k1` is active. */
  lemma FirstBoot() returns (steps: seq<Step>)
    ensures Runs(DEFAULTS, Initial(0), steps)
    ensures var s := After(DEFAULTS, Initial(0), steps);
      s.clock == 0 && s.pc == Idle && s.used == {"k1"} &&
      s.table.Keys == {"k1"} && s.table["k1"].status == Active && s.table["k1"].createdAt == 0
  {
    var c, s0 := DEFAULTS, Initial(0);
    steps := [];
    Extend(c, s0, steps, EnsureRead(None));
    steps := steps + [EnsureRead(None)];
    Extend(c, s0, steps, EnsureInsert("k1", 0));
    steps := steps + [EnsureInsert("k1", 0)];
  }

  /** Thirty days later a rotation inserts `k2` as next. */
  lemma NextArrives() returns (steps: seq<Step>)
    ensures Runs(DEFAULTS, Initial(0), steps)
    ensures var s := After(DEFAULTS, Initial(0), steps);
      s.clock == Seconds(BORN) && s.pc == DoCleanup && s.used == {"k1", "k2"} &&
      s.table.Keys == {"k1", "k2"} && s.table["k1"].status == Active &&
      s.table["k2"].status == Next && s.table["k2"].createdAt == BORN
  {
    var c, s0 := DEFAULTS, Initial(0);
    steps := FirstBoot();
    Extend(c, s0, steps, Tick(Seconds(BORN)));
    steps := steps + [Tick(Seconds(BORN))];
    Extend(c, s0, steps, RotateBegin);
    steps := steps + [RotateBegin];
    Extend(c, s0, steps, List(Some("k1"), None));
    steps := steps + [List(Some("k1"), None)];
    Extend(c, s0, steps, Insert("k2"));
    steps := steps + [Insert("k2")];
  }

  /** A day later the next rotation retires `k1`, and the process dies before promoting `k2`. */
  lemma Torn() returns (steps: seq<Step>)
    ensures Runs(DEFAULTS, Initial(0), steps)
    ensures var s := After(DEFAULTS, Initial(0), steps);
      s.clock == Seconds(DUE) && s.pc == Boot && s.used == {"k1", "k2"} &&
      s.table.Keys == {"k1", "k2"} && s.table["k1"].status == Retiring &&
      s.table["k1"].retiresAt == RetiresAt(DEFAULTS, Seconds(DUE)) &&
      s.table["k2"].status == Next && s.table["k2"].createdAt == BORN
  {
    var c, s0 := DEFAULTS, Initial(0);
    steps := NextArrives();
    Extend(c, s0, steps, Abort);
    steps := steps + [Abort];
    Extend(c, s0, steps, Tick(Seconds(DUE)));
    steps := steps + [Tick(Seconds(DUE))];
    Extend(c, s0, steps, RotateBegin);
    steps := steps + [RotateBegin];
    Extend(c, s0, steps, List(Some("k1"), Some("k2")));
    steps := steps + [List(Some("k1"), Some("k2"))];
    Extend(c, s0, steps, Retire);
    steps := steps + [Retire];
    Extend(c, s0, steps, Restart);
    steps := steps + [Restart];
  }

  /** The restart inserts `k3` as the active key. */
  lemma SecondBoot() returns (steps: seq<Step>)
    ensures Runs(DEFAULTS, Initial(0), steps)
    ensures var s := After(DEFAULTS, Initial(0), steps);
      s.clock == Seconds(DUE) && s.pc == Idle && s.table.Keys == {"k1", "k2", "k3"} &&
      s.table["k2"].status == Next && s.table["k2"].createdAt == BORN &&
      s.table["k1"].status == Retiring && s.table["k1"].retiresAt == RetiresAt(DEFAULTS, Seconds(DUE)) &&
      s.table["k3"].status == Active
  {
    var c, s0 := DEFAULTS, Initial(0);
    steps := Torn();
    Extend(c, s0, steps, EnsureRead(None));
    steps := steps + [EnsureRead(None)];
    Extend(c, s0, steps, EnsureInsert("k3", 0));
    steps := steps + [EnsureInsert("k3", 0)];
  }

  /** The next rotation retires `k3` for `k2`: two retiring keys. */
  lemma Recovered() returns (steps: seq<Step>)
    ensures Runs(DEFAULTS, Initial(0), steps)
    ensures var s := After(DEFAULTS, Initial(0), steps);
      s.clock == Seconds(DUE) && s.pc.DoCleanup? && s.table.Keys == {"k1", "k2", "k3"} &&
      s.table["k2"].status == Active &&
      s.table["k1"].status == Retiring && s.table["k1"].retiresAt == RetiresAt(DEFAULTS, Seconds(DUE)) &&
      s.table["k3"].status == Retiring && s.table["k3"].retiresAt == RetiresAt(DEFAULTS, Seconds(DUE))
  {
    var c, s0 := DEFAULTS, Initial(0);
    steps := SecondBoot();
    Extend(c, s0, steps, RotateBegin);
    steps := steps + [RotateBegin];
    Extend(c, s0, steps, List(Some("k3"), Some("k2")));
    steps := steps + [List(Some("k3"), Some("k2"))];
    Extend(c, s0, steps, Retire);
    steps := steps + [Retire];
    Extend(c, s0, steps, Promote);
    steps := steps + [Promote];
  }

  lemma TornRotationExceedsBound() returns (steps: seq<Step>)
    ensures Runs(DEFAULTS, Initial(0), steps)
    ensures var s := After(DEFAULTS, Initial(0), steps);
      && JustCleaned(s) && s.pc == Idle
      && Unix(DEFAULTS.accessTTL + Seconds(3600)) / Unix(DEFAULTS.overlap) + 1 < |RetiringKids(s)|
  {
    steps := Recovered();
    Extend(DEFAULTS, Initial(0), steps, Cleanup);
    steps := steps + [Cleanup];
    assert RetiringKids(After(DEFAULTS, Initial(0), steps)) == {"k1", "k3"};
  }
}
