/** What the signing-key protocol promises over whole runs: no accepted token loses its key,
    keys only move forward through their life cycle, and the published set stays small. */
module KeyTheorems {
  import opened Clock
  import opened KeyProtocol
  import opened KeyInvariant

  // ---------- Key continuity ----------

  function Exp(c: Config, tok: Token): int {
    Unix(tok.signedAt + c.accessTTL)
  }

  /** The plugin's clock test on `exp`, with its 60 s of skew. */
  predicate InWindow(c: Config, tok: Token, now: Instant) {
    Unix(now) <= Exp(c, tok) + 60
  }

  /** The retirement deadline written by a rotation that read the clock at `reading` lies beyond
      the last second in which the token is accepted. */
  predicate DeadlineCovers(c: Config, reading: Instant, tok: Token) {
    Exp(c, tok) + 60 < RetiresAt(c, reading)
  }

  /** A rotation may read its clock up to 3539 s before the token is signed. */
  lemma GapCovers(c: Config, reading: Instant, tok: Token)
    requires tok.signedAt - reading <= Seconds(3539)
    ensures DeadlineCovers(c, reading, tok)
  {
    UnixShift(tok.signedAt + c.accessTTL, reading + c.accessTTL + Seconds(3600), 61);
  }

  /** Exactly when a signed token's key is gone: some rotation retired it and that rotation's
      deadline has passed. */
  lemma MissingKeyIsPastDeadline(c: Config, start: Instant, steps: seq<Step>, tok: Token)
    requires Runs(c, Initial(start), steps)
    requires tok in After(c, Initial(start), steps).tokens
    requires tok.kid !in After(c, Initial(start), steps).table
    ensures var s := After(c, Initial(start), steps);
      tok.kid in s.retiredAt && RetiresAt(c, s.retiredAt[tok.kid]) <= Unix(s.clock)
  {
    RunKeepsInv(c, Initial(start), steps);
  }

  /** Key continuity: in every interleaving, a token inside its acceptance window has its key
      published, provided the rotation that retired the key read its clock at most 3539 s before
      the token was signed. */
  lemma KeyContinuity(c: Config, start: Instant, steps: seq<Step>, tok: Token)
    requires Runs(c, Initial(start), steps)
    requires var s := After(c, Initial(start), steps);
      && tok in s.tokens
      && InWindow(c, tok, s.clock)
      && (tok.kid in s.retiredAt ==> tok.signedAt - s.retiredAt[tok.kid] <= Seconds(3539))
    ensures tok.kid in After(c, Initial(start), steps).table
    ensures After(c, Initial(start), steps).table[tok.kid].status != Next
  {
    RunKeepsInv(c, Initial(start), steps);
    var s := After(c, Initial(start), steps);
    if tok.kid in s.retiredAt {
      GapCovers(c, s.retiredAt[tok.kid], tok);
    }
  }

  /** The exact condition, for a token still in its window whose key a rotation has retired: the
      deadline covers the token if and only if no continuation of the run, however scheduled,
      shows the token in its window without its key. */
  lemma CoverageIsExact(c: Config, start: Instant, steps: seq<Step>, tok: Token)
    requires Runs(c, Initial(start), steps)
    requires var s := After(c, Initial(start), steps);
      tok in s.tokens && tok.kid in s.retiredAt && InWindow(c, tok, s.clock)
    ensures var s := After(c, Initial(start), steps);
      DeadlineCovers(c, s.retiredAt[tok.kid], tok) <==>
      (forall more | Runs(c, s, more) && InWindow(c, tok, After(c, s, more).clock) ::
         tok.kid in After(c, s, more).table)
  {
    var s := After(c, Initial(start), steps);
    RunKeepsInv(c, Initial(start), steps);
    if DeadlineCovers(c, s.retiredAt[tok.kid], tok) {
      forall more | Runs(c, s, more) && InWindow(c, tok, After(c, s, more).clock)
        ensures tok.kid in After(c, s, more).table
      {
        CoveredKeyStays(c, s, more, tok);
      }
    } else {
      var more := UncoveredKeyGoes(c, s, tok);
    }
  }

  lemma CoveredKeyStays(c: Config, s: State, more: seq<Step>, tok: Token)
    requires Inv(c, s) && Runs(c, s, more) && tok in s.tokens && tok.kid in s.retiredAt
    requires DeadlineCovers(c, s.retiredAt[tok.kid], tok) && InWindow(c, tok, After(c, s, more).clock)
    ensures tok.kid in After(c, s, more).table
  {
    RunKeepsInv(c, s, more);
    RetirementIsFinal(c, s, more, tok.kid);
  }

  lemma UncoveredKeyGoes(c: Config, s: State, tok: Token) returns (more: seq<Step>)
    requires RetirementOk(c, s) && tok.kid in s.retiredAt && InWindow(c, tok, s.clock)
    requires !DeadlineCovers(c, s.retiredAt[tok.kid], tok)
    ensures Runs(c, s, more)
    ensures InWindow(c, tok, After(c, s, more).clock) && tok.kid !in After(c, s, more).table
  {
    var last := Seconds(Exp(c, tok) + 60);
    var late := if s.clock <= last then last else s.clock;
    more := [Tick(late), JanitorCleanup];
    TwoSteps(c, s, more[0], more[1]);
    assert Unix(late) == Exp(c, tok) + 60;
    assert After(c, s, more).table == Cleaned(s.table, late);
  }

  lemma RetireOnce(c: Config, s: State, step: Step, kid: Kid)
    requires PcOk(c, s) && Enabled(c, s, step) && kid in s.retiredAt
    requires kid in s.table ==> s.table[kid].status == Retiring
    ensures kid in Apply(c, s, step).retiredAt && Apply(c, s, step).retiredAt[kid] == s.retiredAt[kid]
  {}

  /** A kid is retired at most once: later steps never move its retirement reading. */
  lemma {:induction false} RetirementIsFinal(c: Config, s: State, steps: seq<Step>, kid: Kid)
    requires Inv(c, s) && Runs(c, s, steps) && kid in s.retiredAt
    ensures kid in After(c, s, steps).retiredAt
    ensures After(c, s, steps).retiredAt[kid] == s.retiredAt[kid]
    ensures s.used <= After(c, s, steps).used
    decreases |steps|
  {
    if steps != [] {
      StepKeepsInv(c, s, steps[0]);
      RetireOnce(c, s, steps[0], kid);
      RetirementIsFinal(c, Apply(c, s, steps[0]), steps[1..], kid);
    }
  }

  // ---------- Life cycle ----------

  /** 0 unused, 1 next, 2 active, 3 retiring, 4 deleted. */
  function Rank(s: State, kid: Kid): int {
    if kid !in s.used then 0
    else if kid !in s.table then 4
    else match s.table[kid].status
      case Next => 1
      case Active => 2
      case Retiring => 3
  }

  /** A step moves a key one stage forward or not at all; only `Ensure` may skip the `next` stage. */
  lemma LifecycleStep(c: Config, s: State, step: Step, kid: Kid)
    requires PcOk(c, s) && s.table.Keys <= s.used && Enabled(c, s, step)
    ensures var before, now := Rank(s, kid), Rank(Apply(c, s, step), kid);
      now == before || now == before + 1 || (before == 0 && now == 2 && step.EnsureInsert?)
  {}

  /** Life cycle: at every state of every run, including after failed statements and restarts,
      there is at most one active and at most one next key, and every key only moves forward. */
  lemma {:induction false} Lifecycle(c: Config, s: State, steps: seq<Step>, kid: Kid)
    requires Inv(c, s) && Runs(c, s, steps)
    ensures UniqueOk(After(c, s, steps))
    ensures Rank(s, kid) <= Rank(After(c, s, steps), kid)
    decreases |steps|
  {
    if steps != [] {
      StepKeepsInv(c, s, steps[0]);
      LifecycleStep(c, s, steps[0], kid);
      Lifecycle(c, Apply(c, s, steps[0]), steps[1..], kid);
    }
  }

  /** Every promotion promotes a key that sat in the table as `next` for more than the overlap by
      its stored timestamp, hence for more than the overlap minus a second of real time. */
  lemma PromotionWaited(c: Config, start: Instant, steps: seq<Step>)
    requires Runs(c, Initial(start), steps) && After(c, Initial(start), steps).pc.DoPromote?
    ensures var s := After(c, Initial(start), steps);
      && s.pc.incoming in s.table && s.table[s.pc.incoming].status == Next
      && OlderThan(s.table[s.pc.incoming].createdAt, c.overlap, s.pc.now)
      && s.pc.incoming in s.insertedAt
      && s.insertedAt[s.pc.incoming] + c.overlap - Seconds(1) < s.pc.now <= s.clock
  {
    RunKeepsInv(c, Initial(start), steps);
  }

  // ---------- A torn rotation ----------

  /** No key is active and no statement that could make one active is due. */
  ghost predicate Stuck(s: State) {
    NoneIs(s.table, Active) && Serving(s) && !s.pc.DoRetire? && !s.pc.DoPromote?
  }

  lemma StuckStep(c: Config, s: State, step: Step)
    requires Stuck(s) && PcOk(c, s) && Enabled(c, s, step) && !step.Restart?
    ensures Stuck(Apply(c, s, step)) && !step.MintRead?
  {}

  /** If `rotate` fails between its two status updates, no request reads a signing key again in this
      process: only a restart, through `Ensure`, brings an active key back. */
  lemma {:induction false} TornRotationStopsMinting(c: Config, s: State, steps: seq<Step>)
    requires Inv(c, s) && Stuck(s) && Runs(c, s, steps)
    requires forall i | 0 <= i < |steps| :: !steps[i].Restart?
    ensures Stuck(After(c, s, steps))
    ensures forall i | 0 <= i < |steps| :: !steps[i].MintRead?
    decreases |steps|
  {
    if steps != [] {
      var s' := Apply(c, s, steps[0]);
      StuckStep(c, s, steps[0]);
      StepKeepsInv(c, s, steps[0]);
      TornRotationStopsMinting(c, s', steps[1..]);
      assert steps == [steps[0]] + steps[1..];
    }
  }

  /** `Abort` right before the promotion is what leads there. */
  lemma AbortBeforePromoteIsStuck(c: Config, s: State)
    requires Inv(c, s) && s.pc.DoPromote?
    ensures Enabled(c, s, Abort) && Stuck(Apply(c, s, Abort))
  {}

  // ---------- Published-set bound ----------

  /** Retiring keys whose rotation also promoted a successor. */
  ghost function Replaced(s: State): set<Kid> {
    set i | 0 <= i < |s.promotions| && s.promotions[i].outgoing in s.table &&
            s.table[s.promotions[i].outgoing].status == Retiring :: s.promotions[i].outgoing
  }

  ghost predicate JustCleaned(s: State) {
    forall kid | kid in s.table :: !Expired(s.table[kid], s.clock)
  }

  lemma {:induction false} SpacingSums(c: Config, ps: seq<Promotion>, i: nat, j: nat)
    requires Spaced(c, ps) && i <= j < |ps|
    ensures Unix(ps[i].reading) + (j - i) * Unix(c.overlap) <= Unix(ps[j].reading)
    decreases j - i
  {
    if i < j {
      SpacingSums(c, ps, i, j - 1);
      assert (j - i) * Unix(c.overlap) == (j - 1 - i) * Unix(c.overlap) + Unix(c.overlap);
    }
  }

  /** The olds of the last `k` promotions are at most `k` kids. */
  lemma {:induction false} FewOlds(ps: seq<Promotion>, lo: nat)
    requires lo <= |ps|
    ensures |set i | lo <= i < |ps| :: ps[i].outgoing| <= |ps| - lo
    decreases |ps| - lo
  {
    var all := set i | lo <= i < |ps| :: ps[i].outgoing;
    if lo == |ps| {
      assert all == {};
    } else {
      FewOlds(ps, lo + 1);
      assert all == {ps[lo].outgoing} + set i | lo + 1 <= i < |ps| :: ps[i].outgoing;
    }
  }

  lemma MulMonotone(a: int, b: int, o: nat)
    requires a <= b
    ensures a * o <= b * o
  {
    assert b * o - a * o == (b - a) * o;
  }

  lemma BoundFromGap(gap: int, o: nat, w: int, q: int)
    requires gap * o <= w < (q + 1) * o
    ensures gap <= q
  {
    if gap >= q + 1 {
      MulMonotone(q + 1, gap, o);
    }
  }

  lemma QuotientBounds(w: int, o: int)
    requires o > 0
    ensures w < (w / o + 1) * o
  {
    assert w == (w / o) * o + w % o;
    assert (w / o + 1) * o == (w / o) * o + o;
  }

  /** The replaced keys all come from the promotions starting at the first one still present. */
  lemma FirstReplaced(s: State) returns (lo: nat)
    ensures lo <= |s.promotions|
    ensures lo < |s.promotions| ==> s.promotions[lo].outgoing in Replaced(s)
    ensures Replaced(s) <= (set i | lo <= i < |s.promotions| :: s.promotions[i].outgoing)
  {
    var n := |s.promotions|;
    lo := 0;
    while lo < n && s.promotions[lo].outgoing !in Replaced(s)
      invariant 0 <= lo <= n
      invariant forall i | 0 <= i < lo :: s.promotions[i].outgoing !in Replaced(s)
    {
      lo := lo + 1;
    }
    forall kid | kid in Replaced(s) ensures kid in (set i | lo <= i < n :: s.promotions[i].outgoing) {
      var i :| 0 <= i < n && s.promotions[i].outgoing == kid;
      assert i >= lo;
    }
  }

  lemma FewInWindow(c: Config, ps: seq<Promotion>, lo: nat, w: int)
    requires Spaced(c, ps) && lo < |ps| && c.overlap >= Seconds(1)
    requires Unix(ps[|ps| - 1].reading) - Unix(ps[lo].reading) <= w
    ensures Unix(c.overlap) > 0 && |ps| - lo <= w / Unix(c.overlap) + 1
  {
    UnixAtLeast(c.overlap, 1);
    SpacingSums(c, ps, lo, |ps| - 1);
    QuotientBounds(w, Unix(c.overlap));
    BoundFromGap(|ps| - 1 - lo, Unix(c.overlap), w, w / Unix(c.overlap));
  }

  /** Published-set bound: right after a cleanup, at most floor((TTL + 1 h) / overlap) + 1 retiring
      keys come from completed rotations, whatever else happened in the run. */
  lemma RetiringBound(c: Config, s: State)
    requires RetirementOk(c, s) && PromotionsOk(c, s) && JustCleaned(s)
    requires c.overlap >= Seconds(1) && c.accessTTL >= 0
    ensures |Replaced(s)| <= Unix(c.accessTTL + Seconds(3600)) / Unix(c.overlap) + 1
  {
    var w := Unix(c.accessTTL + Seconds(3600));
    UnixAtLeast(c.overlap, 1);
    UnixAtLeast(c.accessTTL + Seconds(3600), 0);
    var lo := FirstReplaced(s);
    FewOlds(s.promotions, lo);
    SubsetIsSmaller(Replaced(s), set i | lo <= i < |s.promotions| :: s.promotions[i].outgoing);
    if lo < |s.promotions| {
      WindowHolds(c, s, lo);
      FewInWindow(c, s.promotions, lo, w);
    } else {
      assert 0 <= w / Unix(c.overlap);
    }
  }

  lemma WindowHolds(c: Config, s: State, lo: nat)
    requires RetirementOk(c, s) && PromotionsOk(c, s) && JustCleaned(s) && lo < |s.promotions|
    requires s.promotions[lo].outgoing in Replaced(s)
    ensures Unix(s.promotions[|s.promotions| - 1].reading) - Unix(s.promotions[lo].reading)
         <= Unix(c.accessTTL + Seconds(3600))
  {
    var first, last := s.promotions[lo], s.promotions[|s.promotions| - 1];
    assert !Expired(s.table[first.outgoing], s.clock);
    assert s.table[first.outgoing].retiresAt == RetiresAt(c, first.reading);
    UnixMonotone(last.reading, s.clock);
  }

  lemma {:induction false} SubsetIsSmaller<T>(a: set<T>, b: set<T>)
    requires a <= b
    ensures |a| <= |b|
  {
    if a != {} {
      var x :| x in a;
      SubsetIsSmaller(a - {x}, b - {x});
    }
  }

  ghost function RetiringKids(s: State): set<Kid> {
    set kid | kid in s.table && s.table[kid].status == Retiring
  }

  /** A rotation is cut off between its two status updates. */
  predicate Tears(s: State, step: Step) {
    s.pc.DoPromote? && (step.Abort? || step.Restart?)
  }

  /** The key a torn rotation leaves behind, unless its deadline has passed at `at`. */
  function TornNow(c: Config, s: State, step: Step, at: Instant): seq<Kid> {
    if Tears(s, step) && RetiresAt(c, s.pc.now) > Unix(at) then [s.pc.outgoing] else []
  }

  /** One entry per torn rotation of the run whose deadline has not passed at `at`: the key it retired. */
  ghost function TornOpen(c: Config, s: State, steps: seq<Step>, at: Instant): seq<Kid>
    requires Runs(c, s, steps)
    decreases |steps|
  {
    if steps == [] then []
    else
      TornNow(c, s, steps[0], at) + TornOpen(c, Apply(c, s, steps[0]), steps[1..], at)
  }

  ghost predicate HasSuccessor(s: State, kid: Kid) {
    exists i :: 0 <= i < |s.promotions| && s.promotions[i].outgoing == kid
  }

  /** Every retired key has a successor, or gets it with the very next statement, or was left without one
      by a torn rotation, or is past its deadline. */
  ghost predicate Explained(c: Config, s: State, torn: seq<Kid>, at: Instant) {
    forall kid | kid in s.retiredAt ::
      (s.pc.DoPromote? && s.pc.outgoing == kid) || HasSuccessor(s, kid) || kid in torn ||
      RetiresAt(c, s.retiredAt[kid]) <= Unix(at)
  }

  lemma StepExplains(c: Config, s: State, step: Step, torn: seq<Kid>, at: Instant)
    requires Explained(c, s, torn, at) && PcOk(c, s) && RetirementOk(c, s) && Enabled(c, s, step)
    ensures Explained(c, Apply(c, s, step), torn + TornNow(c, s, step, at), at)
  {
    var s' := Apply(c, s, step);
    forall kid | kid in s.retiredAt && HasSuccessor(s, kid) ensures HasSuccessor(s', kid) {
      var i :| 0 <= i < |s.promotions| && s.promotions[i].outgoing == kid;
      assert s'.promotions[i].outgoing == kid;
    }
    if step.Promote? {
      assert s'.promotions[|s.promotions|].outgoing == s.pc.outgoing;
    }
  }

  lemma Regroup(a: seq<Kid>, b: seq<Kid>, c: seq<Kid>)
    ensures (a + b) + c == a + (b + c)
  {}

  lemma FirstExplains(c: Config, s: State, steps: seq<Step>, torn: seq<Kid>, at: Instant)
    returns (s': State, torn': seq<Kid>, rest: seq<Kid>)
    requires Inv(c, s) && Explained(c, s, torn, at) && Runs(c, s, steps) && steps != []
    ensures Inv(c, s') && Explained(c, s', torn', at) && Runs(c, s', steps[1..])
    ensures After(c, s', steps[1..]) == After(c, s, steps)
    ensures rest == TornOpen(c, s', steps[1..], at) && torn' + rest == torn + TornOpen(c, s, steps, at)
  {
    s', torn' := Apply(c, s, steps[0]), torn + TornNow(c, s, steps[0], at);
    StepExplains(c, s, steps[0], torn, at);
    StepKeepsInv(c, s, steps[0]);
    rest := TornOpen(c, s', steps[1..], at);
    Regroup(torn, TornNow(c, s, steps[0], at), rest);
  }

  lemma {:induction false} RunExplains(c: Config, s: State, steps: seq<Step>, torn: seq<Kid>, at: Instant)
    requires Inv(c, s) && Explained(c, s, torn, at) && Runs(c, s, steps)
    ensures Explained(c, After(c, s, steps), torn + TornOpen(c, s, steps, at), at)
    decreases |steps|
  {
    if steps == [] {
      assert torn + [] == torn;
    } else {
      var s', torn', rest := FirstExplains(c, s, steps, torn, at);
      RunExplains(c, s', steps[1..], torn', at);
    }
  }

  lemma {:induction false} FewMembers(kids: seq<Kid>)
    ensures |set i | 0 <= i < |kids| :: kids[i]| <= |kids|
  {
    if kids != [] {
      var n := |kids| - 1;
      FewMembers(kids[..n]);
      assert (set i | 0 <= i < |kids| :: kids[i]) == (set i | 0 <= i < n :: kids[..n][i]) + {kids[n]};
    }
  }

  /** Published-set bound, in every run: right after a cleanup there are at most
      floor((TTL + 1 h) / overlap) + 1 retiring keys, one more for every torn rotation whose deadline has
      not passed, and one more if a rotation is between its two updates right now. */
  lemma RetiringBoundAlways(c: Config, start: Instant, steps: seq<Step>)
    requires c.overlap >= Seconds(1) && c.accessTTL >= 0
    requires Runs(c, Initial(start), steps) && JustCleaned(After(c, Initial(start), steps))
    ensures var s := After(c, Initial(start), steps);
      |RetiringKids(s)| <= Unix(c.accessTTL + Seconds(3600)) / Unix(c.overlap) + 1
                           + |TornOpen(c, Initial(start), steps, s.clock)| + (if s.pc.DoPromote? then 1 else 0)
  {
    var s := After(c, Initial(start), steps);
    var torn := TornOpen(c, Initial(start), steps, s.clock);
    var under := if s.pc.DoPromote? then [s.pc.outgoing] else [];
    var left := set i | 0 <= i < |torn + under| :: (torn + under)[i];
    RunKeepsInv(c, Initial(start), steps);
    RunExplains(c, Initial(start), steps, [], s.clock);
    RetiringBound(c, s);
    FewMembers(torn + under);
    assert [] + torn == torn;
    forall kid | kid in RetiringKids(s) ensures kid in Replaced(s) + left {
      IsCounted(c, s, kid, torn, under);
    }
    SubsetIsSmaller(RetiringKids(s), Replaced(s) + left);
  }

  lemma IsCounted(c: Config, s: State, kid: Kid, torn: seq<Kid>, under: seq<Kid>)
    requires RetirementOk(c, s) && JustCleaned(s) && Explained(c, s, torn, s.clock) && kid in RetiringKids(s)
    requires under == if s.pc.DoPromote? then [s.pc.outgoing] else []
    ensures kid in Replaced(s) + (set i | 0 <= i < |torn + under| :: (torn + under)[i])
  {
    assert !Expired(s.table[kid], s.clock);
    if kid in torn {
      var i :| 0 <= i < |torn| && torn[i] == kid;
      assert (torn + under)[i] == kid;
    } else if s.pc.DoPromote? && s.pc.outgoing == kid {
      assert (torn + under)[|torn|] == kid;
    }
  }

  /** No rotation of the run was torn. */
  ghost predicate Untorn(c: Config, s: State, steps: seq<Step>)
    requires Runs(c, s, steps)
    decreases |steps|
  {
    steps == [] || (!Tears(s, steps[0]) && Untorn(c, Apply(c, s, steps[0]), steps[1..]))
  }

  lemma {:induction false} UntornLeavesNone(c: Config, s: State, steps: seq<Step>, at: Instant)
    requires Runs(c, s, steps) && Untorn(c, s, steps)
    ensures TornOpen(c, s, steps, at) == []
    decreases |steps|
  {
    if steps != [] { UntornLeavesNone(c, Apply(c, s, steps[0]), steps[1..], at); }
  }

  /** In runs without a torn rotation the bound covers every retiring key. */
  lemma PublishedSetBound(c: Config, start: Instant, steps: seq<Step>)
    requires c.overlap >= Seconds(1) && c.accessTTL >= 0
    requires Runs(c, Initial(start), steps) && Untorn(c, Initial(start), steps)
    requires JustCleaned(After(c, Initial(start), steps)) && !After(c, Initial(start), steps).pc.DoPromote?
    ensures |RetiringKids(After(c, Initial(start), steps))|
         <= Unix(c.accessTTL + Seconds(3600)) / Unix(c.overlap) + 1
  {
    RetiringBoundAlways(c, start, steps);
    UntornLeavesNone(c, Initial(start), steps, After(c, Initial(start), steps).clock);
  }
}
