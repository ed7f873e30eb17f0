/** Linear use: a lineage has at most one live artefact, and its grants form a chain. */
module GrantLineage {
  import opened Wrappers
  import opened GrantTypes
  import opened GrantRuns
  import opened GrantEffects

  // ---------- What a step does to artefacts ----------

  /** Artefacts only disappear. */
  ghost predicate Shrinks(s: State, s': State) {
    && (forall x :: Live(s'.t, x) ==> Live(s.t, x))
    && (forall x :: LineageOf(s'.h, x) == LineageOf(s.h, x))
    && s'.h.authorized == s.h.authorized && s'.h.grants == s.h.grants
  }

  /** A new lineage appears, with its session. */
  ghost predicate Starts(s: State, s': State, l: Lineage) {
    && l !in s.h.authorized
    && (forall x :: Live(s'.t, x) ==> x == SessionOf(l) || Live(s.t, x))
    && (forall x | x != SessionOf(l) :: LineageOf(s'.h, x) == LineageOf(s.h, x))
    && s'.h.authorized.Keys == s.h.authorized.Keys + {l} && s'.h.grants == s.h.grants
  }

  /** A live artefact is replaced by one never seen before, in the same lineage. */
  ghost predicate Moves(s: State, s': State, old_: Artefact, new_: Artefact) {
    && Live(s.t, old_) && LineageOf(s.h, new_) == None && LineageOf(s'.h, new_) == LineageOf(s.h, old_)
    && (forall x :: Live(s'.t, x) ==> x == new_ || (Live(s.t, x) && x != old_))
    && (forall x | x != new_ :: LineageOf(s'.h, x) == LineageOf(s.h, x))
    && s'.h.authorized == s.h.authorized
    && if old_.SessionOf? then s'.h.grants == s.h.grants && new_.CodeOf?
       else
         && |s'.h.grants| == |s.h.grants| + 1 && s'.h.grants[..|s.h.grants|] == s.h.grants
         && var g := s'.h.grants[|s.h.grants|];
         && g.spent == old_ && g.made == new_ && new_.RefreshOf? && Some(g.origin.lineage) == LineageOf(s.h, old_)
  }

  ghost predicate Moved(s: State, s': State) {
    Shrinks(s, s') || (exists l :: Starts(s, s', l)) || (exists a, b :: Moves(s, s', a, b))
  }

  lemma QuietMoves(s: State, s': State)
    requires Quiet(s, s')
    ensures Shrinks(s, s')
  {}

  lemma OpensMoves(env: Env, s: State, ev: Event, s': State)
    requires Opens(env, s, ev, s')
    ensures Starts(s, s', ev.op.upstreamState.value)
  {}

  lemma CodesMoves(env: Env, s: State, ev: Event, s': State)
    requires Codes(env, s, ev, s') && ev.op.state in s.h.authorized && ev.op.io.delete
    ensures Moves(s, s', SessionOf(ev.op.state), CodeOf(ev.op.localCode.value))
  {}

  lemma RedeemsMoves(env: Env, s: State, ev: Event, s': State)
    requires Redeems(env, s, ev, s') && ev.op.code in s.h.issued && ev.op.io.delete
    ensures Moves(s, s', CodeOf(ev.op.code), RefreshOf(env.hash(ev.op.refresh.value)))
  {}

  lemma RotatesMoves(env: Env, s: State, ev: Event, s': State)
    requires Rotates(env, s, ev, s') && env.hash(ev.op.token) in s.h.refreshOf && ev.op.io.delete
    ensures Moves(s, s', RefreshOf(env.hash(ev.op.token)), RefreshOf(env.hash(ev.op.refresh.value)))
  {}

  lemma EffectMoves(env: Env, s: State, ev: Event, s': State)
    requires Drawn(s) && Effect(env, s, ev, s') && DeletesOk(ev.op)
    ensures Moved(s, s')
  {
    if Quiet(s, s') {
      QuietMoves(s, s');
    } else if Opens(env, s, ev, s') {
      OpensMoves(env, s, ev, s');
    } else if Codes(env, s, ev, s') {
      CodesMoves(env, s, ev, s');
    } else if Redeems(env, s, ev, s') {
      RedeemsMoves(env, s, ev, s');
    } else {
      RotatesMoves(env, s, ev, s');
    }
  }

  // ---------- The invariant ----------

  /** The grants of one lineage, oldest first. */
  function Of(gs: seq<Grant>, l: Lineage): seq<Grant> {
    if gs == [] then []
    else Of(gs[..|gs| - 1], l) + if gs[|gs| - 1].origin.lineage == l then [gs[|gs| - 1]] else []
  }

  /** A code is redeemed first, and every later grant spends the refresh token the one before it made. */
  ghost predicate Linked(c: seq<Grant>) {
    forall i | 0 <= i < |c| :: Follows(c, i)
  }

  ghost predicate Follows(c: seq<Grant>, i: int)
    requires 0 <= i < |c|
  {
    if i == 0 then c[i].spent.CodeOf? else c[i].spent == c[i - 1].made
  }

  ghost predicate Owned(s: State) {
    forall x | Live(s.t, x) :: LineageOf(s.h, x).Some? && LineageOf(s.h, x).value in s.h.authorized
  }

  ghost predicate Linear(s: State) {
    forall x, y | Live(s.t, x) && Live(s.t, y) && LineageOf(s.h, x) == LineageOf(s.h, y) :: x == y
  }

  ghost predicate Spent(s: State) {
    && (forall i | 0 <= i < |s.h.grants| :: SpentOne(s, s.h.grants[i]))
    && (forall i, j | 0 <= i < j < |s.h.grants| :: s.h.grants[i].spent != s.h.grants[j].spent)
  }

  ghost predicate SpentOne(s: State, g: Grant) {
    !Live(s.t, g.spent) && LineageOf(s.h, g.spent) == Some(g.origin.lineage) && g.origin.lineage in s.h.authorized
  }

  /** The live artefact of a lineage is what its last grant made, or precedes all its grants. */
  ghost predicate Frontier(s: State, x: Artefact, l: Lineage) {
    var c := Of(s.h.grants, l);
    if x.RefreshOf? then |c| > 0 && c[|c| - 1].made == x else c == []
  }

  ghost predicate Chained(s: State) {
    && (forall l :: Linked(Of(s.h.grants, l)))
    && (forall x | Live(s.t, x) && LineageOf(s.h, x).Some? :: Frontier(s, x, LineageOf(s.h, x).value))
  }

  ghost predicate Lineal(s: State) {
    Owned(s) && Linear(s) && Spent(s) && Chained(s)
  }

  lemma NoGrants(gs: seq<Grant>, l: Lineage)
    requires forall i | 0 <= i < |gs| :: gs[i].origin.lineage != l
    ensures Of(gs, l) == []
  {}

  lemma StartsKeeps(s: State, s': State, l: Lineage)
    requires Lineal(s) && Starts(s, s', l)
    ensures Lineal(s')
  {
    assert LineageOf(s'.h, SessionOf(l)) == Some(l);
    NoGrants(s.h.grants, l);
    forall i | 0 <= i < |s'.h.grants| ensures SpentOne(s', s'.h.grants[i]) {
      assert SpentOne(s, s.h.grants[i]);
    }
    forall x | Live(s'.t, x) && LineageOf(s'.h, x).Some? ensures Frontier(s', x, LineageOf(s'.h, x).value) {
      if x != SessionOf(l) { assert Frontier(s, x, LineageOf(s.h, x).value); }
    }
  }

  lemma ShrinksKeeps(s: State, s': State)
    requires Lineal(s) && Shrinks(s, s')
    ensures Lineal(s')
  {
    forall i | 0 <= i < |s'.h.grants| ensures SpentOne(s', s'.h.grants[i]) {
      assert SpentOne(s, s.h.grants[i]);
    }
    forall x | Live(s'.t, x) && LineageOf(s'.h, x).Some? ensures Frontier(s', x, LineageOf(s'.h, x).value) {
      assert Frontier(s, x, LineageOf(s.h, x).value);
    }
  }

  lemma MovesKeepsLinear(s: State, s': State, a: Artefact, b: Artefact)
    requires Owned(s) && Linear(s) && Moves(s, s', a, b)
    ensures Owned(s') && Linear(s')
  {}

  lemma MovesKeepsSpent(s: State, s': State, a: Artefact, b: Artefact)
    requires Owned(s) && Spent(s) && Moves(s, s', a, b)
    ensures Spent(s')
  {
    forall i | 0 <= i < |s.h.grants| ensures SpentOne(s', s.h.grants[i]) && s.h.grants[i].spent != a {
      assert SpentOne(s, s.h.grants[i]);
    }
  }

  lemma LinkedAppend(c: seq<Grant>, g: Grant)
    requires Linked(c) && if c == [] then g.spent.CodeOf? else g.spent == c[|c| - 1].made
    ensures Linked(c + [g])
  {
    forall i | 0 <= i < |c + [g]| ensures Follows(c + [g], i) {
      if i < |c| { assert Follows(c, i); }
    }
  }

  lemma MovesKeepsChained(s: State, s': State, a: Artefact, b: Artefact)
    requires Owned(s) && Linear(s) && Chained(s) && Moves(s, s', a, b)
    ensures Chained(s')
  {
    var l := LineageOf(s.h, a).value;
    var gs, gs' := s.h.grants, s'.h.grants;
    assert Frontier(s, a, l);
    forall m ensures Of(gs', m) == Of(gs, m) + if m == l && !a.SessionOf? then [gs'[|gs|]] else [] {}
    forall m ensures Linked(Of(gs', m)) {
      assert Linked(Of(gs, m));
      if m == l && !a.SessionOf? { LinkedAppend(Of(gs, m), gs'[|gs|]); } else { assert Of(gs', m) == Of(gs, m); }
    }
    forall x | Live(s'.t, x) && LineageOf(s'.h, x).Some? ensures Frontier(s', x, LineageOf(s'.h, x).value) {
      if x != b { assert Frontier(s, x, LineageOf(s.h, x).value) && LineageOf(s.h, x) != Some(l); }
    }
  }

  lemma LinealKept(env: Env, s: State, ev: Event)
    requires Lineal(s) && Drawn(s) && Effect(env, s, ev, Step(env, s, ev)) && DeletesOk(ev.op)
    ensures Lineal(Step(env, s, ev))
  {
    var s' := Step(env, s, ev);
    EffectMoves(env, s, ev, s');
    if Shrinks(s, s') {
      ShrinksKeeps(s, s');
    } else if l :| Starts(s, s', l) {
      StartsKeeps(s, s', l);
    } else {
      var a, b :| Moves(s, s', a, b);
      MovesKeepsLinear(s, s', a, b);
      MovesKeepsSpent(s, s', a, b);
      MovesKeepsChained(s, s', a, b);
    }
  }
}
