/** The per-category pass of `initializeOutputFilter` that follows the
    early return and so does not run in this build.  The regular-expression
    engine is abstracted: `matches(name)` is whether the compiled anchored
    pattern matches `name`, and `compiles` is whether compiling it succeeded.

    Per category the pass first decides every top-level variable, then walks
    the aliases in order; an alias either takes its own match result (when
    it and its target are both still undecided-as-included) or is included
    together with its target. */
module FilterPass {
  import opened OutputFilter

  /** An alias of a variable points into the variables, an alias of a
      parameter into the parameters. */
  predicate TargetOk(c: Category, a: Alias)
  {
    && (a.aliasType == 0 ==> 0 <= a.nameID < |c.vars|)
    && (a.aliasType == 1 ==> 0 <= a.nameID < |c.params|)
  }

  /** Every alias of the category points at an existing entry. */
  predicate AliasesResolve(c: Category)
  {
    forall k :: 0 <= k < |c.aliases| ==> TargetOk(c, c.aliases[k])
  }

  /** The alias is of one of the two kinds the pass handles. */
  predicate Handled(a: Alias)
  {
    a.aliasType == 0 || a.aliasType == 1
  }

  /** The flag of the entry an alias points at. */
  function TargetFlag(c: Category, a: Alias): bool
    requires TargetOk(c, a) && Handled(a)
  {
    if a.aliasType == 0 then c.vars[a.nameID].filterOutput else c.params[a.nameID].filterOutput
  }

  /** `d` differs from `c` at most in flags: same lengths, names and alias
      targets. */
  predicate SameShape(c: Category, d: Category)
  {
    && |c.vars| == |d.vars| && |c.params| == |d.params| && |c.aliases| == |d.aliases|
    && (forall k :: 0 <= k < |c.vars| ==> d.vars[k].name == c.vars[k].name)
    && (forall k :: 0 <= k < |c.params| ==> d.params[k].name == c.params[k].name)
    && (forall k :: 0 <= k < |c.aliases| ==>
          && d.aliases[k].name == c.aliases[k].name
          && d.aliases[k].nameID == c.aliases[k].nameID
          && d.aliases[k].aliasType == c.aliases[k].aliasType)
  }

  /** Some alias of a variable points at variable `t`. */
  predicate VarAliased(c: Category, t: int)
  {
    exists k :: 0 <= k < |c.aliases| && c.aliases[k].aliasType == 0 && c.aliases[k].nameID == t
  }

  /** Some alias of a parameter points at parameter `t`. */
  predicate ParamAliased(c: Category, t: int)
  {
    exists k :: 0 <= k < |c.aliases| && c.aliases[k].aliasType == 1 && c.aliases[k].nameID == t
  }

  /** The top-level step: an undecided variable is excluded exactly when its
      name does not match; an excluded one stays excluded. */
  function MarkTopLevel(vars: seq<Var>, matches: string -> bool): (r: seq<Var>)
    ensures |r| == |vars|
    ensures forall k :: 0 <= k < |vars| ==>
              r[k].name == vars[k].name && r[k].filterOutput == (vars[k].filterOutput || !matches(vars[k].name))
  {
    seq(|vars|, k requires 0 <= k < |vars| =>
      if vars[k].filterOutput then vars[k] else vars[k].(filterOutput := !matches(vars[k].name)))
  }

  /** Resolves alias `i`: when the alias and its target are both still
      included, the alias takes its own match result; otherwise both are
      included.  An alias of an unhandled kind is skipped. */
  function ResolveAlias(c: Category, i: nat, matches: string -> bool): (d: Category)
    requires AliasesResolve(c) && i < |c.aliases|
    ensures SameShape(c, d) && AliasesResolve(d)
  {
    var a := c.aliases[i];
    if !Handled(a) then c
    else if !a.filterOutput && !TargetFlag(c, a) then
      c.(aliases := c.aliases[i := a.(filterOutput := !matches(a.name))])
    else
      IncludeTarget(c.(aliases := c.aliases[i := a.(filterOutput := false)]), a)
  }

  /** Includes the entry alias `a` points at. */
  function IncludeTarget(c: Category, a: Alias): (d: Category)
    requires TargetOk(c, a) && Handled(a)
  {
    var t := a.nameID;
    if a.aliasType == 0 then c.(vars := c.vars[t := c.vars[t].(filterOutput := false)])
    else c.(params := c.params[t := c.params[t].(filterOutput := false)])
  }

  /** One alias step touches only the alias and its target: other aliases,
      variables and parameters keep their values, flags of variables and
      parameters are only ever cleared, and an unhandled alias changes
      nothing. */
  lemma ResolveAliasFrame(c: Category, i: nat, matches: string -> bool)
    requires AliasesResolve(c) && i < |c.aliases|
    ensures var d := ResolveAlias(c, i, matches);
            && (forall k :: 0 <= k < |c.aliases| && k != i ==> d.aliases[k] == c.aliases[k])
            && (forall t :: 0 <= t < |c.vars| && !(c.aliases[i].aliasType == 0 && t == c.aliases[i].nameID) ==>
                  d.vars[t] == c.vars[t])
            && (forall t :: 0 <= t < |c.params| && !(c.aliases[i].aliasType == 1 && t == c.aliases[i].nameID) ==>
                  d.params[t] == c.params[t])
            && (forall t :: 0 <= t < |c.vars| && d.vars[t].filterOutput ==> c.vars[t].filterOutput)
            && (forall t :: 0 <= t < |c.params| && d.params[t].filterOutput ==> c.params[t].filterOutput)
            && (!Handled(c.aliases[i]) ==> d == c)
  {
  }

  /** What one alias step decides: afterwards the target of a handled alias
      is included, and the alias itself is excluded exactly when it and its
      target were both included before and its name does not match. */
  lemma ResolveAliasDecides(c: Category, i: nat, matches: string -> bool)
    requires AliasesResolve(c) && i < |c.aliases|
    requires Handled(c.aliases[i])
    ensures var d := ResolveAlias(c, i, matches);
            var a := c.aliases[i];
            && !TargetFlag(d, a)
            && (d.aliases[i].filterOutput <==> !a.filterOutput && !TargetFlag(c, a) && !matches(a.name))
  {
  }

  /** Resolves the aliases `i`, `i+1`, ... in order. */
  function ResolveAliasesFrom(c: Category, i: nat, matches: string -> bool): (d: Category)
    requires AliasesResolve(c) && i <= |c.aliases|
    ensures SameShape(c, d) && AliasesResolve(d)
    decreases |c.aliases| - i
  {
    if i == |c.aliases| then c
    else ResolveAliasesFrom(ResolveAlias(c, i, matches), i + 1, matches)
  }

  /** What the alias walk from `i` on leaves alone: earlier aliases keep
      their values, and flags of variables and parameters are only ever
      cleared. */
  lemma {:induction false} ResolveAliasesFromFrame(c: Category, i: nat, matches: string -> bool)
    requires AliasesResolve(c) && i <= |c.aliases|
    ensures var d := ResolveAliasesFrom(c, i, matches);
            && (forall k :: 0 <= k < i ==> d.aliases[k] == c.aliases[k])
            && (forall t :: 0 <= t < |c.vars| && d.vars[t].filterOutput ==> c.vars[t].filterOutput)
            && (forall t :: 0 <= t < |c.params| && d.params[t].filterOutput ==> c.params[t].filterOutput)
    decreases |c.aliases| - i
  {
    if i < |c.aliases| {
      var c1 := ResolveAlias(c, i, matches);
      ResolveAliasFrame(c, i, matches);
      ResolveAliasesFromFrame(c1, i + 1, matches);
      var d := ResolveAliasesFrom(c1, i + 1, matches);
      assert d == ResolveAliasesFrom(c, i, matches);
      forall k | 0 <= k < i
        ensures d.aliases[k] == c.aliases[k]
      {
        assert d.aliases[k] == c1.aliases[k];
      }
      forall t | 0 <= t < |c.vars| && d.vars[t].filterOutput
        ensures c.vars[t].filterOutput
      {
        assert c1.vars[t].filterOutput;
      }
      forall t | 0 <= t < |c.params| && d.params[t].filterOutput
        ensures c.params[t].filterOutput
      {
        assert c1.params[t].filterOutput;
      }
    }
  }

  /** Variables and parameters that no alias from `i` on points at keep
      their values through the alias walk. */
  lemma {:induction false} ResolveAliasesFromUntouched(c: Category, i: nat, matches: string -> bool)
    requires AliasesResolve(c) && i <= |c.aliases|
    ensures var d := ResolveAliasesFrom(c, i, matches);
            && (forall t :: 0 <= t < |c.vars| &&
                  (forall k :: i <= k < |c.aliases| ==> !(c.aliases[k].aliasType == 0 && c.aliases[k].nameID == t))
                  ==> d.vars[t] == c.vars[t])
            && (forall t :: 0 <= t < |c.params| &&
                  (forall k :: i <= k < |c.aliases| ==> !(c.aliases[k].aliasType == 1 && c.aliases[k].nameID == t))
                  ==> d.params[t] == c.params[t])
    decreases |c.aliases| - i
  {
    if i < |c.aliases| {
      var c1 := ResolveAlias(c, i, matches);
      ResolveAliasFrame(c, i, matches);
      ResolveAliasesFromUntouched(c1, i + 1, matches);
      assert ResolveAliasesFrom(c1, i + 1, matches) == ResolveAliasesFrom(c, i, matches);
    }
  }

  /** Alias `j` is a handled alias pointing at the same entry as `b`. */
  predicate SharesTarget(c: Category, j: nat, b: Alias)
    requires j < |c.aliases|
  {
    && Handled(c.aliases[j])
    && c.aliases[j].aliasType == b.aliasType
    && c.aliases[j].nameID == b.nameID
  }

  /** When the walk from `i` reaches alias `k`, its target is included:
      either an earlier alias of the walk pointed at it (and so included
      it), or it was included from the start. */
  predicate TargetIncludedWhenReached(c: Category, i: nat, k: nat)
    requires AliasesResolve(c) && i <= k < |c.aliases| && Handled(c.aliases[k])
  {
    || (exists j :: i <= j < k && SharesTarget(c, j, c.aliases[k]))
    || !TargetFlag(c, c.aliases[k])
  }

  /** The exact outcome of the walk from `i` for a handled alias: it ends
      excluded exactly when it started included, its name does not match,
      and its target was included when the walk reached it; otherwise the
      else branch includes it. */
  lemma {:induction false} ResolveAliasesFromAliasFlags(c: Category, i: nat, matches: string -> bool)
    requires AliasesResolve(c) && i <= |c.aliases|
    ensures var d := ResolveAliasesFrom(c, i, matches);
            forall k :: i <= k < |c.aliases| && Handled(c.aliases[k]) ==>
              (d.aliases[k].filterOutput
               <==> !c.aliases[k].filterOutput && !matches(c.aliases[k].name)
                    && TargetIncludedWhenReached(c, i, k))
    decreases |c.aliases| - i
  {
    if i < |c.aliases| {
      var c1 := ResolveAlias(c, i, matches);
      ResolveAliasesFromAliasFlags(c1, i + 1, matches);
      var d := ResolveAliasesFrom(c1, i + 1, matches);
      assert d == ResolveAliasesFrom(c, i, matches);
      forall k | i <= k < |c.aliases| && Handled(c.aliases[k])
        ensures d.aliases[k].filterOutput
                <==> !c.aliases[k].filterOutput && !matches(c.aliases[k].name)
                     && TargetIncludedWhenReached(c, i, k)
      {
        if k == i {
          ResolveAliasDecides(c, i, matches);
          ResolveAliasesFromFrame(c1, i + 1, matches);
          assert d.aliases[i] == c1.aliases[i];
        } else {
          ReachedAfterStep(c, i, k, matches);
        }
      }
    }
  }

  /** One step of the walk neither changes a later alias nor whether its
      target is included when the walk reaches it. */
  lemma ReachedAfterStep(c: Category, i: nat, k: nat, matches: string -> bool)
    requires AliasesResolve(c) && i < k < |c.aliases| && Handled(c.aliases[k])
    ensures var c1 := ResolveAlias(c, i, matches);
            && c1.aliases[k] == c.aliases[k]
            && (TargetIncludedWhenReached(c1, i + 1, k) <==> TargetIncludedWhenReached(c, i, k))
  {
    var c1 := ResolveAlias(c, i, matches);
    ResolveAliasFrame(c, i, matches);
    var b := c.aliases[k];
    assert c1.aliases[k] == b;
    if SharesTarget(c, i, b) {
      ResolveAliasDecides(c, i, matches);
      assert !TargetFlag(c1, b);
    } else {
      assert TargetFlag(c1, b) == TargetFlag(c, b);
      if exists j :: i <= j < k && SharesTarget(c, j, b) {
        var j :| i <= j < k && SharesTarget(c, j, b);
        assert c1.aliases[j] == c.aliases[j];
        assert SharesTarget(c1, j, b);
      }
      if exists j :: i + 1 <= j < k && SharesTarget(c1, j, b) {
        var j :| i + 1 <= j < k && SharesTarget(c1, j, b);
        assert c1.aliases[j] == c.aliases[j];
        assert SharesTarget(c, j, b);
      }
    }
  }

  /** What the alias walk from `i` on decides: every handled alias from `i`
      on ends with its target included, a handled alias from `i` on ends
      excluded only if it started included and its name does not match, and
      an alias of any other kind is left exactly as it was. */
  lemma {:induction false} ResolveAliasesFromSpec(c: Category, i: nat, matches: string -> bool)
    requires AliasesResolve(c) && i <= |c.aliases|
    ensures var d := ResolveAliasesFrom(c, i, matches);
            && (forall k :: i <= k < |c.aliases| && Handled(c.aliases[k]) ==> !TargetFlag(d, c.aliases[k]))
            && (forall k :: i <= k < |c.aliases| && d.aliases[k].filterOutput ==>
                  if Handled(c.aliases[k]) then !c.aliases[k].filterOutput && !matches(c.aliases[k].name)
                  else c.aliases[k].filterOutput)
            && (forall k :: i <= k < |c.aliases| && !Handled(c.aliases[k]) ==> d.aliases[k] == c.aliases[k])
    decreases |c.aliases| - i
  {
    if i < |c.aliases| {
      var c1 := ResolveAlias(c, i, matches);
      ResolveAliasFrame(c, i, matches);
      ResolveAliasesFromSpec(c1, i + 1, matches);
      ResolveAliasesFromFrame(c1, i + 1, matches);
      var d := ResolveAliasesFrom(c1, i + 1, matches);
      assert d == ResolveAliasesFrom(c, i, matches);
      var a := c.aliases[i];
      assert d.aliases[i] == c1.aliases[i];
      if Handled(a) {
        ResolveAliasDecides(c, i, matches);
        assert c1.aliases[i] == a.(filterOutput := c1.aliases[i].filterOutput);
        assert !TargetFlag(c1, a);
        if a.aliasType == 0 {
          assert !d.vars[a.nameID].filterOutput;
        } else {
          assert !d.params[a.nameID].filterOutput;
        }
      }
    }
  }

  /** The whole pass over one category. */
  function FilterCategory(c: Category, matches: string -> bool): (r: Category)
    requires AliasesResolve(c)
    ensures SameShape(c, r) && AliasesResolve(r)
  {
    ResolveAliasesFrom(c.(vars := MarkTopLevel(c.vars, matches)), 0, matches)
  }

  /** The flag of the entry alias `a` points at once the top-level step has
      run: a variable is excluded if it was or its name does not match; a
      parameter keeps its flag. */
  function MarkedTargetFlag(c: Category, a: Alias, matches: string -> bool): bool
    requires TargetOk(c, a) && Handled(a)
  {
    if a.aliasType == 0 then c.vars[a.nameID].filterOutput || !matches(c.vars[a.nameID].name)
    else c.params[a.nameID].filterOutput
  }

  /** After the pass over a category: every variable or parameter that has
      a handled alias is included; a variable nobody aliases is excluded
      exactly when it was excluded before or its name does not match; a
      parameter nobody aliases keeps its flag; an alias of any other kind is
      left as it was; and a handled alias ends excluded exactly when it
      started included, its name does not match, and its target was
      included when the walk reached it (an earlier alias had included it,
      or the top-level step left it included). */
  lemma {:induction false} FilterCategorySpec(c: Category, matches: string -> bool)
    requires AliasesResolve(c)
    ensures var r := FilterCategory(c, matches);
            && (forall k :: 0 <= k < |c.aliases| && Handled(c.aliases[k]) ==> !TargetFlag(r, c.aliases[k]))
            && (forall t :: 0 <= t < |c.vars| && !VarAliased(c, t) ==>
                  r.vars[t].filterOutput == (c.vars[t].filterOutput || !matches(c.vars[t].name)))
            && (forall t :: 0 <= t < |c.params| && !ParamAliased(c, t) ==> r.params[t] == c.params[t])
            && (forall k :: 0 <= k < |c.aliases| && r.aliases[k].filterOutput ==>
                  if Handled(c.aliases[k]) then !c.aliases[k].filterOutput && !matches(c.aliases[k].name)
                  else c.aliases[k].filterOutput)
            && (forall k :: 0 <= k < |c.aliases| && Handled(c.aliases[k]) ==>
                  (r.aliases[k].filterOutput
                   <==> && !c.aliases[k].filterOutput && !matches(c.aliases[k].name)
                        && (|| (exists j :: 0 <= j < k && SharesTarget(c, j, c.aliases[k]))
                            || !MarkedTargetFlag(c, c.aliases[k], matches))))
            && (forall k :: 0 <= k < |c.aliases| && !Handled(c.aliases[k]) ==> r.aliases[k] == c.aliases[k])
  {
    var c0 := c.(vars := MarkTopLevel(c.vars, matches));
    assert AliasesResolve(c0) by {
      forall k | 0 <= k < |c0.aliases|
        ensures TargetOk(c0, c0.aliases[k])
      {
        assert TargetOk(c, c.aliases[k]);
      }
    }
    ResolveAliasesFromSpec(c0, 0, matches);
    ResolveAliasesFromFrame(c0, 0, matches);
    ResolveAliasesFromUntouched(c0, 0, matches);
    ResolveAliasesFromAliasFlags(c0, 0, matches);
    var r := FilterCategory(c, matches);
    forall k | 0 <= k < |c.aliases| && Handled(c.aliases[k])
      ensures TargetIncludedWhenReached(c0, 0, k)
              <==> (|| (exists j :: 0 <= j < k && SharesTarget(c, j, c.aliases[k]))
                    || !MarkedTargetFlag(c, c.aliases[k], matches))
    {
      assert c0.aliases == c.aliases;
      assert TargetOk(c, c.aliases[k]);
      assert TargetFlag(c0, c.aliases[k]) == MarkedTargetFlag(c, c.aliases[k], matches);
      assert forall j :: 0 <= j < k ==> SharesTarget(c0, j, c.aliases[k]) == SharesTarget(c, j, c.aliases[k]);
    }
    forall k | 0 <= k < |c.aliases| && Handled(c.aliases[k])
      ensures !TargetFlag(r, c.aliases[k])
    {
      assert TargetFlag(r, c.aliases[k]) == TargetFlag(r, c0.aliases[k]);
    }
    forall t | 0 <= t < |c.vars| && !VarAliased(c, t)
      ensures r.vars[t].filterOutput == (c.vars[t].filterOutput || !matches(c.vars[t].name))
    {
      forall k | 0 <= k < |c0.aliases|
        ensures !(c0.aliases[k].aliasType == 0 && c0.aliases[k].nameID == t)
      {
      }
    }
    forall t | 0 <= t < |c.params| && !ParamAliased(c, t)
      ensures r.params[t] == c.params[t]
    {
      forall k | 0 <= k < |c0.aliases|
        ensures !(c0.aliases[k].aliasType == 1 && c0.aliases[k].nameID == t)
      {
      }
    }
  }

  /** The situation of a single alias whose target matches the pattern while
      the alias's own name does not: the target is included and the alias is
      excluded, because the alias is judged by its own name. */
  lemma AliasJudgedByOwnName(v: string, a: string, matches: string -> bool)
    requires matches(v) && !matches(a)
    ensures var c := Category([Var(v, false)], [], [Alias(a, false, 0, 0)]);
            var r := FilterCategory(c, matches);
            !r.vars[0].filterOutput && r.aliases[0].filterOutput
  {
    var c := Category([Var(v, false)], [], [Alias(a, false, 0, 0)]);
    var c0 := c.(vars := MarkTopLevel(c.vars, matches));
    assert c0.vars[0] == Var(v, false);
    assert AliasesResolve(c0);
    var c1 := ResolveAlias(c0, 0, matches);
    ResolveAliasDecides(c0, 0, matches);
    assert ResolveAliasesFrom(c1, 1, matches) == c1;
    assert FilterCategory(c, matches) == c1;
  }

  /** The other outcome of the aliasing rule: when neither the variable nor
      its alias matches, the top-level step excludes the variable, so the
      alias takes the else branch and both end included. */
  lemma AliasIncludesExcludedTarget(v: string, a: string, matches: string -> bool)
    requires !matches(v) && !matches(a)
    ensures var c := Category([Var(v, false)], [], [Alias(a, false, 0, 0)]);
            var r := FilterCategory(c, matches);
            !r.vars[0].filterOutput && !r.aliases[0].filterOutput
  {
    var c := Category([Var(v, false)], [], [Alias(a, false, 0, 0)]);
    var c0 := c.(vars := MarkTopLevel(c.vars, matches));
    assert c0.vars[0] == Var(v, true);
    assert AliasesResolve(c0);
    var c1 := ResolveAlias(c0, 0, matches);
    assert c1.aliases[0].filterOutput == false;
    assert ResolveAliasesFrom(c1, 1, matches) == c1;
    assert FilterCategory(c, matches) == c1;
  }

  /** Unlike the filter as built, the pass is not idempotent: in the
      situation above a second pass finds the alias excluded, takes the
      else branch and includes it again. */
  lemma FilterCategoryNotIdempotent(v: string, a: string, matches: string -> bool)
    requires matches(v) && !matches(a)
    ensures var c := Category([Var(v, false)], [], [Alias(a, false, 0, 0)]);
            var once := FilterCategory(c, matches);
            && once.aliases[0].filterOutput
            && !FilterCategory(once, matches).aliases[0].filterOutput
            && FilterCategory(once, matches) != once
  {
    var c := Category([Var(v, false)], [], [Alias(a, false, 0, 0)]);
    AliasJudgedByOwnName(v, a, matches);
    var once := FilterCategory(c, matches);
    assert |once.aliases| == 1 && |once.vars| == 1 && once.aliases[0].aliasType == 0;
    var c0 := once.(vars := MarkTopLevel(once.vars, matches));
    assert AliasesResolve(c0) by {
      assert TargetOk(once, once.aliases[0]);
    }
    var c1 := ResolveAlias(c0, 0, matches);
    ResolveAliasDecides(c0, 0, matches);
    assert ResolveAliasesFrom(c1, 1, matches) == c1;
    assert FilterCategory(once, matches) == c1;
  }

  /** With nothing excluded beforehand and a pattern that matches every
      name, the pass changes nothing: skipping it for the match-all pattern
      is then only an optimisation. */
  lemma {:induction false} MatchAllPassIsIdentity(c: Category, matches: string -> bool)
    requires AliasesResolve(c)
    requires forall s :: matches(s)
    requires forall k :: 0 <= k < |c.vars| ==> !c.vars[k].filterOutput
    requires forall k :: 0 <= k < |c.params| ==> !c.params[k].filterOutput
    requires forall k :: 0 <= k < |c.aliases| ==> !c.aliases[k].filterOutput
    ensures FilterCategory(c, matches) == c
  {
    var vs := MarkTopLevel(c.vars, matches);
    assert vs == c.vars;
    AllIncludedFixed(c, 0, matches);
  }

  /** The alias walk from `i` leaves a category with no exclusions alone
      when every name matches. */
  lemma {:induction false} AllIncludedFixed(c: Category, i: nat, matches: string -> bool)
    requires AliasesResolve(c) && i <= |c.aliases|
    requires forall s :: matches(s)
    requires forall k :: 0 <= k < |c.vars| ==> !c.vars[k].filterOutput
    requires forall k :: 0 <= k < |c.params| ==> !c.params[k].filterOutput
    requires forall k :: 0 <= k < |c.aliases| ==> !c.aliases[k].filterOutput
    ensures ResolveAliasesFrom(c, i, matches) == c
    decreases |c.aliases| - i
  {
    if i < |c.aliases| {
      var c1 := ResolveAlias(c, i, matches);
      assert c1 == c by {
        var a := c.aliases[i];
        if Handled(a) {
          assert !matches(a.name) == false;
        }
        assert c1.aliases == c.aliases;
      }
      AllIncludedFixed(c1, i + 1, matches);
    }
  }

  // ---------------------------------------------------------------------------
  // The whole model
  // ---------------------------------------------------------------------------

  /** Every alias of every category points at an existing entry. */
  predicate ModelResolves(md: ModelData)
  {
    && AliasesResolve(md.reals) && AliasesResolve(md.integers)
    && AliasesResolve(md.booleans) && AliasesResolve(md.strings)
  }

  /** The match-all shortcut as the source writes it: it compares the
      anchored pattern with `".*"`. */
  predicate MatchAllShortcutAsWritten(variableFilter: string)
  {
    AnchoredPattern(variableFilter) == ".*"
  }

  /** The match-all shortcut as intended: the user's pattern is `".*"`. */
  predicate MatchAllShortcut(variableFilter: string)
  {
    variableFilter == ".*"
  }

  /** Runs the pass over all four categories in the source's order. */
  function FilterAllCategories(md: ModelData, matches: string -> bool): (r: ModelData)
    requires ModelResolves(md)
  {
    md.(reals := FilterCategory(md.reals, matches),
        integers := FilterCategory(md.integers, matches),
        booleans := FilterCategory(md.booleans, matches),
        strings := FilterCategory(md.strings, matches))
  }

  /** The placeholder rule keeps every alias pointing at an existing entry. */
  lemma DummyRuleKeepsAliases(md: ModelData)
    requires FilterReady(md) && ModelResolves(md)
    ensures ModelResolves(ExcludeDummyState(md))
  {
    var r := ExcludeDummyState(md);
    assert |r.reals.vars| == |md.reals.vars|;
    forall k | 0 <= k < |r.reals.aliases|
      ensures TargetOk(r.reals, r.reals.aliases[k])
    {
      assert TargetOk(md.reals, md.reals.aliases[k]);
    }
  }

  /** The full filter with the shortcut as written: placeholder rule, then
      the pass unless the pattern fails to compile. */
  function FilterWithPatternAsWritten(md: ModelData, variableFilter: string,
                                      matches: string -> bool, compiles: bool): (r: ModelData)
    requires FilterReady(md) && ModelResolves(md)
    ensures !compiles ==> r == InitializeOutputFilter(md, variableFilter)
    ensures compiles ==>
              && ModelResolves(InitializeOutputFilter(md, variableFilter))
              && r == FilterAllCategories(InitializeOutputFilter(md, variableFilter), matches)
  {
    var md1 := ExcludeDummyState(md);
    DummyRuleKeepsAliases(md);
    if MatchAllShortcutAsWritten(variableFilter) || !compiles then md1
    else FilterAllCategories(md1, matches)
  }

  /** The full filter with the shortcut as intended: for the pattern `".*"`
      the pass is skipped. */
  function FilterWithPattern(md: ModelData, variableFilter: string,
                             matches: string -> bool, compiles: bool): (r: ModelData)
    requires FilterReady(md) && ModelResolves(md)
    ensures MatchAllShortcut(variableFilter) || !compiles ==> r == InitializeOutputFilter(md, variableFilter)
    ensures !MatchAllShortcut(variableFilter) ==> r == FilterWithPatternAsWritten(md, variableFilter, matches, compiles)
    ensures r.nStates == md.nStates
  {
    var md1 := ExcludeDummyState(md);
    DummyRuleKeepsAliases(md);
    if MatchAllShortcut(variableFilter) || !compiles then md1
    else FilterAllCategories(md1, matches)
  }

  /** The written shortcut never fires: with the pattern `".*"` (which the
      compiled expression matches for every name) the pass still runs, and
      an alias of the placeholder state then includes the placeholder again,
      which the intended shortcut keeps excluded. */
  lemma MatchAllShortcutDiscrepancy()
    ensures !MatchAllShortcutAsWritten(".*") && MatchAllShortcut(".*")
    ensures var none := Category([], [], []);
            var reals := Category([Var(DummyName, false), Var("der($dummy)", false)], [],
                                  [Alias("a", false, 0, 0)]);
            var md := ModelData(1, reals, none, none, none);
            var all := (s: string) => true;
            && FilterReady(md) && ModelResolves(md)
            && FilterWithPattern(md, ".*", all, true).reals.vars[0].filterOutput
            && !FilterWithPatternAsWritten(md, ".*", all, true).reals.vars[0].filterOutput
  {
    AnchoredPatternIsNeverMatchAll(".*");
    var none := Category([], [], []);
    var reals := Category([Var(DummyName, false), Var("der($dummy)", false)], [],
                          [Alias("a", false, 0, 0)]);
    var md := ModelData(1, reals, none, none, none);
    var all := (s: string) => true;
    var md1 := ExcludeDummyState(md);
    assert md1.reals.vars[0].filterOutput;
    DummyRuleKeepsAliases(md);
    FilterCategorySpec(md1.reals, all);
    assert Handled(md1.reals.aliases[0]);
  }

  /** For a model without exclusions and without a placeholder state, the
      intended shortcut and the pass under a match-all pattern agree: the
      shortcut only saves work. */
  lemma {:induction false} MatchAllShortcutSound(md: ModelData, matches: string -> bool)
    requires FilterReady(md) && ModelResolves(md) && !HasDummyState(md)
    requires forall s :: matches(s)
    requires NothingExcluded(md.reals) && NothingExcluded(md.integers)
    requires NothingExcluded(md.booleans) && NothingExcluded(md.strings)
    ensures FilterWithPattern(md, ".*", matches, true) == FilterAllCategories(md, matches)
  {
    MatchAllPassIsIdentity(md.reals, matches);
    MatchAllPassIsIdentity(md.integers, matches);
    MatchAllPassIsIdentity(md.booleans, matches);
    MatchAllPassIsIdentity(md.strings, matches);
  }

  /** No entry of the category is excluded. */
  predicate NothingExcluded(c: Category)
  {
    && (forall k :: 0 <= k < |c.vars| ==> !c.vars[k].filterOutput)
    && (forall k :: 0 <= k < |c.params| ==> !c.params[k].filterOutput)
    && (forall k :: 0 <= k < |c.aliases| ==> !c.aliases[k].filterOutput)
  }
}
