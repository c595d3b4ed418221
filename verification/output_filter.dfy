/** `initializeOutputFilter` as it is built without `_MSC_VER`: the
    variable-filter flags of the model's variables, and the one rule that
    executes before the unconditional early return, which excludes a
    synthesised placeholder state and its derivative from the result file. */
module OutputFilter {

  /** A top-level variable or parameter: its name and whether it is
      excluded from the result file (`filterOutput`). */
  datatype Var = Var(name: string, filterOutput: bool)

  /** An alias: its own name and flag, the position `nameID` of the entity it
      aliases, and `aliasType` (0: a variable, 1: a parameter). */
  datatype Alias = Alias(name: string, filterOutput: bool, nameID: int, aliasType: int)

  /** One type category of the model (real, integer, boolean or string). */
  datatype Category = Category(vars: seq<Var>, params: seq<Var>, aliases: seq<Alias>)

  /** The parts of the model data the filter reads and writes.  The first
      `nStates` real variables are the states, followed by their
      derivatives. */
  datatype ModelData = ModelData(
    nStates: nat,
    reals: Category, integers: Category, booleans: Category, strings: Category)

  /** The name given to the placeholder state of a model without states. */
  const DummyName: string := "$dummy"

  /** The model data satisfies the reads of the placeholder rule: with
      states there is a first real variable, and when it is the placeholder
      the variable at position `nStates` exists too. */
  predicate FilterReady(md: ModelData)
  {
    md.nStates > 0 ==>
      |md.reals.vars| > 0 && (md.reals.vars[0].name == DummyName ==> md.nStates < |md.reals.vars|)
  }

  /** The first real state is the placeholder. */
  predicate HasDummyState(md: ModelData)
  {
    md.nStates > 0 && |md.reals.vars| > 0 && md.reals.vars[0].name == DummyName
  }

  /** The regular expression the filter is compiled to: the user's pattern
      anchored at both ends. */
  function AnchoredPattern(variableFilter: string): (p: string)
    ensures |p| == |variableFilter| + 4
    ensures p[0] == '^' && p[1] == '(' && p[|p| - 2] == ')' && p[|p| - 1] == '$'
    ensures p[2..|p| - 2] == variableFilter
  {
    "^(" + variableFilter + ")$"
  }

  /** The anchored pattern never equals `".*"`, so the match-all shortcut
      that compares it with `".*"` never fires. */
  lemma AnchoredPatternIsNeverMatchAll(variableFilter: string)
    ensures AnchoredPattern(variableFilter) != ".*"
  {
    assert AnchoredPattern(variableFilter)[0] != ".*"[0];
  }

  /** The placeholder rule: when the first real state is the placeholder,
      it and the real variable at position `nStates` are excluded. */
  function ExcludeDummyState(md: ModelData): (r: ModelData)
    requires FilterReady(md)
  {
    if HasDummyState(md) then
      var vs := md.reals.vars;
      var vs1 := vs[0 := vs[0].(filterOutput := true)];
      var vs2 := vs1[md.nStates := vs1[md.nStates].(filterOutput := true)];
      md.(reals := md.reals.(vars := vs2))
    else md
  }

  /** Nothing but the real variables' flags differs between `a` and `b`. */
  predicate OnlyRealVarFlagsDiffer(a: ModelData, b: ModelData)
  {
    && a.nStates == b.nStates
    && a.integers == b.integers && a.booleans == b.booleans && a.strings == b.strings
    && a.reals.params == b.reals.params && a.reals.aliases == b.reals.aliases
    && |a.reals.vars| == |b.reals.vars|
    && forall k :: 0 <= k < |a.reals.vars| ==> a.reals.vars[k].name == b.reals.vars[k].name
  }

  /** `initializeOutputFilter` as built: the placeholder rule runs, and then
      the function returns (the match-all test does not fire and an
      unconditional return follows it), whatever the filter pattern.  Only
      the flags of real variables 0 and `nStates` can change, and they become
      set exactly when the placeholder is present. */
  function InitializeOutputFilter(md: ModelData, variableFilter: string): (r: ModelData)
    requires FilterReady(md)
    ensures OnlyRealVarFlagsDiffer(md, r)
    ensures forall k :: 0 <= k < |md.reals.vars| && k != 0 && k != md.nStates ==>
              r.reals.vars[k] == md.reals.vars[k]
    ensures forall k :: 0 <= k < |md.reals.vars| && (k == 0 || k == md.nStates) ==>
              r.reals.vars[k].filterOutput == (md.reals.vars[k].filterOutput || HasDummyState(md))
    ensures FilterReady(r) && (HasDummyState(r) <==> HasDummyState(md))
  {
    AnchoredPatternIsNeverMatchAll(variableFilter);
    ExcludeDummyState(md)
  }

  /** Filtering twice with the same pattern is filtering once. */
  lemma {:induction false} OutputFilterIdempotent(md: ModelData, variableFilter: string)
    requires FilterReady(md)
    ensures var once := InitializeOutputFilter(md, variableFilter);
            InitializeOutputFilter(once, variableFilter) == once
  {
    var once := InitializeOutputFilter(md, variableFilter);
    var twice := InitializeOutputFilter(once, variableFilter);
    assert twice.reals.vars == once.reals.vars by {
      forall k | 0 <= k < |once.reals.vars|
        ensures twice.reals.vars[k] == once.reals.vars[k]
      {
      }
    }
  }

  /** The result does not depend on the pattern at all. */
  lemma OutputFilterIgnoresPattern(md: ModelData, f1: string, f2: string)
    requires FilterReady(md)
    ensures InitializeOutputFilter(md, f1) == InitializeOutputFilter(md, f2)
  {
  }
}
