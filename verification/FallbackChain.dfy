/** The accounts one call may fall back on, in order. */
module FallbackChain {
  // Models _build_fallback_chain (backend/agents/generic_worker.py) and _best_match
  // (backend/eo/panel.py). An account is its place in the registry.

  import opened Basics

  /** As one role sees it: whether the account is made for the role, whether it is cooling down,
      and which part of its daily quota is used. */
  datatype Account = Account(provider: string, natural: bool, cooling: bool, usage: real)

  const QUOTA_CUTOFF: real := 0.8
  const MAX_CHAIN_STEPS: nat := 3
  const MAX_CHAIN_STEPS_CEILING: nat := 6

  type Registry = seq<Account>

  // ----- the chain, for any way of choosing an account outside an excluded set -----

  function Providers(reg: Registry, chain: seq<nat>): set<string> {
    set k | k in chain && k < |reg| :: reg[k].provider
  }

  /** The accounts in the chain and all others of their providers. */
  function Related(reg: Registry, chain: seq<nat>): set<nat> {
    Elements(chain) + set k | 0 <= k < |reg| && reg[k].provider in Providers(reg, chain)
  }

  /** A fresh provider if that leaves anything, else any account not in the chain. */
  function Next(pick: set<nat> -> Option<nat>, reg: Registry, chain: seq<nat>): Option<nat> {
    if pick(Related(reg, chain)).Some? then pick(Related(reg, chain)) else pick(Elements(chain))
  }

  function Chain(pick: set<nat> -> Option<nat>, reg: Registry, steps: nat): (chain: seq<nat>)
    ensures |chain| <= steps
  {
    if steps == 0 then []
    else
      var before := Chain(pick, reg, steps - 1);
      if |before| < steps - 1 then before
      else match Next(pick, reg, before) case None => before case Some(k) => before + [k]
  }

  /** _build_fallback_chain */
  method BuildChain(pick: set<nat> -> Option<nat>, reg: Registry, maxSteps: nat) returns (chain: seq<nat>)
    requires forall ex :: pick(ex).Some? ==> pick(ex).value < |reg|
    ensures chain == Chain(pick, reg, maxSteps)
  {
    chain := [];
    var usedProviders: set<string> := {};
    var exclude: set<nat> := {};
    for step := 0 to maxSteps
      invariant chain == Chain(pick, reg, step) && |chain| == step
      invariant exclude == Elements(chain) && usedProviders == Providers(reg, chain)
    {
      var providerExclude := exclude + set k | 0 <= k < |reg| && reg[k].provider in usedProviders;
      assert providerExclude == Related(reg, chain);
      var candidate := pick(providerExclude);
      if candidate == None { candidate := pick(exclude); }
      if candidate == None {
        Stuck(pick, reg, step, maxSteps);
        return;
      }
      chain := chain + [candidate.value];
      exclude := exclude + {candidate.value};
      usedProviders := usedProviders + {reg[candidate.value].provider};
    }
  }

  lemma {:induction false} Stuck(pick: set<nat> -> Option<nat>, reg: Registry, step: nat, maxSteps: nat)
    requires step < maxSteps && |Chain(pick, reg, step)| == step
    requires Next(pick, reg, Chain(pick, reg, step)) == None
    ensures Chain(pick, reg, maxSteps) == Chain(pick, reg, step)
    decreases maxSteps
  {
    if step + 1 < maxSteps { Stuck(pick, reg, step, maxSteps - 1); }
  }

  // ----- a choice that keeps to its exclusions -----

  /** Returns an eligible account that is not excluded whenever there is one, and nothing else. */
  ghost predicate Honest(pick: set<nat> -> Option<nat>, eligible: set<nat>) {
    forall ex :: match pick(ex) case Some(k) => k in eligible && k !in ex case None => eligible <= ex
  }

  predicate NoneFresh(reg: Registry, chain: seq<nat>, eligible: set<nat>) {
    forall k :: k in eligible && k < |reg| ==> reg[k].provider in Providers(reg, chain)
  }

  predicate Repeats(reg: Registry, chain: seq<nat>, k: nat) {
    k < |reg| && reg[k].provider in Providers(reg, chain)
  }

  /** A provider comes up again only when every eligible provider has had its turn. */
  predicate SpreadsOut(reg: Registry, chain: seq<nat>, eligible: set<nat>) {
    chain == []
    || (var before, last := chain[..|chain| - 1], chain[|chain| - 1];
        SpreadsOut(reg, before, eligible) && (Repeats(reg, before, last) ==> NoneFresh(reg, before, eligible)))
  }

  lemma {:induction false} HonestChain(pick: set<nat> -> Option<nat>, reg: Registry, eligible: set<nat>, steps: nat)
    requires Honest(pick, eligible) && forall k :: k in eligible ==> k < |reg|
    ensures var chain := Chain(pick, reg, steps);
      && NoRepeats(chain) && Elements(chain) <= eligible
      && |chain| == (if steps <= |eligible| then steps else |eligible|)
      && SpreadsOut(reg, chain, eligible)
  {
    if steps > 0 {
      var before := Chain(pick, reg, steps - 1);
      HonestChain(pick, reg, eligible, steps - 1);
      ElementsCount(before);
      if |before| == steps - 1 {
        match Next(pick, reg, before)
        case None => NothingLeft(Elements(before), eligible);
        case Some(k) => HonestStep(pick, reg, eligible, before, k);
      }
    }
  }

  lemma NothingLeft(a: set<nat>, b: set<nat>)
    requires a <= b <= a
    ensures a == b
  {
  }

  lemma ElementsMore(before: seq<nat>, k: nat)
    requires NoRepeats(before) && k !in Elements(before)
    ensures NoRepeats(before + [k]) && Elements(before + [k]) == Elements(before) + {k}
  {
  }

  lemma HonestStep(pick: set<nat> -> Option<nat>, reg: Registry, eligible: set<nat>, before: seq<nat>, k: nat)
    requires Honest(pick, eligible) && forall k :: k in eligible ==> k < |reg|
    requires NoRepeats(before) && Elements(before) <= eligible && SpreadsOut(reg, before, eligible)
    requires Next(pick, reg, before) == Some(k)
    ensures NoRepeats(before + [k]) && Elements(before + [k]) <= eligible && SpreadsOut(reg, before + [k], eligible)
    ensures |before| < |eligible|
  {
    NextIsNew(pick, reg, eligible, before, k);
    ElementsCount(before);
    ElementsMore(before, k);
    SubsetSize(Elements(before) + {k}, eligible);
    if Repeats(reg, before, k) { RepeatMeansNoneFresh(pick, reg, eligible, before, k); }
    SpreadsMore(reg, before, k, eligible);
  }

  lemma NextIsNew(pick: set<nat> -> Option<nat>, reg: Registry, eligible: set<nat>, before: seq<nat>, k: nat)
    requires Honest(pick, eligible) && Next(pick, reg, before) == Some(k)
    ensures k in eligible && k !in Elements(before)
  {
    assert Elements(before) <= Related(reg, before);
  }

  lemma SpreadsMore(reg: Registry, before: seq<nat>, k: nat, eligible: set<nat>)
    requires SpreadsOut(reg, before, eligible) && (Repeats(reg, before, k) ==> NoneFresh(reg, before, eligible))
    ensures SpreadsOut(reg, before + [k], eligible)
  {
    assert (before + [k])[..|before|] == before;
  }

  lemma RepeatMeansNoneFresh(pick: set<nat> -> Option<nat>, reg: Registry, eligible: set<nat>, before: seq<nat>, k: nat)
    requires Honest(pick, eligible) && forall k :: k in eligible ==> k < |reg|
    requires Next(pick, reg, before) == Some(k) && Repeats(reg, before, k)
    ensures NoneFresh(reg, before, eligible)
  {
    var related := Related(reg, before);
    assert k in related;
    forall e | e in eligible && e < |reg| ensures reg[e].provider in Providers(reg, before) {
      assert e in related;
    }
  }

  // ----- the choice the program makes -----

  /** The rounds of _best_match, from the pickiest on. */
  datatype Round = Expert | Free | Live | Anyone

  predicate Qualifies(a: Account, excluded: bool, round: Round) {
    match round
    case Expert => a.natural && !excluded && !a.cooling && a.usage < QUOTA_CUTOFF
    case Free => !excluded && !a.cooling
    case Live => !a.cooling
    case Anyone => true
  }

  predicate InRegistry(reg: Registry, pool: seq<nat>) {
    forall i :: 0 <= i < |pool| ==> pool[i] < |reg|
  }

  /** The candidates of a round, in registry order, among the first n accounts. */
  function Pool(reg: Registry, ex: set<nat>, round: Round, n: nat): (pool: seq<nat>)
    requires n <= |reg|
    ensures InRegistry(reg, pool)
    ensures forall k :: k in pool <==> 0 <= k < n && Qualifies(reg[k], k in ex, round)
    ensures pool == [] <==> forall k :: 0 <= k < n ==> !Qualifies(reg[k], k in ex, round)
  {
    if n == 0 then []
    else
      var before := Pool(reg, ex, round, n - 1);
      if Qualifies(reg[n - 1], (n - 1) in ex, round) then before + [n - 1] else before
  }

  /** The head of a stable sort by usage: the first of the least used. */
  function Least(reg: Registry, pool: seq<nat>): (k: nat)
    requires pool != [] && InRegistry(reg, pool)
    ensures k in pool && forall j :: j in pool ==> reg[k].usage <= reg[j].usage
  {
    if |pool| == 1 then pool[0]
    else
      var last := pool[|pool| - 1];
      var best := Least(reg, pool[..|pool| - 1]);
      assert pool == pool[..|pool| - 1] + [last];
      if reg[last].usage < reg[best].usage then last else best
  }

  function Under(reg: Registry, pool: seq<nat>): (under: seq<nat>)
    requires InRegistry(reg, pool)
    ensures InRegistry(reg, under)
    ensures forall k :: k in under <==> k in pool && reg[k].usage < QUOTA_CUTOFF
  {
    if pool == [] then []
    else
      var before, last := pool[..|pool| - 1], pool[|pool| - 1];
      assert pool == before + [last];
      Under(reg, before) + if reg[last].usage < QUOTA_CUTOFF then [last] else []
  }

  /** The last step of _best_match: the least used below the cutoff, or else the least used. */
  function Ranked(reg: Registry, pool: seq<nat>): nat
    requires pool != [] && InRegistry(reg, pool)
  {
    if Under(reg, pool) != [] then Least(reg, Under(reg, pool)) else Least(reg, pool)
  }

  lemma UnderLast(reg: Registry, before: seq<nat>, last: nat)
    requires InRegistry(reg, before) && last < |reg|
    ensures InRegistry(reg, before + [last])
    ensures Under(reg, before + [last]) == Under(reg, before) + if reg[last].usage < QUOTA_CUTOFF then [last] else []
  {
    assert (before + [last])[..|before|] == before;
  }

  lemma LeastLast(reg: Registry, before: seq<nat>, last: nat)
    requires InRegistry(reg, before) && last < |reg|
    ensures InRegistry(reg, before + [last])
    ensures Least(reg, before + [last])
         == if before != [] && reg[last].usage >= reg[Least(reg, before)].usage then Least(reg, before) else last
  {
    assert (before + [last])[..|before|] == before;
  }

  /** The cutoff makes no difference there. */
  lemma {:induction false} RankedIsLeast(reg: Registry, pool: seq<nat>)
    requires pool != [] && InRegistry(reg, pool)
    ensures Ranked(reg, pool) == Least(reg, pool)
    decreases |pool|
  {
    if |pool| > 1 {
      InitLast(pool);
      RankedIsLeast(reg, pool[..|pool| - 1]);
      RankedStep(reg, pool[..|pool| - 1], pool[|pool| - 1]);
    }
  }

  lemma RankedStep(reg: Registry, before: seq<nat>, last: nat)
    requires before != [] && InRegistry(reg, before) && last < |reg|
    requires Ranked(reg, before) == Least(reg, before)
    ensures InRegistry(reg, before + [last])
    ensures Ranked(reg, before + [last]) == Least(reg, before + [last])
  {
    var under := Under(reg, before);
    UnderLast(reg, before, last);
    LeastLast(reg, before, last);
    if under == [] { NoneUnder(reg, before); }
    if reg[last].usage < QUOTA_CUTOFF { LeastLast(reg, under, last); } else { assert under + [] == under; }
  }

  lemma NoneUnder(reg: Registry, pool: seq<nat>)
    requires pool != [] && InRegistry(reg, pool) && Under(reg, pool) == []
    ensures reg[Least(reg, pool)].usage >= QUOTA_CUTOFF
  {
    assert Least(reg, pool) !in Under(reg, pool);
  }

  function BestMatch(reg: Registry, ex: set<nat>): (r: Option<nat>)
    ensures r.Some? ==> r.value < |reg|
    ensures r == None <==> reg == []
  {
    var n := |reg|;
    assert reg != [] ==> Qualifies(reg[0], 0 in ex, Anyone);
    if Pool(reg, ex, Expert, n) != [] then Some(Least(reg, Pool(reg, ex, Expert, n)))
    else if Pool(reg, ex, Free, n) != [] then Some(Ranked(reg, Pool(reg, ex, Free, n)))
    else if Pool(reg, ex, Live, n) != [] then Some(Ranked(reg, Pool(reg, ex, Live, n)))
    else if Pool(reg, ex, Anyone, n) != [] then Some(Ranked(reg, Pool(reg, ex, Anyone, n)))
    else None
  }

  predicate IsLive(reg: Registry, k: nat) {
    k < |reg| && !reg[k].cooling
  }

  /** The account chosen when every live one is excluded: an excluded one. */
  function LastResort(reg: Registry): (k: nat)
    requires reg != []
    ensures k < |reg|
  {
    assert Qualifies(reg[0], 0 in {}, Anyone);
    if Pool(reg, {}, Live, |reg|) != [] then Ranked(reg, Pool(reg, {}, Live, |reg|))
    else Ranked(reg, Pool(reg, {}, Anyone, |reg|))
  }

  lemma {:induction false} PoolIgnores(reg: Registry, ex: set<nat>, round: Round, n: nat)
    requires n <= |reg| && (round == Live || round == Anyone)
    ensures Pool(reg, ex, round, n) == Pool(reg, {}, round, n)
  {
    if n > 0 { PoolIgnores(reg, ex, round, n - 1); }
  }

  lemma ExpertChosen(reg: Registry, ex: set<nat>)
    requires Pool(reg, ex, Expert, |reg|) != []
    ensures var k := BestMatch(reg, ex).value; IsLive(reg, k) && k !in ex
  {
  }

  lemma FreeChosen(reg: Registry, ex: set<nat>)
    requires Pool(reg, ex, Expert, |reg|) == [] && Pool(reg, ex, Free, |reg|) != []
    ensures reg != []
    ensures var k := BestMatch(reg, ex).value; IsLive(reg, k) && k !in ex
  {
    RankedIsLeast(reg, Pool(reg, ex, Free, |reg|));
  }

  lemma NoneFree(reg: Registry, ex: set<nat>)
    requires reg != [] && Pool(reg, ex, Free, |reg|) == []
    ensures forall j :: 0 <= j < |reg| && IsLive(reg, j) ==> j in ex
    ensures BestMatch(reg, ex) == Some(LastResort(reg))
  {
    forall j | 0 <= j < |reg| && IsLive(reg, j) ensures j in ex { assert !Qualifies(reg[j], j in ex, Free); }
    assert forall j :: 0 <= j < |reg| ==> !Qualifies(reg[j], j in ex, Expert);
    PoolIgnores(reg, ex, Live, |reg|);
    PoolIgnores(reg, ex, Anyone, |reg|);
  }

  /** A live account outside the exclusions is chosen if there is one; if there is none, always
      the same account, excluded or not. */
  lemma BestMatchExactly(reg: Registry, ex: set<nat>)
    requires reg != []
    ensures var k := BestMatch(reg, ex).value;
      if exists j :: 0 <= j < |reg| && IsLive(reg, j) && j !in ex then IsLive(reg, k) && k !in ex
      else k == LastResort(reg)
  {
    if Pool(reg, ex, Expert, |reg|) != [] { ExpertChosen(reg, ex); }
    else if Pool(reg, ex, Free, |reg|) != [] { FreeChosen(reg, ex); }
    else { NoneFree(reg, ex); }
  }

  // ----- the chain the program builds -----

  function LiveProviders(reg: Registry): set<string> {
    set k | 0 <= k < |reg| && IsLive(reg, k) :: reg[k].provider
  }

  function Pick(reg: Registry): set<nat> -> Option<nat> {
    ex => BestMatch(reg, ex)
  }

  /** Live accounts, each of a provider of its own. */
  predicate FreshLive(reg: Registry, chain: seq<nat>) {
    chain == []
    || (var before, last := chain[..|chain| - 1], chain[|chain| - 1];
        FreshLive(reg, before) && IsLive(reg, last) && reg[last].provider !in Providers(reg, before))
  }

  predicate Exhausted(reg: Registry, chain: seq<nat>) {
    LiveProviders(reg) <= Providers(reg, chain)
  }

  lemma {:induction false} ProvidersCount(reg: Registry, chain: seq<nat>)
    requires FreshLive(reg, chain)
    ensures |Providers(reg, chain)| == |chain| && Providers(reg, chain) <= LiveProviders(reg)
    decreases |chain|
  {
    if chain != [] {
      var before, last := chain[..|chain| - 1], chain[|chain| - 1];
      ProvidersCount(reg, before);
      assert Providers(reg, chain) == Providers(reg, before) + {reg[last].provider};
    }
  }

  lemma ProviderIn(reg: Registry, chain: seq<nat>, j: nat)
    requires j < |reg|
    ensures j in chain ==> reg[j].provider in Providers(reg, chain)
  {
  }

  /** A live account of a fresh provider, or the last resort if there is none. */
  predicate Follows(reg: Registry, chain: seq<nat>, k: nat)
    requires reg != []
  {
    if Exhausted(reg, chain) then k == LastResort(reg) else IsLive(reg, k) && reg[k].provider !in Providers(reg, chain)
  }

  /** What each step adds. */
  lemma NextIs(reg: Registry, chain: seq<nat>)
    requires reg != [] && InRegistry(reg, chain)
    ensures var next := Next(Pick(reg), reg, chain);
      next.Some? && Follows(reg, chain, next.value)
  {
    var ex := Related(reg, chain);
    BestMatchExactly(reg, ex);
    if LiveProviders(reg) <= Providers(reg, chain) {
      forall j | 0 <= j < |reg| && IsLive(reg, j) ensures j in ex {
        assert reg[j].provider in LiveProviders(reg);
      }
    } else {
      var p :| p in LiveProviders(reg) && p !in Providers(reg, chain);
      var j :| 0 <= j < |reg| && IsLive(reg, j) && reg[j].provider == p;
      ProviderIn(reg, chain, j);
      assert j !in ex;
    }
  }

  /** One account of each live provider, then always the same one. */
  ghost predicate IsChain(reg: Registry, chain: seq<nat>)
    requires reg != []
  {
    var p := |LiveProviders(reg)|;
    && InRegistry(reg, chain)
    && FreshLive(reg, chain[..if |chain| <= p then |chain| else p])
    && forall i :: p <= i < |chain| ==> chain[i] == LastResort(reg)
  }

  lemma ChainExactly(reg: Registry, steps: nat)
    requires reg != []
    ensures |Chain(Pick(reg), reg, steps)| == steps && IsChain(reg, Chain(Pick(reg), reg, steps))
  {
    var inv := chain => IsChain(reg, chain);
    forall before | inv(before)
      ensures Next(Pick(reg), reg, before).Some? && inv(before + [Next(Pick(reg), reg, before).value]) {
      ChainStep(reg, Pick(reg), before);
    }
    ChainKeeps(Pick(reg), reg, steps, inv);
  }

  /** What every step keeps holds of the chain. */
  lemma {:induction false} ChainKeeps(pick: set<nat> -> Option<nat>, reg: Registry, steps: nat, inv: seq<nat> -> bool)
    requires inv([])
    requires forall before {:trigger Next(pick, reg, before)} :: inv(before) ==>
               Next(pick, reg, before).Some? && inv(before + [Next(pick, reg, before).value])
    ensures |Chain(pick, reg, steps)| == steps && inv(Chain(pick, reg, steps))
  {
    if steps > 0 {
      ChainKeeps(pick, reg, steps - 1, inv);
      ChainUnfolds(pick, reg, steps);
    }
  }

  lemma ChainUnfolds(pick: set<nat> -> Option<nat>, reg: Registry, steps: nat)
    requires steps > 0 && |Chain(pick, reg, steps - 1)| == steps - 1
    requires Next(pick, reg, Chain(pick, reg, steps - 1)).Some?
    ensures Chain(pick, reg, steps) == Chain(pick, reg, steps - 1) + [Next(pick, reg, Chain(pick, reg, steps - 1)).value]
  {
  }

  lemma ChainStep(reg: Registry, pick: set<nat> -> Option<nat>, before: seq<nat>)
    requires reg != [] && pick == Pick(reg) && IsChain(reg, before)
    ensures Next(pick, reg, before).Some? && IsChain(reg, before + [Next(pick, reg, before).value])
  {
    NextIs(reg, before);
    StepByCases(reg, before, Next(pick, reg, before).value);
  }

  lemma StepByCases(reg: Registry, before: seq<nat>, k: nat)
    requires reg != [] && IsChain(reg, before) && Follows(reg, before, k)
    ensures IsChain(reg, before + [k])
  {
    if |before| < |LiveProviders(reg)| { FreshStep(reg, before, k); } else { ResortStep(reg, before, k); }
  }

  lemma FreshStep(reg: Registry, before: seq<nat>, k: nat)
    requires reg != [] && IsChain(reg, before) && |before| < |LiveProviders(reg)|
    requires Follows(reg, before, k)
    ensures IsChain(reg, before + [k])
  {
    assert before[..|before|] == before;
    ProvidersCount(reg, before);
    if Exhausted(reg, before) { SubsetSize(LiveProviders(reg), Providers(reg, before)); }
    assert (before + [k])[..|before|] == before;
    assert (before + [k])[..|before| + 1] == before + [k];
  }

  lemma ResortStep(reg: Registry, before: seq<nat>, k: nat)
    requires reg != [] && IsChain(reg, before) && |before| >= |LiveProviders(reg)|
    requires Follows(reg, before, k)
    ensures IsChain(reg, before + [k])
  {
    var p := |LiveProviders(reg)|;
    var first := before[..p];
    ProvidersCount(reg, first);
    SubsetSize(Providers(reg, first), LiveProviders(reg));
    ProvidersGrow(reg, before, p);
    assert (before + [k])[..p] == first;
  }

  lemma ProvidersGrow(reg: Registry, chain: seq<nat>, p: nat)
    requires p <= |chain|
    ensures Providers(reg, chain[..p]) <= Providers(reg, chain)
  {
    forall q | q in Providers(reg, chain[..p]) ensures q in Providers(reg, chain) {
      var m :| m in chain[..p] && m < |reg| && reg[m].provider == q;
      assert m in chain;
    }
  }

  lemma {:induction false} FreshNoRepeats(reg: Registry, chain: seq<nat>)
    requires FreshLive(reg, chain)
    ensures NoRepeats(chain)
    decreases |chain|
  {
    if chain != [] {
      var before, last := chain[..|chain| - 1], chain[|chain| - 1];
      FreshNoRepeats(reg, before);
      ProviderIn(reg, before, last);
      forall i, j | 0 <= i < j < |chain| ensures chain[i] != chain[j] {
        assert before[i] == chain[i];
        assert j < |before| ==> before[j] == chain[j];
      }
    }
  }

  // ----- when the chain holds no account twice -----

  /** Preferred by a stable sort by usage: least used, and of those the first. */
  predicate Ahead(reg: Registry, j: nat, k: nat) {
    j < |reg| && k < |reg| && (reg[j].usage < reg[k].usage || (reg[j].usage == reg[k].usage && j <= k))
  }

  predicate IsHead(reg: Registry, pool: seq<nat>, k: nat) {
    k in pool && forall j :: j in pool ==> Ahead(reg, k, j)
  }

  predicate Ascending(pool: seq<nat>) {
    forall i, j :: 0 <= i < j < |pool| ==> pool[i] < pool[j]
  }

  lemma {:induction false} PoolAscends(reg: Registry, ex: set<nat>, round: Round, n: nat)
    requires n <= |reg|
    ensures Ascending(Pool(reg, ex, round, n))
  {
    if n > 0 {
      PoolAscends(reg, ex, round, n - 1);
      AscendsMore(Pool(reg, ex, round, n - 1), n - 1);
    }
  }

  lemma AscendsMore(pool: seq<nat>, k: nat)
    requires Ascending(pool) && forall j :: j in pool ==> j < k
    ensures Ascending(pool + [k])
  {
    forall i | 0 <= i < |pool| ensures pool[i] < k { assert pool[i] in pool; }
  }

  lemma {:induction false} LeastIsHead(reg: Registry, pool: seq<nat>)
    requires pool != [] && InRegistry(reg, pool) && Ascending(pool)
    ensures IsHead(reg, pool, Least(reg, pool))
    decreases |pool|
  {
    if |pool| > 1 {
      var before, last := pool[..|pool| - 1], pool[|pool| - 1];
      InitLast(pool);
      LeastIsHead(reg, before);
      LeastLast(reg, before, last);
      assert forall j :: j in before ==> j < last;
    }
  }

  /** What the rounds of _best_match prefer among the accounts that qualify. */
  lemma PoolHead(reg: Registry, ex: set<nat>, round: Round)
    requires Pool(reg, ex, round, |reg|) != []
    ensures var pool := Pool(reg, ex, round, |reg|);
      IsHead(reg, pool, Least(reg, pool)) && Ranked(reg, pool) == Least(reg, pool)
  {
    PoolAscends(reg, ex, round, |reg|);
    LeastIsHead(reg, Pool(reg, ex, round, |reg|));
    RankedIsLeast(reg, Pool(reg, ex, round, |reg|));
  }

  predicate IsExpert(reg: Registry, k: nat) {
    IsLive(reg, k) && reg[k].natural && reg[k].usage < QUOTA_CUTOFF
  }

  /** Another account of its provider goes before the last resort: one made for the role that has
      quota left, when the last resort is not made for it. */
  predicate Shadowed(reg: Registry)
    requires reg != []
  {
    var l := LastResort(reg);
    !reg[l].natural && exists k :: 0 <= k < |reg| && IsExpert(reg, k) && reg[k].provider == reg[l].provider
  }

  lemma LastResortLeads(reg: Registry, j: nat)
    requires reg != [] && IsLive(reg, j)
    ensures IsLive(reg, LastResort(reg)) && Ahead(reg, LastResort(reg), j)
  {
    assert j in Pool(reg, {}, Live, |reg|);
    PoolHead(reg, {}, Live);
  }

  /** If accounts are excluded by provider, and its own provider comes up next, then it is the last
      resort that stands for its provider, unless another account goes before it. */
  lemma ProviderTurn(reg: Registry, ex: set<nat>, k: nat)
    requires reg != [] && BestMatch(reg, ex) == Some(k) && k !in ex && IsLive(reg, k)
    requires reg[k].provider == reg[LastResort(reg)].provider
    requires forall j :: j in ex && j < |reg| ==> reg[j].provider != reg[k].provider
    ensures k == LastResort(reg) <==> !Shadowed(reg)
  {
    var l, n := LastResort(reg), |reg|;
    LastResortLeads(reg, k);
    assert l in Pool(reg, ex, Free, n);
    var experts := Pool(reg, ex, Expert, n);
    if experts != [] {
      PoolHead(reg, ex, Expert);
      if reg[l].natural { assert l in experts; }
    } else {
      PoolHead(reg, ex, Free);
      forall j | 0 <= j < n && IsExpert(reg, j) ensures reg[j].provider != reg[l].provider {
        assert j !in experts;
      }
    }
  }

  /** Whether the last resort has come up once its provider has. */
  ghost predicate ResortDue(reg: Registry, chain: seq<nat>)
    requires reg != []
  {
    reg[LastResort(reg)].provider in Providers(reg, chain) ==> (LastResort(reg) in chain <==> !Shadowed(reg))
  }

  ghost predicate IsDueChain(reg: Registry, chain: seq<nat>)
    requires reg != []
  {
    IsChain(reg, chain) && (|chain| <= |LiveProviders(reg)| ==> ResortDue(reg, chain))
  }

  lemma ResortComesUp(reg: Registry, steps: nat)
    requires reg != []
    ensures |Chain(Pick(reg), reg, steps)| == steps && IsDueChain(reg, Chain(Pick(reg), reg, steps))
  {
    var inv := chain => IsDueChain(reg, chain);
    forall before | inv(before)
      ensures Next(Pick(reg), reg, before).Some? && inv(before + [Next(Pick(reg), reg, before).value]) {
      DueStep(reg, Pick(reg), before);
    }
    ChainKeeps(Pick(reg), reg, steps, inv);
  }

  lemma DueStep(reg: Registry, pick: set<nat> -> Option<nat>, before: seq<nat>)
    requires reg != [] && pick == Pick(reg) && IsDueChain(reg, before)
    ensures Next(pick, reg, before).Some? && IsDueChain(reg, before + [Next(pick, reg, before).value])
  {
    ChainStep(reg, pick, before);
    if |before| < |LiveProviders(reg)| {
      var k := NextFresh(reg, pick, before);
      ResortStepDue(reg, before, k);
    }
  }

  lemma StillFresh(reg: Registry, before: seq<nat>)
    requires reg != [] && IsChain(reg, before) && |before| < |LiveProviders(reg)|
    ensures !Exhausted(reg, before)
  {
    assert before[..|before|] == before;
    ProvidersCount(reg, before);
    if Exhausted(reg, before) { SubsetSize(LiveProviders(reg), Providers(reg, before)); }
  }

  lemma NextFresh(reg: Registry, pick: set<nat> -> Option<nat>, before: seq<nat>) returns (k: nat)
    requires reg != [] && pick == Pick(reg) && IsChain(reg, before) && |before| < |LiveProviders(reg)|
    ensures Next(pick, reg, before) == Some(k) && BestMatch(reg, Related(reg, before)) == Some(k)
    ensures IsLive(reg, k) && reg[k].provider !in Providers(reg, before)
  {
    StillFresh(reg, before);
    NextIs(reg, before);
    NextPick(reg, before);
    k := Next(pick, reg, before).value;
  }

  lemma NextPick(reg: Registry, chain: seq<nat>)
    requires reg != []
    ensures Next(Pick(reg), reg, chain) == BestMatch(reg, Related(reg, chain))
  {
    assert Pick(reg)(Related(reg, chain)) == BestMatch(reg, Related(reg, chain));
  }

  lemma ResortStepDue(reg: Registry, before: seq<nat>, k: nat)
    requires reg != [] && ResortDue(reg, before) && BestMatch(reg, Related(reg, before)) == Some(k)
    requires IsLive(reg, k) && reg[k].provider !in Providers(reg, before)
    ensures ResortDue(reg, before + [k])
  {
    var l := LastResort(reg);
    ProvidersMore(reg, before, k);
    ProviderIn(reg, before, l);
    if reg[k].provider == reg[l].provider {
      RelatedApart(reg, before, k);
      ProviderTurn(reg, Related(reg, before), k);
    }
  }

  lemma ProvidersMore(reg: Registry, before: seq<nat>, k: nat)
    requires k < |reg|
    ensures Providers(reg, before + [k]) == Providers(reg, before) + {reg[k].provider}
  {
  }

  lemma RelatedApart(reg: Registry, before: seq<nat>, k: nat)
    requires k < |reg| && reg[k].provider !in Providers(reg, before)
    ensures k !in Related(reg, before)
    ensures forall j :: j in Related(reg, before) && j < |reg| ==> reg[j].provider != reg[k].provider
  {
  }

  /** The chain holds no account twice exactly if it is no longer than there are live providers, or
      one longer and another account has gone before the last resort. */
  lemma RepeatsExactly(reg: Registry, steps: nat)
    requires reg != []
    ensures |Chain(Pick(reg), reg, steps)| == steps
    ensures var p := |LiveProviders(reg)|;
      NoRepeats(Chain(Pick(reg), reg, steps)) <==> steps <= p || (steps == p + 1 && (p == 0 || Shadowed(reg)))
  {
    var chain, p := Chain(Pick(reg), reg, steps), |LiveProviders(reg)|;
    ChainExactly(reg, steps);
    if steps <= p {
      assert chain[..steps] == chain;
      FreshNoRepeats(reg, chain);
    } else {
      FreshNoRepeats(reg, chain[..p]);
      if steps == p + 1 {
        LastRepeats(chain, p);
        OneTooMany(reg, p);
      } else {
        assert chain[p] == chain[p + 1];
      }
    }
  }

  lemma OneTooMany(reg: Registry, p: nat)
    requires reg != [] && p == |LiveProviders(reg)|
    ensures |Chain(Pick(reg), reg, p + 1)| == p + 1
    ensures LastResort(reg) !in Chain(Pick(reg), reg, p + 1)[..p] <==> p == 0 || Shadowed(reg)
  {
    var before := Chain(Pick(reg), reg, p);
    ResortComesUp(reg, p);
    ChainExactly(reg, p + 1);
    ChainUnfolds(Pick(reg), reg, p + 1);
    assert Chain(Pick(reg), reg, p + 1)[..p] == before;
    if p > 0 {
      assert before[..p] == before;
      ProvidersCount(reg, before);
      SubsetSize(Providers(reg, before), LiveProviders(reg));
      SomeLive(reg);
    }
  }

  lemma SomeLive(reg: Registry)
    requires reg != [] && LiveProviders(reg) != {}
    ensures reg[LastResort(reg)].provider in LiveProviders(reg)
  {
    var q :| q in LiveProviders(reg);
    var j :| 0 <= j < |reg| && IsLive(reg, j) && reg[j].provider == q;
    LastResortLeads(reg, j);
  }

  lemma LastRepeats(chain: seq<nat>, p: nat)
    requires |chain| == p + 1 && NoRepeats(chain[..p])
    ensures NoRepeats(chain) <==> chain[p] !in chain[..p]
  {
    forall i, j | 0 <= i < j < p ensures chain[i] != chain[j] {
      assert chain[..p][i] != chain[..p][j];
    }
    forall i | 0 <= i < p ensures chain[i] in chain[..p] {
      assert chain[..p][i] == chain[i];
    }
  }

  function DynamicSteps(reg: Registry): nat {
    var live := |LiveProviders(reg)|;
    var capped := if live < MAX_CHAIN_STEPS_CEILING then live else MAX_CHAIN_STEPS_CEILING;
    if capped > MAX_CHAIN_STEPS then capped else MAX_CHAIN_STEPS
  }

  /** With the length the program chooses, three live providers are enough. */
  lemma DynamicRepeats(reg: Registry)
    requires reg != []
    ensures |Chain(Pick(reg), reg, DynamicSteps(reg))| == DynamicSteps(reg) >= 3
    ensures var p := |LiveProviders(reg)|;
      NoRepeats(Chain(Pick(reg), reg, DynamicSteps(reg))) <==> p >= 3 || (p == 2 && Shadowed(reg))
  {
    RepeatsExactly(reg, DynamicSteps(reg));
  }

  /** With a single account the chain tries it three times. */
  lemma SingleAccountRepeats(reg: Registry)
    requires |reg| == 1
    ensures !NoRepeats(Chain(Pick(reg), reg, DynamicSteps(reg)))
  {
    DynamicRepeats(reg);
    SubsetSize(LiveProviders(reg), {reg[0].provider});
  }
}
