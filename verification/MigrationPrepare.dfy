/**
 Preparing a convergent migration (application/convergentSyncMigration.ts): one
 concurrent fetch per provider pushes into shared lists, in whatever order the
 network answers. The outcome must not depend on that order.
 */
module MigrationPrepare {
  import opened Prelude

  type Provider = string

  datatype Payload = Payload(text: string)

  datatype Attempt<+T> = Ok(value: T) | Throws(message: string)

  /** A downloaded remote file; `own` is its convergent state, if it carries a valid one. */
  datatype Remote = Remote(meta: string, payload: Payload, own: Option<string>)

  /** What one provider's awaits will answer. */
  datatype Fetch = Fetch(baseline: Attempt<Option<Payload>>, download: Attempt<Option<Remote>>)

  datatype Input =
    | Ready(provider: Provider, meta: string, payload: Payload, trustedBaseline: Option<Payload>)
    | Empty(provider: Provider)
    | Unavailable(provider: Provider, message: string)

  /** The state stored with a provider baseline: its own, or the migration plan's. */
  datatype BaselineState = Own(state: string) | FromPlan

  datatype Baseline = Baseline(provider: Provider, meta: string, payload: Payload, state: BaselineState)

  datatype Progress = Waiting | Based(baseline: Option<Payload>) | Answered(input: Input)

  /** The shared variables the concurrent callbacks write. */
  datatype Shared = Shared(
    progress: map<Provider, Progress>,
    trusted: seq<(Provider, Option<Payload>)>,   // a JavaScript Map, in insertion order
    convergent: seq<Baseline>,
    seeds: seq<Baseline>)

  type Fetches = map<Provider, Fetch>

  function Begin(fetches: Fetches): Shared {
    Shared(map p | p in fetches :: Waiting, [], [], [])
  }

  predicate Enabled(fetches: Fetches, s: Shared, p: Provider) {
    p in fetches && p in s.progress && !s.progress[p].Answered?
  }

  function RecordOf(p: Provider, remote: Remote): Baseline {
    Baseline(p, remote.meta, remote.payload, if remote.own.Some? then Own(remote.own.value) else FromPlan)
  }

  /** The next synchronous stretch of provider `p`'s callback. */
  function Step(fetches: Fetches, s: Shared, p: Provider): Shared
    requires Enabled(fetches, s, p)
  {
    var fetch := fetches[p];
    match s.progress[p]
    case Waiting =>
      if fetch.baseline.Throws? then s.(progress := s.progress[p := Answered(Unavailable(p, fetch.baseline.message))])
      else s.(progress := s.progress[p := Based(fetch.baseline.value)], trusted := s.trusted + [(p, fetch.baseline.value)])
    case Based(baseline) =>
      if fetch.download.Throws? then s.(progress := s.progress[p := Answered(Unavailable(p, fetch.download.message))])
      else if fetch.download.value.None? then s.(progress := s.progress[p := Answered(Empty(p))])
      else
        var remote := fetch.download.value.value;
        var answered := s.(progress := s.progress[p := Answered(Ready(p, remote.meta, remote.payload, baseline))]);
        if remote.own.Some? then answered.(convergent := s.convergent + [RecordOf(p, remote)])
        else answered.(seeds := s.seeds + [RecordOf(p, remote)])
  }

  /** A completion order: which callback ran next, from start to finish. */
  ghost predicate CompleteRun(fetches: Fetches, ss: seq<Shared>, order: seq<Provider>) {
    && |ss| == |order| + 1
    && ss[0] == Begin(fetches)
    && (forall i :: 0 <= i < |order| ==> Enabled(fetches, ss[i], order[i]) && ss[i + 1] == Step(fetches, ss[i], order[i]))
    && (forall p :: p in fetches ==> p in ss[|order|].progress && ss[|order|].progress[p].Answered?)
  }

  // What each provider contributes, whatever the order.

  ghost predicate HasBaseline(fetches: Fetches, p: Provider) {
    p in fetches && fetches[p].baseline.Ok?
  }

  ghost predicate IsReady(fetches: Fetches, p: Provider) {
    HasBaseline(fetches, p) && fetches[p].download.Ok? && fetches[p].download.value.Some?
  }

  ghost function RemoteOf(fetches: Fetches, p: Provider): Remote
    requires IsReady(fetches, p)
  {
    fetches[p].download.value.value
  }

  ghost function InputOf(fetches: Fetches, p: Provider): Input
    requires p in fetches
  {
    var f := fetches[p];
    if f.baseline.Throws? then Unavailable(p, f.baseline.message)
    else if f.download.Throws? then Unavailable(p, f.download.message)
    else if f.download.value.None? then Empty(p)
    else Ready(p, f.download.value.value.meta, f.download.value.value.payload, f.baseline.value)
  }

  ghost predicate DistinctProviders(bs: seq<Baseline>) {
    forall i, j :: 0 <= i < j < |bs| ==> bs[i].provider != bs[j].provider
  }

  ghost predicate ProgressInv(fetches: Fetches, s: Shared) {
    && s.progress.Keys == fetches.Keys
    && forall p :: p in fetches ==>
      match s.progress[p]
      case Waiting => true
      case Based(b) => HasBaseline(fetches, p) && fetches[p].baseline.value == b
      case Answered(input) => input == InputOf(fetches, p)
  }

  ghost predicate TrustedInv(fetches: Fetches, s: Shared)
    requires s.progress.Keys == fetches.Keys
  {
    && (forall i :: 0 <= i < |s.trusted| ==>
          HasBaseline(fetches, s.trusted[i].0) && s.trusted[i].1 == fetches[s.trusted[i].0].baseline.value)
    && (forall p :: p in fetches && HasBaseline(fetches, p) && !s.progress[p].Waiting? ==>
          (p, fetches[p].baseline.value) in s.trusted)
  }

  ghost predicate Contributed(fetches: Fetches, s: Shared, p: Provider)
    requires s.progress.Keys == fetches.Keys
  {
    IsReady(fetches, p) && s.progress[p].Answered?
  }

  /** The two record lists hold exactly the records of the ready providers answered so far. */
  ghost predicate RecordsInv(fetches: Fetches, s: Shared)
    requires s.progress.Keys == fetches.Keys
  {
    var all := s.convergent + s.seeds;
    && DistinctProviders(all)
    && (forall b :: b in all ==> Contributed(fetches, s, b.provider) && b == RecordOf(b.provider, RemoteOf(fetches, b.provider)))
    && (forall p :: Contributed(fetches, s, p) ==> RecordOf(p, RemoteOf(fetches, p)) in all)
    && (forall b :: b in s.convergent ==> b.state.Own?)
    && (forall b :: b in s.seeds ==> b.state.FromPlan?)
  }

  lemma AddRecord(convergent: seq<Baseline>, seeds: seq<Baseline>, b: Baseline)
    requires DistinctProviders(convergent + seeds)
    requires forall x :: x in convergent + seeds ==> x.provider != b.provider
    ensures DistinctProviders((convergent + [b]) + seeds)
    ensures DistinctProviders(convergent + (seeds + [b]))
    ensures forall x :: x in (convergent + [b]) + seeds <==> x in convergent + seeds || x == b
    ensures forall x :: x in convergent + (seeds + [b]) <==> x in convergent + seeds || x == b
  {
    var all := convergent + seeds;
    assert forall i :: 0 <= i < |all| ==> all[i] in all;
    assert forall i :: 0 <= i < |convergent| ==> all[i] == convergent[i];
    assert forall i :: 0 <= i < |seeds| ==> all[|convergent| + i] == seeds[i];
    assert convergent + (seeds + [b]) == all + [b];
  }

  lemma StepKeepsAnswers(fetches: Fetches, s: Shared, p: Provider)
    requires ProgressInv(fetches, s) && Enabled(fetches, s, p)
    ensures ProgressInv(fetches, Step(fetches, s, p))
  {
  }

  lemma StepKeepsTrusted(fetches: Fetches, s: Shared, p: Provider)
    requires ProgressInv(fetches, s) && TrustedInv(fetches, s) && Enabled(fetches, s, p)
    ensures Step(fetches, s, p).progress.Keys == fetches.Keys && TrustedInv(fetches, Step(fetches, s, p))
  {
    var after := Step(fetches, s, p);
    forall q | q in fetches && HasBaseline(fetches, q) && !after.progress[q].Waiting?
      ensures (q, fetches[q].baseline.value) in after.trusted
    {
      if q == p && s.progress[p].Waiting? {
        assert after.trusted[|s.trusted|] == (p, fetches[p].baseline.value);
      } else {
        assert (q, fetches[q].baseline.value) in s.trusted;
      }
    }
  }

  lemma StepKeepsProgress(fetches: Fetches, s: Shared, p: Provider)
    requires ProgressInv(fetches, s) && TrustedInv(fetches, s) && Enabled(fetches, s, p)
    ensures ProgressInv(fetches, Step(fetches, s, p)) && TrustedInv(fetches, Step(fetches, s, p))
  {
    StepKeepsAnswers(fetches, s, p);
    StepKeepsTrusted(fetches, s, p);
  }

  lemma StepKeepsRecords(fetches: Fetches, s: Shared, p: Provider)
    requires ProgressInv(fetches, s) && RecordsInv(fetches, s) && Enabled(fetches, s, p)
    ensures Step(fetches, s, p).progress.Keys == fetches.Keys && RecordsInv(fetches, Step(fetches, s, p))
  {
    var after := Step(fetches, s, p);
    assert forall q :: q != p ==> Contributed(fetches, after, q) == Contributed(fetches, s, q);
    if s.progress[p].Based? && IsReady(fetches, p) {
      AddRecord(s.convergent, s.seeds, RecordOf(p, RemoteOf(fetches, p)));
    }
  }

  lemma {:induction false} RunKeepsInv(fetches: Fetches, ss: seq<Shared>, order: seq<Provider>, k: nat)
    requires CompleteRun(fetches, ss, order) && k <= |order|
    ensures ProgressInv(fetches, ss[k]) && TrustedInv(fetches, ss[k]) && RecordsInv(fetches, ss[k])
  {
    if k > 0 {
      RunKeepsInv(fetches, ss, order, k - 1);
      StepKeepsProgress(fetches, ss[k - 1], order[k - 1]);
      StepKeepsRecords(fetches, ss[k - 1], order[k - 1]);
    }
  }

  // The trusted baseline.

  /** Payload comparison is an equivalence; it need not be equality. */
  ghost predicate Equivalence(eq: (Payload, Payload) -> bool) {
    && (forall a :: eq(a, a))
    && (forall a, b :: eq(a, b) ==> eq(b, a))
    && (forall a, b, c :: eq(a, b) && eq(b, c) ==> eq(a, c))
  }

  function SelectLocalTrustedBaseline(eq: (Payload, Payload) -> bool, baselines: seq<Payload>): Option<Payload> {
    if baselines != [] && forall i :: 0 <= i < |baselines| ==> eq(baselines[0], baselines[i]) then Some(baselines[0]) else None
  }

  function Present(trusted: seq<(Provider, Option<Payload>)>): (ps: seq<Payload>)
    ensures forall x :: x in ps <==> exists i :: 0 <= i < |trusted| && trusted[i].1 == Some(x)
  {
    if trusted == [] then []
    else
      var rest := Present(trusted[1..]);
      assert forall i :: 1 <= i < |trusted| ==> trusted[i] == trusted[1..][i - 1];
      (if trusted[0].1.Some? then [trusted[0].1.value] else []) + rest
  }

  ghost predicate SameBaseline(eq: (Payload, Payload) -> bool, a: Option<Payload>, b: Option<Payload>) {
    match (a, b)
    case (Some(x), Some(y)) => eq(x, y)
    case (None, None) => true
    case _ => false
  }

  lemma EmptyAlike<T>(a: seq<T>, b: seq<T>)
    requires forall x :: x in a <==> x in b
    ensures a == [] <==> b == []
  {
    if a != [] {
      assert a[0] in b;
    }
    if b != [] {
      assert b[0] in a;
    }
  }

  /** The same payloads in another order select the same baseline up to payload equality. */
  lemma SelectionIgnoresOrder(eq: (Payload, Payload) -> bool, a: seq<Payload>, b: seq<Payload>)
    requires Equivalence(eq) && forall x :: x in a <==> x in b
    ensures SameBaseline(eq, SelectLocalTrustedBaseline(eq, a), SelectLocalTrustedBaseline(eq, b))
  {
    EmptyAlike(a, b);
    if a != [] {
      assert a[0] in a && b[0] in b;
      forall i | 0 <= i < |a|
        ensures a[i] in b
      {
        assert a[i] in a;
      }
      forall i | 0 <= i < |b|
        ensures b[i] in a
      {
        assert b[i] in b;
      }
    }
  }

  // Sorting by provider.

  ghost predicate StrictTotal(before: (Provider, Provider) -> bool) {
    && (forall a :: !before(a, a))
    && (forall a, b :: a != b ==> before(a, b) || before(b, a))
    && (forall a, b, c :: before(a, b) && before(b, c) ==> before(a, c))
  }

  ghost predicate Sorted(before: (Provider, Provider) -> bool, bs: seq<Baseline>) {
    forall i, j :: 0 <= i < j < |bs| ==> before(bs[i].provider, bs[j].provider)
  }

  function Insert(before: (Provider, Provider) -> bool, b: Baseline, bs: seq<Baseline>): seq<Baseline> {
    if bs == [] then [b]
    else if before(bs[0].provider, b.provider) then [bs[0]] + Insert(before, b, bs[1..])
    else [b] + bs
  }

  function SortByProvider(before: (Provider, Provider) -> bool, bs: seq<Baseline>): seq<Baseline> {
    if bs == [] then [] else Insert(before, bs[0], SortByProvider(before, bs[1..]))
  }

  lemma {:induction false} InsertSorts(before: (Provider, Provider) -> bool, b: Baseline, bs: seq<Baseline>)
    requires StrictTotal(before) && Sorted(before, bs)
    requires forall i :: 0 <= i < |bs| ==> bs[i].provider != b.provider
    ensures Sorted(before, Insert(before, b, bs))
    ensures forall x :: x in Insert(before, b, bs) <==> x == b || x in bs
  {
    if bs != [] && before(bs[0].provider, b.provider) {
      InsertSorts(before, b, bs[1..]);
      var rest := Insert(before, b, bs[1..]);
      forall j | 0 <= j < |rest|
        ensures before(bs[0].provider, rest[j].provider)
      {
        assert rest[j] in rest;
      }
    }
  }

  lemma {:induction false} SortSorts(before: (Provider, Provider) -> bool, bs: seq<Baseline>)
    requires StrictTotal(before) && DistinctProviders(bs)
    ensures Sorted(before, SortByProvider(before, bs))
    ensures forall x :: x in SortByProvider(before, bs) <==> x in bs
  {
    if bs != [] {
      SortSorts(before, bs[1..]);
      var rest := SortByProvider(before, bs[1..]);
      forall i | 0 <= i < |rest|
        ensures rest[i].provider != bs[0].provider
      {
        assert rest[i] in rest && rest[i] in bs[1..];
      }
      InsertSorts(before, bs[0], rest);
    }
  }

  /** A strictly sorted list is determined by its elements. */
  lemma {:induction false} SortedUnique(before: (Provider, Provider) -> bool, a: seq<Baseline>, b: seq<Baseline>)
    requires StrictTotal(before) && Sorted(before, a) && Sorted(before, b)
    requires forall x :: x in a <==> x in b
    ensures a == b
  {
    EmptyAlike(a, b);
    if a != [] {
      assert a[0] in a && a[0] in b;
      assert b[0] in b && b[0] in a;
      assert a[0] == b[0];
      forall x
        ensures x in a[1..] <==> x in b[1..]
      {
        assert x in a[1..] ==> x in a && x != a[0];
        assert x in b[1..] ==> x in b && x != b[0];
      }
      SortedUnique(before, a[1..], b[1..]);
    }
  }

  // The result.

  datatype Plan = Plan(state: Option<string>, text: string)

  datatype Prepared = Prepared(inputs: seq<Input>, trusted: Option<Payload>, plan: Plan, baselines: seq<Baseline>)

  /** The outside functions: payload equality, provider order, and the planner of the convergent library. */
  datatype Library = Library(
    eq: (Payload, Payload) -> bool,
    before: (Provider, Provider) -> bool,
    plan: (Option<Payload>, seq<Input>) -> Plan,
    samePlan: (Plan, Plan) -> bool)

  ghost predicate Lawful(lib: Library) {
    && Equivalence(lib.eq)
    && StrictTotal(lib.before)
    && (forall a, b, inputs :: SameBaseline(lib.eq, a, b) ==> lib.samePlan(lib.plan(a, inputs), lib.plan(b, inputs)))
    && (forall a, b :: lib.samePlan(a, b) ==> a.state.Some? == b.state.Some?)
  }

  function Inputs(progress: map<Provider, Progress>, providers: seq<Provider>): seq<Input>
    requires forall p :: p in providers ==> p in progress && progress[p].Answered?
  {
    seq(|providers|, i requires 0 <= i < |providers| => assert providers[i] in providers; progress[providers[i]].input)
  }

  function Finish(lib: Library, s: Shared, providers: seq<Provider>): Prepared
    requires forall p :: p in providers ==> p in s.progress && s.progress[p].Answered?
  {
    var inputs := Inputs(s.progress, providers);
    var trusted := SelectLocalTrustedBaseline(lib.eq, Present(s.trusted));
    var plan := lib.plan(trusted, inputs);
    var records := s.convergent + (if plan.state.Some? then s.seeds else []);
    Prepared(inputs, trusted, plan, SortByProvider(lib.before, records))
  }

  lemma RecordsAgree(fetches: Fetches, a: Shared, b: Shared)
    requires ProgressInv(fetches, a) && RecordsInv(fetches, a) && ProgressInv(fetches, b) && RecordsInv(fetches, b)
    requires forall p :: p in fetches ==> a.progress[p].Answered? && b.progress[p].Answered?
    ensures forall x :: x in a.convergent ==> x in b.convergent
    ensures forall x :: x in a.seeds ==> x in b.seeds
  {
    forall x | x in a.convergent
      ensures x in b.convergent
    {
      assert x in a.convergent + a.seeds;
      assert x in b.convergent + b.seeds;
    }
    forall x | x in a.seeds
      ensures x in b.seeds
    {
      assert x in a.convergent + a.seeds;
      assert x in b.convergent + b.seeds;
    }
  }

  lemma TrustedAgree(fetches: Fetches, a: Shared, b: Shared)
    requires ProgressInv(fetches, a) && TrustedInv(fetches, a) && ProgressInv(fetches, b) && TrustedInv(fetches, b)
    requires forall p :: p in fetches ==> b.progress[p].Answered?
    ensures forall x :: x in Present(a.trusted) ==> x in Present(b.trusted)
  {
    forall x | x in Present(a.trusted)
      ensures x in Present(b.trusted)
    {
      var i :| 0 <= i < |a.trusted| && a.trusted[i].1 == Some(x);
      var p := a.trusted[i].0;
      assert (p, fetches[p].baseline.value) in b.trusted;
    }
  }

  lemma InputsAreKnown(fetches: Fetches, s: Shared, providers: seq<Provider>)
    requires ProgressInv(fetches, s)
    requires forall p :: p in providers ==> p in fetches && s.progress[p].Answered?
    ensures forall i :: 0 <= i < |providers| ==> providers[i] in fetches && Inputs(s.progress, providers)[i] == InputOf(fetches, providers[i])
  {
    forall i | 0 <= i < |providers|
      ensures providers[i] in fetches && Inputs(s.progress, providers)[i] == InputOf(fetches, providers[i])
    {
      assert providers[i] in providers;
    }
  }

  lemma DistinctPrefix(a: seq<Baseline>, b: seq<Baseline>)
    requires DistinctProviders(a + b)
    ensures DistinctProviders(a + [])
  {
    assert forall i :: 0 <= i < |a| ==> (a + b)[i] == a[i];
  }

  lemma SameRecordsSortAlike(lib: Library, a: seq<Baseline>, b: seq<Baseline>)
    requires StrictTotal(lib.before) && DistinctProviders(a) && DistinctProviders(b)
    requires forall x :: x in a <==> x in b
    ensures SortByProvider(lib.before, a) == SortByProvider(lib.before, b)
  {
    SortSorts(lib.before, a);
    SortSorts(lib.before, b);
    SortedUnique(lib.before, SortByProvider(lib.before, a), SortByProvider(lib.before, b));
  }

  /** The records of two finished preparations sort alike, with the seeds and without them. */
  lemma RecordsSortAlike(lib: Library, fetches: Fetches, a: Shared, b: Shared)
    requires StrictTotal(lib.before)
    requires ProgressInv(fetches, a) && RecordsInv(fetches, a) && ProgressInv(fetches, b) && RecordsInv(fetches, b)
    requires forall p :: p in fetches ==> a.progress[p].Answered? && b.progress[p].Answered?
    ensures SortByProvider(lib.before, a.convergent + a.seeds) == SortByProvider(lib.before, b.convergent + b.seeds)
    ensures SortByProvider(lib.before, a.convergent + []) == SortByProvider(lib.before, b.convergent + [])
  {
    RecordsAgree(fetches, a, b);
    RecordsAgree(fetches, b, a);
    DistinctPrefix(a.convergent, a.seeds);
    DistinctPrefix(b.convergent, b.seeds);
    SameRecordsSortAlike(lib, a.convergent + a.seeds, b.convergent + b.seeds);
    SameRecordsSortAlike(lib, a.convergent + [], b.convergent + []);
  }

  lemma TrustedAlike(lib: Library, fetches: Fetches, a: Shared, b: Shared)
    requires Equivalence(lib.eq)
    requires ProgressInv(fetches, a) && TrustedInv(fetches, a) && ProgressInv(fetches, b) && TrustedInv(fetches, b)
    requires forall p :: p in fetches ==> a.progress[p].Answered? && b.progress[p].Answered?
    ensures SameBaseline(lib.eq, SelectLocalTrustedBaseline(lib.eq, Present(a.trusted)),
                                 SelectLocalTrustedBaseline(lib.eq, Present(b.trusted)))
  {
    TrustedAgree(fetches, a, b);
    TrustedAgree(fetches, b, a);
    SelectionIgnoresOrder(lib.eq, Present(a.trusted), Present(b.trusted));
  }

  lemma InputsAlike(fetches: Fetches, providers: seq<Provider>, a: Shared, b: Shared)
    requires ProgressInv(fetches, a) && ProgressInv(fetches, b)
    requires forall p :: p in providers ==> p in fetches && a.progress[p].Answered? && b.progress[p].Answered?
    ensures Inputs(a.progress, providers) == Inputs(b.progress, providers)
  {
    InputsAreKnown(fetches, a, providers);
    InputsAreKnown(fetches, b, providers);
  }

  /**
   Preparation is confluent: any two completion orders give the same inputs,
   the same sorted baselines, and the same trusted baseline and plan up to
   payload equality.
   */
  lemma PreparationIsConfluent(lib: Library, fetches: Fetches, providers: seq<Provider>,
                               sa: seq<Shared>, orderA: seq<Provider>, sb: seq<Shared>, orderB: seq<Provider>)
    requires Lawful(lib) && forall p :: p in providers <==> p in fetches
    requires CompleteRun(fetches, sa, orderA) && CompleteRun(fetches, sb, orderB)
    ensures var a, b := Finish(lib, sa[|orderA|], providers), Finish(lib, sb[|orderB|], providers);
      && a.inputs == b.inputs
      && SameBaseline(lib.eq, a.trusted, b.trusted)
      && lib.samePlan(a.plan, b.plan)
      && a.baselines == b.baselines
  {
    var a, b := sa[|orderA|], sb[|orderB|];
    RunKeepsInv(fetches, sa, orderA, |orderA|);
    RunKeepsInv(fetches, sb, orderB, |orderB|);
    InputsAlike(fetches, providers, a, b);
    TrustedAlike(lib, fetches, a, b);
    RecordsSortAlike(lib, fetches, a, b);
  }

  /** When the plan has a state, a provider has a baseline record exactly when it is ready. */
  lemma BaselinesMatchReadiness(lib: Library, fetches: Fetches, providers: seq<Provider>, ss: seq<Shared>, order: seq<Provider>, p: Provider)
    requires Lawful(lib) && (forall q :: q in providers <==> q in fetches) && CompleteRun(fetches, ss, order)
    ensures var done := Finish(lib, ss[|order|], providers);
      && (done.plan.state.Some? ==>
            ((exists b :: b in done.baselines && b.provider == p)
             <==> (exists i :: 0 <= i < |providers| && providers[i] == p && done.inputs[i].Ready?)))
      && Sorted(lib.before, done.baselines)
  {
    var s := ss[|order|];
    RunKeepsInv(fetches, ss, order, |order|);
    var done := Finish(lib, s, providers);
    DistinctPrefix(s.convergent, s.seeds);
    SortSorts(lib.before, s.convergent + if done.plan.state.Some? then s.seeds else []);
    if done.plan.state.Some? {
      var all := s.convergent + s.seeds;
      assert forall x :: x in done.baselines <==> x in all;
      InputsAreKnown(fetches, s, providers);
      if IsReady(fetches, p) {
        assert Contributed(fetches, s, p);
        assert RecordOf(p, RemoteOf(fetches, p)) in done.baselines;
      }
    }
  }

  /** A completed run's providers have all been answered. */
  ghost predicate Completes(fetches: Fetches, providers: seq<Provider>, ss: seq<Shared>, order: seq<Provider>) {
    CompleteRun(fetches, ss, order) && forall p :: p in providers <==> p in fetches
  }

  // What the result is, read off the fetches.

  /** Provider `p`'s baseline read gave this payload. */
  predicate ReadBaseline(fetches: Fetches, p: Provider, payload: Payload) {
    p in fetches && fetches[p].baseline == Ok(Some(payload))
  }

  /** Some baseline was read, and all that were read are the same payload. */
  ghost predicate BaselinesAgree(lib: Library, fetches: Fetches) {
    && (exists p, x :: ReadBaseline(fetches, p, x))
    && (forall p, q, x, y :: ReadBaseline(fetches, p, x) && ReadBaseline(fetches, q, y) ==> lib.eq(x, y))
  }

  lemma PresentIffRead(fetches: Fetches, s: Shared, x: Payload)
    requires ProgressInv(fetches, s) && TrustedInv(fetches, s) && forall p :: p in fetches ==> s.progress[p].Answered?
    ensures x in Present(s.trusted) <==> exists p :: ReadBaseline(fetches, p, x)
  {
    if p :| ReadBaseline(fetches, p, x) {
      assert (p, fetches[p].baseline.value) in s.trusted;
    }
    if x in Present(s.trusted) {
      var i :| 0 <= i < |s.trusted| && s.trusted[i].1 == Some(x);
      assert ReadBaseline(fetches, s.trusted[i].0, x);
    }
  }

  /** The selection is one of the payloads, and there is one exactly when there are payloads and all are the same. */
  lemma SelectsIff(eq: (Payload, Payload) -> bool, baselines: seq<Payload>)
    requires Equivalence(eq)
    ensures var selected := SelectLocalTrustedBaseline(eq, baselines);
      && (selected.Some? <==> baselines != [] && forall x, y :: x in baselines && y in baselines ==> eq(x, y))
      && (selected.Some? ==> selected.value in baselines)
  {
    if baselines != [] && forall i :: 0 <= i < |baselines| ==> eq(baselines[0], baselines[i]) {
      forall x, y | x in baselines && y in baselines
        ensures eq(x, y)
      {
        assert eq(baselines[0], x) && eq(baselines[0], y);
      }
    } else if baselines != [] {
      var i :| 0 <= i < |baselines| && !eq(baselines[0], baselines[i]);
      assert baselines[0] in baselines && baselines[i] in baselines;
    }
  }

  lemma SelectsReadIff(lib: Library, fetches: Fetches, s: Shared)
    requires Equivalence(lib.eq)
    requires ProgressInv(fetches, s) && TrustedInv(fetches, s) && forall p :: p in fetches ==> s.progress[p].Answered?
    ensures var selected := SelectLocalTrustedBaseline(lib.eq, Present(s.trusted));
      && (selected.Some? <==> BaselinesAgree(lib, fetches))
      && (selected.Some? ==> exists p :: ReadBaseline(fetches, p, selected.value))
  {
    var present := Present(s.trusted);
    SelectsIff(lib.eq, present);
    forall x
      ensures x in present <==> exists p :: ReadBaseline(fetches, p, x)
    {
      PresentIffRead(fetches, s, x);
    }
    if present != [] {
      assert present[0] in present;
    }
  }

  /**
   Over every completion order, there is a common trusted baseline if and only
   if some provider's baseline read gave a payload and all payloads so read are
   the same. It is then one of them, and the planner is asked about it and the
   inputs.
   */
  lemma TrustedBaselineIff(lib: Library, fetches: Fetches, providers: seq<Provider>, ss: seq<Shared>, order: seq<Provider>)
    requires Equivalence(lib.eq) && Completes(fetches, providers, ss, order)
    ensures var done := Finish(lib, ss[|order|], providers);
      && (done.trusted.Some? <==> BaselinesAgree(lib, fetches))
      && (done.trusted.Some? ==> exists p :: ReadBaseline(fetches, p, done.trusted.value))
      && done.plan == lib.plan(done.trusted, done.inputs)
  {
    RunKeepsInv(fetches, ss, order, |order|);
    SelectsReadIff(lib, fetches, ss[|order|]);
  }

  /** What one provider's own awaits amount to: the first error, an empty remote, or the remote with the baseline read for it. */
  predicate Reports(fetch: Fetch, p: Provider, input: Input) {
    && input.provider == p
    && (fetch.baseline.Throws? ==> input == Unavailable(p, fetch.baseline.message))
    && (fetch.baseline.Ok? && fetch.download.Throws? ==> input == Unavailable(p, fetch.download.message))
    && (fetch.baseline.Ok? && fetch.download == Ok(None) ==> input == Empty(p))
    && (fetch.baseline.Ok? && fetch.download.Ok? && fetch.download.value.Some? ==>
          var remote := fetch.download.value.value;
          input == Ready(p, remote.meta, remote.payload, fetch.baseline.value))
  }

  lemma InputReports(fetches: Fetches, p: Provider)
    requires p in fetches
    ensures Reports(fetches[p], p, InputOf(fetches, p))
  {
  }

  /** Over every completion order, the planner is told of each provider, in the order of the connections, what its own awaits gave. */
  lemma InputsReportFetches(lib: Library, fetches: Fetches, providers: seq<Provider>, ss: seq<Shared>, order: seq<Provider>, i: nat)
    requires Completes(fetches, providers, ss, order) && i < |providers|
    ensures var done := Finish(lib, ss[|order|], providers);
      |done.inputs| == |providers| && providers[i] in fetches && Reports(fetches[providers[i]], providers[i], done.inputs[i])
  {
    RunKeepsInv(fetches, ss, order, |order|);
    InputsAreKnown(fetches, ss[|order|], providers);
    assert providers[i] in providers;
    InputReports(fetches, providers[i]);
  }

  /** The remote provider `p` downloaded after its baseline read went through. */
  predicate Downloaded(fetches: Fetches, p: Provider, remote: Remote) {
    p in fetches && fetches[p].baseline.Ok? && fetches[p].download == Ok(Some(remote))
  }

  /**
   Over every completion order, the baselines to store are those of the
   downloaded remotes: with its own state where the remote has one, with the
   plan's where it has none, and the latter only if the plan has a state.
   */
  lemma RecordsReportDownloads(lib: Library, fetches: Fetches, providers: seq<Provider>, ss: seq<Shared>, order: seq<Provider>, b: Baseline)
    requires StrictTotal(lib.before) && Completes(fetches, providers, ss, order)
    ensures var done := Finish(lib, ss[|order|], providers);
      b in done.baselines
      <==> exists remote :: Downloaded(fetches, b.provider, remote) && b.meta == remote.meta && b.payload == remote.payload
             && (match remote.own
                 case Some(own) => b.state == Own(own)
                 case None => b.state == FromPlan && done.plan.state.Some?)
  {
    var s := ss[|order|];
    RunKeepsInv(fetches, ss, order, |order|);
    var done := Finish(lib, s, providers);
    var records := s.convergent + if done.plan.state.Some? then s.seeds else [];
    DistinctPrefix(s.convergent, s.seeds);
    SortSorts(lib.before, records);
    RecordsListed(fetches, s, b);
    assert b in done.baselines <==> b in records;
  }

  lemma RecordsListed(fetches: Fetches, s: Shared, b: Baseline)
    requires ProgressInv(fetches, s) && RecordsInv(fetches, s) && forall p :: p in fetches ==> s.progress[p].Answered?
    ensures b in s.convergent
        <==> exists remote :: Downloaded(fetches, b.provider, remote) && remote.own.Some? && b == Baseline(b.provider, remote.meta, remote.payload, Own(remote.own.value))
    ensures b in s.seeds
        <==> exists remote :: Downloaded(fetches, b.provider, remote) && remote.own.None? && b == Baseline(b.provider, remote.meta, remote.payload, FromPlan)
  {
    var all := s.convergent + s.seeds;
    assert b in all <==> b in s.convergent || b in s.seeds;
    if b in all {
      assert Downloaded(fetches, b.provider, RemoteOf(fetches, b.provider));
    }
    if remote :| Downloaded(fetches, b.provider, remote) {
      assert Contributed(fetches, s, b.provider) && RecordOf(b.provider, remote) in all;
    }
  }

  class Preparation {
    const fetches: Fetches
    var progress: map<Provider, Progress>
    var trusted: seq<(Provider, Option<Payload>)>
    var convergent: seq<Baseline>
    var seeds: seq<Baseline>

    ghost function View(): Shared
      reads this
    {
      Shared(progress, trusted, convergent, seeds)
    }

    constructor (fetches: Fetches)
      ensures this.fetches == fetches && View() == Begin(fetches)
    {
      this.fetches := fetches;
      progress, trusted, convergent, seeds := map p | p in fetches :: Waiting, [], [], [];
    }

    /** The stretch of a callback that follows the baseline reads. */
    method BaselineArrives(p: Provider)
      requires Enabled(fetches, View(), p) && progress[p].Waiting?
      modifies this
      ensures View() == Step(fetches, old(View()), p)
    {
      var answer := fetches[p].baseline;
      if answer.Throws? {
        progress := progress[p := Answered(Unavailable(p, answer.message))];
        return;
      }
      trusted := trusted + [(p, answer.value)];
      progress := progress[p := Based(answer.value)];
    }

    /** The stretch of a callback that follows the download. */
    method DownloadArrives(p: Provider)
      requires Enabled(fetches, View(), p) && progress[p].Based?
      modifies this
      ensures View() == Step(fetches, old(View()), p)
    {
      var answer, baseline := fetches[p].download, progress[p].baseline;
      if answer.Throws? {
        progress := progress[p := Answered(Unavailable(p, answer.message))];
        return;
      }
      if answer.value.None? {
        progress := progress[p := Answered(Empty(p))];
        return;
      }
      var remote := answer.value.value;
      if remote.own.Some? {
        convergent := convergent + [Baseline(p, remote.meta, remote.payload, Own(remote.own.value))];
      } else {
        seeds := seeds + [Baseline(p, remote.meta, remote.payload, FromPlan)];
      }
      progress := progress[p := Answered(Ready(p, remote.meta, remote.payload, baseline))];
    }

    /** The code after all fetches: legacy seeds join the baselines once the plan has a state. */
    method Conclude(lib: Library, providers: seq<Provider>) returns (prepared: Prepared)
      requires forall p :: p in providers ==> p in progress && progress[p].Answered?
      modifies this`convergent
      ensures prepared == Finish(lib, old(View()), providers)
    {
      var inputs := Inputs(progress, providers);
      var local := SelectLocalTrustedBaseline(lib.eq, Present(trusted));
      var plan := lib.plan(local, inputs);
      if plan.state.Some? {
        var i := 0;
        while i < |seeds|
          invariant 0 <= i <= |seeds|
          invariant convergent == old(convergent) + seeds[..i]
        {
          convergent := convergent + [seeds[i]];
          i := i + 1;
        }
        assert seeds[..i] == seeds;
      } else {
        assert old(convergent) + [] == convergent;
      }
      prepared := Prepared(inputs, local, plan, SortByProvider(lib.before, convergent));
    }
  }

  /** Two results of preparing: the same but for payloads and plans that are only equal, not identical. */
  ghost predicate SamePreparation(lib: Library, a: Prepared, b: Prepared) {
    && a.inputs == b.inputs && a.baselines == b.baselines
    && SameBaseline(lib.eq, a.trusted, b.trusted) && lib.samePlan(a.plan, b.plan)
  }

  /**
   Runs the callbacks' stretches on an object in the given completion order and
   concludes; None when the order runs a callback that cannot run then, or
   leaves one unfinished. Whatever the order, the result is the same.
   */
  method PrepareConvergentSyncMigration(lib: Library, fetches: Fetches, providers: seq<Provider>, order: seq<Provider>)
    returns (prepared: Option<Prepared>, ghost ss: seq<Shared>)
    requires forall p :: p in providers <==> p in fetches
    ensures prepared.Some? ==>
      CompleteRun(fetches, ss, order) && prepared.value == Finish(lib, ss[|order|], providers)
    ensures prepared.None? ==> forall other :: !CompleteRun(fetches, other, order)
    ensures prepared.Some? && Lawful(lib) ==> forall other, otherOrder :: Completes(fetches, providers, other, otherOrder) ==>
      SamePreparation(lib, prepared.value, Finish(lib, other[|otherOrder|], providers))
    ensures prepared.Some? && Equivalence(lib.eq) ==>
      && (prepared.value.trusted.Some? <==> BaselinesAgree(lib, fetches))
      && (prepared.value.trusted.Some? ==> exists p :: ReadBaseline(fetches, p, prepared.value.trusted.value))
      && prepared.value.plan == lib.plan(prepared.value.trusted, prepared.value.inputs)
  {
    var preparation := new Preparation(fetches);
    ss := [preparation.View()];
    var i := 0;
    while i < |order|
      invariant 0 <= i <= |order| && fresh(preparation) && preparation.fetches == fetches
      invariant Performed(fetches, ss, order, i) && ss[i] == preparation.View()
    {
      var p := order[i];
      if p !in fetches || p !in preparation.progress || preparation.progress[p].Answered? {
        NoOtherRun(fetches, ss, order, i);
        return None, ss;
      }
      if preparation.progress[p].Waiting? {
        preparation.BaselineArrives(p);
      } else {
        preparation.DownloadArrives(p);
      }
      ss := ss + [preparation.View()];
      i := i + 1;
    }
    if exists p | p in providers :: p !in preparation.progress || !preparation.progress[p].Answered? {
      NoOtherRun(fetches, ss, order, i);
      return None, ss;
    }
    var concluded := preparation.Conclude(lib, providers);
    prepared := Some(concluded);
    if Equivalence(lib.eq) {
      TrustedBaselineIff(lib, fetches, providers, ss, order);
    }
    if Lawful(lib) {
      forall other, otherOrder | Completes(fetches, providers, other, otherOrder)
        ensures SamePreparation(lib, concluded, Finish(lib, other[|otherOrder|], providers))
      {
        PreparationIsConfluent(lib, fetches, providers, ss, order, other, otherOrder);
      }
    }
  }

  /** The first `i` stretches of an order have been run. */
  ghost predicate Performed(fetches: Fetches, ss: seq<Shared>, order: seq<Provider>, i: nat) {
    && i <= |order| && |ss| == i + 1 && ss[0] == Begin(fetches)
    && forall k :: 0 <= k < i ==> Enabled(fetches, ss[k], order[k]) && ss[k + 1] == Step(fetches, ss[k], order[k])
  }

  lemma {:induction false} RunIsDetermined(fetches: Fetches, ss: seq<Shared>, other: seq<Shared>, order: seq<Provider>, i: nat, k: nat)
    requires Performed(fetches, ss, order, i) && CompleteRun(fetches, other, order) && k <= i
    ensures other[k] == ss[k]
  {
    if k > 0 {
      RunIsDetermined(fetches, ss, other, order, i, k - 1);
    }
  }

  /** An order that gets stuck, or ends with a callback unfinished, completes in no run. */
  lemma NoOtherRun(fetches: Fetches, ss: seq<Shared>, order: seq<Provider>, i: nat)
    requires Performed(fetches, ss, order, i)
    requires if i < |order| then !Enabled(fetches, ss[i], order[i])
             else exists p :: p in fetches && (p !in ss[i].progress || !ss[i].progress[p].Answered?)
    ensures forall other :: !CompleteRun(fetches, other, order)
  {
    forall other
      ensures !CompleteRun(fetches, other, order)
    {
      if CompleteRun(fetches, other, order) {
        RunIsDetermined(fetches, ss, other, order, i, i);
      }
    }
  }
}
