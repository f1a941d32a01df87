/**
 The broker topology generator: which queue each published message reaches, and where each queue
 sends what expires in it.
 */
module Topology {
  import opened Text
  import opened Options
  import opened Retry
  import D = Delivery

  datatype Pipeline = Pipeline(rk: string, ex: string, q: string, dlqTtl: nat)

  const PIPELINES: seq<Pipeline> := [
    Pipeline("profile.task", "profile-tasks", "profile-processing", 86_400_000),
    Pipeline("email.send", "email-tasks", "email-processing", 86_400_000),
    Pipeline("image.process", "image-tasks", "image-processing", 259_200_000),
    Pipeline("document.process", "document-tasks", "document-processing", 604_800_000)
  ]
  const TIER_TTLS: seq<nat> := [5_000, 30_000, 120_000]
  const EMAIL_STALENESS_TTL_MS: nat := 3_600_000
  const EMAIL_EXPIRED_RETENTION_MS: nat := 86_400_000

  const MYCELIUM_VHOST := "mycelium"
  const MEX := "mycelium-stages"
  const MYCELIUM_STAGES: seq<string> := [
    "clean", "chunk", "enrich", "ingest", "ingest_documents", "chunk_documents", "embed", "redundancy", "trust",
    "compress", "backfill_transcript", "graph_extraction", "entity_resolution", "graph_construction",
    "community_detection", "insights_generation"
  ]
  const MYCELIUM_DLQ_TTL_MS: nat := 604_800_000

  /** A queue's arguments: its TTL and where it dead-letters to. */
  datatype Queue = Queue(name: string, vhost: string, ttl: Option<nat>, deadLetter: Option<(string, string)>)

  datatype Binding = Binding(source: string, vhost: string, destination: string, rk: string)

  /** What a queue and the binding to it are for; pipelines and stages by index, tiers by number. */
  datatype Role =
    | Work(i: nat) | RetryWait(i: nat, tier: nat) | Poison(i: nat)
    | Expired | Results
    | StageWork(i: nat) | StageWait(i: nat, tier: nat) | StagePoison(i: nat)
    | StageResults

  datatype Config = Config(pipelines: seq<Pipeline>, stages: seq<string>)

  function StageKey(stage: string): string {
    "km.stage." + stage
  }

  /** `<name>.retry.<tier>`, for wait queues and for retry keys. */
  function Tiered(name: string, tier: nat): string
    requires tier < MAX_RETRIES
  {
    WaitQueue(name + ".retry.", tier)
  }

  predicate Exists(c: Config, r: Role) {
    match r
    case Work(i) => i < |c.pipelines|
    case RetryWait(i, t) => i < |c.pipelines| && t < MAX_RETRIES
    case Poison(i) => i < |c.pipelines|
    case StageWork(i) => i < |c.stages|
    case StageWait(i, t) => i < |c.stages| && t < MAX_RETRIES
    case StagePoison(i) => i < |c.stages|
    case _ => true
  }

  function QueueOf(c: Config, r: Role): Queue
    requires Exists(c, r)
  {
    match r
    case Work(i) =>
      var p := c.pipelines[i];
      var email := p.rk == "email.send";
      Queue(p.q, "/", if email then Some(EMAIL_STALENESS_TTL_MS) else None,
            Some((p.ex + ".dlx", if email then "email.expired" else p.rk)))
    case RetryWait(i, t) =>
      var p := c.pipelines[i];
      Queue(Tiered(p.q, t), "/", Some(TIER_TTLS[t]), Some((p.ex, p.rk)))
    case Poison(i) => Queue(c.pipelines[i].q + ".dlq", "/", Some(c.pipelines[i].dlqTtl), None)
    case Expired => Queue("email-expired", "/", Some(EMAIL_EXPIRED_RETENTION_MS), None)
    case Results => Queue("task-results", "/", None, None)
    case StageWork(i) => Queue(StageKey(c.stages[i]), MYCELIUM_VHOST, None, Some((MEX + ".dlx", StageKey(c.stages[i]))))
    case StageWait(i, t) =>
      Queue(Tiered(StageKey(c.stages[i]), t), MYCELIUM_VHOST, Some(TIER_TTLS[t]), Some((MEX, StageKey(c.stages[i]))))
    case StagePoison(i) => Queue(StageKey(c.stages[i]) + ".dlq", MYCELIUM_VHOST, Some(MYCELIUM_DLQ_TTL_MS), None)
    case StageResults => Queue("mycelium-task-results", MYCELIUM_VHOST, None, None)
  }

  function BindingOf(c: Config, r: Role): Binding
    requires Exists(c, r)
  {
    var q := QueueOf(c, r);
    match r
    case Work(i) => Binding(c.pipelines[i].ex, q.vhost, q.name, c.pipelines[i].rk)
    case RetryWait(i, t) => Binding(c.pipelines[i].ex + ".retry", q.vhost, q.name, Tiered(c.pipelines[i].rk, t))
    case Poison(i) => Binding(c.pipelines[i].ex + ".dlx", q.vhost, q.name, c.pipelines[i].rk)
    case Expired => Binding("email-tasks.dlx", q.vhost, q.name, "email.expired")
    case Results => Binding("task-results", q.vhost, q.name, "task.result")
    case StageWork(i) => Binding(MEX, q.vhost, q.name, StageKey(c.stages[i]))
    case StageWait(i, t) => Binding(MEX + ".retry", q.vhost, q.name, Tiered(StageKey(c.stages[i]), t))
    case StagePoison(i) => Binding(MEX + ".dlx", q.vhost, q.name, StageKey(c.stages[i]))
    case StageResults => Binding("mycelium-results", q.vhost, q.name, "km.stage.result")
  }

  /** The five queues of a pipeline or stage, in the order the generator emits them. */
  function RolesOf(i: nat): seq<Role> {
    [Work(i), RetryWait(i, 0), RetryWait(i, 1), RetryWait(i, 2), Poison(i)]
  }

  function StageRolesOf(i: nat): seq<Role> {
    [StageWork(i), StageWait(i, 0), StageWait(i, 1), StageWait(i, 2), StagePoison(i)]
  }

  function Total(c: Config): nat {
    5 * |c.pipelines| + 2 + 5 * |c.stages| + 1
  }

  function RoleAt(c: Config, k: nat): Role
    requires k < Total(c)
  {
    var n, m := 5 * |c.pipelines|, 5 * |c.stages|;
    if k < n then RolesOf(k / 5)[k % 5]
    else if k == n then Expired
    else if k == n + 1 then Results
    else if k < n + 2 + m then StageRolesOf((k - n - 2) / 5)[(k - n - 2) % 5]
    else StageResults
  }

  /** Everything the generator emits, in order. */
  function Roles(c: Config): (rs: seq<Role>)
    ensures |rs| == Total(c)
  {
    seq(Total(c), k requires 0 <= k < Total(c) => RoleAt(c, k))
  }

  // ---- each role once ---------------------------------------------------------------------

  function Place(c: Config, r: Role): nat
    requires Exists(c, r)
  {
    var n := 5 * |c.pipelines|;
    match r
    case Work(i) => 5 * i
    case RetryWait(i, t) => 5 * i + 1 + t
    case Poison(i) => 5 * i + 4
    case Expired => n
    case Results => n + 1
    case StageWork(i) => n + 2 + 5 * i
    case StageWait(i, t) => n + 2 + 5 * i + 1 + t
    case StagePoison(i) => n + 2 + 5 * i + 4
    case StageResults => n + 2 + 5 * |c.stages|
  }

  lemma RoleAtPlace(c: Config, r: Role)
    requires Exists(c, r)
    ensures Place(c, r) < Total(c) && RoleAt(c, Place(c, r)) == r
  {
  }

  lemma PlaceOfRoleAt(c: Config, k: nat)
    requires k < Total(c)
    ensures Exists(c, RoleAt(c, k)) && Place(c, RoleAt(c, k)) == k
  {
    var n, m := 5 * |c.pipelines|, 5 * |c.stages|;
    var j := if k < n then k % 5 else if n + 2 <= k < n + 2 + m then (k - n - 2) % 5 else 0;
    assert j == 0 || j == 1 || j == 2 || j == 3 || j == 4;
  }

  /** The generator emits every queue and binding there is a role for, and each one once. */
  lemma RolesAre(c: Config)
    ensures forall r :: r in Roles(c) <==> Exists(c, r)
    ensures forall i, j :: 0 <= i < j < |Roles(c)| ==> Roles(c)[i] != Roles(c)[j]
  {
    forall k | 0 <= k < Total(c) ensures Exists(c, Roles(c)[k]) && Place(c, Roles(c)[k]) == k {
      PlaceOfRoleAt(c, k);
    }
    forall r | Exists(c, r) ensures r in Roles(c) {
      RoleAtPlace(c, r);
      assert Roles(c)[Place(c, r)] == r;
    }
    hide Place, RoleAt, Exists;
  }

  lemma NextBlock(c: Config, i: nat)
    requires i < |c.pipelines|
    ensures Roles(c)[..5 * (i + 1)] == Roles(c)[..5 * i] + RolesOf(i)
  {
    forall k | 0 <= k < 5 ensures Roles(c)[5 * i + k] == RolesOf(i)[k] {
      assert (5 * i + k) / 5 == i && (5 * i + k) % 5 == k;
    }
    hide RoleAt, RolesOf, Roles;
  }

  lemma NextStageBlock(c: Config, i: nat)
    requires i < |c.stages|
    ensures var n := 5 * |c.pipelines| + 2;
      Roles(c)[..n + 5 * (i + 1)] == Roles(c)[..n + 5 * i] + StageRolesOf(i)
  {
    var n := 5 * |c.pipelines| + 2;
    forall k | 0 <= k < 5 ensures Roles(c)[n + 5 * i + k] == StageRolesOf(i)[k] {
      assert (5 * i + k) / 5 == i && (5 * i + k) % 5 == k;
    }
    hide RoleAt, StageRolesOf, Roles;
  }

  // ---- names that do not collide ----------------------------------------------------------------

  predicate OnPipelines(c: Config, i: int, j: int) {
    0 <= i < |c.pipelines| && 0 <= j < |c.pipelines|
  }

  /** Pipeline `i`'s work address is pipeline `j`'s work, poison or retry address, or a fixed one. */
  predicate IsWorkOf(c: Config, i: int, j: int)
    requires OnPipelines(c, i, j)
  {
    c.pipelines[i].ex == c.pipelines[j].ex && c.pipelines[i].rk == c.pipelines[j].rk
  }

  predicate IsPoisonOf(c: Config, i: int, j: int)
    requires OnPipelines(c, i, j)
  {
    c.pipelines[i].ex == c.pipelines[j].ex + ".dlx" && c.pipelines[i].rk == c.pipelines[j].rk
  }

  predicate IsRetryOf(c: Config, i: int, j: int, t: nat)
    requires OnPipelines(c, i, j) && t < MAX_RETRIES
  {
    c.pipelines[i].ex == c.pipelines[j].ex + ".retry" && c.pipelines[i].rk == Tiered(c.pipelines[j].rk, t)
  }

  predicate IsFixed(c: Config, i: int)
    requires 0 <= i < |c.pipelines|
  {
    var p := c.pipelines[i];
    || (p.rk == "email.expired" && (p.ex == "email-tasks" || p.ex == "email-tasks.dlx"))
    || (p.rk == "task.result" && p.ex == "task-results")
  }

  /** No work address is a derived or fixed one, and no two pipelines share theirs. */
  ghost predicate ExchangesApart(c: Config) {
    && (forall i, j :: OnPipelines(c, i, j) && i < j ==> !IsWorkOf(c, i, j))
    && (forall i, j :: OnPipelines(c, i, j) ==> !IsPoisonOf(c, i, j))
    && (forall i, j, t: nat :: OnPipelines(c, i, j) && t < MAX_RETRIES ==> !IsRetryOf(c, i, j, t))
    && (forall i :: 0 <= i < |c.pipelines| ==> !IsFixed(c, i))
  }

  ghost predicate QueuesApart(c: Config) {
    && (forall i, j :: 0 <= i < j < |c.pipelines| ==> c.pipelines[i].q != c.pipelines[j].q)
    && (forall i, j :: 0 <= i < |c.pipelines| && 0 <= j < |c.pipelines| ==>
          && c.pipelines[i].q != c.pipelines[j].q + ".dlq"
          && forall t :: 0 <= t < MAX_RETRIES ==> c.pipelines[i].q != Tiered(c.pipelines[j].q, t))
    && (forall i :: 0 <= i < |c.pipelines| ==> c.pipelines[i].q != "email-expired" && c.pipelines[i].q != "task-results")
  }

  ghost predicate StagesApart(c: Config) {
    && (forall i, j :: 0 <= i < j < |c.stages| ==> c.stages[i] != c.stages[j])
    && (forall i, j :: 0 <= i < |c.stages| && 0 <= j < |c.stages| ==>
          && c.stages[i] != c.stages[j] + ".dlq"
          && forall t :: 0 <= t < MAX_RETRIES ==> StageKey(c.stages[i]) != Tiered(StageKey(c.stages[j]), t))
  }

  ghost predicate NonColliding(c: Config) {
    ExchangesApart(c) && QueuesApart(c) && StagesApart(c)
  }

  lemma SuffixCancels(a: string, b: string, s: string)
    requires a + s == b + s
    ensures a == b
  {
    assert a == (a + s)[..|a|] && b == (b + s)[..|b|];
  }

  lemma LastChar(a: string, s: string)
    requires s != ""
    ensures |a + s| > 0 && (a + s)[|a + s| - 1] == s[|s| - 1]
  {
  }

  lemma TieredInjective(a: string, t: nat, b: string, u: nat)
    requires t < MAX_RETRIES && u < MAX_RETRIES && Tiered(a, t) == Tiered(b, u)
    ensures a == b && t == u
  {
    assert Tiered(a, t) == (a + ".retry") + ['.'] + RETRY_TIERS[t];
    assert Tiered(b, u) == (b + ".retry") + ['.'] + RETRY_TIERS[u];
    LastSeparatorUnique(a + ".retry", b + ".retry", '.', RETRY_TIERS[t], RETRY_TIERS[u]);
    SuffixCancels(a, b, ".retry");
  }

  /** Wait queues end in "s" or "m" and hold a dot. */
  lemma TieredShape(a: string, t: nat)
    requires t < MAX_RETRIES
    ensures var s := Tiered(a, t); |s| > 0 && s[|s| - 1] in "sm" && '.' in s
  {
    LastChar(a + ".retry.", RETRY_TIERS[t]);
    assert Tiered(a, t)[|a|] == '.';
  }

  predicate SameAddress(a: Binding, b: Binding) {
    a.vhost == b.vhost && a.source == b.source && a.rk == b.rk
  }

  /** No two bindings match the same message. */
  lemma AddressesApart(c: Config, a: Role, b: Role)
    requires NonColliding(c) && Exists(c, a) && Exists(c, b) && SameAddress(BindingOf(c, a), BindingOf(c, b))
    ensures a == b
  {
    var x, y := BindingOf(c, a), BindingOf(c, b);
    if x.vhost == "/" {
      MainAddressesApart(c, a, b);
    } else {
      StageAddressesApart(c, a, b);
    }
  }

  /** The kind of exchange a lab-core binding starts from, and the plain exchange behind it. */
  function Suffix(r: Role): string {
    match r
    case RetryWait(_, _) => ".retry"
    case Poison(_) => ".dlx"
    case Expired => ".dlx"
    case _ => ""
  }

  function BaseExchange(c: Config, r: Role): string
    requires Exists(c, r) && (r.Work? || r.RetryWait? || r.Poison? || r.Expired? || r.Results?)
  {
    match r
    case Work(i) => c.pipelines[i].ex
    case RetryWait(i, _) => c.pipelines[i].ex
    case Poison(i) => c.pipelines[i].ex
    case Expired => "email-tasks"
    case _ => "task-results"
  }

  /** A binding of the main vhost starts from a plain exchange and the suffix of its kind. */
  lemma SourceIs(c: Config, r: Role)
    requires Exists(c, r) && BindingOf(c, r).vhost == "/"
    ensures r.Work? || r.RetryWait? || r.Poison? || r.Expired? || r.Results?
    ensures BindingOf(c, r).source == BaseExchange(c, r) + Suffix(r)
  {
    hide Tiered;
    assert "email-tasks" + ".dlx" == "email-tasks.dlx";
    assert BaseExchange(c, r) + "" == BaseExchange(c, r);
  }

  lemma SourceEnds(c: Config, r: Role)
    requires Exists(c, r) && BindingOf(c, r).vhost == "/" && !r.Work?
    ensures var s := BindingOf(c, r).source;
      s != "" && s[|s| - 1] == if r.RetryWait? then 'y' else if r.Results? then 's' else 'x'
  {
    SourceIs(c, r);
    hide BindingOf;
    if !r.Results? {
      LastChar(BaseExchange(c, r), Suffix(r));
    }
  }

  lemma MainAddressesApart(c: Config, a: Role, b: Role)
    requires ExchangesApart(c) && Exists(c, a) && Exists(c, b) && SameAddress(BindingOf(c, a), BindingOf(c, b))
    requires BindingOf(c, a).vhost == "/"
    ensures a == b
  {
    hide Tiered;
    SourceIs(c, a);
    SourceIs(c, b);
    if a.Work? {
      WorkAddressApart(c, a.i, b);
    } else if b.Work? {
      WorkAddressApart(c, b.i, a);
    } else {
      NoneIsFixed(c);
      assert (a.Poison? ==> !IsFixed(c, a.i)) && (b.Poison? ==> !IsFixed(c, b.i));
      SourceEnds(c, a);
      SourceEnds(c, b);
      SuffixCancels(BaseExchange(c, a), BaseExchange(c, b), Suffix(a));
      if a.RetryWait? {
        TieredInjective(c.pipelines[a.i].rk, a.tier, c.pipelines[b.i].rk, b.tier);
      }
      if (a.RetryWait? || a.Poison?) && (b.RetryWait? || b.Poison?) {
        WorkAddressApart(c, a.i, Work(b.i));
      }
    }
  }

  lemma WorkAddressApart(c: Config, i: nat, b: Role)
    requires ExchangesApart(c) && i < |c.pipelines| && Exists(c, b)
    requires SameAddress(BindingOf(c, Work(i)), BindingOf(c, b))
    ensures b == Work(i)
  {
    hide Tiered;
    assert "email-tasks.dlx" == "email-tasks" + ".dlx";
    NoneIsFixed(c);
    var j := if b.Work? || b.Poison? || b.RetryWait? then b.i else i;
    var t := if b.RetryWait? then b.tier else 0;
    assert OnPipelines(c, i, j) && OnPipelines(c, j, i);
    assert !IsFixed(c, i) && !IsPoisonOf(c, i, j) && !IsRetryOf(c, i, j, t);
    if IsWorkOf(c, i, j) {
      OnlyOwnWork(c, i, j);
    }
    hide ExchangesApart;
  }

  lemma OnlyOwnWork(c: Config, i: nat, j: nat)
    requires ExchangesApart(c) && OnPipelines(c, i, j) && IsWorkOf(c, i, j)
    ensures i == j
  {
    assert IsWorkOf(c, j, i);
    assert OnPipelines(c, j, i);
  }

  lemma NoneIsFixed(c: Config)
    requires ExchangesApart(c)
    ensures forall i :: 0 <= i < |c.pipelines| ==> !IsFixed(c, i)
  {
  }

  lemma Clash(c: Config) returns (a: Role, b: Role)
    requires !ExchangesApart(c)
    ensures a != b && Exists(c, a) && Exists(c, b)
    ensures BindingOf(c, a).vhost == "/" && SameAddress(BindingOf(c, a), BindingOf(c, b))
  {
    hide Tiered;
    if i, j :| OnPipelines(c, i, j) && i < j && IsWorkOf(c, i, j) {
      a, b := Work(i), Work(j);
    } else if i, j :| OnPipelines(c, i, j) && IsPoisonOf(c, i, j) {
      a, b := Work(i), Poison(j);
    } else if i, j, t: nat :| OnPipelines(c, i, j) && t < MAX_RETRIES && IsRetryOf(c, i, j, t) {
      a, b := Work(i), RetryWait(j, t);
    } else {
      var i :| 0 <= i < |c.pipelines| && IsFixed(c, i);
      a, b := ClashWithFixed(c, i);
    }
  }

  lemma ClashWithFixed(c: Config, i: nat) returns (a: Role, b: Role)
    requires i < |c.pipelines| && IsFixed(c, i)
    ensures a != b && Exists(c, a) && Exists(c, b)
    ensures BindingOf(c, a).vhost == "/" && SameAddress(BindingOf(c, a), BindingOf(c, b))
  {
    assert "email-tasks" + ".dlx" == "email-tasks.dlx";
    a := if c.pipelines[i].ex == "email-tasks" then Poison(i) else Work(i);
    b := if c.pipelines[i].rk == "email.expired" then Expired else Results;
  }

  /** The condition on exchanges and keys is exactly what unambiguous routing on the main vhost needs. */
  lemma MainRoutingUnambiguousIff(c: Config)
    ensures ExchangesApart(c) <==>
      forall a, b :: Exists(c, a) && Exists(c, b) && BindingOf(c, a).vhost == "/" && SameAddress(BindingOf(c, a), BindingOf(c, b))
        ==> a == b
  {
    hide Tiered;
    if ExchangesApart(c) {
      forall a, b | Exists(c, a) && Exists(c, b) && BindingOf(c, a).vhost == "/" && SameAddress(BindingOf(c, a), BindingOf(c, b))
        ensures a == b
      {
        MainAddressesApart(c, a, b);
      }
    } else {
      var a, b := Clash(c);
      assert SameAddress(BindingOf(c, a), BindingOf(c, b));
    }
  }

  lemma StageAddressesApart(c: Config, a: Role, b: Role)
    requires StagesApart(c) && Exists(c, a) && Exists(c, b) && SameAddress(BindingOf(c, a), BindingOf(c, b))
    requires BindingOf(c, a).vhost != "/"
    ensures a == b
  {
    hide Tiered;
    var x, y := BindingOf(c, a), BindingOf(c, b);
    assert |MEX| == 15 && |x.source| == |y.source|;
    assert a.StageWork? ==> |x.source| == 15;
    assert a.StageWait? ==> |x.source| == 21;
    assert a.StagePoison? ==> |x.source| == 19;
    assert a.StageResults? ==> |x.source| == 16;
    if a.StageWait? {
      TieredInjective(StageKey(c.stages[a.i]), a.tier, StageKey(c.stages[b.i]), b.tier);
      StageKeysApart(c.stages[a.i], c.stages[b.i]);
    } else if !a.StageResults? {
      StageKeysApart(c.stages[a.i], c.stages[b.i]);
    }
  }

  lemma StageKeysApart(s: string, t: string)
    requires StageKey(s) == StageKey(t)
    ensures s == t
  {
    assert s == StageKey(s)[|"km.stage."|..] && t == StageKey(t)[|"km.stage."|..];
  }

  /** No queue is declared twice: wait queues and dead-letter queues are nobody else's. */
  lemma QueuesNamedApart(c: Config, a: Role, b: Role)
    requires NonColliding(c) && Exists(c, a) && Exists(c, b)
    requires QueueOf(c, a).name == QueueOf(c, b).name && QueueOf(c, a).vhost == QueueOf(c, b).vhost
    ensures a == b
  {
    hide Tiered, ExchangesApart;
    if QueueOf(c, a).vhost == "/" {
      MainQueuesApart(c, a, b);
    } else {
      StageQueuesApart(c, a, b);
    }
  }

  lemma MainQueuesApart(c: Config, a: Role, b: Role)
    requires QueuesApart(c) && Exists(c, a) && Exists(c, b)
    requires QueueOf(c, a).name == QueueOf(c, b).name && QueueOf(c, a).vhost == QueueOf(c, b).vhost == "/"
    ensures a == b
  {
    hide Tiered;
    QueueShape(c, a);
    QueueShape(c, b);
    if a.RetryWait? && b.RetryWait? {
      TieredInjective(c.pipelines[a.i].q, a.tier, c.pipelines[b.i].q, b.tier);
    }
    if a.Poison? && b.Poison? {
      SuffixCancels(c.pipelines[a.i].q, c.pipelines[b.i].q, ".dlq");
    }
  }

  /** How the derived and fixed queue names of the main vhost end, and whether they hold a dot. */
  lemma QueueShape(c: Config, r: Role)
    requires Exists(c, r) && QueueOf(c, r).vhost == "/"
    ensures var s := QueueOf(c, r).name;
      && (r.RetryWait? ==> s != "" && s[|s| - 1] in "sm" && '.' in s)
      && (r.Poison? ==> s != "" && s[|s| - 1] == 'q')
      && (r.Expired? ==> s != "" && s[|s| - 1] == 'd')
      && (r.Results? ==> s != "" && s[|s| - 1] == 's' && '.' !in s)
  {
    hide Tiered;
    if r.RetryWait? {
      TieredShape(c.pipelines[r.i].q, r.tier);
    }
    if r.Poison? {
      LastChar(c.pipelines[r.i].q, ".dlq");
    }
    assert '.' !in "task-results";
  }

  lemma StageQueuesApart(c: Config, a: Role, b: Role)
    requires StagesApart(c) && Exists(c, a) && Exists(c, b)
    requires QueueOf(c, a).name == QueueOf(c, b).name && QueueOf(c, a).vhost == QueueOf(c, b).vhost != "/"
    ensures a == b
  {
    hide Tiered;
    StageQueueStarts(c, a);
    StageQueueStarts(c, b);
    if a.StageWait? {
      TieredShape(StageKey(c.stages[a.i]), a.tier);
    }
    if b.StageWait? {
      TieredShape(StageKey(c.stages[b.i]), b.tier);
    }
    if !a.StageResults? && !b.StageResults? {
      var x, y := StageKey(c.stages[a.i]), StageKey(c.stages[b.i]);
      LastChar(x, ".dlq");
      LastChar(y, ".dlq");
      StageDlqsApart(c, a.i, b.i);
      StageDlqsApart(c, b.i, a.i);
      if a.StageWait? && b.StageWait? {
        TieredInjective(x, a.tier, y, b.tier);
      }
      if a.StagePoison? && b.StagePoison? {
        SuffixCancels(x, y, ".dlq");
      }
      if x == y {
        StageKeysApart(c.stages[a.i], c.stages[b.i]);
      }
      hide StageKey;
    }
  }

  lemma StageQueueStarts(c: Config, r: Role)
    requires Exists(c, r) && QueueOf(c, r).vhost != "/"
    ensures var name := QueueOf(c, r).name; name != "" && name[0] == if r.StageResults? then 'm' else 'k'
  {
  }

  lemma StageDlqsApart(c: Config, i: nat, j: nat)
    requires StagesApart(c) && i < |c.stages| && j < |c.stages|
    ensures StageKey(c.stages[i]) != StageKey(c.stages[j]) + ".dlq"
  {
    if StageKey(c.stages[i]) == StageKey(c.stages[j]) + ".dlq" {
      StageKeysApart(c.stages[i], c.stages[j] + ".dlq");
    }
  }

  // ---- where messages go --------------------------------------------------------------------------

  datatype Topology = Topology(queues: seq<Queue>, bindings: seq<Binding>)

  ghost predicate Matches(b: Binding, vhost: string, ex: string, rk: string) {
    b.vhost == vhost && b.source == ex && b.rk == rk
  }

  /** Exactly one binding matches, and it leads to `dest`. */
  ghost predicate ReachesOnly(bindings: seq<Binding>, vhost: string, ex: string, rk: string, dest: string) {
    exists k :: 0 <= k < |bindings| && Matches(bindings[k], vhost, ex, rk) && bindings[k].destination == dest
      && forall l :: 0 <= l < |bindings| && Matches(bindings[l], vhost, ex, rk) ==> l == k
  }

  ghost predicate ReachesNothing(bindings: seq<Binding>, vhost: string, ex: string, rk: string) {
    forall b <- bindings :: !Matches(b, vhost, ex, rk)
  }

  function Queues(c: Config, roles: seq<Role>): seq<Queue>
    requires forall r <- roles :: Exists(c, r)
  {
    seq(|roles|, i requires 0 <= i < |roles| => QueueOf(c, roles[i]))
  }

  function Bindings(c: Config, roles: seq<Role>): seq<Binding>
    requires forall r <- roles :: Exists(c, r)
  {
    seq(|roles|, i requires 0 <= i < |roles| => BindingOf(c, roles[i]))
  }

  ghost predicate Built(c: Config, t: Topology) {
    RolesAre(c);
    t.queues == Queues(c, Roles(c)) && t.bindings == Bindings(c, Roles(c))
  }

  /** Every message sent to a role's address reaches that role's queue and no other. */
  lemma EachAddressReachesOne(c: Config, t: Topology, r: Role)
    requires NonColliding(c) && Built(c, t) && Exists(c, r)
    ensures var b := BindingOf(c, r); ReachesOnly(t.bindings, b.vhost, b.source, b.rk, QueueOf(c, r).name)
  {
    hide NonColliding;
    RolesAre(c);
    var b := BindingOf(c, r);
    assert b.destination == QueueOf(c, r).name;
    var k :| 0 <= k < |Roles(c)| && Roles(c)[k] == r;
    hide BindingOf, QueueOf, Roles;
    forall l | 0 <= l < |t.bindings| && Matches(t.bindings[l], b.vhost, b.source, b.rk) ensures l == k {
      AddressesApart(c, Roles(c)[l], r);
    }
    assert Matches(t.bindings[k], b.vhost, b.source, b.rk);
  }

  ghost predicate PipelineRouted(c: Config, t: Topology, i: nat)
    requires i < |c.pipelines|
  {
    var p := c.pipelines[i];
    && ReachesOnly(t.bindings, "/", p.ex, p.rk, p.q)
    && ReachesOnly(t.bindings, "/", p.ex + ".dlx", p.rk, p.q + ".dlq")
    && forall tier :: 0 <= tier < MAX_RETRIES ==>
         ReachesOnly(t.bindings, "/", p.ex + ".retry", p.rk + ".retry." + RETRY_TIERS[tier], p.q + ".retry." + RETRY_TIERS[tier])
  }

  ghost predicate StageRouted(c: Config, t: Topology, i: nat)
    requires i < |c.stages|
  {
    var q := "km.stage." + c.stages[i];
    && ReachesOnly(t.bindings, MYCELIUM_VHOST, MEX, q, q)
    && ReachesOnly(t.bindings, MYCELIUM_VHOST, MEX + ".dlx", q, q + ".dlq")
    && forall tier :: 0 <= tier < MAX_RETRIES ==>
         ReachesOnly(t.bindings, MYCELIUM_VHOST, MEX + ".retry", q + ".retry." + RETRY_TIERS[tier], q + ".retry." + RETRY_TIERS[tier])
  }

  /** Work, retry and poison of every pipeline and every stage. */
  lemma RoutingIsExact(c: Config, t: Topology)
    requires NonColliding(c) && Built(c, t)
    ensures forall i :: 0 <= i < |c.pipelines| ==> PipelineRouted(c, t, i)
    ensures forall i :: 0 <= i < |c.stages| ==> StageRouted(c, t, i)
  {
    hide NonColliding, Built, PipelineRouted, StageRouted;
    forall i | 0 <= i < |c.pipelines| ensures PipelineRouted(c, t, i) {
      PipelineIsRouted(c, t, i);
    }
    forall i | 0 <= i < |c.stages| ensures StageRouted(c, t, i) {
      StageIsRouted(c, t, i);
    }
  }

  lemma PipelineIsRouted(c: Config, t: Topology, i: nat)
    requires NonColliding(c) && Built(c, t) && i < |c.pipelines|
    ensures PipelineRouted(c, t, i)
  {
    EachAddressReachesOne(c, t, Work(i));
    EachAddressReachesOne(c, t, Poison(i));
    forall tier: nat | tier < MAX_RETRIES
      ensures ReachesOnly(t.bindings, "/", c.pipelines[i].ex + ".retry", c.pipelines[i].rk + ".retry." + RETRY_TIERS[tier],
                          c.pipelines[i].q + ".retry." + RETRY_TIERS[tier])
    {
      EachAddressReachesOne(c, t, RetryWait(i, tier));
    }
    hide ReachesOnly, NonColliding, Built;
  }

  lemma StageIsRouted(c: Config, t: Topology, i: nat)
    requires NonColliding(c) && Built(c, t) && i < |c.stages|
    ensures StageRouted(c, t, i)
  {
    var q := StageKey(c.stages[i]);
    EachAddressReachesOne(c, t, StageWork(i));
    EachAddressReachesOne(c, t, StagePoison(i));
    forall tier: nat | tier < MAX_RETRIES
      ensures ReachesOnly(t.bindings, MYCELIUM_VHOST, MEX + ".retry", q + ".retry." + RETRY_TIERS[tier],
                          q + ".retry." + RETRY_TIERS[tier])
    {
      EachAddressReachesOne(c, t, StageWait(i, tier));
    }
    hide ReachesOnly, NonColliding, Built;
  }

  /** How long a tier's name says it lasts. */
  function MillisOf(tier: string): int
    requires tier != ""
  {
    var n := DigitsValue(tier[..|tier| - 1]);
    if tier[|tier| - 1] == 'm' then n * 60_000 else n * 1_000
  }

  lemma TiersLastWhatTheySay(t: nat)
    requires t < MAX_RETRIES
    ensures RETRY_TIERS[t] == ["5s", "30s", "2m"][t] && TIER_TTLS[t] == MillisOf(RETRY_TIERS[t])
  {
    var tier := RETRY_TIERS[t];
    assert tier == "5s" || tier == "30s" || tier == "2m";
    assert tier[..|tier| - 1] == "5" || tier[..|tier| - 1] == "30" || tier[..|tier| - 1] == "2";
    assert DigitsValue("5") == 5 && DigitsValue("2") == 2;
    assert "30"[..1] == "3" && DigitsValue("3") == 3;
  }

  /**
   The five queues of a pipeline: stale e-mail leaves its work queue under a key of its own, and
   anything else under the pipeline's key; each wait queue lasts what its tier says and gives its
   messages back to the work exchange; nothing leaves the dead-letter queue.
   */
  lemma PipelineQueuesAre(c: Config, t: Topology, i: nat)
    requires Built(c, t) && i < |c.pipelines|
    ensures var p := c.pipelines[i];
      && (p.rk == "email.send" ==> Queue(p.q, "/", Some(3_600_000), Some((p.ex + ".dlx", "email.expired"))) in t.queues)
      && (p.rk != "email.send" ==> Queue(p.q, "/", None, Some((p.ex + ".dlx", p.rk))) in t.queues)
      && Queue(p.q + ".dlq", "/", Some(p.dlqTtl), None) in t.queues
    ensures forall tier :: 0 <= tier < MAX_RETRIES ==> var p := c.pipelines[i];
      RETRY_TIERS[tier] != "" && MillisOf(RETRY_TIERS[tier]) >= 0 &&
      Queue(p.q + ".retry." + RETRY_TIERS[tier], "/", Some(MillisOf(RETRY_TIERS[tier])), Some((p.ex, p.rk))) in t.queues
  {
    QueueIsBuilt(c, t, Work(i));
    QueueIsBuilt(c, t, Poison(i));
    forall tier: nat | tier < MAX_RETRIES
      ensures RETRY_TIERS[tier] != "" && MillisOf(RETRY_TIERS[tier]) >= 0
      ensures var p := c.pipelines[i];
        Queue(p.q + ".retry." + RETRY_TIERS[tier], "/", Some(MillisOf(RETRY_TIERS[tier])), Some((p.ex, p.rk))) in t.queues
    {
      TiersLastWhatTheySay(tier);
      QueueIsBuilt(c, t, RetryWait(i, tier));
    }
    hide Built, MillisOf;
  }

  /** The five queues of a stage. */
  lemma StageQueuesAre(c: Config, t: Topology, i: nat)
    requires Built(c, t) && i < |c.stages|
    ensures var q := "km.stage." + c.stages[i];
      && Queue(q, "mycelium", None, Some(("mycelium-stages.dlx", q))) in t.queues
      && Queue(q + ".dlq", "mycelium", Some(604_800_000), None) in t.queues
    ensures forall tier :: 0 <= tier < MAX_RETRIES ==> var q := "km.stage." + c.stages[i];
      RETRY_TIERS[tier] != "" && MillisOf(RETRY_TIERS[tier]) >= 0 &&
      Queue(q + ".retry." + RETRY_TIERS[tier], "mycelium", Some(MillisOf(RETRY_TIERS[tier])), Some(("mycelium-stages", q)))
        in t.queues
  {
    assert MEX + ".dlx" == "mycelium-stages.dlx";
    QueueIsBuilt(c, t, StageWork(i));
    QueueIsBuilt(c, t, StagePoison(i));
    forall tier: nat | tier < MAX_RETRIES
      ensures RETRY_TIERS[tier] != "" && MillisOf(RETRY_TIERS[tier]) >= 0
      ensures var q := "km.stage." + c.stages[i];
        Queue(q + ".retry." + RETRY_TIERS[tier], "mycelium", Some(MillisOf(RETRY_TIERS[tier])), Some(("mycelium-stages", q)))
          in t.queues
    {
      TiersLastWhatTheySay(tier);
      QueueIsBuilt(c, t, StageWait(i, tier));
    }
    hide Built, MillisOf;
  }

  lemma QueueAtPlace(c: Config, t: Topology, r: Role)
    requires Built(c, t) && Exists(c, r)
    ensures |t.queues| == Total(c) && Place(c, r) < |t.queues| && t.queues[Place(c, r)] == QueueOf(c, r)
  {
    RolesAre(c);
    RoleAtPlace(c, r);
    hide RoleAt, Place, QueueOf, Exists;
  }

  /** The queues in the order of the file: pipeline by pipeline, the fixed ones, stage by stage. */
  lemma QueuesInOrder(c: Config, t: Topology)
    requires Built(c, t)
    ensures var n, m := 5 * |c.pipelines|, 5 * |c.stages|;
      && |t.queues| == n + m + 3
      && (forall i, k :: 0 <= i < |c.pipelines| && 0 <= k < 5 ==> t.queues[5 * i + k].name == NamesOf(c.pipelines[i].q)[k])
      && t.queues[n].name == "email-expired" && t.queues[n + 1].name == "task-results"
      && (forall i, k :: 0 <= i < |c.stages| && 0 <= k < 5 ==>
            t.queues[n + 2 + 5 * i + k].name == NamesOf("km.stage." + c.stages[i])[k])
      && t.queues[n + m + 2].name == "mycelium-task-results"
  {
    hide Built, NamesOf, QueueOf, Place, RoleAt;
    var n := 5 * |c.pipelines|;
    FixedQueuesAt(c, t);
    forall i, k | 0 <= i < |c.pipelines| && 0 <= k < 5 ensures t.queues[5 * i + k].name == NamesOf(c.pipelines[i].q)[k] {
      PipelineNameAt(c, t, i, k);
    }
    forall i, k | 0 <= i < |c.stages| && 0 <= k < 5
      ensures t.queues[n + 2 + 5 * i + k].name == NamesOf("km.stage." + c.stages[i])[k]
    {
      StageNameAt(c, t, i, k);
    }
  }

  lemma FixedQueuesAt(c: Config, t: Topology)
    requires Built(c, t)
    ensures var n, m := 5 * |c.pipelines|, 5 * |c.stages|;
      && |t.queues| == n + m + 3
      && t.queues[n].name == "email-expired" && t.queues[n + 1].name == "task-results"
      && t.queues[n + m + 2].name == "mycelium-task-results"
  {
    hide Built, RoleAt;
    QueueAtPlace(c, t, Expired);
    QueueAtPlace(c, t, Results);
    QueueAtPlace(c, t, StageResults);
  }

  /** A work queue, its wait queues and its dead-letter queue. */
  function NamesOf(q: string): (names: seq<string>)
    ensures |names| == 5
  {
    [q, q + ".retry." + RETRY_TIERS[0], q + ".retry." + RETRY_TIERS[1], q + ".retry." + RETRY_TIERS[2], q + ".dlq"]
  }

  lemma PipelineNameAt(c: Config, t: Topology, i: nat, k: nat)
    requires Built(c, t) && i < |c.pipelines| && k < 5
    ensures 5 * i + k < |t.queues| && t.queues[5 * i + k].name == NamesOf(c.pipelines[i].q)[k]
  {
    hide Built, RoleAt;
    QueueAtPlace(c, t, if k == 0 then Work(i) else if k == 4 then Poison(i) else RetryWait(i, k - 1));
  }

  lemma StageNameAt(c: Config, t: Topology, i: nat, k: nat)
    requires Built(c, t) && i < |c.stages| && k < 5
    ensures var n := 5 * |c.pipelines| + 2;
      n + 5 * i + k < |t.queues| && t.queues[n + 5 * i + k].name == NamesOf("km.stage." + c.stages[i])[k]
  {
    hide Built, RoleAt;
    QueueAtPlace(c, t, if k == 0 then StageWork(i) else if k == 4 then StagePoison(i) else StageWait(i, k - 1));
  }

  /** The wait queues the worker counts are those of the document pipeline. */
  lemma WorkerCountsItsWaitQueues(tier: nat)
    requires tier < MAX_RETRIES
    ensures PIPELINES[3].q == D.QUEUE && WaitQueue(D.PREFIX, tier) == PIPELINES[3].q + ".retry." + RETRY_TIERS[tier]
  {
  }

  /** What a work queue drops, stale e-mail apart, goes to the pipeline's dead-letter queue and nowhere else. */
  lemma DroppedWorkIsDeadLettered(c: Config, t: Topology, i: nat)
    requires NonColliding(c) && Built(c, t) && i < |c.pipelines| && c.pipelines[i].rk != "email.send"
    ensures var p := c.pipelines[i];
      exists w <- t.queues :: w.name == p.q && w.vhost == "/" && w.ttl.None? && w.deadLetter.Some?
        && ReachesOnly(t.bindings, "/", w.deadLetter.value.0, w.deadLetter.value.1, p.q + ".dlq")
  {
    PipelineQueuesAre(c, t, i);
    EachAddressReachesOne(c, t, Poison(i));
    hide Built, NonColliding, ReachesOnly;
  }

  /** What expires in a pipeline's wait queue goes back to its own work queue, and the worker counts that queue. */
  lemma WaitQueuesReturn(c: Config, t: Topology, i: nat, tier: nat)
    requires NonColliding(c) && Built(c, t) && i < |c.pipelines| && tier < MAX_RETRIES
    ensures RETRY_TIERS[tier] != ""
    ensures exists w <- t.queues ::
      && w.name == WaitQueue(c.pipelines[i].q + ".retry.", tier) && w.vhost == "/"
      && w.ttl.Some? && w.ttl.value == MillisOf(RETRY_TIERS[tier]) && w.deadLetter.Some?
      && ReachesOnly(t.bindings, "/", w.deadLetter.value.0, w.deadLetter.value.1, c.pipelines[i].q)
  {
    EachAddressReachesOne(c, t, Work(i));
    PipelineQueuesAre(c, t, i);
    hide Built, NonColliding, ReachesOnly, MillisOf;
  }

  lemma QueueIsBuilt(c: Config, t: Topology, r: Role)
    requires Built(c, t) && Exists(c, r)
    ensures QueueOf(c, r) in t.queues
  {
    RolesAre(c);
    assert r in Roles(c);
    var k :| 0 <= k < |Roles(c)| && Roles(c)[k] == r;
    assert t.queues[k] == QueueOf(c, r);
  }

  lemma StageWaitQueuesReturn(c: Config, t: Topology, i: nat, tier: nat)
    requires NonColliding(c) && Built(c, t) && i < |c.stages| && tier < MAX_RETRIES
    ensures RETRY_TIERS[tier] != ""
    ensures exists w <- t.queues ::
      && w.name == WaitQueue("km.stage." + c.stages[i] + ".retry.", tier) && w.vhost == "mycelium"
      && w.ttl.Some? && w.ttl.value == MillisOf(RETRY_TIERS[tier]) && w.deadLetter.Some?
      && ReachesOnly(t.bindings, "mycelium", w.deadLetter.value.0, w.deadLetter.value.1, "km.stage." + c.stages[i])
  {
    EachAddressReachesOne(c, t, StageWork(i));
    StageQueuesAre(c, t, i);
    hide Built, NonColliding, ReachesOnly, MillisOf;
  }

  /** No other pipeline takes what an exchange dead-letters as stale. */
  ghost predicate StaleKeyReserved(c: Config, ex: string) {
    forall k :: 0 <= k < |c.pipelines| && c.pipelines[k].rk == "email.expired" ==>
      c.pipelines[k].ex != ex && c.pipelines[k].ex != ex + ".dlx"
  }

  /** Stale e-mail is parked in `email-expired` exactly when it comes from `email-tasks`, else dropped; never a `.dlq`. */
  lemma StaleEmailIsNotPoison(c: Config, t: Topology, i: nat)
    requires NonColliding(c) && Built(c, t) && i < |c.pipelines| && c.pipelines[i].rk == "email.send"
    requires StaleKeyReserved(c, c.pipelines[i].ex)
    ensures exists w <- t.queues ::
      && w.name == c.pipelines[i].q && w.vhost == "/" && w.ttl == Some(3_600_000)
      && w.deadLetter.Some? && Parks(c.pipelines[i].ex, t, w.deadLetter.value.0, w.deadLetter.value.1)
  {
    PipelineQueuesAre(c, t, i);
    StaleEmailParks(c, t, i);
    hide Built, NonColliding, Parks, StaleKeyReserved;
  }

  /** Stale messages of exchange `email-tasks` are parked; those of any other exchange are dropped. */
  ghost predicate Parks(ex: string, t: Topology, deadEx: string, deadKey: string) {
    if ex == "email-tasks" then ReachesOnly(t.bindings, "/", deadEx, deadKey, "email-expired")
    else ReachesNothing(t.bindings, "/", deadEx, deadKey)
  }

  lemma StaleEmailParks(c: Config, t: Topology, i: nat)
    requires NonColliding(c) && Built(c, t) && i < |c.pipelines| && StaleKeyReserved(c, c.pipelines[i].ex)
    ensures Parks(c.pipelines[i].ex, t, c.pipelines[i].ex + ".dlx", "email.expired")
  {
    var ex := c.pipelines[i].ex;
    assert "email-tasks" + ".dlx" == "email-tasks.dlx";
    if ex == "email-tasks" {
      EachAddressReachesOne(c, t, Expired);
    } else {
      RolesAre(c);
      forall b <- t.bindings ensures !Matches(b, "/", ex + ".dlx", "email.expired") {
        var k :| 0 <= k < |t.bindings| && t.bindings[k] == b;
        ExpiredKeyIsReserved(c, Roles(c)[k], ex);
      }
    }
  }

  lemma ExpiredKeyIsReserved(c: Config, r: Role, ex: string)
    requires StaleKeyReserved(c, ex) && Exists(c, r) && ex != "email-tasks"
    ensures !Matches(BindingOf(c, r), "/", ex + ".dlx", "email.expired")
  {
    hide Tiered;
    if BindingOf(c, r).vhost == "/" {
      LastChar(ex, ".dlx");
      SourceIs(c, r);
      if !r.Work? {
        SourceEnds(c, r);
      }
      if (r.Poison? || r.Expired?) && BindingOf(c, r).source == ex + ".dlx" {
        SuffixCancels(BaseExchange(c, r), ex, ".dlx");
      }
    }
  }

  // ---- the generator --------------------------------------------------------------------------------

  lemma FixedNames()
    ensures MEX == "mycelium-stages" && MEX + ".dlx" == "mycelium-stages.dlx" && MEX + ".retry" == "mycelium-stages.retry"
  {
  }

  /** Each binding leads to the queue declared with it. */
  lemma BindingsLead(c: Config, t: Topology)
    requires Built(c, t)
    ensures |t.queues| == |t.bindings| == 5 * |c.pipelines| + 5 * |c.stages| + 3
    ensures forall k :: 0 <= k < |t.queues| ==>
      t.bindings[k].destination == t.queues[k].name && t.bindings[k].vhost == t.queues[k].vhost
  {
    RolesAre(c);
    hide Roles, Exists;
  }

  /** The exchanges of the first `n` pipelines. */
  function PipelineExchanges(c: Config, n: nat): (r: seq<(string, string)>)
    requires n <= |c.pipelines|
    ensures forall i :: 0 <= i < n ==> (c.pipelines[i].ex + ".dlx", "/") in r
  {
    if n == 0 then []
    else
      var ex := c.pipelines[n - 1].ex;
      PipelineExchanges(c, n - 1) + [(ex, "/"), (ex + ".dlx", "/"), (ex + ".retry", "/")]
  }

  class Builder {
    const c: Config
    var exchanges: seq<(string, string)>
    var queues: seq<Queue>
    var bindings: seq<Binding>
    ghost var roles: seq<Role>

    constructor (c: Config)
      ensures Valid() && this.c == c && roles == [] && exchanges == []
    {
      this.c := c;
      exchanges, queues, bindings, roles := [], [], [], [];
    }

    /** What has been emitted is what the roles so far call for, from declared exchanges. */
    ghost predicate Valid()
      reads this
    {
      && (forall r <- roles :: Exists(c, r))
      && queues == Queues(c, roles) && bindings == Bindings(c, roles)
      && (forall b <- bindings :: (b.source, b.vhost) in exchanges || (b.source == "email-tasks.dlx" && b.vhost == "/"))
    }

    method Exchange(name: string, vhost: string)
      requires Valid()
      modifies this`exchanges
      ensures Valid() && exchanges == old(exchanges) + [(name, vhost)]
    {
      exchanges := exchanges + [(name, vhost)];
    }

    /** A queue and the binding to it. */
    method Declare(q: Queue, source: string, rk: string, ghost r: Role)
      requires Valid() && Exists(c, r) && q == QueueOf(c, r)
      requires Binding(source, q.vhost, q.name, rk) == BindingOf(c, r)
      requires (source, q.vhost) in exchanges || (source == "email-tasks.dlx" && q.vhost == "/")
      modifies this`queues, this`bindings, this`roles
      ensures Valid() && roles == old(roles) + [r]
    {
      hide QueueOf, BindingOf, Exists;
      queues := queues + [q];
      bindings := bindings + [Binding(source, q.vhost, q.name, rk)];
      roles := roles + [r];
    }

    method AddPipeline(i: nat)
      requires Valid() && i < |c.pipelines|
      modifies this
      ensures Valid() && roles == old(roles) + RolesOf(i)
      ensures exchanges == old(exchanges)
        + [(c.pipelines[i].ex, "/"), (c.pipelines[i].ex + ".dlx", "/"), (c.pipelines[i].ex + ".retry", "/")]
    {
      hide Queues, Bindings;
      var p := c.pipelines[i];
      Exchange(p.ex, "/");
      Exchange(p.ex + ".dlx", "/");
      Exchange(p.ex + ".retry", "/");
      var email := p.rk == "email.send";
      var deadKey := if email then "email.expired" else p.rk;
      var ttl := if email then Some(EMAIL_STALENESS_TTL_MS) else None;
      Declare(Queue(p.q, "/", ttl, Some((p.ex + ".dlx", deadKey))), p.ex, p.rk, Work(i));
      for tier := 0 to |RETRY_TIERS|
        invariant Valid() && roles == old(roles) + RolesOf(i)[..1 + tier]
        invariant exchanges == old(exchanges) + [(p.ex, "/"), (p.ex + ".dlx", "/"), (p.ex + ".retry", "/")]
      {
        var rq := p.q + ".retry." + RETRY_TIERS[tier];
        Declare(Queue(rq, "/", Some(TIER_TTLS[tier]), Some((p.ex, p.rk))),
                p.ex + ".retry", p.rk + ".retry." + RETRY_TIERS[tier], RetryWait(i, tier));
      }
      Declare(Queue(p.q + ".dlq", "/", Some(p.dlqTtl), None), p.ex + ".dlx", p.rk, Poison(i));
    }

    method AddStage(i: nat)
      requires Valid() && i < |c.stages|
      requires (MEX, MYCELIUM_VHOST) in exchanges && (MEX + ".dlx", MYCELIUM_VHOST) in exchanges
      requires (MEX + ".retry", MYCELIUM_VHOST) in exchanges
      modifies this`queues, this`bindings, this`roles
      ensures Valid() && roles == old(roles) + StageRolesOf(i)
    {
      hide Queues, Bindings;
      var q := "km.stage." + c.stages[i];
      Declare(Queue(q, MYCELIUM_VHOST, None, Some((MEX + ".dlx", q))), MEX, q, StageWork(i));
      for tier := 0 to |RETRY_TIERS|
        invariant Valid() && roles == old(roles) + StageRolesOf(i)[..1 + tier]
      {
        var rq := q + ".retry." + RETRY_TIERS[tier];
        Declare(Queue(rq, MYCELIUM_VHOST, Some(TIER_TTLS[tier]), Some((MEX, q))),
                MEX + ".retry", q + ".retry." + RETRY_TIERS[tier], StageWait(i, tier));
      }
      Declare(Queue(q + ".dlq", MYCELIUM_VHOST, Some(MYCELIUM_DLQ_TTL_MS), None), MEX + ".dlx", q, StagePoison(i));
    }

    /** Every pipeline, then the fixed queues, then every stage. */
    method Build() returns (t: Topology)
      requires Valid() && roles == [] && exchanges == []
      modifies this
      ensures exchanges == PipelineExchanges(c, |c.pipelines|)
        + [("task-results", "/"), ("mycelium-stages", "mycelium"), ("mycelium-stages.dlx", "mycelium"),
           ("mycelium-stages.retry", "mycelium"), ("mycelium-results", "mycelium")]
      ensures Built(c, t) && t == Topology(queues, bindings)
      ensures |t.queues| == |t.bindings| == 5 * |c.pipelines| + 5 * |c.stages| + 3
      ensures forall k :: 0 <= k < |t.queues| ==>
        t.bindings[k].destination == t.queues[k].name && t.bindings[k].vhost == t.queues[k].vhost
      ensures (exists p <- c.pipelines :: p.ex == "email-tasks") ==>
        forall b <- t.bindings :: (b.source, b.vhost) in exchanges
    {
      FixedNames();
      hide PipelineExchanges, Queues, Bindings;
      AddPipelines();
      AddFixed();
      AddStages();
      Declare(Queue("mycelium-task-results", MYCELIUM_VHOST, None, None), "mycelium-results", "km.stage.result", StageResults);
      assert roles == Roles(c);
      t := Topology(queues, bindings);
      BindingsLead(c, t);
      if p :| p in c.pipelines && p.ex == "email-tasks" {
        assert p.ex + ".dlx" == "email-tasks.dlx";
        assert ("email-tasks.dlx", "/") in PipelineExchanges(c, |c.pipelines|);
      }
    }

    method AddPipelines()
      requires Valid() && roles == [] && exchanges == []
      modifies this
      ensures Valid() && roles == Roles(c)[..5 * |c.pipelines|]
      ensures forall p <- c.pipelines :: (p.ex + ".dlx", "/") in exchanges
      ensures exchanges == PipelineExchanges(c, |c.pipelines|)
    {
      hide Queues, Bindings, QueueOf, BindingOf, RolesOf, Roles;
      for i := 0 to |c.pipelines|
        invariant Valid() && 5 * i <= |Roles(c)| && roles == Roles(c)[..5 * i]
        invariant exchanges == PipelineExchanges(c, i)
      {
        AddPipeline(i);
        NextBlock(c, i);
      }
    }

    method AddFixed()
      requires Valid() && roles == Roles(c)[..5 * |c.pipelines|]
      modifies this
      ensures Valid() && roles == Roles(c)[..5 * |c.pipelines| + 2]
      ensures exchanges == old(exchanges) + [("task-results", "/"), (MEX, MYCELIUM_VHOST), (MEX + ".dlx", MYCELIUM_VHOST),
                                             (MEX + ".retry", MYCELIUM_VHOST), ("mycelium-results", MYCELIUM_VHOST)]
      ensures (MEX, MYCELIUM_VHOST) in exchanges && (MEX + ".dlx", MYCELIUM_VHOST) in exchanges
      ensures (MEX + ".retry", MYCELIUM_VHOST) in exchanges && ("mycelium-results", MYCELIUM_VHOST) in exchanges
    {
      hide Queues, Bindings;
      Declare(Queue("email-expired", "/", Some(EMAIL_EXPIRED_RETENTION_MS), None), "email-tasks.dlx", "email.expired", Expired);
      Exchange("task-results", "/");
      Declare(Queue("task-results", "/", None, None), "task-results", "task.result", Results);
      Exchange(MEX, MYCELIUM_VHOST);
      Exchange(MEX + ".dlx", MYCELIUM_VHOST);
      Exchange(MEX + ".retry", MYCELIUM_VHOST);
      Exchange("mycelium-results", MYCELIUM_VHOST);
    }

    method AddStages()
      requires Valid() && roles == Roles(c)[..5 * |c.pipelines| + 2]
      requires (MEX, MYCELIUM_VHOST) in exchanges && (MEX + ".dlx", MYCELIUM_VHOST) in exchanges
      requires (MEX + ".retry", MYCELIUM_VHOST) in exchanges
      modifies this`queues, this`bindings, this`roles
      ensures Valid() && roles == Roles(c)[..5 * |c.pipelines| + 2 + 5 * |c.stages|]
    {
      hide Queues, Bindings, QueueOf, BindingOf, StageRolesOf, Roles;
      for i := 0 to |c.stages|
        invariant Valid() && 5 * |c.pipelines| + 2 + 5 * i <= |Roles(c)| && roles == Roles(c)[..5 * |c.pipelines| + 2 + 5 * i]
      {
        AddStage(i);
        NextStageBlock(c, i);
      }
    }
  }

  lemma NoDotInside(s: string, a: string, suffix: string)
    requires '.' !in s && '.' in suffix
    ensures s != a + suffix
  {
    var k :| 0 <= k < |suffix| && suffix[k] == '.';
    assert (a + suffix)[|a| + k] == '.';
  }

  /** Names without dots cannot collide with derived ones, so it is enough that they differ among themselves. */
  lemma DotFreeNamesDoNotCollide(c: Config)
    requires forall i :: 0 <= i < |c.pipelines| ==> var p := c.pipelines[i];
      '.' !in p.ex && '.' !in p.q && p.ex != "task-results" && p.q != "task-results" && p.q != "email-expired"
      && p.rk != "email.expired"
    requires forall i, j :: 0 <= i < j < |c.pipelines| ==>
      c.pipelines[i].ex != c.pipelines[j].ex && c.pipelines[i].q != c.pipelines[j].q
    requires forall i :: 0 <= i < |c.stages| ==> '.' !in c.stages[i]
    requires forall i, j :: 0 <= i < j < |c.stages| ==> c.stages[i] != c.stages[j]
    ensures NonColliding(c)
  {
    hide Tiered, StageKey;
    forall i, j | 0 <= i < |c.pipelines| && 0 <= j < |c.pipelines|
      ensures c.pipelines[i].ex != c.pipelines[j].ex + ".dlx" && c.pipelines[i].ex != c.pipelines[j].ex + ".retry"
      ensures c.pipelines[i].q != c.pipelines[j].q + ".dlq" && c.pipelines[i].ex != "email-tasks.dlx"
    {
      NoDotInside(c.pipelines[i].ex, c.pipelines[j].ex, ".dlx");
      NoDotInside(c.pipelines[i].ex, c.pipelines[j].ex, ".retry");
      NoDotInside(c.pipelines[i].q, c.pipelines[j].q, ".dlq");
      assert "email-tasks.dlx"[11] == '.';
    }
    forall i, j, t | 0 <= i < |c.pipelines| && 0 <= j < |c.pipelines| && 0 <= t < MAX_RETRIES
      ensures c.pipelines[i].q != Tiered(c.pipelines[j].q, t)
    {
      TieredShape(c.pipelines[j].q, t);
    }
    forall i, j | 0 <= i < |c.stages| && 0 <= j < |c.stages| ensures c.stages[i] != c.stages[j] + ".dlq" {
      NoDotInside(c.stages[i], c.stages[j], ".dlq");
    }
    forall i, j, t | 0 <= i < |c.stages| && 0 <= j < |c.stages| && 0 <= t < MAX_RETRIES
      ensures StageKey(c.stages[i]) != Tiered(StageKey(c.stages[j]), t)
    {
      DotFreeStage(c.stages[i], c.stages[j], t);
    }
  }

  lemma DotFreeStage(s: string, other: string, t: nat)
    requires '.' !in s && t < MAX_RETRIES
    ensures StageKey(s) != Tiered(StageKey(other), t)
  {
    var rest := ".retry." + RETRY_TIERS[t];
    assert rest[0] == '.';
    assert Tiered(StageKey(other), t) == StageKey(other + rest);
    NoDotInside(s, other, rest);
    if StageKey(s) == StageKey(other + rest) {
      StageKeysApart(s, other + rest);
    }
  }

  // ---- the lists in the repository ------------------------------------------------------------------

  const SHIPPED := Config(PIPELINES, MYCELIUM_STAGES)

  /** A number that tells the stage names apart. */
  function Mark(s: string): int
    requires |s| >= 3
  {
    |s| * 1000 + s[1] as int + 2 * s[2] as int
  }

  const MARKS: seq<int> := [
    5310, 5338, 6338, 6316, 16316, 15338, 5305, 10301,
    5348, 8329, 19295, 16308, 17342, 18308, 19329, 19340
  ]

  lemma ShippedStageMarks(i: nat)
    requires i < |MYCELIUM_STAGES|
    ensures |MYCELIUM_STAGES[i]| >= 3 && Mark(MYCELIUM_STAGES[i]) == MARKS[i]
  {
  }

  lemma ShippedStageHasNoDot(i: nat)
    requires i < |MYCELIUM_STAGES|
    ensures '.' !in MYCELIUM_STAGES[i]
  {
  }

  lemma MarksDiffer(i: nat, j: nat)
    requires i < j < |MARKS|
    ensures MARKS[i] != MARKS[j]
  {
  }

  lemma ShippedPipelinesDiffer(i: nat, j: nat)
    requires i < j < |PIPELINES|
    ensures PIPELINES[i].ex != PIPELINES[j].ex && PIPELINES[i].q != PIPELINES[j].q
  {
    assert PIPELINES[i].ex[0] != PIPELINES[j].ex[0] && PIPELINES[i].q[0] != PIPELINES[j].q[0];
  }

  lemma ShippedExchangeHasNoDot(i: nat)
    requires i < |PIPELINES|
    ensures '.' !in PIPELINES[i].ex
  {
    assert '.' !in "profile-tasks" && '.' !in "email-tasks" && '.' !in "image-tasks" && '.' !in "document-tasks";
    assert i == 0 || i == 1 || i == 2 || i == 3;
  }

  lemma ShippedQueueHasNoDot(i: nat)
    requires i < |PIPELINES|
    ensures '.' !in PIPELINES[i].q
  {
    assert '.' !in "profile-processing" && '.' !in "email-processing";
    assert '.' !in "image-processing" && '.' !in "document-processing";
    assert i == 0 || i == 1 || i == 2 || i == 3;
  }

  lemma ShippedPipelineHasNoDot(i: nat)
    requires i < |PIPELINES|
    ensures '.' !in PIPELINES[i].ex && '.' !in PIPELINES[i].q
  {
    ShippedExchangeHasNoDot(i);
    ShippedQueueHasNoDot(i);
  }

  lemma ShippedPipelineIsPlain(i: nat)
    requires i < |PIPELINES|
    ensures var p := PIPELINES[i];
      p.ex != "task-results" && p.q != "task-results" && p.q != "email-expired" && p.rk != "email.expired"
  {
    var p := PIPELINES[i];
    assert p.ex[0] != 't' && p.q[0] != 't' && |p.q| != |"email-expired"|;
    assert p.rk[0] != 'e' || |p.rk| != |"email.expired"|;
  }

  /** They meet the condition of the routing theorems. */
  lemma ShippedNamesDoNotCollide()
    ensures NonColliding(SHIPPED)
  {
    forall i: nat | i < |PIPELINES| {
      ShippedPipelineHasNoDot(i);
    }
    forall i: nat | i < |PIPELINES| {
      ShippedPipelineIsPlain(i);
    }
    forall i: nat, j: nat | i < j < |PIPELINES| {
      ShippedPipelinesDiffer(i, j);
    }
    forall i: nat | i < |MYCELIUM_STAGES| {
      ShippedStageHasNoDot(i);
    }
    forall i: nat, j: nat | i < j < |MYCELIUM_STAGES| ensures MYCELIUM_STAGES[i] != MYCELIUM_STAGES[j] {
      ShippedStageMarks(i);
      ShippedStageMarks(j);
      MarksDiffer(i, j);
    }
    DotFreeNamesDoNotCollide(SHIPPED);
  }
}
