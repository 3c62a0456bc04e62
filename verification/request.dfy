/** The read-merge-post critical section: one request by itself, and any number of workers under the lock. */
module Request {
  import opened Model
  import opened Engine
  import opened EngineLaws
  import opened States
  import opened Runs
  import opened Generate
  import opened Deltas
  import opened Guarantees
  import opened Intake
  import opened Selection
  import opened Intent
  import opened Tenants

  /** The device's applications by partition; a partition that was never posted has none. */
  type Device = map<string, Option<App>>

  function At(device: Device, partition: string): Option<App> {
    if partition in device then device[partition] else None
  }

  /** A post to one partition replaces that partition's application. */
  function Posted(device: Device, partition: string, body: Body): Device
    requires partition in body
  {
    device[partition := body[partition].shared]
  }

  const RULE_TYPE_GLOBAL := "global"
  const RULE_TYPE_NAMESPACE := "namespace"

  datatype Result = Synced | Failed | Panicked

  /** After the post, the policies of these requests are bound to the device or to a route domain. */
  predicate Binds(ty: string) {
    ty in {RULE_TYPE_GLOBAL, RULE_TYPE_NAMESPACE}
  }

  /** Only requests about cluster-wide and namespace rules bind a policy; service rules need none. */
  lemma BindsAre(ty: string)
    ensures Binds("global") && Binds("namespace") && !Binds("service")
    ensures Binds(ty) ==> ty == "global" || ty == "namespace"
  {
    assert "service"[0] != "global"[0] && "service"[0] != "namespace"[0];
  }

  /** The client of one device.  `getOk`, `postOk` and `bindOk` are the outcomes of its calls. */
  class Client {
    var device: Device

    constructor (device: Device)
      ensures this.device == device
    {
      this.device := device;
    }

    /**
     * One request: build the delta, read the partition, merge, post if there is something to post, bind the policy.
     * The device ends up with the merged application, even when only the binding fails, or as it was.  What a
     * synchronised device then enforces is what the resources ask for.
     */
    method As3Request(cfg: Config, t: Tenant, resources: Resources, ty: string, isDelete: bool, getOk: bool,
                      postOk: bool, bindOk: bool)
      returns (result: Result, ghost items: seq<Item>, ghost order: seq<string>)
      requires ValidTenant(cfg, t) && TenantForPartition(cfg, t.name) == Some(t) && Configured(cfg, t.name)
      requires GoodResources(cfg, t, resources)
      modifies this
      ensures ItemsOf(DealtRules(t.name, resources), items) && GeneratedDelta(cfg, t, items, order)
      ensures var delta, src := Delta(cfg, t, items, order), At(old(device), t.name);
              var posts := Answered(cfg, t, isDelete, src, delta) != NoPost;
              var done := getOk && !Panics(cfg, t, isDelete, src, delta) && (posts ==> postOk);
              && (result == Panicked <==> getOk && Panics(cfg, t, isDelete, src, delta))
              && (result == Synced <==> done && (posts && ty in {"global", "namespace"} ==> bindOk))
              && At(device, t.name) == (if done then Next(cfg, t, isDelete, src, delta) else src)
              && (forall p :: p != t.name ==> At(device, p) == At(old(device), p))
              && (done && !isDelete && (src.Some? ==> KindsAgree(src.value, delta)) ==>
                    At(device, t.name).Some? && AllEnforced(cfg, t, At(device, t.name).value, resources))
      ensures GoodState(cfg, t, At(old(device), t.name)) ==> result != Panicked
      ensures var src := At(old(device), t.name);
              GoodState(cfg, t, src) && (isDelete && src.Some? ==> SourcesCovered(cfg, src.value, items)) ==>
                GoodState(cfg, t, At(device, t.name))
    {
      hide ValidTenant, GoodResources, DealtRules, Delta, WellFormed, Merge, IsDiff, NewBody, GoodItems, Visits,
           AllReady, AllEnforced, KindsAgree, Panics, ItemsOf, ItemsMatch, SourcesCovered;
      var delta;
      delta, items, order := DeltaFor(cfg, t, resources);
      ghost var src0 := At(device, t.name);
      if GoodState(cfg, t, src0) {
        RulesKeepGood(cfg, t, src0, isDelete, items, order);
      }
      if GoodState(cfg, t, src0) {
        GoodStateDoesNotPanic(cfg, t, isDelete, src0, delta);
      }
      if !isDelete && (src0.Some? ==> KindsAgree(src0.value, delta)) {
        AllAreEnforced(cfg, t, src0, resources, items, order);
      }
      if !getOk {
        return Failed, items, order;
      }
      var src := At(device, t.name);
      var request := FullResource(cfg, t.name, isDelete, src, delta);
      if request.Panic? {
        return Panicked, items, order;
      }
      if request.NoRequest? {
        return Synced, items, order;
      }
      if !postOk {
        return Failed, items, order;
      }
      match Answered(cfg, t, isDelete, src, delta)
      case Post(shared) =>
        BodyTenants(cfg, t.name, shared);
        device := Posted(device, t.name, request.body);
        return if Binds(ty) && !bindOk then Failed else Synced, items, order;
    }
  }

  /** Every rule and external service that the request carries is enforced, as far as it can be. */
  ghost predicate AllEnforced(cfg: Config, t: Tenant, app: App, resources: Resources) {
    forall e, x :: Handed(t.name, resources, e, x) ==>
      Enforced(cfg, t, app, resources, e, x)
  }

  lemma AllAreEnforced(cfg: Config, t: Tenant, src: Option<App>, resources: Resources, items: seq<Item>,
                       order: seq<string>)
    requires GeneratedDelta(cfg, t, items, order)
    requires GoodResources(cfg, t, resources) && ItemsOf(DealtRules(t.name, resources), items)
    requires src.Some? ==> KindsAgree(src.value, Delta(cfg, t, items, order))
    ensures var next := Next(cfg, t, false, src, Delta(cfg, t, items, order));
            next.Some? && AllEnforced(cfg, t, next.value, resources)
  {
    hide GoodItems, AllReady, Visits, GoodResources, Handed, Delta, KindsAgree, DealtRules, ItemsOf,
         Enforced, ValidTenant, Merge, IsDiff;
    forall e, x | Handed(t.name, resources, e, x)
      ensures Enforced(cfg, t, Next(cfg, t, false, src, Delta(cfg, t, items, order)).value, resources, e, x)
    {
      SyncEnforces(cfg, t, src, resources, items, order, e, x);
    }
  }

  /** A good state stays good exactly when a delete takes along the users of the source lists it removes. */
  lemma RulesKeepGood(cfg: Config, t: Tenant, src: Option<App>, isDelete: bool, items: seq<Item>, order: seq<string>)
    requires GeneratedDelta(cfg, t, items, order) && GoodState(cfg, t, src)
    ensures GoodState(cfg, t, Next(cfg, t, isDelete, src, Delta(cfg, t, items, order))) <==>
              (isDelete && src.Some? ==> SourcesCovered(cfg, src.value, items))
  {
    hide GoodItems, AllReady, Visits, Delta, ValidTenant, WellFormed, Next, SourcesCovered, Covers, Merge, Exact,
         GroupNames;
    var delta := Delta(cfg, t, items, order);
    DeltaWellFormed(cfg, t, items, order);
    NextIsGood(cfg, t, src, Sync(isDelete, delta));
    if isDelete && src.Some? {
      DeleteOfRules(cfg, t, src.value, items, order);
    }
  }

  lemma GoodStateDoesNotPanic(cfg: Config, t: Tenant, isDelete: bool, src: Option<App>, delta: App)
    requires GoodState(cfg, t, src) && WellFormed(cfg, t, delta)
    ensures !Panics(cfg, t, isDelete, src, delta)
  {
    hide Panics, RulesLocal;
    OrderlyDoesNotPanic(cfg, t, isDelete, src, delta);
  }

  // ----- many workers -----

  datatype Job = Job(tenant: Tenant, isDelete: bool, delta: App)

  /** Where a worker is; `Read` holds what it read from the device. */
  datatype Phase = Idle | Waiting(job: Job) | Locked(job: Job) | Read(job: Job, src: Option<App>) | Leaving

  datatype Status = Pending | Applied | Dropped

  /** A request in the order in which it obtained the lock, and what became of it. */
  datatype Entry = Entry(job: Job, status: Status)

  datatype State = State(device: Device, holder: Option<nat>, workers: seq<Phase>, history: seq<Entry>)

  datatype Step =
    | Submit(w: nat, job: Job)
    | Lock(w: nat)
    | Get(w: nat, getOk: bool)
    | Send(w: nat, postOk: bool)
    | Unlock(w: nat)

  predicate Enabled(s: State, step: Step) {
    && step.w < |s.workers|
    && match step
       case Submit(w, _) => s.workers[w].Idle?
       case Lock(w) => s.workers[w].Waiting? && s.holder == None
       case Get(w, _) => s.workers[w].Locked?
       case Send(w, _) => s.workers[w].Read?
       case Unlock(w) => s.workers[w].Leaving?
  }

  /** The outcome of the request that holds the lock. */
  function Settle(history: seq<Entry>, status: Status): seq<Entry> {
    if history == [] then [] else history[|history| - 1 := history[|history| - 1].(status := status)]
  }

  function Do(cfg: Config, s: State, step: Step): State
    requires Enabled(s, step)
  {
    match step
    case Submit(w, job) => s.(workers := s.workers[w := Waiting(job)])
    case Lock(w) =>
      var job := s.workers[w].job;
      s.(holder := Some(w), workers := s.workers[w := Locked(job)], history := s.history + [Entry(job, Pending)])
    case Get(w, getOk) =>
      var job := s.workers[w].job;
      if getOk then s.(workers := s.workers[w := Read(job, At(s.device, job.tenant.name))])
      else s.(workers := s.workers[w := Leaving], history := Settle(s.history, Dropped))
    case Send(w, postOk) =>
      var job, src := s.workers[w].job, s.workers[w].src;
      if Panics(cfg, job.tenant, job.isDelete, src, job.delta) then
        s.(workers := s.workers[w := Leaving], history := Settle(s.history, Dropped))
      else (match Answered(cfg, job.tenant, job.isDelete, src, job.delta)
       case NoPost => s.(workers := s.workers[w := Leaving], history := Settle(s.history, Applied))
       case Post(shared) =>
         if postOk then
           s.(workers := s.workers[w := Leaving], history := Settle(s.history, Applied),
              device := s.device[job.tenant.name := shared])
         else s.(workers := s.workers[w := Leaving], history := Settle(s.history, Dropped)))
    case Unlock(w) => s.(holder := None, workers := s.workers[w := Idle])
  }

  /** A run of the protocol: every step was enabled. */
  predicate Reaches(cfg: Config, start: State, steps: seq<Step>, end: State)
    decreases |steps|
  {
    if steps == [] then start == end
    else Enabled(start, steps[0]) && Reaches(cfg, Do(cfg, start, steps[0]), steps[1..], end)
  }

  /** Some workers that have nothing to do yet. */
  predicate Initial(s: State) {
    s.holder == None && s.history == [] && forall w :: 0 <= w < |s.workers| ==> s.workers[w].Idle?
  }

  /** The requests that were applied, one after the other in lock order. */
  function Replay(cfg: Config, device: Device, history: seq<Entry>): Device {
    if history == [] then device
    else
      var n := |history| - 1;
      var before, job := Replay(cfg, device, history[..n]), history[n].job;
      if history[n].status == Applied then
        var p := job.tenant.name;
        before[p := Next(cfg, job.tenant, job.isDelete, At(before, p), job.delta)]
      else before
  }

  predicate InSection(p: Phase) {
    p.Locked? || p.Read? || p.Leaving?
  }

  /** At most one worker is in the section; what it read is still what the device holds. */
  predicate LockInvariant(cfg: Config, device0: Device, s: State) {
    && (forall w :: 0 <= w < |s.workers| && InSection(s.workers[w]) ==> s.holder == Some(w))
    && (s.holder.Some? ==> s.holder.value < |s.workers| && InSection(s.workers[s.holder.value]) && s.history != [])
    && (forall i :: 0 <= i < |s.history| && s.history[i].status == Pending ==>
          i == |s.history| - 1 && s.holder.Some? && !s.workers[s.holder.value].Leaving?)
    && (s.holder.Some? && !s.workers[s.holder.value].Leaving? ==>
          s.history[|s.history| - 1] == Entry(s.workers[s.holder.value].job, Pending))
    && (s.holder.Some? && s.workers[s.holder.value].Read? ==>
          s.workers[s.holder.value].src == At(s.device, s.workers[s.holder.value].job.tenant.name))
    && s.device == Replay(cfg, device0, s.history)
  }

  lemma SettleReplay(cfg: Config, device0: Device, history: seq<Entry>, status: Status)
    requires history != [] && history[|history| - 1].status == Pending && status != Pending
    ensures var job := history[|history| - 1].job;
            var before := Replay(cfg, device0, history);
            Replay(cfg, device0, Settle(history, status))
            == if status == Applied
               then before[job.tenant.name :=
                             Next(cfg, job.tenant, job.isDelete, At(before, job.tenant.name), job.delta)]
               else before
  {
    hide Next;
    var n := |history| - 1;
    assert Settle(history, status)[..n] == history[..n];
  }

  lemma PendingReplay(cfg: Config, device0: Device, history: seq<Entry>, job: Job)
    ensures Replay(cfg, device0, history + [Entry(job, Pending)]) == Replay(cfg, device0, history)
  {
    hide Next;
    assert (history + [Entry(job, Pending)])[..|history|] == history;
  }

  /** Every step of every worker keeps the device equal to the sequential replay. */
  lemma StepConsistent(cfg: Config, device0: Device, s: State, step: Step)
    requires LockInvariant(cfg, device0, s) && Enabled(s, step)
    ensures LockInvariant(cfg, device0, Do(cfg, s, step))
  {
    hide Next, Replay, Panics;
    match step
    case Submit(w, job) =>
    case Lock(w) => PendingReplay(cfg, device0, s.history, s.workers[w].job);
    case Get(w, getOk) =>
      if !getOk {
        SettleReplay(cfg, device0, s.history, Dropped);
      }
    case Send(w, postOk) =>
      SettleReplay(cfg, device0, s.history, Applied);
      SettleReplay(cfg, device0, s.history, Dropped);
      SendIsNext(cfg, s.device, s.workers[w].job, s.workers[w].src);
    case Unlock(w) =>
  }

  /** Not posting is the same as posting what is there. */
  lemma SendIsNext(cfg: Config, device: Device, job: Job, src: Option<App>)
    requires src == At(device, job.tenant.name)
    ensures var p := job.tenant.name;
            match Answered(cfg, job.tenant, job.isDelete, src, job.delta)
            case NoPost => device == device[p := Next(cfg, job.tenant, job.isDelete, src, job.delta)]
            case Post(shared) => shared == Next(cfg, job.tenant, job.isDelete, src, job.delta)
  {
    hide Merge, IsDiff;
  }

  lemma {:induction false} RunConsistent(cfg: Config, device0: Device, start: State, steps: seq<Step>, end: State)
    requires LockInvariant(cfg, device0, start) && Reaches(cfg, start, steps, end)
    ensures LockInvariant(cfg, device0, end)
    decreases |steps|
  {
    hide LockInvariant, Do, Enabled;
    if steps != [] {
      StepConsistent(cfg, device0, start, steps[0]);
      RunConsistent(cfg, device0, Do(cfg, start, steps[0]), steps[1..], end);
    }
  }

  /**
   * For any number of workers and any interleaving, the device holds what the applied requests give one after
   * the other in the order in which they obtained the lock: no request overwrites another.
   */
  lemma Serializable(cfg: Config, start: State, steps: seq<Step>, end: State)
    requires Initial(start) && Reaches(cfg, start, steps, end)
    ensures end.device == Replay(cfg, start.device, end.history)
    ensures forall w, w' :: 0 <= w < w' < |end.workers| ==> !(InSection(end.workers[w]) && InSection(end.workers[w']))
  {
    hide Replay, Reaches;
    assert Replay(cfg, start.device, []) == start.device by { ReplayNothing(cfg, start.device); }
    RunConsistent(cfg, start.device, start, steps, end);
  }

  lemma ReplayNothing(cfg: Config, device: Device)
    ensures Replay(cfg, device, []) == device
  {
  }

  // ----- good states under concurrency -----

  /** Each partition of the device belongs to a tenant and is in good order. */
  ghost predicate GoodDevice(cfg: Config, tenants: map<string, Tenant>, device: Device) {
    forall p :: p in tenants ==>
      tenants[p].name == p && ValidTenant(cfg, tenants[p]) && GoodState(cfg, tenants[p], At(device, p))
  }

  /** Each applied request was admissible where it was applied. */
  ghost predicate AdmissibleHistory(cfg: Config, tenants: map<string, Tenant>, device: Device, history: seq<Entry>) {
    forall i :: 0 <= i < |history| && history[i].status == Applied ==>
      var job := history[i].job;
      && job.tenant.name in tenants && tenants[job.tenant.name] == job.tenant
      && Admissible(cfg, job.tenant, At(Replay(cfg, device, history[..i]), job.tenant.name),
           Sync(job.isDelete, job.delta))
  }

  lemma {:induction false} ReplayIsGood(cfg: Config, tenants: map<string, Tenant>, device: Device, history: seq<Entry>)
    requires GoodDevice(cfg, tenants, device) && AdmissibleHistory(cfg, tenants, device, history)
    ensures GoodDevice(cfg, tenants, Replay(cfg, device, history))
  {
    hide Next, GoodState, ValidTenant, WellFormed, Covers;
    if history != [] {
      var n := |history| - 1;
      forall i | 0 <= i < n && history[..n][i].status == Applied
        ensures var job := history[..n][i].job;
                && job.tenant.name in tenants && tenants[job.tenant.name] == job.tenant
                && Admissible(cfg, job.tenant, At(Replay(cfg, device, history[..n][..i]), job.tenant.name),
                              Sync(job.isDelete, job.delta))
      {
        assert history[..n][..i] == history[..i] && history[..n][i] == history[i];
      }
      ReplayIsGood(cfg, tenants, device, history[..n]);
      if history[n].status == Applied {
        var job := history[n].job;
        NextIsGood(cfg, job.tenant, At(Replay(cfg, device, history[..n]), job.tenant.name),
          Sync(job.isDelete, job.delta));
      }
    }
  }

  /** Each applied request was made from rules of its tenant; a delete took along the users of its source lists. */
  ghost predicate RuleHistory(cfg: Config, tenants: map<string, Tenant>, device: Device, history: seq<Entry>) {
    forall i :: 0 <= i < |history| && history[i].status == Applied ==>
      var job := history[i].job;
      && job.tenant.name in tenants && tenants[job.tenant.name] == job.tenant
      && RuleSync(cfg, job.tenant, At(Replay(cfg, device, history[..i]), job.tenant.name),
                  Sync(job.isDelete, job.delta))
  }

  lemma {:induction false} RulesReplayIsGood(cfg: Config, tenants: map<string, Tenant>, device: Device,
                                             history: seq<Entry>)
    requires GoodDevice(cfg, tenants, device) && RuleHistory(cfg, tenants, device, history)
    ensures GoodDevice(cfg, tenants, Replay(cfg, device, history))
  {
    hide Next, GoodState, ValidTenant, WellFormed, RuleSync;
    if history != [] {
      var n := |history| - 1;
      assert forall i :: 0 <= i < n ==> history[..n][..i] == history[..i] && history[..n][i] == history[i];
      RulesReplayIsGood(cfg, tenants, device, history[..n]);
      if history[n].status == Applied {
        var job, before := history[n].job, Replay(cfg, device, history[..n]);
        var sync := Sync(job.isDelete, job.delta);
        RuleSyncAdmissible(cfg, job.tenant, At(before, job.tenant.name), sync);
        hide Admissible;
        RuleSyncIsWellFormed(cfg, job.tenant, At(before, job.tenant.name), sync);
        NextIsGood(cfg, job.tenant, At(before, job.tenant.name), sync);
      }
    }
  }

  lemma RuleSyncIsWellFormed(cfg: Config, t: Tenant, src: Option<App>, sync: Sync)
    requires Admissible(cfg, t, src, sync)
    ensures WellFormed(cfg, t, sync.delta)
  {
  }

  /** Concurrent requests made from rules keep every partition in good order. */
  lemma ConcurrentRulesAreGood(cfg: Config, tenants: map<string, Tenant>, start: State, steps: seq<Step>, end: State)
    requires Initial(start) && Reaches(cfg, start, steps, end)
    requires GoodDevice(cfg, tenants, start.device) && RuleHistory(cfg, tenants, start.device, end.history)
    ensures GoodDevice(cfg, tenants, end.device)
  {
    hide GoodDevice, RuleHistory, Reaches, Replay;
    Serializable(cfg, start, steps, end);
    RulesReplayIsGood(cfg, tenants, start.device, end.history);
  }

  /** Concurrent admissible requests keep every partition in good order. */
  lemma ConcurrentRunsAreGood(cfg: Config, tenants: map<string, Tenant>, start: State, steps: seq<Step>, end: State)
    requires Initial(start) && Reaches(cfg, start, steps, end)
    requires GoodDevice(cfg, tenants, start.device) && AdmissibleHistory(cfg, tenants, start.device, end.history)
    ensures GoodDevice(cfg, tenants, end.device)
  {
    hide GoodDevice, AdmissibleHistory, Reaches, Replay;
    Serializable(cfg, start, steps, end);
    ReplayIsGood(cfg, tenants, start.device, end.history);
  }
}
