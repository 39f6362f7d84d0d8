/** Any number of duplicate webhook requests against the map: arriving, waiting for the
    attempt in flight, retrying it when it was cancelled. */
module WebhookDuplicates {
  import opened Basics
  import opened WebhookIdempotency

  /** One submission. `after` is the cancelled attempt it retries. */
  datatype Execution = Execution(
    identity: Identity, body: Body, attempt: nat, conversation: Conversation,
    after: Option<nat>, outcome: Option<Status>)

  datatype Request = Request(identity: Identity, body: Body)

  /** A duplicate that waits for the completion of an attempt. */
  datatype Waiter = Waiter(request: Request, prior: nat)

  datatype World = World(entries: Entries, executions: seq<Execution>, waiters: map<nat, Waiter>)

  /** What the surroundings decide at a step: the clock, which entries go, whether the
      client is still there and whether the status store takes another request. */
  datatype Env = Env(cutoff: int, victims: set<Identity>, gone: bool, statusRoom: bool, now: int)

  datatype Action =
    | Arrive(waiter: nat, request: Request, env: Env)
    | Wake(waiter: nat, env: Env)
    | Settle(execution: nat, status: Status)
    | MarkTerminal(identity: Identity, now: int)
    | PruneNow(cutoff: int)

  const INITIAL := World(map[], [], map[])

  function ModeOf(request: Request): Mode {
    if request.body.mode.Some? then request.body.mode.value else request.identity.route.mode
  }

  function ConversationOf(request: Request, attempt: nat, retried: Option<Conversation>): Conversation {
    if request.body.conversationId.Some? then Given(request.body.conversationId.value)
    else if retried.Some? then retried.value
    else Derived(request.identity, attempt)
  }

  /** `beginSubmission` and `rememberIdempotentRequest`, in one synchronous stretch. An async
      request for which the status store is full is refused instead. */
  function Begin(w: World, request: Request, attempt: nat, retried: Option<Conversation>, after: Option<nat>,
      env: Env): World {
    var mode, conversation := ModeOf(request), ConversationOf(request, attempt, retried);
    if mode == Async && !env.statusRoom then w
    else w.(
      executions := w.executions + [Execution(request.identity, request.body, attempt, conversation, after, None)],
      entries := w.entries[request.identity := Entry(request.body, attempt, conversation, mode, |w.executions|, None,
        env.now)])
  }

  function Retry(w: World, request: Request, prior: Entry, env: Env): World {
    if env.gone || prior.attempt >= MAX_IDEMPOTENT_ATTEMPTS then w
    else Begin(w, request, prior.attempt + 1, Some(prior.conversation), Some(prior.execution), env)
  }

  function Without(w: World, victims: set<Identity>): World {
    w.(entries := w.entries - victims)
  }

  /** One turn of the loop, up to its next await or its end. */
  ghost function Decide(w: World, n: nat, request: Request, maximum: nat, env: Env): World {
    if request.identity !in w.entries then
      if MakesRoom(w.entries, env.victims, maximum, true) then
        Begin(Without(w, env.victims), request, 1, None, None, env)
      else if MakesRoom(w.entries, env.victims, maximum, false) then Without(w, env.victims)
      else w
    else
      var prior := w.entries[request.identity];
      if prior.body != request.body then w
      else if prior.mode == Sync then w.(waiters := w.waiters[n := Waiter(request, prior.execution)])
      else if prior.terminal != Some(Cancelled) then w
      else Retry(w, request, prior, env)
  }

  /** A waiter goes on when the completion it waits for has settled. */
  ghost function Awake(w: World, n: nat, maximum: nat, env: Env): World
    requires n in w.waiters
  {
    var waiter := w.waiters[n];
    if waiter.prior >= |w.executions| || w.executions[waiter.prior].outcome.None? then w
    else
      var request, v := waiter.request, w.(waiters := w.waiters - {n});
      if w.executions[waiter.prior].outcome.value != Cancelled || env.gone then v
      else if request.identity !in v.entries || v.entries[request.identity].execution != waiter.prior
      then Decide(v, n, request, maximum, env)
      else Retry(v, request, v.entries[request.identity], env)
  }

  function Settled(w: World, x: nat, status: Status): World
    requires x < |w.executions|
  {
    w.(executions := w.executions[x := w.executions[x].(outcome := Some(status))])
  }

  predicate KnowsOutcome(w: World, k: Identity) {
    k in w.entries && w.entries[k].execution < |w.executions| && w.executions[w.entries[k].execution].outcome.Some?
  }

  function Marked(w: World, k: Identity, now: int): World
    requires KnowsOutcome(w, k)
  {
    var outcome := w.executions[w.entries[k].execution].outcome;
    w.(entries := w.entries[k := w.entries[k].(terminal := outcome, updatedAtMs := now)])
  }

  /** A step that does not apply changes nothing. An entry learns its outcome some time
      after the execution has settled. */
  ghost function Next(w: World, a: Action, maximum: nat): World {
    match a
    case Arrive(n, request, env) =>
      if n in w.waiters then w else Decide(w.(entries := Pruned(w.entries, env.cutoff)), n, request, maximum, env)
    case Wake(n, env) => if n in w.waiters then Awake(w, n, maximum, env) else w
    case Settle(x, status) =>
      if x < |w.executions| && w.executions[x].outcome.None?
      then Settled(w, x, status) else w
    case MarkTerminal(k, now) =>
      if KnowsOutcome(w, k) then Marked(w, k, now) else w
    case PruneNow(cutoff) => w.(entries := Pruned(w.entries, cutoff))
  }

  ghost function Exec(actions: seq<Action>, maximum: nat): World {
    if actions == [] then INITIAL else Next(Exec(actions[..|actions| - 1], maximum), actions[|actions| - 1], maximum)
  }

  // ---------- invariant ----------

  /** An entry is about one execution of its identity and knows at most its outcome. */
  predicate EntryInv(w: World, k: Identity)
    requires k in w.entries
  {
    var e := w.entries[k];
    && e.execution < |w.executions|
    && var x := w.executions[e.execution];
      && x.identity == k && x.body == e.body && x.attempt == e.attempt && x.conversation == e.conversation
      && e.mode == ModeOf(Request(k, e.body))
      && (e.terminal.Some? ==> e.terminal == x.outcome)
  }

  /** An execution in flight is the one its identity's entry is about. */
  predicate Retained(w: World, x: nat)
    requires x < |w.executions|
  {
    var k := w.executions[x].identity;
    w.executions[x].outcome.None? ==> k in w.entries && w.entries[k].execution == x
  }

  predicate BodyConversation(e: Execution) {
    e.body.conversationId.Some? ==> e.conversation == Given(e.body.conversationId.value)
  }

  /** The retry of a cancelled attempt continues it. */
  predicate Continues(y: Execution, x: Execution) {
    && x.outcome == Some(Cancelled) && y.identity == x.identity && y.body == x.body
    && y.conversation == x.conversation && y.attempt == x.attempt + 1
  }

  predicate ExecutionInv(w: World, y: nat)
    requires y < |w.executions|
  {
    var e := w.executions[y];
    && BodyConversation(e) && 1 <= e.attempt <= MAX_IDEMPOTENT_ATTEMPTS
    && (e.after.None? ==> e.attempt == 1)
    && (e.after.Some? ==> e.after.value < y && Continues(e, w.executions[e.after.value]))
  }

  /** An attempt that has been retried is out of the map for good. */
  predicate RetriedOnce(w: World, y: nat)
    requires y < |w.executions|
  {
    var after := w.executions[y].after;
    after.Some? ==>
      && (forall k :: k in w.entries ==> w.entries[k].execution != after.value)
      && (forall z :: 0 <= z < |w.executions| && w.executions[z].after == after ==> z == y)
  }

  predicate WaiterInv(w: World, n: nat)
    requires n in w.waiters
  {
    var waiter := w.waiters[n];
    waiter.prior < |w.executions|
    && w.executions[waiter.prior].identity == waiter.request.identity
    && w.executions[waiter.prior].body == waiter.request.body
  }

  ghost predicate Inv(w: World, maximum: nat) {
    && (forall k :: k in w.entries ==> EntryInv(w, k))
    && (forall x :: 0 <= x < |w.executions| ==> Retained(w, x) && ExecutionInv(w, x) && RetriedOnce(w, x))
    && (forall n :: n in w.waiters ==> WaiterInv(w, n))
    && |w.entries| <= maximum
  }

  // ---------- every step keeps the invariant ----------

  /** Only entries that know their outcome go. */
  ghost predicate Shrunk(m: Entries, smaller: Entries) {
    && smaller.Keys <= m.Keys
    && (forall k :: k in smaller ==> smaller[k] == m[k])
    && (forall k :: k in m && k !in smaller ==> m[k].terminal.Some?)
  }

  lemma ShrinkKeepsInv(w: World, smaller: Entries, maximum: nat)
    requires Inv(w, maximum) && Shrunk(w.entries, smaller)
    ensures Inv(w.(entries := smaller), maximum)
  {
    var v := w.(entries := smaller);
    forall k | k in v.entries ensures EntryInv(v, k) { assert EntryInv(w, k); }
    forall x | 0 <= x < |v.executions| ensures Retained(v, x) && ExecutionInv(v, x) && RetriedOnce(v, x) {
      assert Retained(w, x) && ExecutionInv(w, x) && RetriedOnce(w, x);
      var k := w.executions[x].identity;
      if k in w.entries { assert EntryInv(w, k); }
    }
    forall n | n in v.waiters ensures WaiterInv(v, n) { assert WaiterInv(w, n); }
    SubsetSize(smaller.Keys, w.entries.Keys);
  }

  lemma EvictionShrinks(m: Entries, victims: set<Identity>, maximum: nat, ok: bool)
    requires MakesRoom(m, victims, maximum, ok)
    ensures Shrunk(m, m - victims) && (ok ==> |m - victims| < maximum)
  {
    assert (m - victims).Keys == m.Keys - victims;
  }

  /** Why an execution may begin: nothing is known of its identity, or the attempt the map
      knows was cancelled and this is the next. */
  ghost predicate MayBegin(w: World, request: Request, attempt: nat, retried: Option<Conversation>,
      after: Option<nat>) {
    var k := request.identity;
    if k in w.entries then
      var e := w.entries[k];
      && after == Some(e.execution)
      && e.execution < |w.executions| && w.executions[e.execution].outcome == Some(Cancelled)
      && e.body == request.body && retried == Some(e.conversation)
      && attempt == e.attempt + 1 <= MAX_IDEMPOTENT_ATTEMPTS
    else after.None? && attempt == 1 && retried.None?
  }

  /** No execution of the identity is in flight, and none has retried the same attempt. */
  lemma NoneInFlight(w: World, request: Request, attempt: nat, retried: Option<Conversation>, after: Option<nat>,
      maximum: nat, x: nat)
    requires Inv(w, maximum) && MayBegin(w, request, attempt, retried, after) && x < |w.executions|
    ensures w.executions[x].identity == request.identity ==> w.executions[x].outcome.Some?
    ensures after.Some? ==> w.executions[x].after != after
  {
    assert Retained(w, x) && RetriedOnce(w, x);
  }

  lemma BeginKeepsInv(w: World, request: Request, attempt: nat, retried: Option<Conversation>, after: Option<nat>,
      env: Env, maximum: nat)
    requires Inv(w, maximum) && MayBegin(w, request, attempt, retried, after)
    requires request.identity in w.entries || |w.entries| < maximum
    ensures Inv(Begin(w, request, attempt, retried, after, env), maximum)
  {
    hide Inv, MayBegin;
    var v := Begin(w, request, attempt, retried, after, env);
    if v != w {
      BeginEntries(w, request, attempt, retried, after, env, maximum);
      BeginExecutions(w, request, attempt, retried, after, env, maximum);
      BeginRest(w, request, attempt, retried, after, env, maximum);
      Assemble(v, maximum);
    }
  }

  lemma Assemble(w: World, maximum: nat)
    requires forall k :: k in w.entries ==> EntryInv(w, k)
    requires forall x :: 0 <= x < |w.executions| ==> Retained(w, x) && ExecutionInv(w, x) && RetriedOnce(w, x)
    requires forall n :: n in w.waiters ==> WaiterInv(w, n)
    requires |w.entries| <= maximum
    ensures Inv(w, maximum)
  {
  }

  lemma BeginEntries(w: World, request: Request, attempt: nat, retried: Option<Conversation>, after: Option<nat>,
      env: Env, maximum: nat)
    requires Inv(w, maximum) && Begin(w, request, attempt, retried, after, env) != w
    ensures var v := Begin(w, request, attempt, retried, after, env); forall k :: k in v.entries ==> EntryInv(v, k)
  {
    var v := Begin(w, request, attempt, retried, after, env);
    forall k | k in v.entries ensures EntryInv(v, k) {
      if k != request.identity { assert EntryInv(w, k); }
    }
  }

  lemma BeginExecutions(w: World, request: Request, attempt: nat, retried: Option<Conversation>, after: Option<nat>,
      env: Env, maximum: nat)
    requires Inv(w, maximum) && MayBegin(w, request, attempt, retried, after)
    requires Begin(w, request, attempt, retried, after, env) != w
    ensures var v := Begin(w, request, attempt, retried, after, env);
      forall x :: 0 <= x < |v.executions| ==> Retained(v, x) && ExecutionInv(v, x) && RetriedOnce(v, x)
  {
    hide Inv, MayBegin, ConversationOf;
    var v := Begin(w, request, attempt, retried, after, env);
    forall x | 0 <= x < |v.executions| ensures Retained(v, x) && ExecutionInv(v, x) && RetriedOnce(v, x) {
      if x < |w.executions| {
        OldExecution(w, request, attempt, retried, after, env, maximum, x);
      } else {
        NewExecution(w, request, attempt, retried, after, env, maximum);
      }
    }
  }

  lemma OldExecution(
      w: World, request: Request, attempt: nat, retried: Option<Conversation>, after: Option<nat>, env: Env,
      maximum: nat, x: nat)
    requires Inv(w, maximum) && MayBegin(w, request, attempt, retried, after)
    requires Begin(w, request, attempt, retried, after, env) != w && x < |w.executions|
    ensures var v := Begin(w, request, attempt, retried, after, env);
      Retained(v, x) && ExecutionInv(v, x) && RetriedOnce(v, x)
  {
    hide MayBegin, ConversationOf, ModeOf, EntryInv, WaiterInv, BodyConversation, Continues;
    NoneInFlight(w, request, attempt, retried, after, maximum, x);
    assert Retained(w, x) && ExecutionInv(w, x);
    OldRetry(w, request, attempt, retried, after, env, maximum, x);
  }

  lemma OldRetry(
      w: World, request: Request, attempt: nat, retried: Option<Conversation>, after: Option<nat>, env: Env,
      maximum: nat, x: nat)
    requires Inv(w, maximum) && MayBegin(w, request, attempt, retried, after)
    requires Begin(w, request, attempt, retried, after, env) != w && x < |w.executions|
    ensures RetriedOnce(Begin(w, request, attempt, retried, after, env), x)
  {
    hide MayBegin, ConversationOf, ModeOf, EntryInv, WaiterInv, BodyConversation, Continues, Retained;
    NoneInFlight(w, request, attempt, retried, after, maximum, x);
    assert ExecutionInv(w, x) && RetriedOnce(w, x);
  }

  lemma NewExecution(w: World, request: Request, attempt: nat, retried: Option<Conversation>, after: Option<nat>,
      env: Env, maximum: nat)
    requires Inv(w, maximum) && MayBegin(w, request, attempt, retried, after)
    requires Begin(w, request, attempt, retried, after, env) != w
    ensures var v, x := Begin(w, request, attempt, retried, after, env), |w.executions|;
      x < |v.executions| && Retained(v, x) && ExecutionInv(v, x) && RetriedOnce(v, x)
  {
    var v, y := Begin(w, request, attempt, retried, after, env), |w.executions|;
    if after.Some? {
      var x := after.value;
      assert EntryInv(w, request.identity) && ExecutionInv(w, x);
      assert Continues(v.executions[y], v.executions[x]);
      forall k | k in v.entries ensures v.entries[k].execution != x {
        if k != request.identity { assert EntryInv(w, k); }
      }
      forall z | 0 <= z < |v.executions| && v.executions[z].after == after ensures z == y {
        if z < |w.executions| { NoneInFlight(w, request, attempt, retried, after, maximum, z); }
      }
    }
  }

  lemma BeginRest(w: World, request: Request, attempt: nat, retried: Option<Conversation>, after: Option<nat>,
      env: Env, maximum: nat)
    requires Inv(w, maximum) && (request.identity in w.entries || |w.entries| < maximum)
    requires Begin(w, request, attempt, retried, after, env) != w
    ensures var v := Begin(w, request, attempt, retried, after, env);
      (forall n :: n in v.waiters ==> WaiterInv(v, n)) && |v.entries| <= maximum
  {
    hide EntryInv, Retained, ExecutionInv, RetriedOnce, ModeOf, ConversationOf;
    var v := Begin(w, request, attempt, retried, after, env);
    forall n | n in v.waiters ensures WaiterInv(v, n) { assert WaiterInv(w, n); }
    OneMore(w.entries, request.identity, v.entries[request.identity]);
  }

  lemma OneMore(m: Entries, k: Identity, e: Entry)
    ensures |m[k := e]| == if k in m then |m| else |m| + 1
  {
    assert m[k := e].Keys == m.Keys + {k};
  }

  lemma RetryKeepsInv(w: World, request: Request, env: Env, maximum: nat)
    requires Inv(w, maximum) && request.identity in w.entries && w.entries[request.identity].body == request.body
    requires var x := w.entries[request.identity].execution;
      x < |w.executions| && w.executions[x].outcome == Some(Cancelled)
    ensures Inv(Retry(w, request, w.entries[request.identity], env), maximum)
  {
    hide Inv, Begin;
    var e := w.entries[request.identity];
    if !env.gone && e.attempt < MAX_IDEMPOTENT_ATTEMPTS {
      assert MayBegin(w, request, e.attempt + 1, Some(e.conversation), Some(e.execution));
      BeginKeepsInv(w, request, e.attempt + 1, Some(e.conversation), Some(e.execution), env, maximum);
    }
  }

  lemma FirstKeepsInv(w: World, n: nat, request: Request, maximum: nat, env: Env)
    requires Inv(w, maximum) && request.identity !in w.entries
    ensures Inv(Decide(w, n, request, maximum, env), maximum)
  {
    hide Inv, MakesRoom;
    if MakesRoom(w.entries, env.victims, maximum, true) {
      EvictionShrinks(w.entries, env.victims, maximum, true);
      ShrinkKeepsInv(w, w.entries - env.victims, maximum);
      BeginKeepsInv(Without(w, env.victims), request, 1, None, None, env, maximum);
    } else if MakesRoom(w.entries, env.victims, maximum, false) {
      EvictionShrinks(w.entries, env.victims, maximum, false);
      ShrinkKeepsInv(w, w.entries - env.victims, maximum);
    }
  }

  lemma WaitKeepsInv(w: World, n: nat, request: Request, maximum: nat)
    requires Inv(w, maximum) && request.identity in w.entries && w.entries[request.identity].body == request.body
    ensures Inv(w.(waiters := w.waiters[n := Waiter(request, w.entries[request.identity].execution)]), maximum)
  {
    var v := w.(waiters := w.waiters[n := Waiter(request, w.entries[request.identity].execution)]);
    SameBut(w, v, maximum);
    assert EntryInv(w, request.identity);
    forall m | m in v.waiters ensures WaiterInv(v, m) {
      if m != n { assert WaiterInv(w, m); }
    }
    Assemble(v, maximum);
  }

  /** A change of the waiters alone. */
  lemma SameBut(w: World, v: World, maximum: nat)
    requires Inv(w, maximum) && v.entries == w.entries && v.executions == w.executions
    ensures forall k :: k in v.entries ==> EntryInv(v, k)
    ensures forall x :: 0 <= x < |v.executions| ==> Retained(v, x) && ExecutionInv(v, x) && RetriedOnce(v, x)
  {
    forall k | k in v.entries ensures EntryInv(v, k) { assert EntryInv(w, k); }
    forall x | 0 <= x < |v.executions| ensures Retained(v, x) && ExecutionInv(v, x) && RetriedOnce(v, x) {
      assert Retained(w, x) && ExecutionInv(w, x) && RetriedOnce(w, x);
    }
  }

  lemma EntryAt(w: World, k: Identity, maximum: nat)
    requires Inv(w, maximum) && k in w.entries
    ensures EntryInv(w, k)
  {
  }

  lemma DecideKeepsInv(w: World, n: nat, request: Request, maximum: nat, env: Env)
    requires Inv(w, maximum)
    ensures Inv(Decide(w, n, request, maximum, env), maximum)
  {
    hide Inv, Begin, Retry;
    if request.identity !in w.entries {
      FirstKeepsInv(w, n, request, maximum, env);
    } else if w.entries[request.identity].body == request.body {
      EntryAt(w, request.identity, maximum);
      if w.entries[request.identity].mode == Sync {
        WaitKeepsInv(w, n, request, maximum);
      } else if w.entries[request.identity].terminal == Some(Cancelled) {
        RetryKeepsInv(w, request, env, maximum);
      }
    }
  }

  lemma ForgetKeepsInv(w: World, n: nat, maximum: nat)
    requires Inv(w, maximum)
    ensures Inv(w.(waiters := w.waiters - {n}), maximum)
  {
    var v := w.(waiters := w.waiters - {n});
    SameBut(w, v, maximum);
    forall m | m in v.waiters ensures WaiterInv(v, m) { assert WaiterInv(w, m); }
    Assemble(v, maximum);
  }

  lemma AwakeKeepsInv(w: World, n: nat, maximum: nat, env: Env)
    requires Inv(w, maximum) && n in w.waiters
    ensures Inv(Awake(w, n, maximum, env), maximum)
  {
    hide Inv, Begin, Retry, Decide;
    ForgetKeepsInv(w, n, maximum);
    WaiterAt(w, n, maximum);
    var waiter, v := w.waiters[n], w.(waiters := w.waiters - {n});
    var request := waiter.request;
    if w.executions[waiter.prior].outcome == Some(Cancelled) && !env.gone {
      if request.identity !in v.entries || v.entries[request.identity].execution != waiter.prior {
        DecideKeepsInv(v, n, request, maximum, env);
      } else {
        EntryAt(w, request.identity, maximum);
        RetryKeepsInv(v, request, env, maximum);
      }
    }
  }

  lemma WaiterAt(w: World, n: nat, maximum: nat)
    requires Inv(w, maximum) && n in w.waiters
    ensures WaiterInv(w, n)
  {
  }

  lemma SettledExecution(w: World, x: nat, status: Status, maximum: nat, y: nat)
    requires Inv(w, maximum) && x < |w.executions| && w.executions[x].outcome.None? && y < |w.executions|
    ensures var v := Settled(w, x, status); Retained(v, y) && ExecutionInv(v, y) && RetriedOnce(v, y)
  {
    hide EntryInv, WaiterInv;
    assert Retained(w, y) && ExecutionInv(w, y) && RetriedOnce(w, y);
  }

  lemma SettledEntry(w: World, x: nat, status: Status, k: Identity)
    requires x < |w.executions| && w.executions[x].outcome.None? && k in w.entries && EntryInv(w, k)
    ensures EntryInv(Settled(w, x, status), k)
  {
    hide ModeOf;
  }

  lemma SettledWaiter(w: World, x: nat, status: Status, n: nat)
    requires x < |w.executions| && n in w.waiters && WaiterInv(w, n)
    ensures WaiterInv(Settled(w, x, status), n)
  {
  }

  lemma SettleKeepsInv(w: World, x: nat, status: Status, maximum: nat)
    requires Inv(w, maximum) && x < |w.executions| && w.executions[x].outcome.None?
    ensures Inv(Settled(w, x, status), maximum)
  {
    hide EntryInv, WaiterInv, Retained, ExecutionInv, RetriedOnce;
    var v := Settled(w, x, status);
    forall k | k in v.entries ensures EntryInv(v, k) { SettledEntry(w, x, status, k); }
    forall y | 0 <= y < |v.executions| ensures Retained(v, y) && ExecutionInv(v, y) && RetriedOnce(v, y) {
      SettledExecution(w, x, status, maximum, y);
    }
    forall n | n in v.waiters ensures WaiterInv(v, n) { SettledWaiter(w, x, status, n); }
    Assemble(v, maximum);
  }

  lemma MarkedEntry(w: World, k: Identity, now: int, j: Identity)
    requires KnowsOutcome(w, k) && j in w.entries && EntryInv(w, j)
    ensures j in Marked(w, k, now).entries && EntryInv(Marked(w, k, now), j)
  {
    hide ModeOf;
  }

  lemma MarkedExecutions(w: World, v: World, maximum: nat)
    requires Inv(w, maximum) && v.executions == w.executions && v.entries.Keys == w.entries.Keys
    requires forall j :: j in v.entries ==> v.entries[j].execution == w.entries[j].execution
    ensures forall y :: 0 <= y < |v.executions| ==> Retained(v, y) && ExecutionInv(v, y) && RetriedOnce(v, y)
  {
    forall y | 0 <= y < |v.executions| ensures Retained(v, y) && ExecutionInv(v, y) && RetriedOnce(v, y) {
      assert Retained(w, y) && ExecutionInv(w, y) && RetriedOnce(w, y);
    }
  }

  lemma MarkKeepsInv(w: World, k: Identity, now: int, maximum: nat)
    requires Inv(w, maximum) && KnowsOutcome(w, k)
    ensures Inv(Marked(w, k, now), maximum)
  {
    hide EntryInv, Retained, ExecutionInv, RetriedOnce;
    var v := Marked(w, k, now);
    assert v.entries.Keys == w.entries.Keys;
    forall j | j in v.entries ensures EntryInv(v, j) { MarkedEntry(w, k, now, j); }
    MarkedExecutions(w, v, maximum);
    forall n | n in v.waiters ensures WaiterInv(v, n) { assert WaiterInv(w, n); }
    Assemble(v, maximum);
  }

  lemma NextKeepsInv(w: World, a: Action, maximum: nat)
    requires Inv(w, maximum)
    ensures Inv(Next(w, a, maximum), maximum)
  {
    hide Inv, Decide, Awake;
    match a {
      case Arrive(n, request, env) =>
        if n !in w.waiters {
          ShrinkKeepsInv(w, Pruned(w.entries, env.cutoff), maximum);
          DecideKeepsInv(w.(entries := Pruned(w.entries, env.cutoff)), n, request, maximum, env);
        }
      case Wake(n, env) => if n in w.waiters { AwakeKeepsInv(w, n, maximum, env); }
      case Settle(x, status) =>
        if x < |w.executions| && w.executions[x].outcome.None? { SettleKeepsInv(w, x, status, maximum); }
      case MarkTerminal(k, now) => if KnowsOutcome(w, k) { MarkKeepsInv(w, k, now, maximum); }
      case PruneNow(cutoff) =>
        ShrinkKeepsInv(w, Pruned(w.entries, cutoff), maximum);
    }
  }

  lemma {:induction false} RunKeepsInv(actions: seq<Action>, maximum: nat)
    ensures Inv(Exec(actions, maximum), maximum)
  {
    if actions != [] {
      RunKeepsInv(actions[..|actions| - 1], maximum);
      NextKeepsInv(Exec(actions[..|actions| - 1], maximum), actions[|actions| - 1], maximum);
    }
  }

  // ---------- theorems over every interleaving ----------

  /** One route and key never has two unfinished executions. */
  lemma SingleLiveAttempt(actions: seq<Action>, maximum: nat, x: nat, y: nat)
    ensures var w := Exec(actions, maximum);
      (&& x < |w.executions| && y < |w.executions| && w.executions[x].identity == w.executions[y].identity
       && w.executions[x].outcome.None? && w.executions[y].outcome.None?) ==> x == y
  {
    hide Exec;
    var w := Exec(actions, maximum);
    RunKeepsInv(actions, maximum);
    if x < |w.executions| && y < |w.executions| {
      assert Retained(w, x) && Retained(w, y);
    }
  }

  /** However many duplicates waited for a cancelled attempt, at most one retried it; its
      retry has the next number and the same body and conversation. */
  lemma RetriedByOne(actions: seq<Action>, maximum: nat, y: nat, z: nat)
    ensures var w := Exec(actions, maximum);
      y < |w.executions| && w.executions[y].after.Some? ==>
      (&& w.executions[y].after.value < y && Continues(w.executions[y], w.executions[w.executions[y].after.value])
       && (z < |w.executions| && w.executions[z].after == w.executions[y].after ==> z == y))
  {
    hide Exec;
    var w := Exec(actions, maximum);
    RunKeepsInv(actions, maximum);
    if y < |w.executions| {
      assert ExecutionInv(w, y) && RetriedOnce(w, y);
    }
  }

  /** The map stays within its capacity, and an execution in flight keeps its entry: it is
      never pruned, evicted or replaced. */
  lemma BoundedAndRetained(actions: seq<Action>, maximum: nat, x: nat)
    ensures var w := Exec(actions, maximum);
      && |w.entries| <= maximum
      && (x < |w.executions| && w.executions[x].outcome.None? ==>
          w.executions[x].identity in w.entries && w.entries[w.executions[x].identity].execution == x)
  {
    hide Exec;
    var w := Exec(actions, maximum);
    RunKeepsInv(actions, maximum);
    if x < |w.executions| {
      assert Retained(w, x);
    }
  }

  /** From `w` to `v` nothing begins, or one execution: the retry of the attempt the map knows,
      or the first attempt of an identity the map does not know. */
  predicate BeginsRight(entries: Entries, w: World, v: World) {
    v.executions == w.executions ||
    (&& |v.executions| == |w.executions| + 1
     && var y := v.executions[|w.executions|];
        if y.identity in entries then y.after == Some(entries[y.identity].execution)
        else y.after.None? && y.attempt == 1)
  }

  lemma RetryBegins(w: World, request: Request, env: Env)
    requires request.identity in w.entries
    ensures BeginsRight(w.entries, w, Retry(w, request, w.entries[request.identity], env))
  {
    hide ModeOf, ConversationOf;
  }

  lemma DecideBegins(w: World, n: nat, request: Request, maximum: nat, env: Env)
    ensures BeginsRight(w.entries, w, Decide(w, n, request, maximum, env))
  {
    hide ModeOf, ConversationOf, Retry, MakesRoom;
    if request.identity in w.entries { RetryBegins(w, request, env); }
  }

  lemma AwakeBegins(w: World, n: nat, maximum: nat, env: Env)
    requires n in w.waiters
    ensures BeginsRight(w.entries, w, Awake(w, n, maximum, env))
  {
    hide Retry, Decide;
    var request, v := w.waiters[n].request, w.(waiters := w.waiters - {n});
    DecideBegins(v, n, request, maximum, env);
    if request.identity in v.entries { RetryBegins(v, request, env); }
  }

  /** While the map keeps an identity, a new execution of it is the retry of the attempt the
      map knows; the count starts again only when the map has forgotten the identity. */
  lemma OnlyRetriesWhileRetained(actions: seq<Action>, maximum: nat, a: Action)
    ensures var w := Exec(actions, maximum); var v := Next(w, a, maximum);
      |v.executions| > |w.executions| ==>
      var y := v.executions[|w.executions|];
      |v.executions| == |w.executions| + 1 &&
      if y.after.Some? then y.identity in w.entries && y.after == Some(w.entries[y.identity].execution)
      else y.attempt == 1 && (y.identity !in w.entries || (a.Arrive? && Expired(w.entries[y.identity], a.env.cutoff)))
  {
    hide Exec, Decide, Awake;
    var w := Exec(actions, maximum);
    match a {
      case Arrive(n, request, env) =>
        DecideBegins(w.(entries := Pruned(w.entries, env.cutoff)), n, request, maximum, env);
      case Wake(n, env) => if n in w.waiters { AwakeBegins(w, n, maximum, env); }
      case _ =>
    }
  }
}
