/** What webhook requests get done: a first request runs, a cancelled attempt is run again by a
    duplicate that is still there, and a duplicate of a running attempt waits for it. */
module WebhookRetries {
  import opened Basics
  import opened WebhookIdempotency
  import opened WebhookDuplicates

  /** The mode of a request: its own, or that of its route. */
  predicate RunsAs(request: Request, mode: Mode) {
    || request.body.mode == Some(mode)
    || (request.body.mode == None && request.identity.route.mode == mode)
  }

  /** An async request that the status store has no room for is refused. */
  predicate Admitted(request: Request, env: Env) {
    RunsAs(request, Async) ==> env.statusRoom
  }

  /** Exactly one execution is added, and the map's entry of its identity is about it. */
  predicate Begun(w: World, v: World, request: Request, attempt: nat, conversation: Conversation, after: Option<nat>) {
    && v.executions ==
         w.executions + [Execution(request.identity, request.body, attempt, conversation, after, None)]
    && request.identity in v.entries
    && var e := v.entries[request.identity];
      && e.body == request.body && e.attempt == attempt && e.conversation == conversation
      && e.execution == |w.executions| && e.terminal == None && RunsAs(request, e.mode)
  }

  lemma BeginBegins(w: World, request: Request, attempt: nat, retried: Option<Conversation>, after: Option<nat>,
      env: Env)
    requires Admitted(request, env)
    ensures var v := Begin(w, request, attempt, retried, after, env);
      && Begun(w, v, request, attempt, v.executions[|w.executions|].conversation, after)
      && v.waiters == w.waiters
      && (match request.body.conversationId
          case Some(id) => v.executions[|w.executions|].conversation == Given(id)
          case None =>
            v.executions[|w.executions|].conversation ==
              if retried.Some? then retried.value else Derived(request.identity, attempt))
  {
  }

  lemma RetryBegun(w: World, request: Request, env: Env, maximum: nat)
    requires Inv(w, maximum) && request.identity in w.entries && w.entries[request.identity].body == request.body
    requires w.entries[request.identity].attempt < 10_000 && !env.gone && Admitted(request, env)
    ensures var e := w.entries[request.identity]; var v := Retry(w, request, e, env);
      Begun(w, v, request, e.attempt + 1, e.conversation, Some(e.execution)) && v.waiters == w.waiters
  {
    hide Inv, Begin;
    var e := w.entries[request.identity];
    EntryAt(w, request.identity, maximum);
    ExecutionAt(w, e.execution, maximum);
    BeginBegins(w, request, e.attempt + 1, Some(e.conversation), Some(e.execution), env);
  }

  lemma ExecutionAt(w: World, x: nat, maximum: nat)
    requires Inv(w, maximum) && x < |w.executions|
    ensures ExecutionInv(w, x)
  {
  }

  /** The attempt the waiter waited for has settled. */
  predicate WaitIsOver(w: World, n: nat) {
    && n in w.waiters && w.waiters[n].prior < |w.executions|
    && w.executions[w.waiters[n].prior].outcome.Some?
  }

  /** A waiter that is still there when the attempt it waited for has been cancelled, and that no other
      has retried yet, begins the next attempt: with the next number and the same body and conversation. */
  lemma CancelledIsRetried(actions: seq<Action>, maximum: nat, n: nat, env: Env)
    requires WaitIsOver(Exec(actions, maximum), n) && !env.gone
    requires var w := Exec(actions, maximum); var waiter := w.waiters[n]; var k := waiter.request.identity;
      && w.executions[waiter.prior].outcome == Some(Cancelled)
      && k in w.entries && w.entries[k].execution == waiter.prior && w.entries[k].attempt < 10_000
      && Admitted(waiter.request, env)
    ensures var w := Exec(actions, maximum); var waiter := w.waiters[n];
      var e := w.entries[waiter.request.identity];
      var v := Next(w, Wake(n, env), maximum);
      && Begun(w, v, waiter.request, e.attempt + 1, e.conversation, Some(waiter.prior))
      && v.waiters == w.waiters - {n}
  {
    hide Exec, Inv, Retry;
    RunKeepsInv(actions, maximum);
    var w := Exec(actions, maximum);
    var waiter := w.waiters[n];
    EntryAt(w, waiter.request.identity, maximum);
    WaiterAt(w, n, maximum);
    ForgetKeepsInv(w, n, maximum);
    RetryBegun(w.(waiters := w.waiters - {n}), waiter.request, env, maximum);
  }

  /** A waiter that finds another attempt in the map goes on with that one: it waits for it if it is a
      sync attempt of the same body. */
  lemma OvertakenWaitsAgain(actions: seq<Action>, maximum: nat, n: nat, env: Env)
    requires WaitIsOver(Exec(actions, maximum), n) && !env.gone
    requires var w := Exec(actions, maximum); var waiter := w.waiters[n]; var k := waiter.request.identity;
      && w.executions[waiter.prior].outcome == Some(Cancelled)
      && k in w.entries && w.entries[k].execution != waiter.prior
      && w.entries[k].body == waiter.request.body && w.entries[k].mode == Sync
    ensures var w := Exec(actions, maximum); var waiter := w.waiters[n];
      Next(w, Wake(n, env), maximum) ==
        w.(waiters := w.waiters[n := Waiter(waiter.request, w.entries[waiter.request.identity].execution)])
  {
    hide Exec, Retry;
    var w := Exec(actions, maximum);
    var waiter := w.waiters[n];
    assert (w.waiters - {n})[n := Waiter(waiter.request, w.entries[waiter.request.identity].execution)]
      == w.waiters[n := Waiter(waiter.request, w.entries[waiter.request.identity].execution)];
  }

  /** A waiter whose attempt ended otherwise, or whose client has gone, leaves without a trace. */
  lemma AnsweredLeaves(actions: seq<Action>, maximum: nat, n: nat, env: Env)
    requires WaitIsOver(Exec(actions, maximum), n)
    requires var w := Exec(actions, maximum); var waiter := w.waiters[n];
      (w.executions[waiter.prior].outcome != Some(Cancelled) || env.gone)
    ensures var w := Exec(actions, maximum); Next(w, Wake(n, env), maximum) == w.(waiters := w.waiters - {n})
  {
    hide Exec, Retry, Decide;
  }

  /** Not expired: an entry without an outcome, or one younger than the cutoff. */
  predicate Fresh(e: Entry, cutoff: int) {
    e.terminal == None || e.updatedAtMs > cutoff
  }

  lemma FreshStays(m: Entries, k: Identity, cutoff: int)
    ensures k in Pruned(m, cutoff) <==> k in m && Fresh(m[k], cutoff)
    ensures k in Pruned(m, cutoff) ==> Pruned(m, cutoff)[k] == m[k]
  {
  }

  /** A duplicate of a sync attempt waits for it. */
  lemma DuplicateWaits(actions: seq<Action>, maximum: nat, n: nat, request: Request, env: Env)
    requires var w := Exec(actions, maximum); var k := request.identity;
      && n !in w.waiters && k in w.entries && Fresh(w.entries[k], env.cutoff)
      && w.entries[k].body == request.body && w.entries[k].mode == Sync
    ensures var w := Exec(actions, maximum); var v := Next(w, Arrive(n, request, env), maximum);
      && v.executions == w.executions
      && v.waiters == w.waiters[n := Waiter(request, w.entries[request.identity].execution)]
  {
    hide Exec, Retry, Pruned;
    FreshStays(Exec(actions, maximum).entries, request.identity, env.cutoff);
  }

  /** A later duplicate of a cancelled async attempt that the map remembers begins the next attempt. */
  lemma LaterDuplicateRetries(actions: seq<Action>, maximum: nat, n: nat, request: Request, env: Env)
    requires var w := Exec(actions, maximum); var k := request.identity;
      && n !in w.waiters && k in w.entries && Fresh(w.entries[k], env.cutoff)
      && w.entries[k].body == request.body && w.entries[k].mode == Async
      && w.entries[k].terminal == Some(Cancelled) && w.entries[k].attempt < 10_000
      && !env.gone && Admitted(request, env)
    ensures var w := Exec(actions, maximum); var e := w.entries[request.identity];
      var v := Next(w, Arrive(n, request, env), maximum);
      Begun(w, v, request, e.attempt + 1, e.conversation, Some(e.execution)) && v.waiters == w.waiters
  {
    hide Exec, Inv, Retry, Pruned;
    RunKeepsInv(actions, maximum);
    var w := Exec(actions, maximum);
    PruneKeepsInv(w, env.cutoff, maximum);
    FreshStays(w.entries, request.identity, env.cutoff);
    RetryBegun(w.(entries := Pruned(w.entries, env.cutoff)), request, env, maximum);
  }

  lemma PruneKeepsInv(w: World, cutoff: int, maximum: nat)
    requires Inv(w, maximum)
    ensures Inv(w.(entries := Pruned(w.entries, cutoff)), maximum)
  {
    ShrinkKeepsInv(w, Pruned(w.entries, cutoff), maximum);
  }

  /** The first request of an identity that the map does not remember begins attempt 1 when the map has
      room, or makes it by evicting entries that know their outcome. */
  lemma FirstRequestRuns(actions: seq<Action>, maximum: nat, n: nat, request: Request, env: Env)
    requires var w := Exec(actions, maximum); var k := request.identity;
      && n !in w.waiters && (k !in w.entries || !Fresh(w.entries[k], env.cutoff))
      && MakesRoom(Pruned(w.entries, env.cutoff), env.victims, maximum, true) && Admitted(request, env)
    ensures var w := Exec(actions, maximum); var v := Next(w, Arrive(n, request, env), maximum);
      && v.waiters == w.waiters
      && Begun(w, v, request, 1,
           if request.body.conversationId.Some? then Given(request.body.conversationId.value)
           else Derived(request.identity, 1), None)
      && (forall j :: j in w.entries && j !in v.entries ==> w.entries[j].terminal.Some?)
  {
    hide Exec, Begin, MakesRoom;
    var w := Exec(actions, maximum);
    var u := WebhookDuplicates.Without(w.(entries := Pruned(w.entries, env.cutoff)), env.victims);
    FreshStays(w.entries, request.identity, env.cutoff);
    EvictionShrinks(Pruned(w.entries, env.cutoff), env.victims, maximum, true);
    BeginBegins(u, request, 1, None, None, env);
    BeginEntriesOnly(u, request, 1, None, None, env);
    forall j | j in w.entries && j !in u.entries ensures w.entries[j].terminal.Some? {
      FreshStays(w.entries, j, env.cutoff);
    }
  }

  lemma BeginEntriesOnly(w: World, request: Request, attempt: nat, retried: Option<Conversation>, after: Option<nat>,
      env: Env)
    ensures w.entries.Keys <= Begin(w, request, attempt, retried, after, env).entries.Keys
  {
  }

  /** An attempt settles once, with the outcome its submission came to. */
  lemma SettlesOnce(w: World, x: nat, status: Status, maximum: nat)
    requires x < |w.executions|
    ensures var v, e := Next(w, Settle(x, status), maximum), w.executions[x];
      && v.entries == w.entries && v.waiters == w.waiters && |v.executions| == |w.executions|
      && (forall y :: 0 <= y < |w.executions| && y != x ==> v.executions[y] == w.executions[y])
      && v.executions[x] == if e.outcome.Some? then e
           else Execution(e.identity, e.body, e.attempt, e.conversation, e.after, Some(status))
  {
  }

  /** An entry learns the outcome of its attempt and the time; only from then on can it expire, and
      then it goes with the next pruning after the cutoff has reached that time. */
  lemma OutcomeIsRemembered(actions: seq<Action>, maximum: nat, k: Identity, now: int, cutoff: int)
    requires k in Exec(actions, maximum).entries
    ensures var w := Exec(actions, maximum);
      var v := Next(w, MarkTerminal(k, now), maximum); var u := Next(v, PruneNow(cutoff), maximum);
      var e := w.entries[k];
      && e.execution < |w.executions| && k in v.entries && v.executions == w.executions
      && (w.executions[e.execution].outcome.Some? ==>
          v.entries[k].terminal == w.executions[e.execution].outcome && v.entries[k].updatedAtMs == now
          && (k in u.entries <==> now > cutoff))
      && (w.executions[e.execution].outcome.None? ==> v == w && k in u.entries)
      && (forall j :: j in w.entries && j != k ==> j in v.entries && v.entries[j] == w.entries[j])
      && (forall j :: j in u.entries <==> j in v.entries && Fresh(v.entries[j], cutoff))
  {
    hide Exec, Inv, Pruned;
    RunKeepsInv(actions, maximum);
    var w := Exec(actions, maximum);
    EntryAt(w, k, maximum);
    var v := Next(w, MarkTerminal(k, now), maximum);
    forall j ensures j in Pruned(v.entries, cutoff) <==> j in v.entries && Fresh(v.entries[j], cutoff) {
      FreshStays(v.entries, j, cutoff);
    }
    if w.executions[w.entries[k].execution].outcome.None? { NotYetTerminal(w, k, maximum); }
  }

  lemma NotYetTerminal(w: World, k: Identity, maximum: nat)
    requires Inv(w, maximum) && k in w.entries && EntryInv(w, k)
    ensures w.executions[w.entries[k].execution].outcome.None? ==> w.entries[k].terminal.None?
  {
    hide Inv;
  }

  /** A request whose identity the map remembers with another body, or whose attempt cannot be run
      again, starts nothing and waits for nothing. */
  lemma OthersStartNothing(actions: seq<Action>, maximum: nat, n: nat, request: Request, env: Env)
    requires var w := Exec(actions, maximum); var k := request.identity;
      && n !in w.waiters && k in w.entries && Fresh(w.entries[k], env.cutoff)
      && (w.entries[k].body != request.body
          || (w.entries[k].mode == Async
              && (w.entries[k].terminal != Some(Cancelled) || w.entries[k].attempt >= 10_000 || env.gone)))
    ensures var w := Exec(actions, maximum); var v := Next(w, Arrive(n, request, env), maximum);
      v.executions == w.executions && v.waiters == w.waiters
      && forall j :: j in v.entries <==> j in w.entries && Fresh(w.entries[j], env.cutoff)
  {
    hide Exec, Pruned, Begin;
    var w := Exec(actions, maximum);
    forall j ensures j in Pruned(w.entries, env.cutoff) <==> j in w.entries && Fresh(w.entries[j], env.cutoff) {
      FreshStays(w.entries, j, env.cutoff);
    }
    FreshStays(w.entries, request.identity, env.cutoff);
  }

  /** A new identity that finds no room starts nothing: every entry that is left is of an attempt
      whose outcome is not known yet. */
  lemma NoRoomStartsNothing(actions: seq<Action>, maximum: nat, n: nat, request: Request, env: Env)
    requires var w := Exec(actions, maximum); var k := request.identity;
      && n !in w.waiters && (k !in w.entries || !Fresh(w.entries[k], env.cutoff))
      && MakesRoom(Pruned(w.entries, env.cutoff), env.victims, maximum, false)
    ensures var w := Exec(actions, maximum); var v := Next(w, Arrive(n, request, env), maximum);
      && v.executions == w.executions && v.waiters == w.waiters
      && (forall j :: j in v.entries ==> j in w.entries && v.entries[j] == w.entries[j] && v.entries[j].terminal.None?)
  {
    hide Exec, Begin;
    var w := Exec(actions, maximum);
    FreshStays(w.entries, request.identity, env.cutoff);
    forall j ensures j in Pruned(w.entries, env.cutoff) ==> j in w.entries { FreshStays(w.entries, j, env.cutoff); }
  }

  /** A map with a free place has room without evicting anything. */
  lemma RoomIsRoom(m: Entries, maximum: nat)
    requires |m| < maximum
    ensures MakesRoom(m, {}, maximum, true)
  {
    RoomAlready(m, maximum);
  }
}
