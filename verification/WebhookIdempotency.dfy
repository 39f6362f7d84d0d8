/** Webhook idempotency: the map of idempotent requests, and any number of duplicates
    arriving, waiting, retrying cancelled attempts and being pruned against it. */
module WebhookIdempotency {
  import opened Basics

  const MAX_IDEMPOTENT_ATTEMPTS := 10_000

  datatype Mode = Sync | Async

  datatype Route = Route(name: string, mode: Mode)

  /** Route and Idempotency-Key. */
  datatype Identity = Identity(route: Route, key: string)

  /** What the fingerprint stands for: equal fingerprints mean equal bodies. */
  datatype Body = Body(conversationId: Option<string>, mode: Option<Mode>, text: string)

  datatype Status = Succeeded | Failed | Cancelled

  /** The conversation named by the body, or the one derived from the request id. */
  datatype Conversation = Given(id: string) | Derived(identity: Identity, attempt: nat)

  datatype Entry = Entry(
    body: Body, attempt: nat, conversation: Conversation, mode: Mode,
    execution: nat, terminal: Option<Status>, updatedAtMs: int)

  type Entries = map<Identity, Entry>

  // ---------- pruning and eviction ----------

  predicate Expired(e: Entry, cutoff: int) {
    e.terminal.Some? && e.updatedAtMs <= cutoff
  }

  function Pruned(m: Entries, cutoff: int): Entries {
    map k | k in m && !Expired(m[k], cutoff) :: m[k]
  }

  /** Evicting `victims` makes room: nothing when there is room already; otherwise terminal
      entries only, oldest first, and no more of them than needed. */
  ghost predicate MakesRoom(m: Entries, victims: set<Identity>, maximum: nat, ok: bool) {
    && victims <= m.Keys
    && (forall k :: k in victims ==> m[k].terminal.Some?)
    && (forall k, j :: k in victims && j in m && j !in victims && m[j].terminal.Some? ==>
      m[k].updatedAtMs <= m[j].updatedAtMs)
    && (ok <==> |m| - |victims| < maximum)
    && (victims != {} ==> |m| - |victims| >= maximum - 1)
    && (!ok ==> forall j :: j in m && j !in victims ==> m[j].terminal.None?)
  }

  /** The walk so far: `victims` are the oldest of the terminal entries, `terminal` the rest. */
  ghost predicate Walked(m: Entries, terminal: set<Identity>, victims: set<Identity>) {
    && terminal !! victims && terminal <= m.Keys && victims <= m.Keys
    && (forall k :: k in m ==> (m[k].terminal.Some? <==> k in terminal || k in victims))
    && (forall k, j :: k in victims && j in terminal ==> m[k].updatedAtMs <= m[j].updatedAtMs)
  }

  function Terminals(m: Entries): set<Identity> {
    set k | k in m && m[k].terminal.Some?
  }

  lemma WalkStarts(m: Entries)
    ensures Walked(m, Terminals(m), {}) && m - {} == m
  {
  }

  lemma Without(m: Entries, victims: set<Identity>)
    requires victims <= m.Keys
    ensures |m - victims| == |m| - |victims|
  {
    assert (m - victims).Keys == m.Keys - victims;
  }

  lemma WalkKeys(m: Entries, terminal: set<Identity>, victims: set<Identity>)
    requires Walked(m, terminal, victims)
    ensures terminal <= (m - victims).Keys
  {
  }

  lemma WalkStep(m: Entries, terminal: set<Identity>, victims: set<Identity>, k: Identity)
    requires Walked(m, terminal, victims) && k in terminal
    requires terminal <= (m - victims).Keys
    requires forall j :: j in terminal ==> (m - victims)[k].updatedAtMs <= (m - victims)[j].updatedAtMs
    ensures Walked(m, terminal - {k}, victims + {k})
    ensures m - victims - {k} == m - (victims + {k}) && |m - (victims + {k})| == |m - victims| - 1
  {
    forall j | j in terminal - {k} ensures m[k].updatedAtMs <= m[j].updatedAtMs {
      assert (m - victims)[k] == m[k] && (m - victims)[j] == m[j];
    }
    StepSize(m, victims, k);
  }

  lemma StepSize(m: Entries, victims: set<Identity>, k: Identity)
    requires victims <= m.Keys && k in m && k !in victims
    ensures m - victims - {k} == m - (victims + {k}) && |m - (victims + {k})| == |m - victims| - 1
  {
    Without(m, victims);
    Without(m, victims + {k});
  }

  lemma RoomAlready(m: Entries, maximum: nat)
    requires |m| < maximum
    ensures MakesRoom(m, {}, maximum, true)
  {
  }

  lemma WalkEnds(m: Entries, terminal: set<Identity>, victims: set<Identity>, maximum: nat, ok: bool)
    requires Walked(m, terminal, victims)
    requires if ok then |m - victims| == maximum - 1 else |m - victims| >= maximum && terminal == {}
    ensures MakesRoom(m, victims, maximum, ok)
  {
    Without(m, victims);
  }

  class IdempotentRequests {
    var entries: Entries

    constructor ()
      ensures entries == map[]
    {
      entries := map[];
    }

    method Prune(cutoff: int)
      modifies this
      ensures entries == Pruned(old(entries), cutoff)
    {
      var rest := entries.Keys;
      while rest != {}
        invariant rest <= old(entries).Keys
        invariant entries
          == map k | k in old(entries) && (k in rest || !Expired(old(entries)[k], cutoff)) :: old(entries)[k]
        decreases rest
      {
        var k :| k in rest;
        rest := rest - {k};
        if Expired(entries[k], cutoff) {
          entries := entries - {k};
        }
      }
    }

    /** `reserveIdempotentCapacity`: the sorted list of terminal entries is walked from its
        oldest entry; entries of equal age go in either order. */
    method Reserve(maximum: nat) returns (ok: bool, ghost victims: set<Identity>)
      modifies this
      ensures entries == old(entries) - victims && MakesRoom(old(entries), victims, maximum, ok)
    {
      hide Walked, MakesRoom;
      victims := {};
      ghost var m := entries;
      WalkStarts(m);
      ok := |entries| < maximum;
      if ok {
        RoomAlready(m, maximum);
        return;
      }
      var terminal := Terminals(entries);
      while terminal != {}
        invariant Walked(m, terminal, victims) && entries == m - victims && |entries| >= maximum
        decreases terminal
      {
        WalkKeys(m, terminal, victims);
        var k := Oldest(entries, terminal);
        WalkStep(m, terminal, victims, k);
        entries := entries - {k};
        terminal, victims := terminal - {k}, victims + {k};
        if |entries| < maximum {
          WalkEnds(m, terminal, victims, maximum, true);
          ok := true;
          return;
        }
      }
      WalkEnds(m, terminal, victims, maximum, false);
    }

    static method Oldest(m: Entries, ks: set<Identity>) returns (k: Identity)
      requires ks != {} && ks <= m.Keys
      ensures k in ks && forall j :: j in ks ==> m[k].updatedAtMs <= m[j].updatedAtMs
    {
      k :| k in ks;
      var rest := ks - {k};
      while rest != {}
        invariant rest <= ks && k in ks
        invariant forall j :: j in ks - rest ==> m[k].updatedAtMs <= m[j].updatedAtMs
        decreases rest
      {
        var j :| j in rest;
        rest := rest - {j};
        if m[j].updatedAtMs < m[k].updatedAtMs {
          k := j;
        }
      }
    }
  }
}
