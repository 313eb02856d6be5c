/** Hooks that run on one node or on all (core/db_distributed_hook.go): a local call with retries,
    one message to the other nodes, and what those do with it. */
module DistributedHook {

  datatype Mode = Local | Broadcast | Compete

  /** What a handler returns: nothing, an error marked as retryable, or any other one. */
  datatype Outcome = Fine | Retryable | Fatal

  datatype Payload = Payload(nodeId: string, eventName: string, mode: Mode)

  /** A node with its registered hooks; `ran` are the events whose handler it called, in order.
      A node that is not connected has no database to notify through. */
  datatype Node = Node(id: string, hooks: map<string, Mode>, maxRetries: int, connected: bool, ran: seq<string>)

  /** How one trigger goes: the outcome of its k-th call, whether its k-th wait is cancelled, and
      whether the message can be published. */
  datatype Trigger = Trigger(eventName: string, outcomes: nat -> Outcome, cancelled: nat -> bool, publishes: bool)

  // ---- the specification ------------------------------------------------------------------------------

  /** One attempt: the node, the messages published, and the outcome. */
  function Attempted(n: Node, t: Trigger, k: nat): (Node, seq<Payload>, Outcome) {
    if t.eventName !in n.hooks then (n, [], Fine)
    else
      var called := n.(ran := n.ran + [t.eventName]);
      var outcome := t.outcomes(k);
      if !n.hooks[t.eventName].Broadcast? || !outcome.Fine? then (called, [], outcome)
      else if !n.connected then (called, [], Fine)
      else if !t.publishes then (called, [], Fatal)
      else (called, [Payload(n.id, t.eventName, Broadcast)], Fine)
  }

  /** The retry loop from its k-th attempt on. */
  function Retried(n: Node, t: Trigger, k: nat): (Node, seq<Payload>, bool)
    decreases n.maxRetries - k
  {
    if k > n.maxRetries then (n, [], false)
    else
      var (next, sent, outcome) := Attempted(n, t, k);
      if outcome.Fine? then (next, sent, true)
      else if outcome.Fatal? || (k < n.maxRetries && t.cancelled(k)) then (next, sent, false)
      else
        var (last, more, ok) := Retried(next, t, k + 1);
        (last, sent + more, ok)
  }

  /** A message that arrives at a node. */
  function Handled(n: Node, p: Payload): Node {
    if p.nodeId == n.id || p.eventName !in n.hooks || !p.mode.Broadcast? then n
    else n.(ran := n.ran + [p.eventName])
  }

  /** Every node gets every message once. */
  function Delivered(nodes: seq<Node>, sent: seq<Payload>): (r: seq<Node>)
    ensures |r| == |nodes|
    decreases |sent|
  {
    if sent == [] then nodes
    else Delivered(seq(|nodes|, j requires 0 <= j < |nodes| => Handled(nodes[j], sent[0])), sent[1..])
  }

  /** A trigger on node i and the delivery of what it published. */
  function Spread(nodes: seq<Node>, i: nat, t: Trigger): (r: (seq<Node>, bool))
    requires i < |nodes|
    ensures |r.0| == |nodes|
  {
    var (n, sent, ok) := Retried(nodes[i], t, 0);
    (Delivered(nodes[i := n], sent), ok)
  }

  // ---- retries ----------------------------------------------------------------------------------------

  function Times(eventName: string, n: nat): (r: seq<string>)
    ensures |r| == n
  {
    seq(n, _ => eventName)
  }

  predicate GoesOn(n: Node, t: Trigger, k: nat) {
    t.outcomes(k).Retryable? && k < n.maxRetries && !t.cancelled(k)
  }

  /** The number of calls a registered hook gets from its k-th attempt on: up to the first that
      does not go on, and never past the last retry. */
  lemma {:induction false} RetryCalls(n: Node, t: Trigger, k: nat) returns (calls: nat)
    requires t.eventName in n.hooks && k <= n.maxRetries
    ensures 1 <= calls <= n.maxRetries - k + 1
    ensures forall j :: k <= j < k + calls - 1 ==> GoesOn(n, t, j)
    ensures !GoesOn(n, t, k + calls - 1)
    ensures Retried(n, t, k).0 == n.(ran := n.ran + Times(t.eventName, calls))
    ensures
      var last := t.outcomes(k + calls - 1);
      var (_, sent, ok) := Retried(n, t, k);
      var broadcasts := last.Fine? && n.hooks[t.eventName].Broadcast? && n.connected;
      && sent == (if broadcasts && t.publishes then [Payload(n.id, t.eventName, Broadcast)] else [])
      && (ok <==> last.Fine? && (broadcasts ==> t.publishes))
    decreases n.maxRetries - k
  {
    if GoesOn(n, t, k) {
      var next := n.(ran := n.ran + [t.eventName]);
      var more := RetryCalls(next, t, k + 1);
      calls := more + 1;
      assert [t.eventName] + Times(t.eventName, more) == Times(t.eventName, calls);
      assert n.ran + [t.eventName] + Times(t.eventName, more) == n.ran + Times(t.eventName, calls);
      forall j | k <= j < k + calls - 1 ensures GoesOn(n, t, j) {
        assert j > k ==> GoesOn(next, t, j);
      }
      assert !GoesOn(next, t, k + calls - 1);
    } else {
      calls := 1;
      assert Times(t.eventName, 1) == [t.eventName];
      var called := n.(ran := n.ran + [t.eventName]);
      assert t.outcomes(k).Retryable? && k == n.maxRetries ==> Retried(called, t, k + 1) == (called, [], false);
    }
  }

  /** The node made this many calls, within its retries, and published at most one message, only
      after a last call that went well. */
  predicate WithinRetries(n: Node, t: Trigger, m: Node, sent: seq<Payload>, calls: nat) {
    && m == n.(ran := n.ran + Times(t.eventName, calls))
    && calls <= (if n.maxRetries < 0 then 0 else n.maxRetries + 1)
    && (sent == [] ||
        (calls >= 1 && t.outcomes(calls - 1).Fine? && sent == [Payload(n.id, t.eventName, Broadcast)]))
  }

  /** One trigger with retries calls the local handler at most MaxRetries + 1 times and publishes
      at most one message, and that only when the last of the calls went well. A message that
      could not be published is not tried again. */
  lemma RetryBounds(n: Node, t: Trigger)
    ensures var (m, sent, _) := Retried(n, t, 0);
      exists calls: nat :: WithinRetries(n, t, m, sent, calls)
  {
    if t.eventName in n.hooks && 0 <= n.maxRetries {
      hide Retried;
      var calls := RetryCalls(n, t, 0);
      assert WithinRetries(n, t, Retried(n, t, 0).0, Retried(n, t, 0).1, calls);
    } else {
      assert n.ran + Times(t.eventName, 0) == n.ran;
      assert n.(ran := n.ran) == n;
      assert WithinRetries(n, t, Retried(n, t, 0).0, Retried(n, t, 0).1, 0);
    }
  }

  /** A hook that is not registered is not called, and that is no error. */
  lemma UnregisteredIsFine(n: Node, t: Trigger)
    requires t.eventName !in n.hooks
    ensures Retried(n, t, 0) == (n, [], 0 <= n.maxRetries)
  {
  }

  /** A node runs its handler for a message exactly if it is a broadcast of another node for an
      event it has registered, and changes nothing else. */
  lemma MessagesRunHandlers(n: Node, p: Payload)
    ensures
      var m := Handled(n, p);
      var runs := p.nodeId != n.id && p.eventName in n.hooks && p.mode.Broadcast?;
      && m.ran == n.ran + (if runs then [p.eventName] else [])
      && m.(ran := n.ran) == n
  {
    assert n.ran + [] == n.ran;
  }

  // ---- the other nodes --------------------------------------------------------------------------------

  ghost predicate DistinctIds(nodes: seq<Node>) {
    forall i, j :: 0 <= i < j < |nodes| ==> nodes[i].id != nodes[j].id
  }

  /** When a broadcast succeeds on a connected node, every other node that registered the event
      runs its handler exactly once, the sender never handles its own message, and nothing is
      published again. When it fails, no other node runs anything. */
  lemma OthersRunExactlyOnce(nodes: seq<Node>, i: nat, t: Trigger, j: nat)
    requires DistinctIds(nodes) && i < |nodes| && j < |nodes|
    requires t.eventName in nodes[i].hooks && nodes[i].hooks[t.eventName].Broadcast? && nodes[i].connected
    ensures
      var (after, ok) := Spread(nodes, i, t);
      if j == i then after[i] == Retried(nodes[i], t, 0).0
      else if ok && t.eventName in nodes[j].hooks then after[j] == nodes[j].(ran := nodes[j].ran + [t.eventName])
      else after[j] == nodes[j]
  {
    var (n, sent, ok) := Retried(nodes[i], t, 0);
    if nodes[i].maxRetries >= 0 {
      var calls := RetryCalls(nodes[i], t, 0);
    }
    var local := nodes[i := n];
    assert sent == if ok then [Payload(nodes[i].id, t.eventName, Broadcast)] else [];
    if ok {
      var p := sent[0];
      assert sent[1..] == [];
      assert Delivered(local, sent) == seq(|local|, k requires 0 <= k < |local| => Handled(local[k], p));
    }
  }

  /** Hooks in the other modes, and broadcasts of a node without a database, stay on their node. */
  lemma OthersStayOut(nodes: seq<Node>, i: nat, t: Trigger, j: nat)
    requires i < |nodes| && j < |nodes| && j != i
    requires t.eventName in nodes[i].hooks ==> !nodes[i].hooks[t.eventName].Broadcast? || !nodes[i].connected
    ensures Spread(nodes, i, t).0[j] == nodes[j]
  {
    RetryBounds(nodes[i], t);
    if t.eventName in nodes[i].hooks && nodes[i].maxRetries >= 0 {
      var calls := RetryCalls(nodes[i], t, 0);
    }
  }

  // ---- the code ---------------------------------------------------------------------------------------

  /** The notification channel of the database: what was published on it. */
  class Channel {
    var published: seq<Payload>

    constructor ()
      ensures published == []
    {
      published := [];
    }
  }

  class HookManager {
    const nodeId: string
    const channel: Channel
    const connected: bool
    var hooks: map<string, Mode>
    var maxRetries: int
    var ran: seq<string>

    constructor (nodeId: string, channel: Channel, connected: bool, hooks: map<string, Mode>, maxRetries: int)
      ensures this.channel == channel && State() == Node(nodeId, hooks, maxRetries, connected, [])
    {
      this.nodeId, this.channel, this.connected := nodeId, channel, connected;
      this.hooks, this.maxRetries, ran := hooks, maxRetries, [];
    }

    function State(): Node
      reads this
    {
      Node(nodeId, hooks, maxRetries, connected, ran)
    }

    method BroadcastHook(t: Trigger) returns (outcome: Outcome)
      modifies channel
      ensures channel.published == old(channel.published) +
                                   (if connected && t.publishes then [Payload(nodeId, t.eventName, Broadcast)] else [])
      ensures outcome == if connected && !t.publishes then Fatal else Fine
    {
      if !connected {
        return Fine;
      }
      if !t.publishes {
        return Fatal;
      }
      channel.published := channel.published + [Payload(nodeId, t.eventName, Broadcast)];
      return Fine;
    }

    /** `k` numbers the attempt. */
    method TriggerHook(t: Trigger, k: nat) returns (outcome: Outcome)
      modifies `ran, channel
      ensures State() == Attempted(old(State()), t, k).0
      ensures channel.published == old(channel.published) + Attempted(old(State()), t, k).1
      ensures outcome == Attempted(old(State()), t, k).2
    {
      if t.eventName !in hooks {
        return Fine;
      }
      ran := ran + [t.eventName];
      outcome := t.outcomes(k);
      if hooks[t.eventName].Broadcast? && outcome.Fine? {
        outcome := BroadcastHook(t);
      }
    }

    method TriggerHookWithRetry(t: Trigger) returns (ok: bool)
      modifies `ran, channel
      ensures State() == Retried(old(State()), t, 0).0
      ensures channel.published == old(channel.published) + Retried(old(State()), t, 0).1
      ensures ok == Retried(old(State()), t, 0).2
    {
      ghost var s := State();
      var attempt := 0;
      while attempt <= maxRetries
        invariant 0 <= attempt && maxRetries == s.maxRetries && hooks == s.hooks
        invariant Retried(State(), t, attempt).0 == Retried(s, t, 0).0
        invariant channel.published + Retried(State(), t, attempt).1 == old(channel.published) + Retried(s, t, 0).1
        invariant Retried(State(), t, attempt).2 == Retried(s, t, 0).2
        decreases maxRetries - attempt
      {
        var outcome := TriggerHook(t, attempt);
        if outcome.Fine? {
          return true;
        }
        if outcome.Fatal? {
          return false;
        }
        if attempt < maxRetries && t.cancelled(attempt) {
          return false;
        }
        attempt := attempt + 1;
      }
      return false;
    }

    method HandleRemoteHook(p: Payload)
      modifies `ran
      ensures State() == Handled(old(State()), p)
    {
      if p.nodeId == nodeId || p.eventName !in hooks {
        return;
      }
      if p.mode.Broadcast? {
        ran := ran + [p.eventName];
      }
    }
  }
}
