// Confirmations asked inside nested stage sessions: every event travels up through the sessions'
// queues, and the answer given at the outermost one must wake the right waiter.
module ConfirmRelay {
  import opened Options

  type Tool = string
  type Future = nat

  datatype Event = Plain(content: nat) | Confirm(tool: Tool) | StageDone

  // An event with the stage sessions it has come up through, outermost first.
  datatype Message = Message(event: Event, via: seq<nat>)

  // Sessions are numbered with parents before children; session 0 is the outermost one. Everything
  // ever put on a session's queue, how much of it was taken off, the pending futures of every
  // session, the latest future of every tool, and the futures that were set.
  datatype Net = Net(log: seq<seq<Message>>, taken: seq<nat>, pending: map<(nat, Tool), Future>,
                     asked: map<Tool, Future>, woken: seq<Future>, next: Future)

  datatype Step =
    | Emit(s: nat, content: nat)
    | Ask(s: nat, tool: Tool)
    | End(s: nat)
    | Forward(s: nat)
    | Deliver
    | Resolve(tool: Tool)

  predicate Nested(parent: seq<nat>)
  {
    parent != [] && forall s | 0 < s < |parent| :: parent[s] < s
  }

  predicate Shaped(parent: seq<nat>, net: Net)
  {
    |net.log| == |net.taken| == |parent| && forall s | 0 <= s < |parent| :: net.taken[s] <= |net.log[s]|
  }

  function Put(net: Net, s: nat, m: Message): Net
    requires s < |net.log|
  {
    net.(log := net.log[s := net.log[s] + [m]])
  }

  // The stage loop of a session has ended: its sentinel is on the queue.
  predicate Ended(net: Net, s: nat)
    requires s < |net.log|
  {
    net.log[s] != [] && net.log[s][|net.log[s]| - 1].event == StageDone
  }

  predicate Done(net: Net, f: Future)
  {
    f in net.woken
  }

  // A confirmation for the tool at place i of a session's queue, not taken off yet.
  predicate Travelling(net: Net, s: nat, i: nat, tool: Tool)
  {
    s < |net.log| && s < |net.taken| && net.taken[s] <= i < |net.log[s]| && net.log[s][i].event == Confirm(tool)
  }

  // The tool's id is free: its latest question is answered and no longer on its way.
  ghost predicate Free(net: Net, tool: Tool)
  {
    (tool in net.asked ==> Done(net, net.asked[tool])) && forall s: nat, i: nat :: !Travelling(net, s, i, tool)
  }

  function Start(n: nat): Net
  {
    Net(seq(n, _ => []), seq(n, _ => 0), map[], map[], [], 0)
  }

  // One step of one of the interleaved tasks; a task runs from one suspension point to the next.
  ghost predicate Enabled(parent: seq<nat>, net: Net, step: Step)
    requires Shaped(parent, net)
  {
    match step
    case Emit(s, _) => s < |parent| && !Ended(net, s)
    case Ask(s, tool) => s < |parent| && !Ended(net, s) && Free(net, tool)
    case End(s) => 0 < s < |parent| && !Ended(net, s)
    case Forward(s) => 0 < s < |parent| && net.taken[s] < |net.log[s]|
        && (parent[s] < |parent| ==> !Ended(net, parent[s]))
    case Deliver => |parent| > 0 && net.taken[0] < |net.log[0]|
    case Resolve(_) => true
  }

  function After(parent: seq<nat>, net: Net, step: Step): Net
    requires Nested(parent) && Shaped(parent, net)
  {
    match step
    case Emit(s, content) => if s < |parent| then Put(net, s, Message(Plain(content), [])) else net
    case Ask(s, tool) => if s < |parent| then AskConfirm(net, s, tool) else net
    case End(s) => if s < |parent| then Put(net, s, Message(StageDone, [])) else net
    case Forward(s) => if 0 < s < |parent| && net.taken[s] < |net.log[s]| then ForwardOne(net, s, parent[s]) else net
    case Deliver => if net.taken[0] < |net.log[0]| then net.(taken := net.taken[0 := net.taken[0] + 1]) else net
    case Resolve(tool) => ResolveConfirm(net, tool)
  }

  // The event is put and the future created before the asking task is suspended.
  function AskConfirm(net: Net, s: nat, tool: Tool): Net
    requires s < |net.log|
  {
    Put(net, s, Message(Confirm(tool), [])).(pending := net.pending[(s, tool) := net.next], asked :=
        net.asked[tool := net.next], next := net.next + 1)
  }

  // The sentinel stops the forwarder; anything else goes up, a confirmation with its future.
  function ForwardOne(net: Net, s: nat, p: nat): Net
    requires s < |net.log| && p < |net.log| && |net.log| == |net.taken| && net.taken[s] < |net.log[s]|
  {
    var m := net.log[s][net.taken[s]];
    var rest := net.(taken := net.taken[s := net.taken[s] + 1]);
    if m.event == StageDone then rest
    else
      var up := Put(rest, p, Message(m.event, [s] + m.via));
      if m.event.Confirm? && (s, m.event.tool) in net.pending
      then up.(pending := net.pending[(p, m.event.tool) := net.pending[(s, m.event.tool)]])
      else up
  }

  // The answer takes the future off the outermost session and sets it, unless it was set before.
  function ResolveConfirm(net: Net, tool: Tool): Net
  {
    if (0, tool) !in net.pending then net
    else
      var f := net.pending[(0, tool)];
      net.(pending := net.pending - {(0, tool)}, woken := if f in net.woken then net.woken else net.woken + [f])
  }

  // ---------- what every step keeps ----------

  // The sentinel is only ever the last thing on a queue, and only a session's own.
  predicate Sentinels(net: Net)
  {
    forall s, i | 0 <= s < |net.log| && 0 <= i < |net.log[s]|
        && net.log[s][i].event == StageDone :: i == |net.log[s]| - 1
  }

  // A confirmation on its way has its own future pending in the session whose queue it is on.
  predicate Carried(net: Net, s: nat, tool: Tool)
  {
    && tool in net.asked
    && (if s == 0 then Done(net, net.asked[tool]) || ((0, tool) in net.pending
         && net.pending[(0, tool)] == net.asked[tool])
        else !Done(net, net.asked[tool]) && (s, tool) in net.pending && net.pending[(s, tool)] == net.asked[tool])
  }

  ghost predicate AllCarried(net: Net)
  {
    forall s: nat, i: nat, tool: Tool :: Travelling(net, s, i, tool) ==> Carried(net, s, tool)
  }

  // No tool has two confirmations on their way.
  ghost predicate OneEach(net: Net)
  {
    forall s: nat, i: nat, s2: nat, i2: nat, tool: Tool ::
      Travelling(net, s, i, tool) && Travelling(net, s2, i2, tool) ==> s == s2 && i == i2
  }

  // What is pending outermost is the latest future of its tool, not set yet, and its question has
  // come all the way up.
  ghost predicate OutermostCurrent(net: Net)
  {
    forall tool: Tool :: (0, tool) in net.pending ==>
      && tool in net.asked && net.pending[(0, tool)] == net.asked[tool] && !Done(net, net.asked[tool])
      && forall s: nat, i: nat :: s > 0 ==> !Travelling(net, s, i, tool)
  }

  // An unanswered question is either on its way below, or can be answered outermost.
  ghost predicate Answerable(net: Net)
  {
    forall tool: Tool :: tool in net.asked && !Done(net, net.asked[tool]) ==>
      ((0, tool) in net.pending && net.pending[(0, tool)] == net.asked[tool]) || exists s: nat, i: nat ::
          s > 0 && Travelling(net, s, i, tool)
  }

  predicate FreshFutures(net: Net)
  {
    && (forall tool <- net.asked :: net.asked[tool] < net.next)
    && (forall t, u | t in net.asked && u in net.asked && t != u :: net.asked[t] != net.asked[u])
    && (forall f <- net.woken :: f < net.next)
    && forall i, j | 0 <= i < j < |net.woken| :: net.woken[i] != net.woken[j]
  }

  ghost predicate Relayed(parent: seq<nat>, net: Net)
  {
    && Shaped(parent, net) && Sentinels(net) && AllCarried(net) && OneEach(net)
    && OutermostCurrent(net) && Answerable(net) && FreshFutures(net)
  }

  lemma StartRelayed(parent: seq<nat>)
    requires Nested(parent)
    ensures Relayed(parent, Start(|parent|))
  {
  }

  // A message put at the end of a queue.
  lemma PutTravels(parent: seq<nat>, net: Net, s: nat, m: Message)
    requires Shaped(parent, net) && s < |parent|
    ensures Shaped(parent, Put(net, s, m))
    ensures forall q: nat, i: nat, tool: Tool :: Travelling(Put(net, s, m), q, i, tool) <==>
      Travelling(net, q, i, tool) || (q == s && i == |net.log[s]| && m.event == Confirm(tool))
  {
  }

  lemma PutSentinels(parent: seq<nat>, net: Net, s: nat, m: Message)
    requires Shaped(parent, net) && s < |parent| && Sentinels(net) && !Ended(net, s)
    ensures Sentinels(Put(net, s, m))
  {
  }

  // Anything but a confirmation put on a queue changes nothing for the confirmations.
  lemma QuietPut(parent: seq<nat>, net: Net, s: nat, m: Message)
    requires Relayed(parent, net) && s < |parent| && !Ended(net, s) && !m.event.Confirm?
    ensures Relayed(parent, Put(net, s, m))
  {
    PutTravels(parent, net, s, m);
    PutSentinels(parent, net, s, m);
    hide Travelling, Sentinels, Shaped, Ended;
    var after := Put(net, s, m);
    forall tool: Tool | tool in after.asked && !Done(after, after.asked[tool])
        && !((0, tool) in after.pending && after.pending[(0, tool)] == after.asked[tool])
      ensures exists q: nat, i: nat :: q > 0 && Travelling(after, q, i, tool)
    {
      var q: nat, i: nat :| q > 0 && Travelling(net, q, i, tool);
      assert Travelling(after, q, i, tool);
    }
  }

  lemma AskRelayed(parent: seq<nat>, net: Net, s: nat, tool: Tool)
    requires Relayed(parent, net) && s < |parent| && !Ended(net, s) && Free(net, tool)
    ensures Relayed(parent, AskConfirm(net, s, tool))
  {
    var m := Message(Confirm(tool), []);
    PutTravels(parent, net, s, m);
    PutSentinels(parent, net, s, m);
    var after := AskConfirm(net, s, tool);
    assert forall q: nat, i: nat, t: Tool :: Travelling(after, q, i, t) <==> Travelling(Put(net, s, m), q, i, t);
    AskedFresh(net, after, tool);
    hide Travelling, Sentinels, Shaped, Ended, FreshFutures;
    AskedHere(net, after, s, |net.log[s]|, tool);
  }

  lemma AskedFresh(net: Net, after: Net, tool: Tool)
    requires FreshFutures(net)
    requires after.woken == net.woken && after.next == net.next + 1 && after.asked == net.asked[tool := net.next]
    ensures FreshFutures(after) && !Done(after, net.next)
  {
  }

  // A new confirmation for a free tool has appeared, with its future where it was asked.
  lemma AskedHere(net: Net, after: Net, s: nat, j: nat, tool: Tool)
    requires AllCarried(net) && OneEach(net) && OutermostCurrent(net) && Answerable(net) && Free(net, tool)
    requires forall q: nat, k: nat, t: Tool ::
        Travelling(after, q, k, t) <==> Travelling(net, q, k, t) || (q == s && k == j && t == tool)
    requires after.woken == net.woken && after.asked == net.asked[tool := net.next] && !Done(after, net.next)
    requires after.pending == net.pending[(s, tool) := net.next]
    ensures AllCarried(after) && OneEach(after) && OutermostCurrent(after) && Answerable(after)
  {
    hide Travelling;
    forall t: Tool | t in after.asked && !Done(after, after.asked[t])
        && !((0, t) in after.pending && after.pending[(0, t)] == after.asked[t])
      ensures exists q: nat, i: nat :: q > 0 && Travelling(after, q, i, t)
    {
      if t == tool {
        assert Travelling(after, s, j, t);
      } else {
        var q: nat, i: nat :| q > 0 && Travelling(net, q, i, t);
        assert Travelling(after, q, i, t);
      }
    }
  }

  // Taking the first event off a queue.
  lemma TakeTravels(parent: seq<nat>, net: Net, s: nat)
    requires Shaped(parent, net) && s < |parent| && net.taken[s] < |net.log[s]|
    ensures var rest := net.(taken := net.taken[s := net.taken[s] + 1]);
      Shaped(parent, rest) && forall q: nat, i: nat, tool: Tool ::
        Travelling(rest, q, i, tool) <==> Travelling(net, q, i, tool) && !(q == s && i == net.taken[s])
  {
  }

  // Taking off an event that is no confirmation, or any event outermost.
  lemma TakenRelayed(parent: seq<nat>, net: Net, s: nat)
    requires Relayed(parent, net) && s < |parent| && net.taken[s] < |net.log[s]|
    requires s == 0 || !net.log[s][net.taken[s]].event.Confirm?
    ensures Relayed(parent, net.(taken := net.taken[s := net.taken[s] + 1]))
  {
    var rest := net.(taken := net.taken[s := net.taken[s] + 1]);
    TakeTravels(parent, net, s);
    assert s > 0 ==> forall tool: Tool :: !Travelling(net, s, net.taken[s], tool);
    hide Travelling, Shaped;
    forall t: Tool | t in rest.asked && !Done(rest, rest.asked[t])
        && !((0, t) in rest.pending && rest.pending[(0, t)] == rest.asked[t])
      ensures exists q: nat, i: nat :: q > 0 && Travelling(rest, q, i, t)
    {
      var q: nat, i: nat :| q > 0 && Travelling(net, q, i, t);
      assert Travelling(rest, q, i, t);
    }
  }

  // A confirmation goes one session up with its future.
  lemma ConfirmForwarded(parent: seq<nat>, net: Net, s: nat, p: nat, tool: Tool)
    requires Relayed(parent, net) && 0 < s < |parent| && p < |parent| && net.taken[s] < |net.log[s]| && !Ended(net, p)
    requires net.log[s][net.taken[s]].event == Confirm(tool)
    ensures Relayed(parent, ForwardOne(net, s, p))
  {
    var m := net.log[s][net.taken[s]];
    var rest := net.(taken := net.taken[s := net.taken[s] + 1]);
    var message := Message(m.event, [s] + m.via);
    TakeTravels(parent, net, s);
    PutTravels(parent, rest, p, message);
    assert Ended(rest, p) == Ended(net, p) && Sentinels(rest);
    PutSentinels(parent, rest, p, message);
    assert Travelling(net, s, net.taken[s], tool);
    assert Carried(net, s, tool);
    var after := ForwardOne(net, s, p);
    assert forall q: nat, i: nat, t: Tool :: Travelling(after, q, i, t) <==> Travelling(Put(rest, p, message), q, i, t);
    hide Travelling, Sentinels, Shaped, Ended;
    MovedUp(net, after, s, net.taken[s], p, |net.log[p]|, tool);
  }

  // The confirmation for one tool has moved, with its future, and nothing else has changed.
  lemma MovedUp(net: Net, after: Net, s: nat, i: nat, p: nat, j: nat, tool: Tool)
    requires AllCarried(net) && OneEach(net) && OutermostCurrent(net) && Answerable(net) && FreshFutures(net)
    requires s > 0 && Travelling(net, s, i, tool) && Carried(net, s, tool)
    requires forall q: nat, k: nat, t: Tool :: Travelling(after, q, k, t) <==>
      (Travelling(net, q, k, t) && !(q == s && k == i)) || (q == p && k == j && t == tool)
    requires after.asked == net.asked && after.woken == net.woken && after.next == net.next
    requires after.pending == net.pending[(p, tool) := net.asked[tool]]
    ensures AllCarried(after) && OneEach(after) && OutermostCurrent(after) && Answerable(after) && FreshFutures(after)
  {
    hide Travelling;
    assert forall q: nat, k: nat :: Travelling(net, q, k, tool) ==> q == s && k == i;
    forall t: Tool | t in after.asked && !Done(after, after.asked[t])
        && !((0, t) in after.pending && after.pending[(0, t)] == after.asked[t])
      ensures exists q: nat, k: nat :: q > 0 && Travelling(after, q, k, t)
    {
      if t == tool {
        assert Travelling(after, p, j, t);
      } else {
        var q: nat, k: nat :| q > 0 && Travelling(net, q, k, t);
        assert !(q == s && k == i) by { if q == s && k == i { SameTool(net, s, i, tool, t); } }
        assert Travelling(after, q, k, t);
      }
    }
  }

  lemma SameTool(net: Net, s: nat, i: nat, t: Tool, u: Tool)
    requires Travelling(net, s, i, t) && Travelling(net, s, i, u)
    ensures t == u
  {
  }

  lemma ResolveRelayed(parent: seq<nat>, net: Net, tool: Tool)
    requires Relayed(parent, net)
    ensures Relayed(parent, ResolveConfirm(net, tool))
  {
    var after := ResolveConfirm(net, tool);
    assert forall q: nat, i: nat, t: Tool :: Travelling(after, q, i, t) <==> Travelling(net, q, i, t);
    hide Travelling, Shaped;
    forall t: Tool | t in after.asked && !Done(after, after.asked[t])
        && !((0, t) in after.pending && after.pending[(0, t)] == after.asked[t])
      ensures exists q: nat, i: nat :: q > 0 && Travelling(after, q, i, t)
    {
      var q: nat, i: nat :| q > 0 && Travelling(net, q, i, t);
      assert Travelling(after, q, i, t);
    }
  }

  lemma StepRelayed(parent: seq<nat>, net: Net, step: Step)
    requires Nested(parent) && Relayed(parent, net) && Enabled(parent, net, step)
    ensures Relayed(parent, After(parent, net, step))
  {
    hide AllCarried, OneEach, OutermostCurrent, Answerable, FreshFutures, Free, Sentinels;
    match step
    case Emit(s, content) => QuietPut(parent, net, s, Message(Plain(content), []));
    case Ask(s, tool) => AskRelayed(parent, net, s, tool);
    case End(s) => QuietPut(parent, net, s, Message(StageDone, []));
    case Forward(s) =>
      var m := net.log[s][net.taken[s]];
      if m.event.Confirm? {
        ConfirmForwarded(parent, net, s, parent[s], m.event.tool);
      } else {
        TakenRelayed(parent, net, s);
        if m.event != StageDone {
          var rest := net.(taken := net.taken[s := net.taken[s] + 1]);
          QuietPut(parent, rest, parent[s], Message(m.event, [s] + m.via));
        }
      }
    case Deliver => TakenRelayed(parent, net, 0);
    case Resolve(tool) => ResolveRelayed(parent, net, tool);
  }

  // ---------- events go up once and in order ----------

  // The events a queue got from one child session, as they were there.
  function From(log: seq<Message>, child: nat): seq<Message>
  {
    if log == [] then []
    else
      var last := log[|log| - 1];
      var earlier := From(log[..|log| - 1], child);
      if last.via != [] && last.via[0] == child then earlier + [Message(last.event, last.via[1..])] else earlier
  }

  lemma FromNext(log: seq<Message>, m: Message, child: nat)
    ensures From(log + [m], child) == From(log, child) + (if m.via != []
      && m.via[0] == child then [Message(m.event, m.via[1..])] else [])
  {
    assert (log + [m])[..|log|] == log;
  }

  // What the forwarder has taken off a queue, without the sentinel.
  function Passed(log: seq<Message>, n: nat): seq<Message>
    requires n <= |log|
  {
    if n > 0 && log[n - 1].event == StageDone then log[..n - 1] else log[..n]
  }

  // Every session's queue holds exactly what its children's forwarders have taken off, in order.
  ghost predicate InOrder(parent: seq<nat>, net: Net)
    requires Nested(parent) && Shaped(parent, net)
  {
    forall s | 0 < s < |parent| :: From(net.log[parent[s]], s) == Passed(net.log[s], net.taken[s])
  }

  lemma PassedKept(log: seq<Message>, m: Message, n: nat)
    requires n <= |log|
    ensures Passed(log + [m], n) == Passed(log, n)
  {
    assert (log + [m])[..n] == log[..n];
    if n > 0 { assert (log + [m])[..n - 1] == log[..n - 1]; }
  }

  lemma PassedNext(log: seq<Message>, n: nat)
    requires n < |log| && forall i | 0 <= i < |log| && log[i].event == StageDone :: i == |log| - 1
    ensures Passed(log, n + 1) == if log[n].event == StageDone then Passed(log, n) else Passed(log, n) + [log[n]]
  {
    assert log[..n + 1] == log[..n] + [log[n]];
  }

  // A message of a session's own.
  lemma OwnInOrder(parent: seq<nat>, net: Net, s: nat, m: Message)
    requires Nested(parent) && Shaped(parent, net) && InOrder(parent, net) && s < |parent| && m.via == []
    ensures Shaped(parent, Put(net, s, m)) && InOrder(parent, Put(net, s, m))
  {
    var after := Put(net, s, m);
    assert Shaped(parent, after);
    forall c | 0 < c < |parent|
      ensures From(after.log[parent[c]], c) == Passed(after.log[c], after.taken[c])
    {
      FromNext(net.log[s], m, c);
      PassedKept(net.log[s], m, net.taken[s]);
    }
  }

  // One queue's view of one child, when another message has come up.
  lemma ForwardedTo(log: seq<Message>, m: Message, s: nat, c: nat)
    ensures From(log + [Message(m.event, [s] + m.via)], c) == if c == s then From(log, c) + [m] else From(log, c)
  {
    var up := Message(m.event, [s] + m.via);
    FromNext(log, up, c);
    assert up.via[1..] == m.via && up.via[0] == s;
  }

  lemma ForwardInOrder(parent: seq<nat>, net: Net, s: nat)
    requires Nested(parent) && Shaped(parent, net) && InOrder(parent, net) && Sentinels(net)
    requires 0 < s < |parent| && net.taken[s] < |net.log[s]|
    ensures var after := ForwardOne(net, s, parent[s]); Shaped(parent, after) && InOrder(parent, after)
  {
    var after := ForwardOne(net, s, parent[s]);
    var m := net.log[s][net.taken[s]];
    var p := parent[s];
    assert p < s;
    PassedNext(net.log[s], net.taken[s]);
    hide From, Passed, Sentinels, InOrder;
    var up := Message(m.event, [s] + m.via);
    assert after.taken == net.taken[s := net.taken[s] + 1];
    assert after.log == if m.event == StageDone then net.log else net.log[p := net.log[p] + [up]];
    assert Shaped(parent, after);
    forall c | 0 < c < |parent|
      ensures From(after.log[parent[c]], c) == Passed(after.log[c], after.taken[c])
    {
      ChildInOrder(parent, net, c);
      ForwardedTo(net.log[p], m, s, c);
      PassedKept(net.log[p], up, net.taken[p]);
    }
    OrderFrom(parent, after);
  }

  lemma ChildInOrder(parent: seq<nat>, net: Net, c: nat)
    requires Nested(parent) && Shaped(parent, net) && InOrder(parent, net) && 0 < c < |parent|
    ensures From(net.log[parent[c]], c) == Passed(net.log[c], net.taken[c])
  {
  }

  lemma OrderFrom(parent: seq<nat>, net: Net)
    requires Nested(parent) && Shaped(parent, net)
    requires forall s | 0 < s < |parent| :: From(net.log[parent[s]], s) == Passed(net.log[s], net.taken[s])
    ensures InOrder(parent, net)
  {
  }

  lemma StepInOrder(parent: seq<nat>, net: Net, step: Step)
    requires Nested(parent) && Relayed(parent, net) && InOrder(parent, net) && Enabled(parent, net, step)
    ensures Shaped(parent, After(parent, net, step)) && InOrder(parent, After(parent, net, step))
  {
    hide AllCarried, OneEach, OutermostCurrent, Answerable, FreshFutures, Free;
    match step
    case Emit(s, content) => OwnInOrder(parent, net, s, Message(Plain(content), []));
    case Ask(s, tool) => OwnInOrder(parent, net, s, Message(Confirm(tool), []));
    case End(s) => OwnInOrder(parent, net, s, Message(StageDone, []));
    case Forward(s) => ForwardInOrder(parent, net, s);
    case Deliver =>
    case Resolve(tool) =>
  }

  // ---------- every run ----------

  // Any interleaving of the sessions' tasks, their forwarders and the client, from the start.
  ghost predicate Run(parent: seq<nat>, nets: seq<Net>, steps: seq<Step>)
  {
    && Nested(parent) && |nets| == |steps| + 1 && nets[0] == Start(|parent|)
    && forall i | 0 <= i < |steps| ::
         Shaped(parent, nets[i]) && Enabled(parent, nets[i], steps[i])
             && nets[i + 1] == After(parent, nets[i], steps[i])
  }

  lemma {:induction false} RunRelayed(parent: seq<nat>, nets: seq<Net>, steps: seq<Step>, i: nat)
    requires Run(parent, nets, steps) && i < |nets|
    ensures Relayed(parent, nets[i]) && InOrder(parent, nets[i])
  {
    if i == 0 {
      StartRelayed(parent);
    } else {
      RunRelayed(parent, nets, steps, i - 1);
      StepRelayed(parent, nets[i - 1], steps[i - 1]);
      StepInOrder(parent, nets[i - 1], steps[i - 1]);
    }
  }

  // When a confirmation leaves the outermost queue, its own future is pending there unless the
  // answer came even earlier; answering sets exactly that future, for the first and only time.
  lemma AnswerWakesTheAsker(parent: seq<nat>, nets: seq<Net>, steps: seq<Step>, i: nat, tool: Tool)
    requires Run(parent, nets, steps) && i < |nets|
    requires Shaped(parent, nets[i]) && Travelling(nets[i], 0, nets[i].taken[0], tool)
    ensures tool in nets[i].asked
    ensures var net := nets[i]; var f := net.asked[tool];
      f in net.woken ||
      ((0, tool) in net.pending && net.pending[(0, tool)] == f &&
       ResolveConfirm(net, tool).woken == net.woken + [f] && (0, tool) !in ResolveConfirm(net, tool).pending)
  {
    RunRelayed(parent, nets, steps, i);
    hide InOrder, OneEach, Answerable, FreshFutures, Sentinels;
    assert Carried(nets[i], 0, tool);
  }

  // No waiter is woken twice, an answer wakes nobody but the latest asker of its tool, and a
  // question nobody has answered is on its way up or can be answered.
  lemma WokenOnce(parent: seq<nat>, nets: seq<Net>, steps: seq<Step>, i: nat)
    requires Run(parent, nets, steps) && i < |steps|
    ensures forall a, b | 0 <= a < b < |nets[i].woken| :: nets[i].woken[a] != nets[i].woken[b]
    ensures nets[i + 1].woken == nets[i].woken ||
      (steps[i].Resolve? && steps[i].tool in nets[i].asked
          && nets[i + 1].woken == nets[i].woken + [nets[i].asked[steps[i].tool]])
    ensures Answerable(nets[i])
  {
    RunRelayed(parent, nets, steps, i);
    hide InOrder, OneEach, Answerable, Sentinels, AllCarried, Free;
  }

  // The events seen at a queue that came up along a path of nested sessions.
  function View(log: seq<Message>, path: seq<nat>): seq<Message>
    decreases |path|
  {
    if path == [] then log else View(From(log, path[0]), path[1..])
  }

  lemma {:induction false} FromPrefix(log: seq<Message>, n: nat, child: nat)
    requires n <= |log|
    ensures From(log[..n], child) <= From(log, child)
  {
    if n < |log| {
      FromPrefix(log[..|log| - 1], n, child);
      assert log[..|log| - 1][..n] == log[..n];
    } else {
      assert log[..n] == log;
    }
  }

  lemma {:induction false} ViewPrefix(log: seq<Message>, n: nat, path: seq<nat>)
    requires n <= |log|
    ensures View(log[..n], path) <= View(log, path)
    decreases |path|
  {
    if path != [] {
      FromPrefix(log, n, path[0]);
      var whole := From(log, path[0]);
      var part := From(log[..n], path[0]);
      assert part == whole[..|part|];
      ViewPrefix(whole, |part|, path[1..]);
    }
  }

  // A path from one session down to another.
  predicate PathDown(parent: seq<nat>, q: nat, path: seq<nat>)
    decreases |path|
  {
    path == [] || (0 < path[0] < |parent| && parent[path[0]] == q && PathDown(parent, path[0], path[1..]))
  }

  // Whatever reaches the outermost queue from a session at any depth, and whatever of it is
  // delivered, is the beginning of what that session's queue got: nothing lost, doubled or reordered.
  lemma {:induction false} SeenInOrder(parent: seq<nat>, net: Net, q: nat, path: seq<nat>)
    requires Nested(parent) && Shaped(parent, net) && InOrder(parent, net) && q < |parent| && PathDown(parent, q, path)
    ensures var s := if path == [] then q else path[|path| - 1];
      s < |parent| && View(net.log[q], path) <= net.log[s]
    decreases |path|
  {
    if path != [] {
      var c := path[0];
      SeenInOrder(parent, net, c, path[1..]);
      assert parent[c] == q && From(net.log[parent[c]], c) == Passed(net.log[c], net.taken[c]);
      var n := |Passed(net.log[c], net.taken[c])|;
      assert Passed(net.log[c], net.taken[c]) == net.log[c][..n];
      ViewPrefix(net.log[c], n, path[1..]);
    }
  }

  // Once a stage session's forwarder has taken the sentinel, everything before it has gone up.
  lemma AllForwarded(parent: seq<nat>, nets: seq<Net>, steps: seq<Step>, i: nat, s: nat)
    requires Run(parent, nets, steps) && i < |nets| && 0 < s < |parent|
    requires |nets[i].log| == |nets[i].taken| == |parent| && Ended(nets[i], s) && nets[i].taken[s] == |nets[i].log[s]|
    ensures From(nets[i].log[parent[s]], s) == nets[i].log[s][..|nets[i].log[s]| - 1]
  {
    RunRelayed(parent, nets, steps, i);
  }

  // ---------- a client that answers what it was shown ----------

  function Confirms(log: seq<Message>, tool: Tool): nat
  {
    if log == [] then 0
    else Confirms(log[..|log| - 1], tool) + (if log[|log| - 1].event == Confirm(tool) then 1 else 0)
  }

  // How many confirmations of a tool have left the outermost queue.
  function Delivered(net: Net, tool: Tool): nat
  {
    if net.log == [] || net.taken == [] || net.taken[0] > |net.log[0]| then 0
    else Confirms(net.log[0][..net.taken[0]], tool)
  }

  function Asks(steps: seq<Step>, tool: Tool): nat
  {
    if steps == [] then 0
    else
      var last := steps[|steps| - 1];
      Asks(steps[..|steps| - 1], tool) + (if last.Ask? && last.tool == tool then 1 else 0)
  }

  function Answers(steps: seq<Step>, tool: Tool): nat
  {
    if steps == [] then 0
    else Answers(steps[..|steps| - 1], tool) + (if steps[|steps| - 1] == Resolve(tool) then 1 else 0)
  }

  // Every answer is to a confirmation that was delivered and not answered before.
  ghost predicate Attentive(nets: seq<Net>, steps: seq<Step>)
    requires |nets| == |steps| + 1
  {
    forall i | 0 <= i < |steps| && steps[i].Resolve? ::
      Answers(steps[..i], steps[i].tool) < Delivered(nets[i], steps[i].tool)
  }

  ghost predicate OnItsWay(net: Net, tool: Tool)
  {
    exists s: nat, i: nat :: Travelling(net, s, i, tool)
  }

  // All questions of a tool but one on its way were delivered, and all but an open one were answered.
  ghost predicate Counted(net: Net, tool: Tool, asks: nat, answers: nat)
  {
    && Delivered(net, tool) == asks - (if OnItsWay(net, tool) then 1 else 0)
    && answers == asks - (if tool in net.asked && !Done(net, net.asked[tool]) then 1 else 0)
    && answers <= Delivered(net, tool)
    && (tool !in net.asked ==> asks == 0)
  }

  lemma ConfirmsNext(log: seq<Message>, n: nat, tool: Tool)
    requires n < |log|
    ensures Confirms(log[..n + 1], tool) == Confirms(log[..n], tool) + (if log[n].event == Confirm(tool) then 1 else 0)
  {
    assert log[..n + 1][..n] == log[..n];
  }

  // What is put on a queue does not change what was delivered.
  lemma PutDelivers(parent: seq<nat>, net: Net, after: Net, s: nat, m: Message, tool: Tool)
    requires Shaped(parent, net) && s < |parent| && after.log == Put(net, s, m).log && after.taken == net.taken
    ensures Delivered(after, tool) == Delivered(net, tool)
  {
    assert after.log[0][..net.taken[0]] == net.log[0][..net.taken[0]];
  }

  lemma DeliverCounted(parent: seq<nat>, net: Net, tool: Tool, asks: nat, answers: nat)
    requires Relayed(parent, net) && |parent| > 0 && net.taken[0] < |net.log[0]| && Counted(net, tool, asks, answers)
    ensures Counted(net.(taken := net.taken[0 := net.taken[0] + 1]), tool, asks, answers)
  {
    var after := net.(taken := net.taken[0 := net.taken[0] + 1]);
    TakeTravels(parent, net, 0);
    ConfirmsNext(net.log[0], net.taken[0], tool);
    hide Confirms;
    if net.log[0][net.taken[0]].event == Confirm(tool) {
      assert Travelling(net, 0, net.taken[0], tool);
      hide Travelling;
      assert OnItsWay(net, tool) && !OnItsWay(after, tool);
    } else {
      assert !Travelling(net, 0, net.taken[0], tool);
      hide Travelling;
      assert OnItsWay(after, tool) == OnItsWay(net, tool);
    }
  }

  lemma ForwardCounted(parent: seq<nat>, net: Net, s: nat, tool: Tool, asks: nat, answers: nat)
    requires Nested(parent) && Relayed(parent, net) && 0 < s < |parent| && net.taken[s] < |net.log[s]|
    requires Counted(net, tool, asks, answers)
    ensures Counted(ForwardOne(net, s, parent[s]), tool, asks, answers)
  {
    var p := parent[s];
    var m := net.log[s][net.taken[s]];
    var rest := net.(taken := net.taken[s := net.taken[s] + 1]);
    var after := ForwardOne(net, s, p);
    TakeTravels(parent, net, s);
    assert Delivered(rest, tool) == Delivered(net, tool);
    if m.event != StageDone {
      var up := Message(m.event, [s] + m.via);
      PutTravels(parent, rest, p, up);
      PutDelivers(parent, rest, after, p, up, tool);
      assert forall q: nat, i: nat :: Travelling(after, q, i, tool) <==> Travelling(Put(rest, p, up), q, i, tool);
      if m.event == Confirm(tool) {
        assert Travelling(net, s, net.taken[s], tool) && Travelling(after, p, |net.log[p]|, tool);
      }
    }
    assert m.event != Confirm(tool) ==> !Travelling(net, s, net.taken[s], tool);
    hide Travelling, Delivered;
    assert OnItsWay(after, tool) == OnItsWay(net, tool);
  }

  lemma AskCounted(parent: seq<nat>, net: Net, s: nat, asked: Tool, tool: Tool, asks: nat, answers: nat)
    requires Relayed(parent, net) && s < |parent| && Free(net, asked) && Counted(net, tool, asks, answers)
    ensures Counted(AskConfirm(net, s, asked), tool, asks + (if asked == tool then 1 else 0), answers)
  {
    var m := Message(Confirm(asked), []);
    var after := AskConfirm(net, s, asked);
    PutTravels(parent, net, s, m);
    PutDelivers(parent, net, after, s, m, tool);
    assert forall q: nat, i: nat :: Travelling(after, q, i, tool) <==> Travelling(Put(net, s, m), q, i, tool);
    if asked == tool { assert Travelling(after, s, |net.log[s]|, tool); }
    hide Travelling, Delivered;
    assert asked != tool ==> OnItsWay(after, tool) == OnItsWay(net, tool);
    assert asked == tool ==> OnItsWay(after, tool) && !OnItsWay(net, tool);
  }

  // Such an answer finds the open question at the outermost session.
  lemma ResolveCounted(parent: seq<nat>, net: Net, answered: Tool, tool: Tool, asks: nat, answers: nat)
    requires Relayed(parent, net) && Counted(net, tool, asks, answers)
    requires answered == tool ==> answers < Delivered(net, tool)
    ensures Counted(ResolveConfirm(net, answered), tool, asks, answers + (if answered == tool then 1 else 0))
  {
    var after := ResolveConfirm(net, answered);
    assert forall q: nat, i: nat :: Travelling(after, q, i, tool) <==> Travelling(net, q, i, tool);
    assert Delivered(after, tool) == Delivered(net, tool);
    assert answered == tool ==> !OnItsWay(net, tool);
    hide Travelling, Delivered;
    assert OnItsWay(after, tool) == OnItsWay(net, tool);
  }

  lemma PutCounted(parent: seq<nat>, net: Net, s: nat, m: Message, tool: Tool, asks: nat, answers: nat)
    requires Shaped(parent, net) && s < |parent| && !m.event.Confirm? && Counted(net, tool, asks, answers)
    ensures Counted(Put(net, s, m), tool, asks, answers)
  {
    PutTravels(parent, net, s, m);
    PutDelivers(parent, net, Put(net, s, m), s, m, tool);
    hide Travelling, Delivered;
    assert OnItsWay(Put(net, s, m), tool) == OnItsWay(net, tool);
  }

  lemma StepCounted(parent: seq<nat>, net: Net, step: Step, tool: Tool, asks: nat, answers: nat)
    requires Nested(parent) && Relayed(parent, net) && Enabled(parent, net, step) && Counted(net, tool, asks, answers)
    requires step == Resolve(tool) ==> answers < Delivered(net, tool)
    ensures Counted(After(parent, net, step), tool, asks + (if step.Ask? && step.tool == tool then 1 else 0),
                    answers + (if step == Resolve(tool) then 1 else 0))
  {
    hide Counted, Free, Travelling, Delivered, AllCarried, OneEach, OutermostCurrent, Answerable, FreshFutures,
      Sentinels;
    match step
    case Emit(s, content) => PutCounted(parent, net, s, Message(Plain(content), []), tool, asks, answers);
    case Ask(s, asked) => AskCounted(parent, net, s, asked, tool, asks, answers);
    case End(s) => PutCounted(parent, net, s, Message(StageDone, []), tool, asks, answers);
    case Forward(s) => ForwardCounted(parent, net, s, tool, asks, answers);
    case Deliver => DeliverCounted(parent, net, tool, asks, answers);
    case Resolve(answered) => ResolveCounted(parent, net, answered, tool, asks, answers);
  }

  lemma {:induction false} RunCounted(parent: seq<nat>, nets: seq<Net>, steps: seq<Step>, i: nat, tool: Tool)
    requires Run(parent, nets, steps) && Attentive(nets, steps) && i < |nets|
    ensures Counted(nets[i], tool, Asks(steps[..i], tool), Answers(steps[..i], tool))
  {
    hide Relayed, Counted, InOrder, Enabled, Delivered, After, Asks, Answers;
    if i == 0 {
      StartCounted(parent, tool);
    } else {
      RunCounted(parent, nets, steps, i - 1, tool);
      RunRelayed(parent, nets, steps, i - 1);
      StepCounts(steps, i - 1, tool);
      StepCounted(parent, nets[i - 1], steps[i - 1], tool, Asks(steps[..i - 1], tool), Answers(steps[..i - 1], tool));
    }
  }

  lemma StartCounted(parent: seq<nat>, tool: Tool)
    ensures Counted(Start(|parent|), tool, Asks([], tool), Answers([], tool))
  {
    assert !OnItsWay(Start(|parent|), tool);
  }

  lemma StepCounts(steps: seq<Step>, i: nat, tool: Tool)
    requires i < |steps|
    ensures Asks(steps[..i + 1], tool) ==
        Asks(steps[..i], tool) + (if steps[i].Ask? && steps[i].tool == tool then 1 else 0)
    ensures Answers(steps[..i + 1], tool) == Answers(steps[..i], tool) + (if steps[i] == Resolve(tool) then 1 else 0)
  {
    assert steps[..i + 1][..i] == steps[..i];
  }

  // With a client that answers only confirmations it was shown, each one once: whenever a confirmation
  // leaves the outermost queue, its own future is pending there and not set, and the answer sets it.
  lemma AskerStillWaits(parent: seq<nat>, nets: seq<Net>, steps: seq<Step>, i: nat, tool: Tool)
    requires Run(parent, nets, steps) && Attentive(nets, steps) && i < |nets|
    requires Shaped(parent, nets[i]) && Travelling(nets[i], 0, nets[i].taken[0], tool)
    ensures var net := nets[i];
      && tool in net.asked && net.asked[tool] !in net.woken
      && (0, tool) in net.pending && net.pending[(0, tool)] == net.asked[tool]
      && ResolveConfirm(net, tool).woken == net.woken + [net.asked[tool]]
  {
    RunCounted(parent, nets, steps, i, tool);
    AnswerWakesTheAsker(parent, nets, steps, i, tool);
    assert OnItsWay(nets[i], tool);
  }

  // And every answer such a client gives wakes the latest asker of its tool.
  lemma AnswerNeverLost(parent: seq<nat>, nets: seq<Net>, steps: seq<Step>, i: nat)
    requires Run(parent, nets, steps) && Attentive(nets, steps) && i < |steps| && steps[i].Resolve?
    ensures var tool := steps[i].tool;
      tool in nets[i].asked && nets[i + 1].woken == nets[i].woken + [nets[i].asked[tool]]
  {
    hide Relayed, Counted, InOrder, Delivered, ResolveConfirm, Enabled;
    var tool := steps[i].tool;
    RunCounted(parent, nets, steps, i, tool);
    RunRelayed(parent, nets, steps, i);
    AnswerFinds(parent, nets[i], tool, Asks(steps[..i], tool), Answers(steps[..i], tool));
    assert After(parent, nets[i], steps[i]) == ResolveConfirm(nets[i], tool);
  }

  lemma AnswerFinds(parent: seq<nat>, net: Net, tool: Tool, asks: nat, answers: nat)
    requires Relayed(parent, net) && Counted(net, tool, asks, answers) && answers < Delivered(net, tool)
    ensures tool in net.asked && ResolveConfirm(net, tool).woken == net.woken + [net.asked[tool]]
  {
    hide Travelling, Delivered, Shaped, Sentinels, AllCarried, OneEach, FreshFutures;
    assert !OnItsWay(net, tool);
  }
}
