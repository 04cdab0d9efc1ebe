/** Blocking pops on list keys: pushes, pops, clients that wait, receive and time out, in any
    interleaving. Each key has its own state; runs over many keys come last. */
module BlockingPop {
  import opened Text
  import opened ZSets
  import opened Keyspace

  /** A client in BLPOP: waiting in its select, past its timer but not yet off the queue, or done. */
  datatype Phase = Waiting | TimedOut | Finished

  /** `channel` is the buffer of its channel, `sends` counts what was ever sent to it, and `result` is
      the value it returned. */
  datatype Waiter = Waiter(channel: seq<string>, phase: Phase, forever: bool, sends: nat, result: Option<string>)

  /** The state of a key, with everything ever pushed, popped at once, and dropped. */
  datatype State = State(
    items: seq<string>,
    queue: seq<nat>,
    waiters: seq<Waiter>,
    pushed: multiset<string>,
    popped: multiset<string>,
    dropped: multiset<string>)

  const EMPTY_KEY := State([], [], [], multiset{}, multiset{}, multiset{})

  datatype Label =
    | Push(values: seq<string>, right: bool)
    | Pop(count: nat)
    | Block(forever: bool)
    | Receive(who: nat)
    | TimerFires(who: nat)
    | GiveUp(who: nat)

  function Sent(w: Waiter, v: string): Waiter { w.(channel := w.channel + [v], sends := w.sends + 1) }

  /** The sends of a push, in order. */
  function Deliver(waiters: seq<Waiter>, ids: seq<nat>, vs: seq<string>): (r: seq<Waiter>)
    requires |ids| == |vs| && forall i :: 0 <= i < |ids| ==> ids[i] < |waiters|
    ensures |r| == |waiters|
    decreases |ids|
  {
    if ids == [] then waiters else
      Deliver(waiters[ids[0] := Sent(waiters[ids[0]], vs[0])], ids[1..], vs[1..])
  }

  predicate Enabled(s: State, l: Label) {
    match l
    case Push(_, _) => forall i :: 0 <= i < |s.queue| ==> s.queue[i] < |s.waiters|
    case Pop(_) => true
    case Block(_) => s.items == []
    case Receive(w) => w < |s.waiters| && s.waiters[w].phase == Waiting && s.waiters[w].channel != []
    case TimerFires(w) => w < |s.waiters| && s.waiters[w].phase == Waiting && !s.waiters[w].forever
    case GiveUp(w) => w < |s.waiters| && s.waiters[w].phase == TimedOut
  }

  function Dequeued(queue: seq<nat>, w: nat): seq<nat> {
    if queue == [] then [] else if queue[0] == w then queue[1..] else [queue[0]] + Dequeued(queue[1..], w)
  }

  function Step(s: State, l: Label): State
    requires Enabled(s, l)
  {
    match l
    case Push(values, right) =>
      var vs := if right then values else Reverse(values);
      var n := Min(|s.queue|, |vs|);
      s.(waiters := Deliver(s.waiters, s.queue[..n], vs[..n]),
         queue := s.queue[n..],
         items := if right then s.items + vs[n..] else vs[n..] + s.items,
         pushed := s.pushed + multiset(values))
    case Pop(count) =>
      var n := Min(count, |s.items|);
      s.(items := s.items[n..], popped := s.popped + multiset(s.items[..n]))
    case Block(forever) =>
      s.(waiters := s.waiters + [Waiter([], Waiting, forever, 0, None)], queue := s.queue + [|s.waiters|])
    case Receive(w) =>
      var c := s.waiters[w];
      s.(waiters := s.waiters[w := c.(channel := c.channel[1..], phase := Finished, result := Some(c.channel[0]))])
    case TimerFires(w) => s.(waiters := s.waiters[w := s.waiters[w].(phase := TimedOut)])
    case GiveUp(w) =>
      var c := s.waiters[w];
      s.(queue := Dequeued(s.queue, w),
         waiters := s.waiters[w := c.(channel := [], phase := Finished)],
         dropped := s.dropped + multiset(c.channel))
  }

  // ---------------------------------------------------------------------------------------
  // The invariant
  // ---------------------------------------------------------------------------------------

  /** A waiter on the queue was sent nothing; one off it holds a value, has returned or gave up. */
  ghost predicate WaiterOk(w: Waiter, queued: bool) {
    && w.sends <= 1
    && (queued ==> w.sends == 0 && w.channel == [] && w.phase != Finished && w.result == None)
    && (!queued && w.phase != Finished ==> w.sends == 1 && |w.channel| == 1 && w.result == None)
    && (w.phase == Finished ==> w.channel == [])
  }

  /** Ids queue in the order the clients came, and no later client was served before a queued one. */
  ghost predicate Fifo(s: State) {
    && (forall i, j :: 0 <= i < j < |s.queue| ==> s.queue[i] < s.queue[j])
    && (forall w, v :: w in s.queue && w < v < |s.waiters| ==> s.waiters[v].sends == 0)
  }

  ghost predicate Inv(s: State) {
    && (forall i :: 0 <= i < |s.queue| ==> s.queue[i] < |s.waiters|)
    && (forall w :: 0 <= w < |s.waiters| ==> WaiterOk(s.waiters[w], w in s.queue))
    && (s.queue != [] ==> s.items == [])
    && Fifo(s)
  }

  function Count(vs: seq<string>, x: string): nat { multiset(vs)[x] }

  /** The copies of `x` in a waiter's channel or returned by it, and in or by all of them. */
  function Own(w: Waiter, x: string): nat {
    Count(w.channel, x) + if w.result == Some(x) then 1 else 0
  }

  function Held(ws: seq<Waiter>, x: string): nat {
    if ws == [] then 0 else Held(ws[..|ws| - 1], x) + Own(ws[|ws| - 1], x)
  }

  /** Every copy of `x` ever pushed is in exactly one place: the list, a channel, a result, a pop, or
      dropped. */
  ghost predicate Conserved(s: State, x: string) {
    s.pushed[x] == Count(s.items, x) + Held(s.waiters, x) + s.popped[x] + s.dropped[x]
  }

  lemma CountConcat(a: seq<string>, b: seq<string>, x: string)
    ensures Count(a + b, x) == Count(a, x) + Count(b, x)
  {
  }

  lemma CountSplit(vs: seq<string>, n: nat, x: string)
    requires n <= |vs|
    ensures Count(vs, x) == Count(vs[..n], x) + Count(vs[n..], x)
  {
    assert vs == vs[..n] + vs[n..];
  }

  lemma {:induction false} HeldUpdate(ws: seq<Waiter>, i: nat, w: Waiter, x: string)
    requires i < |ws|
    ensures Held(ws[i := w], x) == Held(ws, x) - Own(ws[i], x) + Own(w, x)
  {
    var us, n := ws[i := w], |ws| - 1;
    if i < n {
      HeldUpdate(ws[..n], i, w, x);
      assert us[..n] == ws[..n][i := w];
      assert us[n] == ws[n] && ws[..n][i] == ws[i];
    } else {
      assert us[..n] == ws[..n];
    }
  }

  lemma HeldSend(ws: seq<Waiter>, id: nat, v: string, x: string)
    requires id < |ws|
    ensures Held(ws[id := Sent(ws[id], v)], x) == Held(ws, x) + Count([v], x)
  {
    HeldUpdate(ws, id, Sent(ws[id], v), x);
    CountConcat(ws[id].channel, [v], x);
  }

  lemma {:induction false} HeldDeliver(ws: seq<Waiter>, ids: seq<nat>, vs: seq<string>, x: string)
    requires |ids| == |vs| && forall i :: 0 <= i < |ids| ==> ids[i] < |ws|
    ensures Held(Deliver(ws, ids, vs), x) == Held(ws, x) + Count(vs, x)
    decreases |ids|
  {
    if ids != [] {
      var us := ws[ids[0] := Sent(ws[ids[0]], vs[0])];
      HeldSend(ws, ids[0], vs[0], x);
      HeldDeliver(us, ids[1..], vs[1..], x);
      CountSplit(vs, 1, x);
      assert vs[..1] == [vs[0]];
      assert Deliver(ws, ids, vs) == Deliver(us, ids[1..], vs[1..]);
    }
  }

  lemma PushConserves(s: State, values: seq<string>, right: bool, x: string)
    requires Conserved(s, x) && Enabled(s, Push(values, right))
    ensures Conserved(Step(s, Push(values, right)), x)
  {
    var vs := if right then values else Reverse(values);
    var n := Min(|s.queue|, |vs|);
    HeldDeliver(s.waiters, s.queue[..n], vs[..n], x);
    CountSplit(vs, n, x);
    CountConcat(s.items, vs[n..], x);
    CountConcat(vs[n..], s.items, x);
  }

  lemma PopConserves(s: State, count: nat, x: string)
    requires Conserved(s, x)
    ensures Conserved(Step(s, Pop(count)), x)
  {
    CountSplit(s.items, Min(count, |s.items|), x);
  }

  lemma BlockConserves(s: State, forever: bool, x: string)
    requires Conserved(s, x) && Enabled(s, Block(forever))
    ensures Conserved(Step(s, Block(forever)), x)
  {
    HeldAppend(s.waiters, Waiter([], Waiting, forever, 0, None), x);
  }

  lemma HeldAppend(ws: seq<Waiter>, w: Waiter, x: string)
    ensures Held(ws + [w], x) == Held(ws, x) + Own(w, x)
  {
    assert (ws + [w])[..|ws|] == ws;
  }

  lemma ReceiveConserves(s: State, w: nat, x: string)
    requires Inv(s) && Conserved(s, x) && Enabled(s, Receive(w))
    ensures Conserved(Step(s, Receive(w)), x)
  {
    var c := s.waiters[w];
    assert WaiterOk(c, w in s.queue);
    HeldUpdate(s.waiters, w, c.(channel := c.channel[1..], phase := Finished, result := Some(c.channel[0])), x);
    assert c.channel == [c.channel[0]] && c.channel[1..] == [];
  }

  lemma TimeoutConserves(s: State, l: Label, x: string)
    requires Conserved(s, x) && Enabled(s, l) && (l.TimerFires? || l.GiveUp?)
    ensures Conserved(Step(s, l), x)
  {
    HeldUpdate(s.waiters, l.who, Step(s, l).waiters[l.who], x);
  }

  /** Each step moves values from one place to another, and loses none. */
  lemma StepConserves(s: State, l: Label, x: string)
    requires Inv(s) && Conserved(s, x) && Enabled(s, l)
    ensures Conserved(Step(s, l), x)
  {
    match l {
      case Push(values, right) => PushConserves(s, values, right, x);
      case Pop(count) => PopConserves(s, count, x);
      case Block(forever) => BlockConserves(s, forever, x);
      case Receive(w) => ReceiveConserves(s, w, x);
      case TimerFires(_) => TimeoutConserves(s, l, x);
      case GiveUp(_) => TimeoutConserves(s, l, x);
    }
  }

  // --- the invariant is kept -------------------------------------------------------------

  /** A push reaches each of its waiters once, and no one else. */
  lemma {:induction false} DeliverTo(ws: seq<Waiter>, ids: seq<nat>, vs: seq<string>, w: nat)
    requires |ids| == |vs| && (forall i :: 0 <= i < |ids| ==> ids[i] < |ws|) && w < |ws|
    requires forall i, j :: 0 <= i < j < |ids| ==> ids[i] < ids[j]
    ensures w !in ids ==> Deliver(ws, ids, vs)[w] == ws[w]
    ensures forall i :: 0 <= i < |ids| && ids[i] == w ==>
      Deliver(ws, ids, vs)[w] == Sent(ws[w], vs[i])
    decreases |ids|
  {
    if ids != [] {
      var ws' := ws[ids[0] := Sent(ws[ids[0]], vs[0])];
      DeliverTo(ws', ids[1..], vs[1..], w);
      assert forall i :: 0 < i < |ids| ==> ids[i] == ids[1..][i - 1] && vs[i] == vs[1..][i - 1];
      if w == ids[0] {
        assert w !in ids[1..];
      }
    }
  }

  /** The capacity-one send never blocks: every waiter a push serves has an empty channel, and was
      never sent anything before. */
  lemma SendNeverBlocks(s: State, n: nat)
    requires Inv(s) && n <= |s.queue|
    ensures forall i :: 0 <= i < n ==> s.waiters[s.queue[i]].channel == [] && s.waiters[s.queue[i]].sends == 0
  {
    forall i | 0 <= i < n
      ensures s.waiters[s.queue[i]].channel == [] && s.waiters[s.queue[i]].sends == 0
    {
      assert WaiterOk(s.waiters[s.queue[i]], s.queue[i] in s.queue);
    }
  }

  lemma PushedWaiter(s: State, vs: seq<string>, n: nat, w: nat)
    requires Inv(s) && n == Min(|s.queue|, |vs|) && w < |s.waiters|
    ensures var c := Deliver(s.waiters, s.queue[..n], vs[..n])[w];
            && WaiterOk(c, w in s.queue[n..])
            && (w in s.queue[..n] ==> w !in s.queue[n..] && c.sends == 1)
            && (w !in s.queue[..n] ==> c == s.waiters[w])
  {
    DeliverTo(s.waiters, s.queue[..n], vs[..n], w);
    assert WaiterOk(s.waiters[w], w in s.queue);
    assert s.queue == s.queue[..n] + s.queue[n..];
  }

  lemma PushFifo(s: State, vs: seq<string>, n: nat, t: State)
    requires Inv(s) && n == Min(|s.queue|, |vs|)
    requires t.queue == s.queue[n..] && t.waiters == Deliver(s.waiters, s.queue[..n], vs[..n])
    ensures Fifo(t)
  {
    forall w, v | w in t.queue && w < v < |t.waiters|
      ensures t.waiters[v].sends == 0
    {
      PushedWaiter(s, vs, n, v);
    }
  }

  lemma PushInv(s: State, values: seq<string>, right: bool)
    requires Inv(s)
    ensures Inv(Step(s, Push(values, right)))
  {
    var vs := if right then values else Reverse(values);
    var n := Min(|s.queue|, |vs|);
    var t := Step(s, Push(values, right));
    forall w | 0 <= w < |t.waiters|
      ensures WaiterOk(t.waiters[w], w in t.queue)
    {
      PushedWaiter(s, vs, n, w);
    }
    PushFifo(s, vs, n, t);
  }

  ghost predicate Ascending(queue: seq<nat>) {
    forall i, j :: 0 <= i < j < |queue| ==> queue[i] < queue[j]
  }

  lemma ConsAscending(first: nat, rest: seq<nat>, queue: seq<nat>)
    requires Ascending(rest) && (forall v :: v in rest ==> first < v) && queue == [first] + rest
    ensures Ascending(queue)
  {
    forall i, j | 0 <= i < j < |queue|
      ensures queue[i] < queue[j]
    {
      assert queue[j] == rest[j - 1] && rest[j - 1] in rest;
      assert i > 0 ==> queue[i] == rest[i - 1];
    }
  }

  lemma {:induction false} DequeuedMembers(queue: seq<nat>, w: nat)
    requires Ascending(queue)
    ensures forall v :: v in Dequeued(queue, w) <==> v in queue && v != w
    ensures Ascending(Dequeued(queue, w))
  {
    if queue != [] {
      var tail := queue[1..];
      assert queue == [queue[0]] + tail;
      assert forall i :: 0 <= i < |tail| ==> tail[i] == queue[i + 1];
      assert forall v :: v in tail ==> queue[0] < v;
      if queue[0] != w {
        DequeuedMembers(tail, w);
        ConsAscending(queue[0], Dequeued(tail, w), Dequeued(queue, w));
      }
    }
  }

  lemma BlockInv(s: State, forever: bool)
    requires Inv(s) && s.items == []
    ensures Inv(Step(s, Block(forever)))
  {
    var t := Step(s, Block(forever));
    assert t.queue[..|s.queue|] == s.queue;
    assert forall w :: 0 <= w < |s.waiters| ==> (w in t.queue <==> w in s.queue);
    assert |s.waiters| in t.queue by {
      assert t.queue[|s.queue|] == |s.waiters|;
    }
  }

  lemma GiveUpInv(s: State, w: nat)
    requires Inv(s) && Enabled(s, GiveUp(w))
    ensures Inv(Step(s, GiveUp(w)))
  {
    var t := Step(s, GiveUp(w));
    DequeuedMembers(s.queue, w);
    assert WaiterOk(s.waiters[w], w in s.queue);
    forall v | 0 <= v < |t.waiters|
      ensures WaiterOk(t.waiters[v], v in t.queue)
    {
      assert WaiterOk(s.waiters[v], v in s.queue);
    }
    assert forall i :: 0 <= i < |t.queue| ==> t.queue[i] in s.queue;
  }

  lemma ReceiveInv(s: State, l: Label)
    requires Inv(s) && Enabled(s, l) && (l.Receive? || l.TimerFires?)
    ensures Inv(Step(s, l))
  {
    assert WaiterOk(s.waiters[l.who], l.who in s.queue);
  }

  lemma StepInv(s: State, l: Label)
    requires Inv(s) && Enabled(s, l)
    ensures Inv(Step(s, l))
  {
    match l {
      case Push(values, right) => PushInv(s, values, right);
      case Pop(_) =>
      case Block(forever) => BlockInv(s, forever);
      case Receive(_) => ReceiveInv(s, l);
      case TimerFires(_) => ReceiveInv(s, l);
      case GiveUp(w) => GiveUpInv(s, w);
    }
  }

  // ---------------------------------------------------------------------------------------
  // Runs
  // ---------------------------------------------------------------------------------------

  /** The state after a run; a label that is not enabled does not happen. */
  function Run(ls: seq<Label>): State {
    if ls == [] then EMPTY_KEY else
      var s := Run(ls[..|ls| - 1]);
      if Enabled(s, ls[|ls| - 1]) then Step(s, ls[|ls| - 1]) else s
  }

  /** In every interleaving: each waiter is sent at most one value, a waiting client off the queue has
      its value ready, clients are served in the order they came, a key with waiters has no
      elements, and every pushed value is in exactly one place. */
  lemma {:induction false} RunIsSafe(ls: seq<Label>, x: string)
    ensures Inv(Run(ls)) && Conserved(Run(ls), x)
  {
    if ls != [] {
      var s := Run(ls[..|ls| - 1]);
      RunIsSafe(ls[..|ls| - 1], x);
      if Enabled(s, ls[|ls| - 1]) {
        StepInv(s, ls[|ls| - 1]);
        StepConserves(s, ls[|ls| - 1], x);
      }
    }
  }

  /** A value is dropped only when a waiter whose channel is full completes its timeout. */
  lemma DropsOnlyAtTimeout(s: State, l: Label)
    requires Inv(s) && Enabled(s, l)
    ensures Step(s, l).dropped != s.dropped <==> l.GiveUp? && s.waiters[l.who].channel != []
  {
    if l.GiveUp? {
      var c := s.waiters[l.who].channel;
      if c != [] {
        assert c[0] in multiset(c);
        assert Step(s, l).dropped[c[0]] > s.dropped[c[0]];
      } else {
        assert Step(s, l).dropped == s.dropped;
      }
    }
  }

  /** At some point of the run a waiter whose channel is full completes its timeout. */
  ghost predicate FullGiveUp(ls: seq<Label>, n: nat)
    requires n < |ls|
  {
    var s, l := Run(ls[..n]), ls[n];
    l.GiveUp? && Enabled(s, l) && s.waiters[l.who].channel != []
  }

  ghost predicate DropsIn(ls: seq<Label>) {
    exists n :: 0 <= n < |ls| && FullGiveUp(ls, n)
  }

  lemma DropsInStep(ls: seq<Label>)
    requires ls != []
    ensures DropsIn(ls) <==> DropsIn(ls[..|ls| - 1]) || FullGiveUp(ls, |ls| - 1)
  {
    var before := ls[..|ls| - 1];
    forall n | 0 <= n < |before|
      ensures FullGiveUp(ls, n) <==> FullGiveUp(before, n)
    {
      assert ls[..n] == before[..n] && ls[n] == before[n];
    }
    if n :| 0 <= n < |before| && FullGiveUp(before, n) {
      assert FullGiveUp(ls, n);
    }
  }

  lemma DropsGrow(s: State, l: Label)
    requires Enabled(s, l)
    ensures Step(s, l).dropped == multiset{} ==> s.dropped == multiset{}
  {
  }

  /** Over every interleaving: something was dropped if and only if a waiter with a full channel
      completed its timeout. */
  lemma {:induction false} RunDropsExactly(ls: seq<Label>)
    ensures Run(ls).dropped != multiset{} <==> DropsIn(ls)
  {
    if ls != [] {
      var before, l := ls[..|ls| - 1], ls[|ls| - 1];
      RunDropsExactly(before);
      DropsInStep(ls);
      if Enabled(Run(before), l) {
        RunIsSafe(before, "");
        DropsOnlyAtTimeout(Run(before), l);
        DropsGrow(Run(before), l);
      }
    }
  }

  /** Without such a timeout nothing is lost: every pushed value is in the list, in a channel, in a
      result or was popped. */
  lemma NothingIsLost(ls: seq<Label>, x: string)
    requires !DropsIn(ls)
    ensures var s := Run(ls); s.pushed[x] == Count(s.items, x) + Held(s.waiters, x) + s.popped[x]
  {
    RunIsSafe(ls, x);
    RunDropsExactly(ls);
  }

  /** In every reachable state a push finds the channel of every client it serves empty and never sent
      to, and leaves exactly its one value there. */
  lemma PushNeverBlocks(ls: seq<Label>, values: seq<string>, right: bool, i: nat)
    requires var s := Run(ls); i < |s.queue| && i < |values|
    ensures Enabled(Run(ls), Push(values, right))
    ensures var s := Run(ls);
            var w, t := s.queue[i], Step(s, Push(values, right));
            && w < |s.waiters| && s.waiters[w].channel == [] && s.waiters[w].sends == 0
            && w < |t.waiters| && t.waiters[w].sends == 1
            && t.waiters[w].channel == [if right then values[i] else values[|values| - 1 - i]]
  {
    RunIsSafe(ls, "");
    ReverseAt(values, i);
    ServedWaiter(Run(ls), if right then values else Reverse(values), i);
  }

  lemma ServedWaiter(s: State, vs: seq<string>, i: nat)
    requires Inv(s) && i < |s.queue| && i < |vs|
    ensures var n := Min(|s.queue|, |vs|);
            var w := s.queue[i];
            && w < |s.waiters| && s.waiters[w].channel == [] && s.waiters[w].sends == 0
            && Deliver(s.waiters, s.queue[..n], vs[..n])[w] == s.waiters[w].(channel := [vs[i]], sends := 1)
  {
    var n := Min(|s.queue|, |vs|);
    var ids := s.queue[..n];
    SendNeverBlocks(s, n);
    assert ids[i] == s.queue[i] && vs[..n][i] == vs[i];
    DeliverTo(s.waiters, ids, vs[..n], ids[i]);
  }

  /** A push of this machine is push-then-serve: the first waiters get the first values of the pushed
      list, and the rest of it is the list. With `ListPushServes`, it is `ListPush` on the key. */
  lemma PushServes(s: State, values: seq<string>, right: bool, t: State)
    requires s.queue != [] ==> s.items == []
    requires Enabled(s, Push(values, right)) && t == Step(s, Push(values, right))
    ensures var all := PushedList(s.items, values, right);
            var n := Min(|s.queue|, |all|);
            && t.waiters == Deliver(s.waiters, s.queue[..n], all[..n])
            && t.queue == s.queue[n..]
            && t.items == all[n..]
  {
    var vs := if right then values else Reverse(values);
    ServeSplit(s.items, vs, right, |s.queue|);
  }

  // ---------------------------------------------------------------------------------------
  // First in, first out
  // ---------------------------------------------------------------------------------------

  function Given(l: Label): seq<string> { if l.Push? then l.values else [] }

  /** Everything pushed in a run, in order. */
  function PushedIn(ls: seq<Label>): seq<string> {
    if ls == [] then [] else
      var before, l := ls[..|ls| - 1], ls[|ls| - 1];
      PushedIn(before) + if Enabled(Run(before), l) then Given(l) else []
  }

  /** The values in the channels of the first `n` waiters of a queue. */
  function Received(queue: seq<nat>, waiters: seq<Waiter>, n: int): seq<string> {
    if n <= 0 || n > |queue| then [] else
      Received(queue, waiters, n - 1) + if queue[n - 1] < |waiters| then waiters[queue[n - 1]].channel else []
  }

  /** What a step takes off the key: a pop as many elements as the list has fewer, from the left, and a push
      what the waiters it served then hold, the oldest waiter first. */
  function Taken(s: State, l: Label, t: State): seq<string> {
    match l
    case Pop(_) => if |t.items| <= |s.items| then s.items[..|s.items| - |t.items|] else []
    case Push(_, _) => Received(s.queue, t.waiters, |s.queue| - |t.queue|)
    case _ => []
  }

  function TakenIn(ls: seq<Label>): seq<string> {
    if ls == [] then [] else
      var before, l := ls[..|ls| - 1], ls[|ls| - 1];
      TakenIn(before) + if Enabled(Run(before), l) then Taken(Run(before), l, Run(ls)) else []
  }

  lemma {:induction false} ReceivedIsPrefix(s: State, vs: seq<string>, served: nat, waiters: seq<Waiter>, n: nat)
    requires Inv(s) && n <= served == Min(|s.queue|, |vs|)
    requires waiters == Deliver(s.waiters, s.queue[..served], vs[..served])
    ensures Received(s.queue, waiters, n) == vs[..n]
  {
    if n > 0 {
      ReceivedIsPrefix(s, vs, served, waiters, n - 1);
      ServedHolds(s, vs, served, waiters, n - 1);
      assert vs[..n] == vs[..n - 1] + [vs[n - 1]];
    }
  }

  lemma ServedHolds(s: State, vs: seq<string>, served: nat, waiters: seq<Waiter>, i: nat)
    requires Inv(s) && i < served == Min(|s.queue|, |vs|)
    requires waiters == Deliver(s.waiters, s.queue[..served], vs[..served])
    ensures s.queue[i] < |waiters| && waiters[s.queue[i]].channel == [vs[i]]
  {
    ServedWaiter(s, vs, i);
  }

  lemma RightPushTakes(s: State, values: seq<string>)
    requires Inv(s)
    ensures var t := Step(s, Push(values, true));
            Received(s.queue, t.waiters, |s.queue| - |t.queue|) + t.items == s.items + values
  {
    var n, t := Min(|s.queue|, |values|), Step(s, Push(values, true));
    ReceivedIsPrefix(s, values, n, t.waiters, n);
    SplitAround(s.items, values, n);
  }

  lemma SplitAround(items: seq<string>, vs: seq<string>, n: nat)
    requires n <= |vs| && (n > 0 ==> items == [])
    ensures vs[..n] + (items + vs[n..]) == items + vs
  {
    assert vs == vs[..n] + vs[n..];
    if n > 0 {
      assert items + vs[n..] == vs[n..] && items + vs == vs;
    } else {
      assert vs[..n] == [] && vs[n..] == vs;
    }
  }

  lemma PopTakes(s: State, count: nat, t: State)
    requires t == Step(s, Pop(count))
    ensures |t.items| <= |s.items| && s.items[..|s.items| - |t.items|] + t.items == s.items
  {
  }

  lemma StepInOrder(s: State, l: Label, t: State)
    requires Inv(s) && Enabled(s, l) && t == Step(s, l) && (l.Push? ==> l.right)
    ensures Taken(s, l, t) + t.items == s.items + Given(l)
  {
    match l {
      case Push(values, right) => RightPushTakes(s, values);
      case Pop(count) => PopTakes(s, count, t);
      case _ =>
    }
  }

  /** Over every interleaving in which all pushes are right pushes, values are taken off the key, by pops and by
      blocked clients together, in the order they were pushed: none overtakes another. */
  lemma {:induction false} FirstInFirstOut(ls: seq<Label>)
    requires forall i :: 0 <= i < |ls| && ls[i].Push? ==> ls[i].right
    ensures TakenIn(ls) + Run(ls).items == PushedIn(ls)
  {
    if ls != [] {
      var before, l := ls[..|ls| - 1], ls[|ls| - 1];
      var s, t := Run(before), Run(ls);
      FirstInFirstOut(before);
      RunIsSafe(before, "");
      if Enabled(s, l) {
        StepInOrder(s, l, t);
        JoinTaken(TakenIn(before), Taken(s, l, t), t.items, s.items, PushedIn(before), Given(l));
      } else {
        assert TakenIn(before) + [] == TakenIn(before) && PushedIn(before) + [] == PushedIn(before);
      }
    }
  }

  lemma JoinTaken(taken: seq<string>, now: seq<string>, after: seq<string>, before: seq<string>,
                  pushed: seq<string>, values: seq<string>)
    requires taken + before == pushed && now + after == before + values
    ensures (taken + now) + after == pushed + values
  {
    assert (taken + now) + after == taken + (now + after);
    assert taken + (before + values) == (taken + before) + values;
  }

  // ---------------------------------------------------------------------------------------
  // Many keys
  // ---------------------------------------------------------------------------------------

  datatype KeyLabel = KeyLabel(key: string, step: Label)

  function StateAt(keys: map<string, State>, key: string): State {
    if key in keys then keys[key] else EMPTY_KEY
  }

  function RunKeys(ls: seq<KeyLabel>): map<string, State> {
    if ls == [] then map[] else
      var keys, last := RunKeys(ls[..|ls| - 1]), ls[|ls| - 1];
      var s := StateAt(keys, last.key);
      if Enabled(s, last.step) then keys[last.key := Step(s, last.step)] else keys
  }

  /** The steps of a run on one key. */
  function LabelsOf(ls: seq<KeyLabel>, key: string): seq<Label> {
    if ls == [] then [] else
      var before, last := LabelsOf(ls[..|ls| - 1], key), ls[|ls| - 1];
      if last.key == key then before + [last.step] else before
  }

  /** An interleaving over many keys is, key by key, a run of that key alone. */
  lemma {:induction false} KeysAreIndependent(ls: seq<KeyLabel>, key: string)
    ensures StateAt(RunKeys(ls), key) == Run(LabelsOf(ls, key))
  {
    if ls != [] {
      KeysAreIndependent(ls[..|ls| - 1], key);
      var before, last := LabelsOf(ls[..|ls| - 1], key), ls[|ls| - 1];
      if last.key == key {
        assert (before + [last.step])[..|before|] == before;
      }
    }
  }

  lemma RunKeysIsSafe(ls: seq<KeyLabel>, key: string, x: string)
    ensures var s := StateAt(RunKeys(ls), key); Inv(s) && Conserved(s, x)
  {
    KeysAreIndependent(ls, key);
    RunIsSafe(LabelsOf(ls, key), x);
  }
}
