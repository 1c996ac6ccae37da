/** The coalescer's code over its fields; each method is a step, or a sequence of steps, of Coalescer. */
module CoalescerCode {
  import opened Coalescer

  class Batcher<T> {
    const maxItems: int
    const chanCap: nat
    var queue: seq<Entry<T>>
    var closed: bool
    var pending: map<Tenant, seq<T>>
    var pendingN: int
    var store: seq<Entry<T>>  // the calls made to the storage backend

    ghost var worker: Worker
    ghost var inHand: map<Tenant, seq<T>>
    ghost var enqueued: seq<Entry<T>>
    ghost var directWrites: nat
    ghost var received: nat
    ghost var thresholdFlushes: nat
    ghost var thresholdItems: nat

    ghost function Model(): State<T>
      reads this
    {
      State(maxItems, chanCap, queue, closed, worker, pending, pendingN, inHand, store, enqueued,
            directWrites, received, thresholdFlushes, thresholdItems)
    }

    constructor (maxItems: int, chanCap: nat)
      ensures Model() == Fresh<T>(maxItems, chanCap)
    {
      this.maxItems, this.chanCap := maxItems, chanCap;
      queue, closed, pending, pendingN, store := [], false, map[], 0, [];
      worker, inHand, enqueued := Looping, map[], [];
      directWrites, received, thresholdFlushes, thresholdItems := 0, 0, 0, 0;
    }

    method Enqueue(e: Entry<T>)
      requires !closed
      modifies this
      ensures Model() == AfterEnqueue(old(Model()), e)
    {
      if e.items == [] {
        return;
      }
      enqueued := enqueued + [e];
      if |queue| < chanCap {
        queue := queue + [e];
      } else {
        store := store + [e];
        directWrites := directWrites + 1;
      }
    }

    /** First critical section of the receive case: the entry joins its tenant's buffer. */
    method Buffer() returns (tenant: Tenant, batch: seq<T>)
      requires queue != []
      modifies `queue, `pending, `pendingN, `received
      ensures tenant == old(queue)[0].tenant && batch == Get(old(pending), tenant) + old(queue)[0].items
      ensures queue == old(queue)[1..] && pending == old(pending)[tenant := batch]
      ensures pendingN == old(pendingN) + |old(queue)[0].items|
      ensures received == old(received) + |old(queue)[0].items|
    {
      var e := queue[0];
      queue := queue[1..];
      tenant, batch := e.tenant, Get(pending, e.tenant) + e.items;
      pending := pending[tenant := batch];
      pendingN := pendingN + |e.items|;
      received := received + |e.items|;
    }

    /** Second critical section, at the threshold: the worker takes the batch. */
    method TakeBatch(tenant: Tenant, batch: seq<T>)
      modifies `pending, `pendingN, `inHand, `thresholdFlushes, `thresholdItems
      ensures pending == old(pending) - {tenant} && pendingN == old(pendingN) - |batch|
      ensures inHand == old(inHand)[tenant := batch]
      ensures thresholdFlushes == old(thresholdFlushes) + 1 && thresholdItems == old(thresholdItems) + |batch|
    {
      pending := pending - {tenant};
      pendingN := pendingN - |batch|;
      inHand := inHand[tenant := batch];
      thresholdFlushes, thresholdItems := thresholdFlushes + 1, thresholdItems + |batch|;
    }

    method Take() returns (tenant: Tenant, full: bool, batch: seq<T>)
      requires queue != [] && inHand == map[]
      modifies this
      ensures Model() == AfterReceive(old(Model()))
      ensures tenant == old(queue)[0].tenant && (full <==> tenant in inHand) && (full ==> inHand == map[tenant := batch])
    {
      tenant, batch := Buffer();
      full := |batch| >= maxItems;
      if full {
        Overwritten(old(pending), tenant, batch);
        TakeBatch(tenant, batch);
      }
    }

    static lemma Overwritten(m: map<Tenant, seq<T>>, tenant: Tenant, batch: seq<T>)
      ensures m[tenant := batch] - {tenant} == m - {tenant}
    {
    }

    method WriteOut(tenant: Tenant, batch: seq<T>)
      requires tenant in inHand && inHand[tenant] == batch
      modifies this`store, this`inHand
      ensures Model() == AfterWriteBatch(old(Model()), tenant)
    {
      store := store + [Entry(tenant, batch)];
      inHand := inHand - {tenant};
    }

    /** The receive case: an entry joins its tenant's buffer, which is written out at the threshold. */
    method ReceiveOne() returns (ghost es: seq<Event<T>>)
      requires queue != [] && inHand == map[] && worker.Looping?
      modifies this
      ensures queue == old(queue)[1..] && closed == old(closed) && inHand == map[] && worker == old(worker)
      ensures old(store) <= store
      ensures IsRun(old(Model()), es) && End(old(Model()), es) == Model()
      ensures forall t :: Line(Model(), t) == Line(old(Model()), t)
    {
      ghost var s := Model();
      var tenant, full, batch := Take();
      ghost var u := Model();
      es := [Receive];
      OneStep(s, Receive);
      if full {
        WriteOut(tenant, batch);
        RunSnoc(s, es, WriteBatch(tenant));
        es := es + [WriteBatch(tenant)];
      }
      forall t
        ensures Line(Model(), t) == Line(s, t)
      {
        ReceiveFlow(s, t);
        if full {
          WriteFlow(u, tenant, t);
        }
      }
    }

    static lemma OneStep(s: State<T>, e: Event<T>)
      requires Enabled(s, e)
      ensures IsRun(s, [e]) && End(s, [e]) == Apply(s, e)
    {
      var es := [e];
      assert es[0] == e && es[1..] == [];
      assert IsRun(Apply(s, e), []) && End(Apply(s, e), []) == Apply(s, e);
    }

    /** Swaps the buffers out and writes each, in whatever order the map is iterated; `why` is the event behind it. */
    method FlushAll(ghost why: Event<T>) returns (ghost es: seq<Event<T>>)
      requires inHand == map[] && (why.TimerFlush? || why.Cancel? || why.Drain?) && Enabled(Model(), why)
      modifies this
      ensures pending == map[] && pendingN == 0 && inHand == map[]
      ensures queue == old(queue) && closed == old(closed) && old(store) <= store
      ensures worker == if why.TimerFlush? then old(worker) else Leaving(why.Drain?)
      ensures IsRun(old(Model()), es) && End(old(Model()), es) == Model()
      ensures forall t :: Line(Model(), t) == Line(old(Model()), t)
    {
      ghost var s := Model();
      var batches := SwapOut(why);
      ghost var u := Model();
      OneStep(s, why);
      ghost var fs := WriteBatches(batches);
      es := [why] + fs;
      RunConcat(s, [why], fs);
      forall t
        ensures Line(Model(), t) == Line(s, t)
      {
        StepFlow(s, why, t);
        assert Line(Model(), t) == Line(u, t);
      }
    }

    /** Its critical section. */
    method SwapOut(ghost why: Event<T>) returns (batches: map<Tenant, seq<T>>)
      requires inHand == map[] && (why.TimerFlush? || why.Cancel? || why.Drain?) && Enabled(Model(), why)
      modifies this
      ensures Model() == Apply(old(Model()), why) && batches == inHand
      ensures pending == map[] && pendingN == 0 && queue == old(queue) && closed == old(closed) && store == old(store)
      ensures worker == if why.TimerFlush? then old(worker) else Leaving(why.Drain?)
    {
      batches := pending;
      pending, pendingN := map[], 0;
      inHand := batches;
      if !why.TimerFlush? {
        worker := Leaving(why.Drain?);
      }
    }

    /** The loop of the flush over the batches it took. */
    method WriteBatches(taken: map<Tenant, seq<T>>) returns (ghost es: seq<Event<T>>)
      requires inHand == taken
      modifies this`store, this`inHand
      ensures inHand == map[] && old(store) <= store
      ensures IsRun(old(Model()), es) && End(old(Model()), es) == Model()
      ensures forall t :: Line(Model(), t) == Line(old(Model()), t)
    {
      ghost var s := Model();
      var batches := taken;
      es := [];
      while batches != map[]
        invariant inHand == batches && old(store) <= store
        invariant IsRun(s, es) && End(s, es) == Model()
        invariant forall t :: Line(Model(), t) == Line(s, t)
        decreases |batches|
      {
        var tenant :| tenant in batches;
        ghost var u := Model();
        WriteOut(tenant, batches[tenant]);
        RunSnoc(s, es, WriteBatch(tenant));
        es := es + [WriteBatch(tenant)];
        batches := batches - {tenant};
        forall t
          ensures Line(Model(), t) == Line(s, t)
        {
          WriteFlow(u, tenant, t);
        }
      }
    }

    method Stop()
      modifies this
      ensures Model() == old(Model()).(closed := true)
    {
      closed := true;
    }

    /** One turn of the worker's select. */
    method Turn(pick: Pick) returns (exit: Exit, ghost es: seq<Event<T>>)
      requires inHand == map[] && worker.Looping?
      modifies this
      ensures Turned(old(Model()), Model(), pick, exit, es)
    {
      exit, es := Running, [];
      match pick
      case Tick =>
        es := FlushAll(TimerFlush);
      case Item =>
        if queue != [] {
          es := ReceiveOne();
        } else if closed {
          es := Finish(Drain);
          exit := Drained;
        }
      case Done =>
        es := Finish(Cancel);
        exit := Cancelled;
    }

    static ghost predicate Turned(u: State<T>, w: State<T>, pick: Pick, exit: Exit, es: seq<Event<T>>) {
      && w.inHand == map[] && w.closed == u.closed && u.store <= w.store
      && IsRun(u, es) && End(u, es) == w
      && (forall t :: Line(w, t) == Line(u, t))
      && w.queue == (if pick.Item? && u.queue != [] then u.queue[1..] else u.queue)
      && exit == (match pick
                  case Tick => Running
                  case Item => if u.closed && u.queue == [] then Drained else Running
                  case Done => Cancelled)
      && w.worker == (if exit == Running then Looping else Gone(exit == Drained))
      && (pick.Tick? || exit != Running ==> w.pending == map[] && w.pendingN == 0)
    }

    /** The last flush, and the end of the worker. */
    method Finish(ghost why: Event<T>) returns (ghost es: seq<Event<T>>)
      requires inHand == map[] && (why.Cancel? || why.Drain?) && Enabled(Model(), why)
      modifies this
      ensures pending == map[] && pendingN == 0 && inHand == map[] && worker == Gone(why.Drain?)
      ensures queue == old(queue) && closed == old(closed) && old(store) <= store
      ensures IsRun(old(Model()), es) && End(old(Model()), es) == Model()
      ensures forall t :: Line(Model(), t) == Line(old(Model()), t)
    {
      ghost var s := Model();
      es := FlushAll(why);
      ghost var u := Model();
      worker := Gone(why.Drain?);
      RunSnoc(s, es, Leave);
      es := es + [Leave];
      forall t
        ensures Line(Model(), t) == Line(s, t)
      {
        assert Line(Model(), t) == Line(u, t);
      }
    }

    /**
      The worker's loop, for the turns that its select picks, in whatever order timer
      ticks, entries and a cancellation come; `turns` of them happen before it ends.
      The turns are a run of the model, and no tenant's line of items changes. Whatever
      was received before a tick is stored after it, in order. A worker that drained the
      closed channel has stored everything, a cancelled one all but the channel; without
      cancellation a closed channel is drained after enough turns.
     */
    method Run(picks: seq<Pick>) returns (exit: Exit, turns: nat, ghost es: seq<Event<T>>)
      requires inHand == map[] && worker.Looping?
      modifies this
      ensures IsRun(old(Model()), es) && End(old(Model()), es) == Model()
      ensures turns <= |picks| && RunMeans(old(Model()), Model(), picks, turns, exit)
    {
      ghost var s := Model();
      exit, turns, es := RunTurns(picks);
      WentMeans(s, Model(), es, picks, turns, exit);
    }

    static ghost predicate RunMeans(s: State<T>, w: State<T>, picks: seq<Pick>, turns: nat, exit: Exit)
      requires turns <= |picks|
    {
      && w.closed == s.closed && w.inHand == map[] && (forall t :: Line(w, t) == Line(s, t))
      && w.queue == s.queue[Taken(picks[..turns], |s.queue|)..]
      && TicksStored(s, w.store, picks, turns)
      && (exit == Running ==>
            turns == |picks| && w.worker.Looping?
            && (picks != [] && picks[|picks| - 1].Tick? ==> w.pending == map[] && w.pendingN == 0))
      && (exit == Drained ==>
            w.worker == Gone(true) && w.closed && w.queue == [] && w.pending == map[] && w.pendingN == 0
            && forall t :: Of(w.store, t) == Line(s, t))
      && (exit == Cancelled ==>
            w.worker == Gone(false) && turns > 0 && picks[turns - 1].Done? && w.pending == map[] && w.pendingN == 0
            && forall t :: Of(w.store, t) + Of(w.queue, t) == Line(s, t))
      && (w.closed && Done !in picks && Items(picks) > |s.queue| ==> exit == Drained)
    }

    static lemma WentMeans(s: State<T>, w: State<T>, es: seq<Event<T>>, picks: seq<Pick>, turns: nat, exit: Exit)
      requires turns <= |picks| && Went(s, w, es, picks, turns, exit) && (exit == Running ==> turns == |picks|)
      ensures RunMeans(s, w, picks, turns, exit)
    {
      assert picks[..|picks|] == picks;
      if exit != Running {
        StoredAll(w);
        forall t
          ensures Of(w.store, t) + Of(w.queue, t) == Line(s, t)
        {
          assert Line(w, t) == Line(s, t);
        }
      }
      if exit == Drained {
        forall t
          ensures Of(w.store, t) == Line(s, t)
        {
          assert Of(w.store, t) + [] == Of(w.store, t);
        }
      }
    }

    method RunTurns(picks: seq<Pick>) returns (exit: Exit, turns: nat, ghost es: seq<Event<T>>)
      requires inHand == map[] && worker.Looping?
      modifies this
      ensures turns <= |picks| && Went(old(Model()), Model(), es, picks, turns, exit)
      ensures exit == Running ==> turns == |picks|
    {
      ghost var s := Model();
      exit, turns, es := Running, 0, [];
      Begun(s, picks);
      while turns < |picks| && exit == Running
        invariant turns <= |picks| && Went(s, Model(), es, picks, turns, exit)
      {
        exit, es := NextTurn(picks, turns, s, es);
        turns := turns + 1;
      }
    }

    method NextTurn(picks: seq<Pick>, turns: nat, ghost s: State<T>, ghost before: seq<Event<T>>)
      returns (exit: Exit, ghost es: seq<Event<T>>)
      requires turns < |picks| && Went(s, Model(), before, picks, turns, Running)
      modifies this
      ensures Went(s, Model(), es, picks, turns + 1, exit)
    {
      ghost var u := Model();
      ghost var fs;
      exit, fs := Turn(picks[turns]);
      es := before + fs;
      Onward(s, u, Model(), before, fs, picks, turns, exit);
    }

    /** Where the worker, started in s, is after so many turns. */
    static ghost predicate Went(s: State<T>, w: State<T>, es: seq<Event<T>>, picks: seq<Pick>, turns: nat, exit: Exit)
      requires turns <= |picks|
    {
      && IsRun(s, es) && End(s, es) == w
      && w.inHand == map[] && w.closed == s.closed
      && w.worker == (if exit == Running then Looping else Gone(exit == Drained))
      && (forall t :: Line(w, t) == Line(s, t))
      && w.queue == s.queue[Taken(picks[..turns], |s.queue|)..]
      && TicksStored(s, w.store, picks, turns)
      && Ended(s, w, picks, turns, exit)
    }

    static ghost predicate Ended(s: State<T>, w: State<T>, picks: seq<Pick>, turns: nat, exit: Exit)
      requires turns <= |picks|
    {
      && (turns > 0 && (picks[turns - 1].Tick? || exit != Running) ==> w.pending == map[] && w.pendingN == 0)
      && (exit == Drained ==> w.closed && w.queue == [] && turns > 0)
      && (exit == Cancelled ==> turns > 0 && picks[turns - 1].Done?)
      && (exit == Running ==> Done !in picks[..turns] && (w.closed ==> Items(picks[..turns]) <= |s.queue|))
    }

    static lemma Begun(s: State<T>, picks: seq<Pick>)
      requires s.inHand == map[] && s.worker.Looping?
      ensures Went(s, s, [], picks, 0, Running)
    {
      assert picks[..0] == [] && s.queue[0..] == s.queue;
    }

    static lemma Onward(
      s: State<T>, u: State<T>, w: State<T>, es: seq<Event<T>>, fs: seq<Event<T>>, picks: seq<Pick>, turns: nat, exit: Exit)
      requires turns < |picks| && Went(s, u, es, picks, turns, Running) && Turned(u, w, picks[turns], exit, fs)
      ensures Went(s, w, es + fs, picks, turns + 1, exit)
    {
      RunConcat(s, es, fs);
      TakenNext(picks, turns, s.queue);
      LinesKept(s, u, w);
      TicksNext(s, u.store, w, picks, turns);
      EndedNext(s, u, w, picks, turns, exit, fs);
    }

    static lemma LinesKept(s: State<T>, u: State<T>, w: State<T>)
      requires (forall t :: Line(u, t) == Line(s, t)) && forall t :: Line(w, t) == Line(u, t)
      ensures forall t :: Line(w, t) == Line(s, t)
    {
      forall t
        ensures Line(w, t) == Line(s, t)
      {
        assert Line(w, t) == Line(u, t);
      }
    }

    static lemma EndedNext(
      s: State<T>, u: State<T>, w: State<T>, picks: seq<Pick>, turns: nat, exit: Exit, fs: seq<Event<T>>)
      requires turns < |picks| && Ended(s, u, picks, turns, Running) && Turned(u, w, picks[turns], exit, fs)
      requires u.queue == s.queue[Taken(picks[..turns], |s.queue|)..]
      ensures Ended(s, w, picks, turns + 1, exit)
    {
      ItemsNext(picks, turns);
    }

    /** Every tick so far left everything received before it in storage. */
    static ghost predicate TicksStored(s: State<T>, store: seq<Entry<T>>, picks: seq<Pick>, turns: nat)
      requires turns <= |picks|
    {
      forall k :: 0 <= k < turns && picks[k].Tick? ==> StoredBefore(s, store, Taken(picks[..k], |s.queue|))
    }

    /** All but what was behind the first `taken` entries of the channel is stored. */
    static ghost predicate StoredBefore(s: State<T>, store: seq<Entry<T>>, taken: nat)
      requires taken <= |s.queue|
    {
      forall t :: |Of(store, t)| + |Of(s.queue[taken..], t)| >= |Line(s, t)|
    }

    static lemma TicksNext(s: State<T>, store: seq<Entry<T>>, w: State<T>, picks: seq<Pick>, turns: nat)
      requires turns < |picks| && TicksStored(s, store, picks, turns) && store <= w.store
      requires picks[turns].Tick? ==> w.pending == map[] && w.inHand == map[] && w.queue == s.queue[Taken(picks[..turns], |s.queue|)..]
      requires forall t :: Line(w, t) == Line(s, t)
      ensures TicksStored(s, w.store, picks, turns + 1)
    {
      forall k | 0 <= k < turns + 1 && picks[k].Tick?
        ensures StoredBefore(s, w.store, Taken(picks[..k], |s.queue|))
      {
        if k < turns {
          StillStored(s, store, w.store, Taken(picks[..k], |s.queue|));
        } else {
          StoredAll(w);
          NowStored(s, w, Taken(picks[..k], |s.queue|));
        }
      }
    }

    static lemma StillStored(s: State<T>, store: seq<Entry<T>>, more: seq<Entry<T>>, taken: nat)
      requires taken <= |s.queue| && StoredBefore(s, store, taken) && store <= more
      ensures StoredBefore(s, more, taken)
    {
      forall t
        ensures |Of(more, t)| + |Of(s.queue[taken..], t)| >= |Line(s, t)|
      {
        OfPrefix(store, more, t);
      }
    }

    static lemma NowStored(s: State<T>, w: State<T>, taken: nat)
      requires taken <= |s.queue| && w.queue == s.queue[taken..]
      requires forall t :: Line(w, t) == Line(s, t) && Line(w, t) == Of(w.store, t) + Of(w.queue, t)
      ensures StoredBefore(s, w.store, taken)
    {
      forall t
        ensures |Of(w.store, t)| + |Of(s.queue[taken..], t)| >= |Line(s, t)|
      {
        assert Line(w, t) == Of(w.store, t) + Of(w.queue, t);
      }
    }

    /** With the buffers written out, a line is what is stored and what is queued. */
    static lemma StoredAll(s: State<T>)
      requires s.pending == map[] && s.inHand == map[]
      ensures forall t :: Line(s, t) == Of(s.store, t) + Of(s.queue, t)
    {
      forall t
        ensures Line(s, t) == Of(s.store, t) + Of(s.queue, t)
      {
        assert Line(s, t) == Of(s.store, t) + [] + [] + Of(s.queue, t);
      }
    }
  }

  /** What the worker's select picks: the ticker, the channel, or the cancelled context. */
  datatype Pick = Tick | Item | Done

  datatype Exit = Running | Drained | Cancelled

  function Items(picks: seq<Pick>): nat {
    if picks == [] then 0 else Items(picks[..|picks| - 1]) + if picks[|picks| - 1].Item? then 1 else 0
  }

  /** How many of the n entries in the channel these turns take. */
  function Taken(picks: seq<Pick>, n: nat): (k: nat)
    ensures k <= n
  {
    if Items(picks) <= n then Items(picks) else n
  }

  lemma ItemsNext(picks: seq<Pick>, i: nat)
    requires i < |picks|
    ensures Items(picks[..i + 1]) == Items(picks[..i]) + if picks[i].Item? then 1 else 0
    ensures picks[..i + 1] == picks[..i] + [picks[i]]
  {
    assert picks[..i + 1][..i] == picks[..i];
  }

  lemma TakenNext<T>(picks: seq<Pick>, i: nat, queue: seq<T>)
    requires i < |picks|
    ensures var rest := queue[Taken(picks[..i], |queue|)..];
            queue[Taken(picks[..i + 1], |queue|)..] == if picks[i].Item? && rest != [] then rest[1..] else rest
  {
    ItemsNext(picks, i);
  }
}
