/**
  The storage coalescer behind the receiver: a bounded channel, per-tenant buffers,
  flushes on a threshold, a timer and shutdown, and a direct write when the channel
  is full. Producers and the worker interleave at the grain of their critical
  sections; batches the worker has taken but not yet written are `inHand`.
 */
module Coalescer {

  datatype Tenant = Tenant(id: string)

  datatype Entry<T> = Entry(tenant: Tenant, items: seq<T>)

  /** The worker: in its loop, writing its last batches, or gone. `drained` tells why it left. */
  datatype Worker = Looping | Leaving(drained: bool) | Gone(drained: bool)

  datatype State<T> = State(
    maxItems: int, chanCap: nat,
    queue: seq<Entry<T>>, closed: bool, worker: Worker,
    pending: map<Tenant, seq<T>>, pendingN: int, inHand: map<Tenant, seq<T>>,
    store: seq<Entry<T>>,      // what storage has been given, in order
    enqueued: seq<Entry<T>>,   // history: what producers handed in, in order
    directWrites: nat, received: nat, thresholdFlushes: nat, thresholdItems: nat)

  function Fresh<T>(maxItems: int, chanCap: nat): State<T> {
    State(maxItems, chanCap, [], false, Looping, map[], 0, map[], [], [], 0, 0, 0, 0)
  }

  datatype Event<T> =
    | Enqueue(e: Entry<T>)
    | Receive
    | TimerFlush
    | WriteBatch(tenant: Tenant)
    | Close
    | Cancel      // the worker sees the cancelled context
    | Drain       // the worker sees the closed, empty channel
    | Leave

  function Get<T>(m: map<Tenant, seq<T>>, tenant: Tenant): seq<T> {
    if tenant in m then m[tenant] else []
  }

  /** One tenant's items in a list of entries, in order. */
  function Of<T>(es: seq<Entry<T>>, tenant: Tenant): seq<T> {
    if es == [] then []
    else
      var n := |es| - 1;
      Of(es[..n], tenant) + if es[n].tenant == tenant then es[n].items else []
  }

  // ---- steps ----

  function AfterEnqueue<T>(s: State<T>, e: Entry<T>): State<T> {
    if e.items == [] then s
    else if |s.queue| < s.chanCap then s.(queue := s.queue + [e], enqueued := s.enqueued + [e])
    else s.(store := s.store + [e], enqueued := s.enqueued + [e], directWrites := s.directWrites + 1)
  }

  function AfterReceive<T>(s: State<T>): State<T>
    requires s.queue != []
  {
    var e := s.queue[0];
    var batch := Get(s.pending, e.tenant) + e.items;
    var t := s.(queue := s.queue[1..], received := s.received + |e.items|);
    if |batch| >= s.maxItems then
      t.(pending := s.pending - {e.tenant},
         pendingN := s.pendingN + |e.items| - |batch|,
         inHand := s.inHand[e.tenant := batch],
         thresholdFlushes := s.thresholdFlushes + 1, thresholdItems := s.thresholdItems + |batch|)
    else t.(pending := s.pending[e.tenant := batch], pendingN := s.pendingN + |e.items|)
  }

  /** `flushAll` swaps the buffers out; its loop then writes them one by one. */
  function AfterSwap<T>(s: State<T>): State<T> {
    s.(pending := map[], pendingN := 0, inHand := s.pending)
  }

  function AfterWriteBatch<T>(s: State<T>, tenant: Tenant): State<T>
    requires tenant in s.inHand
  {
    s.(inHand := s.inHand - {tenant}, store := s.store + [Entry(tenant, s.inHand[tenant])])
  }

  ghost predicate Enabled<T>(s: State<T>, e: Event<T>) {
    match e
    case Enqueue(_) => !s.closed  // Go panics on a send to a closed channel
    case Receive => s.worker.Looping? && s.inHand == map[] && s.queue != []
    case TimerFlush => s.worker.Looping? && s.inHand == map[]
    case WriteBatch(tenant) => tenant in s.inHand
    case Close => !s.closed
    case Cancel => s.worker.Looping? && s.inHand == map[]
    case Drain => s.worker.Looping? && s.inHand == map[] && s.closed && s.queue == []
    case Leave => s.worker.Leaving? && s.inHand == map[]
  }

  ghost function Apply<T>(s: State<T>, e: Event<T>): State<T>
    requires Enabled(s, e)
  {
    match e
    case Enqueue(x) => AfterEnqueue(s, x)
    case Receive => AfterReceive(s)
    case TimerFlush => AfterSwap(s)
    case WriteBatch(tenant) => AfterWriteBatch(s, tenant)
    case Close => s.(closed := true)
    case Cancel => AfterSwap(s).(worker := Leaving(false))
    case Drain => AfterSwap(s).(worker := Leaving(true))
    case Leave => s.(worker := Gone(s.worker.drained))
  }

  ghost predicate IsRun<T>(s: State<T>, es: seq<Event<T>>)
    decreases |es|
  {
    es == [] || (Enabled(s, es[0]) && IsRun(Apply(s, es[0]), es[1..]))
  }

  ghost function End<T>(s: State<T>, es: seq<Event<T>>): State<T>
    requires IsRun(s, es)
    decreases |es|
  {
    if es == [] then s else End(Apply(s, es[0]), es[1..])
  }

  lemma {:induction false} RunSnoc<T>(s: State<T>, es: seq<Event<T>>, e: Event<T>)
    requires IsRun(s, es) && Enabled(End(s, es), e)
    ensures IsRun(s, es + [e]) && End(s, es + [e]) == Apply(End(s, es), e)
    decreases |es|
  {
    if es == [] {
      assert ([] + [e])[1..] == [];
    } else {
      RunSnoc(Apply(s, es[0]), es[1..], e);
      assert (es + [e])[1..] == es[1..] + [e];
    }
  }

  lemma {:induction false} RunConcat<T>(s: State<T>, es: seq<Event<T>>, fs: seq<Event<T>>)
    requires IsRun(s, es) && IsRun(End(s, es), fs)
    ensures IsRun(s, es + fs) && End(s, es + fs) == End(End(s, es), fs)
    decreases |es|
  {
    if es == [] {
      assert es + fs == fs;
    } else {
      RunConcat(Apply(s, es[0]), es[1..], fs);
      assert (es + fs)[0] == es[0] && (es + fs)[1..] == es[1..] + fs;
    }
  }

  // ---- invariants ----

  /** A tenant's items from storage back to the channel, in the order they will be stored. */
  ghost function Line<T>(s: State<T>, t: Tenant): seq<T> {
    Of(s.store, t) + Get(s.inHand, t) + Get(s.pending, t) + Of(s.queue, t)
  }

  /** Nothing of this tenant is lost, invented or stored twice. */
  ghost predicate Conserved<T>(s: State<T>, t: Tenant) {
    multiset(Of(s.enqueued, t)) == multiset(Line(s, t))
  }

  /** Without direct writes, not even reordered. */
  ghost predicate InOrder<T>(s: State<T>, t: Tenant) {
    Of(s.enqueued, t) == Line(s, t)
  }

  ghost function Sizes<T>(m: map<Tenant, seq<T>>): nat {
    if m == map[] then 0
    else
      var k :| k in m;
      |m[k]| + Sizes(m - {k})
  }

  ghost predicate Shape<T>(s: State<T>) {
    Stages(s) && Tallies(s)
  }

  ghost predicate Tallies<T>(s: State<T>) {
    && s.pendingN == Sizes(s.pending)
    && s.thresholdItems + s.pendingN <= s.received
    && s.thresholdFlushes * s.maxItems <= s.thresholdItems
  }

  ghost predicate Stages<T>(s: State<T>) {
    && |s.queue| <= s.chanCap
    && (forall i :: 0 <= i < |s.queue| ==> s.queue[i].items != [])
    && (forall t :: t in s.pending ==> 0 < |s.pending[t]| < s.maxItems)
    && (forall t :: t in s.inHand ==> s.inHand[t] != [])
    && (s.worker == Leaving(true) || s.worker == Gone(true) ==> s.closed && s.queue == [])
    && (!s.worker.Looping? ==> s.pending == map[])
    && (s.worker.Gone? ==> s.inHand == map[])
  }

  ghost predicate Inv<T>(s: State<T>) {
    && Shape(s)
    && (forall t :: Conserved(s, t))
    && (s.directWrites == 0 ==> forall t :: InOrder(s, t))
  }

  // ---- lemmas about lists and buffers ----

  lemma OfSnoc<T>(es: seq<Entry<T>>, e: Entry<T>, t: Tenant)
    ensures Of(es + [e], t) == Of(es, t) + if e.tenant == t then e.items else []
  {
    assert (es + [e])[..|es|] == es;
  }

  lemma {:induction false} OfPrefix<T>(a: seq<Entry<T>>, b: seq<Entry<T>>, t: Tenant)
    requires a <= b
    ensures |Of(a, t)| <= |Of(b, t)|
  {
    if a != b {
      OfPrefix(a, b[..|b| - 1], t);
    }
  }

  lemma {:induction false} OfHead<T>(es: seq<Entry<T>>, t: Tenant)
    requires es != []
    ensures Of(es, t) == (if es[0].tenant == t then es[0].items else []) + Of(es[1..], t)
  {
    var n := |es| - 1;
    if n == 0 {
      assert es[..0] == [] && es[1..] == [];
    } else {
      OfHead(es[..n], t);
      var rest := es[..n][1..];
      assert es[1..] == rest + [es[n]] && es[..n][0] == es[0];
      OfSnoc(rest, es[n], t);
      Assoc(if es[0].tenant == t then es[0].items else [], Of(rest, t), if es[n].tenant == t then es[n].items else []);
    }
  }

  lemma Assoc<T>(a: seq<T>, b: seq<T>, c: seq<T>)
    ensures a + b + c == a + (b + c)
  {
  }

  lemma {:induction false} SizesRemove<T>(m: map<Tenant, seq<T>>, k: Tenant)
    requires k in m
    ensures Sizes(m) == |m[k]| + Sizes(m - {k})
    decreases |m|
  {
    var j :| j in m && Sizes(m) == |m[j]| + Sizes(m - {j});
    if j != k {
      SizesRemove(m - {j}, k);
      SizesRemove(m - {k}, j);
      assert m - {j} - {k} == m - {k} - {j};
    }
  }

  // ---- every step keeps the invariants ----

  lemma EnqueueFlow<T>(s: State<T>, e: Entry<T>, t: Tenant)
    requires e.items != []
    ensures var mine := if e.tenant == t then e.items else [];
            var u := AfterEnqueue(s, e);
            && Of(u.enqueued, t) == Of(s.enqueued, t) + mine
            && multiset(Line(u, t)) == multiset(Line(s, t)) + multiset(mine)
            && (|s.queue| < s.chanCap ==> Line(u, t) == Line(s, t) + mine)
  {
    OfSnoc(s.enqueued, e, t);
    var mine := if e.tenant == t then e.items else [];
    if |s.queue| < s.chanCap {
      OfSnoc(s.queue, e, t);
      Regroup(Of(s.store, t), Get(s.inHand, t), Get(s.pending, t), Of(s.queue, t), mine);
    } else {
      OfSnoc(s.store, e, t);
      Regroup(Of(s.store, t), Get(s.inHand, t), Get(s.pending, t), Of(s.queue, t), mine);
    }
  }

  lemma Regroup<T>(a: seq<T>, b: seq<T>, c: seq<T>, d: seq<T>, x: seq<T>)
    ensures a + b + c + (d + x) == a + b + c + d + x
    ensures multiset(a + b + c + d + x) == multiset(a + b + c + d) + multiset(x)
    ensures multiset(a + x + b + c + d) == multiset(a + b + c + d) + multiset(x)
  {
  }

  lemma ReceiveFlow<T>(s: State<T>, t: Tenant)
    requires s.queue != [] && s.inHand == map[]
    ensures Line(AfterReceive(s), t) == Line(s, t)
  {
    OfHead(s.queue, t);
    ReceiveGets(s, t);
    var e := s.queue[0];
    Shift(Of(s.store, t), Get(s.pending, t), if e.tenant == t then e.items else [], Of(s.queue[1..], t));
  }

  lemma ReceiveGets<T>(s: State<T>, t: Tenant)
    requires s.queue != [] && s.inHand == map[]
    ensures var e, u := s.queue[0], AfterReceive(s);
            var mine := if e.tenant == t then e.items else [];
            && u.store == s.store && u.queue == s.queue[1..] && Get(s.inHand, t) == []
            && (|| (Get(u.inHand, t) == Get(s.pending, t) + mine && Get(u.pending, t) == [])
                || (Get(u.inHand, t) == [] && Get(u.pending, t) == Get(s.pending, t) + mine))
  {
  }

  lemma Shift<T>(a: seq<T>, p: seq<T>, x: seq<T>, r: seq<T>)
    ensures a + [] + p + (x + r) == a + (p + x) + [] + r == a + [] + (p + x) + r
    ensures p + [] == p && [] + r == r
  {
  }

  lemma WriteFlow<T>(s: State<T>, tenant: Tenant, t: Tenant)
    requires tenant in s.inHand
    ensures Line(AfterWriteBatch(s, tenant), t) == Line(s, t)
  {
    OfSnoc(s.store, Entry(tenant, s.inHand[tenant]), t);
  }

  lemma SwapFlow<T>(s: State<T>, t: Tenant)
    requires s.inHand == map[]
    ensures Line(AfterSwap(s), t) == Line(s, t)
  {
  }

  /** Only producers change a tenant's line; the worker moves items along it. */
  lemma StepFlow<T>(s: State<T>, e: Event<T>, t: Tenant)
    requires Enabled(s, e) && !e.Enqueue?
    ensures Line(Apply(s, e), t) == Line(s, t)
    ensures Apply(s, e).enqueued == s.enqueued && Apply(s, e).directWrites == s.directWrites
  {
    match e
    case Receive => ReceiveFlow(s, t);
    case WriteBatch(tenant) => WriteFlow(s, tenant, t);
    case TimerFlush => SwapFlow(s, t);
    case Cancel => SwapFlow(s, t);
    case Drain => SwapFlow(s, t);
    case _ =>
  }

  lemma ReceiveSizes<T>(s: State<T>)
    requires s.queue != [] && s.pendingN == Sizes(s.pending)
    ensures AfterReceive(s).pendingN == Sizes(AfterReceive(s).pending)
  {
    var e, u := s.queue[0], AfterReceive(s);
    if e.tenant in s.pending {
      SizesRemove(s.pending, e.tenant);
    } else {
      assert s.pending - {e.tenant} == s.pending;
    }
    if e.tenant in u.pending {
      SizesRemove(u.pending, e.tenant);
      assert u.pending - {e.tenant} == s.pending - {e.tenant};
    }
  }

  lemma ReceiveShape<T>(s: State<T>)
    requires Shape(s) && Enabled(s, Receive)
    ensures Shape(AfterReceive(s))
  {
    ReceiveStages(s);
    ReceiveTallies(s);
  }

  lemma ReceiveStages<T>(s: State<T>)
    requires Stages(s) && s.worker.Looping? && s.inHand == map[] && s.queue != []
    ensures Stages(AfterReceive(s))
  {
  }

  lemma ReceiveTallies<T>(s: State<T>)
    requires Tallies(s) && s.queue != []
    ensures Tallies(AfterReceive(s))
  {
    ReceiveSizes(s);
    OneMore(s.thresholdFlushes, s.maxItems);
  }

  lemma OneMore(n: nat, m: int)
    ensures (n + 1) * m == n * m + m
  {
  }

  lemma StepShape<T>(s: State<T>, e: Event<T>)
    requires Shape(s) && Enabled(s, e)
    ensures Shape(Apply(s, e))
  {
    match e
    case Receive => ReceiveShape(s);
    case _ =>
  }

  lemma InvStep<T>(s: State<T>, e: Event<T>)
    requires Inv(s) && Enabled(s, e)
    ensures Inv(Apply(s, e))
  {
    StepShape(s, e);
    forall t
      ensures Conserved(Apply(s, e), t)
      ensures Apply(s, e).directWrites == 0 ==> InOrder(Apply(s, e), t)
    {
      TenantStep(s, e, t);
    }
  }

  lemma TenantStep<T>(s: State<T>, e: Event<T>, t: Tenant)
    requires Inv(s) && Enabled(s, e)
    ensures Conserved(Apply(s, e), t)
    ensures Apply(s, e).directWrites == 0 ==> InOrder(Apply(s, e), t)
  {
    assert Conserved(s, t);
    assert s.directWrites == 0 ==> InOrder(s, t);
    if !e.Enqueue? {
      StepFlow(s, e, t);
    } else if e.e.items != [] {
      EnqueueFlow(s, e.e, t);
    }
  }

  lemma {:induction false} InvRun<T>(s: State<T>, es: seq<Event<T>>)
    requires Inv(s) && IsRun(s, es)
    ensures Inv(End(s, es))
    decreases |es|
  {
    if es != [] {
      InvStep(s, es[0]);
      InvRun(Apply(s, es[0]), es[1..]);
    }
  }

  lemma FreshInv<T>(maxItems: int, chanCap: nat)
    ensures Inv(Fresh<T>(maxItems, chanCap))
  {
    var s := Fresh<T>(maxItems, chanCap);
    forall t
      ensures Conserved(s, t) && InOrder(s, t)
    {
    }
  }

  // ---- the history is what happened ----

  /** Everything producers handed in for a tenant, in order. */
  ghost function HandedIn<T>(es: seq<Event<T>>, t: Tenant): seq<T> {
    if es == [] then []
    else (if es[0].Enqueue? && es[0].e.tenant == t then es[0].e.items else []) + HandedIn(es[1..], t)
  }

  /** Entries that found the channel full. */
  ghost function Overflows<T>(s: State<T>, es: seq<Event<T>>): nat
    requires IsRun(s, es)
    decreases |es|
  {
    if es == [] then 0
    else (if es[0].Enqueue? && es[0].e.items != [] && |s.queue| >= s.chanCap then 1 else 0)
         + Overflows(Apply(s, es[0]), es[1..])
  }

  /** Items the worker took from the channel. */
  ghost function ItemsTaken<T>(s: State<T>, es: seq<Event<T>>): nat
    requires IsRun(s, es)
    decreases |es|
  {
    if es == [] then 0
    else (if es[0].Receive? then |s.queue[0].items| else 0) + ItemsTaken(Apply(s, es[0]), es[1..])
  }

  /** Receives after which the worker had a batch to write. */
  ghost function FullBatches<T>(s: State<T>, es: seq<Event<T>>): nat
    requires IsRun(s, es)
    decreases |es|
  {
    if es == [] then 0
    else (if es[0].Receive? && Apply(s, es[0]).inHand != map[] then 1 else 0) + FullBatches(Apply(s, es[0]), es[1..])
  }

  lemma {:induction false} EnqueuedIsHandedIn<T>(s: State<T>, es: seq<Event<T>>, t: Tenant)
    requires IsRun(s, es)
    ensures Of(End(s, es).enqueued, t) == Of(s.enqueued, t) + HandedIn(es, t)
    decreases |es|
  {
    if es != [] {
      var u := Apply(s, es[0]);
      EnqueuedIsHandedIn(u, es[1..], t);
      EnqueuedNext(s, es[0], t);
      var mine := if es[0].Enqueue? && es[0].e.tenant == t then es[0].e.items else [];
      Assoc(Of(s.enqueued, t), mine, HandedIn(es[1..], t));
    }
  }

  lemma EnqueuedNext<T>(s: State<T>, e: Event<T>, t: Tenant)
    requires Enabled(s, e)
    ensures Of(Apply(s, e).enqueued, t) == Of(s.enqueued, t) + if e.Enqueue? && e.e.tenant == t then e.e.items else []
  {
    if e.Enqueue? {
      OfSnoc(s.enqueued, e.e, t);
    }
  }

  lemma {:induction false} DirectIsOverflow<T>(s: State<T>, es: seq<Event<T>>)
    requires IsRun(s, es)
    ensures End(s, es).directWrites == s.directWrites + Overflows(s, es)
    decreases |es|
  {
    if es != [] {
      DirectIsOverflow(Apply(s, es[0]), es[1..]);
    }
  }

  lemma {:induction false} CountersAreCounts<T>(s: State<T>, es: seq<Event<T>>)
    requires IsRun(s, es)
    ensures End(s, es).received == s.received + ItemsTaken(s, es)
    ensures End(s, es).thresholdFlushes == s.thresholdFlushes + FullBatches(s, es)
    decreases |es|
  {
    if es != [] {
      CountersStep(s, es[0]);
      CountersAreCounts(Apply(s, es[0]), es[1..]);
    }
  }

  lemma CountersStep<T>(s: State<T>, e: Event<T>)
    requires Enabled(s, e)
    ensures var u := Apply(s, e);
            && u.received == s.received + (if e.Receive? then |s.queue[0].items| else 0)
            && u.thresholdFlushes == s.thresholdFlushes + if e.Receive? && u.inHand != map[] then 1 else 0
  {
    if e.Receive? {
      assert s.queue[0].tenant in Apply(s, e).inHand || Apply(s, e).inHand == map[];
    }
  }

  // ---- results over every interleaving ----

  /**
    Per tenant, what was handed in is what storage has, plus what the worker holds,
    plus what is buffered, plus what is still in the channel; in the same order
    unless the channel overflowed; and the buffered total is right.
   */
  lemma NothingLost<T>(maxItems: int, chanCap: nat, es: seq<Event<T>>, t: Tenant)
    requires IsRun(Fresh<T>(maxItems, chanCap), es)
    ensures var s := End(Fresh<T>(maxItems, chanCap), es);
            && multiset(HandedIn(es, t)) ==
               multiset(Of(s.store, t)) + multiset(Get(s.inHand, t)) + multiset(Get(s.pending, t)) + multiset(Of(s.queue, t))
            && (Overflows(Fresh<T>(maxItems, chanCap), es) == 0 ==>
                  HandedIn(es, t) == Of(s.store, t) + Get(s.inHand, t) + Get(s.pending, t) + Of(s.queue, t))
            && s.pendingN == Sizes(s.pending)
  {
    FreshInv<T>(maxItems, chanCap);
    InvRun(Fresh<T>(maxItems, chanCap), es);
    History(maxItems, chanCap, es, t);
    assert Conserved(End(Fresh<T>(maxItems, chanCap), es), t);
    Restated(End(Fresh<T>(maxItems, chanCap), es), HandedIn(es, t), t);
  }

  lemma History<T>(maxItems: int, chanCap: nat, es: seq<Event<T>>, t: Tenant)
    requires IsRun(Fresh<T>(maxItems, chanCap), es)
    ensures var s := End(Fresh<T>(maxItems, chanCap), es);
            Of(s.enqueued, t) == HandedIn(es, t) && s.directWrites == Overflows(Fresh<T>(maxItems, chanCap), es)
  {
    var s := Fresh<T>(maxItems, chanCap);
    EnqueuedIsHandedIn(s, es, t);
    DirectIsOverflow(s, es);
    assert [] + HandedIn(es, t) == HandedIn(es, t);
  }

  lemma Restated<T>(s: State<T>, all: seq<T>, t: Tenant)
    requires Conserved(s, t) && Of(s.enqueued, t) == all
    ensures multiset(all) ==
            multiset(Of(s.store, t)) + multiset(Get(s.inHand, t)) + multiset(Get(s.pending, t)) + multiset(Of(s.queue, t))
    ensures InOrder(s, t) ==> all == Of(s.store, t) + Get(s.inHand, t) + Get(s.pending, t) + Of(s.queue, t)
  {
    FourPieces(Of(s.store, t), Get(s.inHand, t), Get(s.pending, t), Of(s.queue, t));
  }

  lemma FourPieces<T>(a: seq<T>, b: seq<T>, c: seq<T>, d: seq<T>)
    ensures multiset(a + b + c + d) == multiset(a) + multiset(b) + multiset(c) + multiset(d)
  {
  }

  /** Shutdown by closing the channel: storage ends up exactly as if every entry had been written directly. */
  lemma CloseStoresEverything<T>(maxItems: int, chanCap: nat, es: seq<Event<T>>, t: Tenant)
    requires IsRun(Fresh<T>(maxItems, chanCap), es)
    requires End(Fresh<T>(maxItems, chanCap), es).worker == Gone(true)
    ensures var s := End(Fresh<T>(maxItems, chanCap), es);
            && multiset(Of(s.store, t)) == multiset(HandedIn(es, t))
            && (Overflows(Fresh<T>(maxItems, chanCap), es) == 0 ==> Of(s.store, t) == HandedIn(es, t))
  {
    NothingLost(maxItems, chanCap, es, t);
    FreshInv<T>(maxItems, chanCap);
    InvRun(Fresh<T>(maxItems, chanCap), es);
    Only(Of(End(Fresh<T>(maxItems, chanCap), es).store, t));
  }

  lemma Only<T>(a: seq<T>)
    ensures a + [] + [] + [] == a && multiset(a) + multiset([]) + multiset([]) + multiset([]) == multiset(a)
  {
  }

  /** Shutdown by cancellation: exactly what is left in the channel is not stored. */
  lemma CancelLosesTheChannel<T>(maxItems: int, chanCap: nat, es: seq<Event<T>>, t: Tenant)
    requires IsRun(Fresh<T>(maxItems, chanCap), es)
    requires End(Fresh<T>(maxItems, chanCap), es).worker == Gone(false)
    ensures var s := End(Fresh<T>(maxItems, chanCap), es);
            multiset(HandedIn(es, t)) == multiset(Of(s.store, t)) + multiset(Of(s.queue, t))
  {
    NothingLost(maxItems, chanCap, es, t);
    FreshInv<T>(maxItems, chanCap);
    InvRun(Fresh<T>(maxItems, chanCap), es);
  }

  /** The loss is real: an entry enqueued just before cancellation never reaches storage. */
  lemma CancelCanLose<T>(maxItems: int, x: Entry<T>)
    requires x.items != []
    ensures var es := [Enqueue(x), Cancel, Leave];
            IsRun(Fresh<T>(maxItems, 1), es)
            && End(Fresh<T>(maxItems, 1), es).worker == Gone(false)
            && End(Fresh<T>(maxItems, 1), es).enqueued == [x] && End(Fresh<T>(maxItems, 1), es).store == []
  {
    var s0 := Fresh<T>(maxItems, 1);
    var es: seq<Event<T>> := [Enqueue(x), Cancel, Leave];
    var s1 := Apply(s0, es[0]);
    var s2 := Apply(s1, es[1]);
    assert es[1..] == [Cancel, Leave] && es[1..][1..] == [Leave] && es[1..][1..][1..] == [];
    assert IsRun(s2, [Leave]) && End(s2, [Leave]) == Apply(s2, Leave);
    assert IsRun(s1, [Cancel, Leave]) && End(s1, [Cancel, Leave]) == Apply(s2, Leave);
  }

  /** Batching: buffers stay below the threshold, and threshold flushes are paid for by items received. */
  lemma BatchingBound<T>(maxItems: int, chanCap: nat, es: seq<Event<T>>)
    requires IsRun(Fresh<T>(maxItems, chanCap), es)
    ensures var s := End(Fresh<T>(maxItems, chanCap), es);
            && (forall t :: t in s.pending ==> 0 < |s.pending[t]| < s.maxItems)
            && FullBatches(Fresh<T>(maxItems, chanCap), es) * maxItems <= ItemsTaken(Fresh<T>(maxItems, chanCap), es)
            && |s.queue| <= chanCap && s.maxItems == maxItems
  {
    FreshInv<T>(maxItems, chanCap);
    InvRun(Fresh<T>(maxItems, chanCap), es);
    PendingIsNat(End(Fresh<T>(maxItems, chanCap), es));
    CountersAreCounts(Fresh<T>(maxItems, chanCap), es);
    SettingsKept(Fresh<T>(maxItems, chanCap), es);
  }

  lemma {:induction false} SettingsKept<T>(s: State<T>, es: seq<Event<T>>)
    requires IsRun(s, es)
    ensures End(s, es).maxItems == s.maxItems && End(s, es).chanCap == s.chanCap
    decreases |es|
  {
    if es != [] {
      SettingsKept(Apply(s, es[0]), es[1..]);
    }
  }

  lemma PendingIsNat<T>(s: State<T>)
    requires Shape(s)
    ensures s.thresholdItems <= s.received
  {
  }
}
