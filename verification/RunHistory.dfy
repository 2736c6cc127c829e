/** What a run's ledger says at the moments that matter: when an epoch opens and when a region starts. */
module RunHistory {
  import opened Ids
  import opened GraphSpecs
  import opened Staging
  import C = ConfigTransactions
  import S = StateStores
  import T = TriggerEngine

  /** Within an epoch, history only grows, and only immediate publications are committed. */
  ghost predicate Advances(l: Ledger, l': Ledger) {
    && l.staged <= l'.staged && l.committed <= l'.committed && l.discarded <= l'.discarded
    && l.overwritten <= l'.overwritten && l.lost <= l'.lost
    && forall i :: |l.committed| <= i < |l'.committed| ==> l'.committed[i].edge.kind == Immediate
  }

  lemma AdvancesTransitive(a: Ledger, b: Ledger, c: Ledger)
    requires Advances(a, b) && Advances(b, c)
    ensures Advances(a, c)
  {
    forall i | |a.committed| <= i < |c.committed| ensures c.committed[i].edge.kind == Immediate {
      if i < |b.committed| {
        assert c.committed[i] == b.committed[i];
      }
    }
  }

  /** Everything staged before the epoch opened is settled, and of what was staged since, only immediate
      publications are committed. Nothing is lost. */
  ghost predicate EpochOpen(base: nat, l: Ledger) {
    && base <= |l.staged| && l.lost == []
    && (forall i :: 0 <= i < base ==> l.staged[i] in Settled(l))
    && forall p :: p in l.committed && p.ticket >= base ==> p.edge.kind == Immediate
  }

  lemma SettledStays(l: Ledger, l': Ledger, p: Routed)
    requires Advances(l, l') && p in Settled(l)
    ensures p in Settled(l')
  {
    assert p in l.committed || p in l.discarded || p in l.overwritten || p in l.lost;
    assert p in l'.committed || p in l'.discarded || p in l'.overwritten || p in l'.lost;
  }

  lemma EpochStaysOpen(base: nat, l: Ledger, l': Ledger)
    requires EpochOpen(base, l) && Advances(l, l') && l'.lost == []
    ensures EpochOpen(base, l')
  {
    hide Settled;
    forall i | 0 <= i < base ensures l'.staged[i] in Settled(l') {
      SettledStays(l, l', l.staged[i]);
    }
    forall p | p in l'.committed && p.ticket >= base ensures p.edge.kind == Immediate {
      var i :| 0 <= i < |l'.committed| && l'.committed[i] == p;
      if i < |l.committed| {
        assert l.committed[i] == p;
      }
    }
  }

  /** With nothing held, everything ever staged is settled: an epoch opens. */
  lemma EpochOpens(st: Stages, l: Ledger)
    requires Balanced(st, l) && st == Stages([], [], [], []) && l.lost == []
    ensures EpochOpen(|l.staged|, l)
  {
    forall i | 0 <= i < |l.staged| ensures l.staged[i] in Settled(l) {
      assert l.staged[i] in multiset(l.staged);
    }
    forall p | p in l.committed ensures p.ticket < |l.staged| {
      assert p in Settled(l) && p in multiset(l.staged);
      var i :| 0 <= i < |l.staged| && l.staged[i] == p;
    }
  }

  /** One visit of a component, and the invocations its triggers gave it. */
  datatype Visit = Visit(component: Id, given: seq<T.Invocation>)

  /** What a run leaves behind: the visits, the publications staged, the steps of the state store, the stored
      configurations and the updates waiting for the next iteration, and how many loop signals were taken. */
  datatype Trail = Trail(log: seq<Visit>, staged: seq<Routed>, steps: seq<S.Step>, configs: C.Configs, pending: C.Configs, signals: nat)

  /** The moment a region starts: the iteration, the region's place in the plan, how much had been staged when
      the iteration opened, the ledger, the router's stores, and what the run had left behind. */
  datatype Mark = Mark(iteration: nat, position: nat, base: nat, ledger: Ledger, stores: Stages, trail: Trail)

  /** When a region starts, every immediate publication so far, and every publication of earlier iterations, has
      been committed, discarded or overwritten; deferred publications of this iteration have not been committed. */
  ghost predicate MarkRight(m: Mark) {
    && Balanced(m.stores, m.ledger) && m.base <= |m.ledger.staged|
    && forall p :: p in m.ledger.staged ==>
      if p.ticket < m.base || p.edge.kind == Immediate then Delivered(m.ledger, p) else p !in m.ledger.committed
  }

  /** Committed, unless its loop discarded it or async admission overwrote it. */
  predicate Delivered(l: Ledger, p: Routed) {
    p in l.committed || p in l.discarded || (p.edge.Async() && p in l.overwritten)
  }

  lemma QuietMark(m: Mark, active: set<Id>)
    requires Balanced(m.stores, m.ledger) && WellPlaced(m.stores, active) && AllAsync(m.ledger.overwritten)
    requires EpochOpen(m.base, m.ledger) && m.stores.immediate == [] && m.stores.composite == []
    ensures MarkRight(m)
  {
    var st, l, base := m.stores, m.ledger, m.base;
    forall p | p in l.staged
      ensures if p.ticket < base || p.edge.kind == Immediate then Delivered(l, p) else p !in l.committed
    {
      var i :| 0 <= i < |l.staged| && l.staged[i] == p;
      assert p in multiset(l.staged);
      if p.edge.kind == Immediate {
        assert p !in multiset(st.nextEpoch) && p !in multiset(st.ready);
        assert p in Settled(l);
      }
    }
  }

  /** Marks in the order they were made: through the plan within an iteration, then on to the next iteration,
      which opens only after everything the one before it staged. */
  ghost predicate Follows(a: Mark, b: Mark) {
    && a.ledger.staged <= b.ledger.staged && a.iteration <= b.iteration
    && (a.iteration == b.iteration ==> a.position < b.position && a.base == b.base)
    && (a.iteration < b.iteration ==> |a.ledger.staged| <= b.base)
  }

  ghost predicate TraceRight(trace: seq<Mark>) {
    && (forall m :: m in trace ==> MarkRight(m))
    && forall j, k :: 0 <= j < k < |trace| ==> Follows(trace[j], trace[k])
  }

  /** An immediate publication staged before a region starts, in the same iteration or an earlier one, has been
      committed by then, unless its loop discarded it. */
  lemma ImmediateArrivesFirst(trace: seq<Mark>, k: nat, p: Routed)
    requires TraceRight(trace) && k < |trace|
    requires p in trace[k].ledger.staged && p.edge.kind == Immediate
    ensures p in trace[k].ledger.committed || p in trace[k].ledger.discarded
  {
    assert MarkRight(trace[k]);
    assert !p.edge.Async();
  }

  /** The opening of an epoch commits what was deferred, and does nothing else. */
  ghost predicate Opens(end: Ledger, l: Ledger) {
    && l == end.(committed := l.committed) && end.committed <= l.committed
    && forall i :: |end.committed| <= i < |l.committed| ==> l.committed[i].edge.kind != Immediate
  }

  /** From one region start to the next: within an iteration only immediate publications are committed; after its last
      region, the next iteration opens. */
  ghost predicate Stepped(a: Mark, iteration: nat, position: nat, l: Ledger) {
    if iteration == a.iteration then Advances(a.ledger, l)
    else iteration == a.iteration + 1 && position == 0 && exists end: Ledger :: Advances(a.ledger, end) && Opens(end, l)
  }

  /** Every iteration knows how much was staged when it opened, and marks follow one another step by step. */
  ghost predicate Passes(trace: seq<Mark>) {
    && (forall k :: 0 <= k < |trace| && trace[k].position == 0 ==> trace[k].base == |trace[k].ledger.staged|)
    && forall k :: 0 < k < |trace| ==> Stepped(trace[k - 1], trace[k].iteration, trace[k].position, trace[k].ledger)
  }

  /** The ledger holds a deferred publication staged since then, and has not committed it. */
  ghost predicate NotYet(base: nat, l: Ledger) {
    forall n :: base <= n < |l.staged| && l.staged[n].edge.kind != Immediate ==> l.staged[n] !in l.committed
  }

  /** The iteration of one mark ended with nothing deferred committed, and by the next mark, which opens the next
      iteration, all that it deferred has arrived. */
  ghost predicate HeldUntilOpen(a: Mark, b: Mark) {
    exists end: Ledger :: Advances(a.ledger, end) && Opens(end, b.ledger) && NotYet(a.base, end) && AllArrived(a.base, end.staged, b.ledger)
  }

  ghost predicate AllArrived(base: nat, staged: seq<Routed>, l: Ledger) {
    forall n :: base <= n < |staged| ==> Delivered(l, staged[n])
  }

  /** What an iteration defers is committed at the opening of the next one, and never earlier: at every region start
      of the iteration and at its end it is not committed, and from the opening of the next one on it is, unless its
      loop discarded it or async admission overwrote it. */
  ghost predicate DeferredRight(trace: seq<Mark>) {
    && (forall k :: 0 <= k < |trace| ==> NotYet(trace[k].base, trace[k].ledger))
    && (forall j, k :: 0 <= j < k < |trace| && trace[j].iteration < trace[k].iteration ==> ArrivedSince(trace[j], trace[k]))
    && (forall k :: 0 < k < |trace| && trace[k - 1].iteration < trace[k].iteration ==> HeldUntilOpen(trace[k - 1], trace[k]))
  }

  /** Everything staged between the openings of the two marks' iterations has arrived at the later one, and nothing of
      it that was deferred had been committed at the earlier one. */
  ghost predicate ArrivedSince(a: Mark, b: Mark) {
    && a.base <= b.base <= |b.ledger.staged| && AllArrived(a.base, b.ledger.staged[..b.base], b.ledger)
    && forall n :: a.base <= n < b.base && b.ledger.staged[n].edge.kind != Immediate ==> b.ledger.staged[n] !in a.ledger.committed
  }

  lemma CommittedWasStaged(st: Stages, l: Ledger, p: Routed)
    requires Balanced(st, l) && p in l.committed
    ensures p.ticket < |l.staged| && l.staged[p.ticket] == p
  {
    assert p in Settled(l) && p in multiset(l.staged);
    var i :| 0 <= i < |l.staged| && l.staged[i] == p;
  }

  lemma DeferredUncommitted(m: Mark, p: Routed)
    requires MarkRight(m) && p.ticket >= m.base && p.edge.kind != Immediate
    ensures p !in m.ledger.committed
  {
    hide Balanced, Delivered;
    if p in m.ledger.committed {
      CommittedWasStaged(m.stores, m.ledger, p);
    }
  }

  lemma MarkNotYet(m: Mark)
    requires MarkRight(m)
    ensures NotYet(m.base, m.ledger)
  {
    forall n | m.base <= n < |m.ledger.staged| && m.ledger.staged[n].edge.kind != Immediate
      ensures m.ledger.staged[n] !in m.ledger.committed
    {
      assert m.ledger.staged[n] in m.ledger.staged && m.ledger.staged[n].ticket == n;
    }
  }

  /** While only immediate publications are committed, what is deferred stays uncommitted. */
  lemma StillNotYet(m: Mark, l: Ledger)
    requires MarkRight(m) && Advances(m.ledger, l) && forall i :: 0 <= i < |l.staged| ==> l.staged[i].ticket == i
    ensures NotYet(m.base, l)
  {
    forall n | m.base <= n < |l.staged| && l.staged[n].edge.kind != Immediate ensures l.staged[n] !in l.committed {
      DeferredUncommitted(m, l.staged[n]);
      NotCommittedSince(m.ledger, l, l.staged[n]);
    }
  }

  lemma NotCommittedSince(l: Ledger, l': Ledger, p: Routed)
    requires Advances(l, l') && p !in l.committed && p.edge.kind != Immediate
    ensures p !in l'.committed
  {
    forall i | 0 <= i < |l'.committed| ensures l'.committed[i] != p {
      if i < |l.committed| {
        assert l'.committed[i] == l.committed[i];
      }
    }
  }

  lemma MarkTickets(m: Mark)
    requires MarkRight(m)
    ensures forall i :: 0 <= i < |m.ledger.staged| ==> m.ledger.staged[i].ticket == i
  {
  }

  lemma MarkArrived(m: Mark, base: nat)
    requires MarkRight(m) && base <= m.base
    ensures m.base <= |m.ledger.staged| && AllArrived(base, m.ledger.staged[..m.base], m.ledger)
  {
    hide Delivered;
    forall n | base <= n < m.base ensures Delivered(m.ledger, m.ledger.staged[n]) {
      assert m.ledger.staged[n] in m.ledger.staged && m.ledger.staged[n].ticket == n;
    }
  }

  lemma OpensHeld(a: Mark, b: Mark)
    requires MarkRight(a) && MarkRight(b) && Stepped(a, b.iteration, b.position, b.ledger) && a.iteration < b.iteration
    requires b.base == |b.ledger.staged| && a.base <= b.base
    ensures HeldUntilOpen(a, b)
  {
    hide MarkRight, Advances, NotYet, AllArrived;
    var end: Ledger :| Advances(a.ledger, end) && Opens(end, b.ledger);
    MarkTickets(b);
    StillNotYet(a, end);
    MarkArrived(b, a.base);
    assert b.ledger.staged[..b.base] == end.staged;
  }

  lemma MarkArrivedSince(a: Mark, b: Mark)
    requires MarkRight(a) && MarkRight(b) && Follows(a, b) && a.iteration < b.iteration
    ensures ArrivedSince(a, b)
  {
    hide Balanced, Delivered, AllArrived;
    MarkArrived(b, a.base);
    MarkTickets(b);
    forall n | a.base <= n < b.base && b.ledger.staged[n].edge.kind != Immediate ensures b.ledger.staged[n] !in a.ledger.committed {
      DeferredUncommitted(a, b.ledger.staged[n]);
    }
  }

  /** Over every run: a deferred publication, wherever in its iteration it was staged, is committed when the next
      iteration opens and never earlier. */
  lemma DeferredArrivesNext(trace: seq<Mark>)
    requires TraceRight(trace) && Passes(trace)
    ensures DeferredRight(trace)
  {
    hide MarkRight, NotYet, ArrivedSince, HeldUntilOpen, Stepped;
    forall k | 0 <= k < |trace| ensures NotYet(trace[k].base, trace[k].ledger) {
      MarkNotYet(trace[k]);
    }
    forall j, k | 0 <= j < k < |trace| && trace[j].iteration < trace[k].iteration ensures ArrivedSince(trace[j], trace[k]) {
      MarkArrivedSince(trace[j], trace[k]);
    }
    forall k | 0 < k < |trace| && trace[k - 1].iteration < trace[k].iteration ensures HeldUntilOpen(trace[k - 1], trace[k]) {
      OpensAtZero(trace[k - 1], trace[k]);
      BaseBounded(trace[k - 1]);
      assert Follows(trace[k - 1], trace[k]);
      OpensHeld(trace[k - 1], trace[k]);
    }
  }

  /** At the end of a run, too, nothing deferred since the last opening has been committed. */
  lemma LastNotYet(trace: seq<Mark>, st: Stages, l: Ledger, position: nat)
    requires trace != [] && TraceRight(trace) && Balanced(st, l)
    requires Stepped(trace[|trace| - 1], trace[|trace| - 1].iteration, position, l)
    ensures NotYet(trace[|trace| - 1].base, l)
  {
    hide MarkRight, Advances, NotYet;
    StillNotYet(trace[|trace| - 1], l);
  }

  /** One iteration: the opening, and then only immediate publications are committed. */
  ghost predicate OnePass(l: Ledger, l': Ledger) {
    exists mid: Ledger :: Opens(l, mid) && Advances(mid, l')
  }

  lemma OpensAtZero(a: Mark, b: Mark)
    requires Stepped(a, b.iteration, b.position, b.ledger) && a.iteration < b.iteration
    ensures b.position == 0
  {
  }

  lemma BaseBounded(m: Mark)
    requires MarkRight(m)
    ensures m.base <= |m.ledger.staged|
  {
  }

  /** Since then, nothing that leaves the region has been committed. */
  ghost predicate HeldBack(l: Ledger, l': Ledger, active: set<Id>) {
    |l.committed| <= |l'.committed| && forall i :: |l.committed| <= i < |l'.committed| ==> !l'.committed[i].edge.Crosses(active)
  }

  lemma HeldBackTransitive(a: Ledger, b: Ledger, c: Ledger, active: set<Id>)
    requires HeldBack(a, b, active) && HeldBack(b, c, active) && b.committed <= c.committed
    ensures HeldBack(a, c, active)
  {
    forall i | |a.committed| <= i < |c.committed| ensures !c.committed[i].edge.Crosses(active) {
      if i < |b.committed| {
        assert c.committed[i] == b.committed[i];
      }
    }
  }

  /** Progress inside a region: time moves on, and no output of the region has got through. */
  ghost predicate Progress(l: Ledger, l': Ledger, active: set<Id>) {
    Advances(l, l') && HeldBack(l, l', active)
  }

  lemma ProgressNone(l: Ledger, active: set<Id>)
    ensures Progress(l, l, active)
  {
  }

  lemma ProgressTransitive(a: Ledger, b: Ledger, c: Ledger, active: set<Id>)
    requires Progress(a, b, active) && Progress(b, c, active)
    ensures Progress(a, c, active)
  {
    AdvancesTransitive(a, b, c);
    HeldBackTransitive(a, b, c, active);
  }

  lemma CommitProgress(st: Stages, l: Ledger, active: set<Id>, accepted: bool)
    requires WellPlaced(st, active) && Fenced(st.immediate, active)
    ensures Progress(l, Committed(l, st.immediate, accepted), active)
  {
    var l' := Committed(l, st.immediate, accepted);
    forall i | |l.committed| <= i < |l'.committed|
      ensures l'.committed[i].edge.kind == Immediate && !l'.committed[i].edge.Crosses(active)
    {
      assert l'.committed[i] == st.immediate[i - |l.committed|];
    }
  }

  /** How a composite region's outputs leave it: after everything else it committed, its immediate outputs in one
      batch or not at all. */
  lemma ReleaseAdvances(l: Ledger, composite: seq<Routed>, accepted: bool)
    ensures Advances(l, Committed(l, Immediates(composite), accepted))
  {
    SplitByKind(composite);
    var l' := Committed(l, Immediates(composite), accepted);
    forall i | |l.committed| <= i < |l'.committed| ensures l'.committed[i].edge.kind == Immediate {
      assert l'.committed[i] in Immediates(composite);
    }
  }

  /** Where a run stands with its trace: every mark is from before this region of this iteration. */
  ghost predicate TraceAt(trace: seq<Mark>, iteration: nat, position: nat, base: nat, l: Ledger) {
    forall m :: m in trace ==>
      && m.ledger.staged <= l.staged && m.iteration <= iteration
      && (m.iteration == iteration ==> m.position < position && m.base == base)
      && (m.iteration < iteration ==> |m.ledger.staged| <= base)
  }

  lemma TraceGrows(trace: seq<Mark>, m: Mark)
    requires TraceRight(trace) && TraceAt(trace, m.iteration, m.position, m.base, m.ledger) && MarkRight(m)
    ensures TraceRight(trace + [m])
    ensures TraceAt(trace + [m], m.iteration, m.position + 1, m.base, m.ledger)
  {
    hide MarkRight;
    forall j, k | 0 <= j < k < |trace + [m]| ensures Follows((trace + [m])[j], (trace + [m])[k]) {
      assert (trace + [m])[j] == trace[j] && trace[j] in trace;
    }
  }

  lemma TraceAges(trace: seq<Mark>, iteration: nat, position: nat, base: nat, l: Ledger, l': Ledger)
    requires TraceAt(trace, iteration, position, base, l) && l.staged <= l'.staged
    ensures TraceAt(trace, iteration, position, base, l')
    ensures TraceAt(trace, iteration + 1, 0, |l'.staged|, l')
  {
  }
}
