/** A serial order under construction: the place a like will have is kept free from its
    exclusion check on, until it commits or is dropped. */
module SerialOrder {
  import R = RibbonRuns
  import V = PairView

  /** A place in the serial order: a committed operation, the like of an open transaction
      from its exclusion check on, or one that was rolled back. */
  datatype Slot = Done(op: R.Op) | Pending(t: nat, actor: int, target: int) | Dropped

  function SlotOps(slot: Slot): seq<R.Op> {
    if slot.Done? then [slot.op] else []
  }

  function Ops(log: seq<Slot>): seq<R.Op> {
    if log == [] then [] else Ops(log[..|log| - 1]) + SlotOps(log[|log| - 1])
  }

  lemma OpsSnoc(log: seq<Slot>, slot: Slot)
    ensures Ops(log + [slot]) == Ops(log) + SlotOps(slot)
  {
    assert (log + [slot])[..|log|] == log;
  }

  lemma {:induction false} OpsConcat(first: seq<Slot>, second: seq<Slot>)
    ensures Ops(first + second) == Ops(first) + Ops(second)
  {
    if second == [] {
      assert first + second == first;
    } else {
      var front, last := second[..|second| - 1], second[|second| - 1];
      assert second == front + [last];
      assert first + second == (first + front) + [last];
      OpsSnoc(first + front, last);
      OpsSnoc(front, last);
      OpsConcat(first, front);
    }
  }

  lemma OpsParts(log: seq<Slot>, before: seq<Slot>, slot: Slot, after: seq<Slot>)
    requires log == before + [slot] + after
    ensures Ops(log) == Ops(before) + SlotOps(slot) + Ops(after)
  {
    OpsConcat(before + [slot], after);
    OpsSnoc(before, slot);
  }

  lemma AppendOps(log: seq<Slot>, slot: Slot)
    ensures multiset(Ops(log + [slot])) == multiset(Ops(log)) + multiset(SlotOps(slot))
  {
    OpsSnoc(log, slot);
  }

  // ----- Committing and dropping a slot -----

  function Settled(slot: Slot, t: nat, committed: bool): Slot {
    if slot.Pending? && slot.t == t then (if committed then Done(R.Like(slot.actor, slot.target)) else Dropped) else slot
  }

  /** The like of transaction t is committed, or dropped, in its place. */
  function Settle(log: seq<Slot>, t: nat, committed: bool): (r: seq<Slot>)
    ensures |r| == |log|
  {
    seq(|log|, i requires 0 <= i < |log| => Settled(log[i], t, committed))
  }

  ghost predicate NoSlot(log: seq<Slot>, t: nat) {
    forall p :: 0 <= p < |log| && log[p].Pending? ==> log[p].t != t
  }

  /** The only slot of transaction t is number p. */
  ghost predicate OnlySlot(log: seq<Slot>, p: nat, t: nat) {
    p < |log| && log[p].Pending? && log[p].t == t && NoSlot(log[..p], t) && NoSlot(log[p + 1..], t)
  }

  ghost predicate HasSlot(log: seq<Slot>, t: nat) {
    exists p :: OnlySlot(log, p, t)
  }

  lemma SettleNothing(log: seq<Slot>, t: nat, committed: bool)
    requires NoSlot(log, t)
    ensures Settle(log, t, committed) == log
  {
  }

  lemma SettleConcat(first: seq<Slot>, second: seq<Slot>, t: nat, committed: bool)
    ensures Settle(first + second, t, committed) == Settle(first, t, committed) + Settle(second, t, committed)
  {
  }

  lemma SettleParts(log: seq<Slot>, p: nat, t: nat, committed: bool)
    requires OnlySlot(log, p, t)
    ensures log == log[..p] + [log[p]] + log[p + 1..]
    ensures Settle(log, t, committed) == log[..p] + [Settled(log[p], t, committed)] + log[p + 1..]
  {
    assert log == log[..p] + [log[p]] + log[p + 1..];
    SettleConcat(log[..p] + [log[p]], log[p + 1..], t, committed);
    SettleConcat(log[..p], [log[p]], t, committed);
    SettleNothing(log[..p], t, committed);
    SettleNothing(log[p + 1..], t, committed);
    assert Settle([log[p]], t, committed) == [Settled(log[p], t, committed)];
  }

  lemma PendingSplit(log: seq<Slot>, p: nat)
    requires p < |log| && log[p].Pending?
    ensures Ops(log) == Ops(log[..p]) + Ops(log[p + 1..])
  {
    OpsParts(log, log[..p], log[p], log[p + 1..]);
    assert Ops(log[..p]) + [] == Ops(log[..p]);
  }

  lemma SettleSplit(log: seq<Slot>, p: nat, t: nat, committed: bool)
    requires OnlySlot(log, p, t)
    ensures Ops(Settle(log, t, committed))
            == Ops(log[..p]) + (if committed then [R.Like(log[p].actor, log[p].target)] else []) + Ops(log[p + 1..])
  {
    SettleParts(log, p, t, committed);
    OpsParts(Settle(log, t, committed), log[..p], Settled(log[p], t, committed), log[p + 1..]);
  }

  lemma DroppedView(log: seq<Slot>, p: nat, t: nat)
    requires OnlySlot(log, p, t)
    ensures Ops(Settle(log, t, false)) == Ops(log)
  {
    PendingSplit(log, p);
    SettleSplit(log, p, t, false);
    assert Ops(log[..p]) + [] + Ops(log[p + 1..]) == Ops(log[..p]) + Ops(log[p + 1..]);
  }

  // ----- Views along the order -----

  function ViewOf(log: seq<Slot>): V.View {
    V.Run(V.BLANK, Ops(log))
  }

  lemma DoneView(log: seq<Slot>, op: R.Op)
    ensures ViewOf(log + [Done(op)]) == V.Apply(ViewOf(log), op)
  {
    OpsSnoc(log, Done(op));
    V.RunSnoc(V.BLANK, Ops(log), op);
  }

  predicate SlotContends(slot: Slot, a: int, b: int) {
    match slot
    case Done(op) => V.Contends(op, a, b)
    case Pending(_, c, d) => V.Key(c, d) == V.Key(a, b)
    case Dropped => false
  }

  /** The like in slot p was let through, and nothing after it reads or writes its pair's likes and chat. */
  ghost predicate IsFree(log: seq<Slot>, p: nat)
    requires p < |log|
  {
    log[p].Pending? ==>
      && !V.IsExcluded(ViewOf(log[..p]), log[p].actor, log[p].target)
      && forall q :: p < q < |log| ==> !SlotContends(log[q], log[p].actor, log[p].target)
  }

  ghost predicate AllFree(log: seq<Slot>) {
    forall p :: 0 <= p < |log| ==> IsFree(log, p)
  }

  lemma {:induction false} OpsDoNotContend(log: seq<Slot>, a: int, b: int)
    requires forall q :: 0 <= q < |log| ==> !SlotContends(log[q], a, b)
    ensures forall i :: 0 <= i < |Ops(log)| ==> !V.Contends(Ops(log)[i], a, b)
  {
    if log != [] {
      OpsDoNotContend(log[..|log| - 1], a, b);
      assert !SlotContends(log[|log| - 1], a, b);
    }
  }

  /** Committing the like in its place has the effect it would have at the end. */
  lemma SettleEffect(log: seq<Slot>, p: nat, t: nat)
    requires OnlySlot(log, p, t) && IsFree(log, p)
    ensures ViewOf(Settle(log, t, true)) == V.LikeEffect(ViewOf(log), log[p].actor, log[p].target)
  {
    var before, after := Ops(log[..p]), Ops(log[p + 1..]);
    var a, b := log[p].actor, log[p].target;
    PendingSplit(log, p);
    SettleSplit(log, p, t, true);
    var rest := log[p + 1..];
    forall q | 0 <= q < |rest|
      ensures !SlotContends(rest[q], a, b)
    {
      assert rest[q] == log[p + 1 + q];
    }
    OpsDoNotContend(rest, a, b);
    V.RunConcat(V.BLANK, before, after);
    V.RunSnoc(V.BLANK, before, R.Like(a, b));
    V.RunConcat(V.BLANK, before + [R.Like(a, b)], after);
    V.LikeCommutesWithAll(V.Run(V.BLANK, before), after, a, b);
  }

  // ----- Slots that are in nobody's way -----

  lemma AppendFree(log: seq<Slot>, slot: Slot)
    requires AllFree(log)
    requires slot.Pending? ==> !V.IsExcluded(ViewOf(log), slot.actor, slot.target)
    requires forall p :: 0 <= p < |log| && log[p].Pending? ==> !SlotContends(slot, log[p].actor, log[p].target)
    ensures AllFree(log + [slot])
  {
    var all := log + [slot];
    forall p | 0 <= p < |all|
      ensures IsFree(all, p)
    {
      if p < |log| {
        assert IsFree(log, p);
        assert all[..p] == log[..p];
      } else {
        assert all[..p] == log;
      }
    }
  }

  lemma AppendExclusion(log: seq<Slot>, op: R.Op)
    requires AllFree(log) && (op.Dislike? || op.Unblock?)
    ensures AllFree(log + [Done(op)])
  {
    AppendFree(log, Done(op));
  }

  lemma AppendOnlySlot(log: seq<Slot>, slot: Slot, p: nat, u: nat)
    requires OnlySlot(log, p, u) && (slot.Pending? ==> slot.t != u)
    ensures OnlySlot(log + [slot], p, u)
  {
    assert (log + [slot])[..p] == log[..p];
    assert (log + [slot])[p + 1..] == log[p + 1..] + [slot];
  }

  lemma AppendHasSlot(log: seq<Slot>, slot: Slot, u: nat)
    requires HasSlot(log, u) && (slot.Pending? ==> slot.t != u)
    ensures HasSlot(log + [slot], u)
  {
    var p: nat :| OnlySlot(log, p, u);
    AppendOnlySlot(log, slot, p, u);
  }

  lemma NewOnlySlot(log: seq<Slot>, slot: Slot)
    requires slot.Pending? && NoSlot(log, slot.t)
    ensures HasSlot(log + [slot], slot.t)
  {
    var all := log + [slot];
    assert all[..|log|] == log && all[|log| + 1..] == [];
    assert OnlySlot(all, |log|, slot.t);
  }

  /** The slot of another transaction stays where it is. */
  lemma SettleOtherSlot(log: seq<Slot>, t: nat, committed: bool, p: nat, u: nat)
    requires OnlySlot(log, p, u) && u != t
    ensures OnlySlot(Settle(log, t, committed), p, u)
  {
    var settled := Settle(log, t, committed);
    assert forall q :: 0 <= q < |log| && settled[q].Pending? ==> log[q].Pending? && settled[q].t == log[q].t;
    assert forall q :: 0 <= q < p ==> log[..p][q] == log[q] && settled[..p][q] == settled[q];
    var rest, after := settled[p + 1..], log[p + 1..];
    assert forall q :: 0 <= q < |rest| && rest[q].Pending? ==> after[q].Pending? && rest[q].t == after[q].t;
  }

  lemma SettlePrefix(log: seq<Slot>, t: nat, committed: bool, q: nat)
    requires q <= |log|
    ensures Settle(log, t, committed)[..q] == Settle(log[..q], t, committed)
  {
  }

  lemma OnlySlotOfPrefix(log: seq<Slot>, p: nat, t: nat, q: nat)
    requires OnlySlot(log, p, t) && p < q <= |log|
    ensures OnlySlot(log[..q], p, t)
  {
    var front := log[..q];
    assert front[..p] == log[..p];
    var rest, after := front[p + 1..], log[p + 1..];
    assert forall i :: 0 <= i < |rest| ==> rest[i] == after[i];
  }

  lemma FreeInPrefix(log: seq<Slot>, p: nat, q: nat)
    requires p < q <= |log| && IsFree(log, p)
    ensures IsFree(log[..q], p)
  {
    assert log[..q][..p] == log[..p];
  }

  lemma NoSlotBefore(log: seq<Slot>, p: nat, t: nat, q: nat)
    requires OnlySlot(log, p, t) && q <= p
    ensures NoSlot(log[..q], t)
  {
    var front, before := log[..q], log[..p];
    assert forall i :: 0 <= i < q ==> front[i] == before[i];
  }

  /** A settled like leaves the exclusions along the order as they are. */
  lemma SettlePrefixBans(log: seq<Slot>, p: nat, t: nat, committed: bool, q: nat)
    requires OnlySlot(log, p, t) && IsFree(log, p) && q <= |log|
    ensures ViewOf(Settle(log, t, committed)[..q]).bans == ViewOf(log[..q]).bans
  {
    SettlePrefix(log, t, committed, q);
    if p < q {
      OnlySlotOfPrefix(log, p, t, q);
      FreeInPrefix(log, p, q);
      if committed {
        SettleEffect(log[..q], p, t);
      } else {
        DroppedView(log[..q], p, t);
      }
    } else {
      NoSlotBefore(log, p, t, q);
      SettleNothing(log[..q], t, committed);
    }
  }

  lemma SettleFree(log: seq<Slot>, p: nat, t: nat, committed: bool)
    requires AllFree(log) && OnlySlot(log, p, t)
    ensures AllFree(Settle(log, t, committed))
  {
    var settled := Settle(log, t, committed);
    forall q | 0 <= q < |settled|
      ensures IsFree(settled, q)
    {
      assert IsFree(log, q) && IsFree(log, p);
      if settled[q].Pending? {
        SettlePrefixBans(log, p, t, committed, q);
        forall r | q < r < |settled|
          ensures !SlotContends(settled[r], settled[q].actor, settled[q].target)
        {
          assert !SlotContends(log[r], log[q].actor, log[q].target);
        }
      }
    }
  }
}
