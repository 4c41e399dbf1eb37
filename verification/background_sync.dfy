/**
 Background sync of queued newsletter subscriptions. Only the `newsletter-sync`
 tag starts a drain. The drain loads the pending records and walks them in
 order, one at a time: submit, then remove from the durable queue. Any failure
 of a record is caught and logged and the walk goes on; a failure to load the
 queue is caught too, so the drain's promise always fulfils.
 */
module BackgroundSync {
  import opened Events

  /** A pending subscription; `id` is its key in the durable queue. */
  datatype Subscription = Subscription(id: int, email: string)

  const SyncTag := "newsletter-sync"

  /** The durable queue is keyed by `id`, so no two records share one. */
  predicate UniqueIds(q: seq<Subscription>) {
    forall i, j | 0 <= i < j < |q| :: q[i].id != q[j].id
  }

  /** Deleting the record keyed `id` from the durable queue. */
  function RemoveById(q: seq<Subscription>, id: int): (r: seq<Subscription>)
    ensures forall x :: x in r <==> x in q && x.id != id
    ensures (forall x | x in q :: x.id != id) ==> r == q
  {
    if q == [] then []
    else if q[0].id == id then RemoveById(q[1..], id)
    else [q[0]] + RemoveById(q[1..], id)
  }

  lemma {:induction false} RemoveByIdDistributes(a: seq<Subscription>, b: seq<Subscription>, id: int)
    ensures RemoveById(a + b, id) == RemoveById(a, id) + RemoveById(b, id)
  {
    if a == [] {
      assert a + b == b;
    } else {
      assert (a + b)[0] == a[0];
      assert (a + b)[1..] == a[1..] + b;
      RemoveByIdDistributes(a[1..], b, id);
    }
  }

  /** A record leaves the queue only when both its submission and its removal succeed. */
  predicate Completes(x: Subscription, submitOk: Subscription -> bool, removeOk: int -> bool) {
    submitOk(x) && removeOk(x.id)
  }

  /** Reference result of a drain: the records that did not complete, in queue order. */
  function Retained(q: seq<Subscription>, submitOk: Subscription -> bool, removeOk: int -> bool): (r: seq<Subscription>)
    ensures forall x :: x in r <==> x in q && !Completes(x, submitOk, removeOk)
  {
    if q == [] then []
    else
      var last := q[|q| - 1];
      assert q == q[..|q| - 1] + [last];
      Retained(q[..|q| - 1], submitOk, removeOk) + (if Completes(last, submitOk, removeOk) then [] else [last])
  }

  /** The calls one record causes: a submission, and a removal only if the
      submission succeeded. */
  function AttemptEffects(x: Subscription, submitOk: Subscription -> bool): seq<Effect> {
    [Submit(x.id)] + (if submitOk(x) then [RemovePending(x.id)] else [])
  }

  /** Reference call log of a drain: every record's calls, record by record, in queue order. */
  function DrainEffects(q: seq<Subscription>, submitOk: Subscription -> bool): seq<Effect> {
    if q == [] then [] else DrainEffects(q[..|q| - 1], submitOk) + AttemptEffects(q[|q| - 1], submitOk)
  }

  /** The ids handed to the submission API, in the order they were handed over. */
  function Submitted(effects: seq<Effect>): seq<int> {
    if effects == [] then []
    else Submitted(effects[..|effects| - 1]) +
         (if effects[|effects| - 1].Submit? then [effects[|effects| - 1].id] else [])
  }

  lemma {:induction false} SubmittedAppend(a: seq<Effect>, b: seq<Effect>)
    ensures Submitted(a + b) == Submitted(a) + Submitted(b)
    decreases |b|
  {
    if b == [] {
      assert a + b == a;
    } else {
      assert (a + b)[..|a + b| - 1] == a + b[..|b| - 1];
      assert (a + b)[|a + b| - 1] == b[|b| - 1];
      SubmittedAppend(a, b[..|b| - 1]);
    }
  }

  function Ids(q: seq<Subscription>): (ids: seq<int>)
    ensures |ids| == |q| && forall i | 0 <= i < |q| :: ids[i] == q[i].id
  {
    if q == [] then [] else Ids(q[..|q| - 1]) + [q[|q| - 1].id]
  }

  /** Each record is submitted exactly once, in queue order, whatever fails. */
  lemma {:induction false} EachRecordSubmittedOnceInOrder(q: seq<Subscription>, submitOk: Subscription -> bool)
    ensures Submitted(DrainEffects(q, submitOk)) == Ids(q)
  {
    if q != [] {
      var last := q[|q| - 1];
      EachRecordSubmittedOnceInOrder(q[..|q| - 1], submitOk);
      SubmittedAppend(DrainEffects(q[..|q| - 1], submitOk), AttemptEffects(last, submitOk));
      var e := AttemptEffects(last, submitOk);
      if submitOk(last) {
        assert e[..1] == [Submit(last.id)];
        assert Submitted(e) == Submitted(e[..1]) + [];
        assert Submitted(e[..1]) == Submitted([]) + [last.id];
      } else {
        assert Submitted(e) == Submitted(e[..0]) + [last.id];
      }
    }
  }

  /** Extending the processed prefix by one record. */
  lemma ProcessedStep(q: seq<Subscription>, i: nat, submitOk: Subscription -> bool, removeOk: int -> bool)
    requires i < |q|
    ensures Retained(q[..i + 1], submitOk, removeOk) ==
              Retained(q[..i], submitOk, removeOk) + (if Completes(q[i], submitOk, removeOk) then [] else [q[i]])
    ensures DrainEffects(q[..i + 1], submitOk) == DrainEffects(q[..i], submitOk) + AttemptEffects(q[i], submitOk)
  {
    assert q[..i + 1][..i] == q[..i];
  }

  /** One turn of the drain loop: the durable queue goes from "processed prefix
      reduced, rest untouched" to the same shape one record further on. */
  lemma DrainStepRemoves(q: seq<Subscription>, i: nat, submitOk: Subscription -> bool, removeOk: int -> bool)
    requires UniqueIds(q) && i < |q| && Completes(q[i], submitOk, removeOk)
    ensures RemoveById(Retained(q[..i], submitOk, removeOk) + q[i..], q[i].id) ==
              Retained(q[..i + 1], submitOk, removeOk) + q[i + 1..]
  {
    var done := Retained(q[..i], submitOk, removeOk);
    ProcessedStep(q, i, submitOk, removeOk);
    assert Retained(q[..i + 1], submitOk, removeOk) == done + [];
    RemoveCurrent(q, i, submitOk, removeOk);
    assert done + [] == done;
  }

  lemma DrainStepKeeps(q: seq<Subscription>, i: nat, submitOk: Subscription -> bool, removeOk: int -> bool)
    requires i < |q| && !Completes(q[i], submitOk, removeOk)
    ensures Retained(q[..i], submitOk, removeOk) + q[i..] == Retained(q[..i + 1], submitOk, removeOk) + q[i + 1..]
  {
    ProcessedStep(q, i, submitOk, removeOk);
    KeepCurrent(q, i, Retained(q[..i], submitOk, removeOk));
  }

  lemma KeepCurrent(q: seq<Subscription>, i: nat, done: seq<Subscription>)
    requires i < |q|
    ensures done + q[i..] == (done + [q[i]]) + q[i + 1..]
  {
    assert q[i..] == [q[i]] + q[i + 1..];
  }

  /** Removing the record at `i` drops exactly that record: ids are unique. */
  lemma RemoveCurrent(q: seq<Subscription>, i: nat, submitOk: Subscription -> bool, removeOk: int -> bool)
    requires UniqueIds(q) && i < |q|
    ensures RemoveById(Retained(q[..i], submitOk, removeOk) + q[i..], q[i].id) ==
              Retained(q[..i], submitOk, removeOk) + q[i + 1..]
  {
    var done := Retained(q[..i], submitOk, removeOk);
    RemoveByIdDistributes(done, q[i..], q[i].id);
    OthersKeepTheirIds(q, i, done);
    assert RemoveById(done, q[i].id) == done;
    assert q[i..] == [q[i]] + q[i + 1..];
    RemoveByIdDistributes([q[i]], q[i + 1..], q[i].id);
    assert RemoveById(q[i + 1..], q[i].id) == q[i + 1..];
  }

  /** Records before `i` (any selection of them) and records after `i` carry ids
      other than that of record `i`. */
  lemma OthersKeepTheirIds(q: seq<Subscription>, i: nat, done: seq<Subscription>)
    requires UniqueIds(q) && i < |q|
    requires forall x | x in done :: x in q[..i]
    ensures forall x | x in done :: x.id != q[i].id
    ensures forall x | x in q[i + 1..] :: x.id != q[i].id
  {
    forall x | x in done ensures x.id != q[i].id {
      var j :| 0 <= j < i && q[..i][j] == x;
    }
    forall x | x in q[i + 1..] ensures x.id != q[i].id {
      var j :| 0 <= j < |q[i + 1..]| && q[i + 1..][j] == x;
      assert x == q[i + 1 + j];
    }
  }

  /** `syncNewsletterSubscriptions`, given the durable queue and the outcomes of
      loading it, of each submission and of each removal. */
  method SyncNewsletterSubscriptions(
    queue: seq<Subscription>, loadOk: bool, submitOk: Subscription -> bool, removeOk: int -> bool)
    returns (remaining: seq<Subscription>, effects: seq<Effect>, settled: Settlement)
    requires UniqueIds(queue)
    ensures settled == Fulfilled
    ensures !loadOk ==> remaining == queue && effects == []
    ensures loadOk ==> remaining == Retained(queue, submitOk, removeOk)
    ensures loadOk ==> effects == DrainEffects(queue, submitOk)
  {
    remaining, effects, settled := queue, [], Fulfilled;
    if !loadOk {
      return;
    }
    var i := 0;
    while i < |queue|
      invariant 0 <= i <= |queue|
      invariant remaining == Retained(queue[..i], submitOk, removeOk) + queue[i..]
      invariant effects == DrainEffects(queue[..i], submitOk)
    {
      var x := queue[i];
      ProcessedStep(queue, i, submitOk, removeOk);
      effects := effects + AttemptEffects(x, submitOk);
      if submitOk(x) && removeOk(x.id) {
        DrainStepRemoves(queue, i, submitOk, removeOk);
        remaining := RemoveById(remaining, x.id);
      } else {
        DrainStepKeeps(queue, i, submitOk, removeOk);
      }
      i := i + 1;
    }
    assert queue[..i] == queue;
  }

  /** The `sync` event: only the newsletter tag drains the queue. */
  method HandleSync(
    tag: string, queue: seq<Subscription>, loadOk: bool, submitOk: Subscription -> bool, removeOk: int -> bool)
    returns (remaining: seq<Subscription>, effects: seq<Effect>)
    requires UniqueIds(queue)
    ensures tag != SyncTag ==> remaining == queue && effects == []
    ensures tag == SyncTag && loadOk ==>
              && remaining == Retained(queue, submitOk, removeOk)
              && effects == DrainEffects(queue, submitOk)
              && Submitted(effects) == Ids(queue)
    ensures tag == SyncTag && !loadOk ==> remaining == queue && effects == []
  {
    if tag == SyncTag {
      var settled;
      remaining, effects, settled := SyncNewsletterSubscriptions(queue, loadOk, submitOk, removeOk);
      if loadOk {
        EachRecordSubmittedOnceInOrder(queue, submitOk);
      }
    } else {
      remaining, effects := queue, [];
    }
  }

  /** Records R1 (succeeds), R2 (its submission fails), R3 (succeeds): the drain
      leaves exactly R2. */
  lemma MiddleFailureLeavesOnlyIt(
    r1: Subscription, r2: Subscription, r3: Subscription, submitOk: Subscription -> bool, removeOk: int -> bool)
    requires Completes(r1, submitOk, removeOk) && Completes(r3, submitOk, removeOk)
    requires !submitOk(r2)
    ensures Retained([r1, r2, r3], submitOk, removeOk) == [r2]
  {
    var q := [r1, r2, r3];
    assert q[..2] == [r1, r2] && q[..2][..1] == [r1] && [r1][..0] == [];
    assert Retained([r1], submitOk, removeOk) == [];
    assert Retained([r1, r2], submitOk, removeOk) == [r2];
  }
}
